# LogFort: a verified model of its core

LogFort reads authentication logs, keeps an event and ban ledger in SQLite, and drives a firewall
(or fail2ban) from that ledger. This project models the parts of it whose correctness is hard to see
from one body and proves what each of them is for. Run `dafny verify dfyconfig.toml` to check it.

| file | models |
|---|---|
| `Numbers.dfy`, `Text.dfy` | 64-bit arithmetic, two's complement, decimal text, `strings.Split`/`Join`/`TrimSpace` |
| `RawUnicode.dfy`, `Pickle.dfy`, `Unpickler.dfy` | the pickle text codec, the stack machine as a specification, and the object that runs it in place |
| `PickleProgram.dfy`, `PickleRoundTrip.dfy` | a language of pickle programs with its meaning, compiler correctness, and the round trips |
| `Client.dfy` | response framing on the socket and the search through a jail's status |
| `Store.dfy`, `Ledger.dfy`, `Migrations.dfy` | the event and ban tables, what every run of them keeps, the dedup migrations |
| `Lifecycle.dfy` | the ban protocol: any number of bans, unbans, sweeps and reconciliations in flight, failing calls, crashes and reboots |
| `Interleaving.dfy` | which step of a run decides whether an address is banned and blocked, and what a ban, an unban and a sweep achieve in company |
| `Enforcement.dfy`, `StrictFirewall.dfy`, `Handlers.dfy` | whole operations: exact agreement, recovery after a reboot, a firewall that refuses to remove what it does not hold, and the handlers, sweep and reconciliation as they run |
| `AutoBan.dfy`, `AutoBanTasks.dfy` | cooldown claims, the 100-slot semaphore, and the automatic bans on top of them |
| `Responder.dfy`, `Threat.dfy` | the allowlist, and the blocklist's prefix index |
| `Settings.dfy` | the settings page and what a restart rebuilds |
| `RateLimiter.dfy`, `Hub.dfy`, `Pipeline.dfy` | the token bucket, the event-stream hub, the ingest workers |

Protocols are state machines over their atomic steps (one SQL statement, one responder call, one map or
channel operation), with a `Run` over arbitrary sequences of steps; properties of runs are proved by
induction over them. Code that updates state in place is a class whose methods are proved equal to the
specification functions those state machines are made of. The clock, the network, the firewall, the
database's failures and text parsers of addresses and durations are parameters: an answer given to
each call, or a function.

## What does not hold, and exactly when it does

* Banned does not imply blocked. In every run, whatever the spellings, failures and interleaving, everything banned is
  blocked at every moment, save for addresses between two writes, exactly when no step exposes one
  (`Lifecycle.AgreementExactly`). The steps that can expose one (`Lifecycle.Exposes`) are:
  * an unban of an address that is banned under another spelling (`::ffff:192.0.2.1`), because the handlers pass the
    text on as it comes (`Enforcement.SpellingsDrift`, and exactly when: `Enforcement.UnbanBlocksRest`);
  * an unban that took place and is reported failed (`Enforcement.LostUnbanDrifts`, and exactly when:
    `Lifecycle.LostUnbanExposes`);
  * a roll-back or a deactivation that the store refuses (`Enforcement.RefusedRollBackDrifts`,
    `Enforcement.RefusedDeactivationDrifts`), a crash between two writes (`Enforcement.CrashInsideBanDrifts`), and a reboot
    (`Enforcement.RebootDrifts`).
* Blocked does not imply banned. Which step decides either is `Interleaving.BannedExactly` and
  `Interleaving.BlockedExactly`. A refused second ban rolls back the first one's row (`Enforcement.FailedRebanOrphans`;
  exactly when a single operation keeps exact agreement is `Enforcement.BanExactness` and `Enforcement.LiftExactness`). An
  unban between a ban's two writes leaves the address blocked without a row of the backend
  (`Enforcement.UnbanInsideBan`): a ban in company ends banned and blocked exactly when nothing takes its row back before
  its call (`Interleaving.LoneBanInCompany`; with further bans of the address, `Interleaving.BanInCompany`). In such a run
  the ban's own feed entry adds a `fail2ban` row, so the comment that it is a no-op (internal/api/api.go:822-824) holds
  only for a ban nothing interrupts (`Lifecycle.BanRuns`).
* A sweep that runs beside other requests can lift a permanent ban made after it listed (`Enforcement.SweepLiftsFreshBan`).
  It deactivates the row it listed and no other while nothing has ended that row, and otherwise one begun since
  (`Interleaving.SweepInCompany`); one that runs alone never touches an unexpired ban (`Enforcement.SweepLifts`).
* A firewall that reports an error when it removes an entry it does not hold keeps bans forever. After a boot and any number
  of sweeps, the store working and whatever the spellings, an active row is lifted exactly when a ban of its entry was put
  back at boot and the row is the first listed at the first sweep that finds an expired row of that entry
  (`StrictFirewall.StrictFirewallStrands`). So:
  * every ban that ran out while the host was down stays, unless another spelling of its address was put back: with
    canonical rows a row stays exactly when it was not put back or no sweep came after its expiry
    (`StrictFirewall.CanonicalRowsStrand`). The comment at cmd/logfort/main.go:309-311 expects the sweep to finish them;
  * of two spellings of one address that have both run out, one stays (`StrictFirewall.SecondSpellingStrands`), the one that
    ran out later if they differ in that: a sweep lifts the first listed row of an entry and no other
    (`StrictFirewall.SweepLiftsLeaders`);
  * a single failed store write after the firewall's removal has the same effect (`StrictFirewall.LostWriteStrands`).

  A row so stranded stays in every run in which its address is not banned again or put back (`StrictFirewall.StrandedForever`).
* `InsertEvent` is two statements without a transaction. Replaying the log after a crash between them repairs the bans
  table exactly when the mirror had nothing to change (`Ledger.TornInsertRepaired`).
* `unpickle` slices out of range exactly when it comes to a BINUNICODE8 whose length takes the cursor past the signed
  64-bit range (`Pickle.RunFaultsExactly`), for example on the nine bytes of `Pickle.NineBytesFault`.
* Text survives the command codec exactly when it stays inside the Basic Multilingual Plane (`RawUnicode.TextRoundTrip`).
* Framing is independent of how the stream is cut exactly when the end marker does not occur early (`Client.ChunkingIndependent`).
* Migration 004 fails on a table in which a NULL port and a port of -1 share a key (`Migrations.RefinedKeyUnique`,
  `Migrations.ShadowedPortFails`).
* Two overlapping automatic-ban calls that find a stale cooldown entry both claim it, in either order
  (`AutoBan.OverlappingCallsBothClaim`). With any number of calls at once and whatever their clocks say, claims are spaced
  exactly when no overwrite is out of date (`AutoBan.SpacedExactly`, and for one overwrite `AutoBan.OverwriteIsSpaced`).
* An unsubscription served before its own subscription removes nothing, for good (`Hub.UnsubscribeSticks`).
* Retention makes a replayed event publishable again (`Pipeline.RetentionRepublishes`): without a further pass a key can be
  published exactly when it is not in the table (`Pipeline.RepublishableExactly`).
* A limiter whose burst is below one token never grants (`RateLimiter.SmallBucketNeverGrants`).

## Model

| member | source | states |
|---|---|---|
| Lifecycle.RunsAgree | internal/api/api.go:806-819 | under every interleaving of any number of operations, failures, crashes and reboots, each address with an active row of the backend is blocked, or an operation on it is between its two writes, or an earlier failed write, crash or second spelling has put it in doubt |
| Lifecycle.StepAgrees | internal/api/api.go:859-868 | each single step, of whatever operation, keeps that agreement: bans write the store first, unbans the firewall first |
| Lifecycle.QuietRunsBlock | internal/api/api.go:1426-1440 | with canonical addresses, and as long as no failed write, no unban reported failed that took place, no crash and no reboot exposes an address, nothing is ever in doubt, and at quiescence everything banned is blocked, whatever other failures there are |
| Lifecycle.AgreementExactly | internal/api/api.go:806-868 | in every run everything banned is blocked or between two writes, at every moment, if and only if no step of it exposes an address |
| Lifecycle.StepExposes | internal/api/api.go:811-868 | from a state with nothing exposed, the addresses exposed after a step are exactly those Exposes names |
| Lifecycle.LostUnbanExposes | internal/api/api.go:859-863 | an unban reported failed that took place exposes its address exactly when that is banned and no other operation on it is between its writes |
| Lifecycle.RunsKeepLedger | internal/store/sqlite.go:529-546 | at most one active row per address, in every run of the protocol |
| Lifecycle.StepIsLedgerOp | internal/store/sqlite.go:160-211 | a protocol step does to the ban table what one ledger operation does, or nothing, and which one |
| Lifecycle.BanWrites | internal/store/sqlite.go:529-537 | what BanIP does to the set of banned addresses: adds its own exactly when no row of any source is active for it |
| Lifecycle.DeactivateWrites | internal/store/sqlite.go:540-546 | an unban removes exactly its address from the banned ones; an unban of another source's rows removes none |
| Lifecycle.MirrorWrites | internal/store/sqlite.go:196-203 | a logged ban never changes which addresses this backend bans |
| Lifecycle.PruneWrites | internal/store/sqlite.go:514-525 | retention never changes which addresses are banned |
| Lifecycle.BanRuns | internal/api/api.go:806-830 | a ban nothing interrupts, whatever else is in flight, changes the books as store, firewall and roll-back in that order do, and its feed entry adds no row |
| Lifecycle.UnbanRuns | internal/api/api.go:859-882 | an uninterrupted unban changes the books as firewall first, store second do |
| Lifecycle.SweepRuns | cmd/logfort/main.go:400-425 | an uninterrupted sweep is the unbans of the expired rows one after the other, a failure skipping to the next |
| Lifecycle.ReconcileRuns | cmd/logfort/main.go:297-327 | an uninterrupted reconciliation blocks the listed addresses one after the other |
| Enforcement.SweepLifts | cmd/logfort/main.go:399-425 | closed form of a sweep: lifts exactly the expired bans both sides answered for, touches no permanent, future or inactive row, and removes exactly the answered addresses |
| Enforcement.SurvivesSweep | cmd/logfort/main.go:411-418 | an expired ban stays active exactly when one of its two steps failed |
| Enforcement.BanLasts | internal/api/api.go:800-807 | from request to end: an uninterrupted ban of an address with no active row adds one row that expires at clock plus duration, or never for duration 0; a sweep both sides answer lifts it exactly when a duration was given and has passed, a reconciliation lists it and a boot blocks it exactly until then |
| Enforcement.RestoresAll | cmd/logfort/main.go:305-323 | reconciliation adds exactly the listed addresses whose call went through |
| Enforcement.BootRestores | cmd/logfort/main.go:243-248 | after a reboot from any state the firewall holds exactly the unexpired active bans of the backend and no row has changed |
| Enforcement.RestartRestores | cmd/logfort/main.go:297-327 | after a crash of the process alone, reconciliation adds whatever of the backend's unexpired bans was missing and removes nothing |
| Enforcement.Recovery | cmd/logfort/main.go:297-425 | after any run at all, a boot and a sweep whose firewall calls and writes all succeed (removing an absent entry included) leave no active row whose time has come and no other row changed; if the active rows are canonical, the firewall equals the bans that stand |
| StrictFirewall.StrictFirewallStrands | internal/responder/nftables.go:141-150 | with a firewall that removes exactly what it holds and a working store, whatever the spellings: after any run, a boot and any number of sweeps an active row is unchanged if and only if no ban of its entry was put back at boot or the row is not the first listed at the first sweep that finds an expired row of the entry |
| StrictFirewall.CanonicalRowsStrand | cmd/logfort/main.go:305-323 | with canonical rows that is: it was not put back at boot or no sweep came after its expiry |
| StrictFirewall.SecondSpellingStrands | cmd/logfort/main.go:406-415 | of two expired rows of one held entry a sweep leaves one unchanged, the later one if their expiries differ, and the entry is gone |
| StrictFirewall.SweepLiftsLeaders | cmd/logfort/main.go:399-425 | one such sweep from any quiet state, whatever the spellings: its answers are those of such a firewall at each call, and a row is lifted if and only if the firewall held its entry and the row is the first listed of the entry |
| StrictFirewall.LeaderIsEarliest | internal/store/sqlite.go:464-473 | the first listed of an entry has run out no later than any other expired row of it, and there is one exactly when such a row exists |
| StrictFirewall.StrandedForever | internal/responder/nftables.go:141-150 | a row whose address such a firewall does not hold stays through every run, in any company, in which the address is not banned or put back |
| StrictFirewall.LostWriteStrands | cmd/logfort/main.go:411-418 | one failed store write after the removal makes a row such |
| StrictFirewall.SweepIsStrict | cmd/logfort/main.go:406-415 | the answers used for those sweeps are the ones such a firewall gives at each call, whatever the spellings |
| Enforcement.BanExactness | internal/api/api.go:806-819 | a ban keeps table and firewall in exact agreement if and only if: its outcome is one of the listed safe ones for the rows it finds |
| Enforcement.LiftExactness | internal/api/api.go:859-868 | an unban keeps exact agreement if and only if it was refused, or completed, or had nothing to lift |
| Enforcement.UnbanBlocksRest | internal/api/api.go:852-868 | an unban keeps all that is banned blocked exactly when no other spelling of the address is banned |
| Enforcement.SpellingsDrift | internal/api/api.go:776-782 | a two-request run after which an address is banned and not blocked |
| Enforcement.LostUnbanDrifts | internal/api/api.go:859-863 | a run after which an address is banned and not blocked because its unban was reported failed |
| Enforcement.RefusedRollBackDrifts | internal/api/api.go:811-818 | a run after which an address is banned and not blocked because firewall and roll-back both failed |
| Enforcement.RefusedDeactivationDrifts | internal/api/api.go:859-868 | the same because the store refused the unban's write |
| Enforcement.CrashInsideBanDrifts | internal/api/api.go:806-811 | the same because the process died between a ban's writes |
| Enforcement.RebootDrifts | cmd/logfort/main.go:243-248 | the same because the host restarted |
| Enforcement.FailedRebanOrphans | internal/api/api.go:811-818 | a failed second ban leaves the address blocked and no active row |
| Enforcement.UnbanInsideBan | internal/api/api.go:820-830 | a run of successful calls after which an address is blocked, has no row of the backend, and has a fail2ban row that neither sweep nor reconciliation acts on |
| Enforcement.SweepLiftsFreshBan | cmd/logfort/main.go:406-418 | a run, from any state with an expired ban, in which a sweep lifts a permanent ban made since it listed |
| Interleaving.BannedExactly | internal/store/sqlite.go:529-546 | in every run an address is banned at the end if and only if it was and nothing took its row back, or a row was written and not taken back since |
| Interleaving.BlockedExactly | internal/responder/responder.go:14-19 | the same for the firewall: entered and not removed since |
| Interleaving.BanInCompany | internal/api/api.go:806-819 | a ban between its two writes, everything else running, ends blocked, and banned exactly when no roll-back or deactivation of the address comes between or a further ban writes it again after |
| Interleaving.LoneBanInCompany | internal/api/api.go:806-819 | with no further ban of the address it ends banned and blocked exactly when nothing takes its row back |
| Interleaving.UnbanInCompany | internal/api/api.go:859-868 | an unban between its two writes ends not banned, and blocked exactly when something has entered the address since and nothing removed it |
| Interleaving.SweepInCompany | cmd/logfort/main.go:406-418 | the write of a sweep touches no other address, and its listed row and no other while nothing ended that row; something did exactly when the row it touches was begun since |
| Interleaving.ActiveRowOverRuns | internal/store/sqlite.go:529-546 | an active row stays the one of its address until something ends it; after that any active row was begun since |
| Handlers.Server.HandleBan | internal/api/api.go:756-833 | refused, with nothing changed, exactly on the listed conditions, the 365-day bound included; accepted, it leaves the address in the firewall and one new active row with its address, backend, time, reason and expiry, or the row that was active before; success exactly when both writes succeeded |
| Handlers.Server.BanAddress | internal/api/api.go:806-830 | the ban path shared with the background tasks, with the row and the firewall entry an accepted ban leaves |
| Handlers.Server.HandleUnban | internal/api/api.go:838-883 | the unban request: no rate limit, no allowlist, firewall first; accepted, exactly the active rows of the address end, at that time, and its entry goes |
| Handlers.Server.LiftAddress | cmd/logfort/main.go:411-423 | one address of a sweep: on success exactly its active rows end; the feed entry changes no row |
| Handlers.Server.Sweep | cmd/logfort/main.go:400-425 | the sweep loop, with an unreadable list and a shutdown on the way: exactly the visited addresses, one after the other; a whole pass ends exactly the active rows whose expiry is at or before now and whose two steps succeeded, given one active row per address |
| Handlers.Server.Reconcile | cmd/logfort/main.go:297-327 | the loop over active rows, with an unreadable list and a shutdown on the way: adds exactly the due addresses among the rows it got to |
| Handlers.Server.Boot | cmd/logfort/main.go:243-248 | from an empty set the firewall ends up with exactly the addresses of active rows of the backend without an expiry or with one after now |
| AutoBan.RunsAreDisciplined | internal/api/api.go:1380-1402 | in every reachable state the slots held are the live tasks, at most 100, and a cooldown entry means a caller or task will still decide, or a task has banned the address since it was last claimed |
| AutoBan.NothingStuck | internal/api/api.go:1410-1440 | with nothing in flight an entry means that some task has banned the address since its latest claim, also for an address that was banned before |
| AutoBan.ClaimsAreSpaced | internal/api/api.go:1384-1389 | with calls one at a time, two claims of an address with no release between are at least the window apart, whatever the running checks do; a launch belongs to its caller's claim |
| AutoBan.OverwriteIsSpaced | internal/api/api.go:1384-1389 | after any run, an overwrite keeps the claims spaced if and only if the entry, as it is then, would not stop its caller |
| AutoBan.SpacedExactly | internal/api/api.go:1384-1389 | in every run, with any number of calls at once, claims of an address in a row are a window apart if and only if no overwrite is out of date; with windows that are not negative the same of any two claims between which it was not released |
| AutoBan.OverlappingCallsBothClaim | internal/api/api.go:1381-1389 | two overlapping calls on a stale entry both claim it, in the order they overwrite; unspaced unless the second one's clock is a window ahead |
| AutoBan.LaunchRuns | internal/api/api.go:1384-1402 | what an uninterrupted call does: stopped, launched, or claimed and released because the semaphore was full |
| AutoBan.TaskRuns | internal/api/api.go:1405-1455 | a task that runs to its end frees its slot and keeps its address claimed only if it was blocked |
| AutoBanTasks.Banner.AutoBanEvent | internal/api/api.go:1345-1403 | starts a check exactly when enabled, an event of one of the four attempt types, a usable address that is neither private nor allowlisted, a readable window with a positive threshold, no entry that stops it, and a free slot of 100; what happens to entry, slot and task in each case |
| AutoBanTasks.Banner.ThreatBanEvent | internal/api/api.go:1465-1505 | the same for blocklist bans, which re-arm only after a temporary ban has run out |
| AutoBanTasks.Banner.AutoBanBackground | internal/api/api.go:1405-1455 | below the threshold of attempts since the window, or if the count fails, nothing is written; otherwise the ban path runs, with the row it leaves and its expiry; the slot is freed, and the claim kept only on success |
| AutoBanTasks.Banner.ThreatBanBackground | internal/api/api.go:1507-1539 | the ban path without a count, with the row it leaves and its expiry |
| AutoBanTasks.Banner.Start | internal/api/api.go:1384-1398 | the in-place cooldown and semaphore code does what Launch says; a task starts exactly when no entry stops the call and fewer than 100 run |
| Store.SQLiteStore.InsertEvent | internal/store/sqlite.go:160-211 | error, duplicate or new row, and in each case what both tables hold, column by column, also when only the second statement fails |
| Store.SameKey | internal/store/migrations/008_dedup_audit.sql:7-12 | two events are duplicates exactly when time, address, type, user, detail and port agree, no port and port -1 being one |
| Store.SQLiteStore.BanIP | internal/store/sqlite.go:529-537 | adds exactly one active row with the given address, source, reason, time and expiry (0 is none) unless an active row exists; a failed statement changes nothing |
| Store.SQLiteStore.UnbanIP | internal/store/sqlite.go:540-546 | ends every active row of the address, with the time, and no other |
| Store.SQLiteStore.DeleteOldEvents | internal/store/sqlite.go:514-525 | exactly the old events and the old inactive bans go, in order, with the count reported; an error of the second statement leaves the events deleted |
| Store.SQLiteStore.ListExpiredBans | internal/store/sqlite.go:464-473 | exactly the active rows with an expiry at or before now, the earliest expiry first |
| Store.SQLiteStore.ListBans | internal/store/sqlite.go:447-460 | all rows, or exactly the active ones when asked for those, the latest ban first |
| Store.SQLiteStore.CountIPEvents | internal/store/sqlite.go:609-616 | the number of rows of the address since a time with one of the four attempt types |
| Ledger.AtMostOneActive | internal/store/sqlite.go:193-211 | in every run of bans, unbans, mirrored events and retention, at most one active row per address |
| Ledger.RowFate | internal/store/sqlite.go:514-546 | what one operation may do to a row: nothing; deactivate it, if it names its address and, for a logged unban, its source is fail2ban; or prune it, if inactive and old |
| Ledger.InactiveIsFinal | internal/store/sqlite.go:540-546 | an inactive row never changes again until retention deletes it |
| Ledger.ActiveSurvives | internal/store/sqlite.go:519-525 | an active row stays until an unban names it |
| Ledger.AllKnown | internal/store/sqlite.go:174-191 | after reading a log every event's key is known, and keys stay unique |
| Ledger.ReplayIsIdempotent | internal/store/sqlite.go:174-191 | re-inserting processed events, in any order and number, reports duplicates and changes neither table |
| Ledger.TornInsertRepaired | internal/store/sqlite.go:174-211 | replay repairs a crash between the two statements exactly when the key was known or the mirror changes nothing |
| Ledger.TornBanIsLost | internal/store/sqlite.go:197-203 | such a crash loses a first ban |
| Migrations.KeepsOnePerClass | internal/store/migrations/003_dedup_events.sql:2-4 | exactly one row per old key class survives, the one with the least id |
| Migrations.DedupOnlyDeletes | internal/store/migrations/003_dedup_events.sql:2-4 | a deleted row has a duplicate with a smaller id |
| Migrations.DedupIsUnique | internal/store/migrations/003_dedup_events.sql:8-9 | the first unique index stands on what is left |
| Migrations.RefinedKeyUnique | internal/store/migrations/004_fix_dedup_port.sql:4-6 | the second index stands exactly when no NULL port meets a port of -1 |
| Migrations.OrdinaryPortsMigrate | internal/store/migrations/004_fix_dedup_port.sql:1-6 | it stands for every table without a port of -1 |
| Migrations.ShadowedPortFails | internal/store/migrations/004_fix_dedup_port.sql:5-6 | two rows that 003 keeps and 004 cannot index |
| Migrations.WiderKeyUnique | internal/store/migrations/008_dedup_audit.sql:7-12 | the third index stands wherever the second did |
| Migrations.IndexIsDedupKey | internal/store/migrations/008_dedup_audit.sql:12 | every later InsertEvent keeps it |
| Migrations.EventsTable.MigrateAll | internal/store/migrations/008_dedup_audit.sql:11-12 | the three migrations in order, with the failing index rolled back |
| Pipeline.PublishedOnce | internal/ingest/pipeline.go:146-161 | under every interleaving of workers, handlers and failures, without retention no two published events share a key |
| Pipeline.RunsAreSparing | internal/ingest/pipeline.go:146-161 | with retention, a key is published at most once more than retention deleted it |
| Pipeline.RetentionRepublishes | internal/ingest/pipeline.go:146-161 | a run in which retention lets a line be published twice |
| Pipeline.RepublishableExactly | internal/ingest/pipeline.go:146-161 | from any state in which no worker is about to publish it, a key can be published without a further retention pass if and only if it is not in the table |
| Pipeline.RunsBalance | internal/ingest/pipeline.go:124-134 | parsed plus unparsed is the number of lines taken, less those workers still hold |
| Pipeline.ReplayIsQuiet | internal/ingest/pipeline.go:119-162 | reading a log twice writes and publishes what reading it once does, and counts it twice |
| Pipeline.VisitRuns | internal/ingest/pipeline.go:119-162 | in the state machine, the steps of a worker nothing interrupts compose to the loop body, for every answer of the store |
| Pipeline.WorkPublishes | internal/ingest/pipeline.go:146-161 | the worker's loop publishes, in line order, exactly the lines that are readable, not in the table before, the first of their key that the store took, and taken by the ban table too |
| Pipeline.Worker.One | internal/ingest/pipeline.go:124-161 | the loop body: counts as parsed or unparsed; publishes the event with its blocklist match exactly when it is readable, new and stored by both statements |
| Pipeline.Worker.Work | internal/ingest/pipeline.go:119-163 | the worker's loop over its lines, which publishes the new readable events in line order |
| Settings.SaveIsCoherent | internal/api/api.go:1183-1245 | an accepted request leaves the live configuration equal to the overlay of environment and store |
| Settings.PostsStayCoherent | internal/api/api.go:1065-1290 | so does any sequence of requests, accepted or rejected; what the environment pins never changes |
| Settings.LastPostDecides | internal/api/api.go:1275-1290 | after any sequence of requests a field is what the last saved request that named it said, and as it was if none did |
| Settings.FieldsAre | internal/api/api.go:1127-1180 | that holds of the eleven fields beside the channels: retention and threshold only when positive, the rules only when the environment sets none |
| Settings.ChannelIsField | internal/api/api.go:1107-1126 | and of each channel the environment does not set |
| Settings.Server.HandlePost | internal/api/api.go:1065-1290 | accepted exactly when every check holds, with its bounds, fail2ban has applied its part and the writes, if any, commit; then each of the twelve fields is what the request says or as it was; otherwise nothing changes; live fields, live allowlist and dispatcher stay what a restart would build |
| Settings.Server.constructor | cmd/logfort/main.go:59-67 | boot is coherent exactly when the stored settings could be read or would change nothing |
| Settings.Server.Propose | internal/api/api.go:1097-1180 | the handler's checks, all of them, and the configuration they yield |
| Settings.SavedValue | internal/api/api.go:1211-1240 | what each key of the settings table holds after a request |
| Settings.Live.OverlaySettings | internal/config/config.go:257-327 | the field-by-field overlay is the overlay function |
| Settings.IntReturns | internal/config/config.go:270-326 | a saved number comes back as itself when it is in the accepted range |
| Text.SplitList | internal/config/config.go:243-251 | the loop computes the trimmed non-empty pieces |
| Text.ListOfCons | internal/config/config.go:243-251 | a list is read piece by piece: each piece trimmed, empty ones dropped, the order kept |
| Text.TrimSpaceIs | internal/config/config.go:247 | trimming takes exactly the white space off both ends |
| Text.TrimSpaceSplits | internal/config/config.go:247 | and every text is its trimmed middle between white ends |
| Text.SplitListRoundTrip | internal/api/api.go:1149-1157 | a parsed list written with commas parses to the same list |
| Text.SplitJoin | internal/config/config.go:243-251 | splitting undoes joining for pieces without the separator |
| Numbers.DecimalRoundTrip | internal/api/api.go:1211-1240 | printing a 64-bit integer and parsing it is the identity |
| Numbers.FormatIsDecimal | internal/api/api.go:1211-1240 | the text is base ten, most significant digit first, with a minus sign in front |
| Responder.ParseAllowlist | internal/responder/responder.go:65-77 | a list exactly when every entry is readable, standing for exactly the addresses the entries cover |
| Responder.Allowlist.SetExtra | internal/responder/responder.go:81-90 | all or nothing |
| Responder.Allowlist.Contains | internal/responder/responder.go:93-121 | exactly the addresses some base or extra entry covers |
| Threat.MaskFindsContaining | internal/threat/threat.go:73-82 | the masked address equals the masked prefix exactly when the prefix contains the address, bit by bit |
| Threat.ContainsBlock | internal/threat/threat.go:73-82 | a prefix contains exactly the block of addresses that starts where its free bits are zero and is as long as they can count |
| Threat.MappedIsV4 | internal/threat/threat.go:65 | the IPv4-mapped addresses, and no others, are taken as IPv4 |
| Threat.LineYields | internal/threat/threat.go:117-145 | a line yields what the prefix or address parser makes of the text before the first blank, tab, semicolon or hash, once white space is off both ends, and nothing if that is empty |
| Threat.AnnotatedLine | internal/threat/threat.go:120-123 | so an entry between blanks is read whatever remark follows it |
| Threat.ThreatList.Lookup | internal/threat/threat.go:57-85 | the hash probes answer as a scan over every accepted line would |
| Threat.ThreatList.Count | internal/threat/threat.go:48-53 | how many different addresses and different networks the accepted lines name, once IPv4-mapped addresses are IPv4 and host bits cleared |
| Threat.Parse | internal/threat/threat.go:101-161 | the index stands for exactly the accepted lines, in order and up to the limit: it lists an address exactly when the entry of some line, of all or of those up to the one that fills the cap of five million, names the address or a network containing it |
| Threat.LookupIn | internal/threat/threat.go:57-60 | a nil list answers nothing |
| Pickle.MachineIsBounded | internal/f2b/pickle.go:124-186 | on every byte string the cursor advances each turn and stays in the data, and the stack never holds more values than bytes were consumed |
| Pickle.FaultExactly | internal/f2b/pickle.go:169-176 | within the size limit a step slices out of range exactly on a BINUNICODE8 whose length wraps |
| Pickle.RunFaultsExactly | internal/f2b/pickle.go:124-143 | a whole run ends in a value or an error except exactly when it comes to such an opcode, so never without that byte |
| Pickle.NineBytesFault | internal/f2b/pickle.go:365-374 | nine bytes that reach it |
| Pickle.OpcodeBytes | internal/f2b/pickle.go:191-542 | the byte of every opcode |
| Pickle.QuotedText | internal/f2b/pickle.go:621-660 | quotes go, and each escape stands for its byte |
| Unpickler.Unpickler.Step | internal/f2b/pickle.go:191-542 | the in-place step does what the specification machine does, opcode by opcode, and moves the cursor forward inside the data |
| Unpickler.Unpickler.PopMark | internal/f2b/pickle.go:157-167 | the values above the topmost mark, or an error with the stack kept |
| Unpickler.Unpickler.ReadBytes | internal/f2b/pickle.go:169-176 | the next n bytes, the end-of-stream error, or the out-of-range slice |
| Unpickler.Unpickler.ReadTextLine | internal/f2b/pickle.go:178-186 | the bytes up to the next newline |
| Unpickler.Unpickler.AppendItems | internal/f2b/pickle.go:545-555 | appends to the list on top, or fails |
| Unpickler.Unpickler.SetAll | internal/f2b/pickle.go:558-570 | sets the pairs in the dict on top, or fails |
| Unpickler.Unpickle | internal/f2b/pickle.go:124-143 | the loop returns what the specification machine does from its start state |
| Unpickler.UnquotePyString | internal/f2b/pickle.go:621-660 | quotes stripped and escapes resolved as the specification says |
| PickleProgram.ProgramRuns | internal/f2b/pickle.go:191-542 | compiler correctness: from any stack, the code of any program that has a value leaves the stack intact, pushes exactly that value and ends at its last byte; headers, frames, memo puts and memo gets of scalars included |
| PickleProgram.LiteralExecutes | internal/f2b/pickle.go:268-426 | each literal's opcode and argument push the literal |
| PickleProgram.AllRun | internal/f2b/pickle.go:191-542 | the same for a sequence of programs |
| PickleProgram.GatherRuns | internal/f2b/pickle.go:206-251 | a mark, items and the gathering opcode |
| PickleProgram.ExtendRuns | internal/f2b/pickle.go:234-239 | appending and setting many items at once |
| PickleRoundTrip.ProgramUnpickles | internal/f2b/pickle.go:124-143 | a program and STOP unpickle to the program's value |
| PickleRoundTrip.TreeRoundTrip | internal/f2b/pickle.go:124-143 | every finite tree of None, booleans, integers, floats, strings, bytes, lists and dicts without float keys is unpickled from its pickle |
| PickleRoundTrip.PickleCommand | internal/f2b/pickle.go:24-35 | the encoder loop writes the command's bytes |
| PickleRoundTrip.CommandRoundTrip | internal/f2b/pickle.go:24-56 | unpickling a pickled command gives exactly its arguments |
| PickleRoundTrip.PlainCommandBytes | internal/f2b/pickle.go:24-35 | the exact bytes sent for two plain arguments |
| PickleRoundTrip.PongIsRead | internal/f2b/client.go:102-124 | the exact bytes of a protocol-4 answer, and the payload they are read as |
| PickleRoundTrip.Interpret | internal/f2b/client.go:111-124 | the payload exactly of a two-element list headed by code 0, and which error otherwise |
| PickleRoundTrip.ResponseRoundTrip | internal/f2b/client.go:102-124 | a success answer carrying any tree is decoded and unwrapped to it |
| RawUnicode.EscapeRawUnicode | internal/f2b/pickle.go:40-56 | the loop computes the escaped text |
| RawUnicode.EscapeOfRune | internal/f2b/pickle.go:40-56 | a code point is sent as itself, as its four hexadecimal digits, or as those of its two surrogates |
| RawUnicode.EscapeIsOneLine | internal/f2b/pickle.go:37-56 | escaped text holds only printable ASCII, so no newline |
| RawUnicode.UnescapeRawUnicode | internal/f2b/pickle.go:600-617 | the loop computes the unescaped text |
| RawUnicode.TextRoundTrip | internal/f2b/pickle.go:598-617 | unescaping undoes escaping exactly for text of the Basic Multilingual Plane |
| RawUnicode.Utf8IsStandard | internal/f2b/pickle.go:606-612 | the bytes of a code point are its UTF-8 |
| RawUnicode.AstralRuneIsReplaced | internal/f2b/pickle.go:45-48 | a code point above U+FFFF comes back as two replacement characters |
| Numbers.DecodeLongLE | internal/f2b/pickle.go:583-596 | the wrapped two's-complement value of any byte string |
| Numbers.DecodeLongExact | internal/f2b/pickle.go:582-596 | it is the true value exactly when that fits in 64 bits, so always up to eight bytes |
| Numbers.LittleEndianRoundTrip | internal/f2b/pickle.go:280-291 | fixed-width little-endian numbers round-trip |
| Numbers.TwosRoundTrip | internal/f2b/pickle.go:582-596 | two's-complement encoding round-trips |
| Client.ReadResponse | internal/f2b/client.go:82-102 | the read loop does what the specification of framing says |
| Client.ReceiveIs | internal/f2b/client.go:82-102 | the loop ends at the first read that brings an error, exceeds 4 MiB or completes the end marker, and returns accordingly |
| Client.ChunkingIndependent | internal/f2b/client.go:84-102 | every way of cutting the stream yields the payload exactly when the end marker does not occur early |
| Client.ExchangeRoundTrip | internal/f2b/client.go:82-108 | framing, decoding and unwrapping give back the tree the server sent |
| Client.SearchFindsFirstEntry | internal/f2b/manager.go:158-177 | the search returns the list of the first matching node in pre-order, and nothing only if there is none |
| Client.StatusIsSearched | internal/f2b/manager.go:158-177 | in a status of fail2ban's shape the list two levels down is found |
| Client.Banned | internal/f2b/manager.go:136-154 | exactly that list's non-empty strings, in order |
| RateLimiter.Limiter.Allow | internal/api/api.go:1600-1615 | refill, cap, and then a token taken exactly when there is one, in place |
| RateLimiter.TokensConserved | internal/api/api.go:1584-1615 | grants and what is left never exceed what was there and flowed in |
| RateLimiter.TokensBalance | internal/api/api.go:1600-1615 | while the bucket does not overflow that is an equality: a grant costs one token and a denial nothing |
| RateLimiter.BurstIsGranted | internal/api/api.go:1600-1615 | of any number of calls at one instant exactly as many are granted as there are whole tokens |
| RateLimiter.GrantsBounded | internal/api/api.go:1600-1615 | any block of calls of any run is granted at most max + rate times its span |
| RateLimiter.DenialSpan | internal/api/api.go:1584-1587 | consecutive denials span strictly less than 1/rate |
| RateLimiter.DenialsLoseNothing | internal/api/api.go:1584-1587 | denied calls, however fine, do not change how the next call fares |
| RateLimiter.SmallBucketNeverGrants | internal/api/api.go:1596-1614 | a bucket below one token never grants |
| Hub.HubIsSafe | internal/api/hub.go:32-81 | in every run no channel is closed twice or sent to after close; clients get, in order, a subsequence of what was processed while they were registered, all of it if nothing was skipped; client queues stay within 32 and the hub's within 16, 16 and 256; the count is the number of clients |
| Hub.StepDelivers | internal/api/hub.go:52-59 | a message that is served goes to the end of the queue of every registered client with fewer than 32, is skipped exactly for one with 32, and counts as processed while registered for both; nothing else skips |
| Hub.SkippedIsOverruns | internal/api/hub.go:52-59 | over any run a client has been skipped exactly as often as it was told something while it held 32 |
| Hub.KeepingUpIsEnough | internal/api/hub.go:52-59 | so it has been sent all that was processed while it was registered exactly when that never happened |
| Hub.MessageArrives | internal/api/hub.go:32-81 | a run from subscription to the end in which a message is received |
| Hub.WhatCanHappen | internal/api/hub.go:20-24 | senders wait exactly while a channel is full; the loop serves what is there until quit |
| Hub.QuitIsFinal | internal/api/hub.go:37-42 | after quit every registered client is closed, the count is zero, and it stays so |
| Hub.UnsubscribeSticks | internal/api/hub.go:43-51 | an unsubscription is final exactly when its subscription is no longer waiting |
| Hub.UnsubscribeCanBeOvertaken | internal/api/hub.go:63-74 | a run in which it is not |
| Hub.Loop.OnPub | internal/api/hub.go:52-59 | a message goes to the end of every registered client's queue that holds fewer than 32, and leaves the others alone |
| Hub.Loop.OnQuit | internal/api/hub.go:37-42 | every registered client's channel is closed, the roster emptied and the loop ended |
| Hub.Loop.OnSub | internal/api/hub.go:43-45 | the client joins and the count follows |
| Hub.Loop.OnUnsub | internal/api/hub.go:46-51 | a registered client is removed and closed; another changes nothing |

## Left out

- QuietRunsBlock: leaves out the steps that expose an address (a refused roll-back or deactivation, an unban reported failed that took place, a crash, a reboot), because agreement fails exactly there (AgreementExactly); BootRestores and RestartRestores say what the next start repairs.
- TreeRoundTrip: no dicts with float keys, because a Go map merges +0 with -0 and finds no NaN again; the machine's dicts compare floats by bits.
- Rows that tie in the order of a listing come in table order; SQLite leaves that open.
- CommandRoundTrip: arguments of the Basic Multilingual Plane only, because beyond it the codec does not round-trip (TextRoundTrip).
- ClaimsAreSpaced: calls one at a time; SpacedExactly says when overlapping ones are spaced.
- PublishedOnce: no retention pass, because one makes an event publishable again (RunsAreSparing counts how often).
- Lists and dicts shared through the memo: a Go slice or map fetched twice is one object; memo gets are modelled for scalars in programs, and as copies in the machine. BUILD likewise sets the state of the object on top of the stack only.
- Floats, Python classes and objects, and Stringify: opaque values and an opaque function; FLOAT lines parse through a parameter.
- decodeLongLE's shift-and-or is written as times 256 plus a byte, which is the same for bytes.
- The fail2ban-client fallback (execCLI, parseBannedFromCLI), SetJail, GetJail and the jail enforcement loop: external calls.
- The fail2ban responder as the ban backend: Lifecycle follows the nftables backend; with fail2ban, logged unbans also deactivate its rows.
- A statement that reports an error is taken not to have been applied; a firewall call that reports one may have been.
- Columns of events and bans that no modelled statement reads back (geography, authentication method, raw line).
- Text IP parsing, private ranges, durations, notify.New and the log parser: parameters.
- Zones in blocklist addresses are kept as the address's own; blocklist file reading errors and the scanner's line limit.
- AutoBan: a claim's time is the caller's clock reading; times are whole seconds.
- Pipeline: a handler's feed entry is one step, and a retention pass prunes both tables in one step; source restart, backoff and status.
- Overlapping settings requests, the JSON decoder, and the live jail settings inside fail2ban; Setting stands for the keys of the settings table, one constructor a key.
- Float rounding in the rate limiter: exact reals.
- Surrogate code points in command arguments: encoded as Go encodes a string, with the replacement character.
- HTTP routing, authentication, output formats, static files, notifiers, digests, GeoIP, host vitals, TLS and port watch, statistics queries, backup, install scripts.
