/** What an operation that does not run alone achieves: for every run, which step decides whether an
    address is banned and whether it is blocked, and from that exactly when a ban, an unban and a
    sweep in company do what they set out to do. */
module Interleaving {
  import opened Numbers
  import opened Store
  import Ledger
  import opened Lifecycle

  // ----- the steps that write an address -----

  /** The operation id stands before its statement on the ban table for ip. */
  predicate Writes(s: State, id: nat, ip: string, stage: Stage -> bool) {
    id in s.ops && s.ops[id].ip == ip && stage(s.ops[id].stage)
  }

  predicate TakesBack(stage: Stage) { stage.ToRollBack? || stage.ToDeactivate? }

  /** The step completes a roll-back or a deactivation of the address. */
  predicate Lifted(s: State, e: Lifecycle.Event, ip: string) {
    e.Write? && e.ok && Writes(s, e.id, ip, TakesBack)
  }

  /** The step writes a ban row for the address: no active row of any source is in its way. */
  predicate Stored(s: State, e: Lifecycle.Event, ip: string) {
    e.Write? && e.ok && Writes(s, e.id, ip, (t: Stage) => t.ToStore?) && !HasActive(s.bans, ip)
  }

  /** The step puts an entry into the firewall. */
  predicate Entered(norm: string -> string, s: State, e: Lifecycle.Event, x: string) {
    e.Call? && e.reply != Refused && e.id in s.ops && norm(s.ops[e.id].ip) == x &&
    (s.ops[e.id].stage.ToBlock? || s.ops[e.id].stage.ToRestore?)
  }

  /** The step takes an entry out. */
  predicate Removed(norm: string -> string, s: State, e: Lifecycle.Event, x: string) {
    || e.Reboot?
    || (e.Call? && e.reply != Refused && e.id in s.ops && norm(s.ops[e.id].ip) == x && s.ops[e.id].stage.ToUnblock?)
  }

  lemma StepBans(norm: string -> string, s: State, e: Lifecycle.Event, ip: string)
    ensures ip in Banned(Step(norm, s, e).bans) <==>
            Stored(s, e, ip) || (ip in Banned(s.bans) && !Lifted(s, e, ip))
  {
    hide Banned, Enforced, HasActive, BanIPRows, UnbanIPRows, MirrorBan, MirrorUnban, PruneBans, Open, Bared;
    match e
    case Write(id, now, ok) =>
      if id in s.ops {
        var op := s.ops[id];
        match op.stage
        case ToStore(reason, expiresAt) => BanWrites(s.bans, now, op.ip, reason, expiresAt);
        case ToRollBack => UnbanWrites(s.bans, now, op.ip);
        case ToDeactivate => UnbanWrites(s.bans, now, op.ip);
        case _ =>
      }
    case Record(id, ts, inserted) =>
      if id in s.ops {
        MirrorWrites(s.bans, s.ops[id].ip, "", ts);
        MirrorUnbanWrites(s.bans, s.ops[id].ip, ts);
      }
    case LogBan(x, user, ts) => MirrorWrites(s.bans, x, user, ts);
    case LogUnban(x, ts) => MirrorUnbanWrites(s.bans, x, ts);
    case Retention(cutoff) => PruneWrites(s.bans, cutoff);
    case _ =>
  }

  lemma StepBlocks(norm: string -> string, s: State, e: Lifecycle.Event, x: string)
    ensures x in Step(norm, s, e).fw <==> Entered(norm, s, e, x) || (x in s.fw && !Removed(norm, s, e, x))
  {
    hide Banned, BanIPRows, UnbanIPRows, MirrorBan, MirrorUnban, PruneBans, Open, Bared;
  }

  // ----- over whole runs -----

  predicate LiftedAt(norm: string -> string, s: State, es: seq<Lifecycle.Event>, ip: string, n: nat)
    requires n < |es|
  {
    Lifted(Run(norm, s, es[..n]), es[n], ip)
  }

  predicate StoredAt(norm: string -> string, s: State, es: seq<Lifecycle.Event>, ip: string, n: nat)
    requires n < |es|
  {
    Stored(Run(norm, s, es[..n]), es[n], ip)
  }

  predicate EnteredAt(norm: string -> string, s: State, es: seq<Lifecycle.Event>, x: string, n: nat)
    requires n < |es|
  {
    Entered(norm, Run(norm, s, es[..n]), es[n], x)
  }

  predicate RemovedAt(norm: string -> string, s: State, es: seq<Lifecycle.Event>, x: string, n: nat)
    requires n < |es|
  {
    Removed(norm, Run(norm, s, es[..n]), es[n], x)
  }

  /** No step from n on completes a roll-back or deactivation of the address. */
  ghost predicate KeptFrom(norm: string -> string, s: State, es: seq<Lifecycle.Event>, ip: string, n: nat) {
    forall m :: n <= m < |es| ==> !LiftedAt(norm, s, es, ip, m)
  }

  ghost predicate HeldFrom(norm: string -> string, s: State, es: seq<Lifecycle.Event>, x: string, n: nat) {
    forall m :: n <= m < |es| ==> !RemovedAt(norm, s, es, x, m)
  }

  /** A ban row was written, and none of the writes that take it back came later. */
  ghost predicate StoredLast(norm: string -> string, s: State, es: seq<Lifecycle.Event>, ip: string) {
    exists n :: 0 <= n < |es| && StoredAt(norm, s, es, ip, n) && KeptFrom(norm, s, es, ip, n + 1)
  }

  ghost predicate EnteredLast(norm: string -> string, s: State, es: seq<Lifecycle.Event>, x: string) {
    exists n :: 0 <= n < |es| && EnteredAt(norm, s, es, x, n) && HeldFrom(norm, s, es, x, n + 1)
  }

  lemma Prefixes(es: seq<Lifecycle.Event>, n: nat)
    requires n < |es|
    ensures var init := es[..|es| - 1];
            es[..n] == init[..n] && (n < |init| ==> es[n] == init[n])
  {
  }

  /** How the two conditions grow with the run. */
  lemma KeptGrows(norm: string -> string, s: State, es: seq<Lifecycle.Event>, ip: string)
    requires es != []
    ensures var init, k := es[..|es| - 1], |es| - 1;
            && (KeptFrom(norm, s, es, ip, 0) <==> KeptFrom(norm, s, init, ip, 0) && !LiftedAt(norm, s, es, ip, k))
            && (StoredLast(norm, s, es, ip) <==>
                StoredAt(norm, s, es, ip, k) || (StoredLast(norm, s, init, ip) && !LiftedAt(norm, s, es, ip, k)))
  {
    hide Run, Lifted, Stored;
    var init, k := es[..|es| - 1], |es| - 1;
    forall n | 0 <= n < k
      ensures LiftedAt(norm, s, es, ip, n) == LiftedAt(norm, s, init, ip, n)
      ensures StoredAt(norm, s, es, ip, n) == StoredAt(norm, s, init, ip, n)
    {
      Prefixes(es, n);
    }
    forall n | 0 <= n <= k
      ensures KeptFrom(norm, s, es, ip, n) <==> KeptFrom(norm, s, init, ip, n) && !LiftedAt(norm, s, es, ip, k)
    {
    }
    assert KeptFrom(norm, s, es, ip, k + 1);
    if StoredLast(norm, s, init, ip) && !LiftedAt(norm, s, es, ip, k) {
      var n :| 0 <= n < |init| && StoredAt(norm, s, init, ip, n) && KeptFrom(norm, s, init, ip, n + 1);
      assert StoredAt(norm, s, es, ip, n) && KeptFrom(norm, s, es, ip, n + 1);
    }
    if StoredLast(norm, s, es, ip) && !StoredAt(norm, s, es, ip, k) {
      var n :| 0 <= n < |es| && StoredAt(norm, s, es, ip, n) && KeptFrom(norm, s, es, ip, n + 1);
      assert StoredAt(norm, s, init, ip, n) && KeptFrom(norm, s, init, ip, n + 1);
    }
  }

  lemma HeldGrows(norm: string -> string, s: State, es: seq<Lifecycle.Event>, x: string)
    requires es != []
    ensures var init, k := es[..|es| - 1], |es| - 1;
            && (HeldFrom(norm, s, es, x, 0) <==> HeldFrom(norm, s, init, x, 0) && !RemovedAt(norm, s, es, x, k))
            && (EnteredLast(norm, s, es, x) <==>
                EnteredAt(norm, s, es, x, k) || (EnteredLast(norm, s, init, x) && !RemovedAt(norm, s, es, x, k)))
  {
    hide Run, Entered, Removed;
    var init, k := es[..|es| - 1], |es| - 1;
    forall n | 0 <= n < k
      ensures RemovedAt(norm, s, es, x, n) == RemovedAt(norm, s, init, x, n)
      ensures EnteredAt(norm, s, es, x, n) == EnteredAt(norm, s, init, x, n)
    {
      Prefixes(es, n);
    }
    forall n | 0 <= n <= k
      ensures HeldFrom(norm, s, es, x, n) <==> HeldFrom(norm, s, init, x, n) && !RemovedAt(norm, s, es, x, k)
    {
    }
    assert HeldFrom(norm, s, es, x, k + 1);
    if EnteredLast(norm, s, init, x) && !RemovedAt(norm, s, es, x, k) {
      var n :| 0 <= n < |init| && EnteredAt(norm, s, init, x, n) && HeldFrom(norm, s, init, x, n + 1);
      assert EnteredAt(norm, s, es, x, n) && HeldFrom(norm, s, es, x, n + 1);
    }
    if EnteredLast(norm, s, es, x) && !EnteredAt(norm, s, es, x, k) {
      var n :| 0 <= n < |es| && EnteredAt(norm, s, es, x, n) && HeldFrom(norm, s, es, x, n + 1);
      assert EnteredAt(norm, s, init, x, n) && HeldFrom(norm, s, init, x, n + 1);
    }
  }

  /** In every run, with every failure, crash and reboot: an address is banned at the end exactly
      when it was banned and nothing took its row back, or a row was written and not taken back
      since. */
  lemma {:induction false} BannedExactly(norm: string -> string, s: State, es: seq<Lifecycle.Event>, ip: string)
    ensures ip in Banned(Run(norm, s, es).bans) <==>
            (ip in Banned(s.bans) && KeptFrom(norm, s, es, ip, 0)) || StoredLast(norm, s, es, ip)
  {
    hide Banned, Step, KeptFrom, StoredLast, Lifted, Stored;
    if es == [] {
      NothingStored(norm, s, ip);
    } else {
      var init, k := es[..|es| - 1], |es| - 1;
      BannedExactly(norm, s, init, ip);
      StepBans(norm, Run(norm, s, init), es[k], ip);
      KeptGrows(norm, s, es, ip);
      assert es[..k] == init;
    }
  }

  lemma NothingStored(norm: string -> string, s: State, ip: string)
    ensures KeptFrom(norm, s, [], ip, 0) && !StoredLast(norm, s, [], ip)
    ensures HeldFrom(norm, s, [], ip, 0) && !EnteredLast(norm, s, [], ip)
  {
  }

  /** The same for the firewall. */
  lemma {:induction false} BlockedExactly(norm: string -> string, s: State, es: seq<Lifecycle.Event>, x: string)
    ensures x in Run(norm, s, es).fw <==>
            (x in s.fw && HeldFrom(norm, s, es, x, 0)) || EnteredLast(norm, s, es, x)
  {
    hide Step, HeldFrom, EnteredLast, Entered, Removed;
    if es == [] {
      NothingStored(norm, s, x);
    } else {
      var init, k := es[..|es| - 1], |es| - 1;
      BlockedExactly(norm, s, init, x);
      StepBlocks(norm, Run(norm, s, init), es[k], x);
      HeldGrows(norm, s, es, x);
      assert es[..k] == init;
    }
  }

  // ----- a ban and an unban in company -----

  /** A ban has written its row and everything else runs until its call succeeds: the address is
      then blocked, and it is banned exactly when no other operation's roll-back or deactivation
      of it came between, or a further ban has written it again since. */
  lemma BanInCompany(norm: string -> string, s: State, es: seq<Lifecycle.Event>, id: nat)
    requires id in s.ops && s.ops[id].stage.ToBlock? && s.ops[id].ip in Banned(s.bans)
    requires id in Run(norm, s, es).ops && Run(norm, s, es).ops[id] == s.ops[id]
    ensures var ip, t := s.ops[id].ip, Step(norm, Run(norm, s, es), Call(id, Done));
            && norm(ip) in t.fw
            && (ip in Banned(t.bans) <==> KeptFrom(norm, s, es, ip, 0) || StoredLast(norm, s, es, ip))
  {
    hide Run, Banned, KeptFrom, StoredLast;
    BannedExactly(norm, s, es, s.ops[id].ip);
  }

  /** So, when no other ban of the address writes a row meanwhile: exactly when nothing took the row
      back. */
  lemma LoneBanInCompany(norm: string -> string, s: State, es: seq<Lifecycle.Event>, id: nat)
    requires id in s.ops && s.ops[id].stage.ToBlock? && s.ops[id].ip in Banned(s.bans)
    requires id in Run(norm, s, es).ops && Run(norm, s, es).ops[id] == s.ops[id]
    requires forall n :: 0 <= n < |es| ==> !StoredAt(norm, s, es, s.ops[id].ip, n)
    ensures var ip, t := s.ops[id].ip, Step(norm, Run(norm, s, es), Call(id, Done));
            norm(ip) in t.fw && ip in Banned(t.bans) <==> forall n :: 0 <= n < |es| ==> !LiftedAt(norm, s, es, ip, n)
  {
    hide Run, Banned, Step, StoredAt, LiftedAt;
    BanInCompany(norm, s, es, id);
  }

  /** An unban has emptied the firewall entry and everything else runs until its write succeeds: the
      address is then not banned, and it is unblocked exactly when no ban or reconciliation of an
      address with that entry has called since, or another unban has removed it again. */
  lemma UnbanInCompany(norm: string -> string, s: State, es: seq<Lifecycle.Event>, id: nat, now: int)
    requires id in s.ops && s.ops[id].stage.ToDeactivate? && norm(s.ops[id].ip) !in s.fw
    requires id in Run(norm, s, es).ops && Run(norm, s, es).ops[id] == s.ops[id]
    ensures var ip, t := s.ops[id].ip, Step(norm, Run(norm, s, es), Write(id, now, true));
            && ip !in Banned(t.bans)
            && (norm(ip) in t.fw <==> EnteredLast(norm, s, es, norm(ip)))
  {
    hide Run, Banned, EnteredLast, UnbanIPRows;
    BlockedExactly(norm, s, es, norm(s.ops[id].ip));
    UnbanWrites(Run(norm, s, es).bans, now, s.ops[id].ip);
  }

  // ----- a sweep in company -----

  predicate FromLog(bans: seq<BanRow>, ip: string) {
    exists i :: 0 <= i < |bans| && bans[i].active && bans[i].ip == ip && bans[i].source == "fail2ban"
  }

  /** The step is a logged unban of the address, or a handler's own feed entry for one. */
  predicate UnbanLogged(s: State, e: Lifecycle.Event, ip: string) {
    || (e.LogUnban? && e.ip == ip)
    || (e.Record? && e.inserted && e.id in s.ops && s.ops[e.id].ip == ip && s.ops[e.id].stage.ToRecord? &&
        s.ops[e.id].stage.kind != "ban")
  }

  predicate BanLogged(s: State, e: Lifecycle.Event, ip: string) {
    || (e.LogBan? && e.ip == ip)
    || (e.Record? && e.inserted && e.id in s.ops && s.ops[e.id].ip == ip && s.ops[e.id].stage.ToRecord? &&
        s.ops[e.id].stage.kind == "ban")
  }

  /** The step ends the address's active row. */
  predicate Ends(s: State, e: Lifecycle.Event, ip: string) {
    Lifted(s, e, ip) || (UnbanLogged(s, e, ip) && FromLog(s.bans, ip))
  }

  /** The step begins an active row for an address that has none. */
  predicate Begins(s: State, e: Lifecycle.Event, ip: string) {
    Stored(s, e, ip) || (BanLogged(s, e, ip) && !HasActive(s.bans, ip))
  }

  predicate EndsAt(norm: string -> string, s: State, es: seq<Lifecycle.Event>, ip: string, n: nat)
    requires n < |es|
  {
    Ends(Run(norm, s, es[..n]), es[n], ip)
  }

  predicate BeginsAt(norm: string -> string, s: State, es: seq<Lifecycle.Event>, ip: string, n: nat)
    requires n < |es|
  {
    Begins(Run(norm, s, es[..n]), es[n], ip)
  }

  /** The address's rows that are active. */
  function ActiveOf(bans: seq<BanRow>, ip: string): set<BanRow> { set r | r in bans && r.active && r.ip == ip }

  lemma ActiveOfInsert(bans: seq<BanRow>, x: string, jail: Option<string>, at: int, source: string,
                       reason: Option<string>, expiresAt: Option<int>, ip: string)
    ensures var after := InsertBan(bans, x, jail, at, source, reason, expiresAt);
            && (x != ip || HasActive(bans, x) ==> ActiveOf(after, ip) == ActiveOf(bans, ip))
            && (x == ip ==> ActiveOf(after, ip) != {})
  {
    var after := InsertBan(bans, x, jail, at, source, reason, expiresAt);
    if HasActive(bans, x) {
      var i :| 0 <= i < |bans| && bans[i].active && bans[i].ip == x;
      assert bans[i] in ActiveOf(bans, x);
    } else {
      assert after == bans + [after[|bans|]];
      assert after[|bans|] in ActiveOf(after, x);
      assert forall r :: r in after <==> r in bans || r == after[|bans|];
    }
  }

  lemma ActiveOfDeactivate(bans: seq<BanRow>, x: string, source: Option<string>, now: int, ip: string)
    ensures var after := Deactivate(bans, x, source, now);
            && (x != ip ==> ActiveOf(after, ip) == ActiveOf(bans, ip))
            && (x == ip && source == None ==> ActiveOf(after, ip) == {})
            && (x == ip && source == Some("fail2ban") && !FromLog(bans, ip) ==> ActiveOf(after, ip) == ActiveOf(bans, ip))
            && (x == ip && source == Some("fail2ban") && FromLog(bans, ip) && Ledger.OneActive(bans) ==>
                  ActiveOf(after, ip) == {})
  {
    var after := Deactivate(bans, x, source, now);
    forall r | r in after && r.active ensures r in bans {
      var i :| 0 <= i < |after| && after[i] == r;
      assert bans[i] == r;
    }
    forall i | 0 <= i < |bans| && bans[i].active && after[i] == bans[i] ensures bans[i] in after {
    }
  }

  lemma ActiveOfPrune(bans: seq<BanRow>, cutoff: int, ip: string)
    ensures ActiveOf(PruneBans(bans, cutoff), ip) == ActiveOf(bans, ip)
  {
  }

  lemma ActiveIsNonempty(bans: seq<BanRow>, ip: string)
    ensures HasActive(bans, ip) <==> ActiveOf(bans, ip) != {}
  {
    if HasActive(bans, ip) {
      var i :| 0 <= i < |bans| && bans[i].active && bans[i].ip == ip;
      assert bans[i] in ActiveOf(bans, ip);
    }
    if ActiveOf(bans, ip) != {} {
      var r :| r in ActiveOf(bans, ip);
      var i :| 0 <= i < |bans| && bans[i] == r;
    }
  }

  /** What one step does to the address's active row: begins one, ends it, or leaves it as it is. */
  lemma StepActive(norm: string -> string, s: State, e: Lifecycle.Event, ip: string)
    requires Ledger.OneActive(s.bans)
    ensures var t := Step(norm, s, e);
            && (Begins(s, e, ip) ==> ActiveOf(t.bans, ip) != {})
            && (Ends(s, e, ip) ==> ActiveOf(t.bans, ip) == {})
            && (!Begins(s, e, ip) && !Ends(s, e, ip) ==> ActiveOf(t.bans, ip) == ActiveOf(s.bans, ip))
            && (Begins(s, e, ip) ==> ActiveOf(s.bans, ip) == {})
  {
    hide ActiveOf, HasActive, InsertBan, Deactivate, PruneBans, FromLog, Open, Bared, Ledger.OneActive, Banned;
    ActiveIsNonempty(s.bans, ip);
    match e
    case Write(id, now, ok) =>
      if id in s.ops {
        var op := s.ops[id];
        match op.stage
        case ToStore(reason, expiresAt) =>
          ActiveOfInsert(s.bans, op.ip, None, now, BACKEND, NullStr(reason), NullInt(expiresAt), ip);
        case ToRollBack => ActiveOfDeactivate(s.bans, op.ip, None, now, ip);
        case ToDeactivate => ActiveOfDeactivate(s.bans, op.ip, None, now, ip);
        case _ =>
      }
    case Record(id, ts, inserted) =>
      if id in s.ops {
        ActiveOfInsert(s.bans, s.ops[id].ip, NullStr(""), ts, "fail2ban", None, None, ip);
        ActiveOfDeactivate(s.bans, s.ops[id].ip, Some("fail2ban"), ts, ip);
      }
    case LogBan(x, user, ts) => ActiveOfInsert(s.bans, x, NullStr(user), ts, "fail2ban", None, None, ip);
    case LogUnban(x, ts) => ActiveOfDeactivate(s.bans, x, Some("fail2ban"), ts, ip);
    case Retention(cutoff) => ActiveOfPrune(s.bans, cutoff, ip);
    case _ =>
  }

  ghost predicate NeverEnds(norm: string -> string, s: State, es: seq<Lifecycle.Event>, ip: string) {
    forall n :: 0 <= n < |es| ==> !EndsAt(norm, s, es, ip, n)
  }

  ghost predicate EverBegins(norm: string -> string, s: State, es: seq<Lifecycle.Event>, ip: string) {
    exists n :: 0 <= n < |es| && BeginsAt(norm, s, es, ip, n)
  }

  lemma EndsGrow(norm: string -> string, s: State, es: seq<Lifecycle.Event>, ip: string)
    requires es != []
    ensures var init, k := es[..|es| - 1], |es| - 1;
            && (NeverEnds(norm, s, es, ip) <==> NeverEnds(norm, s, init, ip) && !EndsAt(norm, s, es, ip, k))
            && (EverBegins(norm, s, es, ip) <==> EverBegins(norm, s, init, ip) || BeginsAt(norm, s, es, ip, k))
  {
    hide Run, Ends, Begins;
    var init, k := es[..|es| - 1], |es| - 1;
    forall n | 0 <= n < k
      ensures EndsAt(norm, s, es, ip, n) == EndsAt(norm, s, init, ip, n)
      ensures BeginsAt(norm, s, es, ip, n) == BeginsAt(norm, s, init, ip, n)
    {
      Prefixes(es, n);
    }
    if EverBegins(norm, s, init, ip) {
      var n :| 0 <= n < |init| && BeginsAt(norm, s, init, ip, n);
      assert BeginsAt(norm, s, es, ip, n);
    }
    if EverBegins(norm, s, es, ip) && !BeginsAt(norm, s, es, ip, k) {
      var n :| 0 <= n < |es| && BeginsAt(norm, s, es, ip, n);
      assert BeginsAt(norm, s, init, ip, n);
    }
  }

  /** From a state in which the address has an active row: while nothing ends that row it stays, and
      nothing begins another; once something has, an active row of the address is one that was
      begun since. */
  lemma {:induction false} ActiveRowOverRuns(norm: string -> string, s: State, es: seq<Lifecycle.Event>, ip: string)
    requires Ledger.LedgerInv(s.bans) && HasActive(s.bans, ip)
    ensures var t := Run(norm, s, es);
            && (NeverEnds(norm, s, es, ip) ==> ActiveOf(t.bans, ip) == ActiveOf(s.bans, ip) && !EverBegins(norm, s, es, ip))
            && (!NeverEnds(norm, s, es, ip) && HasActive(t.bans, ip) ==> EverBegins(norm, s, es, ip))
  {
    hide Ledger.LedgerInv, Step, ActiveOf, HasActive, NeverEnds, EverBegins, Ends, Begins;
    ActiveIsNonempty(s.bans, ip);
    if es == [] {
      NothingBegins(norm, s, ip);
    } else {
      var init, k := es[..|es| - 1], |es| - 1;
      var before := Run(norm, s, init);
      ActiveRowOverRuns(norm, s, init, ip);
      RunsKeepLedger(norm, s, init);
      HasOneActive(before.bans);
      StepActive(norm, before, es[k], ip);
      EndsGrow(norm, s, es, ip);
      assert es[..k] == init;
      ActiveIsNonempty(before.bans, ip);
      ActiveIsNonempty(Run(norm, s, es).bans, ip);
    }
  }

  lemma HasOneActive(bans: seq<BanRow>)
    requires Ledger.LedgerInv(bans)
    ensures Ledger.OneActive(bans)
  {
  }

  lemma NothingBegins(norm: string -> string, s: State, ip: string)
    ensures NeverEnds(norm, s, [], ip) && !EverBegins(norm, s, [], ip)
  {
  }

  /** A sweep lists a row r, and anything at all happens until it writes, the address still having an
      active row. While nothing ended r, the write deactivates r and no other row; and something ended
      it exactly when the row that the write deactivates was begun since. What happens at other
      addresses does not matter, and their rows are never touched. */
  lemma SweepInCompany(norm: string -> string, s: State, es: seq<Lifecycle.Event>, r: BanRow, id: nat, at: int)
    requires Ledger.LedgerInv(s.bans) && r in s.bans && r.active
    requires var t := Run(norm, s, es);
             id in t.ops && t.ops[id].ip == r.ip && t.ops[id].stage.ToDeactivate? && HasActive(t.bans, r.ip)
    ensures var t := Run(norm, s, es);
            var after := Step(norm, t, Write(id, at, true)).bans;
            && |after| == |t.bans|
            && (forall i :: 0 <= i < |after| && t.bans[i].ip != r.ip ==> after[i] == t.bans[i])
            && (NeverEnds(norm, s, es, r.ip) ==>
                  r in t.bans && forall i :: 0 <= i < |after| ==>
                    after[i] == if t.bans[i] == r then Deactivated(r, at) else t.bans[i])
            && (NeverEnds(norm, s, es, r.ip) <==> !EverBegins(norm, s, es, r.ip))
  {
    hide Run, HasActive, NeverEnds, EverBegins, Ledger.LedgerInv, Open;
    RowIsActive(s.bans, r);
    ActiveRowOverRuns(norm, s, es, r.ip);
    var t := Run(norm, s, es);
    if NeverEnds(norm, s, es, r.ip) {
      assert r in ActiveOf(s.bans, r.ip);
      RunsKeepLedger(norm, s, es);
      HasOneActive(t.bans);
      OnlyActive(t.bans, r);
    }
  }

  lemma RowIsActive(bans: seq<BanRow>, r: BanRow)
    requires r in bans && r.active
    ensures HasActive(bans, r.ip)
  {
  }

  lemma OnlyActive(bans: seq<BanRow>, r: BanRow)
    requires Ledger.OneActive(bans) && r in bans && r.active
    ensures forall i :: 0 <= i < |bans| && bans[i].active && bans[i].ip == r.ip ==> bans[i] == r
  {
    var k :| 0 <= k < |bans| && bans[k] == r;
  }
}
