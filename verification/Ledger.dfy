/** What every run of the store keeps: the ban ledger's invariants, the dedup key, and what
    replaying a log does. */
module Ledger {
  import opened Numbers
  import opened Store

  // ----- the ban ledger -----

  datatype BanOp =
    | Ban(now: int, ip: string, source: string, reason: string, expiresAt: int)
    | Unban(now: int, ip: string)
    | LoggedBan(ip: string, user: string, ts: int)
    | LoggedUnban(ip: string, ts: int)
    | Prune(cutoff: int)

  function Apply(bans: seq<BanRow>, op: BanOp): seq<BanRow> {
    match op
    case Ban(now, ip, source, reason, expiresAt) => BanIPRows(bans, now, ip, source, reason, expiresAt)
    case Unban(now, ip) => UnbanIPRows(bans, now, ip)
    case LoggedBan(ip, user, ts) => MirrorBan(bans, ip, user, ts)
    case LoggedUnban(ip, ts) => MirrorUnban(bans, ip, ts)
    case Prune(cutoff) => PruneBans(bans, cutoff)
  }

  function Run(bans: seq<BanRow>, ops: seq<BanOp>): seq<BanRow> {
    if ops == [] then bans else Apply(Run(bans, ops[..|ops| - 1]), ops[|ops| - 1])
  }

  ghost predicate OneActive(bans: seq<BanRow>) {
    forall i, j :: 0 <= i < j < |bans| && bans[i].active && bans[j].active ==> bans[i].ip != bans[j].ip
  }

  ghost predicate IdsIncrease(bans: seq<BanRow>) {
    forall i, j :: 0 <= i < j < |bans| ==> bans[i].id < bans[j].id
  }

  ghost predicate LedgerInv(bans: seq<BanRow>) { OneActive(bans) && IdsIncrease(bans) }

  lemma InsertKeepsInv(bans: seq<BanRow>, ip: string, jail: Option<string>, at: int, source: string,
                       reason: Option<string>, expiresAt: Option<int>)
    requires LedgerInv(bans)
    ensures LedgerInv(InsertBan(bans, ip, jail, at, source, reason, expiresAt))
  {
  }

  lemma DeactivateKeepsInv(bans: seq<BanRow>, ip: string, source: Option<string>, now: int)
    requires LedgerInv(bans)
    ensures LedgerInv(Deactivate(bans, ip, source, now))
  {
  }

  lemma {:induction false} KeepKeepsInv(bans: seq<BanRow>, p: BanRow -> bool)
    requires LedgerInv(bans)
    ensures LedgerInv(Keep(bans, p))
  {
    hide LedgerInv;
    if bans != [] {
      TailInv(bans);
      KeepKeepsInv(bans[1..], p);
      if p(bans[0]) {
        ConsInv(bans[0], Keep(bans[1..], p));
      }
    }
  }

  /** Whether q may follow r in the ledger. */
  predicate MayFollow(r: BanRow, q: BanRow) { r.id < q.id && (r.active && q.active ==> r.ip != q.ip) }

  lemma TailInv(bans: seq<BanRow>)
    requires LedgerInv(bans) && bans != []
    ensures LedgerInv(bans[1..])
    ensures forall q :: q in bans[1..] ==> MayFollow(bans[0], q)
  {
  }

  lemma ConsInv(r: BanRow, bans: seq<BanRow>)
    requires LedgerInv(bans) && forall q :: q in bans ==> MayFollow(r, q)
    ensures LedgerInv([r] + bans)
  {
    assert forall i :: 0 <= i < |bans| ==> bans[i] in bans;
  }

  lemma ApplyKeepsInv(bans: seq<BanRow>, op: BanOp)
    requires LedgerInv(bans)
    ensures LedgerInv(Apply(bans, op))
  {
    match op
    case Ban(now, ip, source, reason, expiresAt) =>
      InsertKeepsInv(bans, ip, None, now, source, NullStr(reason), NullInt(expiresAt));
    case LoggedBan(ip, user, ts) => InsertKeepsInv(bans, ip, NullStr(user), ts, "fail2ban", None, None);
    case Unban(now, ip) => DeactivateKeepsInv(bans, ip, None, now);
    case LoggedUnban(ip, ts) => DeactivateKeepsInv(bans, ip, Some("fail2ban"), ts);
    case Prune(cutoff) => KeepKeepsInv(bans, (r: BanRow) => r.active || r.bannedAt >= cutoff);
  }

  /** In every run, at most one row per address is active. */
  lemma {:induction false} AtMostOneActive(ops: seq<BanOp>)
    ensures LedgerInv(Run([], ops))
  {
    if ops != [] {
      AtMostOneActive(ops[..|ops| - 1]);
      ApplyKeepsInv(Run([], ops[..|ops| - 1]), ops[|ops| - 1]);
    }
  }

  /** What one operation may do to a row: nothing; deactivate it, and then only the address the
      operation names and, for a logged unban, only a fail2ban row; or, for retention, delete
      it, and then only if it is inactive. */
  ghost predicate Fate(r: BanRow, op: BanOp, after: seq<BanRow>) {
    || r in after
    || (op.Unban? && r.active && r.ip == op.ip && Deactivated(r, op.now) in after)
    || (op.LoggedUnban? && r.active && r.ip == op.ip && r.source == "fail2ban" && Deactivated(r, op.ts) in after)
    || (op.Prune? && !r.active && r.bannedAt < op.cutoff)
  }

  lemma RowFate(bans: seq<BanRow>, op: BanOp, r: BanRow)
    requires r in bans
    ensures Fate(r, op, Apply(bans, op))
  {
  }

  /** A row that no longer changes: after any run it is still there as it was, unless retention
      has deleted it at some point of the run (SQLite may then reuse its id). */
  lemma {:induction false} InactiveIsFinal(bans: seq<BanRow>, ops: seq<BanOp>, r: BanRow)
    requires LedgerInv(bans) && r in bans && !r.active
    ensures r in Run(bans, ops) ||
            exists n :: 0 < n <= |ops| && ops[n - 1].Prune? && r.bannedAt < ops[n - 1].cutoff && r !in Run(bans, ops[..n])
  {
    if ops != [] {
      var init, last := ops[..|ops| - 1], ops[|ops| - 1];
      InactiveIsFinal(bans, init, r);
      if r in Run(bans, init) {
        RowFate(Run(bans, init), last, r);
        assert ops[..|ops|] == ops;
      } else {
        var n :| 0 < n <= |init| && init[n - 1].Prune? && r.bannedAt < init[n - 1].cutoff && r !in Run(bans, init[..n]);
        assert ops[..n] == init[..n] && ops[n - 1] == init[n - 1];
      }
    }
  }

  /** An active row stays until it is deactivated: after any run it is there unchanged, or the run
      holds an unban that names it. Retention alone never removes it. */
  lemma {:induction false} ActiveSurvives(bans: seq<BanRow>, ops: seq<BanOp>, r: BanRow)
    requires r in bans && r.active
    requires forall i :: 0 <= i < |ops| ==>
               !(ops[i].Unban? && ops[i].ip == r.ip) &&
               !(ops[i].LoggedUnban? && ops[i].ip == r.ip && r.source == "fail2ban")
    ensures r in Run(bans, ops)
  {
    if ops != [] {
      ActiveSurvives(bans, ops[..|ops| - 1], r);
      RowFate(Run(bans, ops[..|ops| - 1]), ops[|ops| - 1], r);
    }
  }

  // ----- the dedup key -----

  ghost predicate KeysUnique(events: seq<EventRow>) {
    forall i, j :: 0 <= i < j < |events| ==> KeyOfRow(events[i]) != KeyOfRow(events[j])
  }

  datatype Tables = Tables(events: seq<EventRow>, bans: seq<BanRow>)

  function Insert(t: Tables, e: Event): Tables {
    if HasKey(t.events, KeyOf(e)) then t
    else Tables(t.events + [RowOf(MaxEventId(t.events) + 1, e)], Mirror(t.bans, e))
  }

  function InsertAll(t: Tables, es: seq<Event>): Tables
    decreases es
  {
    if es == [] then t else InsertAll(Insert(t, es[0]), es[1..])
  }

  /** The outcomes of inserting a sequence of events, in order. */
  function Outcomes(t: Tables, es: seq<Event>): (rs: seq<InsertResult>)
    ensures |rs| == |es|
    decreases es
  {
    if es == [] then []
    else [if HasKey(t.events, KeyOf(es[0])) then ErrDuplicate else Inserted] + Outcomes(Insert(t, es[0]), es[1..])
  }

  lemma InsertKeepsUnique(t: Tables, e: Event)
    requires KeysUnique(t.events)
    ensures KeysUnique(Insert(t, e).events)
    ensures HasKey(Insert(t, e).events, KeyOf(e))
    ensures forall k :: HasKey(t.events, k) ==> HasKey(Insert(t, e).events, k)
  {
    hide Mirror;
    var row := RowOf(MaxEventId(t.events) + 1, e);
    RowKey(MaxEventId(t.events) + 1, e);
    if !HasKey(t.events, KeyOf(e)) {
      var es := t.events + [row];
      assert es[|t.events|] == row;
      forall k | HasKey(t.events, k) ensures HasKey(es, k) {
        var i :| 0 <= i < |t.events| && KeyOfRow(t.events[i]) == k;
        assert es[i] == t.events[i];
      }
    }
  }

  /** After a log has been read, every event of it is known by its key. */
  lemma {:induction false} AllKnown(t: Tables, es: seq<Event>)
    requires KeysUnique(t.events)
    ensures KeysUnique(InsertAll(t, es).events)
    ensures forall k :: HasKey(t.events, k) ==> HasKey(InsertAll(t, es).events, k)
    ensures forall e :: e in es ==> HasKey(InsertAll(t, es).events, KeyOf(e))
    decreases es
  {
    hide Insert, HasKey, KeysUnique;
    if es != [] {
      InsertKeepsUnique(t, es[0]);
      AllKnown(Insert(t, es[0]), es[1..]);
    }
  }

  /** Replay is idempotent: re-reading any part of a log already read, in any order and any number
      of times, changes neither table, and every insert reports a duplicate. */
  lemma {:induction false} ReplayKnown(t: Tables, rs: seq<Event>)
    requires forall e :: e in rs ==> HasKey(t.events, KeyOf(e))
    ensures InsertAll(t, rs) == t
    ensures forall i :: 0 <= i < |rs| ==> Outcomes(t, rs)[i] == ErrDuplicate
  {
    hide HasKey, Mirror;
    if rs != [] {
      assert rs[0] in rs;
      ReplayKnown(t, rs[1..]);
    }
  }

  lemma ReplayIsIdempotent(t: Tables, es: seq<Event>, rs: seq<Event>)
    requires KeysUnique(t.events)
    requires forall e :: e in rs ==> e in es
    ensures InsertAll(InsertAll(t, es), rs) == InsertAll(t, es)
    ensures forall i :: 0 <= i < |rs| ==> Outcomes(InsertAll(t, es), rs)[i] == ErrDuplicate
  {
    hide HasKey;
    AllKnown(t, es);
    ReplayKnown(InsertAll(t, es), rs);
  }

  /** The tables after a crash between InsertEvent's two statements. */
  function Torn(t: Tables, e: Event): Tables {
    if HasKey(t.events, KeyOf(e)) then t
    else t.(events := t.events + [RowOf(MaxEventId(t.events) + 1, e)])
  }

  /** The two statements are not one transaction, so replay does not repair a crash between them:
      the tables after crash and replay equal those of an undisturbed insert exactly when the
      event was known before or its mirror would not have changed the bans. */
  lemma TornInsertRepaired(t: Tables, e: Event)
    ensures Insert(Torn(t, e), e) == Insert(t, e) <==> HasKey(t.events, KeyOf(e)) || Mirror(t.bans, e) == t.bans
  {
  }

  /** For example a ban seen for the first time is lost. */
  lemma TornBanIsLost(e: Event)
    requires e.kind == "ban"
    ensures Insert(Torn(Tables([], []), e), e).bans == [] != Insert(Tables([], []), e).bans
  {
    RowKey(1, e);
    var es := Torn(Tables([], []), e).events;
    assert es == [RowOf(1, e)] && KeyOfRow(es[0]) == KeyOf(e);
  }
}
