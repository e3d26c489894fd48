/** What whole bans, unbans, sweeps and boots achieve: exact agreement of the ban table and the
    firewall, recovery after a crash, and the runs in which the two drift apart. */
module Enforcement {
  import opened Numbers
  import opened Store
  import Ledger
  import opened Lifecycle

  // ----- the sweep -----

  /** The table after a sweep: an expired row is deactivated if the firewall and the store both
      answered, and no other row is touched. */
  function Swept(bans: seq<BanRow>, now: int, luck: string -> LiftLuck): (out: seq<BanRow>)
    ensures |out| == |bans|
    ensures forall i :: 0 <= i < |bans| ==>
              out[i] == if IsExpired(bans[i], now) && Lifts(luck(bans[i].ip)) then Deactivated(bans[i], luck(bans[i].ip).at)
                        else bans[i]
  {
    seq(|bans|, i requires 0 <= i < |bans| =>
      if IsExpired(bans[i], now) && Lifts(luck(bans[i].ip)) then Deactivated(bans[i], luck(bans[i].ip).at) else bans[i])
  }

  /** The sweep when it has visited the addresses of done. */
  function SweptBy(bans: seq<BanRow>, now: int, luck: string -> LiftLuck, done: set<string>): (out: seq<BanRow>)
    ensures |out| == |bans|
    ensures forall i :: 0 <= i < |bans| ==>
              out[i] == if IsExpired(bans[i], now) && bans[i].ip in done && Lifts(luck(bans[i].ip))
                        then Deactivated(bans[i], luck(bans[i].ip).at) else bans[i]
  {
    seq(|bans|, i requires 0 <= i < |bans| =>
      if IsExpired(bans[i], now) && bans[i].ip in done && Lifts(luck(bans[i].ip))
      then Deactivated(bans[i], luck(bans[i].ip).at) else bans[i])
  }

  function SetOf(ips: seq<string>): set<string> { set x | x in ips }

  /** The firewall entries a sweep takes away. */
  function Dropped(norm: string -> string, ips: seq<string>, luck: string -> LiftLuck): set<string> {
    set x | x in ips && luck(x).reply != Refused :: norm(x)
  }

  lemma VisitSweeps(bans: seq<BanRow>, now: int, luck: string -> LiftLuck, done: set<string>, ip: string)
    requires Ledger.OneActive(bans) && HasExpired(bans, now, ip)
    ensures var before := SweptBy(bans, now, luck, done);
            SweptBy(bans, now, luck, done + {ip}) ==
            if Lifts(luck(ip)) then UnbanIPRows(before, luck(ip).at, ip) else before
  {
  }

  predicate HasExpired(bans: seq<BanRow>, now: int, ip: string) {
    exists r :: r in bans && IsExpired(r, now) && r.ip == ip
  }

  lemma {:induction false} VisitsSweep(norm: string -> string, b: Books, now: int, luck: string -> LiftLuck, ips: seq<string>)
    requires Ledger.OneActive(b.bans)
    requires forall ip :: ip in ips ==> HasExpired(b.bans, now, ip)
    ensures LiftAll(norm, b, ips, luck) ==
            Books(SweptBy(b.bans, now, luck, SetOf(ips)), b.fw - Dropped(norm, ips, luck))
  {
    hide Ledger.OneActive, UnbanIPRows, HasExpired;
    if ips == [] {
      assert SweptBy(b.bans, now, luck, {}) == b.bans;
      assert SetOf(ips) == {};
    } else {
      var init, last := ips[..|ips| - 1], ips[|ips| - 1];
      InitLast(ips);
      VisitsSweep(norm, b, now, luck, init);
      assert last in ips;
      VisitSweeps(b.bans, now, luck, SetOf(init), last);
      assert SetOf(ips) == SetOf(init) + {last};
      assert Dropped(norm, ips, luck) == Dropped(norm, init, luck) + if luck(last).reply != Refused then {norm(last)} else {};
    }
  }

  lemma InitLast(ips: seq<string>)
    requires ips != []
    ensures forall x :: x in ips <==> x in ips[..|ips| - 1] || x == ips[|ips| - 1]
  {
  }

  /** One sweep, in closed form: it lifts exactly the expired bans both sides answered for, leaves
      permanent, future and inactive rows alone, and takes exactly the answered addresses out of
      the firewall. That it never lifts an unexpired ban of an address with an expired one rests
      on there being at most one active row for it. */
  lemma SweepLifts(norm: string -> string, b: Books, now: int, luck: string -> LiftLuck)
    requires Ledger.OneActive(b.bans)
    ensures var ips := Ips(Expired(b.bans, now));
            LiftAll(norm, b, ips, luck) == Books(Swept(b.bans, now, luck), b.fw - Dropped(norm, ips, luck))
  {
    hide Ledger.OneActive;
    var rows := Expired(b.bans, now);
    var ips := Ips(rows);
    forall ip | ip in ips ensures HasExpired(b.bans, now, ip) {
      var i :| 0 <= i < |ips| && ips[i] == ip;
      assert rows[i] in rows;
    }
    VisitsSweep(norm, b, now, luck, ips);
    forall i | 0 <= i < |b.bans| && IsExpired(b.bans[i], now) ensures b.bans[i].ip in ips {
      ListedIp(rows, b.bans[i]);
    }
    assert SweptBy(b.bans, now, luck, SetOf(ips)) == Swept(b.bans, now, luck);
  }

  lemma ListedIp(rows: seq<BanRow>, r: BanRow)
    requires r in rows
    ensures r.ip in Ips(rows)
  {
  }

  /** An expired ban survives a sweep exactly when one of its two steps failed. */
  lemma SurvivesSweep(bans: seq<BanRow>, now: int, luck: string -> LiftLuck, i: nat)
    requires i < |bans|
    ensures IsExpired(Swept(bans, now, luck)[i], now) <==> IsExpired(bans[i], now) && !Lifts(luck(bans[i].ip))
  {
  }

  // ----- how long a ban lasts -----

  /** From the clock and the duration it is asked for to the sweep that ends it: a ban nothing
      interrupts, of an address with no active row, adds one row. A later sweep that both sides
      answer lifts that row exactly when a duration was given and has passed, a reconciliation lists
      it exactly until then, and a ban without a duration is permanent. */
  lemma BanLasts(norm: string -> string, b: Books, ip: string, reason: string, clock: int, secs: int, luck: BanLuck, now: int,
                 sweep: string -> LiftLuck)
    requires luck.stored && luck.reply == Done && Lifts(sweep(ip)) && forall r :: r in b.bans && r.active ==> r.ip != ip
    ensures var after := BanBooks(norm, b, ip, reason, if secs > 0 then clock + secs else 0, luck);
            var timed, k := secs > 0 && clock + secs != 0, |b.bans|;
            && Adds(b.bans, after.bans, ip, luck.now, "nftables", "", reason, if timed then Some(clock + secs) else None)
            && after.fw == b.fw + {norm(ip)}
            && (!Swept(after.bans, now, sweep)[k].active <==> timed && clock + secs <= now)
            && (after.bans[k] in Expired(after.bans, now) <==> timed && clock + secs <= now)
            && (after.bans[k] in ToReapply(after.bans, now) <==> !timed || now < clock + secs)
            && Due(norm, after.bans, now) ==
               Due(norm, b.bans, now) + if timed && clock + secs <= now then {} else {norm(ip)}
  {
    hide SortBy, Keep, BanIPRows;
    var after := BanBooks(norm, b, ip, reason, if secs > 0 then clock + secs else 0, luck);
    BanAdds(b.bans, luck.now, ip, reason, if secs > 0 then clock + secs else 0);
    assert forall r :: r in after.bans <==> r in b.bans || r == after.bans[|b.bans|];
  }

  lemma BanAdds(bans: seq<BanRow>, now: int, ip: string, reason: string, expiresAt: int)
    requires forall r :: r in bans && r.active ==> r.ip != ip
    ensures Adds(bans, BanIPRows(bans, now, ip, BACKEND, reason, expiresAt), ip, now, BACKEND, "", reason, NullInt(expiresAt))
  {
  }

  // ----- reconciliation -----

  function Restored(norm: string -> string, ips: seq<string>, reply: string -> Reply): set<string> {
    set x | x in ips && reply(x) != Refused :: norm(x)
  }

  lemma {:induction false} RestoresAll(norm: string -> string, fw: set<string>, ips: seq<string>, reply: string -> Reply)
    ensures RestoreAll(norm, fw, ips, reply) == fw + Restored(norm, ips, reply)
  {
    if ips != [] {
      RestoresAll(norm, fw, ips[..|ips| - 1], reply);
      InitLast(ips);
    }
  }

  // ----- boot -----

  const EMPTY := State([], {}, map[], {})

  /** The addresses of the unexpired active bans of this backend, as the firewall spells them. */
  function Due(norm: string -> string, bans: seq<BanRow>, now: int): set<string> {
    set r | r in bans && Restorable(r, now) :: norm(r.ip)
  }

  lemma DueIsRestored(norm: string -> string, bans: seq<BanRow>, now: int)
    ensures Restored(norm, Ips(ToReapply(bans, now)), x => Done) == Due(norm, bans, now)
  {
  }

  /** A reboot, and then a reconciliation whose calls succeed. */
  function Boot(norm: string -> string, s: State, now: int): seq<Lifecycle.Event> {
    [Reboot, StartReconcile(0, now)] + CallsTrace(0, Ips(ToReapply(s.bans, now)), x => Done)
  }

  /** From whatever state a run was killed in, boot makes the firewall hold exactly the unexpired
      active bans of this backend, and no row changes. */
  lemma BootRestores(norm: string -> string, s: State, now: int)
    ensures Run(norm, s, Boot(norm, s, now)).bans == s.bans
    ensures Run(norm, s, Boot(norm, s, now)).fw == Due(norm, s.bans, now)
    ensures Run(norm, s, Boot(norm, s, now)).ops == map[]
  {
    hide Run, Due, ToReapply, CallsTrace, Restored, RestoreAll;
    var ips := Ips(ToReapply(s.bans, now));
    var calls := CallsTrace(0, ips, x => Done);
    var up := Step(norm, s, Reboot);
    assert Boot(norm, s, now) == [Reboot] + ([StartReconcile(0, now)] + calls);
    RunCons(norm, s, Reboot, [StartReconcile(0, now)] + calls);
    ReconcileRuns(norm, up, 0, now, x => Done);
    RestoresAll(norm, up.fw, ips, x => Done);
    DueIsRestored(norm, s.bans, now);
  }

  /** When only the process died the firewall kept its entries: the reconciliation of the next
      start then blocks whatever of this backend's unexpired bans was missing. */
  lemma RestartRestores(norm: string -> string, s: State, now: int)
    ensures var restart := [Crash, StartReconcile(0, now)] + CallsTrace(0, Ips(ToReapply(s.bans, now)), x => Done);
            var t := Run(norm, s, restart);
            t.bans == s.bans && t.fw == s.fw + Due(norm, s.bans, now) && t.ops == map[]
  {
    hide Run, Due, ToReapply, CallsTrace, Restored, RestoreAll;
    var ips := Ips(ToReapply(s.bans, now));
    var calls := CallsTrace(0, ips, x => Done);
    var up := Step(norm, s, Crash);
    assert [Crash, StartReconcile(0, now)] + calls == [Crash] + ([StartReconcile(0, now)] + calls);
    RunCons(norm, s, Crash, [StartReconcile(0, now)] + calls);
    ReconcileRuns(norm, up, 0, now, x => Done);
    RestoresAll(norm, up.fw, ips, x => Done);
    DueIsRestored(norm, s.bans, now);
  }

  /** Crash and recovery: after any run at all, a boot and then a sweep that meets no failure.
      The sweep leaves no active row whose time has come, and touches no other; and when the
      active rows are canonical the firewall ends up with exactly the bans that stand. */
  lemma Recovery(norm: string -> string, es: seq<Lifecycle.Event>, now: int, later: int, luck: string -> LiftLuck)
    requires forall ip :: Lifts(luck(ip))
    ensures var s := Run(norm, EMPTY, es);
            var up := Run(norm, s, Boot(norm, s, now));
            var sweep := [StartSweep(0, later)] + LiftsTrace(0, Ips(Expired(s.bans, later)), luck);
            var t := Run(norm, up, sweep);
            && t.ops == map[] && |t.bans| == |s.bans|
            && (forall i :: 0 <= i < |s.bans| ==> !IsExpired(t.bans[i], later))
            && (forall i :: 0 <= i < |s.bans| && !IsExpired(s.bans[i], later) ==> t.bans[i] == s.bans[i])
            && (forall i :: 0 <= i < |s.bans| && IsExpired(s.bans[i], later) ==>
                  t.bans[i] == Deactivated(s.bans[i], luck(s.bans[i].ip).at))
            && (CanonicalRows(norm, s.bans) ==> t.fw == Due(norm, t.bans, now))
  {
    hide Run, Due, Expired, LiftsTrace, LiftAll, Ledger.OneActive, Dropped, CanonicalRows, Boot;
    var s := Run(norm, EMPTY, es);
    assert Ledger.LedgerInv(EMPTY.bans) by {
      EmptyLedger();
    }
    RunsKeepLedger(norm, EMPTY, es);
    BootRestores(norm, s, now);
    var up := Run(norm, s, Boot(norm, s, now));
    SweepRuns(norm, up, 0, later, luck);
    SweepLifts(norm, Books(s.bans, up.fw), later, luck);
    if CanonicalRows(norm, s.bans) {
      SweepLeavesDue(norm, s.bans, now, later, luck);
    }
  }

  lemma EmptyLedger()
    ensures Ledger.LedgerInv([])
  {
  }

  lemma SweepLeavesDue(norm: string -> string, bans: seq<BanRow>, now: int, later: int, luck: string -> LiftLuck)
    requires Ledger.OneActive(bans) && CanonicalRows(norm, bans)
    requires forall ip :: Lifts(luck(ip))
    ensures Due(norm, bans, now) - Dropped(norm, Ips(Expired(bans, later)), luck) == Due(norm, Swept(bans, later, luck), now)
  {
    hide CanonicalRows;
    var rows, after := Expired(bans, later), Swept(bans, later, luck);
    var dropped := Dropped(norm, Ips(rows), luck);
    forall x | x in dropped ensures exists r :: r in bans && IsExpired(r, later) && r.ip == x {
      var ip :| ip in Ips(rows) && norm(ip) == x;
      var i :| 0 <= i < |rows| && Ips(rows)[i] == ip;
      assert rows[i] in rows;
      RowCanonical(norm, bans, rows[i]);
    }
    forall r | r in bans && IsExpired(r, later) ensures r.ip in dropped {
      ListedIp(rows, r);
      assert r in rows;
      RowCanonical(norm, bans, r);
      assert luck(r.ip).reply != Refused;
    }
    forall r | r in bans && Restorable(r, now) ensures norm(r.ip) == r.ip && (r.ip !in dropped <==> !IsExpired(r, later)) {
      RowCanonical(norm, bans, r);
    }
    forall i | 0 <= i < |bans| ensures after[i] == bans[i] || !after[i].active {
    }
    forall r | r in bans && !IsExpired(r, later) ensures r in after {
      var i :| 0 <= i < |bans| && bans[i] == r;
      assert after[i] == r;
    }
    forall r | r in after && r.active ensures r in bans && !IsExpired(r, later) {
    }
  }

  lemma RowCanonical(norm: string -> string, bans: seq<BanRow>, r: BanRow)
    requires CanonicalRows(norm, bans) && r in bans && r.active && (r.source == BACKEND || r.expiresAt.Some?)
    ensures norm(r.ip) == r.ip
  {
    assert r.ip in Enforced(bans);
  }

  // ----- exact agreement, one operation at a time -----

  /** The table bans exactly what the firewall blocks. */
  predicate Exact(b: Books) { b.fw == Banned(b.bans) }

  /** When a ban keeps exact agreement: never if its roll-back takes an earlier ban of the address
      with it, or a block the firewall kept quiet about, and never if the address is active for
      another source, so that no row of this backend is written for the block. */
  predicate BanStaysExact(b: Books, ip: string, luck: BanLuck) {
    if !luck.stored then true
    else if luck.reply == Done || (luck.reply == Lost && !luck.undone) then HasActive(b.bans, ip) ==> ip in Banned(b.bans)
    else if luck.reply == Lost then false
    else if luck.undone then ip !in Banned(b.bans)
    else HasActive(b.bans, ip)
  }

  lemma BanExactness(norm: string -> string, b: Books, ip: string, reason: string, expiresAt: int, luck: BanLuck)
    requires Exact(b) && Canonical(norm, ip)
    ensures Exact(BanBooks(norm, b, ip, reason, expiresAt, luck)) <==> BanStaysExact(b, ip, luck)
  {
    hide Banned, BanIPRows, UnbanIPRows, HasActive;
    if luck.stored {
      BanWrites(b.bans, luck.now, ip, reason, expiresAt);
      UnbanWrites(BanIPRows(b.bans, luck.now, ip, BACKEND, reason, expiresAt), luck.at, ip);
      BannedIsActive(b.bans, ip);
    }
  }

  lemma BannedIsActive(bans: seq<BanRow>, ip: string)
    ensures ip in Banned(bans) ==> HasActive(bans, ip)
  {
  }

  lemma LiftExactness(norm: string -> string, b: Books, ip: string, luck: LiftLuck)
    requires Exact(b) && Canonical(norm, ip)
    ensures Exact(LiftBooks(norm, b, ip, luck)) <==> luck.reply == Refused || Lifts(luck) || ip !in Banned(b.bans)
  {
  }

  /** Without canonical spellings: an unban keeps everything banned blocked exactly when no other
      spelling of its address is banned. */
  lemma UnbanBlocksRest(norm: string -> string, b: Books, ip: string, luck: LiftLuck)
    requires (forall x :: x in Banned(b.bans) ==> norm(x) in b.fw) && Lifts(luck)
    ensures var after := LiftBooks(norm, b, ip, luck);
            (forall x :: x in Banned(after.bans) ==> norm(x) in after.fw) <==> Aliases(norm, b.bans, ip) == {}
  {
    hide Banned, UnbanIPRows;
    UnbanWrites(b.bans, luck.at, ip);
    var after := LiftBooks(norm, b, ip, luck);
    forall x | x in Banned(b.bans)
      ensures x in Aliases(norm, b.bans, ip) <==> x in Banned(after.bans) && norm(x) !in after.fw
    {
    }
  }

  // ----- runs in which the two drift apart -----

  const GOOD_BAN := BanLuck(0, true, Done, 1, true, true)
  const GOOD_LIFT := LiftLuck(Done, true, 2, true)

  lemma AfterGoodBan(norm: string -> string, ip: string)
    ensures var s := Run(norm, EMPTY, BanTrace(0, ip, "", 0, GOOD_BAN));
            s.ops == map[] && Banned(s.bans) == {ip} && s.fw == {norm(ip)}
  {
    hide Run, BanTrace, BanIPRows;
    BanRuns(norm, EMPTY, 0, ip, "", 0, GOOD_BAN);
    BanWrites([], 0, ip, "", 0);
    assert !HasActive([], ip);
  }

  /** Ban one spelling, unban another: no failure, nothing in flight, and the table still bans an
      address that is no longer blocked. The handlers do not normalise what they are given. */
  lemma SpellingsDrift(norm: string -> string, a: string, b: string)
    requires a != b && norm(a) == norm(b)
    ensures var t := Run(norm, EMPTY, BanTrace(0, a, "", 0, GOOD_BAN) + ([StartUnban(0, b)] + LiftTrace(0, GOOD_LIFT)));
            t.ops == map[] && a in Banned(t.bans) && norm(a) !in t.fw
  {
    hide Run, BanTrace, LiftTrace, BanIPRows, UnbanIPRows, Banned;
    RunAppend(norm, EMPTY, BanTrace(0, a, "", 0, GOOD_BAN), [StartUnban(0, b)] + LiftTrace(0, GOOD_LIFT));
    AfterGoodBan(norm, a);
    var s := Run(norm, EMPTY, BanTrace(0, a, "", 0, GOOD_BAN));
    UnbanRuns(norm, s, 0, b, GOOD_LIFT);
    UnbanWrites(s.bans, 2, b);
  }

  /** An unban that takes place and is reported failed: the handler stops, and the address is banned
      and not blocked with nothing in flight. */
  lemma LostUnbanDrifts(norm: string -> string, ip: string)
    ensures var lost := LiftLuck(Lost, true, 2, true);
            var t := Run(norm, EMPTY, BanTrace(0, ip, "", 0, GOOD_BAN) + ([StartUnban(0, ip)] + LiftTrace(0, lost)));
            t.ops == map[] && ip in Banned(t.bans) && norm(ip) !in t.fw
  {
    hide Run, BanTrace, LiftTrace, BanIPRows, UnbanIPRows, Banned;
    var lost := LiftLuck(Lost, true, 2, true);
    RunAppend(norm, EMPTY, BanTrace(0, ip, "", 0, GOOD_BAN), [StartUnban(0, ip)] + LiftTrace(0, lost));
    AfterGoodBan(norm, ip);
    UnbanRuns(norm, Run(norm, EMPTY, BanTrace(0, ip, "", 0, GOOD_BAN)), 0, ip, lost);
  }

  /** The other ways, each with one address and one failure. The firewall refuses the ban and the store
      refuses to take the row back. */
  lemma RefusedRollBackDrifts(norm: string -> string, ip: string)
    ensures var luck := GOOD_BAN.(reply := Refused, undone := false);
            var t := Run(norm, EMPTY, BanTrace(0, ip, "", 0, luck));
            t.ops == map[] && ip in Banned(t.bans) && norm(ip) !in t.fw
  {
    hide Run, BanTrace, BanIPRows, UnbanIPRows, Banned;
    BanRuns(norm, EMPTY, 0, ip, "", 0, GOOD_BAN.(reply := Refused, undone := false));
    BanWrites([], 0, ip, "", 0);
    assert !HasActive([], ip);
  }

  /** The firewall removes the entry and the store refuses to deactivate the row. */
  lemma RefusedDeactivationDrifts(norm: string -> string, ip: string)
    ensures var luck := GOOD_LIFT.(stored := false);
            var t := Run(norm, EMPTY, BanTrace(0, ip, "", 0, GOOD_BAN) + ([StartUnban(0, ip)] + LiftTrace(0, luck)));
            t.ops == map[] && ip in Banned(t.bans) && norm(ip) !in t.fw
  {
    hide Run, BanTrace, LiftTrace, BanIPRows, UnbanIPRows, Banned;
    var luck := GOOD_LIFT.(stored := false);
    RunAppend(norm, EMPTY, BanTrace(0, ip, "", 0, GOOD_BAN), [StartUnban(0, ip)] + LiftTrace(0, luck));
    AfterGoodBan(norm, ip);
    UnbanRuns(norm, Run(norm, EMPTY, BanTrace(0, ip, "", 0, GOOD_BAN)), 0, ip, luck);
  }

  /** The process dies after the row is written and before the firewall is called. */
  lemma CrashInsideBanDrifts(norm: string -> string, ip: string)
    ensures var t := Run(norm, EMPTY, [StartBan(0, ip, "", 0), Write(0, 0, true)] + [Crash]);
            t.ops == map[] && ip in Banned(t.bans) && norm(ip) !in t.fw
  {
    hide Run, BanIPRows, Banned;
    var ban := [StartBan(0, ip, "", 0), Write(0, 0, true)];
    RunAppend(norm, EMPTY, ban, [Crash]);
    RunTwo(norm, EMPTY, StartBan(0, ip, "", 0), Write(0, 0, true));
    RunOne(norm, Run(norm, EMPTY, ban), Crash);
    BanWrites([], 0, ip, "", 0);
    assert !HasActive([], ip);
  }

  /** The host restarts, which empties the firewall's set. */
  lemma RebootDrifts(norm: string -> string, ip: string)
    ensures var t := Run(norm, EMPTY, BanTrace(0, ip, "", 0, GOOD_BAN) + [Reboot]);
            t.ops == map[] && ip in Banned(t.bans) && norm(ip) !in t.fw
  {
    hide Run, BanTrace, BanIPRows, Banned;
    RunAppend(norm, EMPTY, BanTrace(0, ip, "", 0, GOOD_BAN), [Reboot]);
    RunOne(norm, Run(norm, EMPTY, BanTrace(0, ip, "", 0, GOOD_BAN)), Reboot);
    AfterGoodBan(norm, ip);
  }

  /** Ban an address twice, the firewall refusing the second call: the roll-back deactivates the
      first ban's row and the address stays blocked with nothing to lift it. */
  lemma FailedRebanOrphans(norm: string -> string, ip: string)
    ensures var again := GOOD_BAN.(reply := Refused);
            var t := Run(norm, EMPTY, BanTrace(0, ip, "", 0, GOOD_BAN) + BanTrace(0, ip, "", 0, again));
            t.ops == map[] && norm(ip) in t.fw && !HasActive(t.bans, ip)
  {
    hide Run, BanTrace, BanIPRows, UnbanIPRows, HasActive;
    var again := GOOD_BAN.(reply := Refused);
    RunAppend(norm, EMPTY, BanTrace(0, ip, "", 0, GOOD_BAN), BanTrace(0, ip, "", 0, again));
    BanRuns(norm, EMPTY, 0, ip, "", 0, GOOD_BAN);
    var s := Run(norm, EMPTY, BanTrace(0, ip, "", 0, GOOD_BAN));
    BanRuns(norm, s, 0, ip, "", 0, again);
    UnbanWrites(BanIPRows(s.bans, 0, ip, BACKEND, "", 0), 1, ip);
  }

  /** An unban that runs between a ban's two writes: every call succeeds, and the address is
      blocked with no row of this backend. The ban's feed entry then does add a row, of source
      fail2ban, which neither a sweep nor a reconciliation will ever act on. */
  lemma UnbanInsideBan(norm: string -> string, ip: string)
    ensures var es := [StartBan(0, ip, "", 0), Write(0, 0, true)] + ([StartUnban(1, ip)] + LiftTrace(1, GOOD_LIFT)) +
                      [Call(0, Done), Record(0, 3, true)];
            var t := Run(norm, EMPTY, es);
            && t.ops == map[] && norm(ip) in t.fw && ip !in Banned(t.bans) && ip !in Enforced(t.bans)
            && HasActive(t.bans, ip)
  {
    hide Run, LiftTrace, BanIPRows, UnbanIPRows, Banned, Enforced, HasActive, LiftBooks;
    var start, write := StartBan(0, ip, "", 0), Write(0, 0, true);
    var lift := [StartUnban(1, ip)] + LiftTrace(1, GOOD_LIFT);
    RunAppend(norm, EMPTY, [start, write] + lift, [Call(0, Done), Record(0, 3, true)]);
    RunAppend(norm, EMPTY, [start, write], lift);
    RunTwo(norm, EMPTY, start, write);
    var s := Run(norm, EMPTY, [start, write]);
    UnbanRuns(norm, s, 1, ip, GOOD_LIFT);
    var u := Run(norm, s, lift);
    RunTwo(norm, u, Call(0, Done), Record(0, 3, true));
    InsideBanRows(norm, ip);
    assert s.bans == BanIPRows([], 0, ip, BACKEND, "", 0);
    assert u.bans == UnbanIPRows(s.bans, 2, ip) by {
      LiftedBooks(norm, Books(s.bans, s.fw), ip, GOOD_LIFT);
    }
  }

  lemma LiftedBooks(norm: string -> string, b: Books, ip: string, luck: LiftLuck)
    requires Lifts(luck)
    ensures LiftBooks(norm, b, ip, luck).bans == UnbanIPRows(b.bans, luck.at, ip)
  {
  }

  lemma InsideBanRows(norm: string -> string, ip: string)
    ensures var u := UnbanIPRows(BanIPRows([], 0, ip, BACKEND, "", 0), 2, ip);
            var t := MirrorBan(u, ip, "", 3);
            ip !in Banned(t) && ip !in Enforced(t) && HasActive(t, ip)
  {
    var row := BanRow(1, ip, None, 0, None, None, true, BACKEND, None);
    var first := BanIPRows([], 0, ip, BACKEND, "", 0);
    assert first == [row];
    var u := UnbanIPRows(first, 2, ip);
    assert u == [Deactivated(row, 2)];
    var t := MirrorBan(u, ip, "", 3);
    assert |t| == 2 && t[0] == u[0] && t[1].source == "fail2ban" && t[1].active && t[1].ip == ip;
  }

  /** A sweep lists a ban, the address is unbanned and banned again for good, and the sweep goes
      on: the permanent ban is lifted. A sweep nothing interrupts never does this (SweepLifts). */
  lemma SweepLiftsFreshBan(norm: string -> string, s: State, now: int)
    requires s.ops == map[] && Expired(s.bans, now) != []
    ensures var ip := Expired(s.bans, now)[0].ip;
            var before := Run(norm, s, [StartSweep(0, now)] + (([StartUnban(1, ip)] + LiftTrace(1, GOOD_LIFT)) +
                                                               BanTrace(2, ip, "", 0, GOOD_BAN)));
            var after := Run(norm, before, LiftTrace(0, GOOD_LIFT));
            && (exists r :: r in before.bans && r.active && r.ip == ip && r.source == BACKEND && r.expiresAt == None)
            && norm(ip) in before.fw
            && !HasActive(after.bans, ip) && norm(ip) !in after.fw
  {
    hide Run, LiftTrace, BanTrace, Expired, BanIPRows, UnbanIPRows, HasActive;
    var ip := Expired(s.bans, now)[0].ip;
    var lift, ban := [StartUnban(1, ip)] + LiftTrace(1, GOOD_LIFT), BanTrace(2, ip, "", 0, GOOD_BAN);
    var s1 := Step(norm, s, StartSweep(0, now));
    RunCons(norm, s, StartSweep(0, now), lift + ban);
    RunAppend(norm, s1, lift, ban);
    UnbanRuns(norm, s1, 1, ip, GOOD_LIFT);
    var s2 := Run(norm, s1, lift);
    BanRuns(norm, s2, 2, ip, "", 0, GOOD_BAN);
    var s3 := Run(norm, s2, ban);
    UnbanWrites(s1.bans, GOOD_LIFT.at, ip);
    PermanentRow(s2.bans, ip);
    LiftRuns(norm, s3, 0, GOOD_LIFT);
    UnbanWrites(s3.bans, GOOD_LIFT.at, ip);
  }

  lemma PermanentRow(bans: seq<BanRow>, ip: string)
    requires !HasActive(bans, ip)
    ensures exists r :: r in BanIPRows(bans, 0, ip, BACKEND, "", 0) &&
                        r.active && r.ip == ip && r.source == BACKEND && r.expiresAt == None
  {
    var after := BanIPRows(bans, 0, ip, BACKEND, "", 0);
    assert after[|bans|] in after;
  }
}
