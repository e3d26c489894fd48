/** A firewall that removes exactly what it holds and reports an error otherwise, as nftables does with
    a set element that is not there: which bans can then never be lifted again. */
module StrictFirewall {
  import opened Numbers
  import opened Store
  import Ledger
  import opened Lifecycle
  import opened Enforcement
  import opened Interleaving

  /** Such a firewall answers an unban by what it holds. */
  predicate Strict(norm: string -> string, s: State, e: Lifecycle.Event) {
    e.Call? && e.id in s.ops && s.ops[e.id].stage.ToUnblock? ==>
      e.reply == if norm(s.ops[e.id].ip) in s.fw then Done else Refused
  }

  ghost predicate StrictRun(norm: string -> string, s: State, es: seq<Lifecycle.Event>) {
    forall n :: 0 <= n < |es| ==> Strict(norm, Run(norm, s, es[..n]), es[n])
  }

  // ----- rows that nothing lifts -----

  /** Every operation on the address is an unban, a sweep, a reconciliation or a feed entry that has
      not got past the firewall. */
  ghost predicate OnlyTries(s: State, ip: string) {
    forall id :: id in s.ops && s.ops[id].ip == ip ==>
      s.ops[id].stage.ToUnblock? || s.ops[id].stage.ToRestore? || s.ops[id].stage.ToRecord?
  }

  lemma StepTries(norm: string -> string, s: State, e: Lifecycle.Event, ip: string)
    requires OnlyTries(s, ip) && norm(ip) !in s.fw
    requires Strict(norm, s, e) && !Entered(norm, s, e, norm(ip)) && !(e.StartBan? && e.ip == ip)
    ensures OnlyTries(Step(norm, s, e), ip) && norm(ip) !in Step(norm, s, e).fw
    ensures !Lifted(s, e, ip)
  {
    hide Banned, Open, Bared, BanIPRows, UnbanIPRows, MirrorBan, MirrorUnban, PruneBans, Expired, ToReapply;
    StepBlocks(norm, s, e, norm(ip));
  }

  /** A row whose address the firewall does not hold stays, through every strict run: every sweep and
      every unban of it is refused, whatever else goes on. It takes a new ban of the address, or an
      entry put back by a reconciliation, to change that. */
  lemma {:induction false} StrandedForever(norm: string -> string, s: State, es: seq<Lifecycle.Event>, r: BanRow)
    requires Ledger.LedgerInv(s.bans) && r in s.bans && r.active && r.source != "fail2ban"
    requires norm(r.ip) !in s.fw && OnlyTries(s, r.ip) && StrictRun(norm, s, es)
    requires forall n :: 0 <= n < |es| ==> !EnteredAt(norm, s, es, norm(r.ip), n) && !(es[n].StartBan? && es[n].ip == r.ip)
    ensures var t := Run(norm, s, es);
            r in t.bans && norm(r.ip) !in t.fw && OnlyTries(t, r.ip) && Ledger.LedgerInv(t.bans)
  {
    hide Step, Ledger.LedgerInv, OnlyTries, Strict, Entered, Lifted;
    if es != [] {
      var init, k := es[..|es| - 1], |es| - 1;
      forall n | 0 <= n < k ensures es[..n] == init[..n] && es[n] == init[n] {
        Prefixes(es, n);
      }
      assert es[..k] == init;
      StrandedForever(norm, s, init, r);
      assert Strict(norm, Run(norm, s, init), es[k]);
      assert !EnteredAt(norm, s, es, norm(r.ip), k);
      StepStrands(norm, Run(norm, s, init), es[k], r);
      RunsKeepLedger(norm, s, es);
    }
  }

  lemma StepStrands(norm: string -> string, s: State, e: Lifecycle.Event, r: BanRow)
    requires Ledger.LedgerInv(s.bans) && r in s.bans && r.active && r.source != "fail2ban"
    requires norm(r.ip) !in s.fw && OnlyTries(s, r.ip)
    requires Strict(norm, s, e) && !Entered(norm, s, e, norm(r.ip)) && !(e.StartBan? && e.ip == r.ip)
    ensures var t := Step(norm, s, e); r in t.bans && norm(r.ip) !in t.fw && OnlyTries(t, r.ip)
  {
    hide Step, OnlyTries, Strict, Entered, Lifted, Stored;
    StepTries(norm, s, e, r.ip);
    HasOneActive(s.bans);
    OnlyActive(s.bans, r);
    RowIsActive(s.bans, r);
    StepActive(norm, s, e, r.ip);
    assert r in ActiveOf(s.bans, r.ip);
  }

  /** One failed store write is enough: an unban, or a sweep's visit, that the firewall carries out
      and the store then refuses leaves a row that no later sweep or unban can lift. */
  lemma LostWriteStrands(norm: string -> string, s: State, id: nat, now: int, es: seq<Lifecycle.Event>, r: BanRow)
    requires Ledger.LedgerInv(s.bans) && r in s.bans && r.active && r.source != "fail2ban"
    requires id in s.ops && s.ops[id].ip == r.ip && s.ops[id].stage.ToUnblock? && OnlyTries(s, r.ip)
    requires var left := Step(norm, Step(norm, s, Call(id, Done)), Write(id, now, false));
             StrictRun(norm, left, es) &&
             forall n :: 0 <= n < |es| ==> !EnteredAt(norm, left, es, norm(r.ip), n) && !(es[n].StartBan? && es[n].ip == r.ip)
    ensures r in Run(norm, s, [Call(id, Done), Write(id, now, false)] + es).bans
  {
    hide Ledger.LedgerInv, StrictRun, Run, EnteredAt, Open, Bared, Banned;
    var left := Step(norm, Step(norm, s, Call(id, Done)), Write(id, now, false));
    RunAppend(norm, s, [Call(id, Done), Write(id, now, false)], es);
    RunTwo(norm, s, Call(id, Done), Write(id, now, false));
    StrandedForever(norm, left, es, r);
  }

  // ----- one sweep -----

  /** The first row a sweep would list among the expired rows that share a firewall entry: the one
      that ran out first. Rows share an entry when their addresses are spellings of one another. */
  function Leader(norm: string -> string, bans: seq<BanRow>, x: string, now: int): Option<BanRow> {
    var listed := Keep(Expired(bans, now), (r: BanRow) => norm(r.ip) == x);
    if listed == [] then None else Some(listed[0])
  }

  /** An entry has a leader exactly when a row of it has expired; and that leader ran out no later
      than any other. */
  lemma LeaderIsEarliest(norm: string -> string, bans: seq<BanRow>, x: string, now: int)
    ensures var l := Leader(norm, bans, x, now);
            && (l.Some? <==> exists r :: r in bans && IsExpired(r, now) && norm(r.ip) == x)
            && (l.Some? ==> l.value in bans && IsExpired(l.value, now) && norm(l.value.ip) == x &&
                            forall r :: r in bans && IsExpired(r, now) && norm(r.ip) == x ==>
                              l.value.expiresAt.value <= r.expiresAt.value)
  {
    hide SortBy, Keep;
    var p := (r: BanRow) => norm(r.ip) == x;
    var rows := Expired(bans, now);
    var listed := Keep(rows, p);
    if listed != [] {
      assert listed[0] in listed;
      var k := KeepHead(rows, p);
      forall r | r in rows && p(r) ensures ExpiryKey()(listed[0]) <= ExpiryKey()(r) {
        var i :| 0 <= i < |rows| && rows[i] == r;
      }
    }
  }

  /** The leader depends on the rows of the entry alone. */
  lemma LeaderSame(norm: string -> string, bans: seq<BanRow>, after: seq<BanRow>, x: string, now: int)
    requires |bans| == |after|
    requires forall i :: 0 <= i < |bans| && norm(bans[i].ip) == x && (IsExpired(bans[i], now) || IsExpired(after[i], now)) ==>
               after[i] == bans[i]
    requires forall i :: 0 <= i < |bans| ==> after[i].ip == bans[i].ip
    ensures Leader(norm, after, x, now) == Leader(norm, bans, x, now)
  {
    hide SortBy, Keep;
    var expired, entry := (r: BanRow) => IsExpired(r, now), (r: BanRow) => norm(r.ip) == x;
    var both := (r: BanRow) => IsExpired(r, now) && norm(r.ip) == x;
    KeepSort(Keep(bans, expired), ExpiryKey(), entry);
    KeepSort(Keep(after, expired), ExpiryKey(), entry);
    KeepKeep(bans, expired, entry, both);
    KeepKeep(after, expired, entry, both);
    KeepSame(bans, after, both);
  }

  /** How a strict firewall that holds fw answers a sweep, the store working: of the listed addresses
      that share an entry it holds, it removes that entry for the first and refuses the others. */
  function Answers(norm: string -> string, fw: set<string>, bans: seq<BanRow>, now: int): string -> LiftLuck {
    (ip: string) =>
      var leader := Leader(norm, bans, norm(ip), now);
      LiftLuck(if norm(ip) in fw && leader.Some? && leader.value.ip == ip then Done else Refused, true, now, true)
  }

  function SweepEvents(norm: string -> string, s: State, now: int): seq<Lifecycle.Event> {
    [StartSweep(0, now)] + LiftsTrace(0, Ips(Expired(s.bans, now)), Answers(norm, s.fw, s.bans, now))
  }

  lemma StrictAppend(norm: string -> string, s: State, es: seq<Lifecycle.Event>, fs: seq<Lifecycle.Event>)
    requires StrictRun(norm, s, es) && StrictRun(norm, Run(norm, s, es), fs)
    ensures StrictRun(norm, s, es + fs)
  {
    hide Strict, Step, Run;
    var all := es + fs;
    forall n | 0 <= n < |all| ensures Strict(norm, Run(norm, s, all[..n]), all[n]) {
      if n < |es| {
        assert all[..n] == es[..n] && all[n] == es[n];
        assert Strict(norm, Run(norm, s, es[..n]), es[n]);
      } else {
        var m := n - |es|;
        assert all[..n] == es + fs[..m] && all[n] == fs[m];
        RunAppend(norm, s, es, fs[..m]);
        assert Strict(norm, Run(norm, Run(norm, s, es), fs[..m]), fs[m]);
      }
    }
  }

  /** One visit: its only firewall call comes first. */
  lemma VisitIsStrict(norm: string -> string, s: State, id: nat, luck: LiftLuck)
    requires id in s.ops && s.ops[id].stage.ToUnblock?
    requires luck.reply == if norm(s.ops[id].ip) in s.fw then Done else Refused
    ensures StrictRun(norm, s, LiftTrace(id, luck))
  {
    hide Step, Run;
    var es := LiftTrace(id, luck);
    assert es[..0] == [];
    NothingSwept(norm, s);
    assert forall n :: 1 <= n < |es| ==> !es[n].Call?;
  }

  /** No two of the rows are of one address. */
  ghost predicate Apart(rows: seq<BanRow>) { forall i, j :: 0 <= i < j < |rows| ==> rows[i].ip != rows[j].ip }

  lemma {:induction false} KeepApart(bans: seq<BanRow>, now: int)
    requires Ledger.OneActive(bans)
    ensures Apart(Keep(bans, (r: BanRow) => IsExpired(r, now)))
  {
    hide Ledger.OneActive, Apart;
    if bans == [] {
      NoneApart([]);
    } else {
      RestOneActive(bans);
      KeepApart(bans[1..], now);
      if IsExpired(bans[0], now) {
        MoreApart(bans[0], Keep(bans[1..], (r: BanRow) => IsExpired(r, now)));
      }
    }
  }

  lemma NoneApart(rows: seq<BanRow>)
    requires rows == []
    ensures Apart(rows)
  {
  }

  lemma RestOneActive(bans: seq<BanRow>)
    requires Ledger.OneActive(bans) && bans != []
    ensures Ledger.OneActive(bans[1..])
    ensures forall q :: q in bans[1..] && q.active && bans[0].active ==> q.ip != bans[0].ip
  {
  }

  lemma MoreApart(r: BanRow, rows: seq<BanRow>)
    requires Apart(rows) && forall q :: q in rows ==> q.ip != r.ip
    ensures Apart([r] + rows)
  {
    assert forall i :: 0 <= i < |rows| ==> rows[i] in rows;
  }

  lemma RestApart(rows: seq<BanRow>)
    requires Apart(rows) && rows != []
    ensures Apart(rows[1..]) && forall q :: q in rows[1..] ==> q.ip != rows[0].ip
  {
  }

  lemma {:induction false} InsertApart(r: BanRow, rows: seq<BanRow>, key: BanRow -> int)
    requires Apart(rows) && forall q :: q in rows ==> q.ip != r.ip
    ensures Apart(InsertBy(r, rows, key))
  {
    hide Apart;
    if rows == [] || key(r) <= key(rows[0]) {
      MoreApart(r, rows);
    } else {
      RestApart(rows);
      InsertApart(r, rows[1..], key);
      MoreApart(rows[0], InsertBy(r, rows[1..], key));
    }
  }

  lemma {:induction false} SortApart(rows: seq<BanRow>, key: BanRow -> int)
    requires Apart(rows)
    ensures Apart(SortBy(rows, key))
  {
    hide Apart;
    if rows == [] {
      NoneApart([]);
    } else {
      RestApart(rows);
      SortApart(rows[1..], key);
      InsertApart(rows[0], SortBy(rows[1..], key), key);
    }
  }

  lemma ListedApart(bans: seq<BanRow>, now: int)
    requires Ledger.OneActive(bans)
    ensures Apart(Expired(bans, now))
  {
    KeepApart(bans, now);
    SortApart(Keep(bans, (r: BanRow) => IsExpired(r, now)), ExpiryKey());
  }

  /** Where the leader stands in the list: no address of its entry comes before it. */
  lemma LeaderListed(norm: string -> string, bans: seq<BanRow>, x: string, now: int) returns (i: nat)
    requires Leader(norm, bans, x, now).Some?
    ensures var rows := Expired(bans, now);
            && i < |rows| && rows[i] == Leader(norm, bans, x, now).value && norm(rows[i].ip) == x
            && forall j :: 0 <= j < i ==> norm(rows[j].ip) != x
  {
    hide SortBy, Keep;
    i := KeepHead(Expired(bans, now), (r: BanRow) => norm(r.ip) == x);
  }

  /** By the time of visit k the entry is still held exactly if the answer says so. */
  lemma StillHeld(norm: string -> string, fw: set<string>, bans: seq<BanRow>, now: int, k: nat)
    requires Ledger.OneActive(bans) && k < |Expired(bans, now)|
    ensures var ips, luck := Ips(Expired(bans, now)), Answers(norm, fw, bans, now);
            norm(ips[k]) in fw - Dropped(norm, ips[..k], luck) <==> luck(ips[k]).reply == Done
  {
    hide Ledger.OneActive, Expired, Leader;
    var rows := Expired(bans, now);
    var ips, luck := Ips(rows), Answers(norm, fw, bans, now);
    var x := norm(ips[k]);
    ListedApart(bans, now);
    ListedHasLeader(norm, bans, now, k);
    var i := LeaderListed(norm, bans, x, now);
    if x in fw {
      if i < k {
        assert ips[..k][i] == ips[i] && luck(ips[i]).reply == Done;
        assert norm(ips[i]) in Dropped(norm, ips[..k], luck);
      } else {
        assert i == k;
        forall y | y in ips[..k] ensures norm(y) != x {
          var j :| 0 <= j < k && ips[..k][j] == y;
          assert ips[j] == rows[j].ip;
        }
      }
    }
  }

  lemma ListedHasLeader(norm: string -> string, bans: seq<BanRow>, now: int, k: nat)
    requires k < |Expired(bans, now)|
    ensures Leader(norm, bans, norm(Expired(bans, now)[k].ip), now).Some?
  {
    hide SortBy, Keep;
    var r := Expired(bans, now)[k];
    assert r in Expired(bans, now);
    LeaderIsEarliest(norm, bans, norm(r.ip), now);
  }

  lemma {:induction false} VisitsAreStrict(norm: string -> string, s: State, id: nat, now: int, k: nat)
    requires var ips := Ips(Expired(s.bans, now));
             k <= |ips| && ips != [] && id in s.ops && s.ops[id] == Op(ips[0], ToUnblock, ips[1..])
    requires Ledger.OneActive(s.bans)
    ensures StrictRun(norm, s, LiftsTrace(id, Ips(Expired(s.bans, now))[..k], Answers(norm, s.fw, s.bans, now)))
    decreases k
  {
    hide Ledger.OneActive, StrictRun, Run, LiftTrace, HasExpired, LiftAll, SweptBy, Expired, Answers, Dropped;
    var ips, luck := Ips(Expired(s.bans, now)), Answers(norm, s.fw, s.bans, now);
    if k == 0 {
      assert ips[..0] == [];
      NothingStrict(norm, s);
    } else {
      VisitsAreStrict(norm, s, id, now, k - 1);
      assert ips[..k][..k - 1] == ips[..k - 1];
      var done := LiftsTrace(id, ips[..k - 1], luck);
      LiftsRun(norm, s, id, ips, k - 1, luck);
      ListedExpired(s.bans, now);
      VisitsSweep(norm, Books(s.bans, s.fw), now, luck, ips[..k - 1]);
      StillHeld(norm, s.fw, s.bans, now, k - 1);
      AnswersPlainly(norm, s.fw, s.bans, now, ips[k - 1]);
      var t := Run(norm, s, done);
      VisitIsStrict(norm, t, id, luck(ips[k - 1]));
      StrictAppend(norm, s, done, LiftTrace(id, luck(ips[k - 1])));
    }
  }

  lemma AnswersPlainly(norm: string -> string, fw: set<string>, bans: seq<BanRow>, now: int, ip: string)
    ensures Answers(norm, fw, bans, now)(ip).reply != Lost
  {
  }

  lemma NothingStrict(norm: string -> string, s: State)
    ensures StrictRun(norm, s, [])
  {
  }

  /** The answers of a sweep are those of a strict firewall at each call, whatever the spellings. */
  lemma SweepIsStrict(norm: string -> string, s: State, now: int)
    requires Ledger.OneActive(s.bans) && 0 !in s.ops
    ensures StrictRun(norm, s, SweepEvents(norm, s, now))
  {
    hide Ledger.OneActive, StrictRun, Run, LiftsTrace, Expired, Answers;
    var ips, luck := Ips(Expired(s.bans, now)), Answers(norm, s.fw, s.bans, now);
    var first := Step(norm, s, StartSweep(0, now));
    StartIsStrict(norm, s, now);
    RunOne(norm, s, StartSweep(0, now));
    if ips == [] {
      NothingLifted(norm, s, 0, luck);
      NothingStrict(norm, first);
    } else {
      VisitsAreStrict(norm, first, 0, now, |ips|);
      assert ips[..|ips|] == ips;
    }
    StrictAppend(norm, s, [StartSweep(0, now)], LiftsTrace(0, ips, luck));
  }

  lemma StartIsStrict(norm: string -> string, s: State, now: int)
    ensures StrictRun(norm, s, [StartSweep(0, now)])
  {
  }

  lemma ListedExpired(bans: seq<BanRow>, now: int)
    ensures forall ip :: ip in Ips(Expired(bans, now)) ==> HasExpired(bans, now, ip)
  {
    hide SortBy, Keep;
    var rows := Expired(bans, now);
    forall ip | ip in Ips(rows) ensures HasExpired(bans, now, ip) {
      var i :| 0 <= i < |rows| && Ips(rows)[i] == ip;
      assert rows[i] in rows;
    }
  }

  /** A row that a sweep at the time lifts: it leads its entry, and the firewall holds that. */
  predicate Led(norm: string -> string, fw: set<string>, bans: seq<BanRow>, r: BanRow, now: int) {
    norm(r.ip) in fw && Leader(norm, bans, norm(r.ip), now) == Some(r)
  }

  /** One sweep of a strict firewall with a working store, from any quiet state and for any
      spellings: of the expired rows that share an entry the firewall holds, exactly the first listed
      is lifted; every other row stays as it is; and exactly the entries with an expired row go. */
  lemma SweepLiftsLeaders(norm: string -> string, s: State, now: int)
    requires Ledger.OneActive(s.bans) && 0 !in s.ops
    ensures var events := SweepEvents(norm, s, now);
            var t := Run(norm, s, events);
            && StrictRun(norm, s, events) && t.ops == s.ops && |t.bans| == |s.bans|
            && (forall i :: 0 <= i < |s.bans| ==>
                  t.bans[i] == if Led(norm, s.fw, s.bans, s.bans[i], now) then Deactivated(s.bans[i], now) else s.bans[i])
            && (forall x :: x in t.fw <==> x in s.fw && Leader(norm, s.bans, x, now).None?)
  {
    hide Run, Expired, LiftsTrace, LiftAll, Dropped, Ledger.OneActive, StrictRun, Leader;
    var luck := Answers(norm, s.fw, s.bans, now);
    SweepIsStrict(norm, s, now);
    SweepRuns(norm, s, 0, now, luck);
    SweepLifts(norm, Books(s.bans, s.fw), now, luck);
    forall i | 0 <= i < |s.bans|
      ensures IsExpired(s.bans[i], now) && Lifts(luck(s.bans[i].ip)) <==> Led(norm, s.fw, s.bans, s.bans[i], now)
    {
      LeaderOfRow(norm, s.bans, i, now);
    }
    forall x ensures x in Dropped(norm, Ips(Expired(s.bans, now)), luck) <==> x in s.fw && Leader(norm, s.bans, x, now).Some? {
      LeaderDropped(norm, s.fw, s.bans, x, now);
    }
  }

  /** An expired row whose address the leader has is the leader. */
  lemma LeaderOfRow(norm: string -> string, bans: seq<BanRow>, i: nat, now: int)
    requires Ledger.OneActive(bans) && i < |bans|
    ensures var l := Leader(norm, bans, norm(bans[i].ip), now);
            IsExpired(bans[i], now) && l.Some? && l.value.ip == bans[i].ip <==> l == Some(bans[i])
  {
    hide Leader, Ledger.OneActive;
    var l := Leader(norm, bans, norm(bans[i].ip), now);
    LeaderIsEarliest(norm, bans, norm(bans[i].ip), now);
    if l.Some? && IsExpired(bans[i], now) && l.value.ip == bans[i].ip {
      OnlyActive(bans, l.value);
    }
  }

  lemma LeaderDropped(norm: string -> string, fw: set<string>, bans: seq<BanRow>, x: string, now: int)
    ensures x in Dropped(norm, Ips(Expired(bans, now)), Answers(norm, fw, bans, now)) <==>
            x in fw && Leader(norm, bans, x, now).Some?
  {
    hide Expired, Leader;
    var ips, luck := Ips(Expired(bans, now)), Answers(norm, fw, bans, now);
    if x in fw && Leader(norm, bans, x, now).Some? {
      var i := LeaderListed(norm, bans, x, now);
      assert ips[i] in ips && luck(ips[i]).reply == Done;
    }
  }

  // ----- boot, and then any number of sweeps -----

  /** Sweeps one after the other, at the given times. */
  function Sweeps(norm: string -> string, s: State, times: seq<int>): seq<Lifecycle.Event> {
    if times == [] then []
    else
      var init := Sweeps(norm, s, times[..|times| - 1]);
      init + SweepEvents(norm, Run(norm, s, init), times[|times| - 1])
  }

  /** No sweep has found an expired row of the entry. */
  ghost predicate Untouched(norm: string -> string, bans: seq<BanRow>, x: string, times: seq<int>) {
    forall k :: 0 <= k < |times| ==> Leader(norm, bans, x, times[k]).None?
  }

  /** The row leads its entry at the first sweep that finds an expired row of it. */
  ghost predicate LedFirst(norm: string -> string, bans: seq<BanRow>, r: BanRow, times: seq<int>) {
    exists k :: 0 <= k < |times| && Untouched(norm, bans, norm(r.ip), times[..k]) &&
                Leader(norm, bans, norm(r.ip), times[k]) == Some(r)
  }

  lemma SweepGrows(norm: string -> string, bans: seq<BanRow>, x: string, r: BanRow, times: seq<int>)
    requires times != []
    ensures var init, last := times[..|times| - 1], times[|times| - 1];
            && (Untouched(norm, bans, x, times) <==> Untouched(norm, bans, x, init) && Leader(norm, bans, x, last).None?)
            && (LedFirst(norm, bans, r, times) <==>
                LedFirst(norm, bans, r, init) ||
                (Untouched(norm, bans, norm(r.ip), init) && Leader(norm, bans, norm(r.ip), last) == Some(r)))
  {
    hide Leader, LedFirst;
    var init := times[..|times| - 1];
    assert forall n :: 0 <= n < |init| ==> times[n] == init[n];
    LedGrows(norm, bans, r, times);
  }

  lemma LedGrows(norm: string -> string, bans: seq<BanRow>, r: BanRow, times: seq<int>)
    requires times != []
    ensures var init, last := times[..|times| - 1], times[|times| - 1];
            LedFirst(norm, bans, r, times) <==>
            LedFirst(norm, bans, r, init) ||
            (Untouched(norm, bans, norm(r.ip), init) && Leader(norm, bans, norm(r.ip), last) == Some(r))
  {
    hide Leader, Untouched;
    var init, k := times[..|times| - 1], |times| - 1;
    assert forall n :: 0 <= n < k ==> times[..n] == init[..n] && times[n] == init[n];
    assert times[..k] == init;
  }

  /** A row that has led its entry has touched it. */
  lemma LedTouches(norm: string -> string, bans: seq<BanRow>, r: BanRow, times: seq<int>)
    requires LedFirst(norm, bans, r, times)
    ensures !Untouched(norm, bans, norm(r.ip), times)
  {
    hide Leader;
  }

  /** Sweep after sweep of a strict firewall, from any quiet state and for any spellings: a row is
      lifted exactly when the firewall held its entry and the row leads the entry at the first sweep
      that finds an expired row of it. The entry goes with that, and strands the rest. */
  lemma {:induction false} SweepsLift(norm: string -> string, up: State, times: seq<int>)
    requires Ledger.LedgerInv(up.bans) && up.ops == map[]
    ensures var t := Run(norm, up, Sweeps(norm, up, times));
            && StrictRun(norm, up, Sweeps(norm, up, times))
            && t.ops == map[] && |t.bans| == |up.bans| && Ledger.LedgerInv(t.bans)
            && (forall x :: x in t.fw <==> x in up.fw && Untouched(norm, up.bans, x, times))
            && (forall i :: 0 <= i < |up.bans| ==>
                  && t.bans[i].ip == up.bans[i].ip
                  && if norm(up.bans[i].ip) in up.fw && LedFirst(norm, up.bans, up.bans[i], times) then !t.bans[i].active
                     else t.bans[i] == up.bans[i])
  {
    hide Run, Ledger.LedgerInv, SweepEvents, StrictRun, Leader, Untouched, LedFirst;
    if times == [] {
      NothingStrict(norm, up);
      NothingSwept(norm, up);
    } else {
      var init, last := times[..|times| - 1], times[|times| - 1];
      SweepsLift(norm, up, init);
      var s := Run(norm, up, Sweeps(norm, up, init));
      RunAppend(norm, up, Sweeps(norm, up, init), SweepEvents(norm, s, last));
      RunsKeepLedger(norm, up, Sweeps(norm, up, times));
      HasOneActive(s.bans);
      SweepLiftsLeaders(norm, s, last);
      StrictAppend(norm, up, Sweeps(norm, up, init), SweepEvents(norm, s, last));
      forall x ensures x in s.fw ==> Leader(norm, s.bans, x, last) == Leader(norm, up.bans, x, last) {
        if x in s.fw {
          LeaderKept(norm, up, s.bans, x, init, last);
        }
      }
      forall x ensures x in s.fw && Leader(norm, s.bans, x, last).None? <==> x in up.fw && Untouched(norm, up.bans, x, times) {
        SweepGrows(norm, up.bans, x, BanRow(0, x, None, 0, None, None, true, "", None), times);
      }
      forall i | 0 <= i < |up.bans|
        ensures var t := Run(norm, up, Sweeps(norm, up, times));
                && t.bans[i].ip == up.bans[i].ip
                && if norm(up.bans[i].ip) in up.fw && LedFirst(norm, up.bans, up.bans[i], times) then !t.bans[i].active
                   else t.bans[i] == up.bans[i]
      {
        SweepGrows(norm, up.bans, norm(up.bans[i].ip), up.bans[i], times);
        if LedFirst(norm, up.bans, up.bans[i], init) {
          LedTouches(norm, up.bans, up.bans[i], init);
        }
      }
    }
  }

  /** While the firewall holds an entry, no row of it has been lifted, and its leader is as it was. */
  lemma LeaderKept(norm: string -> string, up: State, bans: seq<BanRow>, x: string, times: seq<int>, now: int)
    requires |bans| == |up.bans| && x in up.fw && Untouched(norm, up.bans, x, times)
    requires forall i :: 0 <= i < |up.bans| ==>
               && bans[i].ip == up.bans[i].ip
               && if norm(up.bans[i].ip) in up.fw && LedFirst(norm, up.bans, up.bans[i], times) then !bans[i].active
                  else bans[i] == up.bans[i]
    ensures Leader(norm, bans, x, now) == Leader(norm, up.bans, x, now)
  {
    hide Leader, Untouched, LedFirst;
    forall i | 0 <= i < |bans| && norm(up.bans[i].ip) == x ensures bans[i] == up.bans[i] {
      if LedFirst(norm, up.bans, up.bans[i], times) {
        LedTouches(norm, up.bans, up.bans[i], times);
      }
    }
    LeaderSame(norm, up.bans, bans, x, now);
  }

  lemma NothingSwept(norm: string -> string, up: State)
    ensures Run(norm, up, []) == up
    ensures forall x :: Untouched(norm, up.bans, x, [])
    ensures forall r :: !LedFirst(norm, up.bans, r, [])
  {
  }

  /** After any run, a boot at now and then any number of sweeps, against a firewall that removes
      exactly what it holds and a store that works, whatever the spellings: an active row is still
      there, unchanged, exactly unless an unexpired ban of its entry was put back at boot and the row
      is the first listed at the first sweep that finds an expired row of that entry. */
  lemma StrictFirewallStrands(norm: string -> string, es: seq<Lifecycle.Event>, now: int, times: seq<int>, i: nat)
    requires var s := Run(norm, EMPTY, es); i < |s.bans| && s.bans[i].active
    ensures var s := Run(norm, EMPTY, es);
            var up := Run(norm, s, Boot(norm, s, now));
            var t := Run(norm, up, Sweeps(norm, up, times));
            && |t.bans| == |s.bans| && StrictRun(norm, up, Sweeps(norm, up, times))
            && (t.bans[i] == s.bans[i] <==>
                !(norm(s.bans[i].ip) in Due(norm, s.bans, now) && LedFirst(norm, s.bans, s.bans[i], times)))
  {
    hide Run, Due, Boot, Sweeps, Ledger.LedgerInv, StrictRun, LedFirst;
    var s := Run(norm, EMPTY, es);
    EmptyLedger();
    RunsKeepLedger(norm, EMPTY, es);
    BootRestores(norm, s, now);
    SweepsLift(norm, Run(norm, s, Boot(norm, s, now)), times);
  }

  // ----- canonical addresses -----

  /** With one active row an address, and canonical ones, the firewall holds a row's address exactly
      when the row itself was put back. */
  lemma DueIsRestorable(norm: string -> string, bans: seq<BanRow>, now: int, r: BanRow)
    requires Ledger.OneActive(bans) && CanonicalRows(norm, bans)
    requires r in bans && r.active && (r.source == BACKEND || r.expiresAt.Some?)
    ensures norm(r.ip) in Due(norm, bans, now) <==> Restorable(r, now)
  {
    hide CanonicalRows;
    RowCanonical(norm, bans, r);
    forall q | q in bans && Restorable(q, now) && norm(q.ip) == norm(r.ip) ensures q == r {
      RowCanonical(norm, bans, q);
      OnlyActive(bans, r);
    }
  }

  /** Some sweep came at or after the row's expiry. */
  predicate Reached(r: BanRow, times: seq<int>) { exists k :: 0 <= k < |times| && IsExpired(r, times[k]) }

  lemma ReachedGrows(r: BanRow, times: seq<int>)
    requires times != []
    ensures Reached(r, times) <==> Reached(r, times[..|times| - 1]) || IsExpired(r, times[|times| - 1])
  {
    var init := times[..|times| - 1];
    if Reached(r, init) {
      var k :| 0 <= k < |init| && IsExpired(r, init[k]);
      assert times[k] == init[k];
    }
    if Reached(r, times) && !IsExpired(r, times[|times| - 1]) {
      var k :| 0 <= k < |times| && IsExpired(r, times[k]);
      assert init[k] == times[k];
    }
  }

  /** A canonical row has its entry to itself. */
  lemma LeaderIsSelf(norm: string -> string, bans: seq<BanRow>, r: BanRow, time: int)
    requires Ledger.OneActive(bans) && CanonicalRows(norm, bans)
    requires r in bans && r.active && (r.source == BACKEND || r.expiresAt.Some?)
    ensures Leader(norm, bans, norm(r.ip), time) == if IsExpired(r, time) then Some(r) else None
  {
    hide CanonicalRows, Leader;
    RowCanonical(norm, bans, r);
    LeaderIsEarliest(norm, bans, norm(r.ip), time);
    OnlyActive(bans, r);
    forall q | q in bans && IsExpired(q, time) && norm(q.ip) == norm(r.ip) ensures q == r {
      RowCanonical(norm, bans, q);
    }
  }

  lemma {:induction false} LedIsReached(norm: string -> string, bans: seq<BanRow>, r: BanRow, times: seq<int>)
    requires Ledger.OneActive(bans) && CanonicalRows(norm, bans)
    requires r in bans && r.active && (r.source == BACKEND || r.expiresAt.Some?)
    ensures LedFirst(norm, bans, r, times) <==> Reached(r, times)
    ensures Untouched(norm, bans, norm(r.ip), times) <==> !Reached(r, times)
  {
    hide Leader, CanonicalRows, Ledger.OneActive, LedFirst, Reached, Untouched;
    if times == [] {
      NothingReached(norm, bans, r);
    } else {
      LedIsReached(norm, bans, r, times[..|times| - 1]);
      SweepGrows(norm, bans, norm(r.ip), r, times);
      ReachedGrows(r, times);
      LeaderIsSelf(norm, bans, r, times[|times| - 1]);
    }
  }

  lemma NothingReached(norm: string -> string, bans: seq<BanRow>, r: BanRow)
    ensures !LedFirst(norm, bans, r, []) && !Reached(r, []) && Untouched(norm, bans, norm(r.ip), [])
  {
  }

  /** With canonical rows: an active row outlives the sweeps exactly when it was not put back at boot
      or no sweep came after its expiry. In particular every ban that had run out by then outlives
      every sweep, contrary to what the reconciliation's comment expects. */
  lemma CanonicalRowsStrand(norm: string -> string, es: seq<Lifecycle.Event>, now: int, times: seq<int>, i: nat)
    requires var s := Run(norm, EMPTY, es); CanonicalRows(norm, s.bans) && i < |s.bans| && s.bans[i].active
    ensures var s := Run(norm, EMPTY, es);
            var up := Run(norm, s, Boot(norm, s, now));
            var t := Run(norm, up, Sweeps(norm, up, times));
            && |t.bans| == |s.bans|
            && (t.bans[i] == s.bans[i] <==> !Restorable(s.bans[i], now) || !Reached(s.bans[i], times))
            && (IsExpired(s.bans[i], now) ==> t.bans[i] == s.bans[i])
  {
    hide Run, Due, CanonicalRows, Boot, Sweeps, Ledger.LedgerInv, StrictRun, LedFirst, Reached;
    var s := Run(norm, EMPTY, es);
    var r := s.bans[i];
    StrictFirewallStrands(norm, es, now, times, i);
    EmptyLedger();
    RunsKeepLedger(norm, EMPTY, es);
    HasOneActive(s.bans);
    if r.source == BACKEND || r.expiresAt.Some? {
      DueIsRestorable(norm, s.bans, now, r);
      LedIsReached(norm, s.bans, r, times);
    } else {
      NeverLed(norm, s.bans, r, times);
    }
  }

  /** A row without an expiry leads nothing. */
  lemma NeverLed(norm: string -> string, bans: seq<BanRow>, r: BanRow, times: seq<int>)
    requires r.expiresAt.None?
    ensures !LedFirst(norm, bans, r, times)
  {
    hide Leader;
    forall k | 0 <= k < |times| ensures Leader(norm, bans, norm(r.ip), times[k]) != Some(r) {
      LeaderIsEarliest(norm, bans, norm(r.ip), times[k]);
    }
  }

  /** Two spellings of one address, both banned and run out: the sweep lifts the first listed and the
      firewall refuses the other, now and, while its entry stays out, for good. */
  lemma SecondSpellingStrands(norm: string -> string, s: State, now: int, i: nat, j: nat)
    requires Ledger.LedgerInv(s.bans) && s.ops == map[] && i < |s.bans| && j < |s.bans| && i != j
    requires IsExpired(s.bans[i], now) && IsExpired(s.bans[j], now) && norm(s.bans[i].ip) == norm(s.bans[j].ip)
    requires norm(s.bans[i].ip) in s.fw
    ensures var t := Run(norm, s, SweepEvents(norm, s, now));
            && |t.bans| == |s.bans| && norm(s.bans[i].ip) !in t.fw
            && (t.bans[i] == s.bans[i] || t.bans[j] == s.bans[j])
            && (s.bans[i].expiresAt.value < s.bans[j].expiresAt.value ==> t.bans[j] == s.bans[j])
  {
    hide Run, Leader, StrictRun, SweepEvents;
    HasOneActive(s.bans);
    SweepLiftsLeaders(norm, s, now);
    LeaderIsEarliest(norm, s.bans, norm(s.bans[i].ip), now);
    assert s.bans[i] in s.bans && s.bans[j] in s.bans;
    if s.bans[i] == s.bans[j] {
      SameRow(s.bans, i, j);
    }
  }

  lemma SameRow(bans: seq<BanRow>, i: nat, j: nat)
    requires Ledger.LedgerInv(bans) && i < |bans| && j < |bans| && bans[i] == bans[j]
    ensures i == j
  {
  }
}
