/** How bans travel between the ban table and the firewall (internal/api/api.go,
    cmd/logfort/main.go). Manual bans, auto-bans, blocklist bans, unbans, the expiry sweep and
    the reconciliation at boot write both, one step at a time and without a transaction; any
    number of them are in flight at once. */
module Lifecycle {
  import opened Numbers
  import opened Store
  import opened Ledger

  /** Name() of the responder whose bans are followed. */
  const BACKEND := "nftables"

  // ----- what the ban table says -----

  /** The addresses the table says this backend blocks. */
  function Banned(bans: seq<BanRow>): set<string> {
    set r | r in bans && r.active && r.source == BACKEND :: r.ip
  }

  /** The addresses a sweep or a reconciliation may pick up. */
  function Enforced(bans: seq<BanRow>): set<string> {
    set r | r in bans && r.active && (r.source == BACKEND || r.expiresAt.Some?) :: r.ip
  }

  lemma BanWrites(bans: seq<BanRow>, now: int, ip: string, reason: string, expiresAt: int)
    ensures var after := BanIPRows(bans, now, ip, BACKEND, reason, expiresAt);
            && Banned(after) == Banned(bans) + (if HasActive(bans, ip) then {} else {ip})
            && Enforced(after) <= Enforced(bans) + {ip}
            && HasActive(after, ip)
  {
  }

  lemma DeactivateWrites(bans: seq<BanRow>, now: int, ip: string, source: Option<string>)
    ensures var after := Deactivate(bans, ip, source, now);
            && (source.None? ==> Banned(after) == Banned(bans) - {ip} && !HasActive(after, ip))
            && (source.Some? && source.value != BACKEND ==> Banned(after) == Banned(bans))
            && Enforced(after) <= Enforced(bans)
  {
  }

  lemma MirrorWrites(bans: seq<BanRow>, ip: string, user: string, ts: int)
    ensures Banned(MirrorBan(bans, ip, user, ts)) == Banned(bans)
    ensures Enforced(MirrorBan(bans, ip, user, ts)) <= Enforced(bans)
  {
  }

  lemma PruneWrites(bans: seq<BanRow>, cutoff: int)
    ensures Banned(PruneBans(bans, cutoff)) == Banned(bans)
    ensures Enforced(PruneBans(bans, cutoff)) == Enforced(bans)
  {
  }

  // ----- the protocol -----

  /** What an operation does next. A sweep or a reconciliation goes through its list, one
      address at a time; Restore is a reconciliation's call. */
  datatype Stage =
    | ToStore(reason: string, expiresAt: int) | ToBlock | ToRollBack
    | ToUnblock | ToDeactivate
    | ToRecord(kind: string)
    | ToRestore

  datatype Op = Op(ip: string, stage: Stage, rest: seq<string>)

  /** doubt is history: the addresses that a failed write, a crash or a second spelling has left
      with a row and nothing to block them, until a later step settles them. */
  datatype State = State(bans: seq<BanRow>, fw: set<string>, ops: map<nat, Op>, doubt: set<string>)

  /** A firewall call is carried out, refused, or carried out and reported as failed. */
  datatype Reply = Done | Refused | Lost

  datatype Event =
    | StartBan(id: nat, ip: string, reason: string, expiresAt: int)
    | StartUnban(id: nat, ip: string)
    | StartSweep(id: nat, now: int)
    | StartReconcile(id: nat, now: int)
    | Write(id: nat, now: int, ok: bool)            // its next statement on the ban table
    | Call(id: nat, reply: Reply)                   // its next firewall call
    | Record(id: nat, ts: int, inserted: bool)      // its entry in the events feed
    | LogBan(ip: string, user: string, ts: int) | LogUnban(ip: string, ts: int)
    | Retention(cutoff: int)
    | Crash                                         // the process dies
    | Reboot                                        // the host restarts and its firewall set is empty

  function Ips(rows: seq<BanRow>): (ips: seq<string>)
    ensures |ips| == |rows| && forall i :: 0 <= i < |rows| ==> ips[i] == rows[i].ip
  {
    seq(|rows|, i requires 0 <= i < |rows| => rows[i].ip)
  }

  /** What a sweep lists, in the order it visits. */
  function Expired(bans: seq<BanRow>, now: int): seq<BanRow> {
    SortBy(Keep(bans, (r: BanRow) => IsExpired(r, now)), ExpiryKey())
  }

  predicate Restorable(r: BanRow, now: int) {
    r.active && r.source == BACKEND && (r.expiresAt.Some? ==> now < r.expiresAt.value)
  }

  /** What a reconciliation lists, in the order it calls. */
  function ToReapply(bans: seq<BanRow>, now: int): seq<BanRow> {
    Keep(SortBy(Keep(bans, (r: BanRow) => r.active), NewestKey()), (r: BanRow) => Restorable(r, now))
  }

  /** The operation moves on to the next address of its list, or ends. */
  function Next(ops: map<nat, Op>, id: nat, op: Op, stage: Stage): map<nat, Op> {
    if op.rest == [] then ops - {id} else ops[id := Op(op.rest[0], stage, op.rest[1..])]
  }

  function Start(s: State, id: nat, ips: seq<string>, stage: Stage): State {
    if id in s.ops || ips == [] then s else s.(ops := s.ops[id := Op(ips[0], stage, ips[1..])])
  }

  /** The address of an operation that stands between its two writes. */
  predicate Between(op: Op) { op.stage.ToBlock? || op.stage.ToRollBack? || op.stage.ToDeactivate? }

  predicate Pending(ops: map<nat, Op>, ip: string) {
    exists id :: id in ops && ops[id].ip == ip && Between(ops[id])
  }

  function PendingIps(ops: map<nat, Op>): set<string> { set id | id in ops && Between(ops[id]) :: ops[id].ip }

  /** Banned addresses whose firewall entry an unban of ip takes away, and on which no operation
      stands between its writes: other spellings of ip, or ip itself. */
  function Bared(norm: string -> string, bans: seq<BanRow>, ops: map<nat, Op>, ip: string): set<string> {
    set x | x in Banned(bans) && norm(x) == norm(ip) && !Pending(ops, x)
  }

  /** Banned addresses among xs that are not blocked and on which no operation stands between its
      writes. */
  function Open(norm: string -> string, bans: seq<BanRow>, fw: set<string>, ops: map<nat, Op>, xs: set<string>): set<string> {
    set x | x in xs && x in Banned(bans) && norm(x) !in fw && !Pending(ops, x)
  }

  function Settled(norm: string -> string, doubt: set<string>, ip: string): set<string> {
    set x | x in doubt && norm(x) != norm(ip)
  }

  function WriteStep(norm: string -> string, s: State, id: nat, op: Op, now: int, ok: bool): State {
    match op.stage
    case ToStore(reason, expiresAt) =>
      if ok then s.(bans := BanIPRows(s.bans, now, op.ip, BACKEND, reason, expiresAt),
                    ops := s.ops[id := op.(stage := ToBlock)])
      else s.(ops := s.ops - {id})
    case ToRollBack =>
      if ok then s.(bans := UnbanIPRows(s.bans, now, op.ip), ops := s.ops - {id}, doubt := s.doubt - {op.ip})
      else s.(ops := s.ops - {id}, doubt := s.doubt + Open(norm, s.bans, s.fw, s.ops - {id}, {op.ip}))
    case ToDeactivate =>
      if ok then s.(bans := UnbanIPRows(s.bans, now, op.ip), ops := s.ops[id := op.(stage := ToRecord("unban"))],
                    doubt := s.doubt - {op.ip})
      else
        var ops := Next(s.ops, id, op, ToUnblock);
        s.(ops := ops, doubt := s.doubt + Open(norm, s.bans, s.fw, ops, {op.ip}))
    case _ => s
  }

  function CallStep(norm: string -> string, s: State, id: nat, op: Op, reply: Reply): State {
    match op.stage
    case ToBlock =>
      if reply == Done then s.(fw := s.fw + {norm(op.ip)}, ops := s.ops[id := op.(stage := ToRecord("ban"))],
                               doubt := Settled(norm, s.doubt, op.ip))
      else s.(fw := if reply == Lost then s.fw + {norm(op.ip)} else s.fw, ops := s.ops[id := op.(stage := ToRollBack)])
    case ToRestore =>
      if reply == Done then s.(fw := s.fw + {norm(op.ip)}, ops := Next(s.ops, id, op, ToRestore),
                               doubt := Settled(norm, s.doubt, op.ip))
      else s.(fw := if reply == Lost then s.fw + {norm(op.ip)} else s.fw, ops := Next(s.ops, id, op, ToRestore))
    case ToUnblock =>
      if reply == Refused then s.(ops := Next(s.ops, id, op, ToUnblock))
      else
        var ops := if reply == Done then s.ops[id := op.(stage := ToDeactivate)] else Next(s.ops, id, op, ToUnblock);
        s.(fw := s.fw - {norm(op.ip)}, ops := ops, doubt := s.doubt + Bared(norm, s.bans, ops, op.ip))
    case _ => s
  }

  function RecordStep(s: State, id: nat, op: Op, ts: int, inserted: bool): State {
    if !op.stage.ToRecord? then s
    else
      s.(ops := Next(s.ops, id, op, ToUnblock),
         bans := if !inserted then s.bans
                 else if op.stage.kind == "ban" then MirrorBan(s.bans, op.ip, "", ts)
                 else MirrorUnban(s.bans, op.ip, ts))
  }

  function Died(norm: string -> string, s: State): State {
    s.(ops := map[], doubt := s.doubt + Open(norm, s.bans, s.fw, map[], PendingIps(s.ops)))
  }

  /** One step. An event that names no operation, or one that does not wait for it, changes
      nothing. */
  function Step(norm: string -> string, s: State, e: Event): State {
    match e
    case StartBan(id, ip, reason, expiresAt) => Start(s, id, [ip], ToStore(reason, expiresAt))
    case StartUnban(id, ip) => Start(s, id, [ip], ToUnblock)
    case StartSweep(id, now) => Start(s, id, Ips(Expired(s.bans, now)), ToUnblock)
    case StartReconcile(id, now) => Start(s, id, Ips(ToReapply(s.bans, now)), ToRestore)
    case Write(id, now, ok) => if id in s.ops then WriteStep(norm, s, id, s.ops[id], now, ok) else s
    case Call(id, reply) => if id in s.ops then CallStep(norm, s, id, s.ops[id], reply) else s
    case Record(id, ts, inserted) => if id in s.ops then RecordStep(s, id, s.ops[id], ts, inserted) else s
    case LogBan(ip, user, ts) => s.(bans := MirrorBan(s.bans, ip, user, ts))
    case LogUnban(ip, ts) => s.(bans := MirrorUnban(s.bans, ip, ts))
    case Retention(cutoff) => s.(bans := PruneBans(s.bans, cutoff))
    case Crash => Died(norm, s)
    case Reboot => s.(fw := {}, ops := map[], doubt := s.doubt + Banned(s.bans))
  }

  function Run(norm: string -> string, s: State, es: seq<Event>): State {
    if es == [] then s else Step(norm, Run(norm, s, es[..|es| - 1]), es[|es| - 1])
  }

  // ----- active implies blocked -----

  /** Whatever the table says is banned is blocked, or an operation on it is between its two
      writes, or it is in doubt. */
  ghost predicate Agrees(norm: string -> string, s: State) {
    forall ip :: ip in Banned(s.bans) ==> norm(ip) in s.fw || Pending(s.ops, ip) || ip in s.doubt
  }

  /** The other operations keep their pending addresses. */
  lemma PendingElsewhere(ops: map<nat, Op>, after: map<nat, Op>, id: nat)
    requires forall j :: j in ops && j != id ==> j in after && after[j] == ops[j]
    requires id in ops
    ensures forall ip :: Pending(ops, ip) && (!Between(ops[id]) || ip != ops[id].ip) ==> Pending(after, ip)
    ensures id in after && Between(after[id]) ==> Pending(after, after[id].ip)
  {
  }

  lemma WriteAgrees(norm: string -> string, s: State, id: nat, now: int, ok: bool)
    requires Agrees(norm, s) && id in s.ops
    ensures Agrees(norm, WriteStep(norm, s, id, s.ops[id], now, ok))
  {
    hide Banned, Enforced, BanIPRows, UnbanIPRows, Pending;
    var op := s.ops[id];
    PendingElsewhere(s.ops, WriteStep(norm, s, id, op, now, ok).ops, id);
    match op.stage
    case ToStore(reason, expiresAt) => BanWrites(s.bans, now, op.ip, reason, expiresAt);
    case ToRollBack => UnbanWrites(s.bans, now, op.ip);
    case ToDeactivate => UnbanWrites(s.bans, now, op.ip);
    case _ =>
  }

  lemma UnbanWrites(bans: seq<BanRow>, now: int, ip: string)
    ensures Banned(UnbanIPRows(bans, now, ip)) == Banned(bans) - {ip}
    ensures Enforced(UnbanIPRows(bans, now, ip)) <= Enforced(bans)
    ensures !HasActive(UnbanIPRows(bans, now, ip), ip)
  {
    hide Banned, Enforced, Deactivate, HasActive;
    DeactivateWrites(bans, now, ip, None);
  }

  lemma MirrorUnbanWrites(bans: seq<BanRow>, ip: string, ts: int)
    ensures Banned(MirrorUnban(bans, ip, ts)) == Banned(bans)
    ensures Enforced(MirrorUnban(bans, ip, ts)) <= Enforced(bans)
  {
    hide Banned, Enforced, Deactivate, HasActive;
    DeactivateWrites(bans, ts, ip, Some("fail2ban"));
  }

  lemma CallAgrees(norm: string -> string, s: State, id: nat, reply: Reply)
    requires Agrees(norm, s) && id in s.ops
    ensures Agrees(norm, CallStep(norm, s, id, s.ops[id], reply))
  {
    hide Banned, Pending;
    PendingElsewhere(s.ops, CallStep(norm, s, id, s.ops[id], reply).ops, id);
  }

  lemma RecordAgrees(norm: string -> string, s: State, id: nat, ts: int, inserted: bool)
    requires Agrees(norm, s) && id in s.ops
    ensures Agrees(norm, RecordStep(s, id, s.ops[id], ts, inserted))
  {
    hide Banned, Pending, MirrorBan, MirrorUnban;
    var op := s.ops[id];
    PendingElsewhere(s.ops, RecordStep(s, id, op, ts, inserted).ops, id);
    MirrorWrites(s.bans, op.ip, "", ts);
    MirrorUnbanWrites(s.bans, op.ip, ts);
  }

  lemma StartAgrees(norm: string -> string, s: State, id: nat, ips: seq<string>, stage: Stage)
    requires Agrees(norm, s)
    ensures Agrees(norm, Start(s, id, ips, stage))
  {
    hide Banned;
    if id !in s.ops && ips != [] {
      var after := Start(s, id, ips, stage);
      forall ip | Pending(s.ops, ip) ensures Pending(after.ops, ip) {
        var j :| j in s.ops && s.ops[j].ip == ip && Between(s.ops[j]);
        assert after.ops[j] == s.ops[j];
      }
    }
  }

  lemma CrashAgrees(norm: string -> string, s: State)
    requires Agrees(norm, s)
    ensures Agrees(norm, Step(norm, s, Crash)) && Agrees(norm, Step(norm, s, Reboot))
  {
  }

  lemma StepAgrees(norm: string -> string, s: State, e: Event)
    requires Agrees(norm, s)
    ensures Agrees(norm, Step(norm, s, e))
  {
    hide Agrees, Start, WriteStep, CallStep, RecordStep, Died;
    match e
    case StartBan(id, ip, reason, expiresAt) => StartAgrees(norm, s, id, [ip], ToStore(reason, expiresAt));
    case StartUnban(id, ip) => StartAgrees(norm, s, id, [ip], ToUnblock);
    case StartSweep(id, now) => StartAgrees(norm, s, id, Ips(Expired(s.bans, now)), ToUnblock);
    case StartReconcile(id, now) => StartAgrees(norm, s, id, Ips(ToReapply(s.bans, now)), ToRestore);
    case Write(id, now, ok) => if id in s.ops { WriteAgrees(norm, s, id, now, ok); }
    case Call(id, reply) => if id in s.ops { CallAgrees(norm, s, id, reply); }
    case Record(id, ts, inserted) => if id in s.ops { RecordAgrees(norm, s, id, ts, inserted); }
    case LogBan(ip, user, ts) =>
      MirrorWrites(s.bans, ip, user, ts);
      SameBannedAgrees(norm, s, MirrorBan(s.bans, ip, user, ts));
    case LogUnban(ip, ts) =>
      MirrorUnbanWrites(s.bans, ip, ts);
      SameBannedAgrees(norm, s, MirrorUnban(s.bans, ip, ts));
    case Retention(cutoff) =>
      PruneWrites(s.bans, cutoff);
      SameBannedAgrees(norm, s, PruneBans(s.bans, cutoff));
    case Crash => CrashAgrees(norm, s);
    case Reboot => CrashAgrees(norm, s);
  }

  lemma SameBannedAgrees(norm: string -> string, s: State, bans: seq<BanRow>)
    requires Agrees(norm, s) && Banned(bans) == Banned(s.bans)
    ensures Agrees(norm, s.(bans := bans))
  {
  }

  /** Under every interleaving of every number of operations, failures, crashes and reboots. */
  lemma {:induction false} RunsAgree(norm: string -> string, s: State, es: seq<Event>)
    requires Agrees(norm, s)
    ensures Agrees(norm, Run(norm, s, es))
  {
    hide Agrees, Step;
    if es != [] {
      RunsAgree(norm, s, es[..|es| - 1]);
      StepAgrees(norm, Run(norm, s, es[..|es| - 1]), es[|es| - 1]);
    }
  }

  // ----- exactly when it holds without a doubt -----

  /** The banned addresses that nothing blocks and no operation will settle. */
  function Exposed(norm: string -> string, s: State): set<string> { Open(norm, s.bans, s.fw, s.ops, Banned(s.bans)) }

  /** What a step leaves exposed: a roll-back or deactivation that the store refuses; an unban, done
      or reported failed, of an address that is banned under another spelling, or under its own with
      no write to follow; a crash between two writes; a reboot. */
  function Exposes(norm: string -> string, s: State, e: Event): set<string> {
    match e
    case Write(id, _, ok) =>
      if ok || id !in s.ops then {}
      else if s.ops[id].stage.ToRollBack? || s.ops[id].stage.ToDeactivate? then
        Open(norm, s.bans, s.fw, s.ops - {id}, {s.ops[id].ip})
      else {}
    case Call(id, reply) =>
      if id !in s.ops || !s.ops[id].stage.ToUnblock? || reply == Refused then {}
      else Bared(norm, s.bans, CallStep(norm, s, id, s.ops[id], reply).ops, s.ops[id].ip)
    case Crash => Open(norm, s.bans, s.fw, map[], PendingIps(s.ops))
    case Reboot => Banned(s.bans)
    case _ => {}
  }

  /** An operation that moves on to another address stands between no writes. */
  lemma NextIsIdle(norm: string -> string, s: State, id: nat)
    requires id in s.ops
    ensures var op := s.ops[id];
            Open(norm, s.bans, s.fw, Next(s.ops, id, op, ToUnblock), {op.ip}) == Open(norm, s.bans, s.fw, s.ops - {id}, {op.ip})
  {
    hide Banned;
    var op := s.ops[id];
    var after := Next(s.ops, id, op, ToUnblock);
    assert Pending(after, op.ip) <==> Pending(s.ops - {id}, op.ip) by {
      if Pending(after, op.ip) {
        var j :| j in after && after[j].ip == op.ip && Between(after[j]);
        assert (s.ops - {id})[j] == after[j];
      }
      if Pending(s.ops - {id}, op.ip) {
        var j :| j in s.ops - {id} && (s.ops - {id})[j].ip == op.ip && Between((s.ops - {id})[j]);
        assert after[j] == (s.ops - {id})[j];
      }
    }
  }

  lemma DoubtIsExposure(norm: string -> string, s: State, e: Event)
    requires s.doubt == {}
    ensures Step(norm, s, e).doubt <= Exposes(norm, s, e)
  {
    hide Banned, Open, Bared, BanIPRows, UnbanIPRows, MirrorBan, MirrorUnban;
    if e.Write? && e.id in s.ops {
      NextIsIdle(norm, s, e.id);
    }
  }

  lemma ExposureIsReal(norm: string -> string, s: State, e: Event)
    ensures Exposes(norm, s, e) <= Exposed(norm, Step(norm, s, e))
  {
    hide Banned;
    match e
    case Write(id, _, _) =>
      if id in s.ops {
        hide Pending;
        NextIsIdle(norm, s, id);
        var op := s.ops[id];
        forall x | x in Exposes(norm, s, e) ensures x in Exposed(norm, Step(norm, s, e)) {
          assert x == op.ip;
          assert op.stage.ToDeactivate? ==> x in Open(norm, s.bans, s.fw, Next(s.ops, id, op, ToUnblock), {op.ip});
        }
      }
    case _ =>
  }

  /** From a state with nothing exposed, a step exposes exactly what Exposes says. */
  lemma StepExposes(norm: string -> string, s: State, e: Event)
    requires Exposed(norm, s) == {}
    ensures Exposed(norm, Step(norm, s, e)) == Exposes(norm, s, e)
  {
    hide Step, Exposes, Banned;
    var sure := s.(doubt := {});
    forall ip | ip in Banned(s.bans) ensures norm(ip) in s.fw || Pending(s.ops, ip) {
      assert ip !in Exposed(norm, s);
    }
    StepAgrees(norm, sure, e);
    DoubtIsExposure(norm, sure, e);
    ExposureIsReal(norm, s, e);
    DoubtIsHistory(norm, s, e);
  }

  /** What a step does to the table, the firewall and the operations does not depend on the doubts. */
  lemma DoubtIsHistory(norm: string -> string, s: State, e: Event)
    ensures var sure := s.(doubt := {});
            && Exposes(norm, sure, e) == Exposes(norm, s, e)
            && Step(norm, sure, e) == Step(norm, s, e).(doubt := Step(norm, sure, e).doubt)
  {
    hide Banned, Open, Bared, BanIPRows, UnbanIPRows, MirrorBan, MirrorUnban, PruneBans;
  }

  /** So a run blocks all that is banned, at every moment and save for addresses between two writes,
      exactly when none of its steps exposes one. Any spellings, any failures, any interleaving. */
  lemma {:induction false} AgreementExactly(norm: string -> string, s: State, es: seq<Event>)
    requires Exposed(norm, s) == {}
    ensures (forall n :: 0 <= n <= |es| ==> Exposed(norm, Run(norm, s, es[..n])) == {}) <==>
            (forall n :: 0 <= n < |es| ==> Exposes(norm, Run(norm, s, es[..n]), es[n]) == {})
  {
    hide Exposed, Exposes, Step;
    if es == [] {
      assert forall n :: 0 <= n <= |es| ==> es[..n] == [];
    } else {
      var init, k := es[..|es| - 1], |es| - 1;
      AgreementExactly(norm, s, init);
      assert forall n :: 0 <= n <= k ==> es[..n] == init[..n];
      assert forall n :: 0 <= n < k ==> es[n] == init[n];
      assert es[..|es|] == es && es[..k] == init && init[..k] == init;
      if Exposed(norm, Run(norm, s, init)) == {} {
        StepExposes(norm, Run(norm, s, init), es[k]);
      }
    }
  }

  // ----- quiet runs -----

  /** A canonical address is its own firewall spelling. Auto-bans and blocklist bans normalise
      theirs; the request handlers take the text as it comes. */
  predicate Canonical(norm: string -> string, ip: string) { norm(ip) == ip }

  /** Canonical addresses, and no failed write, no unban reported failed that took place, no crash
      and no reboot that exposes an address. Every other step, and every other failure, is allowed. */
  predicate Quiet(norm: string -> string, s: State, e: Event) {
    match e
    case StartBan(_, ip, _, _) => Canonical(norm, ip)
    case StartUnban(_, ip) => Canonical(norm, ip)
    case Call(_, reply) => reply == Lost ==> Exposes(norm, s, e) == {}
    case _ => Exposes(norm, s, e) == {}
  }

  ghost predicate QuietRun(norm: string -> string, s: State, es: seq<Event>) {
    es != [] ==> QuietRun(norm, s, es[..|es| - 1]) && Quiet(norm, Run(norm, s, es[..|es| - 1]), es[|es| - 1])
  }

  ghost predicate CanonicalOp(norm: string -> string, op: Op) {
    Canonical(norm, op.ip) && forall i :: 0 <= i < |op.rest| ==> Canonical(norm, op.rest[i])
  }

  ghost predicate CanonicalRows(norm: string -> string, bans: seq<BanRow>) {
    forall ip :: ip in Enforced(bans) ==> Canonical(norm, ip)
  }

  ghost predicate Clear(norm: string -> string, s: State) {
    && s.doubt == {}
    && CanonicalRows(norm, s.bans)
    && forall id :: id in s.ops ==> CanonicalOp(norm, s.ops[id])
  }

  /** Rows of other spellings of an address whose firewall entry goes away. */
  function Aliases(norm: string -> string, bans: seq<BanRow>, ip: string): set<string> {
    set x | x in Banned(bans) && x != ip && norm(x) == norm(ip)
  }

  lemma NoAliases(norm: string -> string, bans: seq<BanRow>, ip: string)
    requires CanonicalRows(norm, bans) && Canonical(norm, ip)
    ensures Aliases(norm, bans, ip) == {}
  {
    forall x | x in Banned(bans) && x != ip ensures norm(x) != norm(ip) {
      assert x in Enforced(bans);
    }
  }

  lemma StartClear(norm: string -> string, s: State, id: nat, ips: seq<string>, stage: Stage)
    requires Clear(norm, s)
    requires forall i :: 0 <= i < |ips| ==> Canonical(norm, ips[i])
    ensures Clear(norm, Start(s, id, ips, stage))
  {
  }

  lemma ListedCanonical(norm: string -> string, bans: seq<BanRow>, now: int)
    requires CanonicalRows(norm, bans)
    ensures forall i :: 0 <= i < |Expired(bans, now)| ==> Canonical(norm, Ips(Expired(bans, now))[i])
    ensures forall i :: 0 <= i < |ToReapply(bans, now)| ==> Canonical(norm, Ips(ToReapply(bans, now))[i])
  {
    forall i | 0 <= i < |Expired(bans, now)| ensures Canonical(norm, Ips(Expired(bans, now))[i]) {
      assert Expired(bans, now)[i] in Expired(bans, now);
      assert Expired(bans, now)[i].ip in Enforced(bans);
    }
    forall i | 0 <= i < |ToReapply(bans, now)| ensures Canonical(norm, Ips(ToReapply(bans, now))[i]) {
      assert ToReapply(bans, now)[i] in ToReapply(bans, now);
      assert ToReapply(bans, now)[i].ip in Enforced(bans);
    }
  }

  lemma WriteClear(norm: string -> string, s: State, id: nat, now: int, ok: bool)
    requires Clear(norm, s) && id in s.ops && Quiet(norm, s, Write(id, now, ok))
    ensures Clear(norm, WriteStep(norm, s, id, s.ops[id], now, ok))
  {
    hide Canonical, Enforced, BanIPRows, UnbanIPRows, Open;
    var op := s.ops[id];
    NextIsIdle(norm, s, id);
    match op.stage
    case ToStore(reason, expiresAt) => BanWrites(s.bans, now, op.ip, reason, expiresAt);
    case ToRollBack => UnbanWrites(s.bans, now, op.ip);
    case ToDeactivate => UnbanWrites(s.bans, now, op.ip);
    case _ =>
  }

  /** With canonical addresses a completed unban exposes nothing: its own write is still to come. */
  lemma DoneExposesNothing(norm: string -> string, s: State, id: nat)
    requires Clear(norm, s) && id in s.ops
    ensures Exposes(norm, s, Call(id, Done)) == {}
  {
    hide Banned, CanonicalRows;
    var op := s.ops[id];
    NoAliases(norm, s.bans, op.ip);
    if op.stage.ToUnblock? {
      var after := CallStep(norm, s, id, op, Done).ops;
      assert after[id].ip == op.ip && Between(after[id]);
      forall x | x in Banned(s.bans) && norm(x) == norm(op.ip) ensures x == op.ip {
        assert x != op.ip ==> x in Aliases(norm, s.bans, op.ip);
      }
    }
  }

  /** With canonical addresses an unban reported failed that took place exposes its address exactly
      when that is banned and no other operation on it stands between its writes. */
  lemma LostUnbanExposes(norm: string -> string, s: State, id: nat)
    requires Clear(norm, s) && id in s.ops && s.ops[id].stage.ToUnblock?
    ensures var ip := s.ops[id].ip;
            Exposes(norm, s, Call(id, Lost)) == if ip in Banned(s.bans) && !Pending(s.ops - {id}, ip) then {ip} else {}
  {
    hide Banned, CanonicalRows;
    var op := s.ops[id];
    NoAliases(norm, s.bans, op.ip);
    NextIsIdle(norm, s.(fw := {}), id);
    forall x | x in Banned(s.bans) && norm(x) == norm(op.ip) ensures x == op.ip {
      assert x != op.ip ==> x in Aliases(norm, s.bans, op.ip);
    }
    assert Open(norm, s.bans, {}, s.ops - {id}, {op.ip}) ==
           if op.ip in Banned(s.bans) && !Pending(s.ops - {id}, op.ip) then {op.ip} else {};
  }

  lemma CallClear(norm: string -> string, s: State, id: nat, reply: Reply)
    requires Clear(norm, s) && id in s.ops && Quiet(norm, s, Call(id, reply))
    ensures Clear(norm, CallStep(norm, s, id, s.ops[id], reply))
  {
    hide Banned, CanonicalRows, Bared;
    DoneExposesNothing(norm, s, id);
  }

  lemma RecordClear(norm: string -> string, s: State, id: nat, ts: int, inserted: bool)
    requires Clear(norm, s) && id in s.ops
    ensures Clear(norm, RecordStep(s, id, s.ops[id], ts, inserted))
  {
  }

  lemma StepClear(norm: string -> string, s: State, e: Event)
    requires Clear(norm, s) && Quiet(norm, s, e)
    ensures Clear(norm, Step(norm, s, e))
  {
    hide Start, WriteStep, CallStep, RecordStep, Canonical, CanonicalOp, Enforced;
    match e
    case StartBan(id, ip, reason, expiresAt) => StartClear(norm, s, id, [ip], ToStore(reason, expiresAt));
    case StartUnban(id, ip) => StartClear(norm, s, id, [ip], ToUnblock);
    case StartSweep(id, now) =>
      ListedCanonical(norm, s.bans, now);
      StartClear(norm, s, id, Ips(Expired(s.bans, now)), ToUnblock);
    case StartReconcile(id, now) =>
      ListedCanonical(norm, s.bans, now);
      StartClear(norm, s, id, Ips(ToReapply(s.bans, now)), ToRestore);
    case Write(id, now, ok) => if id in s.ops { WriteClear(norm, s, id, now, ok); }
    case Call(id, reply) => if id in s.ops { CallClear(norm, s, id, reply); }
    case Record(id, ts, inserted) => if id in s.ops { RecordClear(norm, s, id, ts, inserted); }
    case LogBan(ip, user, ts) => MirrorWrites(s.bans, ip, user, ts);
    case LogUnban(ip, ts) => MirrorUnbanWrites(s.bans, ip, ts);
    case Retention(cutoff) => PruneWrites(s.bans, cutoff);
    case Crash => CrashClear(norm, s);
    case Reboot => CrashClear(norm, s);
  }

  lemma CrashClear(norm: string -> string, s: State)
    requires Clear(norm, s)
    ensures Exposes(norm, s, Crash) == {} ==> Clear(norm, Step(norm, s, Crash))
    ensures Exposes(norm, s, Reboot) == {} ==> Clear(norm, Step(norm, s, Reboot))
  {
  }

  /** In a quiet run nothing is ever in doubt: what the table bans is blocked or pending, and at
      quiescence it is blocked. */
  lemma {:induction false} QuietRunsBlock(norm: string -> string, s: State, es: seq<Event>)
    requires Agrees(norm, s) && Clear(norm, s) && QuietRun(norm, s, es)
    ensures var t := Run(norm, s, es);
            && Clear(norm, t)
            && (forall ip :: ip in Banned(t.bans) ==> ip in t.fw || Pending(t.ops, ip))
            && (t.ops == map[] ==> Banned(t.bans) <= t.fw)
  {
    hide Step, Quiet, CanonicalOp;
    RunsAgree(norm, s, es);
    if es != [] {
      QuietRunsBlock(norm, s, es[..|es| - 1]);
      StepClear(norm, Run(norm, s, es[..|es| - 1]), es[|es| - 1]);
    }
    var t := Run(norm, s, es);
    forall ip | ip in Banned(t.bans) ensures Canonical(norm, ip) {
      assert ip in Enforced(t.bans);
    }
  }

  // ----- the ledger under the protocol -----

  /** Each step does to the ban table what one ledger operation does, or nothing: which one follows from
      the step and from where its operation stands. */
  lemma StepIsLedgerOp(norm: string -> string, s: State, e: Event) returns (op: Option<BanOp>)
    ensures Step(norm, s, e).bans == if op.Some? then Apply(s.bans, op.value) else s.bans
    ensures e.LogBan? ==> op == Some(LoggedBan(e.ip, e.user, e.ts))
    ensures e.LogUnban? ==> op == Some(LoggedUnban(e.ip, e.ts))
    ensures e.Retention? ==> op == Some(BanOp.Prune(e.cutoff))
    ensures e.Write? && e.ok && e.id in s.ops ==>
              var o := s.ops[e.id];
              && (o.stage.ToStore? ==> op == Some(Ban(e.now, o.ip, "nftables", o.stage.reason, o.stage.expiresAt)))
              && (o.stage.ToRollBack? || o.stage.ToDeactivate? ==> op == Some(Unban(e.now, o.ip)))
    ensures e.Call? || e.Crash? || e.Reboot? || (e.Write? && !e.ok) || (e.Record? && !e.inserted) ==> op == None
  {
    hide BanIPRows, UnbanIPRows, MirrorBan, MirrorUnban, PruneBans, Open, Bared, Banned, Settled, PendingIps, Expired, ToReapply;
    op := None;
    match e {
      case Write(id, now, ok) =>
        if id in s.ops && ok {
          match s.ops[id].stage {
            case ToStore(reason, expiresAt) => op := Some(Ban(now, s.ops[id].ip, BACKEND, reason, expiresAt));
            case ToRollBack => op := Some(Unban(now, s.ops[id].ip));
            case ToDeactivate => op := Some(Unban(now, s.ops[id].ip));
            case _ =>
          }
        }
      case Record(id, ts, inserted) =>
        if id in s.ops && s.ops[id].stage.ToRecord? && inserted {
          op := Some(if s.ops[id].stage.kind == "ban" then LoggedBan(s.ops[id].ip, "", ts) else LoggedUnban(s.ops[id].ip, ts));
        }
      case LogBan(ip, user, ts) => op := Some(LoggedBan(ip, user, ts));
      case LogUnban(ip, ts) => op := Some(LoggedUnban(ip, ts));
      case Retention(cutoff) => op := Some(BanOp.Prune(cutoff));
      case _ =>
    }
  }

  /** So the ledger's invariant holds in every run of the protocol. */
  lemma {:induction false} RunsKeepLedger(norm: string -> string, s: State, es: seq<Event>)
    requires LedgerInv(s.bans)
    ensures LedgerInv(Run(norm, s, es).bans)
  {
    hide LedgerInv, Step, Apply;
    if es != [] {
      var before := Run(norm, s, es[..|es| - 1]);
      RunsKeepLedger(norm, s, es[..|es| - 1]);
      var op := StepIsLedgerOp(norm, before, es[|es| - 1]);
      if op.Some? {
        ApplyKeepsInv(before.bans, op.value);
      }
    }
  }

  // ----- operations that run uninterrupted -----

  /** The two things every operation writes. */
  datatype Books = Books(bans: seq<BanRow>, fw: set<string>)

  /** What the outside world answers to a ban: the first write, the firewall, the roll-back. */
  datatype BanLuck = BanLuck(now: int, stored: bool, reply: Reply, at: int, undone: bool, recorded: bool)

  /** What it answers to an unban: the firewall, the write. */
  datatype LiftLuck = LiftLuck(reply: Reply, stored: bool, at: int, recorded: bool)

  function Blocked(norm: string -> string, fw: set<string>, ip: string, reply: Reply): set<string> {
    if reply == Refused then fw else fw + {norm(ip)}
  }

  function Unblocked(norm: string -> string, fw: set<string>, ip: string, reply: Reply): set<string> {
    if reply == Refused then fw else fw - {norm(ip)}
  }

  /** Store first, firewall second, and the row is taken back if the firewall call fails. */
  function BanBooks(norm: string -> string, b: Books, ip: string, reason: string, expiresAt: int, luck: BanLuck): Books {
    if !luck.stored then b
    else
      var bans := BanIPRows(b.bans, luck.now, ip, BACKEND, reason, expiresAt);
      var fw := Blocked(norm, b.fw, ip, luck.reply);
      if luck.reply != Done && luck.undone then Books(UnbanIPRows(bans, luck.at, ip), fw) else Books(bans, fw)
  }

  predicate Lifts(luck: LiftLuck) { luck.reply == Done && luck.stored }

  /** Firewall first, store second. */
  function LiftBooks(norm: string -> string, b: Books, ip: string, luck: LiftLuck): Books {
    Books(if Lifts(luck) then UnbanIPRows(b.bans, luck.at, ip) else b.bans, Unblocked(norm, b.fw, ip, luck.reply))
  }

  function LiftAll(norm: string -> string, b: Books, ips: seq<string>, luck: string -> LiftLuck): Books {
    if ips == [] then b
    else LiftBooks(norm, LiftAll(norm, b, ips[..|ips| - 1], luck), ips[|ips| - 1], luck(ips[|ips| - 1]))
  }

  function RestoreAll(norm: string -> string, fw: set<string>, ips: seq<string>, reply: string -> Reply): set<string> {
    if ips == [] then fw
    else Blocked(norm, RestoreAll(norm, fw, ips[..|ips| - 1], reply), ips[|ips| - 1], reply(ips[|ips| - 1]))
  }

  function BanTrace(id: nat, ip: string, reason: string, expiresAt: int, luck: BanLuck): seq<Event> {
    [StartBan(id, ip, reason, expiresAt), Write(id, luck.now, luck.stored)] +
    if !luck.stored then []
    else if luck.reply == Done then [Call(id, Done), Record(id, luck.at, luck.recorded)]
    else [Call(id, luck.reply), Write(id, luck.at, luck.undone)]
  }

  function LiftTrace(id: nat, luck: LiftLuck): seq<Event> {
    if luck.reply != Done then [Call(id, luck.reply)]
    else if !luck.stored then [Call(id, Done), Write(id, luck.at, false)]
    else [Call(id, Done), Write(id, luck.at, true), Record(id, luck.at, luck.recorded)]
  }

  function LiftsTrace(id: nat, ips: seq<string>, luck: string -> LiftLuck): seq<Event> {
    if ips == [] then [] else LiftsTrace(id, ips[..|ips| - 1], luck) + LiftTrace(id, luck(ips[|ips| - 1]))
  }

  function CallsTrace(id: nat, ips: seq<string>, reply: string -> Reply): seq<Event> {
    if ips == [] then [] else CallsTrace(id, ips[..|ips| - 1], reply) + [Call(id, reply(ips[|ips| - 1]))]
  }

  lemma {:induction false} RunAppend(norm: string -> string, s: State, es: seq<Event>, fs: seq<Event>)
    ensures Run(norm, s, es + fs) == Run(norm, Run(norm, s, es), fs)
  {
    hide Step;
    if fs == [] {
      assert es + fs == es;
    } else {
      RunAppend(norm, s, es, fs[..|fs| - 1]);
      assert (es + fs)[..|es + fs| - 1] == es + fs[..|fs| - 1];
    }
  }

  lemma RunOne(norm: string -> string, s: State, e: Event)
    ensures Run(norm, s, [e]) == Step(norm, s, e)
  {
  }

  lemma RunCons(norm: string -> string, s: State, e: Event, es: seq<Event>)
    ensures Run(norm, s, [e] + es) == Run(norm, Step(norm, s, e), es)
  {
    hide Step, Run;
    RunAppend(norm, s, [e], es);
    RunOne(norm, s, e);
  }

  lemma RunTwo(norm: string -> string, s: State, e: Event, f: Event)
    ensures Run(norm, s, [e, f]) == Step(norm, Step(norm, s, e), f)
  {
    hide Step, Run;
    assert [e, f] == [e] + [f];
    RunCons(norm, s, e, [f]);
    RunOne(norm, Step(norm, s, e), f);
  }

  lemma MirrorAfterBan(bans: seq<BanRow>, now: int, ip: string, reason: string, expiresAt: int, ts: int)
    ensures var after := BanIPRows(bans, now, ip, BACKEND, reason, expiresAt); MirrorBan(after, ip, "", ts) == after
  {
  }

  lemma MirrorAfterUnban(bans: seq<BanRow>, now: int, ip: string, ts: int)
    ensures var after := UnbanIPRows(bans, now, ip); MirrorUnban(after, ip, ts) == after
  {
  }

  /** A ban nothing interrupts does to the books what BanBooks says, whatever else is in flight.
      Its own feed entry adds no second row. */
  lemma BanRuns(norm: string -> string, s: State, id: nat, ip: string, reason: string, expiresAt: int, luck: BanLuck)
    requires id !in s.ops
    ensures var t := Run(norm, s, BanTrace(id, ip, reason, expiresAt, luck));
            Books(t.bans, t.fw) == BanBooks(norm, Books(s.bans, s.fw), ip, reason, expiresAt, luck) && t.ops == s.ops
  {
    hide BanIPRows, UnbanIPRows, MirrorBan, Run;
    var start, write := StartBan(id, ip, reason, expiresAt), Write(id, luck.now, luck.stored);
    RunTwo(norm, s, start, write);
    var s2 := Step(norm, Step(norm, s, start), write);
    MirrorAfterBan(s.bans, luck.now, ip, reason, expiresAt, luck.at);
    if luck.stored {
      var last := if luck.reply == Done then Record(id, luck.at, luck.recorded) else Write(id, luck.at, luck.undone);
      RunAppend(norm, s, [start, write], [Call(id, luck.reply), last]);
      RunTwo(norm, s2, Call(id, luck.reply), last);
    } else {
      assert [start, write] + [] == [start, write];
    }
  }

  lemma LiftRuns(norm: string -> string, s: State, id: nat, luck: LiftLuck)
    requires id in s.ops && s.ops[id].stage.ToUnblock?
    ensures var t := Run(norm, s, LiftTrace(id, luck));
            && Books(t.bans, t.fw) == LiftBooks(norm, Books(s.bans, s.fw), s.ops[id].ip, luck)
            && t.ops == Next(s.ops, id, s.ops[id], ToUnblock)
  {
    hide UnbanIPRows, MirrorUnban, Run, Aliases;
    var op := s.ops[id];
    if luck.reply != Done {
      RunOne(norm, s, Call(id, luck.reply));
    } else {
      var write := Write(id, luck.at, luck.stored);
      RunTwo(norm, s, Call(id, Done), write);
      if luck.stored {
        MirrorAfterUnban(s.bans, luck.at, op.ip, luck.at);
        var record := Record(id, luck.at, luck.recorded);
        assert LiftTrace(id, luck) == [Call(id, Done), write] + [record];
        RunAppend(norm, s, [Call(id, Done), write], [record]);
        RunOne(norm, Step(norm, Step(norm, s, Call(id, Done)), write), record);
      }
    }
  }

  /** An unban nothing interrupts. */
  lemma UnbanRuns(norm: string -> string, s: State, id: nat, ip: string, luck: LiftLuck)
    requires id !in s.ops
    ensures var t := Run(norm, s, [StartUnban(id, ip)] + LiftTrace(id, luck));
            Books(t.bans, t.fw) == LiftBooks(norm, Books(s.bans, s.fw), ip, luck) && t.ops == s.ops
  {
    hide LiftBooks, Run, LiftTrace;
    RunCons(norm, s, StartUnban(id, ip), LiftTrace(id, luck));
    LiftRuns(norm, Step(norm, s, StartUnban(id, ip)), id, luck);
  }

  /** The operation with k addresses of its list behind it. */
  function OpsAt(ops: map<nat, Op>, id: nat, ips: seq<string>, k: nat, stage: Stage): map<nat, Op>
    requires k <= |ips|
  {
    if k == |ips| then ops - {id} else ops[id := Op(ips[k], stage, ips[k + 1..])]
  }

  lemma {:induction false} LiftsRun(norm: string -> string, s: State, id: nat, ips: seq<string>, k: nat, luck: string -> LiftLuck)
    requires ips != [] && k <= |ips|
    requires id in s.ops && s.ops[id] == Op(ips[0], ToUnblock, ips[1..])
    ensures var t := Run(norm, s, LiftsTrace(id, ips[..k], luck));
            && Books(t.bans, t.fw) == LiftAll(norm, Books(s.bans, s.fw), ips[..k], luck)
            && t.ops == OpsAt(s.ops, id, ips, k, ToUnblock)
    decreases k
  {
    hide LiftBooks, LiftTrace, Step;
    if k > 0 {
      LiftsRun(norm, s, id, ips, k - 1, luck);
      assert ips[..k][..k - 1] == ips[..k - 1];
      var before := Run(norm, s, LiftsTrace(id, ips[..k - 1], luck));
      RunAppend(norm, s, LiftsTrace(id, ips[..k - 1], luck), LiftTrace(id, luck(ips[k - 1])));
      LiftRuns(norm, before, id, luck(ips[k - 1]));
      assert k < |ips| ==> ips[k..][1..] == ips[k + 1..];
    } else {
      assert ips[..0] == [];
    }
  }

  /** A sweep nothing interrupts lifts the expired bans one after the other. */
  lemma SweepRuns(norm: string -> string, s: State, id: nat, now: int, luck: string -> LiftLuck)
    requires id !in s.ops
    ensures var ips := Ips(Expired(s.bans, now));
            var t := Run(norm, s, [StartSweep(id, now)] + LiftsTrace(id, ips, luck));
            Books(t.bans, t.fw) == LiftAll(norm, Books(s.bans, s.fw), ips, luck) && t.ops == s.ops
  {
    hide Run, Expired, LiftsTrace, LiftAll;
    var ips := Ips(Expired(s.bans, now));
    var first := Step(norm, s, StartSweep(id, now));
    RunCons(norm, s, StartSweep(id, now), LiftsTrace(id, ips, luck));
    if ips == [] {
      NothingLifted(norm, s, id, luck);
    } else {
      LiftsRun(norm, first, id, ips, |ips|, luck);
      assert ips[..|ips|] == ips;
    }
  }

  lemma NothingLifted(norm: string -> string, s: State, id: nat, luck: string -> LiftLuck)
    ensures LiftsTrace(id, [], luck) == [] && Run(norm, s, []) == s
    ensures LiftAll(norm, Books(s.bans, s.fw), [], luck) == Books(s.bans, s.fw)
  {
  }

  lemma RestoreRuns(norm: string -> string, s: State, id: nat, reply: Reply)
    requires id in s.ops && s.ops[id].stage.ToRestore?
    ensures var t := Run(norm, s, [Call(id, reply)]);
            && t.bans == s.bans && t.fw == Blocked(norm, s.fw, s.ops[id].ip, reply)
            && t.ops == Next(s.ops, id, s.ops[id], ToRestore)
  {
  }

  lemma CallsStep(norm: string -> string, fw: set<string>, id: nat, ips: seq<string>, k: nat, reply: string -> Reply)
    requires 0 < k <= |ips|
    ensures CallsTrace(id, ips[..k], reply) == CallsTrace(id, ips[..k - 1], reply) + [Call(id, reply(ips[k - 1]))]
    ensures RestoreAll(norm, fw, ips[..k], reply) ==
            Blocked(norm, RestoreAll(norm, fw, ips[..k - 1], reply), ips[k - 1], reply(ips[k - 1]))
  {
    assert ips[..k][..k - 1] == ips[..k - 1];
  }

  lemma {:induction false} CallsRun(norm: string -> string, s: State, id: nat, ips: seq<string>, k: nat, reply: string -> Reply)
    requires ips != [] && k <= |ips|
    requires id in s.ops && s.ops[id] == Op(ips[0], ToRestore, ips[1..])
    ensures var t := Run(norm, s, CallsTrace(id, ips[..k], reply));
            && t.bans == s.bans && t.fw == RestoreAll(norm, s.fw, ips[..k], reply)
            && t.ops == OpsAt(s.ops, id, ips, k, ToRestore)
    decreases k
  {
    hide Blocked, Step, Run, CallsTrace, RestoreAll;
    if k > 0 {
      CallsRun(norm, s, id, ips, k - 1, reply);
      CallsStep(norm, s.fw, id, ips, k, reply);
      var before := Run(norm, s, CallsTrace(id, ips[..k - 1], reply));
      RunAppend(norm, s, CallsTrace(id, ips[..k - 1], reply), [Call(id, reply(ips[k - 1]))]);
      RestoreRuns(norm, before, id, reply(ips[k - 1]));
      assert k < |ips| ==> ips[k..][1..] == ips[k + 1..];
    } else {
      assert ips[..0] == [];
      NothingRestored(norm, s, id, reply);
    }
  }

  /** A reconciliation nothing interrupts. */
  lemma ReconcileRuns(norm: string -> string, s: State, id: nat, now: int, reply: string -> Reply)
    requires id !in s.ops
    ensures var ips := Ips(ToReapply(s.bans, now));
            var t := Run(norm, s, [StartReconcile(id, now)] + CallsTrace(id, ips, reply));
            t.bans == s.bans && t.fw == RestoreAll(norm, s.fw, ips, reply) && t.ops == s.ops
  {
    hide Run, ToReapply, CallsTrace, RestoreAll;
    var ips := Ips(ToReapply(s.bans, now));
    var first := Step(norm, s, StartReconcile(id, now));
    RunCons(norm, s, StartReconcile(id, now), CallsTrace(id, ips, reply));
    if ips == [] {
      NothingRestored(norm, s, id, reply);
    } else {
      CallsRun(norm, first, id, ips, |ips|, reply);
      assert ips[..|ips|] == ips;
    }
  }

  lemma NothingRestored(norm: string -> string, s: State, id: nat, reply: string -> Reply)
    ensures CallsTrace(id, [], reply) == [] && Run(norm, s, []) == s && RestoreAll(norm, s.fw, [], reply) == s.fw
  {
  }
}
