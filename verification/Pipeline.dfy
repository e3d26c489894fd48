/** The ingest workers (internal/ingest/pipeline.go): lines are parsed, inserted and published by
    several workers at once, while handlers insert events of their own and retention deletes old
    ones. */
module Pipeline {
  import opened Numbers
  import opened Store

  /** parse.ParseLine, with None for any error, and the blocklist lookup. */
  datatype Readers = Readers(parse: string -> Option<Store.Event>, threat: string -> string) {
    function Enrich(e: Store.Event): Store.Event { if e.ip != "" then e.(threat := threat(e.ip)) else e }

    /** The event a line stands for. */
    function Read(line: string): Option<Store.Event> {
      match parse(line)
      case Some(e) => Some(Enrich(e))
      case None => None
    }
  }

  /** Where a worker stands; a worker that is not in the map waits for a line. */
  datatype Stage = Holding(line: string) | ToInsert(ev: Store.Event) | ToMirror(ev: Store.Event) | ToPublish(ev: Store.Event)

  /** taken and purged are history: the lines taken, and for each key how often retention has
      deleted it. */
  datatype State = State(events: seq<EventRow>, bans: seq<BanRow>, workers: map<nat, Stage>,
                         taken: nat, parsed: nat, unparsed: nat, published: seq<Store.Event>,
                         purged: multiset<DedupKey>)

  datatype Step =
    | Take(w: nat, line: string)
    | Classify(w: nat)
    | InsertRow(w: nat, ok: bool)
    | MirrorRow(w: nat, ok: bool)
    | Publish(w: nat)
    | Foreign(ev: Store.Event)        // a handler's feed entry
    | Retention(cutoff: int)

  predicate IsBanEvent(e: Store.Event) { e.kind == "ban" || e.kind == "unban" }

  function WithRow(events: seq<EventRow>, e: Store.Event): seq<EventRow> {
    events + [RowOf(MaxEventId(events) + 1, e)]
  }

  /** The keys that are in the table before and not after. */
  function Lost(before: seq<EventRow>, after: seq<EventRow>): set<DedupKey> {
    set r | r in before && !HasKey(after, KeyOfRow(r)) :: KeyOfRow(r)
  }

  function WorkerStep(r: Readers, s: State, e: Step): State
    requires !e.Take? && !e.Foreign? && !e.Retention? && e.w in s.workers
  {
    var stage := s.workers[e.w];
    match e
    case Classify(w) =>
      if !stage.Holding? then s
      else (match r.Read(stage.line)
            case None => s.(workers := s.workers - {w}, unparsed := s.unparsed + 1)
            case Some(ev) => s.(workers := s.workers[w := ToInsert(ev)], parsed := s.parsed + 1))
    case InsertRow(w, ok) =>
      if !stage.ToInsert? then s
      else if !ok || HasKey(s.events, KeyOf(stage.ev)) then s.(workers := s.workers - {w})
      else s.(events := WithRow(s.events, stage.ev),
              workers := s.workers[w := if IsBanEvent(stage.ev) then ToMirror(stage.ev) else ToPublish(stage.ev)])
    case MirrorRow(w, ok) =>
      if !stage.ToMirror? then s
      else if !ok then s.(workers := s.workers - {w})
      else s.(bans := Mirror(s.bans, stage.ev), workers := s.workers[w := ToPublish(stage.ev)])
    case Publish(w) =>
      if !stage.ToPublish? then s
      else s.(workers := s.workers - {w}, published := s.published + [stage.ev])
  }

  function Next(r: Readers, s: State, e: Step): State {
    match e
    case Take(w, line) =>
      if w in s.workers then s else s.(workers := s.workers[w := Holding(line)], taken := s.taken + 1)
    case Foreign(ev) =>
      if HasKey(s.events, KeyOf(ev)) then s
      else s.(events := WithRow(s.events, ev), bans := Mirror(s.bans, ev))
    case Retention(cutoff) =>
      var after := PruneEvents(s.events, cutoff);
      s.(events := after, bans := PruneBans(s.bans, cutoff), purged := s.purged + multiset(Lost(s.events, after)))
    case _ => if e.w in s.workers then WorkerStep(r, s, e) else s
  }

  function Run(r: Readers, s: State, es: seq<Step>): State {
    if es == [] then s else Next(r, Run(r, s, es[..|es| - 1]), es[|es| - 1])
  }

  const START := State([], [], map[], 0, 0, 0, [], multiset{})

  // ----- the counters -----

  function Reading(workers: map<nat, Stage>): set<nat> { set w | w in workers && workers[w].Holding? }

  /** Every line taken is counted once, as parsed or as unparsed, unless a worker still holds it. */
  ghost predicate Balanced(s: State) { s.parsed + s.unparsed + |Reading(s.workers)| == s.taken }

  lemma WorkerBalanced(r: Readers, s: State, e: Step)
    requires !e.Take? && !e.Foreign? && !e.Retention? && e.w in s.workers && Balanced(s)
    ensures Balanced(WorkerStep(r, s, e))
  {
    hide HasKey, Mirror, WithRow, Readers.Read, KeyOf;
    var after := WorkerStep(r, s, e);
    if e.Classify? && s.workers[e.w].Holding? {
      assert Reading(after.workers) == Reading(s.workers) - {e.w};
    } else {
      assert Reading(after.workers) == Reading(s.workers);
    }
  }

  lemma StepBalanced(r: Readers, s: State, e: Step)
    requires Balanced(s)
    ensures Balanced(Next(r, s, e))
  {
    hide HasKey, Mirror, PruneEvents, PruneBans, Lost, WithRow, WorkerStep;
    if e.Take? && e.w !in s.workers {
      assert Reading(Next(r, s, e).workers) == Reading(s.workers) + {e.w};
    } else if !e.Take? && !e.Foreign? && !e.Retention? && e.w in s.workers {
      WorkerBalanced(r, s, e);
    }
  }

  lemma {:induction false} RunsBalance(r: Readers, s: State, es: seq<Step>)
    requires Balanced(s)
    ensures Balanced(Run(r, s, es))
  {
    hide Balanced, Next;
    if es != [] {
      RunsBalance(r, s, es[..|es| - 1]);
      StepBalanced(r, Run(r, s, es[..|es| - 1]), es[|es| - 1]);
    }
  }

  // ----- published at most once -----

  /** Workers that have inserted a key's row and not finished with it. */
  function Pending(workers: map<nat, Stage>, k: DedupKey): set<nat> { set w | w in workers && Shows(workers[w], k) }

  predicate Shows(stage: Stage, k: DedupKey) { (stage.ToMirror? || stage.ToPublish?) && KeyOf(stage.ev) == k }

  function Moved(workers: map<nat, Stage>, w: nat, stage: Option<Stage>): map<nat, Stage> {
    if stage.Some? then workers[w := stage.value] else workers - {w}
  }

  lemma PendingWithout(workers: map<nat, Stage>, w: nat, k: DedupKey)
    ensures Pending(workers - {w}, k) == Pending(workers, k) - {w}
  {
  }

  lemma PendingWith(workers: map<nat, Stage>, w: nat, stage: Stage, k: DedupKey)
    ensures Shows(stage, k) ==> Pending(workers[w := stage], k) == Pending(workers, k) + {w}
    ensures !Shows(stage, k) ==> Pending(workers[w := stage], k) == Pending(workers, k) - {w}
  {
  }

  lemma PendingMoves(workers: map<nat, Stage>, w: nat, stage: Option<Stage>, k: DedupKey)
    requires w in workers
    ensures |Pending(Moved(workers, w, stage), k)| ==
            |Pending(workers, k)| - (if Shows(workers[w], k) then 1 else 0)
                                  + (if stage.Some? && Shows(stage.value, k) then 1 else 0)
  {
    hide Shows, Pending;
    assert w in Pending(workers, k) <==> Shows(workers[w], k) by {
      PendingHas(workers, w, k);
    }
    if stage.Some? {
      PendingWith(workers, w, stage.value, k);
    } else {
      PendingWithout(workers, w, k);
    }
  }

  lemma PendingHas(workers: map<nat, Stage>, w: nat, k: DedupKey)
    requires w in workers
    ensures w in Pending(workers, k) <==> Shows(workers[w], k)
  {
  }

  function Count(published: seq<Store.Event>, k: DedupKey): nat {
    if published == [] then 0
    else Count(published[..|published| - 1], k) + if KeyOf(published[|published| - 1]) == k then 1 else 0
  }

  /** How often a key has been published, or is about to be. */
  function Shown(s: State, k: DedupKey): nat { Count(s.published, k) + |Pending(s.workers, k)| }

  function Allowed(s: State, k: DedupKey): nat { s.purged[k] + if HasKey(s.events, k) then 1 else 0 }

  ghost predicate Sparing(s: State) { forall k :: Shown(s, k) <= Allowed(s, k) }

  lemma RowAdded(events: seq<EventRow>, e: Store.Event, k: DedupKey)
    ensures HasKey(WithRow(events, e), k) <==> HasKey(events, k) || k == KeyOf(e)
  {
    RowKey(MaxEventId(events) + 1, e);
    var all := WithRow(events, e);
    assert KeyOfRow(all[|events|]) == KeyOf(e);
    if HasKey(events, k) {
      var i :| 0 <= i < |events| && KeyOfRow(events[i]) == k;
      assert all[i] == events[i];
    }
  }

  lemma PublishedOne(published: seq<Store.Event>, e: Store.Event, k: DedupKey)
    ensures Count(published + [e], k) == Count(published, k) + if KeyOf(e) == k then 1 else 0
  {
  }

  lemma WorkerShows(r: Readers, s: State, e: Step, k: DedupKey)
    requires !e.Take? && !e.Foreign? && !e.Retention? && e.w in s.workers
    ensures var after := WorkerStep(r, s, e);
            && Shown(after, k) <= Shown(s, k) + (if HasKey(after.events, k) && !HasKey(s.events, k) then 1 else 0)
            && (HasKey(s.events, k) ==> HasKey(after.events, k)) && after.purged == s.purged
  {
    hide HasKey, Mirror, WithRow, Readers.Read, Count, Pending, KeyOf;
    var after, stage := WorkerStep(r, s, e), s.workers[e.w];
    var next := if e.w in after.workers then Some(after.workers[e.w]) else None;
    assert after.workers == Moved(s.workers, e.w, next);
    PendingMoves(s.workers, e.w, next, k);
    if e.InsertRow? && stage.ToInsert? {
      RowAdded(s.events, stage.ev, k);
    } else if e.Publish? && stage.ToPublish? {
      PublishedOne(s.published, stage.ev, k);
    }
  }

  lemma StepSparing(r: Readers, s: State, e: Step)
    requires Sparing(s)
    ensures Sparing(Next(r, s, e))
  {
    hide HasKey, Mirror, WithRow, WorkerStep, PruneBans, PruneEvents, Count, Lost, Pending;
    var after := Next(r, s, e);
    forall k ensures Shown(after, k) <= Allowed(after, k) {
      assert Shown(s, k) <= Allowed(s, k);
      match e
      case Take(w, line) =>
        if w !in s.workers {
          TakeShows(s, w, line, k);
        }
      case Foreign(ev) => RowAdded(s.events, ev, k);
      case Retention(cutoff) => PurgeAllows(s, cutoff, k);
      case _ => if e.w in s.workers { WorkerShows(r, s, e, k); }
    }
  }

  lemma TakeShows(s: State, w: nat, line: string, k: DedupKey)
    requires w !in s.workers
    ensures Pending(s.workers[w := Holding(line)], k) == Pending(s.workers, k)
  {
  }

  lemma PurgeAllows(s: State, cutoff: int, k: DedupKey)
    ensures var after := PruneEvents(s.events, cutoff);
            HasKey(s.events, k) && !HasKey(after, k) ==> multiset(Lost(s.events, after))[k] == 1
  {
  }

  /** Under every interleaving a key is published at most once more than retention has deleted
      it. */
  lemma RunsAreSparing(r: Readers, es: seq<Step>, k: DedupKey)
    ensures Count(Run(r, START, es).published, k) <= Run(r, START, es).purged[k] + 1
  {
    hide Run, Next, Count, Pending;
    AlwaysSparing(r, es);
    var s := Run(r, START, es);
    assert Shown(s, k) <= Allowed(s, k);
  }

  lemma {:induction false} AlwaysSparing(r: Readers, es: seq<Step>)
    ensures Sparing(Run(r, START, es))
  {
    hide Sparing, Next;
    if es == [] {
      StartSparing();
    } else {
      AlwaysSparing(r, es[..|es| - 1]);
      StepSparing(r, Run(r, START, es[..|es| - 1]), es[|es| - 1]);
    }
  }

  lemma StartSparing()
    ensures Sparing(START)
  {
  }

  lemma {:induction false} NoRetentionNoPurge(r: Readers, es: seq<Step>)
    requires forall i :: 0 <= i < |es| ==> !es[i].Retention?
    ensures Run(r, START, es).purged == multiset{}
  {
    hide WithRow, HasKey, Mirror, KeyOf, Readers.Read;
    if es != [] {
      NoRetentionNoPurge(r, es[..|es| - 1]);
    }
  }

  /** Without a retention pass no two published events have the same key. */
  lemma PublishedOnce(r: Readers, es: seq<Step>)
    requires forall i :: 0 <= i < |es| ==> !es[i].Retention?
    ensures var p := Run(r, START, es).published;
            forall i, j :: 0 <= i < j < |p| ==> KeyOf(p[i]) != KeyOf(p[j])
  {
    hide Run, KeyOf;
    NoRetentionNoPurge(r, es);
    var p := Run(r, START, es).published;
    forall i, j | 0 <= i < j < |p| ensures KeyOf(p[i]) != KeyOf(p[j]) {
      RunsAreSparing(r, es, KeyOf(p[i]));
      if KeyOf(p[i]) == KeyOf(p[j]) {
        TwiceCounted(p, i, j);
      }
    }
  }

  lemma {:induction false} TwiceCounted(p: seq<Store.Event>, i: nat, j: nat)
    requires i < j < |p| && KeyOf(p[i]) == KeyOf(p[j])
    ensures Count(p, KeyOf(p[i])) >= 2
  {
    hide KeyOf;
    var init := p[..|p| - 1];
    if j < |p| - 1 {
      TwiceCounted(init, i, j);
    } else {
      OnceCounted(init, i);
    }
  }

  lemma {:induction false} OnceCounted(p: seq<Store.Event>, i: nat)
    requires i < |p|
    ensures Count(p, KeyOf(p[i])) >= 1
  {
    hide KeyOf;
    if i < |p| - 1 {
      OnceCounted(p[..|p| - 1], i);
    }
  }

  /** After a retention pass a replayed line is published again. */
  lemma RetentionRepublishes(r: Readers, line: string, e: Store.Event)
    requires r.Read(line) == Some(e)
    ensures var visit := Visit(0, line, NoTrouble);
            Run(r, START, visit + [Retention(e.ts + 1)] + visit).published == [e, e]
  {
    hide Run, Visit, Readers.Read;
    var visit := Visit(0, line, NoTrouble);
    VisitPublishes(r, START, 0, line, e);
    var s1 := Run(r, START, visit);
    RunAppend(r, START, visit, [Retention(e.ts + 1)]);
    RunOne(r, s1, Retention(e.ts + 1));
    var s2 := Next(r, s1, Retention(e.ts + 1));
    assert s1.events == [RowOf(1, e)];
    assert s2.events == [];
    RunAppend(r, START, visit + [Retention(e.ts + 1)], visit);
    VisitPublishes(r, s2, 0, line, e);
  }

  lemma {:induction false} RunAppend(r: Readers, s: State, es: seq<Step>, fs: seq<Step>)
    ensures Run(r, s, es + fs) == Run(r, Run(r, s, es), fs)
  {
    hide Next;
    if fs == [] {
      assert es + fs == es;
    } else {
      RunAppend(r, s, es, fs[..|fs| - 1]);
      assert (es + fs)[..|es + fs| - 1] == es + fs[..|fs| - 1];
    }
  }

  lemma RunOne(r: Readers, s: State, e: Step)
    ensures Run(r, s, [e]) == Next(r, s, e)
  {
  }

  lemma RunCons(r: Readers, s: State, e: Step, es: seq<Step>)
    ensures Run(r, s, [e] + es) == Run(r, Next(r, s, e), es)
  {
    hide Next, Run;
    RunAppend(r, s, [e], es);
    RunOne(r, s, e);
  }

  /** One worker takes a line and goes as far with it as the store's answers allow; a step that its
      stage does not call for changes nothing. */
  function Visit(w: nat, line: string, trouble: Trouble): seq<Step> {
    [Take(w, line)] + ([Classify(w)] + ([InsertRow(w, trouble != InsertFails)] +
      ([MirrorRow(w, trouble != MirrorFails)] + [Publish(w)])))
  }

  function TotalsOf(s: State): Totals { Totals(s.events, s.bans, s.parsed, s.unparsed, s.published) }

  /** A worker nothing interrupts, whatever the others hold, does with a line what Handle says. */
  lemma VisitRuns(r: Readers, s: State, w: nat, line: string, trouble: Trouble)
    requires w !in s.workers
    ensures var t := Run(r, s, Visit(w, line, trouble));
            && TotalsOf(t) == Handle(r, TotalsOf(s), line, trouble)
            && t.workers == s.workers && t.taken == s.taken + 1 && t.purged == s.purged
  {
    hide Run, Readers.Read, Next, Offer;
    var insert, mirror := InsertRow(w, trouble != InsertFails), MirrorRow(w, trouble != MirrorFails);
    var s1 := Next(r, s, Take(w, line));
    var s2 := Next(r, s1, Classify(w));
    RunCons(r, s, Take(w, line), [Classify(w)] + ([insert] + ([mirror] + [Publish(w)])));
    RunCons(r, s1, Classify(w), [insert] + ([mirror] + [Publish(w)]));
    RunCons(r, s2, insert, [mirror] + [Publish(w)]);
    RunCons(r, Next(r, s2, insert), mirror, [Publish(w)]);
    RunOne(r, Next(r, Next(r, s2, insert), mirror), Publish(w));
    var taken := s.(taken := s.taken + 1);
    Classified(r, s, w, line);
    if r.Read(line).Some? {
      StoreRuns(r, taken.(parsed := s.parsed + 1), w, r.Read(line).value, trouble);
    } else {
      NothingLeft(r, s2, w, insert);
      NothingLeft(r, s2, w, mirror);
      NothingLeft(r, s2, w, Publish(w));
    }
  }

  lemma Classified(r: Readers, s: State, w: nat, line: string)
    requires w !in s.workers
    ensures var s' := Next(r, Next(r, s, Take(w, line)), Classify(w));
            s' == match r.Read(line)
                  case None => s.(taken := s.taken + 1, unparsed := s.unparsed + 1)
                  case Some(e) => s.(taken := s.taken + 1, parsed := s.parsed + 1, workers := s.workers[w := ToInsert(e)])
  {
    hide Readers.Read;
    assert s.workers[w := Holding(line)] - {w} == s.workers;
  }

  lemma NothingLeft(r: Readers, s: State, w: nat, e: Step)
    requires w !in s.workers && (e.InsertRow? || e.MirrorRow? || e.Publish?) && e.w == w
    ensures Next(r, s, e) == s
  {
  }

  lemma StoreRuns(r: Readers, s: State, w: nat, e: Store.Event, trouble: Trouble)
    requires w !in s.workers
    ensures var s1 := Next(r, s.(workers := s.workers[w := ToInsert(e)]), InsertRow(w, trouble != InsertFails));
            var s' := Next(r, Next(r, s1, MirrorRow(w, trouble != MirrorFails)), Publish(w));
            && TotalsOf(s') == Offer(TotalsOf(s), e, trouble)
            && s'.workers == s.workers && s'.taken == s.taken && s'.purged == s.purged
  {
    hide HasKey, WithRow, KeyOf, Mirror, Readers.Read, Next, Offer;
    var s1 := Next(r, s.(workers := s.workers[w := ToInsert(e)]), InsertRow(w, trouble != InsertFails));
    InsertRuns(r, s, w, e, trouble);
    if w in s1.workers {
      RestRuns(r, s.(events := WithRow(s.events, e)), w, e, trouble);
    } else {
      NothingLeft(r, s1, w, MirrorRow(w, trouble != MirrorFails));
      NothingLeft(r, s1, w, Publish(w));
    }
    OfferIs(TotalsOf(s), e, trouble);
  }

  lemma OfferIs(t: Totals, e: Store.Event, trouble: Trouble)
    ensures trouble == InsertFails || HasKey(t.events, KeyOf(e)) ==> Offer(t, e, trouble) == t
    ensures trouble != InsertFails && !HasKey(t.events, KeyOf(e)) ==>
              var t' := t.(events := WithRow(t.events, e));
              Offer(t, e, trouble) ==
              if trouble == MirrorFails && IsBanEvent(e) then t'
              else t'.(bans := Mirror(t.bans, e), published := t.published + [e])
  {
    hide HasKey, WithRow, KeyOf, Mirror;
  }

  lemma InsertRuns(r: Readers, s: State, w: nat, e: Store.Event, trouble: Trouble)
    requires w !in s.workers
    ensures Next(r, s.(workers := s.workers[w := ToInsert(e)]), InsertRow(w, trouble != InsertFails)) ==
            if trouble == InsertFails || HasKey(s.events, KeyOf(e)) then s
            else s.(events := WithRow(s.events, e),
                    workers := s.workers[w := if IsBanEvent(e) then ToMirror(e) else ToPublish(e)])
  {
    hide HasKey, WithRow, KeyOf;
    assert s.workers[w := ToInsert(e)] - {w} == s.workers;
    var stage := if IsBanEvent(e) then ToMirror(e) else ToPublish(e);
    assert s.workers[w := ToInsert(e)][w := stage] == s.workers[w := stage];
  }

  lemma RestRuns(r: Readers, s: State, w: nat, e: Store.Event, trouble: Trouble)
    requires w !in s.workers
    ensures var s1 := s.(workers := s.workers[w := if IsBanEvent(e) then ToMirror(e) else ToPublish(e)]);
            Next(r, Next(r, s1, MirrorRow(w, trouble != MirrorFails)), Publish(w)) ==
            if trouble == MirrorFails && IsBanEvent(e) then s
            else s.(bans := Mirror(s.bans, e), published := s.published + [e])
  {
    hide MirrorBan, MirrorUnban;
    assert s.workers[w := ToMirror(e)] - {w} == s.workers;
    assert s.workers[w := ToMirror(e)][w := ToPublish(e)] == s.workers[w := ToPublish(e)];
    assert s.workers[w := ToPublish(e)] - {w} == s.workers;
  }

  lemma VisitPublishes(r: Readers, s: State, w: nat, line: string, e: Store.Event)
    requires w !in s.workers && r.Read(line) == Some(e) && !HasKey(s.events, KeyOf(e))
    ensures var t := Run(r, s, Visit(w, line, NoTrouble));
            t.events == WithRow(s.events, e) && t.published == s.published + [e] && t.workers == s.workers
  {
    hide Run, HasKey, WithRow, Mirror, Readers.Read, Visit, KeyOf;
    VisitRuns(r, s, w, line, NoTrouble);
  }

  ghost predicate NoRetention(es: seq<Step>) { forall i :: 0 <= i < |es| ==> !es[i].Retention? }

  /** While a key is in the table it is not shown more often. */
  lemma {:induction false} KnownStaysQuiet(r: Readers, s: State, es: seq<Step>, k: DedupKey)
    requires HasKey(s.events, k) && NoRetention(es)
    ensures HasKey(Run(r, s, es).events, k) && Shown(Run(r, s, es), k) <= Shown(s, k)
  {
    hide HasKey, Shown, Next;
    if es != [] {
      KnownStaysQuiet(r, s, es[..|es| - 1], k);
      StepStaysQuiet(r, Run(r, s, es[..|es| - 1]), es[|es| - 1], k);
    }
  }

  lemma StepStaysQuiet(r: Readers, s: State, e: Step, k: DedupKey)
    requires HasKey(s.events, k) && !e.Retention?
    ensures HasKey(Next(r, s, e).events, k) && Shown(Next(r, s, e), k) <= Shown(s, k)
  {
    hide HasKey, Mirror, WithRow, WorkerStep, Count, Pending;
    match e
    case Take(w, line) =>
      if w !in s.workers {
        TakeShows(s, w, line, k);
      }
    case Foreign(ev) => RowAdded(s.events, ev, k);
    case Retention(_) =>
    case _ => if e.w in s.workers { WorkerShows(r, s, e, k); }
  }

  /** From any state in which no worker is about to publish a line's key, the key can be published (again)
      without a further retention pass exactly when it is not in the table. */
  lemma RepublishableExactly(r: Readers, s: State, w: nat, line: string, e: Store.Event)
    requires r.Read(line) == Some(e) && w !in s.workers && Pending(s.workers, KeyOf(e)) == {}
    ensures (exists es :: NoRetention(es) && Count(Run(r, s, es).published, KeyOf(e)) > Count(s.published, KeyOf(e))) <==>
            !HasKey(s.events, KeyOf(e))
  {
    hide Run, Count, HasKey, Visit, KeyOf, Readers.Read;
    if HasKey(s.events, KeyOf(e)) {
      forall es | NoRetention(es) ensures Count(Run(r, s, es).published, KeyOf(e)) <= Count(s.published, KeyOf(e)) {
        KnownStaysQuiet(r, s, es, KeyOf(e));
      }
    } else {
      VisitPublishes(r, s, w, line, e);
      PublishedOne(s.published, e, KeyOf(e));
      VisitIsQuiet(w, line);
      assert Count(Run(r, s, Visit(w, line, NoTrouble)).published, KeyOf(e)) > Count(s.published, KeyOf(e));
    }
  }

  lemma VisitIsQuiet(w: nat, line: string)
    ensures NoRetention(Visit(w, line, NoTrouble))
  {
  }

  // ----- one worker's loop -----

  datatype Totals = Totals(events: seq<EventRow>, bans: seq<BanRow>, parsed: nat, unparsed: nat, published: seq<Store.Event>)

  /** What the store's answers make of an event. */
  function Offer(t: Totals, e: Store.Event, trouble: Trouble): Totals {
    if trouble == InsertFails || HasKey(t.events, KeyOf(e)) then t
    else if trouble == MirrorFails && IsBanEvent(e) then t.(events := WithRow(t.events, e))
    else t.(events := WithRow(t.events, e), bans := Mirror(t.bans, e), published := t.published + [e])
  }

  /** What one line does when nothing interrupts its worker. */
  function Handle(r: Readers, t: Totals, line: string, trouble: Trouble): Totals {
    match r.Read(line)
    case None => t.(unparsed := t.unparsed + 1)
    case Some(e) => Offer(t.(parsed := t.parsed + 1), e, trouble)
  }

  function HandleAll(r: Readers, t: Totals, lines: seq<string>, trouble: nat -> Trouble): Totals {
    if lines == [] then t
    else Handle(r, HandleAll(r, t, lines[..|lines| - 1], trouble), lines[|lines| - 1], trouble(|lines| - 1))
  }

  class Worker {
    const readers: Readers
    const store: SQLiteStore
    var parsed: nat
    var unparsed: nat
    var published: seq<Store.Event>

    constructor (readers: Readers, store: SQLiteStore)
      ensures this.readers == readers && this.store == store
      ensures Now() == Totals(store.events, store.bans, 0, 0, [])
    {
      this.readers, this.store, parsed, unparsed, published := readers, store, 0, 0, [];
    }

    function Now(): Totals
      reads this, store
    {
      Totals(store.events, store.bans, parsed, unparsed, published)
    }

    /** The body of the loop over lines: parse, count, enrich, insert, publish. */
    method One(line: string, trouble: Trouble)
      modifies this, store
      ensures Now() == Handle(readers, old(Now()), line, trouble)
      ensures var e := readers.parse(line);
              && parsed == old(parsed) + (if e.Some? then 1 else 0)
              && unparsed == old(unparsed) + (if e.Some? then 0 else 1)
              && if e.Some? && trouble != InsertFails && !HasKey(old(store.events), KeyOf(e.value)) &&
                    (trouble == MirrorFails ==> e.value.kind != "ban" && e.value.kind != "unban")
                 then published == old(published) +
                                   [if e.value.ip == "" then e.value else e.value.(threat := readers.threat(e.value.ip))]
                 else published == old(published)
    {
      hide HasKey, MirrorBan, MirrorUnban, MaxEventId, RowOf;
      match readers.parse(line) {
        case None => unparsed := unparsed + 1;
        case Some(e) =>
          parsed := parsed + 1;
          var ev := e;
          if ev.ip != "" {
            ev := ev.(threat := readers.threat(ev.ip));
          }
          var r := store.InsertEvent(ev, trouble);
          if r != Inserted {
            return;
          }
          published := published + [ev];
      }
    }

    method Work(lines: seq<string>, trouble: nat -> Trouble)
      modifies this, store
      ensures Now() == HandleAll(readers, old(Now()), lines, trouble)
      ensures exists shown :: InOrder(readers, old(store.events), lines, trouble, |lines|, shown, old(published), published)
    {
      hide Handle;
      for i := 0 to |lines|
        invariant Now() == HandleAll(readers, old(Now()), lines[..i], trouble)
      {
        assert lines[..i + 1][..i] == lines[..i];
        One(lines[i], trouble(i));
      }
      assert lines[..|lines|] == lines;
      ghost var shown := WorkPublishes(readers, old(Now()), lines, trouble, |lines|);
    }
  }

  /** The line is readable and the store takes its row. */
  predicate Taken(r: Readers, lines: seq<string>, trouble: nat -> Trouble, i: nat) {
    i < |lines| && r.Read(lines[i]).Some? && trouble(i) != InsertFails
  }

  /** The line is the first of its key that the store takes, its key was not in the table, and the ban
      table took it too. */
  ghost predicate IsNews(r: Readers, known: seq<EventRow>, lines: seq<string>, trouble: nat -> Trouble, i: nat) {
    && Taken(r, lines, trouble, i)
    && var e := r.Read(lines[i]).value;
       && !HasKey(known, KeyOf(e)) && (trouble(i) == MirrorFails ==> e.kind != "ban" && e.kind != "unban")
       && forall j :: 0 <= j < i && Taken(r, lines, trouble, j) ==> KeyOf(r.Read(lines[j]).value) != KeyOf(e)
  }

  /** What was published since is the events of exactly the news among the first k lines, in line order. */
  ghost predicate InOrder(r: Readers, known: seq<EventRow>, lines: seq<string>, trouble: nat -> Trouble, k: nat,
                          shown: seq<nat>, before: seq<Store.Event>, after: seq<Store.Event>)
  {
    && (forall m, n :: 0 <= m < n < |shown| ==> shown[m] < shown[n])
    && (forall i: nat :: i in shown <==> i < k && IsNews(r, known, lines, trouble, i))
    && |after| == |before| + |shown| && before <= after
    && forall n :: 0 <= n < |shown| && shown[n] < |lines| ==> Some(after[|before| + n]) == r.Read(lines[shown[n]])
  }

  /** After k lines the table knows what it knew and what it has taken. */
  lemma {:induction false} WorkKnows(r: Readers, t: Totals, lines: seq<string>, trouble: nat -> Trouble, k: nat, key: DedupKey)
    requires k <= |lines|
    ensures HasKey(HandleAll(r, t, lines[..k], trouble).events, key) <==>
            HasKey(t.events, key) ||
            exists j :: 0 <= j < k && Taken(r, lines, trouble, j) && KeyOf(r.Read(lines[j]).value) == key
    decreases k
  {
    hide HasKey, WithRow, Mirror, KeyOf, Readers.Read;
    if k == 0 {
      assert lines[..0] == [];
    } else {
      assert lines[..k][..k - 1] == lines[..k - 1];
      WorkKnows(r, t, lines, trouble, k - 1, key);
      var before := HandleAll(r, t, lines[..k - 1], trouble);
      if r.Read(lines[k - 1]).Some? {
        RowAdded(before.events, r.Read(lines[k - 1]).value, key);
      }
    }
  }

  /** The worker's loop publishes each new readable event once, in the order of the lines. */
  lemma {:induction false} WorkPublishes(r: Readers, t: Totals, lines: seq<string>, trouble: nat -> Trouble, k: nat)
      returns (shown: seq<nat>)
    requires k <= |lines|
    ensures InOrder(r, t.events, lines, trouble, k, shown, t.published, HandleAll(r, t, lines[..k], trouble).published)
    decreases k
  {
    hide HasKey, WithRow, Mirror, KeyOf, Readers.Read, IsNews, Offer, InOrder, Handle;
    if k == 0 {
      assert lines[..0] == [];
      shown := [];
      NothingShown(r, t.events, lines, trouble, t.published);
    } else {
      assert lines[..k][..k - 1] == lines[..k - 1];
      shown := WorkPublishes(r, t, lines, trouble, k - 1);
      NewsIsPublished(r, t, lines, trouble, k - 1);
      var before := HandleAll(r, t, lines[..k - 1], trouble);
      OrderGrows(r, t.events, lines, trouble, k - 1, shown, t.published, before.published);
      assert HandleAll(r, t, lines[..k], trouble) == Handle(r, before, lines[k - 1], trouble(k - 1));
      assert before.published + [] == before.published;
      if IsNews(r, t.events, lines, trouble, k - 1) {
        shown := shown + [k - 1];
      }
    }
  }

  lemma NothingShown(r: Readers, known: seq<EventRow>, lines: seq<string>, trouble: nat -> Trouble, published: seq<Store.Event>)
    ensures InOrder(r, known, lines, trouble, 0, [], published, published)
  {
  }

  lemma OrderGrows(r: Readers, known: seq<EventRow>, lines: seq<string>, trouble: nat -> Trouble, k: nat, shown: seq<nat>,
                   before: seq<Store.Event>, after: seq<Store.Event>)
    requires k < |lines| && InOrder(r, known, lines, trouble, k, shown, before, after)
    ensures !IsNews(r, known, lines, trouble, k) ==> InOrder(r, known, lines, trouble, k + 1, shown, before, after)
    ensures IsNews(r, known, lines, trouble, k) ==>
              InOrder(r, known, lines, trouble, k + 1, shown + [k], before, after + [r.Read(lines[k]).value])
  {
    hide HasKey, KeyOf, Readers.Read;
    var more := shown + [k];
    forall m | m in shown ensures m < k {
    }
    assert forall n :: 0 <= n < |shown| ==> shown[n] in shown;
    assert forall i: nat :: i in more <==> i in shown || i == k;
  }

  lemma NewsIsPublished(r: Readers, t: Totals, lines: seq<string>, trouble: nat -> Trouble, k: nat)
    requires k < |lines|
    ensures var before := HandleAll(r, t, lines[..k], trouble);
            Handle(r, before, lines[k], trouble(k)).published ==
            before.published + if IsNews(r, t.events, lines, trouble, k) then [r.Read(lines[k]).value] else []
  {
    hide HasKey, WithRow, Mirror, KeyOf, Readers.Read, HandleAll;
    if r.Read(lines[k]).Some? {
      WorkKnows(r, t, lines, trouble, k, KeyOf(r.Read(lines[k]).value));
    }
  }

  /** Restarting on a log that has been read: with no failure the second pass over the same lines
      counts them again, and writes and publishes nothing. */
  lemma {:induction false} SecondPassIsQuiet(r: Readers, t: Totals, lines: seq<string>, k: nat)
    requires k <= |lines|
    requires forall i :: 0 <= i < |lines| && r.Read(lines[i]).Some? ==> HasKey(t.events, KeyOf(r.Read(lines[i]).value))
    ensures var after := HandleAll(r, t, lines[..k], i => NoTrouble);
            after.events == t.events && after.bans == t.bans && after.published == t.published &&
            after.parsed + after.unparsed == t.parsed + t.unparsed + k
    decreases k
  {
    hide HasKey, WithRow, Mirror, Readers.Read;
    if k > 0 {
      SecondPassIsQuiet(r, t, lines, k - 1);
      assert lines[..k][..k - 1] == lines[..k - 1];
    } else {
      assert lines[..0] == [];
    }
  }

  /** A pass with no failure leaves every event it read known by its key. */
  lemma {:induction false} PassLearns(r: Readers, t: Totals, lines: seq<string>, k: nat)
    requires k <= |lines|
    ensures var after := HandleAll(r, t, lines[..k], i => NoTrouble);
            && (forall key :: HasKey(t.events, key) ==> HasKey(after.events, key))
            && (forall i :: 0 <= i < k && r.Read(lines[i]).Some? ==> HasKey(after.events, KeyOf(r.Read(lines[i]).value)))
    decreases k
  {
    hide HasKey, WithRow, Mirror, Readers.Read;
    if k > 0 {
      PassLearns(r, t, lines, k - 1);
      assert lines[..k][..k - 1] == lines[..k - 1];
      var before := HandleAll(r, t, lines[..k - 1], i => NoTrouble);
      if r.Read(lines[k - 1]).Some? {
        var e := r.Read(lines[k - 1]).value;
        forall key ensures HasKey(WithRow(before.events, e), key) <==> HasKey(before.events, key) || key == KeyOf(e) {
          RowAdded(before.events, e, key);
        }
      }
    } else {
      assert lines[..0] == [];
    }
  }

  /** So reading a log twice is reading it once. */
  lemma ReplayIsQuiet(r: Readers, t: Totals, lines: seq<string>)
    ensures var once := HandleAll(r, t, lines, i => NoTrouble);
            var twice := HandleAll(r, once, lines, i => NoTrouble);
            && twice.events == once.events && twice.bans == once.bans && twice.published == once.published
            && twice.parsed + twice.unparsed == once.parsed + once.unparsed + |lines|
  {
    hide HandleAll, HasKey, Readers.Read;
    assert lines[..|lines|] == lines;
    PassLearns(r, t, lines, |lines|);
    SecondPassIsQuiet(r, HandleAll(r, t, lines, i => NoTrouble), lines, |lines|);
  }
}
