/** Who may start an automatic ban (internal/api/api.go): a cooldown entry per address claims the
    right to check it, and a semaphore bounds the checks in flight. Callers and background tasks
    interleave freely; every access to a cooldown map or to the semaphore is one step. */
module AutoBan {
  import opened Numbers

  const SLOTS := 100

  /** The attempt-threshold check and the blocklist check keep separate cooldown maps; a key names
      the map and the address. */
  datatype Kind = Attempt | Blocklist

  datatype Key = Key(kind: Kind, ip: string)

  /** A caller holding a stale entry it may overwrite, one that has claimed, and one that found
      the semaphore full. */
  datatype CallerStage = ToOverwrite | ToAcquire | ToDrop

  /** rearm: after how long an entry may be claimed again, if ever. */
  datatype Caller = Caller(key: Key, now: int, rearm: Option<int>, stage: CallerStage)

  datatype TaskStage = Counting | Storing | Blocking | Undoing | GivingUp | Reporting | Leaving

  datatype Task = Task(key: Key, stage: TaskStage)

  /** History: claims and releases of cooldown entries, in order. */
  datatype Mark = Claimed(key: Key, at: int, rearm: Option<int>) | Released(key: Key)

  /** banned is history too: the addresses a check has got through the firewall since they were last
      claimed. */
  datatype State = State(cooldown: map<Key, int>, slots: nat,
                         callers: map<nat, Caller>, tasks: map<nat, Task>,
                         banned: set<Key>, marks: seq<Mark>)

  const IDLE := State(map[], 0, map[], map[], {}, [])

  datatype Step =
    | Load(c: nat, key: Key, now: int, rearm: Option<int>)   // LoadOrStore
    | Overwrite(c: nat)                                     // Store
    | Acquire(c: nat, t: nat)                               // the select, and go
    | Drop(c: nat)                                          // Delete, semaphore full
    | Progress(t: nat, ok: bool)                            // a task's next step

  function Claim(s: State, key: Key, now: int, rearm: Option<int>): State {
    s.(cooldown := s.cooldown[key := now], banned := s.banned - {key}, marks := s.marks + [Claimed(key, now, rearm)])
  }

  function Release(s: State, key: Key): State {
    s.(cooldown := s.cooldown - {key}, marks := s.marks + [Released(key)])
  }

  /** A present entry stops the caller unless it is old enough. */
  predicate Stops(s: State, key: Key, now: int, rearm: Option<int>) {
    key in s.cooldown && (rearm.None? || now - s.cooldown[key] < rearm.value)
  }

  function FirstStage(k: Kind): TaskStage { if k.Attempt? then Counting else Storing }

  function Later(stage: TaskStage, ok: bool): TaskStage {
    match stage
    case Counting => if ok then Storing else GivingUp
    case Storing => if ok then Blocking else GivingUp
    case Blocking => if ok then Reporting else Undoing
    case Undoing => GivingUp
    case GivingUp => Leaving
    case Reporting => Leaving
    case Leaving => Leaving
  }

  /** A task is over and its slot free. */
  function Gone(s: State, t: nat): State {
    s.(tasks := s.tasks - {t}, slots := if s.slots > 0 then s.slots - 1 else 0)
  }

  function TaskStep(s: State, t: nat, ok: bool): State
    requires t in s.tasks
  {
    var task := s.tasks[t];
    if task.stage.Leaving? then Gone(s, t)
    else
      var s' := s.(tasks := s.tasks[t := task.(stage := Later(task.stage, ok))]);
      if task.stage.Blocking? && ok then s'.(banned := s.banned + {task.key})
      else if task.stage.GivingUp? then Release(s', task.key)
      else s'
  }

  function CallerStep(s: State, e: Step): State
    requires !e.Load? && !e.Progress? && e.c in s.callers
  {
    var c := s.callers[e.c];
    match e
    case Overwrite(_) =>
      if c.stage.ToOverwrite? then Claim(s.(callers := s.callers[e.c := c.(stage := ToAcquire)]), c.key, c.now, c.rearm)
      else s
    case Acquire(_, t) =>
      if !c.stage.ToAcquire? || t in s.tasks then s
      else if s.slots < SLOTS then
        s.(callers := s.callers - {e.c}, slots := s.slots + 1, tasks := s.tasks[t := Task(c.key, FirstStage(c.key.kind))])
      else s.(callers := s.callers[e.c := c.(stage := ToDrop)])
    case Drop(_) =>
      if c.stage.ToDrop? then Release(s.(callers := s.callers - {e.c}), c.key) else s
  }

  function LoadStep(s: State, c: nat, key: Key, now: int, rearm: Option<int>): State {
    if key !in s.cooldown then Claim(s.(callers := s.callers[c := Caller(key, now, rearm, ToAcquire)]), key, now, rearm)
    else if Stops(s, key, now, rearm) then s
    else s.(callers := s.callers[c := Caller(key, now, rearm, ToOverwrite)])
  }

  function Next(s: State, e: Step): State {
    match e
    case Load(c, key, now, rearm) => if c in s.callers then s else LoadStep(s, c, key, now, rearm)
    case Progress(t, ok) => if t in s.tasks then TaskStep(s, t, ok) else s
    case _ => if e.c in s.callers then CallerStep(s, e) else s
  }

  function Run(s: State, es: seq<Step>): State {
    if es == [] then s else Next(Run(s, es[..|es| - 1]), es[|es| - 1])
  }

  // ----- no address stays claimed for nothing -----

  predicate Working(stage: TaskStage) { !stage.Reporting? && !stage.Leaving? }

  ghost predicate HeldByCaller(s: State, key: Key) {
    exists c :: c in s.callers && s.callers[c].key == key && !s.callers[c].stage.ToOverwrite?
  }

  ghost predicate HeldByTask(s: State, key: Key) {
    exists t :: t in s.tasks && s.tasks[t].key == key && Working(s.tasks[t].stage)
  }

  /** The semaphore counts the live tasks and never exceeds its size. */
  ghost predicate Counted(s: State) { s.slots == |s.tasks| && s.slots <= SLOTS }

  /** A cooldown entry means that a caller or a task will still decide about the address, or that
      a task has banned it since it was last claimed. */
  ghost predicate Accounted(s: State) {
    forall key :: key in s.cooldown ==> HeldByCaller(s, key) || HeldByTask(s, key) || key in s.banned
  }

  lemma StepCounted(s: State, e: Step)
    requires Counted(s)
    ensures Counted(Next(s, e))
  {
  }

  /** What holds a key, apart from one caller and one task. */
  lemma OthersHold(s: State, after: State, key: Key)
    requires forall c :: c in s.callers && s.callers[c].key == key ==> c in after.callers && after.callers[c] == s.callers[c]
    requires forall t :: t in s.tasks && s.tasks[t].key == key ==> t in after.tasks && after.tasks[t] == s.tasks[t]
    ensures HeldByCaller(s, key) ==> HeldByCaller(after, key)
    ensures HeldByTask(s, key) ==> HeldByTask(after, key)
  {
  }

  lemma TaskHolds(s: State, t: nat)
    requires t in s.tasks && Working(s.tasks[t].stage)
    ensures HeldByTask(s, s.tasks[t].key)
  {
  }

  lemma CallerHolds(s: State, c: nat)
    requires c in s.callers && !s.callers[c].stage.ToOverwrite?
    ensures HeldByCaller(s, s.callers[c].key)
  {
  }

  lemma SameCallersHold(s: State, after: State, key: Key)
    requires after.callers == s.callers
    ensures HeldByCaller(s, key) ==> HeldByCaller(after, key)
  {
  }

  lemma SameTasksHold(s: State, after: State, key: Key)
    requires forall t :: t in s.tasks ==> t in after.tasks && after.tasks[t] == s.tasks[t]
    ensures HeldByTask(s, key) ==> HeldByTask(after, key)
  {
  }

  /** A task that was done with its key leaves whatever held it. */
  lemma IdleTaskMoves(s: State, after: State, t: nat, key: Key)
    requires t in s.tasks && !Working(s.tasks[t].stage)
    requires forall u :: u in s.tasks && u != t ==> u in after.tasks && after.tasks[u] == s.tasks[u]
    ensures HeldByTask(s, key) ==> HeldByTask(after, key)
  {
  }

  lemma TaskAccounted(s: State, t: nat, ok: bool)
    requires Accounted(s) && t in s.tasks
    ensures Accounted(TaskStep(s, t, ok))
  {
    hide HeldByCaller, HeldByTask, Later;
    var task, after := s.tasks[t], TaskStep(s, t, ok);
    LaterWorks(task.stage, ok);
    forall key | key in after.cooldown ensures HeldByCaller(after, key) || HeldByTask(after, key) || key in after.banned {
      assert key in s.cooldown;
      SameCallersHold(s, after, key);
      if key != task.key {
        OthersHold(s, after, key);
      } else if !Working(task.stage) {
        IdleTaskMoves(s, after, t, key);
      } else if Working(Later(task.stage, ok)) {
        TaskHolds(after, t);
      }
    }
  }

  /** Only a task that has blocked its address, or is about to release it, stops working. */
  lemma LaterWorks(stage: TaskStage, ok: bool)
    ensures Working(stage) && !Working(Later(stage, ok)) ==> (stage.Blocking? && ok) || stage.GivingUp?
  {
  }

  lemma CallerAccounted(s: State, e: Step)
    requires Accounted(s) && !e.Load? && !e.Progress? && e.c in s.callers
    ensures Accounted(CallerStep(s, e))
  {
    hide HeldByCaller, HeldByTask;
    var c, after := s.callers[e.c], CallerStep(s, e);
    forall key | key in after.cooldown ensures HeldByCaller(after, key) || HeldByTask(after, key) || key in after.banned {
      SameTasksHold(s, after, key);
      if key != c.key {
        OthersHold(s, after, key);
      } else if e.c in after.callers && !after.callers[e.c].stage.ToOverwrite? {
        CallerHolds(after, e.c);
      } else if e.c !in after.callers {
        TaskHolds(after, e.t);
      }
    }
  }

  lemma LoadAccounted(s: State, c: nat, key: Key, now: int, rearm: Option<int>)
    requires Accounted(s) && c !in s.callers
    ensures Accounted(LoadStep(s, c, key, now, rearm))
  {
    hide HeldByCaller, HeldByTask;
    var after := LoadStep(s, c, key, now, rearm);
    forall x | x in after.cooldown ensures HeldByCaller(after, x) || HeldByTask(after, x) || x in after.banned {
      if x in s.cooldown {
        OthersHold(s, after, x);
      } else {
        CallerHolds(after, c);
      }
    }
  }

  /** Both hold in every reachable state, under every interleaving. */
  lemma {:induction false} RunsAreDisciplined(es: seq<Step>)
    ensures Counted(Run(IDLE, es)) && Accounted(Run(IDLE, es))
  {
    hide Counted, Accounted, TaskStep, CallerStep, LoadStep;
    if es == [] {
      IdleDisciplined();
    } else {
      RunsAreDisciplined(es[..|es| - 1]);
      var s, e := Run(IDLE, es[..|es| - 1]), es[|es| - 1];
      StepCounted(s, e);
      match e
      case Load(c, key, now, rearm) => if c !in s.callers { LoadAccounted(s, c, key, now, rearm); }
      case Progress(t, ok) => if t in s.tasks { TaskAccounted(s, t, ok); }
      case _ => if e.c in s.callers { CallerAccounted(s, e); }
    }
  }

  lemma IdleDisciplined()
    ensures Counted(IDLE) && Accounted(IDLE)
  {
  }

  /** So when nothing is in flight, an entry means that some task has banned the address since it was
      last claimed: a failed or sub-threshold check never leaves an address stuck, also not one that
      was banned before and has come back. */
  lemma NothingStuck(es: seq<Step>, key: Key)
    requires Run(IDLE, es).callers == map[] && Run(IDLE, es).tasks == map[]
    requires key in Run(IDLE, es).cooldown
    ensures key in Run(IDLE, es).banned
  {
    hide Run;
    RunsAreDisciplined(es);
  }

  // ----- how far apart claims are -----

  /** The time of the last claim that has not been released. */
  function LastMark(marks: seq<Mark>, key: Key): Option<int> {
    if marks == [] then None
    else
      var m := marks[|marks| - 1];
      if m.key != key then LastMark(marks[..|marks| - 1], key)
      else if m.Claimed? then Some(m.at) else None
  }

  lemma MarkAdded(marks: seq<Mark>, m: Mark, key: Key)
    ensures LastMark(marks + [m], key) ==
            if m.key != key then LastMark(marks, key) else if m.Claimed? then Some(m.at) else None
  {
  }

  function Entry(s: State, key: Key): Option<int> {
    if key in s.cooldown then Some(s.cooldown[key]) else None
  }

  predicate Releases(m: Mark, key: Key) { m.Released? && m.key == key }

  /** Two claims of one address, and no release of it between them. */
  predicate Consecutive(marks: seq<Mark>, i: nat, j: nat)
    requires i < j < |marks|
  {
    && marks[i].Claimed? && marks[j].Claimed? && marks[i].key == marks[j].key
    && forall m :: i < m < j ==> !Releases(marks[m], marks[i].key)
  }

  /** Such claims are at least the second one's window apart. */
  ghost predicate Spaced(marks: seq<Mark>) {
    forall i, j :: 0 <= i < j < |marks| && Consecutive(marks, i, j) ==>
      marks[j].rearm.Some? && marks[j].at - marks[i].at >= marks[j].rearm.value
  }

  ghost predicate Before(marks: seq<Mark>, clock: int) {
    forall i :: 0 <= i < |marks| && marks[i].Claimed? ==> marks[i].at <= clock
  }

  ghost predicate InOrder(marks: seq<Mark>) {
    forall i, j :: 0 <= i < j < |marks| && marks[i].Claimed? && marks[j].Claimed? ==> marks[i].at <= marks[j].at
  }

  /** Calls are taken one at a time, by a clock that does not run backwards. Tasks run as they
      like. */
  ghost predicate OneAtATime(es: seq<Step>, clock: int) {
    if es == [] then true
    else
      var init, last := es[..|es| - 1], es[|es| - 1];
      if last.Load? then last.now <= clock && OneAtATime(init, last.now) && Run(IDLE, init).callers == map[]
      else OneAtATime(init, clock)
  }

  /** The history of marks and the cooldown entries say the same, and the claims are spaced. */
  ghost predicate Recorded(s: State) {
    && (forall key :: Entry(s, key) == LastMark(s.marks, key))
    && InOrder(s.marks) && Spaced(s.marks)
  }

  /** At most one caller, and if it is about to overwrite an entry it still may. */
  ghost predicate OneCaller(s: State, clock: int) {
    forall c :: c in s.callers ==>
      && s.callers.Keys == {c} && s.callers[c].now <= clock
      && (s.callers[c].stage.ToOverwrite? ==>
            Before(s.marks, s.callers[c].now) && !Stops(s, s.callers[c].key, s.callers[c].now, s.callers[c].rearm))
  }

  ghost predicate Serial(s: State, clock: int) { Recorded(s) && Before(s.marks, clock) && OneCaller(s, clock) }

  /** A claim since which nothing was released is no later than the last mark. */
  lemma {:induction false} MarkCovers(marks: seq<Mark>, i: nat)
    requires InOrder(marks) && i < |marks| && marks[i].Claimed?
    requires forall m :: i < m < |marks| ==> !Releases(marks[m], marks[i].key)
    ensures LastMark(marks, marks[i].key).Some? && LastMark(marks, marks[i].key).value >= marks[i].at
  {
    var init := marks[..|marks| - 1];
    if i < |marks| - 1 && marks[|marks| - 1].key != marks[i].key {
      assert forall m :: i < m < |init| ==> init[m] == marks[m];
      MarkCovers(init, i);
    }
  }

  lemma OldPair(marks: seq<Mark>, m: Mark, i: nat, j: nat)
    requires i < j < |marks| && Consecutive(marks + [m], i, j)
    ensures Consecutive(marks, i, j)
  {
    forall n | i < n < j ensures !Releases(marks[n], marks[i].key) {
      assert (marks + [m])[n] == marks[n];
    }
  }

  lemma ClaimSpaced(marks: seq<Mark>, m: Mark)
    requires Spaced(marks) && InOrder(marks) && m.Claimed?
    requires var last := LastMark(marks, m.key);
             last.Some? ==> m.rearm.Some? && m.at - last.value >= m.rearm.value
    ensures Spaced(marks + [m])
  {
    hide LastMark;
    var all := marks + [m];
    forall i, j | 0 <= i < j < |all| && Consecutive(all, i, j)
      ensures all[j].rearm.Some? && all[j].at - all[i].at >= all[j].rearm.value
    {
      if j < |marks| {
        OldPair(marks, m, i, j);
      } else {
        LastPair(marks, m, i);
        MarkCovers(marks, i);
      }
    }
  }

  lemma LastPair(marks: seq<Mark>, m: Mark, i: nat)
    requires i < |marks| && Consecutive(marks + [m], i, |marks|)
    ensures marks[i].Claimed? && m.key == marks[i].key
    ensures forall n :: i < n < |marks| ==> !Releases(marks[n], marks[i].key)
  {
    forall n | i < n < |marks| ensures !Releases(marks[n], marks[i].key) {
      assert (marks + [m])[n] == marks[n];
    }
  }

  lemma ReleaseSpaced(marks: seq<Mark>, m: Mark)
    requires Spaced(marks) && m.Released?
    ensures Spaced(marks + [m])
  {
    var all := marks + [m];
    forall i, j | 0 <= i < j < |all| && Consecutive(all, i, j)
      ensures all[j].rearm.Some? && all[j].at - all[i].at >= all[j].rearm.value
    {
      OldPair(marks, m, i, j);
    }
  }

  lemma ClaimRecorded(s: State, key: Key, now: int, rearm: Option<int>)
    requires Recorded(s) && Before(s.marks, now) && !Stops(s, key, now, rearm)
    ensures Recorded(Claim(s, key, now, rearm)) && Before(Claim(s, key, now, rearm).marks, now)
  {
    hide LastMark, Spaced;
    var m := Claimed(key, now, rearm);
    assert Entry(s, key) == LastMark(s.marks, key);
    ClaimSpaced(s.marks, m);
    forall x ensures Entry(Claim(s, key, now, rearm), x) == LastMark(s.marks + [m], x) {
      assert Entry(s, x) == LastMark(s.marks, x);
      MarkAdded(s.marks, m, x);
    }
  }

  lemma ReleaseRecorded(s: State, key: Key, clock: int)
    requires Recorded(s) && Before(s.marks, clock)
    ensures Recorded(Release(s, key)) && Before(Release(s, key).marks, clock)
  {
    hide LastMark, Spaced;
    var m := Released(key);
    ReleaseSpaced(s.marks, m);
    forall x ensures Entry(Release(s, key), x) == LastMark(s.marks + [m], x) {
      assert Entry(s, x) == LastMark(s.marks, x);
      MarkAdded(s.marks, m, x);
    }
  }

  lemma SameRecorded(s: State, after: State)
    requires Recorded(s) && after.cooldown == s.cooldown && after.marks == s.marks
    ensures Recorded(after)
  {
  }

  lemma TaskSerial(s: State, clock: int, t: nat, ok: bool)
    requires Serial(s, clock) && t in s.tasks
    ensures Serial(TaskStep(s, t, ok), clock)
  {
    hide Recorded, Later;
    var task, after := s.tasks[t], TaskStep(s, t, ok);
    var mid := s.(tasks := after.tasks, slots := after.slots, banned := after.banned);
    SameRecorded(s, mid);
    if task.stage.GivingUp? {
      ReleaseRecorded(mid, task.key, clock);
    }
  }

  lemma CallerSerial(s: State, clock: int, e: Step)
    requires Serial(s, clock) && !e.Load? && !e.Progress? && e.c in s.callers
    ensures Serial(CallerStep(s, e), clock)
  {
    hide Recorded;
    var c, after := s.callers[e.c], CallerStep(s, e);
    var mid := s.(callers := after.callers, tasks := after.tasks, slots := after.slots);
    SameRecorded(s, mid);
    if e.Overwrite? && c.stage.ToOverwrite? {
      ClaimRecorded(mid, c.key, c.now, c.rearm);
    } else if e.Drop? && c.stage.ToDrop? {
      ReleaseRecorded(mid, c.key, clock);
    }
  }

  lemma LoadSerial(s: State, clock: int, c: nat, key: Key, now: int, rearm: Option<int>)
    requires Serial(s, clock) && clock <= now && s.callers == map[]
    ensures Serial(LoadStep(s, c, key, now, rearm), now)
  {
    hide Recorded;
    var after := LoadStep(s, c, key, now, rearm);
    var mid := s.(callers := after.callers);
    SameRecorded(s, mid);
    if key !in s.cooldown {
      ClaimRecorded(mid, key, now, rearm);
    }
  }

  lemma LaterClock(s: State, clock: int, now: int)
    requires Serial(s, clock) && clock <= now
    ensures Serial(s, now)
  {
  }

  lemma {:induction false} SerialRuns(es: seq<Step>, clock: int)
    requires OneAtATime(es, clock)
    ensures Serial(Run(IDLE, es), clock)
  {
    hide Serial, TaskStep, CallerStep, LoadStep;
    if es == [] {
      IdleSerial(clock);
    } else {
      var s, e := Run(IDLE, es[..|es| - 1]), es[|es| - 1];
      SerialRuns(es[..|es| - 1], if e.Load? then e.now else clock);
      match e
      case Load(c, key, now, rearm) => LoadSerial(s, now, c, key, now, rearm); LaterClock(Next(s, e), now, clock);
      case Progress(t, ok) => if t in s.tasks { TaskSerial(s, clock, t, ok); }
      case _ => if e.c in s.callers { CallerSerial(s, clock, e); }
    }
  }

  lemma IdleSerial(clock: int)
    ensures Serial(IDLE, clock)
  {
  }

  /** With calls taken one at a time, two claims of one address between which it was not released
      are at least the window apart, whatever the running checks do meanwhile. A launch belongs to
      the claim its caller made: two launches are that far apart unless the address was released
      between their claims. */
  lemma ClaimsAreSpaced(es: seq<Step>, clock: int)
    requires OneAtATime(es, clock)
    ensures Spaced(Run(IDLE, es).marks)
  {
    hide Run, Spaced;
    SerialRuns(es, clock);
  }

  // ----- any number of calls at once -----

  /** Two claims of one address in a row: nothing is said about it between them. */
  predicate Neighbours(marks: seq<Mark>, i: nat, j: nat)
    requires i < j < |marks|
  {
    && marks[i].Claimed? && marks[j].Claimed? && marks[i].key == marks[j].key
    && forall m :: i < m < j ==> marks[m].key != marks[i].key
  }

  ghost predicate NeighboursSpaced(marks: seq<Mark>) {
    forall i, j :: 0 <= i < j < |marks| && Neighbours(marks, i, j) ==>
      marks[j].rearm.Some? && marks[j].at - marks[i].at >= marks[j].rearm.value
  }

  predicate Ordinary(rearm: Option<int>) { rearm.Some? ==> rearm.value >= 0 }

  ghost predicate OrdinaryMarks(marks: seq<Mark>) {
    forall i :: 0 <= i < |marks| && marks[i].Claimed? ==> Ordinary(marks[i].rearm)
  }

  /** No call asks for a negative window. */
  ghost predicate OrdinaryWindows(es: seq<Step>) {
    forall n :: 0 <= n < |es| && es[n].Load? ==> Ordinary(es[n].rearm)
  }

  /** With such windows claims in a row say it all: what each adds up to a longer stretch. */
  lemma {:induction false} Stretch(marks: seq<Mark>, i: nat, j: nat)
    requires OrdinaryMarks(marks) && NeighboursSpaced(marks) && i < j < |marks| && Consecutive(marks, i, j)
    ensures marks[j].rearm.Some? && marks[j].at - marks[i].at >= marks[j].rearm.value
    decreases j - i
  {
    if n :| i < n < j && marks[n].key == marks[i].key {
      assert !Releases(marks[n], marks[i].key);
      Stretch(marks, i, n);
      Stretch(marks, n, j);
    } else {
      assert Neighbours(marks, i, j);
    }
  }

  lemma NeighboursSuffice(marks: seq<Mark>)
    requires OrdinaryMarks(marks)
    ensures Spaced(marks) <==> NeighboursSpaced(marks)
  {
    if NeighboursSpaced(marks) {
      forall i, j | 0 <= i < j < |marks| && Consecutive(marks, i, j)
        ensures marks[j].rearm.Some? && marks[j].at - marks[i].at >= marks[j].rearm.value
      {
        Stretch(marks, i, j);
      }
    }
    if Spaced(marks) {
      forall i, j | 0 <= i < j < |marks| && Neighbours(marks, i, j) ensures Consecutive(marks, i, j) {
      }
    }
  }

  /** The claim that the last mark speaks of. */
  lemma {:induction false} LastMarkIs(marks: seq<Mark>, key: Key) returns (i: nat)
    requires LastMark(marks, key).Some?
    ensures i < |marks| && marks[i].Claimed? && marks[i].key == key && Some(marks[i].at) == LastMark(marks, key)
    ensures forall n :: i < n < |marks| ==> marks[n].key != key
  {
    var init := marks[..|marks| - 1];
    if marks[|marks| - 1].key == key {
      i := |marks| - 1;
    } else {
      i := LastMarkIs(init, key);
      assert forall n :: i < n < |init| ==> init[n] == marks[n];
    }
  }

  /** The last mark speaks of a claim since which nothing is said about its address. */
  lemma {:induction false} LastClaim(marks: seq<Mark>, i: nat)
    requires i < |marks| && marks[i].Claimed?
    requires forall n :: i < n < |marks| ==> marks[n].key != marks[i].key
    ensures LastMark(marks, marks[i].key) == Some(marks[i].at)
  {
    var init := marks[..|marks| - 1];
    if i < |init| {
      assert forall n :: i < n < |init| ==> init[n] == marks[n];
      LastClaim(init, i);
    }
  }

  /** What one more mark does to the spacing: a claim must keep its distance from the last mark. */
  lemma NeighboursGrow(marks: seq<Mark>, m: Mark)
    ensures NeighboursSpaced(marks + [m]) <==>
            NeighboursSpaced(marks) &&
            (m.Claimed? && LastMark(marks, m.key).Some? ==>
               m.rearm.Some? && m.at - LastMark(marks, m.key).value >= m.rearm.value)
  {
    hide LastMark;
    var all := marks + [m];
    forall i, j | 0 <= i < j < |marks| ensures Neighbours(all, i, j) <==> Neighbours(marks, i, j) {
      assert forall n :: i <= n <= j ==> all[n] == marks[n];
    }
    if m.Claimed? && LastMark(marks, m.key).Some? {
      var i := LastMarkIs(marks, m.key);
      assert forall n :: i <= n < |marks| ==> all[n] == marks[n];
      assert Neighbours(all, i, |marks|);
    }
    forall i | 0 <= i < |marks| && Neighbours(all, i, |marks|)
      ensures m.Claimed? && LastMark(marks, m.key) == Some(marks[i].at)
    {
      assert forall n :: i <= n < |marks| ==> all[n] == marks[n];
      LastClaim(marks, i);
    }
    if NeighboursSpaced(all) {
      forall i, j | 0 <= i < j < |marks| && Neighbours(marks, i, j)
        ensures marks[j].rearm.Some? && marks[j].at - marks[i].at >= marks[j].rearm.value
      {
        assert Neighbours(all, i, j);
      }
    }
  }

  /** The step overwrites an entry that would by now stop its caller. */
  predicate OutOfDate(s: State, e: Step) {
    e.Overwrite? && e.c in s.callers && s.callers[e.c].stage.ToOverwrite? &&
    Stops(s, s.callers[e.c].key, s.callers[e.c].now, s.callers[e.c].rearm)
  }

  ghost predicate NeverOutOfDate(es: seq<Step>) {
    forall n :: 0 <= n < |es| ==> !OutOfDate(Run(IDLE, es[..n]), es[n])
  }

  lemma OutOfDateNone(es: seq<Step>)
    requires es == []
    ensures NeverOutOfDate(es)
  {
  }

  lemma OutOfDateGrows(es: seq<Step>)
    requires es != []
    ensures var init, k := es[..|es| - 1], |es| - 1;
            NeverOutOfDate(es) <==> NeverOutOfDate(init) && !OutOfDate(Run(IDLE, init), es[k])
  {
    hide OutOfDate, Run;
    var init, k := es[..|es| - 1], |es| - 1;
    assert es[..k] == init;
    assert forall n :: 0 <= n < k ==> es[..n] == init[..n] && es[n] == init[n];
  }

  ghost predicate Matched(s: State) { forall key :: Entry(s, key) == LastMark(s.marks, key) }

  lemma IdleRecorded()
    ensures NeighboursSpaced(IDLE.marks) && Matched(IDLE) && OrdinaryState(IDLE)
  {
  }

  /** In every run the entries say what the marks say. */
  lemma {:induction false} RunsMatch(es: seq<Step>)
    ensures Matched(Run(IDLE, es))
  {
    hide Matched, Next;
    if es == [] {
      IdleRecorded();
    } else {
      RunsMatch(es[..|es| - 1]);
      StepMatches(Run(IDLE, es[..|es| - 1]), es[|es| - 1]);
    }
  }

  /** A step adds at most one mark, and changes just the entry that the mark is about. */
  lemma StepMarks(s: State, e: Step)
    ensures var t := Next(s, e);
            if t.marks == s.marks then t.cooldown == s.cooldown
            else
              && |t.marks| == |s.marks| + 1 && t.marks[..|s.marks|] == s.marks
              && var m := t.marks[|s.marks|];
                 t.cooldown == if m.Claimed? then s.cooldown[m.key := m.at] else s.cooldown - {m.key}
  {
    hide Later, Stops;
  }

  lemma StepMatches(s: State, e: Step)
    requires Matched(s)
    ensures Matched(Next(s, e))
  {
    hide LastMark, Next;
    StepMarks(s, e);
    var t := Next(s, e);
    forall x ensures Entry(t, x) == LastMark(t.marks, x) {
      assert Entry(s, x) == LastMark(s.marks, x);
      if t.marks != s.marks {
        MarkAdded(s.marks, t.marks[|s.marks|], x);
        assert t.marks == s.marks + [t.marks[|s.marks|]];
      }
    }
  }

  lemma StepNeighbours(s: State, e: Step)
    requires Matched(s)
    ensures NeighboursSpaced(Next(s, e).marks) <==> NeighboursSpaced(s.marks) && !OutOfDate(s, e)
  {
    hide LastMark, NeighboursSpaced, Later;
    var t := Next(s, e);
    if t.marks != s.marks {
      var m := t.marks[|s.marks|];
      assert t.marks == s.marks + [m];
      assert Entry(s, m.key) == LastMark(s.marks, m.key);
      NeighboursGrow(s.marks, m);
    }
  }

  /** A window that is asked for is not negative, so none that a caller holds or has claimed with is. */
  ghost predicate OrdinaryState(s: State) {
    OrdinaryMarks(s.marks) && forall c :: c in s.callers ==> Ordinary(s.callers[c].rearm)
  }

  lemma StepOrdinary(s: State, e: Step)
    requires OrdinaryState(s) && (e.Load? ==> Ordinary(e.rearm))
    ensures OrdinaryState(Next(s, e))
  {
    hide Later, Stops;
  }

  lemma {:induction false} RunsOrdinary(es: seq<Step>)
    requires OrdinaryWindows(es)
    ensures OrdinaryState(Run(IDLE, es))
  {
    hide OrdinaryState, Next;
    if es == [] {
      IdleRecorded();
    } else {
      RunsOrdinary(es[..|es| - 1]);
      StepOrdinary(Run(IDLE, es[..|es| - 1]), es[|es| - 1]);
    }
  }

  /** In every run, with any number of calls at once and whatever their clocks say: claims in a row are
      a window apart exactly when no overwrite is out of date. With windows that are not negative that
      is so of any two claims between which the address was not released. */
  lemma SpacedExactly(es: seq<Step>)
    ensures NeighboursSpaced(Run(IDLE, es).marks) <==> NeverOutOfDate(es)
    ensures OrdinaryWindows(es) ==> (Spaced(Run(IDLE, es).marks) <==> NeverOutOfDate(es))
  {
    hide Run, Spaced, NeighboursSpaced, NeverOutOfDate, OrdinaryMarks, OrdinaryWindows;
    RunsNeighbours(es);
    if OrdinaryWindows(es) {
      RunsOrdinary(es);
      NeighboursSuffice(Run(IDLE, es).marks);
    }
  }

  lemma {:induction false} RunsNeighbours(es: seq<Step>)
    ensures NeighboursSpaced(Run(IDLE, es).marks) <==> NeverOutOfDate(es)
  {
    hide NeighboursSpaced, OutOfDate, Next, Matched, NeverOutOfDate;
    if es == [] {
      IdleRecorded();
      OutOfDateNone(es);
    } else {
      var init := es[..|es| - 1];
      OutOfDateGrows(es);
      RunsNeighbours(init);
      RunsMatch(init);
      StepNeighbours(Run(IDLE, init), es[|es| - 1]);
    }
  }

  /** Exactly when a claim breaks the spacing: an overwrite by a caller whose look at the entry is out
      of date, because the address has been claimed again since and that claim is not yet old enough.
      LoadOrStore is atomic, the overwrite after it is not checked again. */
  lemma OverwriteIsSpaced(es: seq<Step>, c: nat)
    requires var s := Run(IDLE, es); c in s.callers && s.callers[c].stage.ToOverwrite?
    ensures var s := Run(IDLE, es);
            var w, t := s.callers[c], Next(s, Overwrite(c));
            && (NeighboursSpaced(t.marks) <==> NeighboursSpaced(s.marks) && !Stops(s, w.key, w.now, w.rearm))
            && (OrdinaryWindows(es) ==> (Spaced(t.marks) <==> Spaced(s.marks) && !Stops(s, w.key, w.now, w.rearm)))
  {
    hide Next, Spaced, NeighboursSpaced, NeverOutOfDate, OrdinaryWindows;
    var more := es + [Overwrite(c)];
    assert more[..|es|] == es;
    if OrdinaryWindows(es) {
      StillOrdinary(es, c);
    }
    OutOfDateGrows(more);
    SpacedExactly(es);
    SpacedExactly(more);
  }

  lemma StillOrdinary(es: seq<Step>, c: nat)
    requires OrdinaryWindows(es)
    ensures OrdinaryWindows(es + [Overwrite(c)])
  {
  }

  /** Two callers that both find a stale entry both claim it, in whatever order they come to overwrite
      it and with no release between: LoadOrStore decides only who is first when there is no entry.
      The claims are spaced only if the second caller's clock is a window ahead of the first's. */
  lemma OverlappingCallsBothClaim(s: State, key: Key, first: int, second: int, window: int)
    requires s.callers == map[] && key in s.cooldown
    requires first - s.cooldown[key] >= window && second - s.cooldown[key] >= window
    ensures var r := Some(window);
            var t := Next(Next(Next(Next(s, Load(1, key, second, r)), Load(0, key, first, r)), Overwrite(0)), Overwrite(1));
            && t.marks == s.marks + [Claimed(key, first, r), Claimed(key, second, r)]
            && (second - first < window ==> !Spaced(t.marks) && !NeighboursSpaced(t.marks))
  {
    var r := Some(window);
    var t := Next(Next(Next(Next(s, Load(1, key, second, r)), Load(0, key, first, r)), Overwrite(0)), Overwrite(1));
    assert t.marks == s.marks + [Claimed(key, first, r), Claimed(key, second, r)];
    assert Consecutive(t.marks, |s.marks|, |s.marks| + 1);
    assert Neighbours(t.marks, |s.marks|, |s.marks| + 1);
  }

  // ----- calls and tasks that run uninterrupted -----

  /** What one AutoBanEvent or ThreatBanEvent call does: nothing while the entry stops it; else it
      claims the address, and launches a task or, with the semaphore full, releases it again. */
  function Launch(s: State, key: Key, now: int, rearm: Option<int>, t: nat): State {
    if Stops(s, key, now, rearm) then s
    else
      var s' := Claim(s, key, now, rearm);
      if s.slots < SLOTS then s'.(slots := s.slots + 1, tasks := s.tasks[t := Task(key, FirstStage(key.kind))])
      else Release(s', key)
  }

  /** How a task ends: its slot is freed, and its address stays claimed only if it was blocked. */
  function Finish(s: State, t: nat, blocked: bool): State
    requires t in s.tasks
  {
    var s' := Gone(s, t);
    if blocked then s'.(banned := s.banned + {s.tasks[t].key}) else Release(s', s.tasks[t].key)
  }

  function CallTrace(s: State, c: nat, key: Key, now: int, rearm: Option<int>, t: nat): seq<Step> {
    [Load(c, key, now, rearm)] +
    (if Stops(s, key, now, rearm) then []
     else (if key in s.cooldown then [Overwrite(c)] else []) + [Acquire(c, t)] +
          (if s.slots < SLOTS then [] else [Drop(c)]))
  }

  /** What the outside world tells a task: whether the count reaches the threshold, the row was
      stored, the firewall took the address. */
  datatype Answers = Answers(enough: bool, stored: bool, blocked: bool) {
    function At(stage: TaskStage): bool {
      match stage
      case Counting => enough
      case Storing => stored
      case Blocking => blocked
      case _ => true
    }

    /** The address ends up blocked by a task that stands at the stage. */
    predicate Block(stage: TaskStage) {
      match stage
      case Counting => enough && stored && blocked
      case Storing => stored && blocked
      case Blocking => blocked
      case _ => false
    }
  }

  function Left(stage: TaskStage): nat {
    match stage
    case Counting => 6
    case Storing => 5
    case Blocking => 4
    case Undoing => 3
    case GivingUp => 2
    case Reporting => 2
    case Leaving => 1
  }

  /** A task's steps to its end, from wherever it stands. */
  function TaskTrace(t: nat, stage: TaskStage, a: Answers): seq<Step>
    decreases Left(stage)
  {
    [Progress(t, a.At(stage))] + if stage.Leaving? then [] else TaskTrace(t, Later(stage, a.At(stage)), a)
  }

  lemma {:induction false} RunAppend(s: State, es: seq<Step>, fs: seq<Step>)
    ensures Run(s, es + fs) == Run(Run(s, es), fs)
  {
    hide Next;
    if fs == [] {
      assert es + fs == es;
    } else {
      RunAppend(s, es, fs[..|fs| - 1]);
      assert (es + fs)[..|es + fs| - 1] == es + fs[..|fs| - 1];
    }
  }

  lemma RunCons(s: State, e: Step, es: seq<Step>)
    ensures Run(s, [e] + es) == Run(Next(s, e), es)
  {
    hide Next;
    RunAppend(s, [e], es);
    assert [e][..0] == [];
    assert Run(s, []) == s;
  }

  lemma RunOne(s: State, e: Step)
    ensures Run(s, [e]) == Next(s, e)
  {
  }

  lemma RunNone(s: State)
    ensures Run(s, []) == s
  {
  }

  lemma LaunchRuns(s: State, c: nat, key: Key, now: int, rearm: Option<int>, t: nat)
    requires c !in s.callers && t !in s.tasks
    ensures Run(s, CallTrace(s, c, key, now, rearm, t)) == Launch(s, key, now, rearm, t)
  {
    hide Run, LoadStep, CallerStep, TaskStep, Claim, Release;
    var load, tail := Load(c, key, now, rearm), CallTrace(s, c, key, now, rearm, t)[1..];
    assert CallTrace(s, c, key, now, rearm, t) == [load] + tail;
    RunCons(s, load, tail);
    if Stops(s, key, now, rearm) {
      RunNone(s);
      StoppedCall(s, c, key, now, rearm);
    } else {
      var last := if s.slots < SLOTS then [] else [Drop(c)];
      var claimed := Claim(s.(callers := s.callers[c := Caller(key, now, rearm, ToAcquire)]), key, now, rearm);
      ClaimingCall(s, c, key, now, rearm);
      if key in s.cooldown {
        assert tail == [Overwrite(c)] + ([Acquire(c, t)] + last);
        RunCons(Next(s, load), Overwrite(c), [Acquire(c, t)] + last);
      } else {
        assert tail == [Acquire(c, t)] + last;
      }
      CallerGone(s, c, key, now, rearm);
      AcquireRuns(claimed, c, t, last);
    }
  }

  lemma StoppedCall(s: State, c: nat, key: Key, now: int, rearm: Option<int>)
    requires c !in s.callers && Stops(s, key, now, rearm)
    ensures Next(s, Load(c, key, now, rearm)) == s
  {
  }

  /** One or two steps take a caller that is not stopped to its claim. */
  lemma ClaimingCall(s: State, c: nat, key: Key, now: int, rearm: Option<int>)
    requires c !in s.callers && !Stops(s, key, now, rearm)
    ensures var loaded := Next(s, Load(c, key, now, rearm));
            Claim(s.(callers := s.callers[c := Caller(key, now, rearm, ToAcquire)]), key, now, rearm) ==
            if key in s.cooldown then Next(loaded, Overwrite(c)) else loaded
  {
    var caller := Caller(key, now, rearm, ToOverwrite);
    assert s.callers[c := caller][c := caller.(stage := ToAcquire)] == s.callers[c := caller.(stage := ToAcquire)];
  }

  lemma CallerGone(s: State, c: nat, key: Key, now: int, rearm: Option<int>)
    requires c !in s.callers
    ensures var claimed := Claim(s.(callers := s.callers[c := Caller(key, now, rearm, ToAcquire)]), key, now, rearm);
            && claimed.(callers := claimed.callers - {c}) == Claim(s, key, now, rearm)
            && claimed.slots == s.slots && claimed.tasks == s.tasks && c in claimed.callers
            && claimed.callers[c] == Caller(key, now, rearm, ToAcquire)
  {
    assert s.callers[c := Caller(key, now, rearm, ToAcquire)] - {c} == s.callers;
  }

  lemma AcquireRuns(s: State, c: nat, t: nat, last: seq<Step>)
    requires c in s.callers && s.callers[c].stage.ToAcquire? && t !in s.tasks
    requires last == if s.slots < SLOTS then [] else [Drop(c)]
    ensures var key := s.callers[c].key;
            Run(s, [Acquire(c, t)] + last) ==
            var s' := s.(callers := s.callers - {c});
            if s.slots < SLOTS then s'.(slots := s.slots + 1, tasks := s.tasks[t := Task(key, FirstStage(key.kind))])
            else Release(s', key)
  {
    hide Run;
    var s1 := Next(s, Acquire(c, t));
    RunCons(s, Acquire(c, t), last);
    if s.slots < SLOTS {
      RunNone(s1);
    } else {
      RunOne(s1, Drop(c));
      assert s1.callers - {c} == s.callers - {c};
    }
  }

  /** A task that runs to its end from any stage at which it still works. */
  lemma {:induction false} TaskRuns(s: State, t: nat, a: Answers)
    requires t in s.tasks && Working(s.tasks[t].stage)
    ensures Run(s, TaskTrace(t, s.tasks[t].stage, a)) == Finish(s, t, a.Block(s.tasks[t].stage))
    decreases Left(s.tasks[t].stage)
  {
    hide Run, Finish, TaskTrace, Answers.Block, TaskStep;
    var stage := s.tasks[t].stage;
    var ok := a.At(stage);
    var s1 := Next(s, Progress(t, ok));
    var next := Later(stage, ok);
    TraceSplits(t, stage, a);
    RunCons(s, Progress(t, ok), TaskTrace(t, next, a));
    StepFinishes(s, t, a);
    if Working(next) {
      TaskRuns(s1, t, a);
    } else {
      LastStepsRun(s1, t, a);
    }
  }

  lemma TraceSplits(t: nat, stage: TaskStage, a: Answers)
    requires !stage.Leaving?
    ensures TaskTrace(t, stage, a) == [Progress(t, a.At(stage))] + TaskTrace(t, Later(stage, a.At(stage)), a)
    ensures Left(Later(stage, a.At(stage))) < Left(stage)
  {
  }

  lemma StepFinishes(s: State, t: nat, a: Answers)
    requires t in s.tasks && Working(s.tasks[t].stage)
    ensures var stage := s.tasks[t].stage;
            var s1 := TaskStep(s, t, a.At(stage));
            && t in s1.tasks && s1.tasks[t].stage == Later(stage, a.At(stage))
            && (if Working(s1.tasks[t].stage) then Finish(s1, t, a.Block(s1.tasks[t].stage)) else Gone(s1, t)) ==
               Finish(s, t, a.Block(stage))
  {
    var stage := s.tasks[t].stage;
    var s1 := TaskStep(s, t, a.At(stage));
    assert s1.tasks - {t} == s.tasks - {t};
  }

  lemma LastStepsRun(s: State, t: nat, a: Answers)
    requires t in s.tasks && !Working(s.tasks[t].stage)
    ensures Run(s, TaskTrace(t, s.tasks[t].stage, a)) == Gone(s, t)
  {
    hide Run;
    var e := Progress(t, true);
    if s.tasks[t].stage.Leaving? {
      assert TaskTrace(t, Leaving, a) == [e];
      RunOne(s, e);
    } else {
      assert TaskTrace(t, Reporting, a) == [e] + [e];
      RunCons(s, e, [e]);
      RunOne(Next(s, e), e);
      assert Next(s, e).tasks - {t} == s.tasks - {t};
    }
  }
}
