/** The event-stream hub (internal/api/hub.go): one loop that owns the set of clients, and any
    number of subscribers, unsubscribers and publishers that reach it through channels. */
module Hub {
  import opened Numbers

  type Msg = seq<int>

  const SUB_CAP := 16
  const UNSUB_CAP := 16
  const PUB_CAP := 256
  const CLIENT_CAP := 32

  /** A client's channel: what is buffered in it, whether it is closed, and its history: all
      that was put in and taken out, how many messages were skipped because the buffer was
      full, and the stretch of processed messages during which it was registered. */
  datatype Chan = Chan(queue: seq<Msg>, closed: bool,
                       sent: seq<Msg>, received: seq<Msg>, skipped: nat,
                       from: Option<nat>, until: Option<nat>)

  const NEW_CHAN := Chan([], false, [], [], 0, None, None)

  /** panicked: a close of a closed channel, or a send on one, has happened. */
  datatype State = State(chans: map<nat, Chan>, clients: set<nat>,
                         subQ: seq<nat>, unsubQ: seq<nat>, pubQ: seq<Msg>,
                         quit: bool, running: bool, count: int,
                         processed: seq<Msg>, panicked: bool)

  const INITIAL := State(map[], {}, [], [], [], false, true, 0, [], false)

  // ----- what the loop does with each event -----

  /** A non-blocking send: skipped when the buffer is full. */
  function Offer(c: Chan, m: Msg): Chan {
    if |c.queue| < CLIENT_CAP then c.(queue := c.queue + [m], sent := c.sent + [m])
    else c.(skipped := c.skipped + 1)
  }

  function Closed(c: Chan, now: nat): Chan { c.(closed := true, until := Some(now)) }

  predicate AnyClosed(chans: map<nat, Chan>, cs: set<nat>) {
    exists c :: c in cs && c in chans && chans[c].closed
  }

  function ServeSub(s: State): State
    requires s.subQ != [] && s.subQ[0] in s.chans
  {
    var c := s.subQ[0];
    var clients := s.clients + {c};
    s.(subQ := s.subQ[1..], clients := clients, count := |clients|,
       chans := s.chans[c := s.chans[c].(from := Some(|s.processed|))])
  }

  function ServeUnsub(s: State): State
    requires s.unsubQ != [] && s.clients <= s.chans.Keys
  {
    var c := s.unsubQ[0];
    if c in s.clients then
      s.(unsubQ := s.unsubQ[1..], clients := s.clients - {c}, count := |s.clients - {c}|,
         chans := s.chans[c := Closed(s.chans[c], |s.processed|)],
         panicked := s.panicked || s.chans[c].closed)
    else s.(unsubQ := s.unsubQ[1..], count := |s.clients|)
  }

  function OfferAll(chans: map<nat, Chan>, cs: set<nat>, m: Msg): map<nat, Chan> {
    map c | c in chans :: if c in cs then Offer(chans[c], m) else chans[c]
  }

  function ServePub(s: State): State
    requires s.pubQ != []
  {
    s.(pubQ := s.pubQ[1..], processed := s.processed + [s.pubQ[0]],
       chans := OfferAll(s.chans, s.clients, s.pubQ[0]),
       panicked := s.panicked || AnyClosed(s.chans, s.clients))
  }

  function CloseAll(chans: map<nat, Chan>, cs: set<nat>, now: nat): map<nat, Chan> {
    map c | c in chans :: if c in cs then Closed(chans[c], now) else chans[c]
  }

  function ServeQuit(s: State): State {
    s.(chans := CloseAll(s.chans, s.clients, |s.processed|), clients := {}, count := 0, running := false,
       panicked := s.panicked || AnyClosed(s.chans, s.clients))
  }

  /** The loop's side of the hub, updating its state in place. */
  class Loop {
    var chans: map<nat, Chan>
    var clients: set<nat>
    var subQ: seq<nat>
    var unsubQ: seq<nat>
    var pubQ: seq<Msg>
    var quit: bool
    var running: bool
    var count: int
    var processed: seq<Msg>
    var panicked: bool

    constructor ()
      ensures Now() == INITIAL
    {
      chans, clients, subQ, unsubQ, pubQ := map[], {}, [], [], [];
      quit, running, count, processed, panicked := false, true, 0, [], false;
    }

    function Now(): State
      reads this
    {
      State(chans, clients, subQ, unsubQ, pubQ, quit, running, count, processed, panicked)
    }

    method CloseChan(c: nat)
      requires c in chans
      modifies this
      ensures Now() == old(Now()).(chans := old(chans)[c := Closed(old(chans)[c], |processed|)],
                                   panicked := old(panicked) || old(chans)[c].closed)
    {
      if chans[c].closed {
        panicked := true;
      }
      chans := chans[c := Closed(chans[c], |processed|)];
    }

    method OnSub()
      requires subQ != [] && subQ[0] in chans
      modifies this
      ensures Now() == ServeSub(old(Now()))
      ensures clients == old(clients) + {old(subQ)[0]} && subQ == old(subQ)[1..] && count == |clients|
    {
      var c := subQ[0];
      subQ := subQ[1..];
      clients := clients + {c};
      chans := chans[c := chans[c].(from := Some(|processed|))];
      count := |clients|;
    }

    method OnUnsub()
      requires unsubQ != [] && clients <= chans.Keys
      modifies this
      ensures Now() == ServeUnsub(old(Now()))
      ensures clients == old(clients) - {old(unsubQ)[0]} && unsubQ == old(unsubQ)[1..] && count == |clients|
      ensures old(unsubQ)[0] in old(clients) ==> chans[old(unsubQ)[0]].closed
    {
      var c := unsubQ[0];
      unsubQ := unsubQ[1..];
      if c in clients {
        clients := clients - {c};
        CloseChan(c);
      }
      count := |clients|;
    }

    /** The loop over the clients. */
    method OfferEach(msg: Msg)
      requires clients <= chans.Keys
      modifies `chans, `panicked
      ensures chans == OfferAll(old(chans), clients, msg)
      ensures panicked == (old(panicked) || AnyClosed(old(chans), clients))
    {
      hide Offer, AnyClosed, OfferAll;
      OfferNone(chans, msg);
      NoneClosed(chans);
      var todo := clients;
      assert clients - todo == {};
      while todo != {}
        invariant todo <= clients
        invariant chans == OfferAll(old(chans), clients - todo, msg)
        invariant panicked == (old(panicked) || AnyClosed(old(chans), clients - todo))
      {
        var c :| c in todo;
        PubTurn(old(chans), clients, todo, c, msg);
        if chans[c].closed {
          panicked := true;
        }
        chans := chans[c := Offer(chans[c], msg)];
        todo := todo - {c};
      }
      assert clients - {} == clients;
    }

    method OnPub()
      requires pubQ != [] && clients <= chans.Keys
      modifies this
      ensures Now() == ServePub(old(Now()))
      ensures pubQ == old(pubQ)[1..] && clients == old(clients) && chans.Keys == old(chans).Keys
      ensures forall c :: c in chans ==>
                chans[c].queue == if c in clients && |old(chans)[c].queue| < 32 then old(chans)[c].queue + [old(pubQ)[0]]
                                  else old(chans)[c].queue
    {
      hide AnyClosed;
      var msg := pubQ[0];
      pubQ := pubQ[1..];
      processed := processed + [msg];
      OfferEach(msg);
    }

    method OnQuit()
      requires clients <= chans.Keys
      modifies this
      ensures Now() == ServeQuit(old(Now()))
      ensures clients == {} && count == 0 && !running && chans.Keys == old(chans).Keys
      ensures forall c :: c in chans ==>
                chans[c].queue == old(chans)[c].queue && chans[c].closed == (c in old(clients) || old(chans)[c].closed)
    {
      hide AnyClosed, CloseAll, Closed;
      CloseAllIs(chans, clients, |processed|);
      NothingClosed(chans, |processed|);
      NoneClosed(chans);
      var todo := clients;
      assert clients - todo == {};
      while todo != {}
        invariant todo <= clients
        invariant chans == CloseAll(old(chans), clients - todo, |processed|)
        invariant panicked == (old(panicked) || AnyClosed(old(chans), clients - todo))
        invariant Now() == old(Now()).(chans := chans, panicked := panicked)
      {
        var c :| c in todo;
        QuitTurn(old(chans), clients, todo, c, |processed|);
        CloseChan(c);
        todo := todo - {c};
      }
      assert clients - {} == clients;
      clients, count, running := {}, 0, false;
    }
  }

  lemma AnyClosedInsert(chans: map<nat, Chan>, cs: set<nat>, c: nat)
    requires c in chans
    ensures AnyClosed(chans, cs + {c}) <==> AnyClosed(chans, cs) || chans[c].closed
  {
  }

  lemma NoneClosed(chans: map<nat, Chan>)
    ensures !AnyClosed(chans, {})
  {
  }

  lemma NothingClosed(chans: map<nat, Chan>, now: nat)
    ensures CloseAll(chans, {}, now) == chans
  {
  }

  lemma OfferNone(chans: map<nat, Chan>, m: Msg)
    ensures OfferAll(chans, {}, m) == chans
  {
  }

  lemma OfferInsert(chans: map<nat, Chan>, cs: set<nat>, c: nat, m: Msg)
    requires c in chans && c !in cs
    ensures c in OfferAll(chans, cs, m) && OfferAll(chans, cs, m)[c] == chans[c]
    ensures OfferAll(chans, cs, m).Keys == chans.Keys
    ensures OfferAll(chans, cs + {c}, m) == OfferAll(chans, cs, m)[c := Offer(chans[c], m)]
  {
  }

  lemma CloseInsert(chans: map<nat, Chan>, cs: set<nat>, c: nat, now: nat)
    requires c in chans && c !in cs
    ensures CloseAll(chans, cs, now)[c] == chans[c]
    ensures CloseAll(chans, cs + {c}, now) == CloseAll(chans, cs, now)[c := Closed(chans[c], now)]
  {
  }

  /** One turn of the loop over the clients, for a message. */
  lemma PubTurn(chans: map<nat, Chan>, clients: set<nat>, todo: set<nat>, c: nat, m: Msg)
    requires c in todo && todo <= clients <= chans.Keys
    ensures var now, rest := OfferAll(chans, clients - todo, m), clients - (todo - {c});
            && c in now && now[c] == chans[c]
            && OfferAll(chans, rest, m) == now[c := Offer(now[c], m)]
            && (AnyClosed(chans, rest) <==> AnyClosed(chans, clients - todo) || now[c].closed)
  {
    hide Offer, AnyClosed, OfferAll;
    assert clients - (todo - {c}) == (clients - todo) + {c};
    AnyClosedInsert(chans, clients - todo, c);
    OfferInsert(chans, clients - todo, c, m);
  }

  /** And one for the end. */
  lemma QuitTurn(chans: map<nat, Chan>, clients: set<nat>, todo: set<nat>, c: nat, at: nat)
    requires c in todo && todo <= clients <= chans.Keys
    ensures var now, rest := CloseAll(chans, clients - todo, at), clients - (todo - {c});
            && c in now && now[c] == chans[c]
            && CloseAll(chans, rest, at) == now[c := Closed(now[c], at)]
            && (AnyClosed(chans, rest) <==> AnyClosed(chans, clients - todo) || now[c].closed)
  {
    hide AnyClosed, CloseAll;
    assert clients - (todo - {c}) == (clients - todo) + {c};
    AnyClosedInsert(chans, clients - todo, c);
    CloseInsert(chans, clients - todo, c, at);
    assert c in CloseAll(chans, clients - todo, at) by {
      CloseKeys(chans, clients - todo, at);
    }
  }

  lemma CloseAllIs(chans: map<nat, Chan>, cs: set<nat>, now: nat)
    ensures var after := CloseAll(chans, cs, now);
            after.Keys == chans.Keys && forall c :: c in chans ==>
              after[c].queue == chans[c].queue && after[c].closed == (c in cs || chans[c].closed)
  {
  }

  lemma CloseKeys(chans: map<nat, Chan>, cs: set<nat>, now: nat)
    ensures CloseAll(chans, cs, now).Keys == chans.Keys
  {
  }

  // ----- everything that can happen -----

  datatype Event =
    | Subscribe(c: nat)        // a new channel is made and put on sub
    | Unsubscribe(c: nat)      // the channel is put on unsub
    | Publish(m: Msg)          // the message is put on pub
    | Close                    // quit is closed (once)
    | Receive(c: nat)          // the subscriber takes a message out
    | LoopSub | LoopUnsub | LoopPub | LoopQuit

  /** Whether an event can happen. A send on a full channel waits; unsubscribe and publish also
      give up once quit is closed, which changes nothing. */
  predicate Enabled(s: State, e: Event) {
    match e
    case Subscribe(c) => c !in s.chans && |s.subQ| < SUB_CAP
    case Unsubscribe(c) => c in s.chans && |s.unsubQ| < UNSUB_CAP
    case Publish(_) => |s.pubQ| < PUB_CAP
    case Close => true
    case Receive(c) => c in s.chans && s.chans[c].queue != []
    case LoopSub => s.running && s.subQ != [] && s.subQ[0] in s.chans
    case LoopUnsub => s.running && s.unsubQ != [] && s.clients <= s.chans.Keys
    case LoopPub => s.running && s.pubQ != []
    case LoopQuit => s.running && s.quit
  }

  /** Senders wait exactly while a channel is full, and the loop serves whatever is there until it has
      seen quit. */
  lemma WhatCanHappen(s: State, c: nat, m: Msg)
    requires Inv(s)
    ensures Enabled(s, Subscribe(c)) <==> c !in s.chans && |s.subQ| < 16
    ensures Enabled(s, Unsubscribe(c)) <==> c in s.chans && |s.unsubQ| < 16
    ensures Enabled(s, Publish(m)) <==> |s.pubQ| < 256
    ensures Enabled(s, LoopSub) <==> s.running && s.subQ != []
    ensures Enabled(s, LoopUnsub) <==> s.running && s.unsubQ != []
    ensures Enabled(s, LoopPub) <==> s.running && s.pubQ != []
    ensures Enabled(s, LoopQuit) <==> s.running && s.quit
  {
    hide ChanOk;
  }

  function Apply(s: State, e: Event): State
    requires Enabled(s, e)
  {
    match e
    case Subscribe(c) => s.(chans := s.chans[c := NEW_CHAN], subQ := s.subQ + [c])
    case Unsubscribe(c) => s.(unsubQ := s.unsubQ + [c])
    case Publish(m) => s.(pubQ := s.pubQ + [m])
    case Close => s.(quit := true)
    case Receive(c) =>
      var ch := s.chans[c];
      s.(chans := s.chans[c := ch.(queue := ch.queue[1..], received := ch.received + [ch.queue[0]])])
    case LoopSub => ServeSub(s)
    case LoopUnsub => ServeUnsub(s)
    case LoopPub => ServePub(s)
    case LoopQuit => ServeQuit(s)
  }

  /** The state after a run, None when some event could not happen. */
  function Run(s: State, events: seq<Event>): Option<State>
    decreases events
  {
    if events == [] then Some(s)
    else if !Enabled(s, events[0]) then None
    else Run(Apply(s, events[0]), events[1..])
  }

  // ----- subsequences -----

  predicate Subsequence(a: seq<Msg>, b: seq<Msg>) {
    if a == [] then true
    else if b == [] then false
    else
      (a[|a| - 1] == b[|b| - 1] && Subsequence(a[..|a| - 1], b[..|b| - 1])) ||
      Subsequence(a, b[..|b| - 1])
  }

  lemma SubsequenceGrows(a: seq<Msg>, b: seq<Msg>, m: Msg)
    requires Subsequence(a, b)
    ensures Subsequence(a, b + [m]) && Subsequence(a + [m], b + [m])
  {
  }

  lemma {:induction false} SubsequenceShorter(a: seq<Msg>, b: seq<Msg>)
    requires Subsequence(a, b)
    ensures |a| <= |b|
    ensures |a| == |b| ==> a == b
  {
    if a != [] && b != [] {
      if a[|a| - 1] == b[|b| - 1] && Subsequence(a[..|a| - 1], b[..|b| - 1]) {
        SubsequenceShorter(a[..|a| - 1], b[..|b| - 1]);
        assert a == a[..|a| - 1] + [a[|a| - 1]] && b == b[..|b| - 1] + [b[|b| - 1]];
      } else {
        SubsequenceShorter(a, b[..|b| - 1]);
      }
    }
  }

  // ----- the invariant -----

  /** The messages processed while c was registered. */
  function Window(c: Chan, processed: seq<Msg>): seq<Msg> {
    if c.from.None? then []
    else
      var to := if c.until.Some? then c.until.value else |processed|;
      if c.from.value <= to <= |processed| then processed[c.from.value..to] else []
  }

  predicate ChanOk(c: Chan, processed: seq<Msg>) {
    && |c.queue| <= CLIENT_CAP
    && c.received + c.queue == c.sent
    && Subsequence(c.sent, Window(c, processed))
    && |c.sent| + c.skipped == |Window(c, processed)|
    && (c.from.Some? ==> c.from.value <= |processed|)
    && (c.until.Some? ==> c.from.Some? && c.from.value <= c.until.value <= |processed|)
    && (c.closed <==> c.until.Some?)
  }

  ghost predicate Inv(s: State) {
    && !s.panicked
    && s.clients <= s.chans.Keys
    && (forall c :: c in s.chans ==> ChanOk(s.chans[c], s.processed))
    && (forall c :: c in s.clients ==> !s.chans[c].closed && s.chans[c].from.Some?)
    && (forall c :: c in s.chans && s.chans[c].from.Some? && c !in s.clients ==> s.chans[c].closed)
    && (forall i :: 0 <= i < |s.subQ| ==> s.subQ[i] in s.chans && s.chans[s.subQ[i]].from.None?)
    && (forall i, j :: 0 <= i < j < |s.subQ| ==> s.subQ[i] != s.subQ[j])
    && |s.subQ| <= SUB_CAP && |s.unsubQ| <= UNSUB_CAP && |s.pubQ| <= PUB_CAP
    && s.count == |s.clients|
    && (!s.running ==> s.quit && s.clients == {})
  }

  lemma OfferOk(c: Chan, processed: seq<Msg>, m: Msg)
    requires ChanOk(c, processed) && c.from.Some? && !c.closed
    ensures ChanOk(Offer(c, m), processed + [m])
  {
    assert Window(c, processed + [m]) == Window(c, processed) + [m];
    SubsequenceGrows(c.sent, Window(c, processed), m);
    hide Subsequence;
  }

  lemma IdleOk(c: Chan, processed: seq<Msg>, m: Msg)
    requires ChanOk(c, processed) && (c.from.Some? ==> c.closed)
    ensures ChanOk(c, processed + [m])
  {
    assert Window(c, processed + [m]) == Window(c, processed);
  }

  lemma ClosedOk(c: Chan, processed: seq<Msg>)
    requires ChanOk(c, processed) && c.from.Some? && !c.closed
    ensures ChanOk(Closed(c, |processed|), processed)
  {
  }

  lemma JoinOk(c: Chan, processed: seq<Msg>)
    requires ChanOk(c, processed) && c.from.None?
    ensures ChanOk(c.(from := Some(|processed|)), processed)
  {
  }

  lemma PubKeepsInv(s: State)
    requires Inv(s) && Enabled(s, LoopPub)
    ensures Inv(ServePub(s))
  {
    hide ChanOk, Offer, Closed;
    var s' := ServePub(s);
    forall c | c in s'.chans ensures ChanOk(s'.chans[c], s'.processed) {
      if c in s.clients {
        OfferOk(s.chans[c], s.processed, s.pubQ[0]);
      } else {
        IdleOk(s.chans[c], s.processed, s.pubQ[0]);
      }
    }
    OfferKeepsRest();
  }

  lemma OfferKeepsRest()
    ensures forall c: Chan, m :: Offer(c, m).closed == c.closed && Offer(c, m).from == c.from
  {
  }

  lemma QuitKeepsInv(s: State)
    requires Inv(s) && Enabled(s, LoopQuit)
    ensures Inv(ServeQuit(s))
  {
    hide ChanOk;
    var s' := ServeQuit(s);
    forall c | c in s'.chans ensures ChanOk(s'.chans[c], s'.processed) {
      if c in s.clients {
        ClosedOk(s.chans[c], s.processed);
      }
    }
  }

  lemma UnsubKeepsInv(s: State)
    requires Inv(s) && Enabled(s, LoopUnsub)
    ensures Inv(ServeUnsub(s))
  {
    hide ChanOk;
    if s.unsubQ[0] in s.clients {
      ClosedOk(s.chans[s.unsubQ[0]], s.processed);
    }
  }

  lemma SubKeepsInv(s: State)
    requires Inv(s) && Enabled(s, LoopSub)
    ensures Inv(ServeSub(s))
  {
    hide ChanOk;
    var c := s.subQ[0];
    JoinOk(s.chans[c], s.processed);
    NeverRegistered(s.chans[c], s.processed);
    var s' := ServeSub(s);
    assert forall i :: 0 <= i < |s'.subQ| ==> s'.subQ[i] == s.subQ[i + 1];
  }

  lemma NeverRegistered(c: Chan, processed: seq<Msg>)
    requires ChanOk(c, processed) && c.from.None?
    ensures !c.closed
  {
  }

  lemma ReceiveOk(c: Chan, processed: seq<Msg>)
    requires ChanOk(c, processed) && c.queue != []
    ensures ChanOk(c.(queue := c.queue[1..], received := c.received + [c.queue[0]]), processed)
  {
  }

  lemma StepKeepsInv(s: State, e: Event)
    requires Inv(s) && Enabled(s, e)
    ensures Inv(Apply(s, e))
  {
    hide ChanOk, Inv, ServeSub, ServeUnsub, ServePub, ServeQuit;
    match e
    case LoopSub => SubKeepsInv(s);
    case LoopUnsub => UnsubKeepsInv(s);
    case LoopPub => PubKeepsInv(s);
    case LoopQuit => QuitKeepsInv(s);
    case _ => OutsideKeepsInv(s, e);
  }

  /** The steps of subscribers and publishers. */
  lemma OutsideKeepsInv(s: State, e: Event)
    requires Inv(s) && Enabled(s, e)
    requires !e.LoopSub? && !e.LoopUnsub? && !e.LoopPub? && !e.LoopQuit?
    ensures Inv(Apply(s, e))
  {
    hide ChanOk;
    match e
    case Receive(c) => ReceiveOk(s.chans[c], s.processed);
    case Subscribe(c) => NewOk(s.processed);
    case _ =>
  }

  lemma NewOk(processed: seq<Msg>)
    ensures ChanOk(NEW_CHAN, processed)
  {
  }

  /** Safety of every run, with any number of subscribers: no channel is closed twice or sent to
      after it is closed; each client has received, in order, a subsequence of the messages
      processed while it was registered, missing exactly those skipped on a full buffer; no
      buffer exceeds 32; and the published client count is the number of clients. */
  lemma {:induction false} RunsAreSafe(s: State, events: seq<Event>)
    requires Inv(s) && Run(s, events).Some?
    ensures Inv(Run(s, events).value)
    decreases events
  {
    hide Inv, Apply, Enabled;
    if events != [] {
      StepKeepsInv(s, events[0]);
      RunsAreSafe(Apply(s, events[0]), events[1..]);
    }
  }

  lemma HubIsSafe(events: seq<Event>)
    requires Run(INITIAL, events).Some?
    ensures var s := Run(INITIAL, events).value;
            && !s.panicked
            && s.count == |s.clients| && |s.subQ| <= 16 && |s.unsubQ| <= 16 && |s.pubQ| <= 256
            && forall c :: c in s.chans ==>
                 var ch := s.chans[c];
                 && |ch.queue| <= 32
                 && ch.received + ch.queue == ch.sent
                 && Subsequence(ch.sent, Window(ch, s.processed))
                 && (ch.skipped == 0 ==> ch.sent == Window(ch, s.processed))
  {
    RunsAreSafe(INITIAL, events);
    var s := Run(INITIAL, events).value;
    forall c | c in s.chans ensures s.chans[c].skipped == 0 ==> s.chans[c].sent == Window(s.chans[c], s.processed) {
      SubsequenceShorter(s.chans[c].sent, Window(s.chans[c], s.processed));
    }
  }

  // ----- what is delivered, skipped and missed -----

  /** What a step does to one client: a message that is served goes to the end of the queue of every
      registered client that holds fewer than 32, is skipped for one that holds 32, and counts as
      processed for both; nothing else skips, and only the client's own receive takes anything out. */
  ghost predicate Delivers(s: State, e: Event, s': State, c: nat) {
    && c in s.chans && c in s'.chans
    && var before, after := s.chans[c], s'.chans[c];
       var told := e.LoopPub? && s.pubQ != [] && c in s.clients;
       && after.queue == (if told && |before.queue| < 32 then before.queue + [s.pubQ[0]]
                          else if e == Receive(c) && before.queue != [] then before.queue[1..] else before.queue)
       && after.skipped == before.skipped + (if told && |before.queue| == 32 then 1 else 0)
       && Window(after, s'.processed) == Window(before, s.processed) + if told then [s.pubQ[0]] else []
  }

  lemma StepDelivers(s: State, e: Event, c: nat)
    requires Inv(s) && Enabled(s, e) && c in s.chans
    ensures Delivers(s, e, Apply(s, e), c)
  {
    hide Inv, ChanOk, Delivers, ServePub, ServeSub, ServeUnsub, ServeQuit, Window;
    InvOf(s, c);
    if e.LoopPub? {
      PubDelivers(s, c);
    } else if e.LoopSub? || e.LoopUnsub? || e.LoopQuit? {
      RosterDelivers(s, e, c);
    } else {
      OutsideDelivers(s, e, c);
    }
  }

  lemma InvOf(s: State, c: nat)
    requires Inv(s) && c in s.chans
    ensures ChanOk(s.chans[c], s.processed)
    ensures if c in s.clients then !s.chans[c].closed && s.chans[c].from.Some? else s.chans[c].from.Some? ==> s.chans[c].closed
    ensures s.subQ != [] ==> s.subQ[0] in s.chans && s.chans[s.subQ[0]].from.None?
  {
    hide ChanOk;
  }

  lemma PubDelivers(s: State, c: nat)
    requires Enabled(s, LoopPub) && c in s.chans && ChanOk(s.chans[c], s.processed)
    requires if c in s.clients then !s.chans[c].closed && s.chans[c].from.Some? else s.chans[c].from.Some? ==> s.chans[c].closed
    ensures Delivers(s, LoopPub, ServePub(s), c)
  {
    hide AnyClosed, Window, Subsequence;
    if c in s.clients {
      WindowGrows(s.chans[c], Offer(s.chans[c], s.pubQ[0]), s.processed, s.pubQ[0]);
    } else {
      WindowRests(s.chans[c], s.chans[c], s.processed, s.processed + [s.pubQ[0]]);
    }
  }

  lemma RosterDelivers(s: State, e: Event, c: nat)
    requires (e.LoopSub? || e.LoopUnsub? || e.LoopQuit?) && Enabled(s, e) && c in s.chans && ChanOk(s.chans[c], s.processed)
    requires if c in s.clients then !s.chans[c].closed && s.chans[c].from.Some? else s.chans[c].from.Some? ==> s.chans[c].closed
    requires s.subQ != [] ==> s.subQ[0] in s.chans && s.chans[s.subQ[0]].from.None?
    ensures Delivers(s, e, Apply(s, e), c)
  {
    hide AnyClosed, Window, ChanOk;
    WindowStands(s.chans[c], s.processed);
  }

  /** Joining opens an empty window, and closing a client leaves its window as it is. */
  lemma WindowStands(c: Chan, processed: seq<Msg>)
    requires ChanOk(c, processed)
    ensures c.from.None? ==> Window(c.(from := Some(|processed|)), processed) == Window(c, processed)
    ensures !c.closed && c.from.Some? ==> Window(Closed(c, |processed|), processed) == Window(c, processed)
  {
    hide Subsequence;
  }

  lemma OutsideDelivers(s: State, e: Event, c: nat)
    requires !e.LoopPub? && !e.LoopSub? && !e.LoopUnsub? && !e.LoopQuit? && Enabled(s, e) && c in s.chans
    ensures Delivers(s, e, Apply(s, e), c)
  {
  }

  /** The window of a client that is not registered stays as it is. */
  lemma WindowRests(c: Chan, d: Chan, processed: seq<Msg>, after: seq<Msg>)
    requires processed <= after && d.from == c.from && d.until == c.until
    requires c.from.Some? ==> c.until.Some? && c.from.value <= c.until.value <= |processed|
    ensures Window(d, after) == Window(c, processed)
  {
  }

  lemma WindowGrows(c: Chan, d: Chan, processed: seq<Msg>, m: Msg)
    requires c.from.Some? && c.from.value <= |processed| && c.until.None? && d.from == c.from && d.until == c.until
    ensures Window(d, processed + [m]) == Window(c, processed) + [m]
  {
  }

  lemma {:induction false} RunLast(s: State, events: seq<Event>)
    requires events != []
    ensures var before, e := Run(s, events[..|events| - 1]), events[|events| - 1];
            Run(s, events) == if before.Some? && Enabled(before.value, e) then Some(Apply(before.value, e)) else None
    decreases events
  {
    hide Enabled, Apply;
    if |events| == 1 {
      assert events[..0] == [];
    } else if Enabled(s, events[0]) {
      assert events[1..][..|events| - 2] == events[..|events| - 1][1..];
      RunLast(Apply(s, events[0]), events[1..]);
    }
  }

  /** At event n of the run the client is registered, holds 32 messages, and one more is served. */
  ghost predicate Overrun(events: seq<Event>, c: nat, n: nat) {
    && n < |events| && events[n] == LoopPub && Run(INITIAL, events[..n]).Some?
    && var s := Run(INITIAL, events[..n]).value;
       c in s.clients && c in s.chans && |s.chans[c].queue| == 32
  }

  ghost function Overruns(events: seq<Event>, c: nat): set<nat> { set n: nat | n < |events| && Overrun(events, c, n) }

  lemma OverrunsGrow(events: seq<Event>, c: nat)
    requires events != []
    ensures var init, k := events[..|events| - 1], |events| - 1;
            Overruns(events, c) == Overruns(init, c) + if Overrun(events, c, k) then {k} else {}
  {
    hide Run;
    var init, k := events[..|events| - 1], |events| - 1;
    forall n: nat | n < k ensures Overrun(events, c, n) <==> Overrun(init, c, n) {
      assert events[..n] == init[..n] && events[n] == init[n];
    }
  }

  /** How often a client has been skipped is how often it was told something while it held 32. */
  lemma {:induction false} SkippedIsOverruns(events: seq<Event>, c: nat)
    requires Run(INITIAL, events).Some?
    ensures var s := Run(INITIAL, events).value;
            |Overruns(events, c)| == if c in s.chans then s.chans[c].skipped else 0
  {
    hide Run, Inv, Apply, Enabled, Overrun, Window;
    if events == [] {
      StartsEmpty();
    } else {
      var init, k := events[..|events| - 1], |events| - 1;
      StartsEmpty();
      RunLast(INITIAL, events);
      SkippedIsOverruns(init, c);
      RunsAreSafe(INITIAL, init);
      OverrunsGrow(events, c);
      assert events[..k] == init;
      OverrunNow(events, c);
      var s := Run(INITIAL, init).value;
      if c in s.chans {
        StepDelivers(s, events[k], c);
        CanServe(s, events[k]);
      } else {
        FreshClient(s, events[k], c);
      }
    }
  }

  lemma StartsEmpty()
    ensures Run(INITIAL, []) == Some(INITIAL) && Inv(INITIAL)
  {
  }

  lemma CanServe(s: State, e: Event)
    requires Enabled(s, e)
    ensures e.LoopPub? ==> s.pubQ != []
  {
  }

  lemma FreshClient(s: State, e: Event, c: nat)
    requires Enabled(s, e) && c !in s.chans
    ensures c in Apply(s, e).chans ==> Apply(s, e).chans[c].skipped == 0
  {
    hide AnyClosed;
  }

  lemma OverrunNow(events: seq<Event>, c: nat)
    requires events != [] && Run(INITIAL, events[..|events| - 1]).Some?
    ensures var s, k := Run(INITIAL, events[..|events| - 1]).value, |events| - 1;
            Overrun(events, c, k) <==> events[k] == LoopPub && c in s.clients && c in s.chans && |s.chans[c].queue| == 32
  {
    hide Run;
  }

  /** So a client has been sent all that was processed while it was registered exactly when it never
      held 32 messages as another was served. */
  lemma KeepingUpIsEnough(events: seq<Event>, c: nat)
    requires Run(INITIAL, events).Some? && c in Run(INITIAL, events).value.chans
    ensures var s := Run(INITIAL, events).value;
            s.chans[c].sent == Window(s.chans[c], s.processed) <==> forall n: nat :: n < |events| ==> !Overrun(events, c, n)
  {
    hide Run, Overrun, Window, Subsequence;
    SkippedIsOverruns(events, c);
    HubIsSafe(events);
    RunsAreSafe(INITIAL, events);
    var s := Run(INITIAL, events).value;
    assert ChanOk(s.chans[c], s.processed);
    if forall n: nat :: n < |events| ==> !Overrun(events, c, n) {
      assert Overruns(events, c) == {};
    } else {
      var n: nat :| n < |events| && Overrun(events, c, n);
      assert n in Overruns(events, c);
    }
  }

  /** A whole visit: a message published after the subscription is served is received, and the end
      closes the client. */
  lemma MessageArrives(m: Msg)
    ensures var run := Run(INITIAL, [Subscribe(0), LoopSub, Publish(m), LoopPub, Receive(0), Close, LoopQuit]);
            run.Some? && 0 in run.value.chans && run.value.chans[0].received == [m] && run.value.chans[0].closed &&
            run.value.count == 0
  {
    hide Enabled, Apply;
    var c1 := NEW_CHAN.(from := Some(0));
    var c2 := c1.(queue := [m], sent := [m]);
    var c3 := c2.(queue := [], received := [m]);
    var s1 := State(map[0 := NEW_CHAN], {}, [0], [], [], false, true, 0, [], false);
    var s2 := State(map[0 := c1], {0}, [], [], [], false, true, 1, [], false);
    var s3 := s2.(pubQ := [m]);
    var s4 := State(map[0 := c2], {0}, [], [], [], false, true, 1, [m], false);
    var s5 := s4.(chans := map[0 := c3]);
    var s6 := s5.(quit := true);
    var s7 := State(map[0 := Closed(c3, 1)], {}, [], [], [], true, false, 0, [m], false);
    Joining();
    Serving(c1, m);
    Reading(c2, m);
    Closing(c3, m);
    Ending(c3, m);
    assert [] + [m] == [m];
    var r6 := [LoopQuit] + [];
    var r5 := [Close] + r6;
    var r4 := [Receive(0)] + r5;
    var r3 := [LoopPub] + r4;
    var r2 := [Publish(m)] + r3;
    var r1 := [LoopSub] + r2;
    RunOne(s6, LoopQuit, []);
    RunOne(s5, Close, r6);
    RunOne(s4, Receive(0), r5);
    RunOne(s3, LoopPub, r4);
    RunOne(s2, Publish(m), r3);
    RunOne(s1, LoopSub, r2);
    RunOne(INITIAL, Subscribe(0), r1);
    assert Run(s7, []) == Some(s7);
    assert [Subscribe(0)] + r1 == [Subscribe(0), LoopSub, Publish(m), LoopPub, Receive(0), Close, LoopQuit];
  }

  lemma Joining()
    ensures var s1 := State(map[0 := NEW_CHAN], {}, [0], [], [], false, true, 0, [], false);
            && Enabled(INITIAL, Subscribe(0)) && Apply(INITIAL, Subscribe(0)) == s1
            && Enabled(s1, LoopSub)
            && Apply(s1, LoopSub) == State(map[0 := NEW_CHAN.(from := Some(0))], {0}, [], [], [], false, true, 1, [], false)
  {
  }

  lemma Serving(c: Chan, m: Msg)
    requires c.queue == [] && !c.closed
    ensures var s := State(map[0 := c], {0}, [], [], [], false, true, 1, [], false);
            var s' := State(map[0 := c.(queue := [m], sent := c.sent + [m])], {0}, [], [], [], false, true, 1, [m], false);
            && Enabled(s, Publish(m)) && Apply(s, Publish(m)) == s.(pubQ := [m])
            && Enabled(s.(pubQ := [m]), LoopPub) && Apply(s.(pubQ := [m]), LoopPub) == s'
  {
  }

  lemma Reading(c: Chan, m: Msg)
    requires c.queue == [m]
    ensures var s := State(map[0 := c], {0}, [], [], [], false, true, 1, [m], false);
            && Enabled(s, Receive(0))
            && Apply(s, Receive(0)) == s.(chans := map[0 := c.(queue := [], received := c.received + [m])])
  {
    assert c.queue[1..] == [];
  }

  lemma Closing(c: Chan, m: Msg)
    ensures var s := State(map[0 := c], {0}, [], [], [], false, true, 1, [m], false);
            Enabled(s, Close) && Apply(s, Close) == s.(quit := true)
  {
  }

  lemma Ending(c: Chan, m: Msg)
    requires !c.closed
    ensures var s := State(map[0 := c], {0}, [], [], [], true, true, 1, [m], false);
            && Enabled(s, LoopQuit)
            && Apply(s, LoopQuit) == State(map[0 := Closed(c, 1)], {}, [], [], [], true, false, 0, [m], false)
  {
  }

  /** Serving quit closes every registered client and zeroes the count, and no client is ever
      registered again. */
  lemma {:induction false} QuitIsFinal(s: State, events: seq<Event>)
    requires Inv(s) && !s.running && Run(s, events).Some?
    ensures var s' := Run(s, events).value;
            && !s'.running && s'.clients == {} && s'.count == 0
            && forall c :: c in s'.chans && s'.chans[c].from.Some? ==> s'.chans[c].closed
    decreases events
  {
    hide ChanOk, ServeSub, ServePub, ServeUnsub, ServeQuit;
    if events != [] {
      StepKeepsInv(s, events[0]);
      QuitIsFinal(Apply(s, events[0]), events[1..]);
    }
  }

  // ----- unsubscribing -----

  lemma StepStaysOut(s: State, c: nat, e: Event)
    requires Inv(s) && Enabled(s, e)
    requires c in s.chans && c !in s.clients && c !in s.subQ
    ensures var s' := Apply(s, e); c in s'.chans && c !in s'.clients && c !in s'.subQ
  {
    hide ChanOk, AnyClosed;
    if e.LoopSub? {
      assert s.subQ[0] in s.subQ;
    }
  }

  lemma {:induction false} GoneForever(s: State, c: nat, events: seq<Event>)
    requires Inv(s) && Run(s, events).Some?
    requires c in s.chans && c !in s.clients && c !in s.subQ
    ensures c !in Run(s, events).value.clients
    decreases events
  {
    hide Inv, Apply, Enabled;
    if events != [] {
      StepKeepsInv(s, events[0]);
      StepStaysOut(s, c, events[0]);
      GoneForever(Apply(s, events[0]), c, events[1..]);
    }
  }

  lemma CanServeSub(s: State)
    requires Inv(s) && s.running && s.subQ != []
    ensures Enabled(s, LoopSub) && Inv(ServeSub(s))
    ensures var s' := ServeSub(s); s'.running && s'.subQ == s.subQ[1..] && s.subQ[0] in s'.clients
  {
    SubKeepsInv(s);
  }

  lemma RunOne(s: State, e: Event, rest: seq<Event>)
    requires Enabled(s, e)
    ensures Run(s, [e] + rest) == Run(Apply(s, e), rest)
  {
  }

  lemma {:induction false} WillJoin(s: State, c: nat) returns (events: seq<Event>)
    requires Inv(s) && s.running && c in s.subQ
    ensures Run(s, events).Some? && c in Run(s, events).value.clients
    decreases |s.subQ|
  {
    CanServeSub(s);
    hide Inv, ServeSub, Enabled;
    var s' := ServeSub(s);
    if s.subQ[0] == c {
      events := [LoopSub] + [];
      RunOne(s, LoopSub, []);
    } else {
      var rest := WillJoin(s', c);
      events := [LoopSub] + rest;
      RunOne(s, LoopSub, rest);
    }
  }

  /** When the loop has served a channel's unsubscription, the channel stays out for good exactly
      when its subscription is no longer waiting: the two come through different channels, so
      an unsubscription can overtake its own subscription, and then nobody removes it. */
  lemma UnsubscribeSticks(s: State)
    requires Inv(s) && Enabled(s, LoopUnsub) && s.unsubQ[0] in s.chans
    ensures var s' := ServeUnsub(s);
            (forall events :: Run(s', events).Some? ==> s.unsubQ[0] !in Run(s', events).value.clients)
            <==> s.unsubQ[0] !in s.subQ
  {
    var c := s.unsubQ[0];
    var s' := ServeUnsub(s);
    StepKeepsInv(s, LoopUnsub);
    if c in s.subQ {
      var events := WillJoin(s', c);
      assert c in Run(s', events).value.clients;
    } else {
      forall events | Run(s', events).Some? ensures c !in Run(s', events).value.clients {
        GoneForever(s', c, events);
      }
    }
  }

  /** The overtaking can happen in a real run. */
  lemma UnsubscribeCanBeOvertaken()
    ensures exists events :: Run(INITIAL, events).Some? &&
                             var s := Run(INITIAL, events).value;
                             0 in s.clients && s.unsubQ == [] && Unsubscribe(0) in events
  {
    var e3 := [LoopSub];
    var e2 := [LoopUnsub] + e3;
    var e1 := [Unsubscribe(0)] + e2;
    var events := [Subscribe(0)] + e1;
    var s1 := Apply(INITIAL, Subscribe(0));
    var s2 := Apply(s1, Unsubscribe(0));
    var s3 := Apply(s2, LoopUnsub);
    var s4 := Apply(s3, LoopSub);
    assert Run(s4, []) == Some(s4);
    assert Run(s3, e3) == Run(s4, e3[1..]);
    assert Run(s2, e2) == Run(s3, e2[1..]) && e2[1..] == e3;
    assert Run(s1, e1) == Run(s2, e1[1..]) && e1[1..] == e2;
    assert Run(INITIAL, events) == Run(s1, events[1..]) && events[1..] == e1;
    assert events[1] == Unsubscribe(0);
  }
}
