/** The client side of the fail2ban socket: framing of responses (internal/f2b/client.go) and
    the search through a jail's status (internal/f2b/manager.go). */
module Client {
  import opened Numbers
  import opened Pickle
  import opened PickleProgram
  import opened PickleRoundTrip

  // ----- framing -----

  /** The bytes of <F2B_END_COMMAND>. */
  const END_MARKER: bytes :=
    [0x3C, 0x46, 0x32, 0x42, 0x5F, 0x45, 0x4E, 0x44, 0x5F, 0x43, 0x4F, 0x4D, 0x4D, 0x41, 0x4E, 0x44, 0x3E]

  /** One conn.Read: what it delivered, and whether it also returned an error. */
  datatype ReadResult = ReadResult(chunk: bytes, failed: bool)

  datatype Response = Complete(payload: bytes) | TooLong | ReadError | Waiting

  predicate HasSuffix(s: bytes, t: bytes) {
    |s| >= |t| && s[|s| - |t|..] == t
  }

  /** The read loop, from a buffer already received. Waiting: no read has ended it yet. */
  function Receive(rx: seq<ReadResult>, buf: bytes): Response {
    if rx == [] then Waiting
    else
      var r := rx[0];
      var buf' := buf + r.chunk;
      if |r.chunk| > 0 && |buf'| > MAX_RESPONSE then TooLong
      else if |r.chunk| > 0 && HasSuffix(buf', END_MARKER) then Complete(buf'[..|buf'| - |END_MARKER|])
      else if r.failed then ReadError
      else Receive(rx[1..], buf')
  }

  method ReadResponse(rx: seq<ReadResult>) returns (r: Response)
    ensures r == Receive(rx, [])
  {
    var buf: bytes := [];
    var i := 0;
    while i < |rx|
      invariant 0 <= i <= |rx|
      invariant Receive(rx, []) == Receive(rx[i..], buf)
    {
      hide HasSuffix;
      assert rx[i..][1..] == rx[i + 1..];
      var n, rerr := |rx[i].chunk|, rx[i].failed;
      if n > 0 {
        buf := buf + rx[i].chunk;
        if |buf| > MAX_RESPONSE {
          return TooLong;
        }
        if HasSuffix(buf, END_MARKER) {
          return Complete(buf[..|buf| - |END_MARKER|]);
        }
      } else {
        assert buf + rx[i].chunk == buf;
      }
      if rerr {
        return ReadError;
      }
      i := i + 1;
    }
    return Waiting;
  }

  function Delivered(rx: seq<ReadResult>): bytes {
    if rx == [] then [] else rx[0].chunk + Delivered(rx[1..])
  }

  lemma {:induction false} DeliveredMore(rx: seq<ReadResult>, k: nat)
    requires k < |rx|
    ensures Delivered(rx[..k + 1]) == Delivered(rx[..k]) + rx[k].chunk
  {
    if k == 0 {
      assert rx[..1] == [rx[0]] && rx[..0] == [] && [rx[0]][1..] == [];
      assert Delivered([]) == [];
      assert Delivered([rx[0]]) == rx[0].chunk + [];
    } else {
      DeliveredMore(rx[1..], k - 1);
      assert rx[..k + 1][1..] == rx[1..][..k] && rx[..k][1..] == rx[1..][..k - 1];
    }
  }

  /** The received bytes end with the text of the end marker. */
  predicate EndsReply(all: bytes) { |all| >= 17 && all[|all| - 17..] == Ascii("<F2B_END_COMMAND>") }

  lemma MarkerText(all: bytes)
    ensures END_MARKER == Ascii("<F2B_END_COMMAND>") && |END_MARKER| == 17
    ensures HasSuffix(all, END_MARKER) <==> EndsReply(all)
  {
  }

  /** After read k the loop reads on: it brought no error and, if it brought anything, what is there is
      neither too long nor complete. */
  ghost predicate ReadsOn(rx: seq<ReadResult>, k: nat)
    requires k < |rx|
  {
    var all := Delivered(rx[..k + 1]);
    !rx[k].failed && (rx[k].chunk != [] ==> |all| <= 4_194_304 && !EndsReply(all))
  }

  /** What the read loop returns, from the first read after which it does not read on: too long above
      4 MiB, else the reply without its marker, else the error. */
  lemma ReceiveIs(rx: seq<ReadResult>, n: nat)
    requires n <= |rx| && (forall k :: 0 <= k < n ==> ReadsOn(rx, k)) && (n < |rx| ==> !ReadsOn(rx, n))
    ensures Receive(rx, []) ==
            if n == |rx| then Waiting
            else
              var all := Delivered(rx[..n + 1]);
              if rx[n].chunk != [] && |all| > 4_194_304 then TooLong
              else if rx[n].chunk != [] && EndsReply(all) then Complete(all[..|all| - 17])
              else ReadError
  {
    assert rx[..0] == [] && rx[0..] == rx;
    ReceiveFrom(rx, 0, n);
  }

  lemma {:induction false} ReceiveFrom(rx: seq<ReadResult>, k: nat, n: nat)
    requires k <= n <= |rx| && (forall i :: k <= i < n ==> ReadsOn(rx, i)) && (n < |rx| ==> !ReadsOn(rx, n))
    ensures Receive(rx[k..], Delivered(rx[..k])) ==
            if n == |rx| then Waiting
            else
              var all := Delivered(rx[..n + 1]);
              if rx[n].chunk != [] && |all| > 4_194_304 then TooLong
              else if rx[n].chunk != [] && EndsReply(all) then Complete(all[..|all| - 17])
              else ReadError
    decreases n - k
  {
    hide Delivered, HasSuffix, EndsReply;
    if k < |rx| {
      DeliveredMore(rx, k);
      MarkerText(Delivered(rx[..k + 1]));
      assert rx[k..][0] == rx[k] && rx[k..][1..] == rx[k + 1..];
      if k < n {
        assert ReadsOn(rx, k);
        ReceiveFrom(rx, k + 1, n);
      }
    }
  }

  /** The reads deliver exactly data, in non-empty chunks of at most 4096 bytes (the size of the
      read buffer), with no error before the last. */
  ghost predicate Delivers(rx: seq<ReadResult>, data: bytes) {
    && Delivered(rx) == data
    && (forall i :: 0 <= i < |rx| ==> 0 < |rx[i].chunk| <= 4096)
    && (forall i :: 0 <= i < |rx| - 1 ==> !rx[i].failed)
  }

  /** No proper prefix of the stream ends with the marker. */
  ghost predicate MarkerOnlyAtEnd(data: bytes) {
    forall n :: 0 <= n < |data| ==> !HasSuffix(data[..n], END_MARKER)
  }

  lemma {:induction false} ReceiveRest(rx: seq<ReadResult>, buf: bytes, data: bytes)
    requires rx != [] && Delivers(rx, Delivered(rx)) && buf + Delivered(rx) == data
    requires MarkerOnlyAtEnd(data) && HasSuffix(data, END_MARKER) && |data| <= MAX_RESPONSE
    ensures Receive(rx, buf) == Complete(data[..|data| - |END_MARKER|])
  {
    hide HasSuffix;
    var buf' := buf + rx[0].chunk;
    var rest := rx[1..];
    assert data == buf' + Delivered(rest);
    if rest == [] {
      assert buf' == data;
    } else {
      assert Delivered(rest) != [] by {
        assert Delivered(rest) == rest[0].chunk + Delivered(rest[1..]);
        assert rest[0] == rx[1];
      }
      assert data[..|buf'|] == buf';
      ReceiveRest(rest, buf', data);
    }
  }

  function Singles(data: bytes): (rx: seq<ReadResult>)
    ensures |rx| == |data|
    ensures forall i :: 0 <= i < |data| ==> rx[i] == ReadResult([data[i]], false)
  {
    seq(|data|, i requires 0 <= i < |data| => ReadResult([data[i]], false))
  }

  lemma {:induction false} SinglesDeliver(data: bytes)
    ensures Delivered(Singles(data)) == data
  {
    if data != [] {
      SinglesDeliver(data[1..]);
      assert Singles(data)[1..] == Singles(data[1..]);
    }
  }

  /** Byte by byte, the loop cannot pass a prefix that ends with the marker. */
  lemma {:induction false} SinglesStop(data: bytes, m: nat, n: nat)
    requires m < n <= |data| <= MAX_RESPONSE && HasSuffix(data[..n], END_MARKER)
    ensures var r := Receive(Singles(data)[m..], data[..m]);
            r.Complete? && |r.payload| <= n - |END_MARKER|
    decreases n - m
  {
    hide HasSuffix;
    var rx := Singles(data)[m..];
    assert data[..m] + rx[0].chunk == data[..m + 1];
    assert rx[1..] == Singles(data)[m + 1..];
    if !HasSuffix(data[..m + 1], END_MARKER) {
      assert m + 1 != n;
      SinglesStop(data, m + 1, n);
    } else {
      SuffixLength(data[..m + 1]);
    }
  }

  lemma SuffixLength(s: bytes)
    requires HasSuffix(s, END_MARKER)
    ensures |s| >= |END_MARKER|
  {
  }

  /** Framing does not depend on how the stream is cut into reads exactly when the end marker
      does not occur before the end: then every way of cutting it yields the payload, and
      otherwise some way does not. */
  lemma ChunkingIndependent(payload: bytes)
    requires |payload + END_MARKER| <= MAX_RESPONSE
    ensures (forall rx :: Delivers(rx, payload + END_MARKER) ==> Receive(rx, []) == Complete(payload))
            <==> MarkerOnlyAtEnd(payload + END_MARKER)
  {
    var data := payload + END_MARKER;
    assert data[|data| - |END_MARKER|..] == END_MARKER && data[..|data| - |END_MARKER|] == payload;
    if MarkerOnlyAtEnd(data) {
      forall rx | Delivers(rx, data) ensures Receive(rx, []) == Complete(payload) {
        assert [] + Delivered(rx) == data;
        ReceiveRest(rx, [], data);
      }
    } else {
      var n :| 0 <= n < |data| && HasSuffix(data[..n], END_MARKER);
      SinglesDeliver(data);
      SuffixLength(data[..n]);
      SinglesStop(data, 0, n);
      assert Singles(data)[0..] == Singles(data) && data[..0] == [];
      assert Delivers(Singles(data), data);
    }
  }

  /** The whole exchange: whatever tree the server answers with and however its reply is cut
      into reads, the client ends up with that tree. */
  lemma ExchangeRoundTrip(host: Host, v: Value, rx: seq<ReadResult>)
    requires IsTree(v)
    requires var data := Emit(Plan(List([Int(0), v]))) + [STOP] + END_MARKER;
             |data| <= MAX_RESPONSE && MarkerOnlyAtEnd(data) && Delivers(rx, data)
    ensures var framed := Receive(rx, []);
            && framed.Complete?
            && var decoded := Unpickle(host, framed.payload);
               decoded.Done? && Interpret(decoded.v) == Payload(v)
  {
    hide HasSuffix, Receive, Emit, Plan, IsTree;
    var payload := Emit(Plan(List([Int(0), v]))) + [STOP];
    ChunkingIndependent(payload);
    ResponseRoundTrip(host, v);
  }

  // ----- status search -----

  /** findStatusList. */
  function FindStatusList(v: Value, key: bytes): Option<seq<Value>>
    decreases v, 1
  {
    if !v.List? then None
    else if |v.items| == 2 && v.items[0] == Str(key) then
      if v.items[1].List? then Some(v.items[1].items) else None
    else FindInAll(v.items, key)
  }

  function FindInAll(vs: seq<Value>, key: bytes): Option<seq<Value>>
    decreases vs, 0
  {
    if vs == [] then None
    else match FindStatusList(vs[0], key)
    case Some(r) => Some(r)
    case None => FindInAll(vs[1..], key)
  }

  /** Every list node of a value, in pre-order. */
  function Nodes(v: Value): seq<seq<Value>>
    decreases v, 1
  {
    if v.List? then [v.items] + NodesOfAll(v.items) else []
  }

  function NodesOfAll(vs: seq<Value>): seq<seq<Value>>
    decreases vs, 0
  {
    if vs == [] then [] else Nodes(vs[0]) + NodesOfAll(vs[1..])
  }

  predicate IsEntry(node: seq<Value>, key: bytes) {
    |node| == 2 && node[0] == Str(key) && node[1].List?
  }

  /** r is the list of the first entry among the nodes, or None when there is none. */
  ghost predicate IsFirstEntry(r: Option<seq<Value>>, nodes: seq<seq<Value>>, key: bytes) {
    match r
    case None => forall i :: 0 <= i < |nodes| ==> !IsEntry(nodes[i], key)
    case Some(l) => exists i ::
      && 0 <= i < |nodes| && IsEntry(nodes[i], key) && l == nodes[i][1].items
      && forall j :: 0 <= j < i ==> !IsEntry(nodes[j], key)
  }

  lemma FirstEntryOfConcat(r: Option<seq<Value>>, s: Option<seq<Value>>, a: seq<seq<Value>>, b: seq<seq<Value>>, key: bytes)
    requires IsFirstEntry(r, a, key) && IsFirstEntry(s, b, key)
    ensures IsFirstEntry(if r.Some? then r else s, a + b, key)
  {
    if r.Some? {
      var i :| 0 <= i < |a| && IsEntry(a[i], key) && r.value == a[i][1].items &&
               forall j :: 0 <= j < i ==> !IsEntry(a[j], key);
      assert (a + b)[i] == a[i];
      assert forall j :: 0 <= j < i ==> (a + b)[j] == a[j];
    } else if s.Some? {
      var i :| 0 <= i < |b| && IsEntry(b[i], key) && s.value == b[i][1].items &&
               forall j :: 0 <= j < i ==> !IsEntry(b[j], key);
      assert (a + b)[|a| + i] == b[i];
      forall j | 0 <= j < |a| + i ensures !IsEntry((a + b)[j], key) {
        assert (a + b)[j] == if j < |a| then a[j] else b[j - |a|];
      }
    }
  }

  /** The recursive search finds the first two-element node, in pre-order, whose head is the key
      and whose second part is a list. */
  lemma {:induction false} SearchFindsFirstEntry(v: Value, key: bytes)
    ensures IsFirstEntry(FindStatusList(v, key), Nodes(v), key)
    decreases v, 1
  {
    if v.List? {
      if |v.items| == 2 && v.items[0] == Str(key) {
        assert Nodes(v)[0] == v.items;
        if !v.items[1].List? {
          assert NodesOfAll(v.items) == Nodes(v.items[0]) + (Nodes(v.items[1]) + NodesOfAll(v.items[1..][1..]));
        }
      } else {
        SearchFindsFirstInAll(v.items, key);
        FirstEntryOfConcat(None, FindInAll(v.items, key), [v.items], NodesOfAll(v.items), key);
      }
    }
  }

  lemma {:induction false} SearchFindsFirstInAll(vs: seq<Value>, key: bytes)
    ensures IsFirstEntry(FindInAll(vs, key), NodesOfAll(vs), key)
    decreases vs, 0
  {
    if vs != [] {
      SearchFindsFirstEntry(vs[0], key);
      SearchFindsFirstInAll(vs[1..], key);
      FirstEntryOfConcat(FindStatusList(vs[0], key), FindInAll(vs[1..], key), Nodes(vs[0]), NodesOfAll(vs[1..]), key);
    }
  }

  /** "Banned IP list". */
  const BANNED_KEY: bytes :=
    [0x42, 0x61, 0x6E, 0x6E, 0x65, 0x64, 0x20, 0x49, 0x50, 0x20, 0x6C, 0x69, 0x73, 0x74]

  /** out holds the non-empty strings among the first k values, in order: the ones at the places. */
  ghost predicate NonEmptyStrings(vs: seq<Value>, k: nat, places: seq<nat>, out: seq<bytes>) {
    && |places| == |out|
    && (forall m, n :: 0 <= m < n < |places| ==> places[m] < places[n])
    && (forall i: nat :: i in places <==> i < k && i < |vs| && vs[i].Str? && vs[i].s != [])
    && (forall n :: 0 <= n < |out| && places[n] < |vs| ==> vs[places[n]] == Str(out[n]))
  }

  ghost predicate Listed(found: Option<seq<Value>>, places: seq<nat>, out: seq<bytes>) {
    var l := if found.Some? then found.value else [];
    NonEmptyStrings(l, |l|, places, out)
  }

  /** The shape fail2ban answers a status command with: sections of name and value, the list two levels
      down. */
  lemma StatusIsSearched(filter: seq<Value>, banned: seq<Value>, count: Value)
    requires !count.List? && forall i :: 0 <= i < |filter| ==> !filter[i].List?
    ensures var actions := List([List([Str(Ascii("Currently banned")), count]),
                                 List([Str(Ascii("Banned IP list")), List(banned)])]);
            var status := List([List([Str(Ascii("Filter")), List(filter)]), List([Str(Ascii("Actions")), actions])]);
            FindStatusList(status, Ascii("Banned IP list")) == Some(banned)
  {
    var key := Ascii("Banned IP list");
    NamesDiffer(key);
    var total := List([Str(Ascii("Currently banned")), count]);
    var entry := List([Str(key), List(banned)]);
    NoListsInside([Str(Ascii("Currently banned")), count], key);
    NoListsInside(filter, key);
    assert FindStatusList(total, key) == None;
    assert FindStatusList(entry, key) == Some(banned);
    var actions := List([total, entry]);
    assert [total, entry][1..] == [entry];
    assert FindStatusList(actions, key) == FindInAll([total, entry], key) == Some(banned);
    var first := List([Str(Ascii("Filter")), List(filter)]);
    var second := List([Str(Ascii("Actions")), actions]);
    FirstScalar(Str(Ascii("Filter")), List(filter), key);
    FirstScalar(Str(Ascii("Actions")), actions, key);
    NotAnEntry(filter, key);
    assert FindStatusList(first, key) == None;
    assert FindStatusList(second, key) == Some(banned);
    assert [first, second][1..] == [second];
    assert FindStatusList(List([first, second]), key) == FindInAll([first, second], key);
  }

  lemma NamesDiffer(key: bytes)
    requires key == Ascii("Banned IP list")
    ensures Ascii("Filter") != key && Ascii("Actions") != key && Ascii("Currently banned") != key
  {
  }

  lemma {:induction false} NoListsInside(vs: seq<Value>, key: bytes)
    requires forall i :: 0 <= i < |vs| ==> !vs[i].List?
    ensures FindInAll(vs, key) == None
  {
    if vs != [] {
      NoListsInside(vs[1..], key);
    }
  }

  lemma FirstScalar(a: Value, b: Value, key: bytes)
    requires !a.List?
    ensures FindInAll([a, b], key) == FindStatusList(b, key)
  {
    assert [a, b][1..] == [b] && [b][1..] == [];
    assert FindInAll([b], key) == if FindStatusList(b, key).Some? then FindStatusList(b, key) else FindInAll([], key);
  }

  lemma NotAnEntry(vs: seq<Value>, key: bytes)
    requires forall i :: 0 <= i < |vs| ==> !vs[i].List?
    ensures FindStatusList(List(vs), key) == None
  {
    NoListsInside(vs, key);
  }

  lemma StringsGrow(vs: seq<Value>, k: nat, places: seq<nat>, out: seq<bytes>)
    requires k < |vs| && NonEmptyStrings(vs, k, places, out)
    ensures if vs[k].Str? && vs[k].s != [] then NonEmptyStrings(vs, k + 1, places + [k], out + [vs[k].s])
            else NonEmptyStrings(vs, k + 1, places, out)
  {
    forall n | 0 <= n < |places| ensures places[n] < k {
      assert places[n] in places;
    }
    var more := places + [k];
    assert forall i: nat :: i in more <==> i in places || i == k;
  }

  /** Banned, once the status payload v has been received over the socket. */
  method Banned(v: Value) returns (ips: seq<bytes>)
    ensures exists r, places :: IsFirstEntry(r, Nodes(v), Ascii("Banned IP list")) && Listed(r, places, ips)
  {
    ips := [];
    ghost var places: seq<nat> := [];
    assert BANNED_KEY == Ascii("Banned IP list");
    var lst := FindStatusList(v, BANNED_KEY);
    SearchFindsFirstEntry(v, BANNED_KEY);
    if lst.Some? {
      var l := lst.value;
      for i := 0 to |l|
        invariant NonEmptyStrings(l, i, places, ips)
      {
        StringsGrow(l, i, places, ips);
        if l[i].Str? && l[i].s != [] {
          ips, places := ips + [l[i].s], places + [i];
        }
      }
    }
    assert Listed(lst, places, ips);
  }
}
