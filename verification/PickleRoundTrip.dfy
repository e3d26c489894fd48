/** What the machine's correctness gives: decoding undoes encoding, for the values fail2ban
    answers with and for the commands the client sends. */
module PickleRoundTrip {
  import opened Numbers
  import opened RawUnicode
  import opened Pickle
  import opened PickleProgram

  /** unpickle. */
  function Unpickle(host: Host, data: bytes): Result { Run(host, data, START) }

  lemma StopEnds(host: Host, data: bytes, vm: VM)
    requires At(data, vm.pos, [STOP])
    ensures Run(host, data, vm) ==
            if vm.stack == [] then Failed(EmptyAtStop) else Done(vm.stack[|vm.stack| - 1])
  {
    hide Structure;
    assert data[vm.pos] == [STOP][0];
  }

  /** A program followed by STOP decodes to the value it denotes. */
  lemma ProgramUnpickles(host: Host, p: Program)
    requires |Emit(p)| + 1 < TWO_63
    requires Eval(host, p, map[]).Some?
    ensures Unpickle(host, Emit(p) + [STOP]) == Done(Eval(host, p, map[]).value.0)
  {
    hide Eval, Emit, Turn;
    var data := Emit(p) + [STOP];
    var (v, memo) := Eval(host, p, map[]).value;
    assert data[0..|Emit(p)|] == Emit(p);
    assert data[|Emit(p)|..|Emit(p)| + 1] == [STOP];
    ProgramRuns(host, data, p, START);
    var vm := Landed(START, Emit(p), [v], memo);
    RunSteps(host, data, START, vm);
    StopEnds(host, data, vm);
  }

  // ----- every tree has a program -----

  /** The keys that Go's == tells apart as their values do. Floats are not among them: a Go map merges
      +0 with -0 and finds no NaN again. */
  predicate IsKey(k: Key) {
    match k
    case NilKey => true
    case BoolKey(_) => true
    case IntKey(i) => IsInt64(i)
    case FloatKey(_) => false
    case StrKey(s) => |s| < 0x1_0000_0000
  }

  /** The values fail2ban's answers are made of, within the sizes a pickle can state. */
  ghost predicate IsTree(v: Value) {
    match v
    case Nil => true
    case Bool(_) => true
    case Int(i) => IsInt64(i)
    case Float(bits) => bits < TWO_64
    case Str(s) => |s| < 0x1_0000_0000
    case Blob(s) => |s| < 0x1_0000_0000
    case List(items) => forall x :: x in items ==> IsTree(x)
    case Dict(m) => forall k :: k in m ==> IsKey(k) && IsTree(m[k])
    case _ => false
  }

  /** The scalar that mapKey turns into k. */
  function KeyValue(k: Key): Value {
    match k
    case NilKey => Nil
    case BoolKey(b) => Bool(b)
    case IntKey(i) => Int(i)
    case FloatKey(bits) => Float(bits)
    case StrKey(s) => Str(s)
  }

  function PlanScalar(v: Value): Program {
    match v
    case Bool(b) => Lit(BoolLit(b))
    case Int(i) => Lit(Long(i, 8))
    case Float(bits) => Lit(FloatLit(bits))
    case Str(s) => Lit(Unicode(s, 4))
    case Blob(s) => Lit(Bytes(s, 4))
    case _ => Lit(NilLit)
  }

  /** One program for each tree: a list between a mark and LIST, a dict between a mark and DICT
      with its entries in some order. */
  ghost function Plan(v: Value): Program
    decreases v, 1, 0
  {
    match v
    case List(items) => Marked(LIST, PlanAll(items))
    case Dict(m) => Marked(DICT, PlanEntries(v, m.Keys))
    case _ => PlanScalar(v)
  }

  ghost function PlanAll(vs: seq<Value>): seq<Program>
    decreases vs, 0, 0
  {
    if vs == [] then [] else [Plan(vs[0])] + PlanAll(vs[1..])
  }

  ghost function PlanEntries(d: Value, keys: set<Key>): seq<Program>
    requires d.Dict? && keys <= d.entries.Keys
    decreases d, 0, |keys|
  {
    if keys == {} then []
    else
      var k :| k in keys;
      [PlanScalar(KeyValue(k)), Plan(d.entries[k])] + PlanEntries(d, keys - {k})
  }

  lemma ScalarPlanned(host: Host, v: Value, memo: Memo)
    requires IsTree(v) && !v.List? && !v.Dict?
    ensures Eval(host, PlanScalar(v), memo) == Some((v, memo))
  {
    Pow256Values();
  }

  lemma {:induction false} TreePlanned(host: Host, v: Value, memo: Memo)
    requires IsTree(v)
    ensures Eval(host, Plan(v), memo) == Some((v, memo))
    decreases v, 1, 0
  {
    match v
    case List(items) => AllPlanned(host, items, memo);
    case Dict(m) =>
      var vs := EntriesPlanned(host, v, m.Keys, memo, map[]);
      assert SetPairs(host, map[], vs) == m;
    case _ => ScalarPlanned(host, v, memo);
  }

  lemma {:induction false} AllPlanned(host: Host, vs: seq<Value>, memo: Memo)
    requires forall x :: x in vs ==> IsTree(x)
    ensures EvalAll(host, PlanAll(vs), memo) == Some((vs, memo))
    decreases vs, 0, 0
  {
    hide Eval, Plan;
    if vs != [] {
      TreePlanned(host, vs[0], memo);
      AllPlanned(host, vs[1..], memo);
      var ps := PlanAll(vs);
      assert ps[0] == Plan(vs[0]) && ps[1..] == PlanAll(vs[1..]);
      assert EvalAll(host, ps, memo) == Some(([vs[0]] + vs[1..], memo));
      assert [vs[0]] + vs[1..] == vs;
    }
  }

  /** The entries of a dict, written in any order, set exactly that dict's entries. */
  lemma {:induction false} EntriesPlanned(host: Host, d: Value, keys: set<Key>, memo: Memo, acc: map<Key, Value>)
      returns (vs: seq<Value>)
    requires d.Dict? && IsTree(d) && keys <= d.entries.Keys
    ensures EvalAll(host, PlanEntries(d, keys), memo) == Some((vs, memo))
    ensures SetPairs(host, acc, vs) == acc + map k | k in keys :: d.entries[k]
    decreases d, 0, |keys|
  {
    hide Eval, Plan, PlanScalar, IsTree, SetPairs, KeyValue;
    if keys == {} {
      vs := [];
      NothingSet(host, acc);
    } else {
      var all := PlanEntries(d, keys);
      var k :| k in keys && all == [PlanScalar(KeyValue(k)), Plan(d.entries[k])] + PlanEntries(d, keys - {k});
      var v := d.entries[k];
      EntryIsTree(d, k);
      ScalarPlanned(host, KeyValue(k), memo);
      TreePlanned(host, v, memo);
      var rest := EntriesPlanned(host, d, keys - {k}, memo, acc[k := v]);
      vs := [KeyValue(k), v] + rest;
      EvalPair(host, all, memo, KeyValue(k), v, rest);
      SetFirst(host, acc, k, v, rest);
      OneMore(acc, d.entries, keys, k);
    }
  }

  lemma NothingSet(host: Host, acc: map<Key, Value>)
    ensures SetPairs(host, acc, []) == acc
  {
  }

  lemma OneMore(acc: map<Key, Value>, entries: map<Key, Value>, keys: set<Key>, k: Key)
    requires keys <= entries.Keys && k in keys
    ensures acc[k := entries[k]] + (map j | j in keys - {k} :: entries[j]) == acc + (map j | j in keys :: entries[j])
  {
  }

  lemma EntryIsTree(d: Value, k: Key)
    requires d.Dict? && IsTree(d) && k in d.entries
    ensures IsTree(KeyValue(k)) && IsTree(d.entries[k])
    ensures !KeyValue(k).List? && !KeyValue(k).Dict?
  {
  }

  lemma SetFirst(host: Host, m: map<Key, Value>, k: Key, v: Value, rest: seq<Value>)
    ensures SetPairs(host, m, [KeyValue(k), v] + rest) == SetPairs(host, m[k := v], rest)
  {
  }

  lemma EvalPair(host: Host, ps: seq<Program>, memo: Memo, k: Value, v: Value, rest: seq<Value>)
    requires |ps| >= 2
    requires Eval(host, ps[0], memo) == Some((k, memo)) && Eval(host, ps[1], memo) == Some((v, memo))
    requires EvalAll(host, ps[2..], memo) == Some((rest, memo))
    ensures EvalAll(host, ps, memo) == Some(([k, v] + rest, memo))
  {
    hide Eval;
    assert ps[1..][1..] == ps[2..];
    assert EvalAll(host, ps[1..], memo) == Some(([v] + rest, memo)) by {
      assert ps[1..][0] == ps[1];
    }
    assert [k] + ([v] + rest) == [k, v] + rest;
  }

  /** unpickle decodes every tree's pickle to exactly that tree. */
  lemma TreeRoundTrip(host: Host, v: Value)
    requires IsTree(v) && |Emit(Plan(v))| + 1 < TWO_63
    ensures Unpickle(host, Emit(Plan(v)) + [STOP]) == Done(v)
  {
    TreePlanned(host, v, map[]);
    ProgramUnpickles(host, Plan(v));
  }

  // ----- commands -----

  function CommandLines(args: seq<seq<rune>>): bytes {
    if args == [] then [] else [UNICODE] + Escape(args[0]) + [NEWLINE] + CommandLines(args[1..])
  }

  function Command(args: seq<seq<rune>>): bytes { [MARK] + CommandLines(args) + [LIST, STOP] }

  lemma {:induction false} CommandLinesAppend(args: seq<seq<rune>>, a: seq<rune>)
    ensures CommandLines(args + [a]) == CommandLines(args) + [UNICODE] + Escape(a) + [NEWLINE]
  {
    hide Escape;
    if args == [] {
      assert CommandLines([]) == [];
      assert ([a])[1..] == [];
      assert CommandLines([a]) == [UNICODE] + Escape(a) + [NEWLINE] + CommandLines([]);
    } else {
      CommandLinesAppend(args[1..], a);
      assert (args + [a])[1..] == args[1..] + [a];
      var head := [UNICODE] + Escape(args[0]) + [NEWLINE];
      var rest := CommandLines(args[1..]);
      assert head + (rest + [UNICODE] + Escape(a) + [NEWLINE]) == head + rest + [UNICODE] + Escape(a) + [NEWLINE];
    }
  }

  method PickleCommand(args: seq<seq<rune>>) returns (b: bytes)
    ensures b == Command(args)
  {
    hide CommandLines, Escape;
    b := [MARK];
    NoCommandLines(args[..0]);
    for i := 0 to |args|
      invariant b == [MARK] + CommandLines(args[..i])
    {
      ghost var before := CommandLines(args[..i]);
      CommandLinesStep(args, i);
      b := b + [UNICODE];
      var e := EscapeRawUnicode(args[i]);
      b := b + e;
      b := b + [NEWLINE];
      assert b == [MARK] + (before + ([UNICODE] + e + [NEWLINE]));
    }
    assert args[..|args|] == args;
    b := b + [LIST];
    b := b + [STOP];
  }

  lemma NoCommandLines(args: seq<seq<rune>>)
    requires args == []
    ensures CommandLines(args) == []
  {
  }

  lemma CommandLinesStep(args: seq<seq<rune>>, i: nat)
    requires i < |args|
    ensures CommandLines(args[..i + 1]) == CommandLines(args[..i]) + ([UNICODE] + Escape(args[i]) + [NEWLINE])
  {
    hide CommandLines, Escape;
    CommandLinesAppend(args[..i], args[i]);
    assert args[..i + 1] == args[..i] + [args[i]];
  }

  function LinePrograms(args: seq<seq<rune>>): seq<Program> {
    if args == [] then [] else [Lit(UnicodeLine(args[0]))] + LinePrograms(args[1..])
  }

  function Texts(args: seq<seq<rune>>): (vs: seq<Value>)
    ensures |vs| == |args|
    ensures forall i :: 0 <= i < |args| ==> vs[i] == Str(Encoded(args[i]))
  {
    if args == [] then [] else [Str(Encoded(args[0]))] + Texts(args[1..])
  }

  lemma {:induction false} CommandIsProgram(host: Host, args: seq<seq<rune>>)
    ensures EmitAll(LinePrograms(args)) == CommandLines(args)
    ensures (forall a :: a in args ==> InBmp(a)) ==>
              EvalAll(host, LinePrograms(args), map[]) == Some((Texts(args), map[]))
  {
    hide Escape, Unescape, Encoded;
    if args != [] {
      CommandIsProgram(host, args[1..]);
      assert LinePrograms(args)[1..] == LinePrograms(args[1..]);
      LineIsProgram(host, args[0]);
      if forall a :: a in args ==> InBmp(a) {
        assert args[0] in args;
      }
    }
  }

  /** One line of a command. */
  lemma LineIsProgram(host: Host, a: seq<rune>)
    ensures Emit(Lit(UnicodeLine(a))) == [UNICODE] + Escape(a) + [NEWLINE]
    ensures InBmp(a) ==> Eval(host, Lit(UnicodeLine(a)), map[]) == Some((Str(Encoded(a)), map[]))
  {
  }

  /** Command round trip: the server side of the protocol, decoding a command, gets back
      exactly the argument strings, whatever backslashes, newlines, dots or non-ASCII
      characters of the Basic Multilingual Plane they hold. */
  lemma CommandRoundTrip(host: Host, args: seq<seq<rune>>)
    requires |Command(args)| < TWO_63
    requires forall a :: a in args ==> InBmp(a)
    ensures Unpickle(host, Command(args)) == Done(List(Texts(args)))
  {
    CommandIsProgram(host, args);
    var p := Marked(LIST, LinePrograms(args));
    assert Emit(p) + [STOP] == Command(args);
    ProgramUnpickles(host, p);
  }

  /** The bytes that go over the socket, for arguments of printable ASCII: an opening parenthesis, for
      each argument a V, the argument and a newline, and at the end an l and a full stop. */
  lemma PlainCommandBytes(a: bytes, b: bytes)
    requires forall c :: c in a + b ==> 0x20 <= c <= 0x7E && c != 0x5C
    ensures Command([a, b]) == [0x28] + ([0x56] + a + [0x0A]) + ([0x56] + b + [0x0A]) + [0x6C, 0x2E]
  {
    hide Escape, CommandLines;
    assert forall i :: 0 <= i < |a| ==> a[i] in a + b;
    assert forall i :: 0 <= i < |b| ==> b[i] in a + b;
    PlainLine(a, [b]);
    PlainLine(b, []);
    NoCommandLines([]);
    assert [a] + [b] == [a, b] && [b] + [] == [b];
  }

  lemma PlainLine(a: bytes, rest: seq<seq<rune>>)
    requires forall i :: 0 <= i < |a| ==> 0x20 <= a[i] <= 0x7E && a[i] != 0x5C
    ensures CommandLines([a] + rest) == [0x56] + a + [0x0A] + CommandLines(rest)
  {
    hide Escape;
    PlainIsSentAsItIs(a);
    assert Escape(a) == a;
    assert ([a] + rest)[1..] == rest;
  }

  // ----- responses -----

  datatype Reply = Payload(v: Value) | BadShape | BadCode | ServerError(v: Value)

  /** interpretResponse. */
  function Interpret(v: Value): (r: Reply)
    ensures r.Payload? ==> v == List([Int(0), r.v])
    ensures forall n, x :: v == List([Int(n), x]) ==> r == if n == 0 then Payload(x) else ServerError(x)
    ensures r == BadShape <==> !v.List? || |v.items| != 2
    ensures r == BadCode <==> v.List? && |v.items| == 2 && !v.items[0].Int?
  {
    if !v.List? || |v.items| != 2 then BadShape
    else if !v.items[0].Int? then BadCode
    else if v.items[0].i != 0 then ServerError(v.items[1])
    else Payload(v.items[1])
  }

  function Pong(text: bytes): Program {
    Headed(Proto(4), Headed(Frame(12), Memoized(Short([Lit(Int1(0)), Memoized(Lit(Unicode(text, 1)))]))))
  }

  lemma PongEmits(text: bytes)
    requires |text| == 4
    ensures Emit(Pong(text)) == [0x80, 0x04, 0x95, 0x0C, 0, 0, 0, 0, 0, 0, 0, 0x4B, 0x00, 0x8C, 0x04] + text + [0x94, 0x86, 0x94]
  {
    hide Emit;
    var zero, pong := Lit(Int1(0)), Memoized(Lit(Unicode(text, 1)));
    PartsEmit(text);
    PairEmits(zero, pong, [0x4B, 0x00], [0x8C, 0x04] + text + [0x94]);
    var code := [0x4B, 0x00] + ([0x8C, 0x04] + text + [0x94]) + [0x86];
    assert code == [0x4B, 0x00, 0x8C, 0x04] + text + [0x94, 0x86];
    PongHeads(Short([zero, pong]), code);
  }

  lemma PartsEmit(text: bytes)
    requires |text| == 4
    ensures Emit(Lit(Int1(0))) == [0x4B, 0x00]
    ensures Emit(Memoized(Lit(Unicode(text, 1)))) == [0x8C, 0x04] + text + [0x94]
  {
    assert ToLE(0, 0) == [];
    assert ToLE(0, 1) == [0] && ToLE(4, 1) == [4];
    assert Emit(Lit(Unicode(text, 1))) == [0x8C] + ([4] + text);
  }

  lemma PairEmits(a: Program, b: Program, x: bytes, y: bytes)
    requires Emit(a) == x && Emit(b) == y
    ensures Emit(Short([a, b])) == x + y + [0x86]
  {
    var items := [a, b];
    assert items[1..] == [b] && [b][1..] == [];
    assert EmitAll([b]) == y + EmitAll([]);
    assert EmitAll(items) == x + EmitAll([b]);
    assert x + (y + []) == x + y;
  }

  lemma PongHeads(pair: Program, code: bytes)
    requires Emit(pair) == code
    ensures Emit(Headed(Proto(4), Headed(Frame(12), Memoized(pair)))) ==
            [0x80, 0x04, 0x95, 0x0C, 0, 0, 0, 0, 0, 0, 0] + code + [0x94]
  {
    hide Emit, ToLE;
    FrameLength();
    WrapperEmits(Frame(12), pair);
    WrapperEmits(Frame(12), Memoized(pair));
    WrapperEmits(Proto(4), Headed(Frame(12), Memoized(pair)));
  }

  lemma WrapperEmits(h: Header, p: Program)
    ensures Emit(Memoized(p)) == Emit(p) + [MEMOIZE] && Emit(Headed(h, p)) == HeaderBytes(h) + Emit(p)
  {
  }

  lemma FrameLength()
    ensures ToLE(12, 8) == [0x0C, 0, 0, 0, 0, 0, 0, 0]
  {
    assert ToLE(0, 4) == [0, 0, 0, 0] by {
      assert ToLE(0, 2) == [0, 0] by {
        assert ToLE(0, 0) == [];
      }
    }
    assert ToLE(0, 7) == [0, 0, 0] + ToLE(0, 4);
  }

  lemma PongMeans(host: Host, text: bytes)
    requires |text| == 4
    ensures Eval(host, Pong(text), map[]).Some? && Eval(host, Pong(text), map[]).value.0 == List([Int(0), Str(text)])
  {
    var zero, pong := Lit(Int1(0)), Memoized(Lit(Unicode(text, 1)));
    var items := [zero, pong];
    Pow256Values();
    assert Eval(host, zero, map[]) == Some((Int(0), map[]));
    assert Eval(host, pong, map[]) == Some((Str(text), map[0 := Str(text)]));
    assert items[1..] == [pong] && items[1..][1..] == [];
    assert EvalAll(host, [], map[0 := Str(text)]) == Some(([], map[0 := Str(text)]));
    assert EvalAll(host, items[1..], map[]) == Some(([Str(text)] + [], map[0 := Str(text)]));
    assert EvalAll(host, items, map[]) == Some(([Int(0)] + ([Str(text)] + []), map[0 := Str(text)]));
    assert [Int(0)] + ([Str(text)] + []) == [Int(0), Str(text)];
    PairHeads(host, Short(items), List([Int(0), Str(text)]));
  }

  lemma PairHeads(host: Host, pair: Program, v: Value)
    requires Eval(host, pair, map[]).Some? && Eval(host, pair, map[]).value.0 == v
    ensures var r := Eval(host, Headed(Proto(4), Headed(Frame(12), Memoized(pair))), map[]); r.Some? && r.value.0 == v
  {
    var memo := Eval(host, pair, map[]).value.1;
    assert Eval(host, Memoized(pair), map[]) == Some((v, memo[|memo| := v]));
    assert Eval(host, Headed(Frame(12), Memoized(pair)), map[]) == Eval(host, Memoized(pair), map[]);
  }

  /** The bytes Python pickles (0, 'pong') to, with protocol 4: header, frame, a small number, a short
      text, a pair, each remembered; read as the payload pong. */
  lemma PongIsRead(host: Host)
    ensures var answer := [0x80, 0x04, 0x95, 0x0C, 0, 0, 0, 0, 0, 0, 0, 0x4B, 0x00, 0x8C, 0x04, 0x70, 0x6F, 0x6E, 0x67, 0x94,
                           0x86, 0x94, 0x2E];
            var r := Unpickle(host, answer);
            r.Done? && Interpret(r.v) == Payload(Str([0x70, 0x6F, 0x6E, 0x67]))
  {
    hide Emit, Eval, Run, Pong;
    var text: bytes := [0x70, 0x6F, 0x6E, 0x67];
    PongEmits(text);
    PongMeans(host, text);
    ProgramUnpickles(host, Pong(text));
    assert Emit(Pong(text)) + [STOP] ==
      [0x80, 0x04, 0x95, 0x0C, 0, 0, 0, 0, 0, 0, 0, 0x4B, 0x00, 0x8C, 0x04, 0x70, 0x6F, 0x6E, 0x67, 0x94, 0x86, 0x94, 0x2E];
  }

  /** A success answer carrying any tree is decoded and unwrapped to that tree. */
  lemma ResponseRoundTrip(host: Host, v: Value)
    requires IsTree(v)
    requires var data := Emit(Plan(List([Int(0), v]))) + [STOP]; |data| < TWO_63
    ensures var r := Unpickle(host, Emit(Plan(List([Int(0), v]))) + [STOP]);
            r.Done? && Interpret(r.v) == Payload(v)
  {
    TreeRoundTrip(host, List([Int(0), v]));
  }
}
