/** The unpickler as the source runs it: an object whose cursor, stack and memo each opcode
    updates in place. Every method is proved to do what Pickle.Execute says. */
module Unpickler {
  import opened Numbers
  import opened RawUnicode
  import opened Pickle

  /** What a step reports: nil, errStop, an error, or a slice out of range. */
  datatype Signal = Continue | Halt | Error(err: Pickle.Error) | Panic

  /** The signal and the state agree with the specified outcome. */
  predicate Agrees(sig: Signal, vm: VM, r: Step) {
    match r
    case Next(vm') => sig == Continue && vm == vm'
    case Stop(vm') => sig == Halt && vm == vm'
    case Fail(e) => sig == Error(e)
    case Fault => sig == Panic
  }

  predicate AgreesFetch(b: bytes, sig: Signal, vm: VM, f: Fetch) {
    match f
    case Got(b', vm') => sig == Continue && b == b' && vm == vm'
    case Miss(e) => sig == Error(e)
    case Overflow => sig == Panic
  }

  class Unpickler {
    const host: Host
    const data: bytes
    var pos: nat
    var stack: seq<Value>
    var memo: map<int, Value>

    constructor (host: Host, data: bytes)
      ensures this.host == host && this.data == data
      ensures State() == START
    {
      this.host, this.data := host, data;
      pos, stack, memo := 0, [], map[];
    }

    function State(): VM
      reads this
    {
      VM(pos, stack, memo)
    }

    method Push(v: Value)
      modifies this
      ensures State() == old(State()).Push(v)
    {
      stack := stack + [v];
    }

    method Pop() returns (v: Value, sig: Signal)
      modifies this
      ensures old(stack) == [] ==> sig == Error(PopEmpty) && State() == old(State())
      ensures old(stack) != [] ==>
                && sig == Continue
                && old(stack) == stack + [v]
                && pos == old(pos) && memo == old(memo)
    {
      if |stack| == 0 {
        return Nil, Error(PopEmpty);
      }
      v := stack[|stack| - 1];
      stack := stack[..|stack| - 1];
      sig := Continue;
    }

    method PopMark() returns (items: seq<Value>, sig: Signal)
      modifies this
      ensures pos == old(pos) && memo == old(memo)
      ensures TopMark(old(stack)).None? ==> sig == Error(MarkNotFound) && stack == old(stack)
      ensures TopMark(old(stack)).Some? ==>
                && sig == Continue
                && stack == old(stack)[..TopMark(old(stack)).value]
                && items == old(stack)[TopMark(old(stack)).value + 1..]
    {
      var i := |stack| - 1;
      while i >= 0
        invariant -1 <= i < |stack|
        invariant forall j :: i < j < |stack| ==> !stack[j].Mark?
        invariant State() == old(State())
      {
        if stack[i].Mark? {
          items := stack[i + 1..];
          stack := stack[..i];
          return items, Continue;
        }
        i := i - 1;
      }
      return [], Error(MarkNotFound);
    }

    method ReadBytes(n: int) returns (b: bytes, sig: Signal)
      requires pos <= |data|
      modifies this
      ensures AgreesFetch(b, sig, State(), Pickle.Read(data, old(State()), n))
      ensures pos <= |data|
    {
      var end := Wrap64(pos + n);
      if n < 0 || end > |data| {
        return [], Error(EndOfStream);
      }
      if end < pos {
        return [], Panic;
      }
      b := data[pos..end];
      pos := end;
      sig := Continue;
    }

    method ReadTextLine() returns (line: bytes, sig: Signal)
      requires pos <= |data|
      modifies this
      ensures AgreesFetch(line, sig, State(), Pickle.ReadLine(data, old(State())))
      ensures pos <= |data|
    {
      var idx := IndexNewline(data[pos..]);
      if idx.None? {
        return [], Error(UnterminatedLine);
      }
      line := data[pos..pos + idx.value];
      pos := pos + idx.value + 1;
      sig := Continue;
    }

    /** A counted read: the length bytes, then that many bytes. */
    method ReadSized(width: nat) returns (b: bytes, sig: Signal)
      requires pos <= |data|
      modifies this
      ensures AgreesFetch(b, sig, State(), ReadCounted(data, old(State()), width))
      ensures pos <= |data|
    {
      var nb: bytes;
      nb, sig := ReadBytes(width);
      if sig != Continue {
        return [], sig;
      }
      b, sig := ReadBytes(Wrap64(FromLE(nb)));
    }

    method AppendItems(items: seq<Value>) returns (sig: Signal)
      modifies this
      ensures Agrees(sig, State(), AppendTo(old(State()), items))
      ensures pos == old(pos)
    {
      if |stack| == 0 {
        return Error(AppendToEmpty);
      }
      var top := stack[|stack| - 1];
      if !top.List? {
        return Error(AppendTarget);
      }
      stack := stack[|stack| - 1 := List(top.items + items)];
      sig := Continue;
    }

    method SetAll(kv: seq<Value>) returns (sig: Signal)
      modifies this
      ensures Agrees(sig, State(), SetItems(host, old(State()), kv))
      ensures pos == old(pos)
    {
      if |stack| == 0 {
        return Error(SetItemOnEmpty);
      }
      var top := stack[|stack| - 1];
      if !top.Dict? {
        return Error(SetItemTarget);
      }
      var m := SetLoop(host, top.entries, kv);
      stack := stack[|stack| - 1 := Dict(m)];
      sig := Continue;
    }

    method Step(op: byte) returns (sig: Signal)
      requires pos <= |data|
      modifies this
      ensures Agrees(sig, State(), Execute(host, data, op, old(State())))
      ensures sig == Continue ==> old(pos) <= pos <= |data|
    {
      var b: bytes;
      if op == PROTO {
        b, sig := ReadBytes(1);
      } else if op == FRAME {
        b, sig := ReadBytes(8);
      } else if op == STOP {
        sig := Halt;
      } else {
        sig := StepStructure(op);
      }
    }

    method StepStructure(op: byte) returns (sig: Signal)
      requires pos <= |data|
      modifies this
      ensures Agrees(sig, State(), Structure(host, data, op, old(State())))
    {
      sig := Continue;
      if op == MARK {
        Push(Mark);
      } else if op == EMPTY_TUPLE || op == EMPTY_LIST || op == EMPTY_SET {
        Push(List([]));
      } else if op == EMPTY_DICT {
        Push(Dict(map[]));
      } else if TUPLE1 <= op <= TUPLE3 {
        var n := op - 0x84;
        if |stack| < n {
          return Error(ShortStack);
        }
        var items := stack[|stack| - n..];
        stack := stack[..|stack| - n];
        Push(List(items));
      } else {
        sig := StepAssemble(op);
      }
    }

    method StepAssemble(op: byte) returns (sig: Signal)
      requires pos <= |data|
      modifies this
      ensures Agrees(sig, State(), Assemble(host, data, op, old(State())))
    {
      if op == APPEND {
        var v;
        v, sig := Pop();
        if sig != Continue {
          return;
        }
        assert [v] == [old(stack)[|old(stack)| - 1]] && stack == old(stack)[..|old(stack)| - 1];
        sig := AppendItems([v]);
      } else if op == SETITEM {
        sig := StepSetItem();
      } else if op == TUPLE || op == LIST || op == APPENDS || op == ADDITEMS || op == DICT || op == SETITEMS {
        var items;
        items, sig := PopMark();
        if sig != Continue {
          return;
        }
        sig := StepGathered(op, items);
      } else {
        sig := StepNumber(op);
      }
    }

    method StepSetItem() returns (sig: Signal)
      requires pos <= |data|
      modifies this
      ensures Agrees(sig, State(), Assemble(host, data, SETITEM, old(State())))
    {
      hide Number;
      var k, v;
      v, sig := Pop();
      if sig != Continue {
        return;
      }
      k, sig := Pop();
      if sig != Continue {
        return;
      }
      assert old(stack) == stack + [k] + [v];
      assert stack == old(stack)[..|old(stack)| - 2];
      sig := SetAll([k, v]);
    }

    method StepGathered(op: byte, items: seq<Value>) returns (sig: Signal)
      modifies this
      ensures Agrees(sig, State(), Gathered(host, op, old(State()), items))
    {
      sig := Continue;
      if op == TUPLE || op == LIST {
        Push(List(items));
      } else if op == DICT {
        var m := SetLoop(host, map[], items);
        Push(Dict(m));
      } else if op == SETITEMS {
        sig := SetAll(items);
      } else {
        sig := AppendItems(items);
      }
    }

    method StepNumber(op: byte) returns (sig: Signal)
      requires pos <= |data|
      modifies this
      ensures Agrees(sig, State(), Number(host, data, op, old(State())))
    {
      hide Read, ReadLine, ReadCounted, Text;
      var b: bytes;
      sig := Continue;
      if op == NONE {
        Push(Nil);
      } else if op == NEWTRUE {
        Push(Bool(true));
      } else if op == NEWFALSE {
        Push(Bool(false));
      } else if op == BININT1 || op == BININT2 || op == BININT {
        b, sig := ReadBytes(if op == BININT1 then 1 else if op == BININT2 then 2 else 4);
        if sig == Continue {
          Push(Int(if op == BININT then Signed32(FromLE(b)) else FromLE(b)));
        }
      } else if op == LONG1 {
        b, sig := ReadSized(1);
        if sig == Continue {
          var n := DecodeLongLE(b);
          Push(Int(n));
        }
      } else if op == INT || op == LONG || op == FLOAT {
        sig := StepNumberLine(op);
      } else if op == BINFLOAT {
        b, sig := ReadBytes(8);
        if sig == Continue {
          Push(Float(FromBE(b)));
        }
      } else {
        sig := StepText(op);
      }
    }

    method StepNumberLine(op: byte) returns (sig: Signal)
      requires pos <= |data| && (op == INT || op == LONG || op == FLOAT)
      modifies this
      ensures Agrees(sig, State(), Number(host, data, op, old(State())))
    {
      hide Read, ReadLine, ReadCounted, Text, ParseInt;
      var line: bytes;
      line, sig := ReadTextLine();
      if sig != Continue {
        return;
      }
      if op == INT {
        if line == [0x30, 0x30] {
          Push(Bool(false));
        } else if line == [0x30, 0x31] {
          Push(Bool(true));
        } else {
          var n := ParseInt(Chars(line));
          if n.None? {
            return Error(BadInt);
          }
          Push(Int(n.value));
        }
      } else if op == LONG {
        var n := ParseInt(Chars(TrimL(line)));
        if n.None? {
          return Error(BadLong);
        }
        Push(Int(n.value));
      } else {
        var f := host.parseFloat(line);
        if f.None? {
          return Error(BadFloat);
        }
        Push(Float(f.value));
      }
    }

    method StepText(op: byte) returns (sig: Signal)
      requires pos <= |data|
      modifies this
      ensures Agrees(sig, State(), Text(host, data, op, old(State())))
    {
      hide Read, ReadLine, ReadCounted, Memory;
      var b: bytes;
      if op == SHORT_BINUNICODE || op == SHORT_BINSTRING || op == BINUNICODE || op == BINSTRING || op == BINUNICODE8 {
        b, sig := ReadSized(if op == SHORT_BINUNICODE || op == SHORT_BINSTRING then 1
                            else if op == BINUNICODE8 then 8 else 4);
        if sig == Continue {
          Push(Str(b));
        }
      } else if op == UNICODE {
        b, sig := ReadTextLine();
        if sig == Continue {
          var s := UnescapeRawUnicode(b);
          Push(Str(s));
        }
      } else if op == STRING {
        b, sig := ReadTextLine();
        if sig == Continue {
          var s := UnquotePyString(b);
          Push(Str(s));
        }
      } else if op == SHORT_BINBYTES || op == BINBYTES {
        b, sig := ReadSized(if op == SHORT_BINBYTES then 1 else 4);
        if sig == Continue {
          Push(Blob(b));
        }
      } else {
        sig := StepMemory(op);
      }
    }

    method PutTop(i: int) returns (sig: Signal)
      modifies this
      ensures Agrees(sig, State(), PutAt(old(State()), i))
    {
      if |stack| == 0 {
        return Error(PutOnEmpty);
      }
      memo := memo[i := stack[|stack| - 1]];
      sig := Continue;
    }

    method StepMemory(op: byte) returns (sig: Signal)
      requires pos <= |data|
      modifies this
      ensures Agrees(sig, State(), Memory(host, data, op, old(State())))
    {
      hide Read, ReadLine, ReadCounted, Instance, ParseInt;
      var b: bytes;
      if op == MEMOIZE {
        if |stack| == 0 {
          return Error(MemoizeOnEmpty);
        }
        memo := memo[|memo| := stack[|stack| - 1]];
        sig := Continue;
      } else if op == BINPUT || op == LONG_BINPUT {
        b, sig := ReadBytes(if op == BINPUT then 1 else 4);
        if sig == Continue {
          sig := PutTop(FromLE(b));
        }
      } else if op == BINGET || op == LONG_BINGET {
        b, sig := ReadBytes(if op == BINGET then 1 else 4);
        if sig == Continue {
          Push(State().Recall(FromLE(b)));
        }
      } else if op == PUT || op == GET {
        b, sig := ReadTextLine();
        if sig == Continue {
          var i := ParseInt(Chars(b));
          if i.None? {
            return Error(if op == PUT then BadPut else BadGet);
          }
          if op == PUT {
            sig := PutTop(i.value);
          } else {
            Push(State().Recall(i.value));
          }
        }
      } else {
        sig := StepInstance(op);
      }
    }

    method StepInstance(op: byte) returns (sig: Signal)
      requires pos <= |data|
      modifies this
      ensures Agrees(sig, State(), Instance(host, data, op, old(State())))
    {
      hide Read, ReadLine, ReadCounted;
      var v, w;
      if op == GLOBAL {
        var mod, name;
        mod, sig := ReadTextLine();
        if sig == Continue {
          name, sig := ReadTextLine();
          if sig == Continue {
            Push(Class(PyClass(mod, name)));
          }
        }
      } else if op == STACK_GLOBAL || op == REDUCE || op == NEWOBJ {
        v, sig := Pop();
        if sig != Continue {
          return;
        }
        w, sig := Pop();
        if sig != Continue {
          return;
        }
        assert old(stack) == stack + [w] + [v];
        assert stack == old(stack)[..|old(stack)| - 2];
        if op == STACK_GLOBAL {
          Push(Class(PyClass(host.stringify(w), host.stringify(v))));
        } else {
          Push(Object(ClassOf(host, w), if v.List? then v.items else [], Nil));
        }
      } else if op == BUILD {
        v, sig := Pop();
        if sig != Continue {
          return;
        }
        assert stack == old(stack)[..|old(stack)| - 1];
        if |stack| > 0 {
          var top := stack[|stack| - 1];
          if top.Object? {
            stack := stack[|stack| - 1 := top.(state := v)];
            assert stack == old(stack)[..|old(stack)| - 2] + [top.(state := v)];
          }
        }
      } else {
        sig := Error(Unsupported(op, pos - 1));
      }
    }
  }

  /** The key/value loop of DICT and of setItems. */
  method SetLoop(host: Host, m0: map<Key, Value>, kv: seq<Value>) returns (m: map<Key, Value>)
    ensures m == SetPairs(host, m0, kv)
  {
    m := m0;
    var i := 0;
    assert kv[0..] == kv;
    while i + 1 < |kv|
      invariant 0 <= i <= |kv|
      invariant SetPairs(host, m0, kv) == SetPairs(host, m, kv[i..])
    {
      assert kv[i..][2..] == kv[i + 2..];
      m := m[MapKey(host, kv[i]) := kv[i + 1]];
      i := i + 2;
    }
  }

  lemma {:induction false} NothingToResolve(s: bytes)
    requires BACKSLASH !in s
    ensures ResolveEscapes(s) == s
  {
    if s != [] {
      assert s[0] in s;
      NothingToResolve(s[1..]);
    }
  }

  /** One turn of the escape loop: the bytes written and how far the index moves. */
  function EscapeTurn(t: bytes, i: nat): (r: (bytes, nat))
    requires i < |t|
    ensures i < r.1 <= |t|
    ensures ResolveEscapes(t[i..]) == r.0 + ResolveEscapes(t[r.1..])
  {
    var rest := t[i..];
    assert |rest| > 1 ==> rest[2..] == t[i + 2..];
    assert |rest| > 3 ==> rest[4..] == t[i + 4..];
    assert rest[1..] == t[i + 1..];
    hide ParseHex2, EscapedByte;
    if t[i] == BACKSLASH && i + 1 < |t| then
      if t[i + 1] == 0x78 && i + 3 < |t| && ParseHex2(t[i + 2], t[i + 3]).Some?
      then ([ParseHex2(t[i + 2], t[i + 3]).value], i + 4)
      else ([EscapedByte(t[i + 1])], i + 2)
    else ([t[i]], i + 1)
  }

  method UnquotePyString(s: bytes) returns (b: bytes)
    ensures b == Unquote(s)
  {
    hide ResolveEscapes, ParseHex2, EscapedByte, StripQuotes;
    var t := StripQuotes(s);
    if BACKSLASH !in t {
      NothingToResolve(t);
      return t;
    }
    b := [];
    var i := 0;
    assert t[0..] == t;
    while i < |t|
      invariant 0 <= i <= |t|
      invariant ResolveEscapes(t) == b + ResolveEscapes(t[i..])
    {
      ghost var turn := EscapeTurn(t, i);
      assert b + (turn.0 + ResolveEscapes(t[turn.1..])) == b + turn.0 + ResolveEscapes(t[turn.1..]);
      if t[i] == BACKSLASH && i + 1 < |t| {
        if t[i + 1] == 0x78 && i + 3 < |t| {
          var n := ParseHex2(t[i + 2], t[i + 3]);
          if n.Some? {
            b := b + [n.value];
            i := i + 4;
            continue;
          }
        }
        b := b + [EscapedByte(t[i + 1])];
        i := i + 2;
      } else {
        b := b + [t[i]];
        i := i + 1;
      }
    }
    NothingToResolve([]);
    assert t[|t|..] == [];
  }

  lemma EndOfData(host: Host, data: bytes, vm: VM)
    requires vm.pos == |data|
    ensures Run(host, data, vm) == Failed(EndOfStream)
  {
  }

  lemma RunTurns(host: Host, data: bytes, vm: VM)
    requires vm.pos < |data|
    ensures var r := Execute(host, data, data[vm.pos], vm.(pos := vm.pos + 1));
            Run(host, data, vm) == if r.Next? then Run(host, data, r.vm) else Final(r)
  {
    hide Execute;
  }

  method Unpickle(host: Host, data: bytes) returns (r: Result)
    ensures r == Run(host, data, START)
  {
    hide Execute, Run;
    var u := new Unpickler(host, data);
    while true
      invariant u.pos <= |data| && u.data == data && u.host == host
      invariant Run(host, data, START) == Run(host, data, u.State())
      decreases |data| - u.pos
    {
      if u.pos >= |data| {
        EndOfData(host, data, u.State());
        return Failed(EndOfStream);
      }
      RunTurns(host, data, u.State());
      var op := data[u.pos];
      u.pos := u.pos + 1;
      var sig := u.Step(op);
      if sig == Halt {
        if |u.stack| == 0 {
          return Failed(EmptyAtStop);
        }
        return Done(u.stack[|u.stack| - 1]);
      }
      if sig == Panic {
        return Faulted;
      }
      if sig != Continue {
        return Failed(sig.err);
      }
    }
  }
}
