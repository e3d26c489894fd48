/** The unpickler of internal/f2b/pickle.go: a stack machine over a byte string, with marks
    and a memo. Execute is the meaning of one opcode; the class Unpickler runs it in place. */
module Pickle {
  import opened Numbers
  import opened RawUnicode

  datatype PyClass = PyClass(mod: bytes, name: bytes)

  /** What a Go map[any]any can be keyed by after mapKey. Floats are IEEE-754 bit patterns. */
  datatype Key = NilKey | BoolKey(b: bool) | IntKey(i: int) | FloatKey(bits: nat) | StrKey(s: bytes)

  /** Everything the machine's stack holds. Lists and tuples are both Go []any. */
  datatype Value =
    | Nil
    | Bool(b: bool)
    | Int(i: int)
    | Float(bits: nat)
    | Str(s: bytes)
    | Blob(s: bytes)
    | List(items: seq<Value>)
    | Dict(entries: map<Key, Value>)
    | Class(cls: PyClass)
    | Object(of: PyClass, args: seq<Value>, state: Value)
    | Mark

  datatype Error =
    | EndOfStream | EmptyAtStop | PopEmpty | MarkNotFound | UnterminatedLine | ShortStack
    | AppendToEmpty | AppendTarget | SetItemOnEmpty | SetItemTarget
    | BadInt | BadLong | BadFloat | BadPut | BadGet
    | MemoizeOnEmpty | PutOnEmpty
    | Unsupported(op: byte, offset: int)

  /** Library calls that stay abstract: rendering a value as text and parsing a float. */
  datatype Host = Host(stringify: Value -> bytes, parseFloat: bytes -> Option<nat>)

  datatype VM = VM(pos: nat, stack: seq<Value>, memo: map<int, Value>) {
    function Push(v: Value): VM { this.(stack := stack + [v]) }

    function Remember(i: int, v: Value): VM { this.(memo := memo[i := v]) }

    /** A missing memo entry reads as Go's zero value. */
    function Recall(i: int): Value { if i in memo then memo[i] else Nil }
  }

  /** The outcome of one opcode. Fault is a slice expression out of range. */
  datatype Step = Next(vm: VM) | Stop(vm: VM) | Fail(err: Error) | Fault

  /** A read either yields bytes and a moved cursor, or decides the step. */
  datatype Fetch = Got(b: bytes, vm: VM) | Miss(err: Error) | Overflow {
    predicate IsFailure() { !Got? }

    function PropagateFailure(): Step
      requires !Got?
    {
      if Miss? then Fail(err) else Fault
    }

    function Extract(): (bytes, VM)
      requires Got?
    {
      (b, vm)
    }
  }

  /** read: the bounds check adds two 64-bit integers, so it wraps. */
  function Read(data: bytes, vm: VM, n: int): (f: Fetch)
    requires vm.pos <= |data|
    ensures f.Got? ==> vm.pos <= f.vm.pos <= |data| && f.vm == vm.(pos := f.vm.pos)
    ensures f.Got? ==> f.b == data[vm.pos..f.vm.pos]
    ensures f.Got? && IsInt64(vm.pos + n) ==> |f.b| == n
  {
    var end := Wrap64(vm.pos + n);
    if n < 0 || end > |data| then Miss(EndOfStream)
    else if end < vm.pos then Overflow
    else Got(data[vm.pos..end], vm.(pos := end))
  }

  /** bytes.IndexByte(s, '\n'). */
  function IndexNewline(s: bytes): (i: Option<nat>)
    ensures i.Some? ==> i.value < |s| && s[i.value] == NEWLINE && NEWLINE !in s[..i.value]
    ensures i.None? ==> NEWLINE !in s
  {
    if s == [] then None
    else if s[0] == NEWLINE then Some(0)
    else match IndexNewline(s[1..])
    case Some(i) => assert s[..i + 1] == [s[0]] + s[1..][..i]; Some(i + 1)
    case None => None
  }

  function ReadLine(data: bytes, vm: VM): (f: Fetch)
    requires vm.pos <= |data|
    ensures f.Got? ==> vm.pos < f.vm.pos <= |data| && f.vm == vm.(pos := f.vm.pos)
    ensures f.Got? ==> f.b + [NEWLINE] == data[vm.pos..f.vm.pos] && NEWLINE !in f.b
  {
    match IndexNewline(data[vm.pos..])
    case None => Miss(UnterminatedLine)
    case Some(i) => Got(data[vm.pos..vm.pos + i], vm.(pos := vm.pos + i + 1))
  }

  /** A length in little-endian, then that many bytes. The length is converted to a signed
      64-bit int before it is checked. */
  function ReadCounted(data: bytes, vm: VM, width: nat): (f: Fetch)
    requires vm.pos <= |data|
    ensures f.Got? ==> vm.pos <= f.vm.pos <= |data| && f.vm == vm.(pos := f.vm.pos)
  {
    match Read(data, vm, width)
    case Got(nb, vm') => Read(data, vm', Wrap64(FromLE(nb)))
    case f => f
  }

  /** Index of the topmost mark. */
  function TopMark(stack: seq<Value>): (i: Option<nat>)
    ensures i.Some? ==> i.value < |stack| && stack[i.value].Mark?
    ensures i.Some? ==> forall j :: i.value < j < |stack| ==> !stack[j].Mark?
    ensures i.None? ==> forall j :: 0 <= j < |stack| ==> !stack[j].Mark?
  {
    if stack == [] then None
    else if stack[|stack| - 1].Mark? then Some(|stack| - 1)
    else TopMark(stack[..|stack| - 1])
  }

  function MapKey(host: Host, v: Value): Key {
    match v
    case Nil => NilKey
    case Bool(b) => BoolKey(b)
    case Int(i) => IntKey(i)
    case Float(bits) => FloatKey(bits)
    case Str(s) => StrKey(s)
    case _ => StrKey(host.stringify(v))
  }

  /** Key/value pairs applied in order; an odd last value is ignored. */
  function SetPairs(host: Host, m: map<Key, Value>, kv: seq<Value>): map<Key, Value>
    decreases kv
  {
    if |kv| < 2 then m
    else SetPairs(host, m[MapKey(host, kv[0]) := kv[1]], kv[2..])
  }

  /** appendTo: extends the list on top of the stack. */
  function AppendTo(vm: VM, items: seq<Value>): (r: Step)
    ensures r.Next? ==> r.vm.pos == vm.pos && |r.vm.stack| == |vm.stack|
    ensures !r.Stop? && !r.Fault?
  {
    var n := |vm.stack|;
    if n == 0 then Fail(AppendToEmpty)
    else if !vm.stack[n - 1].List? then Fail(AppendTarget)
    else Next(vm.(stack := vm.stack[n - 1 := List(vm.stack[n - 1].items + items)]))
  }

  /** setItems: updates the dict on top of the stack. */
  function SetItems(host: Host, vm: VM, kv: seq<Value>): (r: Step)
    ensures r.Next? ==> r.vm.pos == vm.pos && |r.vm.stack| == |vm.stack|
    ensures !r.Stop? && !r.Fault?
  {
    var n := |vm.stack|;
    if n == 0 then Fail(SetItemOnEmpty)
    else if !vm.stack[n - 1].Dict? then Fail(SetItemTarget)
    else Next(vm.(stack := vm.stack[n - 1 := Dict(SetPairs(host, vm.stack[n - 1].entries, kv))]))
  }

  // ----- repr-quoted strings (the STRING opcode) -----

  function ParseHex2(a: byte, b: byte): Option<byte> {
    match (HexValue(a), HexValue(b))
    case (Some(x), Some(y)) =>
      HexValueBound(a); HexValueBound(b);
      Some(16 * x + y)
    case _ => None
  }

  /** The byte written for a backslash followed by c, other than a complete \x escape. */
  function EscapedByte(c: byte): byte {
    if c == 0x6E then 0x0A
    else if c == 0x74 then 0x09
    else if c == 0x72 then 0x0D
    else c
  }

  function ResolveEscapes(s: bytes): bytes {
    if s == [] then []
    else if s[0] == BACKSLASH && |s| > 1 then
      if s[1] == 0x78 && |s| > 3 && ParseHex2(s[2], s[3]).Some?
      then [ParseHex2(s[2], s[3]).value] + ResolveEscapes(s[4..])
      else [EscapedByte(s[1])] + ResolveEscapes(s[2..])
    else [s[0]] + ResolveEscapes(s[1..])
  }

  function StripQuotes(s: bytes): bytes {
    if |s| >= 2 && (s[0] == 0x27 || s[0] == 0x22) && s[|s| - 1] == s[0]
    then s[1..|s| - 1]
    else s
  }

  function Unquote(s: bytes): bytes { ResolveEscapes(StripQuotes(s)) }

  /** What a quoted line stands for: the text between the quotes, with n, t and r after a backslash
      standing for newline, tab and carriage return, an x and two hexadecimal digits for that byte, and
      any other character for itself. */
  lemma QuotedText(s: bytes, c: byte)
    ensures Unquote([0x27] + s + [0x27]) == ResolveEscapes(s) && Unquote([0x22] + s + [0x22]) == ResolveEscapes(s)
    ensures c != 0x5C ==> ResolveEscapes([c] + s) == [c] + ResolveEscapes(s)
    ensures ResolveEscapes([0x5C, 0x6E] + s) == [0x0A] + ResolveEscapes(s)
    ensures ResolveEscapes([0x5C, 0x74] + s) == [0x09] + ResolveEscapes(s)
    ensures ResolveEscapes([0x5C, 0x72] + s) == [0x0D] + ResolveEscapes(s)
    ensures c !in {0x6E, 0x74, 0x72, 0x78} ==> ResolveEscapes([0x5C, c] + s) == [c] + ResolveEscapes(s)
    ensures ResolveEscapes([0x5C, 0x78] + Hex2(c) + s) == [c] + ResolveEscapes(s)
  {
    hide ResolveEscapes;
    QuotesGo(s, 0x27);
    QuotesGo(s, 0x22);
    ResolvesPlain(s, c);
    ResolvesPlain(s, 0x6E);
    ResolvesPlain(s, 0x74);
    ResolvesPlain(s, 0x72);
    ResolvesHex(s, c);
  }

  function Hex2(c: byte): bytes { [HexDigit(c / 16), HexDigit(c % 16)] }

  lemma QuotesGo(s: bytes, q: byte)
    requires q == 0x27 || q == 0x22
    ensures Unquote([q] + s + [q]) == ResolveEscapes(s)
  {
    assert ([q] + s + [q])[1..|s| + 1] == s;
  }

  lemma ResolvesPlain(s: bytes, c: byte)
    ensures c != 0x5C ==> ResolveEscapes([c] + s) == [c] + ResolveEscapes(s)
    ensures c != 0x78 ==> ResolveEscapes([0x5C, c] + s) == [EscapedByte(c)] + ResolveEscapes(s)
  {
    assert ([c] + s)[1..] == s;
    assert ([0x5C, c] + s)[2..] == s;
  }

  lemma ResolvesHex(s: bytes, c: byte)
    ensures ResolveEscapes([0x5C, 0x78] + Hex2(c) + s) == [c] + ResolveEscapes(s)
  {
    var all := [0x5C, 0x78] + Hex2(c) + s;
    HexDigitValue(c / 16);
    HexDigitValue(c % 16);
    assert all[2] == HexDigit(c / 16) && all[3] == HexDigit(c % 16) && all[4..] == s;
    assert ParseHex2(all[2], all[3]) == Some(c);
  }

  function TrimL(s: bytes): bytes {
    if s != [] && s[|s| - 1] == 0x4C then s[..|s| - 1] else s
  }

  function Signed32(n: nat): int {
    if n >= 0x8000_0000 then n - 0x1_0000_0000 else n
  }

  /** binary.BigEndian.Uint64. */
  function FromBE(b: bytes): nat {
    if b == [] then 0 else 256 * FromBE(b[..|b| - 1]) + b[|b| - 1]
  }

  // ----- opcodes -----

  const PROTO: byte := 0x80
  const FRAME: byte := 0x95
  const STOP: byte := 0x2E
  const MARK: byte := 0x28
  const EMPTY_TUPLE: byte := 0x29
  const TUPLE: byte := 0x74
  const TUPLE1: byte := 0x85
  const TUPLE3: byte := 0x87
  const EMPTY_LIST: byte := 0x5D
  const LIST: byte := 0x6C
  const APPEND: byte := 0x61
  const APPENDS: byte := 0x65
  const EMPTY_DICT: byte := 0x7D
  const DICT: byte := 0x64
  const SETITEM: byte := 0x73
  const SETITEMS: byte := 0x75
  const EMPTY_SET: byte := 0x8F
  const ADDITEMS: byte := 0x90
  const NONE: byte := 0x4E
  const NEWTRUE: byte := 0x88
  const NEWFALSE: byte := 0x89
  const BININT1: byte := 0x4B
  const BININT2: byte := 0x4D
  const BININT: byte := 0x4A
  const LONG1: byte := 0x8A
  const INT: byte := 0x49
  const LONG: byte := 0x4C
  const BINFLOAT: byte := 0x47
  const FLOAT: byte := 0x46
  const SHORT_BINUNICODE: byte := 0x8C
  const BINUNICODE: byte := 0x58
  const BINUNICODE8: byte := 0x8D
  const UNICODE: byte := 0x56
  const STRING: byte := 0x53
  const SHORT_BINSTRING: byte := 0x55
  const BINSTRING: byte := 0x54
  const SHORT_BINBYTES: byte := 0x43
  const BINBYTES: byte := 0x42
  const MEMOIZE: byte := 0x94
  const BINPUT: byte := 0x71
  const LONG_BINPUT: byte := 0x72
  const PUT: byte := 0x70
  const BINGET: byte := 0x68
  const LONG_BINGET: byte := 0x6A
  const GET: byte := 0x67
  const GLOBAL: byte := 0x63
  const STACK_GLOBAL: byte := 0x93
  const REDUCE: byte := 0x52
  const NEWOBJ: byte := 0x81
  const BUILD: byte := 0x62

  /** The opcodes are the bytes of the pickle protocol, most of them letters and punctuation. */
  lemma OpcodeBytes()
    ensures [PROTO, FRAME, TUPLE1, TUPLE3, EMPTY_SET, ADDITEMS, NEWTRUE, NEWFALSE, LONG1, SHORT_BINUNICODE, BINUNICODE8,
             MEMOIZE, STACK_GLOBAL, NEWOBJ] ==
            [0x80, 0x95, 0x85, 0x87, 0x8F, 0x90, 0x88, 0x89, 0x8A, 0x8C, 0x8D, 0x94, 0x93, 0x81]
    ensures [STOP, MARK, EMPTY_TUPLE, TUPLE, EMPTY_LIST, LIST, APPEND, APPENDS, EMPTY_DICT, DICT, SETITEM, SETITEMS] ==
            Ascii(".()t]lae}dsu")
    ensures [NONE, BININT1, BININT2, BININT, INT, LONG, BINFLOAT, FLOAT] == Ascii("NKMJILGF")
    ensures [BINUNICODE, UNICODE, STRING, SHORT_BINSTRING, BINSTRING, SHORT_BINBYTES, BINBYTES] == Ascii("XVSUTCB")
    ensures [BINPUT, LONG_BINPUT, PUT, BINGET, LONG_BINGET, GET, GLOBAL, REDUCE, BUILD] == Ascii("qrphjgcRb")
  {
  }

  /** Every step keeps the cursor inside the data, never moves it back, and pushes at most
      one value. */
  ghost predicate Contained(data: bytes, vm: VM, r: Step) {
    match r
    case Next(vm') => vm.pos <= vm'.pos <= |data| && |vm'.stack| <= |vm.stack| + 1
    case Stop(vm') => vm' == vm
    case _ => true
  }

  /** The effect of opcode op, whose byte the cursor has just passed. The source's one switch
      is cut into five families; each hands on what it does not know. */
  function Execute(host: Host, data: bytes, op: byte, vm: VM): (r: Step)
    requires vm.pos <= |data|
    ensures Contained(data, vm, r)
  {
    if op == PROTO then var (_, vm1) :- Read(data, vm, 1); Next(vm1)
    else if op == FRAME then var (_, vm1) :- Read(data, vm, 8); Next(vm1)
    else if op == STOP then Stop(vm)
    else Structure(host, data, op, vm)
  }

  function Structure(host: Host, data: bytes, op: byte, vm: VM): (r: Step)
    requires vm.pos <= |data|
    ensures Contained(data, vm, r)
  {
    var n := |vm.stack|;
    if op == MARK then Next(vm.Push(Mark))
    else if op == EMPTY_TUPLE || op == EMPTY_LIST || op == EMPTY_SET then Next(vm.Push(List([])))
    else if op == EMPTY_DICT then Next(vm.Push(Dict(map[])))
    else if TUPLE1 <= op <= TUPLE3 then
      var k := op - 0x84;
      if n < k then Fail(ShortStack)
      else Next(vm.(stack := vm.stack[..n - k] + [List(vm.stack[n - k..])]))
    else Assemble(host, data, op, vm)
  }

  /** The opcodes that feed popped values to the container below them. */
  function Assemble(host: Host, data: bytes, op: byte, vm: VM): (r: Step)
    requires vm.pos <= |data|
    ensures Contained(data, vm, r)
  {
    var n := |vm.stack|;
    if op == APPEND then
      if n == 0 then Fail(PopEmpty)
      else AppendTo(vm.(stack := vm.stack[..n - 1]), [vm.stack[n - 1]])
    else if op == SETITEM then
      if n < 2 then Fail(PopEmpty)
      else SetItems(host, vm.(stack := vm.stack[..n - 2]), [vm.stack[n - 2], vm.stack[n - 1]])
    else if op == TUPLE || op == LIST || op == APPENDS || op == ADDITEMS || op == DICT || op == SETITEMS then
      match TopMark(vm.stack)
      case None => Fail(MarkNotFound)
      case Some(i) => Gathered(host, op, vm.(stack := vm.stack[..i]), vm.stack[i + 1..])
    else Number(host, data, op, vm)
  }

  /** An opcode that popMark feeds: items are the values that stood above the mark. */
  function Gathered(host: Host, op: byte, vm: VM, items: seq<Value>): (r: Step)
    ensures r.Next? ==> r.vm.pos == vm.pos && |r.vm.stack| <= |vm.stack| + 1
    ensures !r.Stop? && !r.Fault?
  {
    if op == TUPLE || op == LIST then Next(vm.Push(List(items)))
    else if op == DICT then Next(vm.Push(Dict(SetPairs(host, map[], items))))
    else if op == SETITEMS then SetItems(host, vm, items)
    else AppendTo(vm, items)
  }

  function Number(host: Host, data: bytes, op: byte, vm: VM): (r: Step)
    requires vm.pos <= |data|
    ensures Contained(data, vm, r)
  {
    if op == NONE then Next(vm.Push(Nil))
    else if op == NEWTRUE then Next(vm.Push(Bool(true)))
    else if op == NEWFALSE then Next(vm.Push(Bool(false)))
    else if op == BININT1 then var (b, vm1) :- Read(data, vm, 1); Next(vm1.Push(Int(FromLE(b))))
    else if op == BININT2 then var (b, vm1) :- Read(data, vm, 2); Next(vm1.Push(Int(FromLE(b))))
    else if op == BININT then var (b, vm1) :- Read(data, vm, 4); Next(vm1.Push(Int(Signed32(FromLE(b)))))
    else if op == LONG1 then
      var (b, vm1) :- ReadCounted(data, vm, 1);
      Next(vm1.Push(Int(Wrap64(TwosComplement(b)))))
    else if op == INT then
      var (line, vm1) :- ReadLine(data, vm);
      if line == [0x30, 0x30] then Next(vm1.Push(Bool(false)))
      else if line == [0x30, 0x31] then Next(vm1.Push(Bool(true)))
      else match ParseInt(Chars(line))
      case Some(n) => Next(vm1.Push(Int(n)))
      case None => Fail(BadInt)
    else if op == LONG then
      var (line, vm1) :- ReadLine(data, vm);
      match ParseInt(Chars(TrimL(line)))
      case Some(n) => Next(vm1.Push(Int(n)))
      case None => Fail(BadLong)
    else if op == BINFLOAT then var (b, vm1) :- Read(data, vm, 8); Next(vm1.Push(Float(FromBE(b))))
    else if op == FLOAT then
      var (line, vm1) :- ReadLine(data, vm);
      match host.parseFloat(line)
      case Some(bits) => Next(vm1.Push(Float(bits)))
      case None => Fail(BadFloat)
    else Text(host, data, op, vm)
  }

  function Text(host: Host, data: bytes, op: byte, vm: VM): (r: Step)
    requires vm.pos <= |data|
    ensures Contained(data, vm, r)
  {
    if op == SHORT_BINUNICODE || op == SHORT_BINSTRING then
      var (b, vm1) :- ReadCounted(data, vm, 1);
      Next(vm1.Push(Str(b)))
    else if op == BINUNICODE || op == BINSTRING then
      var (b, vm1) :- ReadCounted(data, vm, 4);
      Next(vm1.Push(Str(b)))
    else if op == BINUNICODE8 then
      var (b, vm1) :- ReadCounted(data, vm, 8);
      Next(vm1.Push(Str(b)))
    else if op == UNICODE then
      var (line, vm1) :- ReadLine(data, vm);
      Next(vm1.Push(Str(Unescape(line))))
    else if op == STRING then
      var (line, vm1) :- ReadLine(data, vm);
      Next(vm1.Push(Str(Unquote(line))))
    else if op == SHORT_BINBYTES then
      var (b, vm1) :- ReadCounted(data, vm, 1);
      Next(vm1.Push(Blob(b)))
    else if op == BINBYTES then
      var (b, vm1) :- ReadCounted(data, vm, 4);
      Next(vm1.Push(Blob(b)))
    else Memory(host, data, op, vm)
  }

  /** Stores the top of the stack in the memo. */
  function PutAt(vm: VM, i: int): Step {
    if vm.stack == [] then Fail(PutOnEmpty) else Next(vm.Remember(i, vm.stack[|vm.stack| - 1]))
  }

  function Memory(host: Host, data: bytes, op: byte, vm: VM): (r: Step)
    requires vm.pos <= |data|
    ensures Contained(data, vm, r)
  {
    if op == MEMOIZE then
      if vm.stack == [] then Fail(MemoizeOnEmpty)
      else Next(vm.Remember(|vm.memo|, vm.stack[|vm.stack| - 1]))
    else if op == BINPUT then var (b, vm1) :- Read(data, vm, 1); PutAt(vm1, FromLE(b))
    else if op == LONG_BINPUT then var (b, vm1) :- Read(data, vm, 4); PutAt(vm1, FromLE(b))
    else if op == PUT then
      var (line, vm1) :- ReadLine(data, vm);
      match ParseInt(Chars(line))
      case Some(i) => PutAt(vm1, i)
      case None => Fail(BadPut)
    else if op == BINGET then var (b, vm1) :- Read(data, vm, 1); Next(vm1.Push(vm1.Recall(FromLE(b))))
    else if op == LONG_BINGET then var (b, vm1) :- Read(data, vm, 4); Next(vm1.Push(vm1.Recall(FromLE(b))))
    else if op == GET then
      var (line, vm1) :- ReadLine(data, vm);
      match ParseInt(Chars(line))
      case Some(i) => Next(vm1.Push(vm1.Recall(i)))
      case None => Fail(BadGet)
    else Instance(host, data, op, vm)
  }

  /** The class a REDUCE or NEWOBJ instantiates. */
  function ClassOf(host: Host, callable: Value): PyClass {
    if callable.Class? then callable.cls else PyClass([0x3F], host.stringify(callable))
  }

  function Instance(host: Host, data: bytes, op: byte, vm: VM): (r: Step)
    requires vm.pos <= |data|
    ensures Contained(data, vm, r)
  {
    var n := |vm.stack|;
    if op == GLOBAL then
      var (mod, vm1) :- ReadLine(data, vm);
      var (name, vm2) :- ReadLine(data, vm1);
      Next(vm2.Push(Class(PyClass(mod, name))))
    else if op == STACK_GLOBAL then
      if n < 2 then Fail(PopEmpty)
      else
        var cls := PyClass(host.stringify(vm.stack[n - 2]), host.stringify(vm.stack[n - 1]));
        Next(vm.(stack := vm.stack[..n - 2] + [Class(cls)]))
    else if op == REDUCE || op == NEWOBJ then
      if n < 2 then Fail(PopEmpty)
      else
        var args := if vm.stack[n - 1].List? then vm.stack[n - 1].items else [];
        Next(vm.(stack := vm.stack[..n - 2] + [Object(ClassOf(host, vm.stack[n - 2]), args, Nil)]))
    else if op == BUILD then
      if n == 0 then Fail(PopEmpty)
      else if n > 1 && vm.stack[n - 2].Object? then
        Next(vm.(stack := vm.stack[..n - 2] + [vm.stack[n - 2].(state := vm.stack[n - 1])]))
      else Next(vm.(stack := vm.stack[..n - 1]))
    else Fail(Unsupported(op, vm.pos - 1))
  }

  /** One turn of the machine: fetch an opcode and execute it. */
  function Turn(host: Host, data: bytes, vm: VM): (r: Step)
    requires vm.pos < |data|
    ensures Contained(data, vm.(pos := vm.pos + 1), r)
  {
    Execute(host, data, data[vm.pos], vm.(pos := vm.pos + 1))
  }

  datatype Result = Done(v: Value) | Failed(err: Error) | Faulted

  /** How a step that does not continue ends the loop. */
  function Final(r: Step): Result
    requires !r.Next?
  {
    match r
    case Stop(vm) => if vm.stack == [] then Failed(EmptyAtStop) else Done(vm.stack[|vm.stack| - 1])
    case Fail(e) => Failed(e)
    case Fault => Faulted
  }

  /** The whole unpickle loop from a machine state. */
  function Run(host: Host, data: bytes, vm: VM): Result
    requires vm.pos <= |data|
    decreases |data| - vm.pos
  {
    if vm.pos == |data| then Failed(EndOfStream)
    else match Turn(host, data, vm)
    case Next(vm') => Run(host, data, vm')
    case r => Final(r)
  }

  const START: VM := VM(0, [], map[])

  /** The machine state after n turns, if it gets that far. */
  function After(host: Host, data: bytes, n: nat): (vm: Option<VM>)
    ensures vm.Some? ==> vm.value.pos <= |data|
  {
    if n == 0 then Some(START)
    else match After(host, data, n - 1)
    case None => None
    case Some(vm) =>
      if vm.pos == |data| then None
      else match Turn(host, data, vm)
      case Next(vm') => Some(vm')
      case _ => None
  }

  /** On every byte string the machine makes progress, stays in bounds, and never holds more
      values than it has consumed bytes. */
  lemma {:induction false} MachineIsBounded(host: Host, data: bytes, n: nat)
    requires After(host, data, n).Some?
    ensures var vm := After(host, data, n).value;
            n <= vm.pos <= |data| && |vm.stack| <= vm.pos
  {
    if n > 0 {
      MachineIsBounded(host, data, n - 1);
    }
  }

  /** The longest response the client accepts (internal/f2b/client.go:21). */
  const MAX_RESPONSE := 4 * 0x10_0000

  /** A BINUNICODE8 length so large that cursor plus length leaves the signed 64-bit range. */
  predicate LengthWraps(data: bytes, pos: nat) {
    && pos + 8 <= |data|
    && var n := FromLE(data[pos..pos + 8]);
       n < TWO_63 <= pos + 8 + n
  }

  /** Within the client's size limit, the only step that slices out of range is such a
      BINUNICODE8; every other byte string either advances the machine, stops it, or is
      rejected with an error. */
  lemma FaultExactly(host: Host, data: bytes, op: byte, vm: VM)
    requires vm.pos <= |data| <= MAX_RESPONSE
    ensures Execute(host, data, op, vm) == Fault <==> op == BINUNICODE8 && LengthWraps(data, vm.pos)
  {
    hide Structure;
    ReadNeverOverflows(data, vm);
    StructureFault(host, data, op, vm);
  }

  lemma StructureFault(host: Host, data: bytes, op: byte, vm: VM)
    requires vm.pos <= |data| <= MAX_RESPONSE
    ensures Structure(host, data, op, vm) == Fault <==> op == BINUNICODE8 && LengthWraps(data, vm.pos)
  {
    hide Number;
    NumberFault(host, data, op, vm);
  }

  lemma NumberFault(host: Host, data: bytes, op: byte, vm: VM)
    requires vm.pos <= |data| <= MAX_RESPONSE
    ensures Number(host, data, op, vm) == Fault <==> op == BINUNICODE8 && LengthWraps(data, vm.pos)
  {
    hide Text, Read, ReadLine, ReadCounted;
    ReadNeverOverflows(data, vm);
    LineNeverOverflows(data, vm);
    CountedNeverOverflows(data, vm, 1);
    TextFault(host, data, op, vm);
  }

  lemma TextFault(host: Host, data: bytes, op: byte, vm: VM)
    requires vm.pos <= |data| <= MAX_RESPONSE
    ensures Text(host, data, op, vm) == Fault <==> op == BINUNICODE8 && LengthWraps(data, vm.pos)
  {
    hide Memory, Read, ReadLine, ReadCounted;
    LineNeverOverflows(data, vm);
    CountedNeverOverflows(data, vm, 1);
    CountedNeverOverflows(data, vm, 4);
    LongCountOverflow(data, vm);
    MemoryFault(host, data, op, vm);
  }

  lemma MemoryFault(host: Host, data: bytes, op: byte, vm: VM)
    requires vm.pos <= |data| <= MAX_RESPONSE
    ensures Memory(host, data, op, vm) != Fault
  {
  }

  lemma LineNeverOverflows(data: bytes, vm: VM)
    requires vm.pos <= |data|
    ensures ReadLine(data, vm) != Overflow
  {
  }

  lemma LongCountOverflow(data: bytes, vm: VM)
    requires vm.pos <= |data| <= MAX_RESPONSE
    ensures ReadCounted(data, vm, 8) == Overflow <==> LengthWraps(data, vm.pos)
  {
    var f := Read(data, vm, 8);
    if f.Got? {
      FromLEBound(f.b);
      Pow256Values();
    }
  }

  lemma ReadNeverOverflows(data: bytes, vm: VM)
    requires vm.pos <= |data| <= MAX_RESPONSE
    ensures forall n: nat :: n < 0x1_0000_0000 ==> Read(data, vm, n) != Overflow
  {
  }

  lemma CountedNeverOverflows(data: bytes, vm: VM, width: nat)
    requires vm.pos <= |data| <= MAX_RESPONSE && width <= 4
    ensures ReadCounted(data, vm, width) != Overflow
  {
    if Read(data, vm, width).Got? {
      var f := Read(data, vm, width);
      FromLEBound(f.b);
      Pow256Values();
      assert Pow(256, width) <= Pow(256, 4);
      ReadNeverOverflows(data, f.vm);
    }
  }

  // ----- how a whole run ends -----

  /** The machine, still running, has a wrapping BINUNICODE8 in front of it. */
  ghost predicate FacesWrap(host: Host, data: bytes, n: nat) {
    match After(host, data, n)
    case None => false
    case Some(vm) => vm.pos < |data| && data[vm.pos] == BINUNICODE8 && LengthWraps(data, vm.pos + 1)
  }

  lemma TurnFaults(host: Host, data: bytes, vm: VM)
    requires vm.pos < |data| <= MAX_RESPONSE
    ensures Turn(host, data, vm) == Fault <==> data[vm.pos] == BINUNICODE8 && LengthWraps(data, vm.pos + 1)
  {
    hide Execute;
    FaultExactly(host, data, data[vm.pos], vm.(pos := vm.pos + 1));
  }

  lemma {:induction false} RunFrom(host: Host, data: bytes, n: nat)
    requires After(host, data, n).Some?
    ensures Run(host, data, START) == Run(host, data, After(host, data, n).value)
  {
    hide Execute;
    if n > 0 {
      RunFrom(host, data, n - 1);
    }
  }

  lemma {:induction false} FaultReached(host: Host, data: bytes, n: nat) returns (m: nat)
    requires |data| <= MAX_RESPONSE && After(host, data, n).Some?
    ensures Run(host, data, After(host, data, n).value) == Faulted ==> FacesWrap(host, data, m)
    decreases |data| - After(host, data, n).value.pos
  {
    hide Execute, LengthWraps;
    var vm := After(host, data, n).value;
    m := n;
    if vm.pos < |data| {
      TurnFaults(host, data, vm);
      if Turn(host, data, vm).Next? {
        m := FaultReached(host, data, n + 1);
      }
    }
  }

  /** Totality: a response within the size limit decodes to a value or an error, except exactly
      when the machine comes to a BINUNICODE8 whose length takes the cursor out of the signed
      64-bit range; so never for data without that opcode's byte. */
  lemma RunFaultsExactly(host: Host, data: bytes)
    requires |data| <= MAX_RESPONSE
    ensures Run(host, data, START) == Faulted <==> exists n :: FacesWrap(host, data, n)
    ensures BINUNICODE8 !in data ==> Run(host, data, START) != Faulted
  {
    hide Execute, LengthWraps, Run;
    if Run(host, data, START) == Faulted {
      var m := FaultReached(host, data, 0);
    } else if n :| FacesWrap(host, data, n) {
      RunFrom(host, data, n);
      TurnFaults(host, data, After(host, data, n).value);
      FaultEnds(host, data, After(host, data, n).value);
    }
  }

  lemma FaultEnds(host: Host, data: bytes, vm: VM)
    requires vm.pos < |data| && Turn(host, data, vm) == Fault
    ensures Run(host, data, vm) == Faulted
  {
  }

  /** The panic is real: nine bytes reach it. */
  lemma NineBytesFault(host: Host)
    ensures var data: bytes := [0x8D, 0xFF, 0xFF, 0xFF, 0xFF, 0xFF, 0xFF, 0xFF, 0x7F];
            Run(host, data, START) == Faulted
  {
    hide Execute, Run, FromLE;
    var data: bytes := [0x8D, 0xFF, 0xFF, 0xFF, 0xFF, 0xFF, 0xFF, 0xFF, 0x7F];
    assert LengthWraps(data, 1) by {
      LargestLength(data[1..9]);
    }
    assert FacesWrap(host, data, 0);
    RunFaultsExactly(host, data);
  }

  lemma LargestLength(b: bytes)
    requires b == [0xFF, 0xFF, 0xFF, 0xFF, 0xFF, 0xFF, 0xFF, 0x7F]
    ensures FromLE(b) == TWO_63 - 1
  {
    assert FromLE(b[7..]) == 0x7F;
    assert FromLE(b[6..]) == 0x7FFF;
    assert FromLE(b[5..]) == 0x7F_FFFF;
    assert FromLE(b[4..]) == 0x7FFF_FFFF;
    assert FromLE(b[3..]) == 0x7F_FFFF_FFFF;
    assert FromLE(b[2..]) == 0x7FFF_FFFF_FFFF;
    assert FromLE(b[1..]) == 0x7F_FFFF_FFFF_FFFF;
  }
}
