/** Pickle programs: every way of writing a value that the machine understands, with the bytes
    each one is written as (Emit) and the value it denotes (Eval). The machine is proved to
    run the bytes to the value, from any starting stack, as a compiler is proved against an
    evaluator. */
module PickleProgram {
  import opened Numbers
  import opened RawUnicode
  import opened Pickle

  type Memo = map<int, Value>

  // ----- running up to a position -----

  /** Turns the machine until its cursor reaches end. */
  function RunTo(host: Host, data: bytes, vm: VM, end: nat): Step
    requires vm.pos <= |data|
    decreases |data| - vm.pos
  {
    if vm.pos >= end then Next(vm)
    else if vm.pos == |data| then Fail(EndOfStream)
    else match Turn(host, data, vm)
    case Next(vm') => RunTo(host, data, vm', end)
    case r => r
  }

  /** The machine gets from vm to vm', and vm' is the first state at its position. */
  ghost predicate Steps(host: Host, data: bytes, vm: VM, vm': VM) {
    && vm.pos <= vm'.pos <= |data|
    && RunTo(host, data, vm, vm'.pos) == Next(vm')
  }

  lemma StepsOne(host: Host, data: bytes, vm: VM, vm': VM)
    requires vm.pos < |data| && Turn(host, data, vm) == Next(vm')
    ensures Steps(host, data, vm, vm')
  {
  }

  lemma {:induction false} StepsTrans(host: Host, data: bytes, a: VM, b: VM, c: VM)
    requires Steps(host, data, a, b) && Steps(host, data, b, c)
    ensures Steps(host, data, a, c)
    decreases |data| - a.pos
  {

    if a.pos < b.pos {
      var a' := Turn(host, data, a).vm;
      assert a'.pos >= b.pos ==> RunTo(host, data, a', b.pos) == Next(a');
      StepsTrans(host, data, a', b, c);
    }
  }

  lemma {:induction false} RunSteps(host: Host, data: bytes, vm: VM, vm': VM)
    requires Steps(host, data, vm, vm')
    ensures Run(host, data, vm) == Run(host, data, vm')
    decreases |data| - vm.pos
  {

    if vm.pos < vm'.pos {
      var next := Turn(host, data, vm).vm;
      assert next.pos >= vm'.pos ==> RunTo(host, data, next, vm'.pos) == Next(next);
      RunSteps(host, data, next, vm');
    }
  }

  /** code stands in data at position pos. */
  predicate At(data: bytes, pos: nat, code: bytes) {
    pos + |code| <= |data| && data[pos..pos + |code|] == code
  }

  lemma AtSplit(data: bytes, pos: nat, a: bytes, b: bytes)
    requires At(data, pos, a + b)
    ensures At(data, pos, a) && At(data, pos + |a|, b)
  {
    var ab := data[pos..pos + |a + b|];
    assert data[pos..pos + |a|] == ab[..|a|];
    assert data[pos + |a|..pos + |a| + |b|] == ab[|a|..];
  }

  lemma AtSplit3(data: bytes, pos: nat, a: bytes, b: bytes, c: bytes)
    requires At(data, pos, a + b + c)
    ensures At(data, pos, a) && At(data, pos + |a|, b) && At(data, pos + |a| + |b|, c)
  {
    AtSplit(data, pos, a + b, c);
    AtSplit(data, pos, a, b);
  }

  // ----- scalars -----

  /** Every way of writing a scalar. width is the size of a binary length or number. */
  datatype Literal =
    | NilLit
    | BoolLit(b: bool)
    | BoolLine(b: bool)
    | Int1(n: int)
    | Int2(n: int)
    | Int4(n: int)
    | Long(n: int, width: nat)
    | IntLine(n: int)
    | LongLine(n: int, suffix: bool)
    | FloatLit(bits: nat)
    | Unicode(s: bytes, width: nat)
    | UnicodeLine(text: seq<rune>)
    | ByteString(s: bytes, width: nat)
    | Bytes(s: bytes, width: nat)
    | Name(cls: PyClass)

  predicate WellFormed(l: Literal) {
    match l
    case Int1(n) => 0 <= n < 0x100
    case Int2(n) => 0 <= n < 0x1_0000
    case Int4(n) => -0x8000_0000 <= n < 0x8000_0000
    case Long(n, width) => width < 256 && FitsTwos(n, width) && IsInt64(n)
    case IntLine(n) => IsInt64(n)
    case LongLine(n, _) => IsInt64(n)
    case FloatLit(bits) => bits < TWO_64
    case Unicode(s, width) => (width == 1 || width == 4 || width == 8) && |s| < Pow(256, width)
    case UnicodeLine(text) => InBmp(text)
    case ByteString(s, width) => (width == 1 || width == 4) && |s| < Pow(256, width)
    case Bytes(s, width) => (width == 1 || width == 4) && |s| < Pow(256, width)
    case Name(cls) => NEWLINE !in cls.mod && NEWLINE !in cls.name
    case _ => true
  }

  function ValueOf(l: Literal): Value {
    match l
    case NilLit => Nil
    case BoolLit(b) => Bool(b)
    case BoolLine(b) => Bool(b)
    case Int1(n) => Int(n)
    case Int2(n) => Int(n)
    case Int4(n) => Int(n)
    case Long(n, _) => Int(n)
    case IntLine(n) => Int(n)
    case LongLine(n, _) => Int(n)
    case FloatLit(bits) => Float(bits)
    case Unicode(s, _) => Str(s)
    case UnicodeLine(text) => Str(Encoded(text))
    case ByteString(s, _) => Str(s)
    case Bytes(s, _) => Blob(s)
    case Name(cls) => Class(cls)
  }

  function ToBE(n: nat, width: nat): (b: bytes)
    ensures |b| == width
  {
    if width == 0 then [] else ToBE(n / 256, width - 1) + [n % 256]
  }

  function Counted(s: bytes, width: nat): bytes { ToLE(|s|, width) + s }

  function Line(s: bytes): bytes { s + [NEWLINE] }

  function OpcodeOf(l: Literal): byte {
    match l
    case NilLit => NONE
    case BoolLit(b) => if b then NEWTRUE else NEWFALSE
    case BoolLine(_) => INT
    case Int1(_) => BININT1
    case Int2(_) => BININT2
    case Int4(_) => BININT
    case Long(_, _) => LONG1
    case IntLine(_) => INT
    case LongLine(_, _) => LONG
    case FloatLit(_) => BINFLOAT
    case Unicode(_, width) =>
      if width == 1 then SHORT_BINUNICODE else if width == 4 then BINUNICODE else BINUNICODE8
    case UnicodeLine(_) => UNICODE
    case ByteString(_, width) => if width == 1 then SHORT_BINSTRING else BINSTRING
    case Bytes(_, width) => if width == 1 then SHORT_BINBYTES else BINBYTES
    case Name(_) => GLOBAL
  }

  function ArgumentOf(l: Literal): bytes {
    match l
    case NilLit => []
    case BoolLit(_) => []
    case BoolLine(b) => Line(if b then [0x30, 0x31] else [0x30, 0x30])
    case Int1(n) => ToLE(Natural(n), 1)
    case Int2(n) => ToLE(Natural(n), 2)
    case Int4(n) => ToLE(if n >= 0 then n else Natural(n + 0x1_0000_0000), 4)
    case Long(n, width) => [width % 256] + ToTwos(n, width)
    case IntLine(n) => Line(Ascii(FormatInt(n)))
    case LongLine(n, suffix) => Line(LongText(n, suffix))
    case FloatLit(bits) => ToBE(bits, 8)
    case Unicode(s, width) => Counted(s, width)
    case UnicodeLine(text) => Line(Escape(text))
    case ByteString(s, width) => Counted(s, width)
    case Bytes(s, width) => Counted(s, width)
    case Name(cls) => Line(cls.mod) + Line(cls.name)
  }

  function LongText(n: int, suffix: bool): bytes {
    if suffix then Ascii(FormatInt(n)) + [0x4C] else Ascii(FormatInt(n))
  }

  function Natural(n: int): nat { if n >= 0 then n else 0 }

  function EmitLiteral(l: Literal): bytes { [OpcodeOf(l)] + ArgumentOf(l) }

  lemma ReadAt(data: bytes, vm: VM, b: bytes)
    requires At(data, vm.pos, b) && |data| < TWO_63
    ensures Read(data, vm, |b|) == Got(b, vm.(pos := vm.pos + |b|))
  {
  }

  lemma ReadCountedAt(data: bytes, vm: VM, s: bytes, width: nat)
    requires At(data, vm.pos, Counted(s, width)) && |data| < TWO_63
    requires |s| < Pow(256, width)
    ensures ReadCounted(data, vm, width) == Got(s, vm.(pos := vm.pos + |Counted(s, width)|))
  {
    AtSplit(data, vm.pos, ToLE(|s|, width), s);
    LittleEndianRoundTrip(|s|, width);
    ReadAt(data, vm, ToLE(|s|, width));
    ReadAt(data, vm.(pos := vm.pos + width), s);
  }

  lemma {:induction false} IndexNewlineAt(s: bytes, t: bytes)
    requires NEWLINE !in s
    ensures IndexNewline(s + [NEWLINE] + t) == Some(|s|)
  {
    if s != [] {
      var all := s + [NEWLINE] + t;
      assert all[1..] == s[1..] + [NEWLINE] + t;
      assert all[0] == s[0] && s[0] in s;
      IndexNewlineAt(s[1..], t);
    }
  }

  lemma ReadLineAt(data: bytes, vm: VM, s: bytes)
    requires At(data, vm.pos, Line(s)) && NEWLINE !in s
    ensures ReadLine(data, vm) == Got(s, vm.(pos := vm.pos + |s| + 1))
  {
    var rest := data[vm.pos + |s| + 1..];
    assert data[vm.pos..] == Line(s) + rest by {
      assert data[vm.pos..] == data[vm.pos..vm.pos + |Line(s)|] + rest;
    }
    IndexNewlineAt(s, rest);
    assert s == Line(s)[..|s|] == data[vm.pos..vm.pos + |s|];
  }

  lemma {:induction false} BigEndianRoundTrip(n: nat, width: nat)
    requires n < Pow(256, width)
    ensures FromBE(ToBE(n, width)) == n
  {
    if width > 0 {
      BigEndianRoundTrip(n / 256, width - 1);
      assert ToBE(n, width)[..width - 1] == ToBE(n / 256, width - 1);
    }
  }

  lemma FormatIsPlain(n: int)
    ensures forall i :: 0 <= i < |FormatInt(n)| ==> FormatInt(n)[i] == '-' || IsDigit(FormatInt(n)[i])
    ensures FormatInt(n) != []
  {
    DigitsParse(if n < 0 then -n else n);
  }

  /** The decimal text of n, as a line, reads back as n, and is neither 00 nor 01. */
  lemma DecimalLine(n: int)
    requires IsInt64(n)
    ensures var s := Ascii(FormatInt(n));
            && NEWLINE !in s && NEWLINE !in s + [0x4C]
            && s != [0x30, 0x30] && s != [0x30, 0x31]
            && TrimL(s) == TrimL(s + [0x4C]) == s
            && ParseInt(Chars(s)) == Some(n)
  {
    FormatIsPlain(n);
    AsciiRoundTrip(FormatInt(n));
    DecimalRoundTrip(n);
    var s := Ascii(FormatInt(n));
    assert forall i :: 0 <= i < |s| ==> s[i] == 0x2D || 0x30 <= s[i] <= 0x39;
    assert (s + [0x4C])[..|s|] == s;
    NoLeadingZero(n);
  }

  lemma NoLeadingZero(n: int)
    ensures |FormatInt(n)| > 1 ==> FormatInt(n)[0] != '0'
  {
    if n >= 0 {
      NoLeadingZeroDigits(n);
    }
  }

  lemma {:induction false} NoLeadingZeroDigits(n: nat)
    ensures n > 0 ==> DigitsOf(n)[0] != '0'
    ensures |DigitsOf(n)| > 1 ==> n > 0
  {
    if n >= 10 {
      NoLeadingZeroDigits(n / 10);
    }
  }

  // ----- which family an opcode belongs to -----

  predicate IsStructureOp(op: byte) {
    || op == MARK || op == EMPTY_TUPLE || op == EMPTY_LIST || op == EMPTY_SET || op == EMPTY_DICT
    || TUPLE1 <= op <= TUPLE3 || op == APPEND || op == SETITEM
    || op == TUPLE || op == LIST || op == APPENDS || op == ADDITEMS || op == DICT || op == SETITEMS
  }

  predicate IsNumberOp(op: byte) {
    || op == NONE || op == NEWTRUE || op == NEWFALSE || op == BININT1 || op == BININT2 || op == BININT
    || op == LONG1 || op == INT || op == LONG || op == BINFLOAT || op == FLOAT
  }

  predicate IsTextOp(op: byte) {
    || op == SHORT_BINUNICODE || op == SHORT_BINSTRING || op == BINUNICODE || op == BINSTRING
    || op == BINUNICODE8 || op == UNICODE || op == STRING || op == SHORT_BINBYTES || op == BINBYTES
  }

  predicate IsMemoryOp(op: byte) {
    || op == MEMOIZE || op == BINPUT || op == LONG_BINPUT || op == PUT
    || op == BINGET || op == LONG_BINGET || op == GET
  }

  predicate IsControlOp(op: byte) { op == PROTO || op == FRAME || op == STOP }

  lemma ToNumber(host: Host, data: bytes, op: byte, vm: VM)
    requires vm.pos <= |data| && !IsControlOp(op) && !IsStructureOp(op)
    ensures Execute(host, data, op, vm) == Number(host, data, op, vm)
  {
  }

  lemma ToText(host: Host, data: bytes, op: byte, vm: VM)
    requires vm.pos <= |data| && !IsControlOp(op) && !IsStructureOp(op) && !IsNumberOp(op)
    ensures Execute(host, data, op, vm) == Text(host, data, op, vm)
  {
  }

  lemma ToMemory(host: Host, data: bytes, op: byte, vm: VM)
    requires vm.pos <= |data| && !IsControlOp(op) && !IsStructureOp(op) && !IsNumberOp(op) && !IsTextOp(op)
    ensures Execute(host, data, op, vm) == Memory(host, data, op, vm)
  {
  }

  lemma ToInstance(host: Host, data: bytes, op: byte, vm: VM)
    requires vm.pos <= |data| && !IsControlOp(op) && !IsStructureOp(op) && !IsNumberOp(op) && !IsTextOp(op)
    requires !IsMemoryOp(op)
    ensures Execute(host, data, op, vm) == Instance(host, data, op, vm)
  {
  }

  /** The machine reads the argument of a literal's opcode and pushes the literal's value. */
  lemma LiteralExecutes(host: Host, data: bytes, l: Literal, vm: VM)
    requires WellFormed(l) && |data| < TWO_63
    requires At(data, vm.pos, ArgumentOf(l))
    ensures Execute(host, data, OpcodeOf(l), vm) ==
            Next(vm.Push(ValueOf(l)).(pos := vm.pos + |ArgumentOf(l)|))
  {
    hide Execute, ArgumentOf, ValueOf, OpcodeOf, WellFormed;
    if l.Name? {
      NameExecutes(host, data, l, vm);
    } else if IsTextLiteral(l) {
      TextExecutes(host, data, l, vm);
    } else if IsLineLiteral(l) {
      LineExecutes(host, data, l, vm);
    } else {
      BinaryExecutes(host, data, l, vm);
    }
  }

  predicate IsTextLiteral(l: Literal) { l.Unicode? || l.UnicodeLine? || l.ByteString? || l.Bytes? }

  predicate IsLineLiteral(l: Literal) { l.BoolLine? || l.IntLine? || l.LongLine? }

  lemma NameExecutes(host: Host, data: bytes, l: Literal, vm: VM)
    requires l.Name? && WellFormed(l) && |data| < TWO_63
    requires At(data, vm.pos, ArgumentOf(l))
    ensures Execute(host, data, OpcodeOf(l), vm) ==
            Next(vm.Push(ValueOf(l)).(pos := vm.pos + |ArgumentOf(l)|))
  {
    hide Execute, ReadLine, Instance, At;
    AtInside(data, vm.pos, ArgumentOf(l));
    ToInstance(host, data, GLOBAL, vm);
    AtSplit(data, vm.pos, Line(l.cls.mod), Line(l.cls.name));
    ReadLineAt(data, vm, l.cls.mod);
    ReadLineAt(data, vm.(pos := vm.pos + |Line(l.cls.mod)|), l.cls.name);
    GlobalExecutes(host, data, vm, l.cls);
  }

  lemma AtInside(data: bytes, pos: nat, s: bytes)
    requires At(data, pos, s)
    ensures pos + |s| <= |data|
  {
  }

  lemma GlobalExecutes(host: Host, data: bytes, vm: VM, cls: PyClass)
    requires vm.pos <= |data|
    requires ReadLine(data, vm) == Got(cls.mod, vm.(pos := vm.pos + |cls.mod| + 1))
    requires vm.pos + |cls.mod| + 1 <= |data|
    requires var vm1 := vm.(pos := vm.pos + |cls.mod| + 1);
             ReadLine(data, vm1) == Got(cls.name, vm1.(pos := vm1.pos + |cls.name| + 1))
    ensures Instance(host, data, GLOBAL, vm) ==
            Next(vm.Push(Class(cls)).(pos := vm.pos + |cls.mod| + 1 + |cls.name| + 1))
  {
  }

  lemma LineExecutes(host: Host, data: bytes, l: Literal, vm: VM)
    requires IsLineLiteral(l) && WellFormed(l) && |data| < TWO_63
    requires At(data, vm.pos, ArgumentOf(l))
    ensures Execute(host, data, OpcodeOf(l), vm) ==
            Next(vm.Push(ValueOf(l)).(pos := vm.pos + |ArgumentOf(l)|))
  {
    ToNumber(host, data, OpcodeOf(l), vm);
    hide Execute, Number, FormatInt;
    match l
    case BoolLine(b) => BoolLineExecutes(host, data, b, vm);
    case IntLine(n) =>
      DecimalLine(n);
      DecimalExecutes(host, data, INT, Ascii(FormatInt(n)), n, vm);
    case LongLine(n, suffix) =>
      DecimalLine(n);
      DecimalExecutes(host, data, LONG, LongText(n, suffix), n, vm);
  }

  lemma BoolLineExecutes(host: Host, data: bytes, b: bool, vm: VM)
    requires At(data, vm.pos, Line(if b then [0x30, 0x31] else [0x30, 0x30]))
    ensures Number(host, data, INT, vm) == Next(vm.Push(Bool(b)).(pos := vm.pos + 3))
  {
    hide Text, Read, ReadLine, ReadCounted;
    ReadLineAt(data, vm, if b then [0x30, 0x31] else [0x30, 0x30]);
  }

  lemma DecimalExecutes(host: Host, data: bytes, op: byte, s: bytes, n: int, vm: VM)
    requires At(data, vm.pos, Line(s)) && NEWLINE !in s
    requires (op == INT && s != [0x30, 0x30] && s != [0x30, 0x31] && ParseInt(Chars(s)) == Some(n)) ||
             (op == LONG && ParseInt(Chars(TrimL(s))) == Some(n))
    ensures Number(host, data, op, vm) == Next(vm.Push(Int(n)).(pos := vm.pos + |s| + 1))
  {
    hide Text, Read, ReadLine, ReadCounted, ParseInt, Chars, TrimL;
    ReadLineAt(data, vm, s);
  }

  lemma BinaryExecutes(host: Host, data: bytes, l: Literal, vm: VM)
    requires !l.Name? && !IsTextLiteral(l) && !IsLineLiteral(l) && WellFormed(l) && |data| < TWO_63
    requires At(data, vm.pos, ArgumentOf(l))
    ensures Execute(host, data, OpcodeOf(l), vm) ==
            Next(vm.Push(ValueOf(l)).(pos := vm.pos + |ArgumentOf(l)|))
  {
    hide Execute, Number;
    ToNumber(host, data, OpcodeOf(l), vm);
    match l
    case NilLit => ConstantExecutes(host, data, vm);
    case BoolLit(_) => ConstantExecutes(host, data, vm);
    case Int1(n) => IntExecutes(host, data, n, 1, BININT1, vm);
    case Int2(n) => IntExecutes(host, data, n, 2, BININT2, vm);
    case Int4(n) => IntExecutes(host, data, if n >= 0 then n else n + 0x1_0000_0000, 4, BININT, vm);
    case Long(n, width) => LongExecutes(host, data, n, width, vm);
    case FloatLit(bits) => FloatExecutes(host, data, bits, vm);
  }

  lemma ConstantExecutes(host: Host, data: bytes, vm: VM)
    requires vm.pos <= |data|
    ensures Number(host, data, NONE, vm) == Next(vm.Push(Nil))
    ensures Number(host, data, NEWTRUE, vm) == Next(vm.Push(Bool(true)))
    ensures Number(host, data, NEWFALSE, vm) == Next(vm.Push(Bool(false)))
  {
  }

  lemma IntExecutes(host: Host, data: bytes, n: nat, width: nat, op: byte, vm: VM)
    requires At(data, vm.pos, ToLE(n, width)) && |data| < TWO_63
    requires (width == 1 && n < 0x100 && op == BININT1) || (width == 2 && n < 0x1_0000 && op == BININT2) ||
             (width == 4 && n < 0x1_0000_0000 && op == BININT)
    ensures Number(host, data, op, vm) ==
            Next(vm.Push(Int(if width == 4 then Signed32(n) else n)).(pos := vm.pos + width))
  {
    hide Text, Read, ToLE, FromLE;
    FixedExecutes(data, n, width, vm);
  }

  lemma FloatExecutes(host: Host, data: bytes, bits: nat, vm: VM)
    requires At(data, vm.pos, ToBE(bits, 8)) && |data| < TWO_63 && bits < TWO_64
    ensures Number(host, data, BINFLOAT, vm) == Next(vm.Push(Float(bits)).(pos := vm.pos + 8))
  {
    hide Text, Read, ToBE, FromBE;
    Pow256Values();
    BigEndianRoundTrip(bits, 8);
    ReadAt(data, vm, ToBE(bits, 8));
  }

  lemma TextExecutes(host: Host, data: bytes, l: Literal, vm: VM)
    requires IsTextLiteral(l) && WellFormed(l) && |data| < TWO_63
    requires At(data, vm.pos, ArgumentOf(l))
    ensures Execute(host, data, OpcodeOf(l), vm) ==
            Next(vm.Push(ValueOf(l)).(pos := vm.pos + |ArgumentOf(l)|))
  {
    hide Execute, Number, Memory, Read, ReadLine, ReadCounted, Escape, Unescape, Encoded, InBmp;
    ToText(host, data, OpcodeOf(l), vm);
    match l
    case Unicode(s, width) => ReadCountedAt(data, vm, s, width);
    case UnicodeLine(text) =>
      EscapeIsOneLine(text);
      TextRoundTrip(text);
      ReadLineAt(data, vm, Escape(text));
    case ByteString(s, width) => ReadCountedAt(data, vm, s, width);
    case Bytes(s, width) => ReadCountedAt(data, vm, s, width);
  }

  lemma FixedExecutes(data: bytes, n: nat, width: nat, vm: VM)
    requires At(data, vm.pos, ToLE(n, width)) && |data| < TWO_63
    requires (width == 1 && n < 0x100) || (width == 2 && n < 0x1_0000) || (width == 4 && n < 0x1_0000_0000)
    ensures Read(data, vm, width) == Got(ToLE(n, width), vm.(pos := vm.pos + width))
    ensures FromLE(ToLE(n, width)) == n
  {
    Pow256Values();
    LittleEndianRoundTrip(n, width);
    ReadAt(data, vm, ToLE(n, width));
  }

  lemma LongExecutes(host: Host, data: bytes, n: int, width: nat, vm: VM)
    requires At(data, vm.pos, [width % 256] + ToTwos(n, width)) && |data| < TWO_63
    requires width < 256 && FitsTwos(n, width) && IsInt64(n)
    ensures Number(host, data, LONG1, vm) == Next(vm.Push(Int(n)).(pos := vm.pos + 1 + width))
  {
    hide Text, ReadCounted, ToTwos, TwosComplement;
    var b := ToTwos(n, width);
    assert ToLE(width, 1) == [width % 256] + ToLE(width / 256, 0) == [width % 256];
    assert Counted(b, 1) == [width % 256] + b;
    Pow256Values();
    ReadCountedAt(data, vm, b, 1);
    TwosRoundTrip(n, width);
  }

  // ----- the memo -----

  /** How a memo index is written: one byte, four bytes, or a decimal line. */
  datatype Slot = ByteSlot(i: int) | WordSlot(i: int) | LineSlot(i: int)

  predicate IsSlot(slot: Slot) {
    match slot
    case ByteSlot(i) => 0 <= i < 0x100
    case WordSlot(i) => 0 <= i < 0x1_0000_0000
    case LineSlot(i) => IsInt64(i)
  }

  function SlotBytes(slot: Slot): bytes {
    match slot
    case ByteSlot(i) => ToLE(Natural(i), 1)
    case WordSlot(i) => ToLE(Natural(i), 4)
    case LineSlot(i) => Line(Ascii(FormatInt(i)))
  }

  function PutOp(slot: Slot): byte {
    match slot
    case ByteSlot(_) => BINPUT
    case WordSlot(_) => LONG_BINPUT
    case LineSlot(_) => PUT
  }

  function GetOp(slot: Slot): byte {
    match slot
    case ByteSlot(_) => BINGET
    case WordSlot(_) => LONG_BINGET
    case LineSlot(_) => GET
  }

  /** The slot's bytes are read back as its index. */
  ghost predicate SlotReads(data: bytes, vm: VM, slot: Slot, vm': VM)
    requires vm.pos <= |data|
  {
    match slot
    case ByteSlot(i) => Read(data, vm, 1) == Got(ToLE(Natural(i), 1), vm') && FromLE(ToLE(Natural(i), 1)) == i
    case WordSlot(i) => Read(data, vm, 4) == Got(ToLE(Natural(i), 4), vm') && FromLE(ToLE(Natural(i), 4)) == i
    case LineSlot(i) =>
      && ReadLine(data, vm) == Got(Ascii(FormatInt(i)), vm')
      && ParseInt(Chars(Ascii(FormatInt(i)))) == Some(i)
  }

  lemma SlotReadsAt(data: bytes, vm: VM, slot: Slot)
    requires IsSlot(slot) && At(data, vm.pos, SlotBytes(slot)) && |data| < TWO_63
    ensures SlotReads(data, vm, slot, vm.(pos := vm.pos + |SlotBytes(slot)|))
  {
    hide Read, ReadLine, FormatInt, ParseInt;
    match slot
    case ByteSlot(i) => FixedExecutes(data, i, 1, vm);
    case WordSlot(i) => FixedExecutes(data, i, 4, vm);
    case LineSlot(i) =>
      DecimalLine(i);
      ReadLineAt(data, vm, Ascii(FormatInt(i)));
  }

  lemma SlotExecutes(host: Host, data: bytes, slot: Slot, vm: VM)
    requires IsSlot(slot) && At(data, vm.pos, SlotBytes(slot)) && |data| < TWO_63
    ensures var vm' := vm.(pos := vm.pos + |SlotBytes(slot)|);
            && Execute(host, data, GetOp(slot), vm) == Next(vm'.Push(vm.Recall(slot.i)))
            && Execute(host, data, PutOp(slot), vm) == PutAt(vm', slot.i)
  {
    hide Execute, Memory, SlotReads, SlotBytes;
    SlotReadsAt(data, vm, slot);
    ToMemory(host, data, GetOp(slot), vm);
    ToMemory(host, data, PutOp(slot), vm);
    SlotMemory(host, data, slot, vm, vm.(pos := vm.pos + |SlotBytes(slot)|));
  }

  lemma SlotMemory(host: Host, data: bytes, slot: Slot, vm: VM, vm': VM)
    requires vm.pos <= |data| && SlotReads(data, vm, slot, vm') && vm'.stack == vm.stack && vm'.memo == vm.memo
    ensures Memory(host, data, GetOp(slot), vm) == Next(vm'.Push(vm.Recall(slot.i)))
    ensures Memory(host, data, PutOp(slot), vm) == PutAt(vm', slot.i)
  {
    hide Instance, Read, ReadLine, FormatInt, ParseInt, Ascii, Chars, ToLE, FromLE;
    match slot
    case ByteSlot(_) =>
    case WordSlot(_) =>
    case LineSlot(_) =>
  }

  // ----- programs -----

  /** PROTO and FRAME: bytes a pickler may write before any value. */
  datatype Header = Proto(version: byte) | Frame(length: nat)

  function HeaderBytes(h: Header): bytes {
    match h
    case Proto(v) => [PROTO, v]
    case Frame(n) => [FRAME] + ToLE(n, 8)
  }

  /** A program that leaves one value on the stack. Marked and Extend gather the values above
      a mark; Extend grows a list or dict already built; Put notes the value in the memo. */
  datatype Program =
    | Lit(l: Literal)
    | Recall(slot: Slot)
    | Empty(op: byte)
    | Marked(op: byte, items: seq<Program>)
    | Short(items: seq<Program>)
    | Append(target: Program, item: Program)
    | SetItem(target: Program, key: Program, item: Program)
    | Extend(target: Program, op: byte, items: seq<Program>)
    | Put(of: Program, slot: Slot)
    | Memoized(of: Program)
    | Headed(h: Header, of: Program)

  function Emit(p: Program): bytes
    decreases p, 1
  {
    match p
    case Lit(l) => EmitLiteral(l)
    case Recall(slot) => [GetOp(slot)] + SlotBytes(slot)
    case Empty(op) => [op]
    case Marked(op, items) => [MARK] + EmitAll(items) + [op]
    case Short(items) => EmitAll(items) + [(0x84 + |items|) % 256]
    case Append(target, item) => Emit(target) + Emit(item) + [APPEND]
    case SetItem(target, key, item) => Emit(target) + (Emit(key) + Emit(item)) + [SETITEM]
    case Extend(target, op, items) => Emit(target) + ([MARK] + EmitAll(items) + [op])
    case Put(of, slot) => Emit(of) + [PutOp(slot)] + SlotBytes(slot)
    case Memoized(of) => Emit(of) + [MEMOIZE]
    case Headed(h, of) => HeaderBytes(h) + Emit(of)
  }

  function EmitAll(ps: seq<Program>): bytes
    decreases ps, 0
  {
    if ps == [] then [] else Emit(ps[0]) + EmitAll(ps[1..])
  }

  predicate IsScalar(v: Value) {
    v.Nil? || v.Bool? || v.Int? || v.Float? || v.Str? || v.Blob?
  }

  /** What a program denotes, and the memo it leaves. None: not a program a pickler writes.
      Only scalars are recalled from the memo (a recalled container would be shared in Go). */
  function Eval(host: Host, p: Program, memo: Memo): Option<(Value, Memo)>
    decreases p, 1
  {
    match p
    case Lit(l) => if WellFormed(l) then Some((ValueOf(l), memo)) else None
    case Recall(slot) =>
      if IsSlot(slot) && slot.i in memo && IsScalar(memo[slot.i]) then Some((memo[slot.i], memo)) else None
    case Empty(op) =>
      if op == EMPTY_DICT then Some((Dict(map[]), memo))
      else if op == EMPTY_LIST || op == EMPTY_TUPLE || op == EMPTY_SET then Some((List([]), memo))
      else None
    case Marked(op, items) =>
      (match EvalAll(host, items, memo)
       case None => None
       case Some((vs, memo1)) =>
         if op == TUPLE || op == LIST then Some((List(vs), memo1))
         else if op == DICT then Some((Dict(SetPairs(host, map[], vs)), memo1))
         else None)
    case Short(items) =>
      (match EvalAll(host, items, memo)
       case None => None
       case Some((vs, memo1)) => if 1 <= |items| <= 3 then Some((List(vs), memo1)) else None)
    case Append(target, item) =>
      (match Eval(host, target, memo)
       case Some((List(xs), memo1)) =>
         (match Eval(host, item, memo1)
          case Some((v, memo2)) => Some((List(xs + [v]), memo2))
          case None => None)
       case _ => None)
    case SetItem(target, key, item) =>
      (match Eval(host, target, memo)
       case Some((Dict(m), memo1)) =>
         (match Eval(host, key, memo1)
          case None => None
          case Some((k, memo2)) =>
            match Eval(host, item, memo2)
            case Some((v, memo3)) => Some((Dict(m[MapKey(host, k) := v]), memo3))
            case None => None)
       case _ => None)
    case Extend(target, op, items) =>
      (match Eval(host, target, memo)
       case None => None
       case Some((t, memo1)) =>
         match EvalAll(host, items, memo1)
         case None => None
         case Some((vs, memo2)) =>
           if t.List? && (op == APPENDS || op == ADDITEMS) then Some((List(t.items + vs), memo2))
           else if t.Dict? && op == SETITEMS then Some((Dict(SetPairs(host, t.entries, vs)), memo2))
           else None)
    case Put(of, slot) =>
      (match Eval(host, of, memo)
       case Some((v, memo1)) => if IsSlot(slot) then Some((v, memo1[slot.i := v])) else None
       case None => None)
    case Memoized(of) =>
      (match Eval(host, of, memo)
       case Some((v, memo1)) => Some((v, memo1[|memo1| := v]))
       case None => None)
    case Headed(h, of) => Eval(host, of, memo)
  }

  function EvalAll(host: Host, ps: seq<Program>, memo: Memo): (r: Option<(seq<Value>, Memo)>)
    ensures r.Some? ==> |r.value.0| == |ps|
    decreases ps, 0
  {
    if ps == [] then Some(([], memo))
    else match Eval(host, ps[0], memo)
    case None => None
    case Some((v, memo1)) =>
      match EvalAll(host, ps[1..], memo1)
      case None => None
      case Some((vs, memo2)) => Some(([v] + vs, memo2))
  }

  predicate NoMarks(vs: seq<Value>) { forall i :: 0 <= i < |vs| ==> !vs[i].Mark? }

  lemma {:induction false} EvalIsNoMark(host: Host, p: Program, memo: Memo)
    requires Eval(host, p, memo).Some?
    ensures !Eval(host, p, memo).value.0.Mark?
    decreases p
  {
    match p
    case Put(of, _) => EvalIsNoMark(host, of, memo);
    case Memoized(of) => EvalIsNoMark(host, of, memo);
    case Headed(_, of) => EvalIsNoMark(host, of, memo);
    case _ =>
  }

  lemma {:induction false} EvalAllHasNoMarks(host: Host, ps: seq<Program>, memo: Memo)
    requires EvalAll(host, ps, memo).Some?
    ensures NoMarks(EvalAll(host, ps, memo).value.0)
  {
    if ps != [] {
      EvalIsNoMark(host, ps[0], memo);
      EvalAllHasNoMarks(host, ps[1..], Eval(host, ps[0], memo).value.1);
    }
  }

  // ----- the machine runs programs -----

  /** The state a program's bytes lead to. */
  function Landed(vm: VM, code: bytes, vs: seq<Value>, memo: Memo): VM {
    VM(vm.pos + |code|, vm.stack + vs, memo)
  }

  lemma OpcodeStep(host: Host, data: bytes, op: byte, vm: VM, vm': VM)
    requires At(data, vm.pos, [op])
    requires Execute(host, data, op, vm.(pos := vm.pos + 1)) == Next(vm')
    ensures Steps(host, data, vm, vm')
  {
    assert data[vm.pos] == [op][0];
    StepsOne(host, data, vm, vm');
  }

  lemma TopMarkAbove(stack: seq<Value>, vs: seq<Value>)
    requires NoMarks(vs)
    ensures TopMark(stack + [Mark] + vs) == Some(|stack|)
  {
    var s := stack + [Mark] + vs;
    assert s[|stack|] == Mark;
    assert forall j :: |stack| < j < |s| ==> s[j] == vs[j - |stack| - 1];
  }

  predicate IsGatherOp(op: byte) {
    op == TUPLE || op == LIST || op == DICT || op == APPENDS || op == ADDITEMS || op == SETITEMS
  }

  /** An opcode fed by popMark sees exactly the values above the last mark. */
  lemma GatherExecutes(host: Host, data: bytes, op: byte, vm: VM, vs: seq<Value>, before: VM)
    requires IsGatherOp(op) && NoMarks(vs)
    requires before.pos <= |data| && before.stack == vm.stack + [Mark] + vs
    ensures Execute(host, data, op, before) == Gathered(host, op, before.(stack := vm.stack), vs)
  {
    hide Gathered, Number;
    TopMarkAbove(vm.stack, vs);
    assert before.stack[..|vm.stack|] == vm.stack;
    assert before.stack[|vm.stack| + 1..] == vs;
  }

  lemma MarkExecutes(host: Host, data: bytes, vm: VM)
    requires vm.pos <= |data|
    ensures Execute(host, data, MARK, vm) == Next(vm.Push(Mark))
  {
  }

  lemma ShortExecutes(host: Host, data: bytes, vm: VM, vs: seq<Value>, before: VM)
    requires 1 <= |vs| <= 3
    requires before.pos <= |data| && before.stack == vm.stack + vs
    ensures Execute(host, data, 0x84 + |vs|, before) == Next(before.(stack := vm.stack + [List(vs)]))
  {
  }

  lemma EmptyExecutes(host: Host, data: bytes, op: byte, vm: VM)
    requires vm.pos <= |data|
    requires op == EMPTY_LIST || op == EMPTY_TUPLE || op == EMPTY_SET || op == EMPTY_DICT
    ensures Execute(host, data, op, vm) == Next(vm.Push(if op == EMPTY_DICT then Dict(map[]) else List([])))
  {
  }

  lemma AppendExecutes(host: Host, data: bytes, vm: VM, xs: seq<Value>, v: Value, before: VM)
    requires before.pos <= |data| && before.stack == vm.stack + [List(xs)] + [v]
    ensures Execute(host, data, APPEND, before) == Next(before.(stack := vm.stack + [List(xs + [v])]))
  {
  }

  lemma SetItemExecutes(host: Host, data: bytes, vm: VM, m: map<Key, Value>, k: Value, v: Value, before: VM)
    requires before.pos <= |data| && before.stack == vm.stack + [Dict(m)] + [k] + [v]
    ensures Execute(host, data, SETITEM, before) ==
            Next(before.(stack := vm.stack + [Dict(m[MapKey(host, k) := v])]))
  {
    hide Number, MapKey;
    var d := Dict(m[MapKey(host, k) := v]);
    assert before.stack[..|before.stack| - 2] == vm.stack + [Dict(m)];
    assert SetPairs(host, m, [k, v]) == m[MapKey(host, k) := v] by {
      assert [k, v][2..] == [];
    }
    assert (vm.stack + [Dict(m)])[|vm.stack| := d] == vm.stack + [d];
  }

  lemma ExtendGathers(host: Host, op: byte, vm: VM, stack: seq<Value>, t: Value, vs: seq<Value>)
    requires vm.stack == stack + [t]
    ensures t.List? && (op == APPENDS || op == ADDITEMS) ==>
              Gathered(host, op, vm, vs) == Next(vm.(stack := stack + [List(t.items + vs)]))
    ensures t.Dict? && op == SETITEMS ==>
              Gathered(host, op, vm, vs) == Next(vm.(stack := stack + [Dict(SetPairs(host, t.entries, vs))]))
  {
  }

  lemma MemoizeExecutes(host: Host, data: bytes, vm: VM, stack: seq<Value>, v: Value)
    requires vm.pos <= |data| && vm.stack == stack + [v]
    ensures Execute(host, data, MEMOIZE, vm) == Next(vm.Remember(|vm.memo|, v))
  {
  }

  lemma HeaderRuns(host: Host, data: bytes, h: Header, vm: VM)
    requires At(data, vm.pos, HeaderBytes(h)) && |data| < TWO_63
    ensures Steps(host, data, vm, vm.(pos := vm.pos + |HeaderBytes(h)|))
  {
    var b, op := HeaderBytes(h)[1..], HeaderBytes(h)[0];
    assert HeaderBytes(h) == [op] + b;
    AtSplit(data, vm.pos, [op], b);
    ReadAt(data, vm.(pos := vm.pos + 1), b);
    hide Structure;
    OpcodeStep(host, data, op, vm, vm.(pos := vm.pos + |HeaderBytes(h)|));
  }

  lemma LiteralRuns(host: Host, data: bytes, l: Literal, vm: VM)
    requires WellFormed(l) && At(data, vm.pos, EmitLiteral(l)) && |data| < TWO_63
    ensures Steps(host, data, vm, Landed(vm, EmitLiteral(l), [ValueOf(l)], vm.memo))
  {
    AtSplit(data, vm.pos, [OpcodeOf(l)], ArgumentOf(l));
    LiteralExecutes(host, data, l, vm.(pos := vm.pos + 1));
    hide Execute, OpcodeOf, ArgumentOf, ValueOf;
    OpcodeStep(host, data, OpcodeOf(l), vm, Landed(vm, EmitLiteral(l), [ValueOf(l)], vm.memo));
  }

  lemma RecallRuns(host: Host, data: bytes, slot: Slot, vm: VM)
    requires IsSlot(slot) && slot.i in vm.memo && |data| < TWO_63
    requires At(data, vm.pos, [GetOp(slot)] + SlotBytes(slot))
    ensures Steps(host, data, vm, Landed(vm, [GetOp(slot)] + SlotBytes(slot), [vm.memo[slot.i]], vm.memo))
  {
    AtSplit(data, vm.pos, [GetOp(slot)], SlotBytes(slot));
    SlotExecutes(host, data, slot, vm.(pos := vm.pos + 1));
    hide Execute, SlotBytes, GetOp, PutOp;
    OpcodeStep(host, data, GetOp(slot), vm,
               Landed(vm, [GetOp(slot)] + SlotBytes(slot), [vm.memo[slot.i]], vm.memo));
  }

  lemma PutRuns(host: Host, data: bytes, slot: Slot, vm: VM, stack: seq<Value>, v: Value)
    requires IsSlot(slot) && |data| < TWO_63 && vm.stack == stack + [v]
    requires At(data, vm.pos, [PutOp(slot)] + SlotBytes(slot))
    ensures Steps(host, data, vm, VM(vm.pos + 1 + |SlotBytes(slot)|, vm.stack, vm.memo[slot.i := v]))
  {
    AtSplit(data, vm.pos, [PutOp(slot)], SlotBytes(slot));
    SlotExecutes(host, data, slot, vm.(pos := vm.pos + 1));
    hide Execute, SlotBytes, GetOp, PutOp;
    OpcodeStep(host, data, PutOp(slot), vm,
               VM(vm.pos + 1 + |SlotBytes(slot)|, vm.stack, vm.memo[slot.i := v]));
  }

  /** Stack-machine correctness: wherever a program's bytes stand in the data and whatever is
      on the stack, running them leaves that stack intact and pushes exactly the value the
      program denotes. */
  lemma {:induction false} ProgramRuns(host: Host, data: bytes, p: Program, vm: VM)
    requires |data| < TWO_63 && At(data, vm.pos, Emit(p))
    requires Eval(host, p, vm.memo).Some?
    ensures var (v, memo) := Eval(host, p, vm.memo).value;
            Steps(host, data, vm, Landed(vm, Emit(p), [v], memo))
    decreases p, 2
  {
    hide Execute, Gathered, EmitLiteral, SlotBytes, GetOp, PutOp, HeaderBytes, Steps, At;
    var (v, memo) := Eval(host, p, vm.memo).value;
    var end := Landed(vm, Emit(p), [v], memo);
    match p
    case Lit(l) => LiteralRuns(host, data, l, vm);
    case Recall(slot) => RecallRuns(host, data, slot, vm);
    case Empty(op) =>
      EmptyRuns(host, data, op, vm);
    case Marked(op, items) =>
      MarkedRuns(host, data, op, items, vm);
    case Short(items) =>
      ShortRuns(host, data, items, vm);
    case Append(target, item) =>
      AppendRuns(host, data, target, item, vm);
    case SetItem(target, key, item) =>
      SetItemRuns(host, data, target, key, item, vm);
    case Extend(target, op, items) =>
      ExtendRuns(host, data, target, op, items, vm);
    case Put(of, slot) =>
      AtPut(data, vm.pos, of, slot);
      ProgramRuns(host, data, of, vm);
      var (_, memo1) := Eval(host, of, vm.memo).value;
      var vm1 := Landed(vm, Emit(of), [v], memo1);
      PutRuns(host, data, slot, vm1, vm.stack, v);
      StepsTrans(host, data, vm, vm1, end);
    case Memoized(of) =>
      AtSplit(data, vm.pos, Emit(of), [MEMOIZE]);
      ProgramRuns(host, data, of, vm);
      var (_, memo1) := Eval(host, of, vm.memo).value;
      var vm1 := Landed(vm, Emit(of), [v], memo1);
      MemoizeRuns(host, data, vm1, vm.stack, v);
      StepsTrans(host, data, vm, vm1, end);
    case Headed(h, of) =>
      AtSplit(data, vm.pos, HeaderBytes(h), Emit(of));
      HeaderRuns(host, data, h, vm);
      var vm1 := vm.(pos := vm.pos + |HeaderBytes(h)|);
      ProgramRuns(host, data, of, vm1);
      StepsTrans(host, data, vm, vm1, end);
  }

  lemma AtPut(data: bytes, pos: nat, of: Program, slot: Slot)
    requires At(data, pos, Emit(of) + [PutOp(slot)] + SlotBytes(slot))
    ensures At(data, pos, Emit(of)) && At(data, pos + |Emit(of)|, [PutOp(slot)] + SlotBytes(slot))
  {
    hide Emit, PutOp, SlotBytes;
    assert Emit(of) + [PutOp(slot)] + SlotBytes(slot) == Emit(of) + ([PutOp(slot)] + SlotBytes(slot));
    AtSplit(data, pos, Emit(of), [PutOp(slot)] + SlotBytes(slot));
  }

  lemma EmptyRuns(host: Host, data: bytes, op: byte, vm: VM)
    requires At(data, vm.pos, [op]) && Eval(host, Empty(op), vm.memo).Some?
    ensures Steps(host, data, vm, Landed(vm, [op], [Eval(host, Empty(op), vm.memo).value.0], vm.memo))
  {
    EmptyExecutes(host, data, op, vm.(pos := vm.pos + 1));
    hide Execute;
    OpcodeStep(host, data, op, vm, Landed(vm, [op], [Eval(host, Empty(op), vm.memo).value.0], vm.memo));
  }

  lemma MemoizeRuns(host: Host, data: bytes, vm: VM, stack: seq<Value>, v: Value)
    requires At(data, vm.pos, [MEMOIZE]) && vm.stack == stack + [v]
    ensures Steps(host, data, vm, VM(vm.pos + 1, vm.stack, vm.memo[|vm.memo| := v]))
  {
    MemoizeExecutes(host, data, vm.(pos := vm.pos + 1), stack, v);
    hide Execute;
    OpcodeStep(host, data, MEMOIZE, vm, VM(vm.pos + 1, vm.stack, vm.memo[|vm.memo| := v]));
  }

  lemma MarkStep(host: Host, data: bytes, vm: VM)
    requires At(data, vm.pos, [MARK])
    ensures Steps(host, data, vm, VM(vm.pos + 1, vm.stack + [Mark], vm.memo))
  {
    MarkExecutes(host, data, vm.(pos := vm.pos + 1));
    hide Execute;
    OpcodeStep(host, data, MARK, vm, VM(vm.pos + 1, vm.stack + [Mark], vm.memo));
  }

  lemma GatherStep(host: Host, data: bytes, op: byte, vm: VM, vs: seq<Value>, before: VM, vm': VM)
    requires IsGatherOp(op) && NoMarks(vs)
    requires At(data, before.pos, [op]) && before.stack == vm.stack + [Mark] + vs
    requires Gathered(host, op, VM(before.pos + 1, vm.stack, before.memo), vs) == Next(vm')
    ensures Steps(host, data, before, vm')
  {
    GatherExecutes(host, data, op, vm, vs, before.(pos := before.pos + 1));
    hide Execute, Gathered;
    OpcodeStep(host, data, op, before, vm');
  }

  /** A mark, items, and the opcode that gathers them. */
  lemma {:induction false} GatherRuns(host: Host, data: bytes, op: byte, items: seq<Program>, vm: VM, vm': VM)
    requires IsGatherOp(op) && |data| < TWO_63
    requires At(data, vm.pos, [MARK] + EmitAll(items) + [op])
    requires EvalAll(host, items, vm.memo).Some?
    requires var (vs, memo) := EvalAll(host, items, vm.memo).value;
             Gathered(host, op, VM(vm.pos + |EmitAll(items)| + 2, vm.stack, memo), vs) == Next(vm')
    ensures Steps(host, data, vm, vm')
    decreases items, 1
  {
    hide Execute, Gathered, Eval, Emit, EvalAll, EmitAll, At, Steps, NoMarks;
    var (vs, memo) := EvalAll(host, items, vm.memo).value;
    var code := EmitAll(items);
    AtSplit3(data, vm.pos, [MARK], code, [op]);
    var vm1 := VM(vm.pos + 1, vm.stack + [Mark], vm.memo);
    MarkStep(host, data, vm);
    AllRun(host, data, items, vm1);
    var vm2 := Landed(vm1, code, vs, memo);
    EvalAllHasNoMarks(host, items, vm.memo);
    GatherStep(host, data, op, vm, vs, vm2, vm');
    StepsTrans(host, data, vm, vm1, vm2);
    StepsTrans(host, data, vm, vm2, vm');
  }

  lemma {:induction false} MarkedRuns(host: Host, data: bytes, op: byte, items: seq<Program>, vm: VM)
    requires |data| < TWO_63 && At(data, vm.pos, Emit(Marked(op, items)))
    requires Eval(host, Marked(op, items), vm.memo).Some?
    ensures var (v, memo) := Eval(host, Marked(op, items), vm.memo).value;
            Steps(host, data, vm, Landed(vm, Emit(Marked(op, items)), [v], memo))
    decreases items, 2
  {
    var (v, memo) := Eval(host, Marked(op, items), vm.memo).value;
    GatherRuns(host, data, op, items, vm, Landed(vm, Emit(Marked(op, items)), [v], memo));
  }

  lemma {:induction false} ShortRuns(host: Host, data: bytes, items: seq<Program>, vm: VM)
    requires |data| < TWO_63 && At(data, vm.pos, Emit(Short(items)))
    requires Eval(host, Short(items), vm.memo).Some?
    ensures var (v, memo) := Eval(host, Short(items), vm.memo).value;
            Steps(host, data, vm, Landed(vm, Emit(Short(items)), [v], memo))
    decreases items, 2
  {
    hide Eval, EvalAll, Emit, EmitAll, At, Steps;
    ShortUnfolds(host, items, vm.memo);
    var (vs, memo) := EvalAll(host, items, vm.memo).value;
    var op: byte := 0x84 + |items|;
    AtSplit(data, vm.pos, EmitAll(items), [op]);
    AllRun(host, data, items, vm);
    var vm1 := Landed(vm, EmitAll(items), vs, memo);
    ShortStep(host, data, vm, vs, vm1);
    StepsTrans(host, data, vm, vm1, VM(vm1.pos + 1, vm.stack + [List(vs)], memo));
  }

  lemma ShortUnfolds(host: Host, items: seq<Program>, memo: Memo)
    requires Eval(host, Short(items), memo).Some?
    ensures 1 <= |items| <= 3
    ensures Emit(Short(items)) == EmitAll(items) + [0x84 + |items|]
    ensures EvalAll(host, items, memo).Some?
    ensures var (vs, memo1) := EvalAll(host, items, memo).value;
            Eval(host, Short(items), memo) == Some((List(vs), memo1))
  {
  }

  lemma ShortStep(host: Host, data: bytes, vm: VM, vs: seq<Value>, before: VM)
    requires 1 <= |vs| <= 3
    requires At(data, before.pos, [0x84 + |vs|]) && before.stack == vm.stack + vs
    ensures Steps(host, data, before, VM(before.pos + 1, vm.stack + [List(vs)], before.memo))
  {
    ShortExecutes(host, data, vm, vs, before.(pos := before.pos + 1));
    hide Execute;
    OpcodeStep(host, data, 0x84 + |vs|, before, VM(before.pos + 1, vm.stack + [List(vs)], before.memo));
  }

  lemma {:induction false} AppendRuns(host: Host, data: bytes, target: Program, item: Program, vm: VM)
    requires |data| < TWO_63 && At(data, vm.pos, Emit(Append(target, item)))
    requires Eval(host, Append(target, item), vm.memo).Some?
    ensures var (v, memo) := Eval(host, Append(target, item), vm.memo).value;
            Steps(host, data, vm, Landed(vm, Emit(Append(target, item)), [v], memo))
    decreases Append(target, item), 1
  {
    hide Eval, Emit, Execute, At, Steps;
    AppendUnfolds(host, target, item, vm.memo);
    var (t, memo1) := Eval(host, target, vm.memo).value;
    var (v, memo2) := Eval(host, item, memo1).value;
    AtSplit3(data, vm.pos, Emit(target), Emit(item), [APPEND]);
    ProgramRuns(host, data, target, vm);
    var vm1 := Landed(vm, Emit(target), [t], memo1);
    ProgramRuns(host, data, item, vm1);
    var vm2 := Landed(vm1, Emit(item), [v], memo2);
    AppendStep(host, data, vm, t.items, v, vm2);
    StepsTrans(host, data, vm, vm1, vm2);
    StepsTrans(host, data, vm, vm2, VM(vm2.pos + 1, vm.stack + [List(t.items + [v])], memo2));
  }

  lemma AppendUnfolds(host: Host, target: Program, item: Program, memo: Memo)
    requires Eval(host, Append(target, item), memo).Some?
    ensures Emit(Append(target, item)) == Emit(target) + Emit(item) + [APPEND]
    ensures Eval(host, target, memo).Some? && Eval(host, target, memo).value.0.List?
    ensures var (t, memo1) := Eval(host, target, memo).value;
            && Eval(host, item, memo1).Some?
            && var (v, memo2) := Eval(host, item, memo1).value;
               Eval(host, Append(target, item), memo) == Some((List(t.items + [v]), memo2))
  {
  }

  lemma AppendStep(host: Host, data: bytes, vm: VM, xs: seq<Value>, v: Value, before: VM)
    requires At(data, before.pos, [APPEND]) && before.stack == vm.stack + [List(xs)] + [v]
    ensures Steps(host, data, before, VM(before.pos + 1, vm.stack + [List(xs + [v])], before.memo))
  {
    AppendExecutes(host, data, vm, xs, v, before.(pos := before.pos + 1));
    hide Execute;
    OpcodeStep(host, data, APPEND, before, VM(before.pos + 1, vm.stack + [List(xs + [v])], before.memo));
  }

  lemma SetItemStep(host: Host, data: bytes, vm: VM, m: map<Key, Value>, k: Value, v: Value, before: VM)
    requires At(data, before.pos, [SETITEM]) && before.stack == vm.stack + [Dict(m)] + [k] + [v]
    ensures Steps(host, data, before,
                  VM(before.pos + 1, vm.stack + [Dict(m[MapKey(host, k) := v])], before.memo))
  {
    SetItemExecutes(host, data, vm, m, k, v, before.(pos := before.pos + 1));
    hide Execute;
    OpcodeStep(host, data, SETITEM, before,
               VM(before.pos + 1, vm.stack + [Dict(m[MapKey(host, k) := v])], before.memo));
  }

  lemma {:induction false} SetItemRuns(host: Host, data: bytes, target: Program, key: Program, item: Program, vm: VM)
    requires |data| < TWO_63 && At(data, vm.pos, Emit(SetItem(target, key, item)))
    requires Eval(host, SetItem(target, key, item), vm.memo).Some?
    ensures var (v, memo) := Eval(host, SetItem(target, key, item), vm.memo).value;
            Steps(host, data, vm, Landed(vm, Emit(SetItem(target, key, item)), [v], memo))
    decreases SetItem(target, key, item), 1
  {
    hide Eval, Emit, MapKey, SetPairs, Execute, At, Steps;
    SetItemUnfolds(host, target, key, item, vm.memo);
    var (t, memo1) := Eval(host, target, vm.memo).value;
    var (k, memo2) := Eval(host, key, memo1).value;
    var (v, memo3) := Eval(host, item, memo2).value;
    var result := Dict(t.entries[MapKey(host, k) := v]);
    AtSplit3(data, vm.pos, Emit(target), Emit(key) + Emit(item), [SETITEM]);
    AtSplit(data, vm.pos + |Emit(target)|, Emit(key), Emit(item));
    ProgramRuns(host, data, target, vm);
    var vm1 := Landed(vm, Emit(target), [t], memo1);
    ProgramRuns(host, data, key, vm1);
    var vm2 := Landed(vm1, Emit(key), [k], memo2);
    ProgramRuns(host, data, item, vm2);
    var vm3 := Landed(vm2, Emit(item), [v], memo3);
    SetItemStep(host, data, vm, t.entries, k, v, vm3);
    StepsTrans(host, data, vm, vm1, vm2);
    StepsTrans(host, data, vm, vm2, vm3);
    StepsTrans(host, data, vm, vm3, VM(vm3.pos + 1, vm.stack + [result], memo3));
  }

  lemma SetItemUnfolds(host: Host, target: Program, key: Program, item: Program, memo: Memo)
    requires Eval(host, SetItem(target, key, item), memo).Some?
    ensures Emit(SetItem(target, key, item)) == Emit(target) + (Emit(key) + Emit(item)) + [SETITEM]
    ensures Eval(host, target, memo).Some? && Eval(host, target, memo).value.0.Dict?
    ensures var (t, memo1) := Eval(host, target, memo).value;
            && Eval(host, key, memo1).Some?
            && var (k, memo2) := Eval(host, key, memo1).value;
               && Eval(host, item, memo2).Some?
               && var (v, memo3) := Eval(host, item, memo2).value;
                  Eval(host, SetItem(target, key, item), memo) ==
                  Some((Dict(t.entries[MapKey(host, k) := v]), memo3))
  {
  }

  lemma {:induction false} ExtendRuns(host: Host, data: bytes, target: Program, op: byte, items: seq<Program>, vm: VM)
    requires |data| < TWO_63 && At(data, vm.pos, Emit(Extend(target, op, items)))
    requires Eval(host, Extend(target, op, items), vm.memo).Some?
    ensures var (v, memo) := Eval(host, Extend(target, op, items), vm.memo).value;
            Steps(host, data, vm, Landed(vm, Emit(Extend(target, op, items)), [v], memo))
    decreases Extend(target, op, items), 1
  {
    hide Eval, EvalAll, Emit, EmitAll, Gathered, SetPairs, At, Steps;
    ExtendUnfolds(host, target, op, items, vm.memo);
    var (v, memo) := Eval(host, Extend(target, op, items), vm.memo).value;
    var (t, memo1) := Eval(host, target, vm.memo).value;
    var (vs, _) := EvalAll(host, items, memo1).value;
    AtSplit(data, vm.pos, Emit(target), [MARK] + EmitAll(items) + [op]);
    ProgramRuns(host, data, target, vm);
    var vm1 := Landed(vm, Emit(target), [t], memo1);
    var end := VM(vm1.pos + |EmitAll(items)| + 2, vm.stack + [v], memo);
    ExtendGathers(host, op, VM(end.pos, vm1.stack, memo), vm.stack, t, vs);
    GatherRuns(host, data, op, items, vm1, end);
    StepsTrans(host, data, vm, vm1, end);
  }

  lemma ExtendUnfolds(host: Host, target: Program, op: byte, items: seq<Program>, memo: Memo)
    requires Eval(host, Extend(target, op, items), memo).Some?
    ensures Emit(Extend(target, op, items)) == Emit(target) + ([MARK] + EmitAll(items) + [op])
    ensures Eval(host, target, memo).Some?
    ensures var (t, memo1) := Eval(host, target, memo).value;
            && EvalAll(host, items, memo1).Some?
            && var (vs, memo2) := EvalAll(host, items, memo1).value;
               var (v, memo3) := Eval(host, Extend(target, op, items), memo).value;
               && memo3 == memo2
               && ((t.List? && (op == APPENDS || op == ADDITEMS) && v == List(t.items + vs)) ||
                   (t.Dict? && op == SETITEMS && v == Dict(SetPairs(host, t.entries, vs))))
  {
  }

  lemma {:induction false} AllRun(host: Host, data: bytes, ps: seq<Program>, vm: VM)
    requires |data| < TWO_63 && At(data, vm.pos, EmitAll(ps))
    requires EvalAll(host, ps, vm.memo).Some?
    ensures var (vs, memo) := EvalAll(host, ps, vm.memo).value;
            Steps(host, data, vm, Landed(vm, EmitAll(ps), vs, memo))
    decreases ps, 0
  {
    hide Eval, Emit, Execute;
    if ps == [] {
      assert vm.stack + [] == vm.stack;
    } else {
      AtSplit(data, vm.pos, Emit(ps[0]), EmitAll(ps[1..]));
      var (v, memo1) := Eval(host, ps[0], vm.memo).value;
      var (vs, memo2) := EvalAll(host, ps[1..], memo1).value;
      ProgramRuns(host, data, ps[0], vm);
      var vm1 := Landed(vm, Emit(ps[0]), [v], memo1);
      AllRun(host, data, ps[1..], vm1);
      hide At, Steps;
      assert vm.stack + [v] + vs == vm.stack + ([v] + vs);
      StepsTrans(host, data, vm, vm1, Landed(vm, EmitAll(ps), [v] + vs, memo2));
    }
  }
}
