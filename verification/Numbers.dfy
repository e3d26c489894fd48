/** Options, bytes, and the integer representations the source relies on: signed 64-bit
    wrap-around, little-endian words, two's complement, and decimal text. */
module Numbers {

  datatype Option<+T> = None | Some(value: T)

  type byte = b: int | 0 <= b < 256

  type bytes = seq<byte>

  const TWO_63: int := 0x8000_0000_0000_0000
  const TWO_64: int := 0x1_0000_0000_0000_0000

  predicate IsInt64(n: int) { -TWO_63 <= n < TWO_63 }

  /** The value a Go int64 (or a 64-bit int) holds after arithmetic whose exact result is x. */
  function Wrap64(x: int): (r: int)
    ensures IsInt64(r)
    ensures (x - r) % TWO_64 == 0
    ensures IsInt64(x) ==> r == x
  {
    (x + TWO_63) % TWO_64 - TWO_63
  }

  /** Two int64 values that agree modulo 2^64 are equal. */
  lemma WrapUnique(x: int, r: int)
    requires IsInt64(r) && (x - r) % TWO_64 == 0
    ensures Wrap64(x) == r
  {
  }

  lemma WrapAbsorbs(x: int, y: int, k: int)
    requires x == y + k * TWO_64
    ensures Wrap64(x) == Wrap64(y)
  {
  }

  lemma MultipleMod(k: int)
    ensures (k * TWO_64) % TWO_64 == 0
  {
  }

  function Pow(b: nat, e: nat): (r: nat)
    ensures b > 0 ==> r > 0
  {
    if e == 0 then 1 else b * Pow(b, e - 1)
  }

  lemma {:induction false} PowSplit(b: nat, x: nat, y: nat)
    ensures Pow(b, x + y) == Pow(b, x) * Pow(b, y)
  {
    if x > 0 {
      PowSplit(b, x - 1, y);
      MulAssociates(b, Pow(b, x - 1), Pow(b, y));
    }
  }

  lemma MulAssociates(x: int, y: int, z: int)
    ensures x * (y * z) == x * y * z
  {
  }

  lemma Pow256Values()
    ensures Pow(256, 1) == 0x100
    ensures Pow(256, 2) == 0x1_0000
    ensures Pow(256, 3) == 0x100_0000
    ensures Pow(256, 4) == 0x1_0000_0000
    ensures Pow(256, 5) == 0x100_0000_0000
    ensures Pow(256, 6) == 0x1_0000_0000_0000
    ensures Pow(256, 7) == 0x100_0000_0000_0000
    ensures Pow(256, 8) == TWO_64
  {
  }

  // ----- little-endian words -----

  function FromLE(b: bytes): (n: nat)
  {
    if b == [] then 0 else b[0] + 256 * FromLE(b[1..])
  }

  function ToLE(n: nat, width: nat): (b: bytes)
    ensures |b| == width
  {
    if width == 0 then [] else [n % 256] + ToLE(n / 256, width - 1)
  }

  lemma {:induction false} FromLEBound(b: bytes)
    ensures FromLE(b) < Pow(256, |b|)
  {
    if b != [] {
      FromLEBound(b[1..]);
    }
  }

  lemma {:induction false} LittleEndianRoundTrip(n: nat, width: nat)
    requires n < Pow(256, width)
    ensures FromLE(ToLE(n, width)) == n
  {
    if width > 0 {
      assert n / 256 < Pow(256, width - 1) by {
        assert n < 256 * Pow(256, width - 1);
      }
      LittleEndianRoundTrip(n / 256, width - 1);
      assert ToLE(n, width)[1..] == ToLE(n / 256, width - 1);
    }
  }

  /** The top byte of a little-endian word is its high digit. */
  lemma {:induction false} FromLETop(b: bytes)
    requires b != []
    ensures FromLE(b) == FromLE(b[..|b| - 1]) + Pow(256, |b| - 1) * b[|b| - 1]
  {
    if |b| == 1 {
      assert b[..0] == [];
    } else {
      var t := b[1..];
      FromLETop(t);
      assert b[..|b| - 1][1..] == t[..|t| - 1];
      assert 256 * (Pow(256, |t| - 1) * t[|t| - 1]) == Pow(256, |t|) * t[|t| - 1];
    }
  }

  // ----- two's complement of any width -----

  /** The signed integer a little-endian byte string denotes in Python's LONG1 encoding. */
  function TwosComplement(b: bytes): (n: int)
  {
    if b == [] then 0
    else FromLE(b) - (if b[|b| - 1] >= 0x80 then Pow(256, |b|) else 0)
  }

  /** The two's-complement bytes of n in the given width. */
  function ToTwos(n: int, width: nat): (b: bytes)
    ensures |b| == width
  {
    ToLE(if n >= 0 then n else if -n <= Pow(256, width) then n + Pow(256, width) else 0, width)
  }

  predicate FitsTwos(n: int, width: nat) {
    width > 0 && -(Pow(256, width) as int) <= 2 * n < Pow(256, width)
  }

  /** The top bit of a little-endian word says whether it is in the upper half of its range. */
  lemma TopBit(b: bytes)
    requires b != []
    ensures b[|b| - 1] >= 0x80 <==> 2 * FromLE(b) >= Pow(256, |b|)
  {
  }

  lemma MulMonotone(q: nat, x: int, y: int)
    requires x <= y
    ensures q * x <= q * y
  {
  }

  lemma TwosRoundTrip(n: int, width: nat)
    requires FitsTwos(n, width)
    ensures TwosComplement(ToTwos(n, width)) == n
  {
    var p := Pow(256, width);
    var u := if n >= 0 then n else n + p;
    LittleEndianRoundTrip(u, width);
    TopBit(ToLE(u, width));
  }

  /** decodeLongLE: shifts bytes into a 64-bit integer from the most significant end, then
      sign-extends when fewer than eight bytes were given. */
  method DecodeLongLE(b: bytes) returns (n: int)
    ensures n == Wrap64(TwosComplement(b))
  {
    if |b| == 0 {
      return 0;
    }
    n := 0;
    var i := |b| - 1;
    while i >= 0
      invariant -1 <= i < |b|
      invariant n == Wrap64(FromLE(b[i + 1..]))
    {
      assert b[i..][1..] == b[i + 1..];
      ShiftIn(n, FromLE(b[i + 1..]), b[i]);
      // n << 8 leaves a zero low byte, so or-ing a byte in adds it
      n := Wrap64(n * 256) + b[i];
      i := i - 1;
    }
    assert b[0..] == b;
    SignExtension(b);
    if b[|b| - 1] >= 0x80 && |b| < 8 {
      n := n - Pow(256, |b|);
    }
  }

  lemma ShiftIn(n: int, u: int, x: byte)
    requires n == Wrap64(u)
    ensures Wrap64(n * 256) + x == Wrap64(x + 256 * u)
  {
    var k := (u - n) / TWO_64;
    var w := Wrap64(n * 256);
    var j := (n * 256 - w) / TWO_64;
    assert w == 256 * (n - j * 0x100_0000_0000_0000);
    assert w <= TWO_63 - 256;
    MultipleMod(256 * k + j);
    WrapUnique(x + 256 * u, w + x);
  }

  lemma SignExtension(b: bytes)
    requires b != []
    ensures Wrap64(TwosComplement(b)) ==
            Wrap64(FromLE(b)) - (if b[|b| - 1] >= 0x80 && |b| < 8 then Pow(256, |b|) else 0)
  {
    if |b| < 8 {
      ShortWordIsExact(b);
    } else if b[|b| - 1] >= 0x80 {
      Pow256Values();
      PowSplit(256, |b| - 8, 8);
      WrapAbsorbs(FromLE(b), TwosComplement(b), Pow(256, |b| - 8));
    }
  }

  lemma ShortWordIsExact(b: bytes)
    requires 0 < |b| < 8
    ensures IsInt64(FromLE(b)) && IsInt64(TwosComplement(b))
  {
    FromLEBound(b);
    Pow256Values();
    assert Pow(256, |b|) <= Pow(256, 7);
  }

  /** The decoded LONG1 is the true value exactly when that value fits in 64 bits; in
      particular always for up to eight bytes. */
  lemma DecodeLongExact(b: bytes)
    ensures Wrap64(TwosComplement(b)) == TwosComplement(b) <==> IsInt64(TwosComplement(b))
    ensures |b| <= 8 ==> IsInt64(TwosComplement(b))
  {
    if |b| == 8 {
      Pow256Values();
      FromLEBound(b);
      TopBit(b);
    } else if 0 < |b| < 8 {
      ShortWordIsExact(b);
    }
  }

  // ----- decimal text -----

  function Digit(d: nat): char
    requires d < 10
  {
    ('0' as int + d) as char
  }

  predicate IsDigit(c: char) { '0' <= c <= '9' }

  function DigitsOf(n: nat): (s: string)
    ensures s != []
  {
    if n < 10 then [Digit(n)] else DigitsOf(n / 10) + [Digit(n % 10)]
  }

  /** strconv.FormatInt(n, 10) and strconv.Itoa. */
  function FormatInt(n: int): string {
    if n < 0 then "-" + DigitsOf(-n) else DigitsOf(n)
  }

  function ParseDigits(s: string): Option<nat> {
    if s == [] then Some(0)
    else
      var c := s[|s| - 1];
      match ParseDigits(s[..|s| - 1])
      case Some(n) => if IsDigit(c) then Some(10 * n + (c as int - '0' as int)) else None
      case None => None
  }

  /** strconv.ParseInt(s, 10, 64) and strconv.Atoi: an optional sign, at least one digit,
      and a range check. None stands for the error. */
  function ParseInt(s: string): (r: Option<int>)
    ensures r.Some? ==> IsInt64(r.value)
  {
    if s == [] then None
    else
      var neg := s[0] == '-';
      var body := if neg || s[0] == '+' then s[1..] else s;
      if body == [] then None
      else
        match ParseDigits(body)
        case None => None
        case Some(n) =>
          if !neg && n >= TWO_63 then None
          else if neg && n > TWO_63 then None
          else Some(if neg then -(n as int) else n)
  }

  lemma {:induction false} DigitsParse(n: nat)
    ensures ParseDigits(DigitsOf(n)) == Some(n)
    ensures forall i :: 0 <= i < |DigitsOf(n)| ==> IsDigit(DigitsOf(n)[i])
  {
    if n < 10 {
      assert DigitsOf(n)[..0] == [];
      assert ParseDigits([]) == Some(0);
    } else {
      DigitsParse(n / 10);
      var s := DigitsOf(n);
      assert s[..|s| - 1] == DigitsOf(n / 10);
    }
  }

  /** Printing an int64 and parsing it back is the identity. */
  lemma DecimalRoundTrip(n: int)
    requires IsInt64(n)
    ensures ParseInt(FormatInt(n)) == Some(n)
  {
    hide ParseDigits, DigitsOf;
    var digits := DigitsOf(if n < 0 then -n else n);
    DigitsParse(if n < 0 then -n else n);
    if n < 0 {
      assert FormatInt(n)[0] == '-' && FormatInt(n)[1..] == digits;
    } else {
      assert IsDigit(digits[0]);
    }
  }

  /** The text is positional, base ten, most significant digit first, with a minus sign in front. */
  lemma FormatIsDecimal(q: nat, d: nat)
    requires d < 10
    ensures FormatInt(d) == ["0123456789"[d]]
    ensures q > 0 ==> FormatInt(10 * q + d) == FormatInt(q) + ["0123456789"[d]]
    ensures q > 0 ==> FormatInt(-(q as int)) == "-" + FormatInt(q)
  {
    assert forall k: nat :: k < 10 ==> "0123456789"[k] == Digit(k);
    assert (10 * q + d) / 10 == q && (10 * q + d) % 10 == d;
  }

  // ----- ASCII text as bytes -----

  function Ascii(s: string): (b: bytes)
    ensures |b| == |s|
  {
    seq(|s|, i requires 0 <= i < |s| => (s[i] as int) % 256)
  }

  function Chars(b: bytes): (s: string)
    ensures |s| == |b|
  {
    seq(|b|, i requires 0 <= i < |b| => b[i] as char)
  }

  lemma AsciiRoundTrip(s: string)
    requires forall i :: 0 <= i < |s| ==> s[i] as int < 128
    ensures Chars(Ascii(s)) == s
  {
  }
}
