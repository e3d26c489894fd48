/** The raw-unicode-escape text codec of internal/f2b/pickle.go: what the UNICODE opcode's
    line carries. Text to be sent is a sequence of code points (what ranging over a Go string
    yields); text received is a sequence of bytes (what a Go string holds). */
module RawUnicode {
  import opened Numbers

  type rune = r: int | 0 <= r <= 0x10_FFFF

  const BACKSLASH: byte := 0x5C
  const NEWLINE: byte := 0x0A

  predicate IsSurrogate(r: rune) { 0xD800 <= r <= 0xDFFF }

  /** A Unicode scalar value: the only code points a valid string holds. */
  predicate IsScalar(r: rune) { !IsSurrogate(r) }

  /** UTF-8, as strings.Builder.WriteRune writes it: a surrogate becomes U+FFFD. */
  function Utf8(r: rune): bytes {
    if r < 0x80 then [r]
    else if r < 0x800 then [0xC0 + r / 0x40, 0x80 + r % 0x40]
    else if IsSurrogate(r) then [0xEF, 0xBF, 0xBD]
    else if r <= 0xFFFF then [0xE0 + r / 0x1000, 0x80 + r / 0x40 % 0x40, 0x80 + r % 0x40]
    else [0xF0 + r / 0x4_0000, 0x80 + r / 0x1000 % 0x40, 0x80 + r / 0x40 % 0x40, 0x80 + r % 0x40]
  }

  /** UTF-8 as section 3 of RFC 3629 has it: how many bytes, their ranges, and the code point they hold. */
  lemma Utf8IsStandard(r: rune)
    requires IsScalar(r)
    ensures var u: seq<int> := Utf8(r);
            && |u| == (if r < 0x80 then 1 else if r < 0x800 then 2 else if r < 0x1_0000 then 3 else 4)
            && (forall i :: 1 <= i < |u| ==> 0x80 <= u[i] < 0xC0)
            && match |u|
               case 1 => r == u[0]
               case 2 => 0xC0 <= u[0] < 0xE0 && r == (u[0] - 0xC0) * 64 + (u[1] - 0x80)
               case 3 => 0xE0 <= u[0] < 0xF0 && r == (u[0] - 0xE0) * 4096 + (u[1] - 0x80) * 64 + (u[2] - 0x80)
               case _ => 0xF0 <= u[0] < 0xF8 &&
                         r == (u[0] - 0xF0) * 262144 + (u[1] - 0x80) * 4096 + (u[2] - 0x80) * 64 + (u[3] - 0x80)
  {
    assert r / 0x40 / 0x40 == r / 0x1000 && r / 0x1000 / 0x40 == r / 0x4_0000;
  }

  /** The bytes of a whole string. */
  function Encoded(s: seq<rune>): bytes {
    if s == [] then [] else Utf8(s[0]) + Encoded(s[1..])
  }

  // ----- four hexadecimal digits -----

  function HexDigit(d: nat): byte
    requires d < 16
  {
    if d < 10 then 0x30 + d else 0x61 + d - 10
  }

  function HexValue(c: byte): Option<nat> {
    if 0x30 <= c <= 0x39 then Some(c - 0x30)
    else if 0x61 <= c <= 0x66 then Some(c - 0x61 + 10)
    else if 0x41 <= c <= 0x46 then Some(c - 0x41 + 10)
    else None
  }

  /** %04x of a code point below 0x10000. */
  function Hex4(n: nat): (b: bytes)
    requires n <= 0xFFFF
    ensures |b| == 4
  {
    [HexDigit(n / 0x1000), HexDigit(n / 0x100 % 16), HexDigit(n / 0x10 % 16), HexDigit(n % 16)]
  }

  /** strconv.ParseUint of four characters in base 16. */
  function ParseHex4(b: bytes): (r: Option<nat>)
    requires |b| == 4
    ensures r.Some? ==> r.value <= 0xFFFF
  {
    match (HexValue(b[0]), HexValue(b[1]), HexValue(b[2]), HexValue(b[3]))
    case (Some(w), Some(x), Some(y), Some(z)) =>
      HexValueBound(b[0]); HexValueBound(b[1]); HexValueBound(b[2]); HexValueBound(b[3]);
      Some(w * 0x1000 + x * 0x100 + y * 0x10 + z)
    case _ => None
  }

  lemma HexValueBound(c: byte)
    ensures HexValue(c).Some? ==> HexValue(c).value < 16
  {
  }

  lemma HexRoundTrip(n: nat)
    requires n <= 0xFFFF
    ensures ParseHex4(Hex4(n)) == Some(n)
  {
    HexDigitValue(n / 0x1000);
    HexDigitValue(n / 0x100 % 16);
    HexDigitValue(n / 0x10 % 16);
    HexDigitValue(n % 16);
    NibbleSum(n);
  }

  lemma HexDigitValue(d: nat)
    requires d < 16
    ensures HexValue(HexDigit(d)) == Some(d)
    ensures 0x20 <= HexDigit(d) <= 0x7E
  {
  }

  lemma NibbleSum(n: nat)
    ensures n == n / 0x1000 * 0x1000 + n / 0x100 % 16 * 0x100 + n / 0x10 % 16 * 0x10 + n % 16
  {
    assert n / 0x10 / 16 == n / 0x100;
    assert n / 0x100 / 16 == n / 0x1000;
  }

  // ----- escaping -----

  predicate NeedsEscape(r: rune) {
    r == BACKSLASH || r == NEWLINE || r == 0x0D || r > 0x7E || r < 0x20
  }

  function Utf16High(r: rune): (h: rune)
    requires r > 0xFFFF
    ensures 0xD800 <= h < 0xDC00
  {
    0xD800 + (r - 0x1_0000) / 0x400
  }

  function Utf16Low(r: rune): (l: rune)
    requires r > 0xFFFF
    ensures 0xDC00 <= l < 0xE000
  {
    0xDC00 + (r - 0x1_0000) % 0x400
  }

  function UnicodeEscape(r: rune): bytes
    requires r <= 0xFFFF
  {
    [BACKSLASH, 0x75] + Hex4(r)
  }

  function EscapeRune(r: rune): bytes {
    if NeedsEscape(r) then
      if r > 0xFFFF then UnicodeEscape(Utf16High(r)) + UnicodeEscape(Utf16Low(r))
      else UnicodeEscape(r)
    else [r]
  }

  function Escape(s: seq<rune>): bytes {
    if s == [] then [] else EscapeRune(s[0]) + Escape(s[1..])
  }

  lemma {:induction false} EscapeAppend(s: seq<rune>, r: rune)
    ensures Escape(s + [r]) == Escape(s) + EscapeRune(r)
  {
    hide EscapeRune;
    if s == [] {
      assert Escape([r]) == EscapeRune(r) + Escape([]);
    } else {
      EscapeAppend(s[1..], r);
      assert (s + [r])[1..] == s[1..] + [r];
      assert EscapeRune(s[0]) + (Escape(s[1..]) + EscapeRune(r)) == Escape(s) + EscapeRune(r);
    }
  }

  lemma EscapeStep(s: seq<rune>, i: nat)
    requires i < |s|
    ensures Escape(s[..i + 1]) == Escape(s[..i]) + EscapeRune(s[i])
  {
    EscapeAppend(s[..i], s[i]);
    assert s[..i + 1] == s[..i] + [s[i]];
  }

  lemma EscapeNone(s: seq<rune>)
    requires s == []
    ensures Escape(s) == []
  {
  }

  method EscapeRawUnicode(s: seq<rune>) returns (b: bytes)
    ensures b == Escape(s)
  {
    hide Escape, UnicodeEscape, Utf16High, Utf16Low;
    b := [];
    EscapeNone(s[..0]);
    for i := 0 to |s|
      invariant b == Escape(s[..i])
    {
      var r := s[i];
      EscapeStep(s, i);
      if r == BACKSLASH || r == NEWLINE || r == 0x0D || r > 0x7E || r < 0x20 {
        if r > 0xFFFF {
          var h, l := UnicodeEscape(Utf16High(r)), UnicodeEscape(Utf16Low(r));
          assert b + (h + l) == b + h + l;
          b := b + h;
          b := b + l;
        } else {
          b := b + UnicodeEscape(r);
        }
      } else {
        b := b + [r];
      }
    }
    assert s[..|s|] == s;
  }

  /** The characters 0 to 9 and a to f. */
  const HEX: bytes := [0x30, 0x31, 0x32, 0x33, 0x34, 0x35, 0x36, 0x37, 0x38, 0x39, 0x61, 0x62, 0x63, 0x64, 0x65, 0x66]

  /** What is sent for one code point: itself, if it is printable ASCII other than the backslash, and else
      a backslash, a u and its four hexadecimal digits, or those of its two surrogates. */
  lemma EscapeOfRune(r: rune)
    ensures 0x20 <= r <= 0x7E && r != 0x5C ==> Escape([r]) == [r]
    ensures (r < 0x20 || r == 0x5C || 0x7E < r) && r <= 0xFFFF ==>
              Escape([r]) == [0x5C, 0x75, HEX[r / 4096], HEX[r / 256 % 16], HEX[r / 16 % 16], HEX[r % 16]]
    ensures r > 0xFFFF ==>
              var h, l := 0xD800 + (r - 0x1_0000) / 1024, 0xDC00 + (r - 0x1_0000) % 1024;
              Escape([r]) == Escape([h]) + Escape([l])
  {
    hide Escape, HexDigit;
    OneRune(r);
    if r > 0xFFFF {
      OneRune(Utf16High(r));
      OneRune(Utf16Low(r));
    } else {
      HexText(r / 4096);
      HexText(r / 256 % 16);
      HexText(r / 16 % 16);
      HexText(r % 16);
    }
  }

  lemma HexText(k: nat)
    requires k < 16
    ensures HEX[k] == HexDigit(k)
  {
  }

  lemma OneRune(r: rune)
    ensures Escape([r]) == EscapeRune(r)
  {
    hide EscapeRune;
    assert Escape([]) == [];
    assert EscapeRune(r) + [] == EscapeRune(r);
  }

  lemma {:induction false} PlainIsSentAsItIs(s: seq<rune>)
    requires forall i :: 0 <= i < |s| ==> 0x20 <= s[i] <= 0x7E && s[i] != 0x5C
    ensures |Escape(s)| == |s| && forall i :: 0 <= i < |s| ==> Escape(s)[i] == s[i]
  {
    if s != [] {
      PlainIsSentAsItIs(s[1..]);
      assert EscapeRune(s[0]) == [s[0]];
    }
  }

  /** Escaped text stays on one line: it holds no newline and no byte above 0x7E. */
  lemma {:induction false} EscapeIsOneLine(s: seq<rune>)
    ensures NEWLINE !in Escape(s)
    ensures forall c :: c in Escape(s) ==> 0x20 <= c <= 0x7E
  {
    hide EscapeRune;
    if s != [] {
      EscapeIsOneLine(s[1..]);
      EscapeRuneIsPlain(s[0]);
    }
  }

  lemma EscapeRuneIsPlain(r: rune)
    ensures forall c :: c in EscapeRune(r) ==> 0x20 <= c <= 0x7E
  {
    hide Hex4;
    if NeedsEscape(r) {
      if r > 0xFFFF {
        Hex4IsPlain(Utf16High(r));
        Hex4IsPlain(Utf16Low(r));
      } else {
        Hex4IsPlain(r);
      }
    }
  }

  lemma Hex4IsPlain(n: nat)
    requires n <= 0xFFFF
    ensures forall c :: c in Hex4(n) ==> 0x20 <= c <= 0x7E
  {
  }

  // ----- unescaping -----

  /** The escape sequence at the front of s, if one is there. */
  function EscapeAt(s: bytes): (r: Option<rune>) {
    if |s| > 5 && s[0] == BACKSLASH && s[1] == 0x75 then
      match ParseHex4(s[2..6])
      case Some(n) => Some(n)
      case None => None
    else None
  }

  function Unescape(s: bytes): bytes {
    if s == [] then []
    else match EscapeAt(s)
    case Some(n) => Utf8(n) + Unescape(s[6..])
    case None => [s[0]] + Unescape(s[1..])
  }

  predicate HasEscape(s: bytes) {
    exists i :: 0 <= i < |s| - 1 && s[i] == BACKSLASH && s[i + 1] == 0x75
  }

  lemma {:induction false} UnescapePlain(s: bytes)
    requires !HasEscape(s)
    ensures Unescape(s) == s
  {
    if s != [] {
      assert EscapeAt(s).None? by {
        if |s| > 5 && s[0] == BACKSLASH && s[1] == 0x75 {
          assert HasEscape(s);
        }
      }
      forall i | 0 <= i < |s[1..]| - 1 ensures !(s[1..][i] == BACKSLASH && s[1..][i + 1] == 0x75) {
        assert s[i + 1] == s[1..][i];
      }
      UnescapePlain(s[1..]);
    }
  }

  lemma UnescapeStep(s: bytes, i: nat)
    requires i < |s|
    ensures var n := if s[i] == BACKSLASH && i + 5 < |s| && s[i + 1] == 0x75 then ParseHex4(s[i + 2..i + 6]) else None;
            Unescape(s[i..]) == if n.Some? then Utf8(n.value) + Unescape(s[i + 6..]) else [s[i]] + Unescape(s[i + 1..])
  {
  }

  lemma UnescapeEnd(s: bytes)
    requires s == []
    ensures Unescape(s) == []
  {
  }

  method UnescapeRawUnicode(s: bytes) returns (b: bytes)
    ensures b == Unescape(s)
  {
    hide Unescape, Utf8, ParseHex4, HasEscape;
    if !HasEscape(s) {
      UnescapePlain(s);
      return s;
    }
    b := [];
    var i := 0;
    assert s[0..] == s;
    while i < |s|
      invariant 0 <= i <= |s|
      invariant Unescape(s) == b + Unescape(s[i..])
    {
      UnescapeStep(s, i);
      var n := None;
      if s[i] == BACKSLASH && i + 5 < |s| && s[i + 1] == 0x75 {
        n := ParseHex4(s[i + 2..i + 6]);
      }
      if n.Some? {
        assert b + (Utf8(n.value) + Unescape(s[i + 6..])) == b + Utf8(n.value) + Unescape(s[i + 6..]);
        b := b + Utf8(n.value);
        i := i + 6;
        continue;
      }
      assert b + ([s[i]] + Unescape(s[i + 1..])) == b + [s[i]] + Unescape(s[i + 1..]);
      b := b + [s[i]];
      i := i + 1;
    }
    UnescapeEnd(s[i..]);
  }

  /** What decoding the escape of one code point gives back. */
  function Decoded(r: rune): bytes {
    if r > 0xFFFF then Utf8(Utf16High(r)) + Utf8(Utf16Low(r)) else Utf8(r)
  }

  function AllDecoded(s: seq<rune>): bytes {
    if s == [] then [] else Decoded(s[0]) + AllDecoded(s[1..])
  }

  lemma UnescapeEscape4(r: rune, t: bytes)
    requires r <= 0xFFFF
    ensures Unescape(UnicodeEscape(r) + t) == Utf8(r) + Unescape(t)
  {
    var s := UnicodeEscape(r) + t;
    HexRoundTrip(r);
    assert s[2..6] == Hex4(r);
    assert s[6..] == t;
  }

  lemma UnescapePair(r: rune, t: bytes)
    requires r > 0xFFFF
    ensures Unescape(UnicodeEscape(Utf16High(r)) + UnicodeEscape(Utf16Low(r)) + t) == Decoded(r) + Unescape(t)
  {
    hide Unescape, Utf8, UnicodeEscape, Utf16High, Utf16Low;
    var h, l := Utf16High(r), Utf16Low(r);
    UnescapeEscape4(h, UnicodeEscape(l) + t);
    UnescapeEscape4(l, t);
    assert UnicodeEscape(h) + UnicodeEscape(l) + t == UnicodeEscape(h) + (UnicodeEscape(l) + t);
    assert Utf8(h) + (Utf8(l) + Unescape(t)) == Utf8(h) + Utf8(l) + Unescape(t);
  }

  lemma UnescapePlainRune(r: rune, t: bytes)
    requires !NeedsEscape(r)
    ensures Unescape([r] + t) == Utf8(r) + Unescape(t)
  {
  }

  lemma UnescapeRune(r: rune, t: bytes)
    ensures Unescape(EscapeRune(r) + t) == Decoded(r) + Unescape(t)
  {
    hide Unescape, Utf8, UnicodeEscape, Utf16High, Utf16Low;
    if !NeedsEscape(r) {
      UnescapePlainRune(r, t);
    } else if r > 0xFFFF {
      UnescapePair(r, t);
    } else {
      UnescapeEscape4(r, t);
    }
  }

  lemma {:induction false} UnescapeEscape(s: seq<rune>)
    ensures Unescape(Escape(s)) == AllDecoded(s)
  {
    if s != [] {
      UnescapeRune(s[0], Escape(s[1..]));
      UnescapeEscape(s[1..]);
    }
  }

  predicate InBmp(s: seq<rune>) { forall i :: 0 <= i < |s| ==> s[i] <= 0xFFFF }

  lemma {:induction false} DecodedLength(s: seq<rune>)
    ensures InBmp(s) ==> AllDecoded(s) == Encoded(s)
    ensures |AllDecoded(s)| >= |Encoded(s)|
    ensures !InBmp(s) ==> |AllDecoded(s)| > |Encoded(s)|
  {
    if s != [] {
      DecodedLength(s[1..]);
      assert InBmp(s) <==> s[0] <= 0xFFFF && InBmp(s[1..]) by {
        assert forall i :: 0 <= i < |s[1..]| ==> s[1..][i] == s[i + 1];
        assert forall i :: 1 <= i < |s| ==> s[i] == s[1..][i - 1];
      }
    }
  }

  /** Text survives escaping and unescaping exactly when it stays inside the Basic
      Multilingual Plane: a code point above U+FFFF is sent as a surrogate pair, and the
      decoder writes one replacement character for each half. */
  lemma TextRoundTrip(s: seq<rune>)
    ensures Unescape(Escape(s)) == Encoded(s) <==> InBmp(s)
  {
    UnescapeEscape(s);
    DecodedLength(s);
  }

  /** Each code point above U+FFFF comes back as two U+FFFD. */
  lemma AstralRuneIsReplaced(r: rune)
    requires r > 0xFFFF
    ensures Unescape(Escape([r])) == Utf8(0xFFFD) + Utf8(0xFFFD) != Encoded([r])
  {
    hide Unescape, Escape;
    var s := [r];
    UnescapeEscape(s);
    assert AllDecoded(s) == Decoded(r) + AllDecoded(s[1..]);
    assert Encoded(s) == Utf8(r) + Encoded(s[1..]);
  }
}
