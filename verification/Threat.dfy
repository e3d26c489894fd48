/** The local blocklist (internal/threat/threat.go): single addresses in a set, and prefixes in a
    set probed once per prefix length, proved to answer as a scan over every line would. */
module Threat {
  import opened Numbers
  import opened Text

  /** netip.Addr: 32 or 128 bits, and for IPv6 a zone. */
  datatype Addr = V4(bits: nat) | V6(bits: nat, zone: string) {
    function Width(): nat { if V4? then 32 else 128 }

    predicate Valid() { bits < Pow(2, Width()) }

    /** IPv4-mapped addresses (section 2.5.5.2 of RFC 4291) become IPv4. */
    function Unmap(): Addr {
      if V6? && bits / Pow(2, 32) == 0xFFFF then V4(bits % Pow(2, 32)) else this
    }

    function WithoutZone(): Addr { if V6? then V6(bits, "") else this }
  }

  lemma UnmapValid(a: Addr)
    requires a.Valid()
    ensures a.Unmap().Valid() && a.Unmap().WithoutZone().Valid()
  {
  }

  /** The 2^32 mapped addresses end in the IPv4 address; every other address is left as it is. */
  lemma MappedIsV4(a: Addr)
    ensures a.V6? && 0xFFFF_0000_0000 <= a.bits < 0x1_0000_0000_0000 ==> a.Unmap() == V4(a.bits - 0xFFFF_0000_0000)
    ensures a.V4? || a.bits < 0xFFFF_0000_0000 || 0x1_0000_0000_0000 <= a.bits ==> a.Unmap() == a
  {
    Pow32();
  }

  lemma Pow32()
    ensures Pow(2, 32) == 0x1_0000_0000
  {
    assert Pow(2, 8) == 256;
    PowSplit(2, 8, 8);
    PowSplit(2, 16, 16);
  }

  /** netip.Prefix: an address and how many of its leading bits count (section 3.1 of RFC 4632). */
  datatype Prefix = Prefix(addr: Addr, len: nat) {
    predicate Valid() {
      addr.Valid() && len <= addr.Width() && (addr.V6? ==> addr.zone == "")
    }

    /** The host bits cleared. */
    function Masked(): Prefix
      requires len <= addr.Width()
    {
      Prefix(Mask(addr, len), len)
    }
  }

  function ClearLow(v: nat, k: nat): nat { v / Pow(2, k) * Pow(2, k) }

  function Mask(a: Addr, len: nat): Addr
    requires len <= a.Width()
  {
    var b := ClearLow(a.bits, a.Width() - len);
    if a.V4? then V4(b) else V6(b, "")
  }

  // ----- what it means for a prefix to contain an address: bit by bit -----

  function Bit(v: nat, i: nat): nat { v / Pow(2, i) % 2 }

  ghost predicate AgreeFrom(v: nat, w: nat, lo: nat, width: nat) {
    forall i :: lo <= i < width ==> Bit(v, i) == Bit(w, i)
  }

  /** Same family, and the same leading len bits. */
  ghost predicate Contains(p: Prefix, a: Addr)
    requires p.len <= p.addr.Width()
  {
    && p.addr.V4? == a.V4?
    && AgreeFrom(p.addr.bits, a.bits, p.addr.Width() - p.len, p.addr.Width())
  }

  lemma Halve(v: nat, i: nat)
    ensures v / Pow(2, i) == 2 * (v / Pow(2, i + 1)) + Bit(v, i)
  {
    var q := Pow(2, i);
    assert Pow(2, i + 1) == 2 * q;
    DivDiv(v, q);
  }

  lemma DivDiv(v: nat, q: nat)
    requires q > 0
    ensures v / (2 * q) == v / q / 2
  {
    var a, r := v / q, v % q;
    var b, s := a / 2, a % 2;
    DivMod(v, q);
    DoubleSplit(q, a, b, s);
    DivUnique(v, 2 * q, b, (if s == 0 then 0 else q) + r);
  }

  lemma DivMod(v: nat, q: nat)
    requires q > 0
    ensures v == q * (v / q) + v % q && 0 <= v % q < q
  {
  }

  lemma DoubleSplit(q: nat, a: nat, b: nat, s: nat)
    requires a == 2 * b + s && s < 2
    ensures q * a == (2 * q) * b + if s == 0 then 0 else q
  {
    assert (2 * q) * b == q * b + q * b;
    assert q * a == q * b + q * b + q * s;
  }

  lemma DivUnique(v: nat, d: nat, b: nat, r: nat)
    requires d > 0 && v == d * b + r && r < d
    ensures v / d == b
  {
    var x := v / d;
    assert d * x <= v < d * x + d;
    if x < b {
      MulMonotone(d, x + 1, b);
    } else if x > b {
      MulMonotone(d, b + 1, x);
    }
  }

  /** The leading bits agree exactly when the numbers above them do. */
  lemma {:induction false} BitsAgree(v: nat, w: nat, lo: nat, width: nat)
    requires lo <= width && v < Pow(2, width) && w < Pow(2, width)
    ensures AgreeFrom(v, w, lo, width) <==> v / Pow(2, lo) == w / Pow(2, lo)
    decreases width - lo
  {
    hide AgreeFrom, Bit, Pow;
    if lo == width {
      NoBits(v, w, lo);
    } else {
      BitsAgree(v, w, lo + 1, width);
      Halve(v, lo);
      Halve(w, lo);
      BitBound(v, lo);
      BitBound(w, lo);
      AgreeStep(v, w, lo, width);
    }
  }

  lemma NoBits(v: nat, w: nat, width: nat)
    requires v < Pow(2, width) && w < Pow(2, width)
    ensures v / Pow(2, width) == 0 == w / Pow(2, width) && AgreeFrom(v, w, width, width)
  {
    DivUnique(v, Pow(2, width), 0, v);
    DivUnique(w, Pow(2, width), 0, w);
  }

  lemma AgreeStep(v: nat, w: nat, lo: nat, width: nat)
    requires lo < width
    ensures AgreeFrom(v, w, lo, width) <==> Bit(v, lo) == Bit(w, lo) && AgreeFrom(v, w, lo + 1, width)
  {
  }

  lemma BitBound(v: nat, i: nat)
    ensures 0 <= Bit(v, i) < 2
  {
  }

  lemma ClearLowSame(v: nat, w: nat, k: nat)
    ensures ClearLow(v, k) == ClearLow(w, k) <==> v / Pow(2, k) == w / Pow(2, k)
  {
  }

  /** Masking an address to a prefix's length gives the masked prefix exactly when the prefix
      contains the address. */
  lemma MaskFindsContaining(p: Prefix, a: Addr)
    requires p.Valid() && a.Valid() && p.addr.V4? == a.V4?
    ensures Prefix(Mask(a, p.len), p.len) == p.Masked() <==> Contains(p, a)
  {
    var k := p.addr.Width() - p.len;
    BitsAgree(p.addr.bits, a.bits, k, p.addr.Width());
    ClearLowSame(p.addr.bits, a.bits, k);
  }

  /** A prefix contains one block of consecutive addresses: as many as its free bits can count, starting
      where those bits are zero. */
  lemma ContainsBlock(p: Prefix, a: Addr)
    requires p.Valid() && a.Valid()
    ensures var size := Pow(2, p.addr.Width() - p.len);
            var first := p.addr.bits - p.addr.bits % size;
            Contains(p, a) <==> p.addr.V4? == a.V4? && first <= a.bits < first + size
  {
    if p.addr.V4? == a.V4? {
      var size := Pow(2, p.addr.Width() - p.len);
      BitsAgree(p.addr.bits, a.bits, p.addr.Width() - p.len, p.addr.Width());
      hide Contains, Pow;
      SameBlock(p.addr.bits, a.bits, size);
    } else {
      OtherFamily(p, a);
    }
  }

  lemma SameBlock(v: nat, w: nat, size: nat)
    requires size > 0
    ensures v / size == w / size <==> v - v % size <= w < v - v % size + size
  {
    DivMod(v, size);
    DivMod(w, size);
    var q := v / size;
    if q == w / size {
      assert size * q <= w < size * q + size;
    } else if v - v % size <= w < v - v % size + size {
      DivUnique(w, size, q, w - size * q);
    }
  }

  lemma OtherFamily(p: Prefix, a: Addr)
    requires p.len <= p.addr.Width() && p.addr.V4? != a.V4?
    ensures !Contains(p, a)
  {
  }

  // ----- blocklist text -----

  /** netip.ParseAddr and netip.ParsePrefix, kept abstract; None is the error. ParsePrefix
      refuses zones. */
  datatype Parsers = Parsers(addr: string -> Option<Addr>, prefix: string -> Option<Prefix>) {
    ghost predicate Sound() {
      && (forall s :: addr(s).Some? ==> addr(s).value.Valid())
      && (forall s :: prefix(s).Some? ==> prefix(s).value.Valid())
    }
  }

  datatype Entry = Single(addr: Addr) | Range(prefix: Prefix) {
    predicate Valid() { if Single? then addr.Valid() else prefix.Valid() }
  }

  const MAX_ENTRIES := 5_000_000

  predicate EndsEntry(c: char) { c == ' ' || c == '\t' || c == ';' || c == '#' }

  /** The text up to the first blank, semicolon or hash. */
  function Head(s: string): (t: string)
    ensures t <= s
  {
    if s == [] || EndsEntry(s[0]) then [] else [s[0]] + Head(s[1..])
  }

  /** The entry a line holds, if any. */
  function Classify(p: Parsers, raw: string): (e: Option<Entry>)
    ensures p.Sound() && e.Some? ==> e.value.Valid()
  {
    var line := Head(TrimSpace(raw));
    if line == "" then None
    else if '/' in line then
      match p.prefix(line)
      case Some(x) => Some(Range(x))
      case None => None
    else
      match p.addr(line)
      case Some(x) => Some(Single(x))
      case None => None
  }

  /** The entries read from the lines when n have been read before, up to the cap. */
  function Accepted(p: Parsers, lines: seq<string>, n: nat): seq<Entry> {
    if lines == [] || n >= MAX_ENTRIES then []
    else match Classify(p, lines[0])
    case None => Accepted(p, lines[1..], n)
    case Some(e) => [e] + Accepted(p, lines[1..], n + 1)
  }

  lemma AcceptedStep(p: Parsers, lines: seq<string>, i: nat, n: nat)
    requires i < |lines|
    ensures Accepted(p, lines[i..], n) ==
            if n >= MAX_ENTRIES then []
            else if Classify(p, lines[i]).None? then Accepted(p, lines[i + 1..], n)
            else [Classify(p, lines[i]).value] + Accepted(p, lines[i + 1..], n + 1)
  {
  }

  lemma AcceptedEnds(p: Parsers, lines: seq<string>)
    ensures forall n: nat :: Accepted(p, lines[|lines|..], n) == []
  {
  }

  /** Whether one entry blocks an address, on its own. */
  ghost predicate Blocks(e: Entry, a: Addr)
    requires e.Valid()
  {
    match e
    case Single(s) => s.Unmap() == a.Unmap()
    case Range(p) => Contains(p, a.Unmap().WithoutZone())
  }

  // ----- what the text of a line says -----

  /** A line with the white space around it taken off is an entry and then a remark: the entry holds no
      blank, tab, semicolon or hash, and the remark begins with one of them or is empty. */
  ghost predicate Says(line: string, entry: string, remark: string) {
    && TrimSpace(line) == entry + remark
    && (forall c :: c in entry ==> c != ' ' && c != '\t' && c != ';' && c != '#')
    && (remark == "" || remark[0] == ' ' || remark[0] == '\t' || remark[0] == ';' || remark[0] == '#')
  }

  lemma {:induction false} HeadOf(entry: string, remark: string)
    requires forall c :: c in entry ==> c != ' ' && c != '\t' && c != ';' && c != '#'
    requires remark == "" || remark[0] == ' ' || remark[0] == '\t' || remark[0] == ';' || remark[0] == '#'
    ensures Head(entry + remark) == entry
  {
    var s := entry + remark;
    if entry == "" {
      assert s == remark;
    } else {
      assert s[1..] == entry[1..] + remark && entry[0] in entry;
      assert forall c :: c in entry[1..] ==> c in entry;
      HeadOf(entry[1..], remark);
    }
  }

  lemma {:induction false} HeadSplits(s: string) returns (remark: string)
    ensures s == Head(s) + remark
    ensures forall c :: c in Head(s) ==> c != ' ' && c != '\t' && c != ';' && c != '#'
    ensures remark == "" || remark[0] == ' ' || remark[0] == '\t' || remark[0] == ';' || remark[0] == '#'
  {
    if s == [] || EndsEntry(s[0]) {
      remark := s;
    } else {
      remark := HeadSplits(s[1..]);
    }
  }

  /** A line yields what the address or prefix parser makes of its entry, and nothing if that is empty,
      as on a line that is blank or only a remark. */
  lemma LineYields(p: Parsers, line: string, entry: string, remark: string)
    requires Says(line, entry, remark)
    ensures Classify(p, line) ==
            if entry == "" then None
            else if '/' in entry then
              if p.prefix(entry).Some? then Some(Range(p.prefix(entry).value)) else None
            else if p.addr(entry).Some? then Some(Single(p.addr(entry).value)) else None
  {
    hide TrimSpace, Head;
    HeadOf(entry, remark);
  }

  /** In particular, an entry between blanks is read whatever remark a feed adds to it. */
  lemma AnnotatedLine(pre: string, entry: string, remark: string)
    requires forall c :: c in pre ==> c == ' ' || c == '\t'
    requires entry != "" && forall c :: c in entry ==> !IsSpace(c) && c != ';' && c != '#'
    requires remark == "" || remark[0] == ' ' || remark[0] == '\t' || remark[0] == ';' || remark[0] == '#'
    ensures exists shown :: Says(pre + entry + remark, entry, shown)
  {
    assert entry[0] in entry && entry[|entry| - 1] in entry;
    var post := RightEnd(remark);
    var shown := TrimRight(remark);
    assert remark == shown + post;
    assert shown != "" ==> shown[0] == remark[0];
    assert pre + entry + remark == pre + (entry + shown) + post;
    var t := entry + shown;
    assert t[0] == entry[0];
    assert shown != "" ==> t[|t| - 1] == shown[|shown| - 1];
    TrimSpaceIs(pre, t, post);
    assert Says(pre + entry + remark, entry, shown);
  }

  /** The line's entry names the address, or a network that contains it. */
  ghost predicate Names(p: Parsers, line: string, a: Addr)
    requires p.Sound()
  {
    exists entry, remark :: Says(line, entry, remark) && entry != "" &&
      if '/' in entry then p.prefix(entry).Some? && Contains(p.prefix(entry).value, a.Unmap().WithoutZone())
      else p.addr(entry).Some? && p.addr(entry).value.Unmap() == a.Unmap()
  }

  lemma NamesIsBlocks(p: Parsers, line: string, a: Addr)
    requires p.Sound()
    ensures Names(p, line, a) <==> Classify(p, line).Some? && Blocks(Classify(p, line).value, a)
  {
    hide Contains, TrimSpace, Addr.Unmap, Head, Classify;
    var remark := HeadSplits(TrimSpace(line));
    var entry := Head(TrimSpace(line));
    assert Says(line, entry, remark);
    forall e, r | Says(line, e, r) ensures e == entry && r == remark {
      HeadOf(e, r);
      assert TrimSpace(line)[|e|..] == r;
    }
    LineYields(p, line, entry, remark);
  }

  /** Some of the first k lines names the address. */
  ghost predicate Named(p: Parsers, lines: seq<string>, k: nat, a: Addr)
    requires p.Sound()
  {
    exists i :: 0 <= i < k && i < |lines| && Names(p, lines[i], a)
  }

  ghost predicate Blocked(entries: seq<Entry>, a: Addr) {
    exists i :: 0 <= i < |entries| && entries[i].Valid() && Blocks(entries[i], a)
  }

  /** The accepted entries block an address exactly when some line names it, of all lines or of those up
      to the one that fills the cap. */
  lemma {:induction false} EntriesAreNames(p: Parsers, lines: seq<string>, n: nat) returns (k: nat)
    requires p.Sound() && n <= 5_000_000
    ensures k <= |lines| && (k < |lines| ==> n + |Accepted(p, lines, n)| == 5_000_000)
    ensures forall a: Addr :: Blocked(Accepted(p, lines, n), a) <==> Named(p, lines, k, a)
  {
    hide Named, Blocked, Classify;
    if lines == [] || n == 5_000_000 {
      k := 0;
      NothingNamed(p, lines);
    } else {
      var rest := lines[1..];
      var e := Classify(p, lines[0]);
      var m := if e.None? then n else n + 1;
      k := EntriesAreNames(p, rest, m);
      var first, others := if e.None? then [] else [e.value], Accepted(p, rest, m);
      assert Accepted(p, lines, n) == first + others;
      ClassifyValid(p, lines[0]);
      forall a: Addr ensures Blocked(Accepted(p, lines, n), a) <==> Named(p, lines, k + 1, a) {
        NamesIsBlocks(p, lines[0], a);
        FirstOrRest(Accepted(p, lines, n), first, others, a);
        NamedFirstOrRest(p, lines, k, a);
      }
      k := k + 1;
    }
  }

  /** What stands for the first k lines: all of them, or those up to the one that fills the cap. */
  ghost predicate ReadsTo(p: Parsers, lines: seq<string>, k: nat, entries: seq<Entry>)
    requires p.Sound()
  {
    k <= |lines| && (k < |lines| ==> |entries| == 5_000_000) && forall a: Addr :: Blocked(entries, a) <==> Named(p, lines, k, a)
  }

  lemma NothingNamed(p: Parsers, lines: seq<string>)
    requires p.Sound()
    ensures forall a: Addr :: !Named(p, lines, 0, a) && !Blocked([], a)
  {
  }

  lemma ClassifyValid(p: Parsers, line: string)
    requires p.Sound()
    ensures Classify(p, line).Some? ==> Classify(p, line).value.Valid()
  {
  }

  lemma FirstOrRest(all: seq<Entry>, first: seq<Entry>, rest: seq<Entry>, a: Addr)
    requires all == first + rest && |first| <= 1
    ensures Blocked(all, a) <==> (first != [] && first[0].Valid() && Blocks(first[0], a)) || Blocked(rest, a)
  {
    hide Blocks;
    assert forall i :: 0 <= i < |first| ==> all[i] == first[i];
    forall i | 0 <= i < |rest| ensures all[|first| + i] == rest[i] {
    }
    assert forall i :: |first| <= i < |all| ==> all[i] == rest[i - |first|];
  }

  lemma NamedFirstOrRest(p: Parsers, lines: seq<string>, k: nat, a: Addr)
    requires p.Sound() && lines != []
    ensures Named(p, lines, k + 1, a) <==> Names(p, lines[0], a) || Named(p, lines[1..], k, a)
  {
    hide Names;
    assert forall i :: 0 <= i < |lines[1..]| ==> lines[1..][i] == lines[i + 1];
    assert forall i :: 1 <= i < |lines| ==> lines[i] == lines[1..][i - 1];
  }

  // ----- the index -----

  ghost predicate SinglesOf(ips: set<Addr>, entries: seq<Entry>) {
    forall a :: a in ips <==> exists i :: 0 <= i < |entries| && entries[i].Single? && entries[i].addr.Unmap() == a
  }

  ghost predicate RangesOf(prefixes: set<Prefix>, entries: seq<Entry>) {
    && (forall i :: 0 <= i < |entries| && entries[i].Range? ==>
          entries[i].prefix.Valid() && entries[i].prefix.Masked() in prefixes)
    && (forall p :: p in prefixes ==>
          exists i :: 0 <= i < |entries| && entries[i].Range? && entries[i].prefix.Valid() && entries[i].prefix.Masked() == p)
  }

  ghost predicate HasLength(prefixes: set<Prefix>, v4: bool, len: nat) {
    exists p :: p in prefixes && p.addr.V4? == v4 && p.len == len
  }

  ghost predicate LengthsOf(lens: seq<nat>, prefixes: set<Prefix>, v4: bool, width: nat) {
    && (forall i, j :: 0 <= i < j < |lens| ==> lens[i] < lens[j])
    && (forall i :: 0 <= i < |lens| ==> lens[i] <= width)
    && (forall len :: 0 <= len <= width ==> (len in lens <==> HasLength(prefixes, v4, len)))
  }

  /** The addresses the single lines name, IPv4-mapped ones as IPv4. */
  ghost function NamedAddrs(entries: seq<Entry>): set<Addr> {
    set i | 0 <= i < |entries| && entries[i].Single? :: entries[i].addr.Unmap()
  }

  /** The networks the prefix lines name, host bits cleared. */
  ghost function NamedNets(entries: seq<Entry>): set<Prefix> {
    set i | 0 <= i < |entries| && entries[i].Range? && entries[i].prefix.Valid() :: entries[i].prefix.Masked()
  }

  lemma NamesAreIndexed(ips: set<Addr>, prefixes: set<Prefix>, entries: seq<Entry>)
    requires SinglesOf(ips, entries) && RangesOf(prefixes, entries)
    ensures ips == NamedAddrs(entries) && prefixes == NamedNets(entries)
  {
    hide ClearLow, Pow, Addr.Unmap;
  }

  class ThreatList {
    const name: string
    var ips: set<Addr>
    var prefixes: set<Prefix>
    var prefixLens4: seq<nat>
    var prefixLens6: seq<nat>
    /** The accepted entries, in file order. */
    ghost var entries: seq<Entry>

    constructor (name: string)
      ensures this.name == name
      ensures ips == {} && prefixes == {} && prefixLens4 == [] && prefixLens6 == [] && entries == []
    {
      this.name := name;
      ips, prefixes, prefixLens4, prefixLens6, entries := {}, {}, [], [], [];
    }

    ghost predicate Valid()
      reads this
    {
      && (forall i :: 0 <= i < |entries| ==> entries[i].Valid())
      && SinglesOf(ips, entries)
      && RangesOf(prefixes, entries)
      && LengthsOf(prefixLens4, prefixes, true, 32)
      && LengthsOf(prefixLens6, prefixes, false, 128)
    }

    /** Some accepted entry blocks a. */
    ghost predicate Lists(a: Addr)
      requires Valid()
      reads this
    {
      Blocked(entries, a)
    }

    /** How many different addresses and different networks the accepted lines name. */
    method Count() returns (n: nat)
      requires Valid()
      ensures n == |NamedAddrs(entries)| + |NamedNets(entries)|
    {
      NamesAreIndexed(ips, prefixes, entries);
      n := |ips| + |prefixes|;
    }

    /** Lookup of a text that parses to query. */
    method Lookup(query: Option<Addr>) returns (r: string)
      requires Valid() && (query.Some? ==> query.value.Valid())
      ensures r == if query.Some? && Lists(query.value) then name else ""
    {
      hide ClearLow, Contains, Addr.Unmap, SinglesOf, RangesOf, Pow;
      if |ips| == 0 && |prefixes| == 0 {
        if query.Some? {
          EmptyListsNothing(query.value);
        }
        return "";
      }
      if query.None? {
        return "";
      }
      var addr := query.value.Unmap();
      UnmapValid(query.value);
      if addr in ips {
        assert Blocks(entries[SingleWitness(addr)], query.value);
        return name;
      }
      var lens := if addr.V4? then prefixLens4 else prefixLens6;
      var i := 0;
      while i < |lens|
        invariant 0 <= i <= |lens|
        invariant forall j :: 0 <= j < i ==> Prefix(Mask(addr, lens[j]), lens[j]) !in prefixes
      {
        var p := Prefix(Mask(addr, lens[i]), lens[i]);
        if p in prefixes {
          ghost var k := RangeWitness(p);
          MaskFindsContaining(entries[k].prefix, addr.WithoutZone());
          assert Blocks(entries[k], query.value);
          return name;
        }
        i := i + 1;
      }
      NoHit(query.value, lens);
      return "";
    }

    ghost function SingleWitness(a: Addr): (i: nat)
      requires Valid() && a in ips
      reads this
      ensures i < |entries| && entries[i].Single? && entries[i].addr.Unmap() == a
    {
      var i :| 0 <= i < |entries| && entries[i].Single? && entries[i].addr.Unmap() == a;
      i
    }

    ghost function RangeWitness(p: Prefix): (i: nat)
      requires Valid() && p in prefixes
      reads this
      ensures i < |entries| && entries[i].Range? && entries[i].prefix.Valid() && entries[i].prefix.Masked() == p
    {
      var i :| 0 <= i < |entries| && entries[i].Range? && entries[i].prefix.Valid() && entries[i].prefix.Masked() == p;
      i
    }

    lemma EmptyListsNothing(a: Addr)
      requires Valid() && ips == {} && prefixes == {}
      ensures !Lists(a)
    {
      if entries != [] {
        EntryIndexed(0);
      }
    }

    lemma EntryIndexed(i: nat)
      requires Valid() && i < |entries|
      ensures entries[i].Single? ==> entries[i].addr.Unmap() in ips
      ensures entries[i].Range? ==> entries[i].prefix.Masked() in prefixes
    {
    }

    lemma NoHit(a: Addr, lens: seq<nat>)
      requires Valid() && a.Valid() && a.Unmap() !in ips
      requires lens == if a.Unmap().V4? then prefixLens4 else prefixLens6
      requires forall j :: 0 <= j < |lens| ==> Prefix(Mask(a.Unmap(), lens[j]), lens[j]) !in prefixes
      ensures !Lists(a)
    {
      hide Blocks;
      forall i | 0 <= i < |entries| ensures !Blocks(entries[i], a) {
        EntryMisses(a, lens, i);
      }
    }

    lemma EntryMisses(a: Addr, lens: seq<nat>, i: nat)
      requires Valid() && a.Valid() && a.Unmap() !in ips && i < |entries|
      requires lens == if a.Unmap().V4? then prefixLens4 else prefixLens6
      requires forall j :: 0 <= j < |lens| ==> Prefix(Mask(a.Unmap(), lens[j]), lens[j]) !in prefixes
      ensures !Blocks(entries[i], a)
    {
      hide Contains, RangesOf, SinglesOf, Pow, ClearLow, Addr.Unmap;
      var addr := a.Unmap();
      UnmapValid(a);
      EntryIndexed(i);
      if entries[i].Range? && entries[i].prefix.addr.V4? == addr.V4? {
        var p := entries[i].prefix;
        MaskFindsContaining(p, addr.WithoutZone());
        assert HasLength(prefixes, addr.V4?, p.len);
        assert p.len in lens;
      } else if entries[i].Range? {
        OtherFamily(entries[i].prefix, addr.WithoutZone());
      }
    }
  }

  /** A nil list blocks nothing. */
  method LookupIn(l: ThreatList?, query: Option<Addr>) returns (r: string)
    requires l != null ==> l.Valid()
    requires query.Some? ==> query.value.Valid()
    ensures r == if l != null && query.Some? && l.Lists(query.value) then l.name else ""
  {
    if l == null {
      return "";
    }
    r := l.Lookup(query);
  }

  lemma AddSingle(ips: set<Addr>, prefixes: set<Prefix>, entries: seq<Entry>, a: Addr)
    requires SinglesOf(ips, entries) && RangesOf(prefixes, entries)
    ensures SinglesOf(ips + {a.Unmap()}, entries + [Single(a)]) && RangesOf(prefixes, entries + [Single(a)])
  {
    var es := entries + [Single(a)];
    assert es[|entries|] == Single(a);
    assert forall i :: 0 <= i < |entries| ==> es[i] == entries[i];
  }

  lemma AddRange(ips: set<Addr>, prefixes: set<Prefix>, entries: seq<Entry>, p: Prefix)
    requires SinglesOf(ips, entries) && RangesOf(prefixes, entries) && p.Valid()
    ensures SinglesOf(ips, entries + [Range(p)]) && RangesOf(prefixes + {p.Masked()}, entries + [Range(p)])
  {
    var es := entries + [Range(p)];
    assert es[|entries|] == Range(p);
    assert forall i :: 0 <= i < |entries| ==> es[i] == entries[i];
  }

  /** What holds while the index is being built: have4 and have6 mark the lengths seen. */
  ghost predicate Building(l: ThreatList, have4: array<bool>, have6: array<bool>)
    reads l, have4, have6
  {
    && have4.Length == 33 && have6.Length == 129 && have4 != have6
    && l.prefixLens4 == [] && l.prefixLens6 == []
    && (forall j :: 0 <= j < |l.entries| ==> l.entries[j].Valid())
    && SinglesOf(l.ips, l.entries) && RangesOf(l.prefixes, l.entries)
    && (forall b :: 0 <= b < 33 ==> (have4[b] <==> HasLength(l.prefixes, true, b)))
    && (forall b :: 0 <= b < 129 ==> (have6[b] <==> HasLength(l.prefixes, false, b)))
  }

  method InsertPrefix(l: ThreatList, have4: array<bool>, have6: array<bool>, x: Prefix)
    requires Building(l, have4, have6) && x.Valid()
    modifies l, have4, have6
    ensures Building(l, have4, have6) && l.entries == old(l.entries) + [Range(x)]
  {
    var q := x.Masked();
    assert q.len <= q.addr.Width();
    AddRange(l.ips, l.prefixes, l.entries, x);
    LengthAdded(l.prefixes, q);
    hide Mask, SinglesOf, RangesOf, HasLength;
    if q !in l.prefixes {
      l.prefixes := l.prefixes + {q};
      if q.addr.V4? {
        have4[q.len] := true;
      } else {
        have6[q.len] := true;
      }
    } else {
      assert l.prefixes + {q} == l.prefixes;
    }
    l.entries := l.entries + [Range(x)];
  }

  method InsertAddr(l: ThreatList, ghost have4: array<bool>, ghost have6: array<bool>, a: Addr)
    requires Building(l, have4, have6) && a.Valid()
    modifies l
    ensures Building(l, have4, have6) && l.entries == old(l.entries) + [Single(a)]
  {
    AddSingle(l.ips, l.prefixes, l.entries, a);
    hide SinglesOf, RangesOf, HasLength;
    l.ips := l.ips + {a.Unmap()};
    l.entries := l.entries + [Single(a)];
  }

  /** One line of the file. */
  method ReadEntry(l: ThreatList, have4: array<bool>, have6: array<bool>, raw: string, p: Parsers) returns (accepted: bool)
    requires Building(l, have4, have6) && p.Sound()
    modifies l, have4, have6
    ensures Building(l, have4, have6)
    ensures accepted <==> Classify(p, raw).Some?
    ensures l.entries == old(l.entries) + if accepted then [Classify(p, raw).value] else []
  {
    hide Building;
    var line := TrimSpace(raw);
    if line == "" || line[0] == '#' {
      return false;
    }
    line := Head(line);
    if line == "" {
      return false;
    }
    if '/' in line {
      var x := p.prefix(line);
      if x.Some? {
        InsertPrefix(l, have4, have6, x.value);
        return true;
      }
      return false;
    }
    var a := p.addr(line);
    if a.Some? {
      InsertAddr(l, have4, have6, a.value);
      return true;
    }
    return false;
  }

  lemma MovesOver(before: seq<Entry>, e: Entry, rest: seq<Entry>)
    ensures before + ([e] + rest) == before + [e] + rest
  {
  }

  /** The scan loop. ended: the lines ran out before the cap stopped it. */
  method ReadEntries(l: ThreatList, have4: array<bool>, have6: array<bool>, lines: seq<string>, p: Parsers)
      returns (ended: bool)
    requires Building(l, have4, have6) && l.entries == [] && p.Sound()
    modifies l, have4, have6
    ensures Building(l, have4, have6) && l.entries == Accepted(p, lines, 0)
    ensures |l.entries| < MAX_ENTRIES ==> ended
  {
    hide Building, Classify, Accepted, Parsers.Sound, Entry.Valid;
    AcceptedEnds(p, lines);
    assert lines[0..] == lines;
    var n := 0;
    var i := 0;
    while i < |lines|
      invariant 0 <= i <= |lines|
      invariant n == |l.entries| <= MAX_ENTRIES
      invariant Accepted(p, lines, 0) == l.entries + Accepted(p, lines[i..], n)
      invariant Building(l, have4, have6)
    {
      AcceptedStep(p, lines, i, n);
      if n >= MAX_ENTRIES {
        return false;
      }
      ghost var before := l.entries;
      var accepted := ReadEntry(l, have4, have6, lines[i], p);
      if accepted {
        n := n + 1;
        MovesOver(before, Classify(p, lines[i]).value, Accepted(p, lines[i + 1..], n));
      }
      i := i + 1;
    }
    return true;
  }

  /** parse: reads the lines into an index. readError says the scanner failed after the last
      line; null is the error it then returns. */
  method Parse(name: string, lines: seq<string>, readError: bool, p: Parsers) returns (r: ThreatList?)
    requires p.Sound()
    ensures r != null ==> fresh(r) && r.Valid() && r.name == name && r.entries == Accepted(p, lines, 0)
    ensures r != null ==>
              exists k :: ReadsTo(p, lines, k, r.entries)
    ensures r == null ==> readError
    ensures readError && |Accepted(p, lines, 0)| < MAX_ENTRIES ==> r == null
  {
    hide Classify, Accepted, Named, Blocked;
    var l := new ThreatList(name);
    var have4 := new bool[33](_ => false);
    var have6 := new bool[129](_ => false);
    var ended := ReadEntries(l, have4, have6, lines, p);
    if ended && readError {
      return null;
    }
    Finish(l, have4, have6);
    ghost var k := EntriesAreNames(p, lines, 0);
    assert ReadsTo(p, lines, k, l.entries);
    return l;
  }

  /** Turns the marked lengths into the two length lists. */
  method Finish(l: ThreatList, have4: array<bool>, have6: array<bool>)
    requires Building(l, have4, have6)
    modifies l
    ensures l.Valid() && l.entries == old(l.entries)
  {
    hide SinglesOf, RangesOf, HasLength, Entry.Valid;
    l.prefixLens4 := Lengths(have4);
    l.prefixLens6 := Lengths(have6);
  }

  lemma LengthAdded(prefixes: set<Prefix>, q: Prefix)
    ensures forall v4, len :: HasLength(prefixes + {q}, v4, len) <==>
                              HasLength(prefixes, v4, len) || (q.addr.V4? == v4 && q.len == len)
  {
  }

  /** The lengths seen, ascending. */
  method Lengths(have: array<bool>) returns (lens: seq<nat>)
    ensures forall i, j :: 0 <= i < j < |lens| ==> lens[i] < lens[j]
    ensures forall b :: b in lens <==> 0 <= b < have.Length && have[b]
    ensures forall i :: 0 <= i < |lens| ==> lens[i] < have.Length
  {
    lens := [];
    for b := 0 to have.Length
      invariant forall i, j :: 0 <= i < j < |lens| ==> lens[i] < lens[j]
      invariant forall i :: 0 <= i < |lens| ==> lens[i] < b
      invariant forall c :: c in lens <==> 0 <= c < b && have[c]
    {
      if have[b] {
        lens := lens + [b];
      }
    }
  }
}
