/** The parts of Go's strings package that the configuration and blocklist readers use. */
module Text {

  /** unicode.IsSpace. */
  predicate IsSpace(c: char) {
    var n := c as int;
    || 0x09 <= n <= 0x0D || n == 0x20 || n == 0x85 || n == 0xA0 || n == 0x1680
    || 0x2000 <= n <= 0x200A || n == 0x2028 || n == 0x2029 || n == 0x202F || n == 0x205F || n == 0x3000
  }

  function TrimLeft(s: string): (t: string)
    ensures t != [] ==> !IsSpace(t[0])
    ensures forall c :: c in t ==> c in s
  {
    if s == [] then []
    else if IsSpace(s[0]) then TrimLeft(s[1..])
    else s
  }

  function TrimRight(s: string): (t: string)
    ensures t != [] ==> !IsSpace(t[|t| - 1])
    ensures t <= s
  {
    if s == [] then []
    else if IsSpace(s[|s| - 1]) then TrimRight(s[..|s| - 1])
    else s
  }

  /** Text with no white space at either end. */
  predicate IsTrimmed(s: string) {
    s != [] ==> !IsSpace(s[0]) && !IsSpace(s[|s| - 1])
  }

  /** strings.TrimSpace. */
  function TrimSpace(s: string): (t: string)
    ensures IsTrimmed(t)
    ensures IsTrimmed(s) ==> t == s
    ensures forall c :: c in t ==> c in s
  {
    TrimRight(TrimLeft(s))
  }

  predicate IsWhite(s: string) { forall c :: c in s ==> IsSpace(c) }

  /** Trimming takes the white space off both ends and nothing else: the middle is unique. */
  lemma TrimSpaceIs(pre: string, t: string, post: string)
    requires IsWhite(pre) && IsWhite(post) && IsTrimmed(t)
    ensures TrimSpace(pre + t + post) == t
  {
    LeftTrimmed(pre, t + post);
    assert pre + t + post == pre + (t + post);
    if t == [] {
      LeftTrimmed(post, []);
      assert [] + post == post + [] == post;
    } else {
      assert (t + post)[0] == t[0];
      RightTrimmed(t, post);
    }
  }

  lemma {:induction false} LeftTrimmed(pre: string, s: string)
    requires IsWhite(pre)
    ensures TrimLeft(pre + s) == TrimLeft(s)
    ensures s != [] && !IsSpace(s[0]) ==> TrimLeft(pre + s) == s
  {
    hide IsSpace;
    if pre == [] {
      assert pre + s == s;
    } else {
      assert pre[0] in pre;
      assert (pre + s)[1..] == pre[1..] + s;
      LeftTrimmed(pre[1..], s);
    }
  }

  lemma {:induction false} RightTrimmed(t: string, post: string)
    requires IsWhite(post) && t != [] && !IsSpace(t[|t| - 1])
    ensures TrimRight(t + post) == t
  {
    hide IsSpace;
    if post == [] {
      assert t + post == t;
    } else {
      var init := post[..|post| - 1];
      assert (t + post)[..|t + post| - 1] == t + init;
      assert post[|post| - 1] in post;
      RightTrimmed(t, init);
    }
  }

  /** Every text has such a middle. */
  lemma TrimSpaceSplits(s: string) returns (pre: string, post: string)
    ensures IsWhite(pre) && IsWhite(post) && s == pre + TrimSpace(s) + post
  {
    pre := LeftEnd(s);
    post := RightEnd(TrimLeft(s));
    assert pre + (TrimSpace(s) + post) == pre + TrimSpace(s) + post;
  }

  lemma {:induction false} LeftEnd(s: string) returns (pre: string)
    ensures IsWhite(pre) && s == pre + TrimLeft(s)
  {
    hide IsSpace;
    if s != [] && IsSpace(s[0]) {
      var rest := LeftEnd(s[1..]);
      pre := [s[0]] + rest;
    } else {
      pre := [];
    }
  }

  lemma {:induction false} RightEnd(s: string) returns (post: string)
    ensures IsWhite(post) && s == TrimRight(s) + post
  {
    hide IsSpace;
    if s != [] && IsSpace(s[|s| - 1]) {
      var rest := RightEnd(s[..|s| - 1]);
      post := rest + [s[|s| - 1]];
    } else {
      post := [];
    }
  }

  /** strings.Split on one character: the pieces between its occurrences. */
  function Split(s: string, sep: char): (parts: seq<string>)
    ensures |parts| > 0
    ensures forall i :: 0 <= i < |parts| ==> sep !in parts[i]
  {
    if s == [] then [""]
    else
      var rest := Split(s[1..], sep);
      if s[0] == sep then [""] + rest
      else [[s[0]] + rest[0]] + rest[1..]
  }

  /** strings.Join with one separator character. */
  function Join(parts: seq<string>, sep: char): string {
    if parts == [] then ""
    else if |parts| == 1 then parts[0]
    else parts[0] + [sep] + Join(parts[1..], sep)
  }

  lemma {:induction false} SplitPiece(p: string, sep: char)
    requires sep !in p
    ensures Split(p, sep) == [p]
  {
    if p != [] {
      SplitPiece(p[1..], sep);
      assert p[0] in p && [p[0]] + p[1..] == p;
    }
  }

  lemma {:induction false} SplitFirst(p: string, rest: string, sep: char)
    requires sep !in p
    ensures Split(p + [sep] + rest, sep) == [p] + Split(rest, sep)
  {
    var s := p + [sep] + rest;
    if p == [] {
      assert s[1..] == rest;
    } else {
      assert s[0] == p[0] && s[1..] == p[1..] + [sep] + rest;
      SplitFirst(p[1..], rest, sep);
      assert p[0] in p && [p[0]] + p[1..] == p;
      assert ([p[1..]] + Split(rest, sep))[1..] == Split(rest, sep);
    }
  }

  /** Splitting undoes joining, for pieces without the separator. */
  lemma {:induction false} SplitJoin(parts: seq<string>, sep: char)
    requires parts != [] && forall i :: 0 <= i < |parts| ==> sep !in parts[i]
    ensures Split(Join(parts, sep), sep) == parts
  {
    if |parts| == 1 {
      SplitPiece(parts[0], sep);
    } else {
      SplitFirst(parts[0], Join(parts[1..], sep), sep);
      SplitJoin(parts[1..], sep);
      assert [parts[0]] + parts[1..] == parts;
    }
  }

  /** Entries that survive trimming: the meaning of config.SplitList. */
  function Entries(parts: seq<string>): (out: seq<string>)
    ensures forall i :: 0 <= i < |out| ==> out[i] != "" && IsTrimmed(out[i])
    ensures forall i, c :: 0 <= i < |out| && c in out[i] ==> exists j :: 0 <= j < |parts| && c in parts[j]
  {
    if parts == [] then []
    else
      var init, last := Entries(parts[..|parts| - 1]), TrimSpace(parts[|parts| - 1]);
      if last != "" then init + [last] else init
  }

  function ListOf(raw: string): (out: seq<string>)
    ensures forall i :: 0 <= i < |out| ==> out[i] != "" && IsTrimmed(out[i]) && ',' !in out[i]
  {
    Entries(Split(raw, ','))
  }

  lemma {:induction false} EntriesAppend(p: string, parts: seq<string>)
    ensures Entries([p] + parts) == (if TrimSpace(p) == "" then [] else [TrimSpace(p)]) + Entries(parts)
  {
    hide TrimSpace;
    var all := [p] + parts;
    if parts == [] {
      assert all[..0] == [];
      assert Entries([]) == [];
      assert all == [p];
    } else {
      assert all[..|all| - 1] == [p] + parts[..|parts| - 1];
      EntriesAppend(p, parts[..|parts| - 1]);
    }
  }

  /** A list is read piece by piece: each is trimmed, and an empty one is dropped. */
  lemma ListOfCons(p: string, rest: string)
    requires ',' !in p
    ensures var head := if TrimSpace(p) == "" then [] else [TrimSpace(p)];
            ListOf(p + "," + rest) == head + ListOf(rest) && ListOf(p) == head
  {
    hide TrimSpace, Entries, Split;
    SplitFirst(p, rest, ',');
    EntriesAppend(p, Split(rest, ','));
    SplitPiece(p, ',');
    EntriesAppend(p, []);
    EntriesNone();
    assert [p] + [] == [p];
  }

  lemma EntriesNone()
    ensures Entries([]) == []
  {
  }

  method SplitList(raw: string) returns (out: seq<string>)
    ensures out == ListOf(raw)
  {
    out := [];
    var parts := Split(raw, ',');
    for i := 0 to |parts|
      invariant out == Entries(parts[..i])
    {
      assert parts[..i + 1][..i] == parts[..i];
      var e := TrimSpace(parts[i]);
      if e != "" {
        out := out + [e];
      }
    }
    assert parts[..|parts|] == parts;
  }

  lemma {:induction false} EntriesOfClean(parts: seq<string>)
    requires forall i :: 0 <= i < |parts| ==> parts[i] != "" && IsTrimmed(parts[i])
    ensures Entries(parts) == parts
  {
    if parts != [] {
      EntriesOfClean(parts[..|parts| - 1]);
      assert parts[..|parts| - 1] + [parts[|parts| - 1]] == parts;
    }
  }

  /** Writing a parsed list back with commas and parsing it again gives the same list. */
  lemma SplitListRoundTrip(raw: string)
    ensures ListOf(Join(ListOf(raw), ',')) == ListOf(raw)
  {
    var l := ListOf(raw);
    if l == [] {
      assert Split("", ',') == [""];
      assert Entries([""]) == [] by {
        assert [""][..0] == [];
      }
    } else {
      SplitJoin(l, ',');
      EntriesOfClean(l);
    }
  }
}
