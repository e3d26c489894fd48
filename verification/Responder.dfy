/** The addresses that must never be banned (internal/responder/responder.go): a base list fixed
    at start and an extra list the settings page may replace. */
module Responder {
  import opened Numbers
  import opened Threat

  /** The longest temporary ban: 365 days. */
  const MAX_BAN_SECS := 365 * 24 * 3600

  /** net.ParseCIDR and net.ParseIP. Both sides of a comparison are taken with IPv4-mapped
      addresses already turned into IPv4, as IPNet.Contains and IP.Equal do. */
  datatype NetParsers = NetParsers(cidr: string -> Option<Prefix>, ip: string -> Option<Addr>) {
    ghost predicate Sound() {
      && (forall s :: cidr(s).Some? ==> cidr(s).value.Valid())
      && (forall s :: ip(s).Some? ==> ip(s).value.Valid())
    }
  }

  predicate Readable(p: NetParsers, entry: string) { p.cidr(entry).Some? || p.ip(entry).Some? }

  predicate AllReadable(p: NetParsers, entries: seq<string>) {
    forall i :: 0 <= i < |entries| ==> Readable(p, entries[i])
  }

  /** What one entry of the list stands for. */
  ghost predicate Covers(p: NetParsers, entry: string, a: Addr)
    requires p.Sound()
  {
    match p.cidr(entry)
    case Some(n) => Contains(n, a)
    case None => p.ip(entry) == Some(a)
  }

  ghost predicate AnyCovers(p: NetParsers, entries: seq<string>, a: Addr)
    requires p.Sound()
  {
    exists i :: 0 <= i < |entries| && Covers(p, entries[i], a)
  }

  datatype Parsed = Parsed(nets: seq<Prefix>, ips: seq<Addr>) {
    ghost predicate Valid() {
      && (forall i :: 0 <= i < |nets| ==> nets[i].Valid())
      && (forall i :: 0 <= i < |ips| ==> ips[i].Valid())
    }

    /** The parsed lists hold an address. */
    ghost predicate Holds(a: Addr)
      requires Valid()
    {
      (exists i :: 0 <= i < |nets| && Contains(nets[i], a)) || a in ips
    }
  }

  /** The parsed lists stand for the entries. */
  ghost predicate StandsFor(p: NetParsers, l: Parsed, entries: seq<string>)
    requires p.Sound()
  {
    l.Valid() && forall a: Addr :: l.Holds(a) <==> AnyCovers(p, entries, a)
  }

  lemma EntryAdded(p: NetParsers, l: Parsed, entries: seq<string>, e: string, after: Parsed)
    requires p.Sound() && StandsFor(p, l, entries) && Readable(p, e)
    requires after == if p.cidr(e).Some? then l.(nets := l.nets + [p.cidr(e).value]) else l.(ips := l.ips + [p.ip(e).value])
    ensures StandsFor(p, after, entries + [e])
  {
    hide Contains;
    assert after.Valid();
    forall a: Addr ensures after.Holds(a) <==> AnyCovers(p, entries + [e], a) {
      assert l.Holds(a) <==> AnyCovers(p, entries, a);
      CoversMore(p, entries, e, a);
      if p.cidr(e).Some? {
        NetsMore(l, p.cidr(e).value, a);
      }
    }
  }

  lemma CoversMore(p: NetParsers, entries: seq<string>, e: string, a: Addr)
    requires p.Sound()
    ensures AnyCovers(p, entries + [e], a) <==> AnyCovers(p, entries, a) || Covers(p, e, a)
  {
    hide Covers;
    var all := entries + [e];
    assert all[|entries|] == e;
    if AnyCovers(p, entries, a) {
      var i :| 0 <= i < |entries| && Covers(p, entries[i], a);
      assert all[i] == entries[i];
    }
  }

  lemma NetsMore(l: Parsed, n: Prefix, a: Addr)
    requires l.Valid() && n.Valid()
    ensures l.(nets := l.nets + [n]).Holds(a) <==> l.Holds(a) || Contains(n, a)
  {
    hide Contains;
    var all := l.nets + [n];
    assert all[|l.nets|] == n;
    if i :| 0 <= i < |l.nets| && Contains(l.nets[i], a) {
      assert all[i] == l.nets[i];
    }
  }

  /** One unreadable entry and there is no list. */
  method ParseAllowlist(p: NetParsers, entries: seq<string>) returns (r: Option<Parsed>)
    requires p.Sound()
    ensures r.Some? <==> AllReadable(p, entries)
    ensures r.Some? ==> StandsFor(p, r.value, entries)
  {
    hide StandsFor;
    var l := Parsed([], []);
    assert StandsFor(p, l, entries[..0]) by {
      NothingListed(p, entries[..0]);
    }
    for i := 0 to |entries|
      invariant StandsFor(p, l, entries[..i])
      invariant forall j :: 0 <= j < i ==> Readable(p, entries[j])
    {
      var before := l;
      match p.cidr(entries[i]) {
        case Some(n) => l := l.(nets := l.nets + [n]);
        case None =>
          match p.ip(entries[i]) {
            case Some(a) => l := l.(ips := l.ips + [a]);
            case None =>
              assert !Readable(p, entries[i]);
              return None;
          }
      }
      EntryAdded(p, before, entries[..i], entries[i], l);
      assert entries[..i + 1] == entries[..i] + [entries[i]];
    }
    assert entries[..|entries|] == entries;
    return Some(l);
  }

  lemma NothingListed(p: NetParsers, entries: seq<string>)
    requires p.Sound() && entries == []
    ensures StandsFor(p, Parsed([], []), entries)
  {
  }

  /** The test IPNet.Contains makes: the same family, and the masked address is the network. */
  predicate SameNet(n: Prefix, a: Addr)
    requires n.len <= n.addr.Width()
  {
    n.addr.V4? == a.V4? && Prefix(Mask(a, n.len), n.len) == n.Masked()
  }

  class Allowlist {
    const parsers: NetParsers
    var lists: Parsed
    var extra: Parsed
    ghost var entries: seq<string>
    ghost var extraEntries: seq<string>

    ghost predicate Valid()
      reads this
    {
      parsers.Sound() && StandsFor(parsers, lists, entries) && StandsFor(parsers, extra, extraEntries)
    }

    /** base: the parsed base entries. */
    constructor (parsers: NetParsers, base: Parsed, ghost entries: seq<string>)
      requires parsers.Sound() && StandsFor(parsers, base, entries)
      ensures Valid() && this.parsers == parsers && this.entries == entries && extraEntries == []
    {
      this.parsers, this.lists, this.extra, this.entries := parsers, base, Parsed([], []), entries;
      this.extraEntries := [];
      NothingListed(parsers, []);
    }

    /** All or nothing: an unreadable entry leaves the extra list as it was. */
    method SetExtra(es: seq<string>) returns (ok: bool)
      requires Valid()
      modifies this
      ensures Valid() && entries == old(entries) && lists == old(lists)
      ensures ok <==> AllReadable(parsers, es)
      ensures extraEntries == if ok then es else old(extraEntries)
      ensures !ok ==> extra == old(extra)
    {
      hide StandsFor, AllReadable;
      var parsed := ParseAllowlist(parsers, es);
      if parsed.None? {
        return false;
      }
      extra, extraEntries := parsed.value, es;
      return true;
    }

    /** Whether some entry of either list, as written, covers the address. */
    method Contains(text: string) returns (r: bool)
      requires Valid()
      ensures r <==> parsers.ip(text).Some? &&
                     (AnyCovers(parsers, entries, parsers.ip(text).value) ||
                      AnyCovers(parsers, extraEntries, parsers.ip(text).value))
    {
      hide AnyCovers, NetParsers.Sound;
      match parsers.ip(text) {
        case None => return false;
        case Some(a) =>
          assert a.Valid() by {
            ParsedIsValid(parsers, text);
          }
          var base := Search(lists, a);
          if base {
            return true;
          }
          r := Search(extra, a);
      }
    }
  }

  lemma ParsedIsValid(p: NetParsers, text: string)
    requires p.Sound() && p.ip(text).Some?
    ensures p.ip(text).value.Valid()
  {
  }

  /** The scan of one pair of lists. */
  method Search(l: Parsed, a: Addr) returns (r: bool)
    requires l.Valid() && a.Valid()
    ensures r <==> l.Holds(a)
  {
    hide SameNet, Contains;
    for i := 0 to |l.nets|
      invariant forall j :: 0 <= j < i ==> !Contains(l.nets[j], a)
    {
      SameNetIsContains(l.nets[i], a);
      if SameNet(l.nets[i], a) {
        return true;
      }
    }
    for i := 0 to |l.ips|
      invariant a !in l.ips[..i]
    {
      if l.ips[i] == a {
        return true;
      }
    }
    return false;
  }

  lemma SameNetIsContains(n: Prefix, a: Addr)
    requires n.Valid() && a.Valid()
    ensures SameNet(n, a) <==> Contains(n, a)
  {
    hide Contains;
    if n.addr.V4? == a.V4? {
      MaskFindsContaining(n, a);
    } else {
      OtherFamily(n, a);
    }
  }
}
