/** The event and ban tables (internal/store/sqlite.go) and the migrations that give events
    their dedup key. One SQL statement is one update of a table. */
module Store {
  import opened Numbers

  // ----- rows -----

  /** A parsed event (internal/parse/event.go), without the columns nothing here depends on. */
  datatype Event = Event(ts: int, ip: string, kind: string, username: string, port: int,
                         source: string, detail: string, threat: string)

  datatype EventRow = EventRow(id: nat, ts: int, ip: string, kind: string, username: Option<string>,
                               port: Option<int>, source: string, detail: Option<string>, threat: Option<string>)

  datatype BanRow = BanRow(id: nat, ip: string, jail: Option<string>, bannedAt: int, unbannedAt: Option<int>,
                           expiresAt: Option<int>, active: bool, source: string, reason: Option<string>)

  function NullStr(s: string): Option<string> { if s == "" then None else Some(s) }

  function NullInt(n: int): Option<int> { if n == 0 then None else Some(n) }

  function Coalesce<T>(o: Option<T>, d: T): T { if o.Some? then o.value else d }

  /** The key of the unique index that migration 008 leaves. */
  datatype DedupKey = DedupKey(ts: int, ip: string, port: int, kind: string, username: string, detail: string)

  function KeyOfRow(r: EventRow): DedupKey {
    DedupKey(r.ts, r.ip, Coalesce(r.port, -1), r.kind, Coalesce(r.username, ""), Coalesce(r.detail, ""))
  }

  function KeyOf(e: Event): DedupKey {
    DedupKey(e.ts, e.ip, if e.port == 0 then -1 else e.port, e.kind, e.username, e.detail)
  }

  /** Two events are the same to the store when all of these agree; no port and port -1 are one. */
  lemma SameKey(a: Event, b: Event)
    ensures KeyOf(a) == KeyOf(b) <==>
            && a.ts == b.ts && a.ip == b.ip && a.kind == b.kind && a.username == b.username && a.detail == b.detail
            && (a.port == b.port || (a.port in {0, -1} && b.port in {0, -1}))
  {
  }

  predicate HasKey(events: seq<EventRow>, k: DedupKey) {
    exists i :: 0 <= i < |events| && KeyOfRow(events[i]) == k
  }

  /** A rowid for a new row: one more than the largest in the table. */
  function MaxEventId(rows: seq<EventRow>): (m: nat)
    ensures forall i :: 0 <= i < |rows| ==> rows[i].id <= m
  {
    if rows == [] then 0
    else
      var m := MaxEventId(rows[..|rows| - 1]);
      if rows[|rows| - 1].id > m then rows[|rows| - 1].id else m
  }

  function MaxBanId(rows: seq<BanRow>): (m: nat)
    ensures forall i :: 0 <= i < |rows| ==> rows[i].id <= m
  {
    if rows == [] then 0
    else
      var m := MaxBanId(rows[..|rows| - 1]);
      if rows[|rows| - 1].id > m then rows[|rows| - 1].id else m
  }

  function RowOf(id: nat, e: Event): EventRow {
    EventRow(id, e.ts, e.ip, e.kind, NullStr(e.username), NullInt(e.port), e.source,
             NullStr(e.detail), NullStr(e.threat))
  }

  lemma RowKey(id: nat, e: Event)
    ensures KeyOfRow(RowOf(id, e)) == KeyOf(e)
  {
  }

  // ----- the ban table, statement by statement -----

  predicate HasActive(bans: seq<BanRow>, ip: string) {
    exists i :: 0 <= i < |bans| && bans[i].active && bans[i].ip == ip
  }

  function InsertBan(bans: seq<BanRow>, ip: string, jail: Option<string>, at: int, source: string,
                     reason: Option<string>, expiresAt: Option<int>): seq<BanRow> {
    if HasActive(bans, ip) then bans
    else bans + [BanRow(MaxBanId(bans) + 1, ip, jail, at, None, expiresAt, true, source, reason)]
  }

  /** The table has one row more, and that is what a ban of the address is meant to leave. */
  ghost predicate Adds(before: seq<BanRow>, after: seq<BanRow>, ip: string, at: int, source: string, jail: string,
                       reason: string, expiresAt: Option<int>)
  {
    && |after| == |before| + 1 && after[..|before|] == before
    && var r := after[|before|];
       && r.active && r.ip == ip && r.bannedAt == at && r.source == source && r.expiresAt == expiresAt
       && r.reason == (if reason == "" then None else Some(reason)) && r.jail == (if jail == "" then None else Some(jail))
       && r.unbannedAt == None
       && forall q :: q in before ==> q.id < r.id
  }

  /** BanIP: skipped when an active row for the address exists; expiry 0 is permanent. */
  function BanIPRows(bans: seq<BanRow>, now: int, ip: string, source: string, reason: string, expiresAt: int): seq<BanRow> {
    InsertBan(bans, ip, None, now, source, NullStr(reason), NullInt(expiresAt))
  }

  /** The mirror of a logged ban event. */
  function MirrorBan(bans: seq<BanRow>, ip: string, user: string, ts: int): seq<BanRow> {
    InsertBan(bans, ip, NullStr(user), ts, "fail2ban", None, None)
  }

  function Deactivated(r: BanRow, now: int): BanRow { r.(active := false, unbannedAt := Some(now)) }

  /** UPDATE ... SET active=0 for the rows of ip, of one source when that is given. */
  function Deactivate(bans: seq<BanRow>, ip: string, source: Option<string>, now: int): (out: seq<BanRow>)
    ensures |out| == |bans|
    ensures forall i :: 0 <= i < |bans| ==>
              out[i] == if bans[i].active && bans[i].ip == ip && (source.Some? ==> bans[i].source == source.value)
                        then Deactivated(bans[i], now) else bans[i]
  {
    seq(|bans|, i requires 0 <= i < |bans| =>
      if bans[i].active && bans[i].ip == ip && (source.Some? ==> bans[i].source == source.value)
      then Deactivated(bans[i], now) else bans[i])
  }

  /** UnbanIP. */
  function UnbanIPRows(bans: seq<BanRow>, now: int, ip: string): seq<BanRow> { Deactivate(bans, ip, None, now) }

  /** The mirror of a logged unban event. */
  function MirrorUnban(bans: seq<BanRow>, ip: string, ts: int): seq<BanRow> {
    Deactivate(bans, ip, Some("fail2ban"), ts)
  }

  function Keep<T(!new)>(s: seq<T>, p: T -> bool): (out: seq<T>)
    ensures forall x :: x in out <==> x in s && p(x)
    ensures |out| <= |s|
  {
    if s == [] then []
    else
      var rest := Keep(s[1..], p);
      if p(s[0]) then [s[0]] + rest else rest
  }

  // ----- ORDER BY -----

  ghost predicate Ordered<T>(s: seq<T>, key: T -> int) { forall i, j :: 0 <= i < j < |s| ==> key(s[i]) <= key(s[j]) }

  /** x before everything whose key is not smaller. */
  function InsertBy<T(!new)>(x: T, s: seq<T>, key: T -> int): (out: seq<T>)
    ensures |out| == |s| + 1
    ensures forall y :: y in out <==> y in s || y == x
    ensures Ordered(s, key) ==> Ordered(out, key)
  {
    if s == [] || key(x) <= key(s[0]) then [x] + s
    else
      var rest := InsertBy(x, s[1..], key);
      HeadIsLeast(s, key);
      assert forall i :: 0 <= i < |rest| ==> rest[i] in rest;
      [s[0]] + rest
  }

  lemma HeadIsLeast<T(!new)>(s: seq<T>, key: T -> int)
    requires s != []
    ensures Ordered(s, key) ==> Ordered(s[1..], key) && forall y :: y in s[1..] ==> key(s[0]) <= key(y)
  {
  }

  /** The rows by their key, rows with the same key in table order. */
  function SortBy<T(!new)>(s: seq<T>, key: T -> int): (out: seq<T>)
    ensures |out| == |s|
    ensures forall y :: y in out <==> y in s
    ensures Ordered(out, key)
  {
    if s == [] then [] else InsertBy(s[0], SortBy(s[1..], key), key)
  }

  lemma {:induction false} KeepInsert<T(!new)>(x: T, s: seq<T>, key: T -> int, p: T -> bool)
    requires Ordered(s, key)
    ensures Keep(InsertBy(x, s, key), p) == if p(x) then InsertBy(x, Keep(s, p), key) else Keep(s, p)
  {
    if s != [] {
      if key(x) <= key(s[0]) {
        assert ([x] + s)[1..] == s;
        var kept := Keep(s, p);
        assert kept != [] ==> kept[0] in kept;
      } else {
        var rest := InsertBy(x, s[1..], key);
        assert ([s[0]] + rest)[1..] == rest;
        KeepInsert(x, s[1..], key, p);
        assert p(s[0]) ==> ([s[0]] + Keep(s[1..], p))[1..] == Keep(s[1..], p);
        InsertSmall(x, s, key, p);
      }
    }
  }

  /** An insertion behind the first element does not move it out of the kept part. */
  lemma InsertSmall<T(!new)>(x: T, s: seq<T>, key: T -> int, p: T -> bool)
    requires s != [] && key(x) > key(s[0])
    ensures p(s[0]) ==> InsertBy(x, Keep(s, p), key) == [s[0]] + InsertBy(x, Keep(s[1..], p), key)
  {
    assert p(s[0]) ==> ([s[0]] + Keep(s[1..], p))[1..] == Keep(s[1..], p);
  }

  /** Sorting and then selecting is selecting and then sorting. */
  lemma {:induction false} KeepSort<T(!new)>(s: seq<T>, key: T -> int, p: T -> bool)
    ensures Keep(SortBy(s, key), p) == SortBy(Keep(s, p), key)
  {
    if s != [] {
      KeepSort(s[1..], key, p);
      KeepInsert(s[0], SortBy(s[1..], key), key, p);
      assert p(s[0]) ==> ([s[0]] + Keep(s[1..], p))[1..] == Keep(s[1..], p);
    }
  }

  lemma {:induction false} KeepKeep<T(!new)>(s: seq<T>, p: T -> bool, q: T -> bool, both: T -> bool)
    requires forall x :: both(x) <==> p(x) && q(x)
    ensures Keep(Keep(s, p), q) == Keep(s, both)
  {
    if s != [] {
      KeepKeep(s[1..], p, q, both);
      assert p(s[0]) ==> ([s[0]] + Keep(s[1..], p))[1..] == Keep(s[1..], p);
    }
  }

  /** Sequences that agree wherever either has a selected element have the same selection. */
  lemma {:induction false} KeepSame<T(!new)>(s: seq<T>, t: seq<T>, p: T -> bool)
    requires |s| == |t| && forall i :: 0 <= i < |s| && (p(s[i]) || p(t[i])) ==> s[i] == t[i]
    ensures Keep(s, p) == Keep(t, p)
  {
    if s != [] {
      assert forall i :: 0 <= i < |s[1..]| ==> s[1..][i] == s[i + 1] && t[1..][i] == t[i + 1];
      KeepSame(s[1..], t[1..], p);
    }
  }

  /** The first of a selection is the first element that is selected. */
  lemma {:induction false} KeepHead<T(!new)>(s: seq<T>, p: T -> bool) returns (i: nat)
    requires Keep(s, p) != []
    ensures i < |s| && s[i] == Keep(s, p)[0] && p(s[i]) && forall j :: 0 <= j < i ==> !p(s[j])
  {
    if p(s[0]) {
      i := 0;
    } else {
      var k := KeepHead(s[1..], p);
      i := k + 1;
      assert forall j :: 1 <= j < i ==> s[j] == s[1..][j - 1];
    }
  }

  /** ListExpiredBans orders by expiry, ListBans by ban time, the latest first. */
  function ExpiryKey(): BanRow -> int { (r: BanRow) => Coalesce(r.expiresAt, 0) }

  function NewestKey(): BanRow -> int { (r: BanRow) => -r.bannedAt }

  /** The ban half of DeleteOldEvents. */
  function PruneBans(bans: seq<BanRow>, cutoff: int): seq<BanRow> {
    Keep(bans, (r: BanRow) => r.active || r.bannedAt >= cutoff)
  }

  function PruneEvents(events: seq<EventRow>, cutoff: int): seq<EventRow> {
    Keep(events, (r: EventRow) => r.ts >= cutoff)
  }

  function Mirror(bans: seq<BanRow>, e: Event): seq<BanRow> {
    if e.kind == "ban" then MirrorBan(bans, e.ip, e.username, e.ts)
    else if e.kind == "unban" then MirrorUnban(bans, e.ip, e.ts)
    else bans
  }

  /** The active rows whose expiry has passed; permanent rows never. */
  predicate IsExpired(r: BanRow, now: int) { r.active && r.expiresAt.Some? && r.expiresAt.value <= now }

  /** The event types that count as an attempt. */
  const ATTEMPTS := {"failed_password", "http_auth_fail", "mail_auth_fail", "max_auth"}

  predicate IsAttempt(r: EventRow, ip: string, since: int) { r.ip == ip && r.ts >= since && r.kind in ATTEMPTS }

  /** Where the attempts of an address since a time stand in the table. */
  ghost function Attempts(events: seq<EventRow>, ip: string, since: int): set<nat> {
    set i: nat | i < |events| && events[i].ip == ip && since <= events[i].ts &&
                 (events[i].kind == "failed_password" || events[i].kind == "http_auth_fail" ||
                  events[i].kind == "mail_auth_fail" || events[i].kind == "max_auth")
  }

  /** From the back of the table: one more row, and whether it is an attempt. */
  lemma AttemptCounts(events: seq<EventRow>, ip: string, since: int, i: nat)
    requires i < |events|
    ensures var here, rest := Attempts(events, ip, since), (set j: nat | j in Attempts(events, ip, since) && j > i);
            (set j: nat | j in here && j >= i) == if IsAttempt(events[i], ip, since) then rest + {i} else rest
  {
  }

  /** One more row of a query, from the back of the table. */
  lemma SelectOne(rows: seq<BanRow>, i: nat, p: BanRow -> bool, key: BanRow -> int)
    requires i < |rows|
    ensures SortBy(Keep(rows[i..], p), key) ==
            var rest := SortBy(Keep(rows[i + 1..], p), key);
            if p(rows[i]) then InsertBy(rows[i], rest, key) else rest
  {
    hide InsertBy;
    assert rows[i..][1..] == rows[i + 1..];
    var rest := Keep(rows[i + 1..], p);
    assert ([rows[i]] + rest)[1..] == rest;
  }

  // ----- the store object -----

  datatype InsertResult = Inserted | ErrDuplicate | ErrStore

  /** Which statement of InsertEvent, if any, the database refuses. */
  datatype Trouble = NoTrouble | InsertFails | MirrorFails

  class SQLiteStore {
    var events: seq<EventRow>
    var bans: seq<BanRow>

    constructor ()
      ensures events == [] && bans == []
    {
      events, bans := [], [];
    }

    method InsertEvent(e: Event, trouble: Trouble) returns (r: InsertResult)
      modifies this
      ensures trouble == InsertFails ==> r == ErrStore && events == old(events) && bans == old(bans)
      ensures trouble != InsertFails && HasKey(old(events), KeyOf(e)) ==>
                r == ErrDuplicate && events == old(events) && bans == old(bans)
      ensures trouble != InsertFails && !HasKey(old(events), KeyOf(e)) ==>
                && events == old(events) + [RowOf(MaxEventId(old(events)) + 1, e)]
                && (trouble == NoTrouble ==> r == Inserted && bans == Mirror(old(bans), e))
                && (trouble == MirrorFails ==>
                      bans == old(bans) && r == if e.kind == "ban" || e.kind == "unban" then ErrStore else Inserted)
      ensures |events| > |old(events)| ==>
                var row := events[|old(events)|];
                && row.ts == e.ts && row.ip == e.ip && row.kind == e.kind && row.source == e.source
                && row.username == (if e.username == "" then None else Some(e.username))
                && row.port == (if e.port == 0 then None else Some(e.port))
                && row.detail == (if e.detail == "" then None else Some(e.detail))
                && row.threat == (if e.threat == "" then None else Some(e.threat))
                && forall q :: q in old(events) ==> q.id < row.id
      ensures r == Inserted && e.kind == "ban" && (forall b :: b in old(bans) && b.active ==> b.ip != e.ip) ==>
                Adds(old(bans), bans, e.ip, e.ts, "fail2ban", e.username, "", None)
      ensures r == Inserted && e.kind == "unban" ==>
                |bans| == |old(bans)| && forall i :: 0 <= i < |bans| ==>
                  bans[i] == if old(bans)[i].active && old(bans)[i].ip == e.ip && old(bans)[i].source == "fail2ban"
                             then old(bans)[i].(active := false, unbannedAt := Some(e.ts)) else old(bans)[i]
      ensures r != Inserted || (e.kind != "ban" && e.kind != "unban") ==> bans == old(bans)
      ensures e.kind == "ban" && (exists b :: b in old(bans) && b.active && b.ip == e.ip) ==> bans == old(bans)
    {
      if trouble == InsertFails {
        return ErrStore;
      }
      if HasKey(events, KeyOf(e)) {
        return ErrDuplicate;
      }
      events := events + [RowOf(MaxEventId(events) + 1, e)];
      if e.kind == "ban" {
        if trouble == MirrorFails {
          return ErrStore;
        }
        bans := MirrorBan(bans, e.ip, e.username, e.ts);
      } else if e.kind == "unban" {
        if trouble == MirrorFails {
          return ErrStore;
        }
        bans := MirrorUnban(bans, e.ip, e.ts);
      }
      return Inserted;
    }

    /** works: whether the database carries the statement out. */
    method BanIP(now: int, ip: string, source: string, reason: string, expiresAt: int, works: bool) returns (ok: bool)
      modifies this
      ensures ok == works && events == old(events)
      ensures bans == if ok then BanIPRows(old(bans), now, ip, source, reason, expiresAt) else old(bans)
      ensures ok && (forall r :: r in old(bans) && r.active ==> r.ip != ip) ==>
                Adds(old(bans), bans, ip, now, source, "", reason, if expiresAt == 0 then None else Some(expiresAt))
      ensures !ok || (exists r :: r in old(bans) && r.active && r.ip == ip) ==> bans == old(bans)
    {
      if !works {
        return false;
      }
      if !HasActive(bans, ip) {
        bans := bans + [BanRow(MaxBanId(bans) + 1, ip, None, now, None, NullInt(expiresAt), true, source, NullStr(reason))];
      }
      return true;
    }

    method UnbanIP(now: int, ip: string, works: bool) returns (ok: bool)
      modifies this
      ensures ok == works && events == old(events)
      ensures bans == if ok then UnbanIPRows(old(bans), now, ip) else old(bans)
      ensures ok ==> |bans| == |old(bans)| && forall i :: 0 <= i < |bans| ==>
                bans[i] == if old(bans)[i].active && old(bans)[i].ip == ip
                           then old(bans)[i].(active := false, unbannedAt := Some(now)) else old(bans)[i]
    {
      if works {
        bans := Deactivate(bans, ip, None, now);
      }
      return works;
    }

    /** Retention, in two statements without a transaction: None is the error. What goes is old, and
      of the bans inactive; what is left keeps its order; and if the second statement fails, the
      events are already gone. */
    method DeleteOldEvents(cutoff: int, eventsWork: bool, bansWork: bool) returns (deleted: Option<nat>)
      modifies this
      ensures deleted.Some? <==> eventsWork && bansWork
      ensures deleted.Some? ==> |events| + deleted.value == |old(events)|
      ensures events == if eventsWork then PruneEvents(old(events), cutoff) else old(events)
      ensures bans == if eventsWork && bansWork then PruneBans(old(bans), cutoff) else old(bans)
      ensures forall r :: r in events <==> r in old(events) && (eventsWork ==> cutoff <= r.ts)
      ensures forall r :: r in bans <==> r in old(bans) && (eventsWork && bansWork ==> r.active || cutoff <= r.bannedAt)
    {
      if !eventsWork {
        return None;
      }
      var before := |events|;
      events := PruneEvents(events, cutoff);
      if !bansWork {
        return None;
      }
      bans := PruneBans(bans, cutoff);
      return Some(before - |events|);
    }

    method CountIPEvents(ip: string, since: int) returns (n: nat)
      ensures n == |Attempts(events, ip, since)|
    {
      n := 0;
      ghost var all := Attempts(events, ip, since);
      var i := |events|;
      assert (set j: nat | j in all && j >= i) == {};
      while i > 0
        invariant 0 <= i <= |events|
        invariant n == |set j: nat | j in all && j >= i|
      {
        i := i - 1;
        AttemptCounts(events, ip, since, i);
        assert (set j: nat | j in all && j >= i + 1) == (set j: nat | j in all && j > i);
        if IsAttempt(events[i], ip, since) {
          n := n + 1;
        }
      }
      assert (set j: nat | j in all && j >= 0) == all;
    }

    /** ListBans: the latest ban first. */
    method ListBans(activeOnly: bool) returns (out: seq<BanRow>)
      ensures out == SortBy(Keep(bans, (r: BanRow) => !activeOnly || r.active), NewestKey())
      ensures forall r :: r in out <==> r in bans && (activeOnly ==> r.active)
      ensures forall i, j :: 0 <= i < j < |out| ==> out[i].bannedAt >= out[j].bannedAt
    {
      hide InsertBy;
      out := [];
      var i := |bans|;
      assert bans[i..] == [];
      while i > 0
        invariant 0 <= i <= |bans|
        invariant out == SortBy(Keep(bans[i..], (r: BanRow) => !activeOnly || r.active), NewestKey())
      {
        i := i - 1;
        SelectOne(bans, i, (r: BanRow) => !activeOnly || r.active, NewestKey());
        if !activeOnly || bans[i].active {
          out := InsertBy(bans[i], out, NewestKey());
        }
      }
      assert bans[0..] == bans;
    }

    /** ListExpiredBans: the earliest expiry first. */
    method ListExpiredBans(now: int) returns (out: seq<BanRow>)
      ensures out == SortBy(Keep(bans, (r: BanRow) => IsExpired(r, now)), ExpiryKey())
      ensures forall r :: r in out <==> r in bans && r.active && r.expiresAt.Some? && r.expiresAt.value <= now
      ensures forall i, j :: 0 <= i < j < |out| ==> out[i].expiresAt.value <= out[j].expiresAt.value
    {
      hide InsertBy;
      out := [];
      var i := |bans|;
      assert bans[i..] == [];
      while i > 0
        invariant 0 <= i <= |bans|
        invariant out == SortBy(Keep(bans[i..], (r: BanRow) => IsExpired(r, now)), ExpiryKey())
      {
        i := i - 1;
        SelectOne(bans, i, (r: BanRow) => IsExpired(r, now), ExpiryKey());
        if IsExpired(bans[i], now) {
          out := InsertBy(bans[i], out, ExpiryKey());
        }
      }
      assert bans[0..] == bans;
    }
  }
}
