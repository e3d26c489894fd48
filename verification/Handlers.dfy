/** The ban and unban requests (internal/api/api.go), the expiry sweep and the reconciliation at
    boot (cmd/logfort/main.go), as they run on the store and the firewall. */
module Handlers {
  import opened Numbers
  import opened Text
  import opened Store
  import opened Lifecycle
  import opened Enforcement
  import opened Responder
  import Ledger

  /** The responder's set. Each call is told how the outside world answers it. */
  class Firewall {
    const norm: string -> string
    var entries: set<string>

    constructor (norm: string -> string)
      ensures this.norm == norm && entries == {}
    {
      this.norm, entries := norm, {};
    }

    method Ban(ip: string, reply: Reply) returns (ok: bool)
      modifies this
      ensures entries == Blocked(norm, old(entries), ip, reply) && ok == (reply == Done)
    {
      if reply != Refused {
        entries := entries + {norm(ip)};
      }
      return reply == Done;
    }

    method Unban(ip: string, reply: Reply) returns (ok: bool)
      modifies this
      ensures entries == Unblocked(norm, old(entries), ip, reply) && ok == (reply == Done)
    {
      if reply != Refused {
        entries := entries - {norm(ip)};
      }
      return reply == Done;
    }
  }

  /** What a handler asks of its surroundings: the rate limiter's answer, the two address tests,
      the client's own address and the clock. */
  datatype World = World(allowed: bool, valid: string -> bool, private: string -> bool, client: string, clock: int)

  datatype BanRequest = BanRequest(ip: string, reason: string, durationSecs: int)

  datatype Status = Accepted | Forbidden | TooManyRequests | BadRequest | ServerError

  function ExpiryOf(clock: int, secs: int): int { if secs > 0 then clock + secs else 0 }

  /** What an accepted ban leaves in the table: a row that was active before, or one new row with the
      expiry. */
  ghost predicate Banning(before: seq<BanRow>, after: seq<BanRow>, ip: string, at: int, reason: string, expiresAt: Option<int>) {
    if exists r :: r in before && r.active && r.ip == ip then after == before
    else Adds(before, after, ip, at, "nftables", "", reason, expiresAt)
  }

  /** A row after its address has been unbanned. */
  function Ended(r: BanRow, ip: string, at: int): BanRow {
    if r.active && r.ip == ip then r.(active := false, unbannedAt := Some(at)) else r
  }

  class Server {
    const store: SQLiteStore
    const firewall: Firewall
    const allowlist: Allowlist
    const enabled: bool

    constructor (store: SQLiteStore, firewall: Firewall, allowlist: Allowlist, enabled: bool)
      ensures this.store == store && this.firewall == firewall && this.allowlist == allowlist && this.enabled == enabled
    {
      this.store, this.firewall, this.allowlist, this.enabled := store, firewall, allowlist, enabled;
    }

    function Now(): Books
      reads store, firewall
    {
      Books(store.bans, firewall.entries)
    }

    /** The feed entry of a finished operation; its failure is only logged. */
    method RecordEvent(kind: string, ip: string, source: string, ts: int, trouble: Trouble)
      modifies store
      ensures store.bans == old(store.bans) || store.bans == Mirror(old(store.bans), Store.Event(ts, ip, kind, "", 0, source, "", ""))
    {
      var r := store.InsertEvent(Store.Event(ts, ip, kind, "", 0, source, "", ""), trouble);
    }

    /** handleBanPost. The request is refused, with nothing changed, exactly when the responder is
        off, the limiter says no, the body is unreadable or the address may not be banned. */
    method HandleBan(body: Option<BanRequest>, w: World, luck: BanLuck, trouble: Trouble) returns (r: Status)
      requires allowlist.Valid()
      modifies store, firewall
      ensures r == Forbidden <==> !enabled
      ensures r == TooManyRequests <==> enabled && !w.allowed
      ensures r == Accepted || r == ServerError <==>
              && enabled && w.allowed && body.Some?
              && var ip, p := TrimSpace(body.value.ip), allowlist.parsers;
                 && w.valid(ip) && 0 <= body.value.durationSecs <= 31_536_000
                 && w.client != firewall.norm(ip) && !w.private(ip)
                 && !(p.ip(ip).Some? && (AnyCovers(p, allowlist.entries, p.ip(ip).value) ||
                                         AnyCovers(p, allowlist.extraEntries, p.ip(ip).value)))
      ensures r != Accepted && r != ServerError ==> Now() == old(Now())
      ensures r == Accepted ==>
                var ip, ends := TrimSpace(body.value.ip), w.clock + body.value.durationSecs;
                && firewall.entries == old(firewall.entries) + {firewall.norm(ip)}
                && Banning(old(store.bans), store.bans, ip, luck.now, TrimSpace(body.value.reason),
                           if body.value.durationSecs > 0 && ends != 0 then Some(ends) else None)
      ensures r == Accepted || r == ServerError ==>
                Now() == BanBooks(firewall.norm, old(Now()), TrimSpace(body.value.ip), TrimSpace(body.value.reason),
                                  ExpiryOf(w.clock, body.value.durationSecs), luck)
                && (r == Accepted <==> luck.stored && luck.reply == Done)
    {
      hide BanIPRows, UnbanIPRows, AnyCovers, TrimSpace, NetParsers.Sound, StandsFor;
      if !enabled {
        return Forbidden;
      }
      if !w.allowed {
        return TooManyRequests;
      }
      if body.None? {
        return BadRequest;
      }
      var ip, reason, secs := TrimSpace(body.value.ip), TrimSpace(body.value.reason), body.value.durationSecs;
      if !w.valid(ip) {
        return BadRequest;
      }
      if secs < 0 || secs > MAX_BAN_SECS {
        return BadRequest;
      }
      if w.client == firewall.norm(ip) {
        return BadRequest;
      }
      if w.private(ip) {
        return BadRequest;
      }
      var listed := allowlist.Contains(ip);
      if listed {
        return BadRequest;
      }
      var expiresAt := 0;
      if secs > 0 {
        expiresAt := w.clock + secs;
      }
      r := BanAddress(ip, reason, expiresAt, "manual", luck, trouble);
    }

    /** Store first, firewall second, roll back on failure: the part that the request handler,
        autoBanBackground and threatBanBackground share. */
    method BanAddress(ip: string, reason: string, expiresAt: int, feed: string, luck: BanLuck, trouble: Trouble)
      returns (r: Status)
      modifies store, firewall
      ensures Now() == BanBooks(firewall.norm, old(Now()), ip, reason, expiresAt, luck)
      ensures r == if luck.stored && luck.reply == Done then Accepted else ServerError
      ensures r == Accepted ==>
                && firewall.entries == old(firewall.entries) + {firewall.norm(ip)}
                && Banning(old(store.bans), store.bans, ip, luck.now, reason, if expiresAt == 0 then None else Some(expiresAt))
    {
      hide BanIPRows, UnbanIPRows, MirrorBan;
      var ok := store.BanIP(luck.now, ip, BACKEND, reason, expiresAt, luck.stored);
      if !ok {
        return ServerError;
      }
      ok := firewall.Ban(ip, luck.reply);
      if !ok {
        var _ := store.UnbanIP(luck.at, ip, luck.undone);
        return ServerError;
      }
      MirrorAfterBan(old(store.bans), luck.now, ip, reason, expiresAt, luck.at);
      RecordEvent("ban", ip, feed, luck.at, trouble);
      return Accepted;
    }

    /** handleUnbanPost: not rate-limited, and no allowlist. */
    method HandleUnban(body: Option<string>, w: World, luck: LiftLuck, trouble: Trouble) returns (r: Status)
      modifies store, firewall
      ensures r == Forbidden <==> !enabled
      ensures r == Accepted || r == ServerError <==> enabled && body.Some? && w.valid(TrimSpace(body.value))
      ensures r != Accepted && r != ServerError ==> Now() == old(Now())
      ensures r == Accepted || r == ServerError ==>
                Now() == LiftBooks(firewall.norm, old(Now()), TrimSpace(body.value), luck) && (r == Accepted <==> Lifts(luck))
      ensures r == Accepted ==>
                var ip := TrimSpace(body.value);
                && firewall.entries == old(firewall.entries) - {firewall.norm(ip)} && |store.bans| == |old(store.bans)|
                && (forall i :: 0 <= i < |store.bans| ==> store.bans[i] == Ended(old(store.bans)[i], ip, luck.at))
    {
      hide UnbanIPRows, TrimSpace;
      if !enabled {
        return Forbidden;
      }
      if body.None? {
        return BadRequest;
      }
      var ip := TrimSpace(body.value);
      if !w.valid(ip) {
        return BadRequest;
      }
      var ok := LiftAddress(ip, "manual", luck, trouble);
      return if ok then Accepted else ServerError;
    }

    /** Firewall first, store second. */
    method LiftAddress(ip: string, feed: string, luck: LiftLuck, trouble: Trouble) returns (ok: bool)
      modifies store, firewall
      ensures Now() == LiftBooks(firewall.norm, old(Now()), ip, luck)
      ensures ok == (luck.reply == Done && luck.stored)
      ensures ok ==>
                && firewall.entries == old(firewall.entries) - {firewall.norm(ip)} && |store.bans| == |old(store.bans)|
                && (forall i :: 0 <= i < |store.bans| ==> store.bans[i] == Ended(old(store.bans)[i], ip, luck.at))
      ensures !ok ==> store.bans == old(store.bans)
    {
      hide UnbanIPRows, MirrorUnban;
      ok := firewall.Unban(ip, luck.reply);
      if !ok {
        return;
      }
      ok := store.UnbanIP(luck.at, ip, luck.stored);
      if !ok {
        return;
      }
      MirrorAfterUnban(old(store.bans), luck.at, ip, luck.at);
      RecordEvent("unban", ip, feed, luck.at, trouble);
    }

    /** One pass of runBanExpiry: nothing if the list cannot be read; else one address after the
        other, a failure skipping to the next, until shutdown is noticed after budget of them. */
    method Sweep(now: int, luck: string -> LiftLuck, trouble: string -> Trouble, readable: bool, budget: nat)
      modifies store, firewall
      ensures var ips := Ips(Expired(old(store.bans), now));
              Now() == LiftAll(firewall.norm, old(Now()),
                               if !readable then [] else if budget < |ips| then ips[..budget] else ips, luck)
      ensures readable && |Ips(Expired(old(store.bans), now))| <= budget && Ledger.OneActive(old(store.bans)) ==>
                && store.bans == Swept(old(store.bans), now, luck)
                && (forall i :: 0 <= i < |store.bans| ==>
                      var r := old(store.bans)[i];
                      store.bans[i] == if r.active && r.expiresAt.Some? && r.expiresAt.value <= now && Lifts(luck(r.ip))
                                       then r.(active := false, unbannedAt := Some(luck(r.ip).at)) else r)
                && firewall.entries ==
                   old(firewall.entries) - Dropped(firewall.norm, Ips(Expired(old(store.bans), now)), luck)
    {
      hide LiftBooks, Ledger.OneActive, IsExpired, Expired, SortBy, Keep, Swept, Dropped;
      if !readable {
        return;
      }
      ghost var start := Now();
      var expired := store.ListExpiredBans(now);
      SweepLists(start.bans, now);
      ghost var ips := Ips(expired);
      for i := 0 to |expired|
        invariant i <= budget || i == 0
        invariant Now() == LiftAll(firewall.norm, start, ips[..i], luck)
      {
        if i == budget {
          return;
        }
        assert ips[..i + 1][..i] == ips[..i];
        var _ := LiftAddress(expired[i].ip, "expiry", luck(expired[i].ip), trouble(expired[i].ip));
      }
      assert ips[..|expired|] == ips;
      if Ledger.OneActive(start.bans) {
        SweepLifts(firewall.norm, start, now, luck);
      }
    }

    /** reconcileBans: nothing if the list cannot be read; else until shutdown is noticed after budget
        of the active rows. */
    method Reconcile(now: int, reply: string -> Reply, readable: bool, budget: nat)
      modifies firewall
      ensures var rows := Listed(store.bans);
              firewall.entries ==
              old(firewall.entries) +
              PutBack(firewall.norm, if !readable then [] else if budget < |rows| then rows[..budget] else rows, now, reply)
      ensures readable && |store.bans| <= budget ==>
                firewall.entries ==
                old(firewall.entries) + Restored(firewall.norm, Ips(ToReapply(store.bans, now)), reply)
    {
      hide PutBack, SortBy, Keep, Listed, Restored, ToReapply;
      NothingPutBack(firewall.norm, now, reply);
      if !readable {
        return;
      }
      ListedFew(store.bans);
      var bans := store.ListBans(true);
      SameSelection(store.bans);
      for i := 0 to |bans|
        invariant i <= budget || i == 0
        invariant firewall.entries == old(firewall.entries) + PutBack(firewall.norm, bans[..i], now, reply)
      {
        if i == budget {
          return;
        }
        var b := bans[i];
        PutBackOne(firewall.norm, bans, i, now, reply);
        if b.source != BACKEND {
          continue;
        }
        if b.expiresAt.Some? && b.expiresAt.value <= now {
          continue;
        }
        ListedActive(store.bans, i);
        var _ := firewall.Ban(b.ip, reply(b.ip));
      }
      assert bans[..|bans|] == bans;
      PutBackListed(firewall.norm, store.bans, now, reply);
    }

    /** Boot after the host went down: the firewall starts empty and ends up with the unexpired
        bans of this backend. */
    method Boot(now: int)
      modifies firewall
      ensures firewall.entries == Due(firewall.norm, store.bans, now)
      ensures forall x :: x in firewall.entries <==>
                exists r :: r in store.bans && r.active && r.source == "nftables" &&
                            (r.expiresAt.Some? ==> now < r.expiresAt.value) && firewall.norm(r.ip) == x
    {
      firewall.entries := {};
      Reconcile(now, x => Done, true, |store.bans|);
      DueIsRestored(firewall.norm, store.bans, now);
    }
  }

  /** What the query for expired rows returns is what a sweep goes through. */
  lemma SweepLists(bans: seq<BanRow>, now: int)
    ensures SortBy(Keep(bans, (r: BanRow) => IsExpired(r, now)), ExpiryKey()) == Expired(bans, now)
  {
  }

  /** The entries that reconciling the given rows adds. */
  function PutBack(norm: string -> string, rows: seq<BanRow>, now: int, reply: string -> Reply): set<string> {
    set r | r in rows && Restorable(r, now) && reply(r.ip) != Refused :: norm(r.ip)
  }

  lemma PutBackOne(norm: string -> string, rows: seq<BanRow>, i: nat, now: int, reply: string -> Reply)
    requires i < |rows|
    ensures PutBack(norm, rows[..i + 1], now, reply) ==
            PutBack(norm, rows[..i], now, reply) +
            if Restorable(rows[i], now) && reply(rows[i].ip) != Refused then {norm(rows[i].ip)} else {}
  {
  }

  lemma NothingPutBack(norm: string -> string, now: int, reply: string -> Reply)
    ensures PutBack(norm, [], now, reply) == {}
  {
  }

  lemma ListedActive(bans: seq<BanRow>, i: nat)
    requires i < |Listed(bans)|
    ensures Listed(bans)[i].active
  {
    assert Listed(bans)[i] in Listed(bans);
  }

  lemma ListedFew(bans: seq<BanRow>)
    ensures |Listed(bans)| <= |bans|
  {
  }

  /** The rows a reconciliation goes through. */
  function Listed(bans: seq<BanRow>): seq<BanRow> { SortBy(Keep(bans, (r: BanRow) => r.active), NewestKey()) }

  lemma SameSelection(bans: seq<BanRow>)
    ensures SortBy(Keep(bans, (r: BanRow) => !true || r.active), NewestKey()) == Listed(bans)
  {
    KeepKeep(bans, (r: BanRow) => true, (r: BanRow) => r.active, (r: BanRow) => !true || r.active);
    KeepKeep(bans, (r: BanRow) => true, (r: BanRow) => r.active, (r: BanRow) => r.active);
  }

  lemma PutBackListed(norm: string -> string, bans: seq<BanRow>, now: int, reply: string -> Reply)
    ensures PutBack(norm, Listed(bans), now, reply) ==
            Restored(norm, Ips(ToReapply(bans, now)), reply)
  {
    var rows := ToReapply(bans, now);
    forall r | r in bans && Restorable(r, now) ensures r.ip in Ips(rows) {
      ListedIp(rows, r);
    }
    forall x | x in Ips(rows) ensures exists r :: r in bans && Restorable(r, now) && r.ip == x {
      var i :| 0 <= i < |rows| && Ips(rows)[i] == x;
      assert rows[i] in rows;
    }
  }
}
