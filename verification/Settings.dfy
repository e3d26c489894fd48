/** The settings page (internal/api/api.go, internal/config/config.go): the live configuration, the
    stored settings, and what a restart would rebuild from the environment and the store. */
module Settings {
  import opened Numbers
  import opened Text
  import opened Responder

  const DEFAULT_THRESHOLD := 50
  const DEFAULT_WINDOW := "1h"
  const DEFAULT_LANGUAGE := "en"
  predicate Supported(language: string) { language == "en" || language == "ru" }

  datatype Channel =
    | TelegramToken | TelegramChat | DiscordURL | WebhookURL | SlackURL
    | NtfyURL | NtfyToken | GotifyURL | GotifyToken
    | SMTPHost | SMTPUser | SMTPPass | SMTPFrom | SMTPTo

  /** The keys of the settings table. */
  datatype Setting =
    | Notify(channel: Channel)
    | NotifyRules | IgnoreIPs | RetentionDays | Language
    | AutoBanEnabled | AutoBanThreshold | AutoBanWindow | AutoBanBanTime
    | F2BMaxRetry | F2BBanTime | F2BFindTime

  /** The fields of config.Config that the settings page may change. */
  datatype Config = Config(notify: map<Channel, string>, rules: seq<string>, extraIgnore: seq<string>,
                           retention: int, language: string,
                           autoBan: bool, threshold: int, window: string, banTime: int,
                           maxRetry: int, f2bBanTime: int, f2bFindTime: int)

  ghost predicate HasChannels(notify: map<Channel, string>) { forall ch: Channel :: ch in notify }

  /** What config.Load guarantees of the environment. */
  ghost predicate ValidEnv(c: Config) {
    && HasChannels(c.notify)
    && c.retention >= 1 && c.threshold > 0 && IsInt64(c.retention) && IsInt64(c.threshold)
  }

  type Stored = map<Setting, string>

  /** Reading a Go map: an absent key is the empty string. */
  function Get(s: Stored, k: Setting): string { if k in s then s[k] else "" }

  // ----- what a restart builds -----

  function OverlayText(pinned: string, stored: string): string { if pinned == "" then stored else pinned }

  function OverlayInt(current: int, stored: string, least: int): int {
    if stored == "" then current
    else match ParseInt(stored)
         case Some(n) => if n >= least then n else current
         case None => current
  }

  function OrElse(text: string, default: string): string { if text == "" then default else text }

  function OverlayThreshold(current: int, stored: string): int {
    var n := OverlayInt(current, stored, 1);
    if n == 0 then DEFAULT_THRESHOLD else n
  }

  function OverlayLanguage(current: string, stored: string): string {
    OrElse(if Supported(stored) then stored else current, DEFAULT_LANGUAGE)
  }

  function OverlayFlag(current: bool, stored: string): bool { if stored == "" then current else stored == "true" }

  function OverlayWindow(current: string, stored: string): string { OrElse(OrElse(stored, current), DEFAULT_WINDOW) }

  function OverlayList(current: seq<string>, stored: string): seq<string> {
    if current == [] then ListOf(stored) else current
  }

  function OverlayNotify(notify: map<Channel, string>, s: Stored): map<Channel, string> {
    map ch | ch in notify :: OverlayText(notify[ch], Get(s, Notify(ch)))
  }

  function Overlay(c: Config, s: Stored): Config {
    Config(OverlayNotify(c.notify, s),
           OverlayList(c.rules, Get(s, NotifyRules)),
           ListOf(Get(s, IgnoreIPs)),
           OverlayInt(c.retention, Get(s, RetentionDays), 1),
           OverlayLanguage(c.language, Get(s, Language)),
           OverlayFlag(c.autoBan, Get(s, AutoBanEnabled)),
           OverlayThreshold(c.threshold, Get(s, AutoBanThreshold)),
           OverlayWindow(c.window, Get(s, AutoBanWindow)),
           OverlayInt(c.banTime, Get(s, AutoBanBanTime), 0),
           OverlayInt(c.maxRetry, Get(s, F2BMaxRetry), 1),
           OverlayInt(c.f2bBanTime, Get(s, F2BBanTime), 1),
           OverlayInt(c.f2bFindTime, Get(s, F2BFindTime), 1))
  }

  lemma Eta(c: Config)
    ensures c == Config(c.notify, c.rules, c.extraIgnore, c.retention, c.language, c.autoBan, c.threshold, c.window,
                        c.banTime, c.maxRetry, c.f2bBanTime, c.f2bFindTime)
  {
  }

  /** The configuration object, overwritten field by field. */
  class Live {
    var notify: map<Channel, string>
    var rules: seq<string>
    var extraIgnore: seq<string>
    var retention: int
    var language: string
    var autoBan: bool
    var threshold: int
    var window: string
    var banTime: int
    var maxRetry: int
    var f2bBanTime: int
    var f2bFindTime: int

    constructor (c: Config)
      ensures Value() == c
    {
      notify, rules, extraIgnore, retention, language := c.notify, c.rules, c.extraIgnore, c.retention, c.language;
      autoBan, threshold, window, banTime := c.autoBan, c.threshold, c.window, c.banTime;
      maxRetry, f2bBanTime, f2bFindTime := c.maxRetry, c.f2bBanTime, c.f2bFindTime;
    }

    function Value(): Config
      reads this
    {
      Config(notify, rules, extraIgnore, retention, language, autoBan, threshold, window, banTime,
             maxRetry, f2bBanTime, f2bFindTime)
    }

    method OverlayChannels(s: Stored)
      modifies this`notify
      ensures notify == OverlayNotify(old(notify), s)
    {
      var todo := notify.Keys;
      while todo != {}
        invariant todo <= old(notify).Keys
        invariant notify == map ch | ch in old(notify) ::
                    if ch in todo then old(notify)[ch] else OverlayText(old(notify)[ch], Get(s, Notify(ch)))
      {
        var ch :| ch in todo;
        if notify[ch] == "" {
          notify := notify[ch := Get(s, Notify(ch))];
        }
        todo := todo - {ch};
      }
    }

    /** Read a stored number that may replace a field. */
    method ReadInt(current: int, stored: string, least: int) returns (n: int)
      ensures n == OverlayInt(current, stored, least)
    {
      n := current;
      if stored != "" {
        match ParseInt(stored) {
          case Some(v) => if v >= least { n := v; }
          case None =>
        }
      }
    }

    method OverlayLists(s: Stored)
      modifies `rules, `extraIgnore
      ensures rules == OverlayList(old(rules), Get(s, NotifyRules)) && extraIgnore == ListOf(Get(s, IgnoreIPs))
    {
      if rules == [] {
        rules := SplitList(Get(s, NotifyRules));
      }
      extraIgnore := SplitList(Get(s, IgnoreIPs));
    }

    method OverlayChoices(s: Stored)
      modifies `language, `autoBan, `window
      ensures language == OverlayLanguage(old(language), Get(s, Language))
      ensures autoBan == OverlayFlag(old(autoBan), Get(s, AutoBanEnabled))
      ensures window == OverlayWindow(old(window), Get(s, AutoBanWindow))
    {
      hide Get;
      if Get(s, Language) != "" && Supported(Get(s, Language)) {
        language := Get(s, Language);
      }
      if language == "" {
        language := DEFAULT_LANGUAGE;
      }
      if Get(s, AutoBanEnabled) != "" {
        autoBan := Get(s, AutoBanEnabled) == "true";
      }
      if Get(s, AutoBanWindow) != "" {
        window := Get(s, AutoBanWindow);
      }
      if window == "" {
        window := DEFAULT_WINDOW;
      }
    }

    method OverlayNumbers(s: Stored)
      modifies `retention, `threshold, `banTime, `maxRetry, `f2bBanTime, `f2bFindTime
      ensures retention == OverlayInt(old(retention), Get(s, RetentionDays), 1)
      ensures threshold == OverlayThreshold(old(threshold), Get(s, AutoBanThreshold))
      ensures banTime == OverlayInt(old(banTime), Get(s, AutoBanBanTime), 0)
      ensures maxRetry == OverlayInt(old(maxRetry), Get(s, F2BMaxRetry), 1)
      ensures f2bBanTime == OverlayInt(old(f2bBanTime), Get(s, F2BBanTime), 1)
      ensures f2bFindTime == OverlayInt(old(f2bFindTime), Get(s, F2BFindTime), 1)
    {
      hide OverlayInt, Get;
      retention := ReadInt(retention, Get(s, RetentionDays), 1);
      threshold := ReadInt(threshold, Get(s, AutoBanThreshold), 1);
      if threshold == 0 {
        threshold := DEFAULT_THRESHOLD;
      }
      banTime := ReadInt(banTime, Get(s, AutoBanBanTime), 0);
      maxRetry := ReadInt(maxRetry, Get(s, F2BMaxRetry), 1);
      f2bBanTime := ReadInt(f2bBanTime, Get(s, F2BBanTime), 1);
      f2bFindTime := ReadInt(f2bFindTime, Get(s, F2BFindTime), 1);
    }

    /** The fields do not depend on one another, so the order does not matter. */
    method OverlaySettings(s: Stored)
      modifies this
      ensures Value() == Overlay(old(Value()), s)
    {
      hide OverlayInt, OverlayNotify, OverlayList, ListOf, OverlayLanguage, OverlayFlag, OverlayWindow, OverlayThreshold, Get;
      OverlayChannels(s);
      OverlayLists(s);
      OverlayChoices(s);
      OverlayNumbers(s);
    }
  }

  // ----- a settings request -----

  /** None: the field is not in the request. For a channel, None is a value that is not a string. */
  datatype Request = Request(notify: map<Channel, Option<string>>, rules: Option<string>,
                             retention: Option<int>, language: Option<string>,
                             autoBan: Option<bool>, threshold: Option<int>, window: Option<string>, banTime: Option<int>,
                             ignoreIPs: Option<string>,
                             maxRetry: Option<int>, f2bBanTime: Option<int>, f2bFindTime: Option<int>) {
    /** The JSON decoder's range check. */
    predicate InRange() {
      && (retention.Some? ==> IsInt64(retention.value)) && (threshold.Some? ==> IsInt64(threshold.value))
      && (banTime.Some? ==> IsInt64(banTime.value)) && (maxRetry.Some? ==> IsInt64(maxRetry.value))
      && (f2bBanTime.Some? ==> IsInt64(f2bBanTime.value)) && (f2bFindTime.Some? ==> IsInt64(f2bFindTime.value))
    }

    predicate TouchesF2B() { maxRetry.Some? || f2bBanTime.Some? || f2bFindTime.Some? }

    predicate TouchesNotify() { notify != map[] || rules.Some? }
  }

  /** time.ParseDuration, notify.New, and whether fail2ban answers, takes the new values, and the
      database commits. */
  datatype World = World(duration: string -> bool, usable: Config -> bool, f2bUp: bool, f2bApplies: bool, commits: bool)

  datatype Status = Saved | BadRequest | BadGateway | ServerError

  predicate Within(o: Option<int>, lo: int, hi: int) { o.Some? ==> lo <= o.value <= hi }

  /** The checks on the request's own text and numbers. */
  predicate WellFormed(req: Request, w: World, p: NetParsers) {
    && (forall ch :: ch in req.notify ==> req.notify[ch].Some?)
    && (req.language.Some? ==> Supported(req.language.value))
    && AutoBanOK(req, w)
    && (req.ignoreIPs.Some? ==> AllReadable(p, ListOf(req.ignoreIPs.value)))
    && F2BOK(req)
  }

  predicate AutoBanOK(req: Request, w: World) {
    && (req.window.Some? ==> w.duration(req.window.value))
    && Within(req.banTime, 0, MAX_BAN_SECS)
  }

  predicate F2BOK(req: Request) {
    Within(req.maxRetry, 1, 100) && Within(req.f2bBanTime, 60, 7776000) && Within(req.f2bFindTime, 60, 604800)
  }

  /** A channel the request sets and the environment does not pin. */
  predicate SetsChannel(env: Config, req: Request, ch: Channel) {
    ch in req.notify && req.notify[ch].Some? && ch in env.notify && env.notify[ch] == ""
  }

  function Or<T>(o: Option<T>, d: T): T { if o.Some? then o.value else d }

  /** A number that is only taken when positive. */
  function Positive(o: Option<int>, d: int): int { if o.Some? && o.value > 0 then o.value else d }

  /** The channels once the request's fields outside todo have been taken over. */
  function ProposedNotify(env: Config, notify: map<Channel, string>, req: Request, todo: set<Channel>): map<Channel, string> {
    map ch | ch in notify :: if ch !in todo && SetsChannel(env, req, ch) then req.notify[ch].value else notify[ch]
  }

  function ChannelSaves(env: Config, req: Request, todo: set<Channel>): Stored {
    map ch | ch in req.notify && ch !in todo && SetsChannel(env, req, ch) :: Notify(ch) := req.notify[ch].value
  }

  lemma ChannelTaken(env: Config, notify: map<Channel, string>, req: Request, todo: set<Channel>, ch: Channel)
    requires ch in todo && ch in notify
    ensures ProposedNotify(env, notify, req, todo - {ch}) ==
            if SetsChannel(env, req, ch) then ProposedNotify(env, notify, req, todo)[ch := req.notify[ch].value]
            else ProposedNotify(env, notify, req, todo)
  {
  }

  lemma ChannelSaved(env: Config, req: Request, todo: set<Channel>, ch: Channel)
    requires ch in todo
    ensures ChannelSaves(env, req, todo - {ch}) ==
            if SetsChannel(env, req, ch) then ChannelSaves(env, req, todo)[Notify(ch) := req.notify[ch].value]
            else ChannelSaves(env, req, todo)
  {
    var before, after := ChannelSaves(env, req, todo), ChannelSaves(env, req, todo - {ch});
    var want := if SetsChannel(env, req, ch) then before[Notify(ch) := req.notify[ch].value] else before;
    assert SetsChannel(env, req, ch) ==> ch in req.notify && req.notify[ch].Some? by {
      assert SetsChannel(env, req, ch) ==> ch in req.notify;
    }
    forall k ensures k in after <==> k in want {
      assert k.Notify? ==>
        (k in after <==> k.channel in req.notify && k.channel !in todo - {ch} && SetsChannel(env, req, k.channel));
    }
  }

  lemma NothingTaken(env: Config, notify: map<Channel, string>, req: Request)
    ensures ProposedNotify(env, notify, req, req.notify.Keys) == notify
    ensures ChannelSaves(env, req, req.notify.Keys) == map[]
  {
  }

  lemma SetsIfUnpinned(env: Config, req: Request, ch: Channel)
    requires ch in req.notify && req.notify[ch].Some? && ch in env.notify
    ensures SetsChannel(env, req, ch) <==> env.notify[ch] == ""
  {
  }

  /** The configuration the request asks for. */
  function Proposed(env: Config, c: Config, req: Request): Config {
    TakeF2B(TakeIgnore(TakeAutoBan(TakeGeneral(TakeNotify(env, c, req), req), req), req), req)
  }

  function TakeNotify(env: Config, c: Config, req: Request): Config {
    c.(notify := ProposedNotify(env, c.notify, req, {}),
       rules := if req.rules.Some? && env.rules == [] then ListOf(req.rules.value) else c.rules)
  }

  function TakeGeneral(c: Config, req: Request): Config {
    c.(retention := Positive(req.retention, c.retention), language := Or(req.language, c.language))
  }

  function TakeAutoBan(c: Config, req: Request): Config {
    c.(autoBan := Or(req.autoBan, c.autoBan), threshold := Positive(req.threshold, c.threshold),
       window := Or(req.window, c.window), banTime := Or(req.banTime, c.banTime))
  }

  function TakeIgnore(c: Config, req: Request): Config {
    if req.ignoreIPs.Some? then c.(extraIgnore := ListOf(req.ignoreIPs.value)) else c
  }

  function TakeF2B(c: Config, req: Request): Config {
    c.(maxRetry := Or(req.maxRetry, c.maxRetry), f2bBanTime := Or(req.f2bBanTime, c.f2bBanTime),
       f2bFindTime := Or(req.f2bFindTime, c.f2bFindTime))
  }

  /** next is c with what the request names taken over, field by field: a channel or the rules unless the
      environment sets them, the retention and the threshold if positive, everything else as it is
      given. */
  ghost predicate Asked(env: Config, c: Config, req: Request, next: Config) {
    && next.notify.Keys == c.notify.Keys
    && (forall ch :: ch in c.notify ==>
          next.notify[ch] == if ch in req.notify && req.notify[ch].Some? && ch in env.notify && env.notify[ch] == ""
                             then req.notify[ch].value else c.notify[ch])
    && next.rules == (if req.rules.Some? && env.rules == [] then ListOf(req.rules.value) else c.rules)
    && next.extraIgnore == (if req.ignoreIPs.Some? then ListOf(req.ignoreIPs.value) else c.extraIgnore)
    && next.retention == (if req.retention.Some? && req.retention.value > 0 then req.retention.value else c.retention)
    && next.language == (if req.language.Some? then req.language.value else c.language)
    && next.autoBan == (if req.autoBan.Some? then req.autoBan.value else c.autoBan)
    && next.threshold == (if req.threshold.Some? && req.threshold.value > 0 then req.threshold.value else c.threshold)
    && next.window == (if req.window.Some? then req.window.value else c.window)
    && next.banTime == (if req.banTime.Some? then req.banTime.value else c.banTime)
    && next.maxRetry == (if req.maxRetry.Some? then req.maxRetry.value else c.maxRetry)
    && next.f2bBanTime == (if req.f2bBanTime.Some? then req.f2bBanTime.value else c.f2bBanTime)
    && next.f2bFindTime == (if req.f2bFindTime.Some? then req.f2bFindTime.value else c.f2bFindTime)
  }

  /** When a request is saved, with the bounds and the surroundings written out. */
  ghost predicate Saveable(env: Config, c: Config, req: Request, w: World, p: NetParsers) {
    && (forall ch :: ch in req.notify ==> req.notify[ch].Some?)
    && (req.language.Some? ==> req.language.value == "en" || req.language.value == "ru")
    && (req.window.Some? ==> w.duration(req.window.value))
    && (req.banTime.Some? ==> 0 <= req.banTime.value <= 31_536_000)
    && (req.ignoreIPs.Some? ==>
          forall e :: e in ListOf(req.ignoreIPs.value) ==> p.cidr(e).Some? || p.ip(e).Some?)
    && (req.maxRetry.Some? ==> 1 <= req.maxRetry.value <= 100)
    && (req.f2bBanTime.Some? ==> 60 <= req.f2bBanTime.value <= 7_776_000)
    && (req.f2bFindTime.Some? ==> 60 <= req.f2bFindTime.value <= 604_800)
    && (forall next :: Asked(env, c, req, next) ==> w.usable(next))
    && (req.maxRetry.Some? || req.f2bBanTime.Some? || req.f2bFindTime.Some? ==> w.f2bUp && w.f2bApplies)
    && (w.commits || !Writes(env, req))
  }

  /** Something of the request goes to the settings table, whether or not it takes effect. */
  ghost predicate Writes(env: Config, req: Request) {
    || (exists ch :: ch in req.notify && req.notify[ch].Some? && ch in env.notify && env.notify[ch] == "")
    || (req.rules.Some? && env.rules == []) || req.ignoreIPs.Some? || req.retention.Some? || req.language.Some?
    || req.autoBan.Some? || req.threshold.Some? || req.window.Some? || req.banTime.Some?
    || req.maxRetry.Some? || req.f2bBanTime.Some? || req.f2bFindTime.Some?
  }

  /** The request asks for exactly one configuration. */
  lemma ProposedIsAsked(env: Config, c: Config, req: Request, next: Config)
    ensures Asked(env, c, req, next) <==> next == Proposed(env, c, req)
  {
    hide ListOf;
    Eta(next);
    Eta(Proposed(env, c, req));
    if Asked(env, c, req, next) {
      assert next.notify == Proposed(env, c, req).notify;
    }
  }

  lemma SavesSomething(env: Config, p: Config, req: Request)
    ensures Saves(env, p, req) != map[] <==> Writes(env, req)
  {
    hide FormatInt, Join, ListOf;
    EarlySaveIs(env, p, req);
    LaterSaves(EarlySaves(env, p, req), p, req);
  }

  lemma EarlySaveIs(env: Config, p: Config, req: Request)
    ensures EarlySaves(env, p, req) != map[] <==>
            || (exists ch :: ch in req.notify && req.notify[ch].Some? && ch in env.notify && env.notify[ch] == "")
            || (req.rules.Some? && env.rules == []) || req.ignoreIPs.Some?
  {
    hide Join;
    var m := ChannelSaves(env, req, {});
    if ch :| ch in req.notify && req.notify[ch].Some? && ch in env.notify && env.notify[ch] == "" {
      assert Notify(ch) in m;
    }
    forall k | k in m ensures exists ch :: ch in req.notify && req.notify[ch].Some? && ch in env.notify && env.notify[ch] == "" {
      assert SetsChannel(env, req, k.channel);
    }
    assert NotifyRules in m[NotifyRules := Or(req.rules, "")];
    var rules := Put(m, NotifyRules, req.rules.Some? && env.rules == [], Or(req.rules, ""));
    assert IgnoreIPs in rules[IgnoreIPs := Join(p.extraIgnore, ',')];
    assert (forall k :: k !in m) ==> m == map[];
  }

  lemma LaterSaves(m: Stored, p: Config, req: Request)
    ensures AutoBanSaves(GeneralSaves(F2BSaves(m, p, req), p, req), p, req) != map[] <==>
            || m != map[] || req.retention.Some? || req.language.Some? || req.autoBan.Some? || req.threshold.Some?
            || req.window.Some? || req.banTime.Some? || req.maxRetry.Some? || req.f2bBanTime.Some? || req.f2bFindTime.Some?
  {
    hide FormatInt, Put;
    forall s: Stored, k, given, v: string ensures Put(s, k, given, v) != map[] <==> s != map[] || given {
      PutsSomething(s, k, given, v);
    }
  }

  lemma PutsSomething(m: Stored, k: Setting, given: bool, v: string)
    ensures Put(m, k, given, v) != map[] <==> m != map[] || given
  {
    assert k in m[k := v];
  }

  function Put(m: Stored, k: Setting, given: bool, v: string): Stored { if given then m[k := v] else m }

  /** What the request writes to the settings table; p is the proposed configuration. */
  function EarlySaves(env: Config, p: Config, req: Request): Stored {
    var m := ChannelSaves(env, req, {});
    var m := Put(m, NotifyRules, req.rules.Some? && env.rules == [], Or(req.rules, ""));
    Put(m, IgnoreIPs, req.ignoreIPs.Some?, Join(p.extraIgnore, ','))
  }

  function F2BSaves(m: Stored, p: Config, req: Request): Stored {
    var m := Put(m, F2BMaxRetry, req.maxRetry.Some?, FormatInt(p.maxRetry));
    var m := Put(m, F2BBanTime, req.f2bBanTime.Some?, FormatInt(p.f2bBanTime));
    Put(m, F2BFindTime, req.f2bFindTime.Some?, FormatInt(p.f2bFindTime))
  }

  function GeneralSaves(m: Stored, p: Config, req: Request): Stored {
    var m := Put(m, RetentionDays, req.retention.Some?, FormatInt(p.retention));
    var m := Put(m, Language, req.language.Some?, p.language);
    Put(m, AutoBanEnabled, req.autoBan.Some?, if p.autoBan then "true" else "false")
  }

  function AutoBanSaves(m: Stored, p: Config, req: Request): Stored {
    var m := Put(m, AutoBanThreshold, req.threshold.Some?, FormatInt(p.threshold));
    var m := Put(m, AutoBanWindow, req.window.Some?, p.window);
    Put(m, AutoBanBanTime, req.banTime.Some?, FormatInt(p.banTime))
  }

  function Saves(env: Config, p: Config, req: Request): Stored {
    AutoBanSaves(GeneralSaves(F2BSaves(EarlySaves(env, p, req), p, req), p, req), p, req)
  }

  // ----- coherence -----

  function Pick(given: bool, v: string, before: string): string { if given then v else before }

  /** What a key holds after a request, given what it held before. */
  function After(env: Config, p: Config, req: Request, k: Setting, before: string): string {
    match k
    case Notify(ch) => if SetsChannel(env, req, ch) then req.notify[ch].value else before
    case NotifyRules => Pick(req.rules.Some? && env.rules == [], Or(req.rules, ""), before)
    case IgnoreIPs => Pick(req.ignoreIPs.Some?, Join(p.extraIgnore, ','), before)
    case RetentionDays => Pick(req.retention.Some?, FormatInt(p.retention), before)
    case Language => Pick(req.language.Some?, p.language, before)
    case AutoBanEnabled => Pick(req.autoBan.Some?, if p.autoBan then "true" else "false", before)
    case AutoBanThreshold => Pick(req.threshold.Some?, FormatInt(p.threshold), before)
    case AutoBanWindow => Pick(req.window.Some?, p.window, before)
    case AutoBanBanTime => Pick(req.banTime.Some?, FormatInt(p.banTime), before)
    case F2BMaxRetry => Pick(req.maxRetry.Some?, FormatInt(p.maxRetry), before)
    case F2BBanTime => Pick(req.f2bBanTime.Some?, FormatInt(p.f2bBanTime), before)
    case F2BFindTime => Pick(req.f2bFindTime.Some?, FormatInt(p.f2bFindTime), before)
  }

  lemma PutGet(db: Stored, m: Stored, k: Setting, given: bool, v: string, x: Setting)
    ensures Get(db + Put(m, k, given, v), x) == if x == k && given then v else Get(db + m, x)
  {
  }

  lemma EarlyValue(env: Config, p: Config, req: Request, db: Stored, x: Setting)
    ensures Get(db + EarlySaves(env, p, req), x) ==
            if x.Notify? || x.NotifyRules? || x.IgnoreIPs? then After(env, p, req, x, Get(db, x)) else Get(db, x)
  {
    hide FormatInt, Join, Put;
    var m := ChannelSaves(env, req, {});
    assert Get(db + m, x) == if x.Notify? && SetsChannel(env, req, x.channel) then req.notify[x.channel].value else Get(db, x);
    var given := req.rules.Some? && env.rules == [];
    PutGet(db, m, NotifyRules, given, Or(req.rules, ""), x);
    PutGet(db, Put(m, NotifyRules, given, Or(req.rules, "")), IgnoreIPs, req.ignoreIPs.Some?, Join(p.extraIgnore, ','), x);
  }

  lemma F2BValue(m0: Stored, p: Config, req: Request, env: Config, db: Stored, x: Setting)
    ensures Get(db + F2BSaves(m0, p, req), x) ==
            if x.F2BMaxRetry? || x.F2BBanTime? || x.F2BFindTime? then After(env, p, req, x, Get(db + m0, x))
            else Get(db + m0, x)
  {
    hide FormatInt, Put, Get;
    PutGet(db, m0, F2BMaxRetry, req.maxRetry.Some?, FormatInt(p.maxRetry), x);
    var m1 := Put(m0, F2BMaxRetry, req.maxRetry.Some?, FormatInt(p.maxRetry));
    PutGet(db, m1, F2BBanTime, req.f2bBanTime.Some?, FormatInt(p.f2bBanTime), x);
    var m2 := Put(m1, F2BBanTime, req.f2bBanTime.Some?, FormatInt(p.f2bBanTime));
    PutGet(db, m2, F2BFindTime, req.f2bFindTime.Some?, FormatInt(p.f2bFindTime), x);
  }

  lemma GeneralValue(m0: Stored, p: Config, req: Request, env: Config, db: Stored, x: Setting)
    ensures Get(db + GeneralSaves(m0, p, req), x) ==
            if x.RetentionDays? || x.Language? || x.AutoBanEnabled? then After(env, p, req, x, Get(db + m0, x))
            else Get(db + m0, x)
  {
    hide FormatInt, Put, Get;
    PutGet(db, m0, RetentionDays, req.retention.Some?, FormatInt(p.retention), x);
    var m1 := Put(m0, RetentionDays, req.retention.Some?, FormatInt(p.retention));
    PutGet(db, m1, Language, req.language.Some?, p.language, x);
    var m2 := Put(m1, Language, req.language.Some?, p.language);
    PutGet(db, m2, AutoBanEnabled, req.autoBan.Some?, if p.autoBan then "true" else "false", x);
  }

  lemma AutoBanValue(m0: Stored, p: Config, req: Request, env: Config, db: Stored, x: Setting)
    ensures Get(db + AutoBanSaves(m0, p, req), x) ==
            if x.AutoBanThreshold? || x.AutoBanWindow? || x.AutoBanBanTime? then After(env, p, req, x, Get(db + m0, x))
            else Get(db + m0, x)
  {
    hide FormatInt, Put, Get;
    PutGet(db, m0, AutoBanThreshold, req.threshold.Some?, FormatInt(p.threshold), x);
    var m1 := Put(m0, AutoBanThreshold, req.threshold.Some?, FormatInt(p.threshold));
    PutGet(db, m1, AutoBanWindow, req.window.Some?, p.window, x);
    var m2 := Put(m1, AutoBanWindow, req.window.Some?, p.window);
    PutGet(db, m2, AutoBanBanTime, req.banTime.Some?, FormatInt(p.banTime), x);
  }

  /** The stored value of each key after a request, read off key by key. */
  lemma SavedValue(env: Config, p: Config, req: Request, db: Stored, x: Setting)
    ensures Get(db + Saves(env, p, req), x) == After(env, p, req, x, Get(db, x))
  {
    hide Get, After, EarlySaves, F2BSaves, GeneralSaves, AutoBanSaves;
    var m1 := EarlySaves(env, p, req);
    var m2 := F2BSaves(m1, p, req);
    EarlyValue(env, p, req, db, x);
    F2BValue(m1, p, req, env, db, x);
    GeneralValue(m2, p, req, env, db, x);
    AutoBanValue(GeneralSaves(m2, p, req), p, req, env, db, x);
  }

  lemma SavedValues(env: Config, p: Config, req: Request, db: Stored)
    ensures forall x :: Get(db + Saves(env, p, req), x) == After(env, p, req, x, Get(db, x))
  {
    hide Get, After, Saves;
    forall x ensures Get(db + Saves(env, p, req), x) == After(env, p, req, x, Get(db, x)) {
      SavedValue(env, p, req, db, x);
    }
  }

  /** A printed number that the overlay accepts comes back as itself. */
  lemma IntReturns(current: int, n: int, least: int)
    requires IsInt64(n)
    ensures OverlayInt(current, FormatInt(n), least) == if n >= least then n else current
  {
    DecimalRoundTrip(n);
  }

  /** In a coherent configuration the two numbers that are saved back unchanged are positive. */
  lemma OverlayPositive(env: Config, db: Stored)
    requires ValidEnv(env)
    ensures var c := Overlay(env, db);
            c.retention >= 1 && c.threshold >= 1 && IsInt64(c.retention) && IsInt64(c.threshold)
  {
  }

  /** An accepted request keeps the live configuration equal to what a restart would build. */
  lemma SaveIsCoherent(env: Config, db: Stored, req: Request, w: World, p: NetParsers)
    requires ValidEnv(env) && req.InRange() && WellFormed(req, w, p) && !w.duration("")
    ensures var c := Overlay(env, db);
            var next := Proposed(env, c, req);
            Overlay(env, db + Saves(env, next, req)) == next
  {
    hide FormatInt, Join, ListOf, SetsChannel, Saves, OverlayInt, Get, Overlay, WellFormed, Proposed;
    var c := Overlay(env, db);
    var next := Proposed(env, c, req);
    var after := Overlay(env, db + Saves(env, next, req));
    SavedValues(env, next, req, db);
    OverlayPositive(env, db);
    CoherentLists(env, db, req);
    CoherentChoices(env, db, req, w, p);
    CoherentInts(env, db, req, w, p);
    assert after == next by {
      Eta(after);
      Eta(next);
    }
  }

  lemma CoherentLists(env: Config, db: Stored, req: Request)
    ensures var next := Proposed(env, Overlay(env, db), req);
            var after := Overlay(env, db + Saves(env, next, req));
            && after.notify == next.notify && after.rules == next.rules && after.extraIgnore == next.extraIgnore
  {
    hide FormatInt, Join, ListOf, Saves, OverlayInt, OverlayLanguage, OverlayFlag, OverlayWindow, Get;
    var next := Proposed(env, Overlay(env, db), req);
    SavedValues(env, next, req, db);
    if req.ignoreIPs.Some? {
      SplitListRoundTrip(req.ignoreIPs.value);
    }
  }

  lemma CoherentChoices(env: Config, db: Stored, req: Request, w: World, p: NetParsers)
    requires WellFormed(req, w, p) && !w.duration("")
    ensures var next := Proposed(env, Overlay(env, db), req);
            var after := Overlay(env, db + Saves(env, next, req));
            && after.language == next.language && after.autoBan == next.autoBan && after.window == next.window
  {
    hide FormatInt, Join, ListOf, Saves, OverlayInt, OverlayNotify, OverlayList, Get, SetsChannel, AllReadable;
    var next := Proposed(env, Overlay(env, db), req);
    SavedValues(env, next, req, db);
  }

  lemma CoherentInts(env: Config, db: Stored, req: Request, w: World, p: NetParsers)
    requires ValidEnv(env) && req.InRange() && WellFormed(req, w, p)
    ensures var next := Proposed(env, Overlay(env, db), req);
            var after := Overlay(env, db + Saves(env, next, req));
            && after.retention == next.retention && after.threshold == next.threshold && after.banTime == next.banTime
            && after.maxRetry == next.maxRetry && after.f2bBanTime == next.f2bBanTime && after.f2bFindTime == next.f2bFindTime
  {
    hide FormatInt, Join, ListOf, Saves, OverlayInt, Get, SetsChannel, AllReadable, Supported, OverlayNotify;
    hide OverlayList, OverlayLanguage, OverlayFlag, OverlayWindow, ProposedNotify;
    var next := Proposed(env, Overlay(env, db), req);
    SavedValues(env, next, req, db);
    OverlayPositive(env, db);
    IntReturns(env.retention, next.retention, 1);
    IntReturns(env.threshold, next.threshold, 1);
    if req.banTime.Some? { IntReturns(env.banTime, next.banTime, 0); }
    if req.maxRetry.Some? { IntReturns(env.maxRetry, next.maxRetry, 1); }
    if req.f2bBanTime.Some? { IntReturns(env.f2bBanTime, next.f2bBanTime, 1); }
    if req.f2bFindTime.Some? { IntReturns(env.f2bFindTime, next.f2bFindTime, 1); }
  }

  /** What the allowlist makes of the extra entries: all of them, or none if one is unreadable. */
  ghost function Effective(p: NetParsers, entries: seq<string>): seq<string> {
    if AllReadable(p, entries) then entries else []
  }

  /** When a request is accepted. */
  ghost predicate Accepts(env: Config, c: Config, req: Request, w: World, p: NetParsers) {
    var next := Proposed(env, c, req);
    && WellFormed(req, w, p) && w.usable(next)
    && (req.TouchesF2B() ==> w.f2bUp && w.f2bApplies)
    && (Saves(env, next, req) != map[] ==> w.commits)
  }

  lemma AcceptsIsSaveable(env: Config, c: Config, req: Request, w: World, p: NetParsers)
    ensures Accepts(env, c, req, w, p) <==> Saveable(env, c, req, w, p)
  {
    hide ListOf, Proposed, Saves, Asked, Writes;
    var next := Proposed(env, c, req);
    forall x ensures Asked(env, c, req, x) <==> x == next {
      ProposedIsAsked(env, c, req, x);
    }
    SavesSomething(env, next, req);
    if req.ignoreIPs.Some? {
      ReadableMeans(p, ListOf(req.ignoreIPs.value));
    }
  }

  lemma ReadableMeans(p: NetParsers, entries: seq<string>)
    ensures AllReadable(p, entries) <==> forall e :: e in entries ==> p.cidr(e).Some? || p.ip(e).Some?
  {
    if AllReadable(p, entries) {
      forall e | e in entries ensures p.cidr(e).Some? || p.ip(e).Some? {
        var i :| 0 <= i < |entries| && entries[i] == e;
        assert Readable(p, entries[i]);
      }
    }
  }

  class Server {
    const env: Config
    const live: Live
    const allowlist: Allowlist
    var db: Stored
    /** The notification fields the running dispatcher was built from. */
    var dispatched: (map<Channel, string>, seq<string>)

    ghost predicate Valid()
      reads allowlist
    {
      ValidEnv(env) && allowlist.Valid()
    }

    /** The live fields, the live allowlist and the running dispatcher are what a restart would
        build from the environment and the store. */
    ghost predicate Coherent()
      reads this, live, allowlist
    {
      && live.Value() == Overlay(env, db)
      && allowlist.extraEntries == Effective(allowlist.parsers, live.extraIgnore)
      && dispatched == (live.notify, live.rules)
    }

    /** Boot. readable: whether the settings table could be read; if not, the environment stands
        alone. */
    constructor (env: Config, db: Stored, allowlist: Allowlist, readable: bool)
      requires ValidEnv(env) && allowlist.Valid() && allowlist.extraEntries == []
      modifies allowlist
      ensures this.env == env && this.allowlist == allowlist && this.db == db && fresh(live)
      ensures Valid() && allowlist.entries == old(allowlist.entries)
      ensures readable || env.extraIgnore == [] ==> (Coherent() <==> readable || Overlay(env, db) == env)
    {
      hide Overlay, AllReadable, StandsFor;
      var c := new Live(env);
      if readable {
        c.OverlaySettings(db);
      }
      this.env, this.db, this.live, this.allowlist := env, db, c, allowlist;
      this.dispatched := (c.notify, c.rules);
      new;
      assert Effective(allowlist.parsers, []) == [];
      if c.extraIgnore != [] {
        var _ := allowlist.SetExtra(c.extraIgnore);
      }
    }

    /** The channel part of a request, in whatever order the fields come. */
    method ProposeChannels(req: Request, c: Config) returns (notify: map<Channel, string>, toSave: Stored, ok: bool)
      requires HasChannels(env.notify) && HasChannels(c.notify)
      ensures ok <==> forall ch :: ch in req.notify ==> req.notify[ch].Some?
      ensures ok ==> notify == ProposedNotify(env, c.notify, req, {}) && toSave == ChannelSaves(env, req, {})
    {
      hide SetsChannel, ProposedNotify, ChannelSaves;
      notify, toSave := c.notify, map[];
      NothingTaken(env, notify, req);
      var todo := req.notify.Keys;
      while todo != {}
        invariant todo <= req.notify.Keys
        invariant forall ch :: ch in req.notify && ch !in todo ==> req.notify[ch].Some?
        invariant notify == ProposedNotify(env, c.notify, req, todo)
        invariant toSave == ChannelSaves(env, req, todo)
      {
        var ch :| ch in todo;
        if req.notify[ch].None? {
          return notify, toSave, false;
        }
        ChannelTaken(env, c.notify, req, todo, ch);
        ChannelSaved(env, req, todo, ch);
        SetsIfUnpinned(env, req, ch);
        todo := todo - {ch};
        if env.notify[ch] != "" {
          continue;
        }
        notify := notify[ch := req.notify[ch].value];
        toSave := toSave[Notify(ch) := req.notify[ch].value];
      }
      ok := true;
    }

    method ProposeGeneral(req: Request, c: Config) returns (p: Config, ok: bool)
      ensures ok <==> (req.language.Some? ==> Supported(req.language.value))
      ensures ok ==> p == TakeGeneral(c, req)
    {
      p, ok := c, false;
      if req.retention.Some? && req.retention.value > 0 {
        p := p.(retention := req.retention.value);
      }
      if req.language.Some? {
        if !Supported(req.language.value) {
          return;
        }
        p := p.(language := req.language.value);
      }
      ok := true;
    }

    method ProposeAutoBan(req: Request, w: World, c: Config) returns (p: Config, ok: bool)
      ensures ok <==> AutoBanOK(req, w)
      ensures ok ==> p == TakeAutoBan(c, req)
    {
      p, ok := c, false;
      if req.autoBan.Some? {
        p := p.(autoBan := req.autoBan.value);
      }
      if req.threshold.Some? && req.threshold.value > 0 {
        p := p.(threshold := req.threshold.value);
      }
      if req.window.Some? {
        if !w.duration(req.window.value) {
          return;
        }
        p := p.(window := req.window.value);
      }
      if req.banTime.Some? {
        if req.banTime.value < 0 || req.banTime.value > MAX_BAN_SECS {
          return;
        }
        p := p.(banTime := req.banTime.value);
      }
      ok := true;
    }

    method ProposeF2B(req: Request, c: Config) returns (p: Config, ok: bool)
      ensures ok <==> F2BOK(req)
      ensures ok ==> p == TakeF2B(c, req)
    {
      p, ok := c, false;
      if req.maxRetry.Some? {
        if req.maxRetry.value < 1 || req.maxRetry.value > 100 {
          return;
        }
        p := p.(maxRetry := req.maxRetry.value);
      }
      if req.f2bBanTime.Some? {
        if req.f2bBanTime.value < 60 || req.f2bBanTime.value > 90 * 24 * 3600 {
          return;
        }
        p := p.(f2bBanTime := req.f2bBanTime.value);
      }
      if req.f2bFindTime.Some? {
        if req.f2bFindTime.value < 60 || req.f2bFindTime.value > 7 * 24 * 3600 {
          return;
        }
        p := p.(f2bFindTime := req.f2bFindTime.value);
      }
      ok := true;
    }

    /** The request's checks, in the order the handler makes them, and the configuration and the
        first writes they yield. */
    method Propose(req: Request, w: World, c: Config) returns (p: Config, toSave: Stored, ok: bool)
      requires HasChannels(env.notify) && HasChannels(c.notify) && allowlist.parsers.Sound()
      ensures ok <==> WellFormed(req, w, allowlist.parsers)
      ensures ok ==> p == Proposed(env, c, req) && toSave == EarlySaves(env, p, req)
    {
      hide ProposedNotify, ChannelSaves, SetsChannel, AllReadable, ListOf, Join, HasChannels, AutoBanOK, F2BOK, TakeGeneral,
        TakeAutoBan, Supported;
      p, toSave, ok := c, map[], false;
      var notify, saves, strings := ProposeChannels(req, c);
      if !strings {
        return;
      }
      p, toSave := p.(notify := notify), saves;
      if req.rules.Some? && env.rules == [] {
        var rules := SplitList(req.rules.value);
        p, toSave := p.(rules := rules), toSave[NotifyRules := req.rules.value];
      }
      assert p == TakeNotify(env, c, req);
      p, ok := ProposeGeneral(req, p);
      if !ok {
        return;
      }
      p, ok := ProposeAutoBan(req, w, p);
      if !ok {
        return;
      }
      if req.ignoreIPs.Some? {
        var entries := SplitList(req.ignoreIPs.value);
        var parsed := ParseAllowlist(allowlist.parsers, entries);
        if parsed.None? {
          return p, toSave, false;
        }
        p, toSave := p.(extraIgnore := entries), toSave[IgnoreIPs := Join(entries, ',')];
      }
      p, ok := ProposeF2B(req, p);
    }

    /** The writes that follow once fail2ban has taken its values. */
    method CollectF2B(req: Request, p: Config, early: Stored) returns (toSave: Stored)
      ensures toSave == F2BSaves(early, p, req)
    {
      toSave := early;
      if req.maxRetry.Some? {
        toSave := toSave[F2BMaxRetry := FormatInt(p.maxRetry)];
      }
      if req.f2bBanTime.Some? {
        toSave := toSave[F2BBanTime := FormatInt(p.f2bBanTime)];
      }
      if req.f2bFindTime.Some? {
        toSave := toSave[F2BFindTime := FormatInt(p.f2bFindTime)];
      }
    }

    method CollectGeneral(req: Request, p: Config, early: Stored) returns (toSave: Stored)
      ensures toSave == GeneralSaves(early, p, req)
    {
      toSave := early;
      if req.retention.Some? {
        toSave := toSave[RetentionDays := FormatInt(p.retention)];
      }
      if req.language.Some? {
        toSave := toSave[Language := p.language];
      }
      if req.autoBan.Some? {
        if p.autoBan {
          toSave := toSave[AutoBanEnabled := "true"];
        } else {
          toSave := toSave[AutoBanEnabled := "false"];
        }
      }
    }

    method CollectAutoBan(req: Request, p: Config, early: Stored) returns (toSave: Stored)
      ensures toSave == AutoBanSaves(early, p, req)
    {
      toSave := early;
      if req.threshold.Some? {
        toSave := toSave[AutoBanThreshold := FormatInt(p.threshold)];
      }
      if req.window.Some? {
        toSave := toSave[AutoBanWindow := p.window];
      }
      if req.banTime.Some? {
        toSave := toSave[AutoBanBanTime := FormatInt(p.banTime)];
      }
    }

    /** handlePostSettings: check, try out, persist, apply. A request that is not saved changes
        nothing; one that is keeps the live state what a restart would build. */
    method HandlePost(req: Request, w: World) returns (r: Status)
      requires Valid() && Coherent() && req.InRange() && !w.duration("")
      modifies this, live, allowlist
      ensures Valid() && Coherent()
      ensures allowlist.entries == old(allowlist.entries)
      ensures r == Saved <==> Accepts(env, old(live.Value()), req, w, allowlist.parsers)
      ensures r == Saved <==> Saveable(env, old(live.Value()), req, w, allowlist.parsers)
      ensures r == Saved ==> Asked(env, old(live.Value()), req, live.Value())
      ensures r == Saved ==> live.Value() == Proposed(env, old(live.Value()), req)
      ensures r == Saved ==> db == old(db) + Saves(env, Proposed(env, old(live.Value()), req), req)
      ensures r != Saved ==> live.Value() == old(live.Value()) && db == old(db) && dispatched == old(dispatched)
                             && allowlist.extraEntries == old(allowlist.extraEntries)
    {
      hide Saveable, Asked, Proposed, WellFormed, Overlay, EarlySaves, F2BSaves, GeneralSaves, AutoBanSaves, AllReadable,
        StandsFor, ValidEnv;
      var c := live.Value();
      AcceptsIsSaveable(env, c, req, w, allowlist.parsers);
      ProposedIsAsked(env, c, req, Proposed(env, c, req));
      OverlayHasChannels(env, db);
      var p, early, ok := Propose(req, w, c);
      if !ok {
        return BadRequest;
      }
      if !w.usable(p) {
        return BadRequest;
      }
      if req.TouchesF2B() {
        if !w.f2bUp {
          return BadGateway;
        }
        if !w.f2bApplies {
          return BadGateway;
        }
      }
      var toSave := CollectF2B(req, p, early);
      toSave := CollectGeneral(req, p, toSave);
      toSave := CollectAutoBan(req, p, toSave);
      assert toSave == Saves(env, p, req);
      SaveIsCoherent(env, db, req, w, allowlist.parsers);
      UntouchedNotify(env, c, req, w, allowlist.parsers);
      if toSave != map[] {
        if !w.commits {
          return ServerError;
        }
        db := db + toSave;
      } else {
        assert db + toSave == db;
      }
      Apply(p);
      if req.ignoreIPs.Some? {
        var _ := allowlist.SetExtra(p.extraIgnore);
      }
      if req.TouchesNotify() {
        dispatched := (p.notify, p.rules);
      }
      return Saved;
    }

    method Apply(p: Config)
      modifies live
      ensures live.Value() == p
    {
      live.notify, live.rules, live.retention, live.language := p.notify, p.rules, p.retention, p.language;
      live.autoBan, live.threshold, live.window, live.banTime := p.autoBan, p.threshold, p.window, p.banTime;
      live.extraIgnore := p.extraIgnore;
      live.maxRetry, live.f2bBanTime, live.f2bFindTime := p.maxRetry, p.f2bBanTime, p.f2bFindTime;
    }
  }

  lemma OverlayHasChannels(env: Config, db: Stored)
    requires ValidEnv(env)
    ensures HasChannels(env.notify) && HasChannels(Overlay(env, db).notify)
  {
  }

  /** A request without notification fields leaves them alone, and its allowlist entries are
      readable. */
  lemma UntouchedNotify(env: Config, c: Config, req: Request, w: World, p: NetParsers)
    requires WellFormed(req, w, p)
    ensures var next := Proposed(env, c, req);
            && (!req.TouchesNotify() ==> next.notify == c.notify && next.rules == c.rules)
            && (if req.ignoreIPs.Some? then AllReadable(p, next.extraIgnore) else next.extraIgnore == c.extraIgnore)
  {
  }

  // ----- any number of requests -----

  /** The live configuration and the settings table. */
  datatype Pair = Pair(live: Config, db: Stored)

  ghost function Post(env: Config, s: Pair, req: Request, w: World, p: NetParsers): Pair {
    if Accepts(env, s.live, req, w, p) then
      var next := Proposed(env, s.live, req);
      Pair(next, s.db + Saves(env, next, req))
    else s
  }

  ghost function PostAll(env: Config, s: Pair, posts: seq<(Request, World)>, p: NetParsers): Pair {
    if posts == [] then s
    else
      var last := posts[|posts| - 1];
      Post(env, PostAll(env, s, posts[..|posts| - 1], p), last.0, last.1, p)
  }

  /** The request at n was saved and named the field. */
  ghost predicate TookAt<T>(env: Config, s: Pair, posts: seq<(Request, World)>, p: NetParsers, ask: Request -> Option<T>, n: nat) {
    n < |posts| && ask(posts[n].0).Some? && Saveable(env, PostAll(env, s, posts[..n], p).live, posts[n].0, posts[n].1, p)
  }

  /** Whatever a saved request says of the field holds afterwards, and nothing else changes it. */
  ghost predicate IsField<T>(env: Config, get: Config -> T, ask: Request -> Option<T>) {
    forall c: Config, req, next :: HasChannels(c.notify) && Asked(env, c, req, next) ==>
      get(next) == if ask(req).Some? then ask(req).value else get(c)
  }

  lemma PostTakes<T>(env: Config, s: Pair, req: Request, w: World, p: NetParsers, get: Config -> T, ask: Request -> Option<T>)
    requires IsField(env, get, ask) && HasChannels(s.live.notify)
    ensures get(Post(env, s, req, w, p).live) ==
            if Saveable(env, s.live, req, w, p) && ask(req).Some? then ask(req).value else get(s.live)
  {
    hide Saveable, Asked, Accepts, Proposed, Saves, HasChannels;
    var next := Proposed(env, s.live, req);
    AcceptsIsSaveable(env, s.live, req, w, p);
    ProposedIsAsked(env, s.live, req, next);
  }

  /** The last saved request that named the field, if there is one. */
  ghost predicate LastTook<T>(env: Config, s: Pair, posts: seq<(Request, World)>, p: NetParsers, ask: Request -> Option<T>,
                              last: Option<nat>)
  {
    && (last.Some? ==> TookAt(env, s, posts, p, ask, last.value))
    && forall m: nat :: m < |posts| && (last.Some? ==> last.value < m) ==> !TookAt(env, s, posts, p, ask, m)
  }

  /** After any sequence of requests, saved or not, a field is what the last saved request that named it
      said, and as it was if there is none. */
  lemma {:induction false} LastPostDecides<T>(env: Config, s: Pair, posts: seq<(Request, World)>, p: NetParsers,
                                              get: Config -> T, ask: Request -> Option<T>, last: Option<nat>)
    requires IsField(env, get, ask) && HasChannels(s.live.notify) && LastTook(env, s, posts, p, ask, last)
    ensures last.Some? ==> last.value < |posts| && Some(get(PostAll(env, s, posts, p).live)) == ask(posts[last.value].0)
    ensures last.None? ==> get(PostAll(env, s, posts, p).live) == get(s.live)
  {
    hide IsField, Post, HasChannels, Saveable;
    if posts != [] {
      var init, k := posts[..|posts| - 1], |posts| - 1;
      ChannelsStay(env, s, init, p);
      PostTakes(env, PostAll(env, s, init, p), posts[k].0, posts[k].1, p, get, ask);
      TookGrows(env, s, posts, p, ask);
      hide TookAt;
      if last != Some(k) {
        LastPostDecides(env, s, init, p, get, ask, last);
      }
    }
  }

  lemma {:induction false} ChannelsStay(env: Config, s: Pair, posts: seq<(Request, World)>, p: NetParsers)
    requires HasChannels(s.live.notify)
    ensures HasChannels(PostAll(env, s, posts, p).live.notify)
  {
    hide HasChannels, Accepts, Proposed, Saves;
    if posts != [] {
      var before, last := PostAll(env, s, posts[..|posts| - 1], p), posts[|posts| - 1];
      ChannelsStay(env, s, posts[..|posts| - 1], p);
      ProposedIsAsked(env, before.live, last.0, Proposed(env, before.live, last.0));
      AskedHasChannels(env, before.live, last.0, Proposed(env, before.live, last.0));
    }
  }

  lemma AskedHasChannels(env: Config, c: Config, req: Request, next: Config)
    requires Asked(env, c, req, next) && HasChannels(c.notify)
    ensures HasChannels(next.notify)
  {
    hide ListOf;
  }

  lemma TookGrows<T>(env: Config, s: Pair, posts: seq<(Request, World)>, p: NetParsers, ask: Request -> Option<T>)
    requires posts != []
    ensures var init, k := posts[..|posts| - 1], |posts| - 1;
            && (forall n: nat :: n < k ==> (TookAt(env, s, posts, p, ask, n) <==> TookAt(env, s, init, p, ask, n)))
            && (forall n: nat :: n > k ==> !TookAt(env, s, posts, p, ask, n))
            && (forall n: nat :: n >= k ==> !TookAt(env, s, init, p, ask, n))
            && (TookAt(env, s, posts, p, ask, k) <==>
                ask(posts[k].0).Some? && Saveable(env, PostAll(env, s, init, p).live, posts[k].0, posts[k].1, p))
  {
    hide Saveable, PostAll;
    var init, k := posts[..|posts| - 1], |posts| - 1;
    assert posts[..k] == init;
    forall n: nat | n < k ensures TookAt(env, s, posts, p, ask, n) <==> TookAt(env, s, init, p, ask, n) {
      assert posts[..n] == init[..n] && posts[n] == init[n];
    }
  }

  /** All twelve are such fields. */
  lemma FieldsAre(env: Config)
    ensures IsField(env, (c: Config) => c.rules,
                    (r: Request) => if r.rules.Some? && env.rules == [] then Some(ListOf(r.rules.value)) else None)
    ensures IsField(env, (c: Config) => c.extraIgnore,
                    (r: Request) => if r.ignoreIPs.Some? then Some(ListOf(r.ignoreIPs.value)) else None)
    ensures IsField(env, (c: Config) => c.retention,
                    (r: Request) => if r.retention.Some? && r.retention.value > 0 then r.retention else None)
    ensures IsField(env, (c: Config) => c.threshold,
                    (r: Request) => if r.threshold.Some? && r.threshold.value > 0 then r.threshold else None)
    ensures IsField(env, (c: Config) => c.language, (r: Request) => r.language)
    ensures IsField(env, (c: Config) => c.autoBan, (r: Request) => r.autoBan)
    ensures IsField(env, (c: Config) => c.window, (r: Request) => r.window)
    ensures IsField(env, (c: Config) => c.banTime, (r: Request) => r.banTime)
    ensures IsField(env, (c: Config) => c.maxRetry, (r: Request) => r.maxRetry)
    ensures IsField(env, (c: Config) => c.f2bBanTime, (r: Request) => r.f2bBanTime)
    ensures IsField(env, (c: Config) => c.f2bFindTime, (r: Request) => r.f2bFindTime)
  {
  }

  lemma ChannelIsField(env: Config, ch: Channel)
    requires HasChannels(env.notify)
    ensures IsField(env, (c: Config) => if ch in c.notify then c.notify[ch] else "",
                    (r: Request) => if ch in r.notify && ch in env.notify && env.notify[ch] == "" then r.notify[ch] else None)
  {
  }

  /** After any sequence of requests, accepted or not, the live configuration is what a restart
      would build, and what the environment pins is as the environment says. */
  lemma {:induction false} PostsStayCoherent(env: Config, s: Pair, posts: seq<(Request, World)>, p: NetParsers)
    requires ValidEnv(env) && s.live == Overlay(env, s.db)
    requires forall i :: 0 <= i < |posts| ==> posts[i].0.InRange() && !posts[i].1.duration("")
    ensures var t := PostAll(env, s, posts, p);
            && t.live == Overlay(env, t.db)
            && (forall ch: Channel :: ch in env.notify && ch in t.live.notify && env.notify[ch] != "" ==>
                  t.live.notify[ch] == env.notify[ch])
            && (env.rules != [] ==> t.live.rules == env.rules)
  {
    hide Proposed, Saves, WellFormed, ListOf, OverlayInt, Request.InRange;
    if posts != [] {
      PostsStayCoherent(env, s, posts[..|posts| - 1], p);
      var before, last := PostAll(env, s, posts[..|posts| - 1], p), posts[|posts| - 1];
      assert posts[|posts| - 1].0.InRange() && !posts[|posts| - 1].1.duration("");
      if Accepts(env, before.live, last.0, last.1, p) {
        SaveIsCoherent(env, before.db, last.0, last.1, p);
      }
    }
  }
}
