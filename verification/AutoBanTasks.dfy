/** AutoBanEvent and ThreatBanEvent with their background tasks (internal/api/api.go), running on
    the cooldown entries, the semaphore and the ban path of Handlers. */
module AutoBanTasks {
  import opened Numbers
  import opened Store
  import opened AutoBan
  import opened Responder
  import Lifecycle
  import Handlers

  datatype Config = Config(enabled: bool, responderEnabled: bool, threshold: int, window: string, banTime: int,
                           blocklistAuto: bool)

  /** responder.IsPrivate, time.ParseDuration in seconds, and the clock. */
  datatype World = World(private: string -> bool, duration: string -> Option<int>, now: int)

  /** The allowlist covers an address. */
  ghost predicate Exempt(a: Allowlist, ip: string)
    requires a.Valid()
    reads a
  {
    a.parsers.ip(ip).Some? &&
    (AnyCovers(a.parsers, a.entries, a.parsers.ip(ip).value) || AnyCovers(a.parsers, a.extraEntries, a.parsers.ip(ip).value))
  }

  /** When an event starts a threshold check. */
  ghost predicate WantsCheck(a: Allowlist, norm: string -> string, ev: Store.Event, cfg: Config, w: World)
    requires a.Valid()
    reads a
  {
    && cfg.enabled && cfg.responderEnabled
    && ev.kind in {"failed_password", "http_auth_fail", "mail_auth_fail", "max_auth"}
    && norm(ev.ip) != "" && !w.private(norm(ev.ip)) && !Exempt(a, norm(ev.ip))
    && w.duration(cfg.window).Some? && cfg.threshold > 0
  }

  /** When an event starts a blocklist ban, whatever its type. */
  ghost predicate WantsBlock(a: Allowlist, norm: string -> string, ev: Store.Event, cfg: Config, w: World)
    requires a.Valid()
    reads a
  {
    && ev.threat != "" && cfg.blocklistAuto && cfg.responderEnabled
    && norm(ev.ip) != "" && !w.private(norm(ev.ip)) && !Exempt(a, norm(ev.ip))
  }

  /** What a call does with its claim, in the cooldown entries, the semaphore and the tasks: nothing
      while an entry stops it; else it starts a task of the given stage, if a slot is free. */
  ghost predicate Claims(before: State, after: State, key: Key, now: int, rearm: Option<int>, t: nat, stage: TaskStage,
                         launched: bool)
  {
    var stopped := key in before.cooldown && (rearm.None? || now - before.cooldown[key] < rearm.value);
    && (launched <==> !stopped && before.slots < 100)
    && after.slots == (if launched then before.slots + 1 else before.slots)
    && after.tasks == (if launched then before.tasks[t := Task(key, stage)] else before.tasks)
    && after.cooldown == if stopped then before.cooldown
                         else if launched then before.cooldown[key := now] else before.cooldown - {key}
  }

  /** What the end of a task leaves: its slot is free, and its address claimed only if it is banned. */
  ghost predicate Ends(before: State, after: State, t: nat, blocked: bool)
    requires t in before.tasks
  {
    && after.slots == (if before.slots > 0 then before.slots - 1 else 0) && after.tasks == before.tasks - {t}
    && after.cooldown == if blocked then before.cooldown else before.cooldown - {before.tasks[t].key}
  }

  class Banner {
    const server: Handlers.Server
    var cooldown: map<Key, int>
    var slots: nat
    var tasks: map<nat, Task>
    ghost var banned: set<Key>
    ghost var marks: seq<Mark>

    constructor (server: Handlers.Server)
      ensures this.server == server && Now() == IDLE
    {
      this.server := server;
      cooldown, slots, tasks, banned, marks := map[], 0, map[], {}, [];
    }

    /** The state between calls: no caller is on its way. */
    ghost function Now(): State
      reads this
    {
      State(cooldown, slots, map[], tasks, banned, marks)
    }

    method Delete(key: Key)
      modifies this`cooldown, this`marks
      ensures Now() == Release(old(Now()), key)
    {
      cooldown := cooldown - {key};
      marks := marks + [Released(key)];
    }

    /** LoadOrStore, Store and the select. t names the goroutine if one is started. */
    method Start(key: Key, now: int, rearm: Option<int>, t: nat) returns (launched: bool)
      requires t !in tasks
      modifies this
      ensures Now() == Launch(old(Now()), key, now, rearm, t)
      ensures Claims(old(Now()), Now(), key, now, rearm, t, if key.kind.Attempt? then Counting else Storing, launched)
      ensures launched <==> t in tasks
    {
      if key in cooldown {
        if rearm.None? || now - cooldown[key] < rearm.value {
          return false;
        }
      }
      cooldown, banned := cooldown[key := now], banned - {key};
      marks := marks + [Claimed(key, now, rearm)];
      if slots < SLOTS {
        slots := slots + 1;
        tasks := tasks[t := Task(key, FirstStage(key.kind))];
        return true;
      }
      Delete(key);
      return false;
    }

    method AutoBanEvent(ev: Store.Event, cfg: Config, w: World, t: nat) returns (launched: bool)
      requires server.allowlist.Valid() && t !in tasks
      modifies this
      ensures Now() == if WantsCheck(server.allowlist, server.firewall.norm, ev, cfg, w)
                       then Launch(old(Now()), Key(Attempt, server.firewall.norm(ev.ip)), w.now, w.duration(cfg.window), t)
                       else old(Now())
      ensures if WantsCheck(server.allowlist, server.firewall.norm, ev, cfg, w)
              then Claims(old(Now()), Now(), Key(Attempt, server.firewall.norm(ev.ip)), w.now, w.duration(cfg.window), t,
                          Counting, launched)
              else !launched
      ensures launched <==> t in tasks
    {
      hide Launch, AnyCovers, StandsFor;
      if !cfg.enabled || !cfg.responderEnabled {
        return false;
      }
      if ev.kind !in ATTEMPTS {
        return false;
      }
      var ip := server.firewall.norm(ev.ip);
      if ip == "" || w.private(ip) {
        return false;
      }
      var exempt := server.allowlist.Contains(ip);
      if exempt {
        return false;
      }
      var dur := w.duration(cfg.window);
      if dur.None? || cfg.threshold <= 0 {
        return false;
      }
      launched := Start(Key(Attempt, ip), w.now, dur, t);
    }

    method ThreatBanEvent(ev: Store.Event, cfg: Config, w: World, t: nat) returns (launched: bool)
      requires server.allowlist.Valid() && t !in tasks
      modifies this
      ensures Now() == if WantsBlock(server.allowlist, server.firewall.norm, ev, cfg, w)
                       then Launch(old(Now()), Key(Blocklist, server.firewall.norm(ev.ip)), w.now,
                                   if cfg.banTime <= 0 then None else Some(cfg.banTime), t)
                       else old(Now())
      ensures if WantsBlock(server.allowlist, server.firewall.norm, ev, cfg, w)
              then Claims(old(Now()), Now(), Key(Blocklist, server.firewall.norm(ev.ip)), w.now,
                          if cfg.banTime <= 0 then None else Some(cfg.banTime), t, Storing, launched)
              else !launched
      ensures launched <==> t in tasks
    {
      hide Launch, AnyCovers, StandsFor;
      if ev.threat == "" || !cfg.blocklistAuto {
        return false;
      }
      if !cfg.responderEnabled {
        return false;
      }
      var ip := server.firewall.norm(ev.ip);
      if ip == "" || w.private(ip) {
        return false;
      }
      var exempt := server.allowlist.Contains(ip);
      if exempt {
        return false;
      }
      var rearm := if cfg.banTime <= 0 then None else Some(cfg.banTime);
      launched := Start(Key(Blocklist, ip), w.now, rearm, t);
    }

    /** The end of a task: its slot is freed, and unless it blocked its address it has given the
        address back first. */
    method End(t: nat, blocked: bool)
      requires t in tasks
      modifies this
      ensures Now() == Finish(old(Now()), t, blocked)
      ensures Ends(old(Now()), Now(), t, blocked)
    {
      if !blocked {
        Delete(tasks[t].key);
      } else {
        banned := banned + {tasks[t].key};
      }
      if slots > 0 {
        slots := slots - 1;
      }
      tasks := tasks - {t};
    }

    /** autoBanBackground. Below the threshold, or if the count fails, nothing is written. */
    method AutoBanBackground(t: nat, cfg: Config, window: int, now: int, counted: bool, luck: Lifecycle.BanLuck, trouble: Trouble)
      requires t in tasks && tasks[t].stage.Counting?
      modifies this, server.store, server.firewall
      ensures var ip := old(tasks[t].key.ip);
              var enough := counted && |Attempts(old(server.store.events), ip, now - window)| >= cfg.threshold;
              var answers := Answers(enough, luck.stored, luck.reply == Lifecycle.Done);
              var ends := now + cfg.banTime;
              && Now() == Finish(old(Now()), t, answers.Block(Counting))
              && server.Now() == (if enough
                                  then Lifecycle.BanBooks(server.firewall.norm, old(server.Now()), ip, "auto-ban",
                                                          Handlers.ExpiryOf(now, cfg.banTime), luck)
                                  else old(server.Now()))
              && Ends(old(Now()), Now(), t, enough && luck.stored && luck.reply == Lifecycle.Done)
              && (enough && luck.stored && luck.reply == Lifecycle.Done ==>
                    && server.firewall.entries == old(server.firewall.entries) + {server.firewall.norm(ip)}
                    && Handlers.Banning(old(server.store.bans), server.store.bans, ip, luck.now, "auto-ban",
                                        if cfg.banTime > 0 && ends != 0 then Some(ends) else None))
    {
      hide Finish, Lifecycle.BanBooks, Attempts, Handlers.Banning;
      var ip := tasks[t].key.ip;
      if !counted {
        End(t, false);
        return;
      }
      var count := server.store.CountIPEvents(ip, now - window);
      if count < cfg.threshold {
        End(t, false);
        return;
      }
      var expiresAt := 0;
      if cfg.banTime > 0 {
        expiresAt := now + cfg.banTime;
      }
      var status := server.BanAddress(ip, "auto-ban", expiresAt, "auto-ban", luck, trouble);
      End(t, status == Handlers.Accepted);
    }

    /** threatBanBackground: no count. */
    method ThreatBanBackground(t: nat, cfg: Config, reason: string, now: int, luck: Lifecycle.BanLuck, trouble: Trouble)
      requires t in tasks && tasks[t].stage.Storing?
      modifies this, server.store, server.firewall
      ensures Now() == Finish(old(Now()), t, Answers(true, luck.stored, luck.reply == Lifecycle.Done).Block(Storing))
      ensures server.Now() == Lifecycle.BanBooks(server.firewall.norm, old(server.Now()), old(tasks[t].key.ip), reason,
                                                 Handlers.ExpiryOf(now, cfg.banTime), luck)
      ensures Ends(old(Now()), Now(), t, luck.stored && luck.reply == Lifecycle.Done)
      ensures luck.stored && luck.reply == Lifecycle.Done ==>
                var ip, ends := old(tasks[t].key.ip), now + cfg.banTime;
                && server.firewall.entries == old(server.firewall.entries) + {server.firewall.norm(ip)}
                && Handlers.Banning(old(server.store.bans), server.store.bans, ip, luck.now, reason,
                                    if cfg.banTime > 0 && ends != 0 then Some(ends) else None)
    {
      hide Finish, Lifecycle.BanBooks, Handlers.Banning;
      var expiresAt := 0;
      if cfg.banTime > 0 {
        expiresAt := now + cfg.banTime;
      }
      var status := server.BanAddress(tasks[t].key.ip, reason, expiresAt, "blocklist", luck, trouble);
      End(t, status == Handlers.Accepted);
    }
  }
}
