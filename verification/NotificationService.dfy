/** The notification service over its tables and limiter; each method has exactly the effect the model gives
    its operation. */
module NotificationServiceImpl {
  import opened Wrappers
  import opened Text
  import opened RateLimit
  import opened NotifyModel

  /** Some row expires last, so the query returns one whenever any is redeemable. */
  lemma {:induction false} LatestExists(expiry: map<int, int>, rows: set<int>) returns (best: int)
    requires rows != {} && rows <= expiry.Keys
    ensures best in rows && forall v :: v in rows ==> expiry[v] <= expiry[best]
    decreases |rows|
  {
    var u := SomeElement(rows);
    best := u;
    var rest := rows - {u};
    if rest != {} {
      var other := LatestExists(expiry, rest);
      if expiry[other] > expiry[u] {
        best := other;
      }
    }
    assert rows == rest + {u};
  }

  class NotificationService {
    const cfg: Config
    var users: map<int, string>
    var plans: map<string, Plan>
    var settings: map<int, Settings>
    var channels: map<int, Channel>
    const limiter: RateLimiter
    ghost var log: seq<Record>

    ghost predicate Valid()
      reads this, limiter, limiter.owner.Keys
    {
      limiter.Valid()
    }

    ghost function State(): State
      requires Valid()
      reads this, limiter, limiter.owner.Keys
    {
      NotifyModel.State(users, plans, settings, channels, limiter.contents, log)
    }

    constructor (cfg: Config)
      ensures Valid() && State() == INITIAL && fresh(limiter)
      ensures this.cfg == cfg
    {
      this.cfg := cfg;
      users, plans, settings, channels := map[], map[], map[], map[];
      limiter := new RateLimiter();
      log := [];
    }

    method GetSettings(u: int) returns (r: Settings)
      requires Valid()
      ensures r == SettingsOf(State(), u)
    {
      r := if u in settings then settings[u] else DEFAULT_SETTINGS;
    }

    method GetChannel(u: int) returns (r: Channel)
      requires Valid()
      ensures r == ChannelOf(State(), u)
    {
      r := if u in channels then channels[u] else DEFAULT_CHANNEL;
    }

    method UpdateDeliveryStatus(u: int, note: Note)
      requires Valid()
      modifies this
      ensures Valid() && State() == SetStatus(old(State()), u, note)
    {
      if u !in users {
        return;
      }
      var s := GetSettings(u);
      var c := GetChannel(u);
      settings := settings[u := s.(last := Some(note))];
      channels := channels[u := c.(last := Some(note))];
    }

    /** Hands the message to the sender; `end` is what the sender reports. */
    method SendMessage(u: int, category: string, now: int, end: Ending)
      requires Valid()
      modifies this
      ensures Valid() && State() == Send(cfg, old(State()), u, category, now, end)
    {
      if !cfg.hasSender {
        UpdateDeliveryStatus(u, Note(DeliveryFailed, "telegram sender is not configured", end.at));
        return;
      }
      log := log + [Sent(u, ChannelOf(State(), u).target, category, now)];
      UpdateDeliveryStatus(u, SendNote(end));
    }

    /** The limiter call of a custom delivery. */
    method TakeSlot(u: int, plan: Plan, now: int) returns (allowed: bool)
      requires Valid() && u in users && plan == PlanOf(State(), u)
      modifies this`log, limiter, limiter.owner.Keys
      ensures Valid() && fresh(limiter.owner.Keys - old(limiter.owner.Keys))
      ensures allowed == LimitAllows(cfg, old(State()), u, now)
      ensures var limited := Limited(cfg, old(State()), u, now);
              State() == if allowed then limited.(log := limited.log + [Admitted(u, now, CustomLimit(plan))])
                         else limited
    {
      hide UserKey, Decimal, Store, Admits;
      var limit := plan.perMinute;
      if plan.burst > 0 && plan.burst < limit {
        limit := plan.burst;
      }
      allowed := limiter.Allow(UserKey(u), now, limit, cfg.window);
      if allowed {
        log := log + [Admitted(u, now, limit)];
      }
    }

    method DeliverEvent(e: Event, now: int, end: Ending)
      requires Valid()
      modifies this, limiter, limiter.owner.Keys
      ensures Valid() && fresh(limiter.owner.Keys - old(limiter.owner.Keys))
      ensures State() == NotifyModel.DeliverEvent(cfg, old(State()), e, now, end)
    {
      hide ValidEvent, SetStatus, Send, LimitAllows, Store, UserKey, Blocked, PlanFor;
      var u := e.userId;
      if !ValidEvent(e) {
        if u > 0 {
          UpdateDeliveryStatus(u, Note(InvalidEvent, "invalid notification event", end.at));
        }
        return;
      }
      if !cfg.enabled {
        UpdateDeliveryStatus(u, Note(Disabled, "notification delivery disabled", end.at));
        return;
      }
      if u !in users {
        return;
      }
      var s := GetSettings(u);
      var plan := PlanFor(plans, users[u]);
      var c := GetChannel(u);
      var blocked := Blocked(e.category, s, plan, c);
      if blocked.Some? {
        UpdateDeliveryStatus(u, Note(blocked.value, "", end.at));
        return;
      }
      if e.category == "custom" {
        var allowed := TakeSlot(u, plan, now);
        if !allowed {
          UpdateDeliveryStatus(u, Note(RateLimited, "", end.at));
          return;
        }
      }
      SendMessage(u, e.category, now, end);
    }

    method CreateBindCode(u: int, hash: int, now: int)
      requires Valid()
      modifies this
      ensures Valid() && State() == NotifyModel.CreateBindCode(cfg, old(State()), u, hash, now)
    {
      if u <= 0 || u !in users {
        return;
      }
      var c := GetChannel(u);
      var status := if c.status == Bound && c.target != "" then Bound else Pending;
      var code := Code(hash, now + cfg.codeTtl);
      channels := channels[u := c.(status := status, code := Some(code))];
      log := log + [Issued(u, code)];
    }

    /** Of the rows that hold the hash, unexpired, one that expires last. */
    method FindByBindCode(hash: int, now: int) returns (row: Option<int>)
      requires Valid()
      ensures row.None? ==> forall u :: !Redeemable(State(), u, hash, now)
      ensures row.Some? ==> Chosen(State(), row.value, hash, now)
    {
      var expiry := map u | u in channels && channels[u].code.Some? && channels[u].code.value.hash == hash
                            && channels[u].code.value.expiresAt > now
                            && (channels[u].status == Pending || channels[u].status == Bound)
                          :: channels[u].code.value.expiresAt;
      ghost var s := State();
      assert forall u :: u in expiry <==> Redeemable(s, u, hash, now);
      if expiry.Keys == {} {
        assert forall u :: u !in expiry.Keys;
        return None;
      }
      ghost var best := LatestExists(expiry, expiry.Keys);
      var u :| u in expiry && forall v :: v in expiry ==> expiry[v] <= expiry[u];
      row := Some(u);
    }

    /** `hash` is the hash of the trimmed text. */
    method HandleTelegramUpdate(text: string, hash: int, chat: int, now: int)
      requires Valid()
      modifies this
      ensures Valid()
      ensures if TrimSpace(text) == "" || !(exists u :: Redeemable(old(State()), u, hash, now))
              then State() == old(State())
              else exists row :: Chosen(old(State()), row, hash, now)
                                 && State() == BindTo(old(State()), row, hash, chat, now)
    {
      hide Decimal, TrimSpace;
      if TrimSpace(text) == "" {
        return;
      }
      ghost var s := State();
      var row := FindByBindCode(hash, now);
      assert State() == s;
      if row.None? {
        return;
      }
      var u := row.value;
      channels := channels[u := channels[u].(status := Bound, target := Decimal(chat), code := None)];
      log := log + [BoundBy(u, hash, Decimal(chat), now)];
      assert State() == BindTo(s, u, hash, chat, now);
    }

    method Unbind(u: int)
      requires Valid()
      modifies this
      ensures Valid() && State() == NotifyModel.Unbind(old(State()), u)
    {
      if u !in users {
        return;
      }
      var c := GetChannel(u);
      channels := channels[u := c.(status := Revoked, target := "", code := None)];
      log := log + [UnboundBy(u)];
    }

    method UpdatePreferences(u: int, p: Settings)
      requires Valid()
      modifies this
      ensures Valid() && State() == NotifyModel.UpdatePreferences(old(State()), u, p)
    {
      if u <= 0 || u !in users {
        return;
      }
      var s := GetSettings(u);
      settings := settings[u := p.(last := s.last)];
    }
  }
}
