/** The promises of the notification service, stated over whole runs. */
module NotifyLaws {
  import opened Wrappers
  import opened Text
  import opened RateLimit
  import opened NotifyModel
  import opened NotifySafety

  // ---- codes and chats ----

  /** A code hash is never redeemed more often than it was issued. */
  lemma BindsNeverExceedIssues(cfg: Config, ops: seq<Op>, hash: int)
    ensures Binds(Notified(cfg, ops).log, hash) <= Issues(Notified(cfg, ops).log, hash)
  {
    RunKeepsInv(cfg, ops);
  }

  /** Every bind of a run redeemed the user's latest code, unexpired, not yet used and not revoked; every
      message went to the chat of the user's latest bind with no later unbind. */
  lemma BindsAndSendsAreCurrent(cfg: Config, ops: seq<Op>)
    ensures HistoryOk(Notified(cfg, ops).log)
  {
    RunKeepsInv(cfg, ops);
  }

  /** A channel is bound exactly when it has a target, which is then the latest bound chat. */
  lemma {:induction false} BoundMeansTargeted(cfg: Config, ops: seq<Op>, u: int)
    ensures var c := ChannelOf(Notified(cfg, ops), u);
            && (c.status == Bound <==> c.target != "")
            && c.target == LatestChat(Notified(cfg, ops).log, u)
  {
    RunKeepsInv(cfg, ops);
    assert RowMatches(ChannelOf(Notified(cfg, ops), u), Notified(cfg, ops).log, u);
  }

  /** A code works until it expires: redeemed in time, with no other user holding the same hash, it binds its
      user's channel to the chat and is spent. */
  lemma FreshCodeBinds(cfg: Config, ops: seq<Op>, u: int, hash: int, issued: int, chat: int, at: int)
    requires u > 0 && u in Notified(cfg, ops).users && at < issued + cfg.codeTtl
    requires forall v :: v != u ==> v !in Holders(Notified(cfg, ops), hash)
    ensures var s := Step(cfg, Step(cfg, Notified(cfg, ops), OpCreateCode(u, hash, issued)),
                          OpTelegram(u, hash, chat, at));
            && ChannelOf(s, u).status == Bound && ChannelOf(s, u).target == Decimal(chat)
            && forall v :: !Redeemable(s, v, hash, at)
  {
    hide Notified, Decimal;
    var s0 := Notified(cfg, ops);
    var s1 := CreateBindCode(cfg, s0, u, hash, issued);
    forall v | v != u
      ensures !Redeemable(s1, v, hash, at)
    {
      assert v !in Holders(s0, hash);
    }
    assert Chosen(s1, u, hash, at);
    var s2 := BindTo(s1, u, hash, chat, at);
    forall v
      ensures !Redeemable(s2, v, hash, at)
    {
      assert v != u && Redeemable(s2, v, hash, at) ==> Redeemable(s1, v, hash, at);
    }
  }

  // ---- gates ----

  lemma SendAppends(cfg: Config, s: State, u: int, category: string, now: int, end: Ending)
    ensures Send(cfg, s, u, category, now, end).log ==
            if cfg.hasSender then s.log + [Sent(u, ChannelOf(s, u).target, category, now)] else s.log
    ensures Send(cfg, s, u, category, now, end).hits == s.hits
  {
  }

  /** Every gate on the way to a send, short of the limiter, is open to the event. */
  ghost predicate GatesOpen(cfg: Config, s: State, e: Event) {
    ValidEvent(e) && cfg.enabled && e.userId in s.users
    && PlanOf(s, e.userId).enabled && SettingsOf(s, e.userId).enabled
    && CategoryOnPlan(e.category, PlanOf(s, e.userId)) && CategoryWanted(e.category, SettingsOf(s, e.userId))
    && ChannelOf(s, e.userId).status == Bound && TrimSpace(ChannelOf(s, e.userId).target) != ""
  }

  /** A delivery sends exactly one message, to its own user's channel, when every gate is open, a sender is
      configured and a custom message is admitted; otherwise it sends none. */
  lemma SendsExactlyWhenAllowed(cfg: Config, s: State, e: Event, now: int, end: Ending)
    ensures var s' := DeliverEvent(cfg, s, e, now, end);
            var u := e.userId;
            var admitted := if GatesOpen(cfg, s, e) && e.category == "custom" && LimitAllows(cfg, s, u, now)
                            then [Admitted(u, now, CustomLimit(PlanOf(s, u)))] else [];
            var sent := if GatesOpen(cfg, s, e) && cfg.hasSender
                           && (e.category == "custom" ==> LimitAllows(cfg, s, u, now))
                        then [Sent(u, ChannelOf(s, u).target, e.category, now)] else [];
            s'.log == s.log + admitted + sent
  {
    hide ValidEvent, CategoryOnPlan, CategoryWanted, LimitAllows, Store, Send;
    var u := e.userId;
    if GatesOpen(cfg, s, e) {
      SendAppends(cfg, s, u, e.category, now, end);
      var s1 := Limited(cfg, s, u, now);
      SendAppends(cfg, s1.(log := s.log + [Admitted(u, now, CustomLimit(PlanOf(s, u)))]), u, e.category, now, end);
    }
  }

  /** `r` is the message that delivery `op` sends in state `s`: every gate for its category is open, a custom
      one is admitted, and it goes to the chat of the user's latest bind with no later unbind. */
  ghost predicate SentBy(cfg: Config, s: State, op: Op, r: Record) {
    op.OpDeliver? && GatesOpen(cfg, s, op.event)
    && (op.event.category == "custom" ==> LimitAllows(cfg, s, op.event.userId, op.now))
    && LatestChat(s.log, op.event.userId) != ""
    && r == Sent(op.event.userId, LatestChat(s.log, op.event.userId), op.event.category, op.now)
  }

  lemma DeliveryAppends(cfg: Config, s: State, op: Op, j: nat)
    requires Inv(s) && op.OpDeliver?
    ensures var log := DeliverEvent(cfg, s, op.event, op.now, op.end).log;
            s.log <= log && (|s.log| <= j < |log| && log[j].Sent? ==> SentBy(cfg, s, op, log[j]))
  {
    SendsExactlyWhenAllowed(cfg, s, op.event, op.now, op.end);
    assert RowMatches(ChannelOf(s, op.event.userId), s.log, op.event.userId);
    hide DeliverEvent, LimitAllows, CategoryOnPlan, CategoryWanted, ValidEvent, Inv, TrimSpace;
  }

  lemma StepAppends(cfg: Config, s: State, op: Op, j: nat)
    requires Inv(s)
    ensures s.log <= Step(cfg, s, op).log
    ensures |s.log| <= j < |Step(cfg, s, op).log| && Step(cfg, s, op).log[j].Sent? ==>
            SentBy(cfg, s, op, Step(cfg, s, op).log[j])
  {
    hide DeliverEvent, SentBy, Inv;
    if op.OpDeliver? {
      DeliveryAppends(cfg, s, op, j);
    }
  }

  /** Every message in the history of a run was sent by a delivery of that run that found every gate open. */
  lemma {:induction false} EverySendWasGated(cfg: Config, ops: seq<Op>, j: nat)
    requires j < |Notified(cfg, ops).log| && Notified(cfg, ops).log[j].Sent?
    ensures exists n :: 0 <= n < |ops| && SentBy(cfg, Notified(cfg, ops[..n]), ops[n], Notified(cfg, ops).log[j])
  {
    hide Step, SentBy;
    var n := |ops| - 1;
    var s := Notified(cfg, ops[..n]);
    RunKeepsInv(cfg, ops[..n]);
    hide Inv;
    StepAppends(cfg, s, ops[n], j);
    if j < |s.log| {
      EverySendWasGated(cfg, ops[..n], j);
      var i :| 0 <= i < n && SentBy(cfg, Notified(cfg, ops[..n][..i]), ops[..n][i], s.log[j]);
      assert ops[..n][..i] == ops[..i];
    }
  }

  lemma KnownIsTrimmed(category: string)
    requires KnownCategory(category)
    ensures TrimSpace(category) == category
  {
    TrimmedIsFixed(category);
  }

  /** The gates guard the category that validation saw exactly when the event's category has no padding: a
      padded one validates and then matches no gate. */
  lemma CategoryGateExact(e: Event)
    requires ValidEvent(e)
    ensures (forall settings: Settings, plan: Plan, channel: Channel ::
               Blocked(e.category, settings, plan, channel).None? ==>
                 CategoryOnPlan(TrimSpace(e.category), plan) && CategoryWanted(TrimSpace(e.category), settings))
            <==> e.category == TrimSpace(e.category)
  {
    hide KnownEventType;
    if e.category != TrimSpace(e.category) {
      if KnownCategory(e.category) {
        KnownIsTrimmed(e.category);
        assert false;
      }
      var plan := Plan(true, false, false, false, 0, 0);
      var channel := Channel(Bound, "1", None, None);
      TrimmedIsFixed("1");
      assert Blocked(e.category, DEFAULT_SETTINGS, plan, channel).None?;
      assert !CategoryOnPlan(TrimSpace(e.category), plan);
    }
  }

  /** A padded "custom" is delivered without ever consulting the limiter. */
  lemma PaddedCustomSkipsLimiter(cfg: Config, s: State, e: Event, now: int, end: Ending)
    requires TrimSpace(e.category) == "custom" && e.category != "custom"
    ensures DeliverEvent(cfg, s, e, now, end).hits == s.hits
    ensures GatesOpen(cfg, s, e) && cfg.hasSender ==>
            DeliverEvent(cfg, s, e, now, end).log
            == s.log + [Sent(e.userId, ChannelOf(s, e.userId).target, e.category, now)]
  {
    hide ValidEvent, CategoryOnPlan, CategoryWanted;
  }

  /** The limiter stands between a custom event and its user exactly when the category carries no padding. */
  lemma LimiterGateExact(e: Event)
    requires ValidEvent(e) && TrimSpace(e.category) == "custom"
    ensures (forall cfg: Config, s: State, now: int, end: Ending ::
               GatesOpen(cfg, s, e) && DeliverEvent(cfg, s, e, now, end).log != s.log ==>
                 LimitAllows(cfg, s, e.userId, now))
            <==> e.category == "custom"
  {
    if e.category == "custom" {
      forall cfg: Config, s: State, now: int, end: Ending | GatesOpen(cfg, s, e) && !LimitAllows(cfg, s, e.userId, now)
        ensures DeliverEvent(cfg, s, e, now, end).log == s.log
      {
        SendsExactlyWhenAllowed(cfg, s, e, now, end);
      }
    } else {
      var cfg, end := Config(true, true, 60, 0), Ending(None, 0);
      var s := INITIAL.(users := map[e.userId := "free"], plans := map["free" := Plan(true, true, true, true, 0, 0)],
                        channels := map[e.userId := Channel(Bound, "1", None, None)]);
      TrimmedIsFixed("1");
      TrimmedIsFixed("free");
      hide ValidEvent, TrimSpace;
      assert GatesOpen(cfg, s, e);
      PaddedCustomSkipsLimiter(cfg, s, e, 0, end);
      hide DeliverEvent;
      assert DeliverEvent(cfg, s, e, 0, end).log != s.log && !LimitAllows(cfg, s, e.userId, 0);
    }
  }

  /** Sending changes no gate. */
  lemma GatesStayOpen(cfg: Config, s: State, e: Event, now: int, end: Ending)
    requires GatesOpen(cfg, s, e) && e.category != "custom"
    ensures GatesOpen(cfg, DeliverEvent(cfg, s, e, now, end), e)
  {
    hide ValidEvent, TrimSpace;
  }

  const PADDED := Event(1, 1, " custom", "custom.info", "", "", "hi")
  const STRICT := Plan(true, true, true, false, 1, 0)
  const MINUTE := Config(true, true, 60, 100)

  /** A user on a plan without custom messages, and with one a minute at most, binds a chat. */
  const SETUP := [OpUser(1, "free"), OpPlan("free", STRICT), OpCreateCode(1, 9, 0), OpTelegram(1, 9, 5, 1)]

  const BURST := SETUP + [OpDeliver(PADDED, 10, Ending(None, 10))] + [OpDeliver(PADDED, 11, Ending(None, 11))]

  lemma NotifiedPush(cfg: Config, ops: seq<Op>, op: Op)
    ensures Notified(cfg, ops + [op]) == Step(cfg, Notified(cfg, ops), op)
  {
    assert (ops + [op])[..|ops|] == ops;
  }

  lemma PaddedIsValid()
    ensures ValidEvent(PADDED)
  {
    PaddedTrims();
    TrimmedIsFixed("custom.info");
    TrimmedIsFixed("hi");
    TrimmedIsFixed("");
  }

  lemma SetupBinds()
    ensures var s := Notified(MINUTE, SETUP);
            s.users == map[1 := "free"] && s.plans == map["free" := STRICT] && s.settings == map[]
            && ChannelOf(s, 1) == Channel(Bound, Decimal(5), None, None)
  {
    hide Decimal;
    NotifiedPush(MINUTE, [], SETUP[0]);
    NotifiedPush(MINUTE, SETUP[..1], SETUP[1]);
    NotifiedPush(MINUTE, SETUP[..2], SETUP[2]);
    NotifiedPush(MINUTE, SETUP[..3], SETUP[3]);
    assert SETUP[..1] == [] + [SETUP[0]] && SETUP[..2] == SETUP[..1] + [SETUP[1]];
    assert SETUP[..3] == SETUP[..2] + [SETUP[2]] && SETUP == SETUP[..3] + [SETUP[3]];
    assert Chosen(Notified(MINUTE, SETUP[..3]), 1, 9, 1);
  }

  /** Two padded events a second apart both reach the user, against a plan that allows no custom message and one
      a minute at most. */
  lemma PaddedBurstIsSent()
    ensures var s := Notified(MINUTE, SETUP);
            Notified(MINUTE, BURST).log ==
              s.log + [Sent(1, ChannelOf(s, 1).target, " custom", 10), Sent(1, ChannelOf(s, 1).target, " custom", 11)]
    ensures 1 in Notified(MINUTE, SETUP).users && PlanOf(Notified(MINUTE, SETUP), 1) == STRICT
  {
    var s, first, second := Notified(MINUTE, SETUP), Ending(None, 10), Ending(None, 11);
    SetupBinds();
    PaddedIsValid();
    DecimalInjective(5, 5);
    TrimmedIsFixed(Decimal(5));
    TrimmedIsFixed("free");
    hide Decimal, TrimSpace, ValidEvent, Notified;
    assert GatesOpen(MINUTE, s, PADDED);
    var s1 := DeliverEvent(MINUTE, s, PADDED, 10, first);
    GatesStayOpen(MINUTE, s, PADDED, 10, first);
    assert ChannelOf(s1, 1).target == ChannelOf(s, 1).target;
    hide DeliverEvent, GatesOpen;
    NotifiedPush(MINUTE, SETUP, OpDeliver(PADDED, 10, first));
    NotifiedPush(MINUTE, SETUP + [OpDeliver(PADDED, 10, first)], OpDeliver(PADDED, 11, second));
    PaddedTrims();
    PaddedCustomSkipsLimiter(MINUTE, s, PADDED, 10, first);
    PaddedCustomSkipsLimiter(MINUTE, s1, PADDED, 11, second);
  }

  lemma PaddedTrims()
    ensures TrimSpace(" custom") == "custom"
  {
    assert TrimLeft(" custom") == TrimLeft("custom") == "custom";
    TrimmedIsFixed("custom");
  }

  // ---- rate ----

  lemma KeysDiffer(u: int, v: int)
    requires u != v
    ensures UserKey(u) != UserKey(v)
  {
    hide Decimal;
    DecimalInjective(u, v);
    assert UserKey(u)[5..] == Decimal(u) && UserKey(v)[5..] == Decimal(v);
  }

  /** One delivery, as the limiter entry of user `u` sees it. */
  lemma DeliverOnHits(cfg: Config, s: State, e: Event, now: int, end: Ending, u: int)
    ensures var s' := DeliverEvent(cfg, s, e, now, end);
            if e.userId == u && GatesOpen(cfg, s, e) && e.category == "custom"
            then s'.hits == Store(s.hits, UserKey(u), now, CustomLimit(PlanOf(s, u)), cfg.window)
            else At(s'.hits, UserKey(u)) == At(s.hits, UserKey(u))
  {
    HitsAfterDelivery(cfg, s, e, now, end);
    hide DeliverEvent, GatesOpen, UserKey, After, PlanOf;
    if e.userId != u {
      KeysDiffer(e.userId, u);
    }
  }

  /** One delivery, as the admissions of user `u` see it. */
  lemma DeliverOnAdmissions(cfg: Config, s: State, e: Event, now: int, end: Ending, u: int)
    ensures var s' := DeliverEvent(cfg, s, e, now, end);
            AdmittedTimes(s'.log, u) == AdmittedTimes(s.log, u)
              + (if e.userId == u && GatesOpen(cfg, s, e) && e.category == "custom" && LimitAllows(cfg, s, u, now)
                 then [now] else [])
  {
    var s' := DeliverEvent(cfg, s, e, now, end);
    SendsExactlyWhenAllowed(cfg, s, e, now, end);
    hide DeliverEvent, GatesOpen, LimitAllows, AdmittedTimes, PlanOf;
    var added := s'.log[|s.log|..];
    assert s'.log == s.log + added;
    AdmissionsAdded(s.log, added, u);
  }

  /** Of at most an admission and a send, only the admission adds to its user's admissions. */
  lemma AdmissionsAdded(log: seq<Record>, added: seq<Record>, u: int)
    requires |added| <= 2 && (|added| == 2 ==> added[1].Sent?)
    ensures AdmittedTimes(log + added, u) == AdmittedTimes(log, u)
              + (if added != [] && added[0].Admitted? && added[0].user == u then [added[0].at] else [])
  {
    hide AdmittedTimes;
    if |added| == 0 {
      assert log + added == log && AdmittedTimes(log, u) + [] == AdmittedTimes(log, u);
    } else {
      Pushed(log, added[0], u, 0);
      if |added| == 1 {
        assert log + added == log + [added[0]];
      } else {
        Pushed(log + [added[0]], added[1], u, 0);
        assert log + added == log + [added[0]] + [added[1]];
        assert AdmittedTimes(log + [added[0]], u) + [] == AdmittedTimes(log + [added[0]], u);
      }
    }
  }

  lemma HitsAfterDelivery(cfg: Config, s: State, e: Event, now: int, end: Ending)
    ensures DeliverEvent(cfg, s, e, now, end).hits ==
            if GatesOpen(cfg, s, e) && e.category == "custom"
            then Store(s.hits, UserKey(e.userId), now, CustomLimit(PlanOf(s, e.userId)), cfg.window) else s.hits
  {
    hide ValidEvent, CategoryOnPlan, CategoryWanted, Store, LimitAllows, UserKey, Send, CustomLimit, PlanFor;
    var u := e.userId;
    if u in s.users {
      SendAppends(cfg, s, u, e.category, now, end);
      var s1 := Limited(cfg, s, u, now);
      SendAppends(cfg, s1.(log := s.log + [Admitted(u, now, CustomLimit(PlanOf(s, u)))]), u, e.category, now, end);
    }
  }

  /** A delivery that may reach the limiter entry of user `u`. */
  predicate DeliversTo(op: Op, u: int) {
    op.OpDeliver? && op.event.userId == u && op.event.category == "custom"
  }

  /** Custom deliveries for one user carry nondecreasing timestamps. */
  ghost predicate OrderedFor(ops: seq<Op>, u: int) {
    forall i, j :: 0 <= i < j < |ops| && DeliversTo(ops[i], u) && DeliversTo(ops[j], u) ==> ops[i].now <= ops[j].now
  }

  lemma {:induction false} LimiterRemembersEnough(cfg: Config, ops: seq<Op>, u: int, now: int)
    requires OrderedFor(ops, u)
    requires forall i :: 0 <= i < |ops| && DeliversTo(ops[i], u) ==> ops[i].now <= now
    ensures var s := Notified(cfg, ops); Agree(At(s.hits, UserKey(u)), AdmittedTimes(s.log, u), now - cfg.window)
  {
    hide Agree, After, UserKey, AdmittedTimes;
    if ops == [] {
      NoAdmissions(u);
      AgreeOnNothing(now - cfg.window);
    } else {
      var n := |ops| - 1;
      var rest, op := ops[..n], ops[n];
      var s, s' := Notified(cfg, rest), Notified(cfg, ops);
      if DeliversTo(op, u) {
        LimiterRemembersEnough(cfg, rest, u, op.now);
        LimiterStep(cfg, s, op, u);
        AgreeLater(At(s'.hits, UserKey(u)), AdmittedTimes(s'.log, u), op.now - cfg.window, now - cfg.window);
      } else {
        LimiterRemembersEnough(cfg, rest, u, now);
        OtherStep(cfg, s, op, u);
      }
    }
  }

  lemma NoAdmissions(u: int)
    ensures AdmittedTimes([], u) == []
  {
  }

  lemma LimiterStep(cfg: Config, s: State, op: Op, u: int)
    requires DeliversTo(op, u)
    requires Agree(At(s.hits, UserKey(u)), AdmittedTimes(s.log, u), op.now - cfg.window)
    ensures var s' := Step(cfg, s, op); Agree(At(s'.hits, UserKey(u)), AdmittedTimes(s'.log, u), op.now - cfg.window)
  {
    hide Agree, After, UserKey, AdmittedTimes, DeliverEvent, GatesOpen;
    DeliverOnHits(cfg, s, op.event, op.now, op.end, u);
    DeliverOnAdmissions(cfg, s, op.event, op.now, op.end, u);
    var admissions := AdmittedTimes(s.log, u);
    assert admissions + [] == admissions;
    if GatesOpen(cfg, s, op.event) && op.event.category == "custom" {
      assert u in s.users by {
        GatesNeedUser(cfg, s, op.event);
      }
      var limit := CustomLimit(PlanOf(s, u));
      if limit > 0 && cfg.window > 0 {
        AgreeAfterCall(At(s.hits, UserKey(u)), admissions, op.now, limit, cfg.window);
      }
    }
  }

  lemma GatesNeedUser(cfg: Config, s: State, e: Event)
    requires GatesOpen(cfg, s, e)
    ensures e.userId in s.users
  {
  }

  lemma OtherStep(cfg: Config, s: State, op: Op, u: int)
    requires !DeliversTo(op, u)
    ensures var s' := Step(cfg, s, op);
            At(s'.hits, UserKey(u)) == At(s.hits, UserKey(u)) && AdmittedTimes(s'.log, u) == AdmittedTimes(s.log, u)
  {
    hide UserKey, DeliverEvent, Chosen;
    assert AdmittedTimes(s.log, u) + [] == AdmittedTimes(s.log, u);
    match op
    case OpDeliver(e, now, end) =>
      DeliverOnHits(cfg, s, e, now, end, u);
      DeliverOnAdmissions(cfg, s, e, now, end, u);
    case OpCreateCode(v, hash, now) => Pushed(s.log, Issued(v, Code(hash, now + cfg.codeTtl)), u, 0);
    case OpTelegram(v, hash, chat, now) => Pushed(s.log, BoundBy(v, hash, Decimal(chat), now), u, 0);
    case OpUnbind(v) => Pushed(s.log, UnboundBy(v), u, 0);
    case _ =>
  }

  /** The plan a user is on: the one the code names, else "free", else one that allows nothing. */
  ghost predicate HasPlan(s: State, u: int, plan: Plan)
    requires u in s.users
  {
    var code := TrimSpace(s.users[u]);
    && (code != "" && code in s.plans ==> plan == s.plans[code])
    && ((code == "" || code !in s.plans) && "free" in s.plans ==> plan == s.plans["free"])
    && ((code == "" || code !in s.plans) && "free" !in s.plans ==> plan == Plan(false, false, false, false, 0, 0))
  }

  lemma HasPlanExact(s: State, u: int, plan: Plan)
    requires u in s.users
    ensures HasPlan(s, u, plan) <==> plan == PlanOf(s, u)
  {
    hide TrimSpace;
  }

  /** No later admission of the user is in the history. */
  lemma {:induction false} AdmissionsArePast(cfg: Config, ops: seq<Op>, u: int, now: int)
    requires forall i :: 0 <= i < |ops| && DeliversTo(ops[i], u) ==> ops[i].now <= now
    ensures forall t :: t in AdmittedTimes(Notified(cfg, ops).log, u) ==> t <= now
  {
    hide AdmittedTimes, Step, GatesOpen;
    if ops == [] {
      NoAdmissions(u);
    } else {
      var n := |ops| - 1;
      var s, op := Notified(cfg, ops[..n]), ops[n];
      AdmissionsArePast(cfg, ops[..n], u, now);
      if DeliversTo(op, u) {
        DeliverOnAdmissions(cfg, s, op.event, op.now, op.end, u);
        StepOfDelivery(cfg, s, op);
      } else {
        OtherStep(cfg, s, op, u);
      }
    }
  }

  lemma StepOfDelivery(cfg: Config, s: State, op: Op)
    requires op.OpDeliver?
    ensures Step(cfg, s, op) == DeliverEvent(cfg, s, op.event, op.now, op.end)
  {
    hide DeliverEvent;
  }

  /** How many custom messages the user was admitted in the window that ends now. */
  ghost function Recent(cfg: Config, s: State, u: int, now: int): nat {
    |Between(AdmittedTimes(s.log, u), now - cfg.window, now)|
  }

  lemma LimitExact(cfg: Config, s: State, u: int, now: int)
    requires u in s.users && forall t :: t in AdmittedTimes(s.log, u) ==> t <= now
    requires Agree(At(s.hits, UserKey(u)), AdmittedTimes(s.log, u), now - cfg.window)
    ensures var plan := PlanOf(s, u);
            LimitAllows(cfg, s, u, now) <==>
            cfg.window > 0 && plan.perMinute > 0 && Recent(cfg, s, u, now) < plan.perMinute
            && (plan.burst > 0 ==> Recent(cfg, s, u, now) < plan.burst)
  {
    hide AdmittedTimes, PlanOf, UserKey, Between;
    var admitted := AdmittedTimes(s.log, u);
    assert forall i :: 0 <= i < |admitted| ==> admitted[i] in admitted;
    AfterCounts(admitted, now - cfg.window, now);
    hide After;
    assert After(At(s.hits, UserKey(u)), now - cfg.window) == After(AdmittedTimes(s.log, u), now - cfg.window);
  }

  /** A custom message with every gate open is admitted exactly when the window and the per-minute limit are positive
      and fewer messages than both that limit and a positive burst were admitted in the window. */
  lemma CustomAdmittedIff(cfg: Config, ops: seq<Op>, e: Event, now: int, end: Ending, plan: Plan)
    requires e.category == "custom" && OrderedFor(ops + [OpDeliver(e, now, end)], e.userId)
    requires GatesOpen(cfg, Notified(cfg, ops), e)
    requires HasPlan(Notified(cfg, ops), e.userId, plan)
    ensures var s := Notified(cfg, ops);
            LimitAllows(cfg, s, e.userId, now) <==>
            cfg.window > 0 && plan.perMinute > 0 && Recent(cfg, s, e.userId, now) < plan.perMinute
            && (plan.burst > 0 ==> Recent(cfg, s, e.userId, now) < plan.burst)
  {
    HasPlanExact(Notified(cfg, ops), e.userId, plan);
    hide GatesOpen, Notified, AdmittedTimes, HasPlan, PlanOf, LimitAllows, Recent, Agree, UserKey;
    var all := ops + [OpDeliver(e, now, end)];
    assert forall i :: 0 <= i < |ops| ==> all[i] == ops[i];
    assert all[|ops|] == OpDeliver(e, now, end);
    LimiterRemembersEnough(cfg, ops, e.userId, now);
    AdmissionsArePast(cfg, ops, e.userId, now);
    LimitExact(cfg, Notified(cfg, ops), e.userId, now);
  }

  lemma RateAtDelivery(cfg: Config, s: State, e: Event, now: int, end: Ending)
    requires Inv(s) && e.category == "custom" && GatesOpen(cfg, s, e) && LimitAllows(cfg, s, e.userId, now)
    requires Agree(At(s.hits, UserKey(e.userId)), AdmittedTimes(s.log, e.userId), now - cfg.window)
    ensures var s' := DeliverEvent(cfg, s, e, now, end);
            |After(CustomSends(s'.log, e.userId), now - cfg.window)| <= CustomLimit(PlanOf(s, e.userId))
  {
    var u, s' := e.userId, DeliverEvent(cfg, s, e, now, end);
    hide DeliverEvent, GatesOpen, After, CustomSends, AdmittedTimes, Linked, Budgeted, HistoryOk, UserKey;
    DeliverKeepsInv(cfg, s, e, now, end);
    DeliverOnAdmissions(cfg, s, e, now, end, u);
    AfterPush(AdmittedTimes(s.log, u), now, now - cfg.window);
    assert |After(CustomSends(s'.log, u), now - cfg.window)| <= |After(AdmittedTimes(s'.log, u), now - cfg.window)|;
  }

  /** When a custom message goes out, the user's custom sends in the trailing window, this one included, are at most
      the per-minute limit of the plan in force and, where the plan has a burst, at most the burst. */
  lemma CustomRateHolds(cfg: Config, ops: seq<Op>, e: Event, now: int, end: Ending, plan: Plan)
    requires e.category == "custom" && OrderedFor(ops + [OpDeliver(e, now, end)], e.userId)
    requires var s := Notified(cfg, ops); GatesOpen(cfg, s, e) && LimitAllows(cfg, s, e.userId, now)
    requires HasPlan(Notified(cfg, ops), e.userId, plan)
    ensures var s' := DeliverEvent(cfg, Notified(cfg, ops), e, now, end);
            var sends := |After(CustomSends(s'.log, e.userId), now - cfg.window)|;
            sends <= plan.perMinute && (plan.burst > 0 ==> sends <= plan.burst)
  {
    HasPlanExact(Notified(cfg, ops), e.userId, plan);
    hide Notified, DeliverEvent, GatesOpen, After, CustomSends, AdmittedTimes, Inv, LimitAllows, Agree, HasPlan, PlanOf;
    var all := ops + [OpDeliver(e, now, end)];
    assert forall i :: 0 <= i < |ops| ==> all[i] == ops[i];
    assert all[|ops|] == OpDeliver(e, now, end);
    LimiterRemembersEnough(cfg, ops, e.userId, now);
    RunKeepsInv(cfg, ops);
    RateAtDelivery(cfg, Notified(cfg, ops), e, now, end);
  }
}
