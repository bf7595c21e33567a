/** The notification service by its fields: which switch each category needs, what each outcome records. */
module NotifyFields {
  import opened Wrappers
  import opened Text
  import opened NotifyModel
  import opened NotifyLaws

  // ---- gates ----

  /** Each category has one switch on the plan and one among the preferences; no row means every preference is on. */
  predicate Switched(s: State, u: int, category: string, plan: Plan) {
    && (category == "system" ==> plan.allowSystem && (u in s.settings ==> s.settings[u].system))
    && (category == "strategy" ==> plan.allowStrategy && (u in s.settings ==> s.settings[u].strategy))
    && (category == "custom" ==> plan.allowCustom && (u in s.settings ==> s.settings[u].custom))
  }

  predicate Reachable(s: State, u: int) {
    u in s.channels && s.channels[u].status == Bound && !Blank(s.channels[u].target)
  }

  predicate WellFormed(e: Event) {
    && e.schemaVersion == 1 && e.userId > 0 && !Blank(e.message)
    && (TrimSpace(e.category) == "system" || TrimSpace(e.category) == "strategy" || TrimSpace(e.category) == "custom")
    && KnownEventType(TrimSpace(e.eventType))
    && (Blank(e.severity) || TrimSpace(e.severity) == "info" || TrimSpace(e.severity) == "warn"
        || TrimSpace(e.severity) == "error")
  }

  lemma WellFormedExact(e: Event)
    ensures ValidEvent(e) <==> WellFormed(e)
  {
    TrimsToNothing(e.message);
    TrimsToNothing(e.severity);
    hide TrimSpace, KnownEventType, Blank;
  }

  /** All gates are open exactly when the event is well formed, delivery is on, plan and preferences are on and have
      the category's own switches on, and the channel is bound to a target. */
  lemma GatesByField(cfg: Config, s: State, e: Event, plan: Plan)
    requires e.userId in s.users && HasPlan(s, e.userId, plan)
    ensures GatesOpen(cfg, s, e) <==>
            && WellFormed(e) && cfg.enabled && plan.enabled
            && (e.userId in s.settings ==> s.settings[e.userId].enabled)
            && Switched(s, e.userId, e.category, plan) && Reachable(s, e.userId)
  {
    WellFormedExact(e);
    HasPlanExact(s, e.userId, plan);
    TrimsToNothing(ChannelOf(s, e.userId).target);
    hide ValidEvent, WellFormed, TrimSpace, Blank, HasPlan, PlanFor;
  }

  // ---- outcomes ----

  /** The preferences forbid the category, or everything. */
  predicate Unwanted(s: State, u: int, category: string) {
    u in s.settings
    && (!s.settings[u].enabled || (category == "system" && !s.settings[u].system)
        || (category == "strategy" && !s.settings[u].strategy) || (category == "custom" && !s.settings[u].custom))
  }

  /** The plan forbids the category. */
  predicate OffPlan(plan: Plan, category: string) {
    (category == "system" && !plan.allowSystem) || (category == "strategy" && !plan.allowStrategy)
    || (category == "custom" && !plan.allowCustom)
  }

  predicate SwitchedOff(s: State, u: int) {
    u in s.settings && !s.settings[u].enabled
  }

  /** Why an event is blocked: the plan is asked first, then the main preference, then the category on the plan and
      among the preferences, then the channel. */
  lemma BlockedExact(s: State, u: int, category: string, plan: Plan)
    ensures var b := Blocked(category, SettingsOf(s, u), plan, ChannelOf(s, u));
            var off, offPlan, unwanted := SwitchedOff(s, u), OffPlan(plan, category), Unwanted(s, u, category);
            && (b == Some(PlanDisabled) <==> !plan.enabled || (!off && offPlan))
            && (b == Some(Disabled) <==> plan.enabled && (off || (!offPlan && unwanted)))
            && (b == Some(NotBound) <==> plan.enabled && !offPlan && !unwanted && !Reachable(s, u))
            && (b == None <==> plan.enabled && !offPlan && !unwanted && Reachable(s, u))
  {
    TrimsToNothing(ChannelOf(s, u).target);
    hide TrimSpace, Blank;
  }

  lemma NoteRecorded(s: State, u: int, note: Note)
    requires u in s.users
    ensures var s' := SetStatus(s, u, note);
            u in s'.settings && u in s'.channels && s'.settings[u].last == s'.channels[u].last == Some(note)
  {
  }

  /** The note of a delivery, by the decisions on its way. */
  function DeliveryNote(cfg: Config, s: State, e: Event, now: int, end: Ending): Note
    requires e.userId in s.users
  {
    var blocked := Blocked(e.category, SettingsOf(s, e.userId), PlanOf(s, e.userId), ChannelOf(s, e.userId));
    if !ValidEvent(e) then Note(InvalidEvent, "invalid notification event", end.at)
    else if !cfg.enabled then Note(Disabled, "notification delivery disabled", end.at)
    else if blocked.Some? then Note(blocked.value, "", end.at)
    else if e.category == "custom" && !LimitAllows(cfg, s, e.userId, now) then Note(RateLimited, "", end.at)
    else if !cfg.hasSender then Note(DeliveryFailed, "telegram sender is not configured", end.at)
    else SendNote(end)
  }

  lemma DeliveryLeavesNote(cfg: Config, s: State, e: Event, now: int, end: Ending)
    requires e.userId > 0 && e.userId in s.users
    ensures var s', u := DeliverEvent(cfg, s, e, now, end), e.userId;
            u in s'.settings && u in s'.channels
            && s'.settings[u].last == s'.channels[u].last == Some(DeliveryNote(cfg, s, e, now, end))
  {
    hide SetStatus, ValidEvent, Blocked, LimitAllows, PlanOf, Limited, Send, SettingsOf, ChannelOf, SendNote;
    hide CustomLimit;
    var u, note := e.userId, DeliveryNote(cfg, s, e, now, end);
    var s1 := Limited(cfg, s, u, now);
    LimitKeepsUsers(cfg, s, u, now);
    NoteRecorded(s, u, note);
    NoteRecorded(s1, u, note);
    SendRecorded(cfg, s, u, e.category, now, end);
    SendRecorded(cfg, s1.(log := s.log + [Admitted(u, now, CustomLimit(PlanOf(s, u)))]), u, e.category, now, end);
  }

  lemma SendRecorded(cfg: Config, s: State, u: int, category: string, now: int, end: Ending)
    requires u in s.users
    ensures var s' := Send(cfg, s, u, category, now, end);
            var note := if cfg.hasSender then SendNote(end)
                        else Note(DeliveryFailed, "telegram sender is not configured", end.at);
            u in s'.settings && u in s'.channels && s'.settings[u].last == s'.channels[u].last == Some(note)
  {
  }

  lemma LimitKeepsUsers(cfg: Config, s: State, u: int, now: int)
    requires u in s.users
    ensures Limited(cfg, s, u, now).users == s.users
  {
  }

  /** What happened to the event, told by the fields. */
  predicate Tells(cfg: Config, s: State, e: Event, now: int, end: Ending, plan: Plan, note: Note)
    requires e.userId in s.users
  {
    var u := e.userId;
    var off, offPlan, unwanted := SwitchedOff(s, u), OffPlan(plan, e.category), Unwanted(s, u, e.category);
    var tried := WellFormed(e) && cfg.enabled;
    var open := tried && plan.enabled && !offPlan && !unwanted && Reachable(s, u);
    var refused := e.category == "custom" && !LimitAllows(cfg, s, u, now);
    && note.at == end.at
    && (note.status == InvalidEvent <==> !WellFormed(e))
    && (note.status == PlanDisabled <==> tried && (!plan.enabled || (!off && offPlan)))
    && (note.status == Disabled <==>
        WellFormed(e) && (!cfg.enabled || (plan.enabled && (off || (!offPlan && unwanted)))))
    && (note.status == NotBound <==> tried && plan.enabled && !offPlan && !unwanted && !Reachable(s, u))
    && (note.status == RateLimited <==> open && refused)
    && (note.status == Delivered <==> open && !refused && cfg.hasSender && end.error.None?)
    && (note.status == DeliveryFailed <==> open && !refused && (!cfg.hasSender || end.error.Some?))
    && (cfg.hasSender && note.status == DeliveryFailed ==> Some(note.error) == end.error)
  }

  /** A delivery leaves in both rows a note that tells what happened to it. */
  lemma DeliveryTellsWhy(cfg: Config, s: State, e: Event, now: int, end: Ending, plan: Plan)
    requires e.userId > 0 && e.userId in s.users && HasPlan(s, e.userId, plan)
    ensures var s', u := DeliverEvent(cfg, s, e, now, end), e.userId;
            && u in s'.settings && u in s'.channels && s'.settings[u].last.Some?
            && s'.channels[u].last == s'.settings[u].last && Tells(cfg, s, e, now, end, plan, s'.settings[u].last.value)
  {
    WellFormedExact(e);
    HasPlanExact(s, e.userId, plan);
    BlockedExact(s, e.userId, e.category, plan);
    DeliveryLeavesNote(cfg, s, e, now, end);
    hide DeliverEvent, ValidEvent, WellFormed, HasPlan, PlanOf, LimitAllows, Blocked, SwitchedOff, OffPlan, Unwanted;
    hide Reachable, SettingsOf, ChannelOf;
  }

  // ---- codes and preferences ----

  /** A code lives exactly until its time is up: issued at `issued`, it is redeemable before `issued + ttl` and never
      after. */
  lemma CodeLivesUntil(cfg: Config, s: State, u: int, hash: int, issued: int, at: int)
    requires u > 0 && u in s.users
    ensures Redeemable(CreateBindCode(cfg, s, u, hash, issued), u, hash, at) <==> at < issued + cfg.codeTtl
  {
  }

  /** The row holds the hash, in time, on a channel that is pending or bound. */
  predicate Holds(s: State, v: int, hash: int, at: int) {
    v in s.channels && s.channels[v].code.Some? && s.channels[v].code.value.hash == hash
    && at < s.channels[v].code.value.expiresAt && (s.channels[v].status == Pending || s.channels[v].status == Bound)
  }

  /** An update binds the row exactly when it holds the hash and no other holder expires later; then chat and status
      change, the code is gone, and no other row is touched. */
  lemma TelegramBindsLatest(cfg: Config, s: State, u: int, hash: int, chat: int, at: int)
    ensures var s' := Step(cfg, s, OpTelegram(u, hash, chat, at));
            if Holds(s, u, hash, at) && (forall v :: Holds(s, v, hash, at) ==>
                 s.channels[v].code.value.expiresAt <= s.channels[u].code.value.expiresAt)
            then s'.channels == s.channels[u := Channel(Bound, Decimal(chat), None, s.channels[u].last)]
                 && s'.settings == s.settings && s'.hits == s.hits
            else s' == s
  {
    hide Decimal;
    assert forall v :: Holds(s, v, hash, at) <==> Redeemable(s, v, hash, at);
    hide Holds, Redeemable;
  }

  /** Preferences are what the user last said, whatever the row held; nothing else of the user changes. */
  lemma PreferencesStick(s: State, u: int, p: Settings)
    requires u > 0 && u in s.users
    ensures var s' := UpdatePreferences(s, u, p);
            && u in s'.settings && s'.settings[u].enabled == p.enabled && s'.settings[u].system == p.system
            && s'.settings[u].strategy == p.strategy && s'.settings[u].custom == p.custom
            && s'.settings[u].last == (if u in s.settings then s.settings[u].last else None)
            && s' == s.(settings := s'.settings) && s'.settings - {u} == s.settings - {u}
  {
  }

  /** A revoked channel holds neither target nor code and cannot be redeemed or reached. */
  lemma UnbindIsFinal(s: State, u: int, hash: int, at: int)
    requires u in s.users
    ensures var s' := Unbind(s, u);
            && u in s'.channels && s'.channels[u].status == Revoked && s'.channels[u].target == ""
            && !Redeemable(s', u, hash, at) && !Reachable(s', u)
  {
  }
}
