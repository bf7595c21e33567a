/** Notification delivery: channels bound by one-shot codes, plan and preference gates, and a rate limit
    on custom messages. Find-then-bind, and a delivery up to the send, are each one step. */
module NotifyModel {
  import opened Wrappers
  import opened Text
  import opened RateLimit

  datatype ChannelStatus = Unbound | Pending | Bound | Revoked
  datatype Delivery = Delivered | DeliveryFailed | NotBound | Disabled | PlanDisabled | RateLimited | InvalidEvent

  /** What a delivery reports: outcome, error text and time. */
  datatype Note = Note(status: Delivery, error: string, at: int)

  /** How a delivery ends: the sender's error, if any, and the clock when its note is written. */
  datatype Ending = Ending(error: Option<string>, at: int)

  datatype Plan = Plan(enabled: bool, allowSystem: bool, allowStrategy: bool, allowCustom: bool,
                       perMinute: int, burst: int)
  datatype Settings = Settings(enabled: bool, system: bool, strategy: bool, custom: bool, last: Option<Note>)
  datatype Code = Code(hash: int, expiresAt: int)

  /** `target` is "" where the column is NULL. */
  datatype Channel = Channel(status: ChannelStatus, target: string, code: Option<Code>, last: Option<Note>)

  datatype Event = Event(schemaVersion: int, userId: int, category: string, eventType: string, severity: string,
                         title: string, message: string)

  /** History, never read by the service. */
  datatype Record =
    | Issued(user: int, code: Code)
    | BoundBy(user: int, hash: int, chat: string, at: int)
    | UnboundBy(user: int)
    | Admitted(user: int, at: int, limit: int)
    | Sent(user: int, chat: string, category: string, at: int)

  datatype Config = Config(enabled: bool, hasSender: bool, window: int, codeTtl: int)

  /** `users` holds each user's plan code. */
  datatype State = State(users: map<int, string>, plans: map<string, Plan>, settings: map<int, Settings>,
                         channels: map<int, Channel>, hits: map<string, seq<int>>, log: seq<Record>)

  const NO_PLAN := Plan(false, false, false, false, 0, 0)
  const DEFAULT_SETTINGS := Settings(true, true, true, true, None)
  const DEFAULT_CHANNEL := Channel(Unbound, "", None, None)

  const INITIAL := State(map[], map[], map[], map[], map[], [])

  // ---- validation and gates ----

  predicate KnownCategory(category: string) {
    category == "system" || category == "strategy" || category == "custom"
  }

  predicate KnownEventType(t: string) {
    t in {"runtime.started", "runtime.ended", "runtime.unhealthy", "runtime.recovered", "runtime.heartbeat_lost",
          "runtime.heartbeat_recovered", "session.started", "session.stopped", "session.failed", "order.accepted",
          "order.failed", "order.recovering", "order.recovered", "order.recovery_failed", "custom.info",
          "custom.warn", "custom.error", "test.message"}
  }

  predicate ValidEvent(e: Event) {
    e.schemaVersion == 1 && e.userId > 0 && KnownCategory(TrimSpace(e.category))
    && KnownEventType(TrimSpace(e.eventType))
    && (TrimSpace(e.severity) == "" || TrimSpace(e.severity) in {"info", "warn", "error"})
    && TrimSpace(e.message) != ""
  }

  predicate CategoryOnPlan(category: string, plan: Plan) {
    (category == "system" ==> plan.allowSystem) && (category == "strategy" ==> plan.allowStrategy)
    && (category == "custom" ==> plan.allowCustom)
  }

  predicate CategoryWanted(category: string, s: Settings) {
    (category == "system" ==> s.system) && (category == "strategy" ==> s.strategy)
    && (category == "custom" ==> s.custom)
  }

  /** `blockedStatus`: the switch compares the category as received, untrimmed. */
  function Blocked(category: string, settings: Settings, plan: Plan, channel: Channel): Option<Delivery> {
    if !plan.enabled then Some(PlanDisabled)
    else if !settings.enabled then Some(Disabled)
    else if !CategoryOnPlan(category, plan) then Some(PlanDisabled)
    else if !CategoryWanted(category, settings) then Some(Disabled)
    else if channel.status != Bound || TrimSpace(channel.target) == "" then Some(NotBound)
    else None
  }

  function SettingsOf(s: State, u: int): Settings {
    if u in s.settings then s.settings[u] else DEFAULT_SETTINGS
  }

  function ChannelOf(s: State, u: int): Channel {
    if u in s.channels then s.channels[u] else DEFAULT_CHANNEL
  }

  /** An unknown or blank plan code falls back to "free", and that to nothing allowed. */
  function PlanFor(plans: map<string, Plan>, code: string): Plan {
    var c := if TrimSpace(code) == "" then "free" else TrimSpace(code);
    if c in plans then plans[c] else if "free" in plans then plans["free"] else NO_PLAN
  }

  function PlanOf(s: State, u: int): Plan
    requires u in s.users
  {
    PlanFor(s.plans, s.users[u])
  }

  function CustomLimit(plan: Plan): int {
    if plan.burst > 0 && plan.burst < plan.perMinute then plan.burst else plan.perMinute
  }

  function UserKey(u: int): string {
    "user:" + Decimal(u)
  }

  // ---- table writes ----

  function SetStatus(s: State, u: int, note: Note): State {
    if u !in s.users then s
    else s.(settings := s.settings[u := SettingsOf(s, u).(last := Some(note))],
            channels := s.channels[u := ChannelOf(s, u).(last := Some(note))])
  }

  // ---- operations ----

  function Limited(cfg: Config, s: State, u: int, now: int): State
    requires u in s.users
  {
    s.(hits := Store(s.hits, UserKey(u), now, CustomLimit(PlanOf(s, u)), cfg.window))
  }

  predicate LimitAllows(cfg: Config, s: State, u: int, now: int)
    requires u in s.users
  {
    Admits(At(s.hits, UserKey(u)), now, CustomLimit(PlanOf(s, u)), cfg.window)
  }

  /** The note of an attempt to send. */
  function SendNote(end: Ending): Note {
    if end.error.Some? then Note(DeliveryFailed, end.error.value, end.at) else Note(Delivered, "", end.at)
  }

  function Send(cfg: Config, s: State, u: int, category: string, now: int, end: Ending): State {
    if !cfg.hasSender then SetStatus(s, u, Note(DeliveryFailed, "telegram sender is not configured", end.at))
    else SetStatus(s.(log := s.log + [Sent(u, ChannelOf(s, u).target, category, now)]), u, SendNote(end))
  }

  /** `now` is the limiter's reading of the clock. */
  function DeliverEvent(cfg: Config, s: State, e: Event, now: int, end: Ending): State {
    var u := e.userId;
    if !ValidEvent(e) then
      if u > 0 then SetStatus(s, u, Note(InvalidEvent, "invalid notification event", end.at)) else s
    else if !cfg.enabled then SetStatus(s, u, Note(Disabled, "notification delivery disabled", end.at))
    else if u !in s.users then s
    else
      var blocked := Blocked(e.category, SettingsOf(s, u), PlanOf(s, u), ChannelOf(s, u));
      if blocked.Some? then SetStatus(s, u, Note(blocked.value, "", end.at))
      else if e.category != "custom" then Send(cfg, s, u, e.category, now, end)
      else if !LimitAllows(cfg, s, u, now) then SetStatus(Limited(cfg, s, u, now), u, Note(RateLimited, "", end.at))
      else
        var s1 := Limited(cfg, s, u, now);
        Send(cfg, s1.(log := s.log + [Admitted(u, now, CustomLimit(PlanOf(s, u)))]), u, e.category, now, end)
  }

  /** The code replaces any earlier one; a bound channel stays bound. */
  function CreateBindCode(cfg: Config, s: State, u: int, hash: int, now: int): State {
    if u <= 0 || u !in s.users then s
    else
      var c, code := ChannelOf(s, u), Code(hash, now + cfg.codeTtl);
      s.(channels := s.channels[u := c.(status := if c.status == Bound && c.target != "" then Bound else Pending,
                                        code := Some(code))],
         log := s.log + [Issued(u, code)])
  }

  predicate Redeemable(s: State, u: int, hash: int, now: int) {
    u in s.channels && s.channels[u].code.Some? && s.channels[u].code.value.hash == hash
    && s.channels[u].code.value.expiresAt > now && (s.channels[u].status == Pending || s.channels[u].status == Bound)
  }

  /** A row the query may return: redeemable, and none expires later. */
  ghost predicate Chosen(s: State, u: int, hash: int, now: int) {
    Redeemable(s, u, hash, now)
    && forall v :: Redeemable(s, v, hash, now) ==>
         s.channels[v].code.value.expiresAt <= s.channels[u].code.value.expiresAt
  }

  /** Binds the chosen row to the chat and clears its code. */
  function BindTo(s: State, u: int, hash: int, chat: int, now: int): State
    requires u in s.channels
  {
    s.(channels := s.channels[u := s.channels[u].(status := Bound, target := Decimal(chat), code := None)],
       log := s.log + [BoundBy(u, hash, Decimal(chat), now)])
  }

  function Unbind(s: State, u: int): State {
    if u !in s.users then s
    else s.(channels := s.channels[u := ChannelOf(s, u).(status := Revoked, target := "", code := None)],
            log := s.log + [UnboundBy(u)])
  }

  function UpdatePreferences(s: State, u: int, p: Settings): State {
    if u <= 0 || u !in s.users then s
    else s.(settings := s.settings[u := p.(last := SettingsOf(s, u).last)])
  }

  // ---- runs ----

  datatype Op =
    | OpDeliver(event: Event, now: int, end: Ending)
    | OpCreateCode(user: int, hash: int, now: int)
    | OpTelegram(row: int, hash: int, chat: int, now: int)    // `row` is the query's answer
    | OpUnbind(user: int)
    | OpPreferences(user: int, settings: Settings)
    | OpUser(user: int, planCode: string)                     // accounts and plans are run elsewhere
    | OpPlan(planCode: string, plan: Plan)

  ghost function Step(cfg: Config, s: State, op: Op): State {
    match op
    case OpDeliver(e, now, end) => DeliverEvent(cfg, s, e, now, end)
    case OpCreateCode(u, hash, now) => CreateBindCode(cfg, s, u, hash, now)
    case OpTelegram(row, hash, chat, now) => if Chosen(s, row, hash, now) then BindTo(s, row, hash, chat, now) else s
    case OpUnbind(u) => Unbind(s, u)
    case OpPreferences(u, p) => UpdatePreferences(s, u, p)
    case OpUser(u, code) => s.(users := s.users[u := code])
    case OpPlan(code, plan) => s.(plans := s.plans[code := plan])
  }

  ghost function Notified(cfg: Config, ops: seq<Op>): State {
    if ops == [] then INITIAL else Step(cfg, Notified(cfg, ops[..|ops| - 1]), ops[|ops| - 1])
  }

  // ---- reading the history ----

  /** The user's code still open: issued, and since then neither replaced, used nor revoked. */
  function OpenCode(log: seq<Record>, u: int): Option<Code> {
    if log == [] then None
    else
      var r := log[|log| - 1];
      if r.user == u && r.Issued? then Some(r.code)
      else if r.user == u && (r.BoundBy? || r.UnboundBy?) then None
      else OpenCode(log[..|log| - 1], u)
  }

  /** The chat of the user's latest bind with no later unbind; "" when there is none. */
  function LatestChat(log: seq<Record>, u: int): string {
    if log == [] then ""
    else
      var r := log[|log| - 1];
      if r.user == u && r.BoundBy? then r.chat
      else if r.user == u && r.UnboundBy? then ""
      else LatestChat(log[..|log| - 1], u)
  }

  function Issues(log: seq<Record>, hash: int): nat {
    if log == [] then 0
    else Issues(log[..|log| - 1], hash) + if log[|log| - 1].Issued? && log[|log| - 1].code.hash == hash then 1 else 0
  }

  function Binds(log: seq<Record>, hash: int): nat {
    if log == [] then 0
    else Binds(log[..|log| - 1], hash) + if log[|log| - 1].BoundBy? && log[|log| - 1].hash == hash then 1 else 0
  }

  /** When the limiter admitted the user's custom messages, and when they were sent. */
  function AdmittedTimes(log: seq<Record>, u: int): seq<int> {
    if log == [] then []
    else
      var r, before := log[|log| - 1], AdmittedTimes(log[..|log| - 1], u);
      if r.Admitted? && r.user == u then before + [r.at] else before
  }

  function CustomSends(log: seq<Record>, u: int): seq<int> {
    if log == [] then []
    else
      var r, before := log[|log| - 1], CustomSends(log[..|log| - 1], u);
      if r.Sent? && r.user == u && r.category == "custom" then before + [r.at] else before
  }
}
