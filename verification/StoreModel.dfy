/** The six tables behind venues, sessions and their audit trail, and the effect of each
    transaction on them. A transaction either commits a new database or is rejected and leaves
    the old one. The unique indexes and foreign keys are those of the migrations. */
module StoreModel {
  import opened Wrappers
  import opened Text

  datatype Environment = Backtest | Demo | Live
  datatype VenueStatus = Active | Disabled | Revoked | Archived
  datatype Market = Spot | Perpetual | Delivery
  datatype MarginMode = NoMargin | Cross | Isolated
  datatype PositionMode = NoPosition | OneWay | Hedge
  datatype EventKind = BindEvent | ReleaseEvent | ArchiveEvent
  datatype Error = NotFound | Conflict | InvalidModes | InvalidArgument | FailedPrecondition | ForeignKey

  datatype Account = Account(userId: int, environment: Environment, active: bool)

  /** The descriptive columns of a venue, which no transaction rewrites. */
  datatype Profile = Profile(displayName: string, apiKey: string, fingerprint: string,
                             margin: MarginMode, position: PositionMode)

  datatype Venue = Venue(userId: int, accountId: Option<int>, exchange: int, market: Market,
                         environment: Environment, status: VenueStatus, profile: Profile,
                         archivedReason: string)

  datatype VenueEvent = VenueEvent(venueId: int, accountId: Option<int>, userId: int,
                                   kind: EventKind, reason: string)

  /** What a refresh learned about a wallet; `snapshot` is the serialised rest. */
  datatype WalletInfo = WalletInfo(totalValue: real, walletBalance: real, availableBalance: real,
                                   snapshot: string, updatedAt: int)

  datatype WalletState = WalletState(accountId: Option<int>, userId: int, exchange: int,
                                     environment: Environment, market: Market, info: WalletInfo)

  datatype Session = Session(accountId: int, userId: int, environment: Environment, status: int,
                             barsProcessed: int, error: string, runtimeId: string,
                             completedAt: Option<int>)

  /** A `session_venues` row: what a session saw of a venue when it was saved. */
  datatype Capture = Capture(accountId: int, userId: int, exchange: int, market: Market,
                             environment: Environment, profile: Profile, status: VenueStatus)

  /** `approved` is not a table: it holds the venues whose attach check has passed in some request, which may
      insert them later. `origin` is history: the binding each venue was created with; nothing reads it. */
  datatype DB = DB(accounts: map<int, Account>, venues: map<int, Venue>, events: seq<VenueEvent>,
                   wallets: map<int, WalletState>, sessions: map<string, Session>,
                   captures: map<(string, int), Capture>, approved: set<Venue>, origin: map<int, Option<int>>)

  const EMPTY := DB(map[], map[], [], map[], map[], map[], {}, map[])

  // ---- sessions ----

  predicate ActiveStatus(status: int) {
    status == 3 || status == 4
  }

  function SessionStatusCode(status: string): (code: int)
    ensures 1 <= code <= 9
  {
    var s := ToLower(TrimSpace(status));
    if s == "queued" || s == "created" || s == "pending" then 1
    else if s == "preflight" then 2
    else if s == "running" || s == "" then 3
    else if s == "stopping" then 4
    else if s == "recoverable" then 5
    else if s == "completed" || s == "finished" then 6
    else if s == "stopped" then 7
    else if s == "failed" || s == "stop_failed" then 8
    else if s == "preflight_failed" then 9
    else 8
  }

  function SessionStatusText(code: int): string {
    if code == 1 then "pending"
    else if code == 2 then "preflight"
    else if code == 3 then "running"
    else if code == 4 then "stopping"
    else if code == 5 then "recoverable"
    else if code == 6 then "finished"
    else if code == 7 then "stopped"
    else if code == 9 then "preflight_failed"
    else "failed"
  }

  /** `ensureNoActiveAccountSessions` counts these rows. */
  predicate HasActiveSession(db: DB, userId: int, accountId: int) {
    exists s :: s in db.sessions && db.sessions[s].userId == userId
                && db.sessions[s].accountId == accountId && ActiveStatus(db.sessions[s].status)
  }

  predicate AccountBusy(db: DB, accountId: int) {
    exists s :: s in db.sessions && db.sessions[s].accountId == accountId && ActiveStatus(db.sessions[s].status)
  }

  // ---- venues ----

  predicate ModesFitMarket(v: Venue) {
    match v.market
    case Spot => v.profile.margin == NoMargin && v.profile.position == NoPosition
    case Perpetual => v.profile.margin != NoMargin && v.profile.position != NoPosition
    case Delivery => true
  }

  predicate SameKeyScope(v: Venue, w: Venue) {
    v.exchange == w.exchange && v.environment == w.environment && v.market == w.market
    && v.profile.apiKey == w.profile.apiKey
  }

  /** `v` and `w` claim the same (account, exchange, market) route while active. */
  predicate SameRoute(v: Venue, w: Venue) {
    v.accountId.Some? && v.accountId == w.accountId && v.exchange == w.exchange && v.market == w.market
    && v.status == Active && w.status == Active
  }

  predicate RouteTaken(db: DB, id: int, v: Venue) {
    exists w :: w in db.venues && w != id && SameRoute(v, db.venues[w])
  }

  predicate KeyTaken(db: DB, v: Venue) {
    exists w :: w in db.venues && SameKeyScope(v, db.venues[w])
  }

  /** The repository's insert, which trusts its caller about the account it attaches to. */
  function InsertVenue(db: DB, id: int, v: Venue): Result<DB, Error> {
    if !ModesFitMarket(v) then Err(InvalidModes)
    else if id in db.venues || KeyTaken(db, v) || RouteTaken(db, id, v) then Err(Conflict)
    else if v.accountId.Some? && v.accountId.value !in db.accounts then Err(ForeignKey)
    else Ok(db.(venues := db.venues[id := v], origin := db.origin[id := v.accountId]))
  }

  /** What the service asks about an account before it inserts a venue attached to it. */
  function AttachError(db: DB, v: Venue): Option<Error> {
    match v.accountId
    case None => None
    case Some(a) =>
      if a !in db.accounts || db.accounts[a].userId != v.userId then Some(NotFound)
      else if !db.accounts[a].active then Some(FailedPrecondition)
      else if db.accounts[a].environment != v.environment then Some(FailedPrecondition)
      else if HasActiveSession(db, v.userId, a) then Some(FailedPrecondition)
      else None
  }

  /** The service's checks on a request to create `v`, which end before the insert begins: other
      transactions may commit in between. */
  function ApproveVenue(db: DB, v: Venue): Result<DB, Error> {
    if v.status == Archived then Err(InvalidArgument)
    else if AttachError(db, v).Some? then Err(AttachError(db, v).value)
    else Ok(db.(approved := db.approved + {v}))
  }

  predicate OwnsVenue(db: DB, userId: int, venueId: int) {
    venueId in db.venues && db.venues[venueId].userId == userId
  }

  function Rebind(wallets: map<int, WalletState>, venueId: int, accountId: Option<int>): map<int, WalletState> {
    if venueId in wallets then wallets[venueId := wallets[venueId].(accountId := accountId)] else wallets
  }

  function BindVenue(db: DB, userId: int, accountId: int, venueId: int, reason: string): Result<DB, Error> {
    if accountId !in db.accounts || db.accounts[accountId].userId != userId || !db.accounts[accountId].active then
      Err(NotFound)
    else if HasActiveSession(db, userId, accountId) then Err(Conflict)
    else if !OwnsVenue(db, userId, venueId) then Err(NotFound)
    else
      var v := db.venues[venueId];
      if v.environment != db.accounts[accountId].environment || v.status != Active then Err(Conflict)
      else if v.accountId.Some? && v.accountId.value != accountId
              && HasActiveSession(db, userId, v.accountId.value) then Err(Conflict)
      else if RouteTaken(db, venueId, v.(accountId := Some(accountId))) then Err(Conflict)
      else
        var released := if v.accountId.Some? && v.accountId.value != accountId
                        then [VenueEvent(venueId, v.accountId, userId, ReleaseEvent, reason)] else [];
        Ok(db.(venues := db.venues[venueId := v.(accountId := Some(accountId))],
               events := db.events + released + [VenueEvent(venueId, Some(accountId), userId, BindEvent, reason)],
               wallets := Rebind(db.wallets, venueId, Some(accountId))))
  }

  function ReleaseVenue(db: DB, userId: int, venueId: int, reason: string): Result<DB, Error> {
    if !OwnsVenue(db, userId, venueId) then Err(NotFound)
    else
      var v := db.venues[venueId];
      if v.accountId.Some? && HasActiveSession(db, userId, v.accountId.value) then Err(Conflict)
      else
        Ok(db.(venues := db.venues[venueId := v.(accountId := None)],
               events := db.events + [VenueEvent(venueId, v.accountId, userId, ReleaseEvent, reason)],
               wallets := Rebind(db.wallets, venueId, None)))
  }

  function ArchiveVenue(db: DB, userId: int, venueId: int, reason: string): Result<DB, Error> {
    if !OwnsVenue(db, userId, venueId) then Err(NotFound)
    else
      var v := db.venues[venueId];
      if v.accountId.Some? && HasActiveSession(db, userId, v.accountId.value) then Err(Conflict)
      else
        Ok(db.(venues := db.venues[venueId := v.(accountId := None, status := Archived, archivedReason := reason)],
               events := db.events + [VenueEvent(venueId, v.accountId, userId, ArchiveEvent, reason)],
               wallets := db.wallets - {venueId}))
  }

  /** `copy` is the venue row as the caller last read it, which need not be the current one. */
  function UpsertWallet(db: DB, venueId: int, copy: Venue, info: WalletInfo): Result<DB, Error> {
    if venueId !in db.venues || (copy.accountId.Some? && copy.accountId.value !in db.accounts) then Err(ForeignKey)
    else Ok(db.(wallets := db.wallets[venueId :=
                WalletState(copy.accountId, copy.userId, copy.exchange, copy.environment, copy.market, info)]))
  }

  // ---- session transactions ----

  function ActiveVenues(db: DB, accountId: int): set<int> {
    set v | v in db.venues && db.venues[v].accountId == Some(accountId) && db.venues[v].status == Active
  }

  function CaptureOf(v: Venue, accountId: int): Capture {
    Capture(accountId, v.userId, v.exchange, v.market, v.environment, v.profile, v.status)
  }

  /** The `ON CONFLICT` clause: the identifying columns of an existing row survive. */
  function MergeCapture(captures: map<(string, int), Capture>, key: (string, int), row: Capture): Capture {
    if key in captures then captures[key].(profile := row.profile, status := row.status) else row
  }

  function CaptureAll(db: DB, sessionId: string, accountId: int, venues: set<int>): map<(string, int), Capture>
    requires venues <= db.venues.Keys
  {
    db.captures + map v | v in venues :: (sessionId, v) :=
      MergeCapture(db.captures, (sessionId, v), CaptureOf(db.venues[v], accountId))
  }

  /** `draft.userId` is ignored: the row takes the owner of the account. */
  function SaveSession(db: DB, sessionId: string, draft: Session): Result<DB, Error> {
    var a := draft.accountId;
    if a !in db.accounts || db.accounts[a].environment != draft.environment then Err(NotFound)
    else if sessionId in db.sessions || (ActiveStatus(draft.status) && AccountBusy(db, a)) then Err(Conflict)
    else if a == 0 && ActiveVenues(db, a) != {} then Err(NotFound)
    else
      Ok(db.(sessions := db.sessions[sessionId := draft.(userId := db.accounts[a].userId)],
             captures := CaptureAll(db, sessionId, a, ActiveVenues(db, a))))
  }

  function UpdateSession(db: DB, sessionId: string, status: int, bars: int, error: string, runtimeId: string,
                         now: int): Result<DB, Error> {
    if sessionId !in db.sessions || !ActiveStatus(db.sessions[sessionId].status)
       || (runtimeId != "" && db.sessions[sessionId].runtimeId != runtimeId) then Err(NotFound)
    else
      var s := db.sessions[sessionId];
      Ok(db.(sessions := db.sessions[sessionId := s.(status := status, barsProcessed := bars, error := error,
               completedAt := if ActiveStatus(status) then s.completedAt else Some(now))]))
  }

  predicate RunsOn(s: Session, runtimeId: string) {
    s.runtimeId == runtimeId && ActiveStatus(s.status)
  }

  function Recover(s: Session, error: string, now: int): Session {
    s.(status := 5, error := error, completedAt := if s.completedAt.Some? then s.completedAt else Some(now))
  }

  function RunningOn(db: DB, runtimeId: string): set<string> {
    set s | s in db.sessions && RunsOn(db.sessions[s], runtimeId)
  }

  function MarkRecoverable(db: DB, runtimeId: string, error: string, now: int): Result<DB, Error> {
    var rt := TrimSpace(runtimeId);
    if rt == "" then Err(NotFound)
    else
      Ok(db.(sessions := map s | s in db.sessions ::
               if RunsOn(db.sessions[s], rt) then Recover(db.sessions[s], error, now) else db.sessions[s]))
  }

  function CreateAccount(db: DB, id: int, a: Account): Result<DB, Error> {
    if id in db.accounts then Err(Conflict) else Ok(db.(accounts := db.accounts[id := a]))
  }

  // ---- runs ----

  datatype Op =
    | OpCreateAccount(id: int, account: Account)
    | OpApproveVenue(venue: Venue)
    | OpInsertVenue(id: int, venue: Venue)
    | OpBind(userId: int, accountId: int, venueId: int, reason: string)
    | OpRelease(userId: int, venueId: int, reason: string)
    | OpArchive(userId: int, venueId: int, reason: string)
    | OpUpsertWallet(venueId: int, copy: Venue, info: WalletInfo)
    | OpSaveSession(sessionId: string, draft: Session)
    | OpUpdateSession(sessionId: string, status: int, bars: int, error: string, runtimeId: string, now: int)
    | OpMarkRecoverable(runtimeId: string, error: string, now: int)

  function Apply(db: DB, op: Op): Result<DB, Error> {
    match op
    case OpCreateAccount(id, a) => CreateAccount(db, id, a)
    case OpApproveVenue(v) => ApproveVenue(db, v)
    case OpInsertVenue(id, v) => if v in db.approved then InsertVenue(db, id, v) else Err(FailedPrecondition)
    case OpBind(u, a, v, reason) => BindVenue(db, u, a, v, reason)
    case OpRelease(u, v, reason) => ReleaseVenue(db, u, v, reason)
    case OpArchive(u, v, reason) => ArchiveVenue(db, u, v, reason)
    case OpUpsertWallet(v, copy, info) => UpsertWallet(db, v, copy, info)
    case OpSaveSession(id, draft) => SaveSession(db, id, draft)
    case OpUpdateSession(id, status, bars, error, rt, now) => UpdateSession(db, id, status, bars, error, rt, now)
    case OpMarkRecoverable(rt, error, now) => MarkRecoverable(db, rt, error, now)
  }

  function Step(db: DB, op: Op): DB {
    match Apply(db, op)
    case Ok(next) => next
    case Err(_) => db
  }

  /** The database after the given transactions, applied in order to empty tables. */
  function Run(ops: seq<Op>): DB {
    if ops == [] then EMPTY else Step(Run(ops[..|ops| - 1]), ops[|ops| - 1])
  }
}
