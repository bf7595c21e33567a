/** What each transaction does to each row, column by column: which steps may touch a row, what they leave in it,
    and exactly when they are accepted. */
module StoreSteps {
  import opened Wrappers
  import opened Text
  import opened StoreModel
  import opened StoreSafety

  /** Status 3 is running and 4 stopping. */
  predicate InProgress(status: int) {
    status == 3 || status == 4
  }

  /** No session on the account, whoever owns it, is running or stopping. */
  ghost predicate Idle(db: DB, accountId: int) {
    forall s :: s in db.sessions && db.sessions[s].accountId == accountId ==> !InProgress(db.sessions[s].status)
  }

  lemma IdleExact(db: DB, a: int)
    ensures Idle(db, a) <==> !AccountBusy(db, a)
  {
  }

  // ---- sessions ----

  /** The update names the session and is allowed to: a runtime id, where given, must be the row's own. */
  predicate Updates(op: Op, s: string, row: Session) {
    op.OpUpdateSession? && op.sessionId == s && (op.runtimeId == "" || op.runtimeId == row.runtimeId)
  }

  predicate Recovers(op: Op, row: Session) {
    op.OpMarkRecoverable? && TrimSpace(op.runtimeId) != "" && TrimSpace(op.runtimeId) == row.runtimeId
  }

  /** A session in progress changes exactly by an update of its own, to the given status, bars and error, or by a
      recovery of its runtime; leaving progress stamps the time. A session not in progress never changes. */
  predicate SessionAfter(op: Op, s: string, row: Session, row': Session) {
    && row'.accountId == row.accountId && row'.userId == row.userId
    && row'.environment == row.environment && row'.runtimeId == row.runtimeId
    && if InProgress(row.status) && Updates(op, s, row) then
         && row'.status == op.status && row'.barsProcessed == op.bars && row'.error == op.error
         && row'.completedAt == (if InProgress(op.status) then row.completedAt else Some(op.now))
       else if InProgress(row.status) && Recovers(op, row) then
         && row'.status == 5 && row'.barsProcessed == row.barsProcessed && row'.error == op.error
         && row'.completedAt == (if row.completedAt.Some? then row.completedAt else Some(op.now))
       else row' == row
  }

  lemma RecoveryChanges(db: DB, op: Op, s: string)
    requires s in db.sessions && op.OpMarkRecoverable?
    ensures s in Step(db, op).sessions && SessionAfter(op, s, db.sessions[s], Step(db, op).sessions[s])
  {
    hide TrimSpace;
  }

  lemma UpdateChanges(db: DB, op: Op, s: string)
    requires s in db.sessions && op.OpUpdateSession?
    ensures s in Step(db, op).sessions && SessionAfter(op, s, db.sessions[s], Step(db, op).sessions[s])
  {
    hide TrimSpace;
  }

  lemma OthersKeepSessions(db: DB, op: Op, s: string)
    requires s in db.sessions && !op.OpMarkRecoverable? && !op.OpUpdateSession?
    ensures s in Step(db, op).sessions && Step(db, op).sessions[s] == db.sessions[s]
  {
  }

  lemma SessionChanges(db: DB, op: Op, s: string)
    requires s in db.sessions
    ensures s in Step(db, op).sessions && SessionAfter(op, s, db.sessions[s], Step(db, op).sessions[s])
  {
    hide Step, TrimSpace;
    if op.OpMarkRecoverable? {
      RecoveryChanges(db, op, s);
    } else if op.OpUpdateSession? {
      UpdateChanges(db, op, s);
    } else {
      OthersKeepSessions(db, op, s);
    }
  }

  /** A session appears only by its own save: the draft, under the owner of an account of its environment. */
  lemma SessionAppears(db: DB, op: Op, s: string)
    requires s !in db.sessions && s in Step(db, op).sessions
    ensures op.OpSaveSession? && op.sessionId == s && op.draft.accountId in db.accounts
    ensures var account, row := db.accounts[op.draft.accountId], Step(db, op).sessions[s];
            account.environment == row.environment && row.userId == account.userId
            && row == op.draft.(userId := row.userId)
  {
  }

  /** The step names no session of the runtime: an update gives another runtime's id, and so does a recovery. */
  predicate Foreign(op: Op, runtimeId: string) {
    (op.OpUpdateSession? ==> op.runtimeId != "" && op.runtimeId != runtimeId)
    && (op.OpMarkRecoverable? ==> TrimSpace(op.runtimeId) != runtimeId)
  }

  /** Whatever other runtimes do, a runtime's sessions stay as they are. */
  lemma {:induction false} ForeignStepsLeaveSession(before: seq<Op>, after: seq<Op>, s: string)
    requires s in Run(before).sessions
    requires forall op :: op in after ==> Foreign(op, Run(before).sessions[s].runtimeId)
    ensures s in Run(before + after).sessions
    ensures Run(before + after).sessions[s] == Run(before).sessions[s]
  {
    hide Step, TrimSpace;
    if after == [] {
      assert before + after == before;
    } else {
      var rest, op := after[..|after| - 1], after[|after| - 1];
      ForeignStepsLeaveSession(before, rest, s);
      assert (before + after)[..|before + after| - 1] == before + rest;
      assert op in after;
      SessionChanges(Run(before + rest), op, s);
    }
  }

  // ---- venues ----

  /** How the step leaves the row of venue `v`: moved by a bind of its owner to an active account of the same owner
      and environment while active itself, released or archived by its owner, or as it was. */
  ghost predicate VenueAfter(db: DB, op: Op, v: int, row: Venue, row': Venue) {
    if op.OpBind? && op.venueId == v && row' != row then
      && row' == row.(accountId := Some(op.accountId)) && row.status == Active
      && op.userId == row.userId && op.accountId in db.accounts && db.accounts[op.accountId].active
      && db.accounts[op.accountId].userId == row.userId && db.accounts[op.accountId].environment == row.environment
    else if op.OpRelease? && op.venueId == v && row' != row then
      op.userId == row.userId && row' == row.(accountId := None)
    else if op.OpArchive? && op.venueId == v && row' != row then
      op.userId == row.userId && row' == row.(accountId := None, status := Archived, archivedReason := op.reason)
    else row' == row
  }

  lemma VenueChanges(db: DB, op: Op, v: int)
    requires v in db.venues
    ensures v in Step(db, op).venues && VenueAfter(db, op, v, db.venues[v], Step(db, op).venues[v])
  {
  }

  /** A venue appears only by the insert of an approved one, and then fits its market. */
  lemma VenueAppears(db: DB, op: Op, v: int)
    requires v !in db.venues && v in Step(db, op).venues
    ensures op.OpInsertVenue? && op.id == v && op.venue in db.approved && Step(db, op).venues[v] == op.venue
    ensures FitsMarket(op.venue)
  {
  }

  /** Spot trades with neither mode, perpetual futures with both. */
  predicate FitsMarket(v: Venue) {
    (v.market == Spot ==> v.profile.margin == NoMargin && v.profile.position == NoPosition)
    && (v.market == Perpetual ==>
          (v.profile.margin == Cross || v.profile.margin == Isolated)
          && (v.profile.position == OneWay || v.profile.position == Hedge))
  }

  /** One API key serves one venue in a scope. */
  predicate SharesKey(v: Venue, w: Venue) {
    v.exchange == w.exchange && v.environment == w.environment && v.market == w.market
    && v.profile.apiKey == w.profile.apiKey
  }

  ghost predicate Sound(db: DB) {
    (forall v :: v in db.venues ==> FitsMarket(db.venues[v]))
    && (forall v, w :: v in db.venues && w in db.venues && v != w ==> !SharesKey(db.venues[v], db.venues[w]))
  }

  lemma InsertKeepsSound(db: DB, id: int, v: Venue)
    requires Sound(db) && InsertVenue(db, id, v).Ok?
    ensures Sound(InsertVenue(db, id, v).value)
  {
    var db' := InsertVenue(db, id, v).value;
    assert forall w :: w in db.venues ==> !SameKeyScope(v, db.venues[w]);
  }

  /** In every reachable database each venue fits its market and no two share a key in one scope. */
  lemma {:induction false} VenuesAreSound(ops: seq<Op>)
    ensures Sound(Run(ops))
  {
    if ops != [] {
      var n := |ops| - 1;
      var db, db', op := Run(ops[..n]), Run(ops), ops[n];
      VenuesAreSound(ops[..n]);
      if op.OpInsertVenue? {
        if Apply(db, op).Ok? {
          InsertKeepsSound(db, op.id, op.venue);
        }
      } else {
        forall v | v in db'.venues
          ensures v in db.venues && FitsMarket(db'.venues[v])
          ensures v in db.venues && forall w: Venue :: SharesKey(w, db'.venues[v]) <==> SharesKey(w, db.venues[v])
        {
          KeepsIdentity(db, op, v);
        }
        hide Step, FitsMarket;
      }
    }
  }

  lemma KeepsIdentity(db: DB, op: Op, v: int)
    requires v in Step(db, op).venues && !op.OpInsertVenue?
    ensures v in db.venues
    ensures var row, row' := db.venues[v], Step(db, op).venues[v];
            row'.exchange == row.exchange && row'.environment == row.environment && row'.market == row.market
            && row'.profile == row.profile && row'.userId == row.userId
  {
  }

  // ---- events and wallet rows ----

  /** What the step adds to the audit trail: a move tells both accounts, the one left first; each event carries the
      caller and the reason given. */
  ghost predicate EventsAfter(db: DB, op: Op, added: seq<VenueEvent>) {
    if op.OpBind? && Apply(db, op).Ok? && op.venueId in db.venues then
      var from := db.venues[op.venueId].accountId;
      var bound := VenueEvent(op.venueId, Some(op.accountId), op.userId, BindEvent, op.reason);
      if from == None || from == Some(op.accountId) then added == [bound]
      else added == [VenueEvent(op.venueId, from, op.userId, ReleaseEvent, op.reason), bound]
    else if (op.OpRelease? || op.OpArchive?) && Apply(db, op).Ok? && op.venueId in db.venues then
      added == [VenueEvent(op.venueId, db.venues[op.venueId].accountId, op.userId,
                           if op.OpRelease? then ReleaseEvent else ArchiveEvent, op.reason)]
    else added == []
  }

  lemma EventsAppended(db: DB, op: Op)
    ensures db.events <= Step(db, op).events && EventsAfter(db, op, Step(db, op).events[|db.events|..])
  {
  }

  /** How the step leaves the wallet row of venue `v`: rewritten from the caller's copy and the refresh, moved with
      its venue, deleted with the archive, or as it was. */
  ghost predicate WalletAfter(db: DB, op: Op, v: int, row: Option<WalletState>, row': Option<WalletState>) {
    if op.OpUpsertWallet? && op.venueId == v && Apply(db, op).Ok? then
      row' == Some(WalletState(op.copy.accountId, op.copy.userId, op.copy.exchange, op.copy.environment, op.copy.market,
                               op.info))
    else if op.OpBind? && op.venueId == v && Apply(db, op).Ok? then
      row' == if row.Some? then Some(row.value.(accountId := Some(op.accountId))) else None
    else if op.OpRelease? && op.venueId == v && Apply(db, op).Ok? then
      row' == if row.Some? then Some(row.value.(accountId := None)) else None
    else if op.OpArchive? && op.venueId == v && Apply(db, op).Ok? then row' == None
    else row' == row
  }

  function WalletOf(db: DB, v: int): Option<WalletState> {
    if v in db.wallets then Some(db.wallets[v]) else None
  }

  lemma WalletChanges(db: DB, op: Op, v: int)
    ensures WalletAfter(db, op, v, WalletOf(db, v), WalletOf(Step(db, op), v))
  {
  }

  // ---- exactly when a step is accepted ----

  /** Another active venue serves the account on the same exchange and market. */
  ghost predicate RouteServed(db: DB, v: int, accountId: int, exchange: int, market: Market) {
    exists w :: w in db.venues && w != v && db.venues[w].accountId == Some(accountId) && db.venues[w].status == Active
                && db.venues[w].exchange == exchange && db.venues[w].market == market
  }

  lemma RouteExact(db: DB, id: int, v: Venue)
    ensures RouteTaken(db, id, v) <==>
            v.status == Active && v.accountId.Some? && RouteServed(db, id, v.accountId.value, v.exchange, v.market)
  {
    if v.status == Active && v.accountId.Some? && RouteServed(db, id, v.accountId.value, v.exchange, v.market) {
      var w :| w in db.venues && w != id && db.venues[w].accountId == v.accountId && db.venues[w].status == Active
               && db.venues[w].exchange == v.exchange && db.venues[w].market == v.market;
      assert SameRoute(v, db.venues[w]);
    }
  }

  /** The owner may bind an active venue to an active account of the same environment when neither that account nor
      the one it leaves has a session in progress, of any owner, and the route is free; then it is bound. */
  lemma BindAcceptedIff(db: DB, userId: int, a: int, v: int, reason: string)
    requires Inv(db)
    ensures BindVenue(db, userId, a, v, reason).Ok? <==>
            && a in db.accounts && db.accounts[a].userId == userId && db.accounts[a].active && Idle(db, a)
            && v in db.venues && db.venues[v].userId == userId && db.venues[v].status == Active
            && db.venues[v].environment == db.accounts[a].environment
            && (db.venues[v].accountId.Some? ==> Idle(db, db.venues[v].accountId.value))
            && !RouteServed(db, v, a, db.venues[v].exchange, db.venues[v].market)
    ensures BindVenue(db, userId, a, v, reason).Ok? ==>
              BindVenue(db, userId, a, v, reason).value.venues[v].accountId == Some(a)
  {
    IdleExact(db, a);
    if a in db.accounts {
      OwnerSeesAll(db, a);
    }
    if v in db.venues {
      var row := db.venues[v];
      RouteExact(db, v, row.(accountId := Some(a)));
      if row.accountId.Some? {
        IdleExact(db, row.accountId.value);
        GuardIsExact(db, v);
      }
    }
    hide Idle, AccountBusy, HasActiveSession, RouteTaken, RouteServed, Inv;
  }

  lemma OwnerSeesAll(db: DB, a: int)
    requires SessionsOwned(db) && a in db.accounts
    ensures HasActiveSession(db, db.accounts[a].userId, a) <==> AccountBusy(db, a)
  {
  }

  /** The owner may release or archive a venue when its account, if any, has no session in progress of any owner. */
  lemma UnbindAcceptedIff(db: DB, userId: int, v: int, reason: string)
    requires Inv(db)
    ensures var allowed := v in db.venues && db.venues[v].userId == userId
                           && (db.venues[v].accountId.Some? ==> Idle(db, db.venues[v].accountId.value));
            && (ReleaseVenue(db, userId, v, reason).Ok? <==> allowed)
            && (ArchiveVenue(db, userId, v, reason).Ok? <==> allowed)
    ensures ReleaseVenue(db, userId, v, reason).Ok? ==>
              ReleaseVenue(db, userId, v, reason).value.venues[v].accountId == None
    ensures ArchiveVenue(db, userId, v, reason).Ok? ==>
              ArchiveVenue(db, userId, v, reason).value.venues[v].status == Archived
  {
    if v in db.venues && db.venues[v].accountId.Some? {
      IdleExact(db, db.venues[v].accountId.value);
      GuardIsExact(db, v);
    }
    hide Idle, AccountBusy, HasActiveSession, Inv;
  }

  /** The attach check passes an unattached venue, and one whose owner has an idle active account of its environment. */
  lemma ApprovedIff(db: DB, v: Venue)
    requires Inv(db)
    ensures ApproveVenue(db, v).Ok? <==>
            && v.status != Archived
            && (v.accountId.Some? ==>
                  && v.accountId.value in db.accounts && db.accounts[v.accountId.value].active
                  && db.accounts[v.accountId.value].userId == v.userId
                  && db.accounts[v.accountId.value].environment == v.environment && Idle(db, v.accountId.value))
  {
    if v.accountId.Some? && v.accountId.value in db.accounts {
      IdleExact(db, v.accountId.value);
      OwnerSeesAll(db, v.accountId.value);
    }
    hide Idle, AccountBusy, HasActiveSession;
  }

  /** The insert takes a fresh id, a free key, a free route and an account that exists. */
  lemma InsertAcceptedIff(db: DB, id: int, v: Venue)
    ensures InsertVenue(db, id, v).Ok? <==>
            && FitsMarket(v) && id !in db.venues && (v.accountId.Some? ==> v.accountId.value in db.accounts)
            && (forall w :: w in db.venues ==> !SharesKey(v, db.venues[w]))
            && (v.status == Active && v.accountId.Some? ==>
                  !RouteServed(db, id, v.accountId.value, v.exchange, v.market))
  {
    RouteExact(db, id, v);
    hide RouteTaken, RouteServed;
    assert KeyTaken(db, v) <==> exists w :: w in db.venues && SharesKey(v, db.venues[w]);
  }

  /** A session is saved on an account of its environment, under a new id, and in progress only on an idle account. */
  lemma SaveAcceptedIff(db: DB, s: string, draft: Session)
    ensures SaveSession(db, s, draft).Ok? <==>
            && draft.accountId in db.accounts && db.accounts[draft.accountId].environment == draft.environment
            && s !in db.sessions && (InProgress(draft.status) ==> Idle(db, draft.accountId))
            && (draft.accountId == 0 ==> forall v :: v in db.venues ==>
                  db.venues[v].accountId != Some(0) || db.venues[v].status != Active)
  {
    IdleExact(db, draft.accountId);
    hide Idle, AccountBusy;
    NoActiveVenues(db, draft.accountId);
  }

  lemma NoActiveVenues(db: DB, a: int)
    ensures ActiveVenues(db, a) == {} <==>
            forall v :: v in db.venues ==> db.venues[v].accountId != Some(a) || db.venues[v].status != Active
  {
    if forall v :: v in db.venues ==> db.venues[v].accountId != Some(a) || db.venues[v].status != Active {
      assert forall v :: v !in ActiveVenues(db, a);
    } else {
      var v :| v in db.venues && !(db.venues[v].accountId != Some(a) || db.venues[v].status != Active);
      assert v in ActiveVenues(db, a);
    }
  }

  /** An update is accepted exactly for a session in progress and, where a runtime is named, of that runtime. */
  lemma UpdateAcceptedIff(db: DB, s: string, status: int, bars: int, error: string, runtimeId: string, now: int)
    ensures UpdateSession(db, s, status, bars, error, runtimeId, now).Ok? <==>
            s in db.sessions && InProgress(db.sessions[s].status)
            && (runtimeId == "" || db.sessions[s].runtimeId == runtimeId)
  {
  }

  /** The sessions a recovery counts are the runtime's sessions in progress. */
  lemma RunningExact(db: DB, runtimeId: string, s: string)
    ensures s in RunningOn(db, runtimeId) <==>
            s in db.sessions && InProgress(db.sessions[s].status) && db.sessions[s].runtimeId == runtimeId
  {
  }
}
