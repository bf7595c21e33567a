/** What every reachable database satisfies, and what a run of transactions can never undo. */
module StoreSafety {
  import opened Wrappers
  import opened StoreModel

  // ---- the inductive invariant ----

  /** A bound venue and its account have the same owner and environment. */
  predicate Aligned(db: DB, v: Venue) {
    v.accountId.Some? ==>
      v.accountId.value in db.accounts
      && db.accounts[v.accountId.value].userId == v.userId
      && db.accounts[v.accountId.value].environment == v.environment
  }

  ghost predicate VenuesAligned(db: DB) {
    forall v :: v in db.venues ==> Aligned(db, db.venues[v])
  }

  ghost predicate ArchivedUnbound(db: DB) {
    forall v :: v in db.venues && db.venues[v].status == Archived ==> db.venues[v].accountId == None
  }

  predicate Owned(db: DB, s: Session) {
    s.accountId in db.accounts && db.accounts[s.accountId].userId == s.userId
    && db.accounts[s.accountId].environment == s.environment
  }

  ghost predicate SessionsOwned(db: DB) {
    forall s :: s in db.sessions ==> Owned(db, db.sessions[s])
  }

  /** The capture is still an exact picture of the venue, which still serves the account. */
  predicate Intact(db: DB, s: Session, v: int, row: Capture) {
    v in db.venues && db.venues[v].accountId == Some(s.accountId) && db.venues[v].status == Active
    && db.venues[v].environment == s.environment && db.venues[v].userId == s.userId
    && row == CaptureOf(db.venues[v], s.accountId)
  }

  /** Every venue captured for a session that is still active is intact. */
  ghost predicate Protected(db: DB) {
    forall s, v :: (s, v) in db.captures ==>
      s in db.sessions
      && (ActiveStatus(db.sessions[s].status) ==> Intact(db, db.sessions[s], v, db.captures[(s, v)]))
  }

  /** No two active sessions share an account; no two active venues share a route. */
  ghost predicate Exclusive(db: DB) {
    (forall s, t :: s in db.sessions && t in db.sessions && s != t
        && ActiveStatus(db.sessions[s].status) && ActiveStatus(db.sessions[t].status)
        ==> db.sessions[s].accountId != db.sessions[t].accountId)
    && (forall v, w :: v in db.venues && w in db.venues && v != w ==> !SameRoute(db.venues[v], db.venues[w]))
  }

  /** The binding a venue has after its audit events, or None when the log contradicts itself: a
      bind displaced an account it did not name, or a release names an account that was not bound. */
  function Replay(events: seq<VenueEvent>, v: int, start: Option<int>): Option<Option<int>> {
    if events == [] then Some(start)
    else
      var before := Replay(events[..|events| - 1], v, start);
      var e := events[|events| - 1];
      if before.None? || e.venueId != v then before
      else if e.kind == BindEvent then
        if e.accountId.Some? && (before.value.None? || before.value == e.accountId) then Some(e.accountId) else None
      else if e.accountId == before.value then Some(None) else None
  }

  ghost predicate AuditOf(db: DB, v: int) {
    v in db.origin && v in db.venues && Replay(db.events, v, db.origin[v]) == Some(db.venues[v].accountId)
  }

  ghost predicate Audited(db: DB) {
    (forall v :: v in db.venues ==> AuditOf(db, v))
    && (forall i :: 0 <= i < |db.events| ==> db.events[i].venueId in db.venues)
  }

  /** A request that passed its attach check stays fit to insert: accounts keep their owner and environment. */
  ghost predicate ApprovalsAligned(db: DB) {
    forall v :: v in db.approved ==> Aligned(db, v) && v.status != Archived
  }

  ghost predicate Inv(db: DB) {
    VenuesAligned(db) && ArchivedUnbound(db) && SessionsOwned(db) && Protected(db) && Exclusive(db) && Audited(db)
    && ApprovalsAligned(db)
  }

  // ---- preservation, transaction by transaction ----

  /** The guard on release, archive and rebind filters sessions by the venue's owner, yet misses none:
      session, account and venue have one owner. */
  lemma GuardIsExact(db: DB, v: int)
    requires Inv(db) && v in db.venues && db.venues[v].accountId.Some?
    ensures var a := db.venues[v].accountId.value;
            HasActiveSession(db, db.venues[v].userId, a) <==> AccountBusy(db, a)
  {
  }

  /** Changing venue `id` breaks no capture when its account has no active session. */
  lemma IdleVenueUnprotected(db: DB, db': DB, id: int)
    requires Inv(db) && id in db.venues
    requires db.venues[id].accountId.Some? ==>
               !HasActiveSession(db, db.venues[id].userId, db.venues[id].accountId.value)
    requires db'.sessions == db.sessions && db'.captures == db.captures
    requires forall w :: w in db.venues && w != id ==> w in db'.venues && db'.venues[w] == db.venues[w]
    ensures Protected(db')
  {
  }

  lemma {:induction false} ReplayOther(events: seq<VenueEvent>, v: int, start: Option<int>)
    requires forall i :: 0 <= i < |events| ==> events[i].venueId != v
    ensures Replay(events, v, start) == Some(start)
  {
    if events != [] {
      ReplayOther(events[..|events| - 1], v, start);
    }
  }

  lemma ReplayPush(events: seq<VenueEvent>, e: VenueEvent, v: int, start: Option<int>)
    ensures var before := Replay(events, v, start);
            Replay(events + [e], v, start) ==
              if before.None? || e.venueId != v then before
              else if e.kind == BindEvent then
                if e.accountId.Some? && (before.value.None? || before.value == e.accountId) then Some(e.accountId)
                else None
              else if e.accountId == before.value then Some(None) else None
  {
  }

  /** Inserting keeps the invariant exactly when the venue is free, or fits its account and is not archived. */
  lemma InsertKeepsInvIff(db: DB, id: int, v: Venue)
    requires Inv(db) && InsertVenue(db, id, v).Ok?
    ensures Inv(InsertVenue(db, id, v).value) <==> v.accountId.None? || (Aligned(db, v) && v.status != Archived)
  {
    var db' := InsertVenue(db, id, v).value;
    assert db'.venues[id] == v;
    InsertKeepsTables(db, id, v);
    hide InsertVenue, Protected, Exclusive, SessionsOwned, Audited;
  }

  /** What an insert keeps whoever the venue belongs to. */
  lemma InsertKeepsTables(db: DB, id: int, v: Venue)
    requires Inv(db) && InsertVenue(db, id, v).Ok?
    ensures var db' := InsertVenue(db, id, v).value;
            SessionsOwned(db') && Protected(db') && Exclusive(db') && Audited(db')
  {
    ReplayOther(db.events, id, v.accountId);
  }

  /** Rebinding, releasing or archiving one venue keeps the venue-level facts. */
  lemma VenueChangeKeepsShape(db: DB, db': DB, id: int, v': Venue)
    requires Inv(db) && id in db.venues
    requires db'.venues == db.venues[id := v'] && db'.accounts == db.accounts && db'.sessions == db.sessions
    requires Aligned(db, v') && (v'.status == Archived ==> v'.accountId == None)
    requires v'.accountId.Some? ==> !RouteTaken(db, id, v')
    ensures VenuesAligned(db') && ArchivedUnbound(db') && SessionsOwned(db') && Exclusive(db')
  {
  }

  lemma BindKeepsInv(db: DB, userId: int, accountId: int, id: int, reason: string)
    requires Inv(db) && BindVenue(db, userId, accountId, id, reason).Ok?
    ensures Inv(BindVenue(db, userId, accountId, id, reason).value)
  {
    var db' := BindVenue(db, userId, accountId, id, reason).value;
    var v := db.venues[id];
    var v' := v.(accountId := Some(accountId));
    VenueChangeKeepsShape(db, db', id, v');
    IdleVenueUnprotected(db, db', id);
    var released := VenueEvent(id, v.accountId, userId, ReleaseEvent, reason);
    var bound := VenueEvent(id, Some(accountId), userId, BindEvent, reason);
    var moved := v.accountId.Some? && v.accountId.value != accountId;
    assert db'.events == if moved then (db.events + [released]) + [bound] else db.events + [bound];
    forall w | w in db'.venues
      ensures AuditOf(db', w)
    {
      assert AuditOf(db, w);
      if moved {
        ReplayPush(db.events, released, w, db.origin[w]);
        ReplayPush(db.events + [released], bound, w, db.origin[w]);
      } else {
        ReplayPush(db.events, bound, w, db.origin[w]);
      }
    }
  }

  lemma ReleaseKeepsInv(db: DB, userId: int, id: int, reason: string)
    requires Inv(db) && ReleaseVenue(db, userId, id, reason).Ok?
    ensures Inv(ReleaseVenue(db, userId, id, reason).value)
  {
    var db' := ReleaseVenue(db, userId, id, reason).value;
    VenueChangeKeepsShape(db, db', id, db.venues[id].(accountId := None));
    IdleVenueUnprotected(db, db', id);
    UnbindKeepsAudit(db, db', id, VenueEvent(id, db.venues[id].accountId, userId, ReleaseEvent, reason));
  }

  lemma ArchiveKeepsInv(db: DB, userId: int, id: int, reason: string)
    requires Inv(db) && ArchiveVenue(db, userId, id, reason).Ok?
    ensures Inv(ArchiveVenue(db, userId, id, reason).value)
  {
    var db' := ArchiveVenue(db, userId, id, reason).value;
    VenueChangeKeepsShape(db, db', id, db'.venues[id]);
    IdleVenueUnprotected(db, db', id);
    UnbindKeepsAudit(db, db', id, VenueEvent(id, db.venues[id].accountId, userId, ArchiveEvent, reason));
  }

  lemma UnbindKeepsAudit(db: DB, db': DB, id: int, e: VenueEvent)
    requires Audited(db) && id in db.venues
    requires e.venueId == id && e.accountId == db.venues[id].accountId && e.kind != BindEvent
    requires db'.events == db.events + [e] && db'.origin == db.origin && db'.venues.Keys == db.venues.Keys
    requires db'.venues[id].accountId == None
    requires forall w :: w in db.venues && w != id ==> db'.venues[w] == db.venues[w]
    ensures Audited(db')
  {
  }

  /** `db'` is `db` with session `id` added and the active venues of its account captured. */
  ghost predicate Saves(db: DB, db': DB, id: string, row: Session) {
    id !in db.sessions && Owned(db, row) && (ActiveStatus(row.status) ==> !AccountBusy(db, row.accountId))
    && db' == db.(sessions := db.sessions[id := row], captures := db'.captures)
    && (forall s, v :: (s, v) in db'.captures <==>
          (s, v) in db.captures || (s == id && v in ActiveVenues(db, row.accountId)))
    && (forall s, v :: (s, v) in db.captures ==> db'.captures[(s, v)] == db.captures[(s, v)])
    && (forall v :: v in ActiveVenues(db, row.accountId) ==>
        db'.captures[(id, v)] == CaptureOf(db.venues[v], row.accountId))
  }

  lemma SaveSessionSaves(db: DB, id: string, draft: Session)
    requires Protected(db) && SaveSession(db, id, draft).Ok?
    ensures Saves(db, SaveSession(db, id, draft).value, id, draft.(userId := db.accounts[draft.accountId].userId))
  {
  }

  lemma SavesKeepsProtected(db: DB, db': DB, id: string, row: Session)
    requires VenuesAligned(db) && Protected(db) && Saves(db, db', id, row)
    ensures Protected(db')
  {
  }

  lemma SavesKeepsRest(db: DB, db': DB, id: string, row: Session)
    requires Inv(db) && Saves(db, db', id, row)
    ensures VenuesAligned(db') && ArchivedUnbound(db') && SessionsOwned(db') && Exclusive(db') && Audited(db')
    ensures ApprovalsAligned(db')
  {
  }

  lemma {:induction false} SaveSessionKeepsInv(db: DB, id: string, draft: Session)
    requires Inv(db) && SaveSession(db, id, draft).Ok?
    ensures Inv(SaveSession(db, id, draft).value)
  {
    var db', row := SaveSession(db, id, draft).value, draft.(userId := db.accounts[draft.accountId].userId);
    SaveSessionSaves(db, id, draft);
    hide SaveSession, Saves, VenuesAligned, ArchivedUnbound, SessionsOwned, Protected, Exclusive, Audited,
      ApprovalsAligned;
    SavesKeepsProtected(db, db', id, row);
    SavesKeepsRest(db, db', id, row);
  }

  /** Sessions that keep their account and never become active again keep the invariant. */
  lemma SessionChangeKeepsInv(db: DB, db': DB)
    requires Inv(db)
    requires db' == db.(sessions := db'.sessions) && db'.sessions.Keys == db.sessions.Keys
    requires forall s :: s in db.sessions ==>
               && db'.sessions[s].accountId == db.sessions[s].accountId
               && db'.sessions[s].userId == db.sessions[s].userId
               && db'.sessions[s].environment == db.sessions[s].environment
               && (ActiveStatus(db'.sessions[s].status) ==> ActiveStatus(db.sessions[s].status))
    ensures Inv(db')
  {
  }

  lemma AccountKeepsInv(db: DB, id: int, a: Account)
    requires Inv(db) && id !in db.accounts
    ensures Inv(db.(accounts := db.accounts[id := a]))
  {
  }

  lemma ApproveKeepsInv(db: DB, v: Venue)
    requires Inv(db) && ApproveVenue(db, v).Ok?
    ensures Inv(ApproveVenue(db, v).value)
  {
  }

  lemma WalletsKeepInv(db: DB, wallets: map<int, WalletState>)
    requires Inv(db)
    ensures Inv(db.(wallets := wallets))
  {
  }

  lemma {:induction false} StepKeepsInv(db: DB, op: Op)
    requires Inv(db)
    ensures Inv(Step(db, op))
  {
    if Apply(db, op).Ok? {
      match op
      case OpCreateAccount(id, a) => AccountKeepsInv(db, id, a);
      case OpApproveVenue(v) => ApproveKeepsInv(db, v);
      case OpInsertVenue(id, v) => InsertKeepsInvIff(db, id, v);
      case OpBind(u, a, v, reason) => BindKeepsInv(db, u, a, v, reason);
      case OpRelease(u, v, reason) => ReleaseKeepsInv(db, u, v, reason);
      case OpArchive(u, v, reason) => ArchiveKeepsInv(db, u, v, reason);
      case OpUpsertWallet(v, copy, info) => WalletsKeepInv(db, UpsertWallet(db, v, copy, info).value.wallets);
      case OpSaveSession(id, draft) => SaveSessionKeepsInv(db, id, draft);
      case OpUpdateSession(_, _, _, _, _, _) => SessionChangeKeepsInv(db, Step(db, op));
      case OpMarkRecoverable(_, _, _) => SessionChangeKeepsInv(db, Step(db, op));
    }
  }

  // ---- whole runs ----

  /** Every reachable database satisfies the invariant. */
  lemma {:induction false} RunKeepsInv(ops: seq<Op>)
    ensures Inv(Run(ops))
  {
    if ops != [] {
      RunKeepsInv(ops[..|ops| - 1]);
      StepKeepsInv(Run(ops[..|ops| - 1]), ops[|ops| - 1]);
    }
  }

  /** Whatever ran in between, a venue captured for a session in status 3 or 4 is bound to that session's account,
      active, in its environment and of its owner, and every captured column is still the venue's. */
  lemma {:induction false} CapturedVenuesStayBound(ops: seq<Op>, s: string, v: int)
    requires var db := Run(ops);
             (s, v) in db.captures && s in db.sessions && (db.sessions[s].status == 3 || db.sessions[s].status == 4)
    ensures v in Run(ops).venues
    ensures var db := Run(ops);
            var session, venue, row := db.sessions[s], db.venues[v], db.captures[(s, v)];
            && venue.accountId == Some(session.accountId) && venue.status == Active
            && venue.environment == session.environment && venue.userId == session.userId
            && row.accountId == session.accountId && row.userId == venue.userId && row.exchange == venue.exchange
            && row.market == venue.market && row.environment == venue.environment && row.profile == venue.profile
            && row.status == venue.status
  {
    RunKeepsInv(ops);
    hide Run;
  }

  /** The audit log alone reconstructs the current binding of every venue. */
  lemma AuditReconstructsBinding(ops: seq<Op>, v: int)
    requires v in Run(ops).venues
    ensures v in Run(ops).origin
    ensures Replay(Run(ops).events, v, Run(ops).origin[v]) == Some(Run(ops).venues[v].accountId)
  {
    RunKeepsInv(ops);
    assert AuditOf(Run(ops), v);
  }

  /** An account never has two active sessions, nor two active venues on one exchange market. */
  lemma {:induction false} OneSessionOneRoute(ops: seq<Op>)
    ensures var rows := Run(ops).sessions;
            forall s, t :: s in rows && t in rows && s != t && rows[s].accountId == rows[t].accountId ==>
              (rows[s].status == 3 || rows[s].status == 4) ==> rows[t].status != 3 && rows[t].status != 4
    ensures var venues := Run(ops).venues;
            forall v, w :: v in venues && w in venues && v != w ==>
              venues[v].status == Active && venues[w].status == Active && venues[v].accountId.Some? ==>
              venues[v].accountId == venues[w].accountId && venues[v].exchange == venues[w].exchange ==>
              venues[v].market != venues[w].market
  {
    RunKeepsInv(ops);
    hide Run;
  }
}
