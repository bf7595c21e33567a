/** The repository: tables held as fields, each transaction a method that checks, writes and commits.
    Every method is proved to have exactly the effect `StoreModel` gives its transaction. */
module RepositoryImpl {
  import opened Wrappers
  import opened Text
  import opened StoreModel

  function Elements(ids: seq<int>): set<int> {
    set i | 0 <= i < |ids| :: ids[i]
  }

  lemma ElementsPush(ids: seq<int>, v: int)
    ensures Elements(ids + [v]) == Elements(ids) + {v}
  {
    var all := ids + [v];
    forall x | x in Elements(ids) + {v}
      ensures x in Elements(all)
    {
      if x in Elements(ids) {
        var i :| 0 <= i < |ids| && ids[i] == x;
        assert all[i] == x;
      } else {
        assert all[|ids|] == x;
      }
    }
  }

  function Rank(m: Market): nat {
    match m
    case Spot => 1
    case Perpetual => 2
    case Delivery => 3
  }

  /** `ORDER BY exchange, market` may put `v` before `w`. */
  predicate ListedNoLater(v: Venue, w: Venue) {
    v.exchange < w.exchange || (v.exchange == w.exchange && Rank(v.market) <= Rank(w.market))
  }

  /** By exchange; on one exchange spot comes first and delivery last. */
  lemma ListedExact(v: Venue, w: Venue)
    ensures ListedNoLater(v, w) <==>
            v.exchange < w.exchange
            || (v.exchange == w.exchange && (v.market == w.market || v.market == Spot || w.market == Delivery))
  {
  }

  lemma {:induction false} FirstExists(venues: map<int, Venue>, rows: set<int>) returns (v: int)
    requires rows != {} && rows <= venues.Keys
    ensures v in rows && forall w :: w in rows ==> ListedNoLater(venues[v], venues[w])
    decreases |rows|
  {
    v := SomeElement(rows);
    var rest := rows - {v};
    assert rows == rest + {v};
    if rest != {} {
      var other := FirstExists(venues, rest);
      if !ListedNoLater(venues[v], venues[other]) {
        v := other;
      }
    }
  }

  lemma CaptureOneMore(db: DB, sessionId: string, accountId: int, done: set<int>, v: int)
    requires done <= db.venues.Keys && v in db.venues
    ensures var rows := CaptureAll(db, sessionId, accountId, done);
            var key := (sessionId, v);
            CaptureAll(db, sessionId, accountId, done + {v})
            == rows[key := MergeCapture(rows, key, CaptureOf(db.venues[v], accountId))]
  {
  }

  class Repository {
    var accounts: map<int, Account>
    var venues: map<int, Venue>
    var events: seq<VenueEvent>
    var wallets: map<int, WalletState>
    var sessions: map<string, Session>
    var captures: map<(string, int), Capture>
    ghost var approved: set<Venue>             // what requests in flight have been allowed to insert
    ghost var origin: map<int, Option<int>>

    ghost function State(): DB
      reads this
    {
      DB(accounts, venues, events, wallets, sessions, captures, approved, origin)
    }

    constructor ()
      ensures State() == Run([])
    {
      accounts, venues, events, wallets, sessions, captures := map[], map[], [], map[], map[], map[];
      approved, origin := {}, map[];
    }

    method CountActiveSessions(userId: int, accountId: int) returns (n: nat)
      ensures n > 0 <==> HasActiveSession(State(), userId, accountId)
    {
      var found := set s | s in sessions && sessions[s].userId == userId && sessions[s].accountId == accountId
                           && ActiveStatus(sessions[s].status);
      n := |found|;
      if n == 0 {
        assert forall s :: s in sessions ==> s !in found;
      } else {
        var s :| s in found;
      }
    }

    /** The service's checks on a new venue. They read and commit nothing, so by the time the insert arrives the
        tables may have moved on. `status` None is the zero value. */
    method ApproveVenue(draft: Venue, status: Option<VenueStatus>) returns (r: Result<Venue, Error>)
      modifies this`approved
      ensures var v := draft.(status := if status.None? then Active else status.value);
              var spec := StoreModel.ApproveVenue(old(State()), v);
              && State() == (if spec.Ok? then spec.value else old(State()))
              && r == (if spec.Ok? then Ok(v) else Err(spec.error))
    {
      var v := draft.(status := if status.None? then Active else status.value);
      if v.status == Archived {
        return Err(InvalidArgument);
      }
      if v.accountId.Some? {
        var a := v.accountId.value;
        if a !in accounts || accounts[a].userId != v.userId {
          return Err(NotFound);
        }
        if !accounts[a].active || accounts[a].environment != v.environment {
          return Err(FailedPrecondition);
        }
        var n := CountActiveSessions(v.userId, a);
        if n > 0 {
          return Err(FailedPrecondition);
        }
      }
      approved := approved + {v};
      r := Ok(v);
    }

    /** The insert, which asks nothing about the account beyond its existence. */
    method CreateVenue(id: int, draft: Venue, status: Option<VenueStatus>) returns (r: Result<Venue, Error>)
      modifies this
      ensures var v := draft.(status := if status.None? then Active else status.value);
              var spec := InsertVenue(old(State()), id, v);
              && State() == (if spec.Ok? then spec.value else old(State()))
              && r == (if spec.Ok? then Ok(v) else Err(spec.error))
    {
      if !ModesFitMarket(draft) {
        return Err(InvalidModes);
      }
      var v := draft.(status := if status.None? then Active else status.value);
      if id in venues || (exists w :: w in venues && SameKeyScope(v, venues[w]))
         || (exists w :: w in venues && w != id && SameRoute(v, venues[w])) {
        return Err(Conflict);
      }
      if v.accountId.Some? && v.accountId.value !in accounts {
        return Err(ForeignKey);
      }
      venues := venues[id := v];
      origin := origin[id := v.accountId];
      r := Ok(v);
    }

    method BindVenue(userId: int, accountId: int, venueId: int, reason: string) returns (r: Result<Venue, Error>)
      modifies this
      ensures var spec := StoreModel.BindVenue(old(State()), userId, accountId, venueId, reason);
              && State() == (if spec.Ok? then spec.value else old(State()))
              && r == (if spec.Ok? then Ok(spec.value.venues[venueId]) else Err(spec.error))
    {
      if accountId !in accounts || accounts[accountId].userId != userId || !accounts[accountId].active {
        return Err(NotFound);
      }
      var environment := accounts[accountId].environment;
      var n := CountActiveSessions(userId, accountId);
      if n > 0 {
        return Err(Conflict);
      }
      if venueId !in venues || venues[venueId].userId != userId {
        return Err(NotFound);
      }
      var venue := venues[venueId];
      if venue.environment != environment || venue.status != Active {
        return Err(Conflict);
      }
      var moved := venue.accountId.Some? && venue.accountId.value != accountId;
      if moved {
        n := CountActiveSessions(userId, venue.accountId.value);
        if n > 0 {
          return Err(Conflict);
        }
      }
      var updated := venue.(accountId := Some(accountId));
      if exists w :: w in venues && w != venueId && SameRoute(updated, venues[w]) {
        return Err(Conflict);
      }
      venues := venues[venueId := updated];
      if moved {
        events := events + [VenueEvent(venueId, venue.accountId, userId, ReleaseEvent, reason)];
      }
      events := events + [VenueEvent(venueId, Some(accountId), userId, BindEvent, reason)];
      if venueId in wallets {
        wallets := wallets[venueId := wallets[venueId].(accountId := Some(accountId))];
      }
      r := Ok(updated);
    }

    method ReleaseVenue(userId: int, venueId: int, reason: string) returns (r: Result<Venue, Error>)
      modifies this
      ensures var spec := StoreModel.ReleaseVenue(old(State()), userId, venueId, reason);
              && State() == (if spec.Ok? then spec.value else old(State()))
              && r == (if spec.Ok? then Ok(spec.value.venues[venueId]) else Err(spec.error))
    {
      if venueId !in venues || venues[venueId].userId != userId {
        return Err(NotFound);
      }
      var venue := venues[venueId];
      if venue.accountId.Some? {
        var n := CountActiveSessions(userId, venue.accountId.value);
        if n > 0 {
          return Err(Conflict);
        }
      }
      venues := venues[venueId := venue.(accountId := None)];
      events := events + [VenueEvent(venueId, venue.accountId, userId, ReleaseEvent, reason)];
      if venueId in wallets {
        wallets := wallets[venueId := wallets[venueId].(accountId := None)];
      }
      r := Ok(venues[venueId]);
    }

    method ArchiveVenue(userId: int, venueId: int, reason: string) returns (r: Option<Error>)
      modifies this
      ensures var spec := StoreModel.ArchiveVenue(old(State()), userId, venueId, reason);
              && State() == (if spec.Ok? then spec.value else old(State()))
              && r == (if spec.Ok? then None else Some(spec.error))
    {
      if venueId !in venues || venues[venueId].userId != userId {
        return Some(NotFound);
      }
      var venue := venues[venueId];
      if venue.accountId.Some? {
        var n := CountActiveSessions(userId, venue.accountId.value);
        if n > 0 {
          return Some(Conflict);
        }
      }
      venues := venues[venueId := venue.(accountId := None, status := Archived, archivedReason := reason)];
      events := events + [VenueEvent(venueId, venue.accountId, userId, ArchiveEvent, reason)];
      wallets := wallets - {venueId};
      r := None;
    }

    method UpsertVenueWalletState(venueId: int, copy: Venue, info: WalletInfo) returns (r: Option<Error>)
      modifies this
      ensures var spec := StoreModel.UpsertWallet(old(State()), venueId, copy, info);
              && State() == (if spec.Ok? then spec.value else old(State()))
              && r == (if spec.Ok? then None else Some(spec.error))
    {
      if venueId !in venues || (copy.accountId.Some? && copy.accountId.value !in accounts) {
        return Some(ForeignKey);
      }
      wallets := wallets[venueId := WalletState(copy.accountId, copy.userId, copy.exchange, copy.environment,
                                                copy.market, info)];
      r := None;
    }

    /** The ids of the account's active venues, each once, by exchange and then market. */
    method ListActiveAccountVenues(accountId: int) returns (ids: seq<int>)
      ensures Elements(ids) == ActiveVenues(State(), accountId)
      ensures forall i, j :: 0 <= i < j < |ids| ==> ids[i] != ids[j]
      ensures forall i, j :: 0 <= i < j < |ids| && ids[i] in venues && ids[j] in venues ==>
                ListedNoLater(venues[ids[i]], venues[ids[j]])
    {
      hide ListedNoLater;
      ids := [];
      var todo := set v | v in venues && venues[v].accountId == Some(accountId) && venues[v].status == Active;
      while todo != {}
        invariant todo <= venues.Keys && todo + Elements(ids) == ActiveVenues(State(), accountId)
        invariant forall i :: 0 <= i < |ids| ==> ids[i] in venues && ids[i] !in todo
        invariant forall i, w :: 0 <= i < |ids| && w in todo ==> ListedNoLater(venues[ids[i]], venues[w])
        invariant forall i, j :: 0 <= i < j < |ids| ==>
                    ids[i] != ids[j] && ListedNoLater(venues[ids[i]], venues[ids[j]])
        decreases todo
      {
        var v := FirstListed(todo);
        ElementsPush(ids, v);
        ids, todo := ids + [v], todo - {v};
      }
    }

    method FirstListed(rows: set<int>) returns (v: int)
      requires rows != {} && rows <= venues.Keys
      ensures v in rows && forall w :: w in rows ==> ListedNoLater(venues[v], venues[w])
    {
      ghost var first := FirstExists(venues, rows);
      v :| v in rows && forall w :: w in rows ==> ListedNoLater(venues[v], venues[w]);
    }

    /** Upserts one capture row per listed venue; a venue without an account id aborts. */
    method SaveSessionVenues(sessionId: string, accountId: int, ids: seq<int>)
      returns (r: Result<map<(string, int), Capture>, Error>)
      requires Elements(ids) <= venues.Keys
      ensures r == if accountId == 0 && ids != [] then Err(NotFound)
                   else Ok(CaptureAll(State(), sessionId, accountId, Elements(ids)))
    {
      var rows := captures;
      for i := 0 to |ids|
        invariant accountId == 0 ==> i == 0
        invariant rows == CaptureAll(State(), sessionId, accountId, Elements(ids[..i]))
      {
        if accountId == 0 {
          return Err(NotFound);
        }
        var key := (sessionId, ids[i]);
        assert ids[i] in Elements(ids);
        assert ids[..i + 1] == ids[..i] + [ids[i]];
        ElementsPush(ids[..i], ids[i]);
        CaptureOneMore(State(), sessionId, accountId, Elements(ids[..i]), ids[i]);
        rows := rows[key := MergeCapture(rows, key, CaptureOf(venues[ids[i]], accountId))];
      }
      assert ids[..|ids|] == ids;
      r := Ok(rows);
    }

    method CaptureActiveVenues(sessionId: string, accountId: int)
      returns (r: Result<map<(string, int), Capture>, Error>)
      ensures var active := ActiveVenues(State(), accountId);
              r == if accountId == 0 && active != {} then Err(NotFound)
                   else Ok(CaptureAll(State(), sessionId, accountId, active))
    {
      var ids := ListActiveAccountVenues(accountId);
      assert ids != [] ==> ids[0] in Elements(ids);
      r := SaveSessionVenues(sessionId, accountId, ids);
    }

    /** Inserts the session and, in the same transaction, copies every active venue of its account. */
    method InsertSession(sessionId: string, row: Session) returns (r: Option<Error>)
      modifies this
      ensures var spec := StoreModel.SaveSession(old(State()), sessionId, row);
              && State() == (if spec.Ok? then spec.value else old(State()))
              && r == (if spec.Ok? then None else Some(spec.error))
    {
      var accountId := row.accountId;
      if accountId !in accounts || accounts[accountId].environment != row.environment {
        return Some(NotFound);
      }
      if sessionId in sessions
         || (ActiveStatus(row.status)
             && exists s :: s in sessions && sessions[s].accountId == accountId && ActiveStatus(sessions[s].status)) {
        return Some(Conflict);
      }
      var saved := CaptureActiveVenues(sessionId, accountId);
      if saved.Err? {
        return Some(saved.error);
      }
      sessions := sessions[sessionId := row.(userId := accounts[accountId].userId)];
      captures := saved.value;
      r := None;
    }

    method SaveSession(sessionId: string, draft: Session, status: string) returns (r: Option<Error>)
      modifies this
      ensures var spec := StoreModel.SaveSession(old(State()), sessionId, draft.(status := SessionStatusCode(status)));
              && State() == (if spec.Ok? then spec.value else old(State()))
              && r == (if spec.Ok? then None else Some(spec.error))
    {
      var code := SessionStatusCode(status);
      r := InsertSession(sessionId, draft.(status := code));
    }

    method UpdateSession(sessionId: string, status: string, bars: int, error: string, runtimeId: string, now: int)
      returns (r: Option<Error>)
      modifies this
      ensures var spec := StoreModel.UpdateSession(old(State()), sessionId, SessionStatusCode(status), bars, error,
                                                   runtimeId, now);
              && State() == (if spec.Ok? then spec.value else old(State()))
              && r == (if spec.Ok? then None else Some(spec.error))
    {
      var code := SessionStatusCode(status);
      if sessionId !in sessions || !ActiveStatus(sessions[sessionId].status)
         || (runtimeId != "" && sessions[sessionId].runtimeId != runtimeId) {
        return Some(NotFound);
      }
      var s := sessions[sessionId].(status := code, barsProcessed := bars, error := error);
      if !ActiveStatus(code) {
        s := s.(completedAt := Some(now));
      }
      sessions := sessions[sessionId := s];
      r := None;
    }

    /** Returns how many rows it moved: all active sessions of the runtime, whose ids are trimmed first. */
    method MarkRuntimeSessionsRecoverable(runtimeId: string, error: string, now: int) returns (r: Result<nat, Error>)
      modifies this
      ensures var spec := StoreModel.MarkRecoverable(old(State()), runtimeId, error, now);
              && State() == (if spec.Ok? then spec.value else old(State()))
              && r == (if spec.Ok? then Ok(|RunningOn(old(State()), TrimSpace(runtimeId))|) else Err(spec.error))
    {
      var rt := TrimSpace(runtimeId);
      if rt == "" {
        return Err(NotFound);
      }
      var hit := set s | s in sessions && RunsOn(sessions[s], rt);
      sessions := map s | s in sessions :: if s in hit then Recover(sessions[s], error, now) else sessions[s];
      r := Ok(|hit|);
    }
  }
}
