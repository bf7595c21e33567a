/** Which venues serve a running session: those it captured, and those whose creation raced with its start. */
module StoreCaptures {
  import opened Wrappers
  import opened StoreModel
  import opened StoreSafety

  function Captured(db: DB, s: string): set<int> {
    set key | key in db.captures.Keys && key.0 == s :: key.1
  }

  predicate Running(db: DB, s: string) {
    s in db.sessions && ActiveStatus(db.sessions[s].status)
  }

  /** The active venues of the session's account. */
  function Serving(db: DB, s: string): set<int>
    requires s in db.sessions
  {
    ActiveVenues(db, db.sessions[s].accountId)
  }

  /** Every running session captured every active venue of its account. */
  ghost predicate Complete(db: DB) {
    forall s :: Running(db, s) ==> Serving(db, s) <= Captured(db, s)
  }

  // ---- one transaction ----

  /** The insert puts an active venue on an account with a running session. */
  predicate Joins(db: DB, op: Op) {
    op.OpInsertVenue? && Apply(db, op).Ok? && op.venue.status == Active && op.venue.accountId.Some?
    && AccountBusy(db, op.venue.accountId.value)
  }

  /** The venue that the transaction puts on the account of session `s`, past its captures. */
  function JoinedBy(db: DB, op: Op, s: string): set<int> {
    if op.OpInsertVenue? && Apply(db, op).Ok? && op.venue.status == Active
       && s in db.sessions && op.venue.accountId == Some(db.sessions[s].accountId)
    then {op.id} else {}
  }

  /** The captures of a running session are among the venues that serve it. */
  lemma CapturedServe(db: DB, s: string)
    requires Protected(db) && Running(db, s)
    ensures Captured(db, s) <= Serving(db, s)
  {
    forall v | v in Captured(db, s)
      ensures v in Serving(db, s)
    {
      assert (s, v) in db.captures;
    }
  }

  /** While a session runs, its captures stand still and its account gains only what an insert adds. */
  lemma StepOnRunning(db: DB, op: Op, s: string)
    requires Inv(db) && s in db.sessions && Running(Step(db, op), s)
    ensures Running(db, s) && Step(db, op).sessions[s].accountId == db.sessions[s].accountId
    ensures Captured(Step(db, op), s) == Captured(db, s)
    ensures Serving(Step(db, op), s) == Serving(db, s) + JoinedBy(db, op, s)
    ensures JoinedBy(db, op, s) !! Serving(db, s)
  {
    RunningStays(db, op, s);
    BusyAccountGains(db, op, db.sessions[s].accountId);
    CapturesOfOthersStay(db, op, s);
    hide Inv, Step, Captured, ActiveVenues;
  }

  /** A step that ends with the session running found it running, on the same account. */
  lemma RunningStays(db: DB, op: Op, s: string)
    requires s in db.sessions && Running(Step(db, op), s)
    ensures Running(db, s) && Step(db, op).sessions[s].accountId == db.sessions[s].accountId
  {
  }

  /** No bind, release or archive gets past its guard on an account with a running session. */
  lemma BusyAccountGains(db: DB, op: Op, a: int)
    requires VenuesAligned(db) && SessionsOwned(db) && AccountBusy(db, a)
    ensures var gained := if op.OpInsertVenue? && Apply(db, op).Ok? && op.venue.status == Active
                             && op.venue.accountId == Some(a) then {op.id} else {};
            ActiveVenues(Step(db, op), a) == ActiveVenues(db, a) + gained && gained !! ActiveVenues(db, a)
  {
    assert a in db.accounts && HasActiveSession(db, db.accounts[a].userId, a);
  }

  lemma CapturesOfOthersStay(db: DB, op: Op, s: string)
    requires s in db.sessions
    ensures Captured(Step(db, op), s) == Captured(db, s)
  {
  }

  lemma SavesStarts(db: DB, db': DB, s: string, row: Session)
    requires Protected(db) && Saves(db, db', s, row)
    ensures Captured(db', s) == Serving(db', s)
  {
    forall v
      ensures v in Captured(db', s) <==> v in Serving(db', s)
    {
      assert (s, v) !in db.captures;
      assert v in Captured(db', s) <==> (s, v) in db'.captures;
    }
  }

  /** A session starts with exactly the venues that serve it. */
  lemma StepStarts(db: DB, op: Op, s: string)
    requires Inv(db) && s !in db.sessions && s in Step(db, op).sessions
    ensures Captured(Step(db, op), s) == Serving(Step(db, op), s)
  {
    SaveSessionSaves(db, s, op.draft);
    hide Saves, Captured, Serving, VenuesAligned, ArchivedUnbound, SessionsOwned, Exclusive, Audited;
    SavesStarts(db, Step(db, op), s, op.draft.(userId := db.accounts[op.draft.accountId].userId));
  }

  /** Whether an insert, approved or not, keeps the invariant and leaves every running session complete is a
      question about its account alone. */
  lemma InsertExact(db: DB, id: int, v: Venue)
    requires Inv(db) && Complete(db) && InsertVenue(db, id, v).Ok?
    ensures var db' := InsertVenue(db, id, v).value;
            Inv(db') && Complete(db') <==>
            v.accountId.None?
            || (Aligned(db, v) && v.status != Archived && (v.status == Active ==> !AccountBusy(db, v.accountId.value)))
  {
    var db' := InsertVenue(db, id, v).value;
    InsertKeepsInvIff(db, id, v);
    forall s | Running(db, s)
      ensures Captured(db', s) == Captured(db, s) && id !in Captured(db, s)
      ensures Serving(db', s) == if v.status == Active && v.accountId == Some(db.sessions[s].accountId)
                                 then Serving(db, s) + {id} else Serving(db, s)
    {
      CapturedServe(db, s);
    }
    assert forall s :: Running(db', s) <==> Running(db, s);
    hide Inv, InsertVenue, Captured, Serving, Aligned;
  }

  /** From a complete state, a step leaves a gap exactly when it is an insert onto a busy account. */
  lemma StepCompleteIff(db: DB, op: Op)
    requires Inv(db) && Complete(db)
    ensures Complete(Step(db, op)) <==> !Joins(db, op)
  {
    var db' := Step(db, op);
    forall s | Running(db', s)
      ensures s in db.sessions ==> Running(db, s) && Captured(db', s) == Captured(db, s)
                                   && Serving(db', s) == Serving(db, s) + JoinedBy(db, op, s)
                                   && JoinedBy(db, op, s) !! Serving(db, s) && Captured(db, s) <= Serving(db, s)
      ensures s !in db.sessions ==> Captured(db', s) == Serving(db', s)
    {
      if s in db.sessions {
        StepOnRunning(db, op, s);
        CapturedServe(db, s);
      } else {
        StepStarts(db, op, s);
      }
    }
    if Joins(db, op) {
      JoinFindsRunning(db, op);
    }
    hide Inv, Step, Apply, Captured, Serving;
  }

  lemma JoinFindsRunning(db: DB, op: Op)
    requires Joins(db, op)
    ensures exists s :: Running(db, s) && Running(Step(db, op), s) && JoinedBy(db, op, s) == {op.id}
  {
    var s :| s in db.sessions && db.sessions[s].accountId == op.venue.accountId.value
             && ActiveStatus(db.sessions[s].status);
    assert Running(db, s) && Running(Step(db, op), s);
  }

  // ---- whole runs ----

  /** The venues inserted onto the account of `s` since it was saved. */
  function Joined(ops: seq<Op>, s: string): set<int> {
    if ops == [] then {}
    else
      var n := |ops| - 1;
      Joined(ops[..n], s) + JoinedBy(Run(ops[..n]), ops[n], s)
  }

  lemma NoneJoinsUnsaved(db: DB, op: Op, s: string)
    requires s !in db.sessions
    ensures JoinedBy(db, op, s) == {}
  {
  }

  lemma EmptyIsComplete()
    ensures Complete(EMPTY)
  {
  }

  lemma StepKeepsSessions(db: DB, op: Op)
    ensures db.sessions.Keys <= Step(db, op).sessions.Keys
  {
  }

  lemma {:induction false} NoneJoinedBeforeSave(ops: seq<Op>, s: string)
    requires s !in Run(ops).sessions
    ensures Joined(ops, s) == {}
  {
    if ops != [] {
      var n := |ops| - 1;
      StepKeepsSessions(Run(ops[..n]), ops[n]);
      hide Step;
      NoneJoinedBeforeSave(ops[..n], s);
    }
  }

  /** At every moment of its life a running session is served by exactly what it captured and what was inserted
      past it: no captured venue is lost, and nothing joins by binding. */
  lemma {:induction false} ServedByCapturedAndJoined(ops: seq<Op>, s: string)
    requires Running(Run(ops), s)
    ensures Serving(Run(ops), s) == Captured(Run(ops), s) + Joined(ops, s)
    ensures Captured(Run(ops), s) !! Joined(ops, s)
  {
    hide Step, Captured, Serving, JoinedBy, Inv;
    var n := |ops| - 1;
    var db := Run(ops[..n]);
    RunKeepsInv(ops[..n]);
    if s in db.sessions {
      StepOnRunning(db, ops[n], s);
      ServedByCapturedAndJoined(ops[..n], s);
    } else {
      StepStarts(db, ops[n], s);
      NoneJoinedBeforeSave(ops[..n], s);
      NoneJoinsUnsaved(db, ops[n], s);
    }
  }

  /** The captures of a running session are exactly the active venues of its account if and only if no insert
      has joined it. */
  lemma {:induction false} CapturesAreExactIff(ops: seq<Op>, s: string)
    requires Running(Run(ops), s)
    ensures Captured(Run(ops), s) == Serving(Run(ops), s) <==> Joined(ops, s) == {}
  {
    ServedByCapturedAndJoined(ops, s);
    hide Run, Joined, Serving, Captured;
  }

  /** Captures stay complete through a whole run if and only if each insert of an active venue found its account
      without a running session when it committed. */
  lemma {:induction false} CompleteThroughoutIff(ops: seq<Op>)
    ensures (forall i :: 0 <= i <= |ops| ==> Complete(Run(ops[..i]))) <==>
            (forall i :: 0 <= i < |ops| ==> !Joins(Run(ops[..i]), ops[i]))
  {
    hide Step, Joins, Complete, Inv;
    if ops == [] {
      EmptyIsComplete();
    } else {
      var n := |ops| - 1;
      var rest := ops[..n];
      CompleteThroughoutIff(rest);
      assert forall i :: 0 <= i <= n ==> rest[..i] == ops[..i];
      assert ops[..n + 1] == ops;
      RunKeepsInv(rest);
      if Complete(Run(rest)) {
        StepCompleteIff(Run(rest), ops[n]);
      }
    }
  }

  // ---- the race ----

  lemma RunPush(ops: seq<Op>, op: Op)
    ensures Run(ops + [op]) == Step(Run(ops), op)
  {
    assert (ops + [op])[..|ops|] == ops;
  }

  const OWNER := Account(10, Demo, true)
  const VENUE := Venue(10, Some(1), 1, Spot, Demo, Active, Profile("", "k", "", NoMargin, NoPosition), "")
  const DRAFT := Session(1, 10, Demo, 3, 0, "", "rt", None)

  /** The attach check finds no session, a session starts, and the insert commits under it: the session is served
      by a venue that it never captured. */
  const RACE := [OpCreateAccount(1, OWNER), OpApproveVenue(VENUE), OpSaveSession("s", DRAFT), OpInsertVenue(7, VENUE)]

  const CHECKED := EMPTY.(accounts := map[1 := OWNER], approved := {VENUE})
  const STARTED := CHECKED.(sessions := map["s" := DRAFT])

  lemma RaceChecks()
    ensures Step(Step(EMPTY, RACE[0]), RACE[1]) == CHECKED
  {
    var created := Step(EMPTY, RACE[0]);
    assert created == EMPTY.(accounts := map[1 := OWNER]);
    assert !HasActiveSession(created, 10, 1);
  }

  lemma SaveWithoutVenues(db: DB, s: string, draft: Session)
    requires s !in db.sessions && Owned(db, draft) && !AccountBusy(db, draft.accountId)
    requires ActiveVenues(db, draft.accountId) == {}
    ensures Step(db, OpSaveSession(s, draft)) == db.(sessions := db.sessions[s := draft])
  {
    hide ActiveVenues, AccountBusy, MergeCapture;
    assert CaptureAll(db, s, draft.accountId, {}) == db.captures;
    hide CaptureAll;
  }

  lemma RaceStarts()
    ensures Step(CHECKED, RACE[2]) == STARTED
  {
    assert ActiveVenues(CHECKED, 1) == {} && !AccountBusy(CHECKED, 1);
    SaveWithoutVenues(CHECKED, "s", DRAFT);
    hide Step, ActiveVenues, AccountBusy;
    assert EMPTY.sessions["s" := DRAFT] == map["s" := DRAFT];
  }

  lemma RaceInserts()
    ensures var db := Step(STARTED, RACE[3]);
            Running(db, "s") && 7 in Serving(db, "s") && 7 !in Captured(db, "s")
  {
    assert InsertVenue(STARTED, 7, VENUE).Ok?;
  }

  lemma RacingInsertJoins()
    ensures Running(Run(RACE), "s") && 7 in Serving(Run(RACE), "s") && 7 !in Captured(Run(RACE), "s")
  {
    RaceChecks();
    RaceStarts();
    RaceInserts();
    hide Step, Running, Serving, Captured, EMPTY, CHECKED, STARTED;
    RunPush([], RACE[0]);
    RunPush(RACE[..1], RACE[1]);
    RunPush(RACE[..2], RACE[2]);
    RunPush(RACE[..3], RACE[3]);
    assert RACE[..1] == [] + [RACE[0]] && RACE[..2] == RACE[..1] + [RACE[1]];
    assert RACE[..3] == RACE[..2] + [RACE[2]] && RACE == RACE[..3] + [RACE[3]];
  }
}
