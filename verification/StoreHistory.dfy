/** What later transactions cannot undo, and what the repository leaves to its callers. */
module StoreHistory {
  import opened Wrappers
  import opened Text
  import opened StoreModel
  import opened StoreSafety

  // ---- archived venues and finished sessions ----

  ghost predicate ArchivedAt(db: DB, v: int) {
    v in db.venues && db.venues[v].status == Archived && db.venues[v].accountId == None
  }

  lemma StepKeepsArchived(db: DB, op: Op, v: int)
    requires ArchivedAt(db, v)
    ensures ArchivedAt(Step(db, op), v)
  {
  }

  /** Once archived, a venue is never bound and never active again, however the run goes on. */
  lemma {:induction false} ArchivedForever(before: seq<Op>, after: seq<Op>, v: int)
    requires v in Run(before).venues && Run(before).venues[v].status == Archived
    ensures v in Run(before + after).venues
    ensures Run(before + after).venues[v].status == Archived
    ensures Run(before + after).venues[v].accountId == None
  {
    hide Step;
    if after == [] {
      assert before + after == before;
      RunKeepsInv(before);
    } else {
      var rest := after[..|after| - 1];
      ArchivedForever(before, rest, v);
      assert (before + after)[..|before + after| - 1] == before + rest;
      StepKeepsArchived(Run(before + rest), after[|after| - 1], v);
    }
  }

  /** One transaction rewrites a session row only while it is active, and ending it stamps
      `completed_at`. */
  lemma StepOnSession(db: DB, op: Op, s: string)
    requires s in db.sessions
    ensures s in Step(db, op).sessions
    ensures !ActiveStatus(db.sessions[s].status) ==> Step(db, op).sessions[s] == db.sessions[s]
    ensures ActiveStatus(db.sessions[s].status) && !ActiveStatus(Step(db, op).sessions[s].status)
            ==> Step(db, op).sessions[s].completedAt.Some?
  {
  }

  /** The row of a session that has left running/stopping is frozen for the rest of the run. */
  lemma {:induction false} FinishedSessionFrozen(before: seq<Op>, after: seq<Op>, s: string)
    requires s in Run(before).sessions
    requires Run(before).sessions[s].status != 3 && Run(before).sessions[s].status != 4
    ensures s in Run(before + after).sessions
    ensures Run(before + after).sessions[s] == Run(before).sessions[s]
  {
    hide Step;
    if after == [] {
      assert before + after == before;
    } else {
      var rest := after[..|after| - 1];
      FinishedSessionFrozen(before, rest, s);
      assert (before + after)[..|before + after| - 1] == before + rest;
      StepOnSession(Run(before + rest), after[|after| - 1], s);
    }
  }

  /** A session that was active at some point of a run and is not at its end carries a completion time. */
  lemma {:induction false} FinishedSessionStamped(before: seq<Op>, after: seq<Op>, s: string)
    requires s in Run(before).sessions
    requires Run(before).sessions[s].status == 3 || Run(before).sessions[s].status == 4
    ensures s in Run(before + after).sessions
    ensures var row := Run(before + after).sessions[s]; row.status == 3 || row.status == 4 || row.completedAt.Some?
  {
    hide Step;
    if after == [] {
      assert before + after == before;
    } else {
      var rest := after[..|after| - 1];
      FinishedSessionStamped(before, rest, s);
      assert (before + after)[..|before + after| - 1] == before + rest;
      StepOnSession(Run(before + rest), after[|after| - 1], s);
    }
  }

  /** Recovery ends exactly the runtime's sessions in status 3 or 4, and a second call changes nothing. */
  lemma RecoveryIsCompleteAndLocal(db: DB, runtimeId: string, error: string, now: int)
    requires TrimSpace(runtimeId) != ""
    ensures MarkRecoverable(db, runtimeId, error, now).Ok?
    ensures var db' := MarkRecoverable(db, runtimeId, error, now).value;
            && db' == db.(sessions := db'.sessions) && db'.sessions.Keys == db.sessions.Keys
            && (forall s :: s in db.sessions ==>
                  var row, row' := db.sessions[s], db'.sessions[s];
                  if row.runtimeId == TrimSpace(runtimeId) && (row.status == 3 || row.status == 4)
                  then row'.status == 5 && row'.error == error && row'.completedAt.Some?
                  else row' == row)
            && MarkRecoverable(db', runtimeId, error, now) == Ok(db')
  {
    hide TrimSpace;
    var db' := MarkRecoverable(db, runtimeId, error, now).value;
    assert MarkRecoverable(db', runtimeId, error, now).value.sessions == db'.sessions;
  }

  lemma LowerIsFixed(s: string)
    requires Trimmed(s) && forall i :: 0 <= i < |s| ==> !('A' <= s[i] <= 'Z')
    ensures ToLower(TrimSpace(s)) == s
  {
    TrimmedIsFixed(s);
  }

  /** Every stored status code survives being written out and read back. */
  lemma {:induction false} StatusRoundTrip(code: int)
    requires 1 <= code <= 9
    ensures SessionStatusCode(SessionStatusText(code)) == code
  {
    var s := SessionStatusText(code);
    LowerIsFixed(s);
  }

  /** The other spellings of a status, the blank default and the fallback for unknown words. */
  lemma StatusWords()
    ensures SessionStatusCode("queued") == SessionStatusCode("created") == 1
    ensures SessionStatusCode("") == 3
    ensures SessionStatusCode("completed") == 6
    ensures SessionStatusCode("stop_failed") == SessionStatusCode("unheard of") == 8
  {
    LowerIsFixed("queued");
    LowerIsFixed("created");
    LowerIsFixed("");
    LowerIsFixed("completed");
    LowerIsFixed("stop_failed");
    LowerIsFixed("unheard of");
    hide ToLower, TrimSpace;
  }

  /** Case and padding of a status do not matter. */
  lemma StatusSpelling(a: string, b: string)
    requires SameText(TrimSpace(a), TrimSpace(b))
    ensures SessionStatusCode(a) == SessionStatusCode(b)
  {
    ToLowerForgetsCase(TrimSpace(a), TrimSpace(b));
    hide TrimSpace, ToLower, SameText;
  }

  // ---- wallet states ----

  /** Every wallet-state row carries the account its venue is bound to. */
  ghost predicate WalletsFollow(db: DB) {
    forall v :: v in db.wallets ==> v in db.venues && db.wallets[v].accountId == db.venues[v].accountId
  }

  /** An upsert keeps the rows in step exactly when the caller's copy of the venue has the current
      binding. */
  lemma UpsertKeepsWalletsIff(db: DB, v: int, copy: Venue, info: WalletInfo)
    requires WalletsFollow(db) && UpsertWallet(db, v, copy, info).Ok?
    ensures WalletsFollow(UpsertWallet(db, v, copy, info).value) <==> copy.accountId == db.venues[v].accountId
  {
    var db' := UpsertWallet(db, v, copy, info).value;
    assert v in db'.wallets && db'.wallets[v].accountId == copy.accountId;
  }

  /** Each upsert of the run was given the venue's binding at that moment. */
  ghost predicate CurrentCopies(ops: seq<Op>) {
    forall i :: 0 <= i < |ops| && ops[i].OpUpsertWallet? && ops[i].venueId in Run(ops[..i]).venues ==>
      ops[i].copy.accountId == Run(ops[..i]).venues[ops[i].venueId].accountId
  }

  lemma StepKeepsWallets(db: DB, op: Op)
    requires WalletsFollow(db)
    requires op.OpUpsertWallet? && op.venueId in db.venues ==> op.copy.accountId == db.venues[op.venueId].accountId
    ensures WalletsFollow(Step(db, op))
  {
    if Apply(db, op).Ok? && op.OpUpsertWallet? {
      UpsertKeepsWalletsIff(db, op.venueId, op.copy, op.info);
    }
  }

  lemma {:induction false} WalletsFollowVenues(ops: seq<Op>)
    requires CurrentCopies(ops)
    ensures WalletsFollow(Run(ops))
  {
    if ops != [] {
      var rest := ops[..|ops| - 1];
      assert forall i :: 0 <= i < |rest| ==> rest[..i] == ops[..i];
      WalletsFollowVenues(rest);
      StepKeepsWallets(Run(rest), ops[|ops| - 1]);
    }
  }

  // ---- what the repository's own insert leaves open ----

  /** Attaching a venue is safe when it has no account, or one of the same owner and environment. */
  lemma InsertKeepsAlignmentIff(db: DB, id: int, v: Venue)
    requires VenuesAligned(db) && InsertVenue(db, id, v).Ok?
    ensures VenuesAligned(InsertVenue(db, id, v).value) <==>
            (v.accountId.None? || (db.accounts[v.accountId.value].userId == v.userId
                                   && db.accounts[v.accountId.value].environment == v.environment))
  {
    var db' := InsertVenue(db, id, v).value;
    assert id in db'.venues && db'.venues[id] == v;
    if v.accountId.None? || (db.accounts[v.accountId.value].userId == v.userId
                             && db.accounts[v.accountId.value].environment == v.environment) {
      forall w | w in db'.venues
        ensures Aligned(db', db'.venues[w])
      {
        if w != id {
          assert Aligned(db, db.venues[w]);
        }
      }
    }
  }

  /** Inserted through the repository alone, a venue of another user can be attached to an account,
      captured by its running session, and then released under that session. */
  lemma UncheckedInsertDefeatsGuard()
    ensures exists v: Venue, draft: Session ::
      && var db := Run([OpCreateAccount(1, Account(10, Demo, true))]);
      && InsertVenue(db, 7, v).Ok?
      && var inserted := InsertVenue(db, 7, v).value;
      && SaveSession(inserted, "s", draft).Ok?
      && var saved := SaveSession(inserted, "s", draft).value;
      && ActiveStatus(saved.sessions["s"].status) && ("s", 7) in saved.captures
      && ReleaseVenue(saved, v.userId, 7, "").Ok?
      && ReleaseVenue(saved, v.userId, 7, "").value.venues[7].accountId == None
  {
    var db := EMPTY.(accounts := map[1 := Account(10, Demo, true)]);
    var ops := [OpCreateAccount(1, Account(10, Demo, true))];
    assert ops[..0] == [] && Run(ops) == Step(EMPTY, ops[0]) == db;
    var v := Venue(20, Some(1), 1, Spot, Demo, Active, Profile("", "k", "", NoMargin, NoPosition), "");
    var draft := Session(1, 10, Demo, 3, 0, "", "rt", None);
    var inserted := InsertVenue(db, 7, v).value;
    var saved := SaveSession(inserted, "s", draft).value;
    assert InsertVenue(db, 7, v).Ok?;
    assert 7 in ActiveVenues(inserted, 1);
    assert SaveSession(inserted, "s", draft).Ok?;
    assert ("s", 7) in saved.captures;
    assert !HasActiveSession(saved, 20, 1);
    assert ReleaseVenue(saved, 20, 7, "").Ok?;
    hide Run;
  }
}
