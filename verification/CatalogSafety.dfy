/** Safety and progress of the symbol cache, over every interleaving. */
module CatalogSafety {
  import opened Wrappers
  import opened SymbolList
  import opened CatalogProtocol

  // ---- appending to the log ----

  lemma LogPush(log: seq<Event>, e: Event, m: Market)
    ensures Flying(log + [e], m) ==
            if e.market != m then Flying(log, m) else if e.Started? then Some(e.id) else None
    ensures LastPublished(log + [e], m) ==
            if e.Published? && e.market == m then Cache(e.symbols, e.at) else LastPublished(log, m)
  {
    assert (log + [e])[..|log|] == log;
  }

  lemma DisciplinedPush(log: seq<Event>, e: Event)
    requires Disciplined(log)
    requires var before := Flying(log, e.market);
             match e
             case Started(_, _, _) => before == None
             case Failed(_, id) => before == Some(id)
             case Published(_, id, symbols, _) => before == Some(id) && symbols != []
    ensures Disciplined(log + [e])
  {
    hide Flying;
    assert forall i :: 0 <= i <= |log| ==> (log + [e])[..i] == log[..i];
    assert log[..|log|] == log;
  }

  /** At most call `id` differs between the states; the others are as they were. */
  predicate OnlyCall(s: State, s': State, id: nat) {
    s'.clock >= s.clock && id in s'.calls
    && (forall j :: j in s.calls ==> j in s'.calls)
    && (forall j :: j in s'.calls && j != id ==> j in s.calls && s'.calls[j] == s.calls[j])
    && (id in s.calls ==> s'.calls[id].market == s.calls[id].market)
  }

  predicate LockedIn(s: State, id: nat) {
    id in s.calls && InLock(s.calls[id].pc)
  }

  predicate FlyingIn(s: State, id: nat) {
    id in s.calls && InFlight(s.calls[id].pc)
  }

  lemma SameLocks(s: State, s': State, id: nat)
    requires LockInv(s) && OnlyCall(s, s', id) && s'.holder == s.holder && LockedIn(s, id) == LockedIn(s', id)
    ensures LockInv(s')
  {
  }

  lemma SameLog(cfg: Config, s: State, s': State, id: nat)
    requires LogInv(cfg, s) && FlightInv(s) && OnlyCall(s, s', id)
    requires s'.cache == s.cache && s'.log == s.log && FlyingIn(s, id) == FlyingIn(s', id)
    ensures LogInv(cfg, s') && FlightInv(s')
  {
    hide Flying, LastPublished, Disciplined, Spaced;
  }

  /** What a call knows survives any step that keeps the log, the clock's direction, and, while the call
      is refreshing, the cache it read. */
  lemma KnowledgeLasts(cfg: Config, s: State, s': State, c: Call)
    requires Knows(cfg, s, c) && s'.clock >= s.clock && s.log <= s'.log
    requires c.pc.Rechecking? || InFlight(c.pc) ==> s'.cache.Of(c.market) == s.cache.Of(c.market)
    ensures Knows(cfg, s', c)
  {
    if c.seen != UNFILLED {
      var i :| 0 <= i < |s.log| && PublishedAs(s.log[i], c.market, c.seen);
      assert s'.log[i] == s.log[i];
    }
  }

  lemma OthersKnow(cfg: Config, s: State, s': State, id: nat)
    requires CallsInv(cfg, s) && s'.clock >= s.clock && s.log <= s'.log && s'.cache == s.cache
    requires forall j :: j in s'.calls && j != id ==> j in s.calls && s'.calls[j] == s.calls[j]
    requires id in s'.calls ==> Knows(cfg, s', s'.calls[id])
    ensures CallsInv(cfg, s')
  {
    hide Knows;
    forall j | j in s'.calls
      ensures Knows(cfg, s', s'.calls[j])
    {
      if j != id {
        KnowledgeLasts(cfg, s, s', s.calls[j]);
      }
    }
  }

  lemma CacheWasPublished(cfg: Config, s: State, m: Market)
    requires LogInv(cfg, s)
    ensures s.cache.Of(m) != UNFILLED ==> exists i :: 0 <= i < |s.log| && PublishedAs(s.log[i], m, s.cache.Of(m))
  {
    hide Disciplined, Spaced;
    LastPublishedOccurs(s.log, m);
  }

  lemma {:induction false} LastPublishedOccurs(log: seq<Event>, m: Market)
    ensures LastPublished(log, m) != UNFILLED ==>
              exists i :: 0 <= i < |log| && PublishedAs(log[i], m, LastPublished(log, m))
  {
    if log != [] {
      var n := |log| - 1;
      if log[n].Published? && log[n].market == m {
        assert PublishedAs(log[n], m, LastPublished(log, m));
      } else {
        LastPublishedOccurs(log[..n], m);
        if LastPublished(log, m) != UNFILLED {
          var i :| 0 <= i < |log[..n]| && PublishedAs(log[..n][i], m, LastPublished(log, m));
          assert PublishedAs(log[i], m, LastPublished(log, m));
        }
      }
    }
  }

  // ---- one lemma per kind of step ----

  predicate Local(cfg: Config, s: State, a: Action) {
    Enabled(s, a)
    && (a.Begin? || a.Read? || a.Check? || a.Reread? || a.FetchGood?
        || (a.Recheck? && !NeedsRefresh(s.calls[a.id].seen, s.clock, cfg.ttl)))
  }

  lemma MoverKnows(cfg: Config, s: State, a: Action)
    requires Local(cfg, s, a) && CallsInv(cfg, s)
    requires forall m :: s.cache.Of(m) != UNFILLED ==>
               exists i :: 0 <= i < |s.log| && PublishedAs(s.log[i], m, s.cache.Of(m))
    ensures Knows(cfg, Apply(cfg, s, a), Apply(cfg, s, a).calls[a.id])
  {
    if !a.Begin? {
      assert Knows(cfg, s, s.calls[a.id]);
    }
  }

  lemma LocalMoves(cfg: Config, s: State, a: Action)
    requires Local(cfg, s, a)
    ensures var s' := Apply(cfg, s, a);
            && OnlyCall(s, s', a.id) && s'.holder == s.holder && s'.cache == s.cache && s'.log == s.log
            && LockedIn(s, a.id) == LockedIn(s', a.id) && FlyingIn(s, a.id) == FlyingIn(s', a.id)
  {
  }

  lemma LocalStep(cfg: Config, s: State, a: Action)
    requires Inv(cfg, s) && Local(cfg, s, a)
    ensures Inv(cfg, Apply(cfg, s, a))
  {
    var s' := Apply(cfg, s, a);
    LocalMoves(cfg, s, a);
    forall m
      ensures s.cache.Of(m) != UNFILLED ==> exists i :: 0 <= i < |s.log| && PublishedAs(s.log[i], m, s.cache.Of(m))
    {
      CacheWasPublished(cfg, s, m);
    }
    MoverKnows(cfg, s, a);
    hide Apply, Local, LockInv, LogInv, FlightInv, CallsInv, Knows;
    SameLocks(s, s', a.id);
    SameLog(cfg, s, s', a.id);
    OthersKnow(cfg, s, s', a.id);
  }

  lemma TickStep(cfg: Config, s: State, a: Action)
    requires Inv(cfg, s) && a.Tick?
    ensures Inv(cfg, Apply(cfg, s, a))
  {
    hide Flying, LastPublished, Disciplined, Spaced, Knows;
    var s' := Apply(cfg, s, a);
    forall j | j in s'.calls
      ensures Knows(cfg, s', s'.calls[j])
    {
      KnowledgeLasts(cfg, s, s', s.calls[j]);
    }
  }

  lemma LockerKnows(cfg: Config, s: State, a: Action)
    requires CallsInv(cfg, s) && Enabled(s, a) && (a.Lock? || a.Answer?)
    ensures Knows(cfg, Apply(cfg, s, a), Apply(cfg, s, a).calls[a.id])
  {
    hide AnswerOf;
    assert Knows(cfg, s, s.calls[a.id]);
  }

  lemma LockStep(cfg: Config, s: State, a: Action)
    requires Inv(cfg, s) && Enabled(s, a) && (a.Lock? || a.Answer?)
    ensures Inv(cfg, Apply(cfg, s, a))
  {
    var s' := Apply(cfg, s, a);
    LockerKnows(cfg, s, a);
    HolderMoves(cfg, s, a);
    hide Apply, LockInv, LogInv, FlightInv, CallsInv, Knows;
    SameLog(cfg, s, s', a.id);
    OthersKnow(cfg, s, s', a.id);
  }

  lemma HolderMoves(cfg: Config, s: State, a: Action)
    requires LockInv(s) && Enabled(s, a) && (a.Lock? || a.Answer?)
    ensures LockInv(Apply(cfg, s, a))
    ensures OnlyCall(s, Apply(cfg, s, a), a.id)
  {
    var s', c := Apply(cfg, s, a), s.calls[a.id];
    forall j | j in s'.calls && InLock(s'.calls[j].pc)
      ensures s'.holder.Of(s'.calls[j].market) == Some(j)
    {
      if j != a.id {
        assert s.holder.Of(s.calls[j].market) == Some(j);
      }
    }
    forall m: Market | s'.holder.Of(m).Some?
      ensures var h := s'.holder.Of(m).value; h in s'.calls && s'.calls[h].market == m && InLock(s'.calls[h].pc)
    {
      if m != c.market || a.Answer? {
        assert s'.holder.Of(m) == s.holder.Of(m);
      }
    }
  }

  /** A step of the lock holder that logs `e` for its own market and keeps the lock. */
  ghost predicate Logs(s: State, s': State, id: nat, e: Event) {
    OnlyCall(s, s', id) && id in s.calls && s'.holder == s.holder && s'.clock == s.clock
    && s'.log == s.log + [e] && e.market == s.calls[id].market && e.id == id
    && InLock(s.calls[id].pc) && InLock(s'.calls[id].pc)
  }

  lemma LogStepFlight(s: State, s': State, id: nat, e: Event)
    requires LockInv(s) && FlightInv(s) && Logs(s, s', id, e)
    requires e.Started? <==> InFlight(s'.calls[id].pc)
    ensures FlightInv(s')
  {
    forall m
      ensures Flying(s'.log, m) == if e.market != m then Flying(s.log, m) else if e.Started? then Some(id) else None
    {
      LogPush(s.log, e, m);
    }
    hide Flying;
    forall j | j in s'.calls && InFlight(s'.calls[j].pc)
      ensures Flying(s'.log, s'.calls[j].market) == Some(j)
    {
      if j != id {
        assert s.holder.Of(s.calls[j].market) == Some(j) && s.holder.Of(e.market) == Some(id);
        assert s.calls[j].market != e.market;
      }
    }
    forall m: Market | Flying(s'.log, m).Some?
      ensures var j := Flying(s'.log, m).value; j in s'.calls && s'.calls[j].market == m && InFlight(s'.calls[j].pc)
    {
      if m != e.market {
        assert Flying(s.log, m).value != id;
      }
    }
  }

  lemma StartLog(cfg: Config, s: State, a: Action)
    requires Inv(cfg, s) && Enabled(s, a) && a.Recheck? && NeedsRefresh(s.calls[a.id].seen, s.clock, cfg.ttl)
    ensures LogInv(cfg, Apply(cfg, s, a))
  {
    var s', c := Apply(cfg, s, a), s.calls[a.id];
    var e := Started(c.market, a.id, s.clock);
    assert c.seen == s.cache.Of(c.market) by {
      assert Knows(cfg, s, c);
    }
    assert Flying(s.log, c.market) == None;
    hide FlightInv, LockInv, CallsInv, Knows;
    AppendKeepsLog(cfg, s, s', e);
  }

  /** What a record must satisfy for the log to stay disciplined, spaced and true to the cache. */
  lemma AppendKeepsLog(cfg: Config, s: State, s': State, e: Event)
    requires LogInv(cfg, s) && s'.log == s.log + [e] && s'.clock == s.clock
    requires s'.cache == if e.Published? then s.cache.With(e.market, Cache(e.symbols, e.at)) else s.cache
    requires var before := Flying(s.log, e.market);
             match e
             case Started(m, _, at) => before == None && NeedsRefresh(s.cache.Of(m), at, cfg.ttl)
             case Failed(_, id) => before == Some(id)
             case Published(_, id, symbols, at) => before == Some(id) && symbols != [] && at == s.clock
    ensures LogInv(cfg, s')
  {
    DisciplinedPush(s.log, e);
    LogPush(s.log, e, SpotMarket);
    LogPush(s.log, e, FuturesMarket);
    hide Disciplined, Flying, LastPublished;
  }

  lemma StartStep(cfg: Config, s: State, a: Action)
    requires Inv(cfg, s) && Enabled(s, a) && a.Recheck? && NeedsRefresh(s.calls[a.id].seen, s.clock, cfg.ttl)
    ensures Inv(cfg, Apply(cfg, s, a))
  {
    var s', c := Apply(cfg, s, a), s.calls[a.id];
    StartLog(cfg, s, a);
    SameLocks(s, s', a.id);
    LogStepFlight(s, s', a.id, Started(c.market, a.id, s.clock));
    hide LogInv, FlightInv, LockInv;
    assert Knows(cfg, s', s'.calls[a.id]) by {
      assert Knows(cfg, s, c);
      KnowledgeLasts(cfg, s, s', c);
    }
    hide Apply, CallsInv, Knows;
    OthersKnow(cfg, s, s', a.id);
  }

  lemma FailKnown(cfg: Config, s: State, a: Action)
    requires CallsInv(cfg, s) && Enabled(s, a) && a.FetchBad?
    ensures CallsInv(cfg, Apply(cfg, s, a))
  {
    var s', c := Apply(cfg, s, a), s.calls[a.id];
    assert Knows(cfg, s', s'.calls[a.id]) by {
      assert Knows(cfg, s, c);
      KnowledgeLasts(cfg, s, s', c);
    }
    hide Apply, CallsInv, Knows;
    OthersKnow(cfg, s, s', a.id);
  }

  lemma FailStep(cfg: Config, s: State, a: Action)
    requires Inv(cfg, s) && Enabled(s, a) && a.FetchBad?
    ensures Inv(cfg, Apply(cfg, s, a))
  {
    var s', c := Apply(cfg, s, a), s.calls[a.id];
    assert Flying(s.log, c.market) == Some(a.id);
    hide LogInv, FlightInv, CallsInv, LockInv, ReplyOf;
    FailKnown(cfg, s, a);
    AppendKeepsLog(cfg, s, s', Failed(c.market, a.id));
    SameLocks(s, s', a.id);
    LogStepFlight(s, s', a.id, Failed(c.market, a.id));
  }

  lemma PublishLog(cfg: Config, s: State, a: Action)
    requires Inv(cfg, s) && Enabled(s, a) && a.Publish?
    ensures LogInv(cfg, Apply(cfg, s, a))
  {
    var s', c := Apply(cfg, s, a), s.calls[a.id];
    assert c.pc.fetched != [] by {
      assert Knows(cfg, s, c);
    }
    assert Flying(s.log, c.market) == Some(a.id);
    hide FlightInv, LockInv, CallsInv, Knows, LogInv;
    AppendKeepsLog(cfg, s, s', Published(c.market, a.id, c.pc.fetched, s.clock));
  }

  lemma PublishKnown(cfg: Config, s: State, a: Action)
    requires LockInv(s) && CallsInv(cfg, s) && Enabled(s, a) && a.Publish?
    ensures CallsInv(cfg, Apply(cfg, s, a))
  {
    var s', c := Apply(cfg, s, a), s.calls[a.id];
    assert Knows(cfg, s', s'.calls[a.id]) by {
      assert Knows(cfg, s, c) && PublishedAs(s'.log[|s.log|], c.market, s'.calls[a.id].seen);
    }
    forall j | j in s'.calls && j != a.id
      ensures Knows(cfg, s', s'.calls[j])
    {
      assert Knows(cfg, s, s.calls[j]);
      assert InLock(s.calls[j].pc) ==> s.calls[j].market != c.market;
      hide Knows;
      KnowledgeLasts(cfg, s, s', s.calls[j]);
    }
  }

  lemma PublishStep(cfg: Config, s: State, a: Action)
    requires Inv(cfg, s) && Enabled(s, a) && a.Publish?
    ensures Inv(cfg, Apply(cfg, s, a))
  {
    var s', c := Apply(cfg, s, a), s.calls[a.id];
    hide LogInv, FlightInv, CallsInv, LockInv;
    PublishLog(cfg, s, a);
    PublishKnown(cfg, s, a);
    SameLocks(s, s', a.id);
    LogStepFlight(s, s', a.id, Published(c.market, a.id, c.pc.fetched, s.clock));
  }

  lemma {:induction false} StepKeepsInv(cfg: Config, s: State, a: Action)
    requires Inv(cfg, s)
    ensures Inv(cfg, Step(cfg, s, a))
  {
    hide Inv, Apply;
    if Enabled(s, a) {
      if a.Lock? || a.Answer? {
        LockStep(cfg, s, a);
      } else if a.FetchBad? {
        FailStep(cfg, s, a);
      } else if a.Publish? {
        PublishStep(cfg, s, a);
      } else if a.Recheck? && NeedsRefresh(s.calls[a.id].seen, s.clock, cfg.ttl) {
        StartStep(cfg, s, a);
      } else if a.Tick? {
        TickStep(cfg, s, a);
      } else {
        LocalStep(cfg, s, a);
      }
    }
  }

  lemma {:induction false} RunKeepsInv(cfg: Config, clock: int, actions: seq<Action>)
    ensures Inv(cfg, Run(cfg, clock, actions))
  {
    if actions != [] {
      RunKeepsInv(cfg, clock, actions[..|actions| - 1]);
      StepKeepsInv(cfg, Run(cfg, clock, actions[..|actions| - 1]), actions[|actions| - 1]);
    }
  }

  // ---- what every interleaving guarantees ----

  /** Fetches of one market never overlap, and none starts until more than ttl after any earlier success. */
  lemma {:induction false} FetchesAreSerialAndSpaced(cfg: Config, clock: int, actions: seq<Action>)
    ensures Disciplined(Run(cfg, clock, actions).log)
    ensures Spaced(Run(cfg, clock, actions).log, cfg.ttl)
  {
    RunKeepsInv(cfg, clock, actions);
  }

  lemma OneFetchInFlight(cfg: Config, clock: int, actions: seq<Action>, i: nat, j: nat)
    requires var s := Run(cfg, clock, actions);
             i in s.calls && j in s.calls && s.calls[i].market == s.calls[j].market
             && InFlight(s.calls[i].pc) && InFlight(s.calls[j].pc)
    ensures i == j
  {
    RunKeepsInv(cfg, clock, actions);
  }

  /** The cache is unfilled, or the last publication: only a successful non-empty fetch changes it. */
  lemma {:induction false} CacheIsLastPublication(cfg: Config, clock: int, actions: seq<Action>, m: Market)
    ensures Run(cfg, clock, actions).cache.Of(m) == LastPublished(Run(cfg, clock, actions).log, m)
  {
    RunKeepsInv(cfg, clock, actions);
  }

  /** What a call that has returned gave its caller: an error only when its own fetch failed over an unfilled
      cache; otherwise the filter of symbols once published, or of none, marked stale exactly when its own refresh
      was rejected over a filled cache. Where a fetcher is configured, there are none only when that refresh was
      rejected, and unmarked symbols were published no more than ttl before the call began. */
  lemma AnswersAreHonest(cfg: Config, clock: int, actions: seq<Action>, id: nat)
    requires id in Run(cfg, clock, actions).calls && Run(cfg, clock, actions).calls[id].pc.Done?
    ensures var s := Run(cfg, clock, actions);
            var c := s.calls[id];
            var reply := c.pc.reply;
            && (reply.Failure? <==> c.own == Rejected(true) && c.seen.symbols == [])
            && (reply.Listing? ==> reply.symbols == AnswerOf(c.seen.symbols, c.query, c.limit)
                                   && (reply.stale <==> c.own.Rejected? && c.seen.symbols != []))
            && (c.seen.symbols != [] ==> exists i :: 0 <= i < |s.log| && PublishedAs(s.log[i], c.market, c.seen))
            && (cfg.hasFetcher.Of(c.market) ==>
                  && (c.seen.symbols == [] ==> c.own.Rejected?)
                  && (!c.stale && c.seen.symbols != [] ==>
                      c.seen.fetchedAt >= c.started - (if cfg.ttl < 0 then 0 else cfg.ttl)))
  {
    hide Disciplined, Spaced, LastPublished, Flying, AnswerOf;
    RunKeepsInv(cfg, clock, actions);
    assert Knows(cfg, Run(cfg, clock, actions), Run(cfg, clock, actions).calls[id]);
  }

  /** When the fetches delivered tables, as the exchange's do, every listing returned is the first matches of one
      published table of its market, or empty because none was seen. */
  lemma ReturnsFirstMatches(cfg: Config, clock: int, actions: seq<Action>, id: nat)
    requires id in Run(cfg, clock, actions).calls && Run(cfg, clock, actions).calls[id].pc.Done?
    requires Run(cfg, clock, actions).calls[id].pc.reply.Listing?
    requires forall e :: e in Run(cfg, clock, actions).log && e.Published? ==> Tabled(e.symbols)
    ensures var s := Run(cfg, clock, actions);
            var c := s.calls[id];
            if c.seen.symbols == [] then c.pc.reply.symbols == []
            else exists i :: 0 <= i < |s.log| && PublishedAs(s.log[i], c.market, c.seen)
                             && FirstFor(c.pc.reply.symbols, s.log[i].symbols, c.query, c.limit)
  {
    AnswersAreHonest(cfg, clock, actions, id);
    hide Run, FirstFor, Tabled;
    var s := Run(cfg, clock, actions);
    var c := s.calls[id];
    if c.seen.symbols != [] {
      var i :| 0 <= i < |s.log| && PublishedAs(s.log[i], c.market, c.seen);
      AnswerExact(c.seen.symbols, c.query, c.limit);
    }
  }

  /** The step that a call in the locked region can always take. */
  function NextLocked(id: nat, pc: Pc): Action
    requires InLock(pc)
  {
    match pc
    case Rereading => Reread(id)
    case Rechecking => Recheck(id)
    case Fetching => FetchBad(id, true)
    case Publishing(_) => Publish(id)
    case Answering(_) => Answer(id)
  }

  /** No interleaving deadlocks: while some call is unanswered, a call can move. */
  lemma SomeCallCanMove(cfg: Config, clock: int, actions: seq<Action>, id: nat) returns (a: Action)
    requires var s := Run(cfg, clock, actions); id in s.calls && !s.calls[id].pc.Done?
    ensures Enabled(Run(cfg, clock, actions), a) && !a.Begin? && !a.Tick?
  {
    RunKeepsInv(cfg, clock, actions);
    var s := Run(cfg, clock, actions);
    hide Run, LogInv, FlightInv, CallsInv;
    var c := s.calls[id];
    if InLock(c.pc) {
      a := NextLocked(id, c.pc);
    } else if c.pc.Waiting? && s.holder.Of(c.market).Some? {
      var h := s.holder.Of(c.market).value;
      a := NextLocked(h, s.calls[h].pc);
    } else {
      a := if c.pc.Waiting? then Lock(id) else if c.pc.Reading? then Read(id) else if c.pc.Checking? then Check(id)
           else Answer(id);
    }
  }
}
