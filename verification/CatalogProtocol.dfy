/** The symbol cache under concurrent `List` calls. Each critical section, clock reading and fetch outcome
    is one step of one call; steps of different calls interleave freely. */
module CatalogProtocol {
  import opened Wrappers
  import opened SymbolList

  datatype Market = SpotMarket | FuturesMarket

  /** One value per market. */
  datatype Both<T> = Both(spot: T, futures: T) {
    function Of(m: Market): T {
      if m == SpotMarket then spot else futures
    }

    function With(m: Market, t: T): Both<T> {
      if m == SpotMarket then this.(spot := t) else this.(futures := t)
    }
  }

  datatype Cache = Cache(symbols: seq<string>, fetchedAt: int)

  const UNFILLED := Cache([], 0)

  /** What `List` returns: the filtered symbols and whether they are stale, or the error of its fetch. */
  datatype Reply = Listing(symbols: seq<string>, stale: bool) | Failure

  datatype Pc =
    | Reading                         // about to copy the cache
    | Checking                        // about to compare the copy with the clock
    | Waiting                         // wants the market's refresh lock
    | Rereading | Rechecking          // the same two steps again, under the refresh lock
    | Fetching                        // a request is in flight
    | Publishing(fetched: seq<string>)
    | Answering(locked: bool)         // about to filter, return and let go of the lock
    | Done(reply: Reply)

  /** What became of the refresh this call made itself: rejected means an error, or an empty list without one. */
  datatype Own = NoFetch | Refreshed | Rejected(error: bool)

  datatype Call = Call(market: Market, query: string, limit: int, pc: Pc, started: int, seen: Cache, stale: bool,
                       own: Own)

  datatype Event =
    | Started(market: Market, id: nat, at: int)
    | Failed(market: Market, id: nat)
    | Published(market: Market, id: nat, symbols: seq<string>, at: int)

  /** `log` is history: it records fetches and is never read by a call. */
  datatype State = State(cache: Both<Cache>, holder: Both<Option<nat>>, calls: map<nat, Call>, clock: int,
                         log: seq<Event>)

  datatype Config = Config(ttl: int, hasFetcher: Both<bool>)

  datatype Action =
    | Begin(id: nat, market: Market, query: string, limit: int)
    | Tick(elapsed: nat)
    | Read(id: nat)
    | Check(id: nat)
    | Lock(id: nat)
    | Reread(id: nat)
    | Recheck(id: nat)
    | FetchGood(id: nat, fetched: seq<string>)
    | FetchBad(id: nat, error: bool)
    | Publish(id: nat)
    | Answer(id: nat)

  function Init(clock: int): State {
    State(Both(UNFILLED, UNFILLED), Both(None, None), map[], clock, [])
  }

  predicate NeedsRefresh(c: Cache, clock: int, ttl: int) {
    c.symbols == [] || clock - c.fetchedAt > ttl
  }

  predicate At(s: State, id: nat, pc: Pc) {
    id in s.calls && s.calls[id].pc == pc
  }

  predicate Enabled(s: State, a: Action) {
    match a
    case Begin(id, _, _, _) => id !in s.calls
    case Tick(_) => true
    case Read(id) => At(s, id, Reading)
    case Check(id) => At(s, id, Checking)
    case Lock(id) => At(s, id, Waiting) && s.holder.Of(s.calls[id].market).None?
    case Reread(id) => At(s, id, Rereading)
    case Recheck(id) => At(s, id, Rechecking)
    case FetchGood(id, fetched) => At(s, id, Fetching) && fetched != []
    case FetchBad(id, _) => At(s, id, Fetching)
    case Publish(id) => id in s.calls && s.calls[id].pc.Publishing?
    case Answer(id) => id in s.calls && s.calls[id].pc.Answering?
  }

  function Move(s: State, id: nat, c: Call): State {
    s.(calls := s.calls[id := c])
  }

  /** The return statements of `List`. */
  function ReplyOf(c: Call): Reply {
    if c.own == Rejected(true) && c.seen.symbols == [] then Failure
    else Listing(AnswerOf(c.seen.symbols, c.query, c.limit), c.stale)
  }

  function Apply(cfg: Config, s: State, a: Action): State
    requires Enabled(s, a)
  {
    match a
    case Begin(id, m, query, limit) => Move(s, id, Call(m, query, limit, Reading, s.clock, UNFILLED, false, NoFetch))
    case Tick(elapsed) => s.(clock := s.clock + elapsed)
    case Read(id) =>
      var c := s.calls[id];
      Move(s, id, c.(pc := Checking, seen := s.cache.Of(c.market)))
    case Check(id) =>
      var c := s.calls[id];
      if NeedsRefresh(c.seen, s.clock, cfg.ttl) && cfg.hasFetcher.Of(c.market)
      then Move(s, id, c.(pc := Waiting)) else Move(s, id, c.(pc := Answering(false)))
    case Lock(id) =>
      var c := s.calls[id];
      Move(s, id, c.(pc := Rereading)).(holder := s.holder.With(c.market, Some(id)))
    case Reread(id) =>
      var c := s.calls[id];
      Move(s, id, c.(pc := Rechecking, seen := s.cache.Of(c.market)))
    case Recheck(id) =>
      var c := s.calls[id];
      if NeedsRefresh(c.seen, s.clock, cfg.ttl)
      then Move(s, id, c.(pc := Fetching)).(log := s.log + [Started(c.market, id, s.clock)])
      else Move(s, id, c.(pc := Answering(true)))
    case FetchGood(id, fetched) => Move(s, id, s.calls[id].(pc := Publishing(fetched)))
    case FetchBad(id, error) =>
      var c := s.calls[id];
      Move(s, id, c.(pc := Answering(true), stale := c.seen.symbols != [], own := Rejected(error)))
        .(log := s.log + [Failed(c.market, id)])
    case Publish(id) =>
      var c := s.calls[id];
      var filled := Cache(c.pc.fetched, s.clock);
      Move(s, id, c.(pc := Answering(true), seen := filled, own := Refreshed))
        .(cache := s.cache.With(c.market, filled), log := s.log + [Published(c.market, id, c.pc.fetched, s.clock)])
    case Answer(id) =>
      var c := s.calls[id];
      var s' := Move(s, id, c.(pc := Done(ReplyOf(c))));
      if c.pc.locked then s'.(holder := s.holder.With(c.market, None)) else s'
  }

  /** An action that is not enabled does nothing, so every sequence of actions is a run. */
  function Step(cfg: Config, s: State, a: Action): State {
    if Enabled(s, a) then Apply(cfg, s, a) else s
  }

  function Run(cfg: Config, clock: int, actions: seq<Action>): State {
    if actions == [] then Init(clock)
    else Step(cfg, Run(cfg, clock, actions[..|actions| - 1]), actions[|actions| - 1])
  }

  // ---- the invariant ----

  predicate InLock(pc: Pc) {
    pc.Rereading? || pc.Rechecking? || pc.Fetching? || pc.Publishing? || (pc.Answering? && pc.locked)
  }

  predicate InFlight(pc: Pc) {
    pc.Fetching? || pc.Publishing?
  }

  /** The refresh lock of a market is held by exactly the call inside the locked region. */
  ghost predicate LockInv(s: State) {
    (forall id :: id in s.calls && InLock(s.calls[id].pc) ==> s.holder.Of(s.calls[id].market) == Some(id))
    && (forall m: Market :: s.holder.Of(m).Some? ==>
          var id := s.holder.Of(m).value;
          id in s.calls && s.calls[id].market == m && InLock(s.calls[id].pc))
  }

  /** Who has a fetch in flight, and what was published last, as the log tells it. */
  function Flying(log: seq<Event>, m: Market): Option<nat> {
    if log == [] then None
    else
      var e := log[|log| - 1];
      if e.market != m then Flying(log[..|log| - 1], m)
      else if e.Started? then Some(e.id) else None
  }

  function LastPublished(log: seq<Event>, m: Market): Cache {
    if log == [] then UNFILLED
    else
      var e := log[|log| - 1];
      if e.Published? && e.market == m then Cache(e.symbols, e.at) else LastPublished(log[..|log| - 1], m)
  }

  /** Every start finds no fetch in flight; every end is the end of the one in flight; a publication is
      not empty. */
  ghost predicate Disciplined(log: seq<Event>) {
    forall i :: 0 <= i < |log| ==>
      var before := Flying(log[..i], log[i].market);
      match log[i]
      case Started(_, _, _) => before == None
      case Failed(_, id) => before == Some(id)
      case Published(_, id, symbols, _) => before == Some(id) && symbols != []
  }

  /** No fetch starts before more than `ttl` has passed since any earlier publication. */
  ghost predicate Spaced(log: seq<Event>, ttl: int) {
    forall i, j :: 0 <= i < j < |log| && log[i].Published? && log[j].Started? && log[i].market == log[j].market ==>
      log[j].at > log[i].at + ttl
  }

  ghost predicate LogInv(cfg: Config, s: State) {
    Disciplined(s.log) && Spaced(s.log, cfg.ttl)
    && (forall m: Market :: s.cache.Of(m) == LastPublished(s.log, m))
    && (forall i :: 0 <= i < |s.log| && s.log[i].Published? ==>
          s.log[i].at <= s.cache.Of(s.log[i].market).fetchedAt <= s.clock
          && s.cache.Of(s.log[i].market).symbols != [])
  }

  ghost predicate FlightInv(s: State) {
    (forall id :: id in s.calls && InFlight(s.calls[id].pc) ==> Flying(s.log, s.calls[id].market) == Some(id))
    && (forall m: Market :: Flying(s.log, m).Some? ==>
          var id := Flying(s.log, m).value;
          id in s.calls && s.calls[id].market == m && InFlight(s.calls[id].pc))
  }

  /** What a call knows at each point of its life. */
  ghost predicate Knows(cfg: Config, s: State, c: Call) {
    && c.started <= s.clock
    && (c.own != NoFetch ==> c.pc.Answering? || c.pc.Done?)
    && (c.stale ==> c.own.Rejected? && c.seen.symbols != [])
    && (c.own.Rejected? && !c.stale ==> c.seen.symbols == [])
    && (c.own == Refreshed ==> c.seen.symbols != [] && c.seen.fetchedAt >= c.started)
    && (c.pc.Rechecking? || InFlight(c.pc) ==> c.seen == s.cache.Of(c.market))
    && (c.pc.Done? ==> c.pc.reply == ReplyOf(c))
    && (c.pc.Publishing? ==> c.pc.fetched != [])
    && (c.seen != UNFILLED ==> exists i :: 0 <= i < |s.log| && PublishedAs(s.log[i], c.market, c.seen))
    && ((c.pc.Answering? || c.pc.Done?) && c.own == NoFetch && cfg.hasFetcher.Of(c.market) ==>
          c.seen.symbols != [] && c.seen.fetchedAt + cfg.ttl >= c.started)
  }

  predicate PublishedAs(e: Event, m: Market, c: Cache) {
    e.Published? && e.market == m && e.symbols == c.symbols && e.at == c.fetchedAt
  }

  ghost predicate CallsInv(cfg: Config, s: State) {
    forall id :: id in s.calls ==> Knows(cfg, s, s.calls[id])
  }

  ghost predicate Inv(cfg: Config, s: State) {
    LockInv(s) && LogInv(cfg, s) && FlightInv(s) && CallsInv(cfg, s)
  }
}
