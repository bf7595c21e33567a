/** Comparing a strategy's local wallet with the exchange's: the diffs each field produces, and the
    declarative verdict. Amounts are reals; rounding is not modelled. */
module ReconcileModel {
  import opened Text
  import opened Domain

  datatype RiskMetadata = RiskMetadata(symbol: string, tickSize: real, stepSize: real)

  datatype Wallet = Wallet(walletBalance: real, availableBalance: real, marginBalance: real,
                           totalMarginBalance: real, unrealizedPnl: real, totalUnrealizedPnl: real,
                           totalPositionInitialMargin: real, totalOpenOrderInitialMargin: real,
                           totalMaintMargin: real, positions: seq<Position>, riskMetadata: seq<RiskMetadata>)

  datatype Thresholds = Thresholds(qtyStep: real, entryTick: real, entryRatio: real,
                                   walletAbs: real, walletRatio: real, riskAbs: real, riskRatio: real,
                                   liqAbs: real, liqRatio: real, markDriftTicks: real)

  datatype Severity = Hard | Soft | Advisory

  datatype Account = WalletBalance | AvailableBalance | MarginBalance | TotalMarginBalance | AccountPnl
                   | TotalPnl | TotalPositionMargin | TotalOpenOrderMargin | TotalMaintMargin

  datatype Column = Exists | PositionQty | EntryPrice | Pnl | InitialMargin | PositionInitialMargin
                  | OpenOrderInitialMargin | MaintMargin | LiquidationPrice
                  | MarkPrice | BreakEvenPrice | IsolatedWallet | Notional

  /** The dotted field path: an account field, a column of the position with that label, or the venue. */
  datatype Field = AccountField(account: Account) | PositionField(tag: string, column: Column) | VenueExists

  datatype Rule = ExactMatch | Tolerance(abs: real, ratio: real, effective: real)
                | Steps(stepSize: real, multiple: real, effective: real) | NoStepKnown
                | Ticks(tickSize: real, multiple: real, ratio: real, effective: real)
                | DriftOnly(warnMultiple: real, tickSize: real) | ObservationOnly

  datatype FieldDiff = FieldDiff(field: Field, severity: Severity, exchange: real, loc: real,
                                 diffAbs: real, diffRatio: real, threshold: Rule, passed: bool)

  // ---- one field ----

  /** max(|exchange|, |local|), the denominator of every ratio. */
  function Scale(e: real, l: real): real {
    Max(Abs(e), Abs(l))
  }

  function Ratio(e: real, l: real): real {
    if Scale(e, l) > 0.0 then Abs(e - l) / Scale(e, l) else 0.0
  }

  function SoftDiff(field: Field, e: real, l: real, absTol: real, ratioTol: real): FieldDiff {
    var effective := Max(absTol, Scale(e, l) * ratioTol);
    FieldDiff(field, Soft, e, l, Abs(e - l), Ratio(e, l), Tolerance(absTol, ratioTol, effective),
              Abs(e - l) <= effective)
  }

  function StepDiff(field: Field, e: real, l: real, step: real, multiple: real): FieldDiff {
    var threshold := if step > 0.0 then step * multiple else 0.0;
    FieldDiff(field, Hard, e, l, Abs(e - l), Ratio(e, l),
              if step > 0.0 then Steps(step, multiple, threshold) else NoStepKnown, Abs(e - l) <= threshold)
  }

  function PriceDiff(field: Field, e: real, l: real, tick: real, multiple: real, ratioTol: real): FieldDiff {
    var threshold := Max(if tick > 0.0 then tick * multiple else 0.0, Scale(e, l) * ratioTol);
    FieldDiff(field, Hard, e, l, Abs(e - l), Ratio(e, l), Ticks(tick, multiple, ratioTol, threshold),
              Abs(e - l) <= threshold)
  }

  function AdvisoryDiff(field: Field, e: real, l: real, rule: Rule): FieldDiff {
    FieldDiff(field, Advisory, e, l, Abs(e - l), Ratio(e, l), rule, true)
  }

  // ---- aligning two wallets ----

  datatype Key = Key(symbol: string, side: string)

  function NormalizeSide(side: string): string {
    var s := ToUpper(TrimSpace(side));
    if s == "" then "BOTH" else s
  }

  function Tag(k: Key): string {
    if k.side == "" || ToUpper(k.side) == "BOTH" then k.symbol else k.symbol + "/" + ToUpper(k.side)
  }

  function KeyOf(p: Position): Key {
    Key(ToUpper(p.symbol), NormalizeSide(p.side))
  }

  /** Positions by key; a later row replaces an earlier one. */
  function Index(ps: seq<Position>): map<Key, Position> {
    if ps == [] then map[] else Index(ps[..|ps| - 1])[KeyOf(ps[|ps| - 1]) := ps[|ps| - 1]]
  }

  function IndexMeta(ms: seq<RiskMetadata>): map<string, RiskMetadata> {
    if ms == [] then map[] else IndexMeta(ms[..|ms| - 1])[ToUpper(ms[|ms| - 1].symbol) := ms[|ms| - 1]]
  }

  function Qty(p: Position): real {
    if p.positionQty != 0.0 then p.positionQty else p.qty
  }

  /** Two wallets aligned by key, with the metadata in force (the exchange's wins) and the tolerances. */
  datatype Aligned = Aligned(ex: map<Key, Position>, lo: map<Key, Position>, meta: map<string, RiskMetadata>,
                             t: Thresholds)

  function Align(loc: Wallet, exchange: Wallet, t: Thresholds): Aligned {
    Aligned(Index(exchange.positions), Index(loc.positions),
            IndexMeta(loc.riskMetadata) + IndexMeta(exchange.riskMetadata), t)
  }

  function Keys(c: Aligned): set<Key> {
    c.ex.Keys + c.lo.Keys
  }

  /** Absent and zero-quantity rows are the same state. */
  predicate Flat(side: map<Key, Position>, k: Key) {
    k !in side || Qty(side[k]) == 0.0
  }

  function QtyAt(side: map<Key, Position>, k: Key): real {
    if k in side then Qty(side[k]) else 0.0
  }

  function Presence(present: bool): real {
    if present then 1.0 else 0.0
  }

  function StepSize(c: Aligned, k: Key): real {
    if k.symbol in c.meta then c.meta[k.symbol].stepSize else 0.0
  }

  function TickSize(c: Aligned, k: Key): real {
    if k.symbol in c.meta then c.meta[k.symbol].tickSize else 0.0
  }

  function ExistsDiff(c: Aligned, k: Key): FieldDiff {
    FieldDiff(PositionField(Tag(k), Exists), Hard, Presence(k in c.ex), Presence(k in c.lo),
              Abs(QtyAt(c.ex, k) - QtyAt(c.lo, k)), 0.0, ExactMatch, false)
  }

  function Risk(c: Aligned, k: Key, column: Column, e: real, l: real): FieldDiff {
    SoftDiff(PositionField(Tag(k), column), e, l, c.t.riskAbs, c.t.riskRatio)
  }

  /** The eight gated columns of a position both sides track. */
  function ColumnDiffs(c: Aligned, k: Key): seq<FieldDiff>
    requires k in c.ex && k in c.lo
  {
    var e, l, tag := c.ex[k], c.lo[k], Tag(k);
    [StepDiff(PositionField(tag, PositionQty), Qty(e), Qty(l), StepSize(c, k), c.t.qtyStep),
     PriceDiff(PositionField(tag, EntryPrice), e.entryPrice, l.entryPrice, TickSize(c, k), c.t.entryTick,
               c.t.entryRatio),
     Risk(c, k, Pnl, e.unrealizedPnl, l.unrealizedPnl),
     Risk(c, k, InitialMargin, e.initialMargin, l.initialMargin),
     Risk(c, k, PositionInitialMargin, e.positionInitialMargin, l.positionInitialMargin),
     Risk(c, k, OpenOrderInitialMargin, e.openOrderInitialMargin, l.openOrderInitialMargin),
     Risk(c, k, MaintMargin, e.maintMargin, l.maintMargin),
     SoftDiff(PositionField(tag, LiquidationPrice), e.liquidationPrice, l.liquidationPrice, c.t.liqAbs, c.t.liqRatio)]
  }

  /** The four observed columns of such a position. */
  function ObservedDiffs(c: Aligned, k: Key): seq<FieldDiff>
    requires k in c.ex && k in c.lo
  {
    var e, l, tag := c.ex[k], c.lo[k], Tag(k);
    [AdvisoryDiff(PositionField(tag, MarkPrice), e.markPrice, l.markPrice,
                  DriftOnly(c.t.markDriftTicks, TickSize(c, k))),
     AdvisoryDiff(PositionField(tag, BreakEvenPrice), e.breakEvenPrice, l.breakEvenPrice, ObservationOnly),
     AdvisoryDiff(PositionField(tag, IsolatedWallet), e.isolatedWallet, l.isolatedWallet, ObservationOnly),
     AdvisoryDiff(PositionField(tag, Notional), e.notional, l.notional, ObservationOnly)]
  }

  /** What one key contributes: nothing when flat on both sides, one diff when only one side has a row. */
  function KeyDiffs(c: Aligned, k: Key, observed: bool): seq<FieldDiff> {
    if Flat(c.ex, k) && Flat(c.lo, k) then []
    else if k !in c.ex || k !in c.lo then if observed then [] else [ExistsDiff(c, k)]
    else if observed then ObservedDiffs(c, k) else ColumnDiffs(c, k)
  }

  /** What a set of keys contributes; `TotalSplits` shows that the order of choice is immaterial. */
  ghost function Total(c: Aligned, keys: set<Key>, observed: bool): multiset<FieldDiff> {
    if keys == {} then multiset{}
    else
      var k :| k in keys;
      multiset(KeyDiffs(c, k, observed)) + Total(c, keys - {k}, observed)
  }

  function AccountDiffs(loc: Wallet, exchange: Wallet, t: Thresholds): seq<FieldDiff> {
    [SoftDiff(AccountField(WalletBalance), exchange.walletBalance, loc.walletBalance, t.walletAbs, t.walletRatio),
     SoftDiff(AccountField(AvailableBalance), exchange.availableBalance, loc.availableBalance, t.riskAbs, t.riskRatio),
     SoftDiff(AccountField(MarginBalance), exchange.marginBalance, loc.marginBalance, t.riskAbs, t.riskRatio),
     SoftDiff(AccountField(TotalMarginBalance), exchange.totalMarginBalance, loc.totalMarginBalance, t.riskAbs,
              t.riskRatio),
     SoftDiff(AccountField(AccountPnl), exchange.unrealizedPnl, loc.unrealizedPnl, t.riskAbs, t.riskRatio),
     SoftDiff(AccountField(TotalPnl), exchange.totalUnrealizedPnl, loc.totalUnrealizedPnl, t.riskAbs, t.riskRatio),
     SoftDiff(AccountField(TotalPositionMargin), exchange.totalPositionInitialMargin, loc.totalPositionInitialMargin,
              t.riskAbs, t.riskRatio),
     SoftDiff(AccountField(TotalOpenOrderMargin), exchange.totalOpenOrderInitialMargin, loc.totalOpenOrderInitialMargin,
              t.riskAbs, t.riskRatio),
     SoftDiff(AccountField(TotalMaintMargin), exchange.totalMaintMargin, loc.totalMaintMargin, t.riskAbs, t.riskRatio)]
  }

  // ---- the declarative verdict ----

  /** Within the absolute tolerance or within the relative one. */
  predicate Within(e: real, l: real, absTol: real, ratioTol: real) {
    Abs(e - l) <= absTol || Abs(e - l) <= ratioTol * Scale(e, l)
  }

  predicate QtyAgrees(e: real, l: real, step: real, multiple: real) {
    if step > 0.0 then Abs(e - l) <= step * multiple else e == l
  }

  predicate PriceAgrees(e: real, l: real, tick: real, multiple: real, ratioTol: real) {
    Within(e, l, if tick > 0.0 then tick * multiple else 0.0, ratioTol)
  }

  /** A position live on either side has a row on both, with quantity and entry price in tolerance. */
  predicate KeyHardAgrees(c: Aligned, k: Key) {
    (!Flat(c.ex, k) || !Flat(c.lo, k)) ==>
      k in c.ex && k in c.lo
      && QtyAgrees(Qty(c.ex[k]), Qty(c.lo[k]), StepSize(c, k), c.t.qtyStep)
      && PriceAgrees(c.ex[k].entryPrice, c.lo[k].entryPrice, TickSize(c, k), c.t.entryTick, c.t.entryRatio)
  }

  predicate RiskAgrees(e: Position, l: Position, t: Thresholds) {
    && Within(e.unrealizedPnl, l.unrealizedPnl, t.riskAbs, t.riskRatio)
    && Within(e.initialMargin, l.initialMargin, t.riskAbs, t.riskRatio)
    && Within(e.positionInitialMargin, l.positionInitialMargin, t.riskAbs, t.riskRatio)
    && Within(e.openOrderInitialMargin, l.openOrderInitialMargin, t.riskAbs, t.riskRatio)
    && Within(e.maintMargin, l.maintMargin, t.riskAbs, t.riskRatio)
    && Within(e.liquidationPrice, l.liquidationPrice, t.liqAbs, t.liqRatio)
  }

  predicate KeySoftAgrees(c: Aligned, k: Key) {
    (!Flat(c.ex, k) || !Flat(c.lo, k)) && k in c.ex && k in c.lo ==> RiskAgrees(c.ex[k], c.lo[k], c.t)
  }

  predicate BalancesAgree(loc: Wallet, exchange: Wallet, t: Thresholds) {
    && Within(exchange.walletBalance, loc.walletBalance, t.walletAbs, t.walletRatio)
    && Within(exchange.availableBalance, loc.availableBalance, t.riskAbs, t.riskRatio)
    && Within(exchange.marginBalance, loc.marginBalance, t.riskAbs, t.riskRatio)
    && Within(exchange.totalMarginBalance, loc.totalMarginBalance, t.riskAbs, t.riskRatio)
    && Within(exchange.unrealizedPnl, loc.unrealizedPnl, t.riskAbs, t.riskRatio)
    && Within(exchange.totalUnrealizedPnl, loc.totalUnrealizedPnl, t.riskAbs, t.riskRatio)
    && Within(exchange.totalPositionInitialMargin, loc.totalPositionInitialMargin, t.riskAbs, t.riskRatio)
    && Within(exchange.totalOpenOrderInitialMargin, loc.totalOpenOrderInitialMargin, t.riskAbs, t.riskRatio)
    && Within(exchange.totalMaintMargin, loc.totalMaintMargin, t.riskAbs, t.riskRatio)
  }

  ghost predicate HardAgrees(loc: Wallet, exchange: Wallet, t: Thresholds) {
    forall k :: k in Keys(Align(loc, exchange, t)) ==> KeyHardAgrees(Align(loc, exchange, t), k)
  }

  ghost predicate SoftAgrees(loc: Wallet, exchange: Wallet, t: Thresholds) {
    BalancesAgree(loc, exchange, t)
    && forall k :: k in Keys(Align(loc, exchange, t)) ==> KeySoftAgrees(Align(loc, exchange, t), k)
  }

  /** Every diff Compare records about two wallets, as a multiset: iteration order is not part of it. */
  ghost function AllDiffs(loc: Wallet, exchange: Wallet, t: Thresholds, observed: bool): multiset<FieldDiff> {
    var c := Align(loc, exchange, t);
    multiset(if observed then [] else AccountDiffs(loc, exchange, t)) + Total(c, Keys(c), observed)
  }
}
