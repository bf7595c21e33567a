/** What every recorded diff says, in terms of the two rows it is about. */
module ReconcileDiffs {
  import opened Domain
  import opened Text
  import opened ReconcileModel
  import opened Reconcile
  import opened ReconcileLaws
  import opened ReconcileRows

  // ---- the value a column shows ----

  /** `v` is what the row shows in the column; the quantity is signed. */
  predicate Carries(p: Position, column: Column, v: real) {
    match column
    case Exists => false
    case PositionQty => (p.positionQty != 0.0 ==> v == p.positionQty) && (p.positionQty == 0.0 ==> v == p.qty)
    case EntryPrice => v == p.entryPrice
    case Pnl => v == p.unrealizedPnl
    case InitialMargin => v == p.initialMargin
    case PositionInitialMargin => v == p.positionInitialMargin
    case OpenOrderInitialMargin => v == p.openOrderInitialMargin
    case MaintMargin => v == p.maintMargin
    case LiquidationPrice => v == p.liquidationPrice
    case MarkPrice => v == p.markPrice
    case BreakEvenPrice => v == p.breakEvenPrice
    case IsolatedWallet => v == p.isolatedWallet
    case Notional => v == p.notional
  }

  predicate Shows(w: Wallet, account: Account, v: real) {
    match account
    case WalletBalance => v == w.walletBalance
    case AvailableBalance => v == w.availableBalance
    case MarginBalance => v == w.marginBalance
    case TotalMarginBalance => v == w.totalMarginBalance
    case AccountPnl => v == w.unrealizedPnl
    case TotalPnl => v == w.totalUnrealizedPnl
    case TotalPositionMargin => v == w.totalPositionInitialMargin
    case TotalOpenOrderMargin => v == w.totalOpenOrderInitialMargin
    case TotalMaintMargin => v == w.totalMaintMargin
  }

  predicate Observed(column: Column) {
    column == MarkPrice || column == BreakEvenPrice || column == IsolatedWallet || column == Notional
  }

  // ---- the measure and the judgement ----

  /** Difference and ratio of the two recorded values. */
  predicate Measured(d: FieldDiff) {
    var scale := Max(Abs(d.exchange), Abs(d.loc));
    && 0.0 <= d.diffAbs && (d.diffAbs == d.exchange - d.loc || d.diffAbs == d.loc - d.exchange)
    && d.diffRatio * scale == d.diffAbs && (scale == 0.0 ==> d.diffRatio == 0.0)
  }

  /** The diff passed exactly when its values are as near as its own threshold allows. */
  predicate Judged(d: FieldDiff) {
    match d.threshold
    case Tolerance(a, r, _) => d.severity == Soft && (d.passed <==> NearEither(d.exchange, d.loc, a, r))
    case Steps(step, m, limit) => d.severity == Hard && step > 0.0 && limit == Allowance(step, m)
                                  && (d.passed <==> Near(d.exchange, d.loc, limit))
    case NoStepKnown => d.severity == Hard && (d.passed <==> d.exchange == d.loc)
    case Ticks(tick, m, r, _) =>
      d.severity == Hard
      && (d.passed <==> NearEither(d.exchange, d.loc, Allowance(tick, m), r))
    case DriftOnly(_, _) => d.severity == Advisory && d.passed
    case ObservationOnly => d.severity == Advisory && d.passed
    case ExactMatch => d.severity == Hard && !d.passed
  }

  /** The threshold that governs the column. */
  predicate Governs(column: Column, t: Thresholds, step: real, tick: real, rule: Rule) {
    match column
    case Exists => false
    case PositionQty => if step > 0.0 then rule.Steps? && rule.stepSize == step && rule.multiple == t.qtyStep
                        else rule.NoStepKnown?
    case EntryPrice => rule.Ticks? && rule.tickSize == tick && rule.multiple == t.entryTick
                       && rule.ratio == t.entryRatio
    case LiquidationPrice => rule.Tolerance? && rule.abs == t.liqAbs && rule.ratio == t.liqRatio
    case MarkPrice => rule == DriftOnly(t.markDriftTicks, tick)
    case _ => if Observed(column) then rule == ObservationOnly
              else rule.Tolerance? && rule.abs == t.riskAbs && rule.ratio == t.riskRatio
  }

  predicate GovernsAccount(account: Account, t: Thresholds, rule: Rule) {
    rule.Tolerance?
    && if account == WalletBalance then rule.abs == t.walletAbs && rule.ratio == t.walletRatio
       else rule.abs == t.riskAbs && rule.ratio == t.riskRatio
  }

  lemma RatioExact(e: real, l: real)
    ensures Ratio(e, l) * Max(Abs(e), Abs(l)) == Abs(e - l)
  {
    var scale := Max(Abs(e), Abs(l));
    if scale > 0.0 {
      assert (Abs(e - l) / scale) * scale == Abs(e - l);
    }
  }

  lemma MeasuredBy(d: FieldDiff)
    requires d.diffAbs == Abs(d.exchange - d.loc) && d.diffRatio == Ratio(d.exchange, d.loc)
    ensures Measured(d)
  {
    RatioExact(d.exchange, d.loc);
  }

  lemma SoftExact(f: Field, e: real, l: real, a: real, r: real)
    ensures Measured(SoftDiff(f, e, l, a, r)) && Judged(SoftDiff(f, e, l, a, r))
  {
    hide Abs, Ratio, Within, NearEither, Measured;
    MeasuredBy(SoftDiff(f, e, l, a, r));
    SoftMeansWithin(f, e, l, a, r);
    WithinExact(e, l, a, r);
  }

  lemma StepExact(f: Field, e: real, l: real, step: real, m: real)
    ensures Measured(StepDiff(f, e, l, step, m)) && Judged(StepDiff(f, e, l, step, m))
  {
    hide Ratio, Measured;
    MeasuredBy(StepDiff(f, e, l, step, m));
  }

  lemma PriceToleranceExact(e: real, l: real, tick: real, m: real, r: real)
    ensures PriceAgrees(e, l, tick, m, r) <==> NearEither(e, l, Allowance(tick, m), r)
  {
    WithinExact(e, l, Allowance(tick, m), r);
    hide Within, NearEither;
  }

  lemma PriceExact(f: Field, e: real, l: real, tick: real, m: real, r: real)
    ensures Measured(PriceDiff(f, e, l, tick, m, r)) && Judged(PriceDiff(f, e, l, tick, m, r))
  {
    hide Abs, Ratio, PriceAgrees, NearEither, Measured;
    MeasuredBy(PriceDiff(f, e, l, tick, m, r));
    PriceMeansAgrees(f, e, l, tick, m, r);
    PriceToleranceExact(e, l, tick, m, r);
  }

  lemma AdvisoryExact(f: Field, e: real, l: real, rule: Rule)
    requires rule.DriftOnly? || rule.ObservationOnly?
    ensures Measured(AdvisoryDiff(f, e, l, rule)) && Judged(AdvisoryDiff(f, e, l, rule))
  {
    hide Abs, Ratio, Measured;
    MeasuredBy(AdvisoryDiff(f, e, l, rule));
  }

  // ---- the diffs of one key ----

  /** `d` reports column `column` of these two rows under these sizes. */
  predicate Reports(d: FieldDiff, tag: string, column: Column, e: Position, l: Position, t: Thresholds, step: real,
                    tick: real) {
    d.field == PositionField(tag, column) && Carries(e, column, d.exchange) && Carries(l, column, d.loc)
    && Measured(d) && Judged(d) && Governs(column, t, step, tick, d.threshold)
  }

  const GATED := [PositionQty, EntryPrice, Pnl, InitialMargin, PositionInitialMargin, OpenOrderInitialMargin,
                  MaintMargin, LiquidationPrice]
  const WATCHED := [MarkPrice, BreakEvenPrice, IsolatedWallet, Notional]

  lemma SoftReports(tag: string, column: Column, e: Position, l: Position, x: real, y: real, t: Thresholds, step: real,
                    tick: real, a: real, r: real)
    requires Carries(e, column, x) && Carries(l, column, y)
    requires Governs(column, t, step, tick, Tolerance(a, r, 0.0))
    ensures Reports(SoftDiff(PositionField(tag, column), x, y, a, r), tag, column, e, l, t, step, tick)
  {
    SoftExact(PositionField(tag, column), x, y, a, r);
    hide Measured, Judged, Carries;
  }

  lemma AdvisoryReports(tag: string, column: Column, e: Position, l: Position, x: real, y: real, t: Thresholds,
                        step: real, tick: real, rule: Rule)
    requires Carries(e, column, x) && Carries(l, column, y)
    requires Governs(column, t, step, tick, rule) && (rule.DriftOnly? || rule.ObservationOnly?)
    ensures Reports(AdvisoryDiff(PositionField(tag, column), x, y, rule), tag, column, e, l, t, step, tick)
  {
    AdvisoryExact(PositionField(tag, column), x, y, rule);
    hide Measured, Judged, Carries;
  }

  lemma QtyReports(tag: string, e: Position, l: Position, t: Thresholds, step: real, tick: real)
    ensures Reports(StepDiff(PositionField(tag, PositionQty), Qty(e), Qty(l), step, t.qtyStep), tag, PositionQty, e, l,
                    t, step, tick)
  {
    StepExact(PositionField(tag, PositionQty), Qty(e), Qty(l), step, t.qtyStep);
    hide Measured, Judged;
  }

  lemma PriceReports(tag: string, e: Position, l: Position, t: Thresholds, step: real, tick: real)
    ensures Reports(PriceDiff(PositionField(tag, EntryPrice), e.entryPrice, l.entryPrice, tick, t.entryTick,
                              t.entryRatio), tag, EntryPrice, e, l, t, step, tick)
  {
    PriceExact(PositionField(tag, EntryPrice), e.entryPrice, l.entryPrice, tick, t.entryTick, t.entryRatio);
    hide Measured, Judged;
  }

  /** A compared key yields one report for each of the eight gated columns. */
  lemma GatedReported(c: Aligned, k: Key)
    requires k in c.ex && k in c.lo
    ensures |ColumnDiffs(c, k)| == |GATED|
    ensures forall i :: 0 <= i < |GATED| ==>
              Reports(ColumnDiffs(c, k)[i], Tag(k), GATED[i], c.ex[k], c.lo[k], c.t, StepSize(c, k), TickSize(c, k))
  {
    hide Reports, SoftDiff, StepDiff, PriceDiff, Qty, Tag, StepSize, TickSize;
    var e, l, t, tag, step, tick := c.ex[k], c.lo[k], c.t, Tag(k), StepSize(c, k), TickSize(c, k);
    QtyReports(tag, e, l, t, step, tick);
    PriceReports(tag, e, l, t, step, tick);
    SoftReports(tag, Pnl, e, l, e.unrealizedPnl, l.unrealizedPnl, t, step, tick, t.riskAbs, t.riskRatio);
    SoftReports(tag, InitialMargin, e, l, e.initialMargin, l.initialMargin, t, step, tick, t.riskAbs, t.riskRatio);
    SoftReports(tag, PositionInitialMargin, e, l, e.positionInitialMargin, l.positionInitialMargin, t, step, tick,
                t.riskAbs, t.riskRatio);
    SoftReports(tag, OpenOrderInitialMargin, e, l, e.openOrderInitialMargin, l.openOrderInitialMargin, t, step, tick,
                t.riskAbs, t.riskRatio);
    SoftReports(tag, MaintMargin, e, l, e.maintMargin, l.maintMargin, t, step, tick, t.riskAbs, t.riskRatio);
    SoftReports(tag, LiquidationPrice, e, l, e.liquidationPrice, l.liquidationPrice, t, step, tick, t.liqAbs,
                t.liqRatio);
  }

  /** And one for each of the four observed ones. */
  lemma WatchedReported(c: Aligned, k: Key)
    requires k in c.ex && k in c.lo
    ensures |ObservedDiffs(c, k)| == |WATCHED|
    ensures forall i :: 0 <= i < |WATCHED| ==>
              Reports(ObservedDiffs(c, k)[i], Tag(k), WATCHED[i], c.ex[k], c.lo[k], c.t, StepSize(c, k), TickSize(c, k))
  {
    hide Reports, AdvisoryDiff, Tag, StepSize, TickSize;
    var e, l, t, tag, step, tick := c.ex[k], c.lo[k], c.t, Tag(k), StepSize(c, k), TickSize(c, k);
    AdvisoryReports(tag, MarkPrice, e, l, e.markPrice, l.markPrice, t, step, tick, DriftOnly(t.markDriftTicks, tick));
    AdvisoryReports(tag, BreakEvenPrice, e, l, e.breakEvenPrice, l.breakEvenPrice, t, step, tick, ObservationOnly);
    AdvisoryReports(tag, IsolatedWallet, e, l, e.isolatedWallet, l.isolatedWallet, t, step, tick, ObservationOnly);
    AdvisoryReports(tag, Notional, e, l, e.notional, l.notional, t, step, tick, ObservationOnly);
  }

  // ---- labels ----

  /** The label is the upper-cased symbol, with the side after a slash unless the row is one-way. */
  predicate Labels(tag: string, p: Position) {
    if SameSide(p.side, "") then tag == ToUpper(p.symbol)
    else tag == ToUpper(p.symbol) + "/" + ToUpper(TrimSpace(p.side))
  }

  lemma LabelExact(p: Position)
    ensures Labels(Tag(KeyOf(p)), p)
  {
    SidesExact(p.side, "");
    assert TrimSpace("") == "" && NormalizeSide("") == "BOTH" && ToUpper("BOTH") == "BOTH";
    ToUpperIdempotent(TrimSpace(p.side));
    hide TrimSpace, SameSide;
  }

  // ---- all of them ----

  /** Row `i` is the last of its position, live, and the other side has no row for it. */
  ghost predicate Lonely(ps: seq<Position>, others: seq<Position>, i: int) {
    0 <= i < |ps| && IsLast(ps, i) && Live(ps[i])
    && forall j :: 0 <= j < |others| ==> !SamePosition(others[j], ps[i])
  }

  /** The diff of a position that only one side tracks. */
  predicate Missing(d: FieldDiff, p: Position, e: real, l: real) {
    d.severity == Hard && d.exchange == e && d.loc == l && !d.passed && d.threshold == ExactMatch && d.diffRatio == 0.0
    && 0.0 <= d.diffAbs && (Carries(p, PositionQty, d.diffAbs) || Carries(p, PositionQty, -d.diffAbs))
  }

  /** What the recorded diff claims is so. */
  ghost predicate True(loc: Wallet, exchange: Wallet, t: Thresholds, observed: bool, d: FieldDiff) {
    match d.field
    case VenueExists => false
    case AccountField(a) =>
      !observed && Shows(exchange, a, d.exchange) && Shows(loc, a, d.loc) && Measured(d) && Judged(d)
      && GovernsAccount(a, t, d.threshold)
    case PositionField(tag, column) =>
      if column == Exists then
        !observed
        && ((exists i :: Lonely(exchange.positions, loc.positions, i) && Labels(tag, exchange.positions[i])
                         && Missing(d, exchange.positions[i], 1.0, 0.0))
            || (exists j :: Lonely(loc.positions, exchange.positions, j) && Labels(tag, loc.positions[j])
                            && Missing(d, loc.positions[j], 0.0, 1.0)))
      else
        observed == Observed(column)
        && exists i, j, step, tick ::
             Paired(loc, exchange, i, j) && Sized(loc, exchange, exchange.positions[i].symbol, step, tick)
             && Labels(tag, exchange.positions[i])
             && Reports(d, tag, column, exchange.positions[i], loc.positions[j], t, step, tick)
  }

  const ACCOUNTS := [WalletBalance, AvailableBalance, MarginBalance, TotalMarginBalance, AccountPnl, TotalPnl,
                     TotalPositionMargin, TotalOpenOrderMargin, TotalMaintMargin]

  lemma AccountTrue(account: Account, loc: Wallet, exchange: Wallet, t: Thresholds, x: real, y: real, a: real, r: real)
    requires Shows(exchange, account, x) && Shows(loc, account, y) && GovernsAccount(account, t, Tolerance(a, r, 0.0))
    ensures True(loc, exchange, t, false, SoftDiff(AccountField(account), x, y, a, r))
  {
    SoftExact(AccountField(account), x, y, a, r);
    hide Measured, Judged, Shows;
  }

  /** One true diff per balance. */
  lemma AccountsTrue(loc: Wallet, exchange: Wallet, t: Thresholds)
    ensures |AccountDiffs(loc, exchange, t)| == |ACCOUNTS|
    ensures forall i :: 0 <= i < |ACCOUNTS| ==>
              AccountDiffs(loc, exchange, t)[i].field == AccountField(ACCOUNTS[i])
              && True(loc, exchange, t, false, AccountDiffs(loc, exchange, t)[i])
  {
    var l, e, m, a, r := loc, exchange, t, t.riskAbs, t.riskRatio;
    hide True;
    AccountTrue(WalletBalance, l, e, m, e.walletBalance, l.walletBalance, t.walletAbs, t.walletRatio);
    AccountTrue(AvailableBalance, l, e, m, e.availableBalance, l.availableBalance, a, r);
    AccountTrue(MarginBalance, l, e, m, e.marginBalance, l.marginBalance, a, r);
    AccountTrue(TotalMarginBalance, l, e, m, e.totalMarginBalance, l.totalMarginBalance, a, r);
    AccountTrue(AccountPnl, l, e, m, e.unrealizedPnl, l.unrealizedPnl, a, r);
    AccountTrue(TotalPnl, l, e, m, e.totalUnrealizedPnl, l.totalUnrealizedPnl, a, r);
    AccountTrue(TotalPositionMargin, l, e, m, e.totalPositionInitialMargin, l.totalPositionInitialMargin, a, r);
    AccountTrue(TotalOpenOrderMargin, l, e, m, e.totalOpenOrderInitialMargin, l.totalOpenOrderInitialMargin, a, r);
    AccountTrue(TotalMaintMargin, l, e, m, e.totalMaintMargin, l.totalMaintMargin, a, r);
    hide Abs, Ratio, Max, Scale;
  }

  /** Column `n` of the reports on a key, gated or watched. */
  lemma KeyReported(c: Aligned, k: Key, observed: bool)
    requires ComparedByColumn(c, k)
    ensures var columns := if observed then WATCHED else GATED;
            && |KeyDiffs(c, k, observed)| == |columns|
            && forall n :: 0 <= n < |columns| ==>
                 Reports(KeyDiffs(c, k, observed)[n], Tag(k), columns[n], c.ex[k], c.lo[k], c.t, StepSize(c, k),
                         TickSize(c, k))
  {
    hide ColumnDiffs, ObservedDiffs, Reports, Tag, StepSize, TickSize, Qty;
    GatedReported(c, k);
    WatchedReported(c, k);
  }

  /** Where a column stands among its kind. */
  function Place(column: Column): nat {
    match column
    case EntryPrice => 1
    case Pnl => 2
    case InitialMargin => 3
    case PositionInitialMargin => 4
    case OpenOrderInitialMargin => 5
    case MaintMargin => 6
    case LiquidationPrice => 7
    case BreakEvenPrice => 1
    case IsolatedWallet => 2
    case Notional => 3
    case _ => 0
  }

  lemma PlaceExact(column: Column)
    requires column != Exists
    ensures var columns := if Observed(column) then WATCHED else GATED;
            Place(column) < |columns| && columns[Place(column)] == column
  {
  }

  lemma ColumnsOfKind(observed: bool, n: nat)
    requires n < |if observed then WATCHED else GATED|
    ensures var column := (if observed then WATCHED else GATED)[n]; column != Exists && Observed(column) == observed
  {
  }

  /** A compared key's diffs are its reports. */
  lemma KeyDiffReports(c: Aligned, k: Key, observed: bool, d: FieldDiff)
    requires ComparedByColumn(c, k) && d in KeyDiffs(c, k, observed)
    ensures d.field.PositionField? && d.field.column != Exists && Observed(d.field.column) == observed
    ensures Reports(d, Tag(k), d.field.column, c.ex[k], c.lo[k], c.t, StepSize(c, k), TickSize(c, k))
  {
    KeyReported(c, k, observed);
    hide KeyDiffs, Carries, Governs, Measured, Judged, StepSize, TickSize, Tag, ComparedByColumn, Observed;
    var n :| 0 <= n < |KeyDiffs(c, k, observed)| && KeyDiffs(c, k, observed)[n] == d;
    ColumnsOfKind(observed, n);
  }

  lemma KeyTellsColumn(c: Aligned, k: Key, column: Column) returns (d: FieldDiff)
    requires ComparedByColumn(c, k) && column != Exists
    ensures d in KeyDiffs(c, k, Observed(column))
    ensures Reports(d, Tag(k), column, c.ex[k], c.lo[k], c.t, StepSize(c, k), TickSize(c, k))
  {
    KeyReported(c, k, Observed(column));
    PlaceExact(column);
    hide KeyDiffs, Reports, StepSize, TickSize, Tag, ComparedByColumn, Observed, Place, WATCHED, GATED;
    d := KeyDiffs(c, k, Observed(column))[Place(column)];
  }

  lemma ComparedTrue(loc: Wallet, exchange: Wallet, t: Thresholds, k: Key, observed: bool, d: FieldDiff)
    requires ComparedByColumn(Align(loc, exchange, t), k) && d in KeyDiffs(Align(loc, exchange, t), k, observed)
    ensures True(loc, exchange, t, observed, d)
  {
    var c := Align(loc, exchange, t);
    KeyDiffReports(c, k, observed, d);
    var i, j := KeyPairs(loc, exchange, t, k);
    hide KeyDiffs, IsLast, Live, SamePosition, Sized, Labels, StepSize, TickSize, Tag, KeyOf, Index, Carries, Governs;
    hide Measured, Judged, KeyHardAgrees, KeySoftAgrees, HardNear, SoftNear, Observed;
    var p := exchange.positions[i];
    LabelExact(p);
    SizesExact(loc, exchange, t, p, StepSize(c, k), TickSize(c, k));
    PairExact(loc, exchange, t, i, j, StepSize(c, k), TickSize(c, k));
  }

  lemma MissingExact(p: Position, d: FieldDiff, q: real)
    requires d.severity == Hard && !d.passed && d.threshold == ExactMatch && d.diffRatio == 0.0
    requires q == Qty(p) && d.diffAbs == Abs(q)
    ensures Missing(d, p, d.exchange, d.loc)
  {
  }

  /** A position without a counterpart leaves no key on the other side. */
  lemma LonelyExact(ps: seq<Position>, others: seq<Position>, i: nat)
    requires i < |ps|
    ensures (forall j :: 0 <= j < |others| ==> !SamePosition(others[j], ps[i])) <==> KeyOf(ps[i]) !in Index(others)
  {
    hide SamePosition, KeyOf, Index;
    IndexHas(others, KeyOf(ps[i]));
    forall j | 0 <= j < |others|
      ensures SamePosition(others[j], ps[i]) <==> KeyOf(others[j]) == KeyOf(ps[i])
    {
      AlignedExact(others[j], ps[i]);
    }
  }

  lemma MissingTrue(loc: Wallet, exchange: Wallet, t: Thresholds, k: Key)
    requires var c := Align(loc, exchange, t);
             k in Keys(c) && !(Flat(c.ex, k) && Flat(c.lo, k)) && !(k in c.ex && k in c.lo)
    ensures True(loc, exchange, t, false, ExistsDiff(Align(loc, exchange, t), k))
  {
    var c := Align(loc, exchange, t);
    var d := ExistsDiff(c, k);
    var here, there := if k in c.ex then exchange.positions else loc.positions,
                       if k in c.ex then loc.positions else exchange.positions;
    var i := IndexIsLast(here, k);
    FlatExact(here[i]);
    LonelyExact(here, there, i);
    LabelExact(here[i]);
    var q := Qty(here[i]);
    assert d.diffAbs == Abs(q);
    MissingExact(here[i], d, q);
    hide KeyOf, Index, Labels, SamePosition, Tag, Abs, Qty, Missing;
    assert Lonely(here, there, i);
  }

  lemma KeyTrue(loc: Wallet, exchange: Wallet, t: Thresholds, k: Key, observed: bool, d: FieldDiff)
    requires k in Keys(Align(loc, exchange, t)) && d in KeyDiffs(Align(loc, exchange, t), k, observed)
    ensures True(loc, exchange, t, observed, d)
  {
    hide True, ColumnDiffs, ObservedDiffs, Qty, ExistsDiff, Index, IndexMeta;
    var c := Align(loc, exchange, t);
    assert !(Flat(c.ex, k) && Flat(c.lo, k));
    if k in c.ex && k in c.lo {
      ComparedTrue(loc, exchange, t, k, observed, d);
    } else {
      MissingTrue(loc, exchange, t, k);
    }
  }

  /** What a key contributes is recorded, and all that is recorded beside the balances comes from a key. */
  lemma KeysRecorded(loc: Wallet, exchange: Wallet, t: Thresholds, observed: bool, d: FieldDiff)
    ensures var c := Align(loc, exchange, t);
            d in AllDiffs(loc, exchange, t, observed) <==>
            (!observed && d in AccountDiffs(loc, exchange, t))
            || exists k :: k in Keys(c) && d in KeyDiffs(c, k, observed)
  {
    hide Total, KeyDiffs, AccountDiffs, Index, IndexMeta;
    var c := Align(loc, exchange, t);
    TotalMember(c, Keys(c), observed, d);
  }

  /** Every recorded diff is true of the wallets: its values are those of a balance, of a pair's column or of a
      position only one side tracks; its measure is theirs; and it passed exactly when its threshold allows. */
  lemma EveryDiffIsTrue(loc: Wallet, exchange: Wallet, t: Thresholds, observed: bool, d: FieldDiff)
    requires d in AllDiffs(loc, exchange, t, observed)
    ensures True(loc, exchange, t, observed, d)
  {
    hide True, AllDiffs, KeyDiffs, AccountDiffs, Align, Keys;
    KeysRecorded(loc, exchange, t, observed, d);
    if !observed && d in AccountDiffs(loc, exchange, t) {
      AccountsTrue(loc, exchange, t);
    } else {
      var c := Align(loc, exchange, t);
      var k :| k in Keys(c) && d in KeyDiffs(c, k, observed);
      KeyTrue(loc, exchange, t, k, observed, d);
    }
  }

  /** A pair's key is compared column by column, with the pair's rows and the sizes in force. */
  lemma PairCompared(loc: Wallet, exchange: Wallet, t: Thresholds, i: int, j: int, step: real, tick: real)
    requires Paired(loc, exchange, i, j) && Sized(loc, exchange, exchange.positions[i].symbol, step, tick)
    ensures var c, k := Align(loc, exchange, t), KeyOf(exchange.positions[i]);
            && ComparedByColumn(c, k) && c.ex[k] == exchange.positions[i] && c.lo[k] == loc.positions[j]
            && StepSize(c, k) == step && TickSize(c, k) == tick
  {
    hide KeyOf, Index, Sized, SamePosition, IsLast, Live, Qty, StepSize, TickSize, HardNear, SoftNear, KeyHardAgrees;
    hide KeySoftAgrees;
    PairExact(loc, exchange, t, i, j, step, tick);
    SizesExact(loc, exchange, t, exchange.positions[i], step, tick);
    FlatExact(exchange.positions[i]);
    FlatExact(loc.positions[j]);
  }

  /** Nothing is left untold: each pair has a diff for every column, under the sizes in force. */
  lemma EveryPairIsTold(loc: Wallet, exchange: Wallet, t: Thresholds, i: int, j: int, step: real, tick: real,
                        column: Column)
    requires Paired(loc, exchange, i, j) && Sized(loc, exchange, exchange.positions[i].symbol, step, tick)
    requires column != Exists
    ensures exists d :: d in AllDiffs(loc, exchange, t, Observed(column)) && d.field.PositionField?
              && Reports(d, d.field.tag, column, exchange.positions[i], loc.positions[j], t, step, tick)
  {
    var c, k := Align(loc, exchange, t), KeyOf(exchange.positions[i]);
    PairCompared(loc, exchange, t, i, j, step, tick);
    var d := KeyTellsColumn(c, k, column);
    assert c.t == t && k in Keys(c);
    hide KeyOf, Sized, SamePosition, IsLast, Live, StepSize, TickSize, AllDiffs, KeyDiffs, Tag, Carries, Governs;
    hide Measured, Judged, Flat, AccountDiffs, Align, Keys, Observed;
    KeysRecorded(loc, exchange, t, Observed(column), d);
  }

  /** Each live row without a counterpart has its failed diff. */
  lemma EveryLonelyRowIsTold(loc: Wallet, exchange: Wallet, t: Thresholds, i: int, onExchange: bool)
    requires if onExchange then Lonely(exchange.positions, loc.positions, i)
             else Lonely(loc.positions, exchange.positions, i)
    ensures var p := (if onExchange then exchange else loc).positions[i];
            exists d :: d in AllDiffs(loc, exchange, t, false) && d.field.PositionField? && d.field.column == Exists
              && Labels(d.field.tag, p)
              && Missing(d, p, if onExchange then 1.0 else 0.0, if onExchange then 0.0 else 1.0)
  {
    hide KeyOf, Index, SamePosition, IsLast, Live, Missing, Labels, Tag, AllDiffs, AccountDiffs, IndexMeta, Abs;
    var c := Align(loc, exchange, t);
    var here, there := if onExchange then exchange.positions else loc.positions,
                       if onExchange then loc.positions else exchange.positions;
    var k, d, q := KeyOf(here[i]), ExistsDiff(c, KeyOf(here[i])), Qty(here[i]);
    LastIsIndexed(here, i);
    LonelyExact(here, there, i);
    FlatExact(here[i]);
    LabelExact(here[i]);
    assert d in KeyDiffs(c, k, false);
    hide KeyDiffs;
    NegationKeepsAbs(q);
    MissingExact(here[i], d, q);
    KeysRecorded(loc, exchange, t, false, d);
  }

  lemma NegationKeepsAbs(q: real)
    ensures Abs(q - 0.0) == Abs(q) && Abs(0.0 - q) == Abs(q)
  {
  }
}
