/** Laws of the comparison, for all wallets: what the flags mean, and what leaves the outcome alone. */
module ReconcileLaws {
  import opened Wrappers
  import opened Text
  import opened Domain
  import opened ReconcileModel
  import opened Reconcile

  // ---- totals ----

  lemma {:induction false} TotalMember(c: Aligned, keys: set<Key>, observed: bool, d: FieldDiff)
    ensures d in Total(c, keys, observed) <==> exists k :: k in keys && d in KeyDiffs(c, k, observed)
    decreases |keys|
  {
    hide KeyDiffs;
    if keys != {} {
      var k :| k in keys
               && Total(c, keys, observed) == multiset(KeyDiffs(c, k, observed)) + Total(c, keys - {k}, observed);
      TotalMember(c, keys - {k}, observed, d);
    }
  }

  lemma {:induction false} TotalSame(c: Aligned, c': Aligned, keys: set<Key>, observed: bool)
    requires forall k :: k in keys ==> KeyDiffs(c', k, observed) == KeyDiffs(c, k, observed)
    ensures Total(c', keys, observed) == Total(c, keys, observed)
    decreases |keys|
  {
    hide KeyDiffs;
    if keys != {} {
      var k := SomeElement(keys);
      TotalSplits(c, keys, k, observed);
      TotalSplits(c', keys, k, observed);
      TotalSame(c, c', keys - {k}, observed);
    }
  }

  // ---- flags and recorded diffs tell the same story ----

  lemma ColumnFlagsMatchDiffs(c: Aligned, k: Key)
    requires k in c.ex && k in c.lo
    ensures (forall d :: d in ColumnDiffs(c, k) && d.severity == Hard ==> d.passed) <==>
            QtyAgrees(Qty(c.ex[k]), Qty(c.lo[k]), StepSize(c, k), c.t.qtyStep)
            && PriceAgrees(c.ex[k].entryPrice, c.lo[k].entryPrice, TickSize(c, k), c.t.entryTick, c.t.entryRatio)
    ensures (forall d :: d in ColumnDiffs(c, k) && d.severity == Soft ==> d.passed) <==>
              RiskAgrees(c.ex[k], c.lo[k], c.t)
  {
    hide SoftDiff, StepDiff, PriceDiff, Within, QtyAgrees, PriceAgrees, StepSize, TickSize, Tag, Qty;
    var e, l, tag, t, ds := c.ex[k], c.lo[k], Tag(k), c.t, ColumnDiffs(c, k);
    StepMeansAgrees(PositionField(tag, PositionQty), Qty(e), Qty(l), StepSize(c, k), t.qtyStep);
    PriceMeansAgrees(PositionField(tag, EntryPrice), e.entryPrice, l.entryPrice, TickSize(c, k), t.entryTick,
                     t.entryRatio);
    SoftMeansWithin(PositionField(tag, Pnl), e.unrealizedPnl, l.unrealizedPnl, t.riskAbs, t.riskRatio);
    SoftMeansWithin(PositionField(tag, InitialMargin), e.initialMargin, l.initialMargin, t.riskAbs, t.riskRatio);
    SoftMeansWithin(PositionField(tag, PositionInitialMargin), e.positionInitialMargin, l.positionInitialMargin,
                    t.riskAbs, t.riskRatio);
    SoftMeansWithin(PositionField(tag, OpenOrderInitialMargin), e.openOrderInitialMargin, l.openOrderInitialMargin,
                    t.riskAbs, t.riskRatio);
    SoftMeansWithin(PositionField(tag, MaintMargin), e.maintMargin, l.maintMargin, t.riskAbs, t.riskRatio);
    SoftMeansWithin(PositionField(tag, LiquidationPrice), e.liquidationPrice, l.liquidationPrice, t.liqAbs, t.liqRatio);
    assert ds[0] in ds && ds[1] in ds && ds[2] in ds && ds[3] in ds;
    assert ds[4] in ds && ds[5] in ds && ds[6] in ds && ds[7] in ds;
  }

  lemma KeyFlagsMatchDiffs(c: Aligned, k: Key)
    ensures KeyHardAgrees(c, k) <==> forall d :: d in KeyDiffs(c, k, false) && d.severity == Hard ==> d.passed
    ensures KeySoftAgrees(c, k) <==> forall d :: d in KeyDiffs(c, k, false) && d.severity == Soft ==> d.passed
  {
    hide ColumnDiffs, RiskAgrees, QtyAgrees, PriceAgrees;
    if (!Flat(c.ex, k) || !Flat(c.lo, k)) && k in c.ex && k in c.lo {
      ColumnFlagsMatchDiffs(c, k);
    } else if !Flat(c.ex, k) || !Flat(c.lo, k) {
      assert ExistsDiff(c, k) in KeyDiffs(c, k, false);
    }
  }

  lemma BalancesMatchDiffs(loc: Wallet, exchange: Wallet, t: Thresholds)
    ensures BalancesAgree(loc, exchange, t) <==> forall d :: d in AccountDiffs(loc, exchange, t) ==> d.passed
    ensures forall d :: d in AccountDiffs(loc, exchange, t) ==> d.severity == Soft
  {
    hide SoftDiff, Within;
    var x, l, ds := exchange, loc, AccountDiffs(loc, exchange, t);
    SoftMeansWithin(AccountField(WalletBalance), x.walletBalance, l.walletBalance, t.walletAbs, t.walletRatio);
    SoftMeansWithin(AccountField(AvailableBalance), x.availableBalance, l.availableBalance, t.riskAbs, t.riskRatio);
    SoftMeansWithin(AccountField(MarginBalance), x.marginBalance, l.marginBalance, t.riskAbs, t.riskRatio);
    SoftMeansWithin(AccountField(TotalMarginBalance), x.totalMarginBalance, l.totalMarginBalance, t.riskAbs,
                    t.riskRatio);
    SoftMeansWithin(AccountField(AccountPnl), x.unrealizedPnl, l.unrealizedPnl, t.riskAbs, t.riskRatio);
    SoftMeansWithin(AccountField(TotalPnl), x.totalUnrealizedPnl, l.totalUnrealizedPnl, t.riskAbs, t.riskRatio);
    SoftMeansWithin(AccountField(TotalPositionMargin), x.totalPositionInitialMargin, l.totalPositionInitialMargin,
                    t.riskAbs, t.riskRatio);
    SoftMeansWithin(AccountField(TotalOpenOrderMargin), x.totalOpenOrderInitialMargin, l.totalOpenOrderInitialMargin,
                    t.riskAbs, t.riskRatio);
    SoftMeansWithin(AccountField(TotalMaintMargin), x.totalMaintMargin, l.totalMaintMargin, t.riskAbs, t.riskRatio);
    assert ds[0] in ds && ds[1] in ds && ds[2] in ds && ds[3] in ds && ds[4] in ds && ds[5] in ds && ds[6] in ds
           && ds[7] in ds && ds[8] in ds;
  }

  /** A flag is cleared exactly when some recorded diff of its severity failed. */
  lemma {:induction false} FlagsMatchDiffs(loc: Wallet, exchange: Wallet, t: Thresholds)
    ensures HardAgrees(loc, exchange, t) <==>
            forall d :: d in AllDiffs(loc, exchange, t, false) && d.severity == Hard ==> d.passed
    ensures SoftAgrees(loc, exchange, t) <==>
            forall d :: d in AllDiffs(loc, exchange, t, false) && d.severity == Soft ==> d.passed
  {
    hide KeyDiffs, KeyHardAgrees, KeySoftAgrees, AccountDiffs, BalancesAgree, Total;
    var c := Align(loc, exchange, t);
    BalancesMatchDiffs(loc, exchange, t);
    forall k
      ensures KeyHardAgrees(c, k) <==> forall d :: d in KeyDiffs(c, k, false) && d.severity == Hard ==> d.passed
      ensures KeySoftAgrees(c, k) <==> forall d :: d in KeyDiffs(c, k, false) && d.severity == Soft ==> d.passed
    {
      KeyFlagsMatchDiffs(c, k);
    }
    forall d
      ensures d in AllDiffs(loc, exchange, t, false) <==>
              d in AccountDiffs(loc, exchange, t) || exists k :: k in Keys(c) && d in KeyDiffs(c, k, false)
    {
      TotalMember(c, Keys(c), false, d);
    }
  }

  // ---- bounds, tolerances, self-comparison ----

  lemma QuotientBounded(d: real, s: real)
    requires 0.0 <= d <= 2.0 * s && s > 0.0
    ensures 0.0 <= d / s <= 2.0
  {
    var q := d / s;
    assert q * s == d;
    if q > 2.0 {
      assert false;
    }
  }

  lemma RatioBounded(e: real, l: real)
    ensures 0.0 <= Ratio(e, l) <= 2.0
  {
    if Scale(e, l) > 0.0 {
      QuotientBounded(Abs(e - l), Scale(e, l));
    }
  }

  lemma KeyRatiosBounded(c: Aligned, k: Key, observed: bool, d: FieldDiff)
    requires d in KeyDiffs(c, k, observed)
    ensures 0.0 <= d.diffRatio <= 2.0
  {
    hide Ratio;
    if d != ExistsDiff(c, k) {
      var ds := KeyDiffs(c, k, observed);
      var i :| 0 <= i < |ds| && ds[i] == d;
      assert d.diffRatio == Ratio(d.exchange, d.loc);
      RatioBounded(d.exchange, d.loc);
    }
  }

  /** The recorded ratio of every diff, gated or observed, lies between 0 and 2. */
  lemma {:induction false} RatiosBounded(loc: Wallet, exchange: Wallet, t: Thresholds, observed: bool, d: FieldDiff)
    requires d in AllDiffs(loc, exchange, t, observed)
    ensures 0.0 <= d.diffRatio <= 2.0
  {
    hide KeyDiffs, Ratio, Total, AccountDiffs;
    var c := Align(loc, exchange, t);
    TotalMember(c, Keys(c), observed, d);
    if d in Total(c, Keys(c), observed) {
      var k :| k in Keys(c) && d in KeyDiffs(c, k, observed);
      KeyRatiosBounded(c, k, observed, d);
    } else {
      BalanceRatio(loc, exchange, t, d);
      RatioBounded(d.exchange, d.loc);
    }
  }

  lemma BalanceRatio(loc: Wallet, exchange: Wallet, t: Thresholds, d: FieldDiff)
    requires d in AccountDiffs(loc, exchange, t)
    ensures d.diffRatio == Ratio(d.exchange, d.loc)
  {
    hide Ratio, Scale, Max, Abs;
  }

  predicate Looser(t: Thresholds, t': Thresholds) {
    t.qtyStep <= t'.qtyStep && t.entryTick <= t'.entryTick && t.entryRatio <= t'.entryRatio
    && t.walletAbs <= t'.walletAbs && t.walletRatio <= t'.walletRatio
    && t.riskAbs <= t'.riskAbs && t.riskRatio <= t'.riskRatio
    && t.liqAbs <= t'.liqAbs && t.liqRatio <= t'.liqRatio
  }

  lemma Scaled(x: real, a: real, b: real)
    requires 0.0 <= x && a <= b
    ensures x * a <= x * b && a * x <= b * x
  {
    assert x * (b - a) >= 0.0;
  }

  lemma WithinLoosens(e: real, l: real, a: real, r: real, a': real, r': real)
    requires Within(e, l, a, r) && a <= a' && r <= r'
    ensures Within(e, l, a', r')
  {
    Scaled(Scale(e, l), r, r');
  }

  lemma RiskLoosens(e: Position, l: Position, t: Thresholds, t': Thresholds)
    requires RiskAgrees(e, l, t) && Looser(t, t')
    ensures RiskAgrees(e, l, t')
  {
    hide Within;
    WithinLoosens(e.unrealizedPnl, l.unrealizedPnl, t.riskAbs, t.riskRatio, t'.riskAbs, t'.riskRatio);
    WithinLoosens(e.initialMargin, l.initialMargin, t.riskAbs, t.riskRatio, t'.riskAbs, t'.riskRatio);
    WithinLoosens(e.positionInitialMargin, l.positionInitialMargin, t.riskAbs, t.riskRatio, t'.riskAbs, t'.riskRatio);
    WithinLoosens(e.openOrderInitialMargin, l.openOrderInitialMargin, t.riskAbs, t.riskRatio, t'.riskAbs, t'.riskRatio);
    WithinLoosens(e.maintMargin, l.maintMargin, t.riskAbs, t.riskRatio, t'.riskAbs, t'.riskRatio);
    WithinLoosens(e.liquidationPrice, l.liquidationPrice, t.liqAbs, t.liqRatio, t'.liqAbs, t'.liqRatio);
  }

  lemma BalancesLoosen(l: Wallet, x: Wallet, t: Thresholds, t': Thresholds)
    requires BalancesAgree(l, x, t) && Looser(t, t')
    ensures BalancesAgree(l, x, t')
  {
    hide Within;
    WithinLoosens(x.walletBalance, l.walletBalance, t.walletAbs, t.walletRatio, t'.walletAbs, t'.walletRatio);
    forall e, v | Within(e, v, t.riskAbs, t.riskRatio)
      ensures Within(e, v, t'.riskAbs, t'.riskRatio)
    {
      WithinLoosens(e, v, t.riskAbs, t.riskRatio, t'.riskAbs, t'.riskRatio);
    }
  }

  lemma HardLoosens(e: real, l: real, size: real, m: real, r: real, m': real, r': real)
    requires m <= m' && r <= r'
    ensures QtyAgrees(e, l, size, m) ==> QtyAgrees(e, l, size, m')
    ensures PriceAgrees(e, l, size, m, r) ==> PriceAgrees(e, l, size, m', r')
  {
    if size > 0.0 {
      Scaled(size, m, m');
    }
    var tight, loose := if size > 0.0 then size * m else 0.0, if size > 0.0 then size * m' else 0.0;
    assert tight <= loose;
    if Within(e, l, tight, r) {
      WithinLoosens(e, l, tight, r, loose, r');
    }
  }

  lemma KeyLoosens(c: Aligned, k: Key, t': Thresholds)
    requires Looser(c.t, t')
    ensures KeyHardAgrees(c, k) ==> KeyHardAgrees(c.(t := t'), k)
    ensures KeySoftAgrees(c, k) ==> KeySoftAgrees(c.(t := t'), k)
  {
    hide QtyAgrees, PriceAgrees, RiskAgrees;
    if (!Flat(c.ex, k) || !Flat(c.lo, k)) && k in c.ex && k in c.lo {
      var e, l, t := c.ex[k], c.lo[k], c.t;
      HardLoosens(Qty(e), Qty(l), StepSize(c, k), t.qtyStep, 0.0, t'.qtyStep, 0.0);
      HardLoosens(e.entryPrice, l.entryPrice, TickSize(c, k), t.entryTick, t.entryRatio, t'.entryTick, t'.entryRatio);
      if RiskAgrees(e, l, t) {
        RiskLoosens(e, l, t, t');
      }
    }
  }

  /** Raising tolerances never turns a pass into a failure. */
  lemma {:induction false} LooserStillPasses(loc: Wallet, exchange: Wallet, t: Thresholds, t': Thresholds)
    requires Looser(t, t')
    ensures HardAgrees(loc, exchange, t) ==> HardAgrees(loc, exchange, t')
    ensures SoftAgrees(loc, exchange, t) ==> SoftAgrees(loc, exchange, t')
  {
    hide KeyHardAgrees, KeySoftAgrees, BalancesAgree, Looser;
    var c := Align(loc, exchange, t);
    forall k
      ensures KeyHardAgrees(c, k) ==> KeyHardAgrees(c.(t := t'), k)
      ensures KeySoftAgrees(c, k) ==> KeySoftAgrees(c.(t := t'), k)
    {
      KeyLoosens(c, k, t');
    }
    if BalancesAgree(loc, exchange, t) {
      BalancesLoosen(loc, exchange, t, t');
    }
  }

  /** A wallet compared with itself passes whenever the tolerances are not negative. */
  lemma {:induction false} SelfCompares(w: Wallet, t: Thresholds)
    requires Looser(Thresholds(0.0, 0.0, 0.0, 0.0, 0.0, 0.0, 0.0, 0.0, 0.0, 0.0), t)
    ensures HardAgrees(w, w, t) && SoftAgrees(w, w, t)
  {
    var zero := Thresholds(0.0, 0.0, 0.0, 0.0, 0.0, 0.0, 0.0, 0.0, 0.0, 0.0);
    var c := Align(w, w, zero);
    forall k | k in Keys(c)
      ensures KeyHardAgrees(c, k) && KeySoftAgrees(c, k)
    {
    }
    LooserStillPasses(w, w, zero, t);
  }

  // ---- swapping the two sides ----

  function Swapped(d: FieldDiff): FieldDiff {
    d.(exchange := d.loc, loc := d.exchange)
  }

  function SwapAll(ds: seq<FieldDiff>): (r: seq<FieldDiff>)
    ensures |r| == |ds| && forall i :: 0 <= i < |ds| ==> r[i] == Swapped(ds[i])
  {
    seq(|ds|, i requires 0 <= i < |ds| => Swapped(ds[i]))
  }

  lemma {:induction false} SwapCount(ds: seq<FieldDiff>, d: FieldDiff)
    ensures multiset(SwapAll(ds))[Swapped(d)] == multiset(ds)[d]
  {
    if ds != [] {
      var n := |ds| - 1;
      assert ds == ds[..n] + [ds[n]];
      assert SwapAll(ds) == SwapAll(ds[..n]) + [Swapped(ds[n])];
      SwapCount(ds[..n], d);
      assert Swapped(Swapped(d)) == d && Swapped(Swapped(ds[n])) == ds[n];
    }
  }

  /** The two comparisons use the same step, where one is known, and the same tick. */
  predicate SameSizes(c: Aligned, c': Aligned, k: Key) {
    (StepSize(c, k) > 0.0 || StepSize(c', k) > 0.0 ==> StepSize(c, k) == StepSize(c', k))
    && TickSize(c, k) == TickSize(c', k)
  }

  predicate ComparedByColumn(c: Aligned, k: Key) {
    (!Flat(c.ex, k) || !Flat(c.lo, k)) && k in c.ex && k in c.lo
  }

  lemma SwapNumbers(e: real, l: real)
    ensures Abs(e - l) == Abs(l - e) && Scale(e, l) == Scale(l, e) && Ratio(e, l) == Ratio(l, e)
  {
  }

  lemma SameProduct(x: real, y: real, r: real)
    requires x == y
    ensures x * r == y * r
  {
  }

  lemma SwapField(f: Field, e: real, l: real, a: real, r: real, rule: Rule)
    ensures SoftDiff(f, l, e, a, r) == Swapped(SoftDiff(f, e, l, a, r))
    ensures AdvisoryDiff(f, l, e, rule) == Swapped(AdvisoryDiff(f, e, l, rule))
  {
    hide Abs, Scale, Ratio;
    SwapNumbers(e, l);
    SameProduct(Scale(e, l), Scale(l, e), r);
    var d, d' := SoftDiff(f, e, l, a, r), SoftDiff(f, l, e, a, r);
    assert d'.threshold == d.threshold;
    assert d'.passed == d.passed;
  }

  lemma SwapStep(f: Field, e: real, l: real, step: real, step': real, m: real)
    ensures StepDiff(f, l, e, step', m) == Swapped(StepDiff(f, e, l, step, m))
            <==> (step > 0.0 || step' > 0.0 ==> step == step')
  {
    hide Abs, Scale, Ratio;
    SwapNumbers(e, l);
    var d, d' := StepDiff(f, e, l, step, m), StepDiff(f, l, e, step', m);
    assert d'.threshold == d.threshold <==> (step > 0.0 || step' > 0.0 ==> step == step');
    assert d'.threshold == d.threshold ==> d'.passed == d.passed;
  }

  lemma SwapPrice(f: Field, e: real, l: real, tick: real, tick': real, m: real, r: real)
    ensures PriceDiff(f, l, e, tick', m, r) == Swapped(PriceDiff(f, e, l, tick, m, r)) <==> tick == tick'
  {
    hide Abs, Scale, Ratio;
    SwapNumbers(e, l);
    SameProduct(Scale(e, l), Scale(l, e), r);
    var d, d' := PriceDiff(f, e, l, tick, m, r), PriceDiff(f, l, e, tick', m, r);
    assert d'.threshold == d.threshold <==> tick == tick';
    assert d'.threshold == d.threshold ==> d'.passed == d.passed;
  }

  lemma SwapColumns(c: Aligned, c': Aligned, k: Key)
    requires c'.ex == c.lo && c'.lo == c.ex && c'.t == c.t && k in c.ex && k in c.lo
    ensures ColumnDiffs(c', k) == SwapAll(ColumnDiffs(c, k)) <==> SameSizes(c, c', k)
  {
    hide SoftDiff, StepDiff, PriceDiff, Swapped, Tag, Qty, StepSize, TickSize;
    var e, l, tag, t := c.ex[k], c.lo[k], Tag(k), c.t;
    var ds, ds' := ColumnDiffs(c, k), ColumnDiffs(c', k);
    SwapStep(PositionField(tag, PositionQty), Qty(e), Qty(l), StepSize(c, k), StepSize(c', k), t.qtyStep);
    SwapPrice(PositionField(tag, EntryPrice), e.entryPrice, l.entryPrice, TickSize(c, k), TickSize(c', k),
              t.entryTick, t.entryRatio);
    SwapField(PositionField(tag, Pnl), e.unrealizedPnl, l.unrealizedPnl, t.riskAbs, t.riskRatio, ExactMatch);
    SwapField(PositionField(tag, InitialMargin), e.initialMargin, l.initialMargin, t.riskAbs, t.riskRatio, ExactMatch);
    SwapField(PositionField(tag, PositionInitialMargin), e.positionInitialMargin, l.positionInitialMargin,
              t.riskAbs, t.riskRatio, ExactMatch);
    SwapField(PositionField(tag, OpenOrderInitialMargin), e.openOrderInitialMargin, l.openOrderInitialMargin,
              t.riskAbs, t.riskRatio, ExactMatch);
    SwapField(PositionField(tag, MaintMargin), e.maintMargin, l.maintMargin, t.riskAbs, t.riskRatio, ExactMatch);
    SwapField(PositionField(tag, LiquidationPrice), e.liquidationPrice, l.liquidationPrice, t.liqAbs, t.liqRatio,
              ExactMatch);
    assert ds' == SwapAll(ds) <==> ds'[0] == Swapped(ds[0]) && ds'[1] == Swapped(ds[1]);
  }

  lemma SwapObserved(c: Aligned, c': Aligned, k: Key)
    requires c'.ex == c.lo && c'.lo == c.ex && c'.t == c.t && k in c.ex && k in c.lo
    requires TickSize(c, k) == TickSize(c', k)
    ensures ObservedDiffs(c', k) == SwapAll(ObservedDiffs(c, k))
  {
    hide AdvisoryDiff, Swapped, Tag, Qty, StepSize, TickSize;
    var e, l, tag, t := c.ex[k], c.lo[k], Tag(k), c.t;
    SwapField(PositionField(tag, MarkPrice), e.markPrice, l.markPrice, 0.0, 0.0,
              DriftOnly(t.markDriftTicks, TickSize(c, k)));
    SwapField(PositionField(tag, BreakEvenPrice), e.breakEvenPrice, l.breakEvenPrice, 0.0, 0.0, ObservationOnly);
    SwapField(PositionField(tag, IsolatedWallet), e.isolatedWallet, l.isolatedWallet, 0.0, 0.0, ObservationOnly);
    SwapField(PositionField(tag, Notional), e.notional, l.notional, 0.0, 0.0, ObservationOnly);
  }

  /** Swapping the sides swaps a key's diffs and nothing else, exactly when the sizes agree or the key
      is not compared column by column. */
  lemma SwapKeyExact(c: Aligned, c': Aligned, k: Key)
    requires c'.ex == c.lo && c'.lo == c.ex && c'.t == c.t
    ensures KeyDiffs(c', k, false) == SwapAll(KeyDiffs(c, k, false))
            && KeyDiffs(c', k, true) == SwapAll(KeyDiffs(c, k, true))
            <==> (ComparedByColumn(c, k) ==> SameSizes(c, c', k))
  {
    hide ColumnDiffs, ObservedDiffs, StepSize, TickSize;
    if ComparedByColumn(c, k) {
      SwapColumns(c, c', k);
      if SameSizes(c, c', k) {
        SwapObserved(c, c', k);
      }
    } else {
      assert ExistsDiff(c', k) == Swapped(ExistsDiff(c, k));
    }
  }

  lemma {:induction false} SwapTotal(c: Aligned, c': Aligned, keys: set<Key>, observed: bool, d: FieldDiff)
    requires forall k :: k in keys ==> KeyDiffs(c', k, observed) == SwapAll(KeyDiffs(c, k, observed))
    ensures Total(c', keys, observed)[Swapped(d)] == Total(c, keys, observed)[d]
    decreases |keys|
  {
    hide KeyDiffs, Swapped;
    if keys != {} {
      var k := SomeElement(keys);
      TotalSplits(c, keys, k, observed);
      TotalSplits(c', keys, k, observed);
      SwapCount(KeyDiffs(c, k, observed), d);
      SwapTotal(c, c', keys - {k}, observed, d);
    }
  }

  lemma SwapBalances(x: Wallet, l: Wallet, t: Thresholds)
    ensures AccountDiffs(x, l, t) == SwapAll(AccountDiffs(l, x, t))
  {
    hide SoftDiff, Swapped;
    forall f, e, v, a, r
      ensures SoftDiff(f, v, e, a, r) == Swapped(SoftDiff(f, e, v, a, r))
    {
      SwapField(f, e, v, a, r, ExactMatch);
    }
  }

  /** The two metadata lists agree on step and tick wherever both describe a symbol. */
  ghost predicate MetadataAgrees(loc: Wallet, exchange: Wallet) {
    forall s :: s in IndexMeta(loc.riskMetadata) && s in IndexMeta(exchange.riskMetadata) ==>
      IndexMeta(loc.riskMetadata)[s].stepSize == IndexMeta(exchange.riskMetadata)[s].stepSize
      && IndexMeta(loc.riskMetadata)[s].tickSize == IndexMeta(exchange.riskMetadata)[s].tickSize
  }

  /** Exchanging the two wallets keeps every diff but for its two values, with the same multiplicity. */
  lemma {:induction false} SwapDiffs(loc: Wallet, exchange: Wallet, t: Thresholds, observed: bool, d: FieldDiff)
    requires MetadataAgrees(loc, exchange)
    ensures AllDiffs(exchange, loc, t, observed)[Swapped(d)] == AllDiffs(loc, exchange, t, observed)[d]
  {
    hide KeyDiffs, Swapped, AccountDiffs, Total, ComparedByColumn;
    var c, c' := Align(loc, exchange, t), Align(exchange, loc, t);
    forall k | k in Keys(c)
      ensures KeyDiffs(c', k, observed) == SwapAll(KeyDiffs(c, k, observed))
    {
      assert SameSizes(c, c', k);
      SwapKeyExact(c, c', k);
    }
    assert Keys(c) == Keys(c');
    SwapTotal(c, c', Keys(c), observed, d);
    SwapBalances(exchange, loc, t);
    SwapCount(AccountDiffs(loc, exchange, t), d);
  }

  /** Exchanging the two wallets keeps both verdicts. */
  lemma {:induction false} SwapVerdict(loc: Wallet, exchange: Wallet, t: Thresholds)
    requires MetadataAgrees(loc, exchange)
    ensures HardAgrees(exchange, loc, t) <==> HardAgrees(loc, exchange, t)
    ensures SoftAgrees(exchange, loc, t) <==> SoftAgrees(loc, exchange, t)
  {
    hide AllDiffs, HardAgrees, SoftAgrees, MetadataAgrees;
    FlagsMatchDiffs(loc, exchange, t);
    FlagsMatchDiffs(exchange, loc, t);
    forall d
      ensures Swapped(Swapped(d)) == d
      ensures Swapped(d) in AllDiffs(exchange, loc, t, false) <==> d in AllDiffs(loc, exchange, t, false)
    {
      SwapDiffs(loc, exchange, t, false, d);
    }
    assert forall d :: d in AllDiffs(exchange, loc, t, false) ==> Swapped(Swapped(d)) == d;
  }

  // ---- spelling of symbols and sides ----

  function CanonicalPosition(p: Position): Position {
    p.(symbol := ToUpper(p.symbol), side := NormalizeSide(p.side))
  }

  function CanonicalMeta(m: RiskMetadata): RiskMetadata {
    m.(symbol := ToUpper(m.symbol))
  }

  /** The wallet with every symbol in upper case and every side in its normal form. */
  function Canonical(w: Wallet): Wallet {
    w.(positions := seq(|w.positions|, i requires 0 <= i < |w.positions| => CanonicalPosition(w.positions[i])),
       riskMetadata := seq(|w.riskMetadata|, i requires 0 <= i < |w.riskMetadata| => CanonicalMeta(w.riskMetadata[i])))
  }

  /** "", "BOTH" in any case and with any padding are one side. */
  lemma OneWaySpellings(side: string)
    requires ToUpper(TrimSpace(side)) == "" || ToUpper(TrimSpace(side)) == "BOTH"
    ensures NormalizeSide(side) == NormalizeSide("BOTH") == NormalizeSide("")
  {
    TrimmedIsFixed("BOTH");
    TrimmedIsFixed("");
    assert ToUpper("BOTH") == "BOTH";
  }

  lemma NormalizeIdempotent(side: string)
    ensures NormalizeSide(NormalizeSide(side)) == NormalizeSide(side)
  {
    var s := TrimSpace(side);
    TrimSpaceTrims(side);
    if s == "" {
      TrimmedIsFixed("BOTH");
      assert ToUpper("BOTH") == "BOTH";
    } else {
      assert ToUpper(s)[0] == UpperChar(s[0]) && ToUpper(s)[|s| - 1] == UpperChar(s[|s| - 1]);
      TrimmedIsFixed(ToUpper(s));
      ToUpperIdempotent(s);
    }
  }

  lemma CanonicalKey(p: Position)
    ensures KeyOf(CanonicalPosition(p)) == KeyOf(p)
  {
    ToUpperIdempotent(p.symbol);
    NormalizeIdempotent(p.side);
  }

  lemma {:induction false} CanonicalIndex(ps: seq<Position>, qs: seq<Position>)
    requires |qs| == |ps| && forall i :: 0 <= i < |ps| ==> qs[i] == CanonicalPosition(ps[i])
    ensures Index(qs).Keys == Index(ps).Keys
    ensures forall k :: k in Index(ps) ==> Index(qs)[k] == CanonicalPosition(Index(ps)[k])
  {
    hide KeyOf, CanonicalPosition;
    if ps != [] {
      var n := |ps| - 1;
      CanonicalIndex(ps[..n], qs[..n]);
      CanonicalKey(ps[n]);
    }
  }

  lemma {:induction false} CanonicalMetaIndex(ps: seq<RiskMetadata>, qs: seq<RiskMetadata>)
    requires |qs| == |ps| && forall i :: 0 <= i < |ps| ==> qs[i] == CanonicalMeta(ps[i])
    ensures IndexMeta(qs).Keys == IndexMeta(ps).Keys
    ensures forall s :: s in IndexMeta(ps) ==> IndexMeta(qs)[s] == CanonicalMeta(IndexMeta(ps)[s])
  {
    if ps != [] {
      var n := |ps| - 1;
      CanonicalMetaIndex(ps[..n], qs[..n]);
      ToUpperIdempotent(ps[n].symbol);
    }
  }

  /** Two alignments that differ only in the spelling stored in their rows. */
  ghost predicate SameNumbers(c: Aligned, c': Aligned) {
    c'.ex.Keys == c.ex.Keys && c'.lo.Keys == c.lo.Keys && c'.t == c.t
    && (forall k :: k in c.ex ==> c'.ex[k] == CanonicalPosition(c.ex[k]))
    && (forall k :: k in c.lo ==> c'.lo[k] == CanonicalPosition(c.lo[k]))
    && (forall k: Key :: StepSize(c', k) == StepSize(c, k) && TickSize(c', k) == TickSize(c, k))
  }

  lemma SameNumbersSameDiffs(c: Aligned, c': Aligned, k: Key, observed: bool)
    requires SameNumbers(c, c')
    ensures KeyDiffs(c', k, observed) == KeyDiffs(c, k, observed)
    ensures KeyHardAgrees(c', k) == KeyHardAgrees(c, k) && KeySoftAgrees(c', k) == KeySoftAgrees(c, k)
  {
    hide SoftDiff, StepDiff, PriceDiff, AdvisoryDiff, StepSize, TickSize, Tag, Within, ToUpper, NormalizeSide;
  }

  lemma CanonicalSizes(loc: Wallet, exchange: Wallet, t: Thresholds, k: Key)
    ensures var c, c' := Align(loc, exchange, t), Align(Canonical(loc), Canonical(exchange), t);
            StepSize(c', k) == StepSize(c, k) && TickSize(c', k) == TickSize(c, k)
  {
    CanonicalMetaIndex(exchange.riskMetadata, Canonical(exchange).riskMetadata);
    CanonicalMetaIndex(loc.riskMetadata, Canonical(loc).riskMetadata);
    hide Index, IndexMeta, Canonical;
  }

  lemma CanonicalRows(loc: Wallet, exchange: Wallet, t: Thresholds)
    ensures var c, c' := Align(loc, exchange, t), Align(Canonical(loc), Canonical(exchange), t);
            c'.ex.Keys == c.ex.Keys && c'.lo.Keys == c.lo.Keys && c'.t == c.t
            && (forall k :: k in c.ex ==> c'.ex[k] == CanonicalPosition(c.ex[k]))
            && (forall k :: k in c.lo ==> c'.lo[k] == CanonicalPosition(c.lo[k]))
  {
    hide CanonicalPosition, KeyOf;
    CanonicalIndex(exchange.positions, Canonical(exchange).positions);
    CanonicalIndex(loc.positions, Canonical(loc).positions);
    hide Index, IndexMeta, Canonical;
  }

  lemma CanonicalAligns(loc: Wallet, exchange: Wallet, t: Thresholds)
    ensures SameNumbers(Align(loc, exchange, t), Align(Canonical(loc), Canonical(exchange), t))
  {
    hide CanonicalPosition, Align, Canonical, StepSize, TickSize;
    CanonicalRows(loc, exchange, t);
    forall k: Key
      ensures var c, c' := Align(loc, exchange, t), Align(Canonical(loc), Canonical(exchange), t);
              StepSize(c', k) == StepSize(c, k) && TickSize(c', k) == TickSize(c, k)
    {
      CanonicalSizes(loc, exchange, t, k);
    }
  }

  /** Everything but the rows and the metadata is the same. */
  predicate SameBalances(w: Wallet, w': Wallet) {
    w' == w.(positions := w'.positions, riskMetadata := w'.riskMetadata)
  }

  lemma BalancesIgnoreRows(l: Wallet, x: Wallet, l': Wallet, x': Wallet, t: Thresholds)
    requires SameBalances(l, l') && SameBalances(x, x')
    ensures AccountDiffs(l', x', t) == AccountDiffs(l, x, t)
    ensures BalancesAgree(l', x', t) == BalancesAgree(l, x, t)
  {
    hide SoftDiff, Within;
  }

  /** Compare sees a wallet only through its canonical spelling. */
  lemma {:induction false} SpellingIsImmaterial(loc: Wallet, exchange: Wallet, t: Thresholds, observed: bool)
    ensures AllDiffs(Canonical(loc), Canonical(exchange), t, observed) == AllDiffs(loc, exchange, t, observed)
    ensures HardAgrees(Canonical(loc), Canonical(exchange), t) <==> HardAgrees(loc, exchange, t)
    ensures SoftAgrees(Canonical(loc), Canonical(exchange), t) <==> SoftAgrees(loc, exchange, t)
  {
    assert SameBalances(loc, Canonical(loc)) && SameBalances(exchange, Canonical(exchange));
    hide KeyDiffs, KeyHardAgrees, KeySoftAgrees, SameNumbers, AccountDiffs, BalancesAgree, Total, Canonical, Align;
    var c, c' := Align(loc, exchange, t), Align(Canonical(loc), Canonical(exchange), t);
    CanonicalAligns(loc, exchange, t);
    SameNumbersSameKeys(c, c');
    forall k
      ensures KeyDiffs(c', k, observed) == KeyDiffs(c, k, observed)
      ensures KeyHardAgrees(c', k) == KeyHardAgrees(c, k) && KeySoftAgrees(c', k) == KeySoftAgrees(c, k)
    {
      SameNumbersSameDiffs(c, c', k, observed);
    }
    TotalSame(c, c', Keys(c), observed);
    BalancesIgnoreRows(loc, exchange, Canonical(loc), Canonical(exchange), t);
  }

  lemma SameNumbersSameKeys(c: Aligned, c': Aligned)
    requires SameNumbers(c, c')
    ensures Keys(c') == Keys(c)
  {
  }

  // ---- flat rows ----

  ghost predicate DistinctKeys(ps: seq<Position>) {
    forall i, j :: 0 <= i < j < |ps| ==> KeyOf(ps[i]) != KeyOf(ps[j])
  }

  function Without(ps: seq<Position>, i: nat): seq<Position>
    requires i < |ps|
  {
    ps[..i] + ps[i + 1..]
  }

  lemma {:induction false} IndexHas(ps: seq<Position>, k: Key)
    ensures k in Index(ps) <==> exists i :: 0 <= i < |ps| && KeyOf(ps[i]) == k
  {
    if ps != [] {
      IndexHas(ps[..|ps| - 1], k);
    }
  }

  lemma {:induction false} IndexWithout(ps: seq<Position>, i: nat)
    requires i < |ps| && DistinctKeys(ps)
    ensures Index(Without(ps, i)) == Index(ps) - {KeyOf(ps[i])}
  {
    hide KeyOf;
    var n := |ps| - 1;
    if i == n {
      assert Without(ps, i) == ps[..n];
      IndexHas(ps[..n], KeyOf(ps[n]));
    } else {
      IndexWithout(ps[..n], i);
      assert Without(ps, i)[..n - 1] == Without(ps[..n], i);
      assert Without(ps, i)[n - 1] == ps[n];
    }
  }

  lemma SameRowsSameDiffs(c: Aligned, c': Aligned, k: Key, observed: bool)
    requires c'.t == c.t && c'.meta == c.meta
    requires (k in c'.ex <==> k in c.ex) && (k in c'.lo <==> k in c.lo)
    requires (k in c.ex ==> c'.ex[k] == c.ex[k]) && (k in c.lo ==> c'.lo[k] == c.lo[k])
    ensures KeyDiffs(c', k, observed) == KeyDiffs(c, k, observed)
    ensures KeyHardAgrees(c', k) == KeyHardAgrees(c, k) && KeySoftAgrees(c', k) == KeySoftAgrees(c, k)
  {
    hide SoftDiff, StepDiff, PriceDiff, AdvisoryDiff, Tag, Within, QtyAgrees;
  }

  /** `c'` is `c` without `k`, which is flat on both sides, on either side or both. */
  ghost predicate Drops(c: Aligned, c': Aligned, k: Key) {
    Flat(c.ex, k) && Flat(c.lo, k) && c'.t == c.t && c'.meta == c.meta
    && (c'.ex == c.ex || c'.ex == c.ex - {k}) && (c'.lo == c.lo || c'.lo == c.lo - {k})
  }

  lemma DropsKeepKey(c: Aligned, c': Aligned, k: Key, j: Key, observed: bool)
    requires Drops(c, c', k)
    ensures KeyDiffs(c', j, observed) == KeyDiffs(c, j, observed)
    ensures KeyHardAgrees(c', j) == KeyHardAgrees(c, j) && KeySoftAgrees(c', j) == KeySoftAgrees(c, j)
  {
    if j == k {
      FlatContributesNothing(c, k, observed);
      FlatContributesNothing(c', k, observed);
    } else {
      hide KeyDiffs, KeyHardAgrees, KeySoftAgrees;
      SameRowsSameDiffs(c, c', j, observed);
    }
  }

  lemma DropsKeepKeys(c: Aligned, c': Aligned, k: Key)
    requires Drops(c, c', k)
    ensures Keys(c') - {k} == Keys(c) - {k}
  {
  }

  /** Dropping such a key changes nothing. */
  lemma FlatKeyIsImmaterial(c: Aligned, c': Aligned, k: Key, observed: bool)
    requires Drops(c, c', k)
    ensures Total(c', Keys(c'), observed) == Total(c, Keys(c), observed)
    ensures (forall j :: j in Keys(c') ==> KeyHardAgrees(c', j)) <==> (forall j :: j in Keys(c) ==> KeyHardAgrees(c, j))
    ensures (forall j :: j in Keys(c') ==> KeySoftAgrees(c', j)) <==> (forall j :: j in Keys(c) ==> KeySoftAgrees(c, j))
  {
    FlatContributesNothing(c, k, observed);
    DropsKeepKeys(c, c', k);
    hide KeyDiffs, KeyHardAgrees, KeySoftAgrees, Total, Drops, Keys;
    forall j
      ensures KeyDiffs(c', j, observed) == KeyDiffs(c, j, observed)
      ensures KeyHardAgrees(c', j) == KeyHardAgrees(c, j) && KeySoftAgrees(c', j) == KeySoftAgrees(c, j)
    {
      DropsKeepKey(c, c', k, j, observed);
    }
    assert forall j :: j in Keys(c) && j != k ==> j in Keys(c) - {k};
    assert forall j :: j in Keys(c') && j != k ==> j in Keys(c') - {k};
    DropEmpty(c, Keys(c), k, observed);
    DropEmpty(c', Keys(c'), k, observed);
    TotalSame(c, c', Keys(c) - {k}, observed);
  }

  lemma FlatContributesNothing(c: Aligned, k: Key, observed: bool)
    requires Flat(c.ex, k) && Flat(c.lo, k)
    ensures KeyDiffs(c, k, observed) == [] && KeyHardAgrees(c, k) && KeySoftAgrees(c, k)
  {
  }

  lemma DropEmpty(c: Aligned, keys: set<Key>, k: Key, observed: bool)
    requires KeyDiffs(c, k, observed) == []
    ensures Total(c, keys, observed) == Total(c, keys - {k}, observed)
  {
    hide KeyDiffs, Total;
    if k in keys {
      TotalSplits(c, keys, k, observed);
    } else {
      assert keys - {k} == keys;
    }
  }

  /** Deleting a flat row whose counterpart is flat or absent, on the local side or on the exchange's,
      changes neither the diffs nor the verdicts. */
  lemma {:induction false} FlatRowIsImmaterial(loc: Wallet, exchange: Wallet, t: Thresholds, i: nat, dropLocal: bool,
                                               observed: bool)
    requires DistinctKeys(loc.positions) && DistinctKeys(exchange.positions)
    requires i < |(if dropLocal then loc else exchange).positions|
    requires var k := KeyOf((if dropLocal then loc else exchange).positions[i]);
             Flat(Index(exchange.positions), k) && Flat(Index(loc.positions), k)
    ensures var l := if dropLocal then loc.(positions := Without(loc.positions, i)) else loc;
            var e := if dropLocal then exchange else exchange.(positions := Without(exchange.positions, i));
            && AllDiffs(l, e, t, observed) == AllDiffs(loc, exchange, t, observed)
            && (HardAgrees(l, e, t) <==> HardAgrees(loc, exchange, t))
            && (SoftAgrees(l, e, t) <==> SoftAgrees(loc, exchange, t))
  {
    hide KeyHardAgrees, KeySoftAgrees, Total, KeyOf, AccountDiffs, BalancesAgree;
    var side := (if dropLocal then loc else exchange).positions;
    var l := if dropLocal then loc.(positions := Without(loc.positions, i)) else loc;
    var e := if dropLocal then exchange else exchange.(positions := Without(exchange.positions, i));
    IndexWithout(side, i);
    BalancesIgnoreRows(loc, exchange, l, e, t);
    FlatKeyIsImmaterial(Align(loc, exchange, t), Align(l, e, t), KeyOf(side[i]), observed);
  }
}
