/** The comparator as it runs: diffs appended and flags cleared in place, keys visited in any order. */
module Reconcile {
  import opened Wrappers
  import opened Text
  import opened Domain
  import opened ReconcileModel

  // ---- what the thresholds mean ----

  lemma SoftMeansWithin(field: Field, e: real, l: real, absTol: real, ratioTol: real)
    ensures SoftDiff(field, e, l, absTol, ratioTol).passed <==> Within(e, l, absTol, ratioTol)
    ensures SoftDiff(field, e, l, absTol, ratioTol).severity == Soft
  {
    assert Scale(e, l) * ratioTol == ratioTol * Scale(e, l);
  }

  lemma PriceMeansAgrees(field: Field, e: real, l: real, tick: real, multiple: real, ratioTol: real)
    ensures PriceDiff(field, e, l, tick, multiple, ratioTol).passed <==> PriceAgrees(e, l, tick, multiple, ratioTol)
    ensures PriceDiff(field, e, l, tick, multiple, ratioTol).severity == Hard
  {
    assert Scale(e, l) * ratioTol == ratioTol * Scale(e, l);
  }

  lemma StepMeansAgrees(field: Field, e: real, l: real, step: real, multiple: real)
    ensures StepDiff(field, e, l, step, multiple).passed <==> QtyAgrees(e, l, step, multiple)
    ensures StepDiff(field, e, l, step, multiple).severity == Hard
  {
  }

  class CompareResult {
    var fieldDiffs: seq<FieldDiff>
    var advisoryDiffs: seq<FieldDiff>
    var hardPass: bool
    var softPass: bool

    constructor ()
      ensures fieldDiffs == [] && advisoryDiffs == [] && hardPass && softPass
    {
      fieldDiffs, advisoryDiffs, hardPass, softPass := [], [], true, true;
    }

    method AddSoft(field: Field, e: real, l: real, absTol: real, ratioTol: real)
      modifies this`fieldDiffs, this`softPass
      ensures fieldDiffs == old(fieldDiffs) + [SoftDiff(field, e, l, absTol, ratioTol)]
      ensures softPass == (old(softPass) && Within(e, l, absTol, ratioTol))
    {
      hide Abs, Scale, Ratio, Within;
      SoftMeansWithin(field, e, l, absTol, ratioTol);
      var diffAbs := Abs(e - l);
      var effective := Max(absTol, Scale(e, l) * ratioTol);
      var passed := diffAbs <= effective;
      if !passed {
        softPass := false;
      }
      fieldDiffs := fieldDiffs
        + [FieldDiff(field, Soft, e, l, diffAbs, Ratio(e, l), Tolerance(absTol, ratioTol, effective), passed)];
    }

    method AddHardStep(field: Field, e: real, l: real, step: real, multiple: real)
      modifies this`fieldDiffs, this`hardPass
      ensures fieldDiffs == old(fieldDiffs) + [StepDiff(field, e, l, step, multiple)]
      ensures hardPass == (old(hardPass) && QtyAgrees(e, l, step, multiple))
    {
      var diffAbs := Abs(e - l);
      var threshold, rule := 0.0, NoStepKnown;
      if step > 0.0 {
        threshold := step * multiple;
        rule := Steps(step, multiple, threshold);
      }
      var passed := diffAbs <= threshold;
      if !passed {
        hardPass := false;
      }
      fieldDiffs := fieldDiffs + [FieldDiff(field, Hard, e, l, diffAbs, Ratio(e, l), rule, passed)];
    }

    method AddHardPrice(field: Field, e: real, l: real, tick: real, multiple: real, ratioTol: real)
      modifies this`fieldDiffs, this`hardPass
      ensures fieldDiffs == old(fieldDiffs) + [PriceDiff(field, e, l, tick, multiple, ratioTol)]
      ensures hardPass == (old(hardPass) && PriceAgrees(e, l, tick, multiple, ratioTol))
    {
      hide Abs, Scale, Ratio, PriceAgrees;
      PriceMeansAgrees(field, e, l, tick, multiple, ratioTol);
      var diffAbs := Abs(e - l);
      var tickThreshold := 0.0;
      if tick > 0.0 {
        tickThreshold := tick * multiple;
      }
      var threshold := Max(tickThreshold, Scale(e, l) * ratioTol);
      var passed := diffAbs <= threshold;
      if !passed {
        hardPass := false;
      }
      fieldDiffs := fieldDiffs
        + [FieldDiff(field, Hard, e, l, diffAbs, Ratio(e, l), Ticks(tick, multiple, ratioTol, threshold), passed)];
    }

    method AddAdvisory(field: Field, e: real, l: real, rule: Rule)
      modifies this`advisoryDiffs
      ensures advisoryDiffs == old(advisoryDiffs) + [AdvisoryDiff(field, e, l, rule)]
    {
      advisoryDiffs := advisoryDiffs + [FieldDiff(field, Advisory, e, l, Abs(e - l), Ratio(e, l), rule, true)];
    }

    method AddAccount(loc: Wallet, exchange: Wallet, t: Thresholds)
      modifies this`fieldDiffs, this`softPass
      ensures fieldDiffs == old(fieldDiffs) + AccountDiffs(loc, exchange, t)
      ensures softPass == (old(softPass) && BalancesAgree(loc, exchange, t))
    {
      hide SoftDiff, Within;
      AddSoft(AccountField(WalletBalance), exchange.walletBalance, loc.walletBalance, t.walletAbs, t.walletRatio);
      AddSoft(AccountField(AvailableBalance), exchange.availableBalance, loc.availableBalance, t.riskAbs, t.riskRatio);
      AddSoft(AccountField(MarginBalance), exchange.marginBalance, loc.marginBalance, t.riskAbs, t.riskRatio);
      AddSoft(AccountField(TotalMarginBalance), exchange.totalMarginBalance, loc.totalMarginBalance, t.riskAbs,
              t.riskRatio);
      AddSoft(AccountField(AccountPnl), exchange.unrealizedPnl, loc.unrealizedPnl, t.riskAbs, t.riskRatio);
      AddSoft(AccountField(TotalPnl), exchange.totalUnrealizedPnl, loc.totalUnrealizedPnl, t.riskAbs, t.riskRatio);
      AddSoft(AccountField(TotalPositionMargin), exchange.totalPositionInitialMargin, loc.totalPositionInitialMargin,
              t.riskAbs, t.riskRatio);
      AddSoft(AccountField(TotalOpenOrderMargin), exchange.totalOpenOrderInitialMargin, loc.totalOpenOrderInitialMargin,
              t.riskAbs, t.riskRatio);
      AddSoft(AccountField(TotalMaintMargin), exchange.totalMaintMargin, loc.totalMaintMargin, t.riskAbs, t.riskRatio);
    }

    /** Both sides have a row for `k`. */
    method AddPosition(c: Aligned, k: Key)
      requires k in c.ex && k in c.lo
      modifies this
      ensures fieldDiffs == old(fieldDiffs) + ColumnDiffs(c, k)
      ensures advisoryDiffs == old(advisoryDiffs) + ObservedDiffs(c, k)
      ensures hardPass == (old(hardPass)
                           && QtyAgrees(Qty(c.ex[k]), Qty(c.lo[k]), StepSize(c, k), c.t.qtyStep)
                           && PriceAgrees(c.ex[k].entryPrice, c.lo[k].entryPrice, TickSize(c, k), c.t.entryTick,
                                          c.t.entryRatio))
      ensures softPass == (old(softPass) && RiskAgrees(c.ex[k], c.lo[k], c.t))
    {
      hide SoftDiff, StepDiff, PriceDiff, AdvisoryDiff, Within, QtyAgrees, PriceAgrees, Tag, Qty, StepSize, TickSize;
      var e, l, tag, t := c.ex[k], c.lo[k], Tag(k), c.t;
      AddHardStep(PositionField(tag, PositionQty), Qty(e), Qty(l), StepSize(c, k), t.qtyStep);
      AddHardPrice(PositionField(tag, EntryPrice), e.entryPrice, l.entryPrice, TickSize(c, k), t.entryTick,
                   t.entryRatio);
      AddSoft(PositionField(tag, Pnl), e.unrealizedPnl, l.unrealizedPnl, t.riskAbs, t.riskRatio);
      AddSoft(PositionField(tag, InitialMargin), e.initialMargin, l.initialMargin, t.riskAbs, t.riskRatio);
      AddSoft(PositionField(tag, PositionInitialMargin), e.positionInitialMargin, l.positionInitialMargin,
              t.riskAbs, t.riskRatio);
      AddSoft(PositionField(tag, OpenOrderInitialMargin), e.openOrderInitialMargin, l.openOrderInitialMargin,
              t.riskAbs, t.riskRatio);
      AddSoft(PositionField(tag, MaintMargin), e.maintMargin, l.maintMargin, t.riskAbs, t.riskRatio);
      AddSoft(PositionField(tag, LiquidationPrice), e.liquidationPrice, l.liquidationPrice, t.liqAbs, t.liqRatio);
      AddAdvisory(PositionField(tag, MarkPrice), e.markPrice, l.markPrice, DriftOnly(t.markDriftTicks, TickSize(c, k)));
      AddAdvisory(PositionField(tag, BreakEvenPrice), e.breakEvenPrice, l.breakEvenPrice, ObservationOnly);
      AddAdvisory(PositionField(tag, IsolatedWallet), e.isolatedWallet, l.isolatedWallet, ObservationOnly);
      AddAdvisory(PositionField(tag, Notional), e.notional, l.notional, ObservationOnly);
    }

    /** One turn of the loop over aligned keys. */
    method AddKey(c: Aligned, k: Key)
      modifies this
      ensures fieldDiffs == old(fieldDiffs) + KeyDiffs(c, k, false)
      ensures advisoryDiffs == old(advisoryDiffs) + KeyDiffs(c, k, true)
      ensures hardPass == (old(hardPass) && KeyHardAgrees(c, k))
      ensures softPass == (old(softPass) && KeySoftAgrees(c, k))
    {
      if Flat(c.ex, k) && Flat(c.lo, k) {
        return;
      }
      if k !in c.ex || k !in c.lo {
        var exchangeQty, localQty := QtyAt(c.ex, k), QtyAt(c.lo, k);
        var diffAbs := Abs(exchangeQty - localQty);
        fieldDiffs := fieldDiffs + [FieldDiff(PositionField(Tag(k), Exists), Hard, Presence(k in c.ex),
                                              Presence(k in c.lo), diffAbs, 0.0, ExactMatch, false)];
        hardPass := false;
        return;
      }
      AddPosition(c, k);
    }
  }

  method IndexPositions(ps: seq<Position>) returns (out: map<Key, Position>)
    ensures out == Index(ps)
  {
    out := map[];
    for i := 0 to |ps|
      invariant out == Index(ps[..i])
    {
      assert ps[..i + 1][..i] == ps[..i];
      out := out[KeyOf(ps[i]) := ps[i]];
    }
    assert ps[..|ps|] == ps;
  }

  method IndexRiskMetadata(exchange: seq<RiskMetadata>, loc: seq<RiskMetadata>) returns (out: map<string, RiskMetadata>)
    ensures out == IndexMeta(loc) + IndexMeta(exchange)
  {
    out := map[];
    for i := 0 to |loc|
      invariant out == IndexMeta(loc[..i])
    {
      assert loc[..i + 1][..i] == loc[..i];
      out := out[ToUpper(loc[i].symbol) := loc[i]];
    }
    assert loc[..|loc|] == loc;
    for i := 0 to |exchange|
      invariant out == IndexMeta(loc) + IndexMeta(exchange[..i])
    {
      assert exchange[..i + 1][..i] == exchange[..i];
      out := out[ToUpper(exchange[i].symbol) := exchange[i]];
    }
    assert exchange[..|exchange|] == exchange;
  }

  /** Whichever key is taken first, the total is its diffs plus the total of the others. */
  lemma {:induction false} TotalSplits(c: Aligned, keys: set<Key>, k: Key, observed: bool)
    requires k in keys
    ensures Total(c, keys, observed) == multiset(KeyDiffs(c, k, observed)) + Total(c, keys - {k}, observed)
    decreases |keys|
  {
    var j :| j in keys
             && Total(c, keys, observed) == multiset(KeyDiffs(c, j, observed)) + Total(c, keys - {j}, observed);
    if j != k {
      TotalSplits(c, keys - {j}, k, observed);
      TotalSplits(c, keys - {k}, j, observed);
      assert keys - {j} - {k} == keys - {k} - {j};
    }
  }

  /** The metadata is looked up by the row's own upper-cased symbol, which is the key's. */
  lemma {:induction false} IndexedSymbol(ps: seq<Position>, k: Key)
    requires k in Index(ps)
    ensures KeyOf(Index(ps)[k]) == k && ToUpper(Index(ps)[k].symbol) == k.symbol
  {
    var n := |ps| - 1;
    if KeyOf(ps[n]) != k {
      IndexedSymbol(ps[..n], k);
    }
  }

  /** The loop over the aligned keys, visited in any order. */
  method AddKeys(res: CompareResult, c: Aligned)
    modifies res
    ensures multiset(res.fieldDiffs) == multiset(old(res.fieldDiffs)) + Total(c, Keys(c), false)
    ensures multiset(res.advisoryDiffs) == multiset(old(res.advisoryDiffs)) + Total(c, Keys(c), true)
    ensures res.hardPass <==> old(res.hardPass) && forall k :: k in Keys(c) ==> KeyHardAgrees(c, k)
    ensures res.softPass <==> old(res.softPass) && forall k :: k in Keys(c) ==> KeySoftAgrees(c, k)
  {
    hide KeyDiffs, KeyHardAgrees, KeySoftAgrees, Total;
    ghost var allFields := multiset(res.fieldDiffs) + Total(c, Keys(c), false);
    ghost var allObserved := multiset(res.advisoryDiffs) + Total(c, Keys(c), true);
    var todo := Keys(c);
    ghost var done: set<Key> := {};
    while todo != {}
      invariant done + todo == Keys(c)
      invariant multiset(res.fieldDiffs) + Total(c, todo, false) == allFields
      invariant multiset(res.advisoryDiffs) + Total(c, todo, true) == allObserved
      invariant res.hardPass <==> old(res.hardPass) && forall k :: k in done ==> KeyHardAgrees(c, k)
      invariant res.softPass <==> old(res.softPass) && forall k :: k in done ==> KeySoftAgrees(c, k)
      decreases todo
    {
      var k := Pick(todo);
      TotalSplits(c, todo, k, false);
      TotalSplits(c, todo, k, true);
      res.AddKey(c, k);
      todo, done := todo - {k}, done + {k};
    }
    assert done == Keys(c);
    TotalOfNothing(c);
  }

  lemma TotalOfNothing(c: Aligned)
    ensures Total(c, {}, false) == Total(c, {}, true) == multiset{}
  {
  }

  /** For every order in which the keys are visited, the same flags and the same diffs come out. */
  method Compare(loc: Wallet, exchange: Wallet, t: Thresholds) returns (res: CompareResult)
    ensures fresh(res)
    ensures multiset(res.fieldDiffs) == AllDiffs(loc, exchange, t, false)
    ensures multiset(res.advisoryDiffs) == AllDiffs(loc, exchange, t, true)
    ensures res.hardPass <==> HardAgrees(loc, exchange, t)
    ensures res.softPass <==> SoftAgrees(loc, exchange, t)
  {
    hide KeyHardAgrees, KeySoftAgrees, AccountDiffs, BalancesAgree, Total;
    res := new CompareResult();
    res.AddAccount(loc, exchange, t);
    var ex := IndexPositions(exchange.positions);
    var lo := IndexPositions(loc.positions);
    var meta := IndexRiskMetadata(exchange.riskMetadata, loc.riskMetadata);
    AddKeys(res, Aligned(ex, lo, meta, t));
  }
}
