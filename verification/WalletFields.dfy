/** Wallet ingress and display, column by column: where each figure comes from. */
module WalletFields {
  import opened Wrappers
  import opened Text
  import opened Domain
  import opened Ingress
  import opened WalletDisplay

  // ---- the balance that speaks for the account ----

  /** Row `i` is the first USDT balance; without one, the first usable as margin; without either, the first. */
  ghost predicate PrimaryAt(bs: seq<Balance>, i: int) {
    && 0 <= i < |bs|
    && if exists j :: 0 <= j < |bs| && bs[j].asset == "USDT" then
         bs[i].asset == "USDT" && forall j :: 0 <= j < i ==> bs[j].asset != "USDT"
       else if exists j :: 0 <= j < |bs| && bs[j].marginAvailable then
         bs[i].marginAvailable && forall j :: 0 <= j < i ==> !bs[j].marginAvailable
       else i == 0
  }

  lemma {:induction false} FirstUsdtExact(bs: seq<Balance>, i: int)
    requires 0 <= i <= |bs| && forall j :: 0 <= j < i ==> bs[j].asset != "USDT"
    ensures i < |bs| && bs[i].asset == "USDT" ==> FirstUsdt(bs) == Some(bs[i])
    ensures i == |bs| ==> FirstUsdt(bs) == None
  {
    if 0 < i {
      FirstUsdtExact(bs[1..], i - 1);
    }
  }

  lemma {:induction false} FirstMarginExact(bs: seq<Balance>, i: int)
    requires 0 <= i <= |bs| && forall j :: 0 <= j < i ==> !bs[j].marginAvailable
    ensures i < |bs| && bs[i].marginAvailable ==> FirstMargin(bs) == Some(bs[i])
    ensures i == |bs| ==> FirstMargin(bs) == None
  {
    if 0 < i {
      FirstMarginExact(bs[1..], i - 1);
    }
  }

  lemma PrimaryExact(bs: seq<Balance>, i: int)
    requires PrimaryAt(bs, i)
    ensures Primary(bs) == Some(bs[i])
  {
    if exists j :: 0 <= j < |bs| && bs[j].asset == "USDT" {
      FirstUsdtExact(bs, i);
    } else {
      FirstUsdtExact(bs, |bs|);
      if exists j :: 0 <= j < |bs| && bs[j].marginAvailable {
        FirstMarginExact(bs, i);
      } else {
        FirstMarginExact(bs, |bs|);
      }
    }
  }

  /** The figure sent, or the balance's where none was. */
  predicate SentOr(x: real, sent: real, fallback: real) {
    (sent != 0.0 ==> x == sent) && (sent == 0.0 ==> x == fallback)
  }

  /** Margins are the provider's in every mode. */
  predicate MarginsAsSent(w: Futures, raw: RawAccount) {
    w.totalPositionInitialMargin == raw.totalPositionInitialMargin
    && w.totalOpenOrderInitialMargin == raw.totalOpenOrderInitialMargin && w.totalMaintMargin == raw.totalMaintMargin
  }

  /** With several margin assets the account is told by its primary balance. */
  lemma MultiAssetColumns(raw: RawAccount, bs: seq<Balance>, i: int, lk: Lookups)
    requires PrimaryAt(bs, i)
    ensures var w := Fetched(raw, true, bs, lk);
            && w.walletBalance == bs[i].balance && w.availableBalance == bs[i].available
            && w.totalCrossWalletBalance == bs[i].crossWallet && w.totalCrossUnPnl == bs[i].crossUnPnl
            && w.unrealizedPnl == w.totalUnrealizedPnl == bs[i].crossUnPnl
            && w.marginBalance == w.totalMarginBalance == w.walletBalance + w.unrealizedPnl
            && MarginsAsSent(w, raw) && w.multiAssetsMode
  {
    PrimaryExact(bs, i);
    hide Primary, Aggregate, PrimaryAt;
  }

  /** With a single one, what the provider sent stands, and its zero balances are filled in. */
  lemma SingleAssetColumns(raw: RawAccount, bs: seq<Balance>, i: int, lk: Lookups)
    requires PrimaryAt(bs, i)
    ensures var w := Fetched(raw, false, bs, lk);
            && SentOr(w.walletBalance, raw.totalWalletBalance, bs[i].balance)
            && SentOr(w.availableBalance, raw.availableBalance, bs[i].available)
            && SentOr(w.totalCrossWalletBalance, raw.totalCrossWalletBalance, bs[i].crossWallet)
            && SentOr(w.totalCrossUnPnl, raw.totalCrossUnPnl, bs[i].crossUnPnl)
            && w.unrealizedPnl == w.totalUnrealizedPnl == raw.totalUnrealizedProfit
            && w.marginBalance == w.totalMarginBalance == raw.totalMarginBalance
            && MarginsAsSent(w, raw) && !w.multiAssetsMode
  {
    PrimaryExact(bs, i);
    hide Primary, Aggregate, PrimaryAt;
  }

  /** Without balances everything is as sent. */
  lemma NoBalanceColumns(raw: RawAccount, multi: bool, lk: Lookups)
    ensures var w := Fetched(raw, multi, [], lk);
            && w.walletBalance == raw.totalWalletBalance && w.availableBalance == raw.availableBalance
            && w.totalCrossWalletBalance == raw.totalCrossWalletBalance && w.totalCrossUnPnl == raw.totalCrossUnPnl
            && w.unrealizedPnl == w.totalUnrealizedPnl == raw.totalUnrealizedProfit
            && w.marginBalance == w.totalMarginBalance == raw.totalMarginBalance
            && MarginsAsSent(w, raw) && w.multiAssetsMode == multi
  {
    hide Aggregate;
  }

  // ---- the display totals ----

  /** The dollar rate of an asset: one for USDT; for a stablecoin a positive ticker, else one; for any other a
      positive index. */
  predicate RatedAt(asset: string, i: nat, index: map<string, real>, ticker: map<nat, real>, rate: real) {
    if asset == "USDT" then rate == 1.0
    else if IsStablecoin(asset) then
      (i in ticker && ticker[i] > 0.0 ==> rate == ticker[i]) && (i !in ticker || ticker[i] <= 0.0 ==> rate == 1.0)
    else asset + "USD" in index && index[asset + "USD"] == rate && rate > 0.0
  }

  lemma RateExact(asset: string, i: nat, index: map<string, real>, ticker: map<nat, real>, rate: real)
    ensures Rate(asset, i, index, ticker) == Some(rate) <==> RatedAt(asset, i, index, ticker, rate)
  {
    hide IsStablecoin;
  }

  /** The sum of the amounts, each at its own rate. */
  function Weighted(amounts: seq<real>, rates: seq<real>): real
    requires |amounts| == |rates|
  {
    if amounts == [] then 0.0
    else
      var n := |amounts| - 1;
      Weighted(amounts[..n], rates[..n]) + Worth(amounts[n], rates[n])
  }

  function Worth(amount: real, rate: real): real {
    amount * rate
  }

  lemma WeightedPush(amounts: seq<real>, rates: seq<real>, last: real)
    requires |amounts| == |rates| > 0 && amounts[|amounts| - 1] == last
    ensures var n := |amounts| - 1;
            Weighted(amounts, rates) == Weighted(amounts[..n], rates[..n]) + Worth(last, rates[n])
  {
  }

  function Wallets(assets: seq<RawAsset>): (r: seq<real>)
    ensures |r| == |assets|
  {
    seq(|assets|, i requires 0 <= i < |assets| => assets[i].wallet)
  }

  function Margins(assets: seq<RawAsset>): (r: seq<real>)
    ensures |r| == |assets|
  {
    seq(|assets|, i requires 0 <= i < |assets| => assets[i].margin)
  }

  function Pnls(assets: seq<RawAsset>): (r: seq<real>)
    ensures |r| == |assets|
  {
    seq(|assets|, i requires 0 <= i < |assets| => assets[i].pnl)
  }

  ghost predicate AllRated(assets: seq<RawAsset>, index: map<string, real>, ticker: map<nat, real>, rates: seq<real>) {
    |rates| == |assets|
    && forall i :: 0 <= i < |assets| ==> RatedAt(assets[i].asset, i, index, ticker, rates[i])
  }

  lemma WeighExact(d: Display, a: RawAsset, rate: real)
    ensures Weigh(d, a, rate) ==
            Display(d.wallet + Worth(a.wallet, rate), d.margin + Worth(a.margin, rate), d.pnl + Worth(a.pnl, rate))
  {
  }

  lemma SumsStep(assets: seq<RawAsset>, index: map<string, real>, ticker: map<nat, real>, before: Display, rate: real)
    requires assets != [] && Sums(assets[..|assets| - 1], index, ticker) == Some(before)
    requires RatedAt(assets[|assets| - 1].asset, |assets| - 1, index, ticker, rate)
    ensures var a := assets[|assets| - 1];
            Sums(assets, index, ticker) == Some(Display(before.wallet + Worth(a.wallet, rate),
                                                        before.margin + Worth(a.margin, rate),
                                                        before.pnl + Worth(a.pnl, rate)))
  {
    hide Rate, RatedAt, Weigh, Worth;
    RateExact(assets[|assets| - 1].asset, |assets| - 1, index, ticker, rate);
    WeighExact(before, assets[|assets| - 1], rate);
  }

  lemma {:induction false} SumsExact(assets: seq<RawAsset>, index: map<string, real>, ticker: map<nat, real>,
                                     rates: seq<real>)
    requires AllRated(assets, index, ticker, rates)
    ensures Sums(assets, index, ticker) == Some(Display(Weighted(Wallets(assets), rates),
                                                        Weighted(Margins(assets), rates),
                                                        Weighted(Pnls(assets), rates)))
  {
    hide RatedAt;
    if assets != [] {
      var n := |assets| - 1;
      SumsExact(assets[..n], index, ticker, rates[..n]);
      assert Wallets(assets)[..n] == Wallets(assets[..n]);
      assert Margins(assets)[..n] == Margins(assets[..n]);
      assert Pnls(assets)[..n] == Pnls(assets[..n]);
      WeightedPush(Wallets(assets), rates, assets[n].wallet);
      WeightedPush(Margins(assets), rates, assets[n].margin);
      WeightedPush(Pnls(assets), rates, assets[n].pnl);
      hide Weighted, Wallets, Margins, Pnls, Worth, Sums;
      SumsStep(assets, index, ticker, Sums(assets[..n], index, ticker).value, rates[n]);
    }
  }

  /** The index in use: the one looked up when an asset other than USDT holds anything, and otherwise an empty one. */
  ghost predicate IndexFor(assets: seq<RawAsset>, lk: Lookups, index: map<string, real>) {
    if exists i :: 0 <= i < |assets| && assets[i].asset != "USDT"
                   && (assets[i].wallet != 0.0 || assets[i].margin != 0.0 || assets[i].pnl != 0.0)
    then lk.index == Some(index) else index == map[]
  }

  lemma IndexForExact(assets: seq<RawAsset>, lk: Lookups, index: map<string, real>)
    ensures IndexFor(assets, lk, index) <==> IndexInUse(assets, lk) == Some(index)
  {
    if i :| 0 <= i < |assets| && assets[i].asset != "USDT"
            && (assets[i].wallet != 0.0 || assets[i].margin != 0.0 || assets[i].pnl != 0.0) {
      assert NeedsIndex(assets[i]);
    }
  }

  /** When every asset has a rate, the three display totals are the three columns weighed by the rates. */
  lemma DisplayWeighed(raw: RawAccount, multi: bool, bs: seq<Balance>, lk: Lookups, index: map<string, real>,
                       rates: seq<real>)
    requires raw.assets != [] && IndexFor(raw.assets, lk, index) && AllRated(raw.assets, index, lk.ticker, rates)
    ensures Fetched(raw, multi, bs, lk).display ==
            Display(Weighted(Wallets(raw.assets), rates), Weighted(Margins(raw.assets), rates),
                    Weighted(Pnls(raw.assets), rates))
  {
    IndexForExact(raw.assets, lk, index);
    SumsExact(raw.assets, index, lk.ticker, rates);
    hide IndexInUse, Sums, Primary, Weighted, AllRated, IndexFor;
  }

  /** When some asset has none, all three are the provider's own totals. */
  lemma DisplaySeeded(raw: RawAccount, multi: bool, bs: seq<Balance>, lk: Lookups)
    requires raw.assets == [] || forall index, rates :: IndexFor(raw.assets, lk, index) ==>
               !AllRated(raw.assets, index, lk.ticker, rates)
    ensures Fetched(raw, multi, bs, lk).display ==
            Display(raw.totalWalletBalance, raw.totalMarginBalance, raw.totalUnrealizedProfit)
  {
    DisplayIsAllOrNothing(raw, multi, bs, lk);
    var assets, use := raw.assets, IndexInUse(raw.assets, lk);
    hide Fetched, Rate, IndexInUse, RatedAt;
    if use.Some? && forall i :: 0 <= i < |assets| ==> Rate(assets[i].asset, i, use.value, lk.ticker).Some? {
      var rates := seq(|assets|, i requires 0 <= i < |assets| => Rate(assets[i].asset, i, use.value, lk.ticker).value);
      forall i | 0 <= i < |assets|
        ensures RatedAt(assets[i].asset, i, use.value, lk.ticker, rates[i])
      {
        RateExact(assets[i].asset, i, use.value, lk.ticker, rates[i]);
      }
      IndexForExact(assets, lk, use.value);
      assert AllRated(assets, use.value, lk.ticker, rates);
    }
  }

  // ---- spot ----

  /** Spot starts from cash; a priced holding adds what it is worth, free and locked; an unpriced one adds nothing. */
  lemma SpotByHoldings(w: SpotWallet, a: SpotAsset)
    ensures w.assets == [] ==> SpotValue(w) == w.free + w.locked
    ensures SpotValue(w.(assets := w.assets + [a])) ==
            SpotValue(w) + (if a.price.Some? then (a.qty + a.locked) * a.price.value else 0.0)
  {
    assert (w.assets + [a])[..|w.assets|] == w.assets;
  }

  // ---- the equity of a position ----

  /** What a row is worth in isolated mode: a closed one its own balance; an open one also its profit and the margin
      that its size at entry needs under its leverage. */
  predicate RowWorth(p: Position, x: real) {
    var open := p.qty > 0.000000000001 || p.qty < -0.000000000001;
    && (!open ==> x == p.initialBalance)
    && (open && !(p.leverage > 0.0 && p.entryPrice > 0.0) ==> x == p.initialBalance + p.unrealizedPnl)
    && (open && p.leverage > 0.0 && p.entryPrice > 0.0 ==>
          var margin := x - p.initialBalance - p.unrealizedPnl;
          (p.qty > 0.0 ==> margin * p.leverage == p.qty * p.entryPrice)
          && (p.qty < 0.0 ==> margin * p.leverage == -p.qty * p.entryPrice))
  }

  /** What an open row binds in cross mode: its size at mark price, or at entry where no mark is known, under its
      leverage. */
  predicate RowMargin(p: Position, x: real) {
    var open := p.qty > 0.000000000001 || p.qty < -0.000000000001;
    var price := if p.markPrice != 0.0 then p.markPrice else p.entryPrice;
    && (!open || p.leverage <= 0.0 ==> x == 0.0)
    && (open && p.leverage > 0.0 && p.qty > 0.0 ==> x * p.leverage == p.qty * price)
    && (open && p.leverage > 0.0 && p.qty < 0.0 ==> x * p.leverage == -p.qty * price)
  }

  lemma QuotientExact(a: real, b: real)
    requires b > 0.0
    ensures (a / b) * b == a
  {
  }

  lemma RowWorthExact(p: Position)
    ensures RowWorth(p, IsolatedEquity(p))
  {
    if p.leverage > 0.0 {
      QuotientExact(Abs(p.qty) * p.entryPrice, p.leverage);
    }
  }

  lemma RowMarginExact(p: Position)
    ensures RowMargin(p, CrossMargin(p))
  {
    if p.leverage > 0.0 {
      QuotientExact(Abs(p.qty) * (if p.markPrice == 0.0 then p.entryPrice else p.markPrice), p.leverage);
    }
  }

  lemma {:induction false} CrossRows(ps: seq<Position>) returns (rows: seq<real>)
    ensures |rows| == |ps| && SumCross(ps) == Sum(rows) && forall i :: 0 <= i < |ps| ==> RowMargin(ps[i], rows[i])
  {
    hide RowMargin, CrossMargin;
    rows := [];
    if ps != [] {
      var n := |ps| - 1;
      var before := CrossRows(ps[..n]);
      RowMarginExact(ps[n]);
      rows := before + [CrossMargin(ps[n])];
      assert rows[..n] == before;
    }
  }

  lemma {:induction false} IsolatedRows(ps: seq<Position>) returns (rows: seq<real>)
    ensures |rows| == |ps| && SumIsolated(ps) == Sum(rows) && forall i :: 0 <= i < |ps| ==> RowWorth(ps[i], rows[i])
  {
    hide RowWorth, IsolatedEquity;
    rows := [];
    if ps != [] {
      var n := |ps| - 1;
      var before := IsolatedRows(ps[..n]);
      RowWorthExact(ps[n]);
      rows := before + [IsolatedEquity(ps[n])];
      assert rows[..n] == before;
    }
  }

  predicate IsMode(w: Futures, mode: string) {
    SameText(TrimSpace(w.marginMode), mode)
  }

  lemma ModeExact(w: Futures, mode: string)
    requires ToLower(mode) == mode
    ensures Mode(w) == mode <==> IsMode(w, mode)
  {
    ToLowerForgetsCase(TrimSpace(w.marginMode), mode);
    hide TrimSpace;
  }

  /** The equity of the positions, told row by row: outside cross mode what the rows are worth; in cross mode what
      the rows bind, with balance and profit, or the initial balance when there is nothing else to go by. */
  lemma EquityByRows(w: Futures) returns (rows: seq<real>)
    ensures |rows| == |w.positions|
    ensures !IsMode(w, "cross") ==>
              PositionEquity(w) == Sum(rows) && forall i :: 0 <= i < |rows| ==> RowWorth(w.positions[i], rows[i])
    ensures IsMode(w, "cross") ==>
              && (forall i :: 0 <= i < |rows| ==> RowMargin(w.positions[i], rows[i]))
              && (w.positions == [] ==> PositionEquity(w) == w.initialBalance)
              && (w.positions != [] ==>
                    var nothing := w.walletBalance == 0.0 && w.totalUnrealizedPnl == 0.0 && Sum(rows) == 0.0;
                    PositionEquity(w) == if nothing && w.initialBalance > 0.0 then w.initialBalance
                                         else w.walletBalance + w.totalUnrealizedPnl + Sum(rows))
  {
    assert ToLower("cross") == "cross";
    ModeExact(w, "cross");
    hide Mode, IsMode, RowMargin, RowWorth, SumCross, SumIsolated;
    if Mode(w) == "cross" {
      rows := CrossRows(w.positions);
    } else {
      rows := IsolatedRows(w.positions);
    }
  }

  /** Rows are shown one by one exactly in isolated mode. */
  lemma ShownByRows(w: Futures)
    ensures Mode(w) == "isolated" <==> IsMode(w, "isolated")
  {
    assert ToLower("isolated") == "isolated";
    ModeExact(w, "isolated");
  }

  // ---- totals ----

  /** The futures leg: the margin balance, else the total margin balance, else the wallet balance. */
  predicate LegIs(f: Futures, x: real) {
    && (f.marginBalance != 0.0 ==> x == f.marginBalance)
    && (f.marginBalance == 0.0 && f.totalMarginBalance != 0.0 ==> x == f.totalMarginBalance)
    && (f.marginBalance == 0.0 && f.totalMarginBalance == 0.0 ==> x == f.walletBalance)
  }

  /** Total at ingress and leg on display are that leg. */
  lemma TotalByColumns(futures: Futures, spot: SpotWallet, environment: int)
    requires environment == 1 || environment == 2
    ensures var info := FetchInfo(futures, spot);
            LegIs(futures, info.totalValue - SpotValue(spot))
            && LegIs(futures, FuturesLeg(info.(environment := environment)))
  {
    hide SpotValue;
  }

  /** A sum matches a total within five cents or one part in a hundred million of the larger magnitude. */
  lemma MatchExact(sum: real, total: real)
    ensures SumMatchesTotal(sum, total) <==>
            -0.05 <= sum - total <= 0.05
            || Abs(sum - total) <= 0.00000001 * Max(Abs(sum), Abs(total))
  {
    var d, scale := Abs(sum - total), Max(Abs(sum), Abs(total));
    if scale > 0.05 {
      QuotientAtMost(d, scale, 0.00000001);
    }
  }

  lemma QuotientAtMost(d: real, s: real, r: real)
    requires s > 0.0
    ensures d / s <= r <==> d <= r * s
  {
    var q := d / s;
    QuotientExact(d, s);
    if q <= r {
      assert (r - q) * s >= 0.0;
    } else {
      assert (q - r) * s > 0.0;
    }
  }

  /** An environment other than the three is refused, an adapter that is missing too; errors pass through, and a
      result carries the account's environment and is otherwise what was read or fetched. */
  lemma RoutingExact(environment: int, configured: bool, fromDb: Result<Info, Error>, fetched: Result<Info, Error>)
    ensures var r := GetOnlineInfo(environment, configured, fromDb, fetched);
            && (r.Ok? <==> (environment == 0 && fromDb.Ok?)
                           || ((environment == 1 || environment == 2) && configured && fetched.Ok?))
            && (r.Ok? ==> r.value.environment == environment
                          && r.value.(environment := 0) ==
                             (if environment == 0 then fromDb else fetched).value.(environment := 0))
            && (environment < 0 || environment > 2 ==> r == Err(UnsupportedEnvironment))
            && ((environment == 1 || environment == 2) && !configured ==> r == Err(NotConfigured))
  {
  }
}
