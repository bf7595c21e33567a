/** The total of a wallet, computed at ingress, and its breakdown, computed for display: they agree. */
module WalletDisplay {
  import opened Wrappers
  import opened Text
  import opened Domain
  import opened Ingress

  datatype Error = UnsupportedEnvironment | NotConfigured | FetchFailed

  /** Environments as stored: 0 backtest, 1 demo, 2 live. */
  datatype Info = Info(environment: int, futures: Futures, spot: SpotWallet, totalValue: real)

  datatype Bundle = Bundle(spotEstimated: real, futuresEquity: real, authoritative: bool,
                           positionDisplay: Option<seq<real>>)

  // ---- spot ----

  function AssetValue(a: SpotAsset): real {
    if a.price.Some? then (a.qty + a.locked) * a.price.value else 0.0
  }

  function SumAssets(assets: seq<SpotAsset>): real {
    if assets == [] then 0.0 else SumAssets(assets[..|assets| - 1]) + AssetValue(assets[|assets| - 1])
  }

  function SpotValue(w: SpotWallet): real {
    w.free + w.locked + SumAssets(w.assets)
  }

  /** The accumulation both files perform. */
  method SpotEstimate(w: SpotWallet) returns (total: real)
    ensures total == SpotValue(w)
  {
    hide AssetValue;
    total := w.free + w.locked;
    for i := 0 to |w.assets|
      invariant total == w.free + w.locked + SumAssets(w.assets[..i])
    {
      assert w.assets[..i + 1][..i] == w.assets[..i];
      total := total + AssetValue(w.assets[i]);
    }
    assert w.assets[..|w.assets|] == w.assets;
  }

  // ---- ingress ----

  /** `FetchOnlineAccountInfo` once every request has answered. */
  function FetchInfo(futures: Futures, spot: SpotWallet): Info {
    var spotValue := SpotValue(spot);
    var total := if futures.marginBalance == 0.0 && futures.totalMarginBalance == 0.0
                 then futures.walletBalance + spotValue
                 else if futures.marginBalance == 0.0 then futures.totalMarginBalance + spotValue
                 else futures.marginBalance + spotValue;
    Info(0, futures, spot, total)
  }

  /** `FetchOnlineAccountInfo`: the futures wallet in its order of ingress, its positions, a spot wallet that is empty
      when its request failed, and the total with its two fallbacks. */
  method FetchOnlineAccountInfo(raw: RawAccount, multiAssets: bool, balances: seq<Balance>, lk: Lookups,
                                positions: seq<Position>, spot: Option<SpotWallet>) returns (info: Info)
    ensures var wallet := if spot.Some? then spot.value else SpotWallet(0.0, 0.0, []);
            info == FetchInfo(Fetched(raw, multiAssets, balances, lk).(positions := positions), wallet)
  {
    hide Fetched, SpotValue;
    var account := FuturesAccount.FetchFutures(raw, multiAssets, balances, lk);
    var futures := account.wallet.(positions := positions);
    var wallet := if spot.Some? then spot.value else SpotWallet(0.0, 0.0, []);
    var spotValue := SpotEstimate(wallet);
    var total := futures.marginBalance + spotValue;
    if futures.marginBalance == 0.0 {
      total := futures.totalMarginBalance + spotValue;
    }
    if futures.marginBalance == 0.0 && futures.totalMarginBalance == 0.0 {
      total := futures.walletBalance + spotValue;
    }
    info := Info(0, futures, wallet, total);
  }

  /** Routes by the account's environment and stamps it on the result. */
  function GetOnlineInfo(environment: int, configured: bool, fromDb: Result<Info, Error>, fetched: Result<Info, Error>)
    : Result<Info, Error>
  {
    if environment == 0 then
      if fromDb.Ok? then Ok(fromDb.value.(environment := 0)) else fromDb
    else if environment != 1 && environment != 2 then Err(UnsupportedEnvironment)
    else if !configured then Err(NotConfigured)
    else if fetched.Ok? then Ok(fetched.value.(environment := environment)) else fetched
  }

  // ---- display ----

  predicate SumMatchesTotal(sum: real, total: real) {
    var d, s := Abs(sum - total), Max(Abs(sum), Abs(total));
    d <= 0.05 || (s > 0.05 && d / s <= 0.00000001)
  }

  predicate Open(p: Position) {
    Abs(p.qty) > 0.000000000001
  }

  function IsolatedEquity(p: Position): real {
    if !Open(p) then p.initialBalance
    else
      (if p.leverage > 0.0 && p.entryPrice > 0.0 then Abs(p.qty) * p.entryPrice / p.leverage else 0.0)
      + p.initialBalance + p.unrealizedPnl
  }

  function CrossMargin(p: Position): real {
    if !Open(p) || p.leverage <= 0.0 then 0.0
    else Abs(p.qty) * (if p.markPrice == 0.0 then p.entryPrice else p.markPrice) / p.leverage
  }

  function SumCross(ps: seq<Position>): real {
    if ps == [] then 0.0 else SumCross(ps[..|ps| - 1]) + CrossMargin(ps[|ps| - 1])
  }

  function Sum(xs: seq<real>): real {
    if xs == [] then 0.0 else Sum(xs[..|xs| - 1]) + xs[|xs| - 1]
  }

  function Mode(w: Futures): string {
    ToLower(TrimSpace(w.marginMode))
  }

  function PositionEquity(w: Futures): real {
    if Mode(w) == "cross" then
      if w.positions == [] then w.initialBalance
      else
        var im := SumCross(w.positions);
        if w.walletBalance == 0.0 && w.totalUnrealizedPnl == 0.0 && im == 0.0 && w.initialBalance > 0.0
        then w.initialBalance else w.walletBalance + w.totalUnrealizedPnl + im
    else SumIsolated(w.positions)
  }

  function SumIsolated(ps: seq<Position>): real {
    if ps == [] then 0.0 else SumIsolated(ps[..|ps| - 1]) + IsolatedEquity(ps[|ps| - 1])
  }

  /** `FuturesPositionEquityDomain`, whose two loops add margins or isolated rows. */
  method FuturesPositionEquity(w: Futures) returns (r: real)
    ensures r == PositionEquity(w)
  {
    hide IsolatedEquity, CrossMargin;
    var ps, sum := w.positions, 0.0;
    if Mode(w) == "cross" {
      if |ps| == 0 {
        return w.initialBalance;
      }
      for i := 0 to |ps|
        invariant sum == SumCross(ps[..i])
      {
        assert ps[..i + 1][..i] == ps[..i];
        sum := sum + CrossMargin(ps[i]);
      }
      assert ps[..|ps|] == ps;
      if w.walletBalance == 0.0 && w.totalUnrealizedPnl == 0.0 && sum == 0.0 && w.initialBalance > 0.0 {
        return w.initialBalance;
      }
      return w.walletBalance + w.totalUnrealizedPnl + sum;
    }
    for i := 0 to |ps|
      invariant sum == SumIsolated(ps[..i])
    {
      assert ps[..i + 1][..i] == ps[..i];
      sum := sum + IsolatedEquity(ps[i]);
    }
    assert ps[..|ps|] == ps;
    r := sum;
  }

  /** One equity per row in isolated mode, nothing otherwise. */
  method PositionDisplaySlice(w: Futures) returns (r: Option<seq<real>>)
    ensures Mode(w) == "isolated" ==>
              r.Some? && |r.value| == |w.positions|
              && (forall i :: 0 <= i < |r.value| ==> r.value[i] == IsolatedEquity(w.positions[i]))
              && Sum(r.value) == PositionEquity(w)
    ensures Mode(w) != "isolated" ==> r.None?
  {
    hide IsolatedEquity;
    if Mode(w) != "isolated" {
      return None;
    }
    var ps := w.positions;
    var out: seq<real> := [];
    for i := 0 to |ps|
      invariant |out| == i && Sum(out) == SumIsolated(ps[..i])
      invariant forall j :: 0 <= j < i ==> out[j] == IsolatedEquity(ps[j])
    {
      assert ps[..i + 1][..i] == ps[..i];
      ghost var before := out;
      out := out + [IsolatedEquity(ps[i])];
      assert out[..i] == before;
    }
    assert ps[..|ps|] == ps;
    r := Some(out);
  }

  function FuturesLeg(info: Info): real {
    if info.environment == 1 || info.environment == 2 then
      if info.futures.marginBalance != 0.0 then info.futures.marginBalance
      else if info.futures.totalMarginBalance != 0.0 then info.futures.totalMarginBalance
      else info.futures.walletBalance
    else
      var spot, fe := SpotValue(info.spot), PositionEquity(info.futures);
      if !SumMatchesTotal(spot + fe, info.totalValue)
         && SumMatchesTotal(spot + (info.totalValue - spot), info.totalValue)
      then info.totalValue - spot else fe
  }

  method ComputeDisplay(info: Info) returns (b: Bundle)
    ensures b.spotEstimated == SpotValue(info.spot) && b.futuresEquity == FuturesLeg(info)
    ensures b.authoritative == SumMatchesTotal(b.spotEstimated + b.futuresEquity, info.totalValue)
    ensures b.positionDisplay.Some? <==> Mode(info.futures) == "isolated"
    ensures b.positionDisplay.Some? ==> Sum(b.positionDisplay.value) == PositionEquity(info.futures)
  {
    hide PositionEquity, SpotValue;
    var se := SpotEstimate(info.spot);
    var fe: real;
    if info.environment == 1 || info.environment == 2 {
      fe := info.futures.marginBalance;
      if fe == 0.0 {
        fe := info.futures.totalMarginBalance;
      }
      if fe == 0.0 {
        fe := info.futures.walletBalance;
      }
    } else {
      fe := FuturesPositionEquity(info.futures);
      if !SumMatchesTotal(se + fe, info.totalValue) {
        var fe2 := info.totalValue - se;
        if SumMatchesTotal(se + fe2, info.totalValue) {
          fe := fe2;
        }
      }
    }
    var display := PositionDisplaySlice(info.futures);
    b := Bundle(se, fe, SumMatchesTotal(se + fe, info.totalValue), display);
  }

  // ---- total and breakdown agree ----

  /** A demo or live account fetched through the router: the two legs add up to the total exactly. */
  lemma RoutedTotalIsItsBreakdown(environment: int, futures: Futures, spot: SpotWallet, fromDb: Result<Info, Error>)
    requires environment == 1 || environment == 2
    ensures var info := GetOnlineInfo(environment, true, fromDb, Ok(FetchInfo(futures, spot)));
            && info.Ok? && info.value.environment == environment
            && SpotValue(info.value.spot) + FuturesLeg(info.value) == info.value.totalValue
            && SumMatchesTotal(SpotValue(info.value.spot) + FuturesLeg(info.value), info.value.totalValue)
  {
    hide SpotValue, PositionEquity;
  }

  /** A backtest account read back from the store: the breakdown always matches the stored total, and keeps
      the position-based equity whenever that one matches. */
  lemma BacktestAlwaysMatches(stored: Info, configured: bool, fetched: Result<Info, Error>)
    ensures var info := GetOnlineInfo(0, configured, Ok(stored), fetched);
            && info.Ok? && info.value.environment == 0
            && SumMatchesTotal(SpotValue(info.value.spot) + FuturesLeg(info.value), info.value.totalValue)
            && (SumMatchesTotal(SpotValue(stored.spot) + PositionEquity(stored.futures), stored.totalValue)
                ==> FuturesLeg(info.value) == PositionEquity(stored.futures))
  {
    hide SpotValue, PositionEquity;
  }
}
