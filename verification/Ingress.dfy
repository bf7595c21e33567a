/** Wallets on their way in from the exchange, and the display breakdown of their total. */
module Ingress {
  import opened Wrappers
  import opened Domain

  datatype Display = Display(wallet: real, margin: real, pnl: real)

  datatype Futures = Futures(marginMode: string, initialBalance: real, positions: seq<Position>,
                             walletBalance: real, availableBalance: real, totalUnrealizedPnl: real,
                             unrealizedPnl: real, marginBalance: real, totalMarginBalance: real,
                             totalPositionInitialMargin: real, totalOpenOrderInitialMargin: real,
                             totalMaintMargin: real, totalCrossWalletBalance: real, totalCrossUnPnl: real,
                             multiAssetsMode: bool, display: Display)

  datatype SpotAsset = SpotAsset(qty: real, locked: real, price: Option<real>)
  datatype SpotWallet = SpotWallet(free: real, locked: real, assets: seq<SpotAsset>)

  /** The provider's answers, already decoded. */
  datatype RawAsset = RawAsset(asset: string, wallet: real, margin: real, pnl: real)
  datatype RawAccount = RawAccount(totalWalletBalance: real, availableBalance: real, totalUnrealizedProfit: real,
                                   totalMarginBalance: real, totalPositionInitialMargin: real,
                                   totalOpenOrderInitialMargin: real, totalMaintMargin: real,
                                   totalCrossWalletBalance: real, totalCrossUnPnl: real, assets: seq<RawAsset>)
  datatype Balance = Balance(asset: string, balance: real, crossWallet: real, crossUnPnl: real, available: real,
                             marginAvailable: bool)

  /** Outcomes of the price lookups: the asset-index request, and the ticker request for the i-th asset. */
  datatype Lookups = Lookups(index: Option<map<string, real>>, ticker: map<nat, real>)

  // ---- canonical fields ----

  function Seed(raw: RawAccount): Futures {
    Futures("cross", 0.0, [], raw.totalWalletBalance, raw.availableBalance, raw.totalUnrealizedProfit,
            raw.totalUnrealizedProfit, raw.totalMarginBalance, raw.totalMarginBalance,
            raw.totalPositionInitialMargin, raw.totalOpenOrderInitialMargin, raw.totalMaintMargin,
            raw.totalCrossWalletBalance, raw.totalCrossUnPnl, false,
            Display(raw.totalWalletBalance, raw.totalMarginBalance, raw.totalUnrealizedProfit))
  }

  function FirstUsdt(bs: seq<Balance>): Option<Balance> {
    if bs == [] then None else if bs[0].asset == "USDT" then Some(bs[0]) else FirstUsdt(bs[1..])
  }

  function FirstMargin(bs: seq<Balance>): Option<Balance> {
    if bs == [] then None else if bs[0].marginAvailable then Some(bs[0]) else FirstMargin(bs[1..])
  }

  /** USDT if present, else the first asset usable as margin, else the first listed. */
  function Primary(bs: seq<Balance>): Option<Balance> {
    if bs == [] then None
    else if FirstUsdt(bs).Some? then FirstUsdt(bs)
    else if FirstMargin(bs).Some? then FirstMargin(bs)
    else Some(bs[0])
  }

  function OrElse(x: real, fallback: real): real {
    if x == 0.0 then fallback else x
  }

  function MergeBalance(w: Futures, bs: seq<Balance>): Futures {
    match Primary(bs)
    case None => w
    case Some(b) =>
      if w.multiAssetsMode then
        w.(walletBalance := b.balance, availableBalance := b.available, unrealizedPnl := b.crossUnPnl,
           totalUnrealizedPnl := b.crossUnPnl, marginBalance := b.balance + b.crossUnPnl,
           totalMarginBalance := b.balance + b.crossUnPnl, totalCrossWalletBalance := b.crossWallet,
           totalCrossUnPnl := b.crossUnPnl)
      else
        w.(walletBalance := OrElse(w.walletBalance, b.balance),
           availableBalance := OrElse(w.availableBalance, b.available),
           totalCrossWalletBalance := OrElse(w.totalCrossWalletBalance, b.crossWallet),
           totalCrossUnPnl := OrElse(w.totalCrossUnPnl, b.crossUnPnl))
  }

  // ---- display fields ----

  predicate IsStablecoin(asset: string) {
    asset in {"USDC", "BUSD", "FDUSD", "USDP", "TUSD", "USDS", "USD1", "UUSD"}
  }

  function Rate(asset: string, i: nat, index: map<string, real>, ticker: map<nat, real>): Option<real> {
    if asset == "USDT" then Some(1.0)
    else if IsStablecoin(asset) then if i in ticker && ticker[i] > 0.0 then Some(ticker[i]) else Some(1.0)
    else if asset + "USD" in index && index[asset + "USD"] > 0.0 then Some(index[asset + "USD"])
    else None
  }

  predicate NeedsIndex(a: RawAsset) {
    !(a.wallet == 0.0 && a.margin == 0.0 && a.pnl == 0.0) && a.asset != "USDT"
  }

  predicate AnyNeedsIndex(assets: seq<RawAsset>) {
    exists i :: 0 <= i < |assets| && NeedsIndex(assets[i])
  }

  /** The rate table in use: empty when no asset with an amount asked for it, None when the request failed. */
  function IndexInUse(assets: seq<RawAsset>, lk: Lookups): Option<map<string, real>> {
    if AnyNeedsIndex(assets) then lk.index else Some(map[])
  }

  /** The three rate-weighted sums, or None as soon as one asset has no rate. */
  function Sums(assets: seq<RawAsset>, index: map<string, real>, ticker: map<nat, real>): Option<Display> {
    if assets == [] then Some(Display(0.0, 0.0, 0.0))
    else
      var n := |assets| - 1;
      var before, rate := Sums(assets[..n], index, ticker), Rate(assets[n].asset, n, index, ticker);
      if before.None? || rate.None? then None
      else Some(Weigh(before.value, assets[n], rate.value))
  }

  function Weigh(d: Display, a: RawAsset, rate: real): Display {
    Display(d.wallet + a.wallet * rate, d.margin + a.margin * rate, d.pnl + a.pnl * rate)
  }

  function Aggregate(assets: seq<RawAsset>, lk: Lookups): Option<Display> {
    if IndexInUse(assets, lk).None? then None else Sums(assets, IndexInUse(assets, lk).value, lk.ticker)
  }

  function WithDisplay(w: Futures, assets: seq<RawAsset>, lk: Lookups): Futures {
    if assets != [] && Aggregate(assets, lk).Some? then w.(display := Aggregate(assets, lk).value) else w
  }

  /** The futures wallet a fetch produces: canonical fields, then display, then the balance merge. */
  function Fetched(raw: RawAccount, multiAssets: bool, balances: seq<Balance>, lk: Lookups): Futures {
    MergeBalance(WithDisplay(Seed(raw), raw.assets, lk).(multiAssetsMode := multiAssets), balances)
  }

  // ---- the adapter's methods ----

  class FuturesAccount {
    var wallet: Futures

    constructor (raw: RawAccount)
      ensures wallet == Seed(raw)
    {
      wallet := Seed(raw);
    }

    /** The order of ingress: canonical fields, the display projection, the mode flag, and then the merge. A failed
        projection is only logged. */
    static method FetchFutures(raw: RawAccount, multiAssets: bool, balances: seq<Balance>, lk: Lookups)
      returns (account: FuturesAccount)
      ensures fresh(account) && account.wallet == Fetched(raw, multiAssets, balances, lk)
    {
      hide Seed, Aggregate, MergeBalance;
      account := new FuturesAccount(raw);
      var ok := account.ApplyDisplay(raw.assets, lk);
      account.wallet := account.wallet.(multiAssetsMode := multiAssets);
      account.Merge(balances);
    }

    method ApplyDisplay(assets: seq<RawAsset>, lk: Lookups) returns (ok: bool)
      modifies this
      ensures wallet == WithDisplay(old(wallet), assets, lk)
      ensures ok == (assets == [] || Aggregate(assets, lk).Some?)
    {
      hide Rate;
      if |assets| == 0 {
        return true;
      }
      var needsIndex := false;
      for i := 0 to |assets|
        invariant needsIndex <==> exists j :: 0 <= j < i && NeedsIndex(assets[j])
      {
        if NeedsIndex(assets[i]) {
          needsIndex := true;
          break;
        }
      }
      var index := map[];
      if needsIndex {
        if lk.index.None? {
          return false;
        }
        index := lk.index.value;
      }
      var sums := SumDisplay(assets, index, lk.ticker);
      if sums.None? {
        return false;
      }
      wallet := wallet.(display := sums.value);
      ok := true;
    }

    static method SumDisplay(assets: seq<RawAsset>, index: map<string, real>, ticker: map<nat, real>)
      returns (r: Option<Display>)
      ensures r == Sums(assets, index, ticker)
    {
      hide Rate, Weigh;
      var sums := Display(0.0, 0.0, 0.0);
      for i := 0 to |assets|
        invariant Sums(assets[..i], index, ticker) == Some(sums)
      {
        SumsNext(assets, i, index, ticker);
        var rate := Rate(assets[i].asset, i, index, ticker);
        if rate.None? {
          SumsStayNone(assets, i + 1, index, ticker);
          return None;
        }
        sums := Weigh(sums, assets[i], rate.value);
      }
      assert assets[..|assets|] == assets;
      r := Some(sums);
    }

    static method PickPrimary(bs: seq<Balance>) returns (r: Option<Balance>)
      ensures r == Primary(bs)
    {
      if |bs| == 0 {
        return None;
      }
      for i := 0 to |bs|
        invariant FirstUsdt(bs) == FirstUsdt(bs[i..])
      {
        if bs[i].asset == "USDT" {
          return Some(bs[i]);
        }
      }
      for i := 0 to |bs|
        invariant FirstMargin(bs) == FirstMargin(bs[i..])
      {
        if bs[i].marginAvailable {
          return Some(bs[i]);
        }
      }
      r := Some(bs[0]);
    }

    method Merge(bs: seq<Balance>)
      modifies this
      ensures wallet == MergeBalance(old(wallet), bs)
    {
      var summary := PickPrimary(bs);
      if summary.None? {
        return;
      }
      var b := summary.value;
      if wallet.multiAssetsMode {
        wallet := wallet.(walletBalance := b.balance, availableBalance := b.available, unrealizedPnl := b.crossUnPnl,
                          totalUnrealizedPnl := b.crossUnPnl, marginBalance := b.balance + b.crossUnPnl,
                          totalMarginBalance := b.balance + b.crossUnPnl, totalCrossWalletBalance := b.crossWallet,
                          totalCrossUnPnl := b.crossUnPnl);
        return;
      }
      if wallet.walletBalance == 0.0 {
        wallet := wallet.(walletBalance := b.balance);
      }
      if wallet.availableBalance == 0.0 {
        wallet := wallet.(availableBalance := b.available);
      }
      if wallet.totalCrossWalletBalance == 0.0 {
        wallet := wallet.(totalCrossWalletBalance := b.crossWallet);
      }
      if wallet.totalCrossUnPnl == 0.0 {
        wallet := wallet.(totalCrossUnPnl := b.crossUnPnl);
      }
    }
  }

  lemma SumsNext(assets: seq<RawAsset>, i: nat, index: map<string, real>, ticker: map<nat, real>)
    requires i < |assets|
    ensures var before, rate := Sums(assets[..i], index, ticker), Rate(assets[i].asset, i, index, ticker);
            Sums(assets[..i + 1], index, ticker) ==
              if before.None? || rate.None? then None
              else Some(Weigh(before.value, assets[i], rate.value))
  {
    hide Rate, Weigh;
    assert assets[..i + 1][..i] == assets[..i] && assets[..i + 1][i] == assets[i];
  }

  lemma {:induction false} SumsStayNone(assets: seq<RawAsset>, i: nat, index: map<string, real>, ticker: map<nat, real>)
    requires i <= |assets| && Sums(assets[..i], index, ticker).None?
    ensures Sums(assets, index, ticker).None?
  {
    if i < |assets| {
      var n := |assets| - 1;
      assert assets[..n][..i] == assets[..i];
      SumsStayNone(assets[..n], i, index, ticker);
    } else {
      assert assets[..i] == assets;
    }
  }

  // ---- display never leaks into canonical fields ----

  /** Whatever the price lookups return, everything but the display block is the same. */
  lemma LookupsTouchOnlyDisplay(raw: RawAccount, multi: bool, balances: seq<Balance>, a: Lookups, b: Lookups)
    ensures var x, y := Fetched(raw, multi, balances, a), Fetched(raw, multi, balances, b);
            x == y.(display := x.display)
  {
    hide Aggregate, Primary;
  }

  /** The display block is the provider's seed as a whole, or the full sums as a whole; the sums exactly when
      every asset found a rate. */
  lemma DisplayIsAllOrNothing(raw: RawAccount, multi: bool, balances: seq<Balance>, lk: Lookups)
    ensures var all := raw.assets != [] && IndexInUse(raw.assets, lk).Some?
                       && forall i :: 0 <= i < |raw.assets| ==>
                            Rate(raw.assets[i].asset, i, IndexInUse(raw.assets, lk).value, lk.ticker).Some?;
            Some(Fetched(raw, multi, balances, lk).display) ==
              if all then Sums(raw.assets, IndexInUse(raw.assets, lk).value, lk.ticker) else Some(Seed(raw).display)
  {
    hide Rate, Primary;
    if IndexInUse(raw.assets, lk).Some? {
      SumsNeedAllRates(raw.assets, IndexInUse(raw.assets, lk).value, lk.ticker);
    }
  }

  lemma {:induction false} SumsNeedAllRates(assets: seq<RawAsset>, index: map<string, real>, ticker: map<nat, real>)
    ensures Sums(assets, index, ticker).Some? <==>
            forall i :: 0 <= i < |assets| ==> Rate(assets[i].asset, i, index, ticker).Some?
  {
    hide Rate;
    if assets != [] {
      SumsNeedAllRates(assets[..|assets| - 1], index, ticker);
    }
  }
}
