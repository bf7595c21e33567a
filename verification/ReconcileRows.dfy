/** The comparison in terms of the rows and columns of the two wallets: no index, no key, no derived quantity. */
module ReconcileRows {
  import opened Domain
  import opened Text
  import opened ReconcileModel
  import opened ReconcileLaws

  // ---- which rows denote the same position ----

  predicate SameSide(a: string, b: string) {
    var x, y := TrimSpace(a), TrimSpace(b);
    SameText(x, y) || (x == "" && SameText(y, "BOTH")) || (y == "" && SameText(x, "BOTH"))
  }

  predicate SamePosition(p: Position, q: Position) {
    SameText(p.symbol, q.symbol) && SameSide(p.side, q.side)
  }

  lemma SidesExact(a: string, b: string)
    ensures NormalizeSide(a) == NormalizeSide(b) <==> SameSide(a, b)
  {
    var x, y := TrimSpace(a), TrimSpace(b);
    hide TrimSpace;
    ToUpperForgetsCase(x, y);
    ToUpperForgetsCase(x, "BOTH");
    ToUpperForgetsCase(y, "BOTH");
    assert ToUpper("BOTH") == "BOTH";
    hide ToUpper, SameText;
    assert |ToUpper(x)| == |x| && |ToUpper(y)| == |y|;
    assert SameText(x, y) ==> |x| == |y|;
  }

  /** Rows are aligned exactly when their symbols agree up to case and their sides up to case and padding, a
      blank side being "BOTH". */
  lemma AlignedExact(p: Position, q: Position)
    ensures KeyOf(p) == KeyOf(q) <==> SamePosition(p, q)
  {
    SidesExact(p.side, q.side);
    ToUpperForgetsCase(p.symbol, q.symbol);
    hide NormalizeSide, SameSide, ToUpper;
  }

  /** No later row denotes the same position. */
  ghost predicate IsLast(ps: seq<Position>, i: nat)
    requires i < |ps|
  {
    forall j :: i < j < |ps| ==> !SamePosition(ps[j], ps[i])
  }

  /** The index holds the last row of each position. */
  lemma {:induction false} IndexIsLast(ps: seq<Position>, k: Key) returns (i: nat)
    requires k in Index(ps)
    ensures i < |ps| && KeyOf(ps[i]) == k && Index(ps)[k] == ps[i] && IsLast(ps, i)
  {
    hide KeyOf, SamePosition;
    var n := |ps| - 1;
    if KeyOf(ps[n]) == k {
      i := n;
    } else {
      i := IndexIsLast(ps[..n], k);
      AlignedExact(ps[n], ps[i]);
    }
  }

  lemma LastIsIndexed(ps: seq<Position>, i: nat)
    requires i < |ps| && IsLast(ps, i)
    ensures KeyOf(ps[i]) in Index(ps) && Index(ps)[KeyOf(ps[i])] == ps[i]
  {
    hide KeyOf, SamePosition, Index;
    IndexHas(ps, KeyOf(ps[i]));
    var j := IndexIsLast(ps, KeyOf(ps[i]));
    AlignedExact(ps[i], ps[j]);
    AlignedExact(ps[j], ps[i]);
  }

  // ---- which sizes are in force ----

  predicate Describes(m: RiskMetadata, symbol: string) {
    SameText(m.symbol, symbol)
  }

  /** Row `i` is the last to describe the symbol, with these sizes. */
  ghost predicate Gives(ms: seq<RiskMetadata>, i: int, symbol: string, step: real, tick: real) {
    0 <= i < |ms| && Describes(ms[i], symbol) && (forall j :: i < j < |ms| ==> !Describes(ms[j], symbol))
    && ms[i].stepSize == step && ms[i].tickSize == tick
  }

  ghost predicate Silent(ms: seq<RiskMetadata>, symbol: string) {
    forall i :: 0 <= i < |ms| ==> !Describes(ms[i], symbol)
  }

  /** The exchange's metadata decide; where they are silent, the local ones; else both sizes are zero. */
  ghost predicate Sized(loc: Wallet, exchange: Wallet, symbol: string, step: real, tick: real) {
    (exists i :: Gives(exchange.riskMetadata, i, symbol, step, tick))
    || (Silent(exchange.riskMetadata, symbol) && exists i :: Gives(loc.riskMetadata, i, symbol, step, tick))
    || (Silent(exchange.riskMetadata, symbol) && Silent(loc.riskMetadata, symbol) && step == 0.0 && tick == 0.0)
  }

  lemma {:induction false} MetaExact(ms: seq<RiskMetadata>, symbol: string)
    ensures ToUpper(symbol) !in IndexMeta(ms) ==> Silent(ms, symbol)
    ensures ToUpper(symbol) in IndexMeta(ms) ==>
              exists i :: Gives(ms, i, symbol, IndexMeta(ms)[ToUpper(symbol)].stepSize,
                                IndexMeta(ms)[ToUpper(symbol)].tickSize)
  {
    hide Describes;
    if ms != [] {
      var n := |ms| - 1;
      var rest, key := ms[..n], ToUpper(symbol);
      MetaExact(rest, symbol);
      SpellsExact(ms[n], symbol);
      if ToUpper(ms[n].symbol) == key {
        assert Gives(ms, n, symbol, ms[n].stepSize, ms[n].tickSize);
      } else if key in IndexMeta(rest) {
        var step, tick := IndexMeta(rest)[key].stepSize, IndexMeta(rest)[key].tickSize;
        var i :| Gives(rest, i, symbol, step, tick);
        assert Gives(ms, i, symbol, step, tick);
      }
    }
  }

  lemma SpellsExact(m: RiskMetadata, symbol: string)
    ensures ToUpper(m.symbol) == ToUpper(symbol) <==> Describes(m, symbol)
  {
    ToUpperForgetsCase(m.symbol, symbol);
  }

  lemma GivesOnce(ms: seq<RiskMetadata>, symbol: string)
    ensures forall i, j, a, b, c, d :: Gives(ms, i, symbol, a, b) && Gives(ms, j, symbol, c, d) ==> a == c && b == d
    ensures forall i, a, b :: Gives(ms, i, symbol, a, b) ==> !Silent(ms, symbol)
  {
    hide Describes;
  }

  /** The sizes a key is compared with are the ones in force for its rows, and no others. */
  lemma SizesExact(loc: Wallet, exchange: Wallet, t: Thresholds, p: Position, step: real, tick: real)
    ensures var c := Align(loc, exchange, t);
            Sized(loc, exchange, p.symbol, step, tick) <==>
            step == StepSize(c, KeyOf(p)) && tick == TickSize(c, KeyOf(p))
  {
    hide Gives, Silent, NormalizeSide;
    MetaExact(exchange.riskMetadata, p.symbol);
    MetaExact(loc.riskMetadata, p.symbol);
    GivesOnce(exchange.riskMetadata, p.symbol);
    GivesOnce(loc.riskMetadata, p.symbol);
  }

  // ---- the verdicts, by columns ----

  /** Either quantity column is nonzero. */
  predicate Live(p: Position) {
    p.qty != 0.0 || p.positionQty != 0.0
  }

  /** The signed difference is within the tolerance; a zero tolerance asks for equality. */
  predicate Near(x: real, y: real, tol: real) {
    -tol <= x - y <= tol
  }

  /** So many steps or ticks; nothing where the size is unknown. */
  function Allowance(size: real, multiple: real): real {
    if size > 0.0 then size * multiple else 0.0
  }

  /** Signed quantities agree: `positionQty` speaks for a row unless it is zero, and then `qty` does. */
  predicate AmountsNear(e: Position, l: Position, tol: real) {
    && (e.positionQty != 0.0 && l.positionQty != 0.0 ==> Near(e.positionQty, l.positionQty, tol))
    && (e.positionQty != 0.0 && l.positionQty == 0.0 ==> Near(e.positionQty, l.qty, tol))
    && (e.positionQty == 0.0 && l.positionQty != 0.0 ==> Near(e.qty, l.positionQty, tol))
    && (e.positionQty == 0.0 && l.positionQty == 0.0 ==> Near(e.qty, l.qty, tol))
  }

  /** Within the absolute tolerance, or within the ratio of the larger magnitude. */
  predicate NearEither(x: real, y: real, absTol: real, ratioTol: real) {
    Near(x, y, absTol) || Near(x, y, ratioTol * Max(Abs(x), Abs(y)))
  }

  predicate HardNear(e: Position, l: Position, step: real, tick: real, t: Thresholds) {
    AmountsNear(e, l, Allowance(step, t.qtyStep))
    && NearEither(e.entryPrice, l.entryPrice, Allowance(tick, t.entryTick), t.entryRatio)
  }

  predicate SoftNear(e: Position, l: Position, t: Thresholds) {
    && NearEither(e.unrealizedPnl, l.unrealizedPnl, t.riskAbs, t.riskRatio)
    && NearEither(e.initialMargin, l.initialMargin, t.riskAbs, t.riskRatio)
    && NearEither(e.positionInitialMargin, l.positionInitialMargin, t.riskAbs, t.riskRatio)
    && NearEither(e.openOrderInitialMargin, l.openOrderInitialMargin, t.riskAbs, t.riskRatio)
    && NearEither(e.maintMargin, l.maintMargin, t.riskAbs, t.riskRatio)
    && NearEither(e.liquidationPrice, l.liquidationPrice, t.liqAbs, t.liqRatio)
  }

  predicate BalancesNear(l: Wallet, e: Wallet, t: Thresholds) {
    && NearEither(e.walletBalance, l.walletBalance, t.walletAbs, t.walletRatio)
    && NearEither(e.availableBalance, l.availableBalance, t.riskAbs, t.riskRatio)
    && NearEither(e.marginBalance, l.marginBalance, t.riskAbs, t.riskRatio)
    && NearEither(e.totalMarginBalance, l.totalMarginBalance, t.riskAbs, t.riskRatio)
    && NearEither(e.unrealizedPnl, l.unrealizedPnl, t.riskAbs, t.riskRatio)
    && NearEither(e.totalUnrealizedPnl, l.totalUnrealizedPnl, t.riskAbs, t.riskRatio)
    && NearEither(e.totalPositionInitialMargin, l.totalPositionInitialMargin, t.riskAbs, t.riskRatio)
    && NearEither(e.totalOpenOrderInitialMargin, l.totalOpenOrderInitialMargin, t.riskAbs, t.riskRatio)
    && NearEither(e.totalMaintMargin, l.totalMaintMargin, t.riskAbs, t.riskRatio)
  }

  lemma WithinExact(e: real, l: real, absTol: real, ratioTol: real)
    ensures Within(e, l, absTol, ratioTol) <==> NearEither(e, l, absTol, ratioTol)
  {
  }

  lemma RiskExact(e: Position, l: Position, t: Thresholds)
    ensures RiskAgrees(e, l, t) <==> SoftNear(e, l, t)
  {
    forall x: real, y: real, a: real, r: real
      ensures Within(x, y, a, r) <==> NearEither(x, y, a, r)
    {
      WithinExact(x, y, a, r);
    }
    hide Within, NearEither;
  }

  lemma BalancesExact(l: Wallet, e: Wallet, t: Thresholds)
    ensures BalancesAgree(l, e, t) <==> BalancesNear(l, e, t)
  {
    forall x: real, y: real, a: real, r: real
      ensures Within(x, y, a, r) <==> NearEither(x, y, a, r)
    {
      WithinExact(x, y, a, r);
    }
    hide Within, NearEither;
  }

  /** A row is flat exactly when both of its quantity columns are zero. */
  lemma FlatExact(p: Position)
    ensures Qty(p) == 0.0 <==> !Live(p)
  {
  }

  lemma AmountsExact(e: Position, l: Position, step: real, multiple: real)
    ensures QtyAgrees(Qty(e), Qty(l), step, multiple) <==> AmountsNear(e, l, Allowance(step, multiple))
  {
    var tol := Allowance(step, multiple);
    assert Abs(Qty(e) - Qty(l)) <= tol <==> Near(Qty(e), Qty(l), tol);
  }

  /** One key, both rows present and one of them live. */
  lemma KeyExact(c: Aligned, k: Key)
    requires k in c.ex && k in c.lo && (Live(c.ex[k]) || Live(c.lo[k]))
    ensures KeyHardAgrees(c, k) <==> HardNear(c.ex[k], c.lo[k], StepSize(c, k), TickSize(c, k), c.t)
    ensures KeySoftAgrees(c, k) <==> SoftNear(c.ex[k], c.lo[k], c.t)
  {
    var e, l := c.ex[k], c.lo[k];
    FlatExact(e);
    FlatExact(l);
    AmountsExact(e, l, StepSize(c, k), c.t.qtyStep);
    RiskExact(e, l, c.t);
    var tick := TickSize(c, k);
    WithinExact(e.entryPrice, l.entryPrice, Allowance(tick, c.t.entryTick), c.t.entryRatio);
    hide Within, NearEither, RiskAgrees, SoftNear, QtyAgrees, AmountsNear, Qty, Live, StepSize, TickSize;
  }

  /** Rows `i` of the exchange and `j` of the local wallet are the last of one position, live on either side. */
  ghost predicate Paired(loc: Wallet, exchange: Wallet, i: int, j: int) {
    0 <= i < |exchange.positions| && 0 <= j < |loc.positions|
    && IsLast(exchange.positions, i) && IsLast(loc.positions, j)
    && SamePosition(exchange.positions[i], loc.positions[j])
    && (Live(exchange.positions[i]) || Live(loc.positions[j]))
  }

  /** A live last row of either side has a counterpart. */
  ghost predicate AllPaired(loc: Wallet, exchange: Wallet) {
    && (forall i :: 0 <= i < |exchange.positions| && IsLast(exchange.positions, i) && Live(exchange.positions[i]) ==>
          exists j :: Paired(loc, exchange, i, j))
    && (forall j :: 0 <= j < |loc.positions| && IsLast(loc.positions, j) && Live(loc.positions[j]) ==>
          exists i :: Paired(loc, exchange, i, j))
  }

  /** Of a pair, row by row: the key is on both sides, holds these rows, and is judged by the sizes in force. */
  lemma PairExact(loc: Wallet, exchange: Wallet, t: Thresholds, i: int, j: int, step: real, tick: real)
    requires Paired(loc, exchange, i, j) && Sized(loc, exchange, exchange.positions[i].symbol, step, tick)
    ensures var c, k := Align(loc, exchange, t), KeyOf(exchange.positions[i]);
            && k in c.ex && k in c.lo && c.ex[k] == exchange.positions[i] && c.lo[k] == loc.positions[j]
            && (KeyHardAgrees(c, k) <==> HardNear(exchange.positions[i], loc.positions[j], step, tick, t))
            && (KeySoftAgrees(c, k) <==> SoftNear(exchange.positions[i], loc.positions[j], t))
  {
    hide KeyHardAgrees, KeySoftAgrees, HardNear, SoftNear, Sized, SamePosition, KeyOf, Index, StepSize, TickSize, Live;
    LastIsIndexed(exchange.positions, i);
    LastIsIndexed(loc.positions, j);
    AlignedExact(exchange.positions[i], loc.positions[j]);
    SizesExact(loc, exchange, t, exchange.positions[i], step, tick);
    KeyExact(Align(loc, exchange, t), KeyOf(exchange.positions[i]));
  }

  /** A key with a row on both sides and not flat on both is a pair. */
  lemma KeyPairs(loc: Wallet, exchange: Wallet, t: Thresholds, k: Key) returns (i: int, j: int)
    requires var c := Align(loc, exchange, t); k in c.ex && k in c.lo && !(Flat(c.ex, k) && Flat(c.lo, k))
    ensures Paired(loc, exchange, i, j) && KeyOf(exchange.positions[i]) == k
  {
    hide SamePosition, KeyOf, Index, Live, Qty;
    i := IndexIsLast(exchange.positions, k);
    j := IndexIsLast(loc.positions, k);
    AlignedExact(exchange.positions[i], loc.positions[j]);
    FlatExact(exchange.positions[i]);
    FlatExact(loc.positions[j]);
  }

  /** The verdict on a key that is not flat on both sides, by the rows of its pair. */
  lemma KeyByRows(loc: Wallet, exchange: Wallet, t: Thresholds, k: Key)
    requires var c := Align(loc, exchange, t); k in c.ex && k in c.lo && !(Flat(c.ex, k) && Flat(c.lo, k))
    ensures var c := Align(loc, exchange, t);
            exists i, j :: Paired(loc, exchange, i, j) && KeyOf(exchange.positions[i]) == k
              && Sized(loc, exchange, exchange.positions[i].symbol, StepSize(c, k), TickSize(c, k))
              && (KeyHardAgrees(c, k) <==>
                  HardNear(exchange.positions[i], loc.positions[j], StepSize(c, k), TickSize(c, k), t))
              && (KeySoftAgrees(c, k) <==> SoftNear(exchange.positions[i], loc.positions[j], t))
  {
    hide KeyHardAgrees, KeySoftAgrees, HardNear, SoftNear, Sized, KeyOf, Index, StepSize, TickSize;
    var c := Align(loc, exchange, t);
    var i, j := KeyPairs(loc, exchange, t, k);
    hide Paired;
    SizesExact(loc, exchange, t, exchange.positions[i], StepSize(c, k), TickSize(c, k));
    PairExact(loc, exchange, t, i, j, StepSize(c, k), TickSize(c, k));
  }

  ghost predicate HardByRows(loc: Wallet, exchange: Wallet, t: Thresholds) {
    AllPaired(loc, exchange)
    && forall i, j, step, tick ::
         Paired(loc, exchange, i, j) && Sized(loc, exchange, exchange.positions[i].symbol, step, tick) ==>
           HardNear(exchange.positions[i], loc.positions[j], step, tick, t)
  }

  ghost predicate SoftByRows(loc: Wallet, exchange: Wallet, t: Thresholds) {
    BalancesNear(loc, exchange, t)
    && forall i, j :: Paired(loc, exchange, i, j) ==> SoftNear(exchange.positions[i], loc.positions[j], t)
  }

  /** Every live row has a counterpart exactly when no key that is live on one side is missing on the other. */
  lemma PairingExact(loc: Wallet, exchange: Wallet, t: Thresholds)
    ensures var c := Align(loc, exchange, t);
            AllPaired(loc, exchange) <==>
            forall k :: k in Keys(c) && !(Flat(c.ex, k) && Flat(c.lo, k)) ==> k in c.ex && k in c.lo
  {
    var c := Align(loc, exchange, t);
    hide SamePosition, KeyOf, Index, Live, Qty;
    if forall k :: k in Keys(c) && !(Flat(c.ex, k) && Flat(c.lo, k)) ==> k in c.ex && k in c.lo {
      forall i | 0 <= i < |exchange.positions| && IsLast(exchange.positions, i) && Live(exchange.positions[i])
        ensures exists j :: Paired(loc, exchange, i, j)
      {
        var k := KeyOf(exchange.positions[i]);
        LastIsIndexed(exchange.positions, i);
        FlatExact(exchange.positions[i]);
        var j := IndexIsLast(loc.positions, k);
        AlignedExact(exchange.positions[i], loc.positions[j]);
        assert Paired(loc, exchange, i, j);
      }
      forall j | 0 <= j < |loc.positions| && IsLast(loc.positions, j) && Live(loc.positions[j])
        ensures exists i :: Paired(loc, exchange, i, j)
      {
        var k := KeyOf(loc.positions[j]);
        LastIsIndexed(loc.positions, j);
        FlatExact(loc.positions[j]);
        var i := IndexIsLast(exchange.positions, k);
        AlignedExact(exchange.positions[i], loc.positions[j]);
        assert Paired(loc, exchange, i, j);
      }
    }
    if AllPaired(loc, exchange) {
      forall k | k in Keys(c) && !(Flat(c.ex, k) && Flat(c.lo, k))
        ensures k in c.ex && k in c.lo
      {
        PairedKey(loc, exchange, t, k);
      }
    }
  }

  lemma PairedKey(loc: Wallet, exchange: Wallet, t: Thresholds, k: Key)
    requires AllPaired(loc, exchange)
    requires var c := Align(loc, exchange, t); k in Keys(c) && !(Flat(c.ex, k) && Flat(c.lo, k))
    ensures k in Align(loc, exchange, t).ex && k in Align(loc, exchange, t).lo
  {
    var c := Align(loc, exchange, t);
    hide SamePosition, KeyOf, Index, Live, Qty;
    if !Flat(c.ex, k) {
      var i := IndexIsLast(exchange.positions, k);
      FlatExact(exchange.positions[i]);
      var j :| Paired(loc, exchange, i, j);
      LastIsIndexed(loc.positions, j);
      AlignedExact(exchange.positions[i], loc.positions[j]);
    } else {
      var j := IndexIsLast(loc.positions, k);
      FlatExact(loc.positions[j]);
      var i :| Paired(loc, exchange, i, j);
      LastIsIndexed(exchange.positions, i);
      AlignedExact(exchange.positions[i], loc.positions[j]);
    }
  }

  /** The hard verdict: each position live on either side has a row on both, the last rows agree in signed quantity
      within the step in force and in entry price within tick or ratio, and nothing else is asked. */
  lemma HardVerdictByRows(loc: Wallet, exchange: Wallet, t: Thresholds)
    ensures HardAgrees(loc, exchange, t) <==> HardByRows(loc, exchange, t)
  {
    var c := Align(loc, exchange, t);
    PairingExact(loc, exchange, t);
    hide AllPaired, IsLast, SamePosition, Live, Sized, HardNear, SoftNear, KeySoftAgrees, KeyOf, Index;
    hide StepSize, TickSize;
    if HardAgrees(loc, exchange, t) {
      forall i, j, step, tick |
        Paired(loc, exchange, i, j) && Sized(loc, exchange, exchange.positions[i].symbol, step, tick)
        ensures HardNear(exchange.positions[i], loc.positions[j], step, tick, t)
      {
        PairExact(loc, exchange, t, i, j, step, tick);
        assert KeyHardAgrees(c, KeyOf(exchange.positions[i]));
      }
    }
    if HardByRows(loc, exchange, t) {
      forall k | k in Keys(c)
        ensures KeyHardAgrees(c, k)
      {
        if !(Flat(c.ex, k) && Flat(c.lo, k)) {
          KeyByRows(loc, exchange, t, k);
        }
      }
    }
  }

  /** The soft verdict, likewise: the nine balances, and six columns of every pair. */
  lemma SoftVerdictByRows(loc: Wallet, exchange: Wallet, t: Thresholds)
    ensures SoftAgrees(loc, exchange, t) <==> SoftByRows(loc, exchange, t)
  {
    var c := Align(loc, exchange, t);
    BalancesExact(loc, exchange, t);
    hide IsLast, SamePosition, Live, Sized, HardNear, SoftNear, KeyHardAgrees, KeyOf, Index, StepSize, TickSize;
    hide BalancesAgree, BalancesNear;
    if SoftAgrees(loc, exchange, t) {
      forall i, j | Paired(loc, exchange, i, j)
        ensures SoftNear(exchange.positions[i], loc.positions[j], t)
      {
        PairSoftExact(loc, exchange, t, i, j);
      }
    }
    if SoftByRows(loc, exchange, t) {
      forall k | k in Keys(c)
        ensures KeySoftAgrees(c, k)
      {
        if k in c.ex && k in c.lo && !(Flat(c.ex, k) && Flat(c.lo, k)) {
          KeyByRows(loc, exchange, t, k);
        }
      }
    }
  }

  lemma PairSoftExact(loc: Wallet, exchange: Wallet, t: Thresholds, i: int, j: int)
    requires SoftAgrees(loc, exchange, t) && Paired(loc, exchange, i, j)
    ensures SoftNear(exchange.positions[i], loc.positions[j], t)
  {
    hide IsLast, SamePosition, Live, Sized, HardNear, SoftNear, KeyHardAgrees, KeySoftAgrees, KeyOf, Index;
    hide StepSize, TickSize;
    var c, p := Align(loc, exchange, t), exchange.positions[i];
    SizesExact(loc, exchange, t, p, StepSize(c, KeyOf(p)), TickSize(c, KeyOf(p)));
    PairExact(loc, exchange, t, i, j, StepSize(c, KeyOf(p)), TickSize(c, KeyOf(p)));
  }
}
