/** Records and arithmetic that several components share. */
module Domain {

  /** A futures position; quantities are signed, and zero quantity is a flat row. */
  datatype Position = Position(symbol: string, side: string, qty: real, positionQty: real, initialBalance: real,
                               leverage: real, entryPrice: real, unrealizedPnl: real, initialMargin: real,
                               positionInitialMargin: real, openOrderInitialMargin: real, maintMargin: real,
                               liquidationPrice: real, markPrice: real, breakEvenPrice: real, isolatedWallet: real,
                               notional: real)

  function Abs(x: real): real {
    if x < 0.0 then -x else x
  }

  function Max(x: real, y: real): real {
    if x < y then y else x
  }

  /** Magnitude and maximum, told by what they bound. */
  lemma AbsAndMax(x: real, y: real)
    ensures 0.0 <= Abs(x) && (Abs(x) == x || Abs(x) == -x)
    ensures x <= Max(x, y) && y <= Max(x, y) && (Max(x, y) == x || Max(x, y) == y)
  {
  }
}
