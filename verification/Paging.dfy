/** Offset paging with one row fetched beyond the page to learn whether more follow. */
module Paging {

  function PageLimit(limit: int): (r: nat)
    ensures 1 <= r <= 200
  {
    if limit <= 0 then 50 else if limit > 200 then 200 else limit
  }

  function PageOffset(offset: int): nat {
    if offset < 0 then 0 else offset
  }

  function Min(x: int, y: int): int {
    if x < y then x else y
  }

  /** `LIMIT count OFFSET start` over a fixed row order. */
  function Query<T>(rows: seq<T>, count: nat, start: nat): seq<T> {
    rows[Min(start, |rows|)..Min(start + count, |rows|)]
  }

  /** A limit that is missing means 50 and one too large 200; a negative offset means the start. */
  lemma PageNormal(limit: int, offset: int)
    ensures 1 <= limit <= 200 ==> PageLimit(limit) == limit
    ensures limit <= 0 ==> PageLimit(limit) == 50
    ensures limit > 200 ==> PageLimit(limit) == 200
    ensures PageOffset(offset) >= offset && (PageOffset(offset) == 0 || PageOffset(offset) == offset)
  {
  }

  /** The page is the rows from the offset up to the limit, and `more` says exactly whether rows remain. */
  method ListPage<T>(rows: seq<T>, limit: int, offset: int) returns (items: seq<T>, total: nat, more: bool)
    ensures items == Query(rows, PageLimit(limit), PageOffset(offset))
    ensures total == |rows|
    ensures more <==> PageOffset(offset) + PageLimit(limit) < |rows|
    ensures 1 <= limit <= 200 && 0 <= offset <= |rows| ==>
              |items| <= limit && items <= rows[offset..] && (|items| < limit ==> items == rows[offset..])
              && (more <==> offset + limit < |rows|)
  {
    var n, start := PageLimit(limit), PageOffset(offset);
    total := |rows|;
    items := Query(rows, n + 1, start);
    more := |items| > n;
    if more {
      items := items[..n];
    }
  }

  /** Following the offsets while `more` holds. */
  method WalkPages<T>(rows: seq<T>, limit: int) returns (all: seq<T>)
    ensures all == rows
  {
    all := [];
    var offset, more := 0, true;
    while more
      invariant 0 <= offset
      invariant more ==> offset <= |rows| && all == rows[..offset]
      invariant !more ==> all == rows
      decreases if more then |rows| - offset + 1 else 0
    {
      var items, total;
      items, total, more := ListPage(rows, limit, offset);
      all := all + items;
      offset := offset + PageLimit(limit);
    }
  }
}
