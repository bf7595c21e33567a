/** From the exchange's symbol table to what `List` returns: keep, sort, deduplicate in place, filter. */
module SymbolList {
  import opened Text

  predicate Ascending(s: seq<string>) {
    forall i, j :: 0 <= i < j < |s| ==> Before(s[i], s[j])
  }

  /** What `sort.Strings` leaves: no element before an earlier one. */
  predicate Sorted(s: seq<string>) {
    forall i, j :: 0 <= i < j < |s| ==> s[i] == s[j] || Before(s[i], s[j])
  }

  /** The first of each run of equal neighbours. */
  function Dedup<T(==)>(s: seq<T>): seq<T> {
    if s == [] then []
    else
      var n := |s| - 1;
      if n > 0 && s[n] == s[n - 1] then Dedup(s[..n]) else Dedup(s[..n]) + [s[n]]
  }

  lemma {:induction false} DedupLast<T>(s: seq<T>)
    ensures s != [] ==> Dedup(s) != [] && Dedup(s)[|Dedup(s)| - 1] == s[|s| - 1]
    ensures |Dedup(s)| <= |s|
  {
    if s != [] {
      DedupLast(s[..|s| - 1]);
    }
  }

  /** On sorted input, deduplication keeps exactly the set of symbols, strictly ascending. */
  lemma {:induction false} DedupSortedIsAscendingSet(s: seq<string>)
    requires Sorted(s)
    ensures Ascending(Dedup(s))
    ensures forall x :: x in Dedup(s) <==> x in s
  {
    if s != [] {
      var n := |s| - 1;
      var rest := s[..n];
      DedupSortedIsAscendingSet(rest);
      assert s == rest + [s[n]];
      if n > 0 && s[n] == s[n - 1] {
        assert s[n] in rest;
      } else {
        forall i | 0 <= i < |Dedup(rest)|
          ensures Before(Dedup(rest)[i], s[n])
        {
          assert Dedup(rest)[i] in rest;
          var j :| 0 <= j < n && rest[j] == Dedup(rest)[i];
          BeforeTotal(s[n - 1], s[n]);
        }
      }
    }
  }

  function DedupTo<T(==)>(s: seq<T>, i: nat): seq<T>
    requires i <= |s|
  {
    Dedup(s[..i])
  }

  lemma DedupNext<T>(s: seq<T>, i: nat)
    requires 0 < i < |s|
    ensures DedupTo(s, i + 1) == if s[i] == s[i - 1] then DedupTo(s, i) else DedupTo(s, i) + [s[i]]
    ensures DedupTo(s, i) != [] && DedupTo(s, i)[|DedupTo(s, i)| - 1] == s[i - 1]
  {
    assert s[..i + 1][..i] == s[..i];
    DedupLast(s[..i]);
  }

  lemma DedupOne<T>(x: T)
    ensures Dedup([x]) == [x]
  {
    assert [x][..0] == [];
  }

  lemma DedupEnds<T>(s: seq<T>)
    requires s != []
    ensures DedupTo(s, 1) == [s[0]] && DedupTo(s, |s|) == Dedup(s)
  {
    DedupOne(s[0]);
    hide Dedup;
    assert s[..1] == [s[0]] && s[..|s|] == s;
  }

  /** `out := in[:1]`, then appends into the array being scanned; only equality of the elements matters. */
  method DedupInPlace<T(==)>(a: array<T>) returns (n: nat)
    modifies a
    ensures n <= a.Length && a[..n] == Dedup(old(a[..]))
  {
    if a.Length == 0 {
      return 0;
    }
    ghost var was := a[..];
    ghost var done := [was[0]];
    n := 1;
    DedupEnds(was);
    hide Dedup, DedupTo;
    for i := 1 to a.Length
      invariant 1 <= n == |done| <= i && done == DedupTo(was, i)
      invariant forall j :: 0 <= j < n ==> a[j] == done[j]
      invariant forall j :: i <= j < a.Length ==> a[j] == was[j]
    {
      DedupNext(was, i);
      if a[i] != a[n - 1] {
        done := done + [was[i]];
        a[n] := a[i];
        n := n + 1;
      }
    }
    assert a[..n] == done;
  }

  // ---- filtering ----

  function Normal(s: string): string {
    ToUpper(TrimSpace(s))
  }

  predicate Matches(s: string, query: string) {
    Normal(s) != "" && (query == "" || Contains(Normal(s), query))
  }

  function Filtered(all: seq<string>, query: string): seq<string> {
    if all == [] then []
    else
      var n := |all| - 1;
      Filtered(all[..n], query) + (if Matches(all[n], query) then [Normal(all[n])] else [])
  }

  function EffectiveLimit(limit: int): nat {
    if limit <= 0 then 80 else limit
  }

  function Take(s: seq<string>, n: nat): seq<string> {
    if n <= |s| then s[..n] else s
  }

  lemma {:induction false} FilteredPrefix(all: seq<string>, i: nat, query: string)
    requires i <= |all|
    ensures Filtered(all[..i], query) <= Filtered(all, query)
  {
    if i < |all| {
      var n := |all| - 1;
      FilteredPrefix(all[..n], i, query);
      assert all[..n][..i] == all[..i];
    } else {
      assert all[..i] == all;
    }
  }

  /** Appends matches in order and stops as soon as `limit` have been found. */
  method FilterSymbols(all: seq<string>, query: string, limit: int) returns (out: seq<string>)
    ensures out == Take(Filtered(all, query), EffectiveLimit(limit))
    ensures if limit > 0 then |out| <= limit else |out| <= 80
  {
    hide Matches, Normal;
    var max := if limit <= 0 then 80 else limit;
    out := [];
    for i := 0 to |all|
      invariant out == Filtered(all[..i], query) && |out| < max
    {
      assert all[..i + 1][..i] == all[..i];
      var su := Normal(all[i]);
      if Matches(all[i], query) {
        out := out + [su];
        if |out| >= max {
          FilteredPrefix(all, i + 1, query);
          return;
        }
      }
    }
    assert all[..|all|] == all;
  }

  // ---- the whole pipeline ----

  function ListLimit(limit: int): nat {
    if limit <= 0 || limit > 500 then 80 else limit
  }

  function Query(query: string): string {
    TrimSpace(ToUpper(query))
  }

  /** What `List` makes of the symbols it holds. */
  function AnswerOf(symbols: seq<string>, query: string, limit: int): seq<string> {
    Take(Filtered(symbols, Query(query)), ListLimit(limit))
  }

  /** The tail of `List`, over its copy of the cached symbols. */
  method AnswerFrom(symbols: seq<string>, query: string, limit: int) returns (out: seq<string>)
    ensures out == AnswerOf(symbols, query, limit)
  {
    out := FilterSymbols(symbols, Query(query), ListLimit(limit));
  }

  /** The symbol is already upper case, trimmed and not blank, as exchange symbols are. */
  predicate Plain(s: string) {
    s != "" && Normal(s) == s
  }

  lemma {:induction false} FilteredPlain(all: seq<string>, query: string)
    requires Ascending(all) && forall s :: s in all ==> Plain(s)
    ensures Ascending(Filtered(all, query))
    ensures forall x :: x in Filtered(all, query) <==> x in all && (query == "" || Contains(x, query))
  {
    if all != [] {
      var n := |all| - 1;
      assert all == all[..n] + [all[n]] && all[n] in all;
      FilteredPlain(all[..n], query);
      forall x | x in Filtered(all[..n], query)
        ensures Before(x, all[n])
      {
        var j :| 0 <= j < n && all[..n][j] == x;
        assert Before(all[j], all[n]);
      }
    }
  }

  /** What a fetch delivers: distinct plain symbols in ascending order. */
  predicate Tabled(all: seq<string>) {
    Ascending(all) && forall s :: s in all ==> Plain(s)
  }

  /** `out` is strictly ascending, all of it listed in `all` and matching, no longer than `limit`, and leaves out
      nothing that matches unless it is full and everything in it sorts before. */
  ghost predicate FirstMatches(out: seq<string>, all: seq<string>, query: string, limit: nat) {
    && Ascending(out) && |out| <= limit
    && (forall x :: x in out ==> x in all && (query == "" || Contains(x, query)))
    && (forall x :: x in all && (query == "" || Contains(x, query)) && x !in out ==>
          |out| == limit && forall y :: y in out ==> Before(y, x))
  }

  lemma TabledFirstMatches(all: seq<string>, query: string, limit: nat)
    requires Tabled(all)
    ensures FirstMatches(Take(Filtered(all, query), limit), all, query, limit)
  {
    hide Contains, Plain, Before;
    FilteredPlain(all, query);
    var matches := Filtered(all, query);
    var out := Take(matches, limit);
    hide Filtered;
    forall x | x in all && (query == "" || Contains(x, query)) && x !in out
      ensures |out| == limit && forall y :: y in out ==> Before(y, x)
    {
      assert x in matches;
      var j :| 0 <= j < |matches| && matches[j] == x;
      assert limit <= j;
    }
  }

  // ---- the caller's own query and limit ----

  /** The query, without its padding, occurs in the symbol up to case. */
  ghost predicate Mentions(symbol: string, query: string) {
    var q := TrimSpace(query);
    exists i :: 0 <= i <= |symbol| && |q| <= |symbol[i..]| && SameText(symbol[i..][..|q|], q)
  }

  lemma MentionsExact(symbol: string, query: string)
    requires ToUpper(symbol) == symbol
    ensures Contains(symbol, Query(query)) <==> Mentions(symbol, query)
  {
    var q := TrimSpace(query);
    TrimUpperCommute(query);
    ContainsExact(symbol, Query(query));
    hide TrimSpace, Contains, SameText;
    forall i | 0 <= i <= |symbol| && |q| <= |symbol[i..]|
      ensures ToUpper(q) <= symbol[i..] <==> SameText(symbol[i..][..|q|], q)
    {
      var part := symbol[i..][..|q|];
      assert ToUpper(part) == part;
      ToUpperForgetsCase(part, q);
    }
  }

  /** `out` is what a caller who gave this query and this limit may expect of the table: strictly ascending, all of it
      listed and mentioning the query, and nothing that mentions it left out unless `out` is full and everything in it
      sorts before. Limits outside 1 to 500 mean 80. */
  ghost predicate FirstFor(out: seq<string>, all: seq<string>, query: string, limit: int) {
    var max := if 1 <= limit <= 500 then limit else 80;
    && Ascending(out) && |out| <= max
    && (forall x :: x in out ==> x in all && Mentions(x, query))
    && (forall x :: x in all && Mentions(x, query) && x !in out ==>
          |out| == max && forall y :: y in out ==> Before(y, x))
  }

  lemma PlainIsUpper(s: string)
    requires Plain(s)
    ensures ToUpper(s) == s
  {
    hide TrimSpace;
    ToUpperIdempotent(TrimSpace(s));
  }

  /** The answer made of a table is the first mentions of the caller's query, up to the caller's limit. */
  lemma AnswerExact(all: seq<string>, query: string, limit: int)
    requires Tabled(all)
    ensures FirstFor(AnswerOf(all, query, limit), all, query, limit)
  {
    TabledFirstMatches(all, Query(query), ListLimit(limit));
    forall x | x in all
      ensures Query(query) == "" || Contains(x, Query(query)) <==> Mentions(x, query)
    {
      PlainIsUpper(x);
      MentionsExact(x, query);
      EmptyOccurs(x);
    }
    hide Contains, Mentions, Query, Plain, Before, Filtered;
  }

  lemma EmptyOccurs(s: string)
    ensures Contains(s, "")
  {
  }

  /** Case and padding of the query make no difference, whatever the symbols. */
  lemma QuerySpelling(symbols: seq<string>, a: string, b: string, limit: int)
    requires SameText(TrimSpace(a), TrimSpace(b))
    ensures AnswerOf(symbols, a, limit) == AnswerOf(symbols, b, limit)
  {
    TrimUpperCommute(a);
    TrimUpperCommute(b);
    hide TrimSpace;
    ToUpperForgetsCase(TrimSpace(a), TrimSpace(b));
  }

  /** From the symbols kept of the exchange's table to the answer: sorting and deduplicating make a table of the
      same symbols, and the answer is its first mentions of the query. */
  lemma ListIsFirstMatches(fetched: seq<string>, sorted: seq<string>, query: string, limit: int)
    requires Sorted(sorted) && multiset(sorted) == multiset(fetched)
    requires forall s :: s in fetched ==> Plain(s)
    ensures Tabled(Dedup(sorted)) && forall x :: x in Dedup(sorted) <==> x in fetched
    ensures FirstFor(AnswerOf(Dedup(sorted), query, limit), fetched, query, limit)
  {
    hide Plain, Before, AnswerOf, Mentions;
    DedupSortedIsAscendingSet(sorted);
    assert forall x :: x in sorted <==> x in multiset(sorted);
    assert forall x :: x in fetched <==> x in multiset(fetched);
    hide Dedup;
    AnswerExact(Dedup(sorted), query, limit);
  }
}
