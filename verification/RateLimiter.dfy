/** The sliding-window limiter: what it decides, and why forgetting old hits never changes a decision. */
module RateLimit {

  /** The hits strictly later than `cutoff`, in order. */
  function After(hits: seq<int>, cutoff: int): seq<int> {
    if hits == [] then []
    else
      var n := |hits| - 1;
      After(hits[..n], cutoff) + (if hits[n] > cutoff then [hits[n]] else [])
  }

  predicate Admits(hits: seq<int>, now: int, limit: int, window: int) {
    limit > 0 && window > 0 && |After(hits, now - window)| < limit
  }

  function At(hit: map<string, seq<int>>, key: string): seq<int> {
    if key in hit then hit[key] else []
  }

  /** What one call leaves stored: disabled calls touch nothing, others prune, admitted ones append. */
  function Store(hit: map<string, seq<int>>, key: string, now: int, limit: int, window: int): map<string, seq<int>> {
    if limit <= 0 || window <= 0 then hit
    else
      var kept := After(At(hit, key), now - window);
      hit[key := if |kept| < limit then kept + [now] else kept]
  }

  datatype Call = Call(key: string, now: int, limit: int)

  /** What the limiter stores after the calls. */
  function Run(calls: seq<Call>, window: int): map<string, seq<int>> {
    if calls == [] then map[]
    else
      var c := calls[|calls| - 1];
      Store(Run(calls[..|calls| - 1], window), c.key, c.now, c.limit, window)
  }

  /** What a limiter that never forgets an admitted call holds for `key` after the same calls. */
  function History(calls: seq<Call>, window: int, key: string): seq<int> {
    if calls == [] then []
    else
      var c, before := calls[|calls| - 1], History(calls[..|calls| - 1], window, key);
      if c.key == key && Admits(before, c.now, c.limit, window) then before + [c.now] else before
  }

  /** The decision on the last call. */
  predicate LastAdmitted(calls: seq<Call>, window: int)
    requires calls != []
  {
    var c := calls[|calls| - 1];
    Admits(At(Run(calls[..|calls| - 1], window), c.key), c.now, c.limit, window)
  }

  /** Within each key, calls take the lock in the order of their timestamps. */
  ghost predicate Ordered(calls: seq<Call>) {
    forall i, j :: 0 <= i < j < |calls| && calls[i].key == calls[j].key ==> calls[i].now <= calls[j].now
  }

  // ---- filtering ----

  lemma AfterPush(hits: seq<int>, t: int, cutoff: int)
    ensures After(hits + [t], cutoff) == After(hits, cutoff) + (if t > cutoff then [t] else [])
  {
    assert (hits + [t])[..|hits|] == hits;
  }

  lemma {:induction false} AfterTwice(hits: seq<int>, early: int, late: int)
    requires early <= late
    ensures After(After(hits, early), late) == After(hits, late)
  {
    if hits != [] {
      var n := |hits| - 1;
      AfterTwice(hits[..n], early, late);
      if hits[n] > early {
        AfterPush(After(hits[..n], early), hits[n], late);
      } else {
        assert After(hits, early) == After(hits[..n], early);
      }
    }
  }

  lemma {:induction false} AfterMembers(hits: seq<int>, cutoff: int, t: int)
    ensures t in After(hits, cutoff) <==> t in hits && t > cutoff
  {
    if hits != [] {
      AfterMembers(hits[..|hits| - 1], cutoff, t);
      assert hits == hits[..|hits| - 1] + [hits[|hits| - 1]];
    }
  }

  // ---- pruning is invisible ----

  /** From `from` on, no cutoff can tell the two lists apart. */
  ghost predicate Agree(stored: seq<int>, full: seq<int>, from: int) {
    forall c :: c >= from ==> After(stored, c) == After(full, c)
  }

  lemma AgreeAfterCall(stored: seq<int>, full: seq<int>, now: int, limit: int, window: int)
    requires limit > 0 && window > 0 && Agree(stored, full, now - window)
    ensures Admits(stored, now, limit, window) == Admits(full, now, limit, window)
    ensures var kept := After(stored, now - window);
            Agree(if Admits(stored, now, limit, window) then kept + [now] else kept,
                  if Admits(stored, now, limit, window) then full + [now] else full, now - window)
  {
    var kept := After(stored, now - window);
    forall c | c >= now - window
      ensures After(kept, c) == After(full, c)
      ensures After(kept + [now], c) == After(full + [now], c)
    {
      AfterTwice(stored, now - window, c);
      AfterPush(kept, now, c);
      AfterPush(full, now, c);
    }
  }

  lemma AgreeLater(stored: seq<int>, full: seq<int>, from: int, later: int)
    requires Agree(stored, full, from) && from <= later
    ensures Agree(stored, full, later)
  {
  }

  lemma AgreeOnNothing(from: int)
    ensures Agree([], [], from)
  {
  }

  /** After any ordered calls the store and the full history agree on every window a later call of the
      key can ask about. */
  lemma {:induction false} StoreAgreesWithHistory(calls: seq<Call>, window: int, key: string, now: int)
    requires Ordered(calls)
    requires forall i :: 0 <= i < |calls| && calls[i].key == key ==> calls[i].now <= now
    ensures Agree(At(Run(calls, window), key), History(calls, window, key), now - window)
  {
    hide Agree, After;
    if calls == [] {
      AgreeOnNothing(now - window);
    } else {
      var n := |calls| - 1;
      var rest, c := calls[..n], calls[n];
      if c.key == key && c.limit > 0 && window > 0 {
        StoreAgreesWithHistory(rest, window, key, c.now);
        AgreeAfterCall(At(Run(rest, window), key), History(rest, window, key), c.now, c.limit, window);
        AgreeLater(At(Run(calls, window), key), History(calls, window, key), c.now - window, now - window);
      } else {
        StoreAgreesWithHistory(rest, window, key, now);
      }
    }
  }

  /** The pruned store and the full history decide every call of an ordered run alike. */
  lemma PruningIsInvisible(calls: seq<Call>, window: int)
    requires calls != [] && Ordered(calls)
    ensures var c := calls[|calls| - 1];
            LastAdmitted(calls, window) == Admits(History(calls[..|calls| - 1], window, c.key), c.now, c.limit, window)
  {
    var n := |calls| - 1;
    var c := calls[n];
    StoreAgreesWithHistory(calls[..n], window, c.key, c.now);
    if c.limit > 0 && window > 0 {
      AgreeAfterCall(At(Run(calls[..n], window), c.key), History(calls[..n], window, c.key), c.now, c.limit, window);
    }
  }

  lemma {:induction false} HistoryIsPast(calls: seq<Call>, window: int, key: string, now: int)
    requires forall i :: 0 <= i < |calls| && calls[i].key == key ==> calls[i].now <= now
    ensures forall t :: t in History(calls, window, key) ==> t <= now
  {
    if calls != [] {
      HistoryIsPast(calls[..|calls| - 1], window, key, now);
    }
  }

  /** The positions of the hits later than `from` and no later than `to`. */
  function Between(hits: seq<int>, from: int, to: int): set<int> {
    set i | 0 <= i < |hits| && from < hits[i] <= to
  }

  lemma {:induction false} AfterCounts(hits: seq<int>, cutoff: int, to: int)
    requires forall i :: 0 <= i < |hits| ==> hits[i] <= to
    ensures |After(hits, cutoff)| == |Between(hits, cutoff, to)|
  {
    if hits == [] {
      assert Between(hits, cutoff, to) == {};
    } else {
      var n := |hits| - 1;
      var rest := hits[..n];
      AfterCounts(rest, cutoff, to);
      assert Between(hits, cutoff, to) == Between(rest, cutoff, to) + (if hits[n] > cutoff then {n} else {});
    }
  }

  /** The decision, told by the past alone: a call of an ordered run is admitted exactly when limit and window are
      positive and fewer than `limit` calls of its key were admitted in (now - window, now]. */
  lemma DecisionExact(calls: seq<Call>, window: int)
    requires calls != [] && Ordered(calls)
    ensures var c := calls[|calls| - 1];
            var admitted := History(calls[..|calls| - 1], window, c.key);
            LastAdmitted(calls, window) <==>
            c.limit > 0 && window > 0 && |Between(admitted, c.now - window, c.now)| < c.limit
  {
    hide Run, History, LastAdmitted, Admits, Between;
    var rest, c := calls[..|calls| - 1], calls[|calls| - 1];
    PruningIsInvisible(calls, window);
    HistoryIsPast(rest, window, c.key, c.now);
    AdmitsExact(History(rest, window, c.key), c.now, c.limit, window);
  }

  lemma HistoryGrows(calls: seq<Call>, window: int)
    requires calls != [] && Ordered(calls) && LastAdmitted(calls, window)
    ensures var rest, c := calls[..|calls| - 1], calls[|calls| - 1];
            && Admits(History(rest, window, c.key), c.now, c.limit, window)
            && History(calls, window, c.key) == History(rest, window, c.key) + [c.now]
  {
    PruningIsInvisible(calls, window);
    hide Run, Admits, LastAdmitted;
  }

  /** An admitted call leaves at most its own limit of admitted calls of its key in (now - window, now], and none
      later. */
  lemma WindowNeverOverfull(calls: seq<Call>, window: int)
    requires calls != [] && Ordered(calls) && LastAdmitted(calls, window)
    ensures var c := calls[|calls| - 1];
            var admitted := History(calls, window, c.key);
            && |After(admitted, c.now - window)| <= c.limit
            && |Between(admitted, c.now - window, c.now)| == |After(admitted, c.now - window)|
            && forall t :: t in admitted ==> t <= c.now
  {
    hide Run, History, LastAdmitted, After, Between;
    var rest, c := calls[..|calls| - 1], calls[|calls| - 1];
    var admitted := History(calls, window, c.key);
    HistoryGrows(calls, window);
    HistoryIsPast(calls, window, c.key, c.now);
    AfterPush(History(rest, window, c.key), c.now, c.now - window);
    assert forall i :: 0 <= i < |admitted| ==> admitted[i] in admitted;
    AfterCounts(admitted, c.now - window, c.now);
  }

  lemma AdmitsExact(hits: seq<int>, now: int, limit: int, window: int)
    requires forall t :: t in hits ==> t <= now
    ensures Admits(hits, now, limit, window) <==>
            limit > 0 && window > 0 && |Between(hits, now - window, now)| < limit
  {
    hide After, Between;
    assert forall i :: 0 <= i < |hits| ==> hits[i] in hits;
    AfterCounts(hits, now - window, now);
  }

  lemma RunPush(calls: seq<Call>, c: Call, window: int)
    ensures Run(calls + [c], window) == Store(Run(calls, window), c.key, c.now, c.limit, window)
    ensures var before := History(calls, window, c.key);
            History(calls + [c], window, c.key)
            == if Admits(before, c.now, c.limit, window) then before + [c.now] else before
    ensures LastAdmitted(calls + [c], window) == Admits(At(Run(calls, window), c.key), c.now, c.limit, window)
  {
    assert (calls + [c])[..|calls|] == calls;
  }

  /** Three calls of one key, the last with an earlier timestamp than the second. */
  const EARLY := Call("k", 0, 1)
  const LATE := Call("k", 20, 1)
  const BACK := Call("k", 5, 2)

  lemma AfterFew(t: int, cutoff: int)
    ensures After([], cutoff) == [] && After([t], cutoff) == if t > cutoff then [t] else []
  {
    AfterPush([], t, cutoff);
    assert [] + [t] == [t];
  }

  lemma AtTheStart(window: int, key: string)
    ensures Run([], window) == map[] && History([], window, key) == []
  {
  }

  lemma AfterEarly()
    ensures Run([EARLY], 10) == map["k" := [0]] && History([EARLY], 10, "k") == [0]
  {
    AtTheStart(10, "k");
    RunPush([], EARLY, 10);
    AfterFew(0, -10);
    hide After, Run, History, LastAdmitted;
    assert [] + [EARLY] == [EARLY] && [] + [0] == [0];
  }

  lemma AfterEarlyAndLate()
    ensures At(Run([EARLY, LATE], 10), "k") == [20]
    ensures History([EARLY, LATE], 10, "k") == [0, 20]
  {
    AfterEarly();
    RunPush([EARLY], LATE, 10);
    AfterFew(0, 10);
    hide After, Run, History, LastAdmitted;
    assert [EARLY] + [LATE] == [EARLY, LATE] && [] + [20] == [20] && [0] + [20] == [0, 20];
  }

  /** Without the order the store can forget a hit that an earlier timestamp still needs. */
  lemma UnorderedClockAdmitsTooMany()
    ensures !Ordered([EARLY, LATE] + [BACK])
    ensures LastAdmitted([EARLY, LATE] + [BACK], 10)
    ensures !Admits(History([EARLY, LATE], 10, BACK.key), BACK.now, BACK.limit, 10)
  {
    hide Run, History, LastAdmitted;
    AfterEarlyAndLate();
    RunPush([EARLY, LATE], BACK, 10);
    AfterFew(20, -5);
    AfterFew(0, -5);
    AfterPush([0], 20, -5);
    hide After;
    assert [0] + [20] == [0, 20];
    assert ([EARLY, LATE] + [BACK])[1] == LATE && ([EARLY, LATE] + [BACK])[2] == BACK;
  }

  /** The latest cutoff the store of `key` was pruned at; None before its first enabled call. */
  function LastCutoff(calls: seq<Call>, window: int, key: string): (int, bool) {
    if calls == [] then (0, false)
    else
      var c := calls[|calls| - 1];
      if c.key == key && c.limit > 0 && window > 0 then (c.now - window, true)
      else LastCutoff(calls[..|calls| - 1], window, key)
  }

  lemma {:induction false} LastCutoffIsPast(calls: seq<Call>, window: int, key: string, now: int)
    requires forall i :: 0 <= i < |calls| && calls[i].key == key ==> calls[i].now <= now
    ensures LastCutoff(calls, window, key).1 ==> window > 0 && LastCutoff(calls, window, key).0 <= now - window
  {
    if calls != [] {
      LastCutoffIsPast(calls[..|calls| - 1], window, key, now);
    }
  }

  /** On an ordered run the store is the history filtered at the last cutoff. */
  lemma {:induction false} StoreIsFilteredHistory(calls: seq<Call>, window: int, key: string)
    requires Ordered(calls)
    ensures var (cutoff, pruned) := LastCutoff(calls, window, key);
            var stored, full := At(Run(calls, window), key), History(calls, window, key);
            if pruned then stored == After(full, cutoff) else stored == [] && full == []
  {
    hide After;
    if calls != [] {
      var n := |calls| - 1;
      var rest, c := calls[..n], calls[n];
      StoreIsFilteredHistory(rest, window, key);
      if c.key == key && c.limit > 0 && window > 0 {
        var cutoff, full := c.now - window, History(rest, window, key);
        LastCutoffIsPast(rest, window, key, c.now);
        AfterPush(full, c.now, cutoff);
        StoreAgreesWithHistory(rest, window, key, c.now);
        assert After(At(Run(rest, window), key), cutoff) == After(full, cutoff);
      }
    }
  }

  lemma {:induction false} AfterSubset(hits: seq<int>, early: int, late: int)
    requires early <= late
    ensures |After(hits, late)| <= |After(hits, early)|
    ensures |After(hits, late)| == |After(hits, early)| <==> forall t :: t in hits ==> !(early < t <= late)
    ensures After(After(hits, late), early) == After(hits, late)
  {
    if hits != [] {
      var n := |hits| - 1;
      AfterSubset(hits[..n], early, late);
      assert hits == hits[..n] + [hits[n]];
      assert forall t :: t in hits <==> t in hits[..n] || t == hits[n];
      if hits[n] > late {
        AfterPush(After(hits[..n], late), hits[n], early);
      } else {
        assert After(hits, late) == After(hits[..n], late);
        if hits[n] > early {
          assert hits[n] in hits;
        } else {
          assert After(hits, early) == After(hits[..n], early);
        }
      }
    }
  }

  /** The first call to arrive with a late timestamp is decided as by the full history, whatever its
      limit, exactly when no admitted call lies between its own window start and the last cutoff. */
  lemma LateCallExact(calls: seq<Call>, window: int, key: string, now: int)
    requires Ordered(calls) && window > 0
    ensures var stored, full := At(Run(calls, window), key), History(calls, window, key);
            var (cutoff, pruned) := LastCutoff(calls, window, key);
            (forall limit: int :: Admits(stored, now, limit, window) == Admits(full, now, limit, window))
            <==> (pruned ==> forall t :: t in full ==> !(now - window < t <= cutoff))
  {
    var stored, full := At(Run(calls, window), key), History(calls, window, key);
    var (cutoff, pruned) := LastCutoff(calls, window, key);
    hide After, Run, History, LastCutoff;
    StoreIsFilteredHistory(calls, window, key);
    if pruned {
      if cutoff <= now - window {
        AfterTwice(full, cutoff, now - window);
      } else {
        AfterSubset(full, now - window, cutoff);
        var many := |After(full, now - window)|;
        assert Admits(full, now, many, window) == false;
        assert |After(stored, now - window)| < many && many > 0 ==> Admits(stored, now, many, window);
      }
    }
  }

  // ---- keys are independent ----

  function Only(calls: seq<Call>, key: string): seq<Call> {
    if calls == [] then []
    else Only(calls[..|calls| - 1], key) + (if calls[|calls| - 1].key == key then [calls[|calls| - 1]] else [])
  }

  /** What is stored for a key depends on the calls of that key alone. */
  lemma {:induction false} KeysAreIndependent(calls: seq<Call>, window: int, key: string)
    ensures At(Run(calls, window), key) == At(Run(Only(calls, key), window), key)
  {
    if calls != [] {
      var n := |calls| - 1;
      KeysAreIndependent(calls[..n], window, key);
      if calls[n].key == key {
        var mine := Only(calls[..n], key);
        assert (mine + [calls[n]])[..|mine|] == mine;
      } else {
        assert Only(calls, key) == Only(calls[..n], key);
      }
    }
  }

  // ---- the limiter itself ----

  /** A Go slice of timestamps: a backing array and how much of it is in use. */
  datatype Slice = Slice(buf: array<int>, len: nat)

  class RateLimiter {
    var hit: map<string, Slice>
    ghost var owner: map<array<int>, string>      // which key each backing array serves: none is shared
    ghost var contents: map<string, seq<int>>     // the hits of each key, as a value

    ghost predicate Valid()
      reads this, owner.Keys
    {
      contents.Keys == hit.Keys
      && forall k :: k in hit ==>
           hit[k].buf in owner && owner[hit[k].buf] == k
           && hit[k].len <= hit[k].buf.Length && hit[k].buf[..hit[k].len] == contents[k]
    }

    constructor ()
      ensures Valid() && owner == map[] && contents == map[]
    {
      hit, owner, contents := map[], map[], map[];
    }

    /** `keep := hits[:0]`: later hits are written over the front of the array they are read from. */
    static method Compact(hits: Slice, cutoff: int) returns (n: nat)
      requires hits.len <= hits.buf.Length
      modifies hits.buf
      ensures n <= hits.len && hits.buf[..n] == After(old(hits.buf[..hits.len]), cutoff)
    {
      var buf := hits.buf;
      ghost var was := buf[..hits.len];
      n := 0;
      for i := 0 to hits.len
        invariant n <= i
        invariant buf[..n] == After(was[..i], cutoff)
        invariant forall j :: i <= j < hits.len ==> buf[j] == was[j]
      {
        assert was[..i + 1][..i] == was[..i];
        if buf[i] > cutoff {
          buf[n] := buf[i];
          n := n + 1;
        }
      }
      assert was[..hits.len] == was;
    }

    /** `append`: in place while the array has room, else into a new array of twice the size. */
    static method Append(hits: Slice, t: int) returns (r: Slice)
      requires hits.len <= hits.buf.Length
      modifies hits.buf
      ensures r.len == hits.len + 1 <= r.buf.Length
      ensures r.buf[..r.len] == old(hits.buf[..hits.len]) + [t]
      ensures r.buf == hits.buf || fresh(r.buf)
    {
      if hits.len < hits.buf.Length {
        hits.buf[hits.len] := t;
        r := Slice(hits.buf, hits.len + 1);
        assert r.buf[..r.len] == r.buf[..hits.len] + [t];
      } else {
        var bigger := new int[2 * hits.len + 1];
        for i := 0 to hits.len
          invariant bigger[..i] == hits.buf[..i]
          modifies bigger
        {
          bigger[i] := hits.buf[i];
        }
        bigger[hits.len] := t;
        r := Slice(bigger, hits.len + 1);
        assert r.buf[..r.len] == r.buf[..hits.len] + [t];
      }
    }

    method Load(key: string) returns (hits: Slice)
      requires Valid()
      ensures hits.len <= hits.buf.Length && hits.buf[..hits.len] == At(contents, key)
      ensures if key in hit then hits == hit[key] else fresh(hits.buf)
    {
      if key in hit {
        hits := hit[key];
      } else {
        var empty := new int[0];
        hits := Slice(empty, 0);
      }
    }

    method Allow(key: string, now: int, limit: int, window: int) returns (ok: bool)
      requires Valid()
      modifies this, owner.Keys
      ensures Valid() && fresh(owner.Keys - old(owner.Keys))
      ensures contents == Store(old(contents), key, now, limit, window)
      ensures ok == Admits(At(old(contents), key), now, limit, window)
    {
      hide After;
      if limit <= 0 || window <= 0 {
        return false;
      }
      var hits := Load(key);
      var n := Compact(hits, now - window);
      var keep := Slice(hits.buf, n);
      ok := n < limit;
      if ok {
        keep := Append(keep, now);
      }
      Save(key, keep);
    }

    /** Stores the slice of `key`; the other keys are as `contents` says. */
    method Save(key: string, hits: Slice)
      requires hits.len <= hits.buf.Length && (hits.buf in owner ==> owner[hits.buf] == key)
      requires contents.Keys == hit.Keys
      requires forall k :: k in hit && k != key ==>
                 hit[k].buf in owner && owner[hit[k].buf] == k
                 && hit[k].len <= hit[k].buf.Length && hit[k].buf[..hit[k].len] == contents[k]
      modifies this
      ensures Valid() && owner == old(owner)[hits.buf := key]
      ensures contents == old(contents)[key := hits.buf[..hits.len]]
    {
      hit := hit[key := hits];
      owner := owner[hits.buf := key];
      contents := contents[key := hits.buf[..hits.len]];
    }
  }
}
