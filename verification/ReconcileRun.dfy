/** One reconciliation run: venue snapshots aligned by id, compared, and folded into a verdict. */
module ReconcileRun {
  import opened Wrappers
  import opened ReconcileModel
  import opened Reconcile

  datatype VenueSnapshot = VenueSnapshot(venueId: int, exchange: int, environment: int, market: int, wallet: Wallet)

  datatype VenueDiff = VenueDiff(venueId: int, exchange: int, environment: int, market: int,
                                 exchangeWallet: Option<Wallet>, localWallet: Option<Wallet>,
                                 fieldDiffs: seq<FieldDiff>, advisoryDiffs: seq<FieldDiff>,
                                 hardPass: bool, softPass: bool)

  /** Snapshots by venue; a later one replaces an earlier one. */
  function ByVenue(vs: seq<VenueSnapshot>): map<int, VenueSnapshot> {
    if vs == [] then map[] else ByVenue(vs[..|vs| - 1])[vs[|vs| - 1].venueId := vs[|vs| - 1]]
  }

  lemma {:induction false} ByVenueHas(vs: seq<VenueSnapshot>, i: nat)
    requires i < |vs|
    ensures vs[i].venueId in ByVenue(vs)
  {
    if i < |vs| - 1 {
      ByVenueHas(vs[..|vs| - 1], i);
    }
  }

  /** The snapshot that counts for a venue is the last one of its id. */
  lemma {:induction false} ByVenueIsLast(vs: seq<VenueSnapshot>, v: int) returns (i: nat)
    requires v in ByVenue(vs)
    ensures i < |vs| && vs[i].venueId == v && ByVenue(vs)[v] == vs[i]
    ensures forall j :: i < j < |vs| ==> vs[j].venueId != v
  {
    i := |vs| - 1;
    if vs[i].venueId != v {
      i := ByVenueIsLast(vs[..|vs| - 1], v);
    }
  }

  function WalletAt(side: map<int, VenueSnapshot>, v: int): Option<Wallet> {
    if v in side then Some(side[v].wallet) else None
  }

  /** `d` is the record of venue `d.venueId`: the full comparison, or one failed presence diff. */
  ghost predicate Records(d: VenueDiff, lo: map<int, VenueSnapshot>, ex: map<int, VenueSnapshot>, t: Thresholds) {
    var v := d.venueId;
    && (v in lo || v in ex)
    && var meta := if v in lo then lo[v] else ex[v];
    && d.exchange == meta.exchange && d.environment == meta.environment && d.market == meta.market
    && d.localWallet == WalletAt(lo, v) && d.exchangeWallet == WalletAt(ex, v)
    && if v in lo && v in ex then
         && multiset(d.fieldDiffs) == AllDiffs(lo[v].wallet, ex[v].wallet, t, false)
         && multiset(d.advisoryDiffs) == AllDiffs(lo[v].wallet, ex[v].wallet, t, true)
         && (d.hardPass <==> HardAgrees(lo[v].wallet, ex[v].wallet, t))
         && (d.softPass <==> SoftAgrees(lo[v].wallet, ex[v].wallet, t))
       else
         && d.fieldDiffs == [FieldDiff(VenueExists, Hard, Presence(v in ex), Presence(v in lo), 1.0, 0.0, ExactMatch,
                                       false)]
         && d.advisoryDiffs == [] && !d.hardPass && !d.softPass
  }

  method IndexVenues(vs: seq<VenueSnapshot>) returns (out: map<int, VenueSnapshot>)
    ensures out == ByVenue(vs)
  {
    out := map[];
    for i := 0 to |vs|
      invariant out == ByVenue(vs[..i])
    {
      assert vs[..i + 1][..i] == vs[..i];
      out := out[vs[i].venueId := vs[i]];
    }
    assert vs[..|vs|] == vs;
  }

  method CompareVenue(lo: map<int, VenueSnapshot>, ex: map<int, VenueSnapshot>, v: int, t: Thresholds)
    returns (d: VenueDiff)
    requires v in lo || v in ex
    ensures d.venueId == v && Records(d, lo, ex, t)
  {
    hide HardAgrees, SoftAgrees, AllDiffs;
    var meta := if v in lo then lo[v] else ex[v];
    d := VenueDiff(v, meta.exchange, meta.environment, meta.market, WalletAt(ex, v), WalletAt(lo, v), [], [], true,
                   true);
    if v !in lo || v !in ex {
      d := d.(hardPass := false, softPass := false,
              fieldDiffs := d.fieldDiffs + [FieldDiff(VenueExists, Hard, Presence(v in ex), Presence(v in lo), 1.0, 0.0,
                                                      ExactMatch, false)]);
      return;
    }
    var result := Compare(lo[v].wallet, ex[v].wallet, t);
    d := d.(fieldDiffs := result.fieldDiffs, advisoryDiffs := result.advisoryDiffs,
            hardPass := result.hardPass, softPass := result.softPass);
  }

  /** One record per venue id of either side, in whatever order the ids are visited. */
  method CompareVenues(loc: seq<VenueSnapshot>, exchange: seq<VenueSnapshot>, t: Thresholds)
    returns (out: seq<VenueDiff>)
    ensures forall i :: 0 <= i < |out| ==> Records(out[i], ByVenue(loc), ByVenue(exchange), t)
    ensures forall v :: v in ByVenue(loc) || v in ByVenue(exchange) ==>
              exists i :: 0 <= i < |out| && out[i].venueId == v
    ensures forall i, j :: 0 <= i < j < |out| ==> out[i].venueId != out[j].venueId
  {
    hide Records;
    out := [];
    if |loc| == 0 && |exchange| == 0 {
      return;
    }
    var lo := IndexVenues(loc);
    var ex := IndexVenues(exchange);
    var todo := lo.Keys + ex.Keys;
    while todo != {}
      invariant todo <= lo.Keys + ex.Keys
      invariant forall i :: 0 <= i < |out| ==> Records(out[i], lo, ex, t) && out[i].venueId !in todo
      invariant forall v :: v in lo.Keys + ex.Keys && v !in todo ==> exists i :: 0 <= i < |out| && out[i].venueId == v
      invariant forall i, j :: 0 <= i < j < |out| ==> out[i].venueId != out[j].venueId
      decreases todo
    {
      var v := Pick(todo);
      var d := CompareVenue(lo, ex, v, t);
      ghost var before := out;
      out := out + [d];
      todo := todo - {v};
      assert out[|before|].venueId == v && forall i :: 0 <= i < |before| ==> out[i] == before[i];
    }
  }

  /** Both sides report the same venues, and every venue agrees. */
  ghost predicate RunHardAgrees(loc: seq<VenueSnapshot>, exchange: seq<VenueSnapshot>, t: Thresholds) {
    ByVenue(loc).Keys == ByVenue(exchange).Keys
    && forall v :: v in ByVenue(loc) && v in ByVenue(exchange) ==>
         HardAgrees(ByVenue(loc)[v].wallet, ByVenue(exchange)[v].wallet, t)
  }

  ghost predicate RunSoftAgrees(loc: seq<VenueSnapshot>, exchange: seq<VenueSnapshot>, t: Thresholds) {
    ByVenue(loc).Keys == ByVenue(exchange).Keys
    && forall v :: v in ByVenue(loc) && v in ByVenue(exchange) ==>
         SoftAgrees(ByVenue(loc)[v].wallet, ByVenue(exchange)[v].wallet, t)
  }

  lemma RecordFlags(d: VenueDiff, lo: map<int, VenueSnapshot>, ex: map<int, VenueSnapshot>, t: Thresholds)
    requires Records(d, lo, ex, t)
    ensures d.venueId in lo || d.venueId in ex
    ensures d.hardPass <==>
            d.venueId in lo && d.venueId in ex && HardAgrees(lo[d.venueId].wallet, ex[d.venueId].wallet, t)
    ensures d.softPass <==>
            d.venueId in lo && d.venueId in ex && SoftAgrees(lo[d.venueId].wallet, ex[d.venueId].wallet, t)
  {
    hide HardAgrees, SoftAgrees, AllDiffs;
  }

  /** A run passes exactly when its records all pass, which is when the two sides agree. */
  lemma {:induction false} RecordsDecideRun(out: seq<VenueDiff>, loc: seq<VenueSnapshot>,
                                            exchange: seq<VenueSnapshot>, t: Thresholds)
    requires forall i :: 0 <= i < |out| ==> Records(out[i], ByVenue(loc), ByVenue(exchange), t)
    requires forall v :: v in ByVenue(loc) || v in ByVenue(exchange) ==>
               exists i :: 0 <= i < |out| && out[i].venueId == v
    ensures (forall i :: 0 <= i < |out| ==> out[i].hardPass) <==> RunHardAgrees(loc, exchange, t)
    ensures (forall i :: 0 <= i < |out| ==> out[i].softPass) <==> RunSoftAgrees(loc, exchange, t)
  {
    hide HardAgrees, SoftAgrees, Records, ByVenue;
    var lo, ex := ByVenue(loc), ByVenue(exchange);
    forall i | 0 <= i < |out|
      ensures out[i].venueId in lo || out[i].venueId in ex
      ensures out[i].hardPass <==> out[i].venueId in lo && out[i].venueId in ex
                                   && HardAgrees(lo[out[i].venueId].wallet, ex[out[i].venueId].wallet, t)
      ensures out[i].softPass <==> out[i].venueId in lo && out[i].venueId in ex
                                   && SoftAgrees(lo[out[i].venueId].wallet, ex[out[i].venueId].wallet, t)
    {
      RecordFlags(out[i], lo, ex, t);
    }
    if forall i :: 0 <= i < |out| ==> out[i].hardPass {
      forall v | v in lo || v in ex
        ensures v in lo && v in ex && HardAgrees(lo[v].wallet, ex[v].wallet, t)
      {
        var i :| 0 <= i < |out| && out[i].venueId == v;
      }
      assert lo.Keys == ex.Keys;
    }
    if forall i :: 0 <= i < |out| ==> out[i].softPass {
      forall v | v in lo || v in ex
        ensures v in lo && v in ex && SoftAgrees(lo[v].wallet, ex[v].wallet, t)
      {
        var i :| 0 <= i < |out| && out[i].venueId == v;
      }
      assert lo.Keys == ex.Keys;
    }
    assert lo.Keys == ex.Keys ==> forall i :: 0 <= i < |out| ==> out[i].venueId in lo.Keys && out[i].venueId in ex.Keys;
  }

  /** The verdict of `runIsolated`. */
  method RunVerdict(loc: seq<VenueSnapshot>, exchange: seq<VenueSnapshot>, t: Thresholds)
    returns (hardPass: bool, softPass: bool)
    ensures hardPass <==> RunHardAgrees(loc, exchange, t)
    ensures softPass <==> RunSoftAgrees(loc, exchange, t)
  {
    hide RunHardAgrees, RunSoftAgrees, Records;
    var diffs := CompareVenues(loc, exchange, t);
    hardPass, softPass := true, true;
    for i := 0 to |diffs|
      invariant hardPass <==> forall j :: 0 <= j < i ==> diffs[j].hardPass
      invariant softPass <==> forall j :: 0 <= j < i ==> diffs[j].softPass
    {
      if !diffs[i].hardPass {
        hardPass := false;
      }
      if !diffs[i].softPass {
        softPass := false;
      }
    }
    RecordsDecideRun(diffs, loc, exchange, t);
  }
}
