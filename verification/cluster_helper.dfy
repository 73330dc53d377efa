/** The cluster helper: which hits feed a cluster fit, the guard chains and
    status codes of the fit entry points, and the nearest-distance searches.
    The least-squares fit and the vector arithmetic behind each distance are
    not modelled: a fit entry point returns the point list it would hand to
    the fit, and each distance is an abstract function of the hit or layer. */
module ClusterHelper {
  import opened StatusCodes
  import opened OrderedCaloHitLists
  import opened MinimumScan

  /** A point handed to the fit. */
  datatype ClusterFitPoint = ClusterFitPoint(position: CartesianVector, cellSize: real, pseudoLayer: PseudoLayer)

  /** The parts of a cluster the helpers read. The inner and outer layers are
      the cluster's own recorded values. */
  datatype Cluster = Cluster(hits: OrderedCaloHitList, innerPseudoLayer: PseudoLayer, outerPseudoLayer: PseudoLayer)

  function NCaloHits(c: Cluster): nat
  {
    |Flatten(c.hits)|
  }

  /** A track state as the distance searches see it: the signed distance of a
      hit along the track direction and its distance perpendicular to it. */
  datatype TrackState = TrackState(parallel: CaloHit -> real, perpendicular: CaloHit -> real)

  /** The state at the ECal surface and the calorimeter projections. */
  datatype Track = Track(stateAtECal: TrackState, calorimeterProjections: seq<TrackState>)

  // ---------------------------------------------------------------------------
  // Fit points

  /** The explicit ClusterFitPoint constructor: an unset position or a zero
      cell size throws INVALID_PARAMETER. */
  function MakeClusterFitPoint(position: CartesianVector, cellSize: real, pseudoLayer: PseudoLayer): (r: Result<ClusterFitPoint>)
    ensures r.Err? <==> !position.initialized || cellSize == 0.0
    ensures r.Err? ==> r.code == InvalidParameter
    ensures r.Ok? ==> r.value.position == position && r.value.cellSize == cellSize && r.value.pseudoLayer == pseudoLayer
  {
    if !position.initialized || cellSize == 0.0 then Err(InvalidParameter)
    else Ok(ClusterFitPoint(position, cellSize, pseudoLayer))
  }

  /** The from-hit constructor: it copies the hit's position, cell size and
      layer, with the same guard. */
  function FitPointFromHit(h: CaloHit): (r: Result<ClusterFitPoint>)
    ensures r.Err? <==> !ValidForFit(h)
    ensures r.Err? ==> r.code == InvalidParameter
    ensures r.Ok? ==> r.value.position == h.position && r.value.cellSize == h.cellSize && r.value.pseudoLayer == h.pseudoLayer
  {
    MakeClusterFitPoint(h.position, h.cellSize, h.pseudoLayer)
  }

  predicate ValidForFit(h: CaloHit)
  {
    h.position.initialized && h.cellSize != 0.0
  }

  predicate AllValidForFit(hits: seq<CaloHit>)
  {
    forall i :: 0 <= i < |hits| ==> ValidForFit(hits[i])
  }

  function PointOf(h: CaloHit): ClusterFitPoint
  {
    ClusterFitPoint(h.position, h.cellSize, h.pseudoLayer)
  }

  /** FitPoints on a point list, up to its size check: one point or none is
      INVALID_PARAMETER; otherwise the points go to the fit unchanged. */
  function FitPointList(points: seq<ClusterFitPoint>): (r: Result<seq<ClusterFitPoint>>)
    ensures r.Err? <==> |points| <= 1
    ensures r.Err? ==> r.code == InvalidParameter
    ensures r.Ok? ==> r.value == points
  {
    if |points| <= 1 then Err(InvalidParameter) else Ok(points)
  }

  /** What the fit receives when the given hits are selected: one point per hit
      in the same order, unless building a point threw INVALID_PARAMETER or
      the size check refused the list. */
  function FitInputFromHits(hits: seq<CaloHit>): (r: Result<seq<ClusterFitPoint>>)
    ensures r.Ok? <==> AllValidForFit(hits) && |hits| >= 2
    ensures r.Err? ==> r.code == InvalidParameter
    ensures r.Ok? ==> |r.value| == |hits|
    ensures r.Ok? ==> forall i :: 0 <= i < |hits| ==> Ok(r.value[i]) == FitPointFromHit(hits[i])
  {
    if AllValidForFit(hits) then FitPointList(seq(|hits|, i requires 0 <= i < |hits| => PointOf(hits[i])))
    else Err(InvalidParameter)
  }

  // ---------------------------------------------------------------------------
  // Layer selection for the fits

  /** FitStart: the hits of the first n occupied layers, ascending, each layer
      in list order. The guards come first, in this order: n < 2, an empty
      list, more layers requested than are occupied. */
  method FitStart(ohl: OrderedCaloHitList, nOccupiedLayers: uint32) returns (r: Result<seq<ClusterFitPoint>>)
    ensures nOccupiedLayers < 2 ==> r == Err(InvalidParameter)
    ensures nOccupiedLayers >= 2 && ListSize(ohl) == 0 ==> r == Err(NotInitialized)
    ensures nOccupiedLayers >= 2 && 0 < ListSize(ohl) < nOccupiedLayers ==> r == Err(OutOfRange)
    ensures 2 <= nOccupiedLayers <= ListSize(ohl) ==>
              nOccupiedLayers <= |ohl| && r == FitInputFromHits(Flatten(ohl[..nOccupiedLayers]))
  {
    if nOccupiedLayers < 2 {
      return Err(InvalidParameter);
    }
    var listSize := ListSize(ohl);
    if listSize == 0 {
      return Err(NotInitialized);
    }
    if nOccupiedLayers > listSize {
      return Err(OutOfRange);
    }
    assert nOccupiedLayers <= |ohl| by {
      ListSizeAtMostLength(ohl);
    }
    var selected := FirstLayersHits(ohl, nOccupiedLayers);
    r := FitInputFromHits(selected);
  }

  /** The loop of FitStart: walk the layers upwards and stop once the count
      of visited layers exceeds n. */
  method FirstLayersHits(ohl: OrderedCaloHitList, n: nat) returns (selected: seq<CaloHit>)
    requires n <= |ohl|
    ensures selected == Flatten(ohl[..n])
  {
    var occupiedLayerCount := 0;
    selected := [];
    var i := 0;
    while i < |ohl|
      invariant 0 <= i <= n && i <= |ohl|
      invariant occupiedLayerCount == i
      invariant selected == Flatten(ohl[..i])
    {
      occupiedLayerCount := occupiedLayerCount + 1;
      if occupiedLayerCount > n {
        break;
      }
      FlattenPrefix(ohl, i);
      selected := selected + ohl[i].hits;
      i := i + 1;
    }
  }

  /** FitEnd: the hits of the last n occupied layers, in descending layer
      order, with the same guards as FitStart. */
  method FitEnd(ohl: OrderedCaloHitList, nOccupiedLayers: uint32) returns (r: Result<seq<ClusterFitPoint>>)
    ensures nOccupiedLayers < 2 ==> r == Err(InvalidParameter)
    ensures nOccupiedLayers >= 2 && ListSize(ohl) == 0 ==> r == Err(NotInitialized)
    ensures nOccupiedLayers >= 2 && 0 < ListSize(ohl) < nOccupiedLayers ==> r == Err(OutOfRange)
    ensures 2 <= nOccupiedLayers <= ListSize(ohl) ==>
              nOccupiedLayers <= |ohl| && r == FitInputFromHits(Flatten(Reverse(ohl[|ohl| - nOccupiedLayers..])))
  {
    if nOccupiedLayers < 2 {
      return Err(InvalidParameter);
    }
    var listSize := ListSize(ohl);
    if listSize == 0 {
      return Err(NotInitialized);
    }
    if nOccupiedLayers > listSize {
      return Err(OutOfRange);
    }
    assert nOccupiedLayers <= |ohl| by {
      ListSizeAtMostLength(ohl);
    }
    var selected := LastLayersHits(ohl, nOccupiedLayers);
    r := FitInputFromHits(selected);
  }

  /** The loop of FitEnd: walk the layers downwards from the outermost and
      stop once the count of visited layers exceeds n. */
  method LastLayersHits(ohl: OrderedCaloHitList, n: nat) returns (selected: seq<CaloHit>)
    requires n <= |ohl|
    ensures selected == Flatten(Reverse(ohl[|ohl| - n..]))
  {
    ghost var reversed := Reverse(ohl);
    var occupiedLayerCount := 0;
    selected := [];
    var i := 0;
    while i < |ohl|
      invariant 0 <= i <= n && i <= |ohl|
      invariant occupiedLayerCount == i
      invariant selected == Flatten(reversed[..i])
    {
      occupiedLayerCount := occupiedLayerCount + 1;
      if occupiedLayerCount > n {
        break;
      }
      var entry := ohl[|ohl| - 1 - i];
      assert entry == reversed[i];
      FlattenPrefix(reversed, i);
      selected := selected + entry.hits;
      i := i + 1;
    }
    assert i == n;
    assert selected == Flatten(reversed[..n]);
    ReverseSuffix(ohl, n);
  }

  /** Reversing the last n entries gives the first n entries of the reversal. */
  lemma ReverseSuffix(s: seq<LayerHits>, n: int)
    requires 0 <= n <= |s|
    ensures Reverse(s[|s| - n..]) == Reverse(s)[..n]
  {
    var t := s[|s| - n..];
    assert |t| == n;
    var a, r := Reverse(t), Reverse(s);
    assert |a| == n && |r| == |s|;
    forall k | 0 <= k < n
      ensures a[k] == r[k]
    {
      assert a[k] == t[n - 1 - k];
      assert t[n - 1 - k] == s[|s| - 1 - k];
    }
    assert a == r[..n];
  }

  /** FitLayers: the hits of the occupied layers L with start <= L <= end.
      Guards, in order: start >= end, an empty list, fewer than two occupied
      layers. */
  method FitLayers(ohl: OrderedCaloHitList, startLayer: PseudoLayer, endLayer: PseudoLayer) returns (r: Result<seq<ClusterFitPoint>>)
    ensures startLayer >= endLayer ==> r == Err(InvalidParameter)
    ensures startLayer < endLayer && ListSize(ohl) == 0 ==> r == Err(NotInitialized)
    ensures startLayer < endLayer && ListSize(ohl) == 1 ==> r == Err(OutOfRange)
    ensures startLayer < endLayer && ListSize(ohl) >= 2 ==>
              r == FitInputFromHits(Flatten(InLayerRange(ohl, startLayer, endLayer)))
  {
    if startLayer >= endLayer {
      return Err(InvalidParameter);
    }
    var listSize := ListSize(ohl);
    if listSize == 0 {
      return Err(NotInitialized);
    }
    if listSize < 2 {
      return Err(OutOfRange);
    }
    var selected: seq<CaloHit> := [];
    var i := 0;
    while i < |ohl|
      invariant 0 <= i <= |ohl|
      invariant selected == Flatten(InLayerRange(ohl[..i], startLayer, endLayer))
    {
      var pseudoLayer := ohl[i].layer;
      assert ohl[..i + 1][..i] == ohl[..i];
      if startLayer > pseudoLayer {
        i := i + 1;
        continue;
      }
      if endLayer < pseudoLayer {
        InLayerRangeStops(ohl, i, startLayer, endLayer);
        break;
      }
      FlattenAppend(InLayerRange(ohl[..i], startLayer, endLayer), [ohl[i]]);
      assert Flatten([ohl[i]]) == ohl[i].hits by {
        assert [ohl[i]][..0] == [];
      }
      selected := selected + ohl[i].hits;
      i := i + 1;
    }
    assert ohl[..|ohl|] == ohl;
    r := FitInputFromHits(selected);
  }

  /** FitPoints on a cluster: every hit, ascending by layer, with the empty and
      fewer-than-two-layers guards. */
  method FitPoints(ohl: OrderedCaloHitList) returns (r: Result<seq<ClusterFitPoint>>)
    ensures ListSize(ohl) == 0 ==> r == Err(NotInitialized)
    ensures ListSize(ohl) == 1 ==> r == Err(OutOfRange)
    ensures ListSize(ohl) >= 2 ==> r == FitInputFromHits(Flatten(ohl))
  {
    var listSize := ListSize(ohl);
    if listSize == 0 {
      return Err(NotInitialized);
    }
    if listSize < 2 {
      return Err(OutOfRange);
    }
    var selected: seq<CaloHit> := [];
    var i := 0;
    while i < |ohl|
      invariant 0 <= i <= |ohl|
      invariant selected == Flatten(ohl[..i])
    {
      FlattenPrefix(ohl, i);
      selected := selected + ohl[i].hits;
      i := i + 1;
    }
    assert ohl[..|ohl|] == ohl;
    r := FitInputFromHits(selected);
  }

  /** With every occupied layer holding a hit, a FitStart or FitEnd that passes
      its guards always has at least two points, so the size check of the
      point-list fit can never refuse it; only an invalid hit can. */
  lemma {:induction false} LayerSelectionsHaveEnoughPoints(ohl: OrderedCaloHitList, n: int)
    requires forall e :: e in ohl ==> |e.hits| > 0
    requires 2 <= n <= |ohl|
    ensures AllValidForFit(Flatten(ohl[..n])) ==> FitInputFromHits(Flatten(ohl[..n])).Ok?
    ensures AllValidForFit(Flatten(Reverse(ohl[|ohl| - n..]))) ==> FitInputFromHits(Flatten(Reverse(ohl[|ohl| - n..]))).Ok?
  {
    assert forall e :: e in ohl[..n] ==> e in ohl;
    NonEmptyLayersGiveEnoughPoints(ohl[..n]);
    var tail := ohl[|ohl| - n..];
    assert forall e :: e in tail ==> e in ohl;
    ReverseKeepsEntries(tail);
    NonEmptyLayersGiveEnoughPoints(Reverse(tail));
  }

  lemma NonEmptyLayersGiveEnoughPoints(s: seq<LayerHits>)
    requires forall e :: e in s ==> |e.hits| > 0
    requires |s| >= 2
    ensures AllValidForFit(Flatten(s)) ==> FitInputFromHits(Flatten(s)).Ok?
  {
    FlattenLength(s);
  }

  lemma ReverseKeepsEntries(s: seq<LayerHits>)
    ensures forall e :: e in Reverse(s) ==> e in s
  {
    var r := Reverse(s);
    forall e | e in r
      ensures e in s
    {
      var k :| 0 <= k < |r| && r[k] == e;
      assert s[|s| - 1 - k] == e;
    }
  }

  /** FitLayers selects a hit exactly when it sits in an occupied layer inside
      the closed range. */
  lemma FitLayersSelection(ohl: OrderedCaloHitList, startLayer: PseudoLayer, endLayer: PseudoLayer, h: CaloHit)
    ensures h in Flatten(InLayerRange(ohl, startLayer, endLayer)) <==>
              exists e :: e in ohl && startLayer <= e.layer <= endLayer && h in e.hits
  {
    var sel := InLayerRange(ohl, startLayer, endLayer);
    FlattenMembership(sel, h);
    forall e
      ensures e in sel <==> e in ohl && startLayer <= e.layer <= endLayer
    {
      InLayerRangeMembership(ohl, startLayer, endLayer, e);
    }
  }

  /** A range holding a single hit passes FitLayers' guards on a two-layer list
      and is then refused by the point-list size check. */
  lemma FitLayersNarrowRangeRefused(h1: CaloHit, h2: CaloHit)
    requires ValidForFit(h1) && ValidForFit(h2)
    ensures var ohl := [LayerHits(1, [h1]), LayerHits(5, [h2])];
            Ascending(ohl) && ListSize(ohl) == 2 &&
            FitInputFromHits(Flatten(InLayerRange(ohl, 0, 2))) == Err(InvalidParameter)
  {
    var ohl := [LayerHits(1, [h1]), LayerHits(5, [h2])];
    var first := [LayerHits(1, [h1])];
    assert ohl[..1] == first;
    assert first[..0] == [];
    assert InLayerRange(first, 0, 2) == InLayerRange([], 0, 2) + first;
    assert InLayerRange(ohl, 0, 2) == InLayerRange(first, 0, 2);
    assert Flatten(first) == Flatten([]) + [h1];
  }

  // ---------------------------------------------------------------------------
  // Nearest-distance searches

  /** The occupied layers of `s` that are also occupied in `other`, in order. */
  function SharedLayers(s: seq<LayerHits>, other: set<PseudoLayer>): seq<PseudoLayer>
  {
    if |s| == 0 then []
    else
      var rest := SharedLayers(s[..|s| - 1], other);
      if s[|s| - 1].layer in other then rest + [s[|s| - 1].layer] else rest
  }

  lemma {:induction false} SharedLayersMembership(s: seq<LayerHits>, other: set<PseudoLayer>, l: PseudoLayer)
    ensures l in SharedLayers(s, other) <==> l in OccupiedLayers(s) && l in other
  {
    if |s| > 0 {
      var s' := s[..|s| - 1];
      SharedLayersMembership(s', other, l);
      assert s == s' + [s[|s| - 1]];
      assert OccupiedLayers(s) == OccupiedLayers(s') + {s[|s| - 1].layer};
    }
  }

  /** Layers occupied in both clusters. */
  function CommonLayers(ci: Cluster, cj: Cluster): set<PseudoLayer>
  {
    OccupiedLayers(ci.hits) * OccupiedLayers(cj.hits)
  }

  /** The closest distance between the two clusters' layer centroids, over the
      layers both occupy. `centroidDistance(L)` stands for the distance
      between their centroids in layer L. NOT_FOUND when the recorded layer
      ranges do not overlap or no shared layer gives a distance below
      FLT_MAX; the distance is produced only on success. */
  function GetClosestIntraLayerDistance(ci: Cluster, cj: Cluster, centroidDistance: PseudoLayer -> real): (r: Result<real>)
    ensures r.Err? ==> r.code == NotFound
    ensures ci.outerPseudoLayer < cj.innerPseudoLayer || cj.outerPseudoLayer < ci.innerPseudoLayer ==> r.Err?
    ensures r.Ok? ==> r.value < FLT_MAX
    ensures r.Ok? ==> exists l :: l in CommonLayers(ci, cj) && centroidDistance(l) == r.value
    ensures r.Ok? ==> forall l :: l in CommonLayers(ci, cj) ==> r.value <= centroidDistance(l)
    ensures r.Err? && ci.innerPseudoLayer <= cj.outerPseudoLayer && cj.innerPseudoLayer <= ci.outerPseudoLayer ==>
              forall l :: l in CommonLayers(ci, cj) ==> centroidDistance(l) >= FLT_MAX
  {
    if ci.outerPseudoLayer < cj.innerPseudoLayer || cj.outerPseudoLayer < ci.innerPseudoLayer then Err(NotFound)
    else
      var shared := SharedLayers(ci.hits, OccupiedLayers(cj.hits));
      var m := ScanMin(shared, centroidDistance);
      assert forall l :: l in shared <==> l in CommonLayers(ci, cj) by {
        forall l: PseudoLayer
          ensures l in shared <==> l in CommonLayers(ci, cj)
        {
          SharedLayersMembership(ci.hits, OccupiedLayers(cj.hits), l);
        }
      }
      if m < FLT_MAX then Ok(m) else Err(NotFound)
  }

  /** The hits of layers up to `maxSearchLayer` whose distance along the track
      is within the cut. */
  function Candidates(hits: seq<CaloHit>, state: TrackState, parallelDistanceCut: real): seq<CaloHit>
  {
    if |hits| == 0 then []
    else
      var rest := Candidates(hits[..|hits| - 1], state, parallelDistanceCut);
      var h := hits[|hits| - 1];
      if Abs(state.parallel(h)) > parallelDistanceCut then rest else rest + [h]
  }

  /** A hit the track-state search considers: in a layer no deeper than
      `maxSearchLayer`, and no further than the cut along the track. */
  ghost predicate IsCandidate(c: Cluster, state: TrackState, maxSearchLayer: PseudoLayer, parallelDistanceCut: real, h: CaloHit)
  {
    (exists e :: e in c.hits && e.layer <= maxSearchLayer && h in e.hits) &&
    Abs(state.parallel(h)) <= parallelDistanceCut
  }

  lemma {:induction false} CandidatesMembership(hits: seq<CaloHit>, state: TrackState, cut: real, h: CaloHit)
    ensures h in Candidates(hits, state, cut) <==> h in hits && Abs(state.parallel(h)) <= cut
  {
    if |hits| > 0 {
      var hits' := hits[..|hits| - 1];
      CandidatesMembership(hits', state, cut, h);
      assert hits == hits' + [hits[|hits| - 1]];
    }
  }

  lemma CandidatesOfCluster(c: Cluster, state: TrackState, maxSearchLayer: PseudoLayer, cut: real)
    ensures forall h :: h in Candidates(Flatten(InLayerRange(c.hits, 0, maxSearchLayer)), state, cut) <==>
              IsCandidate(c, state, maxSearchLayer, cut, h)
  {
    forall h
      ensures h in Candidates(Flatten(InLayerRange(c.hits, 0, maxSearchLayer)), state, cut) <==>
              IsCandidate(c, state, maxSearchLayer, cut, h)
    {
      CandidatesMembership(Flatten(InLayerRange(c.hits, 0, maxSearchLayer)), state, cut, h);
      FitLayersSelection(c.hits, 0, maxSearchLayer, h);
    }
  }

  /** GetTrackClusterDistance for one track state: NOT_FOUND for a cluster
      without hits or starting beyond `maxSearchLayer`; otherwise the smallest
      perpendicular distance of a candidate hit (layers up to maxSearchLayer,
      |parallel| within the cut), or NOT_FOUND if none gives a distance below
      FLT_MAX. The distance is produced only on success. */
  function TrackStateClusterDistance(state: TrackState, c: Cluster, maxSearchLayer: PseudoLayer, parallelDistanceCut: real): (r: Result<real>)
    ensures r.Err? ==> r.code == NotFound
    ensures NCaloHits(c) == 0 || c.innerPseudoLayer > maxSearchLayer ==> r.Err?
    ensures r.Ok? ==> r.value < FLT_MAX
    ensures r.Ok? ==> exists h :: IsCandidate(c, state, maxSearchLayer, parallelDistanceCut, h) && state.perpendicular(h) == r.value
    ensures r.Ok? ==> forall h :: IsCandidate(c, state, maxSearchLayer, parallelDistanceCut, h) ==> r.value <= state.perpendicular(h)
    ensures (NCaloHits(c) > 0 && c.innerPseudoLayer <= maxSearchLayer &&
             exists h :: IsCandidate(c, state, maxSearchLayer, parallelDistanceCut, h) && state.perpendicular(h) < FLT_MAX) ==> r.Ok?
  {
    if NCaloHits(c) == 0 || c.innerPseudoLayer > maxSearchLayer then Err(NotFound)
    else
      var candidates := Candidates(Flatten(InLayerRange(c.hits, 0, maxSearchLayer)), state, parallelDistanceCut);
      CandidatesOfCluster(c, state, maxSearchLayer, parallelDistanceCut);
      var m := ScanMin(candidates, state.perpendicular);
      if m < FLT_MAX then Ok(m) else Err(NotFound)
  }

  /** The ECal state first, then the calorimeter projections. */
  function TrackStates(t: Track): seq<TrackState>
  {
    [t.stateAtECal] + t.calorimeterProjections
  }

  /** The distance a per-state result contributes to the minimum. */
  function ResultDistance(r: Result<real>): real
  {
    if r.Ok? then r.value else FLT_MAX
  }

  /** The smallest successful result, NOT_FOUND when none succeeds. */
  function SmallestSuccess(rs: seq<Result<real>>): (r: Result<real>)
    ensures r.Err? ==> r.code == NotFound
    ensures r.Err? <==> forall k :: 0 <= k < |rs| ==> rs[k].Err?
    ensures r.Ok? ==> exists k :: 0 <= k < |rs| && rs[k] == r
    ensures r.Ok? ==> forall k :: 0 <= k < |rs| && rs[k].Ok? ==> r.value <= rs[k].value
  {
    if |rs| == 0 then Err(NotFound)
    else
      var rs' := rs[..|rs| - 1];
      var rest := SmallestSuccess(rs');
      var last := rs[|rs| - 1];
      assert forall k :: 0 <= k < |rs| - 1 ==> rs'[k] == rs[k];
      if last.Ok? && (rest.Err? || last.value < rest.value) then last else rest
  }

  /** The per-state result of the k-th state of the track. */
  function StateResult(t: Track, c: Cluster, maxSearchLayer: PseudoLayer, parallelDistanceCut: real, k: int): Result<real>
    requires 0 <= k < |TrackStates(t)|
  {
    TrackStateClusterDistance(TrackStates(t)[k], c, maxSearchLayer, parallelDistanceCut)
  }

  /** The per-state results of a track against a cluster, in state order. */
  function StateResults(t: Track, c: Cluster, maxSearchLayer: PseudoLayer, parallelDistanceCut: real): (rs: seq<Result<real>>)
    ensures |rs| == |TrackStates(t)|
    ensures forall k :: 0 <= k < |rs| ==> rs[k] == StateResult(t, c, maxSearchLayer, parallelDistanceCut, k)
  {
    seq(|TrackStates(t)|, k requires 0 <= k < |TrackStates(t)| => StateResult(t, c, maxSearchLayer, parallelDistanceCut, k))
  }

  /** GetTrackClusterDistance for a track, as the running-minimum variable name
      suggests: the smallest distance over the ECal state and all
      calorimeter projections, NOT_FOUND when no state finds one. */
  function TrackClusterDistance(t: Track, c: Cluster, maxSearchLayer: PseudoLayer, parallelDistanceCut: real): (r: Result<real>)
    ensures r.Err? ==> r.code == NotFound
    ensures NCaloHits(c) == 0 || c.innerPseudoLayer > maxSearchLayer ==> r.Err?
    ensures r.Err? <==> forall k :: 0 <= k < |TrackStates(t)| ==> StateResult(t, c, maxSearchLayer, parallelDistanceCut, k).Err?
    ensures r.Ok? ==> exists k :: 0 <= k < |TrackStates(t)| && StateResult(t, c, maxSearchLayer, parallelDistanceCut, k) == r
    ensures r.Ok? ==> forall k :: 0 <= k < |TrackStates(t)| && StateResult(t, c, maxSearchLayer, parallelDistanceCut, k).Ok? ==>
                        r.value <= StateResult(t, c, maxSearchLayer, parallelDistanceCut, k).value
  {
    if NCaloHits(c) == 0 || c.innerPseudoLayer > maxSearchLayer then Err(NotFound)
    else SmallestSuccess(StateResults(t, c, maxSearchLayer, parallelDistanceCut))
  }

  /** The result as written: each per-state call writes straight into the
      caller's running minimum when it succeeds, so a later success
      overwrites an earlier, smaller one and the last successful state wins. */
  function LastSuccess(rs: seq<Result<real>>): (r: Result<real>)
    ensures r.Err? ==> r.code == NotFound
    ensures r.Err? <==> forall k :: 0 <= k < |rs| ==> rs[k].Err?
    ensures r.Ok? ==> exists k :: 0 <= k < |rs| && rs[k] == r && forall j :: k < j < |rs| ==> rs[j].Err?
  {
    var k := LastOkIndex(rs);
    if k < 0 then Err(NotFound) else rs[k]
  }

  /** The position of the last successful result, -1 when there is none. */
  function LastOkIndex(rs: seq<Result<real>>): (k: int)
    ensures -1 <= k < |rs|
    ensures k >= 0 ==> rs[k].Ok?
    ensures forall j :: k < j < |rs| ==> rs[j].Err?
  {
    if |rs| == 0 then -1
    else if rs[|rs| - 1].Ok? then |rs| - 1
    else LastOkIndex(rs[..|rs| - 1])
  }

  /** GetTrackClusterDistance for a track as written. */
  function TrackClusterDistanceAsWritten(t: Track, c: Cluster, maxSearchLayer: PseudoLayer, parallelDistanceCut: real): (r: Result<real>)
    ensures r.Err? ==> r.code == NotFound
    ensures r.Err? <==> TrackClusterDistance(t, c, maxSearchLayer, parallelDistanceCut).Err?
    ensures r.Ok? ==> exists k :: 0 <= k < |TrackStates(t)| && StateResult(t, c, maxSearchLayer, parallelDistanceCut, k) == r &&
                        forall j :: k < j < |TrackStates(t)| ==> StateResult(t, c, maxSearchLayer, parallelDistanceCut, j).Err?
  {
    if NCaloHits(c) == 0 || c.innerPseudoLayer > maxSearchLayer then Err(NotFound)
    else LastSuccess(StateResults(t, c, maxSearchLayer, parallelDistanceCut))
  }

  /** A one-hit cluster, and a state that puts the hit on the track line at a
      constant perpendicular distance v: the state's distance is v. */
  lemma OneHitStateDistance(h: CaloHit, state: TrackState, v: real)
    requires forall x :: state.parallel(x) == 0.0 && state.perpendicular(x) == v
    requires v < FLT_MAX
    ensures TrackStateClusterDistance(state, Cluster([LayerHits(h.pseudoLayer, [h])], h.pseudoLayer, h.pseudoLayer), MAX_PSEUDO_LAYER, 100.0) == Ok(v)
  {
    var c := Cluster([LayerHits(h.pseudoLayer, [h])], h.pseudoLayer, h.pseudoLayer);
    assert c.hits[..0] == [];
    assert Flatten(c.hits) == [h];
    assert InLayerRange(c.hits, 0, MAX_PSEUDO_LAYER) == c.hits;
    assert [h][..0] == [];
    assert Candidates([h], state, 100.0) == [h];
    assert ScanMin([h], state.perpendicular) == v by {
      assert [h][..0] == [];
    }
  }

  /** A single-hit cluster and a track whose ECal state sees the hit at
      distance 1 and whose only projection sees it at distance 5: the track
      distance as written is 5, the smallest distance is 1. */
  lemma TrackClusterDistanceKeepsLastNotSmallest(h: CaloHit, near: TrackState, far: TrackState)
    requires forall x :: near.parallel(x) == 0.0 && near.perpendicular(x) == 1.0
    requires forall x :: far.parallel(x) == 0.0 && far.perpendicular(x) == 5.0
    ensures var c := Cluster([LayerHits(h.pseudoLayer, [h])], h.pseudoLayer, h.pseudoLayer);
            TrackClusterDistanceAsWritten(Track(near, [far]), c, MAX_PSEUDO_LAYER, 100.0) == Ok(5.0) &&
            TrackClusterDistance(Track(near, [far]), c, MAX_PSEUDO_LAYER, 100.0) == Ok(1.0)
  {
    var c := Cluster([LayerHits(h.pseudoLayer, [h])], h.pseudoLayer, h.pseudoLayer);
    OneHitTrackResults(h, near, far);
    TwoResults(1.0, 5.0);
  }

  lemma OneHitTrackResults(h: CaloHit, near: TrackState, far: TrackState)
    requires forall x :: near.parallel(x) == 0.0 && near.perpendicular(x) == 1.0
    requires forall x :: far.parallel(x) == 0.0 && far.perpendicular(x) == 5.0
    ensures var c := Cluster([LayerHits(h.pseudoLayer, [h])], h.pseudoLayer, h.pseudoLayer);
            NCaloHits(c) == 1 && StateResults(Track(near, [far]), c, MAX_PSEUDO_LAYER, 100.0) == [Ok(1.0), Ok(5.0)]
  {
    var c := Cluster([LayerHits(h.pseudoLayer, [h])], h.pseudoLayer, h.pseudoLayer);
    OneHitStateDistance(h, near, 1.0);
    OneHitStateDistance(h, far, 5.0);
    OneHitClusterSize(h);
    TwoStateResults(near, far, c, MAX_PSEUDO_LAYER, 100.0);
  }

  lemma OneHitClusterSize(h: CaloHit)
    ensures NCaloHits(Cluster([LayerHits(h.pseudoLayer, [h])], h.pseudoLayer, h.pseudoLayer)) == 1
  {
    var hits := [LayerHits(h.pseudoLayer, [h])];
    assert hits[..0] == [];
    assert Flatten(hits) == Flatten([]) + [h];
  }

  lemma TwoStateResults(near: TrackState, far: TrackState, c: Cluster, maxSearchLayer: PseudoLayer, parallelDistanceCut: real)
    ensures StateResults(Track(near, [far]), c, maxSearchLayer, parallelDistanceCut) ==
            [TrackStateClusterDistance(near, c, maxSearchLayer, parallelDistanceCut),
             TrackStateClusterDistance(far, c, maxSearchLayer, parallelDistanceCut)]
  {
    assert TrackStates(Track(near, [far])) == [near, far];
  }

  lemma TwoResults(a: real, b: real)
    requires a < b
    ensures LastSuccess([Ok(a), Ok(b)]) == Ok(b)
    ensures SmallestSuccess([Ok(a), Ok(b)]) == Ok(a)
  {
    assert [Ok(a), Ok(b)][..1] == [Ok(a)];
    assert [Ok(a)][..0] == [];
  }

  /** GetDistanceToClosestHit over a layer range: INVALID_PARAMETER (thrown)
      when start > end; otherwise the smallest `hitDistance` over the hits of
      the occupied layers in [start, end], or FLT_MAX when there are none.
      `hitDistance(h)` stands for the distance of h from the fitted line. */
  function GetDistanceToClosestHit(ohl: OrderedCaloHitList, startLayer: PseudoLayer, endLayer: PseudoLayer, hitDistance: CaloHit -> real): (r: Result<real>)
    ensures r.Err? <==> startLayer > endLayer
    ensures r.Err? ==> r.code == InvalidParameter
    ensures r.Ok? ==> r.value <= FLT_MAX
    ensures r.Ok? ==> forall e, h :: e in ohl && startLayer <= e.layer <= endLayer && h in e.hits ==> r.value <= hitDistance(h)
    ensures r.Ok? && r.value < FLT_MAX ==>
              exists e, h :: e in ohl && startLayer <= e.layer <= endLayer && h in e.hits && hitDistance(h) == r.value
  {
    if startLayer > endLayer then Err(InvalidParameter)
    else
      var hits := Flatten(InLayerRange(ohl, startLayer, endLayer));
      assert forall h :: h in hits <==> exists e :: e in ohl && startLayer <= e.layer <= endLayer && h in e.hits by {
        forall h
          ensures h in hits <==> exists e :: e in ohl && startLayer <= e.layer <= endLayer && h in e.hits
        {
          FitLayersSelection(ohl, startLayer, endLayer, h);
        }
      }
      Ok(ScanMin(hits, hitDistance))
  }

  /** GetDistanceToClosestCentroid over a layer range: INVALID_PARAMETER
      (thrown) when start > end; otherwise the smallest `centroidDistance`
      over the occupied layers in [start, end], or FLT_MAX when there are none. */
  function GetDistanceToClosestCentroid(ohl: OrderedCaloHitList, startLayer: PseudoLayer, endLayer: PseudoLayer, centroidDistance: PseudoLayer -> real): (r: Result<real>)
    ensures r.Err? <==> startLayer > endLayer
    ensures r.Err? ==> r.code == InvalidParameter
    ensures r.Ok? ==> r.value <= FLT_MAX
    ensures r.Ok? ==> forall l :: l in OccupiedLayers(ohl) && startLayer <= l <= endLayer ==> r.value <= centroidDistance(l)
    ensures r.Ok? && r.value < FLT_MAX ==>
              exists l :: l in OccupiedLayers(ohl) && startLayer <= l <= endLayer && centroidDistance(l) == r.value
  {
    if startLayer > endLayer then Err(InvalidParameter)
    else
      var layers := LayersOf(InLayerRange(ohl, startLayer, endLayer));
      assert forall l :: l in layers <==> l in OccupiedLayers(ohl) && startLayer <= l <= endLayer by {
        forall l: PseudoLayer
          ensures l in layers <==> l in OccupiedLayers(ohl) && startLayer <= l <= endLayer
        {
          var sel := InLayerRange(ohl, startLayer, endLayer);
          if l in layers {
            var i :| 0 <= i < |layers| && layers[i] == l;
            InLayerRangeMembership(ohl, startLayer, endLayer, sel[i]);
            assert sel[i] in sel;
          }
          if l in OccupiedLayers(ohl) && startLayer <= l <= endLayer {
            var e :| e in ohl && e.layer == l;
            InLayerRangeMembership(ohl, startLayer, endLayer, e);
            var i :| 0 <= i < |sel| && sel[i] == e;
            assert layers[i] == l;
          }
        }
      }
      Ok(ScanMin(layers, centroidDistance))
  }

  /** Every (hit of I, hit of J) pair. */
  function Pairs(hi: seq<CaloHit>, hj: seq<CaloHit>): seq<(CaloHit, CaloHit)>
  {
    if |hi| == 0 then []
    else Pairs(hi[..|hi| - 1], hj) + seq(|hj|, k requires 0 <= k < |hj| => (hi[|hi| - 1], hj[k]))
  }

  lemma {:induction false} PairsMembership(hi: seq<CaloHit>, hj: seq<CaloHit>, a: CaloHit, b: CaloHit)
    ensures (a, b) in Pairs(hi, hj) <==> a in hi && b in hj
  {
    if |hi| > 0 {
      var hi' := hi[..|hi| - 1];
      PairsMembership(hi', hj, a, b);
      assert hi == hi' + [hi[|hi| - 1]];
      var row := seq(|hj|, k requires 0 <= k < |hj| => (hi[|hi| - 1], hj[k]));
      if a == hi[|hi| - 1] && b in hj {
        var k :| 0 <= k < |hj| && hj[k] == b;
        assert row[k] == (a, b);
      }
    }
  }

  /** GetDistanceToClosestHit between two clusters: the smallest
      `hitDistance` over every pair of their hits, or FLT_MAX when either has
      none. `hitDistance(a, b)` stands for the distance between the hits. */
  function GetDistanceToClosestHitBetween(ci: Cluster, cj: Cluster, hitDistance: (CaloHit, CaloHit) -> real): (r: real)
    ensures r <= FLT_MAX
    ensures forall a, b :: a in Flatten(ci.hits) && b in Flatten(cj.hits) ==> r <= hitDistance(a, b)
    ensures r < FLT_MAX ==> exists a, b :: a in Flatten(ci.hits) && b in Flatten(cj.hits) && hitDistance(a, b) == r
  {
    var hi, hj := Flatten(ci.hits), Flatten(cj.hits);
    var pairs := Pairs(hi, hj);
    var f := (p: (CaloHit, CaloHit)) => hitDistance(p.0, p.1);
    var m := ScanMin(pairs, f);
    assert forall a, b :: (a, b) in pairs <==> a in hi && b in hj by {
      forall a, b
        ensures (a, b) in pairs <==> a in hi && b in hj
      {
        PairsMembership(hi, hj, a, b);
      }
    }
    assert forall a, b :: a in hi && b in hj ==> m <= hitDistance(a, b) by {
      forall a, b | a in hi && b in hj
        ensures m <= hitDistance(a, b)
      {
        assert (a, b) in pairs;
        assert f((a, b)) == hitDistance(a, b);
      }
    }
    assert m < FLT_MAX ==> exists a, b :: a in hi && b in hj && hitDistance(a, b) == m by {
      if m < FLT_MAX {
        var p :| p in pairs && f(p) == m;
        PairsMembership(hi, hj, p.0, p.1);
        assert p == (p.0, p.1);
      }
    }
    m
  }

  // ---------------------------------------------------------------------------
  // The layer loop of the two range searches, as written

  /** One pass of `for (PseudoLayer iLayer = start; iLayer <= end; ++iLayer)`
      on an unsigned counter, followed for at most `steps` iterations: the
      layers visited and whether the loop has exited. */
  function LayerLoopAsWritten(i: PseudoLayer, end: PseudoLayer, steps: nat): (r: (seq<PseudoLayer>, bool))
    ensures |r.0| <= steps
    ensures forall k :: 0 <= k < |r.0| ==> r.0[k] <= end
    ensures !r.1 ==> |r.0| == steps
    decreases steps
  {
    if i > end then ([], true)
    else if steps == 0 then ([], false)
    else
      var next := (i + 1) % UINT_RANGE;
      var (rest, exited) := LayerLoopAsWritten(next, end, steps - 1);
      ([i] + rest, exited)
  }

  /** With `end` below the largest layer the loop exits after visiting exactly
      start, start+1, ..., end. */
  lemma {:induction false} LayerLoopExitsBelowMax(i: PseudoLayer, end: PseudoLayer)
    requires i <= end < MAX_PSEUDO_LAYER
    ensures LayerLoopAsWritten(i, end, end - i + 1).1
    ensures |LayerLoopAsWritten(i, end, end - i + 1).0| == end - i + 1
    ensures LayerLoopAsWritten(i, end, end - i + 1).0 == seq(end - i + 1, k => i + k)
    decreases end - i
  {
    if i < end {
      LayerLoopExitsBelowMax(i + 1, end);
    }
  }

  /** With `end` equal to the largest layer, the guard `iLayer <= end` always
      holds and the increment wraps to 0: after any number of iterations the
      loop has not exited, and after the largest layer it revisits layer 0. */
  lemma {:induction false} LayerLoopNeverExitsAtMax(i: PseudoLayer, steps: nat)
    ensures !LayerLoopAsWritten(i, MAX_PSEUDO_LAYER, steps).1
    ensures |LayerLoopAsWritten(i, MAX_PSEUDO_LAYER, steps).0| == steps
    ensures steps >= 2 && i == MAX_PSEUDO_LAYER ==> LayerLoopAsWritten(i, MAX_PSEUDO_LAYER, steps).0[1] == 0
    decreases steps
  {
    if steps > 0 {
      LayerLoopNeverExitsAtMax((i + 1) % UINT_RANGE, steps - 1);
    }
  }
}
