/** The ordered calo-hit list of a cluster: a map from pseudo-layer to the hits
    in that layer, seen in ascending layer order (the order in which a
    `std::map` iterates). */
module OrderedCaloHitLists {

  /** Unsigned 32-bit arithmetic used by layer numbers, sizes and counters. */
  const UINT_RANGE: int := 0x1_0000_0000
  const MAX_PSEUDO_LAYER: int := 0xFFFF_FFFF
  type uint32 = x: int | 0 <= x < UINT_RANGE
  type PseudoLayer = l: int | 0 <= l <= MAX_PSEUDO_LAYER

  /** Only whether a position was set matters to the modelled code. */
  datatype CartesianVector = CartesianVector(initialized: bool, x: real, y: real, z: real)

  /** A calorimeter hit. `cellSize` is the geometric mean of its two cell
      dimensions, sqrt(cellSizeU * cellSizeV), which the hit supplies. */
  datatype CaloHit = CaloHit(id: nat, position: CartesianVector, cellSize: real, pseudoLayer: PseudoLayer)

  /** One entry of the map: a layer and its hit list, in the list's order. */
  datatype LayerHits = LayerHits(layer: PseudoLayer, hits: seq<CaloHit>)

  /** Map keys are unique and iterated in ascending order. */
  ghost predicate Ascending(s: seq<LayerHits>)
  {
    forall i, j :: 0 <= i < j < |s| ==> s[i].layer < s[j].layer
  }

  type OrderedCaloHitList = s: seq<LayerHits> | Ascending(s)

  /** `orderedCaloHitList.size()` stored in an `unsigned int`. */
  function ListSize(s: seq<LayerHits>): uint32
  {
    |s| % UINT_RANGE
  }

  /** The 32-bit size never exceeds the true number of entries. */
  lemma ListSizeAtMostLength(s: seq<LayerHits>)
    ensures ListSize(s) <= |s|
  {
  }

  /** The hits of the entries, layer by layer, each layer in its list order. */
  function Flatten(s: seq<LayerHits>): seq<CaloHit>
  {
    if |s| == 0 then [] else Flatten(s[..|s| - 1]) + s[|s| - 1].hits
  }

  /** The entries whose layer L satisfies start <= L <= end, in order. */
  function InLayerRange(s: seq<LayerHits>, start: int, end: int): seq<LayerHits>
  {
    if |s| == 0 then []
    else
      var rest := InLayerRange(s[..|s| - 1], start, end);
      if start <= s[|s| - 1].layer <= end then rest + [s[|s| - 1]] else rest
  }

  /** The layers of the entries, in order. */
  function LayersOf(s: seq<LayerHits>): (r: seq<PseudoLayer>)
    ensures |r| == |s|
    ensures forall i :: 0 <= i < |s| ==> r[i] == s[i].layer
  {
    seq(|s|, i requires 0 <= i < |s| => s[i].layer)
  }

  /** The set of occupied layers. */
  function OccupiedLayers(s: seq<LayerHits>): set<PseudoLayer>
  {
    set e | e in s :: e.layer
  }

  /** The entries in reverse (descending-layer) order. */
  function Reverse(s: seq<LayerHits>): (r: seq<LayerHits>)
    ensures |r| == |s|
    ensures forall k :: 0 <= k < |s| ==> r[k] == s[|s| - 1 - k]
  {
    seq(|s|, k requires 0 <= k < |s| => s[|s| - 1 - k])
  }

  lemma {:induction false} FlattenAppend(a: seq<LayerHits>, b: seq<LayerHits>)
    ensures Flatten(a + b) == Flatten(a) + Flatten(b)
    decreases |b|
  {
    if |b| == 0 {
      assert a + b == a;
    } else {
      var b' := b[..|b| - 1];
      assert (a + b)[..|a + b| - 1] == a + b';
      FlattenAppend(a, b');
    }
  }

  /** A hit is flattened exactly when some entry holds it. */
  lemma {:induction false} FlattenMembership(s: seq<LayerHits>, h: CaloHit)
    ensures h in Flatten(s) <==> exists e :: e in s && h in e.hits
  {
    if |s| > 0 {
      var s' := s[..|s| - 1];
      FlattenMembership(s', h);
      assert s == s' + [s[|s| - 1]];
      assert forall e :: e in s <==> e in s' || e == s[|s| - 1];
    }
  }

  /** Every occupied layer contributes at least one hit, so there are at least
      as many hits as entries. */
  lemma {:induction false} FlattenLength(s: seq<LayerHits>)
    requires forall e :: e in s ==> |e.hits| > 0
    ensures |Flatten(s)| >= |s|
  {
    if |s| > 0 {
      var s' := s[..|s| - 1];
      assert forall e :: e in s' ==> e in s;
      FlattenLength(s');
    }
  }

  /** An entry is selected exactly when it is in the list and its layer is in
      the closed range. */
  lemma {:induction false} InLayerRangeMembership(s: seq<LayerHits>, start: int, end: int, e: LayerHits)
    ensures e in InLayerRange(s, start, end) <==> e in s && start <= e.layer <= end
  {
    if |s| > 0 {
      var s' := s[..|s| - 1];
      InLayerRangeMembership(s', start, end, e);
      assert s == s' + [s[|s| - 1]];
    }
  }

  /** A subsequence of an ascending list is ascending. */
  lemma {:induction false} InLayerRangeAscending(s: seq<LayerHits>, start: int, end: int)
    requires Ascending(s)
    ensures Ascending(InLayerRange(s, start, end))
    ensures forall e :: e in InLayerRange(s, start, end) ==> e in s
  {
    if |s| > 0 {
      var s' := s[..|s| - 1];
      InLayerRangeAscending(s', start, end);
      var rest := InLayerRange(s', start, end);
      var last := s[|s| - 1];
      forall e | e in rest
        ensures e.layer < last.layer
      {
        var i :| 0 <= i < |s'| && s'[i] == e;
      }
    }
  }

  /** Because layers ascend, once an entry lies above `end` no later entry is in
      range: the selection made so far is the whole selection. This is what
      lets a scan stop at the first layer above the range. */
  lemma {:induction false} InLayerRangeStops(s: seq<LayerHits>, i: int, start: int, end: int)
    requires Ascending(s)
    requires 0 <= i < |s| && s[i].layer > end
    ensures InLayerRange(s, start, end) == InLayerRange(s[..i], start, end)
    decreases |s|
  {
    var s' := s[..|s| - 1];
    if i == |s| - 1 {
      assert s' == s[..i];
    } else {
      assert s[|s| - 1].layer > s[i].layer;
      assert s'[..i] == s[..i];
      InLayerRangeStops(s', i, start, end);
    }
  }

  /** A prefix of the entries contributes a prefix of the flattened hits. */
  lemma FlattenPrefix(s: seq<LayerHits>, i: int)
    requires 0 <= i < |s|
    ensures Flatten(s[..i + 1]) == Flatten(s[..i]) + s[i].hits
  {
    assert s[..i + 1][..i] == s[..i];
  }
}
