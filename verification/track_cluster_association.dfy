/** The track-cluster association algorithm: for every track, the closest
    cluster above the low-energy cut and the closest one at or below it, a
    final distance cut that prefers the first, and at most one new association
    per track. Distances and energies only take part in comparisons, so they
    are inputs: `distance(t, c)` stands for the helper's track-cluster
    distance (a status and, on success, a value) and `hadronicEnergy(c)` for
    the cluster's hadronic energy. */
module TrackClusterAssociation {
  import opened StatusCodes
  import opened OrderedCaloHitLists
  import opened MinimumScan

  type TrackId = nat
  type ClusterId = nat

  datatype Settings = Settings(
    lowEnergyCut: real,
    maxTrackClusterDistance: real,
    maxSearchLayer: PseudoLayer,
    parallelDistanceCut: real)

  /** What the algorithm reads about tracks and clusters. */
  datatype Inputs = Inputs(
    distance: (TrackId, ClusterId) -> Result<real>,
    hadronicEnergy: ClusterId -> real,
    settings: Settings)

  // ---------------------------------------------------------------------------
  // Settings

  const DefaultSettings: Settings := Settings(0.2, 10.0, 10, 100.0)

  /** One optional setting: a missing key keeps the default, a value read
      replaces it, and any other failure is returned. */
  function ReadOr<T>(read: Result<T>, default: T): (r: Result<T>)
    ensures r.Ok? <==> read.Ok? || read.code == NotFound
    ensures read.Ok? ==> r == read
    ensures read.Err? && read.code == NotFound ==> r == Ok(default)
    ensures r.Err? ==> r == read && r.code != NotFound
  {
    match read
    case Ok(v) => Ok(v)
    case Err(code) => if code == NotFound then Ok(default) else Err(code)
  }

  /** ReadSettings: the four keys in order, each optional; the first key
      whose read fails other than with NOT_FOUND decides the error. `readReal(key)` and
      `readLayer(key)` stand for the XML lookups. */
  function ReadSettings(readReal: string -> Result<real>, readLayer: string -> Result<PseudoLayer>): (r: Result<Settings>)
    ensures r.Ok? <==>
              ReadOr(readReal("LowEnergyCut"), 0.2).Ok? &&
              ReadOr(readReal("MaxTrackClusterDistance"), 10.0).Ok? &&
              ReadOr(readLayer("MaxSearchLayer"), 10).Ok? &&
              ReadOr(readReal("ParallelDistanceCut"), 100.0).Ok?
    ensures r.Err? ==> r.code != NotFound
    ensures ReadOr(readReal("LowEnergyCut"), 0.2).Err? ==> r == Err(ReadOr(readReal("LowEnergyCut"), 0.2).code)
    ensures ReadOr(readReal("LowEnergyCut"), 0.2).Ok? && ReadOr(readReal("MaxTrackClusterDistance"), 10.0).Err? ==>
              r == Err(ReadOr(readReal("MaxTrackClusterDistance"), 10.0).code)
    ensures ReadOr(readReal("LowEnergyCut"), 0.2).Ok? && ReadOr(readReal("MaxTrackClusterDistance"), 10.0).Ok? &&
            ReadOr(readLayer("MaxSearchLayer"), 10).Err? ==>
              r == Err(ReadOr(readLayer("MaxSearchLayer"), 10).code)
    ensures ReadOr(readReal("LowEnergyCut"), 0.2).Ok? && ReadOr(readReal("MaxTrackClusterDistance"), 10.0).Ok? &&
            ReadOr(readLayer("MaxSearchLayer"), 10).Ok? && ReadOr(readReal("ParallelDistanceCut"), 100.0).Err? ==>
              r == Err(ReadOr(readReal("ParallelDistanceCut"), 100.0).code)
    ensures (readReal("LowEnergyCut") == Err(NotFound) && readReal("MaxTrackClusterDistance") == Err(NotFound) &&
             readLayer("MaxSearchLayer") == Err(NotFound) && readReal("ParallelDistanceCut") == Err(NotFound)) ==>
              r == Ok(DefaultSettings)
    ensures r.Ok? && readReal("MaxTrackClusterDistance").Ok? ==>
              r.value.maxTrackClusterDistance == readReal("MaxTrackClusterDistance").value
    ensures r.Ok? && readReal("LowEnergyCut").Ok? ==> r.value.lowEnergyCut == readReal("LowEnergyCut").value
    ensures r.Ok? && readLayer("MaxSearchLayer").Ok? ==> r.value.maxSearchLayer == readLayer("MaxSearchLayer").value
    ensures r.Ok? && readReal("ParallelDistanceCut").Ok? ==>
              r.value.parallelDistanceCut == readReal("ParallelDistanceCut").value
    ensures r.Ok? ==> r.value == Settings(ReadOr(readReal("LowEnergyCut"), 0.2).value,
                                          ReadOr(readReal("MaxTrackClusterDistance"), 10.0).value,
                                          ReadOr(readLayer("MaxSearchLayer"), 10).value,
                                          ReadOr(readReal("ParallelDistanceCut"), 100.0).value)
  {
    var lowEnergyCut :- ReadOr(readReal("LowEnergyCut"), 0.2);
    var maxTrackClusterDistance :- ReadOr(readReal("MaxTrackClusterDistance"), 10.0);
    var maxSearchLayer :- ReadOr(readLayer("MaxSearchLayer"), 10);
    var parallelDistanceCut :- ReadOr(readReal("ParallelDistanceCut"), 100.0);
    Ok(Settings(lowEnergyCut, maxTrackClusterDistance, maxSearchLayer, parallelDistanceCut))
  }

  // ---------------------------------------------------------------------------
  // Selecting the closest clusters

  /** A cluster competes in a bucket when its distance lookup succeeds with a
      value below the running minimum's start, FLT_MAX, and its hadronic
      energy puts it in that bucket: above the cut for the high-energy bucket,
      at or below it for the low-energy one. */
  predicate Competes(inp: Inputs, t: TrackId, c: ClusterId, highEnergy: bool)
  {
    inp.distance(t, c).Ok? && inp.distance(t, c).value < FLT_MAX &&
    (inp.hadronicEnergy(c) > inp.settings.lowEnergyCut) == highEnergy
  }

  function DistanceOf(inp: Inputs, t: TrackId, c: ClusterId): real
  {
    if inp.distance(t, c).Ok? then inp.distance(t, c).value else FLT_MAX
  }

  /** Position k holds the closest competitor among the first n clusters:
      strictly closer than every earlier competitor and no further than every
      later one, so the earliest of equally close clusters wins. */
  predicate ClosestAt(inp: Inputs, t: TrackId, clusters: seq<ClusterId>, n: int, k: int, highEnergy: bool)
    requires 0 <= n <= |clusters|
  {
    0 <= k < n && Competes(inp, t, clusters[k], highEnergy) &&
    (forall j :: 0 <= j < k && Competes(inp, t, clusters[j], highEnergy) ==>
       DistanceOf(inp, t, clusters[k]) < DistanceOf(inp, t, clusters[j])) &&
    (forall j :: k < j < n && Competes(inp, t, clusters[j], highEnergy) ==>
       DistanceOf(inp, t, clusters[k]) <= DistanceOf(inp, t, clusters[j]))
  }

  /** There is at most one closest position. */
  lemma ClosestAtUnique(inp: Inputs, t: TrackId, clusters: seq<ClusterId>, n: int, k1: int, k2: int, highEnergy: bool)
    requires 0 <= n <= |clusters|
    requires ClosestAt(inp, t, clusters, n, k1, highEnergy) && ClosestAt(inp, t, clusters, n, k2, highEnergy)
    ensures k1 == k2
  {
  }

  /** The outcome of the cluster loop in one bucket: the chosen cluster and
      the minimum distance it leaves behind. */
  datatype Pick = Pick(cluster: Option<ClusterId>, minDistance: real)

  /** What the loop should leave in a bucket after the first n clusters. */
  ghost predicate PicksClosest(inp: Inputs, t: TrackId, clusters: seq<ClusterId>, n: int, p: Pick, highEnergy: bool)
    requires 0 <= n <= |clusters|
  {
    (p.cluster.None? <==> forall j :: 0 <= j < n ==> !Competes(inp, t, clusters[j], highEnergy)) &&
    (p.cluster.None? ==> p.minDistance == FLT_MAX) &&
    (p.cluster.Some? ==> exists k :: ClosestAt(inp, t, clusters, n, k, highEnergy) &&
                                     p.cluster.value == clusters[k] && p.minDistance == DistanceOf(inp, t, clusters[k]))
  }

  /** The loop state of one bucket after the first n clusters, with the
      position of the cluster it holds. */
  ghost predicate BucketHolds(inp: Inputs, t: TrackId, clusters: seq<ClusterId>, n: int, p: Pick, k: int, highEnergy: bool)
    requires 0 <= n <= |clusters|
  {
    (p.cluster.None? <==> forall j :: 0 <= j < n ==> !Competes(inp, t, clusters[j], highEnergy)) &&
    (p.cluster.None? ==> p.minDistance == FLT_MAX) &&
    (p.cluster.Some? ==>
       ClosestAt(inp, t, clusters, n, k, highEnergy) &&
       p.cluster.value == clusters[k] && p.minDistance == DistanceOf(inp, t, clusters[k]))
  }

  /** One visit of the cluster loop to cluster c for one bucket: a failed
      lookup or a cluster of the other bucket leaves the pick alone, a
      strictly smaller distance replaces it. */
  function Visit(inp: Inputs, t: TrackId, c: ClusterId, p: Pick, highEnergy: bool): (q: Pick)
    ensures q == p || (q == Pick(Some(c), DistanceOf(inp, t, c)) && inp.distance(t, c).Ok?)
    ensures q != p ==> (inp.hadronicEnergy(c) > inp.settings.lowEnergyCut) == highEnergy && DistanceOf(inp, t, c) < p.minDistance
  {
    var status := inp.distance(t, c);
    if status.Err? then p
    else if (inp.hadronicEnergy(c) > inp.settings.lowEnergyCut) == highEnergy && status.value < p.minDistance
    then Pick(Some(c), status.value)
    else p
  }

  /** Visiting the next cluster keeps the bucket holding the closest
      competitor so far. */
  lemma VisitKeepsClosest(inp: Inputs, t: TrackId, clusters: seq<ClusterId>, n: int, p: Pick, k: int, highEnergy: bool)
    requires 0 <= n < |clusters|
    requires BucketHolds(inp, t, clusters, n, p, k, highEnergy)
    ensures var q := Visit(inp, t, clusters[n], p, highEnergy);
            BucketHolds(inp, t, clusters, n + 1, q, if q == p then k else n, highEnergy)
  {
    var q := Visit(inp, t, clusters[n], p, highEnergy);
    if q != p {
      assert Competes(inp, t, clusters[n], highEnergy);
      assert ClosestAt(inp, t, clusters, n + 1, n, highEnergy);
    } else if p.cluster.Some? {
      assert ClosestAt(inp, t, clusters, n + 1, k, highEnergy);
    }
  }

  /** The cluster loop of Run for one track: both buckets in one pass. */
  method SelectClosest(inp: Inputs, t: TrackId, clusters: seq<ClusterId>) returns (best: Pick, bestLowEnergy: Pick)
    ensures PicksClosest(inp, t, clusters, |clusters|, best, true)
    ensures PicksClosest(inp, t, clusters, |clusters|, bestLowEnergy, false)
  {
    best := Pick(None, FLT_MAX);
    bestLowEnergy := Pick(None, FLT_MAX);
    ghost var bestIndex, lowIndex := 0, 0;
    var i := 0;
    while i < |clusters|
      invariant 0 <= i <= |clusters|
      invariant BucketHolds(inp, t, clusters, i, best, bestIndex, true)
      invariant BucketHolds(inp, t, clusters, i, bestLowEnergy, lowIndex, false)
    {
      var c := clusters[i];
      VisitKeepsClosest(inp, t, clusters, i, best, bestIndex, true);
      VisitKeepsClosest(inp, t, clusters, i, bestLowEnergy, lowIndex, false);
      var nextBest := Visit(inp, t, c, best, true);
      var nextLow := Visit(inp, t, c, bestLowEnergy, false);
      if nextBest != best {
        bestIndex := i;
      }
      if nextLow != bestLowEnergy {
        lowIndex := i;
      }
      best, bestLowEnergy := nextBest, nextLow;
      i := i + 1;
    }
  }

  /** The final distance cut: the high-energy pick if it is closer than the
      cut, otherwise the low-energy pick if it is, otherwise nothing. */
  function MatchDecision(best: Pick, bestLowEnergy: Pick, maxTrackClusterDistance: real): (r: Option<ClusterId>)
    ensures r.Some? ==> (r == best.cluster && best.minDistance < maxTrackClusterDistance) ||
                        (r == bestLowEnergy.cluster && bestLowEnergy.minDistance < maxTrackClusterDistance)
    ensures best.cluster.Some? && best.minDistance < maxTrackClusterDistance ==> r == best.cluster
    ensures r.None? <==> (best.cluster.None? || best.minDistance >= maxTrackClusterDistance) &&
                         (bestLowEnergy.cluster.None? || bestLowEnergy.minDistance >= maxTrackClusterDistance)
  {
    if best.minDistance < maxTrackClusterDistance && best.cluster.Some? then best.cluster
    else if bestLowEnergy.minDistance < maxTrackClusterDistance && bestLowEnergy.cluster.Some? then bestLowEnergy.cluster
    else None
  }

  /** The closest competitor of a bucket, defined without reference to the
      loop. */
  ghost function Closest(inp: Inputs, t: TrackId, clusters: seq<ClusterId>, highEnergy: bool): Option<ClusterId>
  {
    if exists k :: ClosestAt(inp, t, clusters, |clusters|, k, highEnergy) then
      var k :| ClosestAt(inp, t, clusters, |clusters|, k, highEnergy);
      Some(clusters[k])
    else None
  }

  /** The cluster a track should be associated with: the closest high-energy
      cluster if it is within the cut, otherwise the closest low-energy
      cluster if that is within the cut, otherwise none. */
  ghost function Matched(inp: Inputs, t: TrackId, clusters: seq<ClusterId>): Option<ClusterId>
  {
    var high := Closest(inp, t, clusters, true);
    var low := Closest(inp, t, clusters, false);
    if high.Some? && DistanceOf(inp, t, high.value) < inp.settings.maxTrackClusterDistance then high
    else if low.Some? && DistanceOf(inp, t, low.value) < inp.settings.maxTrackClusterDistance then low
    else None
  }

  /** A loop pick agrees with the declarative closest cluster. */
  lemma PickIsClosest(inp: Inputs, t: TrackId, clusters: seq<ClusterId>, p: Pick, highEnergy: bool)
    requires PicksClosest(inp, t, clusters, |clusters|, p, highEnergy)
    ensures p.cluster == Closest(inp, t, clusters, highEnergy)
    ensures p.cluster.Some? ==> p.minDistance == DistanceOf(inp, t, p.cluster.value)
  {
    if p.cluster.Some? {
      var k :| ClosestAt(inp, t, clusters, |clusters|, k, highEnergy) &&
               p.cluster.value == clusters[k] && p.minDistance == DistanceOf(inp, t, clusters[k]);
      var k' :| ClosestAt(inp, t, clusters, |clusters|, k', highEnergy);
      ClosestAtUnique(inp, t, clusters, |clusters|, k, k', highEnergy);
    } else {
      forall k | 0 <= k < |clusters|
        ensures !ClosestAt(inp, t, clusters, |clusters|, k, highEnergy)
      {
        assert !Competes(inp, t, clusters[k], highEnergy);
      }
    }
  }

  /** The decision Run makes for one track is the declarative match. */
  method MatchTrack(inp: Inputs, t: TrackId, clusters: seq<ClusterId>) returns (m: Option<ClusterId>)
    ensures m == Matched(inp, t, clusters)
    ensures m.Some? ==> m.value in clusters && DistanceOf(inp, t, m.value) < inp.settings.maxTrackClusterDistance
    ensures m.Some? ==> inp.distance(t, m.value).Ok?
  {
    var best, bestLowEnergy := SelectClosest(inp, t, clusters);
    PickIsClosest(inp, t, clusters, best, true);
    PickIsClosest(inp, t, clusters, bestLowEnergy, false);
    m := MatchDecision(best, bestLowEnergy, inp.settings.maxTrackClusterDistance);
    if m.Some? {
      assert m == best.cluster || m == bestLowEnergy.cluster;
    }
  }

  // ---------------------------------------------------------------------------
  // Run

  /** The associations Run should make, in track order: one for every track
      with a match. */
  ghost function Associations(inp: Inputs, tracks: seq<TrackId>, clusters: seq<ClusterId>): seq<(TrackId, ClusterId)>
  {
    if |tracks| == 0 then []
    else
      var rest := Associations(inp, tracks[..|tracks| - 1], clusters);
      var t := tracks[|tracks| - 1];
      match Matched(inp, t, clusters)
      case None => rest
      case Some(c) => rest + [(t, c)]
  }

  /** Every matched track among `tracks` had its association added
      successfully. */
  ghost predicate AddsSucceeded(inp: Inputs, tracks: seq<TrackId>, clusters: seq<ClusterId>,
                                addStatus: (TrackId, ClusterId) -> StatusCode)
  {
    forall j :: 0 <= j < |tracks| && Matched(inp, tracks[j], clusters).Some? ==>
      addStatus(tracks[j], Matched(inp, tracks[j], clusters).value) == Success
  }

  /** Run. `trackList` and `clusterList` are the current lists or the status
      that fetching them returned, `removeStatus` is what removing the
      existing associations returns, and `addStatus(t, c)` what adding an
      association returns. The result is the status and the associations
      made, in order; the first add that fails ends the run. */
  method Run(inp: Inputs, trackList: Result<seq<TrackId>>, clusterList: Result<seq<ClusterId>>,
             removeStatus: StatusCode, addStatus: (TrackId, ClusterId) -> StatusCode)
    returns (status: StatusCode, made: seq<(TrackId, ClusterId)>)
    ensures trackList.Err? ==> status == trackList.code && made == []
    ensures trackList.Ok? && clusterList.Err? ==> status == clusterList.code && made == []
    ensures trackList.Ok? && clusterList.Ok? && removeStatus != Success ==> status == removeStatus && made == []
    ensures trackList.Ok? && clusterList.Ok? && removeStatus == Success && status == Success ==>
              made == Associations(inp, trackList.value, clusterList.value) &&
              AddsSucceeded(inp, trackList.value, clusterList.value, addStatus)
    ensures trackList.Ok? && clusterList.Ok? && removeStatus == Success && status != Success ==>
              exists i :: 0 <= i < |trackList.value| && made == Associations(inp, trackList.value[..i], clusterList.value) &&
                          AddsSucceeded(inp, trackList.value[..i], clusterList.value, addStatus) &&
                          Matched(inp, trackList.value[i], clusterList.value).Some? &&
                          addStatus(trackList.value[i], Matched(inp, trackList.value[i], clusterList.value).value) == status
  {
    if trackList.Err? {
      return trackList.code, [];
    }
    if clusterList.Err? {
      return clusterList.code, [];
    }
    if removeStatus != Success {
      return removeStatus, [];
    }
    var tracks, clusters := trackList.value, clusterList.value;
    made := [];
    var i := 0;
    while i < |tracks|
      invariant 0 <= i <= |tracks|
      invariant made == Associations(inp, tracks[..i], clusters)
      invariant AddsSucceeded(inp, tracks[..i], clusters, addStatus)
    {
      var t := tracks[i];
      assert tracks[..i + 1][..i] == tracks[..i];
      var m := MatchTrack(inp, t, clusters);
      if m.Some? {
        var s := addStatus(t, m.value);
        if s != Success {
          return s, made;
        }
        made := made + [(t, m.value)];
      }
      i := i + 1;
    }
    assert tracks[..|tracks|] == tracks;
    status := Success;
  }

  /** Each track is associated at most once, only with a listed cluster, and
      only at a distance below the cut. */
  lemma {:induction false} AssociationsAtMostOncePerTrack(inp: Inputs, tracks: seq<TrackId>, clusters: seq<ClusterId>)
    requires forall i, j :: 0 <= i < j < |tracks| ==> tracks[i] != tracks[j]
    ensures forall i, j :: 0 <= i < j < |Associations(inp, tracks, clusters)| ==>
              Associations(inp, tracks, clusters)[i].0 != Associations(inp, tracks, clusters)[j].0
    ensures forall a :: a in Associations(inp, tracks, clusters) ==>
              a.0 in tracks && a.1 in clusters && DistanceOf(inp, a.0, a.1) < inp.settings.maxTrackClusterDistance
  {
    if |tracks| > 0 {
      var tracks' := tracks[..|tracks| - 1];
      AssociationsAtMostOncePerTrack(inp, tracks', clusters);
      var rest := Associations(inp, tracks', clusters);
      var t := tracks[|tracks| - 1];
      assert forall a :: a in rest ==> a.0 in tracks';
      assert t !in tracks';
      var m := Matched(inp, t, clusters);
      if m.Some? {
        MatchedWithinCut(inp, t, clusters);
      }
    }
  }

  /** A match is a listed cluster within the cut. */
  lemma MatchedWithinCut(inp: Inputs, t: TrackId, clusters: seq<ClusterId>)
    requires Matched(inp, t, clusters).Some?
    ensures Matched(inp, t, clusters).value in clusters
    ensures DistanceOf(inp, t, Matched(inp, t, clusters).value) < inp.settings.maxTrackClusterDistance
  {
    var high := Closest(inp, t, clusters, true);
    var low := Closest(inp, t, clusters, false);
    if high.Some? {
      var k :| ClosestAt(inp, t, clusters, |clusters|, k, true) && high.value == clusters[k];
    }
    if low.Some? {
      var k :| ClosestAt(inp, t, clusters, |clusters|, k, false) && low.value == clusters[k];
    }
  }

  /** A bucket with a competitor among the first n clusters has a closest
      position among them. */
  lemma {:induction false} ClosestExists(inp: Inputs, t: TrackId, clusters: seq<ClusterId>, n: int, highEnergy: bool) returns (k: int)
    requires 0 <= n <= |clusters|
    requires exists j :: 0 <= j < n && Competes(inp, t, clusters[j], highEnergy)
    ensures ClosestAt(inp, t, clusters, n, k, highEnergy)
    decreases n
  {
    if exists j :: 0 <= j < n - 1 && Competes(inp, t, clusters[j], highEnergy) {
      var k' := ClosestExists(inp, t, clusters, n - 1, highEnergy);
      if Competes(inp, t, clusters[n - 1], highEnergy) && DistanceOf(inp, t, clusters[n - 1]) < DistanceOf(inp, t, clusters[k']) {
        k := n - 1;
      } else {
        k := k';
      }
    } else {
      k := n - 1;
    }
  }

  /** A high-energy cluster within the cut always beats every low-energy
      cluster, however close: the match is then a high-energy cluster, and
      no further away than that one. */
  lemma HighEnergyPreferred(inp: Inputs, t: TrackId, clusters: seq<ClusterId>, k: int)
    requires 0 <= k < |clusters| && Competes(inp, t, clusters[k], true)
    requires DistanceOf(inp, t, clusters[k]) < inp.settings.maxTrackClusterDistance
    ensures Matched(inp, t, clusters).Some?
    ensures inp.hadronicEnergy(Matched(inp, t, clusters).value) > inp.settings.lowEnergyCut
    ensures DistanceOf(inp, t, Matched(inp, t, clusters).value) <= DistanceOf(inp, t, clusters[k])
  {
    var j := ClosestExists(inp, t, clusters, |clusters|, true);
    var j' :| ClosestAt(inp, t, clusters, |clusters|, j', true) && Closest(inp, t, clusters, true) == Some(clusters[j']);
    ClosestAtUnique(inp, t, clusters, |clusters|, j, j', true);
    assert DistanceOf(inp, t, clusters[j]) <= DistanceOf(inp, t, clusters[k]);
  }
}
