/** The running-minimum idiom the helpers share: start from the largest finite
    float and replace the minimum whenever a candidate is strictly smaller. */
module MinimumScan {

  /** std::numeric_limits<float>::max(). */
  const FLT_MAX: real := 340282346638528859811704183484516925440.0

  /** `fabs`. */
  function Abs(x: real): real
  {
    if x < 0.0 then -x else x
  }

  /** The value left in `minDistance` after visiting `xs` in order with
      `if (f(x) < minDistance) minDistance = f(x);`. */
  function ScanMin<T>(xs: seq<T>, f: T -> real): (m: real)
    ensures m <= FLT_MAX
    ensures forall x :: x in xs ==> m <= f(x)
    ensures m < FLT_MAX ==> exists x :: x in xs && f(x) == m
  {
    if |xs| == 0 then FLT_MAX
    else
      var xs' := xs[..|xs| - 1];
      var last := xs[|xs| - 1];
      assert xs == xs' + [last];
      var m' := ScanMin(xs', f);
      if f(last) < m' then f(last) else m'
  }

  /** The scan finds something (some update happened, so the source's
      `distanceFound` flag is set) exactly when some candidate is below FLT_MAX. */
  lemma ScanMinFound<T>(xs: seq<T>, f: T -> real)
    ensures ScanMin(xs, f) < FLT_MAX <==> exists x :: x in xs && f(x) < FLT_MAX
  {
  }

  /** Only the set of candidates matters, not their order or multiplicity. */
  lemma ScanMinSameCandidates<T>(xs: seq<T>, ys: seq<T>, f: T -> real)
    requires forall x :: x in xs <==> x in ys
    ensures ScanMin(xs, f) == ScanMin(ys, f)
  {
  }
}
