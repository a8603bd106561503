/** The feature extractor of the lesson page (`calculateScaledRatios`): per-axis min-max
    normalisation of a hand's landmarks, emitted once per index pair (i, j) with i < j. */
module Features {
  import opened Extrema

  /** One tracked point of a hand: image-relative x and y, relative depth z. */
  datatype Landmark = Landmark(x: real, y: real, z: real)

  datatype Axis = X | Y | Z

  function Coord(l: Landmark, a: Axis): real {
    match a
    case X => l.x
    case Y => l.y
    case Z => l.z
  }

  /** `landmarks.map(l => l.x)` and its y and z counterparts. */
  function Column(ls: seq<Landmark>, a: Axis): seq<real> {
    seq(|ls|, k requires 0 <= k < |ls| => Coord(ls[k], a))
  }

  /** `min_x`, `min_y`, `min_z`. */
  function Lo(ls: seq<Landmark>, a: Axis): real
    requires |ls| > 0
  {
    MinOf(Column(ls, a))
  }

  /** `max_x`, `max_y`, `max_z`. */
  function Hi(ls: seq<Landmark>, a: Axis): real
    requires |ls| > 0
  {
    MaxOf(Column(ls, a))
  }

  /** The normalisation constants computed before the loops: the minimum of each axis and
      the scale (maximum minus minimum) of each axis. */
  datatype Bounds = Bounds(minX: real, minY: real, minZ: real, scaleX: real, scaleY: real, scaleZ: real)

  function BoundsOf(ls: seq<Landmark>): Bounds
    requires |ls| > 0
  {
    Bounds(Lo(ls, X), Lo(ls, Y), Lo(ls, Z),
           Hi(ls, X) - Lo(ls, X), Hi(ls, Y) - Lo(ls, Y), Hi(ls, Z) - Lo(ls, Z))
  }

  /** Every axis of the bounding box has a positive extent. */
  predicate Positive(b: Bounds) {
    b.scaleX > 0.0 && b.scaleY > 0.0 && b.scaleZ > 0.0
  }

  /** The divisions by the scales run only when there is a pair of landmarks. */
  predicate DividesSafely(ls: seq<Landmark>, b: Bounds) {
    |ls| >= 2 ==> Positive(b)
  }

  /** The page divides by every scale as soon as two landmarks are present; a zero scale
      there is a division by zero, so from two landmarks on every scale must be positive. */
  predicate WellScaled(ls: seq<Landmark>) {
    |ls| > 0 ==> DividesSafely(ls, BoundsOf(ls))
  }

  /** The three values pushed for a pair whose first landmark is l: l's own coordinates,
      min-max normalised per axis. */
  function Triple(l: Landmark, b: Bounds): seq<real>
    requires Positive(b)
  {
    [(l.x - b.minX) / b.scaleX, (l.y - b.minY) / b.scaleY, (l.z - b.minZ) / b.scaleZ]
  }

  /** What the inner loop has pushed for first landmark l after c partners. */
  function Pushes(l: Landmark, b: Bounds, c: nat): (r: seq<real>)
    requires c == 0 || Positive(b)
    ensures |r| == 3 * c
  {
    if c == 0 then [] else Pushes(l, b, c - 1) + Triple(l, b)
  }

  /** The number of pairs (i', j) with i' < i and i' < j < n. */
  function PairsBefore(n: nat, i: nat): nat
    requires i <= n
  {
    if i == 0 then 0 else PairsBefore(n, i - 1) + (n - i)
  }

  /** What the outer loop has pushed once the first i landmarks are done. */
  function RatiosUpTo(ls: seq<Landmark>, b: Bounds, i: nat): (r: seq<real>)
    requires i <= |ls| && DividesSafely(ls, b)
    ensures |r| == 3 * PairsBefore(|ls|, i)
  {
    if i == 0 then [] else RatiosUpTo(ls, b, i - 1) + Pushes(ls[i - 1], b, |ls| - i)
  }

  /** The feature vector `calculateScaledRatios(landmarks)`. */
  function ScaledRatios(ls: seq<Landmark>): seq<real>
    requires WellScaled(ls)
  {
    if |ls| == 0 then [] else RatiosUpTo(ls, BoundsOf(ls), |ls|)
  }

  /** `calculateScaledRatios`: the bounds, then the nested i < j loops pushing landmark i's
      normalised triple once per partner j. */
  method CalculateScaledRatios(landmarks: seq<Landmark>) returns (ratios: seq<real>)
    requires WellScaled(landmarks)
    ensures ratios == ScaledRatios(landmarks)
  {
    ratios := [];
    // With no landmark the loops push nothing; only the bounds (+Infinity and -Infinity in
    // JavaScript) would be computed, and they are never read.
    if |landmarks| == 0 {
      return;
    }
    var xs, ys, zs := Column(landmarks, X), Column(landmarks, Y), Column(landmarks, Z);
    var minX, maxX := MinOf(xs), MaxOf(xs);
    var minY, maxY := MinOf(ys), MaxOf(ys);
    var minZ, maxZ := MinOf(zs), MaxOf(zs);
    var scaleX, scaleY, scaleZ := maxX - minX, maxY - minY, maxZ - minZ;
    ghost var b := Bounds(minX, minY, minZ, scaleX, scaleY, scaleZ);
    assert b == BoundsOf(landmarks);
    assert DividesSafely(landmarks, b);
    var n := |landmarks|;
    var i := 0;
    while i < n
      invariant 0 <= i <= n
      invariant ratios == RatiosUpTo(landmarks, b, i)
    {
      var j := i + 1;
      while j < n
        invariant i + 1 <= j <= n
        invariant ratios == RatiosUpTo(landmarks, b, i) + Pushes(landmarks[i], b, j - i - 1)
      {
        ratios := ratios + [(landmarks[i].x - minX) / scaleX,
                            (landmarks[i].y - minY) / scaleY,
                            (landmarks[i].z - minZ) / scaleZ];
        j := j + 1;
      }
      i := i + 1;
    }
  }

  // ---- Length and layout of the feature vector ----

  /** Closed form of the pair count: i first indices account for i(2n - i - 1)/2 pairs. */
  lemma {:induction false} PairsBeforeClosed(n: nat, i: nat)
    requires i <= n
    ensures 2 * PairsBefore(n, i) == i * (2 * n - i - 1)
  {
    if i > 0 {
      PairsBeforeClosed(n, i - 1);
      var w := 2 * n - i;
      assert (i - 1) * w == i * w - w;
      assert i * (w - 1) == i * w - i;
    }
  }

  lemma {:induction false} PairsBeforeMono(n: nat, i: nat, k: nat)
    requires i <= k <= n
    ensures PairsBefore(n, i) <= PairsBefore(n, k)
  {
    if i < k {
      PairsBeforeMono(n, i, k - 1);
    }
  }

  /** The feature vector holds three values per unordered pair of landmarks, whatever the
      coordinates: 630 values for a 21-landmark hand. */
  lemma FeatureLength(ls: seq<Landmark>)
    requires WellScaled(ls)
    ensures |ScaledRatios(ls)| == 3 * (|ls| * (|ls| - 1) / 2)
    ensures |ls| == 21 ==> |ScaledRatios(ls)| == 630
  {
    PairsBeforeClosed(|ls|, |ls|);
  }

  /** The m-th push of a run holds l's triple. */
  lemma {:induction false} PushesAt(l: Landmark, b: Bounds, c: nat, m: nat, t: nat)
    requires Positive(b) && m < c && t < 3
    ensures Pushes(l, b, c)[3 * m + t] == Triple(l, b)[t]
  {
    if m < c - 1 {
      PushesAt(l, b, c - 1, m, t);
    }
  }

  /** The run of first index i sits right after the runs of the first indices before it. */
  lemma RatiosStepAt(ls: seq<Landmark>, b: Bounds, i: nat, k: nat)
    requires DividesSafely(ls, b) && i < |ls| && k < 3 * (|ls| - 1 - i)
    ensures RatiosUpTo(ls, b, i + 1)[3 * PairsBefore(|ls|, i) + k] == Pushes(ls[i], b, |ls| - 1 - i)[k]
  {
  }

  /** Later iterations of the outer loop only append. */
  lemma {:induction false} RatiosPrefixAt(ls: seq<Landmark>, b: Bounds, i: nat, k: nat, p: nat)
    requires DividesSafely(ls, b) && i <= k <= |ls| && p < 3 * PairsBefore(|ls|, i)
    ensures p < |RatiosUpTo(ls, b, k)| && RatiosUpTo(ls, b, k)[p] == RatiosUpTo(ls, b, i)[p]
  {
    if i < k {
      RatiosPrefixAt(ls, b, i, k - 1, p);
    }
  }

  lemma RunEntry(ls: seq<Landmark>, b: Bounds, i: nat, m: nat, t: nat)
    requires DividesSafely(ls, b) && i < |ls| && m < |ls| - 1 - i && t < 3
    ensures 3 * (PairsBefore(|ls|, i) + m) + t < 3 * PairsBefore(|ls|, i + 1)
    ensures RatiosUpTo(ls, b, i + 1)[3 * (PairsBefore(|ls|, i) + m) + t] == Triple(ls[i], b)[t]
  {
    PushesAt(ls[i], b, |ls| - 1 - i, m, t);
    RatiosStepAt(ls, b, i, 3 * m + t);
  }

  /** The pair (i, j), counted in loop order (i ascending, then j ascending), contributes
      landmark i's normalised x, y and z, in that order; landmark j is not read. */
  lemma PairEntry(ls: seq<Landmark>, i: nat, j: nat, t: nat)
    requires WellScaled(ls) && i < j < |ls| && t < 3
    ensures 3 * (PairsBefore(|ls|, i) + (j - i - 1)) + t < |ScaledRatios(ls)|
    ensures ScaledRatios(ls)[3 * (PairsBefore(|ls|, i) + (j - i - 1)) + t] == Triple(ls[i], BoundsOf(ls))[t]
  {
    var q := 3 * (PairsBefore(|ls|, i) + (j - i - 1)) + t;
    RunEntry(ls, BoundsOf(ls), i, j - i - 1, t);
    RatiosPrefixAt(ls, BoundsOf(ls), i + 1, |ls|, q);
  }

  /** Landmark i's normalised triple fills one run of n - 1 - i consecutive copies, starting
      right after the runs of the landmarks before it; the runs cover the whole vector, and
      the last landmark's run is empty. */
  lemma Repetition(ls: seq<Landmark>, i: nat)
    requires WellScaled(ls) && i < |ls|
    ensures var n, out := |ls|, ScaledRatios(ls);
      PairsBefore(n, 0) == 0 && 3 * PairsBefore(n, n) == |out| &&
      PairsBefore(n, i + 1) == PairsBefore(n, i) + (n - 1 - i) <= PairsBefore(n, n) &&
      forall p :: 3 * PairsBefore(n, i) <= p < 3 * PairsBefore(n, i + 1) ==>
        out[p] == Triple(ls[i], BoundsOf(ls))[(p - 3 * PairsBefore(n, i)) % 3]
  {
    var n, out := |ls|, ScaledRatios(ls);
    var start := 3 * PairsBefore(n, i);
    PairsBeforeMono(n, i + 1, n);
    forall p | start <= p < 3 * PairsBefore(n, i + 1)
      ensures out[p] == Triple(ls[i], BoundsOf(ls))[(p - start) % 3]
    {
      var m, t := (p - start) / 3, (p - start) % 3;
      PairEntry(ls, i, i + 1 + m, t);
    }
  }
}
