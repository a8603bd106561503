/** What the feature vector promises: every value in [0, 1], independence from the partner
    landmark, and invariance under translation and per-axis rescaling of the hand. */
module FeatureProperties {
  import opened Extrema
  import opened Features

  // ---- Range ----

  /** Landmark l lies inside the bounding box b. */
  predicate Within(l: Landmark, b: Bounds) {
    b.minX <= l.x <= b.minX + b.scaleX &&
    b.minY <= l.y <= b.minY + b.scaleY &&
    b.minZ <= l.z <= b.minZ + b.scaleZ
  }

  predicate InUnit(s: seq<real>) {
    forall k :: 0 <= k < |s| ==> 0.0 <= s[k] <= 1.0
  }

  /** Every landmark lies inside the bounding box computed from the hand. */
  lemma BoundsContain(ls: seq<Landmark>, k: nat)
    requires k < |ls|
    ensures Within(ls[k], BoundsOf(ls))
  {
    MinOfBounds(Column(ls, X));
    MaxOfBounds(Column(ls, X));
    MinOfBounds(Column(ls, Y));
    MaxOfBounds(Column(ls, Y));
    MinOfBounds(Column(ls, Z));
    MaxOfBounds(Column(ls, Z));
    assert Column(ls, X)[k] == ls[k].x;
    assert Column(ls, Y)[k] == ls[k].y;
    assert Column(ls, Z)[k] == ls[k].z;
  }

  /** A part of a positive whole, divided by the whole, lies in [0, 1]. */
  lemma UnitQuotient(u: real, s: real)
    requires 0.0 <= u <= s && s > 0.0
    ensures 0.0 <= u / s <= 1.0
  {
    var q := u / s;
    assert q * s == u;
  }

  /** A landmark inside a box of positive extent normalises into the unit cube. */
  lemma TripleInUnit(l: Landmark, b: Bounds)
    requires Positive(b) && Within(l, b)
    ensures InUnit(Triple(l, b))
  {
    UnitQuotient(l.x - b.minX, b.scaleX);
    UnitQuotient(l.y - b.minY, b.scaleY);
    UnitQuotient(l.z - b.minZ, b.scaleZ);
  }

  lemma {:induction false} PushesInUnit(l: Landmark, b: Bounds, c: nat)
    requires Positive(b) && Within(l, b)
    ensures InUnit(Pushes(l, b, c))
  {
    if c > 0 {
      PushesInUnit(l, b, c - 1);
      TripleInUnit(l, b);
    }
  }

  lemma {:induction false} RatiosInUnit(ls: seq<Landmark>, i: nat)
    requires |ls| > 0 && WellScaled(ls) && i <= |ls|
    ensures InUnit(RatiosUpTo(ls, BoundsOf(ls), i))
  {
    if i > 0 {
      RatiosInUnit(ls, i - 1);
      if |ls| - i > 0 {
        BoundsContain(ls, i - 1);
        PushesInUnit(ls[i - 1], BoundsOf(ls), |ls| - i);
      }
    }
  }

  /** With every axis scale positive, every feature value lies in [0, 1]. */
  lemma UnitRange(ls: seq<Landmark>)
    requires WellScaled(ls)
    ensures forall p :: 0 <= p < |ScaledRatios(ls)| ==> 0.0 <= ScaledRatios(ls)[p] <= 1.0
  {
    if |ls| > 0 {
      RatiosInUnit(ls, |ls|);
    }
  }

  // ---- What the feature vector depends on ----

  lemma {:induction false} PushesAlike(l: Landmark, b: Bounds, l': Landmark, b': Bounds, c: nat)
    requires c == 0 || (Positive(b) && Positive(b') && Triple(l, b) == Triple(l', b'))
    ensures Pushes(l, b, c) == Pushes(l', b', c)
  {
    if c > 0 {
      PushesAlike(l, b, l', b', c - 1);
    }
  }

  /** The runs of the outer loop determine what it has pushed. */
  lemma {:induction false} RatiosAlike(ls: seq<Landmark>, b: Bounds, ls': seq<Landmark>, b': Bounds, i: nat)
    requires |ls| == |ls'| && i <= |ls| && DividesSafely(ls, b) && DividesSafely(ls', b')
    requires forall k :: 0 <= k < |ls| ==> Pushes(ls[k], b, |ls| - 1 - k) == Pushes(ls'[k], b', |ls| - 1 - k)
    ensures RatiosUpTo(ls, b, i) == RatiosUpTo(ls', b', i)
  {
    if i > 0 {
      RatiosAlike(ls, b, ls', b', i - 1);
      assert Pushes(ls[i - 1], b, |ls| - i) == Pushes(ls'[i - 1], b', |ls| - i);
    }
  }

  /** Two hands of the same size whose first n - 1 landmarks normalise alike have the same
      feature vector: the last landmark and every partner j count only through the bounds. */
  lemma SameTriples(ls: seq<Landmark>, ls': seq<Landmark>)
    requires WellScaled(ls) && WellScaled(ls') && |ls| == |ls'| > 0
    requires forall k :: 0 <= k < |ls| - 1 ==> Triple(ls[k], BoundsOf(ls)) == Triple(ls'[k], BoundsOf(ls'))
    ensures ScaledRatios(ls) == ScaledRatios(ls')
  {
    var b, b' := BoundsOf(ls), BoundsOf(ls');
    forall k | 0 <= k < |ls|
      ensures Pushes(ls[k], b, |ls| - 1 - k) == Pushes(ls'[k], b', |ls| - 1 - k)
    {
      PushesAlike(ls[k], b, ls'[k], b', |ls| - 1 - k);
    }
    RatiosAlike(ls, b, ls', b', |ls|);
  }

  /** The last landmark is never normalised: moving it anywhere that keeps the bounding box
      leaves the feature vector as it was. */
  lemma LastLandmarkOnlyBounds(ls: seq<Landmark>, ls': seq<Landmark>)
    requires WellScaled(ls) && |ls| == |ls'| > 0
    requires BoundsOf(ls) == BoundsOf(ls')
    requires ls[..|ls| - 1] == ls'[..|ls| - 1]
    ensures WellScaled(ls')
    ensures ScaledRatios(ls) == ScaledRatios(ls')
  {
    forall k | 0 <= k < |ls| - 1
      ensures ls[k] == ls'[k]
    {
      assert ls[..|ls| - 1][k] == ls'[..|ls| - 1][k];
    }
    SameTriples(ls, ls');
  }

  // ---- Invariance ----

  function Moved(l: Landmark, d: Landmark): Landmark {
    Landmark(l.x + d.x, l.y + d.y, l.z + d.z)
  }

  /** The hand translated by the per-axis offsets d.x, d.y, d.z. */
  function Translate(ls: seq<Landmark>, d: Landmark): seq<Landmark> {
    seq(|ls|, k requires 0 <= k < |ls| => Moved(ls[k], d))
  }

  function Stretched(l: Landmark, a: Axis, c: real): Landmark {
    match a
    case X => l.(x := c * l.x)
    case Y => l.(y := c * l.y)
    case Z => l.(z := c * l.z)
  }

  /** The hand with axis a of every landmark multiplied by c. */
  function Stretch(ls: seq<Landmark>, a: Axis, c: real): seq<Landmark> {
    seq(|ls|, k requires 0 <= k < |ls| => Stretched(ls[k], a, c))
  }

  lemma TranslatedAxis(ls: seq<Landmark>, d: Landmark, a: Axis)
    requires |ls| > 0
    ensures Lo(Translate(ls, d), a) == Lo(ls, a) + Coord(d, a)
    ensures Hi(Translate(ls, d), a) == Hi(ls, a) + Coord(d, a)
  {
    var shift := u => u + Coord(d, a);
    IncreasingExtrema(Column(ls, a), Column(Translate(ls, d), a), shift);
  }

  /** Translation moves the minima by the offsets and keeps the scales. */
  lemma TranslatedBounds(ls: seq<Landmark>, d: Landmark)
    requires |ls| > 0
    ensures var b, b' := BoundsOf(ls), BoundsOf(Translate(ls, d));
      b' == b.(minX := b.minX + d.x, minY := b.minY + d.y, minZ := b.minZ + d.z)
  {
    TranslatedAxis(ls, d, X);
    TranslatedAxis(ls, d, Y);
    TranslatedAxis(ls, d, Z);
  }

  /** Translating every landmark by a constant per-axis offset leaves the feature vector
      unchanged. */
  lemma TranslationInvariant(ls: seq<Landmark>, d: Landmark)
    requires WellScaled(ls)
    ensures WellScaled(Translate(ls, d))
    ensures ScaledRatios(Translate(ls, d)) == ScaledRatios(ls)
  {
    if |ls| > 0 {
      TranslatedBounds(ls, d);
      SameTriples(Translate(ls, d), ls);
    }
  }

  lemma CoordStretched(l: Landmark, a: Axis, c: real, e: Axis)
    ensures Coord(Stretched(l, a, c), e) == if e == a then c * Coord(l, e) else Coord(l, e)
  {
  }

  /** Multiplying by c > 0 keeps the order of two values. */
  lemma MulOrder(c: real, u: real, v: real)
    requires c > 0.0
    ensures u < v <==> c * u < c * v
  {
    if u < v {
      assert c * v - c * u == c * (v - u);
    } else {
      assert c * u - c * v == c * (u - v);
    }
  }

  /** Multiplication by c, as a map that the extrema lemmas can be given. */
  function Times(c: real): real -> real {
    u => c * u
  }

  lemma TimesIncreasing(c: real)
    requires c > 0.0
    ensures Increasing(Times(c))
  {
    forall u, v
      ensures u < v <==> Times(c)(u) < Times(c)(v)
    {
      MulOrder(c, u, v);
    }
  }

  /** Rescaling an axis rescales that axis's minimum and maximum by the same factor. */
  lemma StretchedAxis(ls: seq<Landmark>, a: Axis, c: real)
    requires |ls| > 0 && c > 0.0
    ensures Lo(Stretch(ls, a, c), a) == Times(c)(Lo(ls, a))
    ensures Hi(Stretch(ls, a, c), a) == Times(c)(Hi(ls, a))
  {
    TimesIncreasing(c);
    assert forall k :: 0 <= k < |ls| ==> Column(Stretch(ls, a, c), a)[k] == Times(c)(Column(ls, a)[k]);
    IncreasingExtrema(Column(ls, a), Column(Stretch(ls, a, c), a), Times(c));
  }

  lemma TimesSub(c: real, u: real, v: real)
    ensures Times(c)(u) - Times(c)(v) == Times(c)(u - v)
  {
    assert c * u - c * v == c * (u - v);
  }

  lemma StretchedOtherAxis(ls: seq<Landmark>, a: Axis, c: real, e: Axis)
    requires |ls| > 0 && e != a
    ensures Column(Stretch(ls, a, c), e) == Column(ls, e)
  {
    forall k | 0 <= k < |ls|
      ensures Column(Stretch(ls, a, c), e)[k] == Column(ls, e)[k]
    {
      CoordStretched(ls[k], a, c, e);
    }
  }

  /** The bounding box with axis a rescaled by c. */
  function StretchBox(b: Bounds, a: Axis, c: real): Bounds {
    match a
    case X => b.(minX := Times(c)(b.minX), scaleX := Times(c)(b.scaleX))
    case Y => b.(minY := Times(c)(b.minY), scaleY := Times(c)(b.scaleY))
    case Z => b.(minZ := Times(c)(b.minZ), scaleZ := Times(c)(b.scaleZ))
  }

  /** Rescaling one axis by c > 0 multiplies that axis's minimum and scale by c and leaves
      the other axes alone. */
  lemma StretchedBounds(ls: seq<Landmark>, a: Axis, c: real)
    requires |ls| > 0 && c > 0.0
    ensures BoundsOf(Stretch(ls, a, c)) == StretchBox(BoundsOf(ls), a, c)
  {
    StretchedAxis(ls, a, c);
    TimesSub(c, Hi(ls, a), Lo(ls, a));
    match a
    case X =>
      StretchedOtherAxis(ls, a, c, Y);
      StretchedOtherAxis(ls, a, c, Z);
    case Y =>
      StretchedOtherAxis(ls, a, c, X);
      StretchedOtherAxis(ls, a, c, Z);
    case Z =>
      StretchedOtherAxis(ls, a, c, X);
      StretchedOtherAxis(ls, a, c, Y);
  }

  lemma MulPositive(c: real, v: real)
    requires c > 0.0 && v > 0.0
    ensures c * v > 0.0
  {
    MulOrder(c, 0.0, v);
  }

  /** Normalising c u against a box scaled by c gives the same ratio as u against the box. */
  lemma ScaledRatio(c: real, u: real, m: real, w: real)
    requires c > 0.0 && w > 0.0
    ensures Times(c)(w) > 0.0
    ensures (c * u - Times(c)(m)) / Times(c)(w) == (u - m) / w
  {
    MulPositive(c, w);
    var q := (u - m) / w;
    assert q * w == u - m;
    assert q * (c * w) == c * u - c * m;
  }

  // One lemma per axis: with all three cases in one proof, the solver's nonlinear
  // arithmetic on the products is unstable from one random seed to the next.
  lemma StretchedTriple(l: Landmark, b: Bounds, a: Axis, c: real)
    requires Positive(b) && c > 0.0
    ensures Positive(StretchBox(b, a, c))
    ensures Triple(Stretched(l, a, c), StretchBox(b, a, c)) == Triple(l, b)
  {
    match a
    case X => StretchedTripleX(l, b, c);
    case Y => StretchedTripleY(l, b, c);
    case Z => StretchedTripleZ(l, b, c);
  }

  lemma StretchedTripleX(l: Landmark, b: Bounds, c: real)
    requires Positive(b) && c > 0.0
    ensures Positive(StretchBox(b, X, c))
    ensures Triple(Stretched(l, X, c), StretchBox(b, X, c)) == Triple(l, b)
  {
    var l', b' := Stretched(l, X, c), StretchBox(b, X, c);
    ScaledRatio(c, l.x, b.minX, b.scaleX);
    assert l' == l.(x := c * l.x);
    assert b' == b.(minX := Times(c)(b.minX), scaleX := Times(c)(b.scaleX));
    assert Triple(l', b')[0] == Triple(l, b)[0];
  }

  lemma StretchedTripleY(l: Landmark, b: Bounds, c: real)
    requires Positive(b) && c > 0.0
    ensures Positive(StretchBox(b, Y, c))
    ensures Triple(Stretched(l, Y, c), StretchBox(b, Y, c)) == Triple(l, b)
  {
    var l', b' := Stretched(l, Y, c), StretchBox(b, Y, c);
    ScaledRatio(c, l.y, b.minY, b.scaleY);
    assert l' == l.(y := c * l.y);
    assert b' == b.(minY := Times(c)(b.minY), scaleY := Times(c)(b.scaleY));
    assert Triple(l', b')[1] == Triple(l, b)[1];
  }

  lemma StretchedTripleZ(l: Landmark, b: Bounds, c: real)
    requires Positive(b) && c > 0.0
    ensures Positive(StretchBox(b, Z, c))
    ensures Triple(Stretched(l, Z, c), StretchBox(b, Z, c)) == Triple(l, b)
  {
    var l', b' := Stretched(l, Z, c), StretchBox(b, Z, c);
    ScaledRatio(c, l.z, b.minZ, b.scaleZ);
    assert l' == l.(z := c * l.z);
    assert b' == b.(minZ := Times(c)(b.minZ), scaleZ := Times(c)(b.scaleZ));
    assert Triple(l', b')[2] == Triple(l, b)[2];
  }
  /** Multiplying one axis of every landmark by a positive constant leaves the feature
      vector unchanged. */
  lemma AxisRescalingInvariant(ls: seq<Landmark>, a: Axis, c: real)
    requires WellScaled(ls) && c > 0.0
    ensures WellScaled(Stretch(ls, a, c))
    ensures ScaledRatios(Stretch(ls, a, c)) == ScaledRatios(ls)
  {
    if |ls| > 0 {
      var ls' := Stretch(ls, a, c);
      var b := BoundsOf(ls);
      StretchedBounds(ls, a, c);
      if |ls| >= 2 {
        forall k | 0 <= k < |ls|
          ensures Positive(BoundsOf(ls')) && Triple(ls'[k], BoundsOf(ls')) == Triple(ls[k], b)
        {
          StretchedTriple(ls[k], b, a, c);
        }
      }
      SameTriples(ls', ls);
    }
  }
}
