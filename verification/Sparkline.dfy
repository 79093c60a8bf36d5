/** The sparkline's points, over exact reals: which boxes they stay inside. */
module Sparkline {
  import opened Wrappers

  datatype Box = Box(width: real, height: real, padding: real)
  datatype Point = Point(x: real, y: real)

  const DEFAULT_BOX := Box(600.0, 80.0, 6.0)

  function Left(b: Box): real { b.padding }
  function Right(b: Box): real { b.width - b.padding }
  function Top(b: Box): real { b.padding }
  function Bottom(b: Box): real { b.height - b.padding }

  /** Math.round(n * 10) / 10 */
  function Round(n: real): real {
    (n * 10.0 + 0.5).Floor as real / 10.0
  }

  /** None is a value that is not finite. */
  function Clean(v: Option<real>): real {
    if v.Some? && v.value > 0.0 then v.value else 0.0
  }

  function MaxOf(values: seq<Option<real>>): (m: real)
    ensures m >= 0.0 && forall i | 0 <= i < |values| :: Clean(values[i]) <= m
    ensures m == 0.0 || exists i :: 0 <= i < |values| && Clean(values[i]) == m
  {
    if values == [] then 0.0
    else
      var rest, last := MaxOf(values[..|values| - 1]), Clean(values[|values| - 1]);
      if last > rest then last else rest
  }

  function X(b: Box, count: nat, i: nat): real
    requires count > 0
  {
    if count > 1 then Left(b) + i as real * ((Right(b) - Left(b)) / (count - 1) as real) else b.width / 2.0
  }

  function Y(b: Box, max: real, v: real): real {
    if max == 0.0 then Bottom(b) else Bottom(b) - v / max * (Bottom(b) - Top(b))
  }

  function Height(values: seq<Option<real>>, b: Box, i: nat): real
    requires i < |values|
  {
    Round(Y(b, MaxOf(values), Clean(values[i])))
  }

  function PointAt(values: seq<Option<real>>, b: Box, i: nat): Point
    requires i < |values|
  {
    Point(Round(X(b, |values|, i)), Height(values, b, i))
  }

  predicate Inside(b: Box, p: Point) {
    Left(b) <= p.x <= Right(b) && Top(b) <= p.y <= Bottom(b)
  }

  /** Rounding moves no edge of the padded box outwards. */
  predicate EdgesHold(b: Box) {
    && Left(b) <= Round(Left(b)) && Round(Right(b)) <= Right(b) && Left(b) <= Right(b)
    && Top(b) <= Round(Top(b)) && Round(Bottom(b)) <= Bottom(b) && Top(b) <= Bottom(b)
  }

  lemma RoundIsMonotone(a: real, b: real)
    requires a <= b
    ensures Round(a) <= Round(b)
  {
    var x, y := a * 10.0 + 0.5, b * 10.0 + 0.5;
    assert x.Floor as real <= x <= y < (y.Floor + 1) as real;
    assert x.Floor <= y.Floor;
  }

  lemma RoundedStaysBetween(lo: real, n: real, hi: real)
    requires lo <= n <= hi && lo <= Round(lo) && Round(hi) <= hi
    ensures lo <= Round(n) <= hi
  {
    RoundIsMonotone(lo, n);
    RoundIsMonotone(n, hi);
  }

  /** A share of a length lies within it. */
  lemma ShareOf(length: real, part: real, whole: real)
    requires length >= 0.0 && 0.0 <= part <= whole && whole > 0.0
    ensures 0.0 <= part / whole * length <= length
  {
    var r := part / whole;
    assert 0.0 <= r <= 1.0;
    assert r * length <= 1.0 * length;
  }

  lemma SpanOf(length: real, i: real, n: real)
    requires n > 0.0
    ensures i * (length / n) == i / n * length
  {
    var q := length / n;
    assert q * n == length;
    assert i / n * (q * n) == (i / n * n) * q;
  }

  lemma XInside(b: Box, count: nat, i: nat)
    requires i < count && Left(b) <= Right(b)
    ensures Left(b) <= X(b, count, i) <= Right(b)
  {
    if count > 1 {
      SpanOf(Right(b) - Left(b), i as real, (count - 1) as real);
      ShareOf(Right(b) - Left(b), i as real, (count - 1) as real);
    }
  }

  lemma YInside(b: Box, max: real, v: real)
    requires 0.0 <= v <= max && Top(b) <= Bottom(b)
    ensures Top(b) <= Y(b, max, v) <= Bottom(b)
  {
    if max > 0.0 {
      var h := Bottom(b) - Top(b);
      ShareOf(h, v, max);
      var share := v / max * h;
      assert 0.0 <= share <= h;
      assert Y(b, max, v) == Bottom(b) - share;
    }
  }

  lemma EveryPointInside(values: seq<Option<real>>, b: Box, i: nat)
    requires i < |values| && EdgesHold(b)
    ensures Inside(b, PointAt(values, b, i))
  {
    XInside(b, |values|, i);
    YInside(b, MaxOf(values), Clean(values[i]));
    RoundedStaysBetween(Left(b), X(b, |values|, i), Right(b));
    RoundedStaysBetween(Top(b), Y(b, MaxOf(values), Clean(values[i])), Bottom(b));
  }

  /** A day of nothing, then a day of one: its points are the rounded bottom left and top right corners. */
  function UpAndAway(): seq<Option<real>> {
    [Some(0.0), Some(1.0)]
  }

  lemma CornersOf(b: Box)
    ensures PointAt(UpAndAway(), b, 0) == Point(Round(Left(b)), Round(Bottom(b)))
    ensures PointAt(UpAndAway(), b, 1) == Point(Round(Right(b)), Round(Top(b)))
  {
    var values := UpAndAway();
    assert MaxOf(values) == 1.0 by {
      assert Clean(values[0]) == 0.0 && Clean(values[1]) == 1.0;
    }
  }

  /** Every rounded point of every series is in the padded box iff rounding moves no edge of it outwards. */
  lemma StaysInTheBoxIff(b: Box)
    ensures (forall values: seq<Option<real>>, i: nat | i < |values| :: Inside(b, PointAt(values, b, i))) <==>
            EdgesHold(b)
  {
    if EdgesHold(b) {
      forall values: seq<Option<real>>, i: nat | i < |values| ensures Inside(b, PointAt(values, b, i)) {
        EveryPointInside(values, b, i);
      }
    } else {
      CornersOf(b);
      assert !(Inside(b, PointAt(UpAndAway(), b, 0)) && Inside(b, PointAt(UpAndAway(), b, 1)));
    }
  }

  lemma DefaultBoxHolds()
    ensures DEFAULT_BOX == Box(600.0, 80.0, 6.0) && EdgesHold(DEFAULT_BOX)
  {
  }

  /** A padding of 6.04 rounds down across the edge. */
  lemma SomeBoxesDoNotHold()
    ensures !EdgesHold(Box(100.0, 100.0, 6.04))
  {
  }

  lemma RatioGrows(u: real, v: real, max: real)
    requires u <= v && max > 0.0
    ensures u / max <= v / max
  {
  }

  lemma ProductGrows(p: real, q: real, h: real)
    requires p <= q && h >= 0.0
    ensures p * h <= q * h
  {
  }

  lemma SelfRatio(x: real)
    requires x > 0.0
    ensures x / x == 1.0
  {
  }

  lemma ProductOfEquals(p: real, q: real, h: real)
    requires p == q
    ensures p * h == q * h
  {
  }

  lemma ShareOfNothingAndAll(max: real, h: real)
    requires max > 0.0
    ensures 0.0 / max * h == 0.0 && max / max * h == h
  {
    SelfRatio(max);
    ProductOfEquals(max / max, 1.0, h);
    ProductOfEquals(0.0 / max, 0.0, h);
  }

  lemma HigherForMore(b: Box, max: real, u: real, v: real)
    requires 0.0 <= u <= v <= max && Top(b) <= Bottom(b)
    ensures Y(b, max, v) <= Y(b, max, u)
  {
    if max > 0.0 {
      RatioGrows(u, v, max);
      ProductGrows(u / max, v / max, Bottom(b) - Top(b));
    }
  }

  lemma BaselineAndTop(b: Box, max: real)
    requires max >= 0.0
    ensures Y(b, max, 0.0) == Bottom(b)
    ensures max > 0.0 ==> Y(b, max, max) == Top(b)
  {
    if max > 0.0 {
      ShareOfNothingAndAll(max, Bottom(b) - Top(b));
    }
  }

  /** A larger value is never drawn lower, the largest touches the top and zero the baseline. */
  lemma HeightFollowsValue(values: seq<Option<real>>, b: Box, i: nat, j: nat)
    requires i < |values| && j < |values| && b.padding <= b.height - b.padding
    requires Clean(values[i]) <= Clean(values[j])
    ensures Height(values, b, i) >= Height(values, b, j)
    ensures Clean(values[i]) == 0.0 ==> Height(values, b, i) == Round(b.height - b.padding)
    ensures Clean(values[j]) == MaxOf(values) > 0.0 ==> Height(values, b, j) == Round(b.padding)
  {
    var m := MaxOf(values);
    HigherForMore(b, m, Clean(values[i]), Clean(values[j]));
    BaselineAndTop(b, m);
    RoundIsMonotone(Y(b, m, Clean(values[j])), Y(b, m, Clean(values[i])));
  }
}
