/** The shortest arc around the globe that holds some longitudes. Degrees are exact reals. */
module Geo {

  predicate InRange(x: real) {
    -180.0 <= x < 180.0
  }

  /** How many whole turns there are in `x`, rounded down. */
  function Turns(x: real): int {
    (x / 360.0).Floor
  }

  /** Python's `%` with 360 on the right: the result is in [0, 360). */
  function Mod360(x: real): (r: real)
    ensures 0.0 <= r < 360.0
  {
    var k := Turns(x);
    assert k as real <= x / 360.0 < k as real + 1.0;
    x - 360.0 * k as real
  }

  lemma Mod360Unique(x: real, r: real, k: int)
    requires 0.0 <= r < 360.0 && r == x - 360.0 * k as real
    ensures Mod360(x) == r
  {
    var j := Turns(x);
    assert -1.0 < (j - k) as real < 1.0;
    assert j == k;
  }

  /** Differences of longitudes wrap at most once. */
  lemma Mod360Difference(d: real)
    requires -360.0 < d < 360.0
    ensures Mod360(d) == if d < 0.0 then d + 360.0 else d
  {
    if d < 0.0 { Mod360Unique(d, d + 360.0, -1); } else { Mod360Unique(d, d, 0); }
  }

  // -- sorting --

  ghost predicate Sorted(s: seq<real>) {
    forall i, j :: 0 <= i < j < |s| ==> s[i] <= s[j]
  }

  function InsertSorted(x: real, s: seq<real>): seq<real> {
    if s == [] || x <= s[0] then [x] + s else [s[0]] + InsertSorted(x, s[1..])
  }

  function Sort(s: seq<real>): seq<real> {
    if s == [] then [] else InsertSorted(s[0], Sort(s[1..]))
  }

  lemma InsertSortedMeans(x: real, s: seq<real>)
    requires Sorted(s)
    ensures Sorted(InsertSorted(x, s)) && multiset(InsertSorted(x, s)) == multiset(s) + multiset{x}
  {
    InsertSortedContents(x, s);
    InsertSortedOrder(x, s);
  }

  lemma {:induction false} InsertSortedOrder(x: real, s: seq<real>)
    requires Sorted(s)
    ensures Sorted(InsertSorted(x, s))
  {
    if s != [] && !(x <= s[0]) {
      InsertSortedOrder(x, s[1..]);
      Prepend(s[0], InsertSorted(x, s[1..]));
    }
  }

  lemma Prepend(x: real, r: seq<real>)
    requires Sorted(r) && (r != [] ==> x <= r[0])
    ensures Sorted([x] + r)
  {
  }

  lemma {:induction false} InsertSortedContents(x: real, s: seq<real>)
    ensures multiset(InsertSorted(x, s)) == multiset(s) + multiset{x}
  {
    if s != [] && !(x <= s[0]) {
      InsertSortedContents(x, s[1..]);
      assert s == [s[0]] + s[1..];
    }
  }

  lemma {:induction false} SortMeans(s: seq<real>)
    ensures Sorted(Sort(s)) && multiset(Sort(s)) == multiset(s)
  {
    if s != [] {
      SortMeans(s[1..]);
      InsertSortedMeans(s[0], Sort(s[1..]));
      assert s == [s[0]] + s[1..];
    }
  }

  // -- the extent --

  function Gap(ordered: seq<real>, i: nat): real
    requires i < |ordered|
  {
    Mod360(ordered[(i + 1) % |ordered|] - ordered[i])
  }

  function Gaps(ordered: seq<real>): (g: seq<real>)
    ensures |g| == |ordered|
  {
    seq(|ordered|, i requires 0 <= i < |ordered| => Gap(ordered, i))
  }

  /** The first position of the largest element. */
  function Widest(gaps: seq<real>): (w: nat)
    requires gaps != []
    ensures w < |gaps| && forall i :: 0 <= i < |gaps| ==> gaps[i] <= gaps[w]
    ensures forall i :: 0 <= i < w ==> gaps[i] < gaps[w]
  {
    if |gaps| == 1 then 0 else
    var w := Widest(gaps[..|gaps| - 1]);
    if gaps[|gaps| - 1] > gaps[w] then |gaps| - 1 else w
  }

  /** The arc starts just after the widest gap and spans everything else. */
  function Arc(longitudes: seq<real>): (real, real)
    requires longitudes != []
  {
    SortMeansSize(longitudes);
    var ordered := Sort(longitudes);
    var widest := if |ordered| > 1 then Widest(Gaps(ordered)) else 0;
    var span := if |ordered| > 1 then 360.0 - Gaps(ordered)[widest] else 0.0;
    (ordered[(widest + 1) % |ordered|], span)
  }

  /** Center, brought back to [-180, 180), and span. */
  function LongitudeExtent(longitudes: seq<real>): (real, real)
    requires longitudes != []
  {
    var (start, span) := Arc(longitudes);
    (Mod360(start + span / 2.0 + 180.0) - 180.0, span)
  }

  /** The center is itself a longitude. */
  lemma CenterInRange(longitudes: seq<real>)
    requires longitudes != []
    ensures -180.0 <= LongitudeExtent(longitudes).0 < 180.0 && InRange(LongitudeExtent(longitudes).0)
  {
  }

  lemma SortMeansSize(s: seq<real>)
    ensures |Sort(s)| == |s|
  {
    SortMeans(s);
    assert |multiset(Sort(s))| == |Sort(s)| && |multiset(s)| == |s|;
  }

  // -- what an arc holds --

  /** Going east from `start`, `x` is met before `span` degrees. */
  predicate Holds(start: real, span: real, x: real) {
    Mod360(x - start) <= span
  }

  predicate Different(longitudes: seq<real>) {
    exists i, j :: 0 <= i < j < |longitudes| && longitudes[i] != longitudes[j]
  }

  // -- gaps of ordered longitudes --

  ghost predicate Ready(ordered: seq<real>) {
    |ordered| > 1 && Sorted(ordered) && (forall i :: 0 <= i < |ordered| ==> InRange(ordered[i])) &&
    ordered[0] < ordered[|ordered| - 1]
  }

  /** Inside the list a gap is a difference; the last one goes around. */
  lemma GapMeans(ordered: seq<real>, i: nat)
    requires Ready(ordered) && i < |ordered|
    ensures Gap(ordered, i) ==
              if i + 1 < |ordered| then ordered[i + 1] - ordered[i] else ordered[0] - ordered[i] + 360.0
  {
    var n := |ordered|;
    if i + 1 < n {
      assert (i + 1) % n == i + 1;
      assert ordered[i] <= ordered[i + 1];
      Mod360Difference(ordered[i + 1] - ordered[i]);
    } else {
      assert (i + 1) % n == 0;
      Mod360Difference(ordered[0] - ordered[i]);
    }
  }

  function Sum(s: seq<real>): real {
    if s == [] then 0.0 else Sum(s[..|s| - 1]) + s[|s| - 1]
  }

  lemma {:induction false} PartialGapSum(ordered: seq<real>, k: nat)
    requires Ready(ordered) && k < |ordered|
    ensures Sum(Gaps(ordered)[..k]) == ordered[k] - ordered[0]
  {
    if k > 0 {
      PartialGapSum(ordered, k - 1);
      GapMeans(ordered, k - 1);
      assert Gaps(ordered)[..k][..k - 1] == Gaps(ordered)[..k - 1];
    }
  }

  /** The gaps go once around the globe. */
  lemma GapsSum(ordered: seq<real>)
    requires Ready(ordered)
    ensures Sum(Gaps(ordered)) == 360.0
  {
    var n := |ordered|;
    PartialGapSum(ordered, n - 1);
    GapMeans(ordered, n - 1);
    assert Gaps(ordered)[..n] == Gaps(ordered);
  }

  lemma SortMembers(s: seq<real>, x: real)
    ensures x in s <==> x in Sort(s)
  {
    SortMeans(s);
    assert x in s <==> x in multiset(s);
    assert x in Sort(s) <==> x in multiset(Sort(s));
  }

  lemma SortReady(longitudes: seq<real>)
    requires (forall i :: 0 <= i < |longitudes| ==> InRange(longitudes[i])) && Different(longitudes)
    ensures Ready(Sort(longitudes))
    ensures forall x :: x in longitudes <==> x in Sort(longitudes)
  {
    SortMeans(longitudes);
    SortMeansSize(longitudes);
    forall x
      ensures x in longitudes <==> x in Sort(longitudes)
    {
      SortMembers(longitudes, x);
    }
    SameMembersReady(longitudes, Sort(longitudes));
  }

  lemma SameMembersReady(longitudes: seq<real>, o: seq<real>)
    requires (forall i :: 0 <= i < |longitudes| ==> InRange(longitudes[i])) && Different(longitudes)
    requires Sorted(o) && |o| == |longitudes| && forall x :: x in longitudes <==> x in o
    ensures Ready(o)
  {
    var i, j :| 0 <= i < j < |longitudes| && longitudes[i] != longitudes[j];
    WithinEnds(o, longitudes[i]);
    WithinEnds(o, longitudes[j]);
    forall k | 0 <= k < |o|
      ensures InRange(o[k])
    {
      assert o[k] in longitudes;
    }
  }

  lemma WithinEnds(o: seq<real>, x: real)
    requires Sorted(o) && x in o
    ensures o[0] <= x <= o[|o| - 1]
  {
    var k :| 0 <= k < |o| && o[k] == x;
  }

  // -- the arc holds every longitude --

  /** Past a gap from `a` to `b`, every other longitude is met within the rest of the circle. */
  lemma PastGap(a: real, b: real, x: real)
    requires InRange(a) && InRange(b) && InRange(x) && a <= b && (x <= a || b <= x)
    ensures Holds(b, 360.0 - (b - a), x)
  {
    Mod360Difference(x - b);
  }

  lemma ArcHoldsOrdered(ordered: seq<real>, w: nat, k: nat)
    requires Ready(ordered) && w < |ordered| && k < |ordered|
    ensures Holds(ordered[(w + 1) % |ordered|], 360.0 - Gap(ordered, w), ordered[k])
  {
    var n := |ordered|;
    GapMeans(ordered, w);
    if w + 1 < n {
      assert (w + 1) % n == w + 1;
      assert k <= w ==> ordered[k] <= ordered[w];
      assert ordered[w] <= ordered[w + 1];
      PastGap(ordered[w], ordered[w + 1], ordered[k]);
    } else {
      assert (w + 1) % n == 0;
      assert ordered[0] <= ordered[k] <= ordered[n - 1];
      Mod360Difference(ordered[k] - ordered[0]);
    }
  }

  lemma ArcHolds(longitudes: seq<real>, x: real)
    requires (forall i :: 0 <= i < |longitudes| ==> InRange(longitudes[i])) && Different(longitudes)
    requires x in longitudes
    ensures Holds(Arc(longitudes).0, Arc(longitudes).1, x) && 0.0 < Arc(longitudes).1 < 360.0
  {
    SortReady(longitudes);
    var o := Sort(longitudes);
    var k :| 0 <= k < |o| && o[k] == x;
    var w := Widest(Gaps(o));
    assert Arc(longitudes) == (o[(w + 1) % |o|], 360.0 - Gap(o, w));
    ArcHoldsOrdered(o, w, k);
    GapsSum(o);
    SumBound(Gaps(o), Gap(o, w));
  }

  lemma {:induction false} SumBound(s: seq<real>, top: real)
    requires forall i :: 0 <= i < |s| ==> s[i] <= top
    ensures top <= 0.0 ==> Sum(s) <= 0.0
  {
    if s != [] { SumBound(s[..|s| - 1], top); }
  }

  // -- no shorter arc does --

  /** From any start, some gap begins after the last longitude met going east, and reaches past a full turn. */
  lemma NoShorterArc(longitudes: seq<real>, start: real, span: real)
    requires (forall i :: 0 <= i < |longitudes| ==> InRange(longitudes[i])) && Different(longitudes)
    requires forall x :: x in longitudes ==> Holds(start, span, x)
    ensures Arc(longitudes).1 <= span
  {
    SortReady(longitudes);
    var o := Sort(longitudes);
    var p := Furthest(o, start);
    GapAfterFurthest(o, start, p);
    assert o[p] in longitudes;
    var w := Widest(Gaps(o));
    assert Gaps(o)[p] <= Gaps(o)[w];
  }

  /** The last position whose longitude is met last, going east from `start`. */
  function Furthest(o: seq<real>, start: real): (p: nat)
    requires o != []
    ensures p < |o| && forall i :: 0 <= i < |o| ==> Offset(o, start, i) <= Offset(o, start, p)
    ensures forall i :: p < i < |o| ==> Offset(o, start, i) < Offset(o, start, p)
  {
    if |o| == 1 then 0 else
    var init := o[..|o| - 1];
    var p := Furthest(init, start);
    assert forall i :: 0 <= i < |init| ==> Offset(init, start, i) == Offset(o, start, i);
    if Offset(o, start, |init|) >= Offset(o, start, p) then |init| else p
  }

  /** How far east of `start` a longitude is. */
  function Offset(o: seq<real>, start: real, i: int): real
    requires 0 <= i < |o|
  {
    Mod360(o[i] - start)
  }

  lemma GapAfterFurthest(o: seq<real>, start: real, p: nat)
    requires Ready(o) && p < |o| && forall i :: 0 <= i < |o| ==> Offset(o, start, i) <= Offset(o, start, p)
    requires forall i :: p < i < |o| ==> Offset(o, start, i) < Offset(o, start, p)
    ensures Gap(o, p) >= 360.0 - Offset(o, start, p)
  {
    var q := if p + 1 < |o| then p + 1 else 0;
    GapTo(o, p, q);
    if q == 0 && Offset(o, start, p) == Offset(o, start, 0) {
      SameOffset(o[p], o[0], start);
    }
    assert Offset(o, start, q) < Offset(o, start, p);
    OffsetDifference(o[p], o[q], start);
  }

  lemma GapTo(o: seq<real>, p: nat, q: nat)
    requires p < |o| && q == if p + 1 < |o| then p + 1 else 0
    ensures Gap(o, p) == Mod360(o[q] - o[p])
  {
  }

  lemma SameOffset(x: real, y: real, start: real)
    requires InRange(x) && InRange(y) && Mod360(x - start) == Mod360(y - start)
    ensures x == y
  {
    var j := Turns(x - start);
    var k := Turns(y - start);
    assert x - y == 360.0 * (j - k) as real;
    assert -1.0 < (j - k) as real < 1.0;
  }

  /** Going from `x` on to an earlier-met `y` takes the rest of the turn. */
  lemma OffsetDifference(x: real, y: real, start: real)
    requires InRange(x) && InRange(y) && Mod360(y - start) < Mod360(x - start)
    ensures Mod360(y - x) == 360.0 + Mod360(y - start) - Mod360(x - start)
  {
    var j := Turns(x - start);
    var k := Turns(y - start);
    var r := 360.0 + Mod360(y - start) - Mod360(x - start);
    assert r == y - x - 360.0 * (k - j - 1) as real;
    Mod360Unique(y - x, r, k - j - 1);
  }

  /** The arc `start`, `span` holds them all. */
  ghost predicate HoldsAll(longitudes: seq<real>, start: real, span: real) {
    forall x :: x in longitudes ==> Holds(start, span, x)
  }

  ghost predicate Shortest(longitudes: seq<real>)
    requires longitudes != []
  {
    forall start, span :: HoldsAll(longitudes, start, span) ==> Arc(longitudes).1 <= span
  }

  /** Several copies of one longitude leave no gap, and the code answers with the whole globe. */
  lemma EqualSpanGlobe(longitudes: seq<real>)
    requires |longitudes| > 1 && !Different(longitudes)
    ensures Arc(longitudes).1 == 360.0 && HoldsAll(longitudes, longitudes[0], 0.0)
  {
    var o := Sort(longitudes);
    SortMeansSize(longitudes);
    Mod360Difference(0.0);
    forall x | x in longitudes
      ensures x == longitudes[0]
    {
      var i :| 0 <= i < |longitudes| && longitudes[i] == x;
      assert i > 0 ==> longitudes[0] == longitudes[i];
    }
    var w := Widest(Gaps(o));
    SortMembers(longitudes, o[w]);
    SortMembers(longitudes, o[(w + 1) % |o|]);
    assert Gaps(o)[w] == Gap(o, w);
  }

  /** The extent is shortest exactly when there is a single longitude, or two different ones. */
  lemma ShortestExactlyWhen(longitudes: seq<real>)
    requires longitudes != [] && forall i :: 0 <= i < |longitudes| ==> InRange(longitudes[i])
    ensures Shortest(longitudes) <==> |longitudes| == 1 || Different(longitudes)
  {
    if Different(longitudes) {
      forall start, span | HoldsAll(longitudes, start, span)
        ensures Arc(longitudes).1 <= span
      {
        NoShorterArc(longitudes, start, span);
      }
    } else if |longitudes| > 1 {
      EqualSpanGlobe(longitudes);
    } else {
      SortMeansSize(longitudes);
      forall start, span | HoldsAll(longitudes, start, span)
        ensures Arc(longitudes).1 <= span
      {
        assert Holds(start, span, longitudes[0]);
      }
    }
  }

  // -- the returned center --

  /** The center is a longitude halfway along the arc: it lies half a span east of the start. */
  lemma CenterHalfway(longitudes: seq<real>)
    requires (forall i :: 0 <= i < |longitudes| ==> InRange(longitudes[i])) && Different(longitudes)
    ensures InRange(LongitudeExtent(longitudes).0) && LongitudeExtent(longitudes).1 == Arc(longitudes).1
    ensures Mod360(LongitudeExtent(longitudes).0 - Arc(longitudes).0) == Arc(longitudes).1 / 2.0
  {
    SortReady(longitudes);
    var (start, span) := Arc(longitudes);
    assert longitudes != [];
    ArcHolds(longitudes, longitudes[0]);
    var k := Turns(start + span / 2.0 + 180.0);
    Mod360Unique(LongitudeExtent(longitudes).0 - start, span / 2.0, -k);
  }

  /** Every longitude is within half a span of the center, one way or the other. */
  lemma ExtentHolds(longitudes: seq<real>, x: real)
    requires (forall i :: 0 <= i < |longitudes| ==> InRange(longitudes[i])) && Different(longitudes)
    requires x in longitudes
    ensures var (center, span) := LongitudeExtent(longitudes);
            Mod360(x - center) <= span / 2.0 || Mod360(center - x) <= span / 2.0
  {
    CenterHalfway(longitudes);
    ArcHolds(longitudes, x);
    var (start, span) := Arc(longitudes);
    var center := LongitudeExtent(longitudes).0;
    var a, h := Mod360(x - start), span / 2.0;
    var j := Turns(x - start);
    var k := Turns(center - start);
    if a >= h {
      assert a - h == x - center - 360.0 * (j - k) as real;
      Mod360Unique(x - center, a - h, j - k);
    } else {
      assert h - a == center - x - 360.0 * (k - j) as real;
      Mod360Unique(center - x, h - a, k - j);
    }
  }
}
