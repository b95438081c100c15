/** The workloads a patch is cut into when it is tessellated, one mesh group each.  Their number
    and size were fixed long before, from the largest factor alone (Tessellation). */
module Workloads {
  import opened Tessellation

  const ONE := 0x10000  // 1.0 in 16.16 fixed point

  // ------------------------------------------------------------- fixed-point factors

  function Regularized(p: Partitioning, x: real): nat
    requires p != Undefined
  {
    match p
    case PowerOfTwo => NextPow2(Clamp(Ceil(x) as real, 1.0, 64.0).Floor) * ONE
    case FractionalOdd => (Clamp(x, 1.0, 63.0) * 65536.0).Floor
    case FractionalEven => (Clamp(x, 2.0, 64.0) * 65536.0).Floor
    case Integer => Clamp(Ceil(x) as real, 1.0, 64.0).Floor * ONE
  }

  function FxpCeil(v: nat): nat { v / ONE + if v % ONE > 0 then 1 else 0 }

  /** The segments of a fixed-point factor. */
  function Count(p: Partitioning, v: nat): nat {
    var c := FxpCeil(v);
    match p
    case FractionalOdd => if c % 2 == 1 then c else c + 1
    case FractionalEven => if c % 2 == 1 then c + 1 else c
    case _ => c
  }

  /** The factor `c` rings further in. */
  function Offset(v: nat, c: nat): nat { if v < 2 * c * ONE then 0 else v - 2 * c * ONE }

  /** Integer and power-of-two factors have no fraction. */
  predicate Regular(p: Partitioning, v: nat) {
    v >= ONE && (p.Integer? || p.PowerOfTwo? ==> v % ONE == 0)
  }

  /** The fewest segments a ring edge can have: odd partitionings never have none. */
  function Fewest(p: Partitioning): nat { if p.FractionalOdd? then 1 else 0 }

  /** The same in whole segments. */
  function Inward(p: Partitioning, n: nat, c: nat): nat {
    if n < 2 * c + Fewest(p) then Fewest(p) else n - 2 * c
  }

  lemma CeilOffset(v: nat, c: nat)
    ensures v >= 2 * c * ONE ==> FxpCeil(Offset(v, c)) == FxpCeil(v) - 2 * c
    ensures v < 2 * c * ONE ==> FxpCeil(v) <= 2 * c && Offset(v, c) == 0
  {
    if v >= 2 * c * ONE {
      var k := 2 * c;
      assert (v - k * ONE) / ONE == v / ONE - k && (v - k * ONE) % ONE == v % ONE;
    }
  }

  lemma OffsetCount(p: Partitioning, v: nat, c: nat)
    requires p != Undefined && Regular(p, v)
    ensures Count(p, Offset(v, c)) == Inward(p, Count(p, v), c)
  {
    CeilOffset(v, c);
    hide FxpCeil, Offset;
    assert FxpCeil(0) == 0 by { ZeroCeil(); }
  }

  lemma ZeroCeil()
    ensures FxpCeil(0) == 0
  {
  }

  /** Integer factors never exceed what the sizing expected for a larger factor; powers of two
      do not as long as dropping the fraction of the largest factor does not matter. */
  predicate RoundsAlike(p: Partitioning, f: real) {
    p.PowerOfTwo? ==>
      var c := Clamp(f, 1.0, 64.0);
      c == c.Floor as real || c.Floor !in {1, 2, 4, 8, 16, 32}
  }

  lemma FxpCeilBound(v: nat, k: nat)
    ensures FxpCeil(v) <= k <==> v <= k * ONE
  {
  }

  lemma WholeCount(p: Partitioning, k: nat)
    ensures FxpCeil(k * ONE) == k && (k * ONE) % ONE == 0
  {
    FxpCeilBound(k * ONE, k);
    if k > 0 {
      FxpCeilBound(k * ONE, k - 1);
    }
  }

  lemma FractionAtRunTime(p: Partitioning, x: real)
    requires p.FractionalOdd? || p.FractionalEven?
    ensures Regular(p, Regularized(p, x))
    ensures Segments(p, Count(p, Regularized(p, x)))
    ensures Count(p, Regularized(p, x)) <= IntegerFactor(p, x)
  {
    var y := Clamped(p, x);
    var v := Regularized(p, x);
    CeilBounds(y, 64);
    CeilBounds(y, 63);
    CeilBounds(y, 0);
    assert v as real <= y * 65536.0 <= Ceil(y) as real * 65536.0;
    FxpCeilBound(v, Ceil(y));
    FxpCeilBound(v, 0);
    FxpCeilBound(v, 1);
  }

  lemma WholeAtRunTime(p: Partitioning, x: real, f: real)
    requires (p.Integer? || p.PowerOfTwo?) && x <= f && RoundsAlike(p, f)
    ensures Regular(p, Regularized(p, x))
    ensures Segments(p, Count(p, Regularized(p, x)))
    ensures Count(p, Regularized(p, x)) <= IntegerFactor(p, f)
  {
    var c := Clamp(Ceil(x) as real, 1.0, 64.0).Floor;
    CeilBounds(x, 1);
    CeilBounds(x, 64);
    CeilBounds(f, c);
    if p.Integer? {
      WholeCount(p, c);
      CeilBounds(Clamp(f, 1.0, 64.0), c - 1);
    } else {
      WholeCount(p, NextPow2(c));
      var m := Clamp(f, 1.0, 64.0).Floor;
      PowersUpTo64(m, 64);
      NextPow2Least(m, 0);
      CeilBounds(x, m + 1);
      CeilBounds(x, m);
      PowersUpTo64(c, NextPow2(m));
    }
  }

  /** A factor the hull stage has clamped makes no more segments than the clamp itself. */
  lemma SegmentsAtRunTime(p: Partitioning, x: real, f: real)
    requires p != Undefined && x <= f && RoundsAlike(p, f)
    ensures Regular(p, Regularized(p, x))
    ensures Segments(p, Count(p, Regularized(p, x)))
    ensures Count(p, Regularized(p, x)) <= IntegerFactor(p, f)
  {
    if p.FractionalOdd? || p.FractionalEven? {
      FractionAtRunTime(p, x);
      FactorMonotone(p, x, f);
    } else {
      WholeAtRunTime(p, x, f);
    }
  }

  /** Otherwise the clamp itself makes more segments than were expected. */
  lemma RoundsApart(p: Partitioning, f: real)
    requires p != Undefined && !RoundsAlike(p, f)
    ensures Count(p, Regularized(p, f)) > IntegerFactor(p, f)
  {
    var m := Clamp(f, 1.0, 64.0).Floor;
    var c := Clamp(Ceil(f) as real, 1.0, 64.0).Floor;
    CeilBounds(f, m);
    CeilBounds(f, m + 1);
    assert c == m + 1;
    PowersUpTo64(m, m);
    NextPow2Least(c, 0);
    WholeCount(p, NextPow2(c));
  }

  // ------------------------------------------------------------- what a factor means

  /** A factor `x` fits into `m` segments: fractional factors drop what is below 1/65536, and no
      factor asks for more than the greatest number of segments. */
  predicate FitsInto(p: Partitioning, x: real, m: nat) {
    match p
    case Undefined => false
    case FractionalOdd => x * 65536.0 < (m * 65536 + 1) as real || m == 63
    case FractionalEven => x * 65536.0 < (m * 65536 + 1) as real || m == 64
    case _ => x <= m as real || m == 64
  }

  /** A factor cuts an edge into the least number of segments it fits into. */
  ghost predicate CutsInto(p: Partitioning, x: real, n: nat) {
    && Segments(p, n) && FitsInto(p, x, n)
    && forall m: nat :: Segments(p, m) && FitsInto(p, x, m) ==> n <= m
  }

  /** The inside is cut into more than one segment unless everything else is not, either. */
  predicate RaisedTo(p: Partitioning, base: nat, ones: bool, n: nat) {
    n == if base == 1 && !ones then (if p.FractionalOdd? then 3 else 2) else base
  }

  lemma FractionFits(p: Partitioning, x: real, m: nat)
    requires (p.FractionalOdd? || p.FractionalEven?) && Segments(p, m)
    ensures Regularized(p, x) <= m * ONE <==> FitsInto(p, x, m)
  {
    var top := if p.FractionalOdd? then 63.0 else 64.0;
    var low := if p.FractionalOdd? then 1.0 else 2.0;
    var y := Clamp(x, low, top) * 65536.0;
    assert Regularized(p, x) == y.Floor;
    assert y.Floor <= m * 65536 <==> y < (m * 65536 + 1) as real;
  }

  lemma WholeFits(p: Partitioning, x: real, m: nat)
    requires (p.Integer? || p.PowerOfTwo?) && Segments(p, m)
    ensures Regularized(p, x) <= m * ONE <==> FitsInto(p, x, m)
  {
    var c := Clamp(Ceil(x) as real, 1.0, 64.0).Floor;
    CeilBounds(x, m);
    CeilBounds(x, 64);
    if p.PowerOfTwo? {
      PowersUpTo64(c, m);
    }
  }

  lemma CountIsLeast(p: Partitioning, v: nat, m: nat)
    requires p != Undefined && Segments(p, m)
    ensures Count(p, v) <= m <==> v <= m * ONE
  {
    FxpCeilBound(v, m);
  }

  /** At run time a factor is regularized, and its segments are the least it fits into. */
  lemma FactorCuts(p: Partitioning, x: real)
    requires p != Undefined
    ensures CutsInto(p, x, Count(p, Regularized(p, x)))
  {
    FactorSegments(p, x);
    var v := Regularized(p, x);
    hide Regularized, Count, FitsInto, Segments;
    forall m: nat | Segments(p, m) ensures FitsInto(p, x, m) <==> Count(p, v) <= m {
      CountIsLeast(p, v, m);
      if p.FractionalOdd? || p.FractionalEven? {
        FractionFits(p, x, m);
      } else {
        WholeFits(p, x, m);
      }
    }
  }

  lemma FactorSegments(p: Partitioning, x: real)
    requires p != Undefined
    ensures Segments(p, Count(p, Regularized(p, x)))
  {
    if p.FractionalOdd? || p.FractionalEven? {
      FractionAtRunTime(p, x);
    } else {
      var c := Clamp(Ceil(x) as real, 1.0, 64.0).Floor;
      WholeCount(p, c);
      PowersUpTo64(c, 64);
      WholeCount(p, NextPow2(c));
    }
  }

  /** That determines the number, and greater factors do not make fewer segments. */
  lemma CutsMonotone(p: Partitioning, x: real, y: real, m: nat, n: nat)
    requires x <= y && CutsInto(p, x, m) && CutsInto(p, y, n)
    ensures m <= n
  {
    assert FitsInto(p, x, n);
  }

  /** Only the factor one makes one segment. */
  lemma OneSegment(p: Partitioning, v: nat)
    requires p != Undefined && Regular(p, v)
    ensures Count(p, v) == 1 <==> v == ONE && p != FractionalEven
  {
    FxpCeilBound(v, 1);
    FxpCeilBound(v, 0);
    FxpCeilBound(v, 2);
  }

  /** So is raising an inside. */
  lemma RaisedCuts(p: Partitioning, v: nat, ones: bool, outerOnes: bool)
    requires p != Undefined && Regular(p, v)
    ensures RaisedTo(p, Count(p, v), if p.FractionalOdd? then ones else outerOnes,
                     Count(p, Raised(p, v, ones, outerOnes)))
  {
    OneSegment(p, v);
    FxpCeilBound(v, 1);
    FxpCeilBound(v, 0);
    FxpCeilBound(v, 2);
    FxpCeilBound(ONE + 1, 1);
    FxpCeilBound(ONE + 1, 2);
    FxpCeilBound(2 * ONE, 2);
    FxpCeilBound(2 * ONE, 1);
  }

  // ------------------------------------------------------------- workloads

  /** A corner of a ring: the patch's vertex on whose way to the centre it lies, and how many
      rings there are outside it. */
  datatype Corner = Corner(vertex: nat, ring: nat)

  datatype Edge = Edge(from: Corner, to: Corner, segments: nat)

  /** What lies between an inner and an outer edge. */
  datatype Strip = Strip(inner: Edge, outer: Edge)

  /** A workload is one strip or two, the second being its complement. */
  datatype Workload = Single(first: Strip) | Double(first: Strip, second: Strip)

  /** The mesh vertices a workload makes. */
  function Vertices(w: Workload): nat {
    StripVertices(w.first) + if w.Double? then StripVertices(w.second) else 0
  }

  function StripVertices(x: Strip): nat { x.inner.segments + x.outer.segments + 2 }

  /** The strip of ring `r` from the side of vertex `a` to that of vertex `b`. */
  function Between(a: nat, b: nat, r: nat, inner: nat, outer: nat): Strip {
    Strip(Edge(Corner(a, r + 1), Corner(b, r + 1), inner), Edge(Corner(a, r), Corner(b, r), outer))
  }

  /** The same with the segments a ring of an inside of `n` has. */
  function Side(p: Partitioning, n: nat, a: nat, b: nat, edge: nat, r: nat): Strip {
    Between(a, b, r, Inward(p, n, r + 1), Outer(p, n, edge, r))
  }

  /** The outer edge of ring `r`: the patch's own edge for the outermost ring. */
  function Outer(p: Partitioning, n: nat, edge: nat, r: nat): nat { if r == 0 then edge else Inward(p, n, r) }

  datatype Edges = Edges(e0: nat, e1: nat, e2: nat, e3: nat)

  /** The inside a partitioning can have. */
  predicate Inner(p: Partitioning, n: nat) {
    p != Undefined && n >= 1 && (p.FractionalOdd? ==> n % 2 == 1) && (p.FractionalEven? ==> n % 2 == 0)
  }

  lemma InwardExact(p: Partitioning, n: nat, c: nat)
    requires Inner(p, n) && 2 * c <= n
    ensures Inward(p, n, c) == n - 2 * c
  {
  }

  lemma SmallCounts(p: Partitioning)
    ensures Count(p, 0) <= 1
    ensures Count(p, ONE) == if p.FractionalEven? then 2 else 1
  {
    assert FxpCeil(0) == 0 && FxpCeil(ONE) == 1;
  }

  // ------------------------------------------------------------- triangles

  /** The vertices of a triangle are (1, 0, 0), (0, 1, 0) and (0, 0, 1), in this order. */
  function TriangleRing(p: Partitioning, n: nat, o: Edges, r: nat, u: nat): seq<Workload>
    requires r < u
  {
    var side0, side1, side2 := Side(p, n, 1, 2, o.e0, r), Side(p, n, 2, 0, o.e1, r), Side(p, n, 0, 1, o.e2, r);
    if r + 1 == u then
      [Double(side1, side2), if n % 2 == 1 then Double(side0, Centre(p, n / 2)) else Single(side0)]
    else
      [Double(side1, Side(p, n, 2, 0, 0, u - 1)), Double(side2, Side(p, n, 0, 1, 0, u - 1)),
       Double(side0, Side(p, n, 1, 2, 0, u - 1))]
  }

  /** The triangle left in the middle: its inner edge is a point. */
  function Centre(p: Partitioning, rings: nat): Strip {
    Strip(Edge(Corner(1, rings), Corner(1, rings), Count(p, 0)),
          Edge(Corner(2, rings), Corner(0, rings), Count(p, ONE)))
  }

  /** Rings `r` to `u - 1`, taken from both ends at once. */
  function TriangleRings(p: Partitioning, n: nat, o: Edges, r: nat, u: nat): seq<Workload>
    decreases u - r
  {
    if r >= u then (if n % 2 == 1 then [Single(Centre(p, n / 2))] else [])
    else if r + 1 == u then TriangleRing(p, n, o, r, u)
    else TriangleRing(p, n, o, r, u) + TriangleRings(p, n, o, r + 1, u - 1)
  }

  /** The inner factor is raised unless all factors are one. */
  function Raised(p: Partitioning, inner: nat, ones: bool, outerOnes: bool): nat {
    match p
    case FractionalOdd => if !ones && inner < ONE + 1 then ONE + 1 else inner
    case FractionalEven => inner
    case _ => if !outerOnes && inner < 2 * ONE then 2 * ONE else inner
  }

  function TrianglePatch(p: Partitioning, inside: real, out0: real, out1: real, out2: real): seq<Workload>
    requires p != Undefined
  {
    if out0 <= 0.0 || out1 <= 0.0 || out2 <= 0.0 then []
    else
      var n := TriangleInner(p, inside, out0, out1, out2);
      TriangleRings(p, n, TriangleEdges(p, out0, out1, out2), 0, n / 2)
  }

  function TriangleEdges(p: Partitioning, out0: real, out1: real, out2: real): Edges
    requires p != Undefined
  {
    Edges(Count(p, Regularized(p, out0)), Count(p, Regularized(p, out1)), Count(p, Regularized(p, out2)), 0)
  }

  /** The segments of the inside of a triangle patch. */
  function TriangleInner(p: Partitioning, inside: real, out0: real, out1: real, out2: real): nat
    requires p != Undefined
  {
    var outerOnes := Regularized(p, out0) == Regularized(p, out1) == Regularized(p, out2) == ONE;
    Count(p, Raised(p, Regularized(p, inside), outerOnes && Regularized(p, inside) == ONE, outerOnes))
  }

  lemma FactorRegular(p: Partitioning, x: real)
    requires p != Undefined
    ensures Regular(p, Regularized(p, x))
  {
    if p.FractionalOdd? || p.FractionalEven? {
      FractionAtRunTime(p, x);
    } else {
      var c := Clamp(Ceil(x) as real, 1.0, 64.0).Floor;
      WholeCount(p, c);
      PowersUpTo64(c, 64);
      WholeCount(p, NextPow2(c));
    }
  }

  lemma {:induction false} TriangleCount(p: Partitioning, n: nat, o: Edges, r: nat, u: nat)
    requires r <= u
    ensures var d := u - r;
            |TriangleRings(p, n, o, r, u)| == if d % 2 == 0 then d / 2 * 3 + n % 2 else d / 2 * 3 + 2
    decreases u - r
  {
    if r + 1 < u {
      TriangleCount(p, n, o, r + 1, u - 1);
    }
  }

  // ------------------------------------------------------------- quads

  function Min(a: nat, b: nat): nat { if a < b then a else b }
  function Max(a: nat, b: nat): nat { if a < b then b else a }

  /** The inside of a quad: its segments both ways, and whether the raw factor of the first is
      the greater one. */
  datatype Inside = Inside(n0: nat, n1: nat, firstGreater: bool) {
    function Rings(): nat { Min(n0, n1) / 2 }
    function Depth(): nat { Max(n0, n1) / 2 }
  }

  /** One side of ring `r`, maybe with that of ring `u - 1`. */
  function QuadSide(p: Partitioning, n: nat, a: nat, b: nat, edge: nat, r: nat, u: nat, complement: bool): Workload
    requires r < u
  {
    if complement then Double(Side(p, n, a, b, edge, r), Side(p, n, a, b, 0, u - 1))
    else Single(Side(p, n, a, b, edge, r))
  }

  /** The vertices of a quad are (0, 0), (1, 0), (1, 1) and (0, 1), in this order. */
  function QuadRing(p: Partitioning, s: Inside, o: Edges, r: nat, u: nat): seq<Workload>
    requires r < u
  {
    if r + 1 == u then
      [Double(Side(p, s.n0, 2, 3, o.e3, r), Side(p, s.n1, 1, 2, o.e2, r)),
       Double(Side(p, s.n0, 0, 1, o.e1, r), Side(p, s.n1, 3, 0, o.e0, r))]
    else
      var complement := u - 1 < s.Rings();
      [QuadSide(p, s.n0, 2, 3, o.e3, r, u, complement), QuadSide(p, s.n1, 1, 2, o.e2, r, u, complement),
       QuadSide(p, s.n0, 0, 1, o.e1, r, u, complement), QuadSide(p, s.n1, 3, 0, o.e0, r, u, complement)]
  }

  /** A single row of quads is left when the smaller number of segments is odd. */
  function QuadMiddle(p: Partitioning, s: Inside): seq<Workload> {
    if Min(s.n0, s.n1) % 2 == 0 then []
    else
      var e, r := Inward(p, if s.firstGreater then s.n0 else s.n1, s.Rings()), s.Rings();
      if s.firstGreater then [Single(Strip(Edge(Corner(3, r), Corner(2, r), e), Edge(Corner(0, r), Corner(1, r), e)))]
      else [Single(Strip(Edge(Corner(2, r), Corner(1, r), e), Edge(Corner(3, r), Corner(0, r), e)))]
  }

  function QuadRings(p: Partitioning, s: Inside, o: Edges, r: nat, u: nat): seq<Workload>
    decreases u - r
  {
    if r >= u || r >= s.Rings() then QuadMiddle(p, s)
    else if r + 1 == u then QuadRing(p, s, o, r, u) + QuadMiddle(p, s)
    else QuadRing(p, s, o, r, u) + QuadRings(p, s, o, r + 1, u - 1)
  }

  function QuadEdges(p: Partitioning, out0: real, out1: real, out2: real, out3: real): Edges
    requires p != Undefined
  {
    Edges(Count(p, Regularized(p, out0)), Count(p, Regularized(p, out1)), Count(p, Regularized(p, out2)),
          Count(p, Regularized(p, out3)))
  }

  function QuadInner(p: Partitioning, in0: real, in1: real, out0: real, out1: real, out2: real, out3: real): Inside
    requires p != Undefined
  {
    var outerOnes :=
      Regularized(p, out0) == Regularized(p, out1) == Regularized(p, out2) == Regularized(p, out3) == ONE;
    var ones := outerOnes && Regularized(p, in0) == Regularized(p, in1) == ONE;
    Inside(Count(p, Raised(p, Regularized(p, in0), ones, outerOnes)),
           Count(p, Raised(p, Regularized(p, in1), ones, outerOnes)), in0 > in1)
  }

  function QuadPatch(p: Partitioning, in0: real, in1: real, out0: real, out1: real, out2: real,
                     out3: real): seq<Workload>
    requires p != Undefined
  {
    if out0 <= 0.0 || out1 <= 0.0 || out2 <= 0.0 || out3 <= 0.0 then []
    else
      var s := QuadInner(p, in0, in1, out0, out1, out2, out3);
      QuadRings(p, s, QuadEdges(p, out0, out1, out2, out3), 0, s.Depth())
  }

  /** The rings of a quad that are cut: until the depth meets them, or the narrower side is used up. */
  lemma {:induction false} QuadCount(p: Partitioning, s: Inside, o: Edges, r: nat, u: nat)
    requires r <= u
    ensures var d := u - r;
            var left := if r < s.Rings() then s.Rings() - r else 0;
            |QuadRings(p, s, o, r, u)| == (if left <= d / 2 then 4 * left else 2 * d) + Min(s.n0, s.n1) % 2
    decreases u - r
  {
    if r < u && r < s.Rings() && r + 1 < u {
      QuadCount(p, s, o, r + 1, u - 1);
    }
  }
}
