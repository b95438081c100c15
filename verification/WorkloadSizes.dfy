/** How many workloads a patch makes and how large they are, against the room made for them. */
module WorkloadSizes {
  import opened Tessellation
  import opened Workloads
  import opened WorkloadPlaces

  // ------------------------------------------------------------- how many workloads

  /** A triangle patch never makes more workloads than there is room for. */
  lemma TriangleFits(p: Partitioning, n: nat, o: Edges, segments: nat)
    requires 1 <= n <= segments <= 64
    ensures |TriangleRings(p, n, o, 0, n / 2)| <= MaxWorkloads(Tri, segments)
  {
    hide TriangleRings;
    TriangleCount(p, n, o, 0, n / 2);
    QuarterUpIs(segments);
  }

  lemma RoomIs(n: nat)
    requires 1 <= n <= 64
    ensures MaxWorkloads(Tri, n) == 3 * ((n + 2) / 4) + n % 2
    ensures MaxWorkloads(Quad, n) == 4 * ((n + 2) / 4) + n % 2
    ensures MaxWorkloads(Isoline, n) == MaxWorkloads(NoDomain, n) == 0
  {
    QuarterUpIs(n);
  }

  /** Insides of four or five segments, of eight or nine and so on use the room up. */
  lemma TriangleAttained(p: Partitioning, n: nat, o: Edges)
    requires 1 <= n <= 64
    ensures |TriangleRings(p, n, o, 0, n / 2)| == MaxWorkloads(Tri, n) <==> n % 4 == 0 || n % 4 == 1
  {
    hide TriangleRings, MaxWorkloads;
    RoomIs(n);
    TriangleCount(p, n, o, 0, n / 2);
    var q, digit := n / 4, n % 4;
    assert n == 4 * q + digit && n / 2 == 2 * q + digit / 2;
  }

  /** The longer inside has all the segments expected, a multiple of four of them, and the shorter
      has an odd number, half as many or more. */
  predicate QuadOver(s: Inside, segments: nat) {
    && segments % 4 == 0 && Max(s.n0, s.n1) == segments
    && Min(s.n0, s.n1) % 2 == 1 && Min(s.n0, s.n1) / 2 >= segments / 4
  }

  /** A quad patch never does either, with that one exception. */
  lemma QuadFits(p: Partitioning, s: Inside, o: Edges, segments: nat)
    requires 1 <= s.n0 <= segments <= 64 && 1 <= s.n1 <= segments
    ensures |QuadRings(p, s, o, 0, s.Depth())| <= MaxWorkloads(Quad, segments)
            <==> !QuadOver(s, segments)
  {
    hide QuadRings, QuarterUp;
    QuadCount(p, s, o, 0, s.Depth());
    QuarterUpIs(segments);
    var q, digit := Digits(segments);
    var longer, shorter := Max(s.n0, s.n1), Min(s.n0, s.n1);
    QuadArithmetic(segments, q, digit, longer, longer / 2, shorter, shorter / 2, longer / 2 / 2);
  }

  /** The arithmetic of the above, with quotients and remainders named. */
  lemma QuadArithmetic(segments: nat, q: nat, digit: nat, longer: nat, depth: nat, shorter: nat, rings: nat, half: nat)
    requires segments + 2 == 4 * q + digit && digit < 4
    requires 2 * depth <= longer <= 2 * depth + 1 && 2 * rings <= shorter <= 2 * rings + 1
    requires 2 * half <= depth <= 2 * half + 1
    requires 1 <= shorter <= longer <= segments
    ensures (if rings <= half then 4 * rings else 2 * depth) + (shorter - 2 * rings)
            <= 4 * q + (if digit == 1 || digit == 3 then 1 else 0)
            <==> !(digit == 2 && longer == segments && shorter == 2 * rings + 1 && rings >= q)
  {
  }

  // ------------------------------------------------------------- how large workloads are

  /** Every workload's vertices fit a mesh declared for `segments`. */
  ghost predicate AllFit(ws: seq<Workload>, segments: nat) {
    forall i :: 0 <= i < |ws| ==> Vertices(ws[i]) <= MeshVertices(segments)
  }

  lemma FitTogether(a: seq<Workload>, b: seq<Workload>, segments: nat)
    ensures AllFit(a + b, segments) <==> AllFit(a, segments) && AllFit(b, segments)
  {
    if AllFit(a + b, segments) {
      forall i | 0 <= i < |a| ensures Vertices(a[i]) <= MeshVertices(segments) {
        assert a[i] == (a + b)[i];
      }
      forall i | 0 <= i < |b| ensures Vertices(b[i]) <= MeshVertices(segments) {
        assert b[i] == (a + b)[|a| + i];
      }
    }
  }

  predicate EdgesWithin(o: Edges, segments: nat) {
    o.e0 <= segments && o.e1 <= segments && o.e2 <= segments && o.e3 <= segments
  }

  lemma MeshBound(segments: nat)
    ensures MeshVertices(segments) == 2 * segments + if segments % 2 == 0 then 5 else 7
  {
  }

  /** The exception: a triangle of inside three in an even number of segments, with both edges of
      its first workload at that number, needs one vertex more than declared. */
  predicate TriangleTight(n: nat, o: Edges, segments: nat) {
    segments % 2 == 0 && n == 3 && o.e1 == segments && o.e2 == segments
  }

  /** Two rings further out than where they meet: what one gains the other loses. */
  lemma TrianglePairFits(p: Partitioning, n: nat, o: Edges, r: nat, u: nat, segments: nat)
    requires Inner(p, n) && r + 1 < u && r + u == n / 2 && n <= segments && EdgesWithin(o, segments)
    ensures AllFit(TriangleRing(p, n, o, r, u), segments)
  {
    hide MeshVertices, Inward, Count;
    MeshBound(segments);
    InwardExact(p, n, r);
    InwardExact(p, n, r + 1);
    InwardExact(p, n, u);
    InwardExact(p, n, u - 1);
  }

  lemma TriangleLastFits(p: Partitioning, n: nat, o: Edges, r: nat, segments: nat)
    requires Inner(p, n) && r + r + 1 == n / 2 && n <= segments && EdgesWithin(o, segments)
    ensures AllFit(TriangleRing(p, n, o, r, r + 1), segments) <==> !TriangleTight(n, o, segments)
  {
    hide MeshVertices, Inward, Count;
    MeshBound(segments);
    SmallCounts(p);
    InwardExact(p, n, r);
    InwardExact(p, n, r + 1);
    var ws := TriangleRing(p, n, o, r, r + 1);
    assert |ws| == 2;
    assert Vertices(ws[1]) <= MeshVertices(segments);
    assert AllFit(ws, segments) <==> Vertices(ws[0]) <= MeshVertices(segments);
  }

  lemma {:induction false} TriangleVertices(p: Partitioning, n: nat, o: Edges, r: nat, u: nat, segments: nat)
    requires Inner(p, n) && r <= u && r + u == n / 2 && n <= segments && EdgesWithin(o, segments)
    ensures AllFit(TriangleRings(p, n, o, r, u), segments) <==> !(r < u && TriangleTight(n, o, segments))
    decreases u - r
  {
    if r >= u {
      SmallCounts(p);
    } else {
      if r + 1 == u {
        TriangleLastFits(p, n, o, r, segments);
      } else {
        TrianglePairFits(p, n, o, r, u, segments);
        TriangleVertices(p, n, o, r + 1, u - 1, segments);
        FitTogether(TriangleRing(p, n, o, r, u), TriangleRings(p, n, o, r + 1, u - 1), segments);
      }
    }
  }

  /** The same exception for quads: either pair of adjacent edges. */
  predicate QuadTight(s: Inside, o: Edges, segments: nat) {
    segments % 2 == 0 && s.n0 == 3 && s.n1 == 3
    && ((o.e2 == segments && o.e3 == segments) || (o.e0 == segments && o.e1 == segments))
  }

  predicate InsideWithin(p: Partitioning, s: Inside, segments: nat) {
    Inner(p, s.n0) && Inner(p, s.n1) && s.n0 <= segments && s.n1 <= segments
  }

  lemma InwardShrinks(p: Partitioning, n: nat, c: nat)
    requires Inner(p, n)
    ensures Inward(p, n, c) <= n
  {
  }

  lemma StripFits(p: Partitioning, s: Inside, n: nat, a: nat, b: nat, edge: nat, r: nat, u: nat, segments: nat)
    requires InsideWithin(p, s, segments) && n in {s.n0, s.n1} && edge <= segments
    requires r + 1 < u && r + u == s.Depth()
    ensures Vertices(QuadSide(p, n, a, b, edge, r, u, u - 1 < s.Rings())) <= MeshVertices(segments)
  {
    hide MeshVertices, Inward, Side, StripVertices;
    MeshBound(segments);
    SideVertices(p, n, a, b, edge, r);
    SideVertices(p, n, a, b, 0, u - 1);
    if u - 1 < s.Rings() {
      InwardExact(p, n, r);
      InwardExact(p, n, r + 1);
      InwardExact(p, n, u);
      InwardExact(p, n, u - 1);
    } else {
      InwardShrinks(p, n, r);
      InwardShrinks(p, n, r + 1);
    }
  }

  /** Where the rings meet, a workload takes one strip of each direction. */
  lemma JointFits(a: nat, b: nat, edgeA: nat, edgeB: nat, r: nat, segments: nat)
    requires 2 * r + 2 <= a <= 4 * r + 3 && 2 * r + 2 <= b <= 4 * r + 3 && (a >= 4 * r + 2 || b >= 4 * r + 2)
    requires a <= segments && b <= segments && edgeA <= segments && edgeB <= segments
    ensures (a - 2 * r - 2) + (if r == 0 then edgeA else a - 2 * r) + 2
            + (b - 2 * r - 2) + (if r == 0 then edgeB else b - 2 * r) + 2 <= MeshVertices(segments)
            <==> !(segments % 2 == 0 && a == 3 && b == 3 && edgeA == segments && edgeB == segments)
  {
    hide MeshVertices;
    MeshBound(segments);
  }

  lemma SideVertices(p: Partitioning, n: nat, a: nat, b: nat, edge: nat, r: nat)
    ensures StripVertices(Side(p, n, a, b, edge, r)) == Inward(p, n, r + 1) + Outer(p, n, edge, r) + 2
  {
  }

  lemma TwoFit(ws: seq<Workload>, segments: nat)
    requires |ws| == 2
    ensures AllFit(ws, segments) <==>
            Vertices(ws[0]) <= MeshVertices(segments) && Vertices(ws[1]) <= MeshVertices(segments)
  {
  }

  lemma QuadLastFits(p: Partitioning, s: Inside, o: Edges, r: nat, segments: nat)
    requires InsideWithin(p, s, segments) && EdgesWithin(o, segments) && r < s.Rings() && r + r + 1 == s.Depth()
    ensures AllFit(QuadRing(p, s, o, r, r + 1), segments) <==> !QuadTight(s, o, segments)
  {
    hide MeshVertices, Inward, Side, StripVertices, AllFit;
    InwardExact(p, s.n0, r);
    InwardExact(p, s.n0, r + 1);
    InwardExact(p, s.n1, r);
    InwardExact(p, s.n1, r + 1);
    JointFits(s.n0, s.n1, o.e3, o.e2, r, segments);
    JointFits(s.n0, s.n1, o.e1, o.e0, r, segments);
    SideVertices(p, s.n0, 2, 3, o.e3, r);
    SideVertices(p, s.n1, 1, 2, o.e2, r);
    SideVertices(p, s.n0, 0, 1, o.e1, r);
    SideVertices(p, s.n1, 3, 0, o.e0, r);
    var ws := QuadRing(p, s, o, r, r + 1);
    TwoFit(ws, segments);
  }

  lemma QuadPairFits(p: Partitioning, s: Inside, o: Edges, r: nat, u: nat, segments: nat)
    requires InsideWithin(p, s, segments) && EdgesWithin(o, segments) && r + 1 < u && r + u == s.Depth()
    ensures AllFit(QuadRing(p, s, o, r, u), segments)
  {
    hide QuadSide, MeshVertices;
    StripFits(p, s, s.n0, 2, 3, o.e3, r, u, segments);
    StripFits(p, s, s.n1, 1, 2, o.e2, r, u, segments);
    StripFits(p, s, s.n0, 0, 1, o.e1, r, u, segments);
    StripFits(p, s, s.n1, 3, 0, o.e0, r, u, segments);
  }

  lemma MiddleFits(p: Partitioning, s: Inside, segments: nat)
    requires InsideWithin(p, s, segments)
    ensures AllFit(QuadMiddle(p, s), segments)
  {
    MeshBound(segments);
    InwardShrinks(p, s.n0, s.Rings());
    InwardShrinks(p, s.n1, s.Rings());
  }

  lemma {:induction false} QuadVertices(p: Partitioning, s: Inside, o: Edges, r: nat, u: nat, segments: nat)
    requires InsideWithin(p, s, segments) && EdgesWithin(o, segments) && r <= u && r + u == s.Depth()
    ensures AllFit(QuadRings(p, s, o, r, u), segments) <==> !(r < u && r < s.Rings() && QuadTight(s, o, segments))
    decreases u - r
  {
    hide QuadRing, QuadMiddle, AllFit, InsideWithin, EdgesWithin;
    MiddleFits(p, s, segments);
    if r < u && r < s.Rings() {
      if r + 1 == u {
        QuadLastFits(p, s, o, r, segments);
        FitTogether(QuadRing(p, s, o, r, u), QuadMiddle(p, s), segments);
      } else {
        QuadPairFits(p, s, o, r, u, segments);
        QuadVertices(p, s, o, r + 1, u - 1, segments);
        FitTogether(QuadRing(p, s, o, r, u), QuadRings(p, s, o, r + 1, u - 1), segments);
      }
    }
  }

  // ------------------------------------------------------------- whole patches

  /** Raising the inside never goes beyond the other factors that cause it. */
  lemma RaiseWithin(p: Partitioning, other: nat, segments: nat)
    requires (p.Integer? || p.PowerOfTwo? || p.FractionalOdd?) && Regular(p, other) && other != ONE
    requires Count(p, other) <= segments
    ensures Count(p, if p.FractionalOdd? then ONE + 1 else 2 * ONE) <= segments
  {
    FxpCeilBound(other, 1);
    FxpCeilBound(ONE + 1, 1);
    FxpCeilBound(ONE + 1, 2);
    FxpCeilBound(2 * ONE, 2);
  }

  /** What clamped factors make of an inside factor. */
  lemma InsideAtRunTime(p: Partitioning, inside: real, cause: nat, ones: bool, outerOnes: bool, f: real)
    requires p != Undefined && inside <= f && RoundsAlike(p, f)
    requires Regular(p, cause) && Count(p, cause) <= IntegerFactor(p, f)
    requires p.FractionalOdd? && !ones ==> cause != ONE
    requires (p.Integer? || p.PowerOfTwo?) && !outerOnes ==> cause != ONE
    ensures var n := Count(p, Raised(p, Regularized(p, inside), ones, outerOnes));
            Segments(p, n) && Inner(p, n) && n <= IntegerFactor(p, f)
  {
    SegmentsAtRunTime(p, inside, f);
    if cause != ONE && !p.FractionalEven? {
      RaiseWithin(p, cause, IntegerFactor(p, f));
    }
    hide IntegerFactor, Regularized;
    var v := Raised(p, Regularized(p, inside), ones, outerOnes);
    FxpCeilBound(v, 0);
  }

  /** The workloads of a triangle patch always have their place in the payload; their vertices
      have theirs in the mesh except in the tight case. */
  lemma TrianglePatchFits(p: Partitioning, f: real, inside: real, out0: real, out1: real, out2: real)
    requires p != Undefined && RoundsAlike(p, f)
    requires inside <= f && out0 <= f && out1 <= f && out2 <= f
    requires out0 > 0.0 && out1 > 0.0 && out2 > 0.0
    ensures var n, o := TriangleInner(p, inside, out0, out1, out2), TriangleEdges(p, out0, out1, out2);
            var segments := IntegerFactor(p, f);
            var ws := TrianglePatch(p, inside, out0, out1, out2);
            && |ws| <= MaxWorkloads(Tri, segments)
            && (AllFit(ws, segments) <==> !TriangleTight(n, o, segments))
            && (!p.Integer? ==> AllFit(ws, segments))
  {
    hide Regularized, IntegerFactor, Count, TriangleRings, Raised;
    var segments := IntegerFactor(p, f);
    RoundsUp(p, f, segments);
    SegmentsAtRunTime(p, inside, f);
    SegmentsAtRunTime(p, out0, f);
    SegmentsAtRunTime(p, out1, f);
    SegmentsAtRunTime(p, out2, f);
    var v, a, b, c := Regularized(p, inside), Regularized(p, out0), Regularized(p, out1), Regularized(p, out2);
    var outerOnes := a == b == c == ONE;
    var cause := if a != ONE then a else if b != ONE then b else if c != ONE then c else v;
    InsideAtRunTime(p, inside, cause, outerOnes && v == ONE, outerOnes, f);
    var n := TriangleInner(p, inside, out0, out1, out2);
    TriangleFits(p, n, TriangleEdges(p, out0, out1, out2), segments);
    TriangleVertices(p, n, TriangleEdges(p, out0, out1, out2), 0, n / 2, segments);
    if !p.Integer? {
      NeverTight(p, n, segments);
    }
  }

  /** Only integer partitioning can cut an inside of three out of an even number of segments. */
  lemma NeverTight(p: Partitioning, n: nat, segments: nat)
    requires p != Undefined && Segments(p, n) && Segments(p, segments) && !p.Integer?
    ensures n != 3 || segments % 2 == 1
  {
  }

  /** Nor can any other put more workloads into a quad than there is room for. */
  lemma NeverOver(p: Partitioning, a: nat, b: nat, segments: nat)
    requires p != Undefined && Segments(p, a) && Segments(p, b) && Segments(p, segments) && !p.Integer?
    requires segments % 4 == 0
    ensures !(Min(a, b) % 2 == 1 && Min(a, b) / 2 >= segments / 4)
  {
  }

  /** The same for a quad patch: its workloads have a place unless both insides are as unlucky as
      QuadFits says. */
  lemma QuadPatchFits(p: Partitioning, f: real, in0: real, in1: real, out0: real, out1: real, out2: real, out3: real)
    requires p != Undefined && RoundsAlike(p, f)
    requires in0 <= f && in1 <= f && out0 <= f && out1 <= f && out2 <= f && out3 <= f
    requires out0 > 0.0 && out1 > 0.0 && out2 > 0.0 && out3 > 0.0
    ensures var s, o := QuadInner(p, in0, in1, out0, out1, out2, out3), QuadEdges(p, out0, out1, out2, out3);
            var segments := IntegerFactor(p, f);
            var ws := QuadPatch(p, in0, in1, out0, out1, out2, out3);
            && (|ws| <= MaxWorkloads(Quad, segments) <==> !QuadOver(s, segments))
            && (AllFit(ws, segments) <==> !QuadTight(s, o, segments))
            && (!p.Integer? ==> |ws| <= MaxWorkloads(Quad, segments) && AllFit(ws, segments))
  {
    hide Regularized, IntegerFactor, Count, QuadRings, Raised;
    var segments := IntegerFactor(p, f);
    RoundsUp(p, f, segments);
    SegmentsAtRunTime(p, in0, f);
    SegmentsAtRunTime(p, in1, f);
    SegmentsAtRunTime(p, out0, f);
    SegmentsAtRunTime(p, out1, f);
    SegmentsAtRunTime(p, out2, f);
    SegmentsAtRunTime(p, out3, f);
    var v, w := Regularized(p, in0), Regularized(p, in1);
    var a, b, c, d := Regularized(p, out0), Regularized(p, out1), Regularized(p, out2), Regularized(p, out3);
    var outerOnes := a == b == c == d == ONE;
    var ones := outerOnes && v == w == ONE;
    var cause :=
      if a != ONE then a else if b != ONE then b else if c != ONE then c else if d != ONE then d
      else if v != ONE then v else w;
    InsideAtRunTime(p, in0, cause, ones, outerOnes, f);
    InsideAtRunTime(p, in1, cause, ones, outerOnes, f);
    QuadCutFits(p, QuadInner(p, in0, in1, out0, out1, out2, out3), QuadEdges(p, out0, out1, out2, out3), segments);
  }

  lemma QuadCutFits(p: Partitioning, s: Inside, o: Edges, segments: nat)
    requires p != Undefined && Segments(p, s.n0) && Segments(p, s.n1) && Segments(p, segments)
    requires s.n0 <= segments && s.n1 <= segments && EdgesWithin(o, segments)
    ensures var ws := QuadRings(p, s, o, 0, s.Depth());
            && (|ws| <= MaxWorkloads(Quad, segments) <==> !QuadOver(s, segments))
            && (AllFit(ws, segments) <==> !QuadTight(s, o, segments))
            && (!p.Integer? ==> !QuadOver(s, segments) && !QuadTight(s, o, segments))
  {
    hide QuadRings, AllFit, MaxWorkloads;
    QuadFits(p, s, o, segments);
    QuadVertices(p, s, o, 0, s.Depth(), segments);
    if !p.Integer? {
      NeverTight(p, s.n0, segments);
      if segments % 4 == 0 {
        NeverOver(p, s.n0, s.n1, segments);
      }
    }
  }

  /** Both exceptions happen: a quad of three by four segments makes five workloads where four were
      expected, and a triangle of inside three with edges of four needs 14 vertices of 13. */
  lemma Exceptions()
    ensures |QuadPatch(Integer, 3.0, 4.0, 4.0, 4.0, 4.0, 4.0)| == 5
    ensures MaxWorkloads(Quad, IntegerFactor(Integer, 4.0)) == 4
    ensures !AllFit(TrianglePatch(Integer, 3.0, 4.0, 4.0, 4.0), IntegerFactor(Integer, 4.0))
  {
    WholeFactor(3);
    WholeFactor(4);
    hide Regularized, Count, IntegerFactor, QuadRings, TriangleRings, AllFit, QuarterUp;
    QuarterUpIs(4);
    var o := Edges(4, 4, 4, 4);
    QuadCount(Integer, Inside(3, 4, false), o, 0, 2);
    assert QuadEdges(Integer, 4.0, 4.0, 4.0, 4.0) == o;
    assert QuadInner(Integer, 3.0, 4.0, 4.0, 4.0, 4.0, 4.0) == Inside(3, 4, false);
    TrianglePatchFits(Integer, 4.0, 3.0, 4.0, 4.0, 4.0);
  }
}
