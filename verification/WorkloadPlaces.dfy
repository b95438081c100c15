/** Where the strips of a patch lie: each side of each ring is cut once, in its own place, and no
    cracks are left inside the patch nor, with one exception, between it and its neighbours. */
module WorkloadPlaces {
  import opened Tessellation
  import opened Workloads

  // ------------------------------------------------------------- where the strips lie

  /** How often a strip is among those of the workloads. */
  ghost function Times(ws: seq<Workload>, x: Strip): nat {
    if ws == [] then 0
    else
      (if ws[0].first == x then 1 else 0) + (if ws[0].Double? && ws[0].second == x then 1 else 0) + Times(ws[1..], x)
  }

  lemma {:induction false} TimesTogether(a: seq<Workload>, b: seq<Workload>, x: Strip)
    ensures Times(a + b, x) == Times(a, x) + Times(b, x)
  {
    if a == [] {
      assert a + b == b;
    } else {
      assert (a + b)[0] == a[0] && (a + b)[1..] == a[1..] + b;
      TimesTogether(a[1..], b, x);
    }
  }

  /** How often it is in one workload. */
  ghost function Within(w: Workload, x: Strip): nat {
    (if w.first == x then 1 else 0) + (if w.Double? && w.second == x then 1 else 0)
  }

  lemma TimesOfFew(ws: seq<Workload>, x: Strip)
    ensures |ws| == 1 ==> Times(ws, x) == Within(ws[0], x)
    ensures |ws| == 2 ==> Times(ws, x) == Within(ws[0], x) + Within(ws[1], x)
    ensures |ws| == 3 ==> Times(ws, x) == Within(ws[0], x) + Within(ws[1], x) + Within(ws[2], x)
    ensures |ws| == 4 ==> Times(ws, x) == Within(ws[0], x) + Within(ws[1], x) + Within(ws[2], x) + Within(ws[3], x)
  {
    if 0 < |ws| <= 4 {
      TimesOfOne(ws, x);
      if |ws| > 1 {
        TimesOfOne(ws[1..], x);
      }
      if |ws| > 2 {
        TimesOfOne(ws[1..][1..], x);
      }
      if |ws| > 3 {
        TimesOfOne(ws[1..][1..][1..], x);
      }
    }
  }

  lemma TimesOfOne(ws: seq<Workload>, x: Strip)
    requires ws != []
    ensures Times(ws, x) == Within(ws[0], x) + Times(ws[1..], x)
    ensures |ws| == 1 ==> Times(ws, x) == Within(ws[0], x)
  {
  }

  // ------------------------------------------------------------- a triangle's strips

  /** Ring `k` of a triangle has two segments fewer than the one outside it; the sides of the
      outermost have those of the patch's edges.  Side `s` is opposite vertex `s`. */
  ghost function TriangleSide(n: nat, o: Edges, s: nat, k: nat): Strip
    requires s < 3 && 2 * k + 2 <= n
  {
    var a, b := (s + 1) % 3, (s + 2) % 3;
    var outer := if k > 0 then n - 2 * k else if s == 0 then o.e0 else if s == 1 then o.e1 else o.e2;
    Strip(Edge(Corner(a, k + 1), Corner(b, k + 1), n - 2 * k - 2), Edge(Corner(a, k), Corner(b, k), outer))
  }

  /** A side of one of the rings `r` to `u - 1`. */
  ghost predicate IsTriangleSide(n: nat, o: Edges, x: Strip, r: nat, u: nat) {
    var k, v := x.outer.from.ring, x.outer.from.vertex;
    v < 3 && r <= k < u && 2 * k + 2 <= n && x == TriangleSide(n, o, (v + 2) % 3, k)
  }

  ghost function CentreOf(p: Partitioning, n: nat): Strip {
    Strip(Edge(Corner(1, n / 2), Corner(1, n / 2), if p.FractionalOdd? then 1 else 0),
          Edge(Corner(2, n / 2), Corner(0, n / 2), 1))
  }

  /** An odd inside leaves a triangle of single segments behind the last ring. */
  ghost predicate IsCentre(p: Partitioning, n: nat, x: Strip) {
    n % 2 == 1 && x == CentreOf(p, n)
  }

  /** Every side of every ring, and the triangle in the middle, is cut once and nothing else is. */
  ghost predicate TriangleCut(p: Partitioning, n: nat, o: Edges, ws: seq<Workload>) {
    forall x: Strip :: Times(ws, x) == if IsTriangleSide(n, o, x, 0, n / 2) || IsCentre(p, n, x) then 1 else 0
  }

  lemma SideIsTriangleSide(p: Partitioning, n: nat, o: Edges, s: nat, r: nat)
    requires Inner(p, n) && s < 3 && 2 * r + 2 <= n
    ensures Side(p, n, (s + 1) % 3, (s + 2) % 3, if s == 0 then o.e0 else if s == 1 then o.e1 else o.e2, r)
            == TriangleSide(n, o, s, r)
    ensures r > 0 ==> Side(p, n, (s + 1) % 3, (s + 2) % 3, 0, r) == TriangleSide(n, o, s, r)
  {
    InwardExact(p, n, r);
    InwardExact(p, n, r + 1);
  }

  lemma CentreIs(p: Partitioning, n: nat, x: Strip)
    requires Inner(p, n)
    ensures n % 2 == 1 && x == Centre(p, n / 2) <==> IsCentre(p, n, x)
  {
    SmallCounts(p);
  }

  function One(b: bool): nat { if b then 1 else 0 }

  /** The three sides of a ring are three strips. */
  lemma RingTimes(n: nat, o: Edges, r: nat, x: Strip)
    requires 2 * r + 2 <= n
    ensures One(x == TriangleSide(n, o, 0, r)) + One(x == TriangleSide(n, o, 1, r)) + One(x == TriangleSide(n, o, 2, r))
            == One(IsTriangleSide(n, o, x, r, r + 1))
  {
    var v := x.outer.from.vertex;
    if v < 3 {
      assert (v + 2) % 3 == if v == 0 then 2 else v - 1;
    }
  }

  lemma TriangleRingCut(p: Partitioning, n: nat, o: Edges, r: nat, u: nat, x: Strip)
    requires Inner(p, n) && r < u && r + u == n / 2
    ensures Times(TriangleRing(p, n, o, r, u), x)
            == One(IsTriangleSide(n, o, x, r, r + 1))
               + (if r + 1 == u then One(IsCentre(p, n, x)) else One(IsTriangleSide(n, o, x, u - 1, u)))
  {
    hide IsTriangleSide, TriangleSide, Side, Centre, IsCentre, Times;
    var ws := TriangleRing(p, n, o, r, u);
    TimesOfFew(ws, x);
    SideIsTriangleSide(p, n, o, 0, r);
    SideIsTriangleSide(p, n, o, 1, r);
    SideIsTriangleSide(p, n, o, 2, r);
    RingTimes(n, o, r, x);
    if r + 1 == u {
      CentreIs(p, n, x);
    } else {
      SideIsTriangleSide(p, n, o, 0, u - 1);
      SideIsTriangleSide(p, n, o, 1, u - 1);
      SideIsTriangleSide(p, n, o, 2, u - 1);
      RingTimes(n, o, u - 1, x);
    }
  }

  lemma {:induction false} TriangleRingsCut(p: Partitioning, n: nat, o: Edges, r: nat, u: nat, x: Strip)
    requires Inner(p, n) && r <= u && r + u == n / 2
    ensures Times(TriangleRings(p, n, o, r, u), x) == One(IsTriangleSide(n, o, x, r, u)) + One(IsCentre(p, n, x))
    decreases u - r
  {
    hide TriangleRing, TriangleSide, Centre, IsCentre, Times;
    CentreIs(p, n, x);
    if r >= u {
      TimesOfFew(TriangleRings(p, n, o, r, u), x);
      TimesOfNone(x);
    } else {
      TriangleRingCut(p, n, o, r, u, x);
      if r + 1 < u {
        TriangleRingsCut(p, n, o, r + 1, u - 1, x);
        TimesTogether(TriangleRing(p, n, o, r, u), TriangleRings(p, n, o, r + 1, u - 1), x);
      }
    }
  }

  lemma TimesOfNone(x: Strip)
    ensures Times([], x) == 0
  {
  }

  /** The rings of a triangle are cut side by side, each side once. */
  lemma TriangleIsCut(p: Partitioning, n: nat, o: Edges)
    requires Inner(p, n)
    ensures TriangleCut(p, n, o, TriangleRings(p, n, o, 0, n / 2))
  {
    hide Times, TriangleRings;
    forall x: Strip
      ensures Times(TriangleRings(p, n, o, 0, n / 2), x)
              == if IsTriangleSide(n, o, x, 0, n / 2) || IsCentre(p, n, x) then 1 else 0
    {
      TriangleRingsCut(p, n, o, 0, n / 2, x);
    }
  }

  // ------------------------------------------------------------- no cracks

  /** The lines a strip has in common with its neighbours: its edges, and the single segments
      between their ends. */
  ghost predicate HasLine(x: Strip, e: Edge) {
    || e == x.inner || e == x.outer
    || e == Edge(x.inner.from, x.outer.from, 1) || e == Edge(x.inner.to, x.outer.to, 1)
  }

  /** In a triangle of an even inside, the corners of the last ring meet in the centre. */
  ghost function TrianglePoint(n: nat, c: Corner): Corner {
    if c.ring * 2 == n then Corner(0, c.ring) else c
  }

  ghost predicate SameLine(e: Edge, from: Corner, to: Corner, f: Edge, from': Corner, to': Corner) {
    e.segments == f.segments && ((from == from' && to == to') || (from == to' && to == from'))
  }

  ghost predicate OnBorder(e: Edge) { e.from.ring == 0 && e.to.ring == 0 }

  ghost predicate SameTriangleLine(n: nat, e: Edge, f: Edge) {
    SameLine(e, TrianglePoint(n, e.from), TrianglePoint(n, e.to), f, TrianglePoint(n, f.from), TrianglePoint(n, f.to))
  }

  /** A line inside the patch is also one of another strip, in as many segments. */
  ghost predicate TriangleShared(n: nat, ws: seq<Workload>, x: Strip, e: Edge) {
    exists y, f :: y != x && Times(ws, y) > 0 && HasLine(y, f) && SameTriangleLine(n, e, f)
  }

  lemma Share(n: nat, ws: seq<Workload>, x: Strip, e: Edge, y: Strip, f: Edge)
    requires y != x && Times(ws, y) > 0 && HasLine(y, f) && SameTriangleLine(n, e, f)
    ensures TriangleShared(n, ws, x, e)
  {
  }

  lemma TrianglePieces(p: Partitioning, n: nat, o: Edges, ws: seq<Workload>, k: nat)
    requires Inner(p, n) && TriangleCut(p, n, o, ws)
    ensures k < n / 2 ==> Times(ws, TriangleSide(n, o, 0, k)) == Times(ws, TriangleSide(n, o, 1, k))
                          == Times(ws, TriangleSide(n, o, 2, k)) == 1
    ensures n % 2 == 1 ==> Times(ws, CentreOf(p, n)) == 1
  {
  }

  lemma TriangleSideShared(p: Partitioning, n: nat, o: Edges, ws: seq<Workload>, s: nat, k: nat, e: Edge)
    requires Inner(p, n) && TriangleCut(p, n, o, ws) && s < 3 && k < n / 2
    requires HasLine(TriangleSide(n, o, s, k), e) && !OnBorder(e)
    requires TrianglePoint(n, e.from) != TrianglePoint(n, e.to)
    ensures TriangleShared(n, ws, TriangleSide(n, o, s, k), e)
  {
    hide Times, TriangleCut, TriangleShared;
    var x := TriangleSide(n, o, s, k);
    TrianglePieces(p, n, o, ws, k);
    var before, behind := TriangleSide(n, o, (s + 2) % 3, k), TriangleSide(n, o, (s + 1) % 3, k);
    if e == Edge(x.inner.from, x.outer.from, 1) {
      Share(n, ws, x, e, before, Edge(before.inner.to, before.outer.to, 1));
    } else if e == Edge(x.inner.to, x.outer.to, 1) {
      Share(n, ws, x, e, behind, Edge(behind.inner.from, behind.outer.from, 1));
    } else if e == x.outer {
      TrianglePieces(p, n, o, ws, k - 1);
      var y := TriangleSide(n, o, s, k - 1);
      Share(n, ws, x, e, y, y.inner);
    } else if k + 1 < n / 2 {
      TrianglePieces(p, n, o, ws, k + 1);
      var y := TriangleSide(n, o, s, k + 1);
      Share(n, ws, x, e, y, y.outer);
    } else {
      var y := CentreOf(p, n);
      Share(n, ws, x, e, y, if s == 0 then Edge(y.inner.from, y.outer.from, 1)
                            else if s == 1 then y.outer else Edge(y.inner.to, y.outer.to, 1));
    }
  }

  lemma CentreShared(p: Partitioning, n: nat, o: Edges, ws: seq<Workload>, e: Edge)
    requires Inner(p, n) && TriangleCut(p, n, o, ws) && n % 2 == 1
    requires HasLine(CentreOf(p, n), e) && !OnBorder(e) && TrianglePoint(n, e.from) != TrianglePoint(n, e.to)
    ensures TriangleShared(n, ws, CentreOf(p, n), e)
  {
    hide Times, TriangleCut, TriangleShared;
    var x := CentreOf(p, n);
    var k := n / 2 - 1;
    TrianglePieces(p, n, o, ws, k);
    var s := if e == x.outer then 1 else if e == Edge(x.inner.from, x.outer.from, 1) then 0 else 2;
    var y := TriangleSide(n, o, s, k);
    Share(n, ws, x, e, y, y.inner);
  }

  /** The workloads of a triangle patch leave no cracks between them. */
  lemma TriangleWatertight(p: Partitioning, n: nat, o: Edges, ws: seq<Workload>, x: Strip, e: Edge)
    requires Inner(p, n) && TriangleCut(p, n, o, ws)
    requires Times(ws, x) > 0 && HasLine(x, e) && !OnBorder(e) && TrianglePoint(n, e.from) != TrianglePoint(n, e.to)
    ensures TriangleShared(n, ws, x, e)
  {
    if IsTriangleSide(n, o, x, 0, n / 2) {
      TriangleSideShared(p, n, o, ws, (x.outer.from.vertex + 2) % 3, x.outer.from.ring, e);
    } else {
      assert x == CentreOf(p, n);
      CentreShared(p, n, o, ws, e);
    }
  }

  /** The segments wanted between two vertices of a triangle. */
  ghost function TriangleFactor(o: Edges, a: nat, b: nat): nat {
    if {a, b} == {1, 2} then o.e0 else if {a, b} == {2, 0} then o.e1 else o.e2
  }

  /** Nor do they leave any to the neighbouring patches: every line on the border of the patch has
      the segments of that edge's factor.  With an inside of one there are no rings, and the edges
      are cut rightly as long as they are not cut. */
  lemma TriangleBorder(p: Partitioning, n: nat, o: Edges, ws: seq<Workload>, x: Strip, e: Edge)
    requires Inner(p, n) && TriangleCut(p, n, o, ws)
    requires n == 1 ==> o.e0 == o.e1 == o.e2 == 1
    requires Times(ws, x) > 0 && HasLine(x, e) && OnBorder(e) && e.from != e.to
    ensures e.segments == TriangleFactor(o, e.from.vertex, e.to.vertex)
  {
    if IsTriangleSide(n, o, x, 0, n / 2) {
      var s := (x.outer.from.vertex + 2) % 3;
      assert x == TriangleSide(n, o, s, 0);
      assert {e.from.vertex, e.to.vertex} == {(s + 1) % 3, (s + 2) % 3};
      DifferentPairs(s);
    } else {
      assert IsCentre(p, n, x) && n == 1;
    }
  }

  lemma DifferentPairs(s: nat)
    requires s < 3
    ensures {(s + 1) % 3, (s + 2) % 3} == {1, 2} <==> s == 0
    ensures {(s + 1) % 3, (s + 2) % 3} == {2, 0} <==> s == 1
  {
    assert s !in {(s + 1) % 3, (s + 2) % 3};
  }

  // ------------------------------------------------------------- a quad's strips

  /** Side `i` leads to vertex `i` from the one before it.  The odd sides go along the first inside
      factor, the even ones along the second, and both lose two segments a ring. */
  ghost function QuadSideAt(s: Inside, o: Edges, i: nat, k: nat): Strip
    requires i < 4 && 2 * k + 2 <= s.n0 && 2 * k + 2 <= s.n1
  {
    var n, before := if i % 2 == 1 then s.n0 else s.n1, (i + 3) % 4;
    var edge := if i == 0 then o.e0 else if i == 1 then o.e1 else if i == 2 then o.e2 else o.e3;
    Strip(Edge(Corner(before, k + 1), Corner(i, k + 1), n - 2 * k - 2),
          Edge(Corner(before, k), Corner(i, k), if k == 0 then edge else n - 2 * k))
  }

  /** A side of one of the rings `r` to `u - 1`. */
  ghost predicate IsQuadSide(s: Inside, o: Edges, x: Strip, r: nat, u: nat) {
    var k, v := x.outer.from.ring, x.outer.from.vertex;
    v < 4 && r <= k < u && 2 * k + 2 <= s.n0 && 2 * k + 2 <= s.n1 && x == QuadSideAt(s, o, (v + 1) % 4, k)
  }

  /** The row left behind the last ring when the smaller number of segments is odd; it lies along
      the greater one. */
  ghost function RowOf(s: Inside): Strip {
    if s.firstGreater then
      var r := s.n1 / 2;
      var segments := if s.n0 > 2 * r then s.n0 - 2 * r else 0;
      Strip(Edge(Corner(3, r), Corner(2, r), segments), Edge(Corner(0, r), Corner(1, r), segments))
    else
      var r := s.n0 / 2;
      var segments := if s.n1 > 2 * r then s.n1 - 2 * r else 0;
      Strip(Edge(Corner(2, r), Corner(1, r), segments), Edge(Corner(3, r), Corner(0, r), segments))
  }

  ghost predicate IsRow(s: Inside, x: Strip) {
    (if s.firstGreater then s.n1 else s.n0) % 2 == 1 && x == RowOf(s)
  }

  /** The inside of a quad, its greater side rightly named. */
  predicate QuadInside(p: Partitioning, s: Inside) {
    Inner(p, s.n0) && Inner(p, s.n1) && if s.firstGreater then s.n0 >= s.n1 else s.n0 <= s.n1
  }

  ghost predicate QuadCut(s: Inside, o: Edges, ws: seq<Workload>) {
    forall x: Strip :: Times(ws, x) == if IsQuadSide(s, o, x, 0, s.n0) || IsRow(s, x) then 1 else 0
  }

  lemma SideIsQuadSide(p: Partitioning, s: Inside, o: Edges, i: nat, r: nat)
    requires QuadInside(p, s) && i < 4 && 2 * r + 2 <= s.n0 && 2 * r + 2 <= s.n1
    ensures Side(p, if i % 2 == 1 then s.n0 else s.n1, (i + 3) % 4, i,
                 if i == 0 then o.e0 else if i == 1 then o.e1 else if i == 2 then o.e2 else o.e3, r)
            == QuadSideAt(s, o, i, r)
    ensures r > 0 ==> Side(p, if i % 2 == 1 then s.n0 else s.n1, (i + 3) % 4, i, 0, r) == QuadSideAt(s, o, i, r)
  {
    var n := if i % 2 == 1 then s.n0 else s.n1;
    InwardExact(p, n, r);
    InwardExact(p, n, r + 1);
  }

  /** The four sides of a ring are four strips. */
  lemma QuadRingTimes(s: Inside, o: Edges, r: nat, x: Strip)
    requires 2 * r + 2 <= s.n0 && 2 * r + 2 <= s.n1
    ensures One(x == QuadSideAt(s, o, 0, r)) + One(x == QuadSideAt(s, o, 1, r))
            + One(x == QuadSideAt(s, o, 2, r)) + One(x == QuadSideAt(s, o, 3, r))
            == One(IsQuadSide(s, o, x, r, r + 1))
  {
    var v := x.outer.from.vertex;
    if v < 4 {
      assert (v + 1) % 4 == if v == 3 then 0 else v + 1;
    }
  }

  lemma AllSides(p: Partitioning, s: Inside, o: Edges, r: nat)
    requires QuadInside(p, s) && r < s.Rings()
    ensures Side(p, s.n1, 3, 0, o.e0, r) == QuadSideAt(s, o, 0, r)
    ensures Side(p, s.n0, 0, 1, o.e1, r) == QuadSideAt(s, o, 1, r)
    ensures Side(p, s.n1, 1, 2, o.e2, r) == QuadSideAt(s, o, 2, r)
    ensures Side(p, s.n0, 2, 3, o.e3, r) == QuadSideAt(s, o, 3, r)
  {
    hide Side, QuadSideAt;
    SideIsQuadSide(p, s, o, 0, r);
    SideIsQuadSide(p, s, o, 1, r);
    SideIsQuadSide(p, s, o, 2, r);
    SideIsQuadSide(p, s, o, 3, r);
  }

  lemma AllInnerSides(p: Partitioning, s: Inside, o: Edges, r: nat)
    requires QuadInside(p, s) && 0 < r < s.Rings()
    ensures Side(p, s.n1, 3, 0, 0, r) == QuadSideAt(s, o, 0, r)
    ensures Side(p, s.n0, 0, 1, 0, r) == QuadSideAt(s, o, 1, r)
    ensures Side(p, s.n1, 1, 2, 0, r) == QuadSideAt(s, o, 2, r)
    ensures Side(p, s.n0, 2, 3, 0, r) == QuadSideAt(s, o, 3, r)
  {
    hide Side, QuadSideAt;
    SideIsQuadSide(p, s, o, 0, r);
    SideIsQuadSide(p, s, o, 1, r);
    SideIsQuadSide(p, s, o, 2, r);
    SideIsQuadSide(p, s, o, 3, r);
  }

  /** A ring and the one it is taken with, if that is cut at all. */
  lemma QuadRingCut(p: Partitioning, s: Inside, o: Edges, r: nat, u: nat, x: Strip)
    requires QuadInside(p, s) && r < u && r < s.Rings()
    ensures Times(QuadRing(p, s, o, r, u), x)
            == One(IsQuadSide(s, o, x, r, r + 1)) + if r + 1 == u then 0 else One(IsQuadSide(s, o, x, u - 1, u))
  {
    hide IsQuadSide, QuadSideAt, Side, Times;
    var ws := QuadRing(p, s, o, r, u);
    TimesOfFew(ws, x);
    AllSides(p, s, o, r);
    QuadRingTimes(s, o, r, x);
    if r + 1 < u {
      if u - 1 < s.Rings() {
        AllInnerSides(p, s, o, u - 1);
        QuadRingTimes(s, o, u - 1, x);
      } else {
        NoSides(s, o, x, u - 1, u);
      }
    }
  }

  lemma NoSides(s: Inside, o: Edges, x: Strip, r: nat, u: nat)
    ensures r >= u || r >= s.Rings() ==> !IsQuadSide(s, o, x, r, u)
  {
  }

  lemma QuadMiddleCut(p: Partitioning, s: Inside, x: Strip)
    requires QuadInside(p, s)
    ensures Times(QuadMiddle(p, s), x) == One(IsRow(s, x))
  {
    hide Times;
    TimesOfFew(QuadMiddle(p, s), x);
    TimesOfNone(x);
    InwardExact(p, s.n0, s.Rings());
    InwardExact(p, s.n1, s.Rings());
  }

  lemma {:induction false} QuadRingsCut(p: Partitioning, s: Inside, o: Edges, r: nat, u: nat, x: Strip)
    requires QuadInside(p, s) && r <= u
    ensures Times(QuadRings(p, s, o, r, u), x) == One(IsQuadSide(s, o, x, r, u)) + One(IsRow(s, x))
    decreases u - r
  {
    hide QuadRing, QuadSideAt, QuadMiddle, IsRow, Times;
    QuadMiddleCut(p, s, x);
    if r >= u || r >= s.Rings() {
      NoSides(s, o, x, r, u);
    } else {
      QuadRingCut(p, s, o, r, u, x);
      if r + 1 == u {
        TimesTogether(QuadRing(p, s, o, r, u), QuadMiddle(p, s), x);
      } else {
        QuadRingsCut(p, s, o, r + 1, u - 1, x);
        TimesTogether(QuadRing(p, s, o, r, u), QuadRings(p, s, o, r + 1, u - 1), x);
      }
    }
  }

  lemma SideOrRow(s: Inside, o: Edges, x: Strip, u: nat)
    requires if s.firstGreater then s.n0 >= s.n1 else s.n0 <= s.n1
    requires s.Rings() <= u
    ensures IsQuadSide(s, o, x, 0, u) <==> IsQuadSide(s, o, x, 0, s.n0)
    ensures !(IsQuadSide(s, o, x, 0, u) && IsRow(s, x))
  {
  }

  /** The rings of a quad are cut side by side, each side once, and so is the row in the middle. */
  lemma QuadIsCut(p: Partitioning, s: Inside, o: Edges)
    requires QuadInside(p, s)
    ensures QuadCut(s, o, QuadRings(p, s, o, 0, s.Depth()))
  {
    hide Times, QuadRings, IsQuadSide, IsRow;
    forall x: Strip
      ensures Times(QuadRings(p, s, o, 0, s.Depth()), x)
              == if IsQuadSide(s, o, x, 0, s.n0) || IsRow(s, x) then 1 else 0
    {
      QuadRingsCut(p, s, o, 0, s.Depth(), x);
      SideOrRow(s, o, x, s.Depth());
    }
  }

  /** When both numbers are even the last ring is folded up: to a point, or to a line along the
      greater one. */
  ghost function QuadPoint(s: Inside, c: Corner): Corner {
    if c.ring * 2 != Min(s.n0, s.n1) || c.vertex > 3 then c
    else if s.n0 == s.n1 then Corner(0, c.ring)
    else if s.n0 < s.n1 then Corner(if c.vertex == 1 then 0 else if c.vertex == 2 then 3 else c.vertex, c.ring)
    else Corner(if c.vertex == 3 then 0 else if c.vertex == 2 then 1 else c.vertex, c.ring)
  }

  ghost predicate SameQuadLine(s: Inside, e: Edge, f: Edge) {
    SameLine(e, QuadPoint(s, e.from), QuadPoint(s, e.to), f, QuadPoint(s, f.from), QuadPoint(s, f.to))
  }

  ghost predicate QuadShared(s: Inside, ws: seq<Workload>, x: Strip, e: Edge) {
    exists y, f :: y != x && Times(ws, y) > 0 && HasLine(y, f) && SameQuadLine(s, e, f)
  }

  lemma ShareQuad(s: Inside, ws: seq<Workload>, x: Strip, e: Edge, y: Strip, f: Edge)
    requires y != x && Times(ws, y) > 0 && HasLine(y, f) && SameQuadLine(s, e, f)
    ensures QuadShared(s, ws, x, e)
  {
  }

  lemma QuadPiece(s: Inside, o: Edges, ws: seq<Workload>, i: nat, k: nat)
    requires QuadCut(s, o, ws) && i < 4 && k < s.Rings()
    ensures Times(ws, QuadSideAt(s, o, i, k)) == 1
  {
  }

  lemma RowPiece(p: Partitioning, s: Inside, o: Edges, ws: seq<Workload>)
    requires QuadInside(p, s) && QuadCut(s, o, ws) && Min(s.n0, s.n1) % 2 == 1
    ensures Times(ws, RowOf(s)) == 1
  {
  }

  /** The row's line along the inner edge of side `i` of the last ring. */
  ghost function RowLine(s: Inside, i: nat): Edge {
    var y := RowOf(s);
    if i == (if s.firstGreater then 3 else 2) then y.inner
    else if i == (if s.firstGreater then 1 else 0) then y.outer
    else if i == (if s.firstGreater then 0 else 3) then Edge(y.inner.from, y.outer.from, 1)
    else Edge(y.inner.to, y.outer.to, 1)
  }

  /** The inner edge of a side is an outer edge further in, an edge of the row, or the inner edge
      opposite when the ring is folded up. */
  lemma InnerShared(p: Partitioning, s: Inside, o: Edges, ws: seq<Workload>, i: nat, k: nat)
    requires QuadInside(p, s) && QuadCut(s, o, ws) && i < 4 && k < s.Rings()
    requires var e := QuadSideAt(s, o, i, k).inner; QuadPoint(s, e.from) != QuadPoint(s, e.to)
    ensures QuadShared(s, ws, QuadSideAt(s, o, i, k), QuadSideAt(s, o, i, k).inner)
  {
    hide Times, QuadCut, QuadShared;
    var x := QuadSideAt(s, o, i, k);
    if k + 1 < s.Rings() {
      QuadPiece(s, o, ws, i, k + 1);
      var y := QuadSideAt(s, o, i, k + 1);
      ShareQuad(s, ws, x, x.inner, y, y.outer);
    } else if Min(s.n0, s.n1) % 2 == 1 {
      RowPiece(p, s, o, ws);
      ShareQuad(s, ws, x, x.inner, RowOf(s), RowLine(s, i));
    } else {
      QuadPiece(s, o, ws, (i + 2) % 4, k);
      var y := QuadSideAt(s, o, (i + 2) % 4, k);
      ShareQuad(s, ws, x, x.inner, y, y.inner);
    }
  }

  lemma QuadSideShared(p: Partitioning, s: Inside, o: Edges, ws: seq<Workload>, i: nat, k: nat, e: Edge)
    requires QuadInside(p, s) && QuadCut(s, o, ws) && i < 4 && k < s.Rings()
    requires HasLine(QuadSideAt(s, o, i, k), e) && !OnBorder(e) && QuadPoint(s, e.from) != QuadPoint(s, e.to)
    ensures QuadShared(s, ws, QuadSideAt(s, o, i, k), e)
  {
    hide Times, QuadCut, QuadShared, QuadPoint;
    var x := QuadSideAt(s, o, i, k);
    if e == x.inner {
      InnerShared(p, s, o, ws, i, k);
    } else if e == x.outer {
      QuadPiece(s, o, ws, i, k - 1);
      var y := QuadSideAt(s, o, i, k - 1);
      ShareQuad(s, ws, x, e, y, y.inner);
    } else if e == Edge(x.inner.from, x.outer.from, 1) {
      QuadPiece(s, o, ws, (i + 3) % 4, k);
      var y := QuadSideAt(s, o, (i + 3) % 4, k);
      ShareQuad(s, ws, x, e, y, Edge(y.inner.to, y.outer.to, 1));
    } else {
      QuadPiece(s, o, ws, (i + 1) % 4, k);
      var y := QuadSideAt(s, o, (i + 1) % 4, k);
      ShareQuad(s, ws, x, e, y, Edge(y.inner.from, y.outer.from, 1));
    }
  }

  lemma RowShared(p: Partitioning, s: Inside, o: Edges, ws: seq<Workload>, e: Edge)
    requires QuadInside(p, s) && QuadCut(s, o, ws) && IsRow(s, RowOf(s))
    requires HasLine(RowOf(s), e) && !OnBorder(e)
    ensures QuadShared(s, ws, RowOf(s), e)
  {
    hide Times, QuadCut, QuadShared;
    var k := s.Rings() - 1;
    var i :=
      if e == RowLine(s, 0) then 0 else if e == RowLine(s, 1) then 1 else if e == RowLine(s, 2) then 2 else 3;
    assert e == RowLine(s, i);
    QuadPiece(s, o, ws, i, k);
    var y := QuadSideAt(s, o, i, k);
    ShareQuad(s, ws, RowOf(s), e, y, y.inner);
  }

  /** The workloads of a quad patch leave no cracks between them. */
  lemma QuadWatertight(p: Partitioning, s: Inside, o: Edges, ws: seq<Workload>, x: Strip, e: Edge)
    requires QuadInside(p, s) && QuadCut(s, o, ws)
    requires Times(ws, x) > 0 && HasLine(x, e) && !OnBorder(e) && QuadPoint(s, e.from) != QuadPoint(s, e.to)
    ensures QuadShared(s, ws, x, e)
  {
    if IsQuadSide(s, o, x, 0, s.n0) {
      QuadSideShared(p, s, o, ws, (x.outer.from.vertex + 1) % 4, x.outer.from.ring, e);
    } else {
      RowShared(p, s, o, ws, e);
    }
  }

  /** The segments wanted between two vertices of a quad. */
  ghost function QuadFactor(o: Edges, a: nat, b: nat): nat {
    if {a, b} == {3, 0} then o.e0 else if {a, b} == {0, 1} then o.e1 else if {a, b} == {1, 2} then o.e2 else o.e3
  }

  ghost predicate QuadBorderKept(o: Edges, ws: seq<Workload>) {
    forall x, e :: Times(ws, x) > 0 && HasLine(x, e) && OnBorder(e) && e.from != e.to
                   ==> e.segments == QuadFactor(o, e.from.vertex, e.to.vertex)
  }

  /** With an inside of one there are no rings, and the edges are not meant to be cut.  They are
      cut all the same, along the row, if the other inside is greater than one. */
  lemma QuadBorder(p: Partitioning, s: Inside, o: Edges, ws: seq<Workload>)
    requires QuadInside(p, s) && QuadCut(s, o, ws)
    requires Min(s.n0, s.n1) == 1 ==> o == Edges(1, 1, 1, 1)
    ensures QuadBorderKept(o, ws) <==> !(Min(s.n0, s.n1) == 1 && Max(s.n0, s.n1) > 1)
  {
    hide Times;
    if Min(s.n0, s.n1) == 1 {
      RowPiece(p, s, o, ws);
      RowAlone(p, s, o);
      assert HasLine(RowOf(s), RowOf(s).inner);
    } else {
      forall x, e | Times(ws, x) > 0 && HasLine(x, e) && OnBorder(e) && e.from != e.to
        ensures e.segments == QuadFactor(o, e.from.vertex, e.to.vertex)
      {
        QuadSideBorder(p, s, o, x, e);
      }
    }
  }

  lemma RowAlone(p: Partitioning, s: Inside, o: Edges)
    requires QuadInside(p, s) && Min(s.n0, s.n1) == 1
    ensures forall x :: !IsQuadSide(s, o, x, 0, s.n0)
    ensures forall e :: HasLine(RowOf(s), e) ==> e.segments == 1 || e.segments == Max(s.n0, s.n1)
    ensures RowOf(s).inner.segments == Max(s.n0, s.n1) && OnBorder(RowOf(s).inner)
  {
  }

  lemma QuadSideBorder(p: Partitioning, s: Inside, o: Edges, x: Strip, e: Edge)
    requires QuadInside(p, s) && Min(s.n0, s.n1) > 1 && (IsQuadSide(s, o, x, 0, s.n0) || IsRow(s, x))
    requires HasLine(x, e) && OnBorder(e) && e.from != e.to
    ensures e.segments == QuadFactor(o, e.from.vertex, e.to.vertex)
  {
    var i := (x.outer.from.vertex + 1) % 4;
    assert x == QuadSideAt(s, o, i, 0) && e == x.outer;
    FourPairs(i);
  }

  lemma FourPairs(i: nat)
    requires i < 4
    ensures {(i + 3) % 4, i} == {3, 0} <==> i == 0
    ensures {(i + 3) % 4, i} == {0, 1} <==> i == 1
    ensures {(i + 3) % 4, i} == {1, 2} <==> i == 2
  {
    assert i in {(i + 3) % 4, i} && (i + 3) % 4 in {(i + 3) % 4, i};
  }

  // ------------------------------------------------------------- patches without cracks

  /** The segments of a triangle patch, from its factors. */
  ghost predicate TriangleFrom(p: Partitioning, inside: real, out0: real, out1: real, out2: real, n: nat, o: Edges) {
    && CutsInto(p, out0, o.e0) && CutsInto(p, out1, o.e1) && CutsInto(p, out2, o.e2)
    && exists base: nat :: CutsInto(p, inside, base) && RaisedTo(p, base, o.e0 == o.e1 == o.e2 == 1, n)
  }

  lemma TriangleSegments(p: Partitioning, inside: real, out0: real, out1: real, out2: real)
    requires p != Undefined
    ensures var n, o := TriangleInner(p, inside, out0, out1, out2), TriangleEdges(p, out0, out1, out2);
            TriangleFrom(p, inside, out0, out1, out2, n, o) && Inner(p, n)
  {
    hide Regularized, Count, CutsInto, Raised;
    FactorCuts(p, inside);
    FactorCuts(p, out0);
    FactorCuts(p, out1);
    FactorCuts(p, out2);
    OneRegularized(p, inside);
    OneRegularized(p, out0);
    OneRegularized(p, out1);
    OneRegularized(p, out2);
    var outerOnes := Regularized(p, out0) == Regularized(p, out1) == Regularized(p, out2) == ONE;
    var v := Regularized(p, inside);
    RaisedCuts(p, v, outerOnes && v == ONE, outerOnes);
    FactorSegments(p, inside);
  }

  lemma OneRegularized(p: Partitioning, x: real)
    requires p != Undefined
    ensures var v := Regularized(p, x); Regular(p, v) && (Count(p, v) == 1 <==> v == ONE && p != FractionalEven)
  {
    FactorRegular(p, x);
    OneSegment(p, Regularized(p, x));
  }

  /** Every line of a strip but those of the border is shared. */
  ghost predicate TriangleSealed(n: nat, ws: seq<Workload>) {
    forall x, e :: Times(ws, x) > 0 && HasLine(x, e) && !OnBorder(e)
                   && TrianglePoint(n, e.from) != TrianglePoint(n, e.to)
                   ==> TriangleShared(n, ws, x, e)
  }

  ghost predicate TriangleBorderKept(o: Edges, ws: seq<Workload>) {
    forall x, e :: Times(ws, x) > 0 && HasLine(x, e) && OnBorder(e) && e.from != e.to
                   ==> e.segments == TriangleFactor(o, e.from.vertex, e.to.vertex)
  }

  /** A triangle patch is cut side by side without cracks, and as its neighbours expect. */
  lemma TriangleSeamless(p: Partitioning, inside: real, out0: real, out1: real, out2: real, n: nat, o: Edges)
    requires TriangleFrom(p, inside, out0, out1, out2, n, o) && Inner(p, n)
    ensures var ws := TriangleRings(p, n, o, 0, n / 2);
            TriangleCut(p, n, o, ws) && TriangleSealed(n, ws) && TriangleBorderKept(o, ws)
  {
    hide Times, TriangleCut, TriangleRings, TriangleShared, HasLine, CutsInto;
    TriangleIsCut(p, n, o);
    var ws := TriangleRings(p, n, o, 0, n / 2);
    forall x, e | Times(ws, x) > 0 && HasLine(x, e)
      ensures !OnBorder(e) && TrianglePoint(n, e.from) != TrianglePoint(n, e.to) ==> TriangleShared(n, ws, x, e)
      ensures OnBorder(e) && e.from != e.to ==> e.segments == TriangleFactor(o, e.from.vertex, e.to.vertex)
    {
      if OnBorder(e) && e.from != e.to {
        TriangleBorder(p, n, o, ws, x, e);
      } else if !OnBorder(e) && TrianglePoint(n, e.from) != TrianglePoint(n, e.to) {
        TriangleWatertight(p, n, o, ws, x, e);
      }
    }
  }

  /** The segments of a quad patch, from its factors. */
  ghost predicate QuadFrom(p: Partitioning, in0: real, in1: real, out0: real, out1: real, out2: real, out3: real,
                           s: Inside, o: Edges) {
    && CutsInto(p, out0, o.e0) && CutsInto(p, out1, o.e1) && CutsInto(p, out2, o.e2) && CutsInto(p, out3, o.e3)
    && s.firstGreater == (in0 > in1)
    && exists b0: nat, b1: nat ::
      var ones := o == Edges(1, 1, 1, 1) && (p.FractionalOdd? ==> b0 == 1 && b1 == 1);
      CutsInto(p, in0, b0) && CutsInto(p, in1, b1) && RaisedTo(p, b0, ones, s.n0) && RaisedTo(p, b1, ones, s.n1)
  }

  lemma QuadSegments(p: Partitioning, in0: real, in1: real, out0: real, out1: real, out2: real, out3: real)
    requires p != Undefined
    ensures var s, o := QuadInner(p, in0, in1, out0, out1, out2, out3), QuadEdges(p, out0, out1, out2, out3);
            QuadFrom(p, in0, in1, out0, out1, out2, out3, s, o)
  {
    hide Regularized, Count, CutsInto, Raised;
    FactorCuts(p, in0);
    FactorCuts(p, in1);
    FactorCuts(p, out0);
    FactorCuts(p, out1);
    FactorCuts(p, out2);
    FactorCuts(p, out3);
    OneRegularized(p, in0);
    OneRegularized(p, in1);
    OneRegularized(p, out0);
    OneRegularized(p, out1);
    OneRegularized(p, out2);
    OneRegularized(p, out3);
    var outerOnes :=
      Regularized(p, out0) == Regularized(p, out1) == Regularized(p, out2) == Regularized(p, out3) == ONE;
    var v, w := Regularized(p, in0), Regularized(p, in1);
    RaisedCuts(p, v, outerOnes && v == w == ONE, outerOnes);
    RaisedCuts(p, w, outerOnes && v == w == ONE, outerOnes);
    var ones := QuadEdges(p, out0, out1, out2, out3) == Edges(1, 1, 1, 1)
                && (p.FractionalOdd? ==> Count(p, v) == 1 && Count(p, w) == 1);
    if p.FractionalEven? {
      FactorSegments(p, in0);
      FactorSegments(p, in1);
    }
    assert CutsInto(p, in0, Count(p, v)) && CutsInto(p, in1, Count(p, w));
    assert RaisedTo(p, Count(p, v), ones, Count(p, Raised(p, v, outerOnes && v == w == ONE, outerOnes)));
    assert RaisedTo(p, Count(p, w), ones, Count(p, Raised(p, w, outerOnes && v == w == ONE, outerOnes)));
  }

  /** The greater factor makes the greater number of segments, raised or not. */
  lemma QuadNamed(p: Partitioning, in0: real, in1: real, out0: real, out1: real, out2: real, out3: real,
                  s: Inside, o: Edges)
    requires QuadFrom(p, in0, in1, out0, out1, out2, out3, s, o)
    ensures QuadInside(p, s)
    ensures Min(s.n0, s.n1) == 1 ==> o == Edges(1, 1, 1, 1)
    ensures Min(s.n0, s.n1) == 1 && Max(s.n0, s.n1) > 1 <==> CutAlongRow(p, in0, in1, out0, out1, out2, out3)
  {
    hide CutsInto;
    var b0: nat, b1: nat :|
      var ones := o == Edges(1, 1, 1, 1) && (p.FractionalOdd? ==> b0 == 1 && b1 == 1);
      CutsInto(p, in0, b0) && CutsInto(p, in1, b1) && RaisedTo(p, b0, ones, s.n0) && RaisedTo(p, b1, ones, s.n1);
    if in0 > in1 {
      CutsMonotone(p, in1, in0, b1, b0);
    } else {
      CutsMonotone(p, in0, in1, b0, b1);
    }
    CutsOnce(p, in0, b0);
    CutsOnce(p, in1, b1);
    CutsOnce(p, out0, o.e0);
    CutsOnce(p, out1, o.e1);
    CutsOnce(p, out2, o.e2);
    CutsOnce(p, out3, o.e3);
  }

  lemma CutsOnce(p: Partitioning, x: real, n: nat)
    requires CutsInto(p, x, n)
    ensures p != Undefined && Segments(p, n)
    ensures p.Integer? || p.PowerOfTwo? ==> (n == 1 <==> x <= 1.0)
  {
    if (p.Integer? || p.PowerOfTwo?) && x <= 1.0 {
      assert Segments(p, 1) && FitsInto(p, x, 1);
    }
  }

  /** No edge of the patch is to be cut, and one of its inside factors alone is above one. */
  predicate CutAlongRow(p: Partitioning, in0: real, in1: real, out0: real, out1: real, out2: real, out3: real) {
    && (p.Integer? || p.PowerOfTwo?) && out0 <= 1.0 && out1 <= 1.0 && out2 <= 1.0 && out3 <= 1.0
    && (in0 <= 1.0) != (in1 <= 1.0)
  }

  ghost predicate QuadSealed(s: Inside, ws: seq<Workload>) {
    forall x, e :: Times(ws, x) > 0 && HasLine(x, e) && !OnBorder(e) && QuadPoint(s, e.from) != QuadPoint(s, e.to)
                   ==> QuadShared(s, ws, x, e)
  }

  /** A quad patch is cut without cracks inside it; where it meets its neighbours it is cut as they
      expect, with one exception. */
  lemma QuadSeamless(p: Partitioning, in0: real, in1: real, out0: real, out1: real, out2: real, out3: real,
                     s: Inside, o: Edges)
    requires QuadFrom(p, in0, in1, out0, out1, out2, out3, s, o)
    ensures var ws := QuadRings(p, s, o, 0, s.Depth());
            && QuadCut(s, o, ws) && QuadSealed(s, ws)
            && (QuadBorderKept(o, ws) <==> !CutAlongRow(p, in0, in1, out0, out1, out2, out3))
  {
    hide Times, QuadCut, QuadRings, QuadShared, HasLine, QuadBorderKept, CutAlongRow;
    QuadNamed(p, in0, in1, out0, out1, out2, out3, s, o);
    QuadIsCut(p, s, o);
    var ws := QuadRings(p, s, o, 0, s.Depth());
    QuadBorder(p, s, o, ws);
    forall x, e | Times(ws, x) > 0 && HasLine(x, e) && !OnBorder(e) && QuadPoint(s, e.from) != QuadPoint(s, e.to)
      ensures QuadShared(s, ws, x, e)
    {
      QuadWatertight(p, s, o, ws, x, e);
    }
  }

  lemma WholeFactor(k: nat)
    requires 1 <= k <= 64
    ensures Regularized(Integer, k as real) == k * ONE && Count(Integer, k * ONE) == k
    ensures IntegerFactor(Integer, k as real) == k
  {
    CeilBounds(k as real, k);
    CeilBounds(k as real, k - 1);
    WholeCount(Integer, k);
  }

  /** The exception happens: a quad of one by three segments whose edges are not to be cut has two
      of them cut in three. */
  lemma CrackAlongRow()
    ensures var o := QuadEdges(Integer, 1.0, 1.0, 1.0, 1.0);
            && CutsInto(Integer, 1.0, o.e0) && o.e0 == o.e2 == 1
            && QuadPatch(Integer, 1.0, 3.0, 1.0, 1.0, 1.0, 1.0)
               == [Single(Strip(Edge(Corner(2, 0), Corner(1, 0), 3), Edge(Corner(3, 0), Corner(0, 0), 3)))]
  {
    WholeFactor(1);
    WholeFactor(3);
    FactorCuts(Integer, 1.0);
    hide Regularized, Count;
    var s := QuadInner(Integer, 1.0, 3.0, 1.0, 1.0, 1.0, 1.0);
    assert s == Inside(1, 3, false);
  }

  // ------------------------------------------------------------- the generators

  lemma Regroup(a: seq<Workload>, b: seq<Workload>, c: seq<Workload>)
    ensures a + (b + c) == (a + b) + c
  {
  }

  /** The edges of a ring at run time, in fixed point. */
  method EdgeCounts(p: Partitioning, v: nat, r: nat, u: nat) returns (inner: nat, outer: nat, innerC: nat, outerC: nat)
    requires p != Undefined && Regular(p, v) && r < u
    ensures inner == Inward(p, Count(p, v), r + 1) && outer == Inward(p, Count(p, v), r)
    ensures innerC == Inward(p, Count(p, v), u) && outerC == Inward(p, Count(p, v), u - 1)
  {
    OffsetCount(p, v, r + 1);
    OffsetCount(p, v, r);
    OffsetCount(p, v, u);
    OffsetCount(p, v, u - 1);
    inner, outer := Count(p, Offset(v, r + 1)), Count(p, Offset(v, r));
    innerC, outerC := Count(p, Offset(v, u)), Count(p, Offset(v, u - 1));
  }

  method CutTriangle(p: Partitioning, in0f: nat, out0f: nat, out1f: nat, out2f: nat) returns (ws: seq<Workload>)
    requires p != Undefined && Regular(p, in0f)
    ensures ws == TriangleRings(p, Count(p, in0f), Edges(Count(p, out0f), Count(p, out1f), Count(p, out2f), 0), 0,
                                Count(p, in0f) / 2)
  {
    hide Count, Inward;
    var n := Count(p, in0f);
    var rings := n / 2;
    ghost var edges := Edges(Count(p, out0f), Count(p, out1f), Count(p, out2f), 0);
    ws := [];
    var r, u := 0, rings;
    while r < u
      invariant r + u == rings
      invariant ws + TriangleRings(p, n, edges, r, u) == TriangleRings(p, n, edges, 0, rings)
    {
      var inner, outer, innerC, outerC := EdgeCounts(p, in0f, r, u);
      var outer0 := if r == 0 then Count(p, out0f) else outer;
      var outer1 := if r == 0 then Count(p, out1f) else outer;
      var outer2 := if r == 0 then Count(p, out2f) else outer;
      ghost var ring := TriangleRing(p, n, edges, r, u);
      var side0, side1 := Between(1, 2, r, inner, outer0), Between(2, 0, r, inner, outer1);
      var side2 := Between(0, 1, r, inner, outer2);
      if r + 1 == u {
        ws := ws + [Double(side1, side2), if n % 2 == 1 then Double(side0, Centre(p, rings)) else Single(side0)];
        return;
      }
      var emitted := [Double(side1, Between(2, 0, u - 1, innerC, outerC)),
                      Double(side2, Between(0, 1, u - 1, innerC, outerC)),
                      Double(side0, Between(1, 2, u - 1, innerC, outerC))];
      assert emitted == ring;
      Regroup(ws, emitted, TriangleRings(p, n, edges, r + 1, u - 1));
      ws := ws + emitted;
      r, u := r + 1, u - 1;
    }
    if n % 2 == 1 {
      ws := ws + [Single(Centre(p, rings))];
    }
  }

  /** The workloads of a triangle patch; patches with an edge that is not positive are culled. */
  method TriangleWorkloads(p: Partitioning, inside: real, out0: real, out1: real, out2: real)
    returns (ws: seq<Workload>)
    requires p != Undefined
    ensures ws == TrianglePatch(p, inside, out0, out1, out2)
    ensures ws == [] <==> out0 <= 0.0 || out1 <= 0.0 || out2 <= 0.0
    ensures out0 > 0.0 && out1 > 0.0 && out2 > 0.0 ==>
              var n, o := TriangleInner(p, inside, out0, out1, out2), TriangleEdges(p, out0, out1, out2);
              && TriangleFrom(p, inside, out0, out1, out2, n, o) && TriangleCut(p, n, o, ws)
              && TriangleSealed(n, ws) && TriangleBorderKept(o, ws)
  {
    hide Regularized, Count, TriangleRings, TriangleFrom, TriangleCut, TriangleSealed, TriangleBorderKept;
    if out0 <= 0.0 || out1 <= 0.0 || out2 <= 0.0 {
      return [];
    }
    ghost var n, o := TriangleInner(p, inside, out0, out1, out2), TriangleEdges(p, out0, out1, out2);
    TriangleSegments(p, inside, out0, out1, out2);
    TriangleSeamless(p, inside, out0, out1, out2, n, o);
    TriangleCount(p, n, o, 0, n / 2);
    var in0f := Regularized(p, inside);
    var out0f, out1f, out2f := Regularized(p, out0), Regularized(p, out1), Regularized(p, out2);
    FactorRegular(p, inside);
    if p.FractionalOdd? {
      if !(out0f == out1f == out2f == in0f == ONE) {
        in0f := if in0f < ONE + 1 then ONE + 1 else in0f;
      }
    } else if !p.FractionalEven? {
      if !(out0f == out1f == out2f == ONE) {
        in0f := if in0f < 2 * ONE then 2 * ONE else in0f;
      }
    }
    ws := CutTriangle(p, in0f, out0f, out1f, out2f);
  }

  method EmitQuadRing(p: Partitioning, in0f: nat, in1f: nat, o: Edges, rings: nat, r: nat, u: nat, ghost s: Inside)
    returns (ws: seq<Workload>)
    requires p != Undefined && Regular(p, in0f) && Regular(p, in1f) && r < u
    requires s.n0 == Count(p, in0f) && s.n1 == Count(p, in1f) && rings == s.Rings()
    ensures ws == QuadRing(p, s, o, r, u)
  {
    hide Count, Inward, Offset;
    var inner0, outer0, innerC0, outerC0 := EdgeCounts(p, in0f, r, u);
    var inner1, outer1, innerC1, outerC1 := EdgeCounts(p, in1f, r, u);
    var edge0 := if r == 0 then o.e0 else outer1;
    var edge1 := if r == 0 then o.e1 else outer0;
    var edge2 := if r == 0 then o.e2 else outer1;
    var edge3 := if r == 0 then o.e3 else outer0;
    if r + 1 == u {
      return [Double(Between(2, 3, r, inner0, edge3), Between(1, 2, r, inner1, edge2)),
              Double(Between(0, 1, r, inner0, edge1), Between(3, 0, r, inner1, edge0))];
    }
    var complement := u - 1 < rings;
    ws :=
      if complement then
        [Double(Between(2, 3, r, inner0, edge3), Between(2, 3, u - 1, innerC0, outerC0)),
         Double(Between(1, 2, r, inner1, edge2), Between(1, 2, u - 1, innerC1, outerC1)),
         Double(Between(0, 1, r, inner0, edge1), Between(0, 1, u - 1, innerC0, outerC0)),
         Double(Between(3, 0, r, inner1, edge0), Between(3, 0, u - 1, innerC1, outerC1))]
      else
        [Single(Between(2, 3, r, inner0, edge3)), Single(Between(1, 2, r, inner1, edge2)),
         Single(Between(0, 1, r, inner0, edge1)), Single(Between(3, 0, r, inner1, edge0))];
  }

  method EmitMiddle(p: Partitioning, in0f: nat, in1f: nat, rings: nat, firstGreater: bool) returns (row: seq<Workload>)
    requires p != Undefined && Regular(p, in0f) && Regular(p, in1f)
    requires rings == Min(Count(p, in0f), Count(p, in1f)) / 2
    ensures row == QuadMiddle(p, Inside(Count(p, in0f), Count(p, in1f), firstGreater))
  {
    hide Count, Inward, Offset;
    if Min(Count(p, in0f), Count(p, in1f)) % 2 == 0 {
      return [];
    }
    OffsetCount(p, in0f, rings);
    OffsetCount(p, in1f, rings);
    var corner0, corner1, corner2, corner3 := Corner(0, rings), Corner(1, rings), Corner(2, rings), Corner(3, rings);
    if firstGreater {
      var segments := Count(p, Offset(in0f, rings));
      row := [Single(Strip(Edge(corner3, corner2, segments), Edge(corner0, corner1, segments)))];
    } else {
      var segments := Count(p, Offset(in1f, rings));
      row := [Single(Strip(Edge(corner2, corner1, segments), Edge(corner3, corner0, segments)))];
    }
  }

  method CutQuad(p: Partitioning, in0f: nat, in1f: nat, o: Edges, firstGreater: bool) returns (ws: seq<Workload>)
    requires p != Undefined && Regular(p, in0f) && Regular(p, in1f)
    ensures var s := Inside(Count(p, in0f), Count(p, in1f), firstGreater); ws == QuadRings(p, s, o, 0, s.Depth())
  {
    hide Count, Inward, Offset, QuadRing, QuadMiddle;
    var in0i, in1i := Count(p, in0f), Count(p, in1f);
    ghost var s := Inside(in0i, in1i, firstGreater);
    var minIn := Min(in0i, in1i);
    var rings := minIn / 2;
    ws := [];
    var r: nat, u: nat := 0, Max(in0i, in1i) / 2;
    while r < u && r < rings
      invariant ws + QuadRings(p, s, o, r, u) == QuadRings(p, s, o, 0, s.Depth())
      decreases u - r
    {
      var emitted := EmitQuadRing(p, in0f, in1f, o, rings, r, u, s);
      if r + 1 == u {
        ws := ws + emitted;
        break;
      }
      Regroup(ws, emitted, QuadRings(p, s, o, r + 1, u - 1));
      ws := ws + emitted;
      r, u := r + 1, u - 1;
    }
    var row := EmitMiddle(p, in0f, in1f, rings, firstGreater);
    ws := ws + row;
  }

  lemma QuadNotEmpty(p: Partitioning, s: Inside, o: Edges)
    requires QuadInside(p, s)
    ensures QuadRings(p, s, o, 0, s.Depth()) != []
  {
    QuadCount(p, s, o, 0, s.Depth());
  }

  method QuadWorkloads(p: Partitioning, in0: real, in1: real, out0: real, out1: real, out2: real, out3: real)
    returns (ws: seq<Workload>)
    requires p != Undefined
    ensures ws == QuadPatch(p, in0, in1, out0, out1, out2, out3)
    ensures ws == [] <==> out0 <= 0.0 || out1 <= 0.0 || out2 <= 0.0 || out3 <= 0.0
    ensures out0 > 0.0 && out1 > 0.0 && out2 > 0.0 && out3 > 0.0 ==>
              var s, o := QuadInner(p, in0, in1, out0, out1, out2, out3), QuadEdges(p, out0, out1, out2, out3);
              && QuadFrom(p, in0, in1, out0, out1, out2, out3, s, o) && QuadCut(s, o, ws) && QuadSealed(s, ws)
              && (QuadBorderKept(o, ws) <==> !CutAlongRow(p, in0, in1, out0, out1, out2, out3))
  {
    hide Regularized, Count, QuadRings, QuadFrom, QuadCut, QuadSealed, QuadBorderKept, CutAlongRow, QuadInside;
    if out0 <= 0.0 || out1 <= 0.0 || out2 <= 0.0 || out3 <= 0.0 {
      return [];
    }
    ghost var s, o := QuadInner(p, in0, in1, out0, out1, out2, out3), QuadEdges(p, out0, out1, out2, out3);
    QuadSegments(p, in0, in1, out0, out1, out2, out3);
    QuadSeamless(p, in0, in1, out0, out1, out2, out3, s, o);
    QuadNamed(p, in0, in1, out0, out1, out2, out3, s, o);
    QuadNotEmpty(p, s, o);
    var in0f, in1f := Regularized(p, in0), Regularized(p, in1);
    var out0f, out1f := Regularized(p, out0), Regularized(p, out1);
    var out2f, out3f := Regularized(p, out2), Regularized(p, out3);
    FactorRegular(p, in0);
    FactorRegular(p, in1);
    if p.FractionalOdd? {
      if !(out0f == out1f == out2f == out3f == in0f == in1f == ONE) {
        in0f := if in0f < ONE + 1 then ONE + 1 else in0f;
        in1f := if in1f < ONE + 1 then ONE + 1 else in1f;
      }
    } else if !p.FractionalEven? {
      if !(out0f == out1f == out2f == out3f == ONE) {
        in0f := if in0f < 2 * ONE then 2 * ONE else in0f;
        in1f := if in1f < 2 * ONE then 2 * ONE else in1f;
      }
    }
    var edges := Edges(Count(p, out0f), Count(p, out1f), Count(p, out2f), Count(p, out3f));
    ws := CutQuad(p, in0f, in1f, edges, in0 > in1);
  }
}
