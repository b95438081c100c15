/** Splitting the input of a geometry shader over groups of at most 32 vertex threads: every
    complete primitive of the draw is handed to exactly one mesh thread, with its own vertices. */
module GeometryWarps {
  import opened Basics
  import GeometryStrips

  const LANES := 32

  datatype Primitive = Point | Line | Triangle | LineAdj | TriangleAdj | Patch(points: nat) {
    predicate Declared() { Patch? ==> 1 <= points <= 32 }

    /** Vertices per primitive. */
    function Arity(): (k: nat)
      requires Declared()
      ensures 1 <= k <= 32
    {
      match this
      case Point => 1
      case Line => 2
      case Triangle => 3
      case LineAdj => 4
      case TriangleAdj => 6
      case Patch(n) => n
    }
  }

  // ------------------------------------------------------------- the two tables

  /** Vertices a group advances by, primitives of a group, vertices of a primitive. */
  datatype Shape = Shape(stride: nat, primitives: nat, arity: nat)

  /** The shader's table. */
  function WarpShape(p: Primitive, strip: bool): Shape
    requires p.Declared()
  {
    match p
    case Point => Shape(32, 32, 1)
    case Line => if strip then Shape(31, 31, 2) else Shape(32, 16, 2)
    case Triangle => if strip then Shape(30, 30, 3) else Shape(30, 10, 3)
    case LineAdj => if strip then Shape(29, 29, 4) else Shape(32, 8, 4)
    case TriangleAdj => if strip then Shape(28, 14, 6) else Shape(30, 5, 6)
    case Patch(n) =>
      match n
      case 1 => Shape(32, 32, 1)
      case 2 => Shape(32, 16, 2)
      case 3 => Shape(30, 10, 3)
      case 4 => Shape(32, 8, 4)
      case 5 => Shape(30, 6, 5)
      case 6 => Shape(30, 5, 6)
      case 7 => Shape(28, 4, 7)
      case 8 => Shape(32, 4, 8)
      case 9 => Shape(27, 3, 9)
      case 10 => Shape(30, 3, 10)
      case 11 => Shape(22, 2, 11)
      case 12 => Shape(24, 2, 12)
      case 13 => Shape(26, 2, 13)
      case 14 => Shape(28, 2, 14)
      case 15 => Shape(30, 2, 15)
      case 16 => Shape(32, 2, 16)
      case _ => Shape(n, 1, n)
  }

  /** The draw call's table: threads of a group, and vertices a group advances by. */
  function DrawGroup(p: Primitive, strip: bool): (nat, nat)
    requires p.Declared()
  {
    match p
    case Point => (32, 32)
    case Line => if strip then (32, 31) else (32, 32)
    case Triangle => if strip then (32, 30) else (30, 30)
    case LineAdj => if strip then (32, 29) else (32, 32)
    case TriangleAdj => if strip then (32, 28) else (30, 30)
    case Patch(n) =>
      match n
      case 1 => (32, 32)
      case 2 => (32, 32)
      case 3 => (30, 30)
      case 4 => (32, 32)
      case 5 => (30, 30)
      case 6 => (30, 30)
      case 7 => (28, 28)
      case 8 => (32, 32)
      case 9 => (27, 27)
      case 10 => (30, 30)
      case 11 => (22, 22)
      case 12 => (24, 24)
      case 13 => (26, 26)
      case 14 => (28, 28)
      case 15 => (30, 30)
      case 16 => (32, 32)
      case _ => (n, n)
  }

  /** Which code path the shader takes: points never form a strip. */
  predicate Strip(p: Primitive, strip: bool) { strip && p != Point }

  /** The topologies of the main theorems: any list, and line, triangle and line-adjacency strips. */
  predicate Splits(p: Primitive, strip: bool) {
    p.Declared() && (Strip(p, strip) ==> p in {Line, Triangle, LineAdj})
  }

  /** The two tables agree, no group is larger than 32 threads, every window of a group's
      primitives fits it, and no list group could hold one more primitive. */
  lemma TablesAgree(p: Primitive, strip: bool)
    requires p.Declared()
    ensures var s := WarpShape(p, strip);
            var (threads, increment) := DrawGroup(p, strip);
            && s.arity == p.Arity() && increment == s.stride && s.primitives >= 1 && s.stride >= s.primitives
            && threads <= LANES
            && (!Strip(p, strip) || p.Patch? ==>
                  s.stride == s.primitives * s.arity == threads && LANES < (s.primitives + 1) * s.arity)
            && (Strip(p, strip) && p in {Line, Triangle, LineAdj} ==>
                  s.stride == s.primitives && threads == LANES == s.stride + s.arity - 1)
    ensures p == Triangle && strip ==> WarpShape(p, strip).stride % 2 == 0
  {
  }

  // ------------------------------------------------------------- a draw and its groups

  /** A draw of `count` vertices; `restarts` are the positions whose index is the restart value
      (none when the draw is not indexed). */
  datatype Draw = Draw(count: nat, restarts: set<nat>)

  /** How the vertex half widens an element of an index buffer of 16 or 32 bits (`size` values). */
  function VertexId(size: nat, index: nat): nat
    requires size in {0x1_0000, WORD} && index < size
  {
    ((index + 1) % size + WORD - 1) % WORD
  }

  /** Only the all-ones index of either width becomes the restart value. */
  lemma RestartIsAllOnes(size: nat, index: nat)
    requires size in {0x1_0000, WORD} && index < size
    ensures VertexId(size, index) == WORD - 1 <==> index == size - 1
    ensures index != size - 1 ==> VertexId(size, index) == index
  {
  }

  /** The draw of an index buffer. */
  function IndexedDraw(size: nat, indices: seq<nat>): Draw
    requires size in {0x1_0000, WORD} && forall i :: 0 <= i < |indices| ==> indices[i] < size
  {
    Draw(|indices|, set i | 0 <= i < |indices| && VertexId(size, indices[i]) == WORD - 1)
  }

  /** Strips are cut where the buffer holds 0xFFFF or 0xFFFFFFFF, according to its width. */
  lemma RestartsCut(size: nat, indices: seq<nat>, i: nat)
    requires size in {0x1_0000, WORD} && forall i :: 0 <= i < |indices| ==> indices[i] < size
    ensures i in IndexedDraw(size, indices).restarts
            <==> i < |indices| && indices[i] == if size == 0x1_0000 then 0xFFFF else 0xFFFF_FFFF
  {
    if i < |indices| {
      RestartIsAllOnes(size, indices[i]);
    }
  }

  lemma StepsForward(p: Primitive, strip: bool)
    requires p.Declared()
    ensures DrawGroup(p, strip).1 > 0
  {
  }

  /** The groups the draw call starts; the subtraction is unsigned. */
  function WarpCount(d: Draw, p: Primitive, strip: bool): nat
    requires p.Declared() && d.count < WORD
  {
    StepsForward(p, strip);
    (d.count + WORD - 1) % WORD / DrawGroup(p, strip).1 + 1
  }

  /** A 32-bit word as a signed number. */
  function Signed(w: nat): int { if w < WORD / 2 then w else w - WORD }

  function SignedMin(a: nat, b: nat): nat { if Signed(a) < Signed(b) then a else b }

  function SignedMax(a: nat, b: nat): nat { if Signed(a) < Signed(b) then b else a }

  /** The vertex a lane runs the vertex shader for.  In a triangle-adjacency strip lanes 1 and 31,
      whose own vertices no primitive of the group uses, are lent to the vertices right after and
      before the group, and all stay within the draw. */
  function GlobalIndex(d: Draw, p: Primitive, strip: bool, warp: nat, lane: nat): nat
    requires p.Declared() && d.count < WORD
  {
    var id := (warp * WarpShape(p, strip).stride + lane) % WORD;
    if !(strip && p == TriangleAdj) then id
    else if lane == 31 then SignedMax(1, (id + WORD - 33) % WORD)
    else SignedMin(if lane == 1 then (id + 31) % WORD else id, (d.count + WORD - 1) % WORD)
  }

  predicate LaneValid(d: Draw, p: Primitive, strip: bool, warp: nat, lane: nat)
    requires p.Declared() && d.count < WORD
  {
    GlobalIndex(d, p, strip, warp, lane) < d.count && GlobalIndex(d, p, strip, warp, lane) !in d.restarts
  }

  /** The first `threads` lanes that have a vertex to run. */
  function ValidLanes(d: Draw, p: Primitive, strip: bool, threads: nat, warp: nat): set<nat>
    requires p.Declared() && d.count < WORD
  {
    set t: nat | t < threads && LaneValid(d, p, strip, warp, t)
  }

  function Window(first: nat, n: nat): (w: seq<nat>)
    ensures |w| == n && forall i :: 0 <= i < n ==> w[i] == first + i
  {
    if n == 0 then [] else Window(first, n - 1) + [first + n - 1]
  }

  /** Patches have no strip; asking for one is an error. */
  predicate Supported(p: Primitive, strip: bool) { p.Declared() && !(strip && p.Patch?) }

  /** The lanes whose output mesh thread `l` loads, in vertex order.  Unsigned 32-bit arithmetic. */
  function Loaded(p: Primitive, strip: bool, l: nat): seq<nat>
    requires Supported(p, strip) && l < LANES
  {
    var odd := l % 2;
    if !Strip(p, strip) then Window(p.Arity() * l, p.Arity())
    else if p == Line then [l, l + 1]
    else if p == Triangle then [l, l + 1 + odd, l + 2 - odd]
    else if p == LineAdj then [l, l + 1, l + 2, l + 3]
    else
      var before := (2 * l + WORD - 2) % WORD;
      [2 * l, (if odd == 1 then 2 * l + 3 else before) % 33, 2 * (l + 1 + odd), (2 * l + 6) % 31,
       2 * (l + 2 - odd), if odd == 1 then before else 2 * l + 3]
  }

  /** The number a mesh thread has in the whole draw. */
  function PatchId(p: Primitive, strip: bool, warp: nat, l: nat): nat
    requires p.Declared()
  {
    (warp * WarpShape(p, strip).primitives + l) % WORD
  }

  function Lanes(lanes: seq<nat>): set<nat> { set x | x in lanes }

  predicate PrimitiveValid(p: Primitive, strip: bool, valid: set<nat>, l: nat)
    requires Supported(p, strip) && l < LANES
  {
    Lanes(Loaded(p, strip, l)) <= valid
  }

  method LaneVertex(d: Draw, p: Primitive, strip: bool, warp: nat, lane: nat) returns (id: nat)
    requires p.Declared() && d.count < WORD
    ensures id == GlobalIndex(d, p, strip, warp, lane)
  {
    hide WarpShape, SignedMin, SignedMax;
    id := (warp * WarpShape(p, strip).stride + lane) % WORD;
    if strip && p == TriangleAdj {
      if lane == 1 {
        id := (id + 31) % WORD;
      }
      id := if lane == 31 then SignedMax(1, (id + WORD - 33) % WORD) else SignedMin(id, (d.count + WORD - 1) % WORD);
    }
  }

  /** The vertex half of a group, in lock step up to its barrier: each lane with a vertex to run
      sets its bit. */
  method VertexMask(d: Draw, p: Primitive, strip: bool, threads: nat, warp: nat) returns (mask: set<nat>)
    requires p.Declared() && d.count < WORD && threads <= LANES
    ensures mask == ValidLanes(d, p, strip, threads, warp)
  {
    hide GlobalIndex;
    mask := {};
    for lane := 0 to threads
      invariant mask == ValidLanes(d, p, strip, lane, warp)
    {
      var id := LaneVertex(d, p, strip, warp, lane);
      if id < d.count && id !in d.restarts {
        mask := mask + {lane};
      }
    }
  }

  datatype Masked = Mask(bits: set<nat>) | Unsupported

  /** A bit pattern of `width` ones shifted left in a 32-bit word. */
  function Ones(width: nat, shift: nat): set<nat> {
    set b | b in Window(shift, width) && b < LANES
  }

  lemma OnesAreWindow(width: nat, shift: nat)
    requires shift + width <= LANES
    ensures Ones(width, shift) == Lanes(Window(shift, width))
  {
  }

  /** Winding swaps the last two vertices of a triangle, it does not change which they are. */
  lemma TriangleLanes(l: nat)
    requires l + 3 <= LANES
    ensures Ones(3, l) == Lanes(Loaded(Triangle, true, l))
  {
    OnesAreWindow(3, l);
    var w := Window(l, 3);
    var odd := l % 2;
    assert w == [l, l + 1, l + 2];
    assert Loaded(Triangle, true, l) == [w[0], w[1 + odd], w[2 - odd]];
    forall x | x in w ensures x in [w[0], w[1 + odd], w[2 - odd]] {
      assert x == w[0] || x == w[1] || x == w[2];
    }
  }

  lemma ShortStripLanes(l: nat)
    ensures l + 2 <= LANES ==> Ones(2, l) == Lanes(Loaded(Line, true, l))
    ensures l + 4 <= LANES ==> Ones(4, l) == Lanes(Loaded(LineAdj, true, l))
  {
    if l + 2 <= LANES {
      OnesAreWindow(2, l);
      assert Window(l, 2) == [l, l + 1];
    }
    if l + 4 <= LANES {
      OnesAreWindow(4, l);
      assert Window(l, 4) == [l, l + 1, l + 2, l + 3];
    }
  }

  /** The lanes a strip primitive's mask asks for. */
  method StripLanes(p: Primitive, l: nat) returns (needed: set<nat>)
    requires p in {Line, Triangle, LineAdj, TriangleAdj} && l < WarpShape(p, true).primitives
    ensures needed == Lanes(Loaded(p, true, l))
  {
    if p == Line {
      ShortStripLanes(l);
      needed := Ones(2, l);
    } else if p == Triangle {
      TriangleLanes(l);
      needed := Ones(3, l);
    } else if p == LineAdj {
      ShortStripLanes(l);
      needed := Ones(4, l);
    } else {
      var odd := l % 2;
      var before := (2 * l + WORD - 2) % WORD;
      needed := {2 * l};
      needed := needed + {2 * (l + 1 + odd)};
      needed := needed + {2 * (l + 2 - odd)};
      needed := needed + {(if odd == 1 then 2 * l + 3 else before) % 33};
      needed := needed + {(6 + 2 * l) % 31};
      needed := needed + {if odd == 1 then before else 2 * l + 3};
    }
  }

  lemma NoLanes(first: nat)
    ensures Lanes(Window(first, 0)) == {}
  {
  }

  lemma NextLane(first: nat, n: nat)
    ensures Lanes(Window(first, n + 1)) == Lanes(Window(first, n)) + {first + n}
  {
  }

  /** The lanes a list primitive's mask asks for. */
  method ListLanes(p: Primitive, strip: bool, l: nat) returns (needed: set<nat>)
    requires Supported(p, strip) && !Strip(p, strip) && l < WarpShape(p, strip).primitives
    ensures needed == Lanes(Loaded(p, strip, l))
  {
    hide WarpShape, DrawGroup, Lanes, Window;
    TablesAgree(p, strip);
    var arity := WarpShape(p, strip).arity;
    needed := {};
    assert needed == Lanes(Window(arity * l, 0)) by { NoLanes(arity * l); }
    for c := 0 to arity
      invariant needed == Lanes(Window(arity * l, c))
    {
      NextLane(arity * l, c);
      needed := needed + {c + arity * l};
    }
  }

  /** The dispatch half, on lane 0 after the barrier.  Each bit it sets says that all lanes the
      mesh thread will load have a vertex. */
  method PrimitiveMask(p: Primitive, strip: bool, valid: set<nat>) returns (r: Masked)
    requires p.Declared()
    ensures r.Unsupported? <==> !Supported(p, strip)
    ensures r.Mask? ==> r.bits == set l: nat | l < WarpShape(p, strip).primitives && PrimitiveValid(p, strip, valid, l)
  {
    hide DrawGroup, Loaded, Lanes;
    var shape := WarpShape(p, strip);
    TablesAgree(p, strip);
    if strip && p.Patch? {
      return Unsupported;
    }
    var bits: set<nat> := {};
    for l := 0 to shape.primitives
      invariant bits == set i: nat | i < l && PrimitiveValid(p, strip, valid, i)
    {
      var needed;
      if Strip(p, strip) {
        needed := StripLanes(p, l);
      } else {
        needed := ListLanes(p, strip, l);
      }
      if needed * valid == needed {
        bits := bits + {l};
      }
    }
    return Mask(bits);
  }

  // ------------------------------------------------------------- the theorems

  /** How many primitives input assembly makes of `n` vertices. */
  function PrimitiveCount(p: Primitive, strip: bool, n: nat): nat
    requires p.Declared()
  {
    var k := p.Arity();
    if !Strip(p, strip) then n / k else if n < k then 0 else n - k + 1
  }

  /** The vertices of primitive `g` of the whole draw, triangle strips with alternating winding. */
  function Assembled(p: Primitive, strip: bool, g: nat): seq<nat>
    requires Splits(p, strip)
  {
    var k := p.Arity();
    if !Strip(p, strip) then Window(k * g, k)
    else if p == Triangle then seq(3, c requires 0 <= c < 3 => GeometryStrips.Corner(GeometryStrips.Triangles, g, c))
    else Window(g, k)
  }

  lemma GroupOffset(warp: nat, primitives: nat, arity: nat, l: nat)
    ensures warp * (primitives * arity) + arity * l == arity * (warp * primitives + l)
  {
    calc {
      arity * (warp * primitives + l);
      arity * (warp * primitives) + arity * l;
      { assert arity * (warp * primitives) == warp * (primitives * arity); }
      warp * (primitives * arity) + arity * l;
    }
  }

  lemma WithinGroup(arity: nat, primitives: nat, l: nat)
    requires l < primitives
    ensures arity * l + arity <= primitives * arity
  {
    Scale(arity, l + 1, primitives);
    assert arity * l + arity == arity * (l + 1);
  }

  lemma Scale(k: nat, a: nat, b: nat)
    requires a <= b
    ensures k * a <= k * b
  {
    assert k * b - k * a == k * (b - a);
  }

  lemma ListLoads(p: Primitive, strip: bool, warp: nat, l: nat, c: nat)
    requires Supported(p, strip) && !Strip(p, strip)
    requires var s := WarpShape(p, strip); l < s.primitives && c < p.Arity()
    ensures var s := WarpShape(p, strip);
            && l < LANES && |Loaded(p, strip, l)| == p.Arity() == |Assembled(p, strip, warp * s.primitives + l)|
            && Loaded(p, strip, l)[c] < s.stride
            && warp * s.stride + Loaded(p, strip, l)[c] == Assembled(p, strip, warp * s.primitives + l)[c]
  {
    hide WarpShape, DrawGroup;
    TablesAgree(p, strip);
    var s := WarpShape(p, strip);
    GroupOffset(warp, s.primitives, s.arity, l);
    WithinGroup(s.arity, s.primitives, l);
  }

  lemma StripLoads(p: Primitive, warp: nat, l: nat, c: nat)
    requires p in {Line, Triangle, LineAdj}
    requires var s := WarpShape(p, true); l < s.primitives && c < p.Arity()
    ensures var s := WarpShape(p, true);
            && l < LANES && |Loaded(p, true, l)| == p.Arity() == |Assembled(p, true, warp * s.primitives + l)|
            && Loaded(p, true, l)[c] < LANES
            && warp * s.stride + Loaded(p, true, l)[c] == Assembled(p, true, warp * s.primitives + l)[c]
  {
    if p == Triangle {
      TriangleStripLoads(warp, l, c);
    }
  }

  lemma TriangleStripLoads(warp: nat, l: nat, c: nat)
    requires l < 30 && c < 3
    ensures |Loaded(Triangle, true, l)| == 3 == |Assembled(Triangle, true, warp * 30 + l)|
    ensures Loaded(Triangle, true, l)[c] < LANES
    ensures warp * 30 + Loaded(Triangle, true, l)[c] == Assembled(Triangle, true, warp * 30 + l)[c]
  {
    assert (warp * 30 + l) % 2 == l % 2;
  }

  /** The vertex that a mesh thread's first lane would hold if numbers did not wrap. */
  function Lead(p: Primitive, strip: bool, warp: nat, l: nat): nat
    requires Splits(p, strip) && l < LANES
  {
    warp * WarpShape(p, strip).stride + LeadLane(p, strip, l)
  }

  /** The first lane of a mesh thread. */
  function LeadLane(p: Primitive, strip: bool, l: nat): nat
    requires Splits(p, strip)
  {
    if Strip(p, strip) then l else p.Arity() * l
  }

  lemma LeadLaneBounds(p: Primitive, strip: bool, l: nat)
    requires Splits(p, strip) && l < WarpShape(p, strip).primitives
    ensures var s, first := WarpShape(p, strip), LeadLane(p, strip, l);
            && l <= first < s.stride && s.primitives <= s.stride && first + p.Arity() <= LANES && l < LANES
            && (Strip(p, strip) || p.Arity() == 1 ==> first == l && s.primitives == s.stride)
            && (!Strip(p, strip) ==> first == p.Arity() * l)
  {
    hide WarpShape, DrawGroup;
    TablesAgree(p, strip);
    var s := WarpShape(p, strip);
    if !Strip(p, strip) {
      WithinGroup(s.arity, s.primitives, l);
      Scale(l, 1, s.arity);
    }
  }

  lemma LeadLaneGrows(p: Primitive, strip: bool, k: nat, l: nat)
    requires Splits(p, strip) && k <= l
    ensures LeadLane(p, strip, k) <= LeadLane(p, strip, l)
  {
    Scale(p.Arity(), k, l);
  }

  /** A mesh thread loads, up to wrapping, the vertices of the primitive whose number it would have;
      for triangle strips this needs the stride to be even. */
  lemma LoadsItsPrimitive(d: Draw, p: Primitive, strip: bool, warp: nat, l: nat, c: nat)
    requires Splits(p, strip) && d.count < WORD && l < WarpShape(p, strip).primitives && c < p.Arity()
    ensures var g := warp * WarpShape(p, strip).primitives + l;
            && l < LANES && |Loaded(p, strip, l)| == p.Arity() == |Assembled(p, strip, g)|
            && Loaded(p, strip, l)[c] < DrawGroup(p, strip).0
            && GlobalIndex(d, p, strip, warp, Loaded(p, strip, l)[c]) == Assembled(p, strip, g)[c] % WORD
            && Lead(p, strip, warp, l) <= Assembled(p, strip, g)[c] < Lead(p, strip, warp, l) + p.Arity()
  {
    hide WarpShape, DrawGroup, Loaded, Assembled;
    TablesAgree(p, strip);
    var s := WarpShape(p, strip);
    if Strip(p, strip) {
      StripLoads(p, warp, l, c);
    } else {
      ListLoads(p, strip, warp, l, c);
      Scale(s.primitives, 1, s.arity);
    }
    LeadIsFirst(p, strip, warp, l, c);
  }

  /** The vertices of a primitive are the `Arity` ones from its lead on. */
  lemma LeadIsFirst(p: Primitive, strip: bool, warp: nat, l: nat, c: nat)
    requires Splits(p, strip) && l < WarpShape(p, strip).primitives && c < p.Arity() && l < LANES
    ensures var g := warp * WarpShape(p, strip).primitives + l;
            && |Assembled(p, strip, g)| == p.Arity()
            && Lead(p, strip, warp, l) <= Assembled(p, strip, g)[c] < Lead(p, strip, warp, l) + p.Arity()
  {
    hide WarpShape, DrawGroup;
    TablesAgree(p, strip);
    var s := WarpShape(p, strip);
    if !Strip(p, strip) {
      GroupOffset(warp, s.primitives, s.arity, l);
    }
  }

  /** Which corner of a primitive is the `i`-th vertex from its lead on. */
  lemma CornerAt(p: Primitive, strip: bool, warp: nat, l: nat, i: nat) returns (c: nat)
    requires Splits(p, strip) && l < WarpShape(p, strip).primitives && i < p.Arity() && l < LANES
    ensures c < p.Arity() == |Assembled(p, strip, warp * WarpShape(p, strip).primitives + l)|
    ensures Assembled(p, strip, warp * WarpShape(p, strip).primitives + l)[c] == Lead(p, strip, warp, l) + i
  {
    hide WarpShape, DrawGroup;
    TablesAgree(p, strip);
    var s := WarpShape(p, strip);
    var g := warp * s.primitives + l;
    c := if strip && p == Triangle && g % 2 == 1 && i > 0 then 3 - i else i;
    if !Strip(p, strip) {
      GroupOffset(warp, s.primitives, s.arity, l);
    }
  }

  /** All vertices of primitive `g` are in the draw, and none is a restart. */
  ghost predicate Complete(d: Draw, p: Primitive, strip: bool, g: nat)
    requires Splits(p, strip)
  {
    forall c :: 0 <= c < |Assembled(p, strip, g)| ==>
      Assembled(p, strip, g)[c] < d.count && Assembled(p, strip, g)[c] !in d.restarts
  }

  /** The same of its vertices' numbers in 32 bits. */
  ghost predicate CompleteWrapped(d: Draw, p: Primitive, strip: bool, g: nat)
    requires Splits(p, strip)
  {
    forall c :: 0 <= c < |Assembled(p, strip, g)| ==>
      Assembled(p, strip, g)[c] % WORD < d.count && Assembled(p, strip, g)[c] % WORD !in d.restarts
  }

  /** The bit that the dispatch half sets for a mesh thread. */
  predicate ThreadValid(d: Draw, p: Primitive, strip: bool, warp: nat, l: nat)
    requires Supported(p, strip) && d.count < WORD && l < LANES
  {
    PrimitiveValid(p, strip, ValidLanes(d, p, strip, DrawGroup(p, strip).0, warp), l)
  }

  lemma ValidIffWrapped(d: Draw, p: Primitive, strip: bool, warp: nat, l: nat)
    requires Splits(p, strip) && d.count < WORD && l < WarpShape(p, strip).primitives
    ensures l < LANES
    ensures ThreadValid(d, p, strip, warp, l) <==>
      CompleteWrapped(d, p, strip, warp * WarpShape(p, strip).primitives + l)
  {
    hide WarpShape, DrawGroup, Assembled, Loaded, GlobalIndex;
    LoadsItsPrimitive(d, p, strip, warp, l, 0);
    var lanes, vertices := Loaded(p, strip, l), Assembled(p, strip, warp * WarpShape(p, strip).primitives + l);
    var valid := ValidLanes(d, p, strip, DrawGroup(p, strip).0, warp);
    forall c | 0 <= c < |lanes|
      ensures lanes[c] in valid <==> vertices[c] % WORD < d.count && vertices[c] % WORD !in d.restarts
    {
      LoadsItsPrimitive(d, p, strip, warp, l, c);
    }
    assert Lanes(lanes) <= valid <==> forall c :: 0 <= c < |lanes| ==> lanes[c] in valid;
  }

  /** A primitive that reaches over the wrap holds the vertex 2^32 - 1, which no draw has. */
  lemma WrappedIsComplete(d: Draw, p: Primitive, strip: bool, warp: nat, l: nat)
    requires Splits(p, strip) && d.count < WORD && l < WarpShape(p, strip).primitives && l < LANES
    requires Lead(p, strip, warp, l) < WORD
    ensures var g := warp * WarpShape(p, strip).primitives + l;
            CompleteWrapped(d, p, strip, g) <==> Complete(d, p, strip, g)
  {
    hide WarpShape, DrawGroup, Assembled, Loaded, GlobalIndex, Lead;
    var g, first := warp * WarpShape(p, strip).primitives + l, Lead(p, strip, warp, l);
    LeadIsFirst(p, strip, warp, l, 0);
    if first + p.Arity() > WORD {
      var c := CornerAt(p, strip, warp, l, WORD - 1 - first);
      assert Assembled(p, strip, g)[c] % WORD == WORD - 1;
    } else {
      forall c | 0 <= c < p.Arity() ensures Assembled(p, strip, g)[c] % WORD == Assembled(p, strip, g)[c] {
        LeadIsFirst(p, strip, warp, l, c);
      }
    }
  }

  lemma NumberFits(p: Primitive, strip: bool, warp: nat, l: nat)
    requires Splits(p, strip) && l < WarpShape(p, strip).primitives && l < LANES && Lead(p, strip, warp, l) < WORD
    ensures PatchId(p, strip, warp, l) == warp * WarpShape(p, strip).primitives + l
  {
    hide WarpShape, DrawGroup, LeadLane;
    LeadLaneBounds(p, strip, l);
    Scale(warp, WarpShape(p, strip).primitives, WarpShape(p, strip).stride);
    var number := warp * WarpShape(p, strip).primitives + l;
    assert number < WORD;
  }

  /** The bit of a mesh thread is set exactly when the primitive its id names is complete, as long
      as the first vertex of the thread is numbered without wrapping. */
  lemma ValidIffComplete(d: Draw, p: Primitive, strip: bool, warp: nat, l: nat)
    requires Splits(p, strip) && d.count < WORD && l < WarpShape(p, strip).primitives && l < LANES
    requires Lead(p, strip, warp, l) < WORD
    ensures ThreadValid(d, p, strip, warp, l) <==> Complete(d, p, strip, PatchId(p, strip, warp, l))
  {
    hide WarpShape, DrawGroup, Assembled, Loaded, GlobalIndex, Lead, Complete, CompleteWrapped, PatchId, ThreadValid;
    NumberFits(p, strip, warp, l);
    ValidIffWrapped(d, p, strip, warp, l);
    WrappedIsComplete(d, p, strip, warp, l);
  }

  /** Without restarts the complete primitives are the ones input assembly counts. */
  lemma CompleteIffCounted(d: Draw, p: Primitive, strip: bool, g: nat)
    requires Splits(p, strip) && d.restarts == {}
    ensures Complete(d, p, strip, g) <==> g < PrimitiveCount(p, strip, d.count)
  {
    var k, vs := p.Arity(), Assembled(p, strip, g);
    if !Strip(p, strip) {
      CountedList(g, k, d.count);
      assert vs[k - 1] == k * g + k - 1;
    } else if p == Triangle {
      assert vs[2 - g % 2] == g + 2;
    } else {
      assert vs[k - 1] == g + k - 1;
    }
  }

  lemma CountedList(g: nat, k: nat, n: nat)
    requires k > 0
    ensures k * g + k <= n <==> g < n / k
  {
    var q := n / k;
    if g < q {
      Scale(k, g + 1, q);
    } else {
      Scale(k, q, g);
    }
  }

  // ------------------------------------------------------------- exactly once

  /** A mesh thread of one of the draw's groups. */
  predicate ThreadOf(d: Draw, p: Primitive, strip: bool, warp: nat, l: nat)
    requires p.Declared() && d.count < WORD
  {
    warp < WarpCount(d, p, strip) && l < WarpShape(p, strip).primitives && l < LANES
  }

  /** Such a thread, marked valid. */
  predicate Draws(d: Draw, p: Primitive, strip: bool, warp: nat, l: nat)
    requires Supported(p, strip) && d.count < WORD
  {
    ThreadOf(d, p, strip, warp, l) && ThreadValid(d, p, strip, warp, l)
  }

  /** The very last mesh thread's first vertex is numbered without wrapping. */
  predicate Drawable(d: Draw, p: Primitive, strip: bool)
    requires Splits(p, strip) && d.count < WORD
  {
    TablesAgree(p, strip);
    d.count == 0 || Lead(p, strip, WarpCount(d, p, strip) - 1, WarpShape(p, strip).primitives - 1) < WORD
  }

  /** Each valid thread has a complete primitive, and no other valid thread has the same. */
  ghost predicate SplitsOnce(d: Draw, p: Primitive, strip: bool)
    requires Splits(p, strip) && d.count < WORD
  {
    && (forall w: nat, l: nat :: Draws(d, p, strip, w, l) ==> Complete(d, p, strip, PatchId(p, strip, w, l)))
    && (forall w: nat, l: nat, v: nat, k: nat ::
          Draws(d, p, strip, w, l) && Draws(d, p, strip, v, k) && PatchId(p, strip, w, l) == PatchId(p, strip, v, k) ==>
            w == v && l == k)
  }

  lemma LeadGrows(d: Draw, p: Primitive, strip: bool, warp: nat, l: nat)
    requires Splits(p, strip) && 0 < d.count < WORD && ThreadOf(d, p, strip, warp, l)
    ensures WarpShape(p, strip).primitives - 1 < LANES
    ensures Lead(p, strip, warp, l) <= Lead(p, strip, WarpCount(d, p, strip) - 1, WarpShape(p, strip).primitives - 1)
  {
    hide WarpShape, DrawGroup, WarpCount, LeadLane;
    var s, w := WarpShape(p, strip), WarpCount(d, p, strip) - 1;
    LeadLaneBounds(p, strip, s.primitives - 1);
    LeadLaneGrows(p, strip, l, s.primitives - 1);
    Scale(s.stride, warp, w);
    assert warp * s.stride == s.stride * warp <= s.stride * w == w * s.stride;
  }

  /** No vertex, no valid thread. */
  lemma NothingValid(d: Draw, p: Primitive, strip: bool, warp: nat, l: nat)
    requires Splits(p, strip) && d.count == 0 && ThreadOf(d, p, strip, warp, l)
    ensures !ThreadValid(d, p, strip, warp, l)
  {
    hide WarpShape, DrawGroup, GlobalIndex, Loaded, Lead, Assembled;
    LoadsItsPrimitive(d, p, strip, warp, l, 0);
    assert Loaded(p, strip, l)[0] in Lanes(Loaded(p, strip, l));
  }

  lemma SameThread(d: Draw, p: Primitive, strip: bool, w: nat, l: nat, v: nat, k: nat)
    requires Splits(p, strip) && d.count < WORD && ThreadOf(d, p, strip, w, l) && ThreadOf(d, p, strip, v, k)
    requires Lead(p, strip, w, l) < WORD && Lead(p, strip, v, k) < WORD
    requires PatchId(p, strip, w, l) == PatchId(p, strip, v, k)
    ensures w == v && l == k
  {
    hide WarpShape, DrawGroup, PatchId, Lead, WarpCount;
    NumberFits(p, strip, w, l);
    NumberFits(p, strip, v, k);
    DivMod(w, WarpShape(p, strip).primitives, l);
    DivMod(v, WarpShape(p, strip).primitives, k);
  }

  lemma DivMod(w: nat, n: nat, i: nat)
    requires i < n
    ensures (w * n + i) / n == w && (w * n + i) % n == i
  {
    var x := w * n + i;
    if x / n < w {
      Scale(n, x / n + 1, w);
    } else if w < x / n {
      Scale(n, w + 1, x / n);
    }
  }

  /** Drawable draws are split right, whatever their restarts. */
  lemma DrawableSplitsOnce(d: Draw, p: Primitive, strip: bool)
    requires Splits(p, strip) && d.count < WORD && Drawable(d, p, strip)
    ensures SplitsOnce(d, p, strip)
  {
    hide WarpShape, DrawGroup, PatchId, Lead, WarpCount, ThreadValid, Complete;
    forall w: nat, l: nat | Draws(d, p, strip, w, l)
      ensures Lead(p, strip, w, l) < WORD && Complete(d, p, strip, PatchId(p, strip, w, l))
    {
      if d.count == 0 {
        NothingValid(d, p, strip, w, l);
      } else {
        LeadGrows(d, p, strip, w, l);
        ValidIffComplete(d, p, strip, w, l);
      }
    }
    forall w: nat, l: nat, v: nat, k: nat
      | Draws(d, p, strip, w, l) && Draws(d, p, strip, v, k) && PatchId(p, strip, w, l) == PatchId(p, strip, v, k)
      ensures w == v && l == k
    {
      SameThread(d, p, strip, w, l, v, k);
    }
  }

  /** Without restarts, exactly the drawable ones are: otherwise the last thread runs on vertices
      numbered from 0 again. */
  lemma SplitsOnceIffDrawable(d: Draw, p: Primitive, strip: bool)
    requires Splits(p, strip) && d.count < WORD && d.restarts == {}
    ensures SplitsOnce(d, p, strip) <==> Drawable(d, p, strip)
  {
    hide WarpShape, DrawGroup, PatchId, Lead, WarpCount, ThreadValid, Complete, SplitsOnce;
    if Drawable(d, p, strip) {
      DrawableSplitsOnce(d, p, strip);
    } else {
      LastThreadWraps(d, p, strip);
    }
  }

  /** Where the last thread of a draw that is not drawable wraps to. */
  lemma LeadBound(d: Draw, p: Primitive, strip: bool)
    requires Splits(p, strip) && d.count < WORD && !Drawable(d, p, strip)
    ensures var w, l := WarpCount(d, p, strip) - 1, WarpShape(p, strip).primitives - 1;
            && 0 <= l < LANES && w > 0 && WORD - 32 < d.count
            && WORD <= Lead(p, strip, w, l) && Lead(p, strip, w, l) + p.Arity() < WORD + LANES
            && (Strip(p, strip) || p.Arity() == 1 ==> Lead(p, strip, w, l) < WORD + WarpShape(p, strip).primitives)
  {
    hide WarpShape, DrawGroup, LeadLane, WarpCount;
    GroupsBelow(d, p, strip);
    LeadLaneBounds(p, strip, WarpShape(p, strip).primitives - 1);
  }

  /** Every group starts within the draw. */
  lemma GroupsBelow(d: Draw, p: Primitive, strip: bool)
    requires p.Declared() && 0 < d.count < WORD
    ensures var s := WarpShape(p, strip).stride;
            s > 0 && WarpCount(d, p, strip) == (d.count - 1) / s + 1 && (WarpCount(d, p, strip) - 1) * s <= d.count - 1
    ensures WarpShape(p, strip).primitives >= 1
  {
    hide WarpShape, DrawGroup;
    TablesAgree(p, strip);
    assert (d.count + WORD - 1) % WORD == d.count - 1;
    Quotient(d.count - 1, WarpShape(p, strip).stride);
  }

  lemma Division(n: nat, s: nat)
    requires s > 0
    ensures n == n / s * s + n % s && n % s < s
  {
  }

  lemma Quotient(n: nat, s: nat)
    requires s > 0
    ensures n / s * s <= n
  {
  }

  lemma WrappedVertices(d: Draw, p: Primitive, strip: bool, w: nat, l: nat)
    requires Splits(p, strip) && d.count < WORD && d.restarts == {} && LANES <= d.count
    requires l < WarpShape(p, strip).primitives && l < LANES
    requires var first := Lead(p, strip, w, l); WORD <= first && first + p.Arity() < WORD + LANES
    ensures ThreadValid(d, p, strip, w, l)
  {
    hide WarpShape, DrawGroup, Lead, Assembled, ThreadValid;
    ValidIffWrapped(d, p, strip, w, l);
    LeadIsFirst(p, strip, w, l, 0);
    var vertices := Assembled(p, strip, w * WarpShape(p, strip).primitives + l);
    forall c | 0 <= c < p.Arity() ensures vertices[c] % WORD < LANES {
      LeadIsFirst(p, strip, w, l, c);
      assert vertices[c] % WORD == vertices[c] - WORD;
    }
  }

  /** Where primitives start at every vertex, the first group has the thread wrapped to. */
  lemma EarlierThread(d: Draw, p: Primitive, strip: bool, w: nat, l: nat, m: nat)
    requires Splits(p, strip) && (Strip(p, strip) || p.Arity() == 1) && d.count < WORD && d.restarts == {}
    requires LANES <= d.count
    requires l < WarpShape(p, strip).primitives && l < LANES && m < WarpShape(p, strip).primitives
    requires m + p.Arity() < LANES
    requires Lead(p, strip, w, l) == WORD + m
    ensures PatchId(p, strip, w, l) == PatchId(p, strip, 0, m) == m
    ensures ThreadValid(d, p, strip, 0, m)
  {
    hide WarpShape, DrawGroup, Assembled, ThreadValid, LeadLane;
    LeadLaneBounds(p, strip, l);
    LeadLaneBounds(p, strip, m);
    assert Lead(p, strip, 0, m) == m && (WORD + m) % WORD == m;
    NumberFits(p, strip, 0, m);
    ValidIffComplete(d, p, strip, 0, m);
    LeadIsFirst(p, strip, 0, m, 0);
    assert |Assembled(p, strip, m)| == p.Arity();
    forall c | 0 <= c < p.Arity() ensures Assembled(p, strip, m)[c] < LANES {
      LeadIsFirst(p, strip, 0, m, c);
    }
  }

  /** Everywhere else the number does not wrap, and no such primitive is complete. */
  lemma BehindTheDraw(d: Draw, p: Primitive, strip: bool, w: nat, l: nat)
    requires Splits(p, strip) && !Strip(p, strip) && p.Arity() > 1 && d.count < WORD
    requires l < WarpShape(p, strip).primitives && l < LANES && WORD <= Lead(p, strip, w, l) < WORD + LANES
    ensures !Complete(d, p, strip, PatchId(p, strip, w, l))
  {
    hide WarpShape, DrawGroup;
    TablesAgree(p, strip);
    var s := WarpShape(p, strip);
    var g := w * s.primitives + l;
    GroupOffset(w, s.primitives, s.arity, l);
    assert Lead(p, strip, w, l) == p.Arity() * g;
    hide Lead;
    NumberBelow(g, p.Arity());
    assert PatchId(p, strip, w, l) == g;
    ListEnds(d, p, strip, g);
  }

  lemma NumberBelow(g: nat, k: nat)
    requires k >= 2 && k * g < WORD + LANES
    ensures g < WORD
  {
    Scale(g, 2, k);
    assert k * g == g * k;
  }

  lemma ListEnds(d: Draw, p: Primitive, strip: bool, g: nat)
    requires Splits(p, strip) && !Strip(p, strip) && d.count <= p.Arity() * g
    ensures !Complete(d, p, strip, g)
  {
    assert Assembled(p, strip, g)[0] == p.Arity() * g;
  }

  lemma LastThreadWraps(d: Draw, p: Primitive, strip: bool)
    requires Splits(p, strip) && d.count < WORD && d.restarts == {} && !Drawable(d, p, strip)
    ensures !SplitsOnce(d, p, strip)
  {
    hide WarpShape, DrawGroup, PatchId, Lead, WarpCount, ThreadValid, Complete, Assembled;
    LeadBound(d, p, strip);
    var w, l := WarpCount(d, p, strip) - 1, WarpShape(p, strip).primitives - 1;
    var m := Lead(p, strip, w, l) - WORD;
    WrappedVertices(d, p, strip, w, l);
    assert Draws(d, p, strip, w, l);
    if Strip(p, strip) || p.Arity() == 1 {
      EarlierThread(d, p, strip, w, l, m);
      assert Draws(d, p, strip, 0, m);
    } else {
      BehindTheDraw(d, p, strip, w, l);
    }
  }

  /** No other valid thread has this one's number. */
  ghost predicate NoOther(d: Draw, p: Primitive, strip: bool, warp: nat, l: nat)
    requires Splits(p, strip) && d.count < WORD
  {
    forall w: nat, i: nat :: Draws(d, p, strip, w, i) && PatchId(p, strip, w, i) == PatchId(p, strip, warp, l) ==>
      w == warp && i == l
  }

  /** Every complete primitive of a draw that is split right belongs to exactly one valid mesh thread
      of one group, whose number it is; a thread exists whether the draw is split right or not. */
  lemma EveryPrimitiveOnce(d: Draw, p: Primitive, strip: bool, g: nat) returns (warp: nat, l: nat)
    requires Splits(p, strip) && d.count < WORD && Complete(d, p, strip, g)
    ensures Draws(d, p, strip, warp, l) && PatchId(p, strip, warp, l) == g
    ensures SplitsOnce(d, p, strip) ==> NoOther(d, p, strip, warp, l)
  {
    hide Draws, PatchId, Complete, SplitsOnce;
    warp, l := ThreadFor(d, p, strip, g);
    if SplitsOnce(d, p, strip) {
      OnceMeans(d, p, strip, warp, l);
    }
  }

  lemma ThreadFor(d: Draw, p: Primitive, strip: bool, g: nat) returns (warp: nat, l: nat)
    requires Splits(p, strip) && d.count < WORD && Complete(d, p, strip, g)
    ensures Draws(d, p, strip, warp, l) && PatchId(p, strip, warp, l) == g
  {
    hide WarpShape, DrawGroup, PatchId, WarpCount, Complete, ThreadValid, Lead;
    TablesAgree(p, strip);
    var n := WarpShape(p, strip).primitives;
    warp, l := g / n, g % n;
    GroupHolds(d, p, strip, g, warp);
    Division(g, n);
    NumberFits(p, strip, warp, l);
    ValidIffComplete(d, p, strip, warp, l);
  }

  lemma OnceMeans(d: Draw, p: Primitive, strip: bool, warp: nat, l: nat)
    requires Splits(p, strip) && d.count < WORD && SplitsOnce(d, p, strip) && Draws(d, p, strip, warp, l)
    ensures NoOther(d, p, strip, warp, l)
  {
    hide Draws, PatchId, Complete;
  }

  /** The group of a complete primitive is one of the draw's groups, and its first vertex is numbered
      without wrapping. */
  lemma GroupHolds(d: Draw, p: Primitive, strip: bool, g: nat, warp: nat)
    requires Splits(p, strip) && d.count < WORD && Complete(d, p, strip, g)
    requires WarpShape(p, strip).primitives > 0 && warp == g / WarpShape(p, strip).primitives
    ensures warp < WarpCount(d, p, strip) && g % WarpShape(p, strip).primitives < LANES
    ensures Lead(p, strip, warp, g % WarpShape(p, strip).primitives) < WORD
  {
    hide WarpShape, DrawGroup, Complete, Assembled, WarpCount, LeadLane;
    TablesAgree(p, strip);
    var s := WarpShape(p, strip);
    var l := g % s.primitives;
    FirstVertex(d, p, strip, g);
    Division(g, s.primitives);
    LeadLaneBounds(p, strip, l);
    if !Strip(p, strip) {
      GroupOffset(warp, s.primitives, s.arity, l);
    }
    assert Lead(p, strip, warp, l) < d.count;
    GroupsBelow(d, p, strip);
    GroupBound(warp, s.stride, d.count - 1);
  }

  lemma GroupBound(warp: nat, stride: nat, last: nat)
    requires stride > 0 && warp * stride <= last
    ensures warp < last / stride + 1
  {
    if warp > last / stride {
      Scale(stride, last / stride + 1, warp);
    }
  }

  lemma FirstVertex(d: Draw, p: Primitive, strip: bool, g: nat)
    requires Splits(p, strip) && Complete(d, p, strip, g)
    ensures (if Strip(p, strip) then g else p.Arity() * g) < d.count
  {
    assert Assembled(p, strip, g)[0] == if Strip(p, strip) then g else p.Arity() * g;
  }

  // ------------------------------------------------------------- triangle-adjacency strips

  /** The six vertices of primitive `g` of a triangle-adjacency strip, before the end of the draw:
      its own at 0, 2 and 4, each followed by the neighbour across the edge. */
  function Adjacent(g: nat): (vs: seq<nat>)
    ensures |vs| == 6
  {
    var odd := g % 2;
    var before := if g == 0 then 1 else 2 * g - 2;
    [2 * g, if odd == 1 then 2 * g + 3 else before, 2 * (g + 1 + odd), 2 * g + 6,
     2 * (g + 2 - odd), if odd == 1 then before else 2 * g + 3]
  }

  /** The numbers of this group are positive as signed words, and so is the last vertex's. */
  predicate SmallGroup(d: Draw, warp: nat) { 0 < d.count <= WORD / 2 && 28 * warp + 64 <= WORD / 2 }

  function Earlier(a: nat, b: nat): nat { if a < b then a else b }

  lemma HeldVertex(d: Draw, warp: nat, lane: nat)
    requires SmallGroup(d, warp) && lane < LANES
    ensures GlobalIndex(d, TriangleAdj, true, warp, lane) ==
              if lane == 31 then (if warp == 0 then 1 else 28 * warp - 2)
              else Earlier(if lane == 1 then 28 * warp + 32 else 28 * warp + lane, d.count - 1)
  {
    assert warp * 28 == 28 * warp;
    assert (d.count + WORD - 1) % WORD == d.count - 1;
    var id := 28 * warp + lane;
    assert id % WORD == id;
    if lane == 31 {
      if warp > 0 {
        assert (id + WORD - 33) % WORD == id - 33;
      } else {
        assert (id + WORD - 33) % WORD == WORD - 2;
      }
    }
  }

  /** The lane for each place of a thread's primitive is the one that holds it, but for the
      unsigned remainder of the first thread's preceding neighbour, which is lane 2. */
  lemma AdjacencyLanes(warp: nat, l: nat, c: nat)
    requires l < 14 && c < 6
    ensures |Loaded(TriangleAdj, true, l)| == 6
    ensures var lane := Loaded(TriangleAdj, true, l)[c];
            && lane < 31 && (l == 0 && c == 1 ==> lane == 2)
            && (l != 0 || c != 1 ==> 28 * warp + (if lane == 1 then 32 else lane) == Adjacent(14 * warp + l)[c])
  {
    LoadedLanes(l);
    AdjacentFrom(warp, l);
    hide Loaded, Adjacent;
  }

  lemma AdjacentFrom(warp: nat, l: nat)
    requires l < 14
    ensures (14 * warp + l) % 2 == l % 2
    ensures var first := 28 * warp;
            var before := if warp == 0 && l == 0 then 1 else first + 2 * l - 2;
            Adjacent(14 * warp + l) ==
              if l % 2 == 0 then [first + 2 * l, before, first + 2 * l + 2, first + 2 * l + 6, first + 2 * l + 4,
                                  first + 2 * l + 3]
              else [first + 2 * l, first + 2 * l + 3, first + 2 * l + 4, first + 2 * l + 6, first + 2 * l + 2, before]
  {
    Parity(14 * warp + l, l, 7 * warp);
  }

  lemma Parity(g: nat, l: nat, k: nat)
    requires g == 2 * k + l
    ensures g % 2 == l % 2
  {
  }

  lemma LoadedLanes(l: nat)
    requires l < 14
    ensures var sixth := if l == 13 then 1 else 2 * l + 6;
            Loaded(TriangleAdj, true, l) ==
              if l == 0 then [0, 2, 2, 6, 4, 3]
              else if l % 2 == 0 then [2 * l, 2 * l - 2, 2 * l + 2, sixth, 2 * l + 4, 2 * l + 3]
              else [2 * l, 2 * l + 3, 2 * l + 4, sixth, 2 * l + 2, 2 * l - 2]
  {
    BeforeLane(l);
    assert (2 * l + 6) % 31 == if l == 13 then 1 else 2 * l + 6;
  }

  lemma BeforeLane(l: nat)
    requires l < 14
    ensures var before := (2 * l + WORD - 2) % WORD;
            && before == (if l == 0 then WORD - 2 else 2 * l - 2) && before % 33 == (if l == 0 then 2 else 2 * l - 2)
            && (2 * l + 3) % 33 == 2 * l + 3
  {
  }

  lemma AdjacencyNumber(d: Draw, warp: nat, l: nat)
    requires SmallGroup(d, warp) && l < 14
    ensures PatchId(TriangleAdj, true, warp, l) == 14 * warp + l
  {
  }

  /** A mesh thread of a triangle-adjacency strip is handed the six vertices of the primitive whose
      number it has, those behind the draw replaced by its last, with one exception: the first
      thread of every group is handed a wrong neighbour across its first edge. */
  lemma AdjacencyLoads(d: Draw, warp: nat, l: nat, c: nat)
    requires SmallGroup(d, warp) && l < WarpShape(TriangleAdj, true).primitives && c < 6 && 28 * warp + 2 < d.count
    ensures l < LANES && Loaded(TriangleAdj, true, l)[c] < LANES
    ensures var vertex := GlobalIndex(d, TriangleAdj, true, warp, Loaded(TriangleAdj, true, l)[c]);
            vertex == Earlier(Adjacent(PatchId(TriangleAdj, true, warp, l))[c], d.count - 1) <==> l != 0 || c != 1
  {
    AdjacencyNumber(d, warp, l);
    hide GlobalIndex, Loaded, PatchId;
    AdjacencyLanes(warp, l, c);
    HeldVertex(d, warp, Loaded(TriangleAdj, true, l)[c]);
    if l == 0 && c == 1 {
      assert (14 * warp) % 2 == 0;
    }
  }

  /** All lanes stay within the draw, so without restarts every thread of every group is valid. */
  lemma AdjacencyAlwaysValid(d: Draw, warp: nat, l: nat)
    requires SmallGroup(d, warp) && l < WarpShape(TriangleAdj, true).primitives && d.restarts == {}
    ensures l < LANES && ThreadValid(d, TriangleAdj, true, warp, l)
  {
    LoadedLanes(l);
    hide GlobalIndex, Loaded;
    forall x | x in Loaded(TriangleAdj, true, l) ensures x < LANES && LaneValid(d, TriangleAdj, true, warp, x) {
      assert x < 31;
      HeldVertex(d, warp, x);
    }
  }

  /** Is a mesh thread valid, with three different vertices for its triangle? */
  predicate DrawsTriangle(d: Draw, warp: nat, l: nat)
    requires 0 < d.count < WORD && l < LANES
  {
    var lanes := Loaded(TriangleAdj, true, l);
    var v := seq(3, i requires 0 <= i < 3 => GlobalIndex(d, TriangleAdj, true, warp, lanes[2 * i]));
    ThreadValid(d, TriangleAdj, true, warp, l) && v[0] != v[1] && v[1] != v[2] && v[0] != v[2]
  }

  /** Input assembly counts a primitive if all six places from its first vertex on are in the draw.
      A strip of at least four vertices draws exactly one triangle with three different vertices more:
      clamping makes the one behind the last valid, and leaves its vertices different. */
  lemma OneTriangleTooMany(d: Draw, warp: nat, l: nat)
    requires SmallGroup(d, warp) && l < WarpShape(TriangleAdj, true).primitives && d.restarts == {}
    ensures l < LANES
    ensures PatchId(TriangleAdj, true, warp, l) == 14 * warp + l
    ensures DrawsTriangle(d, warp, l) <==> PatchId(TriangleAdj, true, warp, l) + 1 < d.count / 2
    ensures 2 * PatchId(TriangleAdj, true, warp, l) + 6 <= d.count
            <==> PatchId(TriangleAdj, true, warp, l) + 2 < d.count / 2
  {
    hide GlobalIndex, ThreadValid;
    AdjacencyAlwaysValid(d, warp, l);
    HeldVertex(d, warp, 2 * l);
    HeldVertex(d, warp, 2 * l + 2);
    HeldVertex(d, warp, 2 * l + 4);
  }

  /** How many primitives input assembly makes of a triangle-adjacency strip of `n` vertices. */
  function AdjacentCount(n: nat): nat { if n < 6 then 0 else n / 2 - 2 }

  /** Two vertices a primitive, and six of each must be there. */
  lemma AdjacentCounts(n: nat, i: nat)
    ensures i < AdjacentCount(n) <==> 2 * i + 6 <= n
  {
  }

  /** The geometry shader itself runs on every thread of every group, degenerate or not: at least two
      and at most sixteen times more than there are primitives. */
  lemma ExtraInvocations(d: Draw)
    requires 0 < d.count < WORD && 28 * WarpCount(d, TriangleAdj, true) + 36 <= WORD / 2 && d.restarts == {}
    ensures forall w: nat, l: nat :: w < WarpCount(d, TriangleAdj, true) && l < 14 ==>
              ThreadValid(d, TriangleAdj, true, w, l)
    ensures AdjacentCount(d.count) + 2 <= 14 * WarpCount(d, TriangleAdj, true) <= AdjacentCount(d.count) + 16
  {
    hide ThreadValid;
    var n := WarpCount(d, TriangleAdj, true);
    assert n == (d.count - 1) / 28 + 1 by {
      GroupsBelow(d, TriangleAdj, true);
    }
    forall w: nat, l: nat | w < n && l < 14 ensures ThreadValid(d, TriangleAdj, true, w, l) {
      AdjacencyAlwaysValid(d, w, l);
    }
  }

  /** Beyond 2^31 vertices signed comparison takes the last vertex for a negative number, and the
      groups below it are handed nothing else. */
  lemma LargeStripCollapses(d: Draw, warp: nat, lane: nat)
    requires WORD / 2 < d.count < WORD && 28 * warp + 64 <= WORD / 2 && lane < 31
    ensures GlobalIndex(d, TriangleAdj, true, warp, lane) == d.count - 1
  {
    assert warp * 28 == 28 * warp;
    assert (d.count + WORD - 1) % WORD == d.count - 1;
    var id := 28 * warp + lane;
    assert id % WORD == id;
    if lane == 1 {
      assert (id + 31) % WORD == id + 31;
    }
  }
}
