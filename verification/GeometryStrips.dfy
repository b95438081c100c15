/** Emulating the output of a geometry shader with a mesh: emit and cut keep three counters and
    write vertices, per-primitive data and indices; the result must be strip assembly. */
module GeometryStrips {

  // ------------------------------------------------------------- strip assembly

  datatype Event<V> = Emit(vertex: V) | Cut

  /** Vertices per primitive. */
  datatype Topology = Triangles | Lines {
    function Arity(): nat { if Triangles? then 3 else 2 }
  }

  /** The strip vertex that is corner `c` of primitive `j`: triangles alternate their winding. */
  function Corner(top: Topology, j: nat, c: nat): nat {
    if top.Triangles? && j % 2 == 1 && c == 1 then j + 2
    else if top.Triangles? && j % 2 == 1 && c == 2 then j + 1
    else j + c
  }

  /** Going round the corners of primitive `j`, vertex `b` follows vertex `a`. */
  predicate Follows(j: nat, a: nat, b: nat) {
    || (Corner(Triangles, j, 0) == a && Corner(Triangles, j, 1) == b)
    || (Corner(Triangles, j, 1) == a && Corner(Triangles, j, 2) == b)
    || (Corner(Triangles, j, 2) == a && Corner(Triangles, j, 0) == b)
  }

  /** The triangles of a strip face the same way: the edge that two share is passed in opposite
      directions.  The first goes round in the order of its vertices, and each starts with its
      leading vertex. */
  lemma FacesAlike(j: nat)
    ensures Follows(j, j + 1, j + 2) <==> Follows(j + 1, j + 2, j + 1)
    ensures Follows(j, j + 2, j + 1) <==> Follows(j + 1, j + 1, j + 2)
    ensures Follows(j, j + 1, j + 2) <==> !Follows(j, j + 2, j + 1)
    ensures Follows(0, 0, 1) && Follows(0, 1, 2) && Corner(Triangles, j, 0) == j
    ensures Corner(Lines, j, 0) == j && Corner(Lines, j, 1) == j + 1
  {
    assert (j + 1) % 2 == 1 - j % 2;
  }

  /** The strips that the cuts have ended, and the strip still open. */
  function Closed<V>(events: seq<Event<V>>): seq<seq<V>> {
    if events == [] then []
    else
      var init := events[..|events| - 1];
      if events[|events| - 1].Cut? then Closed(init) + [Open(init)] else Closed(init)
  }

  function Open<V>(events: seq<Event<V>>): seq<V> {
    if events == [] then []
    else
      match events[|events| - 1]
      case Emit(v) => Open(events[..|events| - 1]) + [v]
      case Cut => []
  }

  function Emits<V>(events: seq<Event<V>>): nat {
    if events == [] then 0
    else Emits(events[..|events| - 1]) + if events[|events| - 1].Emit? then 1 else 0
  }

  /** How many primitives a strip of `n` vertices makes. */
  function StripCount(top: Topology, n: nat): nat {
    if n < top.Arity() then 0 else n - top.Arity() + 1
  }

  /** The corners of a strip's primitives, as vertices. */
  function StripPrimitives<V>(top: Topology, s: seq<V>): seq<seq<V>> {
    seq(StripCount(top, |s|), j requires 0 <= j < StripCount(top, |s|) =>
      seq(top.Arity(), c requires 0 <= c < top.Arity() => s[Corner(top, j, c)]))
  }

  /** All primitives, strip after strip; strips that are too short leave no trace. */
  function Primitives<V>(top: Topology, strips: seq<seq<V>>): seq<seq<V>> {
    if strips == [] then []
    else Primitives(top, strips[..|strips| - 1]) + StripPrimitives(top, strips[|strips| - 1])
  }

  /** The leading vertex of every primitive. */
  function Leaders<V>(top: Topology, strips: seq<seq<V>>): (ls: seq<V>)
    ensures |ls| == |Primitives(top, strips)|
  {
    if strips == [] then []
    else
      var last := strips[|strips| - 1];
      Leaders(top, strips[..|strips| - 1]) + last[..StripCount(top, |last|)]
  }

  /** The vertices that stay: those of long enough strips. */
  function Retained<V>(top: Topology, strips: seq<seq<V>>): seq<V> {
    if strips == [] then []
    else
      var last := strips[|strips| - 1];
      Retained(top, strips[..|strips| - 1]) + if |last| < top.Arity() then [] else last
  }

  lemma AddStrip<V>(top: Topology, strips: seq<seq<V>>, s: seq<V>)
    ensures Primitives(top, strips + [s]) == Primitives(top, strips) + StripPrimitives(top, s)
    ensures Leaders(top, strips + [s]) == Leaders(top, strips) + s[..StripCount(top, |s|)]
    ensures Retained(top, strips + [s]) == Retained(top, strips) + if |s| < top.Arity() then [] else s
  {
    assert (strips + [s])[..|strips|] == strips;
  }

  /** No more vertices and no more primitives than emits, open strip included. */
  lemma {:induction false} Sizes<V>(top: Topology, events: seq<Event<V>>)
    ensures |Retained(top, Closed(events))| + |Open(events)| <= Emits(events)
    ensures |Primitives(top, Closed(events))| + |Open(events)| <= Emits(events)
    decreases |events|
  {
    if events != [] {
      var init := events[..|events| - 1];
      Sizes(top, init);
      if events[|events| - 1].Cut? {
        AddStrip(top, Closed(init), Open(init));
      }
    }
  }

  lemma EventAdded<V>(events: seq<Event<V>>, e: Event<V>)
    ensures var all := events + [e];
            && Closed(all) == (if e.Cut? then Closed(events) + [Open(events)] else Closed(events))
            && Open(all) == (if e.Cut? then [] else Open(events) + [e.vertex])
            && Emits(all) == Emits(events) + if e.Emit? then 1 else 0
  {
    assert (events + [e])[..|events|] == events;
  }

  // ------------------------------------------------------------- the mesh

  /** The place in the index buffer of corner `c` of primitive `p`. */
  function Slot(top: Topology, p: nat, c: nat): nat {
    if top.Triangles? then 3 * p + c else 2 * p + c
  }

  /** The three counters and the three buffers of the mesh. */
  datatype Mesh<V> = Mesh(next: nat, offset: nat, count: nat, vertices: seq<V>, primitives: seq<V>, indices: seq<nat>)

  /** Corner `c` of primitive `p` in the index buffer is the vertex with corners `vs`. */
  ghost predicate Draws<V>(top: Topology, m: Mesh<V>, vs: seq<V>, p: nat, c: nat) {
    && c < |vs| && Slot(top, p, c) < |m.indices|
    && m.indices[Slot(top, p, c)] < m.offset <= |m.vertices|
    && m.vertices[m.indices[Slot(top, p, c)]] == vs[c]
  }

  /** Corner `c` of the primitive led by vertex `j` of the open strip. */
  ghost predicate Sketched<V>(top: Topology, m: Mesh<V>, j: nat, c: nat) {
    && Slot(top, m.count + j, c) < |m.indices|
    && m.indices[Slot(top, m.count + j, c)] == m.offset + Corner(top, j, c)
  }

  /** The mesh is the assembly of the strips that are closed: its counters, its retained
      vertices, the data of each primitive and the corners of each primitive. */
  ghost predicate Assembled<V>(top: Topology, m: Mesh<V>, strips: seq<seq<V>>) {
    && m.offset == |Retained(top, strips)| <= |m.vertices|
    && m.count == |Primitives(top, strips)| <= |m.primitives|
    && m.vertices[..m.offset] == Retained(top, strips)
    && m.primitives[..m.count] == Leaders(top, strips)
    && forall p, c :: 0 <= p < m.count && 0 <= c < top.Arity() ==> Draws(top, m, Primitives(top, strips)[p], p, c)
  }

  /** Behind it the open strip is laid out with the primitives it may still grow into. */
  ghost predicate Growing<V>(top: Topology, m: Mesh<V>, strip: seq<V>) {
    && m.next == |strip| && m.offset + m.next <= |m.vertices| && m.count + m.next <= |m.primitives|
    && m.vertices[m.offset..m.offset + m.next] == strip
    && m.primitives[m.count..m.count + m.next] == strip
    && forall j, c :: 0 <= j < m.next && 0 <= c < top.Arity() ==> Sketched(top, m, j, c)
  }

  ghost predicate Tracks<V>(top: Topology, m: Mesh<V>, events: seq<Event<V>>) {
    Assembled(top, m, Closed(events)) && Growing(top, m, Open(events))
  }

  /** `m'` is `m` after one emit has written vertex, data and the corners of one primitive. */
  ghost predicate Extends<V>(top: Topology, m: Mesh<V>, m': Mesh<V>, v: V) {
    && m'.next == m.next + 1 && m'.offset == m.offset && m'.count == m.count
    && m.offset + m.next < |m.vertices| && m.count + m.next < |m.primitives|
    && m'.vertices == m.vertices[m.offset + m.next := v]
    && m'.primitives == m.primitives[m.count + m.next := v]
    && |m'.indices| == |m.indices|
    && (forall i :: 0 <= i < Slot(top, m.count + m.next, 0) && i < |m.indices| ==> m'.indices[i] == m.indices[i])
    && forall c :: 0 <= c < top.Arity() ==> Sketched(top, m', m.next, c)
  }

  lemma AssembledKept<V>(top: Topology, m: Mesh<V>, m': Mesh<V>, v: V, strips: seq<seq<V>>)
    requires Assembled(top, m, strips) && Extends(top, m, m', v)
    ensures Assembled(top, m', strips)
  {
    assert m'.vertices[..m.offset] == m.vertices[..m.offset];
    assert m'.primitives[..m.count] == m.primitives[..m.count];
    forall p, c | 0 <= p < m.count && 0 <= c < top.Arity()
      ensures Draws(top, m', Primitives(top, strips)[p], p, c)
    {
      assert Draws(top, m, Primitives(top, strips)[p], p, c);
    }
  }

  lemma StripGrows<V>(top: Topology, m: Mesh<V>, m': Mesh<V>, v: V, strip: seq<V>)
    requires Growing(top, m, strip) && Extends(top, m, m', v)
    ensures Growing(top, m', strip + [v])
  {
    assert m'.vertices[m.offset..m.offset + m.next] == m.vertices[m.offset..m.offset + m.next];
    assert m'.primitives[m.count..m.count + m.next] == m.primitives[m.count..m.count + m.next];
    forall j, c | 0 <= j < m'.next && 0 <= c < top.Arity() ensures Sketched(top, m', j, c) {
      assert j < m.next ==> Sketched(top, m, j, c);
    }
  }

  lemma EmitTracks<V>(top: Topology, m: Mesh<V>, m': Mesh<V>, v: V, events: seq<Event<V>>)
    requires Tracks(top, m, events) && Extends(top, m, m', v)
    ensures Tracks(top, m', events + [Emit(v)])
  {
    EventAdded(events, Emit(v));
    AssembledKept(top, m, m', v, Closed(events));
    StripGrows(top, m, m', v, Open(events));
  }

  /** `m'` is `m` after a cut has moved the counters over the open strip, if it is long enough. */
  ghost predicate Cuts<V>(top: Topology, m: Mesh<V>, m': Mesh<V>) {
    && m'.vertices == m.vertices && m'.primitives == m.primitives && m'.indices == m.indices
    && m'.next == 0
    && m'.offset == m.offset + (if m.next < top.Arity() then 0 else m.next)
    && m'.count == m.count + StripCount(top, m.next)
  }

  /** Moving the counters over the open strip turns its sketched primitives into drawn ones. */
  lemma CutTracks<V>(top: Topology, m: Mesh<V>, m': Mesh<V>, events: seq<Event<V>>)
    requires Tracks(top, m, events) && Cuts(top, m, m')
    ensures Tracks(top, m', events + [Cut])
  {
    EventAdded<V>(events, Cut);
    AddStrip(top, Closed(events), Open(events));
    BuffersClose(top, m, m', Closed(events), Open(events));
    var strips := Closed(events) + [Open(events)];
    forall p, c | 0 <= p < m'.count && 0 <= c < top.Arity()
      ensures Draws(top, m', Primitives(top, strips)[p], p, c)
    {
      CornerDrawn(top, m, m', Closed(events), Open(events), p, c);
    }
  }

  lemma BuffersClose<V>(top: Topology, m: Mesh<V>, m': Mesh<V>, strips: seq<seq<V>>, strip: seq<V>)
    requires Assembled(top, m, strips) && Growing(top, m, strip) && Cuts(top, m, m')
    ensures m'.offset == |Retained(top, strips + [strip])| <= |m.vertices|
    ensures m'.count == |Primitives(top, strips + [strip])| <= |m.primitives|
    ensures m'.vertices[..m'.offset] == Retained(top, strips + [strip])
    ensures m'.primitives[..m'.count] == Leaders(top, strips + [strip])
  {
    hide Draws, Sketched, StripPrimitives, Slot, Corner, Primitives, Leaders, Retained;
    AddStrip(top, strips, strip);
    var n, count := m.next, StripCount(top, m.next);
    assert m.vertices[..m.offset] + m.vertices[m.offset..m.offset + n] == m.vertices[..m.offset + n];
    assert m.primitives[..m'.count] == m.primitives[..m.count] + m.primitives[m.count..m.count + n][..count];
  }

  lemma CornerDrawn<V>(top: Topology, m: Mesh<V>, m': Mesh<V>, strips: seq<seq<V>>, strip: seq<V>, p: nat, c: nat)
    requires Assembled(top, m, strips) && Growing(top, m, strip) && Cuts(top, m, m') && p < m'.count && c < top.Arity()
    ensures p < |Primitives(top, strips + [strip])| && Draws(top, m', Primitives(top, strips + [strip])[p], p, c)
  {
    hide Primitives, Leaders, Retained, Slot, Corner;
    AddStrip(top, strips, strip);
    if p < m.count {
      assert Draws(top, m, Primitives(top, strips)[p], p, c);
    } else {
      StripDrawn(top, m, strip, p - m.count, c);
    }
  }

  /** The corner sketched for a primitive of the open strip is the one strip assembly wants. */
  lemma StripDrawn<V>(top: Topology, m: Mesh<V>, strip: seq<V>, j: nat, c: nat)
    requires Growing(top, m, strip) && j < StripCount(top, |strip|) && c < top.Arity()
    ensures Sketched(top, m, j, c) && Corner(top, j, c) < |strip|
    ensures m.vertices[m.offset + Corner(top, j, c)] == StripPrimitives(top, strip)[j][c]
  {
    assert Sketched(top, m, j, c);
    assert m.vertices[m.offset..m.offset + m.next][Corner(top, j, c)] == strip[Corner(top, j, c)];
  }

  /** Room for one more vertex and one more primitive, as long as fewer than `max` were emitted. */
  lemma Room<V>(top: Topology, m: Mesh<V>, events: seq<Event<V>>)
    requires Tracks(top, m, events)
    ensures m.offset + m.next <= Emits(events) && m.count + m.next <= Emits(events)
  {
    Sizes(top, events);
  }

  // ------------------------------------------------------------- the mesh writer

  class MeshWriter<V(0)> {
    const top: Topology
    const max: nat  // the declared maximum of output vertices
    const vertices: array<V>
    const primitives: array<V>
    const indices: array<nat>
    var nextWriteVertex: nat
    var vertexOffset: nat
    var primitiveCount: nat
    ghost var events: seq<Event<V>>

    ghost function View(): Mesh<V>
      reads this, vertices, primitives, indices
    {
      Mesh(nextWriteVertex, vertexOffset, primitiveCount, vertices[..], primitives[..], indices[..])
    }

    /** The mesh declares `max` vertices and as many primitives. */
    ghost predicate Valid()
      reads this, vertices, primitives, indices
    {
      && vertices.Length == max && primitives.Length == max && indices.Length == Slot(top, max, 0)
      && vertices != primitives
      && Emits(events) <= max && Tracks(top, View(), events)
    }

    /** No index computation wraps around 32 bits. */
    constructor (top: Topology, max: nat)
      requires Slot(top, max, 0) < 0x1_0000_0000
      ensures Valid() && this.top == top && this.max == max && events == []
      ensures fresh(vertices) && fresh(primitives) && fresh(indices)
    {
      this.top, this.max := top, max;
      vertices, primitives, indices := new V[max], new V[max], new nat[Slot(top, max, 0)];
      nextWriteVertex, vertexOffset, primitiveCount := 0, 0, 0;
      events := [];
    }

    /** Every write of an emit is below the declared maximum. */
    method EmitTriangle(v: V)
      requires Valid() && top.Triangles? && Emits(events) < max
      modifies this, vertices, primitives, indices
      ensures Valid() && events == old(events) + [Emit(v)]
    {
      hide Tracks, Extends, Emits, Open, Closed;
      ghost var m := View();
      Room(top, m, events);
      var current := nextWriteVertex;
      var at, primitive := vertexOffset + current, primitiveCount + current;
      var even := if current % 2 == 0 then 1 else 0;
      vertices[at] := v;
      primitives[primitive] := v;
      var triple := 3 * primitive;
      indices[triple] := at;
      indices[triple + 1] := at + 2 - even;
      indices[triple + 2] := at + 1 + even;
      nextWriteVertex := current + 1;
      EventAdded(events, Emit(v));
      events := events + [Emit(v)];
      TriangleSketched(m, View(), v);
      EmitTracks(top, m, View(), v, old(events));
    }

    method EmitLine(v: V)
      requires Valid() && top.Lines? && Emits(events) < max
      modifies this, vertices, primitives, indices
      ensures Valid() && events == old(events) + [Emit(v)]
    {
      hide Tracks, Extends, Emits, Open, Closed;
      ghost var m := View();
      Room(top, m, events);
      var current := nextWriteVertex;
      nextWriteVertex := current + 1;
      var at, primitive := vertexOffset + current, primitiveCount + current;
      vertices[at] := v;
      primitives[primitive] := v;
      indices[2 * primitive] := at;
      indices[2 * primitive + 1] := at + 1;
      EventAdded(events, Emit(v));
      events := events + [Emit(v)];
      LineSketched(m, View(), v);
      EmitTracks(top, m, View(), v, old(events));
    }

    /** What an emit does is chosen by the topology. */
    method CallEmit(v: V)
      requires Valid() && Emits(events) < max
      modifies this, vertices, primitives, indices
      ensures Valid() && events == old(events) + [Emit(v)]
    {
      if top.Triangles? { EmitTriangle(v); } else { EmitLine(v); }
    }

    /** So is what a cut does. */
    method CallCut()
      requires Valid()
      modifies this
      ensures Valid() && events == old(events) + [Cut]
    {
      if top.Triangles? { CutTriangle(); } else { CutLine(); }
    }

    method CutTriangle()
      requires Valid() && top.Triangles?
      modifies this
      ensures Valid() && events == old(events) + [Cut]
    {
      EventAdded(events, Cut);
      ghost var m := View();
      var current := nextWriteVertex;
      nextWriteVertex := 0;
      var complete := current > 2;
      vertexOffset := vertexOffset + if complete then current else 0;
      primitiveCount := primitiveCount + if complete then current - 2 else 0;
      CutTracks(top, m, View(), events);
      events := events + [Cut];
    }

    method CutLine()
      requires Valid() && top.Lines?
      modifies this
      ensures Valid() && events == old(events) + [Cut]
    {
      EventAdded(events, Cut);
      ghost var m := View();
      var current := nextWriteVertex;
      nextWriteVertex := 0;
      var complete := current > 1;
      vertexOffset := vertexOffset + if complete then current else 0;
      primitiveCount := primitiveCount + if complete then current - 1 else 0;
      CutTracks(top, m, View(), events);
      events := events + [Cut];
    }
  }

  lemma TriangleSketched<V>(m: Mesh<V>, m': Mesh<V>, v: V)
    requires m.offset + m.next < |m.vertices| && m.count + m.next < |m.primitives|
    requires 3 * (m.count + m.next) + 2 < |m.indices|
    requires var at, i := m.offset + m.next, 3 * (m.count + m.next);
             && m'.next == m.next + 1 && m'.offset == m.offset && m'.count == m.count
             && m'.vertices == m.vertices[at := v] && m'.primitives == m.primitives[m.count + m.next := v]
             && m'.indices == m.indices[i := at][i + 1 := at + 1 + m.next % 2][i + 2 := at + 2 - m.next % 2]
    ensures Extends(Triangles, m, m', v)
  {
    assert Sketched(Triangles, m', m.next, 0) && Sketched(Triangles, m', m.next, 1)
      && Sketched(Triangles, m', m.next, 2);
  }

  lemma LineSketched<V>(m: Mesh<V>, m': Mesh<V>, v: V)
    requires m.offset + m.next < |m.vertices| && m.count + m.next < |m.primitives|
    requires 2 * (m.count + m.next) + 1 < |m.indices|
    requires var at, i := m.offset + m.next, 2 * (m.count + m.next);
             && m'.next == m.next + 1 && m'.offset == m.offset && m'.count == m.count
             && m'.vertices == m.vertices[at := v] && m'.primitives == m.primitives[m.count + m.next := v]
             && m'.indices == m.indices[i := at][i + 1 := at + 1]
    ensures Extends(Lines, m, m', v)
  {
    assert Sketched(Lines, m', m.next, 0) && Sketched(Lines, m', m.next, 1);
  }

  // ------------------------------------------------------------- whole runs

  /** Every corner of every reported primitive is a retained vertex. */
  ghost predicate Indexed<V>(top: Topology, m: Mesh<V>) {
    && m.offset <= |m.vertices|
    && forall p, c :: 0 <= p < m.count && 0 <= c < top.Arity() ==>
         Slot(top, p, c) < |m.indices| && m.indices[Slot(top, p, c)] < m.offset
  }

  /** What the finished mesh draws: the vertices its first `count` primitives select. */
  ghost function Drawn<V>(top: Topology, m: Mesh<V>): seq<seq<V>>
    requires Indexed(top, m)
  {
    seq(m.count, p requires 0 <= p < m.count =>
      seq(top.Arity(), c requires 0 <= c < top.Arity() => m.vertices[m.indices[Slot(top, p, c)]]))
  }

  /** The strips of a whole run: the final cut closes the last one. */
  function Strips<V>(events: seq<Event<V>>): seq<seq<V>> {
    Closed(events) + [Open(events)]
  }

  lemma {:induction false} PrimitiveArity<V>(top: Topology, strips: seq<seq<V>>, p: nat)
    requires p < |Primitives(top, strips)|
    ensures |Primitives(top, strips)[p]| == top.Arity()
    decreases |strips|
  {
    var init := strips[..|strips| - 1];
    if p < |Primitives(top, init)| {
      PrimitiveArity(top, init, p);
    }
  }

  /** Whatever was emitted and cut, the mesh draws exactly the primitives of the closed strips. */
  lemma MeshDrawsStrips<V>(top: Topology, m: Mesh<V>, events: seq<Event<V>>)
    requires Tracks(top, m, events)
    ensures Indexed(top, m)
    ensures Drawn(top, m) == Primitives(top, Closed(events))
    ensures m.primitives[..m.count] == Leaders(top, Closed(events))
    ensures m.vertices[..m.offset] == Retained(top, Closed(events))
  {
    var goal := Primitives(top, Closed(events));
    forall p, c | 0 <= p < m.count && 0 <= c < top.Arity()
      ensures Slot(top, p, c) < |m.indices| && m.indices[Slot(top, p, c)] < m.offset
    {
      assert Draws(top, m, goal[p], p, c);
    }
    forall p | 0 <= p < m.count ensures Drawn(top, m)[p] == goal[p] {
      PrimitiveArity(top, Closed(events), p);
      forall c | 0 <= c < top.Arity() ensures Drawn(top, m)[p][c] == goal[p][c] {
        assert Draws(top, m, goal[p], p, c);
      }
      assert Drawn(top, m)[p] == goal[p];
    }
  }

  /** Where primitive `p` of a strip list comes from: strip `i` at leading vertex `j`, and every
      long enough strip contributes all of its primitives, in order. */
  lemma {:induction false} PrimitiveOrigin<V>(top: Topology, strips: seq<seq<V>>, p: nat) returns (i: nat, j: nat)
    requires p < |Primitives(top, strips)|
    ensures i < |strips| && j + top.Arity() <= |strips[i]|
    ensures p == |Primitives(top, strips[..i])| + j
    ensures Leaders(top, strips)[p] == strips[i][j]
    ensures Primitives(top, strips)[p] ==
      seq(top.Arity(), c requires 0 <= c < top.Arity() => strips[i][Corner(top, j, c)])
    decreases |strips|
  {
    var init := strips[..|strips| - 1];
    if p < |Primitives(top, init)| {
      i, j := PrimitiveOrigin(top, init, p);
      assert init[..i] == strips[..i];
    } else {
      i, j := |strips| - 1, p - |Primitives(top, init)|;
    }
  }

  /** A whole geometry shader thread: emits and cuts in order, one more cut, and the primitive
      count that is reported with the mesh. */
  method Assemble<V(0)>(top: Topology, max: nat, events: seq<Event<V>>) returns (writer: MeshWriter<V>, reported: nat)
    requires Slot(top, max, 0) < 0x1_0000_0000
    requires Emits(events) <= max
    ensures reported == |Primitives(top, Strips(events))| <= max
    ensures writer.View().count == reported && Indexed(top, writer.View())
    ensures Drawn(top, writer.View()) == Primitives(top, Strips(events))
    ensures reported <= |writer.View().primitives|
    ensures writer.View().primitives[..reported] == Leaders(top, Strips(events))
  {
    writer := new MeshWriter(top, max);
    var i := 0;
    while i < |events|
      invariant 0 <= i <= |events|
      invariant writer.Valid() && writer.top == top && writer.max == max && writer.events == events[..i]
      invariant fresh(writer) && fresh(writer.vertices) && fresh(writer.primitives) && fresh(writer.indices)
    {
      assert events[..i + 1] == events[..i] + [events[i]];
      EmitsGrow(events, i + 1);
      match events[i] {
        case Emit(v) =>
          writer.CallEmit(v);
        case Cut =>
          writer.CallCut();
      }
      i := i + 1;
    }
    assert events[..i] == events;
    EventAdded(events, Cut);
    writer.CallCut();
    reported := writer.primitiveCount;
    MeshDrawsStrips(top, writer.View(), writer.events);
    Room(top, writer.View(), writer.events);
  }

  lemma {:induction false} EmitsGrow<V>(events: seq<Event<V>>, i: nat)
    requires i <= |events|
    ensures Emits(events[..i]) <= Emits(events)
    decreases |events|
  {
    if i < |events| {
      EmitsGrow(events[..|events| - 1], i);
      assert events[..|events| - 1][..i] == events[..i];
    } else {
      assert events[..i] == events;
    }
  }
}
