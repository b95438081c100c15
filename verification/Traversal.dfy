/** Walking the finished graph from its entry and emitting every block it reaches. */
module Traversal {
  import opened Shader
  import opened FlowGraph
  import opened Sealing
  import opened InlineSpec

  // --------------------------------------------------------------- reachability

  ghost predicate IsPath(g: Graph, path: seq<BlockId>) {
    && path != [] && (forall i :: 0 <= i < |path| ==> path[i] < |g|)
    && (forall i :: 0 < i < |path| ==> path[i] in g[path[i - 1]].target.Successors())
  }

  ghost predicate Reachable(g: Graph, entry: BlockId, b: BlockId) {
    exists path :: IsPath(g, path) && path[0] == entry && path[|path| - 1] == b
  }

  lemma ReachableEntry(g: Graph, entry: BlockId)
    requires entry < |g|
    ensures Reachable(g, entry, entry)
  {
    assert IsPath(g, [entry]);
  }

  lemma ReachableStep(g: Graph, entry: BlockId, b: BlockId, c: BlockId)
    requires Reachable(g, entry, b) && b < |g| && c < |g| && c in g[b].target.Successors()
    ensures Reachable(g, entry, c)
  {
    var path :| IsPath(g, path) && path[0] == entry && path[|path| - 1] == b;
    assert IsPath(g, path + [c]) && (path + [c])[|path + [c]| - 1] == c;
  }

  /** A set that holds the entry and all successors of its members holds all reachable blocks. */
  lemma {:induction false} ClosedHoldsPath(g: Graph, s: set<BlockId>, path: seq<BlockId>)
    requires IsPath(g, path) && path[0] in s && forall b <- s :: b < |g| ==> g[b].target.Successors() <= s
    ensures path[|path| - 1] in s
    decreases |path|
  {
    if |path| > 1 {
      assert path[1] in g[path[0]].target.Successors();
      assert IsPath(g, path[1..]) by {
        forall i | 0 < i < |path[1..]| ensures path[1..][i] in g[path[1..][i - 1]].target.Successors() {
          assert path[i + 1] in g[path[i]].target.Successors();
        }
      }
      ClosedHoldsPath(g, s, path[1..]);
    }
  }

  // ------------------------------------------------------------------- the walk

  /** The successors of a block, as the walk pushes them. */
  method Push(t: Target, stack: seq<BlockId>) returns (pushed: seq<BlockId>)
    ensures forall b :: b in pushed <==> b in stack || b in t.Successors()
  {
    match t
    case Undefined => pushed := stack;
    case Exit => pushed := stack;
    case Goto(b) => pushed := [b] + stack;
    case Branch(_, y, n) => pushed := [n, y] + stack;
    case Dispatch(_, cs, d) =>
      pushed := [d] + stack;
      var rest := cs.Keys;
      while rest != {}
        invariant rest <= cs.Keys
        invariant forall b :: b in pushed <==> b in stack || b == d || exists k :: k in cs.Keys - rest && cs[k] == b
        decreases rest
      {
        NonEmpty(rest);
        var k :| k in rest;
        pushed, rest := [cs[k]] + pushed, rest - {k};
      }
    case InstanceBarrier(_, a, s) => pushed := [s, a] + stack;
    case WriteOutput(_, e) => pushed := [e] + stack;
    case Invoke(_, r) => pushed := [r] + stack;
  }

  /** Every successor of a block of the graph is a block of the graph. */
  ghost predicate Complete(g: Graph) {
    forall b: BlockId, c: BlockId :: b < |g| && b != VOID && c in g[b].target.Successors() ==> VOID < c < |g|
  }

  /** The depth-first worklist: each reachable block exactly once, and nothing else. */
  method Visit(g: Graph, entry: BlockId) returns (order: seq<BlockId>)
    requires Complete(g) && VOID < entry < |g|
    ensures order != [] && order[0] == entry && Distinct(order)
    ensures forall b: BlockId :: b in order <==> Reachable(g, entry, b)
    ensures forall b <- order :: VOID < b < |g| && forall c <- g[b].target.Successors() :: c in order
  {
    var visited: set<BlockId>, stack := {}, [entry];
    order := [];
    ReachableEntry(g, entry);
    while stack != []
      invariant Distinct(order) && (forall b :: b in visited <==> b in order)
      invariant if order == [] then stack == [entry] else order[0] == entry
      invariant forall b :: b in visited || b in stack ==> VOID < b < |g| && Reachable(g, entry, b)
      invariant forall b <- visited :: forall c <- g[b].target.Successors() :: c in visited || c in stack
      decreases Numbers(|g|) - visited, |stack|
    {
      var b := stack[0];
      ghost var before := stack;
      assert forall c :: c in before <==> c == b || c in before[1..];
      stack := stack[1..];
      if b !in visited {
        assert b in Numbers(|g|) - visited;
        visited, order := visited + {b}, order + [b];
        stack := Push(g[b].target, stack);
        forall c | c in g[b].target.Successors() ensures VOID < c < |g| && Reachable(g, entry, c) {
          ReachableStep(g, entry, b, c);
        }
      }
    }
    forall b: BlockId | Reachable(g, entry, b) ensures b in visited {
      var path :| IsPath(g, path) && path[0] == entry && path[|path| - 1] == b;
      ClosedHoldsPath(g, visited, path);
    }
  }

  ghost function Numbers(n: nat): (s: set<BlockId>)
    ensures forall b: BlockId :: b in s <==> b < n
  {
    if n == 0 then {} else Numbers(n - 1) + {n - 1}
  }

  // ------------------------------------------------------------------- emission

  datatype Emission = Emitted(code: Graph) | UnexpectedUndefined | CallNotLowered

  /** The place of a block in the visit order. */
  function PlaceOf(pos: map<BlockId, nat>, b: BlockId): nat { if b in pos then pos[b] else 0 }

  /** A terminator over the emitted blocks. */
  function Renumber(t: Target, pos: map<BlockId, nat>): Target {
    match t
    case Undefined => Undefined
    case Exit => Exit
    case Goto(b) => Goto(PlaceOf(pos, b))
    case Branch(c, y, n) => Branch(c, PlaceOf(pos, y), PlaceOf(pos, n))
    case Dispatch(v, cs, d) => Dispatch(v, map k | k in cs :: PlaceOf(pos, cs[k]), PlaceOf(pos, d))
    case InstanceBarrier(n, a, s) => InstanceBarrier(n, PlaceOf(pos, a), PlaceOf(pos, s))
    case WriteOutput(n, e) => WriteOutput(n, PlaceOf(pos, e))
    case Invoke(f, r) => Invoke(f, PlaceOf(pos, r))
  }

  ghost predicate Lowered(g: Graph, order: seq<BlockId>, pos: map<BlockId, nat>, code: Graph) {
    && |code| <= |order|
    && forall i :: 0 <= i < |code| ==>
         order[i] < |g| && code[i] == Block(g[order[i]].code, Renumber(g[order[i]].target, pos))
  }

  /** `pos` sends every visited block to its place. */
  ghost predicate Places(order: seq<BlockId>, pos: map<BlockId, nat>) {
    && (forall i :: 0 <= i < |order| ==> order[i] in pos && pos[order[i]] == i)
    && (forall b <- pos :: b in order)
  }

  method PlaceAll(order: seq<BlockId>) returns (pos: map<BlockId, nat>)
    requires Distinct(order)
    ensures Places(order, pos)
  {
    pos := map[];
    var i := 0;
    while i < |order|
      invariant 0 <= i <= |order|
      invariant forall j :: 0 <= j < i ==> order[j] in pos && pos[order[j]] == j
      invariant forall b <- pos :: b in order[..i]
    {
      assert order[..i + 1] == order[..i] + [order[i]];
      pos, i := pos[order[i] := i], i + 1;
    }
    assert order[..i] == order;
  }

  ghost predicate Emittable(t: Target) { !t.Undefined? && !t.Invoke? }

  /** The first block of the visit order that cannot be lowered, if there is one, is that at `i`. */
  ghost predicate FirstRefused(g: Graph, order: seq<BlockId>, i: nat)
    requires forall j :: 0 <= j < |order| ==> order[j] < |g|
  {
    i < |order| && !Emittable(g[order[i]].target) && forall j :: 0 <= j < i ==> Emittable(g[order[j]].target)
  }

  /** The emission loop; the first block that cannot be lowered ends it with an error. */
  method EmitAll(g: Graph, order: seq<BlockId>, pos: map<BlockId, nat>) returns (r: Emission)
    requires forall i :: 0 <= i < |order| ==> order[i] < |g|
    ensures r.Emitted? <==> forall i :: 0 <= i < |order| ==> Emittable(g[order[i]].target)
    ensures r.CallNotLowered? ==> exists i: nat :: FirstRefused(g, order, i) && g[order[i]].target.Invoke?
    ensures r.UnexpectedUndefined? ==> exists i: nat :: FirstRefused(g, order, i) && g[order[i]].target.Undefined?
    ensures r.Emitted? ==> |r.code| == |order| && Lowered(g, order, pos, r.code)
  {
    var code: Graph, i := [], 0;
    while i < |order|
      invariant 0 <= i <= |order| && |code| == i && Lowered(g, order, pos, code)
      invariant forall j :: 0 <= j < i ==> Emittable(g[order[j]].target)
    {
      var b := g[order[i]];
      assert !Emittable(b.target) ==> FirstRefused(g, order, i);
      if b.target.Undefined? {
        return UnexpectedUndefined;
      }
      if b.target.Invoke? {
        return CallNotLowered;
      }
      code, i := code + [Block(b.code, Renumber(b.target, pos))], i + 1;
    }
    r := Emitted(code);
  }

  /** Emits the reachable blocks.  It fails exactly if one of them has no terminator or ends in a
      call; otherwise every successor was found, and the emitted code runs as the graph does. */
  method ConvertBlocks(g: Graph, entry: BlockId) returns (r: Emission)
    requires Complete(g) && VOID < entry < |g|
    ensures r.Emitted? <==> forall b: BlockId :: b < |g| && Reachable(g, entry, b) ==> Emittable(g[b].target)
    ensures r.CallNotLowered? ==> exists b: BlockId :: b < |g| && Reachable(g, entry, b) && g[b].target.Invoke?
    ensures r.UnexpectedUndefined? ==> exists b: BlockId :: b < |g| && Reachable(g, entry, b) && g[b].target.Undefined?
    ensures r.Emitted? ==> forall th: Thread, k: nat :: SameRun(g, entry, r.code, th, k)
  {
    hide Reachable, Lowered, Places, Complete, Emittable, SameRun, IsPath;
    var order := Visit(g, entry);
    var pos := PlaceAll(order);
    assert forall i :: 0 <= i < |order| ==> order[i] in order;
    r := EmitAll(g, order, pos);
    if r.Emitted? {
      forall b: BlockId | b < |g| && Reachable(g, entry, b) ensures Emittable(g[b].target) {
        var i :| 0 <= i < |order| && order[i] == b;
      }
      RunsAsGraph(g, entry, order, pos, r.code);
    }
  }

  lemma RunsAsGraph(g: Graph, entry: BlockId, order: seq<BlockId>, pos: map<BlockId, nat>, code: Graph)
    requires Lowered(g, order, pos, code) && |code| == |order| && Places(order, pos)
    requires forall b <- order ::
               b < |g| && Emittable(g[b].target) && forall c <- g[b].target.Successors() :: c in order
    requires order != [] && order[0] == entry
    ensures forall th: Thread, k: nat :: SameRun(g, entry, code, th, k)
  {
    assert Faithful(g, order, pos, code);
    hide Faithful, Lowered;
    forall th: Thread, k: nat ensures SameRun(g, entry, code, th, k) {
      RunLowered(g, order, pos, code, th, k, Running(entry, 0, [], []), Running(0, 0, [], []));
    }
  }

  /** After `k` steps the thread has the same trace in the graph, from `entry`, as in the emitted
      code from its first block, and has halted in both or in neither. */
  ghost predicate SameRun(g: Graph, entry: BlockId, code: Graph, th: Thread, k: nat) {
    var c := Run(Machine(g, map[], th), k, Running(entry, 0, [], []));
    var d := Run(Machine(code, map[], th), k, Running(0, 0, [], []));
    c.trace == d.trace && (c.Halted? <==> d.Halted?)
  }

  /** Corresponding places in graph and emitted code. */
  ghost predicate Abreast(order: seq<BlockId>, c: Config, d: Config) {
    && c.trace == d.trace && (c.Halted? <==> d.Halted?)
    && (c.Running? ==> c.stack == [] == d.stack && c.pc == d.pc && d.block < |order| && c.block == order[d.block])
  }

  ghost predicate Faithful(g: Graph, order: seq<BlockId>, pos: map<BlockId, nat>, code: Graph) {
    && Lowered(g, order, pos, code) && |code| == |order| && Places(order, pos)
    && forall b <- order :: b < |g| && !g[b].target.Invoke? && forall c <- g[b].target.Successors() :: c in order
  }

  lemma StepLowered(g: Graph, order: seq<BlockId>, pos: map<BlockId, nat>, code: Graph, th: Thread, c: Config,
                    d: Config)
    requires Faithful(g, order, pos, code) && Abreast(order, c, d)
    ensures Abreast(order, Step(Machine(g, map[], th), c), Step(Machine(code, map[], th), d))
  {
    if c.Running? {
      var b := c.block;
      assert b in order;
      var t := g[b].target;
      forall s | s in t.Successors() ensures s in pos && pos[s] < |order| && order[pos[s]] == s {
        assert s in order;
      }
      if t.Dispatch? {
        assert t.fallback in t.Successors();
        assert forall k <- t.cases :: t.cases[k] in t.Successors();
      }
    }
  }

  lemma {:induction false} RunLowered(g: Graph, order: seq<BlockId>, pos: map<BlockId, nat>, code: Graph, th: Thread,
                                      k: nat, c: Config, d: Config)
    requires Faithful(g, order, pos, code) && Abreast(order, c, d)
    ensures Abreast(order, Run(Machine(g, map[], th), k, c), Run(Machine(code, map[], th), k, d))
    decreases k
  {
    hide Step, Faithful, Abreast;
    if k > 0 {
      StepLowered(g, order, pos, code, th, c, d);
      RunLowered(g, order, pos, code, th, k - 1, Step(Machine(g, map[], th), c), Step(Machine(code, map[], th), d));
    }
  }
}
