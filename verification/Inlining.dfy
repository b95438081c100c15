/** Getting rid of calls in place: every block that ends in a call is redirected to a copy of
    the callee's blocks, made by a worklist walk; the calls in the copies are for the next of at
    most 32 rounds. */
module Inlining {
  import opened Shader
  import opened FlowGraph
  import opened InlineSpec
  import opened ControlFlow

  /** The `clone` lambda: the copy of `b`, made and queued when `b` is first met. */
  method Clone(flow: Builder, b: BlockId, visited: Clones, work: seq<BlockId>, ghost g0: Graph, ghost w: Walk)
    returns (copy: BlockId, visited': Clones, work': seq<BlockId>)
    requires w.Holds(g0, flow.blocks, visited, work) && b in w.body && VOID < b < |g0| && b != w.site
    requires b == w.cur ==> b in visited
    modifies flow`blocks
    ensures w.Holds(g0, flow.blocks, visited', work') && w.Grew(visited, work, visited', work')
    ensures b in visited' && copy == visited'[b]
    ensures old(flow.blocks) <= flow.blocks
  {
    visited', work' := visited, work;
    if b in visited {
      copy := visited[b];
    } else {
      copy := CopyBlock(flow, b);
      visited', work' := visited[b := copy], [b] + work;
      CloneFirst(g0, old(flow.blocks), w.site, visited, w.back, w.last, work, w.cur, w.body, b, flow.blocks, visited');
      SitesFirst(g0, visited, w.last, work, w.cur, w.added, b, copy);
    }
  }

  /** A new block with the instructions of `b` and no terminator yet. */
  method CopyBlock(flow: Builder, b: BlockId) returns (copy: BlockId)
    requires b < |flow.blocks|
    modifies flow`blocks
    ensures copy == |old(flow.blocks)| && flow.blocks == old(flow.blocks) + [Block(old(flow.blocks[b].code), Undefined)]
  {
    copy := flow.FreshBlock();
    flow.Emit(copy, flow.blocks[b].code);
    assert [] + flow.blocks[b].code == flow.blocks[b].code;
  }

  method CloneTwo(flow: Builder, a: BlockId, b: BlockId, visited: Clones, work: seq<BlockId>, ghost g0: Graph,
                  ghost w: Walk)
    returns (copyA: BlockId, copyB: BlockId, visited': Clones, work': seq<BlockId>)
    requires w.Holds(g0, flow.blocks, visited, work) && a in w.body && b in w.body && w.cur in visited
    requires forall b <- w.body :: VOID < b < |g0| && b != w.site
    modifies flow`blocks
    ensures w.Holds(g0, flow.blocks, visited', work') && w.Grew(visited, work, visited', work')
    ensures a in visited' && b in visited' && copyA == visited'[a] && copyB == visited'[b]
    ensures old(flow.blocks) <= flow.blocks
  {
    hide Cloning, SitesSoFar;
    copyA, visited', work' := Clone(flow, a, visited, work, g0, w);
    ghost var before, queued := visited', work';
    copyB, visited', work' := Clone(flow, b, visited', work', g0, w);
    w.GrewTrans(visited, work, before, queued, visited', work');
  }

  /** The terminator of a clone, with everything it leads to cloned as well. */
  method CloneTarget(flow: Builder, t: Target, back: BlockId, last: bool, visited: Clones, work: seq<BlockId>,
                     ghost g0: Graph, ghost w: Walk)
    returns (t': Target, visited': Clones, work': seq<BlockId>)
    requires w.Holds(g0, flow.blocks, visited, work) && Inside(t, w.body) && w.cur in visited
    requires w.back == back && w.last == last
    requires forall b <- w.body :: VOID < b < |g0| && b != w.site
    modifies flow`blocks
    ensures w.Holds(g0, flow.blocks, visited', work') && w.Grew(visited, work, visited', work')
    ensures Inside(t, visited'.Keys) && t' == Redirect(t, visited', back, last)
    ensures old(flow.blocks) <= flow.blocks
  {
    hide Cloning, SitesSoFar;
    visited', work' := visited, work;
    match t
    case Undefined => t' := Undefined;
    case Exit => t' := Goto(back);
    case Goto(b) =>
      var copy;
      copy, visited', work' := Clone(flow, b, visited', work', g0, w);
      t' := Goto(copy);
    case Branch(c, y, n) =>
      var yes, no;
      yes, no, visited', work' := CloneTwo(flow, y, n, visited', work', g0, w);
      t' := Branch(c, yes, no);
    case Dispatch(v, cs, d) =>
      t', visited', work' := CloneDispatch(flow, v, cs, d, visited', work', g0, w);
    case InstanceBarrier(n, a, s) =>
      var active, sync;
      active, sync, visited', work' := CloneTwo(flow, a, s, visited', work', g0, w);
      t' := InstanceBarrier(n, active, sync);
    case WriteOutput(n, e) =>
      var copy;
      copy, visited', work' := Clone(flow, e, visited', work', g0, w);
      t' := WriteOutput(n, copy);
    case Invoke(f, r) =>
      var copy;
      copy, visited', work' := Clone(flow, r, visited', work', g0, w);
      t' := if last then Goto(copy) else Invoke(f, copy);
  }

  lemma DispatchRedirected(v: Operand, cs: map<int, BlockId>, d: BlockId, m: Clones, back: BlockId, last: bool,
                           cases: map<int, BlockId>)
    requires d in m && cases.Keys == cs.Keys && forall k <- cases :: k in cs && cs[k] in m && cases[k] == m[cs[k]]
    ensures Inside(Dispatch(v, cs, d), m.Keys)
    ensures Dispatch(v, cases, m[d]) == Redirect(Dispatch(v, cs, d), m, back, last)
  {
    var clones := Redirect(Dispatch(v, cs, d), m, back, last).cases;
    forall k ensures k in clones <==> k in cases {
      assert k in cases.Keys <==> k in cs.Keys;
    }
    assert forall k <- cases :: cases[k] == clones[k];
    assert cases == clones;
    forall k | k in cs ensures cs[k] in m.Keys {
      assert k in clones;
    }
  }

  /** The default, then every case of a switch. */
  method CloneDispatch(flow: Builder, v: Operand, cs: map<int, BlockId>, d: BlockId, visited: Clones,
                       work: seq<BlockId>, ghost g0: Graph, ghost w: Walk)
    returns (t': Target, visited': Clones, work': seq<BlockId>)
    requires w.Holds(g0, flow.blocks, visited, work) && Inside(Dispatch(v, cs, d), w.body) && w.cur in visited
    requires forall b <- w.body :: VOID < b < |g0| && b != w.site
    modifies flow`blocks
    ensures w.Holds(g0, flow.blocks, visited', work') && w.Grew(visited, work, visited', work')
    ensures Inside(Dispatch(v, cs, d), visited'.Keys) && t' == Redirect(Dispatch(v, cs, d), visited', w.back, w.last)
    ensures old(flow.blocks) <= flow.blocks
  {
    hide Cloning, SitesSoFar;
    var default, copy;
    default, visited', work' := Clone(flow, d, visited, work, g0, w);
    var cases: map<int, BlockId>, keys := map[], cs.Keys;
    while keys != {}
      invariant w.Holds(g0, flow.blocks, visited', work') && w.Grew(visited, work, visited', work')
      invariant old(flow.blocks) <= flow.blocks
      invariant w.cur in visited' && d in visited' && default == visited'[d]
      invariant keys <= cs.Keys && cases.Keys == cs.Keys - keys
      invariant forall k <- cases :: cs[k] in visited' && cases[k] == visited'[cs[k]]
      decreases keys
    {
      NonEmpty(keys);
      var k :| k in keys;
      ghost var before, queued := visited', work';
      copy, visited', work' := Clone(flow, cs[k], visited', work', g0, w);
      w.GrewTrans(visited, work, before, queued, visited', work');
      cases, keys := cases[k := copy], keys - {k};
    }
    t' := Dispatch(v, cases, default);
    DispatchRedirected(v, cs, d, visited', w.back, w.last, cases);
  }

  /** One turn of the cloning walk: the next copy gets its terminator. */
  method WalkOn(flow: Builder, back: BlockId, last: bool, visited: Clones, work: seq<BlockId>, ghost g0: Graph,
                ghost w: Walk)
    returns (added: seq<BlockId>, visited': Clones, work': seq<BlockId>)
    requires w.Holds(g0, flow.blocks, visited, work) && work != [] && w.cur == VOID && w.back == back && w.last == last
    requires forall b <- w.body :: VOID < b < |g0| && b != w.site && Inside(g0[b].target, w.body)
    modifies flow`blocks
    ensures w.(added := w.added + added).Holds(g0, flow.blocks, visited', work')
    ensures (forall b <- visited :: b in visited' && visited'[b] == visited[b])
    ensures visited'.Keys == visited.Keys ==> |work'| < |work|
    ensures |g0| <= |flow.blocks|
    ensures forall b: BlockId :: b < |g0| ==> flow.blocks[b] == old(flow.blocks)[b]
  {
    hide Cloning, SitesSoFar, Redirect;
    var cur := work[0];
    WalkRange(g0, flow.blocks, w, visited, work);
    WalkStarts(g0, flow.blocks, w, visited, work);
    ghost var w1 := w.(cur := cur);
    assert cur in w.body by { WalkInBody(g0, flow.blocks, w, visited, work); }
    var t;
    t, visited', work' := CloneTarget(flow, flow.blocks[cur].target, back, last, visited, work[1..], g0, w1);
    ghost var g2 := flow.blocks;
    WalkRange(g0, g2, w1, visited', work');
    flow.Terminate(visited'[cur], t);
    WalkFinishes(g0, g2, w1, visited', work', t, flow.blocks);
    added := if t.Invoke? then [visited'[cur]] else [];
    assert w.added + [] == w.added;
  }

  /** The cloning walk, until no copy lacks its terminator. */
  method WalkAll(flow: Builder, back: BlockId, last: bool, queued: Clones, waiting: seq<BlockId>, ghost g0: Graph,
                 ghost w0: Walk)
    returns (added: seq<BlockId>, visited: Clones)
    requires w0.Holds(g0, flow.blocks, queued, waiting) && w0.cur == VOID && w0.back == back && w0.last == last
    requires w0.added == []
    requires forall b <- w0.body :: VOID < b < |g0| && b != w0.site && Inside(g0[b].target, w0.body)
    requires |g0| <= |flow.blocks|
    modifies flow`blocks
    ensures w0.(added := added).Holds(g0, flow.blocks, visited, [])
    ensures forall b <- queued :: b in visited && visited[b] == queued[b]
    ensures |g0| <= |flow.blocks|
    ensures forall b: BlockId :: b < |g0| ==> flow.blocks[b] == old(flow.blocks)[b]
  {
    hide Walk.Holds, Inside;
    ghost var w := w0;
    var work;
    added, visited, work := [], queued, waiting;
    while work != []
      invariant |g0| <= |flow.blocks|
      invariant w == w0.(added := added) && w.Holds(g0, flow.blocks, visited, work)
      invariant forall b <- queued :: b in visited && visited[b] == queued[b]
      invariant forall b: BlockId :: b < |g0| ==> flow.blocks[b] == old(flow.blocks)[b]
      decreases w0.body - visited.Keys, |work|
    {
      ghost var seen := visited;
      var more;
      more, visited, work := WalkOn(flow, back, last, visited, work, g0, w);
      added := added + more;
      w := w.(added := added);
      WalkShrinks(g0, flow.blocks, w, seen, visited, work);
    }
  }

  /** Copies the callee's entry block and redirects the call to the copy. */
  method Redirected(flow: Builder, site: BlockId, entry: BlockId, ghost g0: Graph, ghost w: Walk)
    returns (first: BlockId, queued: Clones, waiting: seq<BlockId>)
    requires w.Holds(g0, flow.blocks, map[], []) && g0 == flow.blocks && w.cur == VOID
    requires entry in w.body && VOID < entry < |g0| && entry != site && w.site == site < |g0|
    modifies flow`blocks
    ensures w.Holds(g0, flow.blocks, queued, waiting) && |g0| <= |flow.blocks|
    ensures entry in queued && queued[entry] == first && flow.blocks[site] == Block(g0[site].code, Goto(first))
  {
    hide Walk.Holds;
    first, queued, waiting := Clone(flow, entry, map[], [], g0, w);
    ghost var g1 := flow.blocks;
    flow.Terminate(site, Goto(first));
    CallReplaced(g0, g1, w, queued, waiting, flow.blocks);
  }

  /** Replaces the call at `site` by a copy of the callee; `added` are the calls in the copy.
      The call's function and return point are read before its terminator is overwritten. */
  method InlineCall(flow: Builder, site: BlockId, last: bool, ghost body: set<BlockId>)
    returns (added: seq<BlockId>, ghost m: Clones)
    requires SelfContained(flow.blocks, flow.entries) && VOID < site < |flow.blocks|
    requires flow.blocks[site].target.Invoke? && flow.blocks[site].target.func in flow.entries
    requires flow.entries[flow.blocks[site].target.func] in body && site !in body
    requires forall b <- body :: VOID < b < |flow.blocks| && Inside(flow.blocks[b].target, body)
    requires last ==> forall b <- body :: !flow.blocks[b].target.Invoke?
    modifies flow`blocks
    ensures Expands(old(flow.blocks), flow.blocks, flow.entries, site, m, last) && m.Keys <= body
    ensures NewSites(old(flow.blocks), m, last, added)
  {
    hide Walk.Holds, Inside, SelfContained, Expands, NewSites;
    ghost var g0 := flow.blocks;
    var call := flow.blocks[site].target;
    ghost var w := Walk(site, call.returnPoint, last, VOID, body, []);
    WalkEmpty(g0, w);
    var first, queued, waiting := Redirected(flow, site, flow.entries[call.func], g0, w);
    var visited;
    added, visited := WalkAll(flow, call.returnPoint, last, queued, waiting, g0, w);
    m := visited;
    WalkInBody(g0, flow.blocks, w.(added := added), m, []);
    WalkComplete(g0, flow.blocks, flow.entries, w.(added := added), m);
  }

  /** All rounds of the inliner.  If the calls nest at most 32 deep (ranks below 32), every
      walk ends, no call is left, and every thread still runs as before. */
  method InlineCalls(flow: Builder, ghost rank: map<FuncId, nat>, ghost layers: map<FuncId, set<BlockId>>)
    requires Round(flow.blocks, flow.blocks, flow.entries, rank, layers, flow.callSites, [], 32)
    modifies flow`blocks
    ensures flow.entries == old(flow.entries)
    ensures SameBehaviour(old(flow.blocks), flow.blocks, flow.entries)
    ensures SelfContained(flow.blocks, flow.entries) && OnlyCallsChange(old(flow.blocks), flow.blocks)
    ensures forall b: BlockId :: VOID < b < |flow.blocks| ==> !flow.blocks[b].target.Invoke?
  {
    hide Round;
    ghost var g0, bodies := flow.blocks, layers;
    var depth, calls := 32, flow.callSites;
    while depth > 0 && calls != []
      invariant 0 <= depth <= 32 && flow.entries == old(flow.entries)
      invariant Round(g0, flow.blocks, flow.entries, rank, bodies, calls, [], depth)
    {
      var next;
      next, bodies := InlineRound(flow, calls, depth, g0, rank, bodies);
      RoundOver(g0, flow.blocks, flow.entries, rank, bodies, next, depth);
      calls, depth := next, depth - 1;
    }
    RoundsDone(g0, flow.blocks, flow.entries, rank, bodies, calls, depth);
    RoundMeans(g0, flow.blocks, flow.entries, rank, bodies, calls, depth);
  }

  /** One round: every listed call, in order; the calls in the copies are for the next round. */
  method InlineRound(flow: Builder, calls: seq<BlockId>, depth: nat, ghost g0: Graph, ghost rank: map<FuncId, nat>,
                     ghost layers: map<FuncId, set<BlockId>>)
    returns (next: seq<BlockId>, ghost bodies: map<FuncId, set<BlockId>>)
    requires depth > 0 && Round(g0, flow.blocks, flow.entries, rank, layers, calls, [], depth)
    modifies flow`blocks
    ensures Round(g0, flow.blocks, flow.entries, rank, bodies, [], next, depth)
  {
    hide Round, Expands, NewSites, Inside;
    next, bodies := [], layers;
    var i := 0;
    assert calls[0..] == calls;
    while i < |calls|
      invariant 0 <= i <= |calls|
      invariant Round(g0, flow.blocks, flow.entries, rank, bodies, calls[i..], next, depth)
    {
      var site := calls[i];
      assert calls[i..] == [site] + calls[i + 1..];
      ghost var g := flow.blocks;
      CallIsInlinable(g0, g, flow.entries, rank, bodies, site, calls[i + 1..], next, depth);
      RoundShape(g0, g, flow.entries, rank, bodies, calls[i..], next, depth);
      var added;
      ghost var m;
      added, m := InlineCall(flow, site, depth == 1, bodies[g[site].target.func]);
      RoundStep(g0, g, flow.blocks, flow.entries, rank, bodies, site, calls[i + 1..], next, depth, m, added);
      bodies := Grown(bodies, site, m.Values);
      next, i := next + added, i + 1;
    }
    assert calls[i..] == [];
  }
}
