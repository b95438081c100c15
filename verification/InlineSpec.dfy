/** Replacing a call by a private copy of the callee's blocks: what the copy is, why it
    changes no run, and why repeating it gets rid of all calls. */
module InlineSpec {
  import opened Shader
  import opened FlowGraph
  import opened Sealing

  type Clones = map<BlockId, BlockId>

  function CloneOf(m: Clones, b: BlockId): BlockId { if b in m then m[b] else VOID }

  /** The terminator of a clone: returns go to the call's return point, everything else to the
      clones.  In the last round (`last`) a nested call is skipped. */
  function Redirect(t: Target, m: Clones, back: BlockId, last: bool): Target {
    match t
    case Undefined => Undefined
    case Exit => Goto(back)
    case Goto(b) => Goto(CloneOf(m, b))
    case Branch(c, y, n) => Branch(c, CloneOf(m, y), CloneOf(m, n))
    case Dispatch(v, cs, d) => Dispatch(v, map k | k in cs :: CloneOf(m, cs[k]), CloneOf(m, d))
    case InstanceBarrier(n, a, s) => InstanceBarrier(n, CloneOf(m, a), CloneOf(m, s))
    case WriteOutput(n, e) => WriteOutput(n, CloneOf(m, e))
    case Invoke(f, r) => if last then Goto(CloneOf(m, r)) else Invoke(f, CloneOf(m, r))
  }

  /** All blocks `t` leads to are in `s`. */
  ghost predicate Inside(t: Target, s: set<BlockId>) {
    match t
    case Undefined => true
    case Exit => true
    case Goto(b) => b in s
    case Branch(_, y, n) => y in s && n in s
    case Dispatch(_, cs, d) => d in s && forall k <- cs :: cs[k] in s
    case InstanceBarrier(_, a, b) => a in s && b in s
    case WriteOutput(_, e) => e in s
    case Invoke(_, r) => r in s
  }

  /** `h` is `g` with the call at block `site`, which returns to `back`, replaced by a jump to a
      copy of all that is reachable from `entry`; `m` sends each copied block to its copy. */
  ghost predicate Inlined(g: Graph, h: Graph, site: BlockId, entry: BlockId, back: BlockId, m: Clones, last: bool) {
    && |g| <= |h| && VOID < site < |g| && entry in m
    && (forall b: BlockId :: b < |g| && b != site ==> h[b] == g[b])
    && h[site] == Block(g[site].code, Goto(m[entry]))
    && (forall b <- m :: VOID < b < |g| && b != site && |g| <= m[b] < |h| && Inside(g[b].target, m.Keys)
                         && h[m[b]] == Block(g[b].code, Redirect(g[b].target, m, back, last)))
    && (forall x: BlockId :: |g| <= x < |h| ==> x in m.Values)
  }

  // -------------------------------------------------------------- same behaviour

  /** The return stacks correspond: equal frames, except that where the original is inside the
      inlined call, with `back` as its frame, the copy has no frame at all. */
  ghost predicate Match(n: nat, m: Clones, back: BlockId, xs: seq<BlockId>, ys: seq<BlockId>)
    decreases |xs|
  {
    if xs == [] then ys == []
    else
      && ys != []
      && ((VOID < xs[0] < n && xs[0] == ys[0] && Match(n, m, back, xs[1..], ys[1..]))
          || (xs[0] in m && ys[0] == m[xs[0]] && |xs| > 1 && xs[1] == back && Match(n, m, back, xs[2..], ys[1..])))
  }

  ghost predicate Related(n: nat, m: Clones, back: BlockId, c: Config, d: Config) {
    && c.trace == d.trace && (c.Halted? <==> d.Halted?)
    && (c.Running? ==> c.pc == d.pc && Match(n, m, back, [c.block] + c.stack, [d.block] + d.stack))
  }

  /** The graph is self-contained: every terminator and function entry is one of its blocks. */
  ghost predicate SelfContained(g: Graph, entries: map<FuncId, BlockId>) {
    && ENTRY < |g|
    && (forall b: BlockId :: b < |g| && b != VOID ==> Within(g[b].target, ENTRY, |g|))
    && (forall f <- entries :: VOID < entries[f] < |g|)
  }

  lemma MatchSame(n: nat, m: Clones, back: BlockId, x: BlockId, xs: seq<BlockId>, ys: seq<BlockId>)
    requires VOID < x < n && Match(n, m, back, xs, ys)
    ensures Match(n, m, back, [x] + xs, [x] + ys)
  {
    assert ([x] + xs)[1..] == xs && ([x] + ys)[1..] == ys;
  }

  lemma MatchClone(n: nat, m: Clones, back: BlockId, x: BlockId, xs: seq<BlockId>, ys: seq<BlockId>)
    requires x in m && Match(n, m, back, xs, ys)
    ensures Match(n, m, back, [x, back] + xs, [m[x]] + ys)
  {
    assert ([x, back] + xs)[2..] == xs && ([m[x]] + ys)[1..] == ys;
  }

  /** A call has been inlined into `h`; in the last round the copied body must hold no call. */
  ghost predicate Expands(g: Graph, h: Graph, entries: map<FuncId, BlockId>, site: BlockId, m: Clones, last: bool) {
    && SelfContained(g, entries) && VOID < site < |g| && g[site].target.Invoke? && g[site].target.func in entries
    && Inlined(g, h, site, entries[g[site].target.func], g[site].target.returnPoint, m, last)
    && (last ==> forall b <- m :: b < |g| ==> !g[b].target.Invoke?)
  }

  /** A call at `site` enters the copy, without a frame of its own. */
  lemma CallEnters(g: Graph, h: Graph, entries: map<FuncId, BlockId>, th: Thread, site: BlockId, m: Clones,
                   last: bool, c: Config, d: Config)
    requires Expands(g, h, entries, site, m, last) && c.Running? && d.Running? && c.trace == d.trace && c.pc == d.pc
    requires c.block == d.block == site && c.pc >= |g[site].code|
    requires Match(|g|, m, g[site].target.returnPoint, c.stack, d.stack)
    ensures Related(|g|, m, g[site].target.returnPoint, Step(Machine(g, entries, th), c),
                    Step(Machine(h, entries, th), d))
  {
    var back, entry := g[site].target.returnPoint, entries[g[site].target.func];
    MatchClone(|g|, m, back, entry, c.stack, d.stack);
    assert [entry] + ([back] + c.stack) == [entry, back] + c.stack;
  }

  /** Outside the copy both graphs take the same step; a call at `site` enters the copy. */
  lemma StepOutside(g: Graph, h: Graph, entries: map<FuncId, BlockId>, th: Thread, site: BlockId, m: Clones,
                    last: bool, c: Config, d: Config)
    requires Expands(g, h, entries, site, m, last) && c.Running? && d.Running? && c.trace == d.trace && c.pc == d.pc
    requires VOID < c.block < |g| && d.block == c.block
    requires Match(|g|, m, g[site].target.returnPoint, c.stack, d.stack)
    ensures Related(|g|, m, g[site].target.returnPoint, Step(Machine(g, entries, th), c),
                    Step(Machine(h, entries, th), d))
  {
    var back := g[site].target.returnPoint;
    var c', d' := Step(Machine(g, entries, th), c), Step(Machine(h, entries, th), d);
    var b := g[c.block];
    if c.pc < |b.code| {
      MatchSame(|g|, m, back, c.block, c.stack, d.stack);
    } else if c.block == site {
      CallEnters(g, h, entries, th, site, m, last, c, d);
    } else {
      assert h[c.block] == b;
      if b.target.Exit? {
        if c.stack != [] {
          assert [c.stack[0]] + c.stack[1..] == c.stack && [d.stack[0]] + d.stack[1..] == d.stack;
        }
      } else if b.target.Invoke? && b.target.func in entries {
        MatchSame(|g|, m, back, b.target.returnPoint, c.stack, d.stack);
        MatchSame(|g|, m, back, c'.block, c'.stack, d'.stack);
      } else {
        assert VOID < c'.block < |g| && c'.block == d'.block;
        MatchSame(|g|, m, back, c'.block, c.stack, d.stack);
      }
    }
  }

  /** A terminator that neither returns nor calls, and its redirection: the thread goes to a
      block and to that block's clone. */
  lemma JumpInside(g: Graph, h: Graph, entries: map<FuncId, BlockId>, th: Thread, m: Clones, back: BlockId,
                   last: bool, c: Config, d: Config)
    requires c.Running? && d.Running? && c.trace == d.trace && c.block < |g| && d.block < |h|
    requires var t := g[c.block].target;
             && Inside(t, m.Keys) && !t.Exit? && !t.Invoke? && !t.Undefined?
             && h[d.block].target == Redirect(t, m, back, last)
    requires c.pc >= |g[c.block].code| && d.pc >= |h[d.block].code|
    ensures var c', d' := Step(Machine(g, entries, th), c), Step(Machine(h, entries, th), d);
            && c'.Running? && d'.Running? && c'.block in m && d'.block == m[c'.block] && c'.pc == d'.pc
            && c'.trace == d'.trace && c'.stack == c.stack && d'.stack == d.stack
  {
  }

  lemma CloneIs(g: Graph, h: Graph, entries: map<FuncId, BlockId>, site: BlockId, m: Clones, last: bool, b: BlockId)
    requires Expands(g, h, entries, site, m, last) && b in m
    ensures b < |g| && m[b] < |h| && Inside(g[b].target, m.Keys) && (last ==> !g[b].target.Invoke?)
    ensures site < |g| && g[site].target.Invoke? && VOID < g[site].target.returnPoint < |g|
    ensures h[m[b]] == Block(g[b].code, Redirect(g[b].target, m, g[site].target.returnPoint, last))
  {
  }

  /** Inside the copy the inlined graph mirrors the callee, one frame short. */
  lemma StepInside(g: Graph, h: Graph, entries: map<FuncId, BlockId>, th: Thread, site: BlockId, m: Clones,
                   last: bool, c: Config, d: Config)
    requires Expands(g, h, entries, site, m, last) && c.Running? && d.Running? && c.trace == d.trace && c.pc == d.pc
    requires c.block in m && d.block == m[c.block] && c.stack != [] && c.stack[0] == g[site].target.returnPoint
    requires Match(|g|, m, g[site].target.returnPoint, c.stack[1..], d.stack)
    ensures Related(|g|, m, g[site].target.returnPoint, Step(Machine(g, entries, th), c),
                    Step(Machine(h, entries, th), d))
  {
    hide Match, Expands, Inside;
    CloneIs(g, h, entries, site, m, last, c.block);
    var back := g[site].target.returnPoint;
    var rest := c.stack[1..];
    var b := g[c.block];
    assert c.stack == [back] + rest;
    if c.pc < |b.code| || b.target.Undefined? {
      MatchClone(|g|, m, back, c.block, rest, d.stack);
      assert [c.block] + c.stack == [c.block, back] + rest;
    } else if b.target.Exit? {
      MatchSame(|g|, m, back, back, rest, d.stack);
    } else if b.target.Invoke? {
      CallInside(g, h, entries, th, site, m, last, c, d, rest);
    } else {
      JumpInside(g, h, entries, th, m, back, last, c, d);
      var c' := Step(Machine(g, entries, th), c);
      MatchClone(|g|, m, back, c'.block, rest, d.stack);
      assert [c'.block] + c'.stack == [c'.block, back] + rest;
    }
  }

  /** A call made inside the copy. */
  lemma CallInside(g: Graph, h: Graph, entries: map<FuncId, BlockId>, th: Thread, site: BlockId, m: Clones,
                   last: bool, c: Config, d: Config,
                   rest: seq<BlockId>)
    requires Expands(g, h, entries, site, m, last) && c.Running? && d.Running? && c.trace == d.trace && c.pc == d.pc
    requires c.block in m && d.block == m[c.block] && c.stack == [g[site].target.returnPoint] + rest
    requires g[c.block].target.Invoke? && c.pc >= |g[c.block].code|
    requires Match(|g|, m, g[site].target.returnPoint, rest, d.stack)
    ensures Related(|g|, m, g[site].target.returnPoint, Step(Machine(g, entries, th), c),
                    Step(Machine(h, entries, th), d))
  {
    hide Match;
    CloneIs(g, h, entries, site, m, last, c.block);
    var back := g[site].target.returnPoint;
    var c', d' := Step(Machine(g, entries, th), c), Step(Machine(h, entries, th), d);
    var r := g[c.block].target.returnPoint;
    if g[c.block].target.func in entries {
      MatchClone(|g|, m, back, r, rest, d.stack);
      assert c'.stack == [r, back] + rest && d'.stack == [m[r]] + d.stack;
      MatchSame(|g|, m, back, c'.block, c'.stack, d'.stack);
    } else {
      MatchClone(|g|, m, back, c.block, rest, d.stack);
      assert [c'.block] + c'.stack == [c.block, back] + rest;
    }
  }

  /** Related configurations take related steps. */
  lemma StepRelated(g: Graph, h: Graph, entries: map<FuncId, BlockId>, th: Thread, site: BlockId, m: Clones,
                    last: bool, c: Config, d: Config)
    requires Expands(g, h, entries, site, m, last) && Related(|g|, m, g[site].target.returnPoint, c, d)
    ensures Related(|g|, m, g[site].target.returnPoint, Step(Machine(g, entries, th), c),
                    Step(Machine(h, entries, th), d))
  {
    if c.Running? {
      var xs, ys := [c.block] + c.stack, [d.block] + d.stack;
      assert xs[1..] == c.stack && ys[1..] == d.stack;
      if VOID < xs[0] < |g| && xs[0] == ys[0] && Match(|g|, m, g[site].target.returnPoint, xs[1..], ys[1..]) {
        StepOutside(g, h, entries, th, site, m, last, c, d);
      } else {
        assert xs[2..] == c.stack[1..];
        StepInside(g, h, entries, th, site, m, last, c, d);
      }
    }
  }

  lemma {:induction false} RunRelated(g: Graph, h: Graph, entries: map<FuncId, BlockId>, th: Thread, site: BlockId,
                                      m: Clones, last: bool,
                                      k: nat, c: Config, d: Config)
    requires Expands(g, h, entries, site, m, last) && Related(|g|, m, g[site].target.returnPoint, c, d)
    ensures Related(|g|, m, g[site].target.returnPoint, Run(Machine(g, entries, th), k, c),
                    Run(Machine(h, entries, th), k, d))
    decreases k
  {
    hide Step, Related, Expands;
    if k > 0 {
      StepRelated(g, h, entries, th, site, m, last, c, d);
      RunRelated(g, h, entries, th, site, m, last, k - 1, Step(Machine(g, entries, th), c),
                 Step(Machine(h, entries, th), d));
    }
  }

  /** After any number of steps, any thread has executed the same trace in both graphs, and
      has halted in one exactly if it has in the other. */
  ghost predicate SameBehaviour(g: Graph, h: Graph, entries: map<FuncId, BlockId>) {
    forall th: Thread, k: nat :: SameAfter(g, h, entries, th, k)
  }

  ghost predicate SameAfter(g: Graph, h: Graph, entries: map<FuncId, BlockId>, th: Thread, k: nat) {
    var c, d := Run(Machine(g, entries, th), k, START), Run(Machine(h, entries, th), k, START);
    c.trace == d.trace && (c.Halted? <==> d.Halted?)
  }

  /** Inlining one call changes no run. */
  lemma InliningPreserves(g: Graph, h: Graph, entries: map<FuncId, BlockId>, site: BlockId, m: Clones, last: bool)
    requires Expands(g, h, entries, site, m, last)
    ensures SameBehaviour(g, h, entries)
  {
    forall th: Thread, k: nat ensures SameAfter(g, h, entries, th, k) {
      var back := g[site].target.returnPoint;
      MatchSame(|g|, m, back, ENTRY, [], []);
      RunRelated(g, h, entries, th, site, m, last, k, START, START);
    }
  }

  lemma SameTrans(g1: Graph, g2: Graph, g3: Graph, entries: map<FuncId, BlockId>)
    requires SameBehaviour(g1, g2, entries) && SameBehaviour(g2, g3, entries)
    ensures SameBehaviour(g1, g3, entries)
  {
    forall th: Thread, k: nat ensures SameAfter(g1, g3, entries, th, k) {
      assert SameAfter(g1, g2, entries, th, k) && SameAfter(g2, g3, entries, th, k);
    }
  }

  lemma SameRefl(g: Graph, entries: map<FuncId, BlockId>)
    ensures SameBehaviour(g, g, entries)
  {
    forall th: Thread, k: nat ensures SameAfter(g, g, entries, th, k) {
    }
  }

  // ------------------------------------------------------- the call graph's layers

  /** `s` holds the entry of `f` and all blocks reachable from it without leaving the function,
      and from there only functions of lower rank are called. */
  ghost predicate Layer(g: Graph, entries: map<FuncId, BlockId>, rank: map<FuncId, nat>, f: FuncId, s: set<BlockId>) {
    && f in entries && f in rank && entries[f] in s
    && forall b <- s :: VOID < b < |g| && Inside(g[b].target, s) && LowerCall(g[b].target, entries, rank, rank[f])
  }

  ghost predicate LowerCall(t: Target, entries: map<FuncId, BlockId>, rank: map<FuncId, nat>, bound: nat) {
    t.Invoke? ==> t.func in entries && t.func in rank && rank[t.func] < bound
  }

  ghost predicate Layered(g: Graph, entries: map<FuncId, BlockId>, rank: map<FuncId, nat>,
                          bodies: map<FuncId, set<BlockId>>) {
    forall f <- entries :: f in bodies && Layer(g, entries, rank, f, bodies[f])
  }

  function Grown(bodies: map<FuncId, set<BlockId>>, site: BlockId, copies: set<BlockId>): map<FuncId, set<BlockId>> {
    map f | f in bodies :: if site in bodies[f] then bodies[f] + copies else bodies[f]
  }

  lemma WithinInside(t: Target, lo: BlockId, hi: BlockId)
    requires Within(t, lo, hi)
    ensures Inside(t, Blocks(lo, hi))
  {
  }

  lemma InsideMono(t: Target, s: set<BlockId>, u: set<BlockId>)
    requires Inside(t, s) && s <= u
    ensures Inside(t, u)
  {
  }

  lemma RedirectInside(t: Target, m: Clones, back: BlockId, last: bool)
    requires Inside(t, m.Keys)
    ensures Inside(Redirect(t, m, back, last), m.Values + {back})
  {
  }

  /** A function that contains the call absorbs the copy; it still calls lower ranks only. */
  lemma LayerAbsorbs(g: Graph, h: Graph, entries: map<FuncId, BlockId>, rank: map<FuncId, nat>, site: BlockId,
                     m: Clones, last: bool,
                     f: FuncId, s: set<BlockId>, callee: FuncId, body: set<BlockId>)
    requires Expands(g, h, entries, site, m, last) && callee == g[site].target.func
    requires Layer(g, entries, rank, f, s) && Layer(g, entries, rank, callee, body) && m.Keys <= body
    ensures Layer(h, entries, rank, f, if site in s then s + m.Values else s)
  {
    if site in s {
      var u := s + m.Values;
      var back := g[site].target.returnPoint;
      forall b | b in u
        ensures VOID < b < |h| && Inside(h[b].target, u) && LowerCall(h[b].target, entries, rank, rank[f]) {
        if b in m.Values {
          var x :| x in m && m[x] == b;
          RedirectInside(g[x].target, m, back, last);
          InsideMono(h[b].target, m.Values + {back}, u);
          assert LowerCall(g[x].target, entries, rank, rank[callee]);
        } else if b == site {
          assert m[entries[callee]] in m.Values;
        } else {
          InsideMono(g[b].target, s, u);
        }
      }
    }
  }

  lemma InliningKeepsLayers(g: Graph, h: Graph, entries: map<FuncId, BlockId>, rank: map<FuncId, nat>,
                            bodies: map<FuncId, set<BlockId>>,
                            site: BlockId, m: Clones, last: bool)
    requires Expands(g, h, entries, site, m, last) && Layered(g, entries, rank, bodies)
    requires m.Keys <= bodies[g[site].target.func]
    ensures Layered(h, entries, rank, Grown(bodies, site, m.Values))
  {
    var callee := g[site].target.func;
    forall f | f in entries ensures Layer(h, entries, rank, f, Grown(bodies, site, m.Values)[f]) {
      LayerAbsorbs(g, h, entries, rank, site, m, last, f, bodies[f], callee, bodies[callee]);
    }
  }

  // ----------------------------------------------------------------- call sites

  /** The owned blocks that end in a call are exactly those listed. */
  ghost predicate ListsCalls(g: Graph, sites: seq<BlockId>) {
    && Distinct(sites) && (forall b <- sites :: VOID < b < |g|)
    && (forall b: BlockId :: VOID < b < |g| ==> (g[b].target.Invoke? <==> b in sites))
  }

  ghost predicate AllDefined(g: Graph) {
    forall b: BlockId :: VOID < b < |g| ==> g[b].target != Undefined
  }

  /** The clones that end in a call: the new sites. */
  ghost predicate NewSites(g: Graph, m: Clones, last: bool, added: seq<BlockId>) {
    && Distinct(added)
    && (forall x <- added :: !last && x in m.Values)
    && (forall b <- m :: b < |g| ==> (m[b] in added <==> !last && g[b].target.Invoke?))
  }

  /** Every listed call is to a function of rank below `bound`. */
  ghost predicate RankBelow(g: Graph, entries: map<FuncId, BlockId>, rank: map<FuncId, nat>, sites: seq<BlockId>,
                            bound: nat) {
    forall b <- sites :: b < |g| && LowerCall(g[b].target, entries, rank, bound)
  }

  /** After inlining `site`, the calls are the other ones and the cloned ones. */
  lemma InliningListsCalls(g: Graph, h: Graph, entries: map<FuncId, BlockId>, site: BlockId, m: Clones, last: bool,
                           rest: seq<BlockId>, next: seq<BlockId>, added: seq<BlockId>)
    requires Expands(g, h, entries, site, m, last) && NewSites(g, m, last, added)
    requires ListsCalls(g, [site] + rest + next)
    ensures ListsCalls(h, rest + (next + added))
  {
    var sites, all := rest + (next + added), [site] + rest + next;
    forall b | b in added ensures |g| <= b < |h| {
      assert b in m.Values;
    }
    assert forall b <- rest + next :: b in all;
    assert all[0] == site && all[1..] == rest + next;
    assert Distinct(rest + next) by {
      forall i, j | 0 <= i < j < |rest + next| ensures (rest + next)[i] != (rest + next)[j] {
        assert all[i + 1] != all[j + 1];
      }
    }
    assert sites == (rest + next) + added;
    forall i, j | 0 <= i < |rest + next| && 0 <= j < |added| ensures (rest + next)[i] != added[j] {
      assert (rest + next)[i] in all && added[j] in added;
    }
    assert site !in rest + next by {
      forall i | 0 <= i < |rest + next| ensures (rest + next)[i] != site {
        assert all[0] != all[i + 1];
      }
    }
    forall b: BlockId | VOID < b < |h| ensures h[b].target.Invoke? <==> b in sites {
      if b >= |g| {
        assert b in m.Values;
        var x :| x in m && m[x] == b;
        assert b !in rest + next by { assert forall y <- rest + next :: y in all; }
      } else {
        assert b !in added;
        assert b in rest + next <==> b in all && b != site;
      }
    }
  }

  /** New calls go to functions of strictly lower rank than the inlined one. */
  lemma InliningLowersRank(g: Graph, h: Graph, entries: map<FuncId, BlockId>, rank: map<FuncId, nat>,
                           bodies: map<FuncId, set<BlockId>>,
                           site: BlockId, m: Clones, last: bool, rest: seq<BlockId>, next: seq<BlockId>,
                           added: seq<BlockId>, depth: nat)
    requires Expands(g, h, entries, site, m, last) && NewSites(g, m, last, added) && Layered(g, entries, rank, bodies)
    requires m.Keys <= bodies[g[site].target.func] && ListsCalls(g, [site] + rest + next)
    requires RankBelow(g, entries, rank, [site] + rest, depth) && RankBelow(g, entries, rank, next, depth - 1)
    requires depth > 0
    ensures RankBelow(h, entries, rank, rest, depth) && RankBelow(h, entries, rank, next + added, depth - 1)
  {
    var all := [site] + rest + next;
    assert site in [site] + rest;
    assert forall b <- rest :: b in [site] + rest;
    forall i | 0 <= i < |rest + next| ensures (rest + next)[i] != site {
      assert all[0] != all[i + 1];
    }
    forall b | b in rest ensures b < |h| && LowerCall(h[b].target, entries, rank, depth) {
      assert b in all && b in rest + next;
    }
    forall b | b in next + added ensures b < |h| && LowerCall(h[b].target, entries, rank, depth - 1) {
      if b in added {
        assert b in m.Values;
        var x :| x in m && m[x] == b;
        var callee := g[site].target.func;
        assert LowerCall(g[x].target, entries, rank, rank[callee]);
      } else {
        assert b in all && b in rest + next;
      }
    }
  }

  /** Blocks that do not end in a call are left as they are, and none becomes unfinished. */
  ghost predicate OnlyCallsChange(g: Graph, h: Graph) {
    && |g| <= |h| && (forall b: BlockId :: VOID < b < |g| && !g[b].target.Invoke? ==> h[b] == g[b])
    && (AllDefined(g) ==> AllDefined(h))
  }

  lemma OnlyCallsTrans(g1: Graph, g2: Graph, g3: Graph)
    requires OnlyCallsChange(g1, g2) && OnlyCallsChange(g2, g3)
    ensures OnlyCallsChange(g1, g3)
  {
  }

  /** Inlining keeps the graph self-contained, changes the call's block only, and leaves no block
      unfinished that was not. */
  lemma InliningKeepsShape(g: Graph, h: Graph, entries: map<FuncId, BlockId>, site: BlockId, m: Clones, last: bool)
    requires Expands(g, h, entries, site, m, last)
    ensures SelfContained(h, entries) && OnlyCallsChange(g, h)
  {
    forall b: BlockId | VOID < b < |h|
      ensures Within(h[b].target, ENTRY, |h|) && (AllDefined(g) ==> h[b].target != Undefined)
    {
      if b >= |g| {
        assert b in m.Values;
        var x :| x in m && m[x] == b;
        RedirectWithin(g[x].target, m, g[site].target.returnPoint, last, |h|);
      }
    }
  }

  lemma RedirectWithin(t: Target, m: Clones, back: BlockId, last: bool, hi: BlockId)
    requires Inside(t, m.Keys) && (forall b <- m :: VOID < m[b] < hi) && VOID < back < hi
    ensures Within(Redirect(t, m, back, last), ENTRY, hi)
    ensures t != Undefined ==> Redirect(t, m, back, last) != Undefined
  {
  }

  // ---------------------------------------------------------- the cloning walk

  /** Block `b` has been copied with its terminator. */
  ghost predicate Finished(g0: Graph, g: Graph, m: Clones, back: BlockId, last: bool, b: BlockId)
    requires b in m
  {
    && b < |g0| && m[b] < |g| && Inside(g0[b].target, m.Keys)
    && g[m[b]] == Block(g0[b].code, Redirect(g0[b].target, m, back, last))
  }

  /** Every block in `m` has its own copy, a new block, and no other block but `site` changed. */
  ghost predicate Copied(g0: Graph, g: Graph, site: BlockId, m: Clones) {
    && |g0| <= |g| && site < |g0|
    && (forall b: BlockId :: b < |g0| && b != site ==> g[b] == g0[b])
    && (forall b <- m :: VOID < b < |g0| && b != site && |g0| <= m[b] < |g| && g[m[b]].code == g0[b].code)
    && (forall a, b :: a in m && b in m && a != b ==> m[a] != m[b])
    && (forall x: BlockId :: |g0| <= x < |g| ==> x in m.Values)
  }

  /** The walk so far: everything in `m` is copied from `g0`, only blocks in `work` and `cur`
      still without their terminators. */
  ghost predicate Cloning(g0: Graph, g: Graph, site: BlockId, m: Clones, back: BlockId, last: bool,
                          work: seq<BlockId>, cur: BlockId, body: set<BlockId>) {
    && Copied(g0, g, site, m) && m.Keys <= body
    && (forall b <- work :: b in m && b != cur) && Distinct(work)
    && (forall b <- m :: b !in work && b != cur ==> Finished(g0, g, m, back, last, b))
  }

  /** The call sites among the copies finished so far. */
  ghost predicate SitesSoFar(g0: Graph, m: Clones, last: bool, work: seq<BlockId>, cur: BlockId, added: seq<BlockId>) {
    && Distinct(added)
    && (forall x <- added :: !last && x in m.Values)
    && (forall b <- m :: b < |g0| ==> (m[b] in added <==> !last && g0[b].target.Invoke? && b !in work && b != cur))
  }

  lemma RedirectMono(t: Target, m: Clones, m': Clones, back: BlockId, last: bool)
    requires Inside(t, m.Keys) && forall b <- m :: b in m' && m'[b] == m[b]
    ensures Inside(t, m'.Keys) && Redirect(t, m', back, last) == Redirect(t, m, back, last)
  {
    if t.Dispatch? {
      assert forall k <- t.cases :: CloneOf(m', t.cases[k]) == CloneOf(m, t.cases[k]);
    }
  }

  lemma CopiedFirst(g0: Graph, g: Graph, site: BlockId, m: Clones, b: BlockId, g': Graph, m': Clones)
    requires Copied(g0, g, site, m) && b !in m && VOID < b < |g0| && b != site
    requires g' == g + [Block(g0[b].code, Undefined)] && m' == m[b := |g|]
    ensures Copied(g0, g', site, m')
  {
    forall x: BlockId | |g0| <= x < |g'| ensures x in m'.Values {
      if x < |g| {
        assert x in m.Values;
        var y :| y in m && m[y] == x;
        assert m'[y] == x;
      } else {
        assert m'[b] == x;
      }
    }
  }

  /** A block met for the first time is copied and queued. */
  lemma CloneFirst(g0: Graph, g: Graph, site: BlockId, m: Clones, back: BlockId, last: bool, work: seq<BlockId>,
                   cur: BlockId, body: set<BlockId>,
                   b: BlockId, g': Graph, m': Clones)
    requires Cloning(g0, g, site, m, back, last, work, cur, body) && b !in m && b in body && VOID < b < |g0|
    requires b != site && b != cur
    requires g' == g + [Block(g0[b].code, Undefined)] && m' == m[b := |g|]
    ensures Cloning(g0, g', site, m', back, last, [b] + work, cur, body)
  {
    hide Copied, Redirect, Inside;
    CopiedFirst(g0, g, site, m, b, g', m');
    forall x | x in m' && x !in [b] + work && x != cur ensures Finished(g0, g', m', back, last, x) {
      assert x !in work && x in m;
      assert Finished(g0, g, m, back, last, x);
      RedirectMono(g0[x].target, m, m', back, last);
    }
  }

  lemma SitesFirst(g0: Graph, m: Clones, last: bool, work: seq<BlockId>, cur: BlockId, added: seq<BlockId>,
                   b: BlockId, copy: BlockId)
    requires SitesSoFar(g0, m, last, work, cur, added) && b !in m && copy !in m.Values
    ensures SitesSoFar(g0, m[b := copy], last, [b] + work, cur, added)
  {
    var m' := m[b := copy];
    forall x | x in added ensures !last && x in m'.Values {
      assert x in m.Values;
      var y :| y in m && m[y] == x;
      assert m'[y] == x;
    }
    forall x | x in m' && x < |g0|
      ensures m'[x] in added <==> !last && g0[x].target.Invoke? && x !in [b] + work && x != cur
    {
      if x == b { assert m'[x] !in added; } else { assert x in m && (x in [b] + work <==> x in work); }
    }
  }

  /** Giving the current copy its terminator finishes it. */
  lemma CloneDone(g0: Graph, g: Graph, site: BlockId, m: Clones, back: BlockId, last: bool, work: seq<BlockId>,
                  cur: BlockId, body: set<BlockId>, g': Graph)
    requires Cloning(g0, g, site, m, back, last, work, cur, body) && cur in m && Inside(g0[cur].target, m.Keys)
    requires g' == g[m[cur] := Block(g[m[cur]].code, Redirect(g0[cur].target, m, back, last))]
    ensures Cloning(g0, g', site, m, back, last, work, VOID, body)
  {
    forall b | b in m && b !in work ensures Finished(g0, g', m, back, last, b) {
      if b != cur {
        assert Finished(g0, g, m, back, last, b);
      }
    }
  }

  lemma SitesDone(g0: Graph, m: Clones, last: bool, work: seq<BlockId>, cur: BlockId, added: seq<BlockId>, t: Target)
    requires SitesSoFar(g0, m, last, work, cur, added) && cur in m && cur < |g0| && cur !in work && VOID !in m
    requires forall a, b :: a in m && b in m && a != b ==> m[a] != m[b]
    requires forall b <- m :: b < |g0|
    requires t.Invoke? <==> !last && g0[cur].target.Invoke?
    ensures SitesSoFar(g0, m, last, work, VOID, if t.Invoke? then added + [m[cur]] else added)
  {
    assert m[cur] !in added;
    assert m[cur] in m.Values;
  }

  /** When the work list is empty the copy is complete. */
  lemma CloneComplete(g0: Graph, g: Graph, entries: map<FuncId, BlockId>, site: BlockId, m: Clones, back: BlockId,
                      last: bool, body: set<BlockId>, added: seq<BlockId>)
    requires Cloning(g0, g, site, m, back, last, [], VOID, body) && SitesSoFar(g0, m, last, [], VOID, added)
    requires SelfContained(g0, entries) && VOID < site && g0[site].target.Invoke? && g0[site].target.func in entries
    requires var entry := entries[g0[site].target.func]; entry in m && g[site] == Block(g0[site].code, Goto(m[entry]))
    requires back == g0[site].target.returnPoint
    requires last ==> forall b <- body :: b < |g0| ==> !g0[b].target.Invoke?
    ensures Expands(g0, g, entries, site, m, last) && NewSites(g0, m, last, added)
  {
    assert forall b <- m :: Finished(g0, g, m, back, last, b);
  }

  /** The fixed part of a cloning walk: the call, its return point, the block being copied. */
  datatype Walk = Walk(site: BlockId, back: BlockId, last: bool, cur: BlockId, body: set<BlockId>,
                       added: seq<BlockId>) {

    ghost predicate Holds(g0: Graph, g: Graph, m: Clones, work: seq<BlockId>) {
      Cloning(g0, g, site, m, back, last, work, cur, body) && SitesSoFar(g0, m, last, work, cur, added)
    }

    /** More blocks have been met; if none, the work list is as before. */
    ghost predicate Grew(m: Clones, work: seq<BlockId>, m': Clones, work': seq<BlockId>) {
      (forall b <- m :: b in m' && m'[b] == m[b]) && (m'.Keys == m.Keys ==> m' == m && work' == work)
    }

    lemma GrewTrans(m: Clones, work: seq<BlockId>, m1: Clones, work1: seq<BlockId>, m2: Clones, work2: seq<BlockId>)
      requires Grew(m, work, m1, work1) && Grew(m1, work1, m2, work2)
      ensures Grew(m, work, m2, work2)
    {
      if m2.Keys == m.Keys {
        assert m1.Keys == m.Keys by {
          assert forall b <- m :: b in m1;
          assert forall b <- m1 :: b in m2;
        }
      }
    }
  }

  /** Overwriting the call's own terminator does not disturb the walk. */
  lemma CallReplaced(g0: Graph, g: Graph, w: Walk, m: Clones, work: seq<BlockId>, g': Graph)
    requires w.Holds(g0, g, m, work) && |g'| == |g|
    requires forall b: BlockId :: b < |g| && b != w.site ==> g'[b] == g[b]
    ensures w.Holds(g0, g', m, work)
  {
    forall b | b in m && b !in work && b != w.cur ensures Finished(g0, g', m, w.back, w.last, b) {
      assert Finished(g0, g, m, w.back, w.last, b);
    }
  }

  /** Taking a block off the work list. */
  lemma WalkStarts(g0: Graph, g: Graph, w: Walk, m: Clones, work: seq<BlockId>)
    requires w.Holds(g0, g, m, work) && w.cur == VOID && work != [] && forall b <- w.body :: VOID < b
    ensures w.(cur := work[0]).Holds(g0, g, m, work[1..])
    ensures work[0] in m && VOID < work[0] < |g0| && work[0] != w.site && g[work[0]] == g0[work[0]]
  {
    var cur, rest := work[0], work[1..];
    assert forall b <- rest :: b in work;
    assert forall b: BlockId :: b in work <==> b == cur || b in rest;
    forall b | b in m && b !in rest && b != cur ensures Finished(g0, g, m, w.back, w.last, b) {
      assert b !in work;
    }
  }

  /** Storing its copy's terminator. */
  lemma WalkFinishes(g0: Graph, g: Graph, w: Walk, m: Clones, work: seq<BlockId>, t: Target, g': Graph)
    requires w.Holds(g0, g, m, work) && w.cur in m && VOID !in w.body && Inside(g0[w.cur].target, m.Keys)
    requires t == Redirect(g0[w.cur].target, m, w.back, w.last)
    requires g' == g[m[w.cur] := Block(g[m[w.cur]].code, t)]
    ensures w.(cur := VOID, added := if t.Invoke? then w.added + [m[w.cur]] else w.added).Holds(g0, g', m, work)
  {
    CloneDone(g0, g, w.site, m, w.back, w.last, work, w.cur, w.body, g');
    SitesDone(g0, m, w.last, work, w.cur, w.added, t);
  }

  lemma WalkInBody(g0: Graph, g: Graph, w: Walk, m: Clones, work: seq<BlockId>)
    requires w.Holds(g0, g, m, work)
    ensures m.Keys <= w.body && forall b <- work :: b in w.body
  {
  }

  lemma WalkRange(g0: Graph, g: Graph, w: Walk, m: Clones, work: seq<BlockId>)
    requires w.Holds(g0, g, m, work)
    ensures |g0| <= |g| && forall b <- m :: |g0| <= m[b] < |g|
  {
  }

  lemma WalkEmpty(g0: Graph, w: Walk)
    requires w.cur == VOID && w.added == [] && w.site < |g0|
    ensures w.Holds(g0, g0, map[], [])
  {
  }

  /** The blocks still to be met become fewer, unless no new one was met. */
  lemma WalkShrinks(g0: Graph, g: Graph, w: Walk, seen: Clones, m: Clones, work: seq<BlockId>)
    requires w.Holds(g0, g, m, work) && forall b <- seen :: b in m
    ensures w.body - m.Keys <= w.body - seen.Keys
    ensures m.Keys != seen.Keys ==> w.body - m.Keys < w.body - seen.Keys
  {
    if m.Keys != seen.Keys {
      assert seen.Keys <= m.Keys by { assert forall b <- seen.Keys :: b in m; }
      var b :| b in m.Keys && b !in seen.Keys;
      assert b in w.body - seen.Keys && b !in w.body - m.Keys;
    }
  }

  lemma WalkComplete(g0: Graph, g: Graph, entries: map<FuncId, BlockId>, w: Walk, m: Clones)
    requires w.Holds(g0, g, m, []) && w.cur == VOID && VOID !in w.body
    requires SelfContained(g0, entries) && VOID < w.site < |g0| && g0[w.site].target.Invoke?
    requires g0[w.site].target.func in entries
    requires var entry := entries[g0[w.site].target.func];
             entry in m && w.site < |g| && g[w.site] == Block(g0[w.site].code, Goto(m[entry]))
    requires w.back == g0[w.site].target.returnPoint
    requires w.last ==> forall b <- w.body :: b < |g0| ==> !g0[b].target.Invoke?
    ensures Expands(g0, g, entries, w.site, m, w.last) && NewSites(g0, m, w.last, w.added)
  {
    CloneComplete(g0, g, entries, w.site, m, w.back, w.last, w.body, w.added);
  }

  // ---------------------------------------------------------------- the rounds

  /** What every inlining keeps within a round: the runs of the original graph and its blocks
      without calls, the layers, and the calls, `rest` still to be done in this round and `next` in the
      following one, which go to ranks below `depth` and `depth - 1`. */
  ghost predicate Round(g0: Graph, g: Graph, entries: map<FuncId, BlockId>, rank: map<FuncId, nat>,
                        bodies: map<FuncId, set<BlockId>>,
                        rest: seq<BlockId>, next: seq<BlockId>, depth: nat) {
    && SameBehaviour(g0, g, entries) && SelfContained(g, entries) && OnlyCallsChange(g0, g)
    && Layered(g, entries, rank, bodies) && ListsCalls(g, rest + next)
    && RankBelow(g, entries, rank, rest, depth) && (depth > 0 ==> RankBelow(g, entries, rank, next, depth - 1))
  }

  /** A listed call can be inlined: it is not part of what it calls, and in the last round
      what it calls makes no calls. */
  lemma CallIsInlinable(g0: Graph, g: Graph, entries: map<FuncId, BlockId>, rank: map<FuncId, nat>,
                        bodies: map<FuncId, set<BlockId>>,
                        site: BlockId, rest: seq<BlockId>, next: seq<BlockId>, depth: nat)
    requires Round(g0, g, entries, rank, bodies, [site] + rest, next, depth)
    ensures VOID < site < |g| && g[site].target.Invoke? && g[site].target.func in entries
    ensures g[site].target.func in bodies
    ensures var body := bodies[g[site].target.func];
            && entries[g[site].target.func] in body && site !in body
            && (forall b <- body :: VOID < b < |g| && Inside(g[b].target, body))
            && (depth == 1 ==> forall b <- body :: b < |g| ==> !g[b].target.Invoke?)
  {
    assert site in [site] + rest && site in [site] + rest + next;
  }

  lemma RoundStep(g0: Graph, g: Graph, h: Graph, entries: map<FuncId, BlockId>, rank: map<FuncId, nat>,
                  bodies: map<FuncId, set<BlockId>>,
                  site: BlockId, rest: seq<BlockId>, next: seq<BlockId>, depth: nat, m: Clones, added: seq<BlockId>)
    requires Round(g0, g, entries, rank, bodies, [site] + rest, next, depth) && depth > 0
    requires Expands(g, h, entries, site, m, depth == 1) && NewSites(g, m, depth == 1, added)
    requires g[site].target.func in bodies && m.Keys <= bodies[g[site].target.func]
    ensures Round(g0, h, entries, rank, Grown(bodies, site, m.Values), rest, next + added, depth)
  {
    hide SameBehaviour, Layered, ListsCalls, RankBelow, OnlyCallsChange, SelfContained, NewSites, Expands;
    var last := depth == 1;
    InliningPreserves(g, h, entries, site, m, last);
    SameTrans(g0, g, h, entries);
    InliningKeepsShape(g, h, entries, site, m, last);
    OnlyCallsTrans(g0, g, h);
    InliningKeepsLayers(g, h, entries, rank, bodies, site, m, last);
    InliningListsCalls(g, h, entries, site, m, last, rest, next, added);
    InliningLowersRank(g, h, entries, rank, bodies, site, m, last, rest, next, added, depth);
  }

  /** When a round is over, the calls it left are those of the next round, one rank lower. */
  lemma RoundOver(g0: Graph, g: Graph, entries: map<FuncId, BlockId>, rank: map<FuncId, nat>,
                  bodies: map<FuncId, set<BlockId>>,
                  next: seq<BlockId>, depth: nat)
    requires Round(g0, g, entries, rank, bodies, [], next, depth) && depth > 0
    ensures Round(g0, g, entries, rank, bodies, next, [], depth - 1)
  {
    assert [] + next == next == next + [];
  }

  lemma HeadIsElement(s: seq<BlockId>)
    ensures s != [] ==> s[0] in s
  {
  }

  /** No rank is below 0: when the rounds are over no call is left. */
  lemma RoundsDone(g0: Graph, g: Graph, entries: map<FuncId, BlockId>, rank: map<FuncId, nat>,
                   bodies: map<FuncId, set<BlockId>>,
                   rest: seq<BlockId>, depth: nat)
    requires Round(g0, g, entries, rank, bodies, rest, [], depth) && (depth == 0 || rest == [])
    ensures rest == [] && forall b: BlockId :: VOID < b < |g| ==> !g[b].target.Invoke?
  {
    assert rest + [] == rest;
    HeadIsElement(rest);
  }

  lemma RoundShape(g0: Graph, g: Graph, entries: map<FuncId, BlockId>, rank: map<FuncId, nat>,
                   bodies: map<FuncId, set<BlockId>>,
                   rest: seq<BlockId>, next: seq<BlockId>, depth: nat)
    requires Round(g0, g, entries, rank, bodies, rest, next, depth)
    ensures SelfContained(g, entries)
  {
  }

  lemma RoundMeans(g0: Graph, g: Graph, entries: map<FuncId, BlockId>, rank: map<FuncId, nat>,
                   bodies: map<FuncId, set<BlockId>>,
                   rest: seq<BlockId>, depth: nat)
    requires Round(g0, g, entries, rank, bodies, rest, [], depth)
    ensures SameBehaviour(g0, g, entries) && SelfContained(g, entries) && OnlyCallsChange(g0, g)
  {
  }
}
