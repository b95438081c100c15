/** From the structured shader to a graph without calls: the builder and the inliner together. */
module Compilation {
  import opened Basics
  import opened Shader
  import opened FlowGraph
  import opened Structured
  import opened BuilderSpec
  import opened Layout
  import opened BuilderLayout
  import opened Sealing
  import opened Simulation
  import opened Programs
  import opened BuilderAccepts
  import opened InlineSpec
  import opened ControlFlow
  import opened Inlining
  import opened Traversal

  type Ranks = map<FuncId, nat>

  /** The call graph has no cycle and calls nest at most 32 deep: functions can be ranked below
      32 so that each calls lower ranks only. */
  ghost predicate Ranked(fns: seq<Function>, rank: Ranks) {
    forall f <- fns :: f.id in rank && rank[f.id] < 32
                       && forall g <- Calls(f.body) :: g in rank && rank[g] < rank[f.id]
  }

  /** The blocks of every function. */
  ghost function Bodies(s: State, fs: Functions): map<FuncId, set<BlockId>> {
    map f | f in s.entries && f in fs :: Blocks(s.entries[f], AfterCode(fs[f], BodyPos(s.entries[f])).next)
  }

  /** A function's region is a layer: closed, and calling lower ranks only. */
  lemma FunctionLayer(s: State, fs: Functions, rank: Ranks, f: FuncId)
    requires f in fs && f in s.entries && HasFunction(s.blocks, fs[f], s.entries[f]) && f in rank
    requires forall g <- Calls(fs[f]) :: g in s.entries && g in rank && rank[g] < rank[f]
    requires AfterCode(fs[f], BodyPos(s.entries[f])).next <= |s.blocks|
    ensures Layer(s.blocks, s.entries, rank, f, Bodies(s, fs)[f])
  {
    hide HasFunction, AfterCode, Calls, Sites;
    var e, body := s.entries[f], fs[f];
    var hi := AfterCode(body, BodyPos(e)).next;
    FunctionRegion(s.blocks, body, e);
    FunctionEntry(s.blocks, body, e);
    forall b | b in Blocks(e, hi)
      ensures VOID < b < |s.blocks| && Inside(s.blocks[b].target, Blocks(e, hi))
      ensures LowerCall(s.blocks[b].target, s.entries, rank, rank[f])
    {
      assert SealedBlock(s.blocks, b, e, hi, Calls(body), Sites(body, BodyPos(e)));
      WithinInside(s.blocks[b].target, e, hi);
    }
  }

  lemma FunctionEntry(g: Graph, body: Code, e: BlockId)
    requires HasFunction(g, body, e)
    ensures VOID < e < AfterCode(body, BodyPos(e)).next && e + 1 < |g|
  {
  }

  /** The last block of a function is one of the graph's: it is closed there. */
  lemma RegionInGraph(g: Graph, body: Code, e: BlockId)
    requires HasFunction(g, body, e)
    ensures AfterCode(body, BodyPos(e)).next <= |g|
  {
    hide HasCode, AfterCode, Calls, Sites;
    FunctionRegion(g, body, e);
    FunctionEntry(g, body, e);
    var hi := AfterCode(body, BodyPos(e)).next;
    assert SealedBlock(g, hi - 1, e, hi, Calls(body), Sites(body, BodyPos(e)));
  }

  /** The functions that a state has entries for are those of `fns`, laid out, and call no others. */
  ghost predicate Holds(s: State, fns: seq<Function>) {
    var fs := FunctionMap(fns);
    && HasFunctions(s.blocks, fs, s.entries) && (forall f <- s.entries :: f in fs)
    && forall f <- fns :: Calls(f.body) <= fs.Keys
  }

  /** Every entry has its layer. */
  lemma LayersReady(s: State, fns: seq<Function>, rank: Ranks)
    requires Holds(s, fns) && Ranked(fns, rank)
    ensures Layered(s.blocks, s.entries, rank, Bodies(s, FunctionMap(fns)))
    ensures forall f <- s.entries :: VOID < s.entries[f] < |s.blocks|
  {
    hide Calls, HasFunction, AfterCode, Sites, Layer;
    var fs := FunctionMap(fns);
    FunctionBodies(fns);
    forall f | f in s.entries
      ensures f in fs && VOID < s.entries[f] < |s.blocks| && Layer(s.blocks, s.entries, rank, f, Bodies(s, fs)[f])
    {
      RegionInGraph(s.blocks, fs[f], s.entries[f]);
      FunctionEntry(s.blocks, fs[f], s.entries[f]);
      FunctionLayer(s, fs, rank, f);
    }
  }

  /** A graph in which every owned block has a terminator leading to owned blocks, except those in
      `open`, which have none; the calls are exactly those listed, once each. */
  ghost predicate ClosedBut(g: Graph, open: set<BlockId>, calls: set<FuncId>, sites: seq<BlockId>) {
    && (forall b: BlockId :: ENTRY <= b < |g| && b !in open ==> SealedBlock(g, b, ENTRY, |g|, calls, sites))
    && (forall b <- open :: b < |g| && g[b].target == Undefined)
    && Distinct(sites) && forall b <- sites :: ENTRY <= b < |g| && b !in open
  }

  /** What the builder leaves is ready for the first of the inliner's rounds. */
  lemma RoundReady(s: State, fns: seq<Function>, rank: Ranks, open: set<BlockId>)
    requires Holds(s, fns) && Ranked(fns, rank) && ENTRY < |s.blocks|
    requires ClosedBut(s.blocks, open, FunctionMap(fns).Keys, s.callSites)
    ensures Round(s.blocks, s.blocks, s.entries, rank, Bodies(s, FunctionMap(fns)), s.callSites, [], 32)
    ensures open == {} ==> AllDefined(s.blocks)
  {
    hide Calls, HasFunction, Layered, Holds, SameBehaviour;
    LayersReady(s, fns, rank);
    SameRefl(s.blocks, s.entries);
    ClosedIsReady(s.blocks, open, s.entries, FunctionMap(fns).Keys, s.callSites);
    assert s.callSites + [] == s.callSites;
    CallsRanked(s, fns, rank, open);
  }

  lemma CallsRanked(s: State, fns: seq<Function>, rank: Ranks, open: set<BlockId>)
    requires Holds(s, fns) && Ranked(fns, rank) && ClosedBut(s.blocks, open, FunctionMap(fns).Keys, s.callSites)
    ensures RankBelow(s.blocks, s.entries, rank, s.callSites, 32)
  {
    hide Calls, HasFunction;
    FunctionBodies(fns);
    forall b | b in s.callSites ensures b < |s.blocks| && LowerCall(s.blocks[b].target, s.entries, rank, 32) {
      assert SealedBlock(s.blocks, b, ENTRY, |s.blocks|, FunctionMap(fns).Keys, s.callSites);
    }
  }

  lemma ClosedIsReady(g: Graph, open: set<BlockId>, entries: map<FuncId, BlockId>, calls: set<FuncId>,
                      sites: seq<BlockId>)
    requires ClosedBut(g, open, calls, sites) && ENTRY < |g| && forall f <- entries :: VOID < entries[f] < |g|
    ensures SelfContained(g, entries) && ListsCalls(g, sites) && (open == {} ==> AllDefined(g))
  {
    forall b: BlockId | VOID < b < |g|
      ensures Within(g[b].target, ENTRY, |g|) && (g[b].target.Invoke? <==> b in sites)
      ensures b !in open ==> g[b].target != Undefined
    {
      if b !in open {
        assert SealedBlock(g, b, ENTRY, |g|, calls, sites);
      }
    }
  }

  /** The compiled graph of a program is ready, and has no open block. */
  lemma FirstRound(p: Program, rank: Ranks)
    requires WfProgram(p) && Ranked(p.functions, rank)
    ensures var s := Compiled(p);
            && Round(s.blocks, s.blocks, s.entries, rank, Bodies(s, FunctionMap(p.functions)), s.callSites, [], 32)
            && AllDefined(s.blocks)
  {
    hide Calls, HasFunction, AfterCode, Sites, Process, HasCode, WfCode, Compiled, HasMain, HasBodies, Round;
    CompiledShape(p);
    CompilationCloses(p);
    RoundReady(Compiled(p), p.functions, rank, {});
  }

  /** Reads a well-formed program's stream and inlines its calls.  The resulting graph has no
      calls and no open blocks, and every thread halts in it with a trace exactly if the
      structured program ends with that trace. */
  method Compile(p: Program, ghost rank: Ranks) returns (flow: Builder)
    requires WfProgram(p) && Ranked(p.functions, rank)
    ensures fresh(flow) && SelfContained(flow.blocks, flow.entries) && AllDefined(flow.blocks)
    ensures forall b: BlockId :: VOID < b < |flow.blocks| ==> !flow.blocks[b].target.Invoke?
    ensures SameBehaviour(Compiled(p).blocks, flow.blocks, flow.entries) && flow.entries == Compiled(p).entries
    ensures forall th: Thread, t: Trace :: Halts(Machine(flow.blocks, flow.entries, th), t) <==> ProgramEnds(p, th, t)
  {
    hide Round, WfProgram, Accepted, Process, Halts, ProgramEnds, SameBehaviour;
    StreamAccepted(p);
    flow := new Builder();
    assert INITIAL.blocks == flow.blocks;
    flow.ReadStream(FlattenProgram(p), None);
    ghost var s := flow.View();
    assert s == Compiled(p);
    FirstRound(p, rank);
    InlineCalls(flow, rank, Bodies(s, FunctionMap(p.functions)));
    forall th: Thread, t: Trace
      ensures Halts(Machine(flow.blocks, flow.entries, th), t) <==> ProgramEnds(p, th, t)
    {
      CompilationPreservesMeaning(p, th, t);
      SameHalts(s.blocks, flow.blocks, s.entries, th, t);
    }
  }

  lemma SameHalts(g: Graph, h: Graph, entries: map<FuncId, BlockId>, th: Thread, t: Trace)
    requires SameBehaviour(g, h, entries)
    ensures Halts(Machine(g, entries, th), t) <==> Halts(Machine(h, entries, th), t)
  {
    hide Run;
    if Halts(Machine(g, entries, th), t) {
      var k: nat :| Run(Machine(g, entries, th), k, START) == Halted(t);
      assert SameAfter(g, h, entries, th, k);
    }
    if Halts(Machine(h, entries, th), t) {
      var k: nat :| Run(Machine(h, entries, th), k, START) == Halted(t);
      assert SameAfter(g, h, entries, th, k);
    }
  }

  lemma SelfContainedComplete(g: Graph, entries: map<FuncId, BlockId>)
    requires SelfContained(g, entries)
    ensures Complete(g)
  {
    forall b: BlockId, c: BlockId | b < |g| && b != VOID && c in g[b].target.Successors() ensures VOID < c < |g| {
      SuccessorWithin(g[b].target, ENTRY, |g|, c);
    }
  }

  lemma SuccessorWithin(t: Target, lo: BlockId, hi: BlockId, c: BlockId)
    requires Within(t, lo, hi) && c in t.Successors()
    ensures lo <= c < hi
  {
    if t.Dispatch? && c != t.fallback {
      var k :| k in t.cases && t.cases[k] == c;
    }
  }

  /** The emitted code halts with `t`. */
  ghost predicate EmittedHalts(code: Graph, th: Thread, t: Trace) {
    exists k: nat :: Run(Machine(code, map[], th), k, Running(0, 0, [], [])) == Halted(t)
  }

  /** After `k` steps the thread still runs in the emitted code and has executed `t`. */
  ghost predicate EmittedAt(code: Graph, th: Thread, k: nat, t: Trace) {
    var c := Run(Machine(code, map[], th), k, Running(0, 0, [], []));
    c.Running? && c.trace == t
  }

  /** The emitted code comes to `t`, not before `fuel` steps, and goes on. */
  ghost predicate EmittedReaches(code: Graph, th: Thread, fuel: nat, t: Trace) {
    exists k: nat :: k >= fuel && EmittedAt(code, th, k, t)
  }

  /** The whole way: emission never fails, and every thread halts in the emitted code with a
      trace exactly if the structured program ends with that trace.  A thread for which it does not
      end is followed for ever: whatever trace the program has after some fuel, the emitted code
      comes to it, still running. */
  method Translate(p: Program, ghost rank: Ranks) returns (r: Emission)
    requires WfProgram(p) && Ranked(p.functions, rank)
    ensures r.Emitted? && forall th: Thread, t: Trace :: EmittedHalts(r.code, th, t) <==> ProgramEnds(p, th, t)
    ensures forall th: Thread, fuel: nat :: ExecCode(FunctionMap(p.functions), th, p.main, [], fuel).Timeout? ==>
              EmittedReaches(r.code, th, fuel, ExecCode(FunctionMap(p.functions), th, p.main, [], fuel).trace)
  {
    hide WfProgram, Ranked, Halts, ProgramEnds, SameBehaviour, Complete, SelfContained, Reachable, EmittedHalts,
      EmittedReaches, ExecCode, CompiledMachine, OnlyCallsChange, AllDefined;
    var flow := Compile(p, rank);
    FinishedBlocks(flow.blocks);
    SelfContainedComplete(flow.blocks, flow.entries);
    GraphHasEntry(flow.blocks, flow.entries);
    VisitOwned(flow.blocks);
    r := ConvertBlocks(flow.blocks, ENTRY);
    ghost var g := Compiled(p).blocks;
    forall th: Thread, t: Trace ensures EmittedHalts(r.code, th, t) <==> ProgramEnds(p, th, t) {
      CompilationPreservesMeaning(p, th, t);
      MachineIs(p, th);
      HaltsEmitted(g, flow.blocks, flow.entries, r.code, th, t);
    }
    forall th: Thread, fuel: nat | ExecCode(FunctionMap(p.functions), th, p.main, [], fuel).Timeout?
      ensures EmittedReaches(r.code, th, fuel, ExecCode(FunctionMap(p.functions), th, p.main, [], fuel).trace)
    {
      var k := FollowProgram(p, th, fuel);
      MachineIs(p, th);
      ReachesEmitted(g, flow.blocks, flow.entries, r.code, th, k, fuel);
    }
  }

  lemma MachineIs(p: Program, th: Thread)
    ensures CompiledMachine(p, th) == Machine(Compiled(p).blocks, Compiled(p).entries, th)
  {
  }

  lemma FinishedBlocks(g: Graph)
    requires AllDefined(g) && forall b: BlockId :: VOID < b < |g| ==> !g[b].target.Invoke?
    ensures forall b: BlockId :: VOID < b < |g| ==> Emittable(g[b].target)
  {
  }

  /** From the graph the builder made, through inlining and emission: `h` has no calls, and the
      emitted code runs as it does. */
  ghost predicate EmittedFrom(g: Graph, h: Graph, entries: map<FuncId, BlockId>, code: Graph, th: Thread) {
    && SameBehaviour(g, h, entries) && SelfContained(h, entries)
    && (forall b: BlockId :: VOID < b < |h| ==> !h[b].target.Invoke?)
    && forall k: nat :: SameRun(h, ENTRY, code, th, k)
  }

  lemma RunEmitted(g: Graph, h: Graph, entries: map<FuncId, BlockId>, code: Graph, th: Thread, k: nat)
    requires EmittedFrom(g, h, entries, code, th)
    ensures var c := Run(Machine(g, entries, th), k, START);
            var d := Run(Machine(code, map[], th), k, Running(0, 0, [], []));
            c.trace == d.trace && (c.Halted? <==> d.Halted?)
  {
    hide Run;
    assert SameAfter(g, h, entries, th, k) && SameRun(h, ENTRY, code, th, k);
    RunNoEntries(h, entries, th, k, START);
  }

  lemma HaltsEmitted(g: Graph, h: Graph, entries: map<FuncId, BlockId>, code: Graph, th: Thread, t: Trace)
    requires EmittedFrom(g, h, entries, code, th)
    ensures Halts(Machine(g, entries, th), t) <==> EmittedHalts(code, th, t)
  {
    hide Run, EmittedFrom;
    if Halts(Machine(g, entries, th), t) {
      var k: nat :| Run(Machine(g, entries, th), k, START) == Halted(t);
      RunEmitted(g, h, entries, code, th, k);
    }
    if EmittedHalts(code, th, t) {
      var k: nat :| Run(Machine(code, map[], th), k, Running(0, 0, [], [])) == Halted(t);
      RunEmitted(g, h, entries, code, th, k);
    }
  }

  lemma ReachesEmitted(g: Graph, h: Graph, entries: map<FuncId, BlockId>, code: Graph, th: Thread, k: nat, fuel: nat)
    requires EmittedFrom(g, h, entries, code, th) && k >= fuel && Run(Machine(g, entries, th), k, START).Running?
    ensures EmittedReaches(code, th, fuel, Run(Machine(g, entries, th), k, START).trace)
  {
    RunEmitted(g, h, entries, code, th, k);
    assert EmittedAt(code, th, k, Run(Machine(g, entries, th), k, START).trace);
  }

  lemma GraphHasEntry(g: Graph, entries: map<FuncId, BlockId>)
    requires SelfContained(g, entries)
    ensures ENTRY < |g|
  {
  }

  /** The void block is never reached. */
  lemma VisitOwned(g: Graph)
    requires Complete(g) && ENTRY < |g|
    ensures forall b: BlockId :: Reachable(g, ENTRY, b) ==> VOID < b < |g|
  {
    forall b: BlockId | Reachable(g, ENTRY, b) ensures VOID < b < |g| {
      var path :| IsPath(g, path) && path[0] == ENTRY && path[|path| - 1] == b;
      PathOwned(g, path);
    }
  }

  lemma {:induction false} PathOwned(g: Graph, path: seq<BlockId>)
    requires Complete(g) && IsPath(g, path) && VOID < path[0]
    ensures VOID < path[|path| - 1] < |g|
    decreases |path|
  {
    if |path| > 1 {
      var init := path[..|path| - 1];
      PathOwned(g, init);
      assert path[|path| - 1] in g[path[|path| - 2]].target.Successors();
    }
  }

  /** Without calls the entry table plays no part in a run. */
  lemma {:induction false} RunNoEntries(g: Graph, entries: map<FuncId, BlockId>, th: Thread, k: nat, c: Config)
    requires SelfContained(g, entries) && forall b: BlockId :: VOID < b < |g| ==> !g[b].target.Invoke?
    requires c.Running? ==> VOID < c.block < |g| && c.stack == []
    ensures Run(Machine(g, entries, th), k, c) == Run(Machine(g, map[], th), k, c)
    decreases k
  {
    if k > 0 {
      RunNoEntries(g, entries, th, k - 1, Step(Machine(g, entries, th), c));
    }
  }
}
