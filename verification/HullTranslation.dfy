/** Hull shaders all the way, labelled functions and calls included: reading, inlining and emission.
    Emission fails if and only if functions follow the phases; otherwise the emitted code runs as
    the phases do. */
module HullTranslation {
  import opened Basics
  import opened Shader
  import opened FlowGraph
  import opened Structured
  import opened BuilderSpec
  import opened Layout
  import opened BuilderLayout
  import opened Sealing
  import opened Simulation
  import opened Programs
  import opened BuilderAccepts
  import opened InlineSpec
  import opened ControlFlow
  import opened Hull
  import opened Traversal
  import opened Inlining
  import opened Compilation

  // ------------------------------------------------------------------- the stream

  /** A phase neither pops an empty stack nor writes through a pointer to a replaced terminator. */
  lemma AcceptPhase(s: State, ph: Phase, p: Pos)
    requires HullAt(s, p) && WfBody(ph)
    ensures Accepted(s, ph.Stream())
  {
    hide Process, Fits, WfCode, Flatten, AfterCode, Accepted, StepPhase, Keeps;
    var env, i := Env(VOID, VOID, p.next + 1), BodyAt(p);
    OpenPhase(s, ph, p);
    AcceptOpening(s, ph, p);
    var s1 := Process(s, ph.Opening());
    AcceptCode(s1, ph.body, TOP, i, env);
    AcceptedAppend(s, ph.Opening(), Flatten(ph.body));
    ProcessAppend(s, ph.Opening(), Flatten(ph.body));
    BuildCode(s1, ph.body, TOP, i, env, []);
    var s2 := Process(s1, Flatten(ph.body));
    GuardStands(s, p, s1, s2, ph.Count());
    AcceptedOne(s2, OpRet);
    AcceptedAppend(s, ph.Opening() + Flatten(ph.body), [OpRet]);
  }

  lemma GuardStands(s: State, p: Pos, s1: State, s2: State, count: nat)
    requires HullAt(s, p) && InPhase(s, p, s1, count) && Keeps(s1.blocks, s1.current, VOID, s2.blocks)
    requires SameStacks(s1, s2)
    ensures Accepts(s2, OpRet)
  {
  }

  lemma AcceptOpening(s: State, ph: Phase, p: Pos)
    requires HullAt(s, p)
    ensures Accepted(s, ph.Opening())
  {
    hide Accepted, StepOp;
    var op, count := ph.Opening()[0], if ph.ControlPoints? then ph.count else 1;
    AcceptedOne(s, op);
    EnterPhase(s, p, count);
    if ph.ForkJoin? && ph.declared.Some? {
      PhaseIsEntered(s);
      assert HoldsPhase(StepOp(s, op));
      ProcessOne(s, op);
      AcceptedOne(StepOp(s, op), OpInstanceCount(ph.declared.value));
      AcceptedAppend(s, [op], [OpInstanceCount(ph.declared.value)]);
      assert ph.Opening() == [op] + [OpInstanceCount(ph.declared.value)];
    } else {
      assert ph.Opening() == [op];
    }
  }

  lemma PhaseIsEntered(s: State)
    ensures StepOp(s, OpForkJoinPhase) == StepPhase(s, 1)
  {
  }

  lemma {:induction false} AcceptPhases(s: State, phases: seq<Phase>, p: Pos)
    requires HullAt(s, p) && forall ph <- phases :: WfBody(ph)
    ensures Accepted(s, FlattenPhases(phases))
    decreases |phases|
  {
    hide Process, WfBody, HullAt, Keeps, HasPhase;
    if phases == [] {
      AcceptedNone(s);
    } else {
      AcceptPhase(s, phases[0], p);
      BuildPhase(s, phases[0], p, []);
      AcceptPhases(Process(s, phases[0].Stream()), phases[1..], AfterPhase(phases[0], p));
      AcceptedAppend(s, phases[0].Stream(), FlattenPhases(phases[1..]));
    }
  }

  // ------------------------------------------------- phases and the functions they call

  /** Phases and functions are well-nested and call functions of the shader only. */
  ghost predicate WfHullWith(h: HullShader, fns: seq<Function>) {
    var ids := FunctionMap(fns).Keys;
    && (forall ph <- h.phases :: WfBody(ph) && Calls(ph.body) <= ids)
    && (forall f <- fns :: WfCode(f.body, TOP, true) && Calls(f.body) <= ids)
  }

  lemma WithoutFunctions(h: HullShader)
    requires WfHullWith(h, [])
    ensures WfHull(h) && HullWithFunctions(h, []) == CompiledHull(h)
  {
    assert HullStream(h, []) == FlattenPhases(h.phases);
  }

  function HullStream(h: HullShader, fns: seq<Function>): seq<Opcode> {
    FlattenPhases(h.phases) + FlattenFunctions(fns)
  }

  function HullWithFunctions(h: HullShader, fns: seq<Function>): State {
    Finish(Process(INITIAL, HullStream(h, fns)), h.copyOut)
  }

  /** The stream never makes the builder pop an empty stack or write through a stale pointer. */
  lemma HullAccepted(h: HullShader, fns: seq<Function>)
    requires WfHullWith(h, fns)
    ensures Accepted(INITIAL, HullStream(h, fns))
  {
    hide Process, Accepted, WfBody, WfCode, FlattenFunctions, Keeps, HasPhases;
    assert HullAt(INITIAL, MAIN_POS);
    AcceptPhases(INITIAL, h.phases, MAIN_POS);
    BuildPhases(INITIAL, h.phases, MAIN_POS, []);
    var s := Process(INITIAL, FlattenPhases(h.phases));
    AcceptFunctions(s.(current := RETURN), fns);
    if fns == [] {
      AcceptedNone(s);
      NoFunctions();
    } else {
      FirstIsLabel(fns);
      LabelForgets(s, FlattenFunctions(fns));
    }
    AcceptedAppend(INITIAL, FlattenPhases(h.phases), FlattenFunctions(fns));
  }

  /** The block the phases end in: finished by the epilogue, or abandoned by the first label. */
  ghost predicate LastBlock(g: Graph, r: Pos, copyOut: Option<nat>, fns: seq<Function>) {
    && r.cur < |g|
    && g[r.cur].target ==
         if fns != [] then Undefined
         else match copyOut case None => Goto(RETURN) case Some(count) => WriteOutput(count, RETURN)
  }

  /** The finished graph holds the phases, then the functions, and all call sites are known. */
  lemma HullShapeWith(h: HullShader, fns: seq<Function>)
    requires WfHullWith(h, fns)
    ensures var s, r := HullWithFunctions(h, fns), AfterPhases(h.phases, MAIN_POS);
            && HasPhases(s.blocks, h.phases, MAIN_POS) && LastBlock(s.blocks, r, h.copyOut, fns)
            && RETURN < |s.blocks| && s.blocks[RETURN] == Block([], Exit) && Holds(s, fns)
            && HasBodies(s.blocks, fns, r.next) && |s.blocks| == FunctionsEnd(fns, r.next)
            && s.callSites == PhaseSites(h.phases, MAIN_POS) + FunctionSites(fns, r.next)
  {
    hide Process, FlattenFunctions, WfBody, WfCode, HasPhases, HasBodies, HasFunction, Calls, PhaseSites, AfterPhases,
      FunctionSites, FunctionsEnd;
    var s, r := Process(INITIAL, FlattenPhases(h.phases)), AfterPhases(h.phases, MAIN_POS);
    var g := HullWithFunctions(h, fns).blocks;
    ProcessAppend(INITIAL, FlattenPhases(h.phases), FlattenFunctions(fns));
    assert HullAt(INITIAL, MAIN_POS);
    BuildPhases(INITIAL, h.phases, MAIN_POS, g);
    NoPhases(h.phases);
    FunctionsBehind(s, r, h.copyOut, fns);
  }

  /** The functions behind the phases, which end in an unfinished block. */
  lemma FunctionsBehind(s: State, r: Pos, copyOut: Option<nat>, fns: seq<Function>)
    requires HullAt(s, r) && s.entries == map[] && s.blocks[r.cur].target == Undefined
    requires forall f <- fns :: WfCode(f.body, TOP, true) && Calls(f.body) <= FunctionMap(fns).Keys
    ensures var after := Finish(Process(s, FlattenFunctions(fns)), copyOut);
            && Keeps(s.blocks, r.cur, VOID, after.blocks) && after.blocks[r.cur].code == s.blocks[r.cur].code
            && LastBlock(after.blocks, r, copyOut, fns) && after.blocks[RETURN] == Block([], Exit) && Holds(after, fns)
            && HasBodies(after.blocks, fns, r.next) && |after.blocks| == FunctionsEnd(fns, r.next)
            && after.callSites == s.callSites + FunctionSites(fns, r.next)
  {
    hide Process, FlattenFunctions, WfCode, HasBodies, HasFunction, Calls, FunctionSites, FunctionsEnd;
    var g := Finish(Process(s, FlattenFunctions(fns)), copyOut).blocks;
    if fns == [] {
      NoFunctions();
      ProcessNone(s);
      NoBodies(g, r.next);
    } else {
      var s1 := s.(current := RETURN);
      FirstIsLabel(fns);
      LabelForgets(s, FlattenFunctions(fns));
      BuildFunctions(s1, fns);
      KeepsSelf(g, VOID);
      LinkFunctions(s1, fns, g);
    }
  }

  lemma NoPhases(phases: seq<Phase>)
    ensures phases == [] ==>
      FlattenPhases(phases) == [] && AfterPhases(phases, MAIN_POS) == MAIN_POS && Process(INITIAL, []) == INITIAL
  {
  }

  lemma NoBodies(g: Graph, next: nat)
    ensures HasBodies(g, [], next) && FunctionsEnd([], next) == next && FunctionSites([], next) == []
  {
  }

  // ------------------------------------------------------------------- closure

  lemma {:induction false} SealPhases(g: Graph, phases: seq<Phase>, p: Pos, ids: set<FuncId>)
    requires HasPhases(g, phases, p) && p.cur != VOID && p.cur < p.next <= |g| && p.next > RETURN
    requires forall ph <- phases :: WfBody(ph) && Calls(ph.body) <= ids
    ensures var r, sites := AfterPhases(phases, p), PhaseSites(phases, p);
            && r.cur < r.next && p.next <= r.next <= |g| && Distinct(sites)
            && (forall b <- sites :: p.next <= b < r.next && b != r.cur)
            && forall b: BlockId :: Owns(p, r, b) && b != r.cur ==> SealedBlock(g, b, ENTRY, r.next, ids, sites)
    decreases |phases|
  {
    hide HasPhase, WfBody, Sites, Calls;
    if phases != [] {
      var ph, q, rest := phases[0], AfterPhase(phases[0], p), phases[1..];
      AfterPhaseMoves(ph, p);
      PhaseRegion(g, ph, p);
      PhaseGuard(g, ph, p);
      SealPhases(g, rest, q, ids);
      PhasesMove(rest, q);
      JoinPhase(g, ph, p, q, AfterPhases(rest, q), ids, Sites(ph.body, BodyAt(p)), PhaseSites(rest, q));
    }
  }

  /** A phase, sealed, followed by sealed phases. */
  lemma JoinPhase(g: Graph, ph: Phase, p: Pos, q: Pos, r: Pos, ids: set<FuncId>, s1: seq<BlockId>, s2: seq<BlockId>)
    requires RETURN < p.next && p.cur < p.next && q.cur == p.next + 1 < q.next <= r.next && r.cur < r.next <= |g|
    requires r.cur == q.cur || r.cur >= q.next
    requires p.cur != VOID && p.cur < |g| && g[p.cur].target == InstanceBarrier(ph.Count(), p.next, p.next + 1)
    requires Calls(ph.body) <= ids && Distinct(s1) && Distinct(s2)
    requires forall b <- s1 :: p.next <= b < q.next && b != q.cur
    requires forall b <- s2 :: q.next <= b < r.next && b != r.cur
    requires forall b: BlockId :: p.next <= b < q.next && b != q.cur ==>
      SealedBlock(g, b, p.next, q.next, Calls(ph.body), s1)
    requires forall b: BlockId :: Owns(q, r, b) && b != r.cur ==> SealedBlock(g, b, ENTRY, r.next, ids, s2)
    ensures Distinct(s1 + s2) && forall b <- s1 + s2 :: p.next <= b < r.next && b != r.cur
    ensures forall b: BlockId :: Owns(p, r, b) && b != r.cur ==> SealedBlock(g, b, ENTRY, r.next, ids, s1 + s2)
  {
    forall i, j | 0 <= i < |s1| && 0 <= j < |s2| ensures s1[i] != s2[j] {
      assert s1[i] in s1 && s2[j] in s2;
    }
    forall b: BlockId | Owns(p, r, b) && b != r.cur ensures SealedBlock(g, b, ENTRY, r.next, ids, s1 + s2) {
      if p.next <= b < q.next && b != q.cur {
        assert SealedBlock(g, b, p.next, q.next, Calls(ph.body), s1);
      } else if b != p.cur {
        assert Owns(q, r, b);
      }
    }
  }

  lemma PhaseGuard(g: Graph, ph: Phase, p: Pos)
    requires HasPhase(g, ph, p) && p.cur != VOID
    ensures p.cur < |g| && g[p.cur].target == InstanceBarrier(ph.Count(), p.next, p.next + 1)
  {
  }

  /** The block left open: the last phase's sync block, if functions follow. */
  ghost function OpenBlock(h: HullShader, fns: seq<Function>): set<BlockId> {
    if fns == [] then {} else {AfterPhases(h.phases, MAIN_POS).cur}
  }

  /** Every hull shader compiles to a graph in which every block has a terminator that leads to owned
      blocks only, but for the open one, and the blocks that end in a call are those recorded. */
  lemma HullCloses(h: HullShader, fns: seq<Function>)
    requires WfHullWith(h, fns)
    ensures var s := HullWithFunctions(h, fns);
            ClosedBut(s.blocks, OpenBlock(h, fns), FunctionMap(fns).Keys, s.callSites) && Holds(s, fns)
  {
    hide HasPhases, AfterPhases, WfBody, PhaseSites, HasBodies, FunctionSites, FunctionsEnd, Calls;
    HullShapeWith(h, fns);
    var s, r, ids := HullWithFunctions(h, fns), AfterPhases(h.phases, MAIN_POS), FunctionMap(fns).Keys;
    var s1, s2 := PhaseSites(h.phases, MAIN_POS), FunctionSites(fns, r.next);
    SealPhases(s.blocks, h.phases, MAIN_POS, ids);
    SealFunctions(s.blocks, fns, r.next, ids);
    LastMoves(h.phases, MAIN_POS);
    JoinFunctions(s.blocks, r, h.copyOut, fns, ids, s1, s2);
  }

  /** The phases and the functions, sealed, make up the graph. */
  lemma JoinFunctions(g: Graph, r: Pos, copyOut: Option<nat>, fns: seq<Function>, ids: set<FuncId>,
                      s1: seq<BlockId>, s2: seq<BlockId>)
    requires RETURN < r.next <= |g| && r.cur < r.next && r.cur != VOID && r.cur != RETURN
    requires g[RETURN] == Block([], Exit) && LastBlock(g, r, copyOut, fns) && Distinct(s1) && Distinct(s2)
    requires forall b <- s1 :: RETURN < b < r.next && b != r.cur
    requires forall b <- s2 :: r.next <= b < |g|
    requires forall b: BlockId :: Owns(MAIN_POS, r, b) && b != r.cur ==> SealedBlock(g, b, ENTRY, r.next, ids, s1)
    requires Region(g, r.next, |g|, ids, s2)
    ensures ClosedBut(g, if fns == [] then {} else {r.cur}, ids, s1 + s2)
  {
    var open := if fns == [] then {} else {r.cur};
    forall b: BlockId | ENTRY <= b < |g| && b !in open ensures SealedBlock(g, b, ENTRY, |g|, ids, s1 + s2) {
      if b >= r.next {
        assert SealedBlock(g, b, r.next, |g|, ids, s2);
      } else if b != RETURN && b != r.cur {
        assert Owns(MAIN_POS, r, b);
      }
    }
    forall i, j | 0 <= i < |s1| && 0 <= j < |s2| ensures s1[i] != s2[j] {
      assert s1[i] in s1 && s2[j] in s2;
    }
  }

  lemma {:induction false} LastMoves(phases: seq<Phase>, p: Pos)
    requires p.cur != VOID && p.cur != RETURN && p.next > RETURN
    ensures var r := AfterPhases(phases, p); r.cur != VOID && r.cur != RETURN
    decreases |phases|
  {
    if phases != [] {
      AfterPhaseMoves(phases[0], p);
      LastMoves(phases[1..], AfterPhase(phases[0], p));
    }
  }

  // ------------------------------------------------------------- reaching the last block

  /** Every phase's guard leads to its sync block. */
  ghost predicate Guarded(g: Graph, phases: seq<Phase>, p: Pos) {
    phases != [] ==>
      && p.cur < |g| && p.next + 1 < |g| && g[p.cur].target == InstanceBarrier(phases[0].Count(), p.next, p.next + 1)
      && Guarded(g, phases[1..], AfterPhase(phases[0], p))
  }

  lemma {:induction false} PhasesGuarded(g: Graph, h: Graph, phases: seq<Phase>, p: Pos)
    requires HasPhases(g, phases, p) && OnlyCallsChange(g, h) && p.cur != VOID && p.next > VOID
    ensures Guarded(h, phases, p)
    decreases |phases|
  {
    hide HasPhase;
    if phases != [] {
      PhaseGuard(g, phases[0], p);
      SyncInGraph(g, phases[0], p);
      AfterPhaseMoves(phases[0], p);
      PhasesGuarded(g, h, phases[1..], AfterPhase(phases[0], p));
    }
  }

  lemma SyncInGraph(g: Graph, ph: Phase, p: Pos)
    requires HasPhase(g, ph, p)
    ensures p.next + 1 < |g|
  {
  }

  lemma {:induction false} LastReachable(g: Graph, phases: seq<Phase>, p: Pos)
    requires Guarded(g, phases, p) && Reachable(g, ENTRY, p.cur)
    ensures Reachable(g, ENTRY, AfterPhases(phases, p).cur)
    decreases |phases|
  {
    hide Reachable;
    if phases != [] {
      AfterPhaseMoves(phases[0], p);
      ReachableStep(g, ENTRY, p.cur, p.next + 1);
      LastReachable(g, phases[1..], AfterPhase(phases[0], p));
    }
  }

  /** Functions behind the phases leave a reachable block without a terminator, and no inlining
      mends it. */
  lemma FunctionsOpenHull(h: HullShader, fns: seq<Function>, g: Graph)
    requires WfHullWith(h, fns) && OnlyCallsChange(HullWithFunctions(h, fns).blocks, g)
    ensures ENTRY < |g|
    ensures fns != [] <==> exists b: BlockId :: VOID < b < |g| && Reachable(g, ENTRY, b) && g[b].target == Undefined
  {
    hide HasPhases, AfterPhases, Reachable, WfHullWith, Holds, HasBodies, FunctionsEnd, FunctionSites, PhaseSites;
    HullShapeWith(h, fns);
    HullCloses(h, fns);
    LastMoves(h.phases, MAIN_POS);
    var g0, last := HullWithFunctions(h, fns).blocks, AfterPhases(h.phases, MAIN_POS).cur;
    PhasesGuarded(g0, g, h.phases, MAIN_POS);
    ReachableEntry(g, ENTRY);
    LastReachable(g, h.phases, MAIN_POS);
    if fns == [] {
      NothingOpen(g0, FunctionMap(fns).Keys, HullWithFunctions(h, fns).callSites);
    } else {
      assert g[last] == g0[last];
    }
  }

  lemma NothingOpen(g: Graph, ids: set<FuncId>, sites: seq<BlockId>)
    requires ClosedBut(g, {}, ids, sites)
    ensures AllDefined(g)
  {
    forall b: BlockId | VOID < b < |g| ensures g[b].target != Undefined {
      assert SealedBlock(g, b, ENTRY, |g|, ids, sites);
    }
  }

  // ---------------------------------------------------------------- translation

  /** The whole way for hull shaders: emission fails if and only if labelled functions follow the
      phases, whether they are called or not; otherwise every thread halts in the emitted code with
      a trace exactly if the phases, run in order with their barriers, end with it, and a thread
      whose phases never end is followed to every trace they reach. */
  method TranslateHull(h: HullShader, fns: seq<Function>, ghost rank: Ranks) returns (r: Emission)
    requires WfHullWith(h, fns) && Ranked(fns, rank)
    ensures r.Emitted? <==> fns == []
    ensures fns != [] ==> r.UnexpectedUndefined?
    ensures r.Emitted? ==> forall th: Thread, t: Trace :: EmittedHalts(r.code, th, t) <==> HullEnds(h, th, t)
    ensures r.Emitted? && h.copyOut.Some? ==>
      forall th: Thread, t: Trace :: EmittedHalts(r.code, th, t) ==> CopiesOut(t, th.id, h.copyOut.value)
    ensures r.Emitted? ==> forall th: Thread, fuel: nat :: ExecPhases(h.phases, th, [], fuel).Timeout? ==>
              EmittedReaches(r.code, th, fuel, ExecPhases(h.phases, th, [], fuel).trace)
  {
    hide WfHullWith, Halts, HullEnds, Complete, Reachable, Accepted, Process, Round, Holds, ClosedBut, SameBehaviour,
      SelfContained, EmittedReaches, EmittedHalts, Ranked, ExecPhases, OnlyCallsChange, AllDefined, CopiesOut;
    HullAccepted(h, fns);
    var flow := new Builder();
    assert INITIAL.blocks == flow.blocks;
    flow.ReadStream(HullStream(h, fns), h.copyOut);
    ghost var s := flow.View();
    assert s == HullWithFunctions(h, fns);
    HullCloses(h, fns);
    EntryInside(h, fns);
    RoundReady(s, fns, rank, OpenBlock(h, fns));
    InlineCalls(flow, rank, Bodies(s, FunctionMap(fns)));
    FunctionsOpenHull(h, fns, flow.blocks);
    SelfContainedComplete(flow.blocks, flow.entries);
    VisitOwned(flow.blocks);
    r := ConvertBlocks(flow.blocks, ENTRY);
    if r.Emitted? {
      WithoutFunctions(h);
      NoEntries(s);
      HullEmitted(h, s, flow.blocks, r.code);
    }
  }

  lemma EntryInside(h: HullShader, fns: seq<Function>)
    requires WfHullWith(h, fns)
    ensures ENTRY < |HullWithFunctions(h, fns).blocks|
  {
    HullShapeWith(h, fns);
  }

  lemma NoEntries(s: State)
    requires Holds(s, [])
    ensures s.entries == map[]
  {
  }

  /** What emission makes of phases without functions. */
  lemma HullEmitted(h: HullShader, s: State, g: Graph, code: Graph)
    requires WfHull(h) && s == CompiledHull(h) && s.entries == map[]
    requires forall th: Thread :: EmittedFrom(s.blocks, g, map[], code, th)
    ensures forall th: Thread, t: Trace :: EmittedHalts(code, th, t) <==> HullEnds(h, th, t)
    ensures h.copyOut.Some? ==>
      forall th: Thread, t: Trace :: EmittedHalts(code, th, t) ==> CopiesOut(t, th.id, h.copyOut.value)
    ensures forall th: Thread, fuel: nat :: ExecPhases(h.phases, th, [], fuel).Timeout? ==>
              EmittedReaches(code, th, fuel, ExecPhases(h.phases, th, [], fuel).trace)
  {
    hide WfHull, Halts, HullEnds, EmittedHalts, EmittedReaches, EmittedFrom, Run, ExecPhases, CompiledHull, CopiesOut;
    forall th: Thread, t: Trace ensures EmittedHalts(code, th, t) <==> HullEnds(h, th, t) {
      HullPreservesMeaning(h, th, t);
      HaltsEmitted(s.blocks, g, map[], code, th, t);
    }
    if h.copyOut.Some? {
      forall th: Thread, t: Trace | HullEnds(h, th, t) ensures CopiesOut(t, th.id, h.copyOut.value) {
        HullCopiesOut(h, th, t);
      }
    }
    forall th: Thread, fuel: nat | ExecPhases(h.phases, th, [], fuel).Timeout?
      ensures EmittedReaches(code, th, fuel, ExecPhases(h.phases, th, [], fuel).trace)
    {
      var k := FollowHull(h, th, fuel);
      ReachesEmitted(s.blocks, g, map[], code, th, k, fuel);
    }
  }
}
