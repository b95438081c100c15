/** Hull shaders: phases, each entered by some of a patch's threads and ended by a barrier that
    all of them must pass. */
module Hull {
  import opened Basics
  import opened Shader
  import opened FlowGraph
  import opened Structured
  import opened BuilderSpec
  import opened Layout
  import opened BuilderLayout
  import opened Sealing
  import opened Simulation
  import opened Programs

  /** A phase: the control point phase runs once per output control point, a fork or join phase
      once, or as often as its instance count declaration says. */
  datatype Phase =
    | ControlPoints(count: nat, body: Code)
    | ForkJoin(declared: Option<nat>, body: Code)
  {
    function Count(): nat {
      if ControlPoints? then count else if declared.Some? then declared.value else 1
    }

    function Stream(): seq<Opcode> {
      Opening() + Flatten(body) + [OpRet]
    }

    function Opening(): seq<Opcode> {
      if ControlPoints? then [OpControlPointPhase(count)]
      else if declared.Some? then [OpForkJoinPhase, OpInstanceCount(declared.value)]
      else [OpForkJoinPhase]
    }
  }

  /** `copyOut`: the control points still have to be copied to the payload at the end. */
  datatype HullShader = HullShader(phases: seq<Phase>, copyOut: Option<nat>)

  ghost predicate WfBody(ph: Phase) { WfCode(ph.body, TOP, true) }

  ghost predicate WfPhase(ph: Phase) { WfBody(ph) && Calls(ph.body) == {} }

  ghost predicate WfHull(h: HullShader) { forall ph <- h.phases :: WfPhase(ph) }

  function FlattenPhases(phases: seq<Phase>): seq<Opcode> {
    if phases == [] then [] else phases[0].Stream() + FlattenPhases(phases[1..])
  }

  function CompiledHull(h: HullShader): State {
    Finish(Process(INITIAL, FlattenPhases(h.phases)), h.copyOut)
  }

  // ---------------------------------------------------------------------- meaning

  /** What one phase does to a thread, without its barrier. */
  ghost function ExecPhase(ph: Phase, th: Thread, t: Trace, fuel: nat): Outcome {
    if th.id < ph.Count() then ExecCode(map[], th, ph.body, t, fuel) else Normal(t)
  }

  /** Each phase, then its barrier, whatever way the phase ended. */
  ghost function ExecPhases(phases: seq<Phase>, th: Thread, t: Trace, fuel: nat): Outcome {
    if phases == [] then Normal(t)
    else
      var o := ExecPhase(phases[0], th, t, fuel);
      if o.Timeout? then o else ExecPhases(phases[1..], th, o.trace + [Sync], fuel)
  }

  /** Behind the phases the first `count` threads copy their control point; then all meet at a barrier. */
  function Epilogue(h: HullShader, th: Thread): Trace {
    match h.copyOut
    case None => []
    case Some(count) => if th.id < count then [CopyControlPoint, Sync] else [Sync]
  }

  ghost predicate HullCompletes(h: HullShader, th: Thread, fuel: nat, t: Trace) {
    var o := ExecPhases(h.phases, th, [], fuel);
    o.Normal? && t == o.trace + Epilogue(h, th)
  }

  ghost predicate HullEnds(h: HullShader, th: Thread, t: Trace) {
    exists fuel: nat :: HullCompletes(h, th, fuel, t)
  }

  // --------------------------------------------------------------------- building

  function BodyAt(p: Pos): Pos { Pos(p.next, 0, p.next + 2) }

  /** After a phase the builder stands behind the barrier in the phase's sync block. */
  function AfterPhase(ph: Phase, p: Pos): Pos {
    Pos(p.next + 1, 1, AfterCode(ph.body, BodyAt(p)).next)
  }

  function AfterPhases(phases: seq<Phase>, p: Pos): Pos {
    if phases == [] then p else AfterPhases(phases[1..], AfterPhase(phases[0], p))
  }

  ghost predicate HasPhase(g: Graph, ph: Phase, p: Pos) {
    && Ends(g, p, InstanceBarrier(ph.Count(), p.next, p.next + 1))
    && HasCode(g, ph.body, BodyAt(p), Env(VOID, VOID, p.next + 1))
    && Ends(g, AfterCode(ph.body, BodyAt(p)), Goto(p.next + 1))
    && p.next + 1 < |g| && |g[p.next + 1].code| == 1 && g[p.next + 1].code[0] == Sync
  }

  ghost predicate HasPhases(g: Graph, phases: seq<Phase>, p: Pos) {
    phases != [] ==> HasPhase(g, phases[0], p) && HasPhases(g, phases[1..], AfterPhase(phases[0], p))
  }

  /** Between two phases. */
  ghost predicate HullAt(s: State, p: Pos) {
    && At(s, p) && p.cur != VOID && p.cur != RETURN
    && AtTopLevel(s) && s.instances == [] && s.funcReturn == None && s.blocks[RETURN] == Block([], Exit)
  }

  /** The builder inside a phase that `count` threads enter. */
  ghost predicate InPhase(s: State, p: Pos, s1: State, count: nat) {
    var n := p.next;
    && At(s1, BodyAt(p)) && Keeps(s.blocks, s.current, VOID, s1.blocks)
    && Ends(s1.blocks, p, InstanceBarrier(count, n, n + 1))
    && s1.blocks[n + 1] == Block([Sync], Undefined)
    && s1 == s.(blocks := s1.blocks, current := n, instances := [p.cur])
  }

  lemma EnterPhase(s: State, p: Pos, count: nat)
    requires HullAt(s, p)
    ensures InPhase(s, p, StepPhase(s, count), count)
  {
    assert [s.current] + s.instances == [p.cur];
  }

  lemma DeclareCount(s: State, p: Pos, s1: State, count: nat, declared: nat)
    requires HullAt(s, p) && InPhase(s, p, s1, count)
    ensures InPhase(s, p, StepOp(s1, OpInstanceCount(declared)), declared)
  {
  }

  lemma PhaseFits(s: State, p: Pos, s1: State, count: nat)
    requires HullAt(s, p) && InPhase(s, p, s1, count)
    ensures Fits(s1, TOP, Env(VOID, VOID, p.next + 1))
  {
  }

  lemma OpenPhase(s: State, ph: Phase, p: Pos)
    requires HullAt(s, p)
    ensures InPhase(s, p, Process(s, ph.Opening()), ph.Count())
    ensures Fits(Process(s, ph.Opening()), TOP, Env(VOID, VOID, p.next + 1))
  {
    hide Process, InPhase, HullAt, Fits, StepPhase;
    var op, count := ph.Opening()[0], if ph.ControlPoints? then ph.count else 1;
    ProcessOne(s, op);
    EnterPhase(s, p, count);
    assert StepOp(s, op) == StepPhase(s, count);
    var s0 := StepOp(s, op);
    if ph.ForkJoin? && ph.declared.Some? {
      assert ph.Opening() == [OpForkJoinPhase] + [OpInstanceCount(ph.declared.value)];
      ProcessAppend(s, [OpForkJoinPhase], [OpInstanceCount(ph.declared.value)]);
      ProcessOne(s0, OpInstanceCount(ph.declared.value));
      DeclareCount(s, p, s0, count, ph.declared.value);
    }
    PhaseFits(s, p, Process(s, ph.Opening()), ph.Count());
  }

  lemma ClosePhase(s: State, q: Pos, n: BlockId, sync: BlockId)
    requires At(s, q) && q.cur != VOID && AtTopLevel(s) && s.funcReturn == None && s.instances == [n]
    requires n < q.next && s.blocks[n].target.InstanceBarrier? && s.blocks[n].target.sync == sync && n != q.cur
    requires VOID < sync < q.next && sync != q.cur && s.blocks[sync] == Block([Sync], Undefined)
    ensures var s1 := StepOp(s, OpRet);
            && At(s1, Pos(sync, 1, q.next)) && Keeps(s.blocks, s.current, VOID, s1.blocks)
            && Ends(s1.blocks, q, Goto(sync))
            && s1 == s.(blocks := s1.blocks, current := sync, instances := [])
  {
  }

  /** A phase up to its top-level ret. */
  lemma PhaseToRet(s: State, ph: Phase, p: Pos, g: Graph) returns (s1: State, s2: State)
    requires HullAt(s, p) && WfBody(ph)
    ensures var n, i, q := p.next, BodyAt(p), AfterCode(ph.body, BodyAt(p));
            && Process(s, ph.Stream()) == StepOp(s2, OpRet)
            && InPhase(s, p, s1, ph.Count()) && At(s2, q) && q.cur != VOID && SameStacks(s1, s2)
            && Keeps(s1.blocks, s1.current, VOID, s2.blocks) && s2.callSites == s.callSites + Sites(ph.body, i)
            && s2.blocks[n + 1] == Block([Sync], Undefined) && s2.blocks[RETURN] == Block([], Exit)
            && Ends(s2.blocks, p, InstanceBarrier(ph.Count(), n, n + 1))
            && (Settled(s2.blocks, g, i, q) ==> HasCode(g, ph.body, i, Env(VOID, VOID, n + 1)))
  {
    hide Process, StepOp, Fits, WfCode, Flatten, AfterCode, Sites, HasCode, Keeps, Settled;
    var n, i, body := p.next, BodyAt(p), ph.body;
    var env, t := Env(VOID, VOID, n + 1), InstanceBarrier(ph.Count(), n, n + 1);
    OpenPhase(s, ph, p);
    ProcessAppend(s, ph.Opening() + Flatten(body), [OpRet]);
    ProcessAppend(s, ph.Opening(), Flatten(body));
    s1 := Process(s, ph.Opening());
    BuildCode(s1, body, TOP, i, env, g);
    TopStaysLive(body, i);
    s2 := Process(s1, Flatten(body));
    ProcessOne(s2, OpRet);
    BlockStill(s.blocks, s.current, VOID, s1.blocks, RETURN);
    BlockStill(s1.blocks, s1.current, VOID, s2.blocks, RETURN);
    BlockStill(s1.blocks, s1.current, VOID, s2.blocks, n + 1);
    BlockStill(s1.blocks, s1.current, VOID, s2.blocks, p.cur);
    EndsStill(s1.blocks, s1.current, VOID, s2.blocks, p, t);
  }

  /** One phase: its opening, its body and its top-level ret. */
  lemma BuildPhase(s: State, ph: Phase, p: Pos, g: Graph)
    requires HullAt(s, p) && WfBody(ph)
    ensures var after, r := Process(s, ph.Stream()), AfterPhase(ph, p);
            && HullAt(after, r) && Keeps(s.blocks, s.current, VOID, after.blocks) && SameStacks(s, after)
            && after.callSites == s.callSites + Sites(ph.body, BodyAt(p))
            && after.blocks[r.cur] == Block([Sync], Undefined)
            && (Keeps(after.blocks, r.cur, VOID, g) && r.cur < |g| && g[r.cur].code == [Sync] ==> HasPhase(g, ph, p))
  {
    hide Process, StepOp, WfCode, AfterCode, HasCode, Keeps, Settled, Sites;
    var n, i, t := p.next, BodyAt(p), InstanceBarrier(ph.Count(), p.next, p.next + 1);
    var s1, s2 := PhaseToRet(s, ph, p, g);
    var q, r := AfterCode(ph.body, i), AfterPhase(ph, p);
    GuardKept(s1, s2, p, t);
    ClosePhase(s2, q, p.cur, n + 1);
    var s3 := StepOp(s2, OpRet);
    BlockStill(s2.blocks, s2.current, VOID, s3.blocks, n + 1);
    BlockStill(s2.blocks, s2.current, VOID, s3.blocks, RETURN);
    EndsStill(s2.blocks, s2.current, VOID, s3.blocks, p, t);
    KeepsTrans(s.blocks, s.current, s1.blocks, s1.current, s2.blocks);
    KeepsTrans(s.blocks, s.current, s2.blocks, s2.current, s3.blocks);
    if Keeps(s3.blocks, r.cur, VOID, g) && r.cur < |g| && g[r.cur].code == [Sync] {
      PhaseSettled(s2.blocks, s3.blocks, g, p, i, q, n + 1);
      EndsStill(s3.blocks, r.cur, VOID, g, p, t);
    }
  }

  lemma GuardKept(s1: State, s2: State, p: Pos, t: Target)
    requires Ends(s2.blocks, p, t) && p.cur != VOID && SameStacks(s1, s2)
    ensures p.cur < |s2.blocks| && s2.blocks[p.cur].target == t && s2.instances == s1.instances
    ensures s2.funcReturn == s1.funcReturn
  {
  }

  lemma PhaseSettled(mid: Graph, after: Graph, g: Graph, p: Pos, i: Pos, q: Pos, sync: BlockId)
    requires |mid| == q.next == |after| && Keeps(mid, q.cur, VOID, after) && Keeps(after, sync, VOID, g)
    requires i.cur < q.next
    requires i == BodyAt(p) && sync == p.next + 1 && Follows(i, q) && Ends(after, q, Goto(sync)) && q.cur < q.next
    ensures Settled(mid, g, i, q) && Ends(g, q, Goto(sync))
  {
  }

  /** The blocks of all phases that end in a call, in order. */
  function PhaseSites(phases: seq<Phase>, p: Pos): seq<BlockId> {
    if phases == [] then []
    else Sites(phases[0].body, BodyAt(p)) + PhaseSites(phases[1..], AfterPhase(phases[0], p))
  }

  lemma {:induction false} BuildPhases(s: State, phases: seq<Phase>, p: Pos, g: Graph)
    requires HullAt(s, p) && forall ph <- phases :: WfBody(ph)
    ensures var after, r := Process(s, FlattenPhases(phases)), AfterPhases(phases, p);
            && HullAt(after, r) && Keeps(s.blocks, s.current, VOID, after.blocks) && SameStacks(s, after)
            && after.callSites == s.callSites + PhaseSites(phases, p)
            && (phases != [] ==> after.blocks[r.cur] == Block([Sync], Undefined))
            && (Keeps(after.blocks, r.cur, VOID, g) && r.cur < |g| && g[r.cur].code == after.blocks[r.cur].code ==>
                HasPhases(g, phases, p))
    decreases |phases|
  {
    hide Process, HasPhase, AfterPhase, WfBody, Keeps, Sites, HullAt, SameStacks;
    HullStands(s, p);
    if phases == [] {
      ProcessNone(s);
      KeepsSelf(s.blocks, s.current);
      SameSelf(s);
    } else {
      var ph, rest := phases[0], phases[1..];
      ProcessAppend(s, ph.Stream(), FlattenPhases(rest));
      var mid, q := Process(s, ph.Stream()), AfterPhase(ph, p);
      BuildPhase(s, ph, p, g);
      AfterPhaseMoves(ph, p);
      HullStands(mid, q);
      BuildPhases(mid, rest, q, g);
      var after, r := Process(mid, FlattenPhases(rest)), AfterPhases(rest, q);
      HullStands(after, r);
      SameTwice(s, mid, after);
      KeepsTrans(s.blocks, s.current, mid.blocks, mid.current, after.blocks);
      PhasesMove(rest, q);
      ProcessNone(mid);
      if Keeps(after.blocks, r.cur, VOID, g) && r.cur < |g| && g[r.cur].code == after.blocks[r.cur].code {
        FirstPhaseHas(mid, q, after, r, rest, g);
      }
    }
  }

  lemma HullStands(s: State, p: Pos)
    requires HullAt(s, p)
    ensures s.current == p.cur < p.next == |s.blocks| && p.cur != VOID
  {
  }

  lemma SameSelf(s: State)
    ensures SameStacks(s, s) && s.callSites + [] == s.callSites
  {
  }

  lemma SameTwice(s: State, mid: State, after: State)
    requires SameStacks(s, mid) && SameStacks(mid, after)
    ensures SameStacks(s, after)
  {
  }

  /** The first phase's sync block is as the phase left it, but for its terminator. */
  lemma FirstPhaseHas(mid: State, q: Pos, after: State, r: Pos, rest: seq<Phase>, g: Graph)
    requires HullAt(mid, q) && mid.blocks[q.cur] == Block([Sync], Undefined) && q.pc == 1
    requires Keeps(mid.blocks, q.cur, VOID, after.blocks) && Keeps(after.blocks, r.cur, VOID, g)
    requires r.cur == q.cur || r.cur >= |mid.blocks|
    requires HasPhases(g, rest, q) && (rest == [] ==> after == mid && r == q)
    requires r.cur < |after.blocks| && r.cur < |g| && g[r.cur].code == after.blocks[r.cur].code
    ensures Keeps(mid.blocks, q.cur, VOID, g) && q.cur < |g| && g[q.cur].code == [Sync]
  {
    hide HasPhase, Keeps;
    PhaseGrows(mid.blocks, q, after.blocks, r, g);
    KeepsSize(mid.blocks, q.cur, g);
    if rest != [] {
      HasPhaseSync(g, rest[0], q);
      SyncStays(mid.blocks, g, q.cur);
    }
  }

  lemma KeepsSize(g: Graph, cur: BlockId, h: Graph)
    requires Keeps(g, cur, VOID, h)
    ensures |g| <= |h|
  {
  }

  lemma {:induction false} PhasesMove(phases: seq<Phase>, p: Pos)
    ensures phases == [] || AfterPhases(phases, p).cur >= p.next
    decreases |phases|
  {
    if phases != [] {
      PhasesMove(phases[1..], AfterPhase(phases[0], p));
    }
  }

  lemma SyncStays(mid: Graph, g: Graph, b: BlockId)
    requires Keeps(mid, b, VOID, g) && VOID < b < |mid| && mid[b].code == [Sync] && |g[b].code| == 1
    ensures g[b].code == [Sync]
  {
  }

  lemma AfterPhaseMoves(ph: Phase, p: Pos)
    ensures AfterPhase(ph, p).cur == p.next + 1 < AfterPhase(ph, p).next && AfterPhase(ph, p).pc == 1
  {
  }

  lemma HasPhaseSync(g: Graph, ph: Phase, p: Pos)
    requires HasPhase(g, ph, p) && p.pc == 1 && p.cur != VOID
    ensures p.cur < |g| && |g[p.cur].code| == 1
  {
  }

  /** The sync block of an earlier phase only gets its terminator later on. */
  lemma PhaseGrows(mid: Graph, q: Pos, after: Graph, r: Pos, g: Graph)
    requires Keeps(mid, q.cur, VOID, after) && Keeps(after, r.cur, VOID, g) && q.cur < |mid| && q.cur != VOID
    requires r.cur == q.cur || r.cur >= |mid|
    ensures Keeps(mid, q.cur, VOID, g)
  {
    KeepsTrans(mid, q.cur, after, r.cur, g);
  }

  // ------------------------------------------------------------------- simulation

  function HullMachine(h: HullShader, th: Thread): Machine {
    Machine(CompiledHull(h).blocks, map[], th)
  }

  /** Through one phase, up to behind its barrier. */
  lemma SimPhase(m: Machine, ph: Phase, p: Pos, t: Trace, fuel: nat) returns (k: nat)
    requires HasPhase(m.graph, ph, p) && WfPhase(ph) && p.cur != VOID && p.next > VOID
    ensures var o, c := ExecPhase(ph, m.thread, t, fuel), Run(m, k, Running(p.cur, p.pc, [], t));
            if o.Timeout? then k >= fuel && c.Running? && c.trace == o.trace
            else c == Running(p.next + 1, 1, [], o.trace + [Sync])
  {
    hide Run, ExecCode, HasCode, AfterCode, Calls, WfCode;
    var n, start := p.next, Running(p.cur, p.pc, [], t);
    if m.thread.id < ph.Count() {
      var o := ExecCode(map[], m.thread, ph.body, t, fuel);
      CodeStaysInScope(map[], m.thread, ph.body, t, fuel, TOP, true);
      k := SimBody(m, map[], ph.body, BodyAt(p), Env(VOID, VOID, n + 1), n + 1, start, [], t, fuel);
    } else {
      k := 1;
      RunOne(m, start);
    }
    if !ExecPhase(ph, m.thread, t, fuel).Timeout? {
      RunLast(m, k, start);
      k := k + 1;
    }
  }

  lemma {:induction false} SimPhases(m: Machine, phases: seq<Phase>, p: Pos, t: Trace, fuel: nat) returns (k: nat)
    requires HasPhases(m.graph, phases, p) && p.cur != VOID && p.next > VOID && forall ph <- phases :: WfPhase(ph)
    ensures var o, r := ExecPhases(phases, m.thread, t, fuel), AfterPhases(phases, p);
            var c := Run(m, k, Running(p.cur, p.pc, [], t));
            if o.Timeout? then k >= fuel && c.Running? && c.trace == o.trace
            else o.Normal? && c == Running(r.cur, r.pc, [], o.trace) && r.cur != VOID
    decreases |phases|
  {
    hide Run, ExecPhase, HasPhase, WfPhase;
    var start := Running(p.cur, p.pc, [], t);
    if phases == [] {
      k := 0;
      RunZero(m, start);
    } else {
      k := SimPhase(m, phases[0], p, t, fuel);
      var o := ExecPhase(phases[0], m.thread, t, fuel);
      if !o.Timeout? {
        AfterPhaseMoves(phases[0], p);
        var j := SimPhases(m, phases[1..], AfterPhase(phases[0], p), o.trace + [Sync], fuel);
        RunAdd(m, k, j, start);
        k := k + j;
      }
    }
  }

  /** The finished hull graph: the phases, then the epilogue, then the return block. */
  lemma HullShape(h: HullShader)
    requires WfHull(h)
    ensures var g, r := CompiledHull(h).blocks, AfterPhases(h.phases, MAIN_POS);
            && HasPhases(g, h.phases, MAIN_POS) && r.cur != VOID && |g| == r.next
            && Ends(g, r, match h.copyOut case None => Goto(RETURN) case Some(count) => WriteOutput(count, RETURN))
            && RETURN < |g| && g[RETURN] == Block([], Exit)
  {
    hide Process, HasPhase, AfterPhase, WfBody, Calls;
    var g := CompiledHull(h).blocks;
    assert HullAt(INITIAL, MAIN_POS);
    BuildPhases(INITIAL, h.phases, MAIN_POS, g);
  }

  /** A run of the phases with `fuel`, followed in the graph to the end of the shader. */
  lemma FollowHull(h: HullShader, th: Thread, fuel: nat) returns (k: nat)
    requires WfHull(h)
    ensures var o, c := ExecPhases(h.phases, th, [], fuel), Run(HullMachine(h, th), k, START);
            if o.Timeout? then k >= fuel && c.Running? && c.trace == o.trace
            else o.Normal? && c == Halted(o.trace + Epilogue(h, th))
  {
    hide Run, ExecPhases, HasPhases, AfterPhases, WfPhase;
    HullShape(h);
    var m := HullMachine(h, th);
    k := SimPhases(m, h.phases, MAIN_POS, [], fuel);
    var o := ExecPhases(h.phases, th, [], fuel);
    if !o.Timeout? {
      RunLast(m, k, START);
      assert o.trace + [] == o.trace;
      assert Run(m, k + 1, START) == Running(RETURN, 0, [], o.trace + Epilogue(h, th));
      RunLast(m, k + 1, START);
      k := k + 2;
    }
  }

  /** A hull shader's graph halts with a trace exactly if its phases, run one after the other,
      end with it. */
  lemma HullPreservesMeaning(h: HullShader, th: Thread, t: Trace)
    requires WfHull(h)
    ensures Halts(HullMachine(h, th), t) <==> HullEnds(h, th, t)
  {
    hide Run, ExecPhases, WfHull;
    var m := HullMachine(h, th);
    if HullEnds(h, th, t) {
      var fuel: nat :| HullCompletes(h, th, fuel, t);
      var k := FollowHull(h, th, fuel);
    }
    if Halts(m, t) {
      var k: nat :| Run(m, k, START) == Halted(t);
      var j := FollowHull(h, th, k + 1);
      var last := if j > k then j else k;
      HaltsOnce(m, k, last, START, t);
      var o := ExecPhases(h.phases, th, [], k + 1);
      if !o.Timeout? {
        HaltsOnce(m, j, last, START, o.trace + Epilogue(h, th));
        assert HullCompletes(h, th, k + 1, t);
      }
    }
  }

  lemma {:induction false} PhasesEndInSync(phases: seq<Phase>, th: Thread, t: Trace, fuel: nat)
    requires ExecPhases(phases, th, t, fuel).Normal?
    ensures var u := ExecPhases(phases, th, t, fuel).trace;
            if phases == [] then u == t else u != [] && u[|u| - 1] == Sync
    decreases |phases|
  {
    hide ExecPhase;
    if phases != [] {
      var o := ExecPhase(phases[0], th, t, fuel);
      PhasesEndInSync(phases[1..], th, o.trace + [Sync], fuel);
    }
  }

  /** How a run ends that copies `count` control points out: with a barrier, whatever the thread's id,
      and right before it the copy exactly if the thread has a control point. */
  ghost predicate CopiesOut(t: Trace, id: nat, count: nat) {
    && t != [] && t[|t| - 1] == Sync
    && (|t| >= 2 && t[|t| - 2] == CopyControlPoint <==> id < count)
  }

  lemma HullCopiesOut(h: HullShader, th: Thread, t: Trace)
    requires h.copyOut.Some? && HullEnds(h, th, t)
    ensures CopiesOut(t, th.id, h.copyOut.value)
  {
    hide ExecPhases;
    var fuel: nat :| HullCompletes(h, th, fuel, t);
    var u := ExecPhases(h.phases, th, [], fuel).trace;
    PhasesEndInSync(h.phases, th, [], fuel);
    assert t == u + Epilogue(h, th);
  }

  // --------------------------------------------------------------------- closure

  /** A phase's body is closed: its blocks, `n + 1` being the sync block, lead to each other or to
      the sync block, make no calls and end no phase but by going there. */
  ghost predicate ClosedBody(g: Graph, n: BlockId, hi: BlockId) {
    && n + 1 < hi <= |g|
    && forall b: BlockId :: n <= b < hi && b != n + 1 ==>
         SealedBlock(g, b, n, hi, {}, []) && Structural(g[b].target)
  }

  /** The blocks of a phase's body are closed, and its calls known. */
  lemma PhaseRegion(g: Graph, ph: Phase, p: Pos)
    requires HasPhase(g, ph, p) && WfBody(ph) && p.next > VOID
    ensures var n, hi, i := p.next, AfterPhase(ph, p).next, BodyAt(p);
            && n + 1 < hi <= |g| && Distinct(Sites(ph.body, i))
            && (forall b <- Sites(ph.body, i) :: n <= b < hi && b != n + 1)
            && forall b: BlockId :: n <= b < hi && b != n + 1 ==>
                 SealedBlock(g, b, n, hi, Calls(ph.body), Sites(ph.body, i)) && Structural(g[b].target)
  {
    hide HasCode, AfterCode, Sites, WfCode, Calls;
    var i, body, n := BodyAt(p), ph.body, p.next;
    var q := AfterCode(body, i);
    SealCode(g, body, TOP, i, Env(VOID, VOID, n + 1), n);
    TopStaysLive(body, i);
    assert forall b <- Sites(body, i) :: Owns(i, q, b) && b != q.cur;
    forall b: BlockId | n <= b < q.next && b != n + 1
      ensures SealedBlock(g, b, n, q.next, Calls(body), Sites(body, i)) && Structural(g[b].target)
    {
      if b != q.cur {
        assert Owns(i, q, b);
      }
    }
    if q.next > n + 2 {
      assert SealedBlock(g, q.next - 1, n, q.next, Calls(body), Sites(body, i));
    }
  }

  lemma PhaseBody(g: Graph, ph: Phase, p: Pos)
    requires HasPhase(g, ph, p) && WfPhase(ph) && p.next > VOID
    ensures ClosedBody(g, p.next, AfterPhase(ph, p).next)
  {
    hide HasPhase, Sites, Calls, WfBody;
    var n, hi := p.next, AfterPhase(ph, p).next;
    PhaseRegion(g, ph, p);
    forall b: BlockId | n <= b < hi && b != n + 1 ensures SealedBlock(g, b, n, hi, {}, []) && Structural(g[b].target) {
      assert SealedBlock(g, b, n, hi, Calls(ph.body), Sites(ph.body, BodyAt(p)));
    }
  }

  // --------------------------------------------------------------------- barriers

  /** The sync blocks of the phases, in order. */
  function SyncBlocks(phases: seq<Phase>, p: Pos): seq<BlockId> {
    if phases == [] then [] else [AfterPhase(phases[0], p).cur] + SyncBlocks(phases[1..], AfterPhase(phases[0], p))
  }

  lemma {:induction false} SyncsAhead(phases: seq<Phase>, p: Pos)
    ensures forall b <- SyncBlocks(phases, p) :: b >= p.next
    decreases |phases|
  {
    if phases != [] {
      SyncsAhead(phases[1..], AfterPhase(phases[0], p));
    }
  }

  /** A barrier that a thread passes: a phase's, or the one behind the final copy. */
  datatype Barrier = AtSync(block: BlockId) | AfterCopy

  /** What the next step executes. */
  ghost function Executes(m: Machine, c: Config): Trace {
    var t := Step(m, c).trace;
    if |c.trace| <= |t| then t[|c.trace|..] else []
  }

  /** The barrier passed by the next step, if it executes one: the first instruction of a sync block,
      or the one behind the copy of the control points. */
  ghost function Passes(m: Machine, c: Config, syncs: seq<BlockId>): seq<Barrier> {
    if c.Halted? || c.block >= |m.graph| || Sync !in Executes(m, c) then []
    else if c.pc < |m.graph[c.block].code| then (if c.pc == 0 && c.block in syncs then [AtSync(c.block)] else [])
    else if m.graph[c.block].target.WriteOutput? then [AfterCopy]
    else []
  }

  /** The barriers passed in `k` steps, in order. */
  ghost function Passed(m: Machine, k: nat, c: Config, syncs: seq<BlockId>): seq<Barrier> {
    if k == 0 then [] else Passes(m, c, syncs) + Passed(m, k - 1, Step(m, c), syncs)
  }

  lemma {:induction false} PassedAdd(m: Machine, j: nat, k: nat, c: Config, syncs: seq<BlockId>)
    ensures Passed(m, j + k, c, syncs) == Passed(m, j, c, syncs) + Passed(m, k, Run(m, j, c), syncs)
    decreases j
  {
    hide Step, Passes;
    if j > 0 {
      PassedAdd(m, j - 1, k, Step(m, c), syncs);
    }
  }

  lemma {:induction false} PassedHalted(m: Machine, k: nat, t: Trace, syncs: seq<BlockId>)
    ensures Passed(m, k, Halted(t), syncs) == []
  {
    if k > 0 {
      PassedHalted(m, k - 1, t, syncs);
    }
  }

  /** A thread in a phase's body that reaches the end of the shader comes to the phase's sync block
      first, and passes no barrier on the way. */
  lemma {:induction false} LeavesBody(m: Machine, n: BlockId, hi: BlockId, syncs: seq<BlockId>, k: nat, c: Config)
    returns (j: nat, t: Trace)
    requires ClosedBody(m.graph, n, hi) && forall b <- syncs :: b < n || b == n + 1 || b >= hi
    requires c.Running? && c.stack == [] && n <= c.block < hi && c.block != n + 1 && Run(m, k, c).Halted?
    ensures j < k && Run(m, j, c) == Running(n + 1, 0, [], t) && Passed(m, j, c, syncs) == []
    decreases k
  {
    hide Step, Passes, Run, Passed, ClosedBody;
    var d := Step(m, c);
    BodyStep(m, n, hi, syncs, c);
    RunZero(m, c);
    RunFirst(m, k - 1, c);
    if d.block == n + 1 {
      j, t := 0, d.trace;
      RunZero(m, d);
      PassedZero(m, d, syncs);
    } else {
      j, t := LeavesBody(m, n, hi, syncs, k - 1, d);
    }
    RunFirst(m, j, c);
    PassedFirst(m, j, c, syncs);
    j := j + 1;
  }

  lemma PassedFirst(m: Machine, k: nat, c: Config, syncs: seq<BlockId>)
    ensures Passed(m, k + 1, c, syncs) == Passes(m, c, syncs) + Passed(m, k, Step(m, c), syncs)
  {
  }

  lemma BodyStep(m: Machine, n: BlockId, hi: BlockId, syncs: seq<BlockId>, c: Config)
    requires ClosedBody(m.graph, n, hi) && forall b <- syncs :: b < n || b == n + 1 || b >= hi
    requires c.Running? && c.stack == [] && n <= c.block < hi && c.block != n + 1
    ensures var d := Step(m, c);
            && d.Running? && d.stack == [] && n <= d.block < hi && (d.block == n + 1 ==> d.pc == 0)
                 && Passes(m, c, syncs) == []
  {
    assert SealedBlock(m.graph, c.block, n, hi, {}, []);
  }

  /** One phase: whoever enters it and whoever does not, its barrier is the next one passed. */
  lemma PassesPhase(m: Machine, ph: Phase, p: Pos, syncs: seq<BlockId>, k: nat, t: Trace) returns (j: nat, u: Trace)
    requires HasPhase(m.graph, ph, p) && WfPhase(ph) && p.cur != VOID && p.next > VOID
    requires forall b <- syncs :: b < p.next || b == p.next + 1 || b >= AfterPhase(ph, p).next
    requires p.next + 1 in syncs && Run(m, k, Running(p.cur, p.pc, [], t)).Halted?
    ensures j <= k && Run(m, j, Running(p.cur, p.pc, [], t)) == Running(p.next + 1, 1, [], u)
    ensures Passed(m, j, Running(p.cur, p.pc, [], t), syncs) == [AtSync(p.next + 1)]
  {
    hide HasPhase, Run, Passed, Passes, Step, WfPhase, ClosedBody, AfterPhase;
    var n, c := p.next, Running(p.cur, p.pc, [], t);
    PhaseBody(m.graph, ph, p);
    AfterPhaseMoves(ph, p);
    EntersPhase(m, ph, p, syncs, t);
    RunZero(m, c);
    RunFirst(m, k - 1, c);
    var d := Step(m, c);
    j, u := 0, t;
    if m.thread.id < ph.Count() {
      j, u := LeavesBody(m, n, AfterPhase(ph, p).next, syncs, k - 1, d);
    } else {
      RunZero(m, d);
      PassedZero(m, d, syncs);
    }
    ThenSync(m, c, n + 1, j, u, syncs);
    j, u := j + 2, u + [Sync];
  }

  /** The guard executes nothing and leads into the body or to the sync block. */
  lemma EntersPhase(m: Machine, ph: Phase, p: Pos, syncs: seq<BlockId>, t: Trace)
    requires HasPhase(m.graph, ph, p) && p.cur != VOID
    ensures var c := Running(p.cur, p.pc, [], t);
            && Passes(m, c, syncs) == []
            && Step(m, c) == Running(if m.thread.id < ph.Count() then p.next else p.next + 1, 0, [], t)
    ensures p.next + 1 < |m.graph| && |m.graph[p.next + 1].code| == 1 && m.graph[p.next + 1].code[0] == Sync
  {
    hide HasCode, AfterCode;
  }

  /** A way to a sync block without a barrier, and through it. */
  lemma ThenSync(m: Machine, c: Config, sync: BlockId, j: nat, t: Trace, syncs: seq<BlockId>)
    requires Passes(m, c, syncs) == [] && Run(m, j, Step(m, c)) == Running(sync, 0, [], t)
    requires Passed(m, j, Step(m, c), syncs) == []
    requires sync < |m.graph| && |m.graph[sync].code| == 1 && m.graph[sync].code[0] == Sync && sync in syncs
    ensures Run(m, j + 2, c) == Running(sync, 1, [], t + [Sync]) && Passed(m, j + 2, c, syncs) == [AtSync(sync)]
  {
    hide Run, Passed, Passes, Step;
    var s := Running(sync, 0, [], t);
    PassesSync(m, sync, t, syncs);
    RunFirst(m, j, c);
    PassedFirst(m, j, c, syncs);
    RunLast(m, j + 1, c);
    PassedAdd(m, j + 1, 1, c, syncs);
    Passed1(m, s, syncs);
  }

  lemma Passed1(m: Machine, c: Config, syncs: seq<BlockId>)
    ensures Passed(m, 1, c, syncs) == Passes(m, c, syncs)
  {
    assert Passed(m, 0, Step(m, c), syncs) == [];
  }

  lemma PassesSync(m: Machine, sync: BlockId, t: Trace, syncs: seq<BlockId>)
    requires sync < |m.graph| && |m.graph[sync].code| == 1 && m.graph[sync].code[0] == Sync && sync in syncs
    ensures Passes(m, Running(sync, 0, [], t), syncs) == [AtSync(sync)]
    ensures Step(m, Running(sync, 0, [], t)) == Running(sync, 1, [], t + [Sync])
  {
  }

  function AtSyncs(blocks: seq<BlockId>): seq<Barrier> {
    seq(|blocks|, i requires 0 <= i < |blocks| => AtSync(blocks[i]))
  }

  lemma {:induction false} PassesPhases(m: Machine, phases: seq<Phase>, p: Pos, syncs: seq<BlockId>, k: nat, t: Trace)
    returns (j: nat, u: Trace)
    requires HasPhases(m.graph, phases, p) && p.cur != VOID && p.next > VOID && forall ph <- phases :: WfPhase(ph)
    requires forall b <- SyncBlocks(phases, p) :: b in syncs
    requires forall b <- syncs :: b < p.next || b in SyncBlocks(phases, p)
    requires Run(m, k, Running(p.cur, p.pc, [], t)).Halted?
    ensures var r := AfterPhases(phases, p);
            j <= k && r.cur != VOID && Run(m, j, Running(p.cur, p.pc, [], t)) == Running(r.cur, r.pc, [], u)
    ensures Passed(m, j, Running(p.cur, p.pc, [], t), syncs) == AtSyncs(SyncBlocks(phases, p))
    decreases |phases|
  {
    hide Run, Passed, HasPhase, WfPhase, Step, Passes;
    var c := Running(p.cur, p.pc, [], t);
    if phases == [] {
      j, u := 0, t;
      RunZero(m, c);
      assert Passed(m, 0, c, syncs) == [] by { PassedZero(m, c, syncs); }
    } else {
      var q, rest := AfterPhase(phases[0], p), phases[1..];
      AfterPhaseMoves(phases[0], p);
      SyncsAhead(rest, q);
      var first := [p.next + 1];
      assert SyncBlocks(phases, p) == first + SyncBlocks(rest, q) && SyncBlocks(phases, p)[0] == p.next + 1;
      assert forall b <- first + SyncBlocks(rest, q) :: b == p.next + 1 || b in SyncBlocks(rest, q);
      j, u := PassesPhase(m, phases[0], p, syncs, k, t);
      RunAdd(m, j, k - j, c);
      var i, v := PassesPhases(m, rest, q, syncs, k - j, u);
      RunAdd(m, j, i, c);
      PassedAdd(m, j, i, c, syncs);
      j, u := j + i, v;
      assert AtSyncs(SyncBlocks(phases, p)) == [AtSync(p.next + 1)] + AtSyncs(SyncBlocks(rest, q));
    }
  }

  lemma PassedZero(m: Machine, c: Config, syncs: seq<BlockId>)
    ensures Passed(m, 0, c, syncs) == []
  {
  }

  /** Barrier convergence: a thread that reaches the end of the shader has passed every phase's sync
      block exactly once, in phase order, and then the barrier of the copy if there is one. This
      depends on the shader alone, not on the thread's id, its data, its early returns or the
      instance counts. */
  lemma EveryThreadPassesEveryBarrier(h: HullShader, th: Thread, k: nat)
    requires WfHull(h) && Run(HullMachine(h, th), k, START).Halted?
    ensures Passed(HullMachine(h, th), k, START, SyncBlocks(h.phases, MAIN_POS))
         == AtSyncs(SyncBlocks(h.phases, MAIN_POS)) + if h.copyOut.Some? then [AfterCopy] else []
  {
    hide Run, Passed, WfPhase, HasPhases, AfterPhases, SyncBlocks, AtSyncs;
    HullShape(h);
    var m, syncs := HullMachine(h, th), SyncBlocks(h.phases, MAIN_POS);
    var j, t := PassesPhases(m, h.phases, MAIN_POS, syncs, k, []);
    RunAdd(m, j, k - j, START);
    PassedAdd(m, j, k - j, START, syncs);
    PassesEnd(m, AfterPhases(h.phases, MAIN_POS), h.copyOut, syncs, k - j, t);
  }

  lemma LeavesLast(m: Machine, r: Pos, copyOut: Option<nat>, syncs: seq<BlockId>, t: Trace)
    requires r.cur != VOID
    requires Ends(m.graph, r, match copyOut case None => Goto(RETURN) case Some(count) => WriteOutput(count, RETURN))
    ensures var c := Running(r.cur, r.pc, [], t);
            && Step(m, c) == Running(RETURN, 0, [], Step(m, c).trace)
            && Passes(m, c, syncs) == if copyOut.Some? then [AfterCopy] else []
  {
  }

  lemma PassesExit(m: Machine, k: nat, t: Trace, syncs: seq<BlockId>)
    requires RETURN < |m.graph| && m.graph[RETURN] == Block([], Exit)
    ensures Passed(m, k, Running(RETURN, 0, [], t), syncs) == []
  {
    var c := Running(RETURN, 0, [], t);
    assert Step(m, c) == Halted(t) && Passes(m, c, syncs) == [];
    if k > 0 {
      PassedHalted(m, k - 1, t, syncs);
    }
  }

  /** From behind the last phase to the end. */
  lemma PassesEnd(m: Machine, r: Pos, copyOut: Option<nat>, syncs: seq<BlockId>, k: nat, t: Trace)
    requires r.cur != VOID && RETURN < |m.graph| && m.graph[RETURN] == Block([], Exit)
    requires Ends(m.graph, r, match copyOut case None => Goto(RETURN) case Some(count) => WriteOutput(count, RETURN))
    requires Run(m, k, Running(r.cur, r.pc, [], t)).Halted?
    ensures Passed(m, k, Running(r.cur, r.pc, [], t), syncs) == if copyOut.Some? then [AfterCopy] else []
  {
    hide Step, Passes, Ends;
    assert k > 0;
    var c := Running(r.cur, r.pc, [], t);
    LeavesLast(m, r, copyOut, syncs, t);
    PassesExit(m, k - 1, Step(m, c).trace, syncs);
  }
}
