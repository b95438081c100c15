/** Whole shaders: a main body followed by labelled function bodies.  The graph the builder
    produces runs exactly as the structured program does, and is closed. */
module Programs {
  import opened Basics
  import opened Shader
  import opened FlowGraph
  import opened Structured
  import opened BuilderSpec
  import opened Layout
  import opened BuilderLayout
  import opened Sealing
  import opened Simulation

  datatype Function = Function(id: FuncId, body: Code)

  /** `ret`: the main body ends with a top-level ret (it must when functions follow). */
  datatype Program = Program(main: Code, ret: bool, functions: seq<Function>)

  /** A label defined twice means its last definition. */
  function FunctionMap(fns: seq<Function>): Functions {
    if fns == [] then map[] else map[fns[0].id := fns[0].body] + FunctionMap(fns[1..])
  }

  ghost predicate WfProgram(p: Program) {
    var ids := FunctionMap(p.functions).Keys;
    && WfCode(p.main, TOP, true) && Calls(p.main) <= ids
    && (forall f <- p.functions :: WfCode(f.body, TOP, true) && Calls(f.body) <= ids)
    && (p.functions != [] ==> p.ret)
  }

  function FlattenFunctions(fns: seq<Function>): seq<Opcode> {
    if fns == [] then []
    else [OpLabel(fns[0].id)] + Flatten(fns[0].body) + [OpRet] + FlattenFunctions(fns[1..])
  }

  function FlattenMain(p: Program): seq<Opcode> {
    Flatten(p.main) + if p.ret then [OpRet] else []
  }

  function FlattenProgram(p: Program): seq<Opcode> {
    FlattenMain(p) + FlattenFunctions(p.functions)
  }

  /** What the builder has made at the end of the stream. */
  function Compiled(p: Program): State {
    Finish(Process(INITIAL, FlattenProgram(p)), None)
  }

  /** The structured program ends, having executed `t`. */
  ghost predicate ProgramEnds(p: Program, th: Thread, t: Trace) {
    exists fuel: nat :: Completes(p, th, fuel, t)
  }

  ghost predicate Completes(p: Program, th: Thread, fuel: nat, t: Trace) {
    var o := ExecCode(FunctionMap(p.functions), th, p.main, [], fuel);
    o.trace == t && (o.Normal? || o.Returned?)
  }

  // --------------------------------------------------------- building the parts

  /** At the top level nothing is dead: code only stops being live inside a block. */
  lemma {:induction false} TopStaysLive(c: Code, p: Pos)
    requires WfCode(c, TOP, true) && p.cur != VOID && p.next > VOID
    ensures AfterCode(c, p).cur != VOID
    decreases c
  {
    if c.Then? {
      TopStaysLive(c.rest, AfterStmt(c.first, p));
    }
  }

  /** Between bodies: the last one has returned and nothing is open. */
  ghost predicate Between(s: State) {
    s.current == RETURN && AtTopLevel(s) && s.instances == [] && s.funcReturn == None && |s.blocks| > RETURN
  }

  /** Only blocks are added. */
  ghost predicate Grows(g: Graph, h: Graph) { Keeps(g, VOID, VOID, h) }

  lemma GrowsKeeps(g: Graph, h: Graph)
    requires Grows(g, h)
    ensures Keeps(g, RETURN, VOID, h)
  {
  }

  lemma StartFunction(s: State, id: FuncId)
    requires Between(s)
    ensures var n, s1 := |s.blocks|, StepOp(s, OpLabel(id));
            && At(s1, BodyPos(n)) && Fits(s1, TOP, BodyEnv(n)) && Grows(s.blocks, s1.blocks)
            && s1.blocks[n + 1] == Block([], Exit) && s1.funcReturn == Some(n + 1)
            && s1 == s.(blocks := s1.blocks, current := n, funcReturn := Some(n + 1), entries := s.entries[id := n])
  {
  }

  /** A top-level ret: the current block leads to where the body returns to. */
  lemma StopFunction(s: State, q: Pos, n: BlockId)
    requires At(s, q) && q.cur != VOID && s.funcReturn == Some(n) && AtTopLevel(s)
    ensures var s1 := StepOp(s, OpRet);
            && Keeps(s.blocks, s.current, VOID, s1.blocks) && Ends(s1.blocks, q, Goto(n)) && |s1.blocks| == |s.blocks|
            && s1 == s.(blocks := s1.blocks, current := RETURN, funcReturn := None)
  {
  }

  lemma BuildFunction(s: State, f: Function, g: Graph)
    requires Between(s) && WfCode(f.body, TOP, true)
    ensures var n, after := |s.blocks|, Process(s, [OpLabel(f.id)] + Flatten(f.body) + [OpRet]);
            && Between(after) && Grows(s.blocks, after.blocks) && after.entries == s.entries[f.id := n]
            && |after.blocks| == AfterCode(f.body, BodyPos(n)).next
            && after.callSites == s.callSites + Sites(f.body, BodyPos(n))
            && SameStacks(s.(entries := after.entries), after)
            && (Keeps(after.blocks, RETURN, VOID, g) ==> HasFunction(g, f.body, n))
  {
    hide Process, StepOp, Fits, WfCode, Flatten, AfterCode, Sites, HasCode;
    var n := |s.blocks|;
    ProcessBracket(s, OpLabel(f.id), Flatten(f.body), OpRet);
    StartFunction(s, f.id);
    var s1 := StepOp(s, OpLabel(f.id));
    BuildCode(s1, f.body, TOP, BodyPos(n), BodyEnv(n), g);
    var s2, q := Process(s1, Flatten(f.body)), AfterCode(f.body, BodyPos(n));
    TopStaysLive(f.body, BodyPos(n));
    StopFunction(s2, q, n + 1);
    var s3 := StepOp(s2, OpRet);
    KeepsTrans(s1.blocks, s1.current, s2.blocks, s2.current, s3.blocks);
    assert Grows(s.blocks, s3.blocks);
    if Keeps(s3.blocks, RETURN, VOID, g) {
      FunctionSettled(s2.blocks, s3.blocks, g, BodyPos(n), q, Goto(n + 1));
    }
  }

  /** A function's body whose last block has been closed is settled in any graph it grows into; of
      older blocks the return block may still grow. */
  lemma FunctionSettled(mid: Graph, after: Graph, g: Graph, i: Pos, q: Pos, t: Target)
    requires |mid| == q.next == |after| && Keeps(mid, q.cur, VOID, after) && Keeps(after, RETURN, VOID, g)
    requires RETURN < i.cur < q.next && RETURN < i.next && Follows(i, q) && Ends(after, q, t) && q.cur < q.next
    ensures Settled(mid, g, i, q) && Ends(g, q, t)
  {
  }

  function FunctionSites(fns: seq<Function>, next: nat): seq<BlockId> {
    if fns == [] then []
    else Sites(fns[0].body, BodyPos(next)) + FunctionSites(fns[1..], AfterCode(fns[0].body, BodyPos(next)).next)
  }

  function FunctionsEnd(fns: seq<Function>, next: nat): nat {
    if fns == [] then next else FunctionsEnd(fns[1..], AfterCode(fns[0].body, BodyPos(next)).next)
  }

  /** The bodies follow one another from block `next` on. */
  ghost predicate HasBodies(g: Graph, fns: seq<Function>, next: nat) {
    fns != [] ==>
      HasFunction(g, fns[0].body, next) && HasBodies(g, fns[1..], AfterCode(fns[0].body, BodyPos(next)).next)
  }

  /** Every listed function is present in `g` at the entry recorded for its label. */
  ghost predicate HasFunctions(g: Graph, fs: Functions, entries: map<FuncId, BlockId>) {
    forall f <- fs :: f in entries && HasFunction(g, fs[f], entries[f])
  }

  /** `after` comes from `s` by adding finished bodies with the call sites `sites`. */
  ghost predicate Adds(s: State, after: State, size: nat, sites: seq<BlockId>) {
    && Between(after) && Grows(s.blocks, after.blocks) && |after.blocks| == size
    && after.callSites == s.callSites + sites
  }

  lemma AddsThen(s: State, mid: State, after: State, n1: nat, s1: seq<BlockId>, n2: nat, s2: seq<BlockId>)
    requires Adds(s, mid, n1, s1) && Adds(mid, after, n2, s2)
    ensures Adds(s, after, n2, s1 + s2)
  {
    KeepsTrans(s.blocks, VOID, mid.blocks, VOID, after.blocks);
  }

  lemma {:induction false} BuildFunctions(s: State, fns: seq<Function>)
    requires Between(s) && forall f <- fns :: WfCode(f.body, TOP, true)
    ensures Adds(s, Process(s, FlattenFunctions(fns)), FunctionsEnd(fns, |s.blocks|), FunctionSites(fns, |s.blocks|))
    decreases |fns|
  {
    hide Process, Flatten, WfCode, AfterCode, Sites, StepOp;
    if fns == [] {
      ProcessNone(s);
    } else {
      var ops := [OpLabel(fns[0].id)] + Flatten(fns[0].body) + [OpRet];
      ProcessAppend(s, ops, FlattenFunctions(fns[1..]));
      BuildFunction(s, fns[0], s.blocks);
      var mid, next := Process(s, ops), AfterCode(fns[0].body, BodyPos(|s.blocks|)).next;
      BuildFunctions(mid, fns[1..]);
      AddsThen(s, mid, Process(mid, FlattenFunctions(fns[1..])), next, Sites(fns[0].body, BodyPos(|s.blocks|)),
               FunctionsEnd(fns[1..], next), FunctionSites(fns[1..], next));
    }
  }

  /** The entry table holds the last definition of every label, laid out in any later graph. */
  lemma {:induction false} LinkFunctions(s: State, fns: seq<Function>, g: Graph)
    requires Between(s) && forall f <- fns :: WfCode(f.body, TOP, true)
    requires Grows(Process(s, FlattenFunctions(fns)).blocks, g)
    ensures var after := Process(s, FlattenFunctions(fns));
            && (forall f :: f !in FunctionMap(fns) && f in s.entries ==>
                f in after.entries && after.entries[f] == s.entries[f])
            && (forall f <- after.entries :: f in s.entries || f in FunctionMap(fns))
            && HasFunctions(g, FunctionMap(fns), after.entries) && HasBodies(g, fns, |s.blocks|)
    decreases |fns|
  {
    hide Process, Flatten, WfCode, AfterCode, Sites, HasFunction, Keeps, StepOp, Between;
    if fns == [] {
      ProcessNone(s);
    } else {
      var ops := [OpLabel(fns[0].id)] + Flatten(fns[0].body) + [OpRet];
      ProcessAppend(s, ops, FlattenFunctions(fns[1..]));
      BuildFunction(s, fns[0], g);
      var mid := Process(s, ops);
      BuildFunctions(mid, fns[1..]);
      LinkFunctions(mid, fns[1..], g);
      KeepsTrans(mid.blocks, VOID, Process(mid, FlattenFunctions(fns[1..])).blocks, VOID, g);
      GrowsKeeps(mid.blocks, g);
    }
  }

  lemma NoFunctions()
    ensures FlattenFunctions([]) == []
  {
  }

  /** A LABEL abandons the current block, whichever it is. */
  lemma LabelForgets(s: State, ops: seq<Opcode>)
    requires ops != [] && ops[0].OpLabel?
    ensures Process(s, ops) == Process(s.(current := RETURN), ops)
    ensures Accepted(s, ops) <==> Accepted(s.(current := RETURN), ops)
  {
    hide StepOp;
    LabelStepForgets(s, ops[0].func);
  }

  lemma FirstIsLabel(fns: seq<Function>)
    requires fns != []
    ensures FlattenFunctions(fns) != [] && FlattenFunctions(fns)[0] == OpLabel(fns[0].id)
  {
  }

  lemma LabelStepForgets(s: State, f: FuncId)
    ensures StepOp(s, OpLabel(f)) == StepOp(s.(current := RETURN), OpLabel(f))
  {
  }

  // --------------------------------------------------------------- the main body

  const MAIN_POS := Pos(ENTRY, 0, 3)
  const MAIN_ENV := Env(VOID, VOID, RETURN)

  /** The main body in a graph: laid out from the entry block and ending at the return block. */
  ghost predicate LeadsToReturn(g: Graph, main: Code) {
    HasCode(g, main, MAIN_POS, MAIN_ENV) && Ends(g, AfterCode(main, MAIN_POS), Goto(RETURN))
  }

  ghost predicate HasMain(g: Graph, main: Code) {
    LeadsToReturn(g, main) && RETURN < |g| && g[RETURN] == Block([], Exit)
  }

  /** The main body, closed either by its own ret or by the end of the stream. */
  lemma BuildMain(p: Program, g: Graph)
    requires WfCode(p.main, TOP, true)
    ensures var after := Finish(Process(INITIAL, FlattenMain(p)), None);
            && Between(after) && SameStacks(INITIAL, after) && after.blocks[RETURN] == Block([], Exit)
            && |after.blocks| == AfterCode(p.main, MAIN_POS).next
            && after.callSites == Sites(p.main, MAIN_POS)
            && (p.ret ==> Process(INITIAL, FlattenMain(p)) == after)
            && (Keeps(after.blocks, RETURN, VOID, g) ==> LeadsToReturn(g, p.main))
  {
    hide Process, WfCode, Flatten, AfterCode, Sites, HasCode;
    BuildCode(INITIAL, p.main, TOP, MAIN_POS, MAIN_ENV, g);
    TopStaysLive(p.main, MAIN_POS);
    var s1, q := Process(INITIAL, Flatten(p.main)), AfterCode(p.main, MAIN_POS);
    assert s1.blocks[RETURN] == Block([], Exit);
    if p.ret {
      ProcessAppend(INITIAL, Flatten(p.main), [OpRet]);
      ProcessOne(s1, OpRet);
    } else {
      assert FlattenMain(p) == Flatten(p.main);
    }
    var s2 := Close(s1, Goto(RETURN)).(current := RETURN);
    assert Finish(Process(INITIAL, FlattenMain(p)), None) == s2;
    if Keeps(s2.blocks, RETURN, VOID, g) {
      MainSettled(s1.blocks, s2.blocks, g, q);
    }
  }

  /** The main body owns every block but the return block. */
  lemma MainSettled(mid: Graph, after: Graph, g: Graph, q: Pos)
    requires |mid| == q.next == |after| && Keeps(mid, q.cur, VOID, after) && Keeps(after, RETURN, VOID, g)
    requires Ends(after, q, Goto(RETURN)) && Follows(MAIN_POS, q) && q.cur < q.next
    ensures Settled(mid, g, MAIN_POS, q) && Ends(g, q, Goto(RETURN))
  {
  }

  /** The finished graph holds the main body and every function, and records every call site. */
  lemma CompiledShape(p: Program)
    requires WfProgram(p)
    ensures var s, n := Compiled(p), AfterCode(p.main, MAIN_POS).next;
            && Between(s) && HasMain(s.blocks, p.main) && HasFunctions(s.blocks, FunctionMap(p.functions), s.entries)
            && s.callSites == Sites(p.main, MAIN_POS) + FunctionSites(p.functions, n)
            && |s.blocks| == FunctionsEnd(p.functions, n) && HasBodies(s.blocks, p.functions, n)
            && (forall f <- s.entries :: f in FunctionMap(p.functions))
  {
    hide Process, WfCode, FlattenMain, AfterCode, Sites, HasCode;
    var s := Compiled(p);
    ProcessAppend(INITIAL, FlattenMain(p), FlattenFunctions(p.functions));
    var s1 := Process(INITIAL, FlattenMain(p));
    BuildMain(p, s.blocks);
    if p.functions == [] {
      ProcessNone(s1);
      KeepsSelf(s.blocks, VOID);
    } else {
      BuildFunctions(s1, p.functions);
      KeepsSelf(s.blocks, VOID);
      LinkFunctions(s1, p.functions, s.blocks);
    }
  }

  // ------------------------------------------------------------------- theorems

  /** The machine that runs the finished graph with a call stack. */
  function CompiledMachine(p: Program, th: Thread): Machine {
    Machine(Compiled(p).blocks, Compiled(p).entries, th)
  }

  /** A main body laid out in a graph whose return block holds `tail`, followed for `fuel`: the run
      halts with the same trace and `tail` behind it if the body ends, and has run at least `fuel`
      steps to the same trace if not. */
  lemma FollowMain(m: Machine, fs: Functions, main: Code, tail: seq<Instr>, fuel: nat) returns (k: nat)
    requires LeadsToReturn(m.graph, main) && RETURN < |m.graph| && m.graph[RETURN] == Block(tail, Exit)
    requires Linked(m, fs) && WfCode(main, TOP, true) && Calls(main) <= fs.Keys
    requires forall f <- fs :: WfCode(fs[f], TOP, true)
    ensures var o := ExecCode(fs, m.thread, main, [], fuel);
            var c := Run(m, k, START);
            if o.Timeout? then k >= fuel && c.Running? && c.trace == o.trace
            else (o.Normal? || o.Returned?) && c == Halted(o.trace + tail)
  {
    hide Run, ExecCode, HasCode, WfCode, AfterCode, Linked;
    k := SimCode(m, fs, main, MAIN_POS, MAIN_ENV, [], [], fuel);
    CodeStaysInScope(fs, m.thread, main, [], fuel, TOP, true);
    var o := ExecCode(fs, m.thread, main, [], fuel);
    TopStaysLive(main, MAIN_POS);
    if o.Normal? {
      RunLast(m, k, START);
      k := k + 1;
    }
    if !o.Timeout? {
      assert Run(m, k, START) == Running(RETURN, 0, [], o.trace);
      RunOut(m, k, o.trace, tail);
      k := k + |tail| + 1;
    }
  }

  /** From the return block to the end. */
  lemma RunOut(m: Machine, k: nat, t: Trace, tail: seq<Instr>)
    requires RETURN < |m.graph| && m.graph[RETURN] == Block(tail, Exit) && Run(m, k, START) == Running(RETURN, 0, [], t)
    ensures Run(m, k + |tail| + 1, START) == Halted(t + tail)
  {
    hide Run;
    RunCode(m, Running(RETURN, 0, [], t), tail);
    RunAdd(m, k, |tail|, START);
    RunLast(m, k + |tail|, START);
  }

  /** A run of the structured program with `fuel`, followed in the graph: it halts with the same
      trace if the program ends, and has run at least `fuel` steps to the same trace if not. */
  lemma FollowProgram(p: Program, th: Thread, fuel: nat) returns (k: nat)
    requires WfProgram(p)
    ensures var o := ExecCode(FunctionMap(p.functions), th, p.main, [], fuel);
            var c := Run(CompiledMachine(p, th), k, START);
            if o.Timeout? then k >= fuel && c.Running? && c.trace == o.trace
            else (o.Normal? || o.Returned?) && c == Halted(o.trace)
  {
    hide Run, ExecCode, HasCode, WfCode, AfterCode, HasFunction, Compiled, HasBodies, LeadsToReturn;
    CompiledShape(p);
    FunctionBodies(p.functions);
    AddsNoTail();
    k := FollowMain(CompiledMachine(p, th), FunctionMap(p.functions), p.main, [], fuel);
  }

  lemma AddsNoTail()
    ensures forall t: Trace :: t + [] == t
  {
  }

  lemma {:induction false} FunctionBodies(fns: seq<Function>)
    ensures forall f <- FunctionMap(fns) ::
              exists i :: 0 <= i < |fns| && fns[i].id == f && fns[i].body == FunctionMap(fns)[f]
  {
    if fns != [] {
      FunctionBodies(fns[1..]);
      forall f | f in FunctionMap(fns)
        ensures exists i :: 0 <= i < |fns| && fns[i].id == f && fns[i].body == FunctionMap(fns)[f] {
        if f in FunctionMap(fns[1..]) {
          var i :| 0 <= i < |fns[1..]| && fns[1..][i].id == f && fns[1..][i].body == FunctionMap(fns[1..])[f];
          assert fns[i + 1].id == f;
        } else {
          assert fns[0].id == f;
        }
      }
    }
  }

  /** The builder preserves meaning: the graph halts with a trace exactly if the structured
      program ends with it. */
  lemma CompilationPreservesMeaning(p: Program, th: Thread, t: Trace)
    requires WfProgram(p)
    ensures Halts(CompiledMachine(p, th), t) <==> ProgramEnds(p, th, t)
  {
    hide Run, ExecCode, WfProgram;
    var m := CompiledMachine(p, th);
    if ProgramEnds(p, th, t) {
      var fuel: nat :| Completes(p, th, fuel, t);
      var k := FollowProgram(p, th, fuel);
    }
    if Halts(m, t) {
      var k: nat :| Run(m, k, START) == Halted(t);
      var j := FollowProgram(p, th, k + 1);
      HaltsOnce(m, k, if j > k then j else k, START, t);
      var o := ExecCode(FunctionMap(p.functions), th, p.main, [], k + 1);
      if !o.Timeout? {
        HaltsOnce(m, j, if j > k then j else k, START, o.trace);
        assert Completes(p, th, k + 1, t);
      }
    }
  }

  /** Programs that never end are followed too: whatever trace the structured program has
      after `fuel` loop turns and calls, the graph reaches it, still running. */
  lemma CompilationPreservesDivergence(p: Program, th: Thread, fuel: nat)
    requires WfProgram(p) && ExecCode(FunctionMap(p.functions), th, p.main, [], fuel).Timeout?
    ensures exists k: nat ::
              k >= fuel && Run(CompiledMachine(p, th), k, START).Running?
              && Run(CompiledMachine(p, th), k, START).trace ==
                   ExecCode(FunctionMap(p.functions), th, p.main, [], fuel).trace
  {
    hide Run, ExecCode, WfProgram;
    var k := FollowProgram(p, th, fuel);
  }

  // -------------------------------------------------------------------- closure

  /** All blocks from `lo` to `hi` are finished and lead nowhere else. */
  ghost predicate Region(g: Graph, lo: BlockId, hi: BlockId, calls: set<FuncId>, sites: seq<BlockId>) {
    forall b: BlockId :: lo <= b < hi ==> SealedBlock(g, b, lo, hi, calls, sites)
  }

  /** A function's blocks form a closed region of the graph. */
  lemma FunctionRegion(g: Graph, body: Code, e: BlockId)
    requires HasFunction(g, body, e)
    ensures Region(g, e, AfterCode(body, BodyPos(e)).next, Calls(body), Sites(body, BodyPos(e)))
    ensures Distinct(Sites(body, BodyPos(e)))
    ensures forall b <- Sites(body, BodyPos(e)) :: e <= b < AfterCode(body, BodyPos(e)).next && b != e + 1
  {
    hide HasCode, AfterCode, Sites, Calls, WfCode;
    var p, q := BodyPos(e), AfterCode(body, BodyPos(e));
    SealCode(g, body, TOP, p, BodyEnv(e), e);
    TopStaysLive(body, p);
    forall b: BlockId | e <= b < q.next ensures SealedBlock(g, b, e, q.next, Calls(body), Sites(body, p)) {
      if b == q.cur || b == e + 1 {
        assert b !in Sites(body, p) by { assert b in Sites(body, p) ==> Owns(p, q, b) && b != q.cur; }
      } else {
        assert Owns(p, q, b);
      }
    }
    assert forall b <- Sites(body, p) :: Owns(p, q, b);
  }

  lemma {:induction false} SealFunctions(g: Graph, fns: seq<Function>, next: nat, ids: set<FuncId>)
    requires HasBodies(g, fns, next) && forall f <- fns :: Calls(f.body) <= ids
    ensures Region(g, next, FunctionsEnd(fns, next), ids, FunctionSites(fns, next))
    ensures Distinct(FunctionSites(fns, next)) && next <= FunctionsEnd(fns, next)
    ensures forall b <- FunctionSites(fns, next) :: next <= b < FunctionsEnd(fns, next)
    decreases |fns|
  {
    hide HasFunction, AfterCode, Sites, Calls, WfCode;
    if fns != [] {
      var body := fns[0].body;
      FunctionRegion(g, body, next);
      var mid := AfterCode(body, BodyPos(next)).next;
      SealFunctions(g, fns[1..], mid, ids);
      JoinRegions(g, next, mid, FunctionsEnd(fns, next), Calls(body), ids, Sites(body, BodyPos(next)),
                  FunctionSites(fns[1..], mid));
    }
  }

  lemma JoinRegions(g: Graph, lo: BlockId, mid: BlockId, hi: BlockId, c1: set<FuncId>, c2: set<FuncId>,
                    s1: seq<BlockId>, s2: seq<BlockId>)
    requires lo <= mid <= hi && Region(g, lo, mid, c1, s1) && Region(g, mid, hi, c2, s2) && c1 <= c2
    requires Distinct(s1) && Distinct(s2) && (forall b <- s1 :: lo <= b < mid) && (forall b <- s2 :: mid <= b < hi)
    ensures Region(g, lo, hi, c2, s1 + s2) && Distinct(s1 + s2) && forall b <- s1 + s2 :: lo <= b < hi
  {
    forall b: BlockId | lo <= b < hi ensures SealedBlock(g, b, lo, hi, c2, s1 + s2) {
      if b < mid { assert SealedBlock(g, b, lo, mid, c1, s1); } else { assert SealedBlock(g, b, mid, hi, c2, s2); }
    }
    forall i, j | 0 <= i < |s1| && 0 <= j < |s2| ensures s1[i] != s2[j] {
      assert s1[i] in s1 && s2[j] in s2;
    }
  }

  lemma SealMain(g: Graph, main: Code)
    requires HasMain(g, main) && WfCode(main, TOP, true)
    ensures Region(g, ENTRY, AfterCode(main, MAIN_POS).next, Calls(main), Sites(main, MAIN_POS))
    ensures Distinct(Sites(main, MAIN_POS))
    ensures forall b <- Sites(main, MAIN_POS) :: ENTRY <= b < AfterCode(main, MAIN_POS).next && b != RETURN
  {
    hide HasCode, AfterCode, Sites, Calls, WfCode;
    var p, q := MAIN_POS, AfterCode(main, MAIN_POS);
    SealCode(g, main, TOP, p, MAIN_ENV, ENTRY);
    TopStaysLive(main, p);
    forall b: BlockId | ENTRY <= b < q.next ensures SealedBlock(g, b, ENTRY, q.next, Calls(main), Sites(main, p)) {
      if b == q.cur || b == RETURN {
        assert b !in Sites(main, p) by { assert b in Sites(main, p) ==> Owns(p, q, b) && b != q.cur; }
      } else {
        assert Owns(p, q, b);
      }
    }
    assert forall b <- Sites(main, p) :: Owns(p, q, b);
  }

  /** A graph whose owned blocks are all finished: each has a terminator leading to owned
      blocks, never to the void block, and the calls are exactly those recorded, once each. */
  ghost predicate Closed(g: Graph, calls: set<FuncId>, sites: seq<BlockId>) {
    Region(g, ENTRY, |g|, calls, sites) && Distinct(sites) && forall b <- sites :: ENTRY <= b < |g|
  }

  /** Every well-nested program compiles to a closed graph. */
  lemma CompilationCloses(p: Program)
    requires WfProgram(p)
    ensures Closed(Compiled(p).blocks, FunctionMap(p.functions).Keys, Compiled(p).callSites)
  {
    hide HasCode, AfterCode, Sites, Calls, WfCode, Process;
    CompiledShape(p);
    var g, n := Compiled(p).blocks, AfterCode(p.main, MAIN_POS).next;
    SealMain(g, p.main);
    SealFunctions(g, p.functions, n, FunctionMap(p.functions).Keys);
    JoinRegions(g, ENTRY, n, |g|, Calls(p.main), FunctionMap(p.functions).Keys, Sites(p.main, MAIN_POS),
                FunctionSites(p.functions, n));
  }
}
