/** What stands behind a top-level ret, of the main body or of a function, and a main body without
    one: exactly when the builder still gets such a program right. */
module Limits {
  import opened Basics
  import opened Shader
  import opened FlowGraph
  import opened Structured
  import opened BuilderSpec
  import opened Layout
  import opened BuilderLayout
  import opened Sealing
  import opened Simulation
  import opened Programs
  import opened BuilderAccepts
  import opened InlineSpec
  import opened Trapping

  // ---------------------------------------------------------------- the programs

  /** Well-nested code in which a ret may also stand at the top level. */
  predicate WfRest(c: Code) {
    c.End? || ((c.first.Return? || WfStmt(c.first, TOP, true)) && WfRest(c.rest))
  }

  /** A program with `rest` behind the ret of its main body and `rests[i]` behind that of function `i`. */
  datatype Trailed = Trailed(program: Program, rest: Code, rests: seq<Code>)

  /** Unlike a well-formed program's, the main body need not end with a ret when functions follow. */
  ghost predicate WfTrailed(tp: Trailed) {
    && WfProgram(tp.program.(ret := true)) && WfRest(tp.rest) && (forall c <- tp.rests :: WfRest(c))
    && |tp.rests| == |tp.program.functions| && (!tp.program.ret ==> tp.rest == End)
  }

  function FunctionOps(f: Function): seq<Opcode> { [OpLabel(f.id)] + Flatten(f.body) + [OpRet] }

  function TrailedFunctions(fns: seq<Function>, rests: seq<Code>): seq<Opcode>
    requires |fns| == |rests|
  {
    if fns == [] then []
    else FunctionOps(fns[0]) + (Flatten(rests[0]) + TrailedFunctions(fns[1..], rests[1..]))
  }

  function TrailedStream(tp: Trailed): seq<Opcode>
    requires |tp.rests| == |tp.program.functions|
  {
    FlattenMain(tp.program) + Flatten(tp.rest) + TrailedFunctions(tp.program.functions, tp.rests)
  }

  function CompiledTrailed(tp: Trailed): State
    requires |tp.rests| == |tp.program.functions|
  {
    Finish(Process(INITIAL, TrailedStream(tp)), None)
  }

  function TrailedMachine(tp: Trailed, th: Thread): Machine
    requires |tp.rests| == |tp.program.functions|
  {
    Machine(CompiledTrailed(tp).blocks, CompiledTrailed(tp).entries, th)
  }

  function FlattenAll(cs: seq<Code>): seq<Opcode> { if cs == [] then [] else Flatten(cs[0]) + FlattenAll(cs[1..]) }

  /** Everything that stands behind a top-level ret, in order. */
  function Behind(tp: Trailed): seq<Opcode> { Flatten(tp.rest) + FlattenAll(tp.rests) }

  // ------------------------------------------- the builder behind a ret

  /** At the top level, in a real block, with nothing pending. */
  ghost predicate Idle(s: State) {
    && s.endIfs == [] && s.continues == [] && s.breaks == [] && s.switches == [] && s.instances == []
    && s.funcReturn == None && VOID < s.current < |s.blocks| && |s.blocks| > RETURN
  }

  function Place(s: State): Pos
    requires s.current < |s.blocks|
  {
    Pos(s.current, |s.blocks[s.current].code|, |s.blocks|)
  }

  /** Of the older blocks only the void block, the return block and `cur` have changed. */
  ghost predicate Spares(g: Graph, cur: BlockId, h: Graph) {
    |g| <= |h| && forall b: BlockId :: b < |g| && b != VOID && b != RETURN && b != cur ==> h[b] == g[b]
  }

  /** The outcome of what stands behind a ret. */
  ghost predicate ReadsOn(s: State, ops: seq<Opcode>) {
    var after := Process(s, ops);
    && Accepted(s, ops) && Idle(after) && after.entries == s.entries && Spares(s.blocks, s.current, after.blocks)
    && (after.current == s.current || after.current == RETURN || after.current >= |s.blocks|)
  }

  lemma ReadsOnAppend(s: State, a: seq<Opcode>, b: seq<Opcode>)
    requires ReadsOn(s, a) && ReadsOn(Process(s, a), b)
    ensures ReadsOn(s, a + b)
  {
    hide Process, Accepted;
    ProcessAppend(s, a, b);
    AcceptedAppend(s, a, b);
  }

  /** Whatever stands behind the ret is read without complaint and leaves the stacks as they were. */
  lemma {:induction false} ReadRest(s: State, rest: Code)
    requires Idle(s) && WfRest(rest)
    ensures ReadsOn(s, Flatten(rest))
    decreases rest
  {
    hide ReadsOn, FlattenStmt, WfStmt;
    match rest
    case End => ReadsNothing(s);
    case Then(first, more) =>
      ReadFirst(s, first);
      assert Idle(Process(s, FlattenStmt(first))) by { ReadsIdle(s, FlattenStmt(first)); }
      ReadRest(Process(s, FlattenStmt(first)), more);
      ReadsOnAppend(s, FlattenStmt(first), Flatten(more));
  }

  lemma ReadsNothing(s: State)
    requires Idle(s)
    ensures ReadsOn(s, [])
  {
  }

  lemma ReadsIdle(s: State, ops: seq<Opcode>)
    requires ReadsOn(s, ops)
    ensures Idle(Process(s, ops))
  {
  }

  lemma ReadFirst(s: State, first: Stmt)
    requires Idle(s) && (first.Return? || WfStmt(first, TOP, true))
    ensures ReadsOn(s, FlattenStmt(first))
  {
    hide Process, Accepted, WfStmt, AfterStmt;
    var p := Place(s);
    if first.Return? {
      AcceptedOne(s, OpRet);
      ProcessOne(s, OpRet);
    } else {
      AcceptStmt(s, first, TOP, p, MAIN_ENV);
      BuildStmt(s, first, TOP, p, MAIN_ENV, []);
      StillLive(first, p);
    }
  }

  lemma StillLive(first: Stmt, p: Pos)
    requires WfStmt(first, TOP, true) && p.cur != VOID && p.next > VOID
    ensures AfterStmt(first, p).cur != VOID || first.Return?
  {
  }

  // ------------------------------------------- main side and functions, in any order

  /** The blocks so far: the functions' are `fs`, the others the main body's. */
  ghost predicate Sides(s: State, fs: set<BlockId>) {
    Idle(s) && Mainly(s.current, |s.blocks|, fs) && Sound(s.blocks, fs) && Apart(s.blocks, s.entries, fs)
  }

  /** What stands behind a ret extends the main side only; anything but straight-line code there
      overwrites the return block's terminator. */
  lemma SidesRest(s: State, rest: Code, fs: set<BlockId>)
    requires Sides(s, fs) && s.current == RETURN && WfRest(rest)
    ensures var after := Process(s, Flatten(rest));
            && Sides(after, fs) && (EndsShader(after.blocks) ==> EndsShader(s.blocks) && Straight(Flatten(rest)))
  {
    hide Process, Accepted, Sound, Flatten, WfRest;
    ReadRest(s, rest);
    CodeInBody(rest);
    ReadTidy(s, Flatten(rest), fs);
    ApartStays(s, Process(s, Flatten(rest)), fs);
  }

  lemma ApartStays(s: State, after: State, fs: set<BlockId>)
    requires Apart(s.blocks, s.entries, fs) && Sound(s.blocks, fs) && Spares(s.blocks, RETURN, after.blocks)
    requires after.entries == s.entries
    ensures Apart(after.blocks, after.entries, fs)
  {
  }

  /** A function's blocks are its own, and all others stay as they were. */
  lemma SidesFunction(s: State, f: Function, fs: set<BlockId>) returns (fs': set<BlockId>)
    requires Sides(s, fs) && WfCode(f.body, TOP, true)
    ensures var after := Process(s, FunctionOps(f));
            && Accepted(s, FunctionOps(f)) && Sides(after, fs') && after.current == RETURN
            && (EndsShader(after.blocks) <==> EndsShader(s.blocks))
  {
    hide Process, Accepted, WfCode, Flatten, HasFunction, Sound, Apart, Keeps, AfterCode;
    var s1 := s.(current := RETURN);
    LabelForgets(s, FunctionOps(f));
    AcceptFunctions(s1, [f]);
    assert FlattenFunctions([f]) == FunctionOps(f);
    var after := Process(s1, FunctionOps(f));
    BuildFunction(s1, f, after.blocks);
    KeepsSelf(after.blocks, RETURN);
    fs' := fs + Blocks(|s.blocks|, |after.blocks|);
    FunctionRegion(after.blocks, f.body, |s.blocks|);
    RegionInside(after.blocks, |s.blocks|, |after.blocks|, Calls(f.body), Sites(f.body, BodyPos(|s.blocks|)));
    SidesGrow(s, after, f.id, fs);
  }

  lemma RegionInside(g: Graph, lo: BlockId, hi: BlockId, calls: set<FuncId>, sites: seq<BlockId>)
    requires Region(g, lo, hi, calls, sites) && hi <= |g|
    ensures forall b: BlockId :: lo <= b < hi ==> Inside(g[b].target, Blocks(lo, hi))
  {
    forall b: BlockId | lo <= b < hi ensures Inside(g[b].target, Blocks(lo, hi)) {
      assert SealedBlock(g, b, lo, hi, calls, sites);
      WithinInside(g[b].target, lo, hi);
    }
  }

  lemma SidesGrow(s: State, after: State, f: FuncId, fs: set<BlockId>)
    requires Sound(s.blocks, fs) && Apart(s.blocks, s.entries, fs) && Grows(s.blocks, after.blocks)
    requires var n, m := |s.blocks|, |after.blocks|;
             n < m && after.entries == s.entries[f := n]
             && forall b: BlockId :: n <= b < m ==> Inside(after.blocks[b].target, Blocks(n, m))
    ensures var fs' := fs + Blocks(|s.blocks|, |after.blocks|);
            Sound(after.blocks, fs') && Apart(after.blocks, after.entries, fs')
    ensures EndsShader(after.blocks) <==> EndsShader(s.blocks)
  {
    var n, m := |s.blocks|, |after.blocks|;
    var fs' := fs + Blocks(n, m);
    forall b: BlockId | Mainly(b, m, fs')
      ensures Leads(after.blocks[b].target, m, fs') && after.blocks[b] == s.blocks[b]
    {
      assert Mainly(b, n, fs);
      LeadsOn(s.blocks[b].target, n, m, fs);
    }
    forall b | b in fs' ensures RETURN < b < m && Inside(after.blocks[b].target, fs') {
      if b in fs {
        InsideMono(after.blocks[b].target, fs, fs');
      } else {
        InsideMono(after.blocks[b].target, Blocks(n, m), fs');
      }
    }
  }

  lemma LeadsOn(t: Target, n: nat, m: nat, fs: set<BlockId>)
    requires Leads(t, n, fs) && n <= m
    ensures Leads(t, m, fs + Blocks(n, m))
  {
  }

  /** All functions, each with what stands behind its ret. */
  lemma {:induction false} SidesFunctions(s: State, fns: seq<Function>, rests: seq<Code>, fs: set<BlockId>)
    returns (fs': set<BlockId>)
    requires Sides(s, fs) && |fns| == |rests|
    requires (forall f <- fns :: WfCode(f.body, TOP, true)) && forall c <- rests :: WfRest(c)
    ensures var after := Process(s, TrailedFunctions(fns, rests));
            && Accepted(s, TrailedFunctions(fns, rests)) && Sides(after, fs')
            && (EndsShader(after.blocks) ==> EndsShader(s.blocks) && Straight(FlattenAll(rests)))
    decreases |fns|
  {
    hide Process, Accepted, WfCode, Flatten, Sides, EndsShader, Straight;
    if fns == [] {
      fs' := fs;
      ProcessNone(s);
      AcceptedNone(s);
      assert Straight([]) by { NothingStraight(); }
    } else {
      var ops, rest, more := FunctionOps(fns[0]), Flatten(rests[0]), TrailedFunctions(fns[1..], rests[1..]);
      assert TrailedFunctions(fns, rests) == ops + (rest + more);
      var fs1 := SidesFunction(s, fns[0], fs);
      var s1, s2 := Process(s, ops), Process(Process(s, ops), rest);
      SidesRest(s1, rests[0], fs1);
      RestAccepted(s1, rests[0], fs1);
      fs' := SidesFunctions(s2, fns[1..], rests[1..], fs1);
      ProcessAppend(s, ops, rest + more);
      ProcessAppend(s1, rest, more);
      AcceptedAppend(s1, rest, more);
      AcceptedAppend(s, ops, rest + more);
      BothStraight(rest, FlattenAll(rests[1..]));
    }
  }

  lemma RestAccepted(s: State, rest: Code, fs: set<BlockId>)
    requires Sides(s, fs) && WfRest(rest)
    ensures Accepted(s, Flatten(rest))
  {
    hide Process, Accepted, Flatten, WfRest, Sound;
    ReadRest(s, rest);
  }

  lemma NothingStraight()
    ensures Straight([])
  {
  }

  lemma BothStraight(a: seq<Opcode>, b: seq<Opcode>)
    ensures Straight(a + b) <==> Straight(a) && Straight(b)
  {
    assert forall op <- a :: op in a + b;
    assert forall op <- b :: op in a + b;
  }

  // --------------------------------------------------------- the whole stream

  /** The main body is read without complaint and leaves its own blocks only. */
  lemma SidesMain(p: Program)
    requires WfProgram(p.(ret := true))
    ensures var s := Process(INITIAL, FlattenMain(p));
            && Accepted(INITIAL, FlattenMain(p)) && Sides(s, {}) && s.entries == map[]
            && (p.ret ==> s.current == RETURN)
  {
    hide Process, Accepted, WfCode, StepOp;
    var s1 := Process(INITIAL, Flatten(p.main));
    AcceptCode(INITIAL, p.main, TOP, MAIN_POS, MAIN_ENV);
    BuildCode(INITIAL, p.main, TOP, MAIN_POS, MAIN_ENV, []);
    TopStaysLive(p.main, MAIN_POS);
    if p.ret {
      AcceptedOne(s1, OpRet);
      AcceptedAppend(INITIAL, Flatten(p.main), [OpRet]);
      ProcessAppend(INITIAL, Flatten(p.main), [OpRet]);
      ProcessOne(s1, OpRet);
      MainStops(s1);
    } else {
      assert FlattenMain(p) == Flatten(p.main);
    }
    CodeInBody(p.main);
    ReadTidy(INITIAL, FlattenMain(p), {});
  }

  lemma MainStops(s: State)
    requires SameStacks(INITIAL, s) && VOID < s.current < |s.blocks| && RETURN < |s.blocks|
    ensures var s1 := StepOp(s, OpRet); SameStacks(INITIAL, s1) && s1.current == RETURN && |s1.blocks| == |s.blocks|
  {
  }

  /** The builder reads such a program without complaint, and if anything but straight-line code
      stands behind a ret, the return block no longer ends the shader. */
  lemma SidesAll(tp: Trailed) returns (fs: set<BlockId>)
    requires WfTrailed(tp)
    ensures var s := Process(INITIAL, TrailedStream(tp));
            && Accepted(INITIAL, TrailedStream(tp)) && Sides(s, fs)
            && (EndsShader(s.blocks) ==> Straight(Behind(tp)))
  {
    hide Process, Accepted, WfProgram, Flatten, FlattenMain, Sides, EndsShader, Straight, TrailedFunctions;
    var p := tp.program;
    SidesMain(p);
    var s := Process(INITIAL, FlattenMain(p));
    var s1 := Process(s, Flatten(tp.rest));
    if p.ret {
      SidesRest(s, tp.rest, {});
      RestAccepted(s, tp.rest, {});
    } else {
      NoRest();
      ProcessNone(s);
      AcceptedNone(s);
    }
    assert Straight([]) by { NothingStraight(); }
    BodiesWellFormed(p);
    fs := SidesFunctions(s1, p.functions, tp.rests, {});
    ProcessAppend(INITIAL, FlattenMain(p) + Flatten(tp.rest), TrailedFunctions(p.functions, tp.rests));
    ProcessAppend(INITIAL, FlattenMain(p), Flatten(tp.rest));
    AcceptedAppend(INITIAL, FlattenMain(p), Flatten(tp.rest));
    AcceptedAppend(INITIAL, FlattenMain(p) + Flatten(tp.rest), TrailedFunctions(p.functions, tp.rests));
    BothStraight(Flatten(tp.rest), FlattenAll(tp.rests));
  }

  lemma NoRest()
    ensures Flatten(End) == []
  {
  }

  lemma BodiesWellFormed(p: Program)
    requires WfProgram(p.(ret := true))
    ensures forall f <- p.functions :: WfCode(f.body, TOP, true)
  {
  }

  /** With anything but straight-line code behind a top-level ret, no thread ever ends. */
  lemma TrailingControlNeverEnds(tp: Trailed, th: Thread, t: Trace)
    requires WfTrailed(tp) && !Straight(Behind(tp))
    ensures !Halts(TrailedMachine(tp, th), t)
  {
    hide Process, Accepted, WfProgram, TrailedStream, Straight, Trapped, Apart, Run, Behind;
    var m := TrailedMachine(tp, th);
    var fs := SidesAll(tp);
    TrapFinished(Process(INITIAL, TrailedStream(tp)), fs);
    if Halts(m, t) {
      var k: nat :| Run(m, k, START) == Halted(t);
      NeverHalts(m, fs, k, START);
    }
  }

  lemma FinishApart(s: State, fs: set<BlockId>)
    requires Apart(s.blocks, s.entries, fs) && s.current !in fs
    ensures Apart(SetTarget(s, s.current, Goto(RETURN)).blocks, s.entries, fs)
  {
  }

  lemma TrapFinished(s: State, fs: set<BlockId>)
    requires Sides(s, fs) && !EndsShader(s.blocks)
    ensures var after := Finish(s, None);
            Trapped(after.blocks, fs) && Apart(after.blocks, after.entries, fs) && Mainly(ENTRY, |after.blocks|, fs)
  {
    hide Apart, Sound, EndsShader;
    if s.current != RETURN {
      NewBlocks(s, fs);
      SetOnward(s, s.current, Goto(RETURN), fs);
      var after := Finish(s, None);
      assert after.blocks == SetTarget(s, s.current, Goto(RETURN)).blocks;
      FinishApart(s, fs);
      SoundIsTrapped(after.blocks, fs);
    } else {
      SoundIsTrapped(s.blocks, fs);
    }
  }

  // ------------------------------------------------- a main body without a ret

  /** The block that code at the top level stops in is still unfinished. */
  ghost predicate Unfinished(s: State, q: Pos) {
    q.cur != VOID && q.cur < |s.blocks| && s.blocks[q.cur].target == Undefined
  }

  lemma {:induction false} CodeUnfinished(s: State, c: Code, p: Pos, env: Env)
    requires At(s, p) && Fits(s, TOP, env) && WfCode(c, TOP, true) && Unfinished(s, p)
    ensures Unfinished(Process(s, Flatten(c)), AfterCode(c, p))
    decreases c
  {
    hide Process, FlattenStmt, WfStmt, Fits, Keeps, Unfinished, HasStmt;
    match c
    case End => ProcessNone(s);
    case Then(first, more) =>
      var mid, q := Process(s, FlattenStmt(first)), AfterStmt(first, p);
      RealPlace(s, p);
      StmtUnfinished(s, first, p, env);
      BuildStmt(s, first, TOP, p, env, []);
      FitsStill(s, p, TOP, env, mid, q);
      RealPlace(mid, q);
      CodeUnfinished(mid, more, q, env);
      ProcessAppend(s, FlattenStmt(first), Flatten(more));
  }

  lemma RealPlace(s: State, p: Pos)
    requires Unfinished(s, p)
    ensures p.cur != VOID
  {
  }

  lemma StmtUnfinished(s: State, st: Stmt, p: Pos, env: Env)
    requires At(s, p) && Fits(s, TOP, env) && WfStmt(st, TOP, true) && Unfinished(s, p)
    ensures Unfinished(Process(s, FlattenStmt(st)), AfterStmt(st, p))
  {
    hide Process, StepOp, Flatten, WfCode, WfClauses, AfterCode, AfterClauses, FlattenClauses, Fits;
    match st
    case If(c, yes) => IfUnfinished(s, c, yes, p, env);
    case IfElse(c, yes, no) => IfElseUnfinished(s, c, yes, no, p, env);
    case Loop(body) => LoopUnfinished(s, body, p, env);
    case Switch(v, cs) => SwitchUnfinished(s, v, cs, p, env);
    case _ => SimpleUnfinished(s, st, p);
  }

  lemma SimpleUnfinished(s: State, st: Stmt, p: Pos)
    requires At(s, p) && WfStmt(st, TOP, true) && Unfinished(s, p)
    requires !st.If? && !st.IfElse? && !st.Loop? && !st.Switch?
    ensures Unfinished(Process(s, FlattenStmt(st)), AfterStmt(st, p))
  {
    hide Process;
    ProcessOne(s, FlattenStmt(st)[0]);
  }

  lemma IfUnfinished(s: State, c: Condition, yes: Code, p: Pos, env: Env)
    requires At(s, p) && Fits(s, TOP, env) && WfCode(yes, TOP.(nested := true), true)
    ensures Unfinished(Process(s, FlattenStmt(If(c, yes))), AfterStmt(If(c, yes), p))
  {
    hide Process, StepOp, Fits, Flatten, AfterCode, WfCode, Keeps, HasCode, Sites;
    var n := p.next;
    ProcessBracket(s, OpIf(c), Flatten(yes), OpEndIf);
    var s1, i := StepOp(s, OpIf(c)), Pos(n, 0, n + 2);
    OpenIf(s, c, TOP, p, env);
    BuildCode(s1, yes, TOP.(nested := true), i, env, []);
    var s2, q := Process(s1, Flatten(yes)), AfterCode(yes, i);
    BlockStill(s1.blocks, s1.current, VOID, s2.blocks, n + 1);
    CloseIf(s2, q);
    BlockStill(s2.blocks, s2.current, VOID, StepOp(s2, OpEndIf).blocks, n + 1);
  }

  lemma IfElseUnfinished(s: State, c: Condition, yes: Code, no: Code, p: Pos, env: Env)
    requires At(s, p) && Fits(s, TOP, env)
    requires WfCode(yes, TOP.(nested := true), true) && WfCode(no, TOP.(nested := true), true)
    ensures Unfinished(Process(s, FlattenStmt(IfElse(c, yes, no))), AfterStmt(IfElse(c, yes, no), p))
  {
    hide Process, StepOp, Fits, Flatten, AfterCode, WfCode, Keeps, HasCode, Sites, Ends;
    var q := AfterCode(yes, Pos(p.next, 0, p.next + 2));
    var e := Pos(p.next + 1, 0, q.next + 1);
    ProcessIfElse(s, c, yes, no);
    var half := Process(s, IfHalf(c, yes));
    BuildHalf(s, c, yes, TOP, p, env, [], [], p);
    BuildCode(half, no, TOP.(nested := true), e, env, []);
    var s2 := Process(half, Flatten(no));
    BlockStill(half.blocks, half.current, VOID, s2.blocks, q.next);
    CloseIf(s2, AfterCode(no, e));
    BlockStill(s2.blocks, s2.current, VOID, StepOp(s2, OpEndIf).blocks, q.next);
  }

  lemma LoopUnfinished(s: State, body: Code, p: Pos, env: Env)
    requires At(s, p) && Fits(s, TOP, env) && WfCode(body, Scope(true, true, true), true)
    ensures Unfinished(Process(s, FlattenStmt(Loop(body))), AfterStmt(Loop(body), p))
  {
    hide Process, StepOp, Fits, Flatten, AfterCode, WfCode, Keeps, HasCode, Sites;
    var n := p.next;
    ProcessBracket(s, OpLoop, Flatten(body), OpEndLoop);
    var s1, i := StepOp(s, OpLoop), Pos(n, 0, n + 2);
    OpenLoop(s, TOP, p, env);
    BuildCode(s1, body, Scope(true, true, true), i, Env(n + 1, n, env.ret), []);
    var s2, q := Process(s1, Flatten(body)), AfterCode(body, i);
    BlockStill(s1.blocks, s1.current, VOID, s2.blocks, n + 1);
    CloseLoop(s2, q);
    BlockStill(s2.blocks, s2.current, VOID, StepOp(s2, OpEndLoop).blocks, n + 1);
  }

  lemma SwitchUnfinished(s: State, v: Operand, cs: Clauses, p: Pos, env: Env)
    requires At(s, p) && Fits(s, TOP, env) && WfClauses(cs, false) && p.cur != VOID
    ensures Unfinished(Process(s, FlattenStmt(Switch(v, cs))), AfterStmt(Switch(v, cs), p))
  {
    hide Process, StepOp, Fits, FlattenClauses, AfterClauses, WfClauses, HasClauses, ClauseSites, Registered;
    var n := p.next;
    ProcessBracket(s, OpSwitch(v), FlattenClauses(cs), OpEndSwitch);
    var s1, i := StepOp(s, OpSwitch(v)), Pos(VOID, 0, n + 1);
    OpenSwitch(s, v, TOP, p, env);
    BuildClauses(s1, cs, false, i, env.(brk := n), [], p.cur);
    var s2, q := Process(s1, FlattenClauses(cs)), AfterClauses(cs, i);
    BlockStill(s1.blocks, s1.current, p.cur, s2.blocks, n);
    CloseSwitch(s2, q);
    BlockStill(s2.blocks, s2.current, VOID, StepOp(s2, OpEndSwitch).blocks, n);
  }

  /** A main body without a ret, and functions behind it: its last block is abandoned. */
  lemma MainUnfinished(main: Code, g: Graph)
    requires WfCode(main, TOP, true)
    ensures var s, q := Process(INITIAL, Flatten(main)), AfterCode(main, MAIN_POS);
            && Idle(s) && s.entries == map[] && s.blocks[RETURN] == Block([], Exit) && s.current == q.cur
            && (Keeps(s.blocks, RETURN, VOID, g) ==> HasCode(g, main, MAIN_POS, MAIN_ENV) && Ends(g, q, Undefined))
  {
    hide Process, WfCode, Flatten, AfterCode, Sites, HasCode;
    BuildCode(INITIAL, main, TOP, MAIN_POS, MAIN_ENV, g);
    CodeUnfinished(INITIAL, main, MAIN_POS, MAIN_ENV);
    TopStaysLive(main, MAIN_POS);
    var s, q := Process(INITIAL, Flatten(main)), AfterCode(main, MAIN_POS);
    BlockStill(INITIAL.blocks, ENTRY, VOID, s.blocks, RETURN);
    if Keeps(s.blocks, RETURN, VOID, g) {
      AllSettled(s.blocks, g, q);
    }
  }

  lemma AllSettled(mid: Graph, g: Graph, q: Pos)
    requires |mid| == q.next && Keeps(mid, RETURN, VOID, g) && Follows(MAIN_POS, q) && q.cur < q.next
    ensures Settled(mid, g, MAIN_POS, q) && (q.cur != VOID ==> q.cur < |g| && g[q.cur] == mid[q.cur])
  {
  }

  // ------------------------------------------------- straight-line code behind rets

  /** Functions with straight-line code behind their rets: that code is in the return block, and all
      else is as without it. */
  lemma {:induction false} LinkTrailed(s: State, fns: seq<Function>, rests: seq<Code>, g: Graph)
    requires Idle(s) && |fns| == |rests| && Straight(FlattenAll(rests)) && forall f <- fns :: WfCode(f.body, TOP, true)
    ensures var after := Process(s, TrailedFunctions(fns, rests));
            && Keeps(s.blocks, RETURN, VOID, after.blocks) && Extended(s, after, FlattenAll(rests))
            && (fns == [] ==> after == s) && (fns != [] ==> after.current == RETURN)
            && (forall f :: f !in FunctionMap(fns) && f in s.entries ==>
                  f in after.entries && after.entries[f] == s.entries[f])
            && (Keeps(after.blocks, RETURN, VOID, g) ==> HasFunctions(g, FunctionMap(fns), after.entries))
    decreases |fns|
  {
    hide Process, Flatten, WfCode, HasFunction, Keeps, StepOp, Straight, Extended, Idle;
    if fns == [] {
      ProcessNone(s);
      KeepsSelf(s.blocks, RETURN);
      NothingExtended(s);
    } else {
      var rest, more := Flatten(rests[0]), TrailedFunctions(fns[1..], rests[1..]);
      BothStraight(rest, FlattenAll(rests[1..]));
      var s2 := Process(Process(s, FunctionOps(fns[0])), rest);
      LinkOne(s, fns[0], rest, g);
      LinkTrailed(s2, fns[1..], rests[1..], g);
      assert TrailedFunctions(fns, rests) == FunctionOps(fns[0]) + (rest + more);
      ProcessAppend(s, FunctionOps(fns[0]), rest + more);
      ProcessAppend(Process(s, FunctionOps(fns[0])), rest, more);
      var after := Process(s2, more);
      KeepsTrans(s.blocks, RETURN, s2.blocks, RETURN, after.blocks);
      ExtendedTrans(s, s2, after, rest, FlattenAll(rests[1..]));
      if Keeps(after.blocks, RETURN, VOID, g) {
        KeepsTrans(s2.blocks, RETURN, after.blocks, RETURN, g);
      }
    }
  }

  /** The return block has `ops` behind what it held. */
  ghost predicate Extended(s: State, after: State, ops: seq<Opcode>)
    requires Straight(ops)
  {
    && RETURN < |s.blocks| && RETURN < |after.blocks|
    && after.blocks[RETURN] == Block(s.blocks[RETURN].code + Concatenated(ops), s.blocks[RETURN].target)
  }

  lemma NothingExtended(s: State)
    requires Idle(s)
    ensures Straight([]) && Extended(s, s, [])
  {
    assert s.blocks[RETURN].code + [] == s.blocks[RETURN].code;
  }

  lemma ExtendedTrans(s1: State, s2: State, s3: State, a: seq<Opcode>, b: seq<Opcode>)
    requires Straight(a) && Straight(b) && Extended(s1, s2, a) && Extended(s2, s3, b)
    ensures Straight(a + b) && Extended(s1, s3, a + b)
  {
    BothStraight(a, b);
    ConcatenatedBoth(a, b);
    var code := s1.blocks[RETURN].code;
    assert (code + Concatenated(a)) + Concatenated(b) == code + (Concatenated(a) + Concatenated(b));
  }

  lemma {:induction false} ConcatenatedBoth(a: seq<Opcode>, b: seq<Opcode>)
    requires Straight(a) && Straight(b)
    ensures Straight(a + b) && Concatenated(a + b) == Concatenated(a) + Concatenated(b)
    decreases |a|
  {
    BothStraight(a, b);
    if a == [] {
      assert a + b == b;
    } else {
      ConcatenatedBoth(a[1..], b);
      assert (a + b)[1..] == a[1..] + b;
      var first, rest, last := a[0].code, Concatenated(a[1..]), Concatenated(b);
      assert first + (rest + last) == (first + rest) + last;
    }
  }

  /** One function and the straight-line code behind its ret. */
  lemma LinkOne(s: State, f: Function, rest: seq<Opcode>, g: Graph)
    requires Idle(s) && WfCode(f.body, TOP, true) && Straight(rest)
    ensures var after := Process(Process(s, FunctionOps(f)), rest);
            && Idle(after) && after.current == RETURN && after.entries == s.entries[f.id := |s.blocks|]
            && Keeps(s.blocks, RETURN, VOID, after.blocks) && Extended(s, after, rest)
            && (Keeps(after.blocks, RETURN, VOID, g) ==> HasFunction(g, f.body, |s.blocks|))
  {
    hide Process, Flatten, WfCode, HasFunction, StepOp, AfterCode, Sites;
    var s1 := s.(current := RETURN);
    LabelForgets(s, FunctionOps(f));
    BuildFunction(s1, f, g);
    var mid := Process(s1, FunctionOps(f));
    ReadStraight(mid, rest);
    IdleExtends(mid, rest);
    hide Keeps, Append, Concatenated;
    var after := Append(mid, RETURN, Concatenated(rest));
    ReturnAsBefore(s1, mid, after, rest);
    KeepsTrans(s1.blocks, RETURN, mid.blocks, RETURN, after.blocks);
    if Keeps(after.blocks, RETURN, VOID, g) {
      KeepsTrans(mid.blocks, RETURN, after.blocks, RETURN, g);
    }
  }

  /** A function leaves the return block alone. */
  lemma ReturnAsBefore(s: State, mid: State, after: State, ops: seq<Opcode>)
    requires RETURN < |s.blocks| && Grows(s.blocks, mid.blocks) && Straight(ops) && Extended(mid, after, ops)
    ensures Extended(s, after, ops) && Keeps(s.blocks, RETURN, VOID, mid.blocks)
  {
  }

  // ---------------------------------------------------------------------- runs

  /** Does the end of the main body lead to the return block? */
  predicate MainCloses(p: Program) { p.ret || p.functions == [] }

  /** All that is needed of the finished graph: the main body and the functions as they are, and the
      code behind all rets in the return block. */
  lemma TrailedShape(tp: Trailed)
    requires WfTrailed(tp) && Straight(Behind(tp))
    ensures var p, s := tp.program, CompiledTrailed(tp);
            && HasCode(s.blocks, p.main, MAIN_POS, MAIN_ENV)
            && Ends(s.blocks, AfterCode(p.main, MAIN_POS), if MainCloses(p) then Goto(RETURN) else Undefined)
            && HasFunctions(s.blocks, FunctionMap(p.functions), s.entries)
            && RETURN < |s.blocks| && s.blocks[RETURN] == Block(Concatenated(Behind(tp)), Exit)
  {
    hide Process, Flatten, FlattenMain, TrailedFunctions, WfCode, HasCode, HasFunction, Straight, Keeps, Concatenated,
      FlattenAll, FunctionMap, Ends;
    var p := tp.program;
    ProcessAppend(INITIAL, FlattenMain(p) + Flatten(tp.rest), TrailedFunctions(p.functions, tp.rests));
    ProcessAppend(INITIAL, FlattenMain(p), Flatten(tp.rest));
    BothStraight(Flatten(tp.rest), FlattenAll(tp.rests));
    if p.ret {
      ShapeWithRet(tp);
    } else {
      NoRest();
      ProcessNone(Process(INITIAL, FlattenMain(p)));
      assert Behind(tp) == FlattenAll(tp.rests);
      if p.functions == [] {
        ShapeAlone(tp);
      } else {
        ShapeWithoutRet(tp);
      }
    }
  }

  lemma ShapeWithRet(tp: Trailed)
    requires WfTrailed(tp) && Straight(Flatten(tp.rest)) && Straight(FlattenAll(tp.rests)) && tp.program.ret
    requires CompiledTrailed(tp) == Finish(Process(Process(Process(INITIAL, FlattenMain(tp.program)), Flatten(tp.rest)),
                                                   TrailedFunctions(tp.program.functions, tp.rests)), None)
    ensures var p, s := tp.program, CompiledTrailed(tp);
            && LeadsToReturn(s.blocks, p.main) && HasFunctions(s.blocks, FunctionMap(p.functions), s.entries)
            && Straight(Behind(tp))
            && RETURN < |s.blocks| && s.blocks[RETURN] == Block(Concatenated(Behind(tp)), Exit)
  {
    hide Process, Flatten, FlattenMain, TrailedFunctions, WfCode, HasCode, HasFunction, Straight, Concatenated,
      FlattenAll, FunctionMap, LeadsToReturn, Keeps;
    var p, g := tp.program, CompiledTrailed(tp).blocks;
    BuildMain(p, g);
    var s := Process(INITIAL, FlattenMain(p));
    var s1 := Process(s, Flatten(tp.rest));
    ReadStraight(s, Flatten(tp.rest));
    IdleExtends(s, Flatten(tp.rest));
    LinkTrailed(s1, p.functions, tp.rests, g);
    var s2 := Process(s1, TrailedFunctions(p.functions, tp.rests));
    KeepsSelf(g, RETURN);
    KeepsTrans(s.blocks, RETURN, s1.blocks, RETURN, s2.blocks);
    ExtendedTrans(s, s1, s2, Flatten(tp.rest), FlattenAll(tp.rests));
    assert [] + Concatenated(Behind(tp)) == Concatenated(Behind(tp));
  }

  /** Straight-line code read in the return block. */
  lemma IdleExtends(s: State, ops: seq<Opcode>)
    requires Straight(ops) && Idle(s) && s.current == RETURN
    ensures var after := Append(s, RETURN, Concatenated(ops));
            && Idle(after) && after.current == RETURN && after.entries == s.entries
            && Extended(s, after, ops) && Keeps(s.blocks, RETURN, VOID, after.blocks)
  {
  }

  lemma ShapeAlone(tp: Trailed)
    requires WfTrailed(tp) && !tp.program.ret && tp.program.functions == []
    requires CompiledTrailed(tp) == Finish(Process(Process(INITIAL, FlattenMain(tp.program)),
                                                   TrailedFunctions(tp.program.functions, tp.rests)), None)
    ensures var p, s := tp.program, CompiledTrailed(tp);
            && LeadsToReturn(s.blocks, p.main) && HasFunctions(s.blocks, FunctionMap(p.functions), s.entries)
            && FlattenAll(tp.rests) == [] && Straight([]) && Concatenated([]) == []
            && RETURN < |s.blocks| && s.blocks[RETURN] == Block([], Exit)
  {
    hide Process, Flatten, FlattenMain, WfCode, HasCode;
    ProcessNone(Process(INITIAL, FlattenMain(tp.program)));
    BuildMain(tp.program, CompiledTrailed(tp).blocks);
    KeepsSelf(CompiledTrailed(tp).blocks, RETURN);
  }

  lemma ShapeWithoutRet(tp: Trailed)
    requires WfTrailed(tp) && Straight(FlattenAll(tp.rests)) && !tp.program.ret && tp.program.functions != []
    requires CompiledTrailed(tp) == Finish(Process(Process(INITIAL, FlattenMain(tp.program)),
                                                   TrailedFunctions(tp.program.functions, tp.rests)), None)
    ensures var p, s := tp.program, CompiledTrailed(tp);
            && HasCode(s.blocks, p.main, MAIN_POS, MAIN_ENV) && Ends(s.blocks, AfterCode(p.main, MAIN_POS), Undefined)
            && HasFunctions(s.blocks, FunctionMap(p.functions), s.entries)
            && RETURN < |s.blocks| && s.blocks[RETURN] == Block(Concatenated(FlattenAll(tp.rests)), Exit)
  {
    hide Process, Flatten, TrailedFunctions, WfCode, HasCode, HasFunction, Straight, Concatenated, FlattenAll,
      FunctionMap, Keeps, Ends, AfterCode;
    var p, g := tp.program, CompiledTrailed(tp).blocks;
    assert FlattenMain(p) == Flatten(p.main);
    MainUnfinished(p.main, g);
    var s := Process(INITIAL, Flatten(p.main));
    LinkTrailed(s, p.functions, tp.rests, g);
    KeepsSelf(g, RETURN);
    assert [] + Concatenated(FlattenAll(tp.rests)) == Concatenated(FlattenAll(tp.rests));
  }

  /** A run of the structured program with `fuel`, followed in the graph: if the program ends, it halts
      with the code behind the rets executed as well, unless the main body runs off an end without a
      ret: then it is stuck there. */
  lemma FollowTrailed(tp: Trailed, th: Thread, fuel: nat) returns (k: nat)
    requires WfTrailed(tp) && Straight(Behind(tp))
    ensures var p, c := tp.program, Run(TrailedMachine(tp, th), k, START);
            var o := ExecCode(FunctionMap(p.functions), th, p.main, [], fuel);
            if o.Timeout? then k >= fuel && c.Running?
            else if o.Returned? || MainCloses(p) then
              (o.Normal? || o.Returned?) && c == Halted(o.trace + Concatenated(Behind(tp)))
            else o.Normal? && c.Running? && Step(TrailedMachine(tp, th), c) == c
  {
    hide Run, ExecCode, HasCode, WfCode, HasFunction, Flatten, Straight, CompiledTrailed, Concatenated, Behind,
      AfterCode, FunctionMap;
    var p, m := tp.program, TrailedMachine(tp, th);
    TrailedShape(tp);
    BodiesLinked(tp, th);
    k := SimCode(m, FunctionMap(p.functions), p.main, MAIN_POS, MAIN_ENV, [], [], fuel);
    var o := ExecCode(FunctionMap(p.functions), th, p.main, [], fuel);
    CodeStaysInScope(FunctionMap(p.functions), th, p.main, [], fuel, TOP, true);
    TopStaysLive(p.main, MAIN_POS);
    if o.Normal? && MainCloses(p) {
      RunLast(m, k, START);
      k := k + 1;
    }
    if o.Returned? || (o.Normal? && MainCloses(p)) {
      assert Run(m, k, START) == Running(RETURN, 0, [], o.trace);
      RunOut(m, k, o.trace, Concatenated(Behind(tp)));
      k := k + |Concatenated(Behind(tp))| + 1;
    }
  }

  lemma BodiesLinked(tp: Trailed, th: Thread)
    requires WfTrailed(tp)
    requires HasFunctions(CompiledTrailed(tp).blocks, FunctionMap(tp.program.functions), CompiledTrailed(tp).entries)
    ensures var p, fs := tp.program, FunctionMap(tp.program.functions);
            && Linked(TrailedMachine(tp, th), fs) && WfCode(p.main, TOP, true) && Calls(p.main) <= fs.Keys
            && forall f <- fs :: WfCode(fs[f], TOP, true)
  {
    hide HasFunction, WfCode, Calls, CompiledTrailed;
    FunctionBodies(tp.program.functions);
  }

  lemma {:induction false} StuckStays(m: Machine, k: nat, c: Config)
    requires Step(m, c) == c
    ensures Run(m, k, c) == c
    decreases k
  {
    if k > 0 {
      StuckStays(m, k - 1, c);
    }
  }

  /** The program ends with `t` by a ret, or by running off the end of a main body that closes. */
  ghost predicate EndsClosed(p: Program, th: Thread, t: Trace) {
    exists fuel: nat :: ClosesAt(p, th, fuel, t)
  }

  ghost predicate ClosesAt(p: Program, th: Thread, fuel: nat, t: Trace) {
    Completes(p, th, fuel, t)
    && (MainCloses(p) || ExecCode(FunctionMap(p.functions), th, p.main, [], fuel).Returned?)
  }

  /** The return block has swallowed the straight-line code behind all top-level rets: a thread ends
      exactly if the program ends there, and has then executed that code as well. */
  lemma TrailingCodeRuns(tp: Trailed, th: Thread, u: Trace)
    requires WfTrailed(tp) && Straight(Behind(tp))
    ensures Halts(TrailedMachine(tp, th), u)
        <==> exists t: Trace :: EndsClosed(tp.program, th, t) && u == t + Concatenated(Behind(tp))
  {
    hide Run, ExecCode, WfProgram, TrailedMachine, Straight, Concatenated, Behind, MainCloses, Step;
    var p, m, code := tp.program, TrailedMachine(tp, th), Concatenated(Behind(tp));
    if t: Trace :| EndsClosed(p, th, t) && u == t + code {
      var fuel: nat :| ClosesAt(p, th, fuel, t);
      var k := FollowTrailed(tp, th, fuel);
    }
    if Halts(m, u) {
      var k: nat :| Run(m, k, START) == Halted(u);
      var j := FollowTrailed(tp, th, k + 1);
      var o := ExecCode(FunctionMap(p.functions), th, p.main, [], k + 1);
      if Run(m, j, START).Running? && Step(m, Run(m, j, START)) == Run(m, j, START) {
        StuckNeverHalts(m, j, k, u);
      }
      var last := if j > k then j else k;
      HaltsOnce(m, k, last, START, u);
      if !o.Timeout? {
        HaltsOnce(m, j, last, START, o.trace + code);
        assert ClosesAt(p, th, k + 1, o.trace);
      }
    }
  }

  lemma StuckNeverHalts(m: Machine, j: nat, k: nat, u: Trace)
    requires Run(m, j, START).Running? && Step(m, Run(m, j, START)) == Run(m, j, START)
    ensures Run(m, k, START) != Halted(u)
  {
    hide Run, Step;
    if Run(m, k, START) == Halted(u) {
      var last := if j > k then j else k;
      HaltsOnce(m, k, last, START, u);
      RunAdd(m, j, last - j, START);
      StuckStays(m, last - j, Run(m, j, START));
    }
  }

  // ------------------------------------------------------------------ the condition

  /** Nothing but straight-line opcodes that add no instruction. */
  predicate AddsNothing(ops: seq<Opcode>) { forall op <- ops :: op == OpStraight([]) }

  lemma {:induction false} NothingAdded(ops: seq<Opcode>)
    requires Straight(ops)
    ensures Concatenated(ops) == [] <==> AddsNothing(ops)
    decreases |ops|
  {
    if ops != [] {
      NothingAdded(ops[1..]);
      assert ops[0] == OpStraight(ops[0].code);
      assert AddsNothing(ops) ==> ops[0] in ops && forall op <- ops[1..] :: op in ops;
      assert ops == [ops[0]] + ops[1..];
    }
  }

  lemma ProgramEndsOnce(p: Program, th: Thread, t: Trace, u: Trace)
    requires WfProgram(p.(ret := true)) && ProgramEnds(p, th, t) && ProgramEnds(p, th, u)
    ensures t == u
  {
    hide Run, CompiledMachine, WfProgram, ExecCode;
    var q := p.(ret := true);
    var i: nat, l: nat :| Completes(p, th, i, t) && Completes(p, th, l, u);
    assert Completes(q, th, i, t) && Completes(q, th, l, u);
    CompilationPreservesMeaning(q, th, t);
    CompilationPreservesMeaning(q, th, u);
    var m := CompiledMachine(q, th);
    var j: nat, k: nat :| Run(m, j, START) == Halted(t) && Run(m, k, START) == Halted(u);
    HaltsOnce(m, j, if j > k then j else k, START, t);
    HaltsOnce(m, k, if j > k then j else k, START, u);
  }

  lemma Longer(t: Trace, code: seq<Instr>)
    requires code != []
    ensures t + code != t
  {
    assert |t + code| == |t| + |code|;
  }

  /** A program with anything behind the rets of its main body and its functions, whether code,
      further rets or whole constructs, is compiled correctly for a thread for which it ends if and
      only if what stands there adds no instruction and no terminator, and the thread does not run
      off the end of a main body that functions follow without a ret. */
  lemma TopLevelReturnMustBeLast(tp: Trailed, th: Thread, t: Trace)
    requires WfTrailed(tp) && ProgramEnds(tp.program, th, t)
    ensures Halts(TrailedMachine(tp, th), t) <==> AddsNothing(Behind(tp)) && EndsClosed(tp.program, th, t)
  {
    hide WfProgram, ProgramEnds, EndsClosed, Halts, Behind, TrailedMachine, TrailedStream;
    var ops, p := Behind(tp), tp.program;
    if Straight(ops) {
      TrailingCodeRuns(tp, th, t);
      NothingAdded(ops);
      if AddsNothing(ops) {
        assert forall u: Trace :: u + Concatenated(ops) == u;
      } else if u: Trace :| EndsClosed(p, th, u) && t == u + Concatenated(ops) {
        ClosedEnds(p, th, u);
        ProgramEndsOnce(p, th, t, u);
        Longer(t, Concatenated(ops));
      }
    } else {
      TrailingControlNeverEnds(tp, th, t);
    }
  }

  lemma ClosedEnds(p: Program, th: Thread, t: Trace)
    requires EndsClosed(p, th, t)
    ensures ProgramEnds(p, th, t)
  {
    hide ExecCode;
    var fuel: nat :| ClosesAt(p, th, fuel, t);
    assert Completes(p, th, fuel, t);
  }

  /** Where every main body with functions behind it has its ret, the condition can be read off the
      program: nothing behind any ret. */
  lemma ReturnMustBeLast(tp: Trailed, th: Thread, t: Trace)
    requires WfTrailed(tp) && MainCloses(tp.program) && ProgramEnds(tp.program, th, t)
    ensures Halts(TrailedMachine(tp, th), t) <==> AddsNothing(Behind(tp))
  {
    hide ExecCode, WfTrailed, Halts, Behind, TrailedMachine;
    TopLevelReturnMustBeLast(tp, th, t);
    var fuel: nat :| Completes(tp.program, th, fuel, t);
    assert ClosesAt(tp.program, th, fuel, t);
  }
}
