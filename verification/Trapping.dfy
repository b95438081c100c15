/** The opcodes behind a ret: what they do to the return block, and why no thread ends once one of
    them has overwritten its terminator. */
module Trapping {
  import opened Basics
  import opened Shader
  import opened FlowGraph
  import opened Structured
  import opened BuilderSpec
  import opened InlineSpec

  /** The opcodes that a body is made of. */
  predicate InBody(op: Opcode) {
    !op.OpControlPointPhase? && !op.OpForkJoinPhase? && !op.OpInstanceCount? && !op.OpLabel?
  }

  lemma {:induction false} CodeInBody(c: Code)
    ensures forall op <- Flatten(c) :: InBody(op)
    decreases c, 1
  {
    if c.Then? {
      StmtInBody(c.first);
      CodeInBody(c.rest);
    }
  }

  lemma {:induction false} StmtInBody(s: Stmt)
    ensures forall op <- FlattenStmt(s) :: InBody(op)
    decreases s, 0
  {
    match s
    case If(_, yes) => CodeInBody(yes);
    case IfElse(_, yes, no) =>
      CodeInBody(yes);
      CodeInBody(no);
    case Loop(body) => CodeInBody(body);
    case Switch(_, cs) => ClausesInBody(cs);
    case _ =>
  }

  lemma {:induction false} ClausesInBody(cs: Clauses)
    ensures forall op <- FlattenClauses(cs) :: InBody(op)
    decreases cs, 0
  {
    if cs.Clause? {
      CodeInBody(cs.body);
      ClausesInBody(cs.rest);
    }
  }

  // --------------------------------------- an opcode overwrites the return block

  /** One of the first `n` blocks, and neither the void block nor a function's, which are `fs`. */
  predicate Mainly(b: BlockId, n: nat, fs: set<BlockId>) { ENTRY <= b < n && b !in fs }

  /** All blocks `t` leads to are the main body's. */
  ghost predicate Leads(t: Target, n: nat, fs: set<BlockId>) {
    match t
    case Undefined => true
    case Exit => true
    case Goto(b) => Mainly(b, n, fs)
    case Branch(_, y, z) => Mainly(y, n, fs) && Mainly(z, n, fs)
    case Dispatch(_, cs, d) => Mainly(d, n, fs) && forall k <- cs :: Mainly(cs[k], n, fs)
    case InstanceBarrier(_, a, s) => Mainly(a, n, fs) && Mainly(s, n, fs)
    case WriteOutput(_, e) => Mainly(e, n, fs)
    case Invoke(_, r) => Mainly(r, n, fs)
  }

  ghost predicate Inner(s: seq<BlockId>, n: nat, fs: set<BlockId>) { forall b <- s :: Mainly(b, n, fs) }

  /** No pending block is the void block or a function's. */
  ghost predicate Stacked(s: State, fs: set<BlockId>) {
    var n := |s.blocks|;
    && s.instances == [] && s.funcReturn == None
    && Inner(s.endIfs, n, fs) && Inner(s.continues, n, fs) && Inner(s.breaks, n, fs)
  }

  /** The main body's blocks lead to each other only, and only the return block may end the shader. */
  ghost predicate Sound(g: Graph, fs: set<BlockId>) {
    && RETURN < |g| && (forall b <- fs :: RETURN < b < |g|)
    && forall b: BlockId :: Mainly(b, |g|, fs) ==> Leads(g[b].target, |g|, fs) && (g[b].target.Exit? ==> b == RETURN)
  }

  ghost predicate Tidy(s: State, fs: set<BlockId>) { Stacked(s, fs) && Sound(s.blocks, fs) }

  /** Does the return block still end the shader? */
  predicate EndsShader(g: Graph) { RETURN < |g| && g[RETURN].target.Exit? }

  /** Nothing makes the return block end the shader again. */
  ghost predicate Onward(g: Graph, h: Graph, fs: set<BlockId>) {
    Sound(h, fs) && |g| <= |h| && (EndsShader(h) ==> EndsShader(g))
  }

  lemma FreshOnward(s: State, fs: set<BlockId>)
    requires Sound(s.blocks, fs)
    ensures Onward(s.blocks, Fresh(s).blocks, fs) && |Fresh(s).blocks| == |s.blocks| + 1
  {
  }

  lemma SetOnward(s: State, b: BlockId, t: Target, fs: set<BlockId>)
    requires Sound(s.blocks, fs) && !t.Exit? && (Mainly(b, |s.blocks|, fs) ==> Leads(t, |s.blocks|, fs))
    ensures Onward(s.blocks, SetTarget(s, b, t).blocks, fs) && |SetTarget(s, b, t).blocks| == |s.blocks|
    ensures b == RETURN ==> !EndsShader(SetTarget(s, b, t).blocks)
  {
  }

  lemma AppendOnward(s: State, b: BlockId, code: seq<Instr>, fs: set<BlockId>)
    requires Sound(s.blocks, fs)
    ensures Onward(s.blocks, Append(s, b, code).blocks, fs)
  {
  }

  /** `count` fresh blocks, and the current one closed. */
  lemma CloseOnward(s: State, count: nat, t: Target, fs: set<BlockId>)
    requires Sound(s.blocks, fs) && count <= 2 && Leads(t, |s.blocks| + count, fs) && !t.Exit?
    ensures var s1 := Close(if count == 0 then s else if count == 1 then Fresh(s) else Fresh(Fresh(s)), t);
            Onward(s.blocks, s1.blocks, fs) && (s.current == RETURN ==> !EndsShader(s1.blocks))
  {
    hide Fresh, SetTarget, Sound;
    if count == 0 {
      SetOnward(s, s.current, t, fs);
    } else {
      FreshOnward(s, fs);
      FreshCurrent(s);
      if count == 1 {
        SetOnward(Fresh(s), s.current, t, fs);
      } else {
        FreshOnward(Fresh(s), fs);
        FreshCurrent(Fresh(s));
        SetOnward(Fresh(Fresh(s)), s.current, t, fs);
      }
    }
  }

  lemma FreshCurrent(s: State)
    ensures Fresh(s).current == s.current
  {
  }

  /** New blocks are the main body's. */
  lemma NewBlocks(s: State, fs: set<BlockId>)
    requires Sound(s.blocks, fs)
    ensures var n := |s.blocks|;
            && RETURN < n && Mainly(RETURN, n, fs)
            && Mainly(n, n + 1, fs) && Mainly(n, n + 2, fs) && Mainly(n + 1, n + 2, fs)
    ensures forall b: BlockId, m: nat :: Mainly(b, |s.blocks|, fs) && |s.blocks| <= m ==> Mainly(b, m, fs)
  {
  }

  lemma InnerMore(s: seq<BlockId>, n: nat, m: nat, fs: set<BlockId>)
    requires Inner(s, n, fs) && n <= m
    ensures Inner(s, m, fs) && Inner(Pop(s), m, fs) && (s != [] ==> Mainly(Top(s), n, fs))
  {
    assert forall b <- Pop(s) :: b in s;
    assert s != [] ==> s[0] in s;
  }

  /** What becomes of a stack: it is kept, popped, or has a new block pushed on it. */
  ghost predicate Turns(s: seq<BlockId>, n: nat, after: seq<BlockId>, m: nat) {
    after == s || after == Pop(s) || exists b :: n <= b < m && (after == [b] + s || after == [b] + Pop(s))
  }

  lemma TurnsInner(s: seq<BlockId>, n: nat, after: seq<BlockId>, m: nat, fs: set<BlockId>)
    requires Turns(s, n, after, m) && Inner(s, n, fs) && ENTRY <= n <= m && forall b <- fs :: b < n
    ensures Inner(after, m, fs)
  {
    InnerMore(s, n, m, fs);
  }

  lemma IfTurns(s: State, op: Opcode)
    requires InBody(op)
    ensures var n, s1 := |s.blocks|, StepOp(s, op); Turns(s.endIfs, n, s1.endIfs, |s1.blocks|)
  {
  }

  lemma BreakTurns(s: State, op: Opcode)
    requires InBody(op)
    ensures var n, s1 := |s.blocks|, StepOp(s, op); Turns(s.breaks, n, s1.breaks, |s1.blocks|)
  {
  }

  lemma LoopTurns(s: State, op: Opcode)
    requires InBody(op)
    ensures var n, s1 := |s.blocks|, StepOp(s, op); Turns(s.continues, n, s1.continues, |s1.blocks|)
  {
  }

  lemma NoneTurns(s: State, op: Opcode)
    requires InBody(op) && s.instances == [] && s.funcReturn == None
    ensures StepOp(s, op).instances == [] && StepOp(s, op).funcReturn == None
  {
  }

  lemma StepGrows(s: State, op: Opcode)
    ensures |StepOp(s, op).blocks| >= |s.blocks|
  {
  }

  lemma StepStacked(s: State, op: Opcode, fs: set<BlockId>)
    requires Stacked(s, fs) && RETURN < |s.blocks| && (forall b <- fs :: b < |s.blocks|) && InBody(op)
    ensures Stacked(StepOp(s, op), fs)
  {
    hide StepOp, Turns, Inner, InBody;
    var n, s1 := |s.blocks|, StepOp(s, op);
    NoneTurns(s, op);
    StepGrows(s, op);
    IfTurns(s, op);
    BreakTurns(s, op);
    LoopTurns(s, op);
    TurnsInner(s.endIfs, n, s1.endIfs, |s1.blocks|, fs);
    TurnsInner(s.breaks, n, s1.breaks, |s1.blocks|, fs);
    TurnsInner(s.continues, n, s1.continues, |s1.blocks|, fs);
  }

  /** What one opcode does to the blocks. */
  ghost predicate Steps(s: State, op: Opcode, fs: set<BlockId>) {
    && Onward(s.blocks, StepOp(s, op).blocks, fs)
    && (s.current == RETURN && !op.OpStraight? ==> !EndsShader(StepOp(s, op).blocks))
  }

  lemma StepOnward(s: State, op: Opcode, fs: set<BlockId>)
    requires Tidy(s, fs) && Accepts(s, op) && InBody(op)
    ensures Steps(s, op, fs)
  {
    hide Steps, Tidy;
    match op
    case OpIf(_) => BranchOnward(s, op, fs);
    case OpElse => BranchOnward(s, op, fs);
    case OpEndIf => BranchOnward(s, op, fs);
    case OpLoop => LoopOnward(s, op, fs);
    case OpEndLoop => LoopOnward(s, op, fs);
    case OpEndSwitch => LoopOnward(s, op, fs);
    case OpBreak => JumpOnward(s, op, fs);
    case OpContinue => JumpOnward(s, op, fs);
    case OpRet => JumpOnward(s, op, fs);
    case OpBreakC(_) => EscapeOnward(s, op, fs);
    case OpContinueC(_) => EscapeOnward(s, op, fs);
    case OpRetC(_) => EscapeOnward(s, op, fs);
    case OpCase(_) => ClauseOnward(s, op, fs);
    case OpDefault => ClauseOnward(s, op, fs);
    case _ => PlainOnward(s, op, fs);
  }

  /** Opcodes of an if. */
  lemma BranchOnward(s: State, op: Opcode, fs: set<BlockId>)
    requires Tidy(s, fs) && Accepts(s, op) && (op.OpIf? || op.OpElse? || op.OpEndIf?)
    ensures Steps(s, op, fs)
  {
    var n := |s.blocks|;
    NewBlocks(s, fs);
    InnerMore(s.endIfs, n, n, fs);
    hide Sound, Onward, SetTarget, Fresh, EndsShader, Inner, Mainly;
    match op
    case OpIf(c) => CloseOnward(s, 2, Branch(c, n, n + 1), fs);
    case OpElse => CloseOnward(s, 1, Goto(n), fs);
    case OpEndIf => CloseOnward(s, 0, Goto(Top(s.endIfs)), fs);
  }

  /** Opcodes of a loop, and the end of a switch. */
  lemma LoopOnward(s: State, op: Opcode, fs: set<BlockId>)
    requires Tidy(s, fs) && Accepts(s, op) && (op.OpLoop? || op.OpEndLoop? || op.OpEndSwitch?)
    ensures Steps(s, op, fs)
  {
    var n := |s.blocks|;
    NewBlocks(s, fs);
    InnerMore(s.continues, n, n, fs);
    InnerMore(s.breaks, n, n, fs);
    hide Sound, Onward, SetTarget, Fresh, EndsShader, Inner, Mainly;
    match op
    case OpLoop => CloseOnward(s, 2, Goto(n), fs);
    case OpEndLoop => CloseOnward(s, 0, Goto(Top(s.continues)), fs);
    case OpEndSwitch => CloseOnward(s, 0, Goto(Top(s.breaks)), fs);
  }

  lemma JumpOnward(s: State, op: Opcode, fs: set<BlockId>)
    requires Tidy(s, fs) && Accepts(s, op) && (op.OpBreak? || op.OpContinue? || op.OpRet?)
    ensures Steps(s, op, fs)
  {
    var n := |s.blocks|;
    NewBlocks(s, fs);
    InnerMore(s.continues, n, n, fs);
    InnerMore(s.breaks, n, n, fs);
    hide Sound, Onward, SetTarget, Fresh, EndsShader, Inner, Mainly;
    match op
    case OpBreak => CloseOnward(s, 0, Goto(Top(s.breaks)), fs);
    case OpContinue => CloseOnward(s, 0, Goto(Top(s.continues)), fs);
    case OpRet => CloseOnward(s, 0, Goto(RETURN), fs);
  }

  lemma EscapeOnward(s: State, op: Opcode, fs: set<BlockId>)
    requires Tidy(s, fs) && Accepts(s, op) && (op.OpBreakC? || op.OpContinueC? || op.OpRetC?)
    ensures Steps(s, op, fs)
  {
    var n := |s.blocks|;
    NewBlocks(s, fs);
    InnerMore(s.continues, n, n, fs);
    InnerMore(s.breaks, n, n, fs);
    hide Sound, Onward, SetTarget, Fresh, EndsShader, Inner, Mainly;
    match op
    case OpBreakC(c) => CloseOnward(s, 1, Branch(c, Top(s.breaks), n), fs);
    case OpContinueC(c) => CloseOnward(s, 1, Branch(c, Top(s.continues), n), fs);
    case OpRetC(c) => CloseOnward(s, 1, Branch(c, RETURN, n), fs);
  }

  lemma PlainOnward(s: State, op: Opcode, fs: set<BlockId>)
    requires Tidy(s, fs) && (op.OpStraight? || op.OpSwitch? || op.OpDiscard? || op.OpCall?)
    ensures Steps(s, op, fs)
  {
    var n := |s.blocks|;
    NewBlocks(s, fs);
    hide Sound, Onward, SetTarget, Fresh, Append, EndsShader, Inner, Mainly;
    match op
    case OpStraight(code) => AppendOnward(s, s.current, code, fs);
    case OpSwitch(v) => CloseOnward(s, 1, Dispatch(v, map[], n), fs);
    case OpDiscard(c) => DiscardOnward(s, c, fs);
    case OpCall(f) => CloseOnward(s, 1, Invoke(f, n), fs);
  }

  lemma DiscardOnward(s: State, c: Condition, fs: set<BlockId>)
    requires Sound(s.blocks, fs)
    ensures Steps(s, OpDiscard(c), fs)
  {
    var n := |s.blocks|;
    var s1 := Close(Fresh(Fresh(s)), Branch(c, n, n + 1));
    NewBlocks(s, fs);
    DiscardIs(s, c);
    hide Sound, SetTarget, Append, EndsShader, Mainly, StepOp, Fresh;
    CloseOnward(s, 2, Branch(c, n, n + 1), fs);
    CloseSize(s, c);
    SetOnward(s1, n, Goto(n + 1), fs);
    AppendOnward(SetTarget(s1, n, Goto(n + 1)), n, [PixelDiscard], fs);
  }

  lemma DiscardIs(s: State, c: Condition)
    ensures var n := |s.blocks|;
            var s1 := Close(Fresh(Fresh(s)), Branch(c, n, n + 1));
            StepOp(s, OpDiscard(c)).blocks == Append(SetTarget(s1, n, Goto(n + 1)), n, [PixelDiscard]).blocks
  {
  }

  lemma CloseSize(s: State, c: Condition)
    ensures var n := |s.blocks|; |Close(Fresh(Fresh(s)), Branch(c, n, n + 1)).blocks| == n + 2
  {
  }

  /** A clause's block is entered from the switch head and from the block before it. */
  lemma ClauseOnward(s: State, op: Opcode, fs: set<BlockId>)
    requires Tidy(s, fs) && HoldsSwitch(s) && (op.OpCase? || op.OpDefault?)
    ensures Steps(s, op, fs)
  {
    var n, head := |s.blocks|, Top(s.switches);
    var entered := if op.OpCase? then AddCase(TargetOf(s, head), op.val, n) else SetDefault(TargetOf(s, head), n);
    assert StepOp(s, op) == StepClause(s, entered);
    NewBlocks(s, fs);
    EnteredLeads(s, op, fs);
    hide Fresh, SetTarget, Sound, AddCase, SetDefault, HoldsSwitch, Mainly, StepOp, EndsShader;
    FreshOnward(s, fs);
    FreshCurrent(s);
    SetOnward(Fresh(s), head, entered, fs);
    SetCurrent(Fresh(s), head, entered);
    SetOnward(SetTarget(Fresh(s), head, entered), s.current, Goto(n), fs);
  }

  lemma SetCurrent(s: State, b: BlockId, t: Target)
    ensures SetTarget(s, b, t).current == s.current
  {
  }

  lemma EnteredLeads(s: State, op: Opcode, fs: set<BlockId>)
    requires Sound(s.blocks, fs) && HoldsSwitch(s) && (op.OpCase? || op.OpDefault?)
    ensures var n, head := |s.blocks|, Top(s.switches);
            var entered :=
              if op.OpCase? then AddCase(TargetOf(s, head), op.val, n) else SetDefault(TargetOf(s, head), n);
            !entered.Exit? && (Mainly(head, n + 1, fs) ==> Leads(entered, n + 1, fs))
  {
  }

  predicate Straight(ops: seq<Opcode>) { forall op <- ops :: op.OpStraight? }

  lemma {:induction false} ReadTidy(s: State, ops: seq<Opcode>, fs: set<BlockId>)
    requires Tidy(s, fs) && Accepted(s, ops) && forall op <- ops :: InBody(op)
    ensures var s1 := Process(s, ops);
            && Tidy(s1, fs) && Onward(s.blocks, s1.blocks, fs)
            && (s.current == RETURN && !Straight(ops) ==> !EndsShader(s1.blocks))
    decreases |ops|
  {
    hide StepOp, Stacked, EndsShader, InBody, Accepts;
    if ops != [] {
      var op := ops[0];
      StepStacked(s, op, fs);
      StepOnward(s, op, fs);
      ReadTidy(StepOp(s, op), ops[1..], fs);
      if op.OpStraight? {
        StraightStays(s, op);
        assert !Straight(ops) ==> !Straight(ops[1..]);
      }
    }
  }

  lemma StraightStays(s: State, op: Opcode)
    requires op.OpStraight?
    ensures StepOp(s, op) == Append(s, s.current, op.code) && StepOp(s, op).current == s.current
  {
  }

  // ----------------------------------------------------- runs that cannot end

  /** No block of the main body ends the shader or leads anywhere else. */
  ghost predicate Trapped(g: Graph, fs: set<BlockId>) {
    forall b: BlockId :: Mainly(b, |g|, fs) ==> Leads(g[b].target, |g|, fs) && !g[b].target.Exit?
  }

  lemma SoundIsTrapped(g: Graph, fs: set<BlockId>)
    requires Sound(g, fs) && !EndsShader(g)
    ensures Trapped(g, fs) && Mainly(ENTRY, |g|, fs)
  {
  }

  /** Functions keep to their own blocks. */
  ghost predicate Apart(g: Graph, entries: map<FuncId, BlockId>, fs: set<BlockId>) {
    && (forall f <- entries :: entries[f] in fs)
    && (forall b <- fs :: b < |g| && Inside(g[b].target, fs))
  }

  /** Inside a call the outermost return point belongs to the main body, the others to functions. */
  ghost predicate Nested(g: Graph, fs: set<BlockId>, c: Config) {
    && c.Running?
    && if c.stack == [] then Mainly(c.block, |g|, fs)
       else
         var last := |c.stack| - 1;
         && c.block in fs && Mainly(c.stack[last], |g|, fs)
         && forall i :: 0 <= i < last ==> c.stack[i] in fs
  }

  lemma StepNested(m: Machine, fs: set<BlockId>, c: Config)
    requires Trapped(m.graph, fs) && Apart(m.graph, m.entries, fs) && Nested(m.graph, fs, c)
    ensures Nested(m.graph, fs, Step(m, c))
  {
  }

  lemma {:induction false} NeverHalts(m: Machine, fs: set<BlockId>, k: nat, c: Config)
    requires Trapped(m.graph, fs) && Apart(m.graph, m.entries, fs) && Nested(m.graph, fs, c)
    ensures Run(m, k, c).Running?
    decreases k
  {
    hide Trapped, Apart, Step;
    if k > 0 {
      StepNested(m, fs, c);
      NeverHalts(m, fs, k - 1, Step(m, c));
    }
  }

  // ------------------------------------------------- straight-line code behind the ret

  function Concatenated(ops: seq<Opcode>): seq<Instr>
    requires Straight(ops)
  {
    if ops == [] then [] else ops[0].code + Concatenated(ops[1..])
  }

  lemma {:induction false} ReadStraight(s: State, ops: seq<Opcode>)
    requires Straight(ops) && s.current < |s.blocks|
    ensures Process(s, ops) == Append(s, s.current, Concatenated(ops))
    decreases |ops|
  {
    hide Append, Concatenated, StepOp;
    NoneConcatenated(s);
    if ops != [] {
      StraightStays(s, ops[0]);
      AppendKeeps(s, s.current, ops[0].code);
      ReadStraight(StepOp(s, ops[0]), ops[1..]);
      AppendTwice(s, s.current, ops[0].code, Concatenated(ops[1..]));
      ConcatenatedFirst(ops);
    }
  }

  lemma NoneConcatenated(s: State)
    requires s.current < |s.blocks|
    ensures Append(s, s.current, Concatenated([])) == s
  {
    assert s.blocks[s.current].code + [] == s.blocks[s.current].code;
  }

  lemma ConcatenatedFirst(ops: seq<Opcode>)
    requires ops != [] && Straight(ops)
    ensures Straight(ops[1..]) && Concatenated(ops) == ops[0].code + Concatenated(ops[1..])
  {
  }

  lemma AppendKeeps(s: State, b: BlockId, code: seq<Instr>)
    ensures Append(s, b, code).current == s.current && |Append(s, b, code).blocks| == |s.blocks|
  {
  }

  lemma AppendTwice(s: State, b: BlockId, c1: seq<Instr>, c2: seq<Instr>)
    ensures Append(Append(s, b, c1), b, c2) == Append(s, b, c1 + c2)
  {
    if b < |s.blocks| {
      assert (s.blocks[b].code + c1) + c2 == s.blocks[b].code + (c1 + c2);
    }
  }
}
