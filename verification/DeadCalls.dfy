/** Calls in dead code, behind a break, continue or ret: they end the shared void block, of which the
    builder keeps a pointer to the call.  Exactly when that pointer is still good when the inliner
    comes to it. */
module DeadCalls {
  import opened Basics
  import opened Shader
  import opened FlowGraph
  import opened BuilderSpec

  /** What the builder demands of a stream in which calls may also stand in dead code. */
  predicate AcceptsDead(s: State, op: Opcode) { op.OpCall? || Accepts(s, op) }

  predicate AcceptedDead(s: State, ops: seq<Opcode>)
    decreases ops
  {
    ops == [] || (AcceptsDead(s, ops[0]) && AcceptedDead(StepOp(s, ops[0]), ops[1..]))
  }

  predicate IsDeadCall(s: State, op: Opcode) { op.OpCall? && s.current == VOID }

  /** The calls in dead code among `ops`. */
  function CountDead(s: State, ops: seq<Opcode>): nat
    decreases ops
  {
    if ops == [] then 0
    else (if IsDeadCall(s, ops[0]) then 1 else 0) + CountDead(StepOp(s, ops[0]), ops[1..])
  }

  /** Does reading `op` give the void block a terminator? */
  predicate EndsVoid(s: State, op: Opcode) {
    s.current == VOID && !op.OpStraight? && !op.OpLabel? && !op.OpInstanceCount?
  }

  /** Is the last opcode that gives the void block a terminator a call?  `before` says so of the
      stream before `ops`. */
  predicate CallIsLast(s: State, ops: seq<Opcode>, before: bool)
    decreases ops
  {
    if ops == [] then before
    else CallIsLast(StepOp(s, ops[0]), ops[1..], if EndsVoid(s, ops[0]) then ops[0].OpCall? else before)
  }

  /** How often the void block is listed as a call's. */
  function Listed(sites: seq<BlockId>): nat {
    if sites == [] then 0 else Listed(sites[..|sites| - 1]) + if sites[|sites| - 1] == VOID then 1 else 0
  }

  lemma ListedOneMore(sites: seq<BlockId>, b: BlockId)
    ensures Listed(sites + [b]) == Listed(sites) + if b == VOID then 1 else 0
  {
    assert (sites + [b])[..|sites|] == sites;
  }

  /** No pointer into the void block is kept but for calls. */
  ghost predicate OnlyCalls(s: State) { VOID !in s.switches && VOID !in s.instances && RETURN < |s.blocks| }

  predicate VoidCalls(s: State) { TargetOf(s, VOID).Invoke? }

  /** One opcode: what becomes of the void block and of the call list. */
  lemma StepVoid(s: State, op: Opcode)
    requires OnlyCalls(s) && AcceptsDead(s, op)
    ensures OnlyCalls(StepOp(s, op))
    ensures VoidCalls(StepOp(s, op)) <==> if EndsVoid(s, op) then op.OpCall? else VoidCalls(s)
  {
    match op
    case OpStraight(_) => VoidStays(s, op);
    case OpCase(_) => ClauseVoid(s, op);
    case OpDefault => ClauseVoid(s, op);
    case OpInstanceCount(_) => VoidStays(s, op);
    case OpLabel(_) => VoidStays(s, op);
    case OpDiscard(_) => OpenVoid(s, op);
    case OpCall(_) => OpenVoid(s, op);
    case OpSwitch(_) => OpenVoid(s, op);
    case OpControlPointPhase(_) => PhaseVoid(s, op);
    case OpForkJoinPhase => PhaseVoid(s, op);
    case OpEndSwitch => PopVoid(s, op);
    case OpRet => PopVoid(s, op);
    case _ => NestVoid(s, op);
  }

  lemma VoidStays(s: State, op: Opcode)
    requires OnlyCalls(s) && AcceptsDead(s, op) && (op.OpStraight? || op.OpInstanceCount? || op.OpLabel?)
    ensures OnlyCalls(StepOp(s, op)) && (VoidCalls(StepOp(s, op)) <==> VoidCalls(s))
  {
  }

  lemma ClauseVoid(s: State, op: Opcode)
    requires OnlyCalls(s) && AcceptsDead(s, op) && (op.OpCase? || op.OpDefault?)
    ensures OnlyCalls(StepOp(s, op))
    ensures VoidCalls(StepOp(s, op)) <==> if EndsVoid(s, op) then op.OpCall? else VoidCalls(s)
  {
    assert s.switches[0] in s.switches;
  }

  lemma OpenVoid(s: State, op: Opcode)
    requires OnlyCalls(s) && AcceptsDead(s, op) && (op.OpDiscard? || op.OpCall? || op.OpSwitch?)
    ensures OnlyCalls(StepOp(s, op))
    ensures VoidCalls(StepOp(s, op)) <==> if EndsVoid(s, op) then op.OpCall? else VoidCalls(s)
  {
  }

  lemma PhaseVoid(s: State, op: Opcode)
    requires OnlyCalls(s) && AcceptsDead(s, op) && (op.OpControlPointPhase? || op.OpForkJoinPhase?)
    ensures OnlyCalls(StepOp(s, op))
    ensures VoidCalls(StepOp(s, op)) <==> if EndsVoid(s, op) then op.OpCall? else VoidCalls(s)
  {
  }

  lemma PopVoid(s: State, op: Opcode)
    requires OnlyCalls(s) && AcceptsDead(s, op) && (op.OpEndSwitch? || op.OpRet?)
    ensures OnlyCalls(StepOp(s, op))
    ensures VoidCalls(StepOp(s, op)) <==> if EndsVoid(s, op) then op.OpCall? else VoidCalls(s)
  {
    assert forall b <- Pop(s.switches) :: b in s.switches;
    assert forall b <- Pop(s.instances) :: b in s.instances;
  }

  lemma NestVoid(s: State, op: Opcode)
    requires OnlyCalls(s) && (op.OpIf? || op.OpElse? || op.OpEndIf? || op.OpLoop? || op.OpEndLoop? || op.OpBreak?
                              || op.OpContinue? || op.OpBreakC? || op.OpContinueC? || op.OpRetC?)
    ensures OnlyCalls(StepOp(s, op))
    ensures VoidCalls(StepOp(s, op)) <==> if EndsVoid(s, op) then op.OpCall? else VoidCalls(s)
  {
  }

  lemma StepListed(s: State, op: Opcode)
    ensures Listed(StepOp(s, op).callSites) == Listed(s.callSites) + if IsDeadCall(s, op) then 1 else 0
  {
    ListedOneMore(s.callSites, s.current);
  }

  /** After any stream the void block is listed once for every dead call, and ends in a call exactly
      if a call was the last to end it. */
  lemma {:induction false} ReadVoid(s: State, ops: seq<Opcode>)
    requires OnlyCalls(s) && AcceptedDead(s, ops)
    ensures var after := Process(s, ops);
            && OnlyCalls(after) && (VoidCalls(after) <==> CallIsLast(s, ops, VoidCalls(s)))
            && Listed(after.callSites) == Listed(s.callSites) + CountDead(s, ops)
    decreases |ops|
  {
    hide StepOp, OnlyCalls, VoidCalls, Listed, EndsVoid, IsDeadCall, AcceptsDead;
    if ops != [] {
      StepVoid(s, ops[0]);
      StepListed(s, ops[0]);
      ReadVoid(StepOp(s, ops[0]), ops[1..]);
    }
  }

  /** The call that the inliner reads through a kept pointer into the void block: it must be there
      when the block's turn comes, and redirecting the block destroys it. */
  predicate PointersGood(s: State) { Listed(s.callSites) == 0 || (Listed(s.callSites) == 1 && VoidCalls(s)) }

  /** A call in dead code does no harm exactly if it is the only one of the shader, and no opcode
      behind it gives the void block another terminator. */
  lemma DeadCallsDoHarm(ops: seq<Opcode>, copyOut: Option<nat>)
    requires AcceptedDead(INITIAL, ops)
    ensures var dead, end := CountDead(INITIAL, ops), Process(INITIAL, ops);
            PointersGood(Finish(end, copyOut))
            <==> dead == 0 || (dead == 1 && CallIsLast(INITIAL, ops, false) && end.current != VOID)
  {
    hide Process;
    ReadVoid(INITIAL, ops);
    var s := Process(INITIAL, ops);
    FinishVoid(s, copyOut);
  }

  lemma FinishVoid(s: State, copyOut: Option<nat>)
    requires RETURN < |s.blocks|
    ensures Finish(s, copyOut).callSites == s.callSites
    ensures VoidCalls(Finish(s, copyOut)) <==> s.current != VOID && VoidCalls(s)
  {
  }

  /** The streams of well-formed programs, which the builder accepts without this exception, have none. */
  lemma {:induction false} AcceptedHasNone(s: State, ops: seq<Opcode>)
    requires Accepted(s, ops)
    ensures AcceptedDead(s, ops) && CountDead(s, ops) == 0
    decreases |ops|
  {
    hide StepOp;
    if ops != [] {
      AcceptedHasNone(StepOp(s, ops[0]), ops[1..]);
    }
  }
}
