/** The one-pass block builder as a state machine on values: what each opcode does to
    the block list and to the stacks of pending blocks. */
module BuilderSpec {
  import opened Basics
  import opened Shader
  import opened FlowGraph

  /** Stack tops are at index 0.  `switches` and `instances` name the block whose
      terminator the source keeps a pointer into; `callSites` the blocks that end in a call. */
  datatype State = State(
    blocks: Graph,
    current: BlockId,
    endIfs: seq<BlockId>,
    continues: seq<BlockId>,
    breaks: seq<BlockId>,
    switches: seq<BlockId>,
    instances: seq<BlockId>,
    funcReturn: Option<BlockId>,
    entries: map<FuncId, BlockId>,
    callSites: seq<BlockId>)

  const INITIAL := State([EMPTY_BLOCK, EMPTY_BLOCK, Block([], Exit)], ENTRY, [], [], [], [], [], None, map[], [])

  function Top(s: seq<BlockId>): BlockId { if s == [] then VOID else s[0] }

  function Pop(s: seq<BlockId>): seq<BlockId> { if s == [] then s else s[1..] }

  /** The state with one more, empty block. */
  function Fresh(s: State): State { s.(blocks := s.blocks + [EMPTY_BLOCK]) }

  function SetTarget(s: State, b: BlockId, t: Target): State {
    if b < |s.blocks| then s.(blocks := s.blocks[b := s.blocks[b].(target := t)]) else s
  }

  predicate AtTopLevel(s: State) { s.endIfs == [] && s.breaks == [] }

  function Append(s: State, b: BlockId, code: seq<Instr>): State {
    if b < |s.blocks| then s.(blocks := s.blocks[b := s.blocks[b].(code := s.blocks[b].code + code)]) else s
  }

  /** Terminates the current block. */
  function Close(s: State, t: Target): State { SetTarget(s, s.current, t) }

  function TargetOf(s: State, b: BlockId): Target {
    if b < |s.blocks| then s.blocks[b].target else Undefined
  }

  /** Where RET goes: the function's end, else the hull phase's sync block, else the return block. */
  function ReturnTarget(s: State): BlockId {
    if s.funcReturn.Some? then s.funcReturn.value
    else if s.instances != [] && TargetOf(s, s.instances[0]).InstanceBarrier? then
      TargetOf(s, s.instances[0]).sync
    else RETURN
  }

  function StepRet(s: State): State {
    var to := ReturnTarget(s);
    var closed := Close(s, Goto(to));
    if AtTopLevel(s) then
      if s.funcReturn.Some? then closed.(current := RETURN, funcReturn := None)
      else closed.(current := to, instances := Pop(s.instances))
    else closed.(current := VOID)
  }

  /** Enters a new block when `cond` fails, and goes to `to` when it holds. */
  function StepEscapeIf(s: State, cond: Condition, to: BlockId): State {
    Close(Fresh(s), Branch(cond, to, |s.blocks|)).(current := |s.blocks|)
  }

  /** Opens a clause: a fresh block, entered from the switch and by fall-through. */
  function StepClause(s: State, entered: Target): State {
    Close(SetTarget(Fresh(s), Top(s.switches), entered), Goto(|s.blocks|)).(current := |s.blocks|)
  }

  function AddCase(t: Target, val: int, b: BlockId): Target {
    if t.Dispatch? && val !in t.cases then t.(cases := t.cases[val := b]) else t
  }

  function SetDefault(t: Target, b: BlockId): Target {
    if t.Dispatch? then t.(fallback := b) else t
  }

  function StepPhase(s: State, count: nat): State {
    var active, sync := |s.blocks|, |s.blocks| + 1;
    var s1 := Append(Fresh(Fresh(s)), sync, [Sync]);
    Close(s1, InstanceBarrier(count, active, sync)).(instances := [s.current] + s.instances, current := active)
  }

  function StepOp(s: State, op: Opcode): State {
    var n := |s.blocks|;
    match op
    case OpStraight(code) => Append(s, s.current, code)
    case OpIf(c) => Close(Fresh(Fresh(s)), Branch(c, n, n + 1)).(endIfs := [n + 1] + s.endIfs, current := n)
    case OpElse => Close(Fresh(s), Goto(n)).(endIfs := [n] + Pop(s.endIfs), current := Top(s.endIfs))
    case OpEndIf => Close(s, Goto(Top(s.endIfs))).(endIfs := Pop(s.endIfs), current := Top(s.endIfs))
    case OpLoop =>
      Close(Fresh(Fresh(s)), Goto(n)).(continues := [n] + s.continues, breaks := [n + 1] + s.breaks, current := n)
    case OpEndLoop =>
      Close(s, Goto(Top(s.continues))).(continues := Pop(s.continues), breaks := Pop(s.breaks),
                                        current := Top(s.breaks))
    case OpBreak => Close(s, Goto(Top(s.breaks))).(current := VOID)
    case OpContinue => Close(s, Goto(Top(s.continues))).(current := VOID)
    case OpBreakC(c) => StepEscapeIf(s, c, Top(s.breaks))
    case OpContinueC(c) => StepEscapeIf(s, c, Top(s.continues))
    case OpSwitch(v) =>
      Close(Fresh(s), Dispatch(v, map[], n)).(breaks := [n] + s.breaks, switches := [s.current] + s.switches,
                                              current := VOID)
    case OpCase(x) => StepClause(s, AddCase(TargetOf(s, Top(s.switches)), x, n))
    case OpDefault => StepClause(s, SetDefault(TargetOf(s, Top(s.switches)), n))
    case OpEndSwitch =>
      Close(s, Goto(Top(s.breaks))).(breaks := Pop(s.breaks), switches := Pop(s.switches), current := Top(s.breaks))
    case OpRet => StepRet(s)
    case OpRetC(c) => StepEscapeIf(s, c, ReturnTarget(s))
    case OpDiscard(c) =>
      var s1 := Close(Fresh(Fresh(s)), Branch(c, n, n + 1));
      Append(SetTarget(s1, n, Goto(n + 1)), n, [PixelDiscard]).(current := n + 1)
    case OpControlPointPhase(count) => StepPhase(s, count)
    case OpForkJoinPhase => StepPhase(s, 1)
    case OpInstanceCount(count) =>
      var b := Top(s.instances);
      if TargetOf(s, b).InstanceBarrier? then SetTarget(s, b, TargetOf(s, b).(count := count)) else s
    case OpLabel(f) =>
      var s1 := SetTarget(Fresh(Fresh(s)), n + 1, Exit);
      s1.(entries := s.entries[f := n], funcReturn := Some(n + 1), current := n)
    case OpCall(f) =>
      Close(Fresh(s), Invoke(f, n)).(callSites := s.callSites + [s.current], current := n)
  }

  function Process(s: State, ops: seq<Opcode>): State
    decreases ops
  {
    if ops == [] then s else Process(StepOp(s, ops[0]), ops[1..])
  }

  /** The end of the stream: what is still open goes to the return block, in a hull shader
      that has to write its control points through the copying epilogue. */
  function Finish(s: State, copyOut: Option<nat>): State {
    if s.current == RETURN then s
    else
      var end := match copyOut case None => Goto(RETURN) case Some(count) => WriteOutput(count, RETURN);
      Close(s, end).(current := RETURN)
  }

  lemma {:induction false} ProcessAppend(s: State, a: seq<Opcode>, b: seq<Opcode>)
    ensures Process(s, a + b) == Process(Process(s, a), b)
    decreases |a|
  {
    if a == [] {
      assert a + b == b;
    } else {
      assert (a + b)[1..] == a[1..] + b;
      ProcessAppend(StepOp(s, a[0]), a[1..], b);
    }
  }

  /** A bracketed stretch of the stream: one opcode, a body, one opcode. */
  lemma ProcessBracket(s: State, open: Opcode, body: seq<Opcode>, close: Opcode)
    ensures Process(s, [open] + body + [close]) == StepOp(Process(StepOp(s, open), body), close)
  {
    ProcessAppend(s, [open] + body, [close]);
    ProcessAppend(s, [open], body);
    ProcessOne(s, open);
    ProcessOne(Process(StepOp(s, open), body), close);
  }

  lemma ProcessNone(s: State)
    ensures Process(s, []) == s
  {
  }

  lemma ProcessOne(s: State, op: Opcode)
    ensures Process(s, [op]) == StepOp(s, op)
  {
    assert Process(StepOp(s, op), [op][1..]) == StepOp(s, op);
  }

  // ----------------------------------------------- what the source demands of the stream

  /** Is the pointer that the source keeps to a terminator still good? */
  predicate HoldsSwitch(s: State) { s.switches != [] && TargetOf(s, s.switches[0]).Dispatch? }

  predicate HoldsPhase(s: State) { s.instances != [] && TargetOf(s, s.instances[0]).InstanceBarrier? }

  /** No empty stack is popped, no terminator is patched that has been overwritten, and neither a
      switch nor a call is opened in dead code. */
  predicate Accepts(s: State, op: Opcode) {
    match op
    case OpElse => s.endIfs != []
    case OpEndIf => s.endIfs != []
    case OpEndLoop => s.continues != [] && s.breaks != []
    case OpBreak => s.breaks != []
    case OpContinue => s.continues != []
    case OpBreakC(_) => s.breaks != []
    case OpContinueC(_) => s.continues != []
    case OpSwitch(_) => s.current != VOID
    case OpCase(_) => HoldsSwitch(s)
    case OpDefault => HoldsSwitch(s)
    case OpEndSwitch => s.switches != [] && s.breaks != []
    case OpRet => s.funcReturn.Some? || s.instances == [] || HoldsPhase(s)
    case OpRetC(_) => s.funcReturn.Some? || s.instances == [] || HoldsPhase(s)
    case OpControlPointPhase(_) => s.current != VOID
    case OpForkJoinPhase => s.current != VOID
    case OpInstanceCount(_) => HoldsPhase(s)
    case OpCall(_) => s.current != VOID
    case _ => true
  }

  predicate Accepted(s: State, ops: seq<Opcode>)
    decreases ops
  {
    ops == [] || (Accepts(s, ops[0]) && Accepted(StepOp(s, ops[0]), ops[1..]))
  }

  lemma {:induction false} AcceptedAppend(s: State, a: seq<Opcode>, b: seq<Opcode>)
    requires Accepted(s, a) && Accepted(Process(s, a), b)
    ensures Accepted(s, a + b)
    decreases |a|
  {
    if a == [] {
      assert a + b == b;
    } else {
      assert (a + b)[1..] == a[1..] + b && (a + b)[0] == a[0];
      AcceptedAppend(StepOp(s, a[0]), a[1..], b);
    }
  }

  lemma AcceptedOne(s: State, op: Opcode)
    requires Accepts(s, op)
    ensures Accepted(s, [op])
  {
    assert [op][1..] == [];
  }

  lemma AcceptedBracket(s: State, open: Opcode, body: seq<Opcode>, close: Opcode)
    requires Accepts(s, open) && Accepted(StepOp(s, open), body)
    requires Accepts(Process(StepOp(s, open), body), close)
    ensures Accepted(s, [open] + body + [close])
  {
    AcceptedOne(s, open);
    ProcessOne(s, open);
    AcceptedAppend(s, [open], body);
    ProcessAppend(s, [open], body);
    AcceptedOne(Process(StepOp(s, open), body), close);
    AcceptedAppend(s, [open] + body, [close]);
  }

  // --------------------------------------------------- block numbers in hand exist

  predicate Below(s: seq<BlockId>, n: nat) { forall b <- s :: b < n }

  /** Every block number the builder may follow is one of its blocks. */
  predicate InBounds(s: State) {
    var n := |s.blocks|;
    && RETURN < n && s.current < n
    && Below(s.endIfs, n) && Below(s.continues, n) && Below(s.breaks, n) && Below(s.switches, n)
    && Below(s.instances, n)
    && (s.funcReturn.Some? ==> s.funcReturn.value < n)
    && (forall t: BlockId :: t < n && s.blocks[t].target.InstanceBarrier? ==> s.blocks[t].target.sync < n)
  }

  lemma StepInBounds(s: State, op: Opcode)
    requires InBounds(s) && Accepts(s, op)
    ensures InBounds(StepOp(s, op))
  {
    hide StepOp;
    match op
    case OpControlPointPhase(_) => PhaseInBounds(s, op);
    case OpForkJoinPhase => PhaseInBounds(s, op);
    case OpCase(_) => ClauseInBounds(s, op);
    case OpDefault => ClauseInBounds(s, op);
    case OpDiscard(_) => DiscardInBounds(s, op);
    case OpInstanceCount(_) => RestInBounds(s, op);
    case OpLabel(_) => RestInBounds(s, op);
    case OpCall(_) => RestInBounds(s, op);
    case OpStraight(_) => RestInBounds(s, op);
    case OpRet => LeaveInBounds(s, op);
    case OpBreak => LeaveInBounds(s, op);
    case OpContinue => LeaveInBounds(s, op);
    case OpRetC(_) => LeaveInBounds(s, op);
    case OpBreakC(_) => LeaveInBounds(s, op);
    case OpContinueC(_) => LeaveInBounds(s, op);
    case _ => NestInBounds(s, op);
  }

  /** Opcodes that leave a construct. */
  lemma LeaveInBounds(s: State, op: Opcode)
    requires InBounds(s) && Accepts(s, op)
    requires op.OpRet? || op.OpBreak? || op.OpContinue? || op.OpRetC? || op.OpBreakC? || op.OpContinueC?
    ensures InBounds(StepOp(s, op))
  {
    BelowMore(s, |s.blocks|, |StepOp(s, op).blocks|);
  }

  /** Opcodes that open or close a construct. */
  lemma NestInBounds(s: State, op: Opcode)
    requires InBounds(s) && Accepts(s, op)
    requires op.OpIf? || op.OpElse? || op.OpEndIf? || op.OpLoop? || op.OpEndLoop? || op.OpSwitch? || op.OpEndSwitch?
    ensures InBounds(StepOp(s, op))
  {
    BelowMore(s, |s.blocks|, |StepOp(s, op).blocks|);
  }

  lemma RestInBounds(s: State, op: Opcode)
    requires InBounds(s) && Accepts(s, op) && (op.OpInstanceCount? || op.OpLabel? || op.OpCall? || op.OpStraight?)
    ensures InBounds(StepOp(s, op))
  {
    BelowMore(s, |s.blocks|, |StepOp(s, op).blocks|);
  }

  lemma DiscardInBounds(s: State, op: Opcode)
    requires InBounds(s) && op.OpDiscard?
    ensures InBounds(StepOp(s, op))
  {
    BelowMore(s, |s.blocks|, |StepOp(s, op).blocks|);
  }

  lemma ClauseInBounds(s: State, op: Opcode)
    requires InBounds(s) && HoldsSwitch(s) && (op.OpCase? || op.OpDefault?)
    ensures InBounds(StepOp(s, op))
  {
    BelowMore(s, |s.blocks|, |StepOp(s, op).blocks|);
  }

  lemma PopBelow(s: seq<BlockId>, n: nat)
    requires Below(s, n)
    ensures Below(Pop(s), n)
  {
    assert forall b <- Pop(s) :: b in s;
  }

  lemma BelowMore(s: State, n: nat, m: nat)
    requires InBounds(s) && n == |s.blocks| <= m
    ensures Below(s.endIfs, m) && Below(s.continues, m) && Below(s.breaks, m) && Below(s.switches, m)
    ensures Below(s.instances, m)
    ensures Below(Pop(s.endIfs), m) && Below(Pop(s.continues), m) && Below(Pop(s.breaks), m)
    ensures Below(Pop(s.switches), m)
    ensures Below(Pop(s.instances), m)
    ensures Top(s.endIfs) < m && Top(s.continues) < m && Top(s.breaks) < m
  {
    PopBelow(s.endIfs, m);
    PopBelow(s.continues, m);
    PopBelow(s.breaks, m);
    PopBelow(s.switches, m);
    PopBelow(s.instances, m);
    assert s.endIfs != [] ==> s.endIfs[0] in s.endIfs;
    assert s.continues != [] ==> s.continues[0] in s.continues;
    assert s.breaks != [] ==> s.breaks[0] in s.breaks;
  }

  lemma PhaseInBounds(s: State, op: Opcode)
    requires InBounds(s) && (op.OpControlPointPhase? || op.OpForkJoinPhase?)
    ensures InBounds(StepOp(s, op))
  {
  }
}
