/** The block builder as the source runs it: one pass over the opcode stream that reassigns
    the current block, pushes and pops the stacks, appends blocks to the list of all blocks
    and overwrites their instructions and terminators.  Blocks are named by their place in
    that list. */
module ControlFlow {
  import opened Basics
  import opened Shader
  import opened FlowGraph
  import opened BuilderSpec

  lemma StepsPhase(s: State, op: Opcode, count: nat)
    requires op == OpControlPointPhase(count) || (op.OpForkJoinPhase? && count == 1)
    ensures StepOp(s, op) == StepPhase(s, count)
  {
  }

  lemma LabelSteps(s: State, f: FuncId)
    ensures var n := |s.blocks|;
            var blocks := (s.blocks + [EMPTY_BLOCK]) + [EMPTY_BLOCK];
            StepOp(s, OpLabel(f)) ==
              s.(blocks := blocks[n + 1 := Block([], Exit)], entries := s.entries[f := n], funcReturn := Some(n + 1),
                 current := n)
  {
  }

  class Builder {
    var blocks: Graph
    var current: BlockId
    var endIfs: seq<BlockId>
    var continues: seq<BlockId>
    var breaks: seq<BlockId>
    var switches: seq<BlockId>
    var instances: seq<BlockId>
    var funcReturn: Option<BlockId>
    var entries: map<FuncId, BlockId>
    var callSites: seq<BlockId>

    /** The abstract state. */
    ghost function View(): State
      reads this
    {
      State(blocks, current, endIfs, continues, breaks, switches, instances, funcReturn, entries, callSites)
    }

    constructor ()
      ensures View() == INITIAL
    {
      blocks, current := [EMPTY_BLOCK, EMPTY_BLOCK, Block([], Exit)], ENTRY;
      endIfs, continues, breaks, switches, instances := [], [], [], [], [];
      funcReturn, entries, callSites := None, map[], [];
    }

    // ------------------------------------------------------- the elementary writes

    /** `fresh_bb`. */
    method FreshBlock() returns (b: BlockId)
      modifies this`blocks
      ensures b == |old(blocks)| && blocks == old(blocks) + [EMPTY_BLOCK]
    {
      b := |blocks|;
      blocks := blocks + [EMPTY_BLOCK];
    }

    method Terminate(b: BlockId, t: Target)
      requires b < |blocks|
      modifies this`blocks
      ensures blocks == old(blocks)[b := old(blocks)[b].(target := t)]
    {
      blocks := blocks[b := Block(blocks[b].code, t)];
    }

    method Emit(b: BlockId, code: seq<Instr>)
      requires b < |blocks|
      modifies this`blocks
      ensures blocks == old(blocks)[b := old(blocks)[b].(code := old(blocks)[b].code + code)]
    {
      blocks := blocks[b := Block(blocks[b].code + code, blocks[b].target)];
    }

    // ---------------------------------------------------------------- the opcodes

    method OnStraight(code: seq<Instr>)
      requires InBounds(View()) && Accepts(View(), OpStraight(code))
      modifies this
      ensures View() == StepOp(old(View()), OpStraight(code))
    {
      Emit(current, code);
    }

    method OnIf(c: Condition)
      requires InBounds(View()) && Accepts(View(), OpIf(c))
      modifies this
      ensures View() == StepOp(old(View()), OpIf(c))
    {
      var ifTrue := FreshBlock();
      var endIf := FreshBlock();
      Terminate(current, Branch(c, ifTrue, endIf));
      current, endIfs := ifTrue, [endIf] + endIfs;
    }

    /** The block that was the join becomes the alternative; a new one is the join. */
    method OnElse()
      requires InBounds(View()) && Accepts(View(), OpElse)
      modifies this
      ensures View() == StepOp(old(View()), OpElse)
    {
      var endIf := FreshBlock();
      Terminate(current, Goto(endIf));
      current, endIfs := endIfs[0], [endIf] + endIfs[1..];
    }

    method OnEndIf()
      requires InBounds(View()) && Accepts(View(), OpEndIf)
      modifies this
      ensures View() == StepOp(old(View()), OpEndIf)
    {
      Terminate(current, Goto(endIfs[0]));
      current, endIfs := endIfs[0], endIfs[1..];
    }

    method OnLoop()
      requires InBounds(View()) && Accepts(View(), OpLoop)
      modifies this
      ensures View() == StepOp(old(View()), OpLoop)
    {
      var entrance := FreshBlock();
      var endLoop := FreshBlock();
      Terminate(current, Goto(entrance));
      current, continues, breaks := entrance, [entrance] + continues, [endLoop] + breaks;
    }

    method OnEndLoop()
      requires InBounds(View()) && Accepts(View(), OpEndLoop)
      modifies this
      ensures View() == StepOp(old(View()), OpEndLoop)
    {
      Terminate(current, Goto(continues[0]));
      current, continues, breaks := breaks[0], continues[1..], breaks[1..];
    }

    method OnBreak()
      requires InBounds(View()) && Accepts(View(), OpBreak)
      modifies this
      ensures View() == StepOp(old(View()), OpBreak)
    {
      Terminate(current, Goto(breaks[0]));
      current := VOID;
    }

    method OnContinue()
      requires InBounds(View()) && Accepts(View(), OpContinue)
      modifies this
      ensures View() == StepOp(old(View()), OpContinue)
    {
      Terminate(current, Goto(continues[0]));
      current := VOID;
    }

    /** BREAKC, CONTINUEC and RETC: leave for `to` if the condition holds. */
    method OnEscapeIf(c: Condition, to: BlockId)
      requires current < |blocks|
      modifies this
      ensures View() == StepEscapeIf(old(View()), c, to)
    {
      var after := FreshBlock();
      Terminate(current, Branch(c, to, after));
      current := after;
    }

    method OnBreakC(c: Condition)
      requires InBounds(View()) && Accepts(View(), OpBreakC(c))
      modifies this
      ensures View() == StepOp(old(View()), OpBreakC(c))
    {
      OnEscapeIf(c, breaks[0]);
    }

    method OnContinueC(c: Condition)
      requires InBounds(View()) && Accepts(View(), OpContinueC(c))
      modifies this
      ensures View() == StepOp(old(View()), OpContinueC(c))
    {
      OnEscapeIf(c, continues[0]);
    }

    method OnSwitch(v: Operand)
      requires InBounds(View()) && Accepts(View(), OpSwitch(v))
      modifies this
      ensures View() == StepOp(old(View()), OpSwitch(v))
    {
      var endSwitch := FreshBlock();
      Terminate(current, Dispatch(v, map[], endSwitch));
      breaks, switches, current := [endSwitch] + breaks, [current] + switches, VOID;
    }

    /** `std::map::insert` keeps the first case of a label. */
    method OnCase(x: int)
      requires InBounds(View()) && Accepts(View(), OpCase(x))
      modifies this
      ensures View() == StepOp(old(View()), OpCase(x))
    {
      var body := FreshBlock();
      var head := blocks[switches[0]].target;
      Terminate(switches[0], if x in head.cases then head else head.(cases := head.cases[x := body]));
      Terminate(current, Goto(body));
      current := body;
    }

    method OnDefault()
      requires InBounds(View()) && Accepts(View(), OpDefault)
      modifies this
      ensures View() == StepOp(old(View()), OpDefault)
    {
      var body := FreshBlock();
      Terminate(switches[0], blocks[switches[0]].target.(fallback := body));
      Terminate(current, Goto(body));
      current := body;
    }

    method OnEndSwitch()
      requires InBounds(View()) && Accepts(View(), OpEndSwitch)
      modifies this
      ensures View() == StepOp(old(View()), OpEndSwitch)
    {
      Terminate(current, Goto(breaks[0]));
      current, breaks, switches := breaks[0], breaks[1..], switches[1..];
    }

    method RetTarget() returns (b: BlockId)
      requires InBounds(View()) && Accepts(View(), OpRet)
      ensures b == ReturnTarget(View()) && b < |blocks|
    {
      b := if funcReturn.Some? then funcReturn.value
           else if instances == [] then RETURN
           else blocks[instances[0]].target.sync;
    }

    /** A top-level RET ends the function or hull phase; a nested one leaves dead code behind. */
    method OnRet()
      requires InBounds(View()) && Accepts(View(), OpRet)
      modifies this
      ensures View() == StepOp(old(View()), OpRet)
    {
      var to := RetTarget();
      Terminate(current, Goto(to));
      if breaks == [] && endIfs == [] {
        current := to;
        if funcReturn.Some? {
          current, funcReturn := RETURN, None;
        } else if instances != [] {
          instances := instances[1..];
        }
      } else {
        current := VOID;
      }
    }

    method OnRetC(c: Condition)
      requires InBounds(View()) && Accepts(View(), OpRetC(c))
      modifies this
      ensures View() == StepOp(old(View()), OpRetC(c))
    {
      var to := RetTarget();
      OnEscapeIf(c, to);
    }

    method OnDiscard(c: Condition)
      requires InBounds(View()) && Accepts(View(), OpDiscard(c))
      modifies this
      ensures View() == StepOp(old(View()), OpDiscard(c))
    {
      var fulfilled := FreshBlock();
      var otherwise := FreshBlock();
      Terminate(current, Branch(c, fulfilled, otherwise));
      Terminate(fulfilled, Goto(otherwise));
      Emit(fulfilled, [PixelDiscard]);
      current := otherwise;
    }

    /** HS_CONTROL_POINT_PHASE, HS_FORK_PHASE and HS_JOIN_PHASE. */
    method OnPhase(count: nat)
      requires current < |blocks|
      modifies this
      ensures View() == StepPhase(old(View()), count)
    {
      var active := FreshBlock();
      var end := FreshBlock();
      Emit(end, [Sync]);
      Terminate(current, InstanceBarrier(count, active, end));
      instances, current := [current] + instances, active;
    }

    method OnInstanceCount(count: nat)
      requires InBounds(View()) && Accepts(View(), OpInstanceCount(count))
      modifies this
      ensures View() == StepOp(old(View()), OpInstanceCount(count))
    {
      Terminate(instances[0], blocks[instances[0]].target.(count := count));
    }

    method OnLabel(f: FuncId)
      requires InBounds(View()) && Accepts(View(), OpLabel(f))
      modifies this
      ensures View() == StepOp(old(View()), OpLabel(f))
    {
      LabelSteps(View(), f);
      hide StepOp, Accepts, InBounds;
      var body := FreshBlock();
      var end := FreshBlock();
      Terminate(end, Exit);
      entries, funcReturn, current := entries[f := body], Some(end), body;
    }

    method OnCall(f: FuncId)
      requires InBounds(View()) && Accepts(View(), OpCall(f))
      modifies this
      ensures View() == StepOp(old(View()), OpCall(f))
    {
      var after := FreshBlock();
      Terminate(current, Invoke(f, after));
      callSites, current := callSites + [current], after;
    }

    /** One turn of the parser loop. */
    method Read(op: Opcode)
      requires InBounds(View()) && Accepts(View(), op)
      modifies this
      ensures InBounds(View()) && View() == StepOp(old(View()), op)
    {
      hide StepOp;
      StepInBounds(View(), op);
      match op
      case OpStraight(code) => OnStraight(code);
      case OpIf(c) => OnIf(c);
      case OpElse => OnElse();
      case OpEndIf => OnEndIf();
      case OpLoop => OnLoop();
      case OpEndLoop => OnEndLoop();
      case OpBreak => OnBreak();
      case OpContinue => OnContinue();
      case OpBreakC(c) => OnBreakC(c);
      case OpContinueC(c) => OnContinueC(c);
      case OpSwitch(v) => OnSwitch(v);
      case OpCase(x) => OnCase(x);
      case OpDefault => OnDefault();
      case OpEndSwitch => OnEndSwitch();
      case OpRet => OnRet();
      case OpRetC(c) => OnRetC(c);
      case OpDiscard(c) => OnDiscard(c);
      case OpControlPointPhase(count) =>
        StepsPhase(View(), op, count);
        OnPhase(count);
      case OpForkJoinPhase =>
        StepsPhase(View(), op, 1);
        OnPhase(1);
      case OpInstanceCount(count) => OnInstanceCount(count);
      case OpLabel(f) => OnLabel(f);
      case OpCall(f) => OnCall(f);
    }

    /** The whole stream, and the block still open at its end. */
    method ReadStream(ops: seq<Opcode>, copyOut: Option<nat>)
      requires InBounds(View()) && Accepted(View(), ops)
      modifies this
      ensures View() == Finish(Process(old(View()), ops), copyOut)
    {
      var i := 0;
      assert ops[0..] == ops;
      while i < |ops|
        invariant 0 <= i <= |ops| && InBounds(View())
        invariant Accepted(View(), ops[i..]) && Process(View(), ops[i..]) == Process(old(View()), ops)
      {
        assert ops[i..][1..] == ops[i + 1..];
        Read(ops[i]);
        i := i + 1;
      }
      if current != RETURN {
        Terminate(current, match copyOut case None => Goto(RETURN) case Some(count) => WriteOutput(count, RETURN));
        current := RETURN;
      }
    }
  }
}
