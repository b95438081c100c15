/** The vocabulary shared by the control-flow model: instructions, conditions and
    the flat opcode stream that the shader parser hands to the block builder. */
module Shader {

  type Operand = nat
  type FuncId = nat

  /** Straight-line instructions.  Only the ones the control-flow code itself
      creates are told apart; everything else is an opaque token. */
  datatype Instr =
    | Ordinary(token: nat)
    | PixelDiscard
    | Sync              // threadgroup memory and execution barrier
    | CopyControlPoint  // hull passthrough: threadgroup memory to payload

  /** What a thread has executed so far.  The state of a deterministic machine is
      a function of its start state and this trace. */
  type Trace = seq<Instr>

  datatype Condition = Condition(operand: Operand, nonzero: bool)

  /** A thread of the shader: the value every operand has after every trace, and
      its thread id within the patch. */
  datatype Thread = Thread(load: (Operand, Trace) -> int, id: nat) {
    predicate Test(c: Condition, t: Trace) {
      (load(c.operand, t) != 0) == c.nonzero
    }
  }

  /** The opcodes that matter to control flow.  `OpStraight` is any opcode that only
      appends instructions to the current block (EMITTHENCUT appends two). */
  datatype Opcode =
    | OpStraight(code: seq<Instr>)
    | OpIf(cond: Condition)
    | OpElse
    | OpEndIf
    | OpLoop
    | OpEndLoop
    | OpBreak
    | OpContinue
    | OpBreakC(cond: Condition)
    | OpContinueC(cond: Condition)
    | OpSwitch(value: Operand)
    | OpCase(val: int)
    | OpDefault
    | OpEndSwitch
    | OpRet
    | OpRetC(cond: Condition)
    | OpDiscard(cond: Condition)
    | OpControlPointPhase(count: nat)
    | OpForkJoinPhase
    | OpInstanceCount(count: nat)
    | OpLabel(func: FuncId)
    | OpCall(func: FuncId)
}
