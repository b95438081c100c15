/** Basic blocks, their terminators, and the execution of a block graph by one thread. */
module FlowGraph {
  import opened Shader

  type BlockId = nat

  /** Block 0 is the `voidbb` that swallows dead code, 1 the entry, 2 the return block. */
  const VOID: BlockId := 0
  const ENTRY: BlockId := 1
  const RETURN: BlockId := 2

  /** A terminator. */
  datatype Target =
    | Undefined
    | Exit
    | Goto(next: BlockId)
    | Branch(cond: Condition, yes: BlockId, no: BlockId)
    | Dispatch(value: Operand, cases: map<int, BlockId>, fallback: BlockId)
    | InstanceBarrier(count: nat, active: BlockId, sync: BlockId)
    | WriteOutput(threads: nat, epilogue: BlockId)
    | Invoke(func: FuncId, returnPoint: BlockId)
  {
    /** The blocks this terminator may lead to. */
    function Successors(): set<BlockId> {
      match this
      case Undefined => {}
      case Exit => {}
      case Goto(b) => {b}
      case Branch(_, y, n) => {y, n}
      case Dispatch(_, cs, d) => (set k | k in cs :: cs[k]) + {d}
      case InstanceBarrier(_, a, s) => {a, s}
      case WriteOutput(_, e) => {e}
      case Invoke(_, r) => {r}
    }
  }

  datatype Block = Block(code: seq<Instr>, target: Target)

  type Graph = seq<Block>

  const EMPTY_BLOCK := Block([], Undefined)

  /** Everything that determines a run: the blocks, the function entry table, the thread. */
  datatype Machine = Machine(graph: Graph, entries: map<FuncId, BlockId>, thread: Thread)

  datatype Config =
    | Running(block: BlockId, pc: nat, stack: seq<BlockId>, trace: Trace)
    | Halted(trace: Trace)

  /** One step: one instruction of the current block, or its terminator.  A block with
      no terminator, or a call to an unknown function, is stuck and repeats itself. */
  ghost function Step(m: Machine, c: Config): Config {
    if c.Halted? || c.block >= |m.graph| then c
    else
      var b := m.graph[c.block];
      if c.pc < |b.code| then
        c.(pc := c.pc + 1, trace := c.trace + [b.code[c.pc]])
      else
        match b.target
        case Undefined => c
        case Exit =>
          if c.stack == [] then Halted(c.trace)
          else Running(c.stack[0], 0, c.stack[1..], c.trace)
        case Goto(n) => c.(block := n, pc := 0)
        case Branch(cond, y, n) =>
          c.(block := if m.thread.Test(cond, c.trace) then y else n, pc := 0)
        case Dispatch(v, cs, d) =>
          var x := m.thread.load(v, c.trace);
          c.(block := if x in cs then cs[x] else d, pc := 0)
        case InstanceBarrier(count, a, s) =>
          c.(block := if m.thread.id < count then a else s, pc := 0)
        case WriteOutput(count, e) =>
          Running(e, 0, c.stack, c.trace + OutputCopy(m.thread, count))
        case Invoke(f, r) =>
          if f in m.entries then Running(m.entries[f], 0, [r] + c.stack, c.trace) else c
  }

  /** What the lowered hull epilogue executes: a guarded copy, then a barrier for everyone. */
  function OutputCopy(th: Thread, count: nat): Trace {
    (if th.id < count then [CopyControlPoint] else []) + [Sync]
  }

  /** A conditional terminator leads to its first block if the operand is not zero, or if it is, as
      the condition asks. */
  lemma BranchTaken(m: Machine, c: Config, x: Operand, yes: BlockId, no: BlockId)
    requires c.Running? && c.block < |m.graph| && c.pc >= |m.graph[c.block].code|
    ensures m.graph[c.block].target == Branch(Condition(x, true), yes, no) ==>
      Step(m, c) == Running(if m.thread.load(x, c.trace) != 0 then yes else no, 0, c.stack, c.trace)
    ensures m.graph[c.block].target == Branch(Condition(x, false), yes, no) ==>
      Step(m, c) == Running(if m.thread.load(x, c.trace) == 0 then yes else no, 0, c.stack, c.trace)
  {
  }

  ghost function Run(m: Machine, k: nat, c: Config): Config {
    if k == 0 then c else Run(m, k - 1, Step(m, c))
  }

  const START := Running(ENTRY, 0, [], [])

  /** The thread reaches the end of the shader, having executed `t`. */
  ghost predicate Halts(m: Machine, t: Trace) {
    exists k: nat :: Run(m, k, START) == Halted(t)
  }

  lemma {:induction false} RunAdd(m: Machine, j: nat, k: nat, c: Config)
    ensures Run(m, j + k, c) == Run(m, k, Run(m, j, c))
  {
    if j > 0 {
      RunAdd(m, j - 1, k, Step(m, c));
    }
  }

  lemma RunZero(m: Machine, c: Config)
    ensures Run(m, 0, c) == c
  {
  }

  lemma RunOne(m: Machine, c: Config)
    ensures Run(m, 1, c) == Step(m, c)
  {
    RunZero(m, Step(m, c));
  }

  /** One more step at either end of a run. */
  lemma RunFirst(m: Machine, k: nat, c: Config)
    ensures Run(m, 1 + k, c) == Run(m, k, Step(m, c))
  {
  }

  lemma RunLast(m: Machine, k: nat, c: Config)
    ensures Run(m, k + 1, c) == Step(m, Run(m, k, c))
  {
    RunAdd(m, k, 1, c);
    RunOne(m, Run(m, k, c));
  }

  lemma {:induction false} RunHalted(m: Machine, k: nat, t: Trace)
    ensures Run(m, k, Halted(t)) == Halted(t)
  {
    if k > 0 {
      RunHalted(m, k - 1, t);
    }
  }

  /** A run has at most one final trace, and stays halted. */
  lemma HaltsOnce(m: Machine, j: nat, k: nat, c: Config, t: Trace)
    requires j <= k && Run(m, j, c) == Halted(t)
    ensures Run(m, k, c) == Halted(t)
  {
    RunAdd(m, j, k - j, c);
    RunHalted(m, k - j, t);
  }

  /** A block's remaining instructions run one by one. */
  lemma {:induction false} RunCode(m: Machine, c: Config, code: seq<Instr>)
    requires c.Running? && c.block < |m.graph|
    requires c.pc + |code| <= |m.graph[c.block].code|
    requires m.graph[c.block].code[c.pc..c.pc + |code|] == code
    ensures Run(m, |code|, c) == c.(pc := c.pc + |code|, trace := c.trace + code)
    decreases |code|
  {
    if code == [] {
      assert c.trace + code == c.trace;
    } else {
      var all := m.graph[c.block].code;
      assert all[c.pc] == all[c.pc..c.pc + |code|][0] == code[0];
      var d := Step(m, c);
      assert all[d.pc..d.pc + |code[1..]|] == all[c.pc..c.pc + |code|][1..];
      RunCode(m, d, code[1..]);
      assert c.trace + [code[0]] + code[1..] == c.trace + code;
    }
  }

  /** All blocks `t` leads to are numbered from `lo` to `hi`. */
  ghost predicate Within(t: Target, lo: BlockId, hi: BlockId) {
    match t
    case Undefined => true
    case Exit => true
    case Goto(b) => lo <= b < hi
    case Branch(_, y, n) => lo <= y < hi && lo <= n < hi
    case Dispatch(_, cs, d) => lo <= d < hi && forall k <- cs :: lo <= cs[k] < hi
    case InstanceBarrier(_, a, s) => lo <= a < hi && lo <= s < hi
    case WriteOutput(_, e) => lo <= e < hi
    case Invoke(_, r) => lo <= r < hi
  }

  function Blocks(lo: BlockId, hi: BlockId): (s: set<BlockId>)
    ensures forall b: BlockId :: b in s <==> lo <= b < hi
    decreases hi - lo
  {
    if lo >= hi then {} else {lo} + Blocks(lo + 1, hi)
  }

  lemma NonEmpty(keys: set<int>)
    requires keys != {}
    ensures exists k :: k in keys
  {
    assert (forall k :: k !in keys) ==> keys == {};
  }
}
