/** Well-nested shader code as a tree, its meaning, and the opcode stream it is written as. */
module Structured {
  import opened Shader

  datatype Code = End | Then(first: Stmt, rest: Code)

  datatype Stmt =
    | Plain(code: seq<Instr>)
    | If(cond: Condition, yes: Code)
    | IfElse(cond: Condition, yes: Code, no: Code)
    | Loop(body: Code)
    | Break
    | Continue
    | BreakIf(cond: Condition)
    | ContinueIf(cond: Condition)
    | Switch(value: Operand, clauses: Clauses)
    | Return
    | ReturnIf(cond: Condition)
    | Discard(cond: Condition)
    | Call(func: FuncId)

  datatype Label = Case(val: int) | Default

  datatype Clauses = NoClause | Clause(tag: Label, body: Code, rest: Clauses)

  // ---------------------------------------------------------------- meaning

  /** How a piece of code ends.  `Timeout` means the fuel ran out. */
  datatype Outcome =
    | Normal(trace: Trace)
    | Broke(trace: Trace)
    | Continued(trace: Trace)
    | Returned(trace: Trace)
    | Timeout(trace: Trace)

  type Functions = map<FuncId, Code>

  /** The clause a switch enters: the first with a matching case, else the last default,
      else the position past the end. */
  function Pick(cs: Clauses, x: int): nat {
    if HasCase(cs, x) then CaseIndex(cs, x) else DefaultIndex(cs)
  }

  predicate HasCase(cs: Clauses, x: int) {
    cs.Clause? && (cs.tag == Case(x) || HasCase(cs.rest, x))
  }

  function CaseIndex(cs: Clauses, x: int): nat
    requires HasCase(cs, x)
  {
    if cs.tag == Case(x) then 0 else 1 + CaseIndex(cs.rest, x)
  }

  predicate HasDefault(cs: Clauses) {
    cs.Clause? && (cs.tag == Default || HasDefault(cs.rest))
  }

  function DefaultIndex(cs: Clauses): nat {
    match cs
    case NoClause => 0
    case Clause(tag, _, rest) =>
      if tag == Default && !HasDefault(rest) then 0 else 1 + DefaultIndex(rest)
  }

  ghost function ExecCode(fs: Functions, th: Thread, c: Code, t: Trace, fuel: nat): Outcome
    decreases fuel, c, 0
  {
    match c
    case End => Normal(t)
    case Then(s, rest) =>
      var o := ExecStmt(fs, th, s, t, fuel);
      if o.Normal? then ExecCode(fs, th, rest, o.trace, fuel) else o
  }

  /** Loop iterations and calls consume fuel. */
  ghost function ExecStmt(fs: Functions, th: Thread, s: Stmt, t: Trace, fuel: nat): Outcome
    decreases fuel, s, 0
  {
    match s
    case Plain(code) => Normal(t + code)
    case If(c, yes) => if th.Test(c, t) then ExecCode(fs, th, yes, t, fuel) else Normal(t)
    case IfElse(c, yes, no) =>
      if th.Test(c, t) then ExecCode(fs, th, yes, t, fuel) else ExecCode(fs, th, no, t, fuel)
    case Loop(body) => ExecLoop(fs, th, body, t, fuel)
    case Break => Broke(t)
    case Continue => Continued(t)
    case BreakIf(c) => if th.Test(c, t) then Broke(t) else Normal(t)
    case ContinueIf(c) => if th.Test(c, t) then Continued(t) else Normal(t)
    case Switch(v, cs) =>
      var o := ExecClauses(fs, th, cs, Pick(cs, th.load(v, t)), t, fuel);
      if o.Broke? then Normal(o.trace) else o
    case Return => Returned(t)
    case ReturnIf(c) => if th.Test(c, t) then Returned(t) else Normal(t)
    case Discard(c) => Normal(if th.Test(c, t) then t + [PixelDiscard] else t)
    case Call(f) =>
      if fuel == 0 || f !in fs then Timeout(t)
      else
        var o := ExecCode(fs, th, fs[f], t, fuel - 1);
        if o.Returned? then Normal(o.trace) else o
  }

  ghost function ExecLoop(fs: Functions, th: Thread, body: Code, t: Trace, fuel: nat): Outcome
    decreases fuel, body, 1
  {
    if fuel == 0 then Timeout(t)
    else
      var o := ExecCode(fs, th, body, t, fuel);
      if o.Normal? || o.Continued? then ExecLoop(fs, th, body, o.trace, fuel - 1)
      else if o.Broke? then Normal(o.trace)
      else o
  }

  /** Runs the clauses from number `skip` on, falling through from each to the next. */
  ghost function ExecClauses(fs: Functions, th: Thread, cs: Clauses, skip: nat, t: Trace, fuel: nat): Outcome
    decreases fuel, cs, 0
  {
    match cs
    case NoClause => Normal(t)
    case Clause(_, body, rest) =>
      if skip > 0 then ExecClauses(fs, th, rest, skip - 1, t, fuel)
      else
        var o := ExecCode(fs, th, body, t, fuel);
        if o.Normal? then ExecClauses(fs, th, rest, 0, o.trace, fuel) else o
  }

  // -------------------------------------------------------- well-formedness

  /** Where a statement stands: may it break, may it continue, is it inside a block. */
  datatype Scope = Scope(breaks: bool, continues: bool, nested: bool)

  const TOP := Scope(false, false, false)

  /** Is the builder's current block a real one after `s`, given that it was (`live`)? */
  predicate LiveAfter(s: Stmt, live: bool) {
    match s
    case Plain(_) => live
    case Break => false
    case Continue => false
    case Return => false
    case _ => true
  }

  /** Well-nested code.  A switch or call directly in dead code is excluded: the builder
      would keep a pointer into the shared void block. */
  predicate WfCode(c: Code, sc: Scope, live: bool) {
    c.End? || (WfStmt(c.first, sc, live) && WfCode(c.rest, sc, LiveAfter(c.first, live)))
  }

  predicate WfStmt(s: Stmt, sc: Scope, live: bool) {
    match s
    case Plain(_) => true
    case If(_, yes) => WfCode(yes, sc.(nested := true), true)
    case IfElse(_, yes, no) => WfCode(yes, sc.(nested := true), true) && WfCode(no, sc.(nested := true), true)
    case Loop(body) => WfCode(body, Scope(true, true, true), true)
    case Break => sc.breaks
    case Continue => sc.continues
    case BreakIf(_) => sc.breaks
    case ContinueIf(_) => sc.continues
    case Switch(_, cs) => live && WfClauses(cs, sc.continues)
    case Return => sc.nested
    case ReturnIf(_) => true
    case Discard(_) => true
    case Call(_) => live
  }

  predicate WfClauses(cs: Clauses, continues: bool) {
    cs.NoClause? || (WfCode(cs.body, Scope(true, continues, true), true) && WfClauses(cs.rest, continues))
  }

  /** The functions a piece of code calls. */
  function Calls(c: Code): set<FuncId> {
    match c
    case End => {}
    case Then(s, rest) => StmtCalls(s) + Calls(rest)
  }

  function StmtCalls(s: Stmt): set<FuncId> {
    match s
    case If(_, yes) => Calls(yes)
    case IfElse(_, yes, no) => Calls(yes) + Calls(no)
    case Loop(body) => Calls(body)
    case Switch(_, cs) => ClauseCalls(cs)
    case Call(f) => {f}
    case _ => {}
  }

  function ClauseCalls(cs: Clauses): set<FuncId> {
    match cs
    case NoClause => {}
    case Clause(_, body, rest) => Calls(body) + ClauseCalls(rest)
  }

  /** Well-formed code only breaks or continues where its scope allows. */
  lemma {:induction false} CodeStaysInScope(fs: Functions, th: Thread, c: Code, t: Trace, fuel: nat, sc: Scope,
                                            live: bool)
    requires WfCode(c, sc, live)
    requires forall f <- fs :: WfCode(fs[f], TOP, true)
    ensures var o := ExecCode(fs, th, c, t, fuel);
            (o.Broke? ==> sc.breaks) && (o.Continued? ==> sc.continues)
    decreases fuel, c, 0
  {
    if c.Then? {
      StmtStaysInScope(fs, th, c.first, t, fuel, sc, live);
      var o := ExecStmt(fs, th, c.first, t, fuel);
      if o.Normal? {
        CodeStaysInScope(fs, th, c.rest, o.trace, fuel, sc, LiveAfter(c.first, live));
      }
    }
  }

  lemma {:induction false} StmtStaysInScope(fs: Functions, th: Thread, s: Stmt, t: Trace, fuel: nat, sc: Scope,
                                            live: bool)
    requires WfStmt(s, sc, live)
    requires forall f <- fs :: WfCode(fs[f], TOP, true)
    ensures var o := ExecStmt(fs, th, s, t, fuel);
            (o.Broke? ==> sc.breaks) && (o.Continued? ==> sc.continues)
    decreases fuel, s, 0
  {
    match s
    case If(c, yes) => CodeStaysInScope(fs, th, yes, t, fuel, sc.(nested := true), true);
    case IfElse(c, yes, no) =>
      CodeStaysInScope(fs, th, yes, t, fuel, sc.(nested := true), true);
      CodeStaysInScope(fs, th, no, t, fuel, sc.(nested := true), true);
    case Loop(body) => LoopStaysInScope(fs, th, body, t, fuel);
    case Switch(v, cs) => ClausesStayInScope(fs, th, cs, Pick(cs, th.load(v, t)), t, fuel, sc.continues);
    case Call(f) =>
      if fuel > 0 && f in fs {
        CodeStaysInScope(fs, th, fs[f], t, fuel - 1, TOP, true);
      }
    case _ =>
  }

  lemma {:induction false} LoopStaysInScope(fs: Functions, th: Thread, body: Code, t: Trace, fuel: nat)
    requires WfCode(body, Scope(true, true, true), true)
    requires forall f <- fs :: WfCode(fs[f], TOP, true)
    ensures var o := ExecLoop(fs, th, body, t, fuel); !o.Broke? && !o.Continued?
    decreases fuel, body, 1
  {
    if fuel > 0 {
      var o := ExecCode(fs, th, body, t, fuel);
      if o.Normal? || o.Continued? {
        LoopStaysInScope(fs, th, body, o.trace, fuel - 1);
      }
    }
  }

  lemma {:induction false} ClausesStayInScope(fs: Functions, th: Thread, cs: Clauses, skip: nat, t: Trace, fuel: nat,
                                              continues: bool)
    requires WfClauses(cs, continues)
    requires forall f <- fs :: WfCode(fs[f], TOP, true)
    ensures ExecClauses(fs, th, cs, skip, t, fuel).Continued? ==> continues
    decreases fuel, cs, 0
  {
    if cs.Clause? {
      if skip > 0 {
        ClausesStayInScope(fs, th, cs.rest, skip - 1, t, fuel, continues);
      } else {
        CodeStaysInScope(fs, th, cs.body, t, fuel, Scope(true, continues, true), true);
        var o := ExecCode(fs, th, cs.body, t, fuel);
        if o.Normal? {
          ClausesStayInScope(fs, th, cs.rest, 0, o.trace, fuel, continues);
        }
      }
    }
  }

  // ------------------------------------------------------------ opcode stream

  function Flatten(c: Code): seq<Opcode> {
    match c
    case End => []
    case Then(s, rest) => FlattenStmt(s) + Flatten(rest)
  }

  function FlattenStmt(s: Stmt): seq<Opcode> {
    match s
    case Plain(code) => [OpStraight(code)]
    case If(c, yes) => [OpIf(c)] + Flatten(yes) + [OpEndIf]
    case IfElse(c, yes, no) => [OpIf(c)] + Flatten(yes) + [OpElse] + Flatten(no) + [OpEndIf]
    case Loop(body) => [OpLoop] + Flatten(body) + [OpEndLoop]
    case Break => [OpBreak]
    case Continue => [OpContinue]
    case BreakIf(c) => [OpBreakC(c)]
    case ContinueIf(c) => [OpContinueC(c)]
    case Switch(v, cs) => [OpSwitch(v)] + FlattenClauses(cs) + [OpEndSwitch]
    case Return => [OpRet]
    case ReturnIf(c) => [OpRetC(c)]
    case Discard(c) => [OpDiscard(c)]
    case Call(f) => [OpCall(f)]
  }

  function FlattenClauses(cs: Clauses): seq<Opcode> {
    match cs
    case NoClause => []
    case Clause(tag, body, rest) =>
      [if tag.Case? then OpCase(tag.val) else OpDefault] + Flatten(body) + FlattenClauses(rest)
  }
}
