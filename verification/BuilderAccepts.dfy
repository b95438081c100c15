/** The stream of a well-nested program never makes the builder pop an empty stack or write
    through a pointer to a terminator that has been overwritten. */
module BuilderAccepts {
  import opened Shader
  import opened FlowGraph
  import opened Structured
  import opened BuilderSpec
  import opened Layout
  import opened BuilderLayout
  import opened Simulation
  import opened Programs

  lemma {:induction false} AcceptCode(s: State, c: Code, sc: Scope, p: Pos, env: Env)
    requires At(s, p) && Fits(s, sc, env) && WfCode(c, sc, p.cur != VOID)
    ensures Accepted(s, Flatten(c))
    decreases c, 2
  {
    hide Process, Accepted, StepOp, FlattenStmt, WfStmt, Fits;
    match c
    case End => AcceptedNone(s);
    case Then(st, rest) =>
      AcceptStmt(s, st, sc, p, env);
      BuildStmt(s, st, sc, p, env, s.blocks);
      var mid, q := Process(s, FlattenStmt(st)), AfterStmt(st, p);
      FitsStill(s, p, sc, env, mid, q);
      AcceptCode(mid, rest, sc, q, env);
      AcceptedAppend(s, FlattenStmt(st), Flatten(rest));
  }

  lemma AcceptedNone(s: State)
    ensures Accepted(s, [])
  {
  }

  lemma {:induction false} AcceptStmt(s: State, st: Stmt, sc: Scope, p: Pos, env: Env)
    requires At(s, p) && Fits(s, sc, env) && WfStmt(st, sc, p.cur != VOID)
    ensures Accepted(s, FlattenStmt(st))
    decreases st, 1
  {
    hide Process, Accepted, StepOp, Flatten, WfCode, AfterCode, Sites, HasCode;
    var n := p.next;
    var i, inner := Pos(n, 0, n + 2), sc.(nested := true);
    match st
    case If(c, yes) =>
      OpenIf(s, c, sc, p, env);
      var s1 := StepOp(s, OpIf(c));
      AcceptCode(s1, yes, inner, i, env);
      BuildCode(s1, yes, inner, i, env, s.blocks);
      AcceptedBracket(s, OpIf(c), Flatten(yes), OpEndIf);
    case IfElse(c, yes, no) => AcceptIfElse(s, c, yes, no, sc, p, env);
    case Loop(body) =>
      OpenLoop(s, sc, p, env);
      var s1 := StepOp(s, OpLoop);
      AcceptCode(s1, body, Scope(true, true, true), i, Env(n + 1, n, env.ret));
      BuildCode(s1, body, Scope(true, true, true), i, Env(n + 1, n, env.ret), s.blocks);
      AcceptedBracket(s, OpLoop, Flatten(body), OpEndLoop);
    case Switch(v, cs) => AcceptSwitch(s, v, cs, sc, p, env);
    case _ => AcceptedOne(s, FlattenStmt(st)[0]);
  }

  lemma {:induction false} AcceptIfElse(s: State, c: Condition, yes: Code, no: Code, sc: Scope, p: Pos, env: Env)
    requires At(s, p) && Fits(s, sc, env)
    requires WfCode(yes, sc.(nested := true), true) && WfCode(no, sc.(nested := true), true)
    ensures Accepted(s, FlattenStmt(IfElse(c, yes, no)))
    decreases IfElse(c, yes, no), 0
  {
    hide Process, Accepted, StepOp, Flatten, WfCode, AfterCode, Sites, HasCode, Fits, Keeps;
    var n := p.next;
    var i, inner := Pos(n, 0, n + 2), sc.(nested := true);
    OpenIf(s, c, sc, p, env);
    var s1 := StepOp(s, OpIf(c));
    AcceptCode(s1, yes, inner, i, env);
    BuildCode(s1, yes, inner, i, env, s.blocks);
    AcceptedBracket(s, OpIf(c), Flatten(yes), OpElse);
    BuildHalf(s, c, yes, sc, p, env, s.blocks, s.blocks, p);
    var half, e := Process(s, IfHalf(c, yes)), Pos(n + 1, 0, AfterCode(yes, i).next + 1);
    AcceptCode(half, no, inner, e, env);
    BuildCode(half, no, inner, e, env, s.blocks);
    AcceptedAppend(s, IfHalf(c, yes), Flatten(no));
    ProcessAppend(s, IfHalf(c, yes), Flatten(no));
    AcceptedOne(Process(half, Flatten(no)), OpEndIf);
    AcceptedAppend(s, IfHalf(c, yes) + Flatten(no), [OpEndIf]);
  }

  lemma {:induction false} AcceptSwitch(s: State, v: Operand, cs: Clauses, sc: Scope, p: Pos, env: Env)
    requires At(s, p) && Fits(s, sc, env) && WfClauses(cs, sc.continues) && p.cur != VOID
    ensures Accepted(s, FlattenStmt(Switch(v, cs)))
    decreases Switch(v, cs), 0
  {
    hide Process, Accepted, StepOp, FlattenClauses, WfClauses, AfterClauses, ClauseSites, HasClauses, Fits;
    var n := p.next;
    var i := Pos(VOID, 0, n + 1);
    OpenSwitch(s, v, sc, p, env);
    var s1 := StepOp(s, OpSwitch(v));
    AcceptClauses(s1, cs, sc.continues, i, env.(brk := n), p.cur);
    BuildClauses(s1, cs, sc.continues, i, env.(brk := n), s.blocks, p.cur);
    AcceptedBracket(s, OpSwitch(v), FlattenClauses(cs), OpEndSwitch);
  }

  lemma {:induction false} AcceptClauses(s: State, cs: Clauses, continues: bool, p: Pos, env: Env, head: BlockId)
    requires At(s, p) && Fits(s, Scope(true, continues, true), env) && WfClauses(cs, continues) && HeadOf(s, head)
    ensures Accepted(s, FlattenClauses(cs))
    decreases cs, 0
  {
    hide Process, Accepted, StepOp, Fits, WfCode, AfterCode, Sites, HasCode, Flatten, Keeps;
    match cs
    case NoClause => AcceptedNone(s);
    case Clause(tag, body, rest) =>
      var sc, e := Scope(true, continues, true), Pos(p.next, 0, p.next + 1);
      var s1 := BuildClauseStart(s, tag, sc, p, env, head);
      AcceptedOne(s, ClauseOp(tag));
      ProcessOne(s, ClauseOp(tag));
      AcceptCode(s1, body, sc, e, env);
      AcceptedAppend(s, [ClauseOp(tag)], Flatten(body));
      BuildClause(s, tag, body, sc, p, env, s.blocks, head, s.blocks, p);
      var op := [ClauseOp(tag)] + Flatten(body);
      AcceptClauses(Process(s, op), rest, continues, AfterCode(body, e), env, head);
      AcceptedAppend(s, op, FlattenClauses(rest));
  }

  lemma {:induction false} AcceptFunctions(s: State, fns: seq<Function>)
    requires Between(s) && forall f <- fns :: WfCode(f.body, TOP, true)
    ensures Accepted(s, FlattenFunctions(fns))
    decreases |fns|
  {
    hide Process, Accepted, StepOp, Flatten, WfCode, AfterCode, Sites, HasCode, Fits;
    if fns == [] {
      AcceptedNone(s);
    } else {
      var f, n := fns[0], |s.blocks|;
      StartFunction(s, f.id);
      var s1 := StepOp(s, OpLabel(f.id));
      AcceptCode(s1, f.body, TOP, BodyPos(n), BodyEnv(n));
      BuildCode(s1, f.body, TOP, BodyPos(n), BodyEnv(n), s.blocks);
      AcceptedBracket(s, OpLabel(f.id), Flatten(f.body), OpRet);
      BuildFunction(s, f, s.blocks);
      var ops := [OpLabel(f.id)] + Flatten(f.body) + [OpRet];
      AcceptFunctions(Process(s, ops), fns[1..]);
      AcceptedAppend(s, ops, FlattenFunctions(fns[1..]));
    }
  }

  /** The whole stream of a well-formed program is safe to read. */
  lemma StreamAccepted(p: Program)
    requires WfProgram(p)
    ensures Accepted(INITIAL, FlattenProgram(p))
  {
    hide Process, Accepted, StepOp, Flatten, WfCode, AfterCode, Sites, HasCode;
    AcceptCode(INITIAL, p.main, TOP, MAIN_POS, MAIN_ENV);
    BuildCode(INITIAL, p.main, TOP, MAIN_POS, MAIN_ENV, []);
    if p.ret {
      AcceptedOne(Process(INITIAL, Flatten(p.main)), OpRet);
    } else {
      AcceptedNone(Process(INITIAL, Flatten(p.main)));
    }
    AcceptedAppend(INITIAL, Flatten(p.main), FlattenMain(p)[|Flatten(p.main)|..]);
    BuildMain(p, []);
    if p.functions == [] {
      AcceptedNone(Process(INITIAL, FlattenMain(p)));
    } else {
      AcceptFunctions(Process(INITIAL, FlattenMain(p)), p.functions);
    }
    AcceptedAppend(INITIAL, FlattenMain(p), FlattenFunctions(p.functions));
  }
}
