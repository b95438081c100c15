/** Running code that is laid out in a graph does what the structured code means. */
module Simulation {
  import opened Shader
  import opened FlowGraph
  import opened Structured
  import opened Layout

  /** Where a run of structured code with outcome `o` leaves the graph. */
  ghost predicate Arrives(c: Config, o: Outcome, q: Pos, env: Env, stack: seq<BlockId>) {
    match o
    case Normal(t) => q.cur != VOID && c == Running(q.cur, q.pc, stack, t)
    case Broke(t) => c == Running(env.brk, 0, stack, t)
    case Continued(t) => c == Running(env.cont, 0, stack, t)
    case Returned(t) => c == Running(env.ret, 0, stack, t)
    case Timeout(t) => c.Running? && c.trace == t
  }

  /** Where a function's body starts, and where its code leads. */
  function BodyPos(e: BlockId): Pos { Pos(e, 0, e + 2) }
  function BodyEnv(e: BlockId): Env { Env(VOID, VOID, e + 1) }

  ghost predicate HasFunction(g: Graph, body: Code, e: BlockId) {
    && e > VOID && WfCode(body, TOP, true)
    && HasCode(g, body, BodyPos(e), BodyEnv(e))
    && Ends(g, AfterCode(body, BodyPos(e)), Goto(e + 1))
    && e + 1 < |g| && g[e + 1] == Block([], Exit)
  }

  /** Every function of the program is laid out at its entry. */
  ghost predicate Linked(m: Machine, fs: Functions) {
    forall f <- fs :: f in m.entries && Calls(fs[f]) <= fs.Keys && HasFunction(m.graph, fs[f], m.entries[f])
  }

  lemma {:induction false} SimCode(m: Machine, fs: Functions, c: Code, p: Pos, env: Env, stack: seq<BlockId>,
                                   t: Trace, fuel: nat)
    returns (k: nat)
    requires p.cur != VOID && p.next > VOID
    requires HasCode(m.graph, c, p, env) && Linked(m, fs) && Calls(c) <= fs.Keys
    ensures var o := ExecCode(fs, m.thread, c, t, fuel);
            && Arrives(Run(m, k, Running(p.cur, p.pc, stack, t)), o, AfterCode(c, p), env, stack)
            && (o.Timeout? ==> k >= fuel) && (o.Continued? ==> k > 0)
    decreases fuel, c, 0
  {
    hide Run, Step;
    match c
    case End =>
      k := 0;
      RunZero(m, Running(p.cur, p.pc, stack, t));
    case Then(s, rest) =>
      k := SimStmt(m, fs, s, p, env, stack, t, fuel);
      var o := ExecStmt(fs, m.thread, s, t, fuel);
      if o.Normal? {
        var j := SimCode(m, fs, rest, AfterStmt(s, p), env, stack, o.trace, fuel);
        RunAdd(m, k, j, Running(p.cur, p.pc, stack, t));
        k := k + j;
      }
  }

  lemma {:induction false} SimStmt(m: Machine, fs: Functions, s: Stmt, p: Pos, env: Env, stack: seq<BlockId>,
                                   t: Trace, fuel: nat)
    returns (k: nat)
    requires p.cur != VOID && p.next > VOID
    requires HasStmt(m.graph, s, p, env) && Linked(m, fs) && StmtCalls(s) <= fs.Keys
    ensures var o := ExecStmt(fs, m.thread, s, t, fuel);
            && Arrives(Run(m, k, Running(p.cur, p.pc, stack, t)), o, AfterStmt(s, p), env, stack)
            && (o.Timeout? ==> k >= fuel) && (o.Continued? ==> k > 0)
    decreases fuel, s, 1
  {
    hide Run, Step;
    match s
    case If(c, yes) => k := SimIf(m, fs, c, yes, p, env, stack, t, fuel);
    case IfElse(c, yes, no) => k := SimIfElse(m, fs, c, yes, no, p, env, stack, t, fuel);
    case Loop(body) => k := SimEnterLoop(m, fs, body, p, env, stack, t, fuel);
    case Switch(v, cs) => k := SimSwitch(m, fs, v, cs, p, env, stack, t, fuel);
    case Call(f) => k := SimCall(m, fs, f, p, env, stack, t, fuel);
    case _ => k := SimSimple(m, fs, s, p, env, stack, t, fuel);
  }

  /** An if without an else. */
  lemma {:induction false} SimIf(m: Machine, fs: Functions, c: Condition, yes: Code, p: Pos, env: Env,
                                 stack: seq<BlockId>, t: Trace, fuel: nat)
    returns (k: nat)
    requires p.cur != VOID && p.next > VOID
    requires HasStmt(m.graph, If(c, yes), p, env) && Linked(m, fs) && StmtCalls(If(c, yes)) <= fs.Keys
    ensures var o := ExecStmt(fs, m.thread, If(c, yes), t, fuel);
            && Arrives(Run(m, k, Running(p.cur, p.pc, stack, t)), o, AfterStmt(If(c, yes), p), env, stack)
            && (o.Timeout? ==> k >= fuel) && (o.Continued? ==> k > 0)
    decreases fuel, If(c, yes), 0
  {
    hide Run, ExecCode, HasCode, AfterCode, Calls, Linked;
    var n := p.next;
    var start := Running(p.cur, p.pc, stack, t);
    if m.thread.Test(c, t) {
      k := SimBody(m, fs, yes, Pos(n, 0, n + 2), env, n + 1, start, stack, t, fuel);
    } else {
      k := 1;
      RunOne(m, start);
    }
  }

  /** Both branches meet in the block opened at the else. */
  lemma {:induction false} SimIfElse(m: Machine, fs: Functions, c: Condition, yes: Code, no: Code, p: Pos, env: Env,
                                     stack: seq<BlockId>, t: Trace, fuel: nat)
    returns (k: nat)
    requires p.cur != VOID && p.next > VOID
    requires HasStmt(m.graph, IfElse(c, yes, no), p, env) && Linked(m, fs) && StmtCalls(IfElse(c, yes, no)) <= fs.Keys
    ensures var o := ExecStmt(fs, m.thread, IfElse(c, yes, no), t, fuel);
            && Arrives(Run(m, k, Running(p.cur, p.pc, stack, t)), o, AfterStmt(IfElse(c, yes, no), p), env, stack)
            && (o.Timeout? ==> k >= fuel) && (o.Continued? ==> k > 0)
    decreases fuel, IfElse(c, yes, no), 0
  {
    hide Run, ExecCode, HasCode, AfterCode, Calls, Linked;
    var n := p.next;
    var start := Running(p.cur, p.pc, stack, t);
    var q := AfterCode(yes, Pos(n, 0, n + 2));
    if m.thread.Test(c, t) {
      k := SimBody(m, fs, yes, Pos(n, 0, n + 2), env, q.next, start, stack, t, fuel);
    } else {
      k := SimBody(m, fs, no, Pos(n + 1, 0, q.next + 1), env, q.next, start, stack, t, fuel);
    }
  }

  /** A loop is entered by a jump to its entrance. */
  lemma {:induction false} SimEnterLoop(m: Machine, fs: Functions, body: Code, p: Pos, env: Env, stack: seq<BlockId>,
                                        t: Trace, fuel: nat)
    returns (k: nat)
    requires p.cur != VOID && p.next > VOID
    requires HasStmt(m.graph, Loop(body), p, env) && Linked(m, fs) && StmtCalls(Loop(body)) <= fs.Keys
    ensures var o := ExecStmt(fs, m.thread, Loop(body), t, fuel);
            && Arrives(Run(m, k, Running(p.cur, p.pc, stack, t)), o, AfterStmt(Loop(body), p), env, stack)
            && (o.Timeout? ==> k >= fuel) && (o.Continued? ==> k > 0)
    decreases fuel, Loop(body), 0
  {
    hide Run, ExecLoop, HasCode, AfterCode, Calls, Linked;
    var n := p.next;
    var start := Running(p.cur, p.pc, stack, t);
    var j := SimLoop(m, fs, body, n, env, stack, t, fuel);
    RunFirst(m, j, start);
    k := 1 + j;
  }

  /** A switch jumps to the clause it picks; a break leaves it, a continue leaves it too. */
  lemma {:induction false} SimSwitch(m: Machine, fs: Functions, v: Operand, cs: Clauses, p: Pos, env: Env,
                                     stack: seq<BlockId>, t: Trace, fuel: nat)
    returns (k: nat)
    requires p.cur != VOID && p.next > VOID
    requires HasStmt(m.graph, Switch(v, cs), p, env) && Linked(m, fs) && StmtCalls(Switch(v, cs)) <= fs.Keys
    ensures var o := ExecStmt(fs, m.thread, Switch(v, cs), t, fuel);
            && Arrives(Run(m, k, Running(p.cur, p.pc, stack, t)), o, AfterStmt(Switch(v, cs), p), env, stack)
            && (o.Timeout? ==> k >= fuel) && (o.Continued? ==> k > 0)
    decreases fuel, Switch(v, cs), 0
  {
    hide Run, ExecClauses, HasClauses, AfterClauses, CaseMap, DefaultBlock, Pick, ClauseCalls, Linked;
    var n := p.next;
    var start := Running(p.cur, p.pc, stack, t);
    var inside := Pos(VOID, 0, n + 1);
    var x := m.thread.load(v, t);
    DispatchPicks(cs, inside, n, x);
    assert Step(m, start) == Running(ClauseEntry(cs, inside, Pick(cs, x), n), 0, stack, t);
    var j := SimClauses(m, fs, cs, Pick(cs, x), inside, env.(brk := n), stack, t, fuel);
    RunFirst(m, j, start);
    k := 1 + j;
  }

  /** The statements without a body. */
  lemma SimSimple(m: Machine, fs: Functions, s: Stmt, p: Pos, env: Env, stack: seq<BlockId>, t: Trace, fuel: nat)
    returns (k: nat)
    requires p.cur != VOID && p.next > VOID && HasStmt(m.graph, s, p, env)
    requires !s.If? && !s.IfElse? && !s.Loop? && !s.Switch? && !s.Call?
    ensures var o := ExecStmt(fs, m.thread, s, t, fuel);
            && Arrives(Run(m, k, Running(p.cur, p.pc, stack, t)), o, AfterStmt(s, p), env, stack)
            && !o.Timeout? && (o.Continued? ==> k > 0)
  {
    hide Run;
    var start := Running(p.cur, p.pc, stack, t);
    k := 1;
    RunOne(m, start);
    match s
    case Plain(code) =>
      RunCode(m, start, code);
      k := |code|;
    case Discard(c) =>
      if m.thread.Test(c, t) {
        var c1 := Step(m, start);
        var c2 := Step(m, c1);
        assert c2 == Running(p.next, 1, stack, t + [PixelDiscard]);
        RunFirst(m, 2, start);
        RunFirst(m, 1, c1);
        RunOne(m, c2);
        k := 3;
      }
    case _ =>
  }

  /** A nested block: enter it in one step, run it, and jump to `join` when it ends normally. */
  lemma {:induction false} SimBody(m: Machine, fs: Functions, body: Code, p: Pos, env: Env, join: BlockId,
                                   start: Config, stack: seq<BlockId>, t: Trace, fuel: nat)
    returns (k: nat)
    requires p.cur != VOID && p.next > VOID && join != VOID
    requires HasCode(m.graph, body, p, env) && Linked(m, fs) && Calls(body) <= fs.Keys
    requires Ends(m.graph, AfterCode(body, p), Goto(join))
    requires Step(m, start) == Running(p.cur, p.pc, stack, t)
    ensures var o := ExecCode(fs, m.thread, body, t, fuel);
            && Arrives(Run(m, k, start), o, Pos(join, 0, join), env, stack)
            && (o.Timeout? ==> k > fuel) && k > 0
    decreases fuel, body, 1
  {
    hide Run, ExecCode, HasCode, AfterCode, Calls, Linked;
    var j := SimCode(m, fs, body, p, env, stack, t, fuel);
    k := 1 + j;
    RunFirst(m, j, start);
    if ExecCode(fs, m.thread, body, t, fuel).Normal? {
      RunLast(m, k, start);
      k := k + 1;
    }
  }

  /** A loop, from its entrance block `e`; block `e + 1` follows the loop. */
  lemma {:induction false} SimLoop(m: Machine, fs: Functions, body: Code, e: BlockId, env: Env,
                                   stack: seq<BlockId>, t: Trace, fuel: nat)
    returns (k: nat)
    requires e != VOID && Linked(m, fs) && Calls(body) <= fs.Keys
    requires HasCode(m.graph, body, Pos(e, 0, e + 2), Env(e + 1, e, env.ret))
    requires Ends(m.graph, AfterCode(body, Pos(e, 0, e + 2)), Goto(e))
    ensures var o := ExecLoop(fs, m.thread, body, t, fuel);
            && Arrives(Run(m, k, Running(e, 0, stack, t)), o, Pos(e + 1, 0, e), env, stack)
            && (o.Timeout? ==> k >= fuel) && (o.Continued? ==> k > 0)
    decreases fuel, body, 1
  {
    hide Run, ExecCode, HasCode, AfterCode, Calls, Linked;
    var start := Running(e, 0, stack, t);
    k := 0;
    RunZero(m, start);
    if fuel > 0 {
      k := SimCode(m, fs, body, Pos(e, 0, e + 2), Env(e + 1, e, env.ret), stack, t, fuel);
      var o := ExecCode(fs, m.thread, body, t, fuel);
      if o.Normal? {
        RunLast(m, k, start);
        k := k + 1;
      }
      if o.Normal? || o.Continued? {
        // a continue takes its step when it is executed, so the body ran at least one
        var j := SimLoop(m, fs, body, e, env, stack, o.trace, fuel - 1);
        RunAdd(m, k, j, start);
        k := k + j;
      }
    }
  }

  /** The block of clause number `skip`, or `join` when there is none. */
  function ClauseEntry(cs: Clauses, p: Pos, skip: nat, join: BlockId): BlockId {
    match cs
    case NoClause => join
    case Clause(_, body, rest) =>
      if skip == 0 then p.next else ClauseEntry(rest, AfterCode(body, Pos(p.next, 0, p.next + 1)), skip - 1, join)
  }

  /** The switch terminator jumps to the clause the structured switch picks. */
  lemma DispatchPicks(cs: Clauses, p: Pos, join: BlockId, x: int)
    ensures var m := CaseMap(cs, p.next);
            ClauseEntry(cs, p, Pick(cs, x), join) == if x in m then m[x] else DefaultBlock(cs, p.next, join)
  {
    CaseMapPicks(cs, p, join, x);
    DefaultBlockPicks(cs, p, join, join);
  }

  lemma {:induction false} CaseMapPicks(cs: Clauses, p: Pos, join: BlockId, x: int)
    ensures x in CaseMap(cs, p.next) <==> HasCase(cs, x)
    ensures HasCase(cs, x) ==> CaseMap(cs, p.next)[x] == ClauseEntry(cs, p, CaseIndex(cs, x), join)
  {
    if cs.Clause? {
      CaseMapPicks(cs.rest, AfterCode(cs.body, Pos(p.next, 0, p.next + 1)), join, x);
    }
  }

  lemma {:induction false} DefaultBlockPicks(cs: Clauses, p: Pos, otherwise: BlockId, join: BlockId)
    ensures DefaultBlock(cs, p.next, otherwise)
         == if HasDefault(cs) then ClauseEntry(cs, p, DefaultIndex(cs), join) else otherwise
    ensures !HasDefault(cs) ==> ClauseEntry(cs, p, DefaultIndex(cs), join) == join
  {
    if cs.Clause? {
      var q := AfterCode(cs.body, Pos(p.next, 0, p.next + 1));
      DefaultBlockPicks(cs.rest, q, if cs.tag.Default? then p.next else otherwise, join);
    }
  }

  /** Falling through the clauses from number `skip` on. */
  lemma {:induction false} SimClauses(m: Machine, fs: Functions, cs: Clauses, skip: nat, p: Pos, env: Env,
                                      stack: seq<BlockId>, t: Trace, fuel: nat)
    returns (k: nat)
    requires p.next > VOID && env.brk != VOID && Linked(m, fs) && ClauseCalls(cs) <= fs.Keys
    requires HasClauses(m.graph, cs, p, env)
    requires Ends(m.graph, AfterClauses(cs, p), Goto(env.brk))
    ensures var o := ExecClauses(fs, m.thread, cs, skip, t, fuel);
            && Arrives(Run(m, k, Running(ClauseEntry(cs, p, skip, env.brk), 0, stack, t)), o, Pos(env.brk, 0, p.next),
                       env, stack)
            && (o.Timeout? ==> k >= fuel) && (o.Continued? ==> k > 0)
    decreases fuel, cs, 0
  {
    hide Run, ExecCode, HasCode, AfterCode, Calls, Linked;
    match cs
    case NoClause =>
      k := 0;
      RunZero(m, Running(env.brk, 0, stack, t));
    case Clause(_, body, rest) =>
      var e := Pos(p.next, 0, p.next + 1);
      var q := AfterCode(body, e);
      if skip > 0 {
        k := SimClauses(m, fs, rest, skip - 1, q, env, stack, t, fuel);
      } else {
        k := SimCode(m, fs, body, e, env, stack, t, fuel);
        var o := ExecCode(fs, m.thread, body, t, fuel);
        if o.Normal? {
          var start := Running(p.next, 0, stack, t);
          var next := ClauseEntry(rest, q, 0, env.brk);
          assert Ends(m.graph, q, Goto(next));
          RunLast(m, k, start);
          assert Run(m, k + 1, start) == Running(next, 0, stack, o.trace);
          var j := SimClauses(m, fs, rest, 0, q, env, stack, o.trace, fuel);
          RunAdd(m, k + 1, j, start);
          k := k + 1 + j;
        }
      }
  }

  /** A call: push the return point, run the body, and come back through the function's end block. */
  lemma {:induction false} SimCall(m: Machine, fs: Functions, f: FuncId, p: Pos, env: Env, stack: seq<BlockId>,
                                   t: Trace, fuel: nat)
    returns (k: nat)
    requires p.cur != VOID && HasStmt(m.graph, Call(f), p, env) && p.next > VOID && Linked(m, fs) && f in fs
    ensures var o := ExecStmt(fs, m.thread, Call(f), t, fuel);
            && Arrives(Run(m, k, Running(p.cur, p.pc, stack, t)), o, Pos(p.next, 0, p.next + 1), env, stack)
            && (o.Timeout? ==> k >= fuel) && !o.Continued?
    decreases fuel, Call(f), 0
  {
    hide Run, ExecCode, HasCode, AfterCode, Calls, WfCode;
    var start := Running(p.cur, p.pc, stack, t);
    k := 0;
    RunZero(m, start);
    if fuel > 0 {
      var e := m.entries[f];
      var inner := [p.next] + stack;
      var o := ExecCode(fs, m.thread, fs[f], t, fuel - 1);
      CodeStaysInScope(fs, m.thread, fs[f], t, fuel - 1, TOP, true);
      k := SimBody(m, fs, fs[f], BodyPos(e), BodyEnv(e), e + 1, start, inner, t, fuel - 1);
      if !o.Timeout? {
        assert Run(m, k, start) == Running(e + 1, 0, inner, o.trace);
        RunLast(m, k, start);
        assert inner[1..] == stack;
        k := k + 1;
      }
    }
  }
}
