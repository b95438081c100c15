/** The builder, fed the opcodes of well-nested code, lays that code out as `Layout` says. */
module BuilderLayout {
  import opened Shader
  import opened FlowGraph
  import opened Structured
  import opened BuilderSpec
  import opened Layout

  /** The builder stands at position `p`. */
  ghost predicate At(s: State, p: Pos) {
    && s.current == p.cur && |s.blocks| == p.next > RETURN && p.cur < p.next
    && p.pc == if p.cur == VOID then 0 else |s.blocks[p.cur].code|
  }

  /** The stacks hold what scope and environment promise. */
  ghost predicate Fits(s: State, sc: Scope, env: Env) {
    && (sc.breaks ==> s.breaks != [] && s.breaks[0] == env.brk)
    && (sc.continues ==> s.continues != [] && s.continues[0] == env.cont)
    && (sc.nested ==> !AtTopLevel(s))
    && ReturnTarget(s) == env.ret
    && (s.instances != [] ==> s.instances[0] < |s.blocks| && s.instances[0] != s.current && s.instances[0] != VOID
                              && s.blocks[s.instances[0]].target.InstanceBarrier?)
  }

  /** From `g` to `h` the builder, standing in `cur`, kept every block but that one, the void
      block and `head`; to the current one it at most added code. */
  ghost predicate Keeps(g: Graph, cur: BlockId, head: BlockId, h: Graph) {
    && |g| <= |h|
    && (forall b: BlockId :: b < |g| && b != VOID && b != cur && b != head ==> h[b] == g[b])
    && (cur != VOID && cur < |g| ==> g[cur].code <= h[cur].code)
  }

  /** `after` differs from `s` in the blocks, the current block and the call sites only. */
  ghost predicate SameStacks(s: State, after: State) {
    after == s.(blocks := after.blocks, current := after.current, callSites := after.callSites)
  }

  /** The block numbers that belong to the code between `p` and `q`. */
  ghost predicate Owns(p: Pos, q: Pos, b: BlockId) {
    b != VOID && (b == p.cur || p.next <= b < q.next)
  }

  /** The final graph `g` agrees with the builder on everything between `p` and `q` that
      is closed by then, and only adds code to the block `q` stands in. */
  ghost predicate Settled(blocks: Graph, g: Graph, p: Pos, q: Pos) {
    forall b: BlockId :: Owns(p, q, b) ==>
      && b < |blocks| && b < |g|
      && (if b == q.cur then blocks[b].code <= g[b].code else g[b] == blocks[b])
  }

  lemma KeepsSelf(g: Graph, cur: BlockId)
    ensures Keeps(g, cur, VOID, g)
  {
  }

  lemma KeepsTrans(g1: Graph, c1: BlockId, g2: Graph, c2: BlockId, g3: Graph)
    requires Keeps(g1, c1, VOID, g2) && Keeps(g2, c2, VOID, g3)
    requires c2 == c1 || c2 == VOID || c2 >= |g1|
    ensures Keeps(g1, c1, VOID, g3)
  {
  }

  /** Two stretches of code built one after the other in different blocks. */
  lemma KeepsBoth(g1: Graph, c1: BlockId, g2: Graph, c2: BlockId, g3: Graph)
    requires Keeps(g1, c1, VOID, g2) && Keeps(g2, c2, VOID, g3) && c1 != c2
    ensures Keeps(g1, c1, c2, g3)
  {
  }

  /** What is settled for a stretch of code is settled for a part of it. */
  lemma SettledPart(mid: Graph, after: Graph, head: BlockId, g: Graph, p: Pos, r: Pos, i: Pos, q: Pos)
    requires Settled(after, g, p, r) && Keeps(mid, q.cur, head, after) && |mid| >= q.next && i.cur < q.next
    requires forall b: BlockId :: Owns(i, q, b) ==> Owns(p, r, b) && b != head && (b == r.cur ==> b == q.cur)
    ensures Settled(mid, g, i, q)
  {
  }

  lemma SettledRest(after: Graph, g: Graph, p: Pos, q: Pos, r: Pos)
    requires Settled(after, g, p, r) && Follows(p, q) && q.next <= r.next
    ensures Settled(after, g, q, r)
  {
    assert forall b: BlockId :: Owns(q, r, b) ==> Owns(p, r, b);
  }

  /** Scope and environment fit a later state whose stacks hold what they promise. */
  lemma FitsLater(s: State, p: Pos, sc: Scope, env: Env, after: State, q: Pos, sc': Scope, env': Env)
    requires At(s, p) && Fits(s, sc, env) && At(after, q) && (q.cur == p.cur || q.cur == VOID || q.cur >= p.next)
    requires Keeps(s.blocks, s.current, VOID, after.blocks)
    requires after.instances == s.instances && after.funcReturn == s.funcReturn && env'.ret == env.ret
    requires sc'.breaks ==> after.breaks != [] && after.breaks[0] == env'.brk
    requires sc'.continues ==> after.continues != [] && after.continues[0] == env'.cont
    requires sc'.nested ==> !AtTopLevel(after)
    ensures Fits(after, sc', env')
  {
  }

  lemma FitsStill(s: State, p: Pos, sc: Scope, env: Env, after: State, q: Pos)
    requires At(s, p) && Fits(s, sc, env) && At(after, q) && Follows(p, q)
    requires SameStacks(s, after) && Keeps(s.blocks, s.current, VOID, after.blocks)
    ensures Fits(after, sc, env)
  {
    FitsLater(s, p, sc, env, after, q, sc, env);
  }

  lemma BlockStill(g: Graph, cur: BlockId, head: BlockId, h: Graph, b: BlockId)
    requires Keeps(g, cur, head, h) && b < |g| && b != VOID && b != cur && b != head
    ensures b < |h| && h[b] == g[b]
  {
  }

  lemma EndsStill(g: Graph, cur: BlockId, head: BlockId, h: Graph, q: Pos, t: Target)
    requires Keeps(g, cur, head, h) && Ends(g, q, t) && (q.cur == VOID || (q.cur != cur && q.cur != head))
    ensures Ends(h, q, t)
  {
  }

  /** A block closed on the way to `r` is final. */
  lemma SettledEnds(after: Graph, g: Graph, p: Pos, r: Pos, q: Pos, t: Target)
    requires Settled(after, g, p, r) && Ends(after, q, t)
    requires q.cur == VOID || (Owns(p, r, q.cur) && q.cur != r.cur)
    ensures Ends(g, q, t)
  {
  }

  /** The outcome of feeding the opcodes of a statement (a piece of code, a list of clauses). */
  ghost predicate Builds(s: State, after: State, p: Pos, q: Pos, sites: seq<BlockId>) {
    && At(after, q) && SameStacks(s, after) && Keeps(s.blocks, s.current, VOID, after.blocks)
    && after.callSites == s.callSites + sites
  }

  lemma {:induction false} BuildCode(s: State, c: Code, sc: Scope, p: Pos, env: Env, g: Graph)
    requires At(s, p) && Fits(s, sc, env) && WfCode(c, sc, p.cur != VOID)
    ensures var after := Process(s, Flatten(c));
            && Builds(s, after, p, AfterCode(c, p), Sites(c, p))
            && (Settled(after.blocks, g, p, AfterCode(c, p)) ==> HasCode(g, c, p, env))
    decreases c, 2
  {
    hide Process, StepOp, Settled, Keeps, HasStmt, Fits;
    match c
    case End =>
      ProcessNone(s);
      KeepsSelf(s.blocks, s.current);
    case Then(st, rest) =>
      ProcessAppend(s, FlattenStmt(st), Flatten(rest));
      BuildStmt(s, st, sc, p, env, g);
      var mid, q := Process(s, FlattenStmt(st)), AfterStmt(st, p);
      FitsStill(s, p, sc, env, mid, q);
      BuildCode(mid, rest, sc, q, env, g);
      var after, r := Process(s, Flatten(c)), AfterCode(c, p);
      KeepsTrans(s.blocks, s.current, mid.blocks, mid.current, after.blocks);
      if Settled(after.blocks, g, p, r) {
        SettledPart(mid.blocks, after.blocks, VOID, g, p, r, p, q);
        SettledRest(after.blocks, g, p, q, r);
      }
  }

  lemma {:induction false} BuildStmt(s: State, st: Stmt, sc: Scope, p: Pos, env: Env, g: Graph)
    requires At(s, p) && Fits(s, sc, env) && WfStmt(st, sc, p.cur != VOID)
    ensures var after := Process(s, FlattenStmt(st));
            && Builds(s, after, p, AfterStmt(st, p), StmtSites(st, p))
            && (Settled(after.blocks, g, p, AfterStmt(st, p)) ==> HasStmt(g, st, p, env))
    decreases st, 1
  {
    hide Process, StepOp, AfterStmt, StmtSites, HasStmt, Builds, Settled, Fits;
    match st
    case If(c, yes) => BuildIf(s, c, yes, sc, p, env, g);
    case IfElse(c, yes, no) => BuildIfElse(s, c, yes, no, sc, p, env, g);
    case Loop(body) => BuildLoop(s, body, sc, p, env, g);
    case Switch(v, cs) => BuildSwitch(s, v, cs, sc, p, env, g);
    case _ =>
      ProcessOne(s, FlattenStmt(st)[0]);
      BuildSimple(s, st, sc, p, env, g);
  }

  /** Statements that are one opcode and leave through a terminator. */
  lemma BuildSimple(s: State, st: Stmt, sc: Scope, p: Pos, env: Env, g: Graph)
    requires At(s, p) && Fits(s, sc, env) && WfStmt(st, sc, p.cur != VOID)
    requires !st.If? && !st.IfElse? && !st.Loop? && !st.Switch?
    ensures var after := StepOp(s, FlattenStmt(st)[0]);
            && Builds(s, after, p, AfterStmt(st, p), StmtSites(st, p))
            && (Settled(after.blocks, g, p, AfterStmt(st, p)) ==> HasStmt(g, st, p, env))
  {
    match st
    case Plain(code) => BuildPlain(s, code, p, env, g);
    case Discard(c) => BuildDiscard(s, c, p, env, g);
    case Call(f) => BuildCall(s, f, p, env, g);
    case Break => BuildJump(s, st, sc, p, env, g);
    case Continue => BuildJump(s, st, sc, p, env, g);
    case Return => BuildJump(s, st, sc, p, env, g);
    case _ => BuildEscape(s, st, sc, p, env, g);
  }

  lemma BuildPlain(s: State, code: seq<Instr>, p: Pos, env: Env, g: Graph)
    requires At(s, p)
    ensures var after := StepOp(s, OpStraight(code));
            && Builds(s, after, p, AfterStmt(Plain(code), p), [])
            && (Settled(after.blocks, g, p, AfterStmt(Plain(code), p)) ==> HasStmt(g, Plain(code), p, env))
  {
    var after, q := StepOp(s, OpStraight(code)), AfterStmt(Plain(code), p);
    if p.cur != VOID && Settled(after.blocks, g, p, q) {
      assert Owns(p, q, p.cur);
      assert g[p.cur].code[..q.pc] == after.blocks[p.cur].code;
    }
  }

  lemma BuildDiscard(s: State, c: Condition, p: Pos, env: Env, g: Graph)
    requires At(s, p)
    ensures var after := StepOp(s, OpDiscard(c));
            && Builds(s, after, p, AfterStmt(Discard(c), p), [])
            && (Settled(after.blocks, g, p, AfterStmt(Discard(c), p)) ==> HasStmt(g, Discard(c), p, env))
  {
    var after, q := StepOp(s, OpDiscard(c)), AfterStmt(Discard(c), p);
    if Settled(after.blocks, g, p, q) {
      assert p.cur != VOID ==> Owns(p, q, p.cur);
      assert Owns(p, q, p.next);
    }
  }

  lemma BuildCall(s: State, f: FuncId, p: Pos, env: Env, g: Graph)
    requires At(s, p)
    ensures var after := StepOp(s, OpCall(f));
            && Builds(s, after, p, AfterStmt(Call(f), p), [p.cur])
            && (Settled(after.blocks, g, p, AfterStmt(Call(f), p)) ==> HasStmt(g, Call(f), p, env))
  {
    var after, q := StepOp(s, OpCall(f)), AfterStmt(Call(f), p);
    assert p.cur != VOID ==> Owns(p, q, p.cur);
  }

  lemma BuildJump(s: State, st: Stmt, sc: Scope, p: Pos, env: Env, g: Graph)
    requires At(s, p) && Fits(s, sc, env) && WfStmt(st, sc, p.cur != VOID)
    requires st.Break? || st.Continue? || st.Return?
    ensures var after := StepOp(s, FlattenStmt(st)[0]);
            && Builds(s, after, p, AfterStmt(st, p), [])
            && (Settled(after.blocks, g, p, AfterStmt(st, p)) ==> HasStmt(g, st, p, env))
  {
    var q := AfterStmt(st, p);
    assert p.cur != VOID ==> Owns(p, q, p.cur);
  }

  lemma BuildEscape(s: State, st: Stmt, sc: Scope, p: Pos, env: Env, g: Graph)
    requires At(s, p) && Fits(s, sc, env) && WfStmt(st, sc, p.cur != VOID)
    requires st.BreakIf? || st.ContinueIf? || st.ReturnIf?
    ensures var after := StepOp(s, FlattenStmt(st)[0]);
            && Builds(s, after, p, AfterStmt(st, p), [])
            && (Settled(after.blocks, g, p, AfterStmt(st, p)) ==> HasStmt(g, st, p, env))
  {
    var q := AfterStmt(st, p);
    assert p.cur != VOID ==> Owns(p, q, p.cur);
  }

  // ------------------------------------------------------- opening and closing

  /** The current block gets terminator `t` and the builder moves on to an empty block. */
  ghost predicate Moves(s: State, p: Pos, after: State, q: Pos, t: Target) {
    && At(after, q) && Keeps(s.blocks, s.current, VOID, after.blocks)
    && Ends(after.blocks, p, t)
    && after.instances == s.instances && after.funcReturn == s.funcReturn
    && after.entries == s.entries && after.callSites == s.callSites
  }

  lemma OpenIf(s: State, c: Condition, sc: Scope, p: Pos, env: Env)
    requires At(s, p) && Fits(s, sc, env)
    ensures var n, s1 := p.next, StepOp(s, OpIf(c));
            && Moves(s, p, s1, Pos(n, 0, n + 2), Branch(c, n, n + 1))
            && Fits(s1, sc.(nested := true), env)
            && s1.blocks[n + 1] == EMPTY_BLOCK
            && s1 == s.(blocks := s1.blocks, current := n, endIfs := [n + 1] + s.endIfs)
  {
  }

  lemma CloseIf(s: State, q: Pos)
    requires At(s, q) && s.endIfs != [] && VOID < s.endIfs[0] < q.next && s.endIfs[0] != q.cur
    requires s.blocks[s.endIfs[0]] == EMPTY_BLOCK
    ensures var e, s1 := s.endIfs[0], StepOp(s, OpEndIf);
            && Moves(s, q, s1, Pos(e, 0, q.next), Goto(e))
            && s1 == s.(blocks := s1.blocks, current := e, endIfs := s.endIfs[1..])
  {
  }

  lemma {:induction false} BuildIf(s: State, c: Condition, yes: Code, sc: Scope, p: Pos, env: Env, g: Graph)
    requires At(s, p) && Fits(s, sc, env) && WfCode(yes, sc.(nested := true), true)
    ensures var after := Process(s, FlattenStmt(If(c, yes)));
            && Builds(s, after, p, AfterStmt(If(c, yes), p), StmtSites(If(c, yes), p))
            && (Settled(after.blocks, g, p, AfterStmt(If(c, yes), p)) ==> HasStmt(g, If(c, yes), p, env))
    decreases If(c, yes), 0
  {
    hide Keeps, Process, StepOp, Settled, Fits, HasCode, Flatten, Sites, AfterCode, WfCode;
    var n := p.next;
    ProcessBracket(s, OpIf(c), Flatten(yes), OpEndIf);
    var s1, i := StepOp(s, OpIf(c)), Pos(n, 0, n + 2);
    OpenIf(s, c, sc, p, env);
    BuildCode(s1, yes, sc.(nested := true), i, env, g);
    var s2, q := Process(s1, Flatten(yes)), AfterCode(yes, i);
    BlockStill(s1.blocks, s1.current, VOID, s2.blocks, n + 1);
    CloseIf(s2, q);
    var s3, r := StepOp(s2, OpEndIf), Pos(n + 1, 0, q.next);
    KeepsTrans(s.blocks, s.current, s1.blocks, s1.current, s2.blocks);
    KeepsTrans(s.blocks, s.current, s2.blocks, s2.current, s3.blocks);
    EndsStill(s1.blocks, s1.current, VOID, s2.blocks, p, Branch(c, n, n + 1));
    EndsStill(s2.blocks, s2.current, VOID, s3.blocks, p, Branch(c, n, n + 1));
    if Settled(s3.blocks, g, p, r) {
      SettledPart(s2.blocks, s3.blocks, VOID, g, p, r, i, q);
      SettledEnds(s3.blocks, g, p, r, q, Goto(n + 1));
      SettledEnds(s3.blocks, g, p, r, p, Branch(c, n, n + 1));
    }
  }

  lemma StepElse(s: State, q: Pos)
    requires At(s, q) && s.endIfs != [] && VOID < s.endIfs[0] < q.next && s.endIfs[0] != q.cur
    requires s.blocks[s.endIfs[0]] == EMPTY_BLOCK
    ensures var e, s1 := s.endIfs[0], StepOp(s, OpElse);
            && Moves(s, q, s1, Pos(e, 0, q.next + 1), Goto(q.next))
            && s1.blocks[q.next] == EMPTY_BLOCK
            && s1 == s.(blocks := s1.blocks, current := e, endIfs := [q.next] + s.endIfs[1..])
  {
  }

  /** The builder after `if c { yes } else`: it stands in the alternative, block `p.next + 1`. */
  ghost predicate HalfBuilt(s: State, c: Condition, p: Pos, q: Pos, half: State, sites: seq<BlockId>) {
    && At(half, Pos(p.next + 1, 0, q.next + 1)) && Keeps(s.blocks, s.current, VOID, half.blocks)
    && Ends(half.blocks, p, Branch(c, p.next, p.next + 1)) && Ends(half.blocks, q, Goto(q.next))
    && half.blocks[q.next] == EMPTY_BLOCK && half.callSites == s.callSites + sites
    && half == s.(blocks := half.blocks, current := half.current, callSites := half.callSites,
                  endIfs := [q.next] + s.endIfs)
  }

  function IfHalf(c: Condition, yes: Code): seq<Opcode> { [OpIf(c)] + Flatten(yes) + [OpElse] }

  /** Closing the first branch and moving to the alternative. */
  lemma TurnElse(s: State, c: Condition, sc: Scope, p: Pos, env: Env, s1: State, s2: State, q: Pos, sites: seq<BlockId>)
    requires At(s, p) && Fits(s, sc, env) && s1 == StepOp(s, OpIf(c))
    requires var i := Pos(p.next, 0, p.next + 2); Builds(s1, s2, i, q, sites) && Follows(i, q)
    ensures HalfBuilt(s, c, p, q, StepOp(s2, OpElse), sites) && Fits(StepOp(s2, OpElse), sc.(nested := true), env)
    ensures Keeps(s2.blocks, s2.current, VOID, StepOp(s2, OpElse).blocks)
  {
    hide StepOp, Fits;
    var n := p.next;
    OpenIf(s, c, sc, p, env);
    StepElse(s2, q);
    var s3 := StepOp(s2, OpElse);
    KeepsTrans(s.blocks, s.current, s1.blocks, s1.current, s2.blocks);
    KeepsTrans(s.blocks, s.current, s2.blocks, s2.current, s3.blocks);
    EndsStill(s1.blocks, s1.current, VOID, s2.blocks, p, Branch(c, n, n + 1));
    EndsStill(s2.blocks, s2.current, VOID, s3.blocks, p, Branch(c, n, n + 1));
    TurnFits(s, sc, p, env, s3, q);
  }

  lemma TurnFits(s: State, sc: Scope, p: Pos, env: Env, half: State, q: Pos)
    requires At(s, p) && Fits(s, sc, env) && At(half, Pos(p.next + 1, 0, q.next + 1))
    requires Keeps(s.blocks, s.current, VOID, half.blocks)
    requires half ==
      s.(blocks := half.blocks, current := half.current, callSites := half.callSites, endIfs := [q.next] + s.endIfs)
    ensures Fits(half, sc.(nested := true), env)
  {
  }

  /** The first half of an if with an else; whatever `h` it grows into, once the code up to
      `r` is settled there, the first branch is in the final graph. */
  lemma {:induction false} BuildHalf(s: State, c: Condition, yes: Code, sc: Scope, p: Pos, env: Env, g: Graph,
                                     h: Graph, r: Pos)
    requires At(s, p) && Fits(s, sc, env) && WfCode(yes, sc.(nested := true), true)
    ensures var i := Pos(p.next, 0, p.next + 2);
            var half, q := Process(s, IfHalf(c, yes)), AfterCode(yes, i);
            && HalfBuilt(s, c, p, q, half, Sites(yes, i)) && Fits(half, sc.(nested := true), env)
            && (Keeps(half.blocks, p.next + 1, VOID, h) && Settled(h, g, p, r) && r.cur == q.next < r.next ==>
                  HasCode(g, yes, i, env) && Ends(g, q, Goto(q.next)) && Ends(g, p, Branch(c, p.next, p.next + 1)))
    decreases yes, 3
  {
    hide Process, StepOp, Settled, Fits, HasCode;
    var n, inner := p.next, sc.(nested := true);
    ProcessBracket(s, OpIf(c), Flatten(yes), OpElse);
    var s1, i := StepOp(s, OpIf(c)), Pos(n, 0, n + 2);
    OpenIf(s, c, sc, p, env);
    BuildCode(s1, yes, inner, i, env, g);
    var s2, q := Process(s1, Flatten(yes)), AfterCode(yes, i);
    TurnElse(s, c, sc, p, env, s1, s2, q, Sites(yes, i));
    var s3 := StepOp(s2, OpElse);
    if Keeps(s3.blocks, n + 1, VOID, h) && Settled(h, g, p, r) && r.cur == q.next < r.next {
      KeepsBoth(s2.blocks, s2.current, s3.blocks, n + 1, h);
      SettledPart(s2.blocks, h, n + 1, g, p, r, i, q);
      EndsStill(s3.blocks, n + 1, VOID, h, q, Goto(q.next));
      EndsStill(s3.blocks, n + 1, VOID, h, p, Branch(c, n, n + 1));
      SettledEnds(h, g, p, r, q, Goto(q.next));
      SettledEnds(h, g, p, r, p, Branch(c, n, n + 1));
    }
  }

  lemma ProcessIfElse(s: State, c: Condition, yes: Code, no: Code)
    ensures Process(s, FlattenStmt(IfElse(c, yes, no))) ==
      StepOp(Process(Process(s, IfHalf(c, yes)), Flatten(no)), OpEndIf)
  {
    ProcessAppend(s, IfHalf(c, yes) + Flatten(no), [OpEndIf]);
    ProcessAppend(s, IfHalf(c, yes), Flatten(no));
    ProcessOne(Process(Process(s, IfHalf(c, yes)), Flatten(no)), OpEndIf);
  }

  /** Closing the second branch and moving to the join. */
  lemma CloseElse(s: State, c: Condition, p: Pos, q: Pos, half: State, s1: seq<BlockId>, s4: State, u: Pos,
                  s2: seq<BlockId>)
    requires At(s, p) && HalfBuilt(s, c, p, q, half, s1) && p.next + 1 < q.next
    requires var e := Pos(p.next + 1, 0, q.next + 1); Builds(half, s4, e, u, s2) && Follows(e, u)
    ensures var s5 := StepOp(s4, OpEndIf);
            && Builds(s, s5, p, Pos(q.next, 0, u.next), s1 + s2) && Keeps(half.blocks, half.current, VOID, s5.blocks)
            && Keeps(s4.blocks, s4.current, VOID, s5.blocks) && Ends(s5.blocks, u, Goto(q.next))
  {
    hide StepOp, Keeps;
    var s5 := StepOp(s4, OpEndIf);
    BlockStill(half.blocks, half.current, VOID, s4.blocks, q.next);
    CloseIf(s4, u);
    KeepsTrans(half.blocks, half.current, s4.blocks, s4.current, s5.blocks);
    KeepsTrans(s.blocks, s.current, half.blocks, half.current, s5.blocks);
  }

  lemma {:induction false} BuildIfElse(s: State, c: Condition, yes: Code, no: Code, sc: Scope, p: Pos, env: Env,
                                       g: Graph)
    requires At(s, p) && Fits(s, sc, env)
    requires WfCode(yes, sc.(nested := true), true) && WfCode(no, sc.(nested := true), true)
    ensures var st := IfElse(c, yes, no);
            var after := Process(s, FlattenStmt(st));
            && Builds(s, after, p, AfterStmt(st, p), StmtSites(st, p))
            && (Settled(after.blocks, g, p, AfterStmt(st, p)) ==> HasStmt(g, st, p, env))
    decreases IfElse(c, yes, no), 0
  {
    hide Process, StepOp, Settled, Fits, Keeps, HasCode, Flatten, Sites, AfterCode, Ends, WfCode;
    var n, inner := p.next, sc.(nested := true);
    var i := Pos(n, 0, n + 2);
    var q := AfterCode(yes, i);
    var e := Pos(n + 1, 0, q.next + 1);
    var u := AfterCode(no, e);
    var r := Pos(q.next, 0, u.next);
    ProcessIfElse(s, c, yes, no);
    var half := Process(s, IfHalf(c, yes));
    var s4 := Process(half, Flatten(no));
    var s5 := StepOp(s4, OpEndIf);
    BuildHalf(s, c, yes, sc, p, env, g, s5.blocks, r);
    BuildCode(half, no, inner, e, env, g);
    CloseElse(s, c, p, q, half, Sites(yes, i), s4, u, Sites(no, e));
    if Settled(s5.blocks, g, p, r) {
      SettledPart(s4.blocks, s5.blocks, VOID, g, p, r, e, u);
      SettledEnds(s5.blocks, g, p, r, u, Goto(q.next));
    }
  }

  lemma OpenLoop(s: State, sc: Scope, p: Pos, env: Env)
    requires At(s, p) && Fits(s, sc, env)
    ensures var n, s1 := p.next, StepOp(s, OpLoop);
            && Moves(s, p, s1, Pos(n, 0, n + 2), Goto(n))
            && Fits(s1, Scope(true, true, true), Env(n + 1, n, env.ret))
            && s1.blocks[n + 1] == EMPTY_BLOCK
            && s1 == s.(blocks := s1.blocks, current := n, continues := [n] + s.continues, breaks := [n + 1] + s.breaks)
  {
  }

  lemma CloseLoop(s: State, q: Pos)
    requires At(s, q) && s.breaks != [] && s.continues != [] && VOID < s.breaks[0] < q.next && s.breaks[0] != q.cur
    requires s.blocks[s.breaks[0]] == EMPTY_BLOCK
    ensures var e, s1 := s.breaks[0], StepOp(s, OpEndLoop);
            && Moves(s, q, s1, Pos(e, 0, q.next), Goto(s.continues[0]))
            && s1 == s.(blocks := s1.blocks, current := e, continues := s.continues[1..], breaks := s.breaks[1..])
  {
  }

  lemma {:induction false} BuildLoop(s: State, body: Code, sc: Scope, p: Pos, env: Env, g: Graph)
    requires At(s, p) && Fits(s, sc, env) && WfCode(body, Scope(true, true, true), true)
    ensures var after := Process(s, FlattenStmt(Loop(body)));
            && Builds(s, after, p, AfterStmt(Loop(body), p), StmtSites(Loop(body), p))
            && (Settled(after.blocks, g, p, AfterStmt(Loop(body), p)) ==> HasStmt(g, Loop(body), p, env))
    decreases Loop(body), 0
  {
    hide Keeps, Process, StepOp, Settled, Fits, HasCode, Flatten, Sites, AfterCode, WfCode;
    var n := p.next;
    ProcessBracket(s, OpLoop, Flatten(body), OpEndLoop);
    var s1, i := StepOp(s, OpLoop), Pos(n, 0, n + 2);
    OpenLoop(s, sc, p, env);
    BuildCode(s1, body, Scope(true, true, true), i, Env(n + 1, n, env.ret), g);
    var s2, q := Process(s1, Flatten(body)), AfterCode(body, i);
    BlockStill(s1.blocks, s1.current, VOID, s2.blocks, n + 1);
    CloseLoop(s2, q);
    var s3, r := StepOp(s2, OpEndLoop), Pos(n + 1, 0, q.next);
    KeepsTrans(s.blocks, s.current, s1.blocks, s1.current, s2.blocks);
    KeepsTrans(s.blocks, s.current, s2.blocks, s2.current, s3.blocks);
    EndsStill(s1.blocks, s1.current, VOID, s2.blocks, p, Goto(n));
    EndsStill(s2.blocks, s2.current, VOID, s3.blocks, p, Goto(n));
    if Settled(s3.blocks, g, p, r) {
      SettledPart(s2.blocks, s3.blocks, VOID, g, p, r, i, q);
      SettledEnds(s3.blocks, g, p, r, q, Goto(n));
      SettledEnds(s3.blocks, g, p, r, p, Goto(n));
    }
  }

  // ------------------------------------------------------------------ switches

  lemma OpenSwitch(s: State, v: Operand, sc: Scope, p: Pos, env: Env)
    requires At(s, p) && Fits(s, sc, env) && p.cur != VOID
    ensures var n, s1 := p.next, StepOp(s, OpSwitch(v));
            && Moves(s, p, s1, Pos(VOID, 0, n + 1), Dispatch(v, map[], n))
            && Fits(s1, Scope(true, sc.continues, true), env.(brk := n))
            && s1.blocks[n] == EMPTY_BLOCK && s1.blocks[p.cur].code == s.blocks[p.cur].code
            && s1 == s.(blocks := s1.blocks, current := VOID, breaks := [n] + s.breaks,
                        switches := [p.cur] + s.switches)
  {
  }

  lemma CloseSwitch(s: State, q: Pos)
    requires At(s, q) && s.breaks != [] && s.switches != [] && VOID < s.breaks[0] < q.next && s.breaks[0] != q.cur
    requires s.blocks[s.breaks[0]] == EMPTY_BLOCK
    ensures var e, s1 := s.breaks[0], StepOp(s, OpEndSwitch);
            && Moves(s, q, s1, Pos(e, 0, q.next), Goto(e))
            && s1 == s.(blocks := s1.blocks, current := e, breaks := s.breaks[1..], switches := s.switches[1..])
  {
  }

  /** The switch terminator once the clauses `cs`, the first one in block `next`, are registered. */
  function Registered(t: Target, cs: Clauses, next: nat): Target
    requires t.Dispatch?
  {
    Dispatch(t.value, CaseMap(cs, next) + t.cases, DefaultBlock(cs, next, t.fallback))
  }

  function ClauseOp(tag: Label): Opcode {
    if tag.Case? then OpCase(tag.val) else OpDefault
  }

  /** The head of the innermost open switch. */
  ghost predicate HeadOf(s: State, head: BlockId) {
    && s.switches != [] && s.switches[0] == head && VOID < head < |s.blocks| && head != s.current
    && s.blocks[head].target.Dispatch?
  }

  /** What opening a clause does to the builder: a block is opened, the one before it is
      closed, and the switch head's terminator becomes `entered`. */
  ghost predicate Opens(s: State, p: Pos, s1: State, head: BlockId, entered: Target) {
    && HeadOf(s, head) && At(s1, Pos(p.next, 0, p.next + 1)) && HeadOf(s1, head)
    && SameStacks(s, s1) && s1.callSites == s.callSites
    && Keeps(s.blocks, s.current, head, s1.blocks) && Ends(s1.blocks, p, Goto(p.next))
    && s1.blocks[head] == Block(s.blocks[head].code, entered)
  }

  lemma OpenClause(s: State, p: Pos, head: BlockId, entered: Target)
    requires At(s, p) && HeadOf(s, head) && entered.Dispatch?
    ensures Opens(s, p, StepClause(s, entered), head, entered)
  {
  }

  lemma OpenClauseFits(s: State, sc: Scope, p: Pos, env: Env, head: BlockId, s1: State, entered: Target)
    requires At(s, p) && Fits(s, sc, env) && Opens(s, p, s1, head, entered)
    ensures Fits(s1, sc, env)
  {
  }

  function Entered(t: Target, tag: Label, b: BlockId): Target {
    if tag.Case? then AddCase(t, tag.val, b) else SetDefault(t, b)
  }

  lemma RegisteredStep(t: Target, tag: Label, body: Code, rest: Clauses, next: nat)
    requires t.Dispatch?
    ensures var t1 := Entered(t, tag, next);
            t1.Dispatch? && Registered(t1, rest, AfterCode(body, Pos(next, 0, next + 1)).next)
                         == Registered(t, Clause(tag, body, rest), next)
  {
    var m := CaseMap(rest, AfterCode(body, Pos(next, 0, next + 1)).next);
    if tag.Case? {
      var t1 := AddCase(t, tag.val, next);
      assert m + t1.cases == m[tag.val := next] + t.cases;
    }
  }

  lemma RegisteredNone(t: Target, next: nat)
    requires t.Dispatch?
    ensures Registered(t, NoClause, next) == t
  {
    assert map[] + t.cases == t.cases;
  }

  lemma KeepsSelfHead(s: State, head: BlockId)
    requires HeadOf(s, head)
    ensures Keeps(s.blocks, s.current, head, s.blocks) && s.callSites + [] == s.callSites
    ensures head < |s.blocks| && HeadOf(s, head)
  {
  }

  lemma KeepsHead(g1: Graph, c1: BlockId, head: BlockId, g2: Graph, c2: BlockId, g3: Graph)
    requires Keeps(g1, c1, head, g2) && (Keeps(g2, c2, head, g3) || Keeps(g2, c2, VOID, g3)) && c1 != head && c2 != head
    requires c2 == c1 || c2 == VOID || c2 >= |g1|
    ensures Keeps(g1, c1, head, g3)
  {
  }

  lemma BuildClauseStart(s: State, tag: Label, sc: Scope, p: Pos, env: Env, head: BlockId) returns (s1: State)
    requires At(s, p) && Fits(s, sc, env) && HeadOf(s, head)
    ensures s1 == StepOp(s, ClauseOp(tag)) && Fits(s1, sc, env)
    ensures Opens(s, p, s1, head, Entered(s.blocks[head].target, tag, p.next))
  {
    hide StepClause;
    var entered := Entered(s.blocks[head].target, tag, p.next);
    s1 := StepOp(s, ClauseOp(tag));
    assert s1 == StepClause(s, entered);
    OpenClause(s, p, head, entered);
    OpenClauseFits(s, sc, p, env, head, s1, entered);
  }

  /** The state `mid` after one clause, and the state `after` the remaining ones. */
  ghost predicate ClauseBuilt(s: State, mid: State, p: Pos, q: Pos, head: BlockId, target: Target,
                              sites: seq<BlockId>) {
    && At(mid, q) && SameStacks(s, mid) && mid.callSites == s.callSites + sites
    && HeadOf(s, head) && Keeps(s.blocks, s.current, head, mid.blocks)
    && mid.blocks[head] == Block(s.blocks[head].code, target)
  }

  lemma ClausesCompose(s: State, mid: State, after: State, p: Pos, q: Pos, r: Pos, head: BlockId,
                       t1: Target, t2: Target, sites1: seq<BlockId>, sites2: seq<BlockId>)
    requires At(s, p) && ClauseBuilt(s, mid, p, q, head, t1, sites1) && ClauseBuilt(mid, after, q, r, head, t2, sites2)
    requires q.cur == p.cur || q.cur == VOID || q.cur >= p.next
    ensures ClauseBuilt(s, after, p, r, head, t2, sites1 + sites2)
  {
    KeepsHead(s.blocks, s.current, head, mid.blocks, mid.current, after.blocks);
  }

  /** One clause: its opcode and its body. */
  lemma {:induction false} BuildClause(s: State, tag: Label, body: Code, sc: Scope, p: Pos, env: Env, g: Graph,
                                       head: BlockId,
                                       h: Graph, r: Pos)
    requires At(s, p) && Fits(s, sc, env) && WfCode(body, sc, true) && HeadOf(s, head)
    ensures var e := Pos(p.next, 0, p.next + 1);
            var mid, q := Process(s, [ClauseOp(tag)] + Flatten(body)), AfterCode(body, e);
            && ClauseBuilt(s, mid, p, q, head, Entered(s.blocks[head].target, tag, p.next), Sites(body, e))
            && HeadOf(mid, head) && Fits(mid, sc, env)
            && (Keeps(mid.blocks, mid.current, head, h) && Settled(h, g, p, r) && Follows(q, r) ==>
                  Ends(g, p, Goto(p.next)) && HasCode(g, body, e, env))
    decreases body, 3
  {
    hide Process, StepOp, Settled, Fits, HasCode, Entered, StepClause;
    var e := Pos(p.next, 0, p.next + 1);
    ProcessAppend(s, [ClauseOp(tag)], Flatten(body));
    ProcessOne(s, ClauseOp(tag));
    var s1 := BuildClauseStart(s, tag, sc, p, env, head);
    BuildCode(s1, body, sc, e, env, g);
    var s2, q := Process(s1, Flatten(body)), AfterCode(body, e);
    FitsStill(s1, e, sc, env, s2, q);
    KeepsHead(s.blocks, s.current, head, s1.blocks, s1.current, s2.blocks);
    if Keeps(s2.blocks, s2.current, head, h) && Settled(h, g, p, r) && Follows(q, r) {
      SettledPart(s2.blocks, h, head, g, p, r, e, q);
      EndsStill(s1.blocks, s1.current, VOID, s2.blocks, p, Goto(p.next));
      EndsStill(s2.blocks, s2.current, head, h, p, Goto(p.next));
      SettledEnds(h, g, p, r, p, Goto(p.next));
    }
  }

  lemma {:induction false} BuildClauses(s: State, cs: Clauses, continues: bool, p: Pos, env: Env, g: Graph,
                                        head: BlockId)
    requires At(s, p) && Fits(s, Scope(true, continues, true), env) && WfClauses(cs, continues) && HeadOf(s, head)
    ensures var after, q := Process(s, FlattenClauses(cs)), AfterClauses(cs, p);
            && ClauseBuilt(s, after, p, q, head, Registered(s.blocks[head].target, cs, p.next), ClauseSites(cs, p))
            && (Settled(after.blocks, g, p, q) ==> HasClauses(g, cs, p, env))
    decreases cs, 0
  {
    hide Process, StepOp, Settled, Fits, Registered, Entered, HasCode, Keeps;
    match cs
    case NoClause =>
      ProcessNone(s);
      assert ClauseBuilt(s, s, p, p, head, s.blocks[head].target, []) by { KeepsSelfHead(s, head); }
      RegisteredNone(s.blocks[head].target, p.next);
    case Clause(tag, body, rest) =>
      var sc, e := Scope(true, continues, true), Pos(p.next, 0, p.next + 1);
      var op := [ClauseOp(tag)] + Flatten(body);
      ProcessAppend(s, op, FlattenClauses(rest));
      var mid, q := Process(s, op), AfterCode(body, e);
      var after, r := Process(mid, FlattenClauses(rest)), AfterClauses(rest, q);
      BuildClause(s, tag, body, sc, p, env, g, head, after.blocks, r);
      BuildClauses(mid, rest, continues, q, env, g, head);
      RegisteredStep(s.blocks[head].target, tag, body, rest, p.next);
      ClausesCompose(s, mid, after, p, q, r, head, mid.blocks[head].target, after.blocks[head].target,
                     Sites(body, e), ClauseSites(rest, q));
      if Settled(after.blocks, g, p, r) {
        SettledRest(after.blocks, g, p, q, r);
      }
  }

  lemma {:induction false} BuildSwitch(s: State, v: Operand, cs: Clauses, sc: Scope, p: Pos, env: Env, g: Graph)
    requires At(s, p) && Fits(s, sc, env) && WfClauses(cs, sc.continues) && p.cur != VOID
    ensures var st := Switch(v, cs);
            var after := Process(s, FlattenStmt(st));
            && Builds(s, after, p, AfterStmt(st, p), StmtSites(st, p))
            && (Settled(after.blocks, g, p, AfterStmt(st, p)) ==> HasStmt(g, st, p, env))
    decreases Switch(v, cs), 0
  {
    hide Process, StepOp, Settled, Fits, HasClauses, FlattenClauses, ClauseSites, AfterClauses, WfClauses;
    var n, st := p.next, Switch(v, cs);
    ProcessBracket(s, OpSwitch(v), FlattenClauses(cs), OpEndSwitch);
    var s1, i := StepOp(s, OpSwitch(v)), Pos(VOID, 0, n + 1);
    OpenSwitch(s, v, sc, p, env);
    BuildClauses(s1, cs, sc.continues, i, env.(brk := n), g, p.cur);
    var s2, q := Process(s1, FlattenClauses(cs)), AfterClauses(cs, i);
    CloseSwitch(s2, q);
    var s3, r := StepOp(s2, OpEndSwitch), Pos(n, 0, q.next);
    assert CaseMap(cs, n + 1) + map[] == CaseMap(cs, n + 1);
    assert Keeps(s.blocks, s.current, VOID, s2.blocks);
    KeepsTrans(s.blocks, s.current, s2.blocks, s2.current, s3.blocks);
    if Settled(s3.blocks, g, p, r) {
      SettledPart(s2.blocks, s3.blocks, VOID, g, p, r, i, q);
      SettledEnds(s3.blocks, g, p, r, q, Goto(n));
      var t := Dispatch(v, CaseMap(cs, n + 1), DefaultBlock(cs, n + 1, n));
      SettledEnds(s3.blocks, g, p, r, p, t);
    }
  }
}
