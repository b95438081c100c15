/** Where the builder puts the code of a structured program: block numbers are handed out
    in order, so the position after any piece of code can be computed from the tree alone. */
module Layout {
  import opened Shader
  import opened FlowGraph
  import opened Structured

  /** The builder's place: current block, how much code it holds, the next free block number.
      `pc` is 0 when the current block is the void block. */
  datatype Pos = Pos(cur: BlockId, pc: nat, next: nat)

  /** Where break, continue and ret lead. */
  datatype Env = Env(brk: BlockId, cont: BlockId, ret: BlockId)

  ghost predicate Follows(p: Pos, q: Pos) {
    p.next <= q.next && (q == p.(pc := q.pc) || q.cur == VOID || p.next <= q.cur < q.next)
  }

  function AfterCode(c: Code, p: Pos): (q: Pos)
    ensures Follows(p, q)
  {
    match c
    case End => p
    case Then(s, rest) => AfterCode(rest, AfterStmt(s, p))
  }

  function AfterStmt(s: Stmt, p: Pos): (q: Pos)
    ensures Follows(p, q)
    ensures !s.Plain? ==> q.cur == VOID || p.next <= q.cur < q.next
    ensures p.next > VOID ==> (q.cur != VOID <==> LiveAfter(s, p.cur != VOID))
  {
    var n := p.next;
    match s
    case Plain(code) => if p.cur == VOID then p else p.(pc := p.pc + |code|)
    case If(_, yes) => Pos(n + 1, 0, AfterCode(yes, Pos(n, 0, n + 2)).next)
    case IfElse(_, yes, no) =>
      var q := AfterCode(yes, Pos(n, 0, n + 2));
      Pos(q.next, 0, AfterCode(no, Pos(n + 1, 0, q.next + 1)).next)
    case Loop(body) => Pos(n + 1, 0, AfterCode(body, Pos(n, 0, n + 2)).next)
    case Break => Pos(VOID, 0, n)
    case Continue => Pos(VOID, 0, n)
    case BreakIf(_) => Pos(n, 0, n + 1)
    case ContinueIf(_) => Pos(n, 0, n + 1)
    case Switch(_, cs) => Pos(n, 0, AfterClauses(cs, Pos(VOID, 0, n + 1)).next)
    case Return => Pos(VOID, 0, n)
    case ReturnIf(_) => Pos(n, 0, n + 1)
    case Discard(_) => Pos(n + 1, 0, n + 2)
    case Call(_) => Pos(n, 0, n + 1)
  }

  function AfterClauses(cs: Clauses, p: Pos): (q: Pos)
    ensures Follows(p, q)
  {
    match cs
    case NoClause => p
    case Clause(_, body, rest) => AfterClauses(rest, AfterCode(body, Pos(p.next, 0, p.next + 1)))
  }

  /** The first case of a label wins; the last default wins. */
  function CaseMap(cs: Clauses, next: nat): map<int, BlockId> {
    match cs
    case NoClause => map[]
    case Clause(tag, body, rest) =>
      var m := CaseMap(rest, AfterCode(body, Pos(next, 0, next + 1)).next);
      if tag.Case? then m[tag.val := next] else m
  }

  function DefaultBlock(cs: Clauses, next: nat, otherwise: BlockId): BlockId {
    match cs
    case NoClause => otherwise
    case Clause(tag, body, rest) =>
      DefaultBlock(rest, AfterCode(body, Pos(next, 0, next + 1)).next, if tag.Default? then next else otherwise)
  }

  /** The block that ends in the code's `i`-th call, for every call in order. */
  function Sites(c: Code, p: Pos): seq<BlockId> {
    match c
    case End => []
    case Then(s, rest) => StmtSites(s, p) + Sites(rest, AfterStmt(s, p))
  }

  function StmtSites(s: Stmt, p: Pos): seq<BlockId> {
    var n := p.next;
    match s
    case If(_, yes) => Sites(yes, Pos(n, 0, n + 2))
    case IfElse(_, yes, no) =>
      Sites(yes, Pos(n, 0, n + 2)) + Sites(no, Pos(n + 1, 0, AfterCode(yes, Pos(n, 0, n + 2)).next + 1))
    case Loop(body) => Sites(body, Pos(n, 0, n + 2))
    case Switch(_, cs) => ClauseSites(cs, Pos(VOID, 0, n + 1))
    case Call(_) => [p.cur]
    case _ => []
  }

  function ClauseSites(cs: Clauses, p: Pos): seq<BlockId> {
    match cs
    case NoClause => []
    case Clause(_, body, rest) =>
      var e := Pos(p.next, 0, p.next + 1);
      Sites(body, e) + ClauseSites(rest, AfterCode(body, e))
  }

  // --------------------------------------------------- code present in a graph

  /** The block the code stops in ends exactly here and with terminator `t`; nothing is
      claimed about the void block. */
  ghost predicate Ends(g: Graph, p: Pos, t: Target) {
    p.cur == VOID || (p.cur < |g| && |g[p.cur].code| == p.pc && g[p.cur].target == t)
  }

  ghost predicate HasCode(g: Graph, c: Code, p: Pos, env: Env) {
    match c
    case End => true
    case Then(s, rest) => HasStmt(g, s, p, env) && HasCode(g, rest, AfterStmt(s, p), env)
  }

  ghost predicate HasStmt(g: Graph, s: Stmt, p: Pos, env: Env) {
    var n := p.next;
    match s
    case Plain(code) =>
      p.cur == VOID
      || (p.cur < |g| && p.pc + |code| <= |g[p.cur].code| && g[p.cur].code[p.pc..p.pc + |code|] == code)
    case If(c, yes) =>
      var body := Pos(n, 0, n + 2);
      && Ends(g, p, Branch(c, n, n + 1))
      && HasCode(g, yes, body, env)
      && Ends(g, AfterCode(yes, body), Goto(n + 1))
    case IfElse(c, yes, no) =>
      var body := Pos(n, 0, n + 2);
      var q := AfterCode(yes, body);
      var other := Pos(n + 1, 0, q.next + 1);
      && Ends(g, p, Branch(c, n, n + 1))
      && HasCode(g, yes, body, env) && Ends(g, q, Goto(q.next))
      && HasCode(g, no, other, env) && Ends(g, AfterCode(no, other), Goto(q.next))
    case Loop(body) =>
      var inside := Pos(n, 0, n + 2);
      && Ends(g, p, Goto(n))
      && HasCode(g, body, inside, Env(n + 1, n, env.ret))
      && Ends(g, AfterCode(body, inside), Goto(n))
    case Break => Ends(g, p, Goto(env.brk))
    case Continue => Ends(g, p, Goto(env.cont))
    case BreakIf(c) => Ends(g, p, Branch(c, env.brk, n))
    case ContinueIf(c) => Ends(g, p, Branch(c, env.cont, n))
    case Switch(v, cs) =>
      var inside := Pos(VOID, 0, n + 1);
      && Ends(g, p, Dispatch(v, CaseMap(cs, n + 1), DefaultBlock(cs, n + 1, n)))
      && HasClauses(g, cs, inside, env.(brk := n))
      && Ends(g, AfterClauses(cs, inside), Goto(n))
    case Return => Ends(g, p, Goto(env.ret))
    case ReturnIf(c) => Ends(g, p, Branch(c, env.ret, n))
    case Discard(c) =>
      && Ends(g, p, Branch(c, n, n + 1))
      && n < |g| && g[n] == Block([PixelDiscard], Goto(n + 1))
    case Call(f) => Ends(g, p, Invoke(f, n))
  }

  ghost predicate HasClauses(g: Graph, cs: Clauses, p: Pos, env: Env) {
    match cs
    case NoClause => true
    case Clause(_, body, rest) =>
      var e := Pos(p.next, 0, p.next + 1);
      && Ends(g, p, Goto(p.next))
      && HasCode(g, body, e, env)
      && HasClauses(g, rest, AfterCode(body, e), env)
  }
}
