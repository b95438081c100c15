/** Code laid out in a graph is closed: all of its blocks but the one it stops in have a
    terminator, which leads to owned blocks only, and its call sites are known. */
module Sealing {
  import opened Shader
  import opened FlowGraph
  import opened Structured
  import opened Layout
  import opened BuilderLayout

  predicate Distinct(s: seq<BlockId>) {
    forall i, j :: 0 <= i < j < |s| ==> s[i] != s[j]
  }

  /** One finished block: it has a terminator, which stays between `lo` and `hi`; it calls only
      functions in `calls`, and does so exactly if it is listed in `sites`. */
  ghost predicate SealedBlock(g: Graph, b: BlockId, lo: BlockId, hi: BlockId, calls: set<FuncId>, sites: seq<BlockId>) {
    && b < |g| && g[b].target != Undefined && Within(g[b].target, lo, hi)
    && (g[b].target.Invoke? ==> g[b].target.func in calls)
    && (g[b].target.Invoke? <==> b in sites)
  }

  /** A terminator that structured code makes: it neither ends the shader nor starts or ends a hull phase. */
  predicate Structural(t: Target) { t.Goto? || t.Branch? || t.Dispatch? || t.Invoke? }

  ghost predicate Sealed(g: Graph, p: Pos, q: Pos, lo: BlockId, calls: set<FuncId>, sites: seq<BlockId>) {
    && (forall b: BlockId :: Owns(p, q, b) && b != q.cur ==>
          SealedBlock(g, b, lo, q.next, calls, sites) && Structural(g[b].target))
    && (forall b <- sites :: Owns(p, q, b) && b != q.cur)
    && Distinct(sites)
  }

  /** What scope and environment mean for where code may jump. */
  ghost predicate EnvWithin(sc: Scope, env: Env, lo: BlockId, hi: BlockId) {
    && (sc.breaks ==> lo <= env.brk < hi) && (sc.continues ==> lo <= env.cont < hi) && lo <= env.ret < hi
  }

  /** Code starting at `p` may only lead to blocks from `lo` on. */
  ghost predicate Starts(p: Pos, sc: Scope, env: Env, lo: BlockId) {
    && p.cur < p.next && VOID < lo <= p.next && EnvWithin(sc, env, lo, p.next)
  }

  lemma SealThen(g: Graph, p: Pos, q: Pos, r: Pos, lo: BlockId, c1: set<FuncId>, s1: seq<BlockId>, c2: set<FuncId>,
                 s2: seq<BlockId>)
    requires p.cur < p.next && q.cur < q.next && Follows(p, q) && Follows(q, r)
    requires Sealed(g, p, q, lo, c1, s1) && Sealed(g, q, r, lo, c2, s2)
    ensures Sealed(g, p, r, lo, c1 + c2, s1 + s2)
  {
    forall b: BlockId | Owns(p, r, b) && b != r.cur
      ensures SealedBlock(g, b, lo, r.next, c1 + c2, s1 + s2) && Structural(g[b].target) {
      if Owns(p, q, b) && b != q.cur {
        assert SealedBlock(g, b, lo, q.next, c1, s1);
        assert b in s2 ==> Owns(q, r, b);
      } else {
        assert Owns(q, r, b);
        assert SealedBlock(g, b, lo, r.next, c2, s2);
        assert b in s1 ==> Owns(p, q, b) && b != q.cur;
      }
    }
    forall b | b in s1 + s2 ensures Owns(p, r, b) && b != r.cur {
      assert if b in s1 then Owns(p, q, b) && b != q.cur else Owns(q, r, b) && b != r.cur;
    }
    forall i, j | 0 <= i < |s1| && 0 <= j < |s2| ensures s1[i] != s2[j] {
      assert Owns(p, q, s1[i]) && s1[i] != q.cur && Owns(q, r, s2[j]);
    }
  }

  ghost predicate Jump(t: Target, lo: BlockId, hi: BlockId) {
    Structural(t) && !t.Invoke? && Within(t, lo, hi)
  }

  /** A closed stretch `i` to `q`, entered from `p` and left for the block of `r`. */
  lemma SealWrap(g: Graph, p: Pos, t1: Target, i: Pos, q: Pos, t2: Target, r: Pos, lo: BlockId,
                 calls: set<FuncId>, sites: seq<BlockId>)
    requires Sealed(g, i, q, lo, calls, sites) && Ends(g, p, t1) && Ends(g, q, t2) && q.next <= r.next
    requires forall b: BlockId :: Owns(p, r, b) && b != r.cur && b != p.cur ==> Owns(i, q, b)
    requires forall b: BlockId :: Owns(i, q, b) ==> Owns(p, r, b) && b != r.cur && b != p.cur
    requires Jump(t1, lo, r.next) && Jump(t2, lo, r.next)
    requires p.cur < p.next && (q.cur == VOID || Owns(i, q, q.cur))
    ensures Sealed(g, p, r, lo, calls, sites)
  {
    forall b: BlockId | Owns(p, r, b) && b != r.cur
      ensures SealedBlock(g, b, lo, r.next, calls, sites) && Structural(g[b].target) {
      if b != p.cur && b != q.cur {
        assert SealedBlock(g, b, lo, q.next, calls, sites);
      } else {
        assert b in sites ==> Owns(i, q, b) && b != q.cur;
      }
    }
    forall b | b in sites ensures Owns(p, r, b) && b != r.cur {
      assert Owns(i, q, b);
    }
  }

  lemma {:induction false} SealCode(g: Graph, c: Code, sc: Scope, p: Pos, env: Env, lo: BlockId)
    requires HasCode(g, c, p, env) && WfCode(c, sc, p.cur != VOID) && Starts(p, sc, env, lo)
    ensures Sealed(g, p, AfterCode(c, p), lo, Calls(c), Sites(c, p))
    decreases c, 2
  {
    match c
    case End =>
    case Then(s, rest) =>
      var q := AfterStmt(s, p);
      SealStmt(g, s, sc, p, env, lo);
      SealCode(g, rest, sc, q, env, lo);
      SealThen(g, p, q, AfterCode(rest, q), lo, StmtCalls(s), StmtSites(s, p), Calls(rest), Sites(rest, q));
  }

  lemma {:induction false} SealStmt(g: Graph, s: Stmt, sc: Scope, p: Pos, env: Env, lo: BlockId)
    requires HasStmt(g, s, p, env) && WfStmt(s, sc, p.cur != VOID) && Starts(p, sc, env, lo)
    ensures Sealed(g, p, AfterStmt(s, p), lo, StmtCalls(s), StmtSites(s, p))
    decreases s, 1
  {
    hide Sealed, HasCode, HasClauses, WfCode, WfClauses, AfterCode, AfterClauses, Calls, Sites;
    match s
    case If(c, yes) => SealIf(g, c, yes, sc, p, env, lo);
    case IfElse(c, yes, no) => SealIfElse(g, c, yes, no, sc, p, env, lo);
    case Loop(body) => SealLoop(g, body, sc, p, env, lo);
    case Switch(v, cs) => SealSwitch(g, v, cs, sc, p, env, lo);
    case _ => SealSimple(g, s, sc, p, env, lo);
  }

  lemma {:induction false} SealIf(g: Graph, c: Condition, yes: Code, sc: Scope, p: Pos, env: Env, lo: BlockId)
    requires HasStmt(g, If(c, yes), p, env) && Starts(p, sc, env, lo) && WfCode(yes, sc.(nested := true), true)
    ensures Sealed(g, p, AfterStmt(If(c, yes), p), lo, Calls(yes), StmtSites(If(c, yes), p))
    decreases If(c, yes), 0
  {
    hide Sealed, HasCode, WfCode, Calls, Sites, AfterCode;
    var n := p.next;
    var i := Pos(n, 0, n + 2);
    SealCode(g, yes, sc.(nested := true), i, env, lo);
    SealWrap(g, p, Branch(c, n, n + 1), i, AfterCode(yes, i), Goto(n + 1), AfterStmt(If(c, yes), p), lo, Calls(yes),
             Sites(yes, i));
  }

  lemma {:induction false} SealLoop(g: Graph, body: Code, sc: Scope, p: Pos, env: Env, lo: BlockId)
    requires HasStmt(g, Loop(body), p, env) && Starts(p, sc, env, lo) && WfCode(body, Scope(true, true, true), true)
    ensures Sealed(g, p, AfterStmt(Loop(body), p), lo, Calls(body), StmtSites(Loop(body), p))
    decreases Loop(body), 0
  {
    hide Sealed, HasCode, WfCode, Calls, Sites, AfterCode;
    var n := p.next;
    var i := Pos(n, 0, n + 2);
    SealCode(g, body, Scope(true, true, true), i, Env(n + 1, n, env.ret), lo);
    SealWrap(g, p, Goto(n), i, AfterCode(body, i), Goto(n), AfterStmt(Loop(body), p), lo, Calls(body), Sites(body, i));
  }

  lemma SealSimple(g: Graph, s: Stmt, sc: Scope, p: Pos, env: Env, lo: BlockId)
    requires HasStmt(g, s, p, env) && WfStmt(s, sc, p.cur != VOID) && Starts(p, sc, env, lo)
    requires !s.If? && !s.IfElse? && !s.Loop? && !s.Switch?
    ensures Sealed(g, p, AfterStmt(s, p), lo, StmtCalls(s), StmtSites(s, p))
  {
  }

  /** Either branch, sealed, lies between the position before and the one after the if. */
  lemma {:induction false} SealIfElse(g: Graph, c: Condition, yes: Code, no: Code, sc: Scope, p: Pos, env: Env,
                                      lo: BlockId)
    requires HasStmt(g, IfElse(c, yes, no), p, env) && Starts(p, sc, env, lo)
    requires WfCode(yes, sc.(nested := true), true) && WfCode(no, sc.(nested := true), true)
    ensures Sealed(g, p, AfterStmt(IfElse(c, yes, no), p), lo, Calls(yes) + Calls(no), StmtSites(IfElse(c, yes, no), p))
    decreases IfElse(c, yes, no), 0
  {
    hide HasCode, WfCode, Calls, Sites, AfterCode;
    var n := p.next;
    var i := Pos(n, 0, n + 2);
    var q := AfterCode(yes, i);
    var e := Pos(n + 1, 0, q.next + 1);
    SealCode(g, yes, sc.(nested := true), i, env, lo);
    SealCode(g, no, sc.(nested := true), e, env, lo);
    SealBranches(g, p, c, i, q, e, AfterCode(no, e), lo, Calls(yes), Sites(yes, i), Calls(no), Sites(no, e));
  }

  lemma SealBranches(g: Graph, p: Pos, c: Condition, i: Pos, q: Pos, e: Pos, u: Pos, lo: BlockId,
                     c1: set<FuncId>, s1: seq<BlockId>, c2: set<FuncId>, s2: seq<BlockId>)
    requires p.cur < p.next && lo <= p.next && i == Pos(p.next, 0, p.next + 2) && Follows(i, q)
    requires e == Pos(p.next + 1, 0, q.next + 1) && Follows(e, u)
    requires Sealed(g, i, q, lo, c1, s1) && Sealed(g, e, u, lo, c2, s2)
    requires Ends(g, p, Branch(c, p.next, p.next + 1)) && Ends(g, q, Goto(q.next)) && Ends(g, u, Goto(q.next))
    ensures Sealed(g, p, Pos(q.next, 0, u.next), lo, c1 + c2, s1 + s2)
  {
    var r := Pos(q.next, 0, u.next);
    forall b: BlockId | Owns(p, r, b) && b != r.cur
      ensures SealedBlock(g, b, lo, r.next, c1 + c2, s1 + s2) && Structural(g[b].target) {
      assert b in s1 ==> Owns(i, q, b) && b != q.cur;
      assert b in s2 ==> Owns(e, u, b) && b != u.cur;
      if Owns(i, q, b) && b != q.cur {
        assert SealedBlock(g, b, lo, q.next, c1, s1);
      } else if Owns(e, u, b) && b != u.cur {
        assert SealedBlock(g, b, lo, u.next, c2, s2);
      }
    }
    forall b | b in s1 + s2 ensures Owns(p, r, b) && b != r.cur {
      assert if b in s1 then Owns(i, q, b) else Owns(e, u, b);
    }
    forall j, k | 0 <= j < |s1| && 0 <= k < |s2| ensures s1[j] != s2[k] {
      assert Owns(i, q, s1[j]) && Owns(e, u, s2[k]);
    }
  }

  lemma {:induction false} SealSwitch(g: Graph, v: Operand, cs: Clauses, sc: Scope, p: Pos, env: Env, lo: BlockId)
    requires HasStmt(g, Switch(v, cs), p, env) && Starts(p, sc, env, lo) && WfClauses(cs, sc.continues)
    ensures Sealed(g, p, AfterStmt(Switch(v, cs), p), lo, ClauseCalls(cs), ClauseSites(cs, Pos(VOID, 0, p.next + 1)))
    decreases Switch(v, cs), 0
  {
    hide HasClauses, WfClauses, ClauseCalls, ClauseSites, AfterClauses, CaseMap, DefaultBlock;
    var n := p.next;
    var i := Pos(VOID, 0, n + 1);
    SealClauses(g, cs, sc.continues, i, env.(brk := n), lo);
    CasesWithin(cs, i, n);
    var t := Dispatch(v, CaseMap(cs, n + 1), DefaultBlock(cs, n + 1, n));
    SealWrap(g, p, t, i, AfterClauses(cs, i), Goto(n), AfterStmt(Switch(v, cs), p), lo, ClauseCalls(cs),
             ClauseSites(cs, i));
  }

  lemma {:induction false} SealClauses(g: Graph, cs: Clauses, continues: bool, p: Pos, env: Env, lo: BlockId)
    requires HasClauses(g, cs, p, env) && WfClauses(cs, continues) && Starts(p, Scope(true, continues, true), env, lo)
    ensures Sealed(g, p, AfterClauses(cs, p), lo, ClauseCalls(cs), ClauseSites(cs, p))
    decreases cs, 0
  {
    match cs
    case NoClause =>
    case Clause(tag, body, rest) =>
      var sc, e := Scope(true, continues, true), Pos(p.next, 0, p.next + 1);
      var q := AfterCode(body, e);
      hide Sealed, HasCode, WfCode, Calls, Sites, AfterCode;
      SealCode(g, body, sc, e, env, lo);
      SealClauses(g, rest, continues, q, env, lo);
      SealThen(g, e, q, AfterClauses(rest, q), lo, Calls(body), Sites(body, e), ClauseCalls(rest),
               ClauseSites(rest, q));
      SealFallThrough(g, p, AfterClauses(rest, q), lo, Calls(body) + ClauseCalls(rest),
                      Sites(body, e) + ClauseSites(rest, q));
  }

  /** The block before a clause falls through to it. */
  lemma SealFallThrough(g: Graph, p: Pos, r: Pos, lo: BlockId, calls: set<FuncId>, sites: seq<BlockId>)
    requires Ends(g, p, Goto(p.next)) && p.cur < p.next && lo <= p.next < r.next && (p.cur != VOID ==> r.cur != p.cur)
    requires Sealed(g, Pos(p.next, 0, p.next + 1), r, lo, calls, sites)
    ensures Sealed(g, p, r, lo, calls, sites)
  {
    var e := Pos(p.next, 0, p.next + 1);
    assert p.cur != VOID ==> p.cur !in sites by {
      assert forall b <- sites :: Owns(e, r, b);
    }
  }

  /** Every clause a switch can enter is one of its own blocks. */
  lemma {:induction false} CasesWithin(cs: Clauses, p: Pos, otherwise: BlockId)
    ensures var next, hi := p.next, AfterClauses(cs, p).next;
            && (forall k <- CaseMap(cs, next) :: next <= CaseMap(cs, next)[k] < hi)
            && (DefaultBlock(cs, next, otherwise) == otherwise || next <= DefaultBlock(cs, next, otherwise) < hi)
    decreases cs
  {
    if cs.Clause? {
      var q := AfterCode(cs.body, Pos(p.next, 0, p.next + 1));
      CasesWithin(cs.rest, q, if cs.tag.Default? then p.next else otherwise);
    }
  }
}
