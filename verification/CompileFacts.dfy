/** What compiling a fragment statement does to names, constants and temporaries. */
module CompileFacts {
  import opened Syntax
  import opened ExprLowering
  import opened Fragment
  import opened LoweringFacts
  import opened Compositional
  import Ir

  /** No local ever moves to another register. */
  ghost predicate Keeps(later: Names, earlier: Names) {
    later.natives == earlier.natives && forall x | x in earlier.locals :: x in later.locals && later.locals[x] == earlier.locals[x]
  }

  /** Names defined from counter `n` on have registers from `n` on. */
  ghost predicate NewFrom(later: Names, earlier: Names, n: int) {
    forall x | x in later.locals && x !in earlier.locals :: later.locals[x].id >= n
  }

  /** What code for statements that define `names`, lowered from counter `n`, leaves behind. */
  ghost predicate CompilesWell(sg: Signature, r: Compiled, nm: Names, pool: Pool, n: int, next: int, names: set<string>) {
    && GoodPool(sg.fs, r.pool) && Extends(r.pool, pool) && r.next == next >= n
    && GoodNames(sg, r.nm, next) && Keeps(r.nm, nm) && NewFrom(r.nm, nm, n)
    && r.nm.locals.Keys == nm.locals.Keys + names
  }

  ghost predicate Prepared(sg: Signature, nm: Names, pool: Pool, n: int) {
    NamesOk(sg.fs) && GoodPool(sg.fs, pool) && GoodNames(sg, nm, n)
  }

  lemma DefineLocal(sg: Signature, nm: Names, n: int, m: int, name: string)
    requires GoodNames(sg, nm, n) && 0 <= n <= m && FreshName(sg, name) && name !in nm.locals
    ensures GoodNames(sg, nm.(locals := nm.locals[name := Ir.TempAt(m)]), m + 1)
  {
  }

  /** Lowering an expression leaves everything ready for what follows it. */
  lemma {:induction false} PrepareNext(sg: Signature, e: Expr, nm: Names, pool: Pool, n: nat, lim: nat)
    requires Prepared(sg, nm, pool, n) && OkExpr(sg, e, nm.locals.Keys, n, lim)
    ensures var r := LowerExpr(nm, e, pool, n);
            && LowersWell(sg, nm, e, pool, n) && r.next == n + Temps(e)
            && Prepared(sg, nm, r.pool, r.next) && Extends(r.pool, pool)
  {
    LowerSucceeds(sg, nm, e, pool, nm.locals.Keys, n, lim);
    hide LowerExpr, OkExpr, Temps, GoodPool, NamesOk;
    GoodNamesGrow(sg, nm, n, LowerExpr(nm, e, pool, n).next);
  }

  lemma PrepareAfter(sg: Signature, c: Compiled, nm: Names, pool: Pool, n: int, next: int, names: set<string>)
    requires NamesOk(sg.fs) && CompilesWell(sg, c, nm, pool, n, next, names)
    ensures Prepared(sg, c.nm, c.pool, next) && c.next == next >= n && c.nm.locals.Keys == nm.locals.Keys + names
  {
  }

  /** Facts about code are facts about the same code placed after other code. */
  lemma AndThen(
    sg: Signature, a: Compiled, c: Compiled, nm: Names, pool: Pool, n: int, next1: int, names1: set<string>, next: int, names: set<string>)
    requires CompilesWell(sg, a, nm, pool, n, next1, names1) && CompilesWell(sg, c, a.nm, a.pool, next1, next, names)
    ensures CompilesWell(sg, c, nm, pool, n, next, names1 + names)
  {
    hide GoodPool, GoodNames, Extends;
    ExtendsTrans(c.pool, a.pool, pool);
  }

  lemma FromPool(sg: Signature, c: Compiled, nm: Names, pool: Pool, pool0: Pool, n0: int, n: int, next: int, names: set<string>)
    requires CompilesWell(sg, c, nm, pool, n, next, names) && Extends(pool, pool0) && n0 <= n
    ensures CompilesWell(sg, c, nm, pool0, n0, next, names)
  {
    hide GoodPool, GoodNames, Extends;
    ExtendsTrans(c.pool, pool, pool0);
  }

  lemma CompileNothing(sg: Signature, nm: Names, pool: Pool, n: int, c: Compiled)
    requires Prepared(sg, nm, pool, n)
    requires c.nm == nm && c.pool == pool && c.next == n
    ensures CompilesWell(sg, c, nm, pool, n, n, {}) && NamesOk(sg.fs)
  {
  }

  /** Only names, constants and counters matter. */
  lemma Reshape(sg: Signature, a: Compiled, c: Compiled, nm: Names, pool: Pool, n: int, next: int, names: set<string>)
    requires CompilesWell(sg, a, nm, pool, n, next, names)
    requires c.nm == a.nm && c.pool == a.pool && c.next == a.next
    ensures CompilesWell(sg, c, nm, pool, n, next, names)
  {
    hide GoodPool, GoodNames, Extends, Keeps;
  }

  lemma CompileExpression(sg: Signature, e: Expr, nm: Names, pool: Pool, n: nat, lim: nat, c: Compiled)
    requires Prepared(sg, nm, pool, n) && OkExpr(sg, e, nm.locals.Keys, n, lim)
    requires var r := LowerExpr(nm, e, pool, n); c.nm == nm && c.pool == r.pool && c.next == r.next
    ensures CompilesWell(sg, c, nm, pool, n, n + Temps(e), {})
  {
    hide Prepared, CompilesWell, LowersWell, Extends;
    PrepareNext(sg, e, nm, pool, n, lim);
    var r := LowerExpr(nm, e, pool, n);
    CompileNothing(sg, nm, r.pool, r.next, c);
    FromPool(sg, c, nm, r.pool, pool, n, r.next, r.next, {});
  }

  lemma LowerAssignment(sg: Signature, nm: Names, e: Expr, pool: Pool, n: nat, lim: nat)
    requires Prepared(sg, nm, pool, n)
    requires e.Assign? && e.target.Literal? && e.target.kind == TkIdent && e.target.lexeme in nm.locals
    requires OkExpr(sg, e.value, nm.locals.Keys, n, lim)
    ensures var r := LowerExpr(nm, e.value, pool, n);
            && r.addr.Some? && Temps(e) == Temps(e.value)
            && LowerExpr(nm, e, pool, n) ==
               r.(steps := r.steps + [Ir.TacMove(nm.locals[e.target.lexeme], r.addr.value)], addr := Some(nm.locals[e.target.lexeme]))
  {
    LowerAssign(sg, nm, e, pool, nm.locals.Keys, n, lim);
  }

  lemma CompileDefinition(sg: Signature, s: Stmt, nm: Names, pool: Pool, n: nat, lim: nat, base: int, brk: int)
    requires Prepared(sg, nm, pool, n)
    requires s.LocalDef? && OkStmt(sg, s, nm.locals.Keys, n, lim, false)
    ensures CompilesWell(sg, CompileStmt(s, nm, pool, n, base, brk), nm, pool, n, n + StmtTemps(s), DefinedBy(s))
  {
    hide LowersWell, LowerExpr, TranslateAll, GoodPool, OkExpr, Extends, NamesOk, FreshName, Temps;
    PrepareNext(sg, s.init, nm, pool, n, lim);
    DefineLocal(sg, nm, n, n + Temps(s.init), s.name);
  }

  lemma {:induction false} CompileStmtFacts(
    sg: Signature, s: Stmt, nm: Names, pool: Pool, n: nat, lim: nat, inLoop: bool, base: int, brk: int)
    requires Prepared(sg, nm, pool, n)
    requires OkStmt(sg, s, nm.locals.Keys, n, lim, inLoop)
    ensures CompilesWell(sg, CompileStmt(s, nm, pool, n, base, brk), nm, pool, n, n + StmtTemps(s), DefinedBy(s))
    decreases s, 3
  {
    match s
    case If(_, _, _) => CompileIfFacts(sg, s, nm, pool, n, lim, inLoop, base, brk);
    case While(_, _) => CompileWhileFacts(sg, s, nm, pool, n, lim, inLoop, base, brk);
    case _ => CompileSimpleFacts(sg, s, nm, pool, n, lim, inLoop, base, brk);
  }

  lemma CompileSimpleFacts(
    sg: Signature, s: Stmt, nm: Names, pool: Pool, n: nat, lim: nat, inLoop: bool, base: int, brk: int)
    requires Prepared(sg, nm, pool, n)
    requires !s.If? && !s.While? && OkStmt(sg, s, nm.locals.Keys, n, lim, inLoop)
    ensures CompilesWell(sg, CompileStmt(s, nm, pool, n, base, brk), nm, pool, n, n + StmtTemps(s), DefinedBy(s))
  {
    hide Prepared, CompilesWell, LowersWell, Extends, LowerExpr, TranslateAll, OkExpr;
    var c := CompileStmt(s, nm, pool, n, base, brk);
    match s
    case ExprStmt(e) =>
      if e.Assign? {
        LowerAssignment(sg, nm, e, pool, n, lim);
        CompileExpression(sg, e.value, nm, pool, n, lim, c);
      } else {
        CompileExpression(sg, e, nm, pool, n, lim, c);
      }
    case LocalDef(name, init) => CompileDefinition(sg, s, nm, pool, n, lim, base, brk);
    case Return(result) => CompileExpression(sg, result, nm, pool, n, lim, c);
    case Break => CompileNothing(sg, nm, pool, n, c);
  }

  /** The condition and the first branch of an `if`. */
  lemma {:induction false} CompileThenFacts(
    sg: Signature, s: Stmt, nm: Names, pool: Pool, n: nat, lim: nat, inLoop: bool, base: int, brk: int)
    requires Prepared(sg, nm, pool, n)
    requires s.If? && OkStmt(sg, s, nm.locals.Keys, n, lim, inLoop)
    ensures var r := LowerExpr(nm, s.cond, pool, n);
            && LowersWell(sg, nm, s.cond, pool, n) && Extends(r.pool, pool)
            && CompilesWell(sg, CompileStmts(s.thn, nm, r.pool, r.next, base + |TranslateAll(r.steps)| + 1, brk), nm, r.pool,
                            r.next, n + Temps(s.cond) + BlockTemps(s.thn), DefinedIn(s.thn))
    decreases s, 0
  {
    hide Prepared, CompilesWell, LowersWell, Extends, LowerExpr, TranslateAll;
    PrepareNext(sg, s.cond, nm, pool, n, lim);
    var r := LowerExpr(nm, s.cond, pool, n);
    var first := base + |TranslateAll(r.steps)| + 1;
    CompileStmtsFacts(sg, s.thn, nm, r.pool, r.next, lim, inLoop, first, brk);
  }

  /** The other branch, compiled after the first. */
  lemma {:induction false} CompileElseFacts(
    sg: Signature, s: Stmt, nm: Names, pool: Pool, n: nat, lim: nat, inLoop: bool, base: int, brk: int)
    requires Prepared(sg, nm, pool, n)
    requires s.If? && s.els.Else? && OkStmt(sg, s, nm.locals.Keys, n, lim, inLoop)
    ensures var r := LowerExpr(nm, s.cond, pool, n);
            var first := base + |TranslateAll(r.steps)| + 1;
            var t := CompileStmts(s.thn, nm, r.pool, r.next, first, brk);
            var n1 := n + Temps(s.cond) + BlockTemps(s.thn);
            && t.next == n1 && t.nm.locals.Keys == nm.locals.Keys + DefinedIn(s.thn)
            && CompilesWell(sg, CompileStmts(s.els.body, t.nm, t.pool, t.next, first + |t.code| + 2, brk), t.nm, t.pool,
                            n1, n1 + BlockTemps(s.els.body), DefinedIn(s.els.body))
    decreases s, 1
  {
    hide Prepared, NamesOk, LowersWell, CompilesWell, LowerExpr, TranslateAll, OkExpr, Temps;
    CompileNothing(sg, nm, pool, n, Compiled([], nm, pool, n));
    CompileThenFacts(sg, s, nm, pool, n, lim, inLoop, base, brk);
    var r := LowerExpr(nm, s.cond, pool, n);
    var first := base + |TranslateAll(r.steps)| + 1;
    var t := CompileStmts(s.thn, nm, r.pool, r.next, first, brk);
    var n1 := n + Temps(s.cond) + BlockTemps(s.thn);
    PrepareAfter(sg, t, nm, r.pool, r.next, n1, DefinedIn(s.thn));
    CompileStmtsFacts(sg, s.els.body, t.nm, t.pool, n1, lim, inLoop, first + |t.code| + 2, brk);
  }

  lemma {:induction false} CompileIfFacts(
    sg: Signature, s: Stmt, nm: Names, pool: Pool, n: nat, lim: nat, inLoop: bool, base: int, brk: int)
    requires Prepared(sg, nm, pool, n)
    requires s.If? && OkStmt(sg, s, nm.locals.Keys, n, lim, inLoop)
    ensures CompilesWell(sg, CompileStmt(s, nm, pool, n, base, brk), nm, pool, n, n + StmtTemps(s), DefinedBy(s))
    decreases s, 2
  {
    hide Prepared, NamesOk, LowersWell, CompilesWell, LowerExpr, TranslateAll, OkExpr, Temps, Extends, OkStmts, CompileStmts, BlockTemps,
         DefinedIn;
    CompileThenFacts(sg, s, nm, pool, n, lim, inLoop, base, brk);
    PrepareNext(sg, s.cond, nm, pool, n, lim);
    var r := LowerExpr(nm, s.cond, pool, n);
    var first := base + |TranslateAll(r.steps)| + 1;
    var t := CompileStmts(s.thn, nm, r.pool, r.next, first, brk);
    var n1 := n + Temps(s.cond) + BlockTemps(s.thn);
    var c := CompileStmt(s, nm, pool, n, base, brk);
    FromPool(sg, t, nm, r.pool, pool, n, r.next, n1, DefinedIn(s.thn));
    if s.els.Else? {
      CompileElseFacts(sg, s, nm, pool, n, lim, inLoop, base, brk);
      var f := CompileStmts(s.els.body, t.nm, t.pool, t.next, first + |t.code| + 2, brk);
      var n2 := n1 + BlockTemps(s.els.body);
      AndThen(sg, t, f, nm, pool, n, n1, DefinedIn(s.thn), n2, DefinedIn(s.els.body));
      Reshape(sg, f, c, nm, pool, n, n2, DefinedBy(s));
    } else {
      assert DefinedBy(s) == DefinedIn(s.thn);
      Reshape(sg, t, c, nm, pool, n, n1, DefinedBy(s));
    }
  }

  lemma {:induction false} CompileWhileFacts(
    sg: Signature, s: Stmt, nm: Names, pool: Pool, n: nat, lim: nat, inLoop: bool, base: int, brk: int)
    requires Prepared(sg, nm, pool, n)
    requires s.While? && OkStmt(sg, s, nm.locals.Keys, n, lim, inLoop)
    ensures CompilesWell(sg, CompileStmt(s, nm, pool, n, base, brk), nm, pool, n, n + StmtTemps(s), DefinedBy(s))
    decreases s, 0
  {
    hide Prepared, LowersWell, Extends, LowerExpr, TranslateAll, GoodPool, GoodNames, CompilesWell, OkExpr, OkStmts, CompileStmts, DefinedIn,
         Temps, BlockTemps;
    var high := if lim >= n + StmtTemps(s) then lim else n + StmtTemps(s);
    PrepareNext(sg, s.check, nm, pool, n, high);
    var r := LowerExpr(nm, s.check, pool, n);
    var first := base + 1 + |TranslateAll(r.steps)| + 1;
    var exit := first + |CompileStmts(s.body, nm, r.pool, r.next, first, 0).code| + 1;
    CompileStmtsFacts(sg, s.body, nm, r.pool, r.next, high, true, first, exit);
    var b := CompileStmts(s.body, nm, r.pool, r.next, first, exit);
    FromPool(sg, b, nm, r.pool, pool, n, r.next, r.next + BlockTemps(s.body), DefinedIn(s.body));
    Reshape(sg, b, CompileStmt(s, nm, pool, n, base, brk), nm, pool, n, r.next + BlockTemps(s.body), DefinedIn(s.body));
  }

  lemma {:induction false} CompileStmtsFacts(
    sg: Signature, ss: seq<Stmt>, nm: Names, pool: Pool, n: nat, lim: nat, inLoop: bool, base: int, brk: int)
    requires Prepared(sg, nm, pool, n)
    requires OkStmts(sg, ss, nm.locals.Keys, n, lim, inLoop)
    ensures CompilesWell(sg, CompileStmts(ss, nm, pool, n, base, brk), nm, pool, n, n + BlockTemps(ss), DefinedIn(ss))
    decreases ss, 3
  {
    hide Prepared, NamesOk, CompilesWell, CompileStmt, OkStmt, StmtTemps, DefinedBy;
    CompileNothing(sg, nm, pool, n, Compiled([], nm, pool, n));
    if ss != [] {
      CompileStmtFacts(sg, ss[0], nm, pool, n, lim, inLoop, base, brk);
      var h := CompileStmt(ss[0], nm, pool, n, base, brk);
      var n1 := n + StmtTemps(ss[0]);
      PrepareAfter(sg, h, nm, pool, n, n1, DefinedBy(ss[0]));
      CompileStmtsFacts(sg, ss[1..], h.nm, h.pool, n1, lim, inLoop, base + |h.code|, brk);
      var t := CompileStmts(ss[1..], h.nm, h.pool, n1, base + |h.code|, brk);
      AndThen(sg, h, t, nm, pool, n, n1, DefinedBy(ss[0]), n1 + BlockTemps(ss[1..]), DefinedIn(ss[1..]));
      Reshape(sg, t, CompileStmts(ss, nm, pool, n, base, brk), nm, pool, n, n + BlockTemps(ss), DefinedIn(ss));
    }
  }
}
