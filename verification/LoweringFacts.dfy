/** Lowering a fragment expression succeeds, allocates the temporaries counted by `Temps`
    in increasing order, and only ever extends the constant pool. */
module LoweringFacts {
  import opened Values
  import opened Syntax
  import opened Semantics
  import opened ExprLowering
  import opened Fragment
  import Ir

  ghost predicate FunctionsInterned(fs: seq<Fun>, pool: Pool) {
    forall i | 0 <= i < |fs| :: fs[i].name in pool.globals && pool.globals[fs[i].name] == Ir.Imm(i)
  }

  /** An interned constant denotes the value its lexeme spells. */
  ghost predicate GoodEntry(fs: seq<Fun>, pool: Pool, key: string)
    requires key in pool.globals
  {
    var aa := pool.globals[key];
    if FindFunction(fs, key) < |fs| then aa.tag == Ir.Immediate
    else
      && aa.tag == Ir.Constant && 0 <= aa.id < |pool.consts|
      && KindOf(key) !in {TkIdent, TkOther} && pool.consts[aa.id] == LiteralValue(KindOf(key), key)
  }

  ghost predicate GoodPool(fs: seq<Fun>, pool: Pool) {
    FunctionsInterned(fs, pool) && forall key | key in pool.globals :: GoodEntry(fs, pool, key)
  }

  /** Function names are identifiers, so no literal collides with one. */
  ghost predicate NamesOk(fs: seq<Fun>) {
    && (forall i | 0 <= i < |fs| :: IsIdent(fs[i].name))
    && (forall i, j | 0 <= i < j < |fs| :: fs[i].name != fs[j].name)
  }

  /** Every local has a register of its own among the first `n`, and no global name. */
  ghost predicate GoodLocals(sg: Signature, locals: map<string, Ir.Addr>, n: int) {
    && (forall x | x in locals :: FreshName(sg, x) && locals[x].tag == Ir.Temp && 0 <= locals[x].id < n)
    && (forall x, y | x in locals && y in locals && x != y :: locals[x].id != locals[y].id)
  }

  ghost predicate GoodNames(sg: Signature, nm: Names, n: int) {
    nm.natives.Keys == sg.natives && GoodLocals(sg, nm.locals, n)
  }

  /** What an address may refer to once `next` temporaries exist. */
  ghost predicate ValidAddr(aa: Ir.Addr, pool: Pool, next: int) {
    (aa.tag == Ir.Constant && 0 <= aa.id < |pool.consts|) || (aa.tag == Ir.Temp && 0 <= aa.id < next)
  }

  ghost predicate Extends(later: Pool, earlier: Pool) {
    earlier.consts <= later.consts
  }

  lemma ExtendsTrans(a: Pool, b: Pool, c: Pool)
    requires Extends(a, b) && Extends(b, c)
    ensures Extends(a, c)
  {
  }

  predicate NoMarkers(steps: seq<Ir.Step>) {
    steps == [] || (!steps[0].OperNonary? && NoMarkers(steps[1..]))
  }

  lemma {:induction false} NoMarkersAppend(a: seq<Ir.Step>, b: seq<Ir.Step>)
    ensures NoMarkers(a + b) <==> NoMarkers(a) && NoMarkers(b)
  {
    if a == [] {
      assert a + b == b;
    } else {
      NoMarkersAppend(a[1..], b);
      assert (a + b)[1..] == a[1..] + b;
    }
  }

  ghost predicate Succeeds(sg: Signature, r: Lowered, pool: Pool, next: int) {
    && r.addr.Some? && r.errors == 0 && r.next == next
    && GoodPool(sg.fs, r.pool) && Extends(r.pool, pool) && NoMarkers(r.steps)
  }

  lemma InternGood(fs: seq<Fun>, pool: Pool, kind: TokenKind, lexeme: string)
    requires NamesOk(fs) && GoodPool(fs, pool)
    requires kind == KindOf(lexeme) && kind !in {TkIdent, TkOther}
    ensures var (aa, p) := Intern(pool, lexeme, LiteralValue(kind, lexeme));
            && GoodPool(fs, p) && Extends(p, pool)
            && aa.tag == Ir.Constant && 0 <= aa.id < |p.consts| && p.consts[aa.id] == LiteralValue(kind, lexeme)
  {
    assert FindFunction(fs, lexeme) == |fs|;
    var (aa, p) := Intern(pool, lexeme, LiteralValue(kind, lexeme));
    if lexeme in pool.globals {
      assert GoodEntry(fs, pool, lexeme);
    } else {
      forall key | key in p.globals ensures GoodEntry(fs, p, key) {
        assert key != lexeme ==> GoodEntry(fs, pool, key);
      }
    }
  }

  /** A local is found in the local table, past natives and globals. */
  lemma LookupLocal(sg: Signature, nm: Names, pool: Pool, n: int, x: string)
    requires GoodPool(sg.fs, pool) && GoodNames(sg, nm, n) && x in nm.locals
    ensures Lookup(nm, pool, x) == Some(nm.locals[x]) && nm.locals[x].tag == Ir.Temp
  {
    assert FreshName(sg, x);
    assert x in pool.globals ==> GoodEntry(sg.fs, pool, x);
  }

  /** A function's name is looked up to its position in the program. */
  lemma LookupFunction(sg: Signature, nm: Names, pool: Pool, name: string)
    requires GoodPool(sg.fs, pool) && nm.natives.Keys == sg.natives && name !in sg.natives
    requires FindFunction(sg.fs, name) < |sg.fs|
    ensures Lookup(nm, pool, name) == Some(Ir.Imm(FindFunction(sg.fs, name)))
  {
    var k := FindFunction(sg.fs, name);
    assert sg.fs[k].name in pool.globals;
  }

  ghost predicate LowersWell(sg: Signature, nm: Names, e: Expr, pool: Pool, n: nat) {
    var r := LowerExpr(nm, e, pool, n);
    && Succeeds(sg, r, pool, n + Temps(e)) && ValidAddr(r.addr.value, r.pool, r.next)
    && (!e.Literal? || e.kind == TkIdent ==> r.addr.value.tag == Ir.Temp)
  }

  lemma {:induction false} LowerSucceeds(sg: Signature, nm: Names, e: Expr, pool: Pool, scope: set<string>, n: nat, lim: nat)
    requires NamesOk(sg.fs) && GoodPool(sg.fs, pool) && GoodNames(sg, nm, n) && scope <= nm.locals.Keys
    requires OkExpr(sg, e, scope, n, lim)
    ensures LowersWell(sg, nm, e, pool, n)
    decreases e, 1
  {
    match e
    case Literal(kind, lexeme) =>
      if kind == TkIdent {
        LookupLocal(sg, nm, pool, n, lexeme);
      } else {
        InternGood(sg.fs, pool, kind, lexeme);
      }
    case Sequence(items, isTuple) => LowerSequenceSucceeds(sg, nm, e, pool, scope, n, lim);
    case Call(callee, args) => LowerCallSucceeds(sg, nm, e, pool, scope, n, lim);
    case Binary(bop, left, right) => LowerBinarySucceeds(sg, nm, e, pool, scope, n, lim);
    case _ =>
  }

  lemma {:induction false} LowerSequenceSucceeds(sg: Signature, nm: Names, e: Expr, pool: Pool, scope: set<string>, n: nat, lim: nat)
    requires NamesOk(sg.fs) && GoodPool(sg.fs, pool) && GoodNames(sg, nm, n) && scope <= nm.locals.Keys
    requires e.Sequence? && OkExpr(sg, e, scope, n, lim)
    ensures LowersWell(sg, nm, e, pool, n)
    decreases e, 0
  {
    GoodNamesGrow(sg, nm, n, n + 1);
    LowerItemsSucceeds(sg, nm, e.items, Ir.TempAt(n), pool, scope, n + 1, lim);
    var q := LowerItems(nm, e.items, Ir.TempAt(n), pool, n + 1);
    var first := [Ir.OperUnary(Ir.TempAt(n), Ir.MakeSeq)];
    NoMarkersAppend(first, q.steps);
    NoMarkersAppend(first + q.steps, [Ir.OperUnary(Ir.TempAt(n), Ir.FrzSeqObj)]);
  }

  /** A call lowers to its arguments followed by one call step. */
  lemma LowerCall(sg: Signature, nm: Names, e: Expr, pool: Pool, scope: set<string>, n: nat, lim: nat)
    requires NamesOk(sg.fs) && GoodPool(sg.fs, pool) && GoodNames(sg, nm, n) && scope <= nm.locals.Keys
    requires e.Call? && OkExpr(sg, e, scope, n, lim)
    ensures var q := LowerArgs(nm, e.args, pool, n);
            q.addr.Some? ==>
              LowerExpr(nm, e, pool, n) == q.(
                steps := q.steps + [Ir.OperBinary(Ir.Imm(FindFunction(sg.fs, e.callee.lexeme)), Ir.Imm(|e.args|), Ir.CallOp)],
                addr := Some(Ir.TempAt(q.next - |e.args|)))
  {
    LookupFunction(sg, nm, pool, e.callee.lexeme);
    var q := LowerArgs(nm, e.args, pool, n);
    assert [] + q.steps == q.steps;
  }

  lemma {:induction false} LowerCallSucceeds(sg: Signature, nm: Names, e: Expr, pool: Pool, scope: set<string>, n: nat, lim: nat)
    requires NamesOk(sg.fs) && GoodPool(sg.fs, pool) && GoodNames(sg, nm, n) && scope <= nm.locals.Keys
    requires e.Call? && OkExpr(sg, e, scope, n, lim)
    ensures LowersWell(sg, nm, e, pool, n)
    decreases e, 0
  {
    LowerCall(sg, nm, e, pool, scope, n, lim);
    LowerArgsSucceeds(sg, nm, e.args, pool, scope, n, lim);
    var q := LowerArgs(nm, e.args, pool, n);
    ArgTempsAtLeast(e.args);
    NoMarkersAppend(q.steps, [Ir.OperBinary(Ir.Imm(FindFunction(sg.fs, e.callee.lexeme)), Ir.Imm(|e.args|), Ir.CallOp)]);
  }

  /** An assignment to a local lowers to its right-hand side and one move. */
  lemma LowerAssign(sg: Signature, nm: Names, e: Expr, pool: Pool, scope: set<string>, n: nat, lim: nat)
    requires NamesOk(sg.fs) && GoodPool(sg.fs, pool) && GoodNames(sg, nm, n) && scope <= nm.locals.Keys
    requires e.Assign? && e.target.Literal? && e.target.kind == TkIdent && e.target.lexeme in scope
    requires OkExpr(sg, e.value, scope, n, lim)
    ensures var r := LowerExpr(nm, e.value, pool, n);
            && LowersWell(sg, nm, e.value, pool, n) && Temps(e) == Temps(e.value)
            && LowerExpr(nm, e, pool, n) ==
               r.(steps := r.steps + [Ir.TacMove(nm.locals[e.target.lexeme], r.addr.value)], addr := Some(nm.locals[e.target.lexeme]))
  {
    LookupLocal(sg, nm, pool, n, e.target.lexeme);
    LowerSucceeds(sg, nm, e.value, pool, scope, n, lim);
    var r := LowerExpr(nm, e.value, pool, n);
    assert [] + r.steps == r.steps && Temps(e.target) == 0;
  }

  lemma {:induction false} LowerBinarySucceeds(sg: Signature, nm: Names, e: Expr, pool: Pool, scope: set<string>, n: nat, lim: nat)
    requires NamesOk(sg.fs) && GoodPool(sg.fs, pool) && GoodNames(sg, nm, n) && scope <= nm.locals.Keys
    requires e.Binary? && OkExpr(sg, e, scope, n, lim)
    ensures LowersWell(sg, nm, e, pool, n)
    decreases e, 0
  {
    LowerSucceeds(sg, nm, e.left, pool, scope, n, lim);
    var l := LowerExpr(nm, e.left, pool, n);
    GoodNamesGrow(sg, nm, n, l.next);
    LowerSucceeds(sg, nm, e.right, l.pool, scope, l.next, lim);
    var q := LowerExpr(nm, e.right, l.pool, l.next);
    NoMarkersAppend(l.steps, q.steps);
    NoMarkersAppend(l.steps + q.steps, [Ir.TacBinary(Ir.TempAt(q.next), l.addr.value, q.addr.value, e.bop.op)]);
  }

  lemma GoodNamesGrow(sg: Signature, nm: Names, n: int, m: int)
    requires GoodNames(sg, nm, n) && n <= m
    ensures GoodNames(sg, nm, m)
  {
  }

  lemma {:induction false} ArgTempsAtLeast(args: seq<Expr>)
    ensures |args| <= ArgTemps(args)
  {
    if args != [] {
      ArgTempsAtLeast(args[1..]);
    }
  }

  lemma {:induction false} LowerItemsSucceeds(sg: Signature, nm: Names, items: seq<Expr>, dest: Ir.Addr, pool: Pool, scope: set<string>, n: nat, lim: nat)
    requires NamesOk(sg.fs) && GoodPool(sg.fs, pool) && GoodNames(sg, nm, n) && scope <= nm.locals.Keys
    requires OkItems(sg, items, scope, n, lim)
    ensures Succeeds(sg, LowerItems(nm, items, dest, pool, n), pool, n + ItemTemps(items))
    ensures LowerItems(nm, items, dest, pool, n).addr == Some(dest)
    decreases items, 1
  {
    if items != [] {
      LowerSucceeds(sg, nm, items[0], pool, scope, n, lim);
      var h := LowerExpr(nm, items[0], pool, n);
      GoodNamesGrow(sg, nm, n, h.next);
      LowerItemsSucceeds(sg, nm, items[1..], dest, h.pool, scope, h.next, lim);
      var t := LowerItems(nm, items[1..], dest, h.pool, h.next);
      var push := [Ir.OperTernary(dest, h.addr.value, Ir.Imm(1), Ir.SeqObjPush)];
      NoMarkersAppend(h.steps, push);
      NoMarkersAppend(h.steps + push, t.steps);
    }
  }

  lemma {:induction false} LowerArgsSucceeds(sg: Signature, nm: Names, args: seq<Expr>, pool: Pool, scope: set<string>, n: nat, lim: nat)
    requires NamesOk(sg.fs) && GoodPool(sg.fs, pool) && GoodNames(sg, nm, n) && scope <= nm.locals.Keys
    requires OkArgs(sg, args, scope, n, lim)
    ensures Succeeds(sg, LowerArgs(nm, args, pool, n), pool, n + ArgTemps(args))
    decreases args, 1
  {
    if args != [] {
      LowerSucceeds(sg, nm, args[0], pool, scope, n, lim);
      var h := LowerExpr(nm, args[0], pool, n);
      GoodNamesGrow(sg, nm, n, h.next + 1);
      LowerArgsSucceeds(sg, nm, args[1..], h.pool, scope, h.next + 1, lim);
      var t := LowerArgs(nm, args[1..], h.pool, h.next + 1);
      var move := [Ir.TacMove(Ir.TempAt(h.next), h.addr.value)];
      NoMarkersAppend(h.steps, move);
      NoMarkersAppend(h.steps + move, t.steps);
    }
  }
}
