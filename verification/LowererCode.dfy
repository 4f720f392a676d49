/**
 * The compiler at work: lower.go's Lower and its lowerer, which push and pop
 * frames, count loop depth and append to output blocks in place.  Every
 * method is proved to give what `Lowering` says.
 */
module LowererCode {
  import opened Options
  import opened IR
  import opened Verifier
  import opened Source
  import opened Lowering
  import Typing
  import Acceptance
  import LoweringCorrect

  // Once a fold has failed on a part it has failed.
  lemma {:induction false} RestFails(fs: Funcs, sc: Scope, left: Expr, rest: seq<SOperand>, k: nat)
    requires k <= |rest| && LowerRest(fs, sc, left, rest[..k]).None?
    ensures LowerRest(fs, sc, left, rest).None?
    decreases |rest|
  {
    hide LowerUnary, LowerOp;
    if k < |rest| {
      assert rest[..|rest| - 1][..k] == rest[..k];
      RestFails(fs, sc, left, rest[..|rest| - 1], k);
    } else {
      assert rest[..k] == rest;
    }
  }

  lemma {:induction false} PrefixesFail(ops: seq<string>, e: Expr, k: nat)
    requires k <= |ops| && LowerPrefixes(ops[k..], e).None?
    ensures LowerPrefixes(ops, e).None?
  {
    hide LowerPrefix;
    if k > 0 {
      assert ops[1..][k - 1..] == ops[k..];
      PrefixesFail(ops[1..], e, k - 1);
    }
  }

  lemma RestStep(fs: Funcs, sc: Scope, left: Expr, rest: seq<SOperand>, k: nat)
    requires k < |rest|
    ensures var a, b := LowerRest(fs, sc, left, rest[..k]), LowerUnary(fs, sc, rest[k].right);
            LowerRest(fs, sc, left, rest[..k + 1]) ==
              if a.None? || b.None? then None else LowerOp(rest[k].op, a.value, b.value)
  {
    hide LowerUnary, LowerOp;
    assert rest[..k + 1][..k] == rest[..k];
  }

  lemma GlueNothing(r: Option<seq<Expr>>)
    ensures Glue([], r) == r
  {
    if r.Some? {
      assert [] + r.value == r.value;
    }
  }

  lemma GlueAssoc(done: seq<Expr>, r: Option<seq<Expr>>)
    ensures forall e :: Glue(done, Glue([e], r)) == Glue(done + [e], r)
  {
    if r.Some? {
      assert forall e :: done + ([e] + r.value) == (done + [e]) + r.value;
    }
  }

  lemma PrependNothing(r: Option<LoweredSeq>)
    ensures Prepend([], r) == r
  {
    if r.Some? {
      assert [] + r.value.stmts == r.value.stmts;
    }
  }

  lemma PrependAssoc(done: seq<Stmt>, s: Stmt, r: Option<LoweredSeq>)
    ensures Prepend(done, Prepend([s], r)) == Prepend(done + [s], r)
  {
    if r.Some? {
      assert done + ([s] + r.value.stmts) == (done + [s]) + r.value.stmts;
    }
  }

  class Block {
    var statements: seq<Stmt>

    constructor ()
      ensures statements == []
    { statements := []; }

    method Add(s: Stmt)
      modifies this
      ensures statements == old(statements) + [s]
    { statements := statements + [s]; }
  }

  class Lowerer {
    const funcs: Funcs
    const ret: Type
    var scope: Scope
    var loopDepth: nat

    constructor (funcs: Funcs, ret: Type)
      ensures this.funcs == funcs && this.ret == ret && scope == [map[]] && loopDepth == 0
    {
      this.funcs, this.ret, scope, loopDepth := funcs, ret, [map[]], 0;
    }

    ghost function Here(): (w: Where)
      reads this
    { Where(ret, loopDepth) }

    // lowerExpr and lowerBinary: the chain folds left to right.
    method Expression(e: SExpr) returns (r: Option<Expr>)
      ensures r == LowerExpr(funcs, scope, e)
      decreases e, 0
    {
      hide LowerUnary, LowerOp;
      var first := UnaryExpression(e.left);
      if first.None? { return None; }
      var left := first.value;
      var k := 0;
      while k < |e.rest|
        invariant 0 <= k <= |e.rest|
        invariant LowerRest(funcs, scope, first.value, e.rest[..k]) == Some(left)
      {
        RestStep(funcs, scope, first.value, e.rest, k);
        var right := UnaryExpression(e.rest[k].right);
        var next := if right.None? then None else LowerOp(e.rest[k].op, left, right.value);
        if next.None? {
          RestFails(funcs, scope, first.value, e.rest, k + 1);
          return None;
        }
        left := next.value;
        k := k + 1;
      }
      assert e.rest[..k] == e.rest;
      return Some(left);
    }

    // lowerUnary: prefix operators from the innermost outwards.
    method UnaryExpression(u: SUnary) returns (r: Option<Expr>)
      ensures r == LowerUnary(funcs, scope, u)
      decreases u, 0
    {
      hide LowerPrimary, LowerPrefix;
      var inner := Primary(u.value);
      if inner.None? { return None; }
      var e := inner.value;
      var i := |u.ops|;
      while i > 0
        invariant 0 <= i <= |u.ops|
        invariant LowerPrefixes(u.ops[i..], inner.value) == Some(e)
      {
        i := i - 1;
        assert u.ops[i..][1..] == u.ops[i + 1..];
        var next := LowerPrefix(u.ops[i], e);
        if next.None? {
          PrefixesFail(u.ops, inner.value, i);
          return None;
        }
        e := next.value;
      }
      return Some(e);
    }

    // lowerPrimary, lowerLiteral and lowerUserCallExpr
    method Primary(x: SPrimary) returns (r: Option<Expr>)
      ensures r == LowerPrimary(funcs, scope, x)
      decreases x, 0
    {
      hide LowerExpr, LowerArgs, Mangle;
      match x
      case IntL(i) => return Some(IntLit(i));
      case FloatL(f) => return Some(FloatLit(f));
      case BoolL(b) => return Some(BoolLit(b));
      case StrL(s) => return if '{' in s then None else Some(StrLit(s));
      case Group(e) => r := Expression(e);
      case Name(name) =>
        var b := Find(scope, name);
        return if b.None? then None else Some(VarRef(name, b.value.t));
      case Call(fn, args) =>
        if fn in RESERVED || fn !in funcs { return None; }
        if exists a :: a in args && Underscore(a) { return None; }
        if funcs[fn].ret == Unit { return None; }
        var es := CallArgs(args, funcs[fn].params);
        return if es.None? then None else Some(CallE(Mangle(fn), es.value, funcs[fn].ret));
    }

    // lowerCallArgs
    method CallArgs(args: seq<SExpr>, ps: seq<Param>) returns (r: Option<seq<Expr>>)
      ensures r == LowerArgs(funcs, scope, args, ps)
      decreases args, 1
    {
      hide LowerExpr;
      if |args| != |ps| { return None; }
      var out: seq<Expr> := [];
      var k := 0;
      assert args[0..] == args && ps[0..] == ps;
      GlueNothing(LowerArgs(funcs, scope, args, ps));
      while k < |args|
        invariant 0 <= k <= |args|
        invariant LowerArgs(funcs, scope, args, ps) == Glue(out, LowerArgs(funcs, scope, args[k..], ps[k..]))
      {
        assert args[k..][1..] == args[k + 1..] && ps[k..][1..] == ps[k + 1..];
        GlueAssoc(out, LowerArgs(funcs, scope, args[k + 1..], ps[k + 1..]));
        var e := Expression(args[k]);
        if e.None? || e.value.Type() != ps[k].t { return None; }
        out := out + [e.value];
        k := k + 1;
      }
      assert out + [] == out;
      return Some(out);
    }

    // lowerExprStmt: `print` or a call whose value is dropped.
    method CallStatement(out: Block, fn: string, args: seq<SExpr>) returns (ok: bool)
      modifies out
      ensures ok == LowerCallStmt(funcs, scope, fn, args).Some?
      ensures ok ==> out.statements == old(out.statements) + [LowerCallStmt(funcs, scope, fn, args).value]
    {
      hide LowerExpr, LowerArgs, Mangle, PrintCalleeFor;
      if fn == "print" {
        if |args| != 1 { return false; }
        var e := Expression(args[0]);
        if e.None? { return false; }
        var callee := PrintCalleeFor(e.value.Type());
        if callee.None? { return false; }
        out.Add(CallS(callee.value, [e.value]));
        return true;
      }
      if fn in RESERVED_STMT || fn !in funcs { return false; }
      var es := CallArgs(args, funcs[fn].params);
      if es.None? { return false; }
      out.Add(CallS(Mangle(fn), es.value));
      return true;
    }

    // lowerStatement
    method Statement(out: Block, s: SStmt) returns (ok: bool)
      requires scope != []
      modifies this, out
      ensures loopDepth == old(loopDepth) && |scope| == |old(scope)| && scope[1..] == old(scope)[1..]
      ensures ok == LowerStmt(funcs, old(Here()), old(scope), s).Some?
      ensures ok ==> var l := LowerStmt(funcs, old(Here()), old(scope), s).value;
                     scope == l.scope && out.statements == old(out.statements) + [l.stmt]
      decreases s, 1
    {
      hide LowerExpr, LowerCallStmt, LowerIf, LowerBlock, TypeFromRef;
      match s
      case ExprS(e) =>
        var c := BareCall(e);
        if c.None? { return false; }
        ok := CallStatement(out, c.value.fn, c.value.args);
      case Bind(name, ann, init, mutable) =>
        if name == "" || name in scope[0] { return false; }
        var e := Expression(init);
        if e.None? { return false; }
        var t := e.value.Type();
        if ann.Some? && TypeFromRef(ann.value) != Some(t) { return false; }
        scope := Declare(scope, name, Binding(t, mutable));
        out.Add(Let(name, t, e.value, mutable));
        return true;
      case AssignS(name, value) =>
        var b := Find(scope, name);
        if b.None? || !b.value.mutable { return false; }
        var e := Expression(value);
        if e.None? || e.value.Type() != b.value.t { return false; }
        out.Add(Assign(name, e.value));
        return true;
      case IfS(chain) => ok := IfStatement(out, chain);
      case WhileS(cond, body) =>
        var c := Expression(cond);
        if c.None? || c.value.Type() != Bool { return false; }
        loopDepth := loopDepth + 1;
        var b := NestedBlock(map[], body);
        loopDepth := loopDepth - 1;
        if b.None? { return false; }
        out.Add(While(c.value, b.value));
        return true;
      case ForS(name, start, end, body) =>
        if name == "" { return false; }
        var a := Expression(start);
        if a.None? || a.value.Type() != Int { return false; }
        var z := Expression(end);
        if z.None? || z.value.Type() != Int { return false; }
        loopDepth := loopDepth + 1;
        var b := NestedBlock(map[name := Binding(Int, false)], body);
        loopDepth := loopDepth - 1;
        if b.None? { return false; }
        out.Add(ForRange(name, a.value, z.value, b.value));
        return true;
      case BreakS =>
        if loopDepth == 0 { return false; }
        out.Add(Break);
        return true;
      case ContinueS =>
        if loopDepth == 0 { return false; }
        out.Add(Continue);
        return true;
      case ReturnS(value) =>
        if ret == Unit { return false; }
        var e := Expression(value);
        if e.None? || e.value.Type() != ret { return false; }
        out.Add(Return(e.value));
        return true;
      case ReturnNothing =>
        if ret != Unit { return false; }
        out.Add(ReturnUnit);
        return true;
      case BindNothing(_) => return false;
      case NestedFun => return false;
    }

    // lowerIf: an else-if is wrapped in a block of its own.
    method IfStatement(out: Block, c: IfChain) returns (ok: bool)
      requires scope != []
      modifies this, out
      ensures loopDepth == old(loopDepth) && scope == old(scope)
      ensures ok == LowerIf(funcs, old(Here()), old(scope), c).Some?
      ensures ok ==> out.statements == old(out.statements) + [LowerIf(funcs, old(Here()), old(scope), c).value]
      decreases c, 1
    {
      hide LowerExpr, LowerBlock;
      var e := Expression(c.cond);
      if e.None? || e.value.Type() != Bool { return false; }
      var t := NestedBlock(map[], c.thn);
      if t.None? { return false; }
      var els: seq<Stmt> := [];
      match c.els {
        case ElseIf(chain) =>
          var inner := new Block();
          var prev := scope;
          scope := [map[]] + prev;
          var done := IfStatement(inner, chain);
          scope := prev;
          if !done { return false; }
          els := inner.statements;
          assert [] + [els[0]] == [els[0]];
        case ElseBlock(body) =>
          var b := NestedBlock(map[], body);
          if b.None? { return false; }
          els := b.value;
        case NoElse =>
      }
      out.Add(If(e.value, t.value, els));
      return true;
    }

    // lowerNestedBlock, and the body of a for loop, whose frame already holds
    // the induction variable.
    method NestedBlock(frame: map<string, Binding>, ss: seq<SStmt>) returns (r: Option<seq<Stmt>>)
      modifies this
      ensures loopDepth == old(loopDepth) && scope == old(scope)
      ensures r == LowerBlock(funcs, old(Here()), old(scope), frame, ss)
      decreases ss, 3
    {
      hide LowerSeq;
      var prev := scope;
      scope := [frame] + prev;
      var b := new Block();
      var ok := Statements(b, ss);
      scope := prev;
      return if ok then Some(b.statements) else None;
    }

    // A list of statements into an empty block.
    method Statements(out: Block, ss: seq<SStmt>) returns (ok: bool)
      requires scope != [] && out.statements == []
      modifies this, out
      ensures loopDepth == old(loopDepth)
      ensures ok == LowerSeq(funcs, old(Here()), old(scope), ss).Some?
      ensures ok ==> out.statements == LowerSeq(funcs, old(Here()), old(scope), ss).value.stmts
      decreases ss, 2
    {
      hide LowerStmt;
      var k := 0;
      assert ss[0..] == ss;
      ghost var all := LowerSeq(funcs, Here(), scope, ss);
      PrependNothing(all);
      while k < |ss|
        invariant 0 <= k <= |ss|
        invariant loopDepth == old(loopDepth) && scope != []
        invariant all == Prepend(out.statements, LowerSeq(funcs, Here(), scope, ss[k..]))
      {
        assert ss[k..][1..] == ss[k + 1..];
        ghost var before, sc := out.statements, scope;
        var a := Statement(out, ss[k]);
        if !a { return false; }
        ghost var l := LowerStmt(funcs, Here(), sc, ss[k]).value;
        PrependAssoc(before, l.stmt, LowerSeq(funcs, Here(), scope, ss[k + 1..]));
        k := k + 1;
      }
      return true;
    }
  }

  // --- Lower ---

  lemma {:induction false} ParamsFail(ps: seq<SParam>, k: nat)
    requires k <= |ps| && LowerParams(ps[..k]).None?
    ensures LowerParams(ps).None?
    decreases |ps|
  {
    if k < |ps| {
      assert ps[..|ps| - 1][..k] == ps[..k];
      ParamsFail(ps[..|ps| - 1], k);
    } else {
      assert ps[..k] == ps;
    }
  }

  lemma ParamsStep(ps: seq<SParam>, k: nat)
    requires k < |ps|
    ensures var before := LowerParams(ps[..k]);
            LowerParams(ps[..k + 1]) ==
              if before.None? || ps[k].name == "" || (exists q :: q in before.value && q.name == ps[k].name)
                  || ps[k].ann.None? then None
              else if TypeFromRef(ps[k].ann.value).None? then None
              else Some(before.value + [Param(ps[k].name, TypeFromRef(ps[k].ann.value).value)])
  {
    hide TypeFromRef;
    assert ps[..k + 1][..k] == ps[..k];
  }

  // The parameter loop of buildFuncSig.
  method Params(ps: seq<SParam>) returns (r: Option<seq<Param>>)
    ensures r == LowerParams(ps)
  {
    hide LowerParams, TypeFromRef;
    assert LowerParams(ps[..0]) == Some([]) by { NoParams(ps); }
    var params: seq<Param>, seen: set<string>, k := [], {}, 0;
    while k < |ps|
      invariant 0 <= k <= |ps|
      invariant LowerParams(ps[..k]) == Some(params)
      invariant seen == set q | q in params :: q.name
    {
      ParamsStep(ps, k);
      if ps[k].name == "" || ps[k].name in seen || ps[k].ann.None? {
        ParamsFail(ps, k + 1);
        return None;
      }
      var t := TypeFromRef(ps[k].ann.value);
      if t.None? {
        ParamsFail(ps, k + 1);
        return None;
      }
      seen := seen + {ps[k].name};
      params := params + [Param(ps[k].name, t.value)];
      k := k + 1;
    }
    assert ps[..k] == ps;
    return Some(params);
  }

  lemma NoParams(ps: seq<SParam>)
    ensures LowerParams(ps[..0]) == Some([])
  {
  }

  method Signature(d: FunDecl) returns (r: Option<FuncSig>)
    ensures r == BuildFuncSig(d)
  {
    hide LowerParams, TypeFromRef;
    if d.ret.None? { return None; }
    var t := TypeFromRef(d.ret.value);
    if t.None? { return None; }
    var ps := Params(d.params);
    return if ps.None? then None else Some(FuncSig(ps.value, t.value));
  }

  lemma {:induction false} CollectFails(ds: seq<FunDecl>, k: nat)
    requires k <= |ds| && Collect(ds[..k]).None?
    ensures Collect(ds).None?
    decreases |ds|
  {
    hide BuildFuncSig;
    if k < |ds| {
      assert ds[..|ds| - 1][..k] == ds[..k];
      CollectFails(ds[..|ds| - 1], k);
    } else {
      assert ds[..k] == ds;
    }
  }

  lemma CollectStep(ds: seq<FunDecl>, k: nat)
    requires k < |ds|
    ensures var before, sig := Collect(ds[..k]), BuildFuncSig(ds[k]);
            Collect(ds[..k + 1]) ==
              if before.None? || ds[k].name == "" || ds[k].name == "main" || ds[k].name in before.value
                  || sig.None? then None
              else Some(before.value[ds[k].name := sig.value])
  {
    hide BuildFuncSig;
    assert ds[..k + 1][..k] == ds[..k];
  }

  // The first pass.
  method CollectFuncs(ds: seq<FunDecl>) returns (r: Option<Funcs>)
    ensures r == Collect(ds)
  {
    hide BuildFuncSig;
    var funcs: Funcs, k := map[], 0;
    while k < |ds|
      invariant 0 <= k <= |ds|
      invariant Collect(ds[..k]) == Some(funcs)
    {
      CollectStep(ds, k);
      if ds[k].name == "" || ds[k].name == "main" || ds[k].name in funcs {
        CollectFails(ds, k + 1);
        return None;
      }
      var sig := Signature(ds[k]);
      if sig.None? {
        CollectFails(ds, k + 1);
        return None;
      }
      funcs := funcs[ds[k].name := sig.value];
      k := k + 1;
    }
    assert ds[..k] == ds;
    return Some(funcs);
  }

  // One body of the second pass.
  method FunctionBody(funcs: Funcs, d: FunDecl) returns (r: Option<Function>)
    requires d.name in funcs
    ensures r == LowerFunction(funcs, d)
  {
    hide LowerSeq, Mangle;
    var sig := funcs[d.name];
    var l := new Lowerer(funcs, sig.ret);
    var k := 0;
    while k < |sig.params|
      invariant 0 <= k <= |sig.params|
      invariant l.scope == [ParamScope(sig.params[..k])] && l.loopDepth == 0
    {
      ParamScopeStep(sig.params, k);
      l.scope := Declare(l.scope, sig.params[k].name, Binding(sig.params[k].t, false));
      k := k + 1;
    }
    assert sig.params[..k] == sig.params;
    var body := new Block();
    var ok := l.Statements(body, d.body);
    return if ok then Some(Function(Mangle(d.name), sig.params, sig.ret, body.statements)) else None;
  }

  lemma {:induction false} FunctionsFail(fs: Funcs, ds: seq<FunDecl>, k: nat)
    requires forall d :: d in ds ==> d.name in fs
    requires k <= |ds| && LowerFunctions(fs, ds[..k]).None?
    ensures LowerFunctions(fs, ds).None?
    decreases |ds|
  {
    hide LowerFunction;
    if k < |ds| {
      assert ds[..|ds| - 1][..k] == ds[..k];
      FunctionsFail(fs, ds[..|ds| - 1], k);
    } else {
      assert ds[..k] == ds;
    }
  }

  method FunctionBodies(funcs: Funcs, ds: seq<FunDecl>) returns (r: Option<seq<Function>>)
    requires forall d :: d in ds ==> d.name in funcs
    ensures r == LowerFunctions(funcs, ds)
  {
    hide LowerFunction;
    var out: seq<Function>, k := [], 0;
    while k < |ds|
      invariant 0 <= k <= |ds|
      invariant LowerFunctions(funcs, ds[..k]) == Some(out)
    {
      assert ds[..k + 1][..k] == ds[..k];
      var f := FunctionBody(funcs, ds[k]);
      if f.None? {
        FunctionsFail(funcs, ds, k + 1);
        return None;
      }
      out := out + [f.value];
      k := k + 1;
    }
    assert ds[..k] == ds;
    return Some(out);
  }

  // Both passes and the closing verification, which never refuses.
  method Lower(prog: seq<Top>) returns (r: Option<Program>)
    ensures r == LowerProgram(prog)
    ensures r.Some? <==> Typing.WellTyped(prog)
  {
    hide Collect, LowerFunctions, LowerSeq, Decls, ScriptOf, Accepts, Typing.WellTyped;
    Acceptance.LoweredExactlyWhenTyped(prog);
    var ds := Decls(prog);
    var funcs := CollectFuncs(ds);
    if funcs.None? { return None; }
    CollectKeys(ds);
    var fs := FunctionBodies(funcs.value, ds);
    if fs.None? { return None; }
    var l := new Lowerer(funcs.value, Unit);
    var body := new Block();
    var ok := l.Statements(body, ScriptOf(prog));
    if !ok { return None; }
    var out := Program(fs.value + [Function("main", [], Unit, body.statements)], |fs.value|);
    LoweringCorrect.LoweredProgramVerifies(prog);
    var verified := Verify(out);
    if !verified { return None; }
    return Some(out);
  }
}
