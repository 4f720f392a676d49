/**
 * Lowering accepts exactly the well-typed programs.
 */
module Acceptance {
  import opened Options
  import opened IR
  import opened Verifier
  import opened Source
  import opened Lowering
  import opened LoweringCorrect
  import LoweringMeaning
  import opened Typing

  function KnownType(e: Option<Expr>): (t: Option<Type>) { if e.Some? then Some(e.value.Type()) else None }

  lemma NamedIs(name: string)
    ensures Named(Some(name)) == TypeFromRef(name)
  {
  }

  // The operator table of the lowering has exactly these types.
  lemma OpTyped(op: string, a: Type, b: Type)
    ensures ResultType(op, a, b) == (var o := OpForTypes(op, a, b); if o.Some? then Some(o.value.res) else None)
  {
  }

  lemma {:induction false} PrefixesTyped(ops: seq<string>, e: Expr)
    ensures KnownType(LowerPrefixes(ops, e)) ==
            if forall k :: 0 <= k < |ops| ==> CanPrefix(ops[k], e.Type()) then Some(e.Type()) else None
  {
    if ops != [] {
      PrefixesTyped(ops[1..], e);
      var t := e.Type();
      assert (forall k :: 0 <= k < |ops| ==> CanPrefix(ops[k], t)) <==>
             CanPrefix(ops[0], t) && forall k :: 0 <= k < |ops[1..]| ==> CanPrefix(ops[1..][k], t) by {
        if CanPrefix(ops[0], t) && forall k :: 0 <= k < |ops[1..]| ==> CanPrefix(ops[1..][k], t) {
          forall k | 0 <= k < |ops| ensures CanPrefix(ops[k], t) {
            assert k > 0 ==> ops[k] == ops[1..][k - 1];
          }
        }
      }
    }
  }

  // The table of signatures holds what the declarations say.
  ghost predicate Declares(fs: Funcs, ds: seq<FunDecl>) {
    forall fn :: (fn in fs <==> FindDecl(ds, fn).Some?) && (fn in fs ==> Same(fs[fn], FindDecl(ds, fn).value))
  }

  ghost predicate Same(sig: FuncSig, d: FunDecl) {
    Named(d.ret) == Some(sig.ret) && SameParams(sig.params, d.params)
  }

  ghost predicate SameParams(qs: seq<Param>, ps: seq<SParam>) {
    && |qs| == |ps|
    && forall k :: 0 <= k < |ps| ==> qs[k].name == ps[k].name && Named(ps[k].ann) == Some(qs[k].t)
  }

  lemma {:induction false} ExprTyped(fs: Funcs, ds: seq<FunDecl>, sc: Scope, e: SExpr)
    requires Declares(fs, ds)
    ensures KnownType(LowerExpr(fs, sc, e)) == TypeOf(ds, sc, e)
    decreases e, 0
  {
    hide Declares;
    UnaryTyped(fs, ds, sc, e.left);
    var left := LowerUnary(fs, sc, e.left);
    if left.Some? {
      RestTyped(fs, ds, sc, left.value, e.rest);
    } else {
      NothingTyped(ds, sc, e.rest);
    }
  }

  lemma {:induction false} NothingTyped(ds: seq<FunDecl>, sc: Scope, rest: seq<SOperand>)
    ensures TypeOfChain(ds, sc, None, rest).None?
  {
    if rest != [] {
      NothingTyped(ds, sc, rest[..|rest| - 1]);
    }
  }

  lemma {:induction false} RestTyped(fs: Funcs, ds: seq<FunDecl>, sc: Scope, left: Expr, rest: seq<SOperand>)
    requires Declares(fs, ds)
    ensures KnownType(LowerRest(fs, sc, left, rest)) == TypeOfChain(ds, sc, Some(left.Type()), rest)
    decreases rest, 0
  {
    hide Declares, OpForTypes, ResultType;
    if rest != [] {
      var n := |rest| - 1;
      var last := rest[n];
      RestTyped(fs, ds, sc, left, rest[..n]);
      UnaryTyped(fs, ds, sc, last.right);
      var a, b := LowerRest(fs, sc, left, rest[..n]), LowerUnary(fs, sc, last.right);
      if a.Some? && b.Some? {
        OpTyped(last.op, a.value.Type(), b.value.Type());
      }
    }
  }

  lemma {:induction false} UnaryTyped(fs: Funcs, ds: seq<FunDecl>, sc: Scope, u: SUnary)
    requires Declares(fs, ds)
    ensures KnownType(LowerUnary(fs, sc, u)) == TypeOfUnary(ds, sc, u)
    decreases u, 0
  {
    hide Declares, CanPrefix, LowerPrefixes;
    PrimaryTyped(fs, ds, sc, u.value);
    var e := LowerPrimary(fs, sc, u.value);
    if e.Some? {
      PrefixesTyped(u.ops, e.value);
    }
  }

  lemma {:induction false} PrimaryTyped(fs: Funcs, ds: seq<FunDecl>, sc: Scope, x: SPrimary)
    requires Declares(fs, ds)
    ensures KnownType(LowerPrimary(fs, sc, x)) == TypeOfPrimary(ds, sc, x)
    decreases x, 0
  {
    hide Declares, LowerExpr, TypeOf, Same, Named;
    match x {
      case Group(e) => ExprTyped(fs, ds, sc, e);
      case Call(fn, args) =>
        DeclaredCall(fs, ds, fn);
        if fn in fs {
          ArgsTyped(fs, ds, sc, args, fs[fn].params, FindDecl(ds, fn).value.params);
        }
        CallExprTyped(fs, ds, sc, fn, args);
      case _ =>
    }
  }

  lemma DeclaredCall(fs: Funcs, ds: seq<FunDecl>, fn: string)
    requires Declares(fs, ds)
    ensures fn in fs <==> FindDecl(ds, fn).Some?
    ensures fn in fs ==> var d := FindDecl(ds, fn).value;
                         Named(d.ret) == Some(fs[fn].ret) && SameParams(fs[fn].params, d.params)
  {
    hide SameParams, FindDecl;
  }

  lemma CallExprTyped(fs: Funcs, ds: seq<FunDecl>, sc: Scope, fn: string, args: seq<SExpr>)
    requires fn in fs <==> FindDecl(ds, fn).Some?
    requires fn in fs ==> var d := FindDecl(ds, fn).value;
             && Named(d.ret) == Some(fs[fn].ret)
             && (LowerArgs(fs, sc, args, fs[fn].params).Some? <==> Fits(ds, sc, args, d.params))
    ensures KnownType(LowerPrimary(fs, sc, Call(fn, args))) == TypeOfPrimary(ds, sc, Call(fn, args))
  {
    hide LowerArgs, Fits, FindDecl, Named, Mangle;
    UnderscoreArgs(args);
  }

  lemma UnderscoreArgs(args: seq<SExpr>)
    ensures (exists a :: a in args && Underscore(a)) <==>
            exists k :: 0 <= k < |args| && args[k] == Chain(SUnary([], Name("_")), [])
  {
    if k :| 0 <= k < |args| && args[k] == Chain(SUnary([], Name("_")), []) {
      assert args[k] in args && Underscore(args[k]);
    }
  }

  lemma {:induction false} ArgsTyped(fs: Funcs, ds: seq<FunDecl>, sc: Scope, args: seq<SExpr>, qs: seq<Param>,
                                     ps: seq<SParam>)
    requires Declares(fs, ds) && SameParams(qs, ps)
    ensures LowerArgs(fs, sc, args, qs).Some? <==> Fits(ds, sc, args, ps)
    decreases args, 0
  {
    hide Declares, LowerExpr, TypeOf, Named;
    if |args| == |qs| && args != [] {
      ExprTyped(fs, ds, sc, args[0]);
      ArgsTyped(fs, ds, sc, args[1..], qs[1..], ps[1..]);
      if Fits(ds, sc, args, ps) {
        assert forall k :: 0 <= k < |args[1..]| ==> args[1..][k] == args[k + 1] && ps[1..][k] == ps[k + 1];
      }
      if Fits(ds, sc, args[1..], ps[1..]) && TypeOf(ds, sc, args[0]) == Some(qs[0].t) {
        forall k | 0 <= k < |args|
          ensures TypeOf(ds, sc, args[k]).Some? && TypeOf(ds, sc, args[k]) == Named(ps[k].ann)
        {
          assert k > 0 ==> args[k] == args[1..][k - 1] && ps[k] == ps[1..][k - 1];
        }
      }
    }
  }

  lemma CallStmtTyped(fs: Funcs, ds: seq<FunDecl>, sc: Scope, fn: string, args: seq<SExpr>)
    requires Declares(fs, ds)
    ensures LowerCallStmt(fs, sc, fn, args).Some? <==> CallTyped(ds, sc, fn, args)
  {
    if fn == "print" {
      if |args| == 1 {
        ExprTyped(fs, ds, sc, args[0]);
      }
    } else if fn in fs {
      ArgsTyped(fs, ds, sc, args, fs[fn].params, FindDecl(ds, fn).value.params);
    }
  }

  // Accepted exactly when typed, and leaving the scope the judgement leaves.
  lemma {:induction false} StmtAccepted(fs: Funcs, ds: seq<FunDecl>, w: Where, sc: Scope, s: SStmt)
    requires Declares(fs, ds) && sc != []
    ensures LowerStmt(fs, w, sc, s).Some? <==> StmtTyped(ds, w.ret, w.depth, sc, s)
    ensures StmtTyped(ds, w.ret, w.depth, sc, s) ==> LowerStmt(fs, w, sc, s).value.scope == Leaves(ds, sc, s)
    decreases s, 0
  {
    hide Declares, LowerExpr, TypeOf, LowerCallStmt, CallTyped, TypeFromRef, Named;
    match s {
      case ExprS(e) =>
        if BareCall(e).Some? {
          CallStmtTyped(fs, ds, sc, e.left.value.fn, e.left.value.args);
        }
      case Bind(_, ann, init, _) =>
        ExprTyped(fs, ds, sc, init);
        if ann.Some? {
          NamedIs(ann.value);
        }
      case AssignS(_, value) => ExprTyped(fs, ds, sc, value);
      case IfS(chain) => IfAccepted(fs, ds, w, sc, chain);
      case WhileS(cond, body) =>
        ExprTyped(fs, ds, sc, cond);
        BodyAccepted(fs, ds, Inside(w), sc, map[], body);
      case ForS(name, start, end, body) =>
        ExprTyped(fs, ds, sc, start);
        ExprTyped(fs, ds, sc, end);
        BodyAccepted(fs, ds, Inside(w), sc, map[name := Binding(Int, false)], body);
      case ReturnS(value) => ExprTyped(fs, ds, sc, value);
      case _ =>
    }
  }

  lemma {:induction false} IfAccepted(fs: Funcs, ds: seq<FunDecl>, w: Where, sc: Scope, c: IfChain)
    requires Declares(fs, ds) && sc != []
    ensures LowerIf(fs, w, sc, c).Some? <==> IfTyped(ds, w.ret, w.depth, sc, c)
    decreases c, 0
  {
    hide Declares, LowerExpr, TypeOf;
    ExprTyped(fs, ds, sc, c.cond);
    BodyAccepted(fs, ds, w, sc, map[], c.thn);
    match c.els {
      case NoElse =>
      case ElseBlock(body) => BodyAccepted(fs, ds, w, sc, map[], body);
      case ElseIf(chain) => IfAccepted(fs, ds, w, [map[]] + sc, chain);
    }
  }

  lemma {:induction false} SeqAccepted(fs: Funcs, ds: seq<FunDecl>, w: Where, sc: Scope, ss: seq<SStmt>)
    requires Declares(fs, ds) && sc != []
    ensures LowerSeq(fs, w, sc, ss).Some? <==> SeqTyped(ds, w.ret, w.depth, sc, ss)
    decreases ss, 0
  {
    hide Declares, LowerStmt, StmtTyped, Leaves;
    if ss != [] {
      StmtAccepted(fs, ds, w, sc, ss[0]);
      var l := LowerStmt(fs, w, sc, ss[0]);
      if l.Some? {
        SeqAccepted(fs, ds, w, l.value.scope, ss[1..]);
      }
    }
  }

  lemma {:induction false} BodyAccepted(fs: Funcs, ds: seq<FunDecl>, w: Where, sc: Scope,
                                        frame: map<string, Binding>, ss: seq<SStmt>)
    requires Declares(fs, ds)
    ensures LowerBlock(fs, w, sc, frame, ss).Some? <==> BodyTyped(ds, w.ret, w.depth, sc, frame, ss)
    decreases ss, 1
  {
    hide Declares;
    SeqAccepted(fs, ds, w, [frame] + sc, ss);
  }

  // --- Declarations ---

  ghost predicate ParamsTyped(ps: seq<SParam>) {
    && (forall k :: 0 <= k < |ps| ==> ps[k].name != "" && Named(ps[k].ann).Some?)
    && forall j, k :: 0 <= j < k < |ps| ==> ps[j].name != ps[k].name
  }

  lemma ParamsTypedStep(ps: seq<SParam>)
    requires ps != []
    ensures var k := |ps| - 1;
            ParamsTyped(ps) <==>
              && ParamsTyped(ps[..k]) && ps[k].name != "" && Named(ps[k].ann).Some?
              && forall j :: 0 <= j < k ==> ps[..k][j].name != ps[k].name
  {
    hide Named;
  }

  lemma ParamTaken(qs: seq<Param>, ps: seq<SParam>, name: string)
    requires SameParams(qs, ps)
    ensures (exists q :: q in qs && q.name == name) <==> exists j :: 0 <= j < |ps| && ps[j].name == name
  {
    if j :| 0 <= j < |ps| && ps[j].name == name {
      assert qs[j] in qs;
    }
  }

  lemma {:induction false} ParamsAccepted(ps: seq<SParam>)
    ensures LowerParams(ps).Some? <==> ParamsTyped(ps)
    ensures LowerParams(ps).Some? ==> SameParams(LowerParams(ps).value, ps)
  {
    hide TypeFromRef, Named;
    if ps != [] {
      var k := |ps| - 1;
      ParamsAccepted(ps[..k]);
      ParamsTypedStep(ps);
      hide ParamsTyped;
      if ps[k].ann.Some? {
        NamedIs(ps[k].ann.value);
      } else {
        NoName();
      }
      var before := LowerParams(ps[..k]);
      if before.Some? {
        ParamTaken(before.value, ps[..k], ps[k].name);
      }
    }
  }

  lemma NoName()
    ensures Named(None).None?
  {
  }

  lemma SigAccepted(d: FunDecl)
    ensures d.name != "" && d.name != "main" && BuildFuncSig(d).Some? <==> SignatureTyped(d)
    ensures BuildFuncSig(d).Some? ==> Same(BuildFuncSig(d).value, d)
  {
    hide TypeFromRef, Named;
    ParamsAccepted(d.params);
    if d.ret.Some? {
      NamedIs(d.ret.value);
    } else {
      NoName();
    }
  }

  ghost predicate SignaturesTyped(ds: seq<FunDecl>) {
    && (forall k :: 0 <= k < |ds| ==> SignatureTyped(ds[k]))
    && forall j, k :: 0 <= j < k < |ds| ==> ds[j].name != ds[k].name
  }

  lemma {:induction false} CollectAccepted(ds: seq<FunDecl>)
    ensures Collect(ds).Some? <==> SignaturesTyped(ds)
    ensures Collect(ds).Some? ==> forall fn :: fn in Collect(ds).value <==>
            exists k :: 0 <= k < |ds| && ds[k].name == fn
  {
    hide BuildFuncSig, SignatureTyped;
    if ds != [] {
      var k := |ds| - 1;
      CollectAccepted(ds[..k]);
      SigAccepted(ds[k]);
      if SignaturesTyped(ds) {
        assert SignaturesTyped(ds[..k]);
      }
    }
  }

  lemma CollectDeclares(ds: seq<FunDecl>)
    requires Collect(ds).Some?
    ensures Declares(Collect(ds).value, ds)
  {
    var fs := Collect(ds).value;
    hide Collect, BuildFuncSig, Same, FindDecl;
    forall fn ensures (fn in fs <==> FindDecl(ds, fn).Some?) && (fn in fs ==> Same(fs[fn], FindDecl(ds, fn).value)) {
      if fn in fs {
        var k := CollectFrom(ds, fn);
        CollectAt(ds, k);
        LoweringMeaning.FindDeclAt(ds, k);
        SigAccepted(ds[k]);
      } else if FindDecl(ds, fn).Some? {
        CollectKeys(ds);
      }
    }
  }

  lemma {:induction false} FormalsAre(qs: seq<Param>, ps: seq<SParam>)
    requires SameParams(qs, ps)
    ensures ParamScope(qs) == Formals(ps)
  {
    hide Named;
    if ps != [] {
      var k := |ps| - 1;
      FormalsAre(qs[..k], ps[..k]);
      FormalsStep(ps);
      hide ParamScope, Formals;
      assert ParamScope(qs) == ParamScope(qs[..k])[ps[k].name := Binding(qs[k].t, false)] by { ParamScopeStep(qs, k); }
    }
  }

  lemma FormalsStep(ps: seq<SParam>)
    requires ps != [] && Named(ps[|ps| - 1].ann).Some?
    ensures var last := ps[|ps| - 1];
            Formals(ps) == Formals(ps[..|ps| - 1])[last.name := Binding(Named(last.ann).value, false)]
  {
    var last, before := ps[|ps| - 1], ps[..|ps| - 1];
    hide Named;
    assert ps == before + [last];
    assert Names(ps) == Names(before) + {last.name};
  }

  lemma {:induction false} BodiesAccepted(fs: Funcs, all: seq<FunDecl>, ds: seq<FunDecl>)
    requires Declares(fs, all) && (forall d :: d in ds ==> d.name in fs && Same(fs[d.name], d))
    ensures LowerFunctions(fs, ds).Some? <==> forall k :: 0 <= k < |ds| ==> DeclTyped(all, ds[k])
  {
    hide LowerFunction, DeclTyped, Declares, Same;
    if ds != [] {
      var k := |ds| - 1;
      BodiesAccepted(fs, all, ds[..k]);
      assert ds[k] in ds;
      BodyOfDecl(fs, all, ds[k]);
    }
  }

  lemma BodyOfDecl(fs: Funcs, all: seq<FunDecl>, d: FunDecl)
    requires Declares(fs, all) && d.name in fs && Same(fs[d.name], d)
    ensures LowerFunction(fs, d).Some? <==> DeclTyped(all, d)
  {
    hide LowerSeq, SeqTyped, Declares;
    var sig := fs[d.name];
    FormalsAre(sig.params, d.params);
    SeqAccepted(fs, all, Where(sig.ret, 0), [ParamScope(sig.params)], d.body);
  }

  // Lowering accepts exactly the well-typed programs.
  lemma LoweredExactlyWhenTyped(prog: seq<Top>)
    ensures LowerProgram(prog).Some? <==> WellTyped(prog)
  {
    var ds := Decls(prog);
    hide Decls, ScriptOf, Collect, LowerFunctions, LowerSeq, SeqTyped, SignatureTyped, DeclTyped, Declares, Same;
    CollectAccepted(ds);
    if Collect(ds).Some? {
      var fs := Collect(ds).value;
      CollectDeclares(ds);
      CollectKeys(ds);
      forall d | d in ds ensures Same(fs[d.name], d) {
        var k :| 0 <= k < |ds| && ds[k] == d;
        CollectAt(ds, k);
        SigAccepted(d);
      }
      BodiesAccepted(fs, ds, ds);
      SeqAccepted(fs, ds, Where(Unit, 0), [map[]], ScriptOf(prog));
    }
  }
}
