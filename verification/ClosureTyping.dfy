/**
 * Closure lifting accepts exactly the well-typed function expressions.
 */
module ClosureTyping {
  import opened Options
  import opened IR
  import opened Verifier
  import opened Source
  import opened Lowering
  import opened Typing
  import opened Acceptance
  import opened Closure

  // What a function expression needs, on the source alone.
  ghost predicate FunTyped(ds: seq<FunDecl>, sc: Scope, fe: FunExpr) {
    && Named(fe.ret).Some? && ParamsTyped(fe.params)
    && (forall k :: 0 <= k < |fe.params| ==> Named(fe.params[k].ann) != Some(Unit))
    && (forall n :: n in Refs(fe.body) && n !in Names(fe.params) ==> TypeAt(sc, n) != Some(Unit))
    && TypeOf(ds, [Formals(fe.params)] + sc, fe.body) == Named(fe.ret)
  }

  // It is lifted exactly when it is typed.
  lemma LiftedExactlyWhenTyped(fs: Funcs, ds: seq<FunDecl>, sc: Scope, fe: FunExpr)
    requires Declares(fs, ds)
    ensures Lift(fs, sc, fe).Some? <==> FunTyped(ds, sc, fe)
  {
    hide LowerExpr, TypeOf, Refs, Formals, ParamScope, Declares, LowerParams, Lookup, ParamNames, Names;
    ParamsAccepted(fe.params);
    if fe.ret.Some? {
      NamedIs(fe.ret.value);
    }
    var ps := LowerParams(fe.params);
    if fe.ret.Some? && Named(fe.ret).Some? && ps.Some? {
      SameNames(ps.value, fe.params);
      SameScalars(ps.value, fe.params);
      FormalsAre(ps.value, fe.params);
      ExprTyped(fs, ds, [ParamScope(ps.value)] + sc, fe.body);
      ScalarCaptures(sc, ps.value, fe.body);
      if (forall q :: q in ps.value ==> Scalar(q.t))
         && forall n :: n in Captures(sc, ps.value, fe.body) ==> Scalar(Captures(sc, ps.value, fe.body)[n])
      {
        LiftSucceedsExactlyWhereBodyLowers(fs, sc, fe);
      }
    } else {
      NoName();
    }
    hide LowerExpr, LowerParams, TypeFromRef, Named, Refs, TypeOf, Captures, Declares, ParamsTyped, Formals, ParamScope;
  }

  lemma SameNames(qs: seq<Param>, ps: seq<SParam>)
    requires SameParams(qs, ps)
    ensures ParamNames(qs) == Names(ps)
  {
    hide Named;
    forall q | q in qs ensures q.name in Names(ps) {
      var k :| 0 <= k < |qs| && qs[k] == q;
      assert ps[k] in ps;
    }
    forall p | p in ps ensures p.name in ParamNames(qs) {
      var k :| 0 <= k < |ps| && ps[k] == p;
      assert qs[k] in qs;
    }
  }

  lemma SameScalars(qs: seq<Param>, ps: seq<SParam>)
    requires SameParams(qs, ps)
    ensures (forall q :: q in qs ==> Scalar(q.t)) <==> forall k :: 0 <= k < |ps| ==> Named(ps[k].ann) != Some(Unit)
  {
    hide Named;
    if forall q :: q in qs ==> Scalar(q.t) {
      forall k | 0 <= k < |ps| ensures Named(ps[k].ann) != Some(Unit) {
        assert qs[k] in qs;
      }
    }
  }

  lemma ScalarCaptures(sc: Scope, ps: seq<Param>, body: SExpr)
    ensures var caps := Captures(sc, ps, body);
            (forall n :: n in caps ==> Scalar(caps[n])) <==>
            forall n :: n in Refs(body) && n !in ParamNames(ps) ==> TypeAt(sc, n) != Some(Unit)
  {
    hide Refs, ParamNames, Lookup;
    var caps := Captures(sc, ps, body);
    if forall n :: n in caps ==> Scalar(caps[n]) {
      forall n | n in Refs(body) && n !in ParamNames(ps) ensures TypeAt(sc, n) != Some(Unit) {
        assert n in caps ==> Scalar(caps[n]);
      }
    }
  }
}
