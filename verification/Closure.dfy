/**
 * Closure lifting (internal/clower/lower.go): an anonymous function with an
 * expression body becomes a top-level function; the variables it captures
 * travel in an environment record and are read as `__e->name`.
 */
module Closure {
  import opened Options
  import opened IR
  import opened Verifier
  import opened Soundness
  import opened Source
  import opened Lowering
  import opened LowererCode
  import LoweringCorrect
  import LoweringMeaning

  // `fun(params): ret => body`
  datatype FunExpr = FunExpr(params: seq<SParam>, ret: Option<string>, body: SExpr)

  // --- Free variables ---

  // Every identifier an expression reads.
  function Refs(e: SExpr): (ns: set<string>)
    decreases e, 0
  {
    RefsUnary(e.left) + RefsRest(e.rest)
  }

  function RefsRest(rest: seq<SOperand>): (ns: set<string>)
    decreases rest, 0
  {
    if rest == [] then {} else RefsRest(rest[..|rest| - 1]) + RefsUnary(rest[|rest| - 1].right)
  }

  function RefsUnary(u: SUnary): (ns: set<string>)
    decreases u, 0
  {
    RefsPrimary(u.value)
  }

  function RefsPrimary(x: SPrimary): (ns: set<string>)
    decreases x, 0
  {
    match x
    case Name(name) => {name}
    case Group(e) => Refs(e)
    case Call(_, args) => RefsArgs(args)
    case _ => {}
  }

  function RefsArgs(es: seq<SExpr>): (ns: set<string>)
    decreases es, 0
  {
    if es == [] then {} else Refs(es[0]) + RefsArgs(es[1..])
  }

  // The scan: it adds to a set that it is given.
  class Scan {
    var refs: set<string>

    constructor ()
      ensures refs == {}
    { refs := {}; }

    // freeVarCollectExpr
    method Collect(e: SExpr)
      modifies this
      ensures refs == old(refs) + Refs(e)
      decreases e, 0
    {
      CollectUnary(e.left);
      var k := 0;
      while k < |e.rest|
        invariant 0 <= k <= |e.rest|
        invariant refs == old(refs) + RefsUnary(e.left) + RefsRest(e.rest[..k])
      {
        CollectUnary(e.rest[k].right);
        assert e.rest[..k + 1][..k] == e.rest[..k];
        k := k + 1;
      }
      assert e.rest[..k] == e.rest;
    }

    method CollectUnary(u: SUnary)
      modifies this
      ensures refs == old(refs) + RefsUnary(u)
      decreases u, 0
    {
      CollectPrimary(u.value);
    }

    method CollectPrimary(x: SPrimary)
      modifies this
      ensures refs == old(refs) + RefsPrimary(x)
      decreases x, 0
    {
      match x
      case Name(name) => refs := refs + {name};
      case Group(e) => Collect(e);
      case Call(_, args) =>
        var k := 0;
        assert args[0..] == args;
        while k < |args|
          invariant 0 <= k <= |args|
          invariant refs + RefsArgs(args[k..]) == old(refs) + RefsArgs(args)
        {
          assert args[k..][1..] == args[k + 1..];
          Collect(args[k]);
          k := k + 1;
        }
      case _ =>
    }
  }

  // --- Lifting ---

  function ParamNames(ps: seq<Param>): (ns: set<string>) { set q | q in ps :: q.name }

  // The captured variables with their types: what the body reads beside its
  // parameters and the enclosing scope knows.
  function Captures(sc: Scope, ps: seq<Param>, body: SExpr): (caps: map<string, Type>) {
    map n | n in Refs(body) && n !in ParamNames(ps) && Lookup(sc, n).Some? :: Lookup(sc, n).value.t
  }

  predicate Scalar(t: Type) { t != Unit }

  function EnvName(n: string): (r: string) { "__e->" + n }

  // The frame the body is lowered in; captured variables emit under their
  // name in the environment record.
  function InnerFrame(ps: seq<Param>, caps: map<string, Type>): (f: map<string, Binding>) {
    ParamScope(ps) + map n | n in caps :: Binding(caps[n], false)
  }

  function Redirect(caps: set<string>, e: Expr): (r: Expr)
    ensures r.Type() == e.Type()
    decreases e, 0
  {
    match e
    case VarRef(name, t) => if name in caps then VarRef(EnvName(name), t) else e
    case Binary(op, left, right, t) => Binary(op, Redirect(caps, left), Redirect(caps, right), t)
    case Unary(op, operand, t) => Unary(op, Redirect(caps, operand), t)
    case CallE(fn, args, t) => CallE(fn, RedirectAll(caps, args), t)
    case _ => e
  }

  function RedirectAll(caps: set<string>, es: seq<Expr>): (rs: seq<Expr>)
    ensures |rs| == |es|
    decreases es, 0
  {
    if es == [] then [] else [Redirect(caps, es[0])] + RedirectAll(caps, es[1..])
  }

  datatype Lifted = Lifted(params: seq<Param>, ret: Type, caps: map<string, Type>, body: Expr)

  function Lift(fs: Funcs, sc: Scope, fe: FunExpr): (r: Option<Lifted>) {
    if fe.ret.None? then None
    else
      var ps := LowerParams(fe.params);
      if ps.None? || exists q :: q in ps.value && !Scalar(q.t) then None
      else
        var t := TypeFromRef(fe.ret.value);
        if t.None? then None
        else
          var caps := Captures(sc, ps.value, fe.body);
          if exists n :: n in caps && !Scalar(caps[n]) then None
          else
            var e := LowerExpr(fs, [InnerFrame(ps.value, caps)], fe.body);
            if e.None? || e.value.Type() != t.value then None
            else Some(Lifted(ps.value, t.value, caps, Redirect(caps.Keys, e.value)))
  }

  // lowerFunExpr, with the scan and a lowerer of its own for the body.
  method LowerFunExpr(fs: Funcs, sc: Scope, fe: FunExpr) returns (r: Option<Lifted>)
    ensures r == Lift(fs, sc, fe)
  {
    hide LowerExpr, LowerParams, TypeFromRef, Refs, Redirect, ParamScope;
    if fe.ret.None? { return None; }
    var ps := Params(fe.params);
    if ps.None? { return None; }
    if exists q :: q in ps.value && !Scalar(q.t) { return None; }
    var t := TypeFromRef(fe.ret.value);
    if t.None? { return None; }
    var scan := new Scan();
    scan.Collect(fe.body);
    var free := scan.refs - ParamNames(ps.value);
    var caps := map n | n in free && Lookup(sc, n).Some? :: Lookup(sc, n).value.t;
    assert caps == Captures(sc, ps.value, fe.body);
    if exists n :: n in caps && !Scalar(caps[n]) { return None; }
    var inner := new Lowerer(fs, t.value);
    inner.scope := [InnerFrame(ps.value, caps)];
    var e := inner.Expression(fe.body);
    if e.None? || e.value.Type() != t.value { return None; }
    return Some(Lifted(ps.value, t.value, caps, Redirect(caps.Keys, e.value)));
  }

  // --- What the lifted body reads ---

  function VarsOf(e: Expr): (ns: set<string>)
    decreases e, 0
  {
    match e
    case VarRef(name, _) => {name}
    case Binary(_, left, right, _) => VarsOf(left) + VarsOf(right)
    case Unary(_, operand, _) => VarsOf(operand)
    case CallE(_, args, _) => VarsOfAll(args)
    case _ => {}
  }

  function VarsOfAll(es: seq<Expr>): (ns: set<string>)
    decreases es, 0
  {
    if es == [] then {} else VarsOf(es[0]) + VarsOfAll(es[1..])
  }

  lemma {:induction false} RedirectVars(caps: set<string>, e: Expr)
    ensures forall n :: n in VarsOf(Redirect(caps, e)) <==>
            exists m :: m in VarsOf(e) && n == if m in caps then EnvName(m) else m
    decreases e, 0
  {
    hide EnvName;
    match e
    case Binary(_, left, right, _) => RedirectVars(caps, left); RedirectVars(caps, right);
    case Unary(_, operand, _) => RedirectVars(caps, operand);
    case CallE(_, args, _) => RedirectAllVars(caps, args);
    case VarRef(name, _) => assert name in VarsOf(e);
    case _ =>
  }

  lemma {:induction false} RedirectAllVars(caps: set<string>, es: seq<Expr>)
    ensures forall n :: n in VarsOfAll(RedirectAll(caps, es)) <==>
            exists m :: m in VarsOfAll(es) && n == if m in caps then EnvName(m) else m
    decreases es, 0
  {
    hide EnvName;
    if es != [] {
      RedirectVars(caps, es[0]);
      RedirectAllVars(caps, es[1..]);
      assert RedirectAll(caps, es)[1..] == RedirectAll(caps, es[1..]);
    }
  }

  // --- Lowering looks at the names an expression reads, and at no others ---

  function TypeAt(sc: Scope, n: string): (t: Option<Type>) {
    var b := Lookup(sc, n);
    if b.None? then None else Some(b.value.t)
  }

  ghost predicate SameTypes(ns: set<string>, a: Scope, b: Scope) {
    forall n :: n in ns ==> TypeAt(a, n) == TypeAt(b, n)
  }

  lemma {:induction false} LowerSame(fs: Funcs, a: Scope, b: Scope, e: SExpr)
    requires SameTypes(Refs(e), a, b)
    ensures LowerExpr(fs, a, e) == LowerExpr(fs, b, e)
    decreases e, 0
  {
    hide LowerUnary, LowerRest;
    LowerSameUnary(fs, a, b, e.left);
    if LowerUnary(fs, a, e.left).Some? {
      LowerSameRest(fs, a, b, LowerUnary(fs, a, e.left).value, e.rest);
    }
  }

  lemma {:induction false} LowerSameRest(fs: Funcs, a: Scope, b: Scope, left: Expr, rest: seq<SOperand>)
    requires SameTypes(RefsRest(rest), a, b)
    ensures LowerRest(fs, a, left, rest) == LowerRest(fs, b, left, rest)
    decreases rest, 0
  {
    hide LowerUnary, LowerOp;
    if rest != [] {
      LowerSameRest(fs, a, b, left, rest[..|rest| - 1]);
      LowerSameUnary(fs, a, b, rest[|rest| - 1].right);
    }
  }

  lemma {:induction false} LowerSameUnary(fs: Funcs, a: Scope, b: Scope, u: SUnary)
    requires SameTypes(RefsUnary(u), a, b)
    ensures LowerUnary(fs, a, u) == LowerUnary(fs, b, u)
    decreases u, 0
  {
    hide LowerPrimary, LowerPrefixes;
    LowerSamePrimary(fs, a, b, u.value);
  }

  lemma {:induction false} LowerSamePrimary(fs: Funcs, a: Scope, b: Scope, x: SPrimary)
    requires SameTypes(RefsPrimary(x), a, b)
    ensures LowerPrimary(fs, a, x) == LowerPrimary(fs, b, x)
    decreases x, 0
  {
    hide LowerExpr, LowerArgs, Mangle, Underscore;
    match x
    case Name(name) => assert TypeAt(a, name) == TypeAt(b, name);
    case Group(e) => LowerSame(fs, a, b, e);
    case Call(fn, args) =>
      if fn in fs {
        LowerSameArgs(fs, a, b, args, fs[fn].params);
      }
    case _ =>
  }

  lemma {:induction false} LowerSameArgs(fs: Funcs, a: Scope, b: Scope, args: seq<SExpr>, ps: seq<Param>)
    requires SameTypes(RefsArgs(args), a, b)
    ensures LowerArgs(fs, a, args, ps) == LowerArgs(fs, b, args, ps)
    decreases args, 0
  {
    hide LowerExpr;
    if args != [] && |args| == |ps| {
      LowerSame(fs, a, b, args[0]);
      LowerSameArgs(fs, a, b, args[1..], ps[1..]);
    }
  }

  // --- The variables of a lowered expression ---

  lemma {:induction false} LowerVars(fs: Funcs, sc: Scope, e: SExpr)
    requires LowerExpr(fs, sc, e).Some?
    ensures VarsOf(LowerExpr(fs, sc, e).value) == Refs(e)
    ensures forall n :: n in Refs(e) ==> Lookup(sc, n).Some?
    decreases e, 0
  {
    hide LowerUnary, LowerRest, VarsOf;
    LowerVarsUnary(fs, sc, e.left);
    LowerVarsRest(fs, sc, LowerUnary(fs, sc, e.left).value, e.rest);
  }

  lemma {:induction false} LowerVarsRest(fs: Funcs, sc: Scope, left: Expr, rest: seq<SOperand>)
    requires LowerRest(fs, sc, left, rest).Some?
    ensures VarsOf(LowerRest(fs, sc, left, rest).value) == VarsOf(left) + RefsRest(rest)
    ensures forall n :: n in RefsRest(rest) ==> Lookup(sc, n).Some?
    decreases rest, 0
  {
    hide LowerUnary, OpForTypes;
    if rest != [] {
      LowerVarsRest(fs, sc, left, rest[..|rest| - 1]);
      LowerVarsUnary(fs, sc, rest[|rest| - 1].right);
    }
  }

  lemma {:induction false} PrefixVars(ops: seq<string>, e: Expr)
    requires LowerPrefixes(ops, e).Some?
    ensures VarsOf(LowerPrefixes(ops, e).value) == VarsOf(e)
  {
    if ops != [] {
      PrefixVars(ops[1..], e);
    }
  }

  lemma {:induction false} LowerVarsUnary(fs: Funcs, sc: Scope, u: SUnary)
    requires LowerUnary(fs, sc, u).Some?
    ensures VarsOf(LowerUnary(fs, sc, u).value) == RefsUnary(u)
    ensures forall n :: n in RefsUnary(u) ==> Lookup(sc, n).Some?
    decreases u, 0
  {
    hide LowerPrimary, LowerPrefixes, VarsOf;
    LowerVarsPrimary(fs, sc, u.value);
    PrefixVars(u.ops, LowerPrimary(fs, sc, u.value).value);
  }

  lemma {:induction false} LowerVarsPrimary(fs: Funcs, sc: Scope, x: SPrimary)
    requires LowerPrimary(fs, sc, x).Some?
    ensures VarsOf(LowerPrimary(fs, sc, x).value) == RefsPrimary(x)
    ensures forall n :: n in RefsPrimary(x) ==> Lookup(sc, n).Some?
    decreases x, 0
  {
    hide LowerExpr, LowerArgs, Mangle, Underscore;
    match x
    case Group(e) => LowerVars(fs, sc, e);
    case Call(fn, args) => LowerVarsArgs(fs, sc, args, fs[fn].params);
    case _ =>
  }

  lemma {:induction false} LowerVarsArgs(fs: Funcs, sc: Scope, args: seq<SExpr>, ps: seq<Param>)
    requires LowerArgs(fs, sc, args, ps).Some?
    ensures VarsOfAll(LowerArgs(fs, sc, args, ps).value) == RefsArgs(args)
    ensures forall n :: n in RefsArgs(args) ==> Lookup(sc, n).Some?
    decreases args, 0
  {
    hide LowerExpr, VarsOf;
    if args != [] {
      LowerVars(fs, sc, args[0]);
      LowerVarsArgs(fs, sc, args[1..], ps[1..]);
      var es := LowerArgs(fs, sc, args, ps).value;
      assert es[1..] == LowerArgs(fs, sc, args[1..], ps[1..]).value;
    }
  }

  // Everything Lift says, apart from the redirection.
  lemma LiftShape(fs: Funcs, sc: Scope, fe: FunExpr)
    requires Lift(fs, sc, fe).Some?
    ensures var l := Lift(fs, sc, fe).value;
            var e := LowerExpr(fs, [InnerFrame(l.params, l.caps)], fe.body);
            && LowerParams(fe.params) == Some(l.params) && l.caps == Captures(sc, l.params, fe.body)
            && e.Some? && e.value.Type() == l.ret == l.body.Type() && l.body == Redirect(l.caps.Keys, e.value)
  {
    hide LowerExpr, LowerParams, TypeFromRef, Captures, Redirect, InnerFrame;
  }

  // Every variable in a lifted body is a parameter or a capture, and every
  // capture is read there: it is a variable of the enclosing scope, with its
  // type, that no parameter hides.
  lemma LiftedReadsParamsAndCaptures(fs: Funcs, sc: Scope, fe: FunExpr)
    requires Lift(fs, sc, fe).Some?
    ensures var l := Lift(fs, sc, fe).value;
            && (forall n :: n in VarsOf(l.body) ==>
                  n in ParamNames(l.params) || exists c :: c in l.caps && n == EnvName(c))
            && forall c :: c in l.caps ==> EnvName(c) in VarsOf(l.body) && c !in ParamNames(l.params)
                                           && TypeAt(sc, c) == Some(l.caps[c])
  {
    LiftShape(fs, sc, fe);
    var l := Lift(fs, sc, fe).value;
    var frame := InnerFrame(l.params, l.caps);
    var e := LowerExpr(fs, [frame], fe.body).value;
    LowerVars(fs, [frame], fe.body);
    RedirectVars(l.caps.Keys, e);
    forall c | c in l.caps ensures c in Refs(fe.body) && c !in ParamNames(l.params)
        && TypeAt(sc, c) == Some(l.caps[c]) {
      LiftCaptures(fs, sc, fe);
    }
    hide Lift, LowerExpr, Redirect, VarsOf, Refs, EnvName, Captures, ParamNames, InnerFrame, TypeAt;
    forall n | n in VarsOf(l.body) ensures n in ParamNames(l.params) || exists c :: c in l.caps && n == EnvName(c) {
      var m :| m in VarsOf(e) && n == if m in l.caps.Keys then EnvName(m) else m;
      InFrame(l.params, l.caps, m);
    }
  }

  lemma LiftCaptures(fs: Funcs, sc: Scope, fe: FunExpr)
    requires Lift(fs, sc, fe).Some?
    ensures var l := Lift(fs, sc, fe).value;
            forall c :: c in l.caps ==>
              c in Refs(fe.body) && c !in ParamNames(l.params) && TypeAt(sc, c) == Some(l.caps[c])
  {
    hide LowerExpr, LowerParams, TypeFromRef, Redirect, InnerFrame, Refs, ParamNames, Lookup;
  }

  lemma InFrame(ps: seq<Param>, caps: map<string, Type>, m: string)
    ensures Lookup([InnerFrame(ps, caps)], m).Some? ==> m in ParamNames(ps) || m in caps
  {
    OneFrameLookup(InnerFrame(ps, caps), m);
  }

  // --- Running a lifted body ---

  // Names as the parser delivers them.
  predicate Identifiers(ps: seq<Param>) { forall q :: q in ps ==> '>' !in q.name }

  function EnvNames(caps: map<string, Type>): (ns: set<string>) { set n | n in caps :: EnvName(n) }

  lemma EnvNameBack(n: string)
    ensures EnvName(n)[5..] == n && '>' in EnvName(n) && |EnvName(n)| >= 5
  {
    assert EnvName(n)[4] == '>';
  }

  // The frame of a call: the arguments, and the record filled at creation.
  ghost function ClosureFrame(l: Lifted, env: Env, vs: seq<Value>): (f: map<string, Cell>)
    requires |l.params| == |vs|
  {
    ParamFrame(l.params, vs) + map k | k in EnvNames(l.caps) && |k| >= 5
        && Lookup(env, k[5..]).Some? :: Cell(Lookup(env, k[5..]).value.value, false)
  }

  function ValueAt(env: Env, n: string): (v: Option<Value>) {
    var c := Lookup(env, n);
    if c.None? then None else Some(c.value.value)
  }

  lemma {:induction false} EvalRedirect(p: Program, fuel: nat, a: Env, b: Env, caps: set<string>, e: Expr)
    requires forall n :: n in VarsOf(e) ==> ValueAt(a, if n in caps then EnvName(n) else n) == ValueAt(b, n)
    ensures Eval(p, fuel, a, Redirect(caps, e)) == Eval(p, fuel, b, e)
    decreases e, 0
  {
    hide EnvName, Invoke;
    match e
    case VarRef(name, _) => assert name in VarsOf(e);
    case Binary(_, left, right, _) =>
      EvalRedirect(p, fuel, a, b, caps, left);
      EvalRedirect(p, fuel, a, b, caps, right);
    case Unary(_, operand, _) => EvalRedirect(p, fuel, a, b, caps, operand);
    case CallE(_, args, _) => EvalAllRedirect(p, fuel, a, b, caps, args);
    case _ =>
  }

  lemma {:induction false} EvalAllRedirect(p: Program, fuel: nat, a: Env, b: Env, caps: set<string>, es: seq<Expr>)
    requires forall n :: n in VarsOfAll(es) ==> ValueAt(a, if n in caps then EnvName(n) else n) == ValueAt(b, n)
    ensures EvalArgs(p, fuel, a, RedirectAll(caps, es)) == EvalArgs(p, fuel, b, es)
    decreases es, 0
  {
    hide EnvName, Eval, Redirect;
    if es != [] {
      EvalRedirect(p, fuel, a, b, caps, es[0]);
      EvalAllRedirect(p, fuel, a, b, caps, es[1..]);
      assert RedirectAll(caps, es)[1..] == RedirectAll(caps, es[1..]);
    }
  }

  lemma {:induction false} FrameKeys(ps: seq<Param>, vs: seq<Value>)
    requires |ps| == |vs|
    ensures ParamFrame(ps, vs).Keys == ParamNames(ps)
  {
    if ps != [] {
      var k := |ps| - 1;
      FrameKeys(ps[..k], vs[..k]);
      assert ps == ps[..k] + [ps[k]];
    }
  }

  lemma OneFrameLookup<T>(f: map<string, T>, n: string)
    ensures Lookup([f], n) == if n in f then Some(f[n]) else None
  {
    assert [f][1..] == [];
  }

  lemma PushLookup<T>(f: map<string, T>, c: Chain<T>, n: string)
    ensures Lookup([f] + c, n) == if n in f then Some(f[n]) else Lookup(c, n)
  {
    assert ([f] + c)[1..] == c;
  }

  // A variable of the body has the same value in the call as in the scope at
  // creation with the parameters on top.
  lemma SameValue(l: Lifted, env: Env, vs: seq<Value>, n: string)
    requires |l.params| == |vs| && Identifiers(l.params)
    requires n in ParamNames(l.params) || n in l.caps
    requires n in l.caps ==> n !in ParamNames(l.params) && Lookup(env, n).Some?
    ensures ValueAt([ClosureFrame(l, env, vs)], if n in l.caps then EnvName(n) else n) ==
            ValueAt([ParamFrame(l.params, vs)] + env, n)
  {
    var f, g := ClosureFrame(l, env, vs), ParamFrame(l.params, vs);
    FrameKeys(l.params, vs);
    PushLookup(g, env, n);
    EnvNameBack(n);
    if n in l.caps {
      assert EnvName(n) in EnvNames(l.caps);
      OneFrameLookup(f, EnvName(n));
    } else {
      OneFrameLookup(f, n);
      assert n !in EnvNames(l.caps) by { NoEnvName(l, n); }
    }
  }

  lemma NoEnvName(l: Lifted, n: string)
    requires Identifiers(l.params) && n in ParamNames(l.params)
    ensures n !in EnvNames(l.caps)
  {
    forall c | c in l.caps ensures n != EnvName(c) {
      EnvNameBack(c);
    }
  }

  // The types the body was lowered with are those of the scope around it with
  // the parameters on top.
  lemma SameTypeAt(sc: Scope, ps: seq<Param>, body: SExpr, n: string)
    requires var caps := Captures(sc, ps, body); Lookup([InnerFrame(ps, caps)], n).Some?
    ensures var caps := Captures(sc, ps, body); TypeAt([InnerFrame(ps, caps)], n) == TypeAt([ParamScope(ps)] + sc, n)
    ensures var caps := Captures(sc, ps, body);
            (n in ParamNames(ps) || n in caps) && (n in caps ==> n !in ParamNames(ps) && Lookup(sc, n).Some?)
  {
    var caps := Captures(sc, ps, body);
    OneFrameLookup(InnerFrame(ps, caps), n);
    PushLookup(ParamScope(ps), sc, n);
    hide Refs;
  }

  // A call of the closure gives what the body means in the scope at the
  // moment of creation, with the parameters bound; what happens to the
  // captured variables later does not matter.
  lemma LiftedBodyMeansBody(prog: seq<Top>, fs: Funcs, p: Program, fuel: nat, sc: Scope, env: Env, fe: FunExpr,
                            l: Lifted, vs: seq<Value>)
    requires LoweringCorrect.Compiled(prog, fs, p) && Agrees(sc, env)
    requires Lift(fs, sc, fe) == Some(l) && ArgsFit(l.params, vs) && Identifiers(l.params)
    ensures |fe.params| == |vs| == |l.params|
    ensures Eval(p, fuel, [ClosureFrame(l, env, vs)], l.body) ==
            Means(Decls(prog), fuel, [ArgFrame(fe.params, vs)] + env, fe.body)
  {
    LoweringMeaning.CompiledReady(prog, fs, p);
    hide LoweringCorrect.Compiled, LoweringMeaning.Ready;
    LiftShape(fs, sc, fe);
    var inner, outer := [InnerFrame(l.params, l.caps)], [ParamScope(l.params)] + sc;
    var e := LowerExpr(fs, inner, fe.body).value;
    var frame := ParamFrame(l.params, vs);
    LoweringMeaning.FramesEqual(fe.params, l.params, vs);
    hide Lift;
    LowerVars(fs, inner, fe.body);
    forall n | n in Refs(fe.body)
      ensures TypeAt(inner, n) == TypeAt(outer, n)
      ensures ValueAt([ClosureFrame(l, env, vs)], if n in l.caps then EnvName(n) else n) == ValueAt([frame] + env, n)
    {
      SameTypeAt(sc, l.params, fe.body, n);
      LookupAgrees(sc, env, n);
      hide Captures, InnerFrame, ClosureFrame, Lookup;
      SameValue(l, env, vs, n);
    }
    ParamsAgree(l.params, vs);
    hide *;
    SameTypesIs(Refs(fe.body), inner, outer);
    LowerSame(fs, inner, outer, fe.body);
    PushAgrees(sc, env, ParamScope(l.params), frame);
    LoweringMeaning.ExprMeans(prog, fs, p, fuel, outer, [frame] + env, fe.body);
    EvalRedirect(p, fuel, [ClosureFrame(l, env, vs)], [frame] + env, l.caps.Keys, e);
  }

  lemma SameTypesIs(ns: set<string>, a: Scope, b: Scope)
    requires forall n :: n in ns ==> TypeAt(a, n) == TypeAt(b, n)
    ensures SameTypes(ns, a, b)
  {
    hide TypeAt;
  }

  // A name of the body has the same type inside as in the scope around it with
  // the parameters on top, or is unknown in both.
  lemma SameTypeOf(sc: Scope, ps: seq<Param>, body: SExpr, n: string)
    requires n in Refs(body)
    ensures TypeAt([InnerFrame(ps, Captures(sc, ps, body))], n) == TypeAt([ParamScope(ps)] + sc, n)
  {
    OneFrameLookup(InnerFrame(ps, Captures(sc, ps, body)), n);
    PushLookup(ParamScope(ps), sc, n);
    hide Refs;
  }

  // Lifting refuses nothing that the enclosing scope would accept: with known
  // scalar parameters, a known return type and scalar captures it succeeds
  // exactly when the body can be lowered in place with that type.
  lemma LiftSucceedsExactlyWhereBodyLowers(fs: Funcs, sc: Scope, fe: FunExpr)
    requires fe.ret.Some? && TypeFromRef(fe.ret.value).Some?
    requires LowerParams(fe.params).Some? && forall q :: q in LowerParams(fe.params).value ==> Scalar(q.t)
    requires var caps := Captures(sc, LowerParams(fe.params).value, fe.body); forall n :: n in caps ==> Scalar(caps[n])
    ensures var e := LowerExpr(fs, [ParamScope(LowerParams(fe.params).value)] + sc, fe.body);
            Lift(fs, sc, fe).Some? <==> e.Some? && Some(e.value.Type()) == TypeFromRef(fe.ret.value)
  {
    var ps := LowerParams(fe.params).value;
    var inner, outer := [InnerFrame(ps, Captures(sc, ps, fe.body))], [ParamScope(ps)] + sc;
    forall n | n in Refs(fe.body) ensures TypeAt(inner, n) == TypeAt(outer, n) {
      SameTypeOf(sc, ps, fe.body, n);
    }
    SameTypesIs(Refs(fe.body), inner, outer);
    LowerSame(fs, inner, outer, fe.body);
    hide LowerExpr, LowerParams, TypeFromRef, Refs, InnerFrame, ParamScope, Redirect;
  }

  // --- The verifier accepts what was lifted ---

  // The root frame Verify seeds for a lifted function.
  function LiftedScope(l: Lifted): (f: map<string, Binding>) {
    ParamScope(l.params) + map k | k in EnvNames(l.caps) && |k| >= 5
        && k[5..] in l.caps :: Binding(l.caps[k[5..]], false)
  }

  lemma {:induction false} CheckRedirect(fns: Fns, a: Scope, b: Scope, caps: set<string>, e: Expr)
    requires CheckExpr(fns, b, e)
    requires forall n :: n in VarsOf(e) ==> TypeAt(a, if n in caps then EnvName(n) else n) == TypeAt(b, n)
    ensures CheckExpr(fns, a, Redirect(caps, e))
    decreases e, 0
  {
    hide EnvName, BinOpSignature, UnOpSignature;
    match e
    case VarRef(name, _) => assert name in VarsOf(e);
    case Binary(_, left, right, _) =>
      CheckRedirect(fns, a, b, caps, left);
      CheckRedirect(fns, a, b, caps, right);
    case Unary(_, operand, _) => CheckRedirect(fns, a, b, caps, operand);
    case CallE(fn, args, _) => CheckAllRedirect(fns, a, b, caps, args, fns[fn].params);
    case _ =>
  }

  lemma {:induction false} CheckAllRedirect(fns: Fns, a: Scope, b: Scope, caps: set<string>, es: seq<Expr>,
                                            ts: seq<Type>)
    requires CheckArgs(fns, b, es, ts)
    requires forall n :: n in VarsOfAll(es) ==> TypeAt(a, if n in caps then EnvName(n) else n) == TypeAt(b, n)
    ensures CheckArgs(fns, a, RedirectAll(caps, es), ts)
    decreases es, 0
  {
    hide EnvName, CheckExpr, Redirect;
    if es != [] {
      CheckRedirect(fns, a, b, caps, es[0]);
      CheckAllRedirect(fns, a, b, caps, es[1..], ts[1..]);
      assert RedirectAll(caps, es)[1..] == RedirectAll(caps, es[1..]);
    }
  }

  lemma LiftedTypeAt(l: Lifted, n: string)
    requires Identifiers(l.params) && (n in ParamNames(l.params) || n in l.caps)
             && (n in l.caps ==> n !in ParamNames(l.params))
    ensures TypeAt([LiftedScope(l)], if n in l.caps then EnvName(n) else n) == TypeAt([InnerFrame(l.params, l.caps)], n)
  {
    OneFrameLookup(InnerFrame(l.params, l.caps), n);
    EnvNameBack(n);
    if n in l.caps {
      assert EnvName(n) in EnvNames(l.caps);
      OneFrameLookup(LiftedScope(l), EnvName(n));
    } else {
      NoEnvName(l, n);
      OneFrameLookup(LiftedScope(l), n);
    }
  }

  // The single return statement of the lifted function passes.
  lemma LiftedVerifies(fs: Funcs, fns: Fns, sc: Scope, fe: FunExpr)
    requires LoweringCorrect.Matches(fs, fns) && Lift(fs, sc, fe).Some? && Identifiers(Lift(fs, sc, fe).value.params)
    ensures var l := Lift(fs, sc, fe).value;
            CheckSeq(fns, Where(l.ret, 0), [LiftedScope(l)], [Return(l.body)]).Some?
  {
    hide *;
    LiftShape(fs, sc, fe);
    var l := Lift(fs, sc, fe).value;
    var inner := [InnerFrame(l.params, l.caps)];
    var e := LowerExpr(fs, inner, fe.body).value;
    LowerVars(fs, inner, fe.body);
    LoweringCorrect.ExprVerifies(fs, fns, inner, fe.body);
    forall n | n in VarsOf(e) ensures TypeAt([LiftedScope(l)], if n in l.caps then EnvName(n) else n) ==
        TypeAt(inner, n) {
      SameTypeAt(sc, l.params, fe.body, n);
      LiftedTypeAt(l, n);
    }
    CheckRedirect(fns, [LiftedScope(l)], inner, l.caps.Keys, e);
    ReturnVerifies(fns, l.ret, [LiftedScope(l)], l.body);
  }

  lemma ReturnVerifies(fns: Fns, ret: Type, sc: Scope, e: Expr)
    requires sc != [] && CheckExpr(fns, sc, e) && e.Type() == ret
    ensures CheckSeq(fns, Where(ret, 0), sc, [Return(e)]).Some?
  {
    hide CheckExpr, CheckSeq;
    LoweringCorrect.OneStmt(fns, Where(ret, 0), sc, Return(e));
  }
}
