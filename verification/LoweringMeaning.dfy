/**
 * Lowering preserves meaning: a lowered program prints what the source program
 * prints and ends as it ends, step for step and with the same fuel.
 */
module LoweringMeaning {
  import opened Options
  import opened IR
  import opened Verifier
  import opened Soundness
  import opened Source
  import opened Lowering
  import opened LoweringCorrect

  // A program with its signature table and its lowered form.
  ghost predicate Ready(prog: seq<Top>, fs: Funcs, p: Program) {
    Compiled(prog, fs, p) && Accepts(p) && Matches(fs, Table(p))
  }

  // --- Operators ---

  // The operator picked from the static types does what the overloaded one
  // does on values of those types, and keeps the recorded type.
  lemma PickedMeans(op: string, a: Value, b: Value)
    requires OpForTypes(op, a.Type(), b.Type()).Some?
    ensures var o := OpForTypes(op, a.Type(), b.Type()).value;
            Apply(o.op, a, b) == Operate(op, a, b)
  {
    if a.IntV? && b.IntV? {
      hide OnInts, Arith;
      PickedInts(op, a.i, b.i);
    } else if a.FloatV? && b.FloatV? {
      hide OnFloats, ArithF;
      PickedFloats(op, a.f, b.f);
    }
  }

  lemma PickedInts(op: string, x: int, y: int)
    requires OpForTypes(op, Int, Int).Some?
    ensures Arith(OpForTypes(op, Int, Int).value.op, x, y) == OnInts(op, x, y)
  {
    hide Quot;
  }

  lemma PickedFloats(op: string, x: real, y: real)
    requires OpForTypes(op, Float, Float).Some?
    ensures ArithF(OpForTypes(op, Float, Float).value.op, x, y) == OnFloats(op, x, y)
  {
  }

  lemma PickedDecides(op: string, a: Value, t: Type)
    requires OpForTypes(op, a.Type(), t).Some?
    ensures var o := OpForTypes(op, a.Type(), t).value;
            Decides(o.op, a) == Settled(op, a) && (Settled(op, a) ==> o.res == Bool)
  {
  }

  lemma PrefixMeans(p: Program, fuel: nat, env: Env, op: string, e: Expr)
    requires LowerPrefix(op, e).Some? && Fits(Eval(p, fuel, env, e).res, e.Type())
    ensures var v := Eval(p, fuel, env, e);
            Eval(p, fuel, env, LowerPrefix(op, e).value) == if v.res.Stop? then v
                else Run(Prefix(op, v.res.value), v.out)
  {
    PrefixShape(op, e);
    var x := LowerPrefix(op, e).value;
    EvalUnary(p, fuel, env, x.uop, e, x.res);
    hide Eval, LowerPrefix, Prefix, Negate;
    var v := Eval(p, fuel, env, e);
    if v.res.Ok? {
      PrefixValue(op, e, v.res.value);
    }
  }

  lemma PrefixShape(op: string, e: Expr)
    requires LowerPrefix(op, e).Some?
    ensures var x := LowerPrefix(op, e).value; x.Unary? && x == Unary(x.uop, e, x.res)
  {
  }

  lemma EvalUnary(p: Program, fuel: nat, env: Env, op: UnOp, e: Expr, t: Type)
    ensures var v := Eval(p, fuel, env, e);
            Eval(p, fuel, env, Unary(op, e, t)) == if v.res.Stop? then v
                else Run(Recorded(Negate(op, v.res.value), t), v.out)
  {
  }

  lemma PrefixValue(op: string, e: Expr, v: Value)
    requires LowerPrefix(op, e).Some? && v.Type() == e.Type()
    ensures var x := LowerPrefix(op, e).value; x.Unary? && Recorded(Negate(x.uop, v), x.res) == Prefix(op, v)
  {
  }

  lemma {:induction false} PrefixesMean(p: Program, fuel: nat, sc: Scope, env: Env, ops: seq<string>, e: Expr)
    requires Accepts(p) && Agrees(sc, env) && CheckExpr(Table(p), sc, e) && LowerPrefixes(ops, e).Some?
    ensures var v := Eval(p, fuel, env, e);
            Eval(p, fuel, env, LowerPrefixes(ops, e).value) == Run(Prefixes(ops, v.res), v.out)
  {
    hide Accepts, Agrees, Table, CheckExpr, Eval, LowerPrefix, Fits, Prefix;
    if ops != [] {
      PrefixesMean(p, fuel, sc, env, ops[1..], e);
      PrefixesVerify(Table(p), sc, ops[1..], e);
      var inner := LowerPrefixes(ops[1..], e).value;
      EvalSound(p, fuel, sc, env, inner);
      PrefixMeans(p, fuel, env, ops[0], inner);
      if Eval(p, fuel, env, e).res.Stop? {
        PrefixesStop(ops[1..], Eval(p, fuel, env, e).res);
      }
    }
  }

  lemma PrefixesStop(ops: seq<string>, r: Result<Value>)
    requires r.Stop?
    ensures Prefixes(ops, r) == r
  {
  }

  // --- Callees ---

  // A callee is found in both programs, as a declaration and its lowering.
  lemma CalleeAt(prog: seq<Top>, fs: Funcs, p: Program, fn: string) returns (d: FunDecl, f: Function)
    requires Ready(prog, fs, p) && fn in fs
    ensures FindDecl(Decls(prog), fn) == Some(d) && FindFunction(p.functions, Mangle(fn)) == Some(f)
    ensures d.name == fn && f in p.functions && LoweredFrom(fs, d, f)
  {
    var ds := Decls(prog);
    assert Collect(ds) == Some(fs);
    hide Ready, Compiled, Collect, Decls, LoweredFrom, FindDecl, FindFunction, Mangle;
    var k := CollectFrom(ds, fn);
    ReadyAt(prog, fs, p, k);
    LoweredSig(fs, ds[k], p.functions[k]);
    FindDeclAt(ds, k);
    ReadyNames(prog, fs, p);
    FindFunctionAt(p.functions, k);
    d, f := ds[k], p.functions[k];
  }

  lemma ReadyAt(prog: seq<Top>, fs: Funcs, p: Program, k: nat)
    requires Ready(prog, fs, p) && k < |Decls(prog)|
    ensures k < |p.functions| && LoweredFrom(fs, Decls(prog)[k], p.functions[k])
  {
    hide Compiled, Accepts, Matches, LoweredFrom;
    CompiledAt(prog, fs, p, k);
  }

  lemma ReadyNames(prog: seq<Top>, fs: Funcs, p: Program)
    requires Ready(prog, fs, p)
    ensures NamesOk(p.functions)
  {
    hide Compiled, Matches;
  }

  lemma {:induction false} FindDeclAt(ds: seq<FunDecl>, k: nat)
    requires Collect(ds).Some? && k < |ds|
    ensures FindDecl(ds, ds[k].name) == Some(ds[k])
  {
    forall j | 0 <= j < k ensures ds[j].name != ds[k].name {
      CollectDistinct(ds, j, k);
    }
    hide Collect;
    FirstDecl(ds, k);
  }

  lemma {:induction false} FirstDecl(ds: seq<FunDecl>, k: nat)
    requires k < |ds| && forall j :: 0 <= j < k ==> ds[j].name != ds[k].name
    ensures FindDecl(ds, ds[k].name) == Some(ds[k])
  {
    if k > 0 {
      FirstDecl(ds[1..], k - 1);
    }
  }

  lemma {:induction false} FindFunctionAt(fs: seq<Function>, k: nat)
    requires k < |fs| && NamesOk(fs)
    ensures FindFunction(fs, fs[k].name) == Some(fs[k])
  {
    if k > 0 {
      FindFunctionAt(fs[1..], k - 1);
    }
  }

  lemma {:induction false} FramesEqual(ps: seq<SParam>, qs: seq<Param>, vs: seq<Value>)
    requires |ps| == |qs| == |vs| && forall k :: 0 <= k < |ps| ==> qs[k].name == ps[k].name
    ensures ArgFrame(ps, vs) == ParamFrame(qs, vs)
  {
    if ps != [] {
      var k := |ps| - 1;
      FramesEqual(ps[..k], qs[..k], vs[..k]);
    }
  }

  // --- Expressions ---

  lemma {:induction false} ExprMeans(prog: seq<Top>, fs: Funcs, p: Program, fuel: nat, sc: Scope, env: Env, e: SExpr)
    requires Ready(prog, fs, p) && Agrees(sc, env) && LowerExpr(fs, sc, e).Some?
    ensures Eval(p, fuel, env, LowerExpr(fs, sc, e).value) == Means(Decls(prog), fuel, env, e)
    ensures CheckExpr(Table(p), sc, LowerExpr(fs, sc, e).value)
    ensures Fits(Means(Decls(prog), fuel, env, e).res, LowerExpr(fs, sc, e).value.Type())
    decreases fuel, e, 0
  {
    hide Ready, Agrees, Decls, LowerUnary, LowerRest, CheckExpr, Eval, MeansUnary, MeansRest, Fits, Table;
    UnaryMeans(prog, fs, p, fuel, sc, env, e.left);
    RestMeans(prog, fs, p, fuel, sc, env, LowerUnary(fs, sc, e.left).value, e.rest);
    ExprTyped(prog, fs, p, fuel, sc, env, LowerExpr(fs, sc, e).value);
  }

  lemma ExprTyped(prog: seq<Top>, fs: Funcs, p: Program, fuel: nat, sc: Scope, env: Env, x: Expr)
    requires Ready(prog, fs, p) && Agrees(sc, env) && CheckExpr(Table(p), sc, x)
    ensures Fits(Eval(p, fuel, env, x).res, x.Type())
  {
    hide Compiled, Accepts, Matches;
    EvalSound(p, fuel, sc, env, x);
  }

  lemma {:induction false} RestMeans(prog: seq<Top>, fs: Funcs, p: Program, fuel: nat, sc: Scope, env: Env, left: Expr,
                                     rest: seq<SOperand>)
    requires Ready(prog, fs, p) && Agrees(sc, env) && CheckExpr(Table(p), sc, left)
             && LowerRest(fs, sc, left, rest).Some?
    ensures Eval(p, fuel, env, LowerRest(fs, sc, left, rest).value) ==
            MeansRest(Decls(prog), fuel, env, Eval(p, fuel, env, left), rest)
    ensures CheckExpr(Table(p), sc, LowerRest(fs, sc, left, rest).value)
    decreases fuel, rest, 0
  {
    hide Ready, Agrees, Decls, LowerUnary, LowerOp, CheckExpr, Eval, MeansUnary, Table, Operate, Settled;
    if rest != [] {
      var k := |rest| - 1;
      var last := rest[k];
      RestMeans(prog, fs, p, fuel, sc, env, left, rest[..k]);
      UnaryMeans(prog, fs, p, fuel, sc, env, last.right);
      var a, b := LowerRest(fs, sc, left, rest[..k]).value, LowerUnary(fs, sc, last.right).value;
      ExprTyped(prog, fs, p, fuel, sc, env, a);
      ExprTyped(prog, fs, p, fuel, sc, env, b);
      OpVerifies(Table(p), sc, last.op, a, b);
      OpMeans(p, fuel, env, last.op, a, b);
      if Eval(p, fuel, env, left).res.Stop? {
        RestStop(Decls(prog), fuel, env, Eval(p, fuel, env, left), rest[..k]);
      }
    }
  }

  lemma RestStop(ds: seq<FunDecl>, fuel: nat, env: Env, r: Run<Value>, rest: seq<SOperand>)
    requires r.res.Stop?
    ensures MeansRest(ds, fuel, env, r, rest) == r
  {
  }

  lemma OpVerifies(fns: Fns, sc: Scope, op: string, a: Expr, b: Expr)
    requires LowerOp(op, a, b).Some? && CheckExpr(fns, sc, a) && CheckExpr(fns, sc, b)
    ensures CheckExpr(fns, sc, LowerOp(op, a, b).value)
  {
    hide OpForTypes, BinOpSignature;
    OpForTypesAgrees(op, a.Type(), b.Type());
  }

  // One typed operator on typed operands against the overloaded one.
  lemma OpMeans(p: Program, fuel: nat, env: Env, op: string, a: Expr, b: Expr)
    requires LowerOp(op, a, b).Some? && Fits(Eval(p, fuel, env, a).res, a.Type())
             && Fits(Eval(p, fuel, env, b).res, b.Type())
    ensures var x, y := Eval(p, fuel, env, a), Eval(p, fuel, env, b);
            Eval(p, fuel, env, LowerOp(op, a, b).value) ==
              if x.res.Stop? || Settled(op, x.res.value) then x
              else After(x.out, if y.res.Stop? then y else Run(Operate(op, x.res.value, y.res.value), y.out))
  {
    hide OpForTypes, BinOpSignature, Apply, Operate, Decides, Settled;
    var x, y := Eval(p, fuel, env, a).res, Eval(p, fuel, env, b).res;
    if x.Ok? {
      PickedDecides(op, x.value, b.Type());
      if Settled(op, x.value) {
        SettledBool(op, x.value);
      }
      if y.Ok? {
        PickedMeans(op, x.value, y.value);
        OpForTypesAgrees(op, a.Type(), b.Type());
        ApplySound(OpForTypes(op, a.Type(), b.Type()).value.op, x.value, y.value);
      }
    }
  }

  lemma SettledBool(op: string, a: Value)
    requires Settled(op, a)
    ensures a.Type() == Bool
  {
  }

  lemma {:induction false} UnaryMeans(prog: seq<Top>, fs: Funcs, p: Program, fuel: nat, sc: Scope, env: Env, u: SUnary)
    requires Ready(prog, fs, p) && Agrees(sc, env) && LowerUnary(fs, sc, u).Some?
    ensures Eval(p, fuel, env, LowerUnary(fs, sc, u).value) == MeansUnary(Decls(prog), fuel, env, u)
    ensures CheckExpr(Table(p), sc, LowerUnary(fs, sc, u).value)
    decreases fuel, u, 0
  {
    assert Accepts(p);
    hide Ready, Accepts, Agrees, Decls, LowerPrimary, LowerPrefixes, CheckExpr, Eval, MeansPrimary, Prefixes, Table;
    PrimaryMeans(prog, fs, p, fuel, sc, env, u.value);
    var x := LowerPrimary(fs, sc, u.value).value;
    PrefixesMean(p, fuel, sc, env, u.ops, x);
    PrefixesVerify(Table(p), sc, u.ops, x);
  }

  lemma {:induction false} PrimaryMeans(prog: seq<Top>, fs: Funcs, p: Program, fuel: nat, sc: Scope, env: Env,
                                        x: SPrimary)
    requires Ready(prog, fs, p) && Agrees(sc, env) && LowerPrimary(fs, sc, x).Some?
    ensures Eval(p, fuel, env, LowerPrimary(fs, sc, x).value) == MeansPrimary(Decls(prog), fuel, env, x)
    ensures CheckExpr(Table(p), sc, LowerPrimary(fs, sc, x).value)
    decreases fuel, x, 0
  {
    assert Matches(fs, Table(p));
    hide Ready, Matches, Agrees, Decls, LowerPrimary, LowerExpr, CheckExpr, Table, Eval, Means, MeansPrimary;
    PrimaryVerifies(fs, Table(p), sc, x);
    match x
    case Group(e) =>
      GroupShape(Decls(prog), fs, sc, fuel, env, e);
      ExprMeans(prog, fs, p, fuel, sc, env, e);
    case Call(fn, args) => UserCallMeans(prog, fs, p, fuel, sc, env, fn, args);
    case _ => AtomMeans(Decls(prog), p, fs, fuel, sc, env, x);
  }

  lemma GroupShape(ds: seq<FunDecl>, fs: Funcs, sc: Scope, fuel: nat, env: Env, e: SExpr)
    ensures LowerPrimary(fs, sc, Group(e)) == LowerExpr(fs, sc, e)
    ensures MeansPrimary(ds, fuel, env, Group(e)) == Means(ds, fuel, env, e)
  {
    hide LowerExpr, Means;
  }

  // Literals and variables.
  lemma AtomMeans(ds: seq<FunDecl>, p: Program, fs: Funcs, fuel: nat, sc: Scope, env: Env, x: SPrimary)
    requires Agrees(sc, env) && LowerPrimary(fs, sc, x).Some? && !x.Call? && !x.Group?
    ensures Eval(p, fuel, env, LowerPrimary(fs, sc, x).value) == MeansPrimary(ds, fuel, env, x)
  {
    hide Agrees, LowerArgs, LowerExpr, Mangle, Underscore;
    if x.Name? {
      LookupAgrees(sc, env, x.name);
    }
  }

  // One step into a call, in the IR and in the source.
  lemma EvalCall(p: Program, fuel: nat, env: Env, f: Function, fn: string, es: seq<Expr>, t: Type)
    requires FindFunction(p.functions, fn) == Some(f)
    ensures var vs := EvalArgs(p, fuel, env, es);
            Eval(p, fuel, env, CallE(fn, es, t)) ==
              if vs.res.Stop? then Run(Stop(vs.res.halt), vs.out)
              else if fuel == 0 then Run(Stop(OutOfFuel), vs.out)
              else
                var r := Invoke(p, fuel - 1, f, vs.res.value);
                After(vs.out, Run(Recorded(r.res, t), r.out))
  {
    hide EvalArgs, Invoke, FindFunction;
  }

  lemma MeansCall(ds: seq<FunDecl>, fuel: nat, env: Env, d: FunDecl, fn: string, args: seq<SExpr>)
    requires FindDecl(ds, fn) == Some(d)
    ensures var vs := MeansArgs(ds, fuel, env, args);
            MeansPrimary(ds, fuel, env, Call(fn, args)) ==
              if vs.res.Stop? then Run(Stop(vs.res.halt), vs.out)
              else if fuel == 0 then Run(Stop(OutOfFuel), vs.out)
              else After(vs.out, Enter(ds, fuel - 1, d, vs.res.value))
  {
    hide MeansArgs, Enter, FindDecl;
  }

  lemma ExecCall(p: Program, fuel: nat, env: Env, f: Function, fn: string, es: seq<Expr>)
    requires FindFunction(p.functions, fn) == Some(f) && Builtin(fn).None? && env != []
    ensures var vs := EvalArgs(p, fuel, env, es);
            ExecStmt(p, fuel, env, CallS(fn, es)) ==
              if vs.res.Stop? then Trace(Halted(vs.res.halt), vs.out)
              else if fuel == 0 then Trace(Halted(OutOfFuel), vs.out)
              else Then(vs.out, Keep(env, Invoke(p, fuel - 1, f, vs.res.value)))
  {
    hide EvalArgs, Invoke, FindFunction, Builtin;
  }

  lemma RunCallIs(ds: seq<FunDecl>, fuel: nat, env: Env, d: FunDecl, fn: string, args: seq<SExpr>)
    requires FindDecl(ds, fn) == Some(d) && fn != "print" && env != []
    ensures var vs := MeansArgs(ds, fuel, env, args);
            RunCall(ds, fuel, env, fn, args) ==
              if vs.res.Stop? then Trace(Halted(vs.res.halt), vs.out)
              else if fuel == 0 then Trace(Halted(OutOfFuel), vs.out)
              else Then(vs.out, Keep(env, Enter(ds, fuel - 1, d, vs.res.value)))
  {
    hide MeansArgs, Enter, FindDecl;
  }

  lemma UserCallShape(fs: Funcs, sc: Scope, fn: string, args: seq<SExpr>)
    requires LowerPrimary(fs, sc, Call(fn, args)).Some?
    ensures fn in fs && LowerArgs(fs, sc, args, fs[fn].params).Some?
    ensures LowerPrimary(fs, sc, Call(fn, args)) ==
            Some(CallE(Mangle(fn), LowerArgs(fs, sc, args, fs[fn].params).value, fs[fn].ret))
  {
    hide LowerArgs, Mangle, Underscore;
  }

  lemma {:induction false} UserCallMeans(prog: seq<Top>, fs: Funcs, p: Program, fuel: nat, sc: Scope, env: Env,
                                         fn: string, args: seq<SExpr>)
    requires Ready(prog, fs, p) && Agrees(sc, env) && LowerPrimary(fs, sc, Call(fn, args)).Some?
    ensures Eval(p, fuel, env, LowerPrimary(fs, sc, Call(fn, args)).value) ==
            MeansPrimary(Decls(prog), fuel, env, Call(fn, args))
    decreases fuel, args, 1
  {
    hide *;
    UserCallShape(fs, sc, fn, args);
    ArgsMean(prog, fs, p, fuel, sc, env, args, fs[fn].params);
    var d, f := CalleeAt(prog, fs, p, fn);
    EvalCall(p, fuel, env, f, Mangle(fn), LowerArgs(fs, sc, args, fs[fn].params).value, fs[fn].ret);
    MeansCall(Decls(prog), fuel, env, d, fn, args);
    LoweredHead(fs, d, f);
    var vs := MeansArgs(Decls(prog), fuel, env, args).res;
    if vs.Ok? && fuel > 0 {
      InvokeMeans(prog, fs, p, fuel - 1, d, f, vs.value);
      RecordedFits(Invoke(p, fuel - 1, f, vs.value).res, f.ret);
    }
  }

  lemma RecordedFits(r: Result<Value>, t: Type)
    requires Fits(r, t)
    ensures Recorded(r, t) == r
  {
  }

  lemma LoweredHead(fs: Funcs, d: FunDecl, f: Function)
    requires LoweredFrom(fs, d, f)
    ensures f.params == fs[d.name].params && f.ret == fs[d.name].ret
  {
    hide LowerSeq;
  }

  // Arguments evaluate to the same values, of the parameters' types.
  lemma {:induction false} ArgsMean(prog: seq<Top>, fs: Funcs, p: Program, fuel: nat, sc: Scope, env: Env,
                                    args: seq<SExpr>, ps: seq<Param>)
    requires Ready(prog, fs, p) && Agrees(sc, env) && LowerArgs(fs, sc, args, ps).Some?
    ensures EvalArgs(p, fuel, env, LowerArgs(fs, sc, args, ps).value) == MeansArgs(Decls(prog), fuel, env, args)
    ensures var vs := MeansArgs(Decls(prog), fuel, env, args).res; vs.Ok? ==> ArgsFit(ps, vs.value)
    decreases fuel, args, 0
  {
    hide Ready, Agrees, Decls, LowerExpr, Means, Eval, CheckExpr, Table;
    if args != [] {
      ExprMeans(prog, fs, p, fuel, sc, env, args[0]);
      ArgsMean(prog, fs, p, fuel, sc, env, args[1..], ps[1..]);
      var es := LowerArgs(fs, sc, args, ps).value;
      assert es[1..] == LowerArgs(fs, sc, args[1..], ps[1..]).value;
    }
  }

  lemma {:induction false} InvokeMeans(prog: seq<Top>, fs: Funcs, p: Program, fuel: nat, d: FunDecl, f: Function,
                                       vs: seq<Value>)
    requires Ready(prog, fs, p) && f in p.functions && LoweredFrom(fs, d, f) && ArgsFit(f.params, vs)
    ensures Invoke(p, fuel, f, vs) == Enter(Decls(prog), fuel, d, vs)
    ensures Fits(Invoke(p, fuel, f, vs).res, f.ret)
    decreases fuel, d, 1
  {
    hide *;
    FrameReady(fs, d, f, vs);
    LoweredBody(fs, d, f);
    var sc, env := [ParamScope(f.params)], [ParamFrame(f.params, vs)];
    ReadyInvoke(prog, fs, p, fuel, f, vs);
    SeqMeans(prog, fs, p, fuel, Where(f.ret, 0), sc, env, d.body);
    LeaveIsExit(p, Decls(prog), fuel, d, f, vs);
  }

  lemma ReadyInvoke(prog: seq<Top>, fs: Funcs, p: Program, fuel: nat, f: Function, vs: seq<Value>)
    requires Ready(prog, fs, p) && f in p.functions && ArgsFit(f.params, vs)
    ensures Fits(Invoke(p, fuel, f, vs).res, f.ret)
  {
    hide Compiled, Accepts, Matches;
    InvokeSound(p, fuel, f, vs);
  }

  // The bodies ran alike, so the calls end alike.
  lemma LeaveIsExit(p: Program, ds: seq<FunDecl>, fuel: nat, d: FunDecl, f: Function, vs: seq<Value>)
    requires ArgsFit(f.params, vs) && |d.params| == |vs| && ArgFrame(d.params, vs) == ParamFrame(f.params, vs)
    requires (d.ret == Some("unit")) == (f.ret == Unit)
    requires var env := [ParamFrame(f.params, vs)]; ExecSeq(p, fuel, env, f.body) == RunSeq(ds, fuel, env, d.body)
    requires Fits(Invoke(p, fuel, f, vs).res, f.ret)
    ensures Invoke(p, fuel, f, vs) == Enter(ds, fuel, d, vs)
  {
    hide ExecSeq, RunSeq, ParamFrame, ArgFrame;
  }

  lemma LoweredBody(fs: Funcs, d: FunDecl, f: Function)
    requires LoweredFrom(fs, d, f)
    ensures var l := LowerSeq(fs, Where(f.ret, 0), [ParamScope(f.params)], d.body); l.Some? && l.value.stmts == f.body
    ensures (d.ret == Some("unit")) == (f.ret == Unit)
  {
    hide LowerSeq, ParamScope, LowerParams;
  }

  lemma FrameReady(fs: Funcs, d: FunDecl, f: Function, vs: seq<Value>)
    requires LoweredFrom(fs, d, f) && ArgsFit(f.params, vs)
    ensures |d.params| == |vs| == |f.params| && ArgFrame(d.params, vs) == ParamFrame(f.params, vs)
    ensures Agrees([ParamScope(f.params)], [ParamFrame(f.params, vs)])
  {
    hide LowerSeq;
    ParamsAgree(f.params, vs);
    OneFrame([ParamScope(f.params)], [ParamFrame(f.params, vs)]);
    FramesEqual(d.params, f.params, vs);
  }

  // --- Statements ---

  lemma {:induction false} SeqMeans(prog: seq<Top>, fs: Funcs, p: Program, fuel: nat, w: Where, sc: Scope, env: Env,
                                    ss: seq<SStmt>)
    requires Ready(prog, fs, p) && sc != [] && env != [] && Agrees(sc, env) && LowerSeq(fs, w, sc, ss).Some?
    ensures ExecSeq(p, fuel, env, LowerSeq(fs, w, sc, ss).value.stmts) == RunSeq(Decls(prog), fuel, env, ss)
    decreases fuel, ss, 0
  {
    hide Ready, Agrees, Decls, LowerStmt, ExecStmt, RunStmt;
    if ss != [] {
      var l := LowerStmt(fs, w, sc, ss[0]).value;
      StmtMeans(prog, fs, p, fuel, w, sc, env, ss[0]);
      var s := RunStmt(Decls(prog), fuel, env, ss[0]).step;
      var stmts := LowerSeq(fs, w, sc, ss).value.stmts;
      assert stmts[0] == l.stmt && stmts[1..] == LowerSeq(fs, w, l.scope, ss[1..]).value.stmts;
      if s.Go? && s.flow == Normal {
        StmtKeeps(prog, fs, p, fuel, w, sc, env, ss[0]);
        SeqMeans(prog, fs, p, fuel, w, l.scope, s.env, ss[1..]);
      }
    }
  }

  // A lowered statement that ends normally leaves the chains in agreement.
  lemma StmtKeeps(prog: seq<Top>, fs: Funcs, p: Program, fuel: nat, w: Where, sc: Scope, env: Env, s: SStmt)
    requires Ready(prog, fs, p) && sc != [] && env != [] && Agrees(sc, env) && LowerStmt(fs, w, sc, s).Some?
    ensures var l := LowerStmt(fs, w, sc, s).value;
            var r := ExecStmt(p, fuel, env, l.stmt).step;
            r.Go? && r.flow == Normal ==> Agrees(l.scope, r.env)
  {
    hide Compiled, Accepts, Matches, Agrees, LowerStmt, CheckStmt, ExecStmt, Table;
    StmtVerifies(fs, Table(p), w, sc, s);
    StmtSound(p, fuel, w, sc, env, LowerStmt(fs, w, sc, s).value.stmt);
  }

  lemma {:induction false} BlockMeans(prog: seq<Top>, fs: Funcs, p: Program, fuel: nat, w: Where, sc: Scope, env: Env,
                                      b: map<string, Binding>, c: map<string, Cell>, ss: seq<SStmt>)
    requires Ready(prog, fs, p) && sc != [] && env != [] && Agrees(sc, env) && FrameAgrees(b, c)
             && LowerBlock(fs, w, sc, b, ss).Some?
    ensures var body := LowerBlock(fs, w, sc, b, ss).value;
            && ExecBlock(p, fuel, env, c, body) == RunBlock(Decls(prog), fuel, env, c, ss)
            && BlockFits(w, sc, ExecBlock(p, fuel, env, c, body).step)
    decreases fuel, ss, 1
  {
    assert Accepts(p) && Matches(fs, Table(p));
    hide Ready, Accepts, Matches, Agrees, FrameAgrees, Decls, LowerSeq, CheckSeq, ExecSeq, RunSeq, Table, BlockFits;
    PushAgrees(sc, env, b, c);
    SeqMeans(prog, fs, p, fuel, w, [b] + sc, [c] + env, ss);
    BlockVerifies(fs, Table(p), w, sc, b, ss);
    BlockSound(p, fuel, w, sc, env, b, c, LowerBlock(fs, w, sc, b, ss).value);
  }

  lemma {:induction false} StmtMeans(prog: seq<Top>, fs: Funcs, p: Program, fuel: nat, w: Where, sc: Scope, env: Env,
                                     s: SStmt)
    requires Ready(prog, fs, p) && sc != [] && env != [] && Agrees(sc, env) && LowerStmt(fs, w, sc, s).Some?
    ensures ExecStmt(p, fuel, env, LowerStmt(fs, w, sc, s).value.stmt) == RunStmt(Decls(prog), fuel, env, s)
    decreases fuel, s, 1
  {
    hide Ready, Agrees, FrameAgrees, Decls, LowerExpr, Means, Eval, CheckExpr, Table, LowerCallStmt, RunCall, EvalArgs,
      LowerIf, RunIf, LowerBlock, ExecBlock, RunBlock, ExecRange, RunRange, Update, Declare, Invoke;
    match s
    case ExprS(e) =>
      var c := BareCall(e).value;
      CallMeans(prog, fs, p, fuel, sc, env, c.fn, c.args);
    case Bind(name, _, init, _) =>
      ExprMeans(prog, fs, p, fuel, sc, env, init);
    case AssignS(name, value) =>
      LookupAgrees(sc, env, name);
      ExprMeans(prog, fs, p, fuel, sc, env, value);
    case IfS(chain) => IfMeans(prog, fs, p, fuel, w, sc, env, chain);
    case WhileS(_, _) => WhileMeans(prog, fs, p, fuel, w, sc, env, s);
    case ForS(name, start, end, body) =>
      ExprMeans(prog, fs, p, fuel, sc, env, start);
      ExprMeans(prog, fs, p, fuel, sc, env, end);
      var a, z := Means(Decls(prog), fuel, env, start).res, Means(Decls(prog), fuel, env, end).res;
      if a.Ok? && z.Ok? {
        RangeMeans(prog, fs, p, fuel, w, sc, env, name, a.value.i, z.value.i, body);
      }
    case ReturnS(value) => ExprMeans(prog, fs, p, fuel, sc, env, value);
    case _ =>
  }

  lemma CallShape(fs: Funcs, sc: Scope, fn: string, args: seq<SExpr>)
    requires fn != "print" && LowerCallStmt(fs, sc, fn, args).Some?
    ensures fn in fs && LowerArgs(fs, sc, args, fs[fn].params).Some?
    ensures LowerCallStmt(fs, sc, fn, args) == Some(CallS(Mangle(fn), LowerArgs(fs, sc, args, fs[fn].params).value))
  {
    hide LowerArgs, Mangle;
  }

  lemma {:induction false} CallMeans(prog: seq<Top>, fs: Funcs, p: Program, fuel: nat, sc: Scope, env: Env, fn: string,
                                     args: seq<SExpr>)
    requires Ready(prog, fs, p) && env != [] && Agrees(sc, env) && LowerCallStmt(fs, sc, fn, args).Some?
    ensures ExecStmt(p, fuel, env, LowerCallStmt(fs, sc, fn, args).value) == RunCall(Decls(prog), fuel, env, fn, args)
    decreases fuel, args, 2
  {
    if fn == "print" {
      hide *;
      PrintMeans(prog, fs, p, fuel, sc, env, args);
    } else {
      hide *;
      MangledIsNoBuiltin(fn);
      CallShape(fs, sc, fn, args);
      ArgsMean(prog, fs, p, fuel, sc, env, args, fs[fn].params);
      var d, f := CalleeAt(prog, fs, p, fn);
      ExecCall(p, fuel, env, f, Mangle(fn), LowerArgs(fs, sc, args, fs[fn].params).value);
      RunCallIs(Decls(prog), fuel, env, d, fn, args);
      LoweredHead(fs, d, f);
      var vs := MeansArgs(Decls(prog), fuel, env, args).res;
      if vs.Ok? && fuel > 0 {
        InvokeMeans(prog, fs, p, fuel - 1, d, f, vs.value);
      }
    }
  }

  lemma {:induction false} PrintMeans(prog: seq<Top>, fs: Funcs, p: Program, fuel: nat, sc: Scope, env: Env,
                                      args: seq<SExpr>)
    requires Ready(prog, fs, p) && env != [] && Agrees(sc, env) && LowerCallStmt(fs, sc, "print", args).Some?
    ensures ExecStmt(p, fuel, env, LowerCallStmt(fs, sc, "print", args).value) ==
            RunCall(Decls(prog), fuel, env, "print", args)
    decreases fuel, args, 1
  {
    PrintShape(fs, sc, args);
    hide Ready, Agrees, Decls, LowerExpr, LowerCallStmt, Means, MeansArgs, Eval, EvalArgs, CheckExpr, Table, Builtin,
        PrintCalleeFor;
    ExprMeans(prog, fs, p, fuel, sc, env, args[0]);
    var e := LowerExpr(fs, sc, args[0]).value;
    OneSourceArg(Decls(prog), fuel, env, args[0]);
    OneArg(p, fuel, env, e);
    PrintCallee(e.Type());
  }

  lemma PrintShape(fs: Funcs, sc: Scope, args: seq<SExpr>)
    requires LowerCallStmt(fs, sc, "print", args).Some?
    ensures |args| == 1 && args == [args[0]] && LowerExpr(fs, sc, args[0]).Some?
    ensures var e := LowerExpr(fs, sc, args[0]).value;
            var callee := PrintCalleeFor(e.Type());
            callee.Some? && LowerCallStmt(fs, sc, "print", args) == Some(CallS(callee.value, [e]))
  {
    hide LowerExpr, PrintCalleeFor;
  }

  lemma OneSourceArg(ds: seq<FunDecl>, fuel: nat, env: Env, e: SExpr)
    ensures var v := Means(ds, fuel, env, e);
            MeansArgs(ds, fuel, env, [e]) == Run(if v.res.Stop? then Stop(v.res.halt) else Ok([v.res.value]), v.out)
  {
    hide Means;
    assert [e][1..] == [];
    assert MeansArgs(ds, fuel, env, []) == Silent(Ok([]));
    var v := Means(ds, fuel, env, e);
    assert v.out + [] == v.out;
    if v.res.Ok? {
      assert [v.res.value] + [] == [v.res.value];
    }
  }

  lemma OneArg(p: Program, fuel: nat, env: Env, e: Expr)
    ensures var v := Eval(p, fuel, env, e);
            EvalArgs(p, fuel, env, [e]) == Run(if v.res.Stop? then Stop(v.res.halt) else Ok([v.res.value]), v.out)
  {
    hide Eval;
    assert [e][1..] == [];
    assert EvalArgs(p, fuel, env, []) == Silent(Ok([]));
    var v := Eval(p, fuel, env, e);
    assert v.out + [] == v.out;
    if v.res.Ok? {
      assert [v.res.value] + [] == [v.res.value];
    }
  }

  lemma PrintCallee(t: Type)
    ensures PrintCalleeFor(t).Some? ==> Builtin(PrintCalleeFor(t).value) == Some(t)
    ensures PrintCalleeFor(t).None? <==> t == Unit
  {
  }

  lemma {:induction false} IfMeans(prog: seq<Top>, fs: Funcs, p: Program, fuel: nat, w: Where, sc: Scope, env: Env,
                                   c: IfChain)
    requires Ready(prog, fs, p) && sc != [] && env != [] && Agrees(sc, env) && LowerIf(fs, w, sc, c).Some?
    ensures ExecStmt(p, fuel, env, LowerIf(fs, w, sc, c).value) == RunIf(Decls(prog), fuel, env, c)
    decreases fuel, c, 0
  {
    hide Ready, Agrees, FrameAgrees, Decls, LowerExpr, Means, Eval, CheckExpr, Table, LowerBlock, LowerElse, ExecBlock,
        RunBlock, BlockFits;
    ExprMeans(prog, fs, p, fuel, sc, env, c.cond);
    EmptyFrames();
    BlockMeans(prog, fs, p, fuel, w, sc, env, map[], map[], c.thn);
    var els := LowerElse(fs, w, sc, c.els).value;
    match c.els
    case NoElse =>
      EmptyElse(p, fuel, w, fs, sc, env);
      assert Means(Decls(prog), fuel, env, c.cond).out + [] == Means(Decls(prog), fuel, env, c.cond).out;
    case ElseBlock(body) =>
      ElseIsBlock(fs, w, sc, body);
      BlockMeans(prog, fs, p, fuel, w, sc, env, map[], map[], body);
    case ElseIf(chain) =>
      ElseIsIf(fs, w, sc, chain);
      PushAgrees(sc, env, map[], map[]);
      IfMeans(prog, fs, p, fuel, w, [map[]] + sc, [map[]] + env, chain);
      OneStmtBlock(p, fuel, env, els[0]);
      assert els == [els[0]];
  }

  lemma EmptyElse(p: Program, fuel: nat, w: Where, fs: Funcs, sc: Scope, env: Env)
    requires sc != []
    ensures LowerElse(fs, w, sc, NoElse) == Some([]) && ExecBlock(p, fuel, env, map[], []) == Quiet(Go(env, Normal))
  {
    assert ([map[]] + env)[1..] == env;
  }

  lemma ElseIsBlock(fs: Funcs, w: Where, sc: Scope, body: seq<SStmt>)
    requires sc != []
    ensures LowerElse(fs, w, sc, ElseBlock(body)) == LowerBlock(fs, w, sc, map[], body)
  {
    hide LowerBlock;
  }

  lemma ElseIsIf(fs: Funcs, w: Where, sc: Scope, chain: IfChain)
    requires sc != []
    ensures var st := LowerIf(fs, w, [map[]] + sc, chain);
            LowerElse(fs, w, sc, ElseIf(chain)) == if st.None? then None else Some([st.value])
  {
    hide LowerIf;
  }

  lemma OneStmtBlock(p: Program, fuel: nat, env: Env, s: Stmt)
    ensures var r := ExecStmt(p, fuel, [map[]] + env, s);
            ExecBlock(p, fuel, env, map[], [s]) == Trace(Popped(r.step), r.out)
  {
    hide ExecStmt;
    assert [s][1..] == [];
    var r := ExecStmt(p, fuel, [map[]] + env, s);
    assert r.out + [] == r.out;
    if r.step.Go? {
      assert ExecSeq(p, fuel, r.step.env, []) == Quiet(Go(r.step.env, Normal));
    }
  }

  lemma {:induction false} WhileMeans(prog: seq<Top>, fs: Funcs, p: Program, fuel: nat, w: Where, sc: Scope, env: Env,
                                      s: SStmt)
    requires Ready(prog, fs, p) && sc != [] && env != [] && Agrees(sc, env) && s.WhileS?
             && LowerStmt(fs, w, sc, s).Some?
    ensures ExecStmt(p, fuel, env, LowerStmt(fs, w, sc, s).value.stmt) == RunStmt(Decls(prog), fuel, env, s)
    decreases fuel, s, 0
  {
    hide Ready, Agrees, FrameAgrees, Decls, LowerExpr, Means, Eval, CheckExpr, Table, LowerBlock, ExecBlock, RunBlock;
    ExprMeans(prog, fs, p, fuel, sc, env, s.cond);
    EmptyFrames();
    BlockMeans(prog, fs, p, fuel, Inside(w), sc, env, map[], map[], s.body);
    var b := RunBlock(Decls(prog), fuel, env, map[], s.body).step;
    if b.Go? && fuel > 0 {
      WhileMeans(prog, fs, p, fuel - 1, w, sc, b.env, s);
    }
  }

  lemma {:induction false} RangeMeans(prog: seq<Top>, fs: Funcs, p: Program, fuel: nat, w: Where, sc: Scope, env: Env,
                                      name: string, lo: int, hi: int, body: seq<SStmt>)
    requires Ready(prog, fs, p) && sc != [] && env != [] && Agrees(sc, env)
    requires LowerBlock(fs, Inside(w), sc, map[name := Binding(Int, false)], body).Some?
    ensures ExecRange(p, fuel, env, name, lo, hi,
                      LowerBlock(fs, Inside(w), sc, map[name := Binding(Int, false)], body).value)
         == RunRange(Decls(prog), fuel, env, name, lo, hi, body)
    decreases fuel, body, 2, hi - lo
  {
    hide Ready, Agrees, Decls, LowerBlock, ExecBlock, RunBlock;
    if lo < hi {
      var frame := map[name := Cell(IntV(lo), false)];
      BlockMeans(prog, fs, p, fuel, Inside(w), sc, env, map[name := Binding(Int, false)], frame, body);
      var b := RunBlock(Decls(prog), fuel, env, frame, body).step;
      if b.Go? {
        RangeMeans(prog, fs, p, fuel, w, sc, b.env, name, lo + 1, hi, body);
      }
    }
  }

  // --- The theorem ---

  // For every accepted source program and every fuel, the lowered program
  // prints exactly what the source program prints and ends as it ends.
  lemma LoweringPreservesMeaning(prog: seq<Top>, fuel: nat)
    requires LowerProgram(prog).Some?
    ensures var p := LowerProgram(prog).value;
            && 0 <= p.main < |p.functions|
            && RunProgram(p, fuel) == RunSource(prog, fuel)
  {
    IsCompiled(prog);
    var p, fs := LowerProgram(prog).value, Collect(Decls(prog)).value;
    hide LowerProgram, Collect, Decls, ScriptOf, Compiled, Table, Matches;
    LoweredProgramVerifies(prog);
    CompiledReady(prog, fs, p);
    CompiledShape(prog, fs, p);
    VerifiedProgramsNeverGetStuck(p, fuel);
    hide Accepts;
    MainMeans(prog, fs, p, fuel);
  }

  lemma CompiledReady(prog: seq<Top>, fs: Funcs, p: Program)
    requires Compiled(prog, fs, p)
    ensures Ready(prog, fs, p)
  {
    assert LowerProgram(prog) == Some(p);
    hide LowerProgram, Collect, Decls, Compiled, Table, Matches, Accepts;
    LoweredProgramVerifies(prog);
    CompiledMatches(prog, fs, p);
  }

  lemma MainMeans(prog: seq<Top>, fs: Funcs, p: Program, fuel: nat)
    requires Ready(prog, fs, p)
    ensures 0 <= p.main < |p.functions| && RunProgram(p, fuel) == RunSource(prog, fuel)
  {
    hide *;
    ReadyMain(prog, fs, p, fuel);
    SeqMeans(prog, fs, p, fuel, Where(Unit, 0), [map[]], [map[]], ScriptOf(prog));
    MainIs(prog, p, fuel);
  }

  lemma ReadyMain(prog: seq<Top>, fs: Funcs, p: Program, fuel: nat)
    requires Ready(prog, fs, p)
    ensures 0 <= p.main < |p.functions| && Agrees([map[]], [map[]])
    ensures var m := LowerSeq(fs, Where(Unit, 0), [map[]], ScriptOf(prog));
            m.Some? && p.functions[p.main] == Function("main", [], Unit, m.value.stmts)
    ensures !(RunProgram(p, fuel).res.Stop? && RunProgram(p, fuel).res.halt.Stuck?)
  {
    CompiledShape(prog, fs, p);
    EmptyFrames();
    OneFrame([map[]], [map[]]);
    hide Compiled, Accepts, Matches, RunProgram;
    VerifiedProgramsNeverGetStuck(p, fuel);
  }

  lemma MainIs(prog: seq<Top>, p: Program, fuel: nat)
    requires 0 <= p.main < |p.functions|
    requires var f := p.functions[p.main];
             && f == Function("main", [], Unit, f.body)
             && ExecSeq(p, fuel, [map[]], f.body) == RunSeq(Decls(prog), fuel, [map[]], ScriptOf(prog))
    requires !(RunProgram(p, fuel).res.Stop? && RunProgram(p, fuel).res.halt.Stuck?)
    ensures RunProgram(p, fuel) == RunSource(prog, fuel)
  {
    assert ParamFrame([], []) == map[];
    hide ExecSeq, RunSeq, Decls, ScriptOf, ParamFrame;
  }

  // So an accepted source program cannot go wrong either.
  lemma AcceptedSourceNeverGetsStuck(prog: seq<Top>, fuel: nat)
    requires LowerProgram(prog).Some?
    ensures var r := RunSource(prog, fuel).res;
            r == Ok(UnitV) || r == Stop(Trap) || r == Stop(FellOff) || r == Stop(OutOfFuel)
  {
    hide LowerProgram, RunProgram, RunSource, Accepts;
    LoweredProgramVerifies(prog);
    LoweringPreservesMeaning(prog, fuel);
    VerifiedProgramsNeverGetStuck(LowerProgram(prog).value, fuel);
  }
}
