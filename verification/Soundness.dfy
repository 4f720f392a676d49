/**
 * Soundness of the verifier: a program that Verify accepts never gets stuck,
 * with any amount of fuel.  The invariant carried through every step is that
 * the run-time chain of cells mirrors the static chain of bindings.
 */
module Soundness {
  import opened Options
  import opened IR
  import opened Verifier

  // A frame of cells mirrors a frame of bindings.
  ghost predicate FrameAgrees(b: map<string, Binding>, c: map<string, Cell>) {
    && b.Keys == c.Keys
    && forall n :: n in b ==> c[n].value.Type() == b[n].t && c[n].mutable == b[n].mutable
  }

  ghost predicate Agrees(sc: Scope, env: Env) {
    && |sc| == |env|
    && forall k :: 0 <= k < |sc| ==> FrameAgrees(sc[k], env[k])
  }

  lemma {:induction false} LookupAgrees(sc: Scope, env: Env, name: string)
    requires Agrees(sc, env)
    ensures Lookup(sc, name).Some? == Lookup(env, name).Some?
    ensures Lookup(sc, name).Some? ==>
              var b, c := Lookup(sc, name).value, Lookup(env, name).value;
              c.value.Type() == b.t && c.mutable == b.mutable
  {
    if sc != [] {
      assert FrameAgrees(sc[0], env[0]);
      if name !in sc[0] {
        LookupAgrees(sc[1..], env[1..], name);
      }
    }
  }

  lemma {:induction false} UpdateAgrees(sc: Scope, env: Env, name: string, v: Value)
    requires Agrees(sc, env)
    requires Lookup(sc, name) == Some(Binding(v.Type(), true))
    ensures Agrees(sc, Update(env, name, Cell(v, true)))
  {
    assert FrameAgrees(sc[0], env[0]);
    if name in sc[0] {
      assert FrameAgrees(sc[0], env[0][name := Cell(v, true)]);
    } else {
      UpdateAgrees(sc[1..], env[1..], name, v);
      hide FrameAgrees, Update;
      PushAgrees(sc[1..], Update(env[1..], name, Cell(v, true)), sc[0], env[0]);
      assert [sc[0]] + sc[1..] == sc;
    }
  }

  lemma DeclareAgrees(sc: Scope, env: Env, name: string, v: Value, mutable: bool)
    requires Agrees(sc, env) && sc != []
    ensures Agrees(Declare(sc, name, Binding(v.Type(), mutable)), Declare(env, name, Cell(v, mutable)))
  {
    assert FrameAgrees(sc[0], env[0]);
  }

  lemma PushAgrees(sc: Scope, env: Env, b: map<string, Binding>, c: map<string, Cell>)
    requires Agrees(sc, env) && FrameAgrees(b, c)
    ensures Agrees([b] + sc, [c] + env)
  {
  }

  lemma PopAgrees(sc: Scope, env: Env)
    requires Agrees(sc, env) && sc != []
    ensures Agrees(sc[1..], env[1..])
  {
  }

  lemma {:induction false} ParamsAgree(ps: seq<Param>, vs: seq<Value>)
    requires ArgsFit(ps, vs)
    ensures FrameAgrees(ParamScope(ps), ParamFrame(ps, vs))
  {
    if ps != [] {
      ParamsAgree(ps[..|ps| - 1], vs[..|ps| - 1]);
    }
  }

  // --- Operators ---

  // A result of the right type or a halt that is not a fault.
  predicate Fits(r: Result<Value>, t: Type) {
    match r
    case Ok(v) => v.Type() == t
    case Stop(h) => !h.Stuck?
  }

  // The signature table and the operators agree.
  lemma ApplySound(op: BinOp, a: Value, b: Value)
    requires a.Type() == BinOpSignature(op).left && b.Type() == BinOpSignature(op).right
    ensures Fits(Apply(op, a, b), BinOpSignature(op).res)
  {
  }

  lemma NegateSound(op: UnOp, a: Value)
    requires a.Type() == UnOpSignature(op)
    ensures Fits(Negate(op, a), UnOpSignature(op))
  {
  }

  // --- The name table ---

  // With unique names the table and the interpreter's search agree.
  lemma {:induction false} TableFinds(fs: seq<Function>, fn: string)
    requires NamesOk(fs)
    ensures (fn in SigsOf(fs)) == FindFunction(fs, fn).Some?
    ensures fn in SigsOf(fs) ==> SigsOf(fs)[fn] == SigOf(FindFunction(fs, fn).value)
  {
    hide SigOf;
    if fs != [] {
      var k := |fs| - 1;
      TableFinds(fs[..k], fn);
      FindLast(fs, fn);
    }
  }

  // The search over one more function at the end.
  lemma {:induction false} FindLast(fs: seq<Function>, fn: string)
    requires fs != []
    ensures var before := FindFunction(fs[..|fs| - 1], fn);
            FindFunction(fs, fn) ==
              if before.Some? then before
              else if fs[|fs| - 1].name == fn then Some(fs[|fs| - 1]) else None
  {
    if |fs| > 1 {
      FindLast(fs[1..], fn);
      assert fs[1..][..|fs| - 2] == fs[..|fs| - 1][1..];
    }
  }

  function Table(p: Program): (fns: Fns) { SigsOf(p.functions) }

  // --- The mutual soundness lemmas ---

  lemma {:induction false} EvalSound(p: Program, fuel: nat, sc: Scope, env: Env, e: Expr)
    requires Accepts(p) && Agrees(sc, env) && CheckExpr(Table(p), sc, e)
    ensures Fits(Eval(p, fuel, env, e).res, e.Type())
    decreases fuel, e, 0
  {
    hide Accepts, Agrees, Table, BinOpSignature, Apply, Negate;
    match e
    case VarRef(name, _) =>
      LookupAgrees(sc, env, name);
    case Binary(op, left, right, _) =>
      EvalSound(p, fuel, sc, env, left);
      EvalSound(p, fuel, sc, env, right);
      var a, b := Eval(p, fuel, env, left).res, Eval(p, fuel, env, right).res;
      if a.Ok? && b.Ok? {
        ApplySound(op, a.value, b.value);
      }
      if a.Ok? && Decides(op, a.value) {
        DecidesSound(op);
      }
    case Unary(op, operand, _) =>
      EvalSound(p, fuel, sc, env, operand);
      var a := Eval(p, fuel, env, operand).res;
      if a.Ok? {
        NegateSound(op, a.value);
      }
    case CallE(fn, args, _) =>
      CalleeFound(p, fn);
      var f := FindFunction(p.functions, fn).value;
      var vs := EvalArgs(p, fuel, env, args).res;
      EvalArgsSound(p, fuel, sc, env, args, ParamTypes(f.params));
      if fuel > 0 && vs.Ok? {
        InvokeSound(p, fuel - 1, f, vs.value);
      }
    case _ =>
  }

  lemma CalleeFound(p: Program, fn: string)
    requires Accepts(p) && fn in Table(p)
    ensures var f := FindFunction(p.functions, fn);
            f.Some? && Table(p)[fn] == SigOf(f.value) && CheckFunction(Table(p), f.value)
  {
    TableFinds(p.functions, fn);
  }

  lemma DecidesSound(op: BinOp)
    ensures op == AndBool || op == OrBool ==> BinOpSignature(op).res == Bool
  {
  }

  // Values of the listed types, or a halt that is not a fault.
  predicate ArgsResult(r: Result<seq<Value>>, ts: seq<Type>) {
    match r
    case Ok(vs) => |vs| == |ts| && forall k :: 0 <= k < |ts| ==> vs[k].Type() == ts[k]
    case Stop(h) => !h.Stuck?
  }

  lemma {:induction false} EvalArgsSound(p: Program, fuel: nat, sc: Scope, env: Env, es: seq<Expr>, ts: seq<Type>)
    requires Accepts(p) && Agrees(sc, env) && CheckArgs(Table(p), sc, es, ts)
    ensures ArgsResult(EvalArgs(p, fuel, env, es).res, ts)
    decreases fuel, es, 0
  {
    hide Accepts, Agrees, Table, CheckExpr, Eval;
    if es != [] {
      EvalSound(p, fuel, sc, env, es[0]);
      EvalArgsSound(p, fuel, sc, env, es[1..], ts[1..]);
      var v, vs := Eval(p, fuel, env, es[0]).res, EvalArgs(p, fuel, env, es[1..]).res;
      if v.Ok? && vs.Ok? {
        assert forall k :: 1 <= k < |ts| ==> ts[k] == ts[1..][k - 1];
      }
    }
  }

  lemma {:induction false} InvokeSound(p: Program, fuel: nat, f: Function, vs: seq<Value>)
    requires Accepts(p) && f in p.functions && ArgsFit(f.params, vs)
    ensures Fits(Invoke(p, fuel, f, vs).res, f.ret)
    decreases fuel, f, 1
  {
    hide ExecSeq, CheckSeq, ParamScope, ParamFrame, Agrees;
    assert CheckFunction(Table(p), f);
    ParamsAgree(f.params, vs);
    var sc, env := [ParamScope(f.params)], [ParamFrame(f.params, vs)];
    OneFrame(sc, env);
    SeqSound(p, fuel, Where(f.ret, 0), sc, env, f.body);
  }

  lemma OneFrame(sc: Scope, env: Env)
    requires |sc| == |env| == 1 && FrameAgrees(sc[0], env[0])
    ensures Agrees(sc, env)
  {
  }

  // What a statement may do: end normally with the chains in agreement over
  // the scope it leaves; jump or return, with the outer frames in agreement,
  // only where that is allowed; or halt without a fault.
  ghost predicate StepFits(w: Where, before: Scope, after: Scope, r: Step)
    requires before != []
  {
    match r
    case Halted(h) => !h.Stuck?
    case Go(env, Normal) => Agrees(after, env)
    case Go(env, Ret(v)) => v.Type() == w.ret && env != [] && Agrees(before[1..], env[1..])
    case Go(env, _) => w.depth > 0 && env != [] && Agrees(before[1..], env[1..])
  }

  lemma {:induction false} SeqSound(p: Program, fuel: nat, w: Where, sc: Scope, env: Env, ss: seq<Stmt>)
    requires Accepts(p) && Agrees(sc, env) && sc != [] && CheckSeq(Table(p), w, sc, ss).Some?
    ensures StepFits(w, sc, CheckSeq(Table(p), w, sc, ss).value, ExecSeq(p, fuel, env, ss).step)
    decreases fuel, ss, 0
  {
    assert env != [];
    hide Accepts, Agrees, Table, CheckStmt, ExecStmt;
    if ss != [] {
      StmtSound(p, fuel, w, sc, env, ss[0]);
      var s := ExecStmt(p, fuel, env, ss[0]).step;
      var mid := CheckStmt(Table(p), w, sc, ss[0]).value;
      if s.Go? && s.flow == Normal {
        SeqSound(p, fuel, w, mid, s.env, ss[1..]);
      }
    }
  }

  // A block leaves the scope as it was.
  lemma {:induction false} BlockSound(p: Program, fuel: nat, w: Where, sc: Scope, env: Env,
                                      b: map<string, Binding>, c: map<string, Cell>, ss: seq<Stmt>)
    requires Accepts(p) && Agrees(sc, env) && sc != [] && FrameAgrees(b, c) && CheckBlock(Table(p), w, sc, b, ss)
    ensures BlockFits(w, sc, ExecBlock(p, fuel, env, c, ss).step)
    decreases fuel, ss, 1
  {
    hide Accepts, Agrees, Table, FrameAgrees, CheckSeq, ExecSeq;
    PushAgrees(sc, env, b, c);
    SeqSound(p, fuel, w, [b] + sc, [c] + env, ss);
    var s := ExecSeq(p, fuel, [c] + env, ss).step;
    assert ([b] + sc)[1..] == sc;
    if s.Go? && s.flow == Normal {
      PopAgrees(CheckSeq(Table(p), w, [b] + sc, ss).value, s.env);
    }
  }

  ghost predicate BlockFits(w: Where, sc: Scope, r: Step) {
    match r
    case Halted(h) => !h.Stuck?
    case Go(env, flow) =>
      && Agrees(sc, env)
      && (flow.Ret? ==> flow.value.Type() == w.ret)
      && (flow.Brk? || flow.Cont? ==> w.depth > 0)
  }

  // What a block may do, its statement may do.
  lemma BlockStep(w: Where, sc: Scope, r: Step)
    requires sc != [] && BlockFits(w, sc, r)
    ensures StepFits(w, sc, sc, r)
  {
  }

  lemma {:induction false} StmtSound(p: Program, fuel: nat, w: Where, sc: Scope, env: Env, s: Stmt)
    requires Accepts(p) && Agrees(sc, env) && sc != [] && CheckStmt(Table(p), w, sc, s).Some?
    ensures StepFits(w, sc, CheckStmt(Table(p), w, sc, s).value, ExecStmt(p, fuel, env, s).step)
    decreases fuel, s, 1
  {
    hide Accepts, Agrees, Table, FrameAgrees, CheckExpr, CheckArgs, Eval, EvalArgs, CheckBlock, ExecBlock, ExecRange;
    match s
    case CallS(fn, args) => CallSound(p, fuel, w, sc, env, s);
    case Let(name, t, init, mutable) =>
      EvalSound(p, fuel, sc, env, init);
      FirstFrame(sc, env);
      var v := EvalAs(p, fuel, env, init, t).res;
      if v.Ok? {
        DeclareAgrees(sc, env, name, v.value, mutable);
      }
    case Predeclare(name, t, _) =>
      FirstFrame(sc, env);
      DeclareAgrees(sc, env, name, Default(t), true);
    case Assign(name, value) =>
      LookupAgrees(sc, env, name);
      EvalSound(p, fuel, sc, env, value);
      var v := Eval(p, fuel, env, value).res;
      if v.Ok? {
        UpdateAgrees(sc, env, name, v.value);
      }
    case If(cond, thn, els) =>
      EvalSound(p, fuel, sc, env, cond);
      EmptyFrames();
      BlockSound(p, fuel, w, sc, env, map[], map[], thn);
      BlockSound(p, fuel, w, sc, env, map[], map[], els);
      BlockStep(w, sc, ExecBlock(p, fuel, env, map[], thn).step);
      BlockStep(w, sc, ExecBlock(p, fuel, env, map[], els).step);
    case While(cond, body) => WhileSound(p, fuel, w, sc, env, s);
    case ForRange(name, start, end, body) =>
      EvalSound(p, fuel, sc, env, start);
      EvalSound(p, fuel, sc, env, end);
      var a, b := EvalAs(p, fuel, env, start, Int).res, EvalAs(p, fuel, env, end, Int).res;
      if a.Ok? && b.Ok? {
        RangeSound(p, fuel, w, sc, env, name, a.value.i, b.value.i, body);
      }
    case Return(value) =>
      EvalSound(p, fuel, sc, env, value);
      FirstFrame(sc, env);
    case _ => FirstFrame(sc, env);
  }

  lemma FirstFrame(sc: Scope, env: Env)
    requires Agrees(sc, env) && sc != []
    ensures env != [] && sc[0].Keys == env[0].Keys && Agrees(sc[1..], env[1..])
  {
    assert FrameAgrees(sc[0], env[0]);
  }

  lemma EmptyFrames()
    ensures FrameAgrees(map[], map[])
  {
  }

  lemma {:induction false} CallSound(p: Program, fuel: nat, w: Where, sc: Scope, env: Env, s: Stmt)
    requires Accepts(p) && Agrees(sc, env) && sc != [] && s.CallS? && CheckStmt(Table(p), w, sc, s).Some?
    ensures StepFits(w, sc, sc, ExecStmt(p, fuel, env, s).step)
    decreases fuel, s, 0
  {
    hide Accepts, Agrees, Table, CheckArgs, EvalArgs, Builtin, Invoke;
    var ts := ResolveCallSig(Table(p), s.fn).value;
    EvalArgsSound(p, fuel, sc, env, s.args, ts);
    var vs := EvalArgs(p, fuel, env, s.args).res;
    if Builtin(s.fn).None? {
      CalleeFound(p, s.fn);
    }
    if Builtin(s.fn).None? && fuel > 0 && vs.Ok? {
      InvokeSound(p, fuel - 1, FindFunction(p.functions, s.fn).value, vs.value);
    }
  }

  lemma {:induction false} WhileSound(p: Program, fuel: nat, w: Where, sc: Scope, env: Env, s: Stmt)
    requires Accepts(p) && Agrees(sc, env) && sc != [] && s.While? && CheckStmt(Table(p), w, sc, s).Some?
    ensures StepFits(w, sc, sc, ExecStmt(p, fuel, env, s).step)
    decreases fuel, s, 0
  {
    assert env != [];
    hide Accepts, Agrees, Table, CheckExpr, Eval, CheckBlock, ExecBlock, ExecStmt;
    EvalSound(p, fuel, sc, env, s.cond);
    EmptyFrames();
    BlockSound(p, fuel, Inside(w), sc, env, map[], map[], s.body);
    WhileStep(p, fuel, env, s);
    var b := ExecBlock(p, fuel, env, map[], s.body).step;
    if b.Go? {
      PopAgrees(sc, b.env);
      if fuel > 0 && (b.flow.Normal? || b.flow.Cont?) {
        WhileSound(p, fuel - 1, w, sc, b.env, s);
      }
    }
  }

  // One round of a while loop, without what it prints.
  lemma WhileStep(p: Program, fuel: nat, env: Env, s: Stmt)
    requires env != [] && s.While?
    ensures var c := EvalAs(p, fuel, env, s.cond, Bool).res;
            var b := ExecBlock(p, fuel, env, map[], s.body).step;
            ExecStmt(p, fuel, env, s).step ==
              if c.Stop? then Halted(c.halt)
              else if !c.value.b then Go(env, Normal)
              else if b.Halted? || b.flow.Ret? then b
              else if b.flow.Brk? then Go(b.env, Normal)
              else if fuel == 0 then Halted(OutOfFuel)
              else ExecStmt(p, fuel - 1, b.env, s).step
  {
    hide Eval, ExecBlock;
  }

  lemma {:induction false} RangeSound(p: Program, fuel: nat, w: Where, sc: Scope, env: Env,
                                      name: string, lo: int, hi: int, body: seq<Stmt>)
    requires Accepts(p) && Agrees(sc, env) && sc != []
    requires CheckBlock(Table(p), Inside(w), sc, map[name := Binding(Int, false)], body)
    ensures StepFits(w, sc, sc, ExecRange(p, fuel, env, name, lo, hi, body).step)
    decreases fuel, body, 2, hi - lo
  {
    assert env != [];
    hide Accepts, Agrees, Table, CheckBlock, ExecBlock;
    if lo < hi {
      var frame := map[name := Cell(IntV(lo), false)];
      BlockSound(p, fuel, Inside(w), sc, env, map[name := Binding(Int, false)], frame, body);
      var b := ExecBlock(p, fuel, env, frame, body).step;
      if b.Go? {
        PopAgrees(sc, b.env);
        if b.flow.Normal? || b.flow.Cont? {
          RangeSound(p, fuel, w, sc, b.env, name, lo + 1, hi, body);
        }
      }
    }
  }

  // Whatever the fuel, a run of an accepted program finishes, traps on a zero
  // divisor, falls off the end of a function that had to return a value, or
  // runs out of fuel.
  lemma VerifiedProgramsNeverGetStuck(p: Program, fuel: nat)
    requires Accepts(p)
    ensures var r := RunProgram(p, fuel).res;
            r == Ok(UnitV) || r == Stop(Trap) || r == Stop(FellOff) || r == Stop(OutOfFuel)
  {
    hide Invoke;
    InvokeSound(p, fuel, p.functions[p.main], []);
  }
}
