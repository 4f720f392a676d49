/**
 * Fuel only decides how far a run gets: a run of the IR that ends otherwise
 * than by running out of fuel prints and ends in the same way with more fuel,
 * and what a run that is cut short printed is how the longer run begins.
 */
module Fuel {
  import opened IR

  predicate SameOrShort<T(==)>(r: Run<T>, more: Run<T>) {
    r == more || (r.res == Stop(OutOfFuel) && r.out <= more.out)
  }

  predicate StepSameOrShort(r: Trace, more: Trace) {
    r == more || (r.step == Halted(OutOfFuel) && r.out <= more.out)
  }

  lemma {:induction false} EvalMore(p: Program, fuel: nat, env: Env, e: Expr)
    ensures SameOrShort(Eval(p, fuel, env, e), Eval(p, fuel + 1, env, e))
    decreases fuel, e, 0
  {
    hide Apply, Negate, Invoke;
    match e
    case Binary(_, left, right, _) =>
      EvalMore(p, fuel, env, left);
      EvalMore(p, fuel, env, right);
    case Unary(_, operand, _) => EvalMore(p, fuel, env, operand);
    case CallE(fn, args, _) =>
      EvalArgsMore(p, fuel, env, args);
      var vs, f := EvalArgs(p, fuel, env, args), FindFunction(p.functions, fn);
      if fuel > 0 && vs.res.Ok? && f.Some? {
        InvokeMore(p, fuel - 1, f.value, vs.res.value);
      }
    case _ =>
  }

  lemma {:induction false} EvalArgsMore(p: Program, fuel: nat, env: Env, es: seq<Expr>)
    ensures SameOrShort(EvalArgs(p, fuel, env, es), EvalArgs(p, fuel + 1, env, es))
    decreases fuel, es, 0
  {
    hide Eval;
    if es != [] {
      EvalMore(p, fuel, env, es[0]);
      EvalArgsMore(p, fuel, env, es[1..]);
    }
  }

  lemma {:induction false} InvokeMore(p: Program, fuel: nat, f: Function, vs: seq<Value>)
    ensures SameOrShort(Invoke(p, fuel, f, vs), Invoke(p, fuel + 1, f, vs))
    decreases fuel, f, 1
  {
    hide ExecSeq;
    if ArgsFit(f.params, vs) {
      SeqMore(p, fuel, [ParamFrame(f.params, vs)], f.body);
    }
  }

  lemma {:induction false} SeqMore(p: Program, fuel: nat, env: Env, ss: seq<Stmt>)
    requires env != []
    ensures StepSameOrShort(ExecSeq(p, fuel, env, ss), ExecSeq(p, fuel + 1, env, ss))
    decreases fuel, ss, 0
  {
    hide ExecStmt;
    if ss != [] {
      StmtMore(p, fuel, env, ss[0]);
      var s := ExecStmt(p, fuel, env, ss[0]).step;
      if s.Go? && s.flow == Normal {
        SeqMore(p, fuel, s.env, ss[1..]);
      }
    }
  }

  lemma {:induction false} BlockMore(p: Program, fuel: nat, env: Env, frame: map<string, Cell>, ss: seq<Stmt>)
    ensures StepSameOrShort(ExecBlock(p, fuel, env, frame, ss), ExecBlock(p, fuel + 1, env, frame, ss))
    decreases fuel, ss, 1
  {
    hide ExecSeq;
    SeqMore(p, fuel, [frame] + env, ss);
  }

  lemma {:induction false} StmtMore(p: Program, fuel: nat, env: Env, s: Stmt)
    requires env != []
    ensures StepSameOrShort(ExecStmt(p, fuel, env, s), ExecStmt(p, fuel + 1, env, s))
    decreases fuel, s, 1
  {
    hide Eval, EvalArgs, ExecBlock, ExecRange, Invoke, Lookup, Update, Declare, Builtin;
    match s
    case CallS(_, _) => CallMore(p, fuel, env, s);
    case Let(_, _, init, _) => EvalMore(p, fuel, env, init);
    case Assign(_, value) => EvalMore(p, fuel, env, value);
    case If(cond, thn, els) =>
      EvalMore(p, fuel, env, cond);
      BlockMore(p, fuel, env, map[], thn);
      BlockMore(p, fuel, env, map[], els);
    case While(_, _) => WhileMore(p, fuel, env, s);
    case ForRange(_, _, _, _) => ForMore(p, fuel, env, s);
    case Return(value) => EvalMore(p, fuel, env, value);
    case _ =>
  }

  lemma {:induction false} CallMore(p: Program, fuel: nat, env: Env, s: Stmt)
    requires env != [] && s.CallS?
    ensures StepSameOrShort(ExecStmt(p, fuel, env, s), ExecStmt(p, fuel + 1, env, s))
    decreases fuel, s, 0
  {
    hide EvalArgs, Invoke, Builtin;
    EvalArgsMore(p, fuel, env, s.args);
    var vs, f := EvalArgs(p, fuel, env, s.args), FindFunction(p.functions, s.fn);
    if fuel > 0 && vs.res.Ok? && f.Some? {
      InvokeMore(p, fuel - 1, f.value, vs.res.value);
    }
  }

  lemma {:induction false} ForMore(p: Program, fuel: nat, env: Env, s: Stmt)
    requires env != [] && s.ForRange?
    ensures StepSameOrShort(ExecStmt(p, fuel, env, s), ExecStmt(p, fuel + 1, env, s))
    decreases fuel, s, 0
  {
    hide Eval, ExecRange;
    EvalMore(p, fuel, env, s.start);
    EvalMore(p, fuel, env, s.end);
    var a, b := EvalAs(p, fuel, env, s.start, Int).res, EvalAs(p, fuel, env, s.end, Int).res;
    if a.Ok? && b.Ok? {
      RangeMore(p, fuel, env, s.name, a.value.i, b.value.i, s.body);
    }
  }

  lemma {:induction false} WhileMore(p: Program, fuel: nat, env: Env, s: Stmt)
    requires env != [] && s.While?
    ensures StepSameOrShort(ExecStmt(p, fuel, env, s), ExecStmt(p, fuel + 1, env, s))
    decreases fuel, s, 0
  {
    hide Eval, ExecBlock;
    EvalMore(p, fuel, env, s.cond);
    BlockMore(p, fuel, env, map[], s.body);
    var b := ExecBlock(p, fuel, env, map[], s.body).step;
    if b.Go? && fuel > 0 {
      WhileMore(p, fuel - 1, b.env, s);
    }
  }

  lemma {:induction false} RangeMore(p: Program, fuel: nat, env: Env, name: string, lo: int, hi: int, body: seq<Stmt>)
    requires env != []
    ensures StepSameOrShort(ExecRange(p, fuel, env, name, lo, hi, body),
                            ExecRange(p, fuel + 1, env, name, lo, hi, body))
    decreases fuel, body, 2, hi - lo
  {
    hide ExecBlock;
    if lo < hi {
      var frame := map[name := Cell(IntV(lo), false)];
      BlockMore(p, fuel, env, frame, body);
      var b := ExecBlock(p, fuel, env, frame, body).step;
      if b.Go? {
        RangeMore(p, fuel, b.env, name, lo + 1, hi, body);
      }
    }
  }

  lemma {:induction false} FuelOnlyDelays(p: Program, fuel: nat, more: nat)
    requires 0 <= p.main < |p.functions| && fuel <= more
    ensures RunProgram(p, fuel).res != Stop(OutOfFuel) ==> RunProgram(p, fuel) == RunProgram(p, more)
    ensures RunProgram(p, fuel).out <= RunProgram(p, more).out
    decreases more - fuel
  {
    hide Invoke;
    if fuel < more {
      InvokeMore(p, fuel, p.functions[p.main], []);
      FuelOnlyDelays(p, fuel + 1, more);
    }
  }
}
