/**
 * The scalar fragment of the typed IR (internal/aotir/program.go) and what
 * running it means.
 *
 * The interpreter spends fuel on calls and on `while` rounds only.  It is
 * defensive: whatever a well-formed program must never do (read an unbound
 * name, apply an operator to the wrong operands, write an immutable binding,
 * let `break` leave its function, ...) ends the run as `Stuck`, so that a
 * soundness theorem has something to exclude.  Arithmetic is that of the BEAM
 * back end: unbounded integers, division truncating toward zero, a trap on a
 * zero divisor.  Floats are reals.
 */
module IR {
  import opened Options

  datatype Type = Unit | Str | Int | Float | Bool

  datatype BinOp =
    | AddI64 | SubI64 | MulI64 | DivI64 | ModI64
    | AddF64 | SubF64 | MulF64 | DivF64
    | EqI64 | NeI64 | LtI64 | LeI64 | GtI64 | GeI64
    | EqF64 | NeF64 | LtF64 | LeF64 | GtF64 | GeF64
    | EqBool | NeBool | AndBool | OrBool
    | EqStr | NeStr | StrCat

  datatype UnOp = NegI64 | NegF64 | NotBool

  // Every node carries the type the lowerer recorded for it.
  datatype Expr =
    | StrLit(s: string)
    | IntLit(i: int)
    | FloatLit(f: real)
    | BoolLit(b: bool)
    | VarRef(name: string, t: Type)
    | Binary(op: BinOp, left: Expr, right: Expr, res: Type)
    | Unary(uop: UnOp, operand: Expr, res: Type)
    | CallE(fn: string, args: seq<Expr>, res: Type)
  {
    function Type(): (t: Type) {
      match this
      case StrLit(_) => Str
      case IntLit(_) => Int
      case FloatLit(_) => Float
      case BoolLit(_) => Bool
      case VarRef(_, t) => t
      case Binary(_, _, _, t) => t
      case Unary(_, _, t) => t
      case CallE(_, _, t) => t
    }
  }

  // `Predeclare` is a LetStmt whose Init is nil, `ReturnUnit` a ReturnStmt
  // whose Value is nil, and an `If` without else arm has an empty one.
  datatype Stmt =
    | CallS(fn: string, args: seq<Expr>)
    | Let(name: string, t: Type, init: Expr, mutable: bool)
    | Predeclare(name: string, t: Type, mutable: bool)
    | Assign(name: string, value: Expr)
    | If(cond: Expr, thn: seq<Stmt>, els: seq<Stmt>)
    | While(cond: Expr, body: seq<Stmt>)
    | ForRange(name: string, start: Expr, end: Expr, body: seq<Stmt>)
    | Break
    | Continue
    | Return(value: Expr)
    | ReturnUnit

  datatype Param = Param(name: string, t: Type)
  datatype Function = Function(name: string, params: seq<Param>, ret: Type, body: seq<Stmt>)
  datatype Program = Program(functions: seq<Function>, main: int)

  // The callables that resolve without a Function entry.
  function Builtin(name: string): (r: Option<Type>) {
    if name == "mochi_print_str" then Some(Str)
    else if name == "mochi_print_i64" then Some(Int)
    else if name == "mochi_print_f64" then Some(Float)
    else if name == "mochi_print_bool" then Some(Bool)
    else None
  }

  // A chain of lexical frames, innermost first: the verifier keeps bindings
  // in it, the interpreter cells.
  type Chain<T> = seq<map<string, T>>

  function Lookup<K, T>(c: seq<map<K, T>>, name: K): (r: Option<T>) {
    if c == [] then None
    else if name in c[0] then Some(c[0][name])
    else Lookup(c[1..], name)
  }

  // Rewrites the innermost frame that has the name.
  function Update<K, T>(c: seq<map<K, T>>, name: K, x: T): (r: seq<map<K, T>>)
    ensures |r| == |c|
  {
    if c == [] then []
    else if name in c[0] then [c[0][name := x]] + c[1..]
    else [c[0]] + Update(c[1..], name, x)
  }

  function Declare<K, T>(c: seq<map<K, T>>, name: K, x: T): (r: seq<map<K, T>>)
    requires c != []
    ensures |r| == |c| && r[1..] == c[1..]
  {
    [c[0][name := x]] + c[1..]
  }

  // --- Running ---

  datatype Value = UnitV | StrV(s: string) | IntV(i: int) | FloatV(f: real) | BoolV(b: bool)
  {
    function Type(): (t: Type) {
      match this
      case UnitV => Unit
      case StrV(_) => Str
      case IntV(_) => Int
      case FloatV(_) => Float
      case BoolV(_) => Bool
    }
  }

  function Default(t: Type): (v: Value)
    ensures v.Type() == t
  {
    match t
    case Unit => UnitV
    case Str => StrV([])
    case Int => IntV(0)
    case Float => FloatV(0.0)
    case Bool => BoolV(false)
  }

  datatype Fault =
    | Unbound | IllTyped | Rebound | Immutable | Uninitialised
    | NoCallee | WrongArgs | EscapedJump | WrongReturn

  // How a run can end early.
  datatype Halt = Trap | OutOfFuel | FellOff | Stuck(fault: Fault)

  datatype Result<+T> = Ok(value: T) | Stop(halt: Halt)

  datatype Cell = Cell(value: Value, mutable: bool)
  type Env = Chain<Cell>

  datatype Flow = Normal | Brk | Cont | Ret(value: Value)
  datatype Step = Go(env: Env, flow: Flow) | Halted(halt: Halt)

  // What a run comes to, with everything it printed on the way.
  datatype Run<+T> = Run(res: Result<T>, out: seq<Value>)
  datatype Trace = Trace(step: Step, out: seq<Value>)

  // A run that goes on after something was printed.
  function After<T>(out: seq<Value>, r: Run<T>): (q: Run<T>) { Run(r.res, out + r.out) }
  function Then(out: seq<Value>, t: Trace): (q: Trace) { Trace(t.step, out + t.out) }

  function Silent<T>(r: Result<T>): (q: Run<T>) { Run(r, []) }
  function Quiet(s: Step): (t: Trace) { Trace(s, []) }

  function Quot(a: int, b: int): (q: int)
    requires b != 0
  {
    if (a < 0) == (b < 0) then Magnitude(a) / Magnitude(b) else -(Magnitude(a) / Magnitude(b))
  }

  function Magnitude(a: int): (m: nat)
    ensures a != 0 ==> m != 0
  { if a < 0 then -a else a }

  function Arith(op: BinOp, a: int, b: int): (r: Result<Value>) {
    match op
    case AddI64 => Ok(IntV(a + b))
    case SubI64 => Ok(IntV(a - b))
    case MulI64 => Ok(IntV(a * b))
    case DivI64 => if b == 0 then Stop(Trap) else Ok(IntV(Quot(a, b)))
    case ModI64 => if b == 0 then Stop(Trap) else Ok(IntV(a - b * Quot(a, b)))
    case EqI64 => Ok(BoolV(a == b))
    case NeI64 => Ok(BoolV(a != b))
    case LtI64 => Ok(BoolV(a < b))
    case LeI64 => Ok(BoolV(a <= b))
    case GtI64 => Ok(BoolV(a > b))
    case GeI64 => Ok(BoolV(a >= b))
    case _ => Stop(Stuck(IllTyped))
  }

  function ArithF(op: BinOp, a: real, b: real): (r: Result<Value>) {
    match op
    case AddF64 => Ok(FloatV(a + b))
    case SubF64 => Ok(FloatV(a - b))
    case MulF64 => Ok(FloatV(a * b))
    case DivF64 => if b == 0.0 then Stop(Trap) else Ok(FloatV(a / b))
    case EqF64 => Ok(BoolV(a == b))
    case NeF64 => Ok(BoolV(a != b))
    case LtF64 => Ok(BoolV(a < b))
    case LeF64 => Ok(BoolV(a <= b))
    case GtF64 => Ok(BoolV(a > b))
    case GeF64 => Ok(BoolV(a >= b))
    case _ => Stop(Stuck(IllTyped))
  }

  // An operator on two values; the operand types decide the family, and an
  // operator of another family is stuck.
  function Apply(op: BinOp, a: Value, b: Value): (r: Result<Value>) {
    match (a, b)
    case (IntV(x), IntV(y)) => Arith(op, x, y)
    case (FloatV(x), FloatV(y)) => ArithF(op, x, y)
    case (BoolV(x), BoolV(y)) =>
      if op == EqBool then Ok(BoolV(x == y))
      else if op == NeBool then Ok(BoolV(x != y))
      else if op == AndBool then Ok(BoolV(x && y))
      else if op == OrBool then Ok(BoolV(x || y))
      else Stop(Stuck(IllTyped))
    case (StrV(x), StrV(y)) =>
      if op == EqStr then Ok(BoolV(x == y))
      else if op == NeStr then Ok(BoolV(x != y))
      else if op == StrCat then Ok(StrV(x + y))
      else Stop(Stuck(IllTyped))
    case _ => Stop(Stuck(IllTyped))
  }

  // `&&` and `||` leave the right operand alone when the left one decides.
  predicate Decides(op: BinOp, a: Value) {
    (op == AndBool && a == BoolV(false)) || (op == OrBool && a == BoolV(true))
  }

  function Negate(op: UnOp, a: Value): (r: Result<Value>) {
    match (op, a)
    case (NegI64, IntV(x)) => Ok(IntV(-x))
    case (NegF64, FloatV(x)) => Ok(FloatV(-x))
    case (NotBool, BoolV(x)) => Ok(BoolV(!x))
    case _ => Stop(Stuck(IllTyped))
  }

  // The recorded type of a node is what its users rely on.
  function Recorded(r: Result<Value>, t: Type): (q: Result<Value>) {
    if r.Ok? && r.value.Type() != t then Stop(Stuck(IllTyped)) else r
  }

  function FindFunction(fs: seq<Function>, name: string): (r: Option<Function>)
    ensures r.Some? ==> r.value in fs && r.value.name == name
    ensures r.None? ==> forall f :: f in fs ==> f.name != name
  {
    if fs == [] then None
    else if fs[0].name == name then Some(fs[0])
    else FindFunction(fs[1..], name)
  }

  function ParamFrame(ps: seq<Param>, vs: seq<Value>): (m: map<string, Cell>)
    requires |ps| == |vs|
  {
    if ps == [] then map[]
    else
      var k := |ps| - 1;
      ParamFrame(ps[..k], vs[..k])[ps[k].name := Cell(vs[k], false)]
  }

  predicate ArgsFit(ps: seq<Param>, vs: seq<Value>) {
    && |ps| == |vs|
    && forall k :: 0 <= k < |ps| ==> vs[k].Type() == ps[k].t
  }

  function Eval(p: Program, fuel: nat, env: Env, e: Expr): (r: Run<Value>)
    decreases fuel, e, 0
  {
    match e
    case StrLit(s) => Silent(Ok(StrV(s)))
    case IntLit(i) => Silent(Ok(IntV(i)))
    case FloatLit(f) => Silent(Ok(FloatV(f)))
    case BoolLit(b) => Silent(Ok(BoolV(b)))
    case VarRef(name, t) =>
      var c := Lookup(env, name);
      Silent(if c.None? then Stop(Stuck(Unbound)) else Recorded(Ok(c.value.value), t))
    case Binary(op, left, right, t) =>
      var a := Eval(p, fuel, env, left);
      if a.res.Stop? then a
      else if Decides(op, a.res.value) then Run(Recorded(a.res, t), a.out)
      else
        var b := Eval(p, fuel, env, right);
        After(a.out, if b.res.Stop? then b else Run(Recorded(Apply(op, a.res.value, b.res.value), t), b.out))
    case Unary(op, operand, t) =>
      var a := Eval(p, fuel, env, operand);
      if a.res.Stop? then a else Run(Recorded(Negate(op, a.res.value), t), a.out)
    case CallE(fn, args, t) =>
      var vs := EvalArgs(p, fuel, env, args);
      if vs.res.Stop? then Run(Stop(vs.res.halt), vs.out)
      else
        var f := FindFunction(p.functions, fn);
        if f.None? then Run(Stop(Stuck(NoCallee)), vs.out)
        else if fuel == 0 then Run(Stop(OutOfFuel), vs.out)
        else
          var r := Invoke(p, fuel - 1, f.value, vs.res.value);
          After(vs.out, Run(Recorded(r.res, t), r.out))
  }

  function EvalArgs(p: Program, fuel: nat, env: Env, es: seq<Expr>): (r: Run<seq<Value>>)
    decreases fuel, es, 0
  {
    if es == [] then Silent(Ok([]))
    else
      var v := Eval(p, fuel, env, es[0]);
      if v.res.Stop? then Run(Stop(v.res.halt), v.out)
      else
        var vs := EvalArgs(p, fuel, env, es[1..]);
        After(v.out, if vs.res.Stop? then vs else Run(Ok([v.res.value] + vs.res.value), vs.out))
  }

  // Runs a function body in a fresh chain holding its parameters.
  function Invoke(p: Program, fuel: nat, f: Function, vs: seq<Value>): (r: Run<Value>)
    decreases fuel, f, 0
  {
    if !ArgsFit(f.params, vs) then Silent(Stop(Stuck(WrongArgs)))
    else
      var s := ExecSeq(p, fuel, [ParamFrame(f.params, vs)], f.body);
      Run(Leave(f, s.step), s.out)
  }

  // What the caller gets when the body ends.
  function Leave(f: Function, s: Step): (r: Result<Value>) {
    match s
    case Halted(h) => Stop(h)
    case Go(_, Normal) => if f.ret == Unit then Ok(UnitV) else Stop(FellOff)
    case Go(_, Ret(v)) => if v.Type() == f.ret then Ok(v) else Stop(Stuck(WrongReturn))
    case Go(_, _) => Stop(Stuck(EscapedJump))
  }

  function ExecSeq(p: Program, fuel: nat, env: Env, ss: seq<Stmt>): (r: Trace)
    requires env != []
    ensures r.step.Go? ==> |r.step.env| == |env|
    decreases fuel, ss, 0
  {
    if ss == [] then Quiet(Go(env, Normal))
    else
      var s := ExecStmt(p, fuel, env, ss[0]);
      if s.step.Go? && s.step.flow == Normal then Then(s.out, ExecSeq(p, fuel, s.step.env, ss[1..])) else s
  }

  // Leaving a block takes its frame off again, whatever way it ended.
  function Popped(s: Step): (r: Step)
    requires s.Go? ==> s.env != []
  {
    if s.Go? then Go(s.env[1..], s.flow) else s
  }

  // A block: one new frame around its statements.
  function ExecBlock(p: Program, fuel: nat, env: Env, frame: map<string, Cell>, ss: seq<Stmt>): (r: Trace)
    ensures r.step.Go? ==> |r.step.env| == |env|
    decreases fuel, ss, 1
  {
    var s := ExecSeq(p, fuel, [frame] + env, ss);
    Trace(Popped(s.step), s.out)
  }

  // The value of an expression that has to be of one type.
  function EvalAs(p: Program, fuel: nat, env: Env, e: Expr, t: Type): (r: Run<Value>)
    ensures r.res.Ok? ==> r.res.value.Type() == t
    decreases fuel, e, 1
  {
    var v := Eval(p, fuel, env, e);
    Run(Recorded(v.res, t), v.out)
  }

  // The step after a call whose value is dropped.
  function Keep(env: Env, r: Run<Value>): (t: Trace) {
    Trace(if r.res.Ok? then Go(env, Normal) else Halted(r.res.halt), r.out)
  }

  // The callables that are not functions print their argument.
  function PrintStep(env: Env, t: Type, vs: seq<Value>): (r: Trace) {
    if |vs| == 1 && vs[0].Type() == t then Trace(Go(env, Normal), [vs[0]]) else Quiet(Halted(Stuck(WrongArgs)))
  }

  function ExecStmt(p: Program, fuel: nat, env: Env, s: Stmt): (r: Trace)
    requires env != []
    ensures r.step.Go? ==> |r.step.env| == |env|
    decreases fuel, s, 0
  {
    match s
    case CallS(fn, args) =>
      var vs := EvalArgs(p, fuel, env, args);
      if vs.res.Stop? then Trace(Halted(vs.res.halt), vs.out)
      else if Builtin(fn).Some? then Then(vs.out, PrintStep(env, Builtin(fn).value, vs.res.value))
      else
        var f := FindFunction(p.functions, fn);
        if f.None? then Trace(Halted(Stuck(NoCallee)), vs.out)
        else if fuel == 0 then Trace(Halted(OutOfFuel), vs.out)
        else Then(vs.out, Keep(env, Invoke(p, fuel - 1, f.value, vs.res.value)))
    case Let(name, t, init, mutable) =>
      if name in env[0] then Quiet(Halted(Stuck(Rebound)))
      else
        var v := EvalAs(p, fuel, env, init, t);
        Trace(if v.res.Stop? then Halted(v.res.halt)
              else Go(Declare(env, name, Cell(v.res.value, mutable)), Normal), v.out)
    case Predeclare(name, t, mutable) =>
      Quiet(if name in env[0] then Halted(Stuck(Rebound))
            else if !mutable then Halted(Stuck(Uninitialised))
            else Go(Declare(env, name, Cell(Default(t), true)), Normal))
    case Assign(name, value) =>
      var c := Lookup(env, name);
      if c.None? then Quiet(Halted(Stuck(Unbound)))
      else if !c.value.mutable then Quiet(Halted(Stuck(Immutable)))
      else
        var v := EvalAs(p, fuel, env, value, c.value.value.Type());
        Trace(if v.res.Stop? then Halted(v.res.halt) else Go(Update(env, name, Cell(v.res.value, true)), Normal), v.out)
    case If(cond, thn, els) =>
      var c := EvalAs(p, fuel, env, cond, Bool);
      if c.res.Stop? then Trace(Halted(c.res.halt), c.out)
      else Then(c.out, ExecBlock(p, fuel, env, map[], if c.res.value.b then thn else els))
    case While(cond, body) =>
      var c := EvalAs(p, fuel, env, cond, Bool);
      if c.res.Stop? then Trace(Halted(c.res.halt), c.out)
      else if !c.res.value.b then Trace(Go(env, Normal), c.out)
      else
        var b := Then(c.out, ExecBlock(p, fuel, env, map[], body));
        if b.step.Halted? || b.step.flow.Ret? then b
        else if b.step.flow.Brk? then Trace(Go(b.step.env, Normal), b.out)
        else if fuel == 0 then Trace(Halted(OutOfFuel), b.out)
        else Then(b.out, ExecStmt(p, fuel - 1, b.step.env, s))
    case ForRange(name, start, end, body) =>
      var a := EvalAs(p, fuel, env, start, Int);
      if a.res.Stop? then Trace(Halted(a.res.halt), a.out)
      else
        var b := After(a.out, EvalAs(p, fuel, env, end, Int));
        if b.res.Stop? then Trace(Halted(b.res.halt), b.out)
        else Then(b.out, ExecRange(p, fuel, env, name, a.res.value.i, b.res.value.i, body))
    case Break => Quiet(Go(env, Brk))
    case Continue => Quiet(Go(env, Cont))
    case Return(value) =>
      var v := Eval(p, fuel, env, value);
      Trace(if v.res.Stop? then Halted(v.res.halt) else Go(env, Ret(v.res.value)), v.out)
    case ReturnUnit => Quiet(Go(env, Ret(UnitV)))
  }

  // The rounds of `for name in lo..hi`; both bounds were evaluated once.
  function ExecRange(p: Program, fuel: nat, env: Env, name: string, lo: int, hi: int, body: seq<Stmt>): (r: Trace)
    requires env != []
    ensures r.step.Go? ==> |r.step.env| == |env|
    decreases fuel, body, 2, hi - lo
  {
    if lo >= hi then Quiet(Go(env, Normal))
    else
      var b := ExecBlock(p, fuel, env, map[name := Cell(IntV(lo), false)], body);
      if b.step.Halted? || b.step.flow.Ret? then b
      else if b.step.flow.Brk? then Trace(Go(b.step.env, Normal), b.out)
      else Then(b.out, ExecRange(p, fuel, b.step.env, name, lo + 1, hi, body))
  }

  // The whole program: its entry function, called with nothing.
  function RunProgram(p: Program, fuel: nat): (r: Run<Value>)
    requires 0 <= p.main < |p.functions|
  {
    Invoke(p, fuel, p.functions[p.main], [])
  }
}
