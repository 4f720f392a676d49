/**
 * The scalar fragment of the source language as the parser hands it over
 * (flat operator chains, type names as text), and what a source program does.
 *
 * The meaning is dynamic: operators are chosen by the values they meet and
 * nothing is typed.  It is the reference that the lowered, monomorphic IR is
 * compared with.
 */
module Source {
  import opened Options
  import opened IR

  // `left op1 u1 op2 u2 ...`, one flat chain without precedence.
  datatype SExpr = Chain(left: SUnary, rest: seq<SOperand>)
  datatype SOperand = SOperand(op: string, right: SUnary)
  datatype SUnary = SUnary(ops: seq<string>, value: SPrimary)
  datatype SPrimary =
    | IntL(i: int)
    | FloatL(f: real)
    | BoolL(b: bool)
    | StrL(s: string)
    | Group(e: SExpr)
    | Name(name: string)
    | Call(fn: string, args: seq<SExpr>)

  datatype SStmt =
    | ExprS(e: SExpr)
    | Bind(name: string, ann: Option<string>, init: SExpr, mutable: bool)
    | BindNothing(name: string)
    | AssignS(name: string, value: SExpr)
    | IfS(chain: IfChain)
    | WhileS(cond: SExpr, body: seq<SStmt>)
    | ForS(name: string, start: SExpr, end: SExpr, body: seq<SStmt>)
    | BreakS
    | ContinueS
    | ReturnS(value: SExpr)
    | ReturnNothing
    | NestedFun

  datatype IfChain = IfChain(cond: SExpr, thn: seq<SStmt>, els: Else)
  datatype Else = NoElse | ElseIf(chain: IfChain) | ElseBlock(body: seq<SStmt>)

  datatype SParam = SParam(name: string, ann: Option<string>)
  datatype FunDecl = FunDecl(name: string, params: seq<SParam>, ret: Option<string>, body: seq<SStmt>)

  // A file: declarations and script statements in any order.
  datatype Top = Fun(decl: FunDecl) | Script(stmt: SStmt)

  function Decls(prog: seq<Top>): (ds: seq<FunDecl>) {
    if prog == [] then []
    else (if prog[0].Fun? then [prog[0].decl] else []) + Decls(prog[1..])
  }

  function ScriptOf(prog: seq<Top>): (ss: seq<SStmt>) {
    if prog == [] then []
    else (if prog[0].Script? then [prog[0].stmt] else []) + ScriptOf(prog[1..])
  }

  // --- Meaning ---

  function Stuckly(): (r: Result<Value>) { Stop(Stuck(IllTyped)) }

  function OnInts(op: string, a: int, b: int): (r: Result<Value>) {
    match op
    case "+" => Ok(IntV(a + b))
    case "-" => Ok(IntV(a - b))
    case "*" => Ok(IntV(a * b))
    case "/" => if b == 0 then Stop(Trap) else Ok(IntV(Quot(a, b)))
    case "%" => if b == 0 then Stop(Trap) else Ok(IntV(a - b * Quot(a, b)))
    case "==" => Ok(BoolV(a == b))
    case "!=" => Ok(BoolV(a != b))
    case "<" => Ok(BoolV(a < b))
    case "<=" => Ok(BoolV(a <= b))
    case ">" => Ok(BoolV(a > b))
    case ">=" => Ok(BoolV(a >= b))
    case _ => Stuckly()
  }

  function OnFloats(op: string, a: real, b: real): (r: Result<Value>) {
    match op
    case "+" => Ok(FloatV(a + b))
    case "-" => Ok(FloatV(a - b))
    case "*" => Ok(FloatV(a * b))
    case "/" => if b == 0.0 then Stop(Trap) else Ok(FloatV(a / b))
    case "==" => Ok(BoolV(a == b))
    case "!=" => Ok(BoolV(a != b))
    case "<" => Ok(BoolV(a < b))
    case "<=" => Ok(BoolV(a <= b))
    case ">" => Ok(BoolV(a > b))
    case ">=" => Ok(BoolV(a >= b))
    case _ => Stuckly()
  }

  // An overloaded operator at work on two values.
  function Operate(op: string, a: Value, b: Value): (r: Result<Value>) {
    match (a, b)
    case (IntV(x), IntV(y)) => OnInts(op, x, y)
    case (FloatV(x), FloatV(y)) => OnFloats(op, x, y)
    case (BoolV(x), BoolV(y)) =>
      if op == "==" then Ok(BoolV(x == y))
      else if op == "!=" then Ok(BoolV(x != y))
      else if op == "&&" then Ok(BoolV(x && y))
      else if op == "||" then Ok(BoolV(x || y))
      else Stuckly()
    case (StrV(x), StrV(y)) =>
      if op == "==" then Ok(BoolV(x == y))
      else if op == "!=" then Ok(BoolV(x != y))
      else if op == "+" then Ok(StrV(x + y))
      else Stuckly()
    case _ => Stuckly()
  }

  predicate Settled(op: string, a: Value) {
    (op == "&&" && a == BoolV(false)) || (op == "||" && a == BoolV(true))
  }

  // One prefix operator.
  function Prefix(op: string, v: Value): (r: Result<Value>) {
    match v
    case IntV(i) => if op == "-" then Ok(IntV(-i)) else Stuckly()
    case FloatV(f) => if op == "-" then Ok(FloatV(-f)) else Stuckly()
    case BoolV(b) => if op == "!" then Ok(BoolV(!b)) else Stuckly()
    case _ => Stuckly()
  }

  // Prefix operators bind from the right: `-!x` is `-(!x)`.
  function Prefixes(ops: seq<string>, r: Result<Value>): (q: Result<Value>) {
    if ops == [] || r.Stop? then r
    else
      var inner := Prefixes(ops[1..], r);
      if inner.Stop? then inner else Prefix(ops[0], inner.value)
  }

  function FindDecl(ds: seq<FunDecl>, name: string): (r: Option<FunDecl>)
    ensures r.Some? ==> r.value in ds && r.value.name == name
  {
    if ds == [] then None
    else if ds[0].name == name then Some(ds[0])
    else FindDecl(ds[1..], name)
  }

  function Means(ds: seq<FunDecl>, fuel: nat, env: Env, e: SExpr): (r: Run<Value>)
    decreases fuel, e, 0
  {
    MeansRest(ds, fuel, env, MeansUnary(ds, fuel, env, e.left), e.rest)
  }

  // The chain folds to the left; `&&` and `||` may skip their right operand.
  function MeansRest(ds: seq<FunDecl>, fuel: nat, env: Env, a: Run<Value>, rest: seq<SOperand>): (r: Run<Value>)
    decreases fuel, rest, 0
  {
    if rest == [] || a.res.Stop? then a
    else
      var last := rest[|rest| - 1];
      var left := MeansRest(ds, fuel, env, a, rest[..|rest| - 1]);
      if left.res.Stop? || Settled(last.op, left.res.value) then left
      else
        var right := MeansUnary(ds, fuel, env, last.right);
        After(left.out, if right.res.Stop? then right
              else Run(Operate(last.op, left.res.value, right.res.value), right.out))
  }

  function MeansUnary(ds: seq<FunDecl>, fuel: nat, env: Env, u: SUnary): (r: Run<Value>)
    decreases fuel, u, 0
  {
    var v := MeansPrimary(ds, fuel, env, u.value);
    Run(Prefixes(u.ops, v.res), v.out)
  }

  function MeansPrimary(ds: seq<FunDecl>, fuel: nat, env: Env, x: SPrimary): (r: Run<Value>)
    decreases fuel, x, 0
  {
    match x
    case IntL(i) => Silent(Ok(IntV(i)))
    case FloatL(f) => Silent(Ok(FloatV(f)))
    case BoolL(b) => Silent(Ok(BoolV(b)))
    case StrL(s) => Silent(Ok(StrV(s)))
    case Group(e) => Means(ds, fuel, env, e)
    case Name(name) =>
      var c := Lookup(env, name);
      Silent(if c.None? then Stop(Stuck(Unbound)) else Ok(c.value.value))
    case Call(fn, args) =>
      var vs := MeansArgs(ds, fuel, env, args);
      if vs.res.Stop? then Run(Stop(vs.res.halt), vs.out) else
        var d := FindDecl(ds, fn);
        if d.None? then Run(Stop(Stuck(NoCallee)), vs.out)
        else if fuel == 0 then Run(Stop(OutOfFuel), vs.out)
        else After(vs.out, Enter(ds, fuel - 1, d.value, vs.res.value))
  }

  function MeansArgs(ds: seq<FunDecl>, fuel: nat, env: Env, es: seq<SExpr>): (r: Run<seq<Value>>)
    decreases fuel, es, 0
  {
    if es == [] then Silent(Ok([]))
    else
      var v := Means(ds, fuel, env, es[0]);
      if v.res.Stop? then Run(Stop(v.res.halt), v.out)
      else
        var vs := MeansArgs(ds, fuel, env, es[1..]);
        After(v.out, if vs.res.Stop? then vs else Run(Ok([v.res.value] + vs.res.value), vs.out))
  }

  function ArgFrame(ps: seq<SParam>, vs: seq<Value>): (m: map<string, Cell>)
    requires |ps| == |vs|
  {
    if ps == [] then map[]
    else
      var k := |ps| - 1;
      ArgFrame(ps[..k], vs[..k])[ps[k].name := Cell(vs[k], false)]
  }

  function Enter(ds: seq<FunDecl>, fuel: nat, d: FunDecl, vs: seq<Value>): (r: Run<Value>)
    decreases fuel, d, 0
  {
    if |d.params| != |vs| then Silent(Stop(Stuck(WrongArgs)))
    else Exit(d.ret == Some("unit"), RunSeq(ds, fuel, [ArgFrame(d.params, vs)], d.body))
  }

  function Exit(unit: bool, s: Trace): (r: Run<Value>) {
    Run(match s.step
        case Halted(h) => Stop(h)
        case Go(_, Normal) => if unit then Ok(UnitV) else Stop(FellOff)
        case Go(_, Ret(v)) => Ok(v)
        case Go(_, _) => Stop(Stuck(EscapedJump)),
        s.out)
  }

  function RunSeq(ds: seq<FunDecl>, fuel: nat, env: Env, ss: seq<SStmt>): (r: Trace)
    requires env != []
    ensures r.step.Go? ==> |r.step.env| == |env|
    decreases fuel, ss, 0
  {
    if ss == [] then Quiet(Go(env, Normal))
    else
      var s := RunStmt(ds, fuel, env, ss[0]);
      if s.step.Go? && s.step.flow == Normal then Then(s.out, RunSeq(ds, fuel, s.step.env, ss[1..])) else s
  }

  function RunBlock(ds: seq<FunDecl>, fuel: nat, env: Env, frame: map<string, Cell>, ss: seq<SStmt>): (r: Trace)
    ensures r.step.Go? ==> |r.step.env| == |env|
    decreases fuel, ss, 1
  {
    var s := RunSeq(ds, fuel, [frame] + env, ss);
    Trace(Popped(s.step), s.out)
  }

  // The call that a statement consists of.
  function BareCall(e: SExpr): (r: Option<SPrimary>)
    ensures r.Some? ==> r.value.Call? && r.value == e.left.value && e.left.ops == [] && e.rest == []
  {
    if e.rest == [] && e.left.ops == [] && e.left.value.Call? then Some(e.left.value) else None
  }

  // A call whose value is dropped; `print` writes one printable value.
  function RunCall(ds: seq<FunDecl>, fuel: nat, env: Env, fn: string, args: seq<SExpr>): (r: Trace)
    requires env != []
    ensures r.step.Go? ==> |r.step.env| == |env|
    decreases fuel, args, 1
  {
    var vs := MeansArgs(ds, fuel, env, args);
    if vs.res.Stop? then Trace(Halted(vs.res.halt), vs.out)
    else if fn == "print" then
      if |vs.res.value| == 1 && vs.res.value[0] != UnitV then Trace(Go(env, Normal), vs.out + vs.res.value)
      else Trace(Halted(Stuck(WrongArgs)), vs.out)
    else
      var d := FindDecl(ds, fn);
      if d.None? then Trace(Halted(Stuck(NoCallee)), vs.out)
      else if fuel == 0 then Trace(Halted(OutOfFuel), vs.out)
      else Then(vs.out, Keep(env, Enter(ds, fuel - 1, d.value, vs.res.value)))
  }

  // The truth of a condition.
  function Truth(r: Result<Value>): (q: Result<Value>)
    ensures q.Ok? ==> q.value.BoolV?
  { if r.Ok? && !r.value.BoolV? then Stuckly() else r }

  function RunStmt(ds: seq<FunDecl>, fuel: nat, env: Env, s: SStmt): (r: Trace)
    requires env != []
    ensures r.step.Go? ==> |r.step.env| == |env|
    decreases fuel, s, 0
  {
    match s
    case ExprS(e) =>
      var c := BareCall(e);
      if c.None? then Quiet(Halted(Stuck(IllTyped))) else RunCall(ds, fuel, env, c.value.fn, c.value.args)
    case Bind(name, _, init, mutable) =>
      if name in env[0] then Quiet(Halted(Stuck(Rebound)))
      else
        var v := Means(ds, fuel, env, init);
        Trace(if v.res.Stop? then Halted(v.res.halt)
              else Go(Declare(env, name, Cell(v.res.value, mutable)), Normal), v.out)
    case AssignS(name, value) =>
      var c := Lookup(env, name);
      if c.None? then Quiet(Halted(Stuck(Unbound)))
      else if !c.value.mutable then Quiet(Halted(Stuck(Immutable)))
      else
        var v := Means(ds, fuel, env, value);
        Trace(if v.res.Stop? then Halted(v.res.halt) else Go(Update(env, name, Cell(v.res.value, true)), Normal), v.out)
    case IfS(chain) => RunIf(ds, fuel, env, chain)
    case WhileS(cond, body) =>
      var v := Means(ds, fuel, env, cond);
      var c := Truth(v.res);
      if c.Stop? then Trace(Halted(c.halt), v.out)
      else if !c.value.b then Trace(Go(env, Normal), v.out)
      else
        var b := Then(v.out, RunBlock(ds, fuel, env, map[], body));
        if b.step.Halted? || b.step.flow.Ret? then b
        else if b.step.flow.Brk? then Trace(Go(b.step.env, Normal), b.out)
        else if fuel == 0 then Trace(Halted(OutOfFuel), b.out)
        else Then(b.out, RunStmt(ds, fuel - 1, b.step.env, s))
    case ForS(name, start, end, body) =>
      var a := Means(ds, fuel, env, start);
      if a.res.Stop? then Trace(Halted(a.res.halt), a.out)
      else
        var b := After(a.out, Means(ds, fuel, env, end));
        if b.res.Stop? then Trace(Halted(b.res.halt), b.out)
        else if !a.res.value.IntV? || !b.res.value.IntV? then Trace(Halted(Stuck(IllTyped)), b.out)
        else Then(b.out, RunRange(ds, fuel, env, name, a.res.value.i, b.res.value.i, body))
    case BreakS => Quiet(Go(env, Brk))
    case ContinueS => Quiet(Go(env, Cont))
    case ReturnS(value) =>
      var v := Means(ds, fuel, env, value);
      Trace(if v.res.Stop? then Halted(v.res.halt) else Go(env, Ret(v.res.value)), v.out)
    case ReturnNothing => Quiet(Go(env, Ret(UnitV)))
    case _ => Quiet(Halted(Stuck(Uninitialised)))
  }

  // `else if` is an else block holding the rest of the chain.
  function RunIf(ds: seq<FunDecl>, fuel: nat, env: Env, c: IfChain): (r: Trace)
    requires env != []
    ensures r.step.Go? ==> |r.step.env| == |env|
    decreases fuel, c, 0
  {
    var m := Means(ds, fuel, env, c.cond);
    var v := Truth(m.res);
    if v.Stop? then Trace(Halted(v.halt), m.out)
    else if v.value.b then Then(m.out, RunBlock(ds, fuel, env, map[], c.thn))
    else
      match c.els
      case NoElse => Trace(Go(env, Normal), m.out)
      case ElseBlock(body) => Then(m.out, RunBlock(ds, fuel, env, map[], body))
      case ElseIf(chain) =>
        var s := RunIf(ds, fuel, [map[]] + env, chain);
        Then(m.out, Trace(Popped(s.step), s.out))
  }

  function RunRange(ds: seq<FunDecl>, fuel: nat, env: Env, name: string, lo: int, hi: int, body: seq<SStmt>): (r: Trace)
    requires env != []
    ensures r.step.Go? ==> |r.step.env| == |env|
    decreases fuel, body, 2, hi - lo
  {
    if lo >= hi then Quiet(Go(env, Normal))
    else
      var b := RunBlock(ds, fuel, env, map[name := Cell(IntV(lo), false)], body);
      if b.step.Halted? || b.step.flow.Ret? then b
      else if b.step.flow.Brk? then Trace(Go(b.step.env, Normal), b.out)
      else Then(b.out, RunRange(ds, fuel, b.step.env, name, lo + 1, hi, body))
  }

  // Running a file: its script statements, with every declaration in reach.
  function RunSource(prog: seq<Top>, fuel: nat): (r: Run<Value>) {
    Exit(true, RunSeq(Decls(prog), fuel, [map[]], ScriptOf(prog)))
  }

  // --- What the source and the IR share ---

  // Division truncates toward zero; a remainder has the sign of the dividend.
  lemma Division(a: int, b: int, q: int, r: int)
    requires b != 0 && a == b * q + r
    requires if b > 0 then -b < r < b else b < r < -b
    requires (a >= 0 ==> r >= 0) && (a <= 0 ==> r <= 0)
    ensures Operate("/", IntV(a), IntV(b)) == Ok(IntV(q)) && Operate("%", IntV(a), IntV(b)) == Ok(IntV(r))
  {
    Truncates(a, b, q, r);
  }

  lemma Truncates(a: int, b: int, q: int, r: int)
    requires b != 0 && a == b * q + r
    requires if b > 0 then -b < r < b else b < r < -b
    requires (a >= 0 ==> r >= 0) && (a <= 0 ==> r <= 0)
    ensures Quot(a, b) == q
  {
    if a >= 0 && b > 0 {
      Quotient(a, b, q, r);
    } else if a >= 0 {
      Negated(b, q);
      Quotient(a, -b, -q, r);
    } else if b > 0 {
      Negated(b, q);
      Quotient(-a, b, -q, -r);
    } else {
      Negated(b, q);
      Quotient(-a, -b, q, -r);
    }
  }

  lemma Quotient(m: int, n: int, q: int, r: int)
    requires n > 0 && m == n * q + r && 0 <= r < n
    ensures m / n == q
  {
    assert n * (m / n - q) == r - m % n;
    if m / n > q {
      Grows(n, m / n - q);
    } else if m / n < q {
      Grows(n, q - m / n);
    }
  }

  lemma Grows(n: int, d: int)
    requires n > 0 && d >= 1
    ensures n * d >= n
  {
  }

  lemma Negated(n: int, q: int)
    ensures -n * q == -(n * q) && n * -q == -(n * q) && -n * -q == n * q
  {
  }

  // A name is read in the innermost frame that has it ...
  lemma {:induction false} ReadsInnermost<T>(c: Chain<T>, name: string, k: nat)
    requires k < |c| && name in c[k] && forall j :: 0 <= j < k ==> name !in c[j]
    ensures Lookup(c, name) == Some(c[k][name])
  {
    if k > 0 {
      ReadsInnermost(c[1..], name, k - 1);
    }
  }

  lemma {:induction false} ReadsNothing<T>(c: Chain<T>, name: string)
    ensures Lookup(c, name).None? <==> forall j :: 0 <= j < |c| ==> name !in c[j]
  {
    if c != [] {
      ReadsNothing(c[1..], name);
      assert forall j :: 1 <= j < |c| ==> c[1..][j - 1] == c[j];
    }
  }

  // ... and written there and nowhere else.
  lemma {:induction false} WritesInnermost<T>(c: Chain<T>, name: string, x: T, k: nat)
    requires k < |c| && name in c[k] && forall j :: 0 <= j < k ==> name !in c[j]
    ensures Update(c, name, x) == c[k := c[k][name := x]]
  {
    if k > 0 {
      WritesInnermost(c[1..], name, x, k - 1);
      assert [c[0]] + c[1..][k - 1 := c[k][name := x]] == c[k := c[k][name := x]];
    }
  }

  function Alone(x: SPrimary): (e: SExpr) { Chain(SUnary([], x), []) }
  function PrintOf(name: string): (s: SStmt) { ExprS(Alone(Call("print", [Alone(Name(name))]))) }

  // A counting loop runs its body for every number from the first up to, and
  // not including, the last.
  lemma {:induction false} CountsUp(ds: seq<FunDecl>, fuel: nat, env: Env, name: string, lo: int, hi: int)
    requires env != []
    ensures RunRange(ds, fuel, env, name, lo, hi, [PrintOf(name)]) ==
            Trace(Go(env, Normal), seq(if lo < hi then hi - lo else 0, k => IntV(lo + k)))
    decreases hi - lo
  {
    if lo < hi {
      PrintsOne(ds, fuel, env, name, lo);
      CountsUp(ds, fuel, env, name, lo + 1, hi);
      var rest := seq(hi - lo - 1, k => IntV(lo + 1 + k));
      assert seq(hi - lo, k => IntV(lo + k)) == [IntV(lo)] + rest;
      hide RunBlock;
    }
  }

  lemma PrintsOne(ds: seq<FunDecl>, fuel: nat, env: Env, name: string, i: int)
    requires env != []
    ensures RunBlock(ds, fuel, env, map[name := Cell(IntV(i), false)], [PrintOf(name)]) ==
            Trace(Go(env, Normal), [IntV(i)])
  {
    var inner := [map[name := Cell(IntV(i), false)]] + env;
    var arg := Alone(Name(name));
    assert Lookup(inner, name) == Some(Cell(IntV(i), false));
    assert MeansPrimary(ds, fuel, inner, arg.left.value) == Silent(Ok(IntV(i)));
    assert MeansUnary(ds, fuel, inner, arg.left) == Silent(Ok(IntV(i)));
    assert Means(ds, fuel, inner, arg) == Silent(Ok(IntV(i)));
    assert MeansArgs(ds, fuel, inner, [arg]) == Silent(Ok([IntV(i)])) by {
      assert [arg][1..] == [] && [IntV(i)] + [] == [IntV(i)];
      assert MeansArgs(ds, fuel, inner, []) == Silent(Ok([]));
    }
    assert RunCall(ds, fuel, inner, "print", [arg]) == Trace(Go(inner, Normal), [IntV(i)]);
    assert RunStmt(ds, fuel, inner, PrintOf(name)) == Trace(Go(inner, Normal), [IntV(i)]);
    assert [PrintOf(name)][1..] == [];
    assert RunSeq(ds, fuel, inner, []) == Quiet(Go(inner, Normal));
    assert RunSeq(ds, fuel, inner, [PrintOf(name)]) == Trace(Go(inner, Normal), [IntV(i)] + []);
    assert inner[1..] == env;
  }
}
