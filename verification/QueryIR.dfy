/**
 * The part of the IR that lowered queries use: loops over lists, conditional
 * blocks, list append, and maps from keys to lists, with what running them
 * means.  Scalars and operators are those of `IR`.
 *
 * A run gives None when it traps or gets stuck; nothing in this fragment has
 * any effect beside its variables.
 */
module QueryIR {
  import opened Options
  import IR
  import KeyOrder

  datatype Datum =
    | Scalar(v: IR.Value)
    | ListD(items: seq<Datum>)
    | RecordD(fields: map<string, Datum>)

  // A variable holds a datum or a map from scalar keys to lists.
  datatype Slot = Plain(d: Datum) | Index(m: map<IR.Value, seq<Datum>>)

  // Names written by the user, and the names the lowerer generates from its
  // temp counter (`__query1`, `__hidx_2`, ...), which no user name equals.
  datatype Name =
    | User(id: string)
    | QueryVar(n: nat)
    | HashIndex(n: nat)
    | HashKey(n: nat)
    | HashValue(n: nat)
    | HashList(n: nat)
    | GroupMap(n: nat)
    | GroupKey(n: nat)
    | GroupValue(n: nat)
    | GroupKeys(n: nat)
    | GroupResult(n: nat)

  type Env = seq<map<Name, Slot>>

  // Pure calls, given by what they return; None is a trap.
  type Calls = (string, seq<Datum>) -> Option<Datum>

  datatype Expr =
    | Const(d: Datum)
    | Var(name: Name)
    | Binary(op: IR.BinOp, left: Expr, right: Expr)
    | Unary(uop: IR.UnOp, operand: Expr)
    | Field(receiver: Expr, field: string)
    | Call(fn: string, args: seq<Expr>)
    | Append(list: Expr, value: Expr)
    | MapHas(index: Name, key: Expr, keyType: IR.Type)
    | MapGet(index: Name, key: Expr, keyType: IR.Type)
    | MapKeys(index: Name)

  // LetKey is a let whose declared type is a scalar; LetMap binds an empty map.
  datatype Stmt =
    | Let(name: Name, init: Expr)
    | LetKey(name: Name, t: IR.Type, init: Expr)
    | LetMap(name: Name)
    | Assign(name: Name, value: Expr)
    | If(cond: Expr, thn: seq<Stmt>)
    | ForEach(x: Name, list: Expr, body: seq<Stmt>)
    | MapPut(index: Name, key: Expr, keyType: IR.Type, value: Expr)
    | QueryScope(body: seq<Stmt>)

  function OfResult(r: IR.Result<IR.Value>): (d: Option<Datum>) {
    if r.Ok? then Some(Scalar(r.value)) else None
  }

  // A scalar of the wanted type.
  function KeyOf(d: Option<Datum>, t: IR.Type): (r: Option<IR.Value>)
    ensures r.Some? ==> d == Some(Scalar(r.value)) && r.value.Type() == t
  {
    if d.Some? && d.value.Scalar? && d.value.v.Type() == t then Some(d.value.v) else None
  }

  function ItemsOf(d: Option<Datum>): (r: Option<seq<Datum>>) {
    if d.Some? && d.value.ListD? then Some(d.value.items) else None
  }

  function Operate(op: IR.BinOp, a: Datum, b: Option<Datum>): (r: Option<Datum>) {
    if !a.Scalar? then None
    else if IR.Decides(op, a.v) then Some(a)
    else if b.None? || !b.value.Scalar? then None
    else OfResult(IR.Apply(op, a.v, b.value.v))
  }

  function MapAt(env: Env, name: Name): (r: Option<map<IR.Value, seq<Datum>>>) {
    var s := IR.Lookup(env, name);
    if s.Some? && s.value.Index? then Some(s.value.m) else None
  }

  ghost function Eval(calls: Calls, env: Env, e: Expr): (r: Option<Datum>)
    decreases e, 0
  {
    match e
    case Const(d) => Some(d)
    case Var(name) =>
      var s := IR.Lookup(env, name);
      if s.Some? && s.value.Plain? then Some(s.value.d) else None
    case Binary(op, left, right) =>
      var a := Eval(calls, env, left);
      if a.None? then None else Operate(op, a.value, Eval(calls, env, right))
    case Unary(op, operand) =>
      var a := Eval(calls, env, operand);
      if a.None? || !a.value.Scalar? then None else OfResult(IR.Negate(op, a.value.v))
    case Field(receiver, field) =>
      var a := Eval(calls, env, receiver);
      if a.Some? && a.value.RecordD? && field in a.value.fields then Some(a.value.fields[field]) else None
    case Call(fn, args) =>
      var vs := EvalAll(calls, env, args);
      if vs.None? then None else calls(fn, vs.value)
    case Append(list, value) =>
      var l := ItemsOf(Eval(calls, env, list));
      var v := Eval(calls, env, value);
      if l.None? || v.None? then None else Some(ListD(l.value + [v.value]))
    case MapHas(index, key, t) =>
      var k := KeyOf(Eval(calls, env, key), t);
      var m := MapAt(env, index);
      if k.None? || m.None? then None else Some(Scalar(IR.BoolV(k.value in m.value)))
    case MapGet(index, key, t) =>
      var k := KeyOf(Eval(calls, env, key), t);
      var m := MapAt(env, index);
      if k.None? || m.None? || k.value !in m.value then None else Some(ListD(m.value[k.value]))
    case MapKeys(index) =>
      var m := MapAt(env, index);
      if m.None? then None else Some(ListD(Scalars(KeyOrder.Ascending(m.value.Keys))))
  }

  function Scalars(vs: seq<IR.Value>): (ds: seq<Datum>)
    ensures |ds| == |vs| && forall k :: 0 <= k < |vs| ==> ds[k] == Scalar(vs[k])
  {
    seq(|vs|, k requires 0 <= k < |vs| => Scalar(vs[k]))
  }

  ghost function EvalAll(calls: Calls, env: Env, es: seq<Expr>): (r: Option<seq<Datum>>)
    decreases es, 0
  {
    if es == [] then Some([])
    else
      var v := Eval(calls, env, es[0]);
      var vs := EvalAll(calls, env, es[1..]);
      if v.None? || vs.None? then None else Some([v.value] + vs.value)
  }

  ghost function Exec(calls: Calls, env: Env, s: Stmt): (r: Option<Env>)
    requires env != []
    ensures r.Some? ==> |r.value| == |env|
    decreases s, 0
  {
    match s
    case Let(name, init) =>
      var v := Eval(calls, env, init);
      if name in env[0] || v.None? then None else Some(IR.Declare(env, name, Plain(v.value)))
    case LetKey(name, t, init) =>
      var k := KeyOf(Eval(calls, env, init), t);
      if name in env[0] || k.None? then None else Some(IR.Declare(env, name, Plain(Scalar(k.value))))
    case LetMap(name) =>
      if name in env[0] then None else Some(IR.Declare(env, name, Index(map[])))
    case Assign(name, value) =>
      var v := Eval(calls, env, value);
      if IR.Lookup(env, name).None? || v.None? then None else Some(IR.Update(env, name, Plain(v.value)))
    case If(cond, thn) =>
      var c := KeyOf(Eval(calls, env, cond), IR.Bool);
      if c.None? then None
      else if c.value == IR.BoolV(true) then ExecBlock(calls, env, map[], thn)
      else Some(env)
    case ForEach(x, list, body) =>
      var l := ItemsOf(Eval(calls, env, list));
      if l.None? then None else ExecEach(calls, env, x, l.value, body)
    case MapPut(index, key, t, value) =>
      var k := KeyOf(Eval(calls, env, key), t);
      var l := ItemsOf(Eval(calls, env, value));
      var m := MapAt(env, index);
      if k.None? || l.None? || m.None? then None
      else Some(IR.Update(env, index, Index(m.value[k.value := l.value])))
    case QueryScope(body) => ExecBlock(calls, env, map[], body)
  }

  ghost function ExecSeq(calls: Calls, env: Env, ss: seq<Stmt>): (r: Option<Env>)
    requires env != []
    ensures r.Some? ==> |r.value| == |env|
    decreases ss, 0
  {
    if ss == [] then Some(env)
    else
      var r := Exec(calls, env, ss[0]);
      if r.None? then None else ExecSeq(calls, r.value, ss[1..])
  }

  ghost function ExecBlock(calls: Calls, env: Env, frame: map<Name, Slot>, ss: seq<Stmt>): (r: Option<Env>)
    requires env != []
    ensures r.Some? ==> |r.value| == |env|
    decreases ss, 1
  {
    var r := ExecSeq(calls, [frame] + env, ss);
    if r.None? then None else Some(r.value[1..])
  }

  // The rounds of a loop, each in a frame of its own.
  ghost function ExecEach(calls: Calls, env: Env, x: Name, items: seq<Datum>, body: seq<Stmt>): (r: Option<Env>)
    requires env != []
    ensures r.Some? ==> |r.value| == |env|
    decreases body, 2, |items|
  {
    if items == [] then Some(env)
    else
      var r := ExecBlock(calls, env, map[x := Plain(items[0])], body);
      if r.None? then None else ExecEach(calls, r.value, x, items[1..], body)
  }

  // --- What an expression looks at ---

  // The names aotirExprVarNames collects.
  function VarNames(e: Expr): (ns: set<Name>)
    decreases e, 0
  {
    match e
    case Var(name) => {name}
    case Binary(_, left, right) => VarNames(left) + VarNames(right)
    case Unary(_, operand) => VarNames(operand)
    case Field(receiver, _) => VarNames(receiver)
    case Call(_, args) => AllVarNames(args)
    case _ => {}
  }

  function AllVarNames(es: seq<Expr>): (ns: set<Name>)
    decreases es, 0
  {
    if es == [] then {} else VarNames(es[0]) + AllVarNames(es[1..])
  }

  // What a user can write in a query here: literals, variables, operators,
  // field reads and pure calls.
  predicate UserExpr(e: Expr)
    decreases e, 0
  {
    match e
    case Const(_) => true
    case Var(name) => name.User?
    case Binary(_, left, right) => UserExpr(left) && UserExpr(right)
    case Unary(_, operand) => UserExpr(operand)
    case Field(receiver, _) => UserExpr(receiver)
    case Call(_, args) => UserExprs(args)
    case _ => false
  }

  predicate UserExprs(es: seq<Expr>)
    decreases es, 0
  {
    es == [] || (UserExpr(es[0]) && UserExprs(es[1..]))
  }

  // Environments that show the same values under the given names.
  ghost predicate SameOn(ns: set<Name>, a: Env, b: Env) {
    forall n :: n in ns ==> IR.Lookup(a, n) == IR.Lookup(b, n)
  }

  // A user expression depends on its variables only.
  lemma {:induction false} EvalSame(calls: Calls, a: Env, b: Env, e: Expr)
    requires UserExpr(e) && SameOn(VarNames(e), a, b)
    ensures Eval(calls, a, e) == Eval(calls, b, e)
    decreases e, 0
  {
    match e
    case Binary(_, left, right) =>
      EvalSame(calls, a, b, left);
      EvalSame(calls, a, b, right);
    case Unary(_, operand) => EvalSame(calls, a, b, operand);
    case Field(receiver, _) => EvalSame(calls, a, b, receiver);
    case Call(_, args) => EvalAllSame(calls, a, b, args);
    case _ =>
  }

  lemma {:induction false} EvalAllSame(calls: Calls, a: Env, b: Env, es: seq<Expr>)
    requires UserExprs(es) && SameOn(AllVarNames(es), a, b)
    ensures EvalAll(calls, a, es) == EvalAll(calls, b, es)
    decreases es, 0
  {
    if es != [] {
      EvalSame(calls, a, b, es[0]);
      EvalAllSame(calls, a, b, es[1..]);
    }
  }

  // --- Chains ---

  lemma {:induction false} LookupUpdate(c: Env, n: Name, x: Slot, m: Name)
    requires IR.Lookup(c, n).Some?
    ensures IR.Lookup(IR.Update(c, n, x), m) == if m == n then Some(x) else IR.Lookup(c, m)
  {
    var u := IR.Update(c, n, x);
    if n !in c[0] {
      LookupUpdate(c[1..], n, x, m);
      assert u[0] == c[0] && u[1..] == IR.Update(c[1..], n, x);
    } else {
      assert u[0] == c[0][n := x] && u[1..] == c[1..];
    }
  }

  lemma {:induction false} UpdateTwice(c: Env, n: Name, x: Slot, y: Slot)
    ensures IR.Update(IR.Update(c, n, x), n, y) == IR.Update(c, n, y)
  {
    if c != [] {
      var u := IR.Update(c, n, x);
      if n !in c[0] {
        UpdateTwice(c[1..], n, x, y);
        assert u[0] == c[0] && u[1..] == IR.Update(c[1..], n, x);
      } else {
        assert u[0] == c[0][n := x] && u[1..] == c[1..];
        assert u[0][n := y] == c[0][n := y];
      }
    }
  }

  lemma {:induction false} UpdateSame(c: Env, n: Name)
    requires IR.Lookup(c, n).Some?
    ensures IR.Update(c, n, IR.Lookup(c, n).value) == c
  {
    if n in c[0] {
      assert c[0][n := c[0][n]] == c[0];
    } else {
      UpdateSame(c[1..], n);
    }
  }

  // A new frame in front.
  lemma LookupPush(frame: map<Name, Slot>, c: Env, m: Name)
    ensures IR.Lookup([frame] + c, m) == if m in frame then Some(frame[m]) else IR.Lookup(c, m)
  {
    assert ([frame] + c)[1..] == c;
  }

  lemma UpdatePush(frame: map<Name, Slot>, c: Env, n: Name, x: Slot)
    requires n !in frame
    ensures IR.Update([frame] + c, n, x) == [frame] + IR.Update(c, n, x)
  {
    assert ([frame] + c)[1..] == c;
  }

  lemma UpdateHead(frame: map<Name, Slot>, c: Env, n: Name, x: Slot)
    requires n in frame
    ensures IR.Update([frame] + c, n, x) == [frame[n := x]] + c
  {
    assert ([frame] + c)[1..] == c;
  }

  lemma DeclareHead(frame: map<Name, Slot>, c: Env, n: Name, x: Slot)
    ensures IR.Declare([frame] + c, n, x) == [frame[n := x]] + c
  {
    assert ([frame] + c)[1..] == c;
  }
}
