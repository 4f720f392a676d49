/**
 * Lowering of the scalar fragment (internal/clower/lower.go): source
 * statements to typed IR, operators monomorphised by operand type, scopes and
 * loop depth tracked on the way.
 *
 * `LowerExpr`, `LowerStmt` and `LowerProgram` say what the result is; module
 * LowererCode computes it as the compiler does.
 */
module Lowering {
  import opened Options
  import opened IR
  import opened Verifier
  import opened Source

  datatype FuncSig = FuncSig(params: seq<Param>, ret: Type)
  type Funcs = map<string, FuncSig>

  function TypeFromRef(name: string): (r: Option<Type>) {
    match name
    case "int" => Some(Int)
    case "float" => Some(Float)
    case "bool" => Some(Bool)
    case "string" => Some(Str)
    case "unit" => Some(Unit)
    case _ => None
  }

  datatype Picked = Picked(op: BinOp, res: Type)

  function ArithOp(op: string): (r: Option<BinOp>) {
    match op
    case "+" => Some(AddI64)
    case "-" => Some(SubI64)
    case "*" => Some(MulI64)
    case "/" => Some(DivI64)
    case "%" => Some(ModI64)
    case _ => None
  }

  function ArithOpF(op: string): (r: Option<BinOp>) {
    match op
    case "+" => Some(AddF64)
    case "-" => Some(SubF64)
    case "*" => Some(MulF64)
    case "/" => Some(DivF64)
    case _ => None
  }

  function CmpIntOp(op: string): (r: Option<BinOp>) {
    match op
    case "==" => Some(EqI64)
    case "!=" => Some(NeI64)
    case "<" => Some(LtI64)
    case "<=" => Some(LeI64)
    case ">" => Some(GtI64)
    case ">=" => Some(GeI64)
    case _ => None
  }

  function CmpFloatOp(op: string): (r: Option<BinOp>) {
    match op
    case "==" => Some(EqF64)
    case "!=" => Some(NeF64)
    case "<" => Some(LtF64)
    case "<=" => Some(LeF64)
    case ">" => Some(GtF64)
    case ">=" => Some(GeF64)
    case _ => None
  }

  function Pick(op: Option<BinOp>, res: Type): (r: Option<Picked>) {
    if op.Some? then Some(Picked(op.value, res)) else None
  }

  // The typed operator for a source operator and its operand types.
  function OpForTypes(op: string, lhs: Type, rhs: Type): (r: Option<Picked>) {
    match op
    case "+" | "-" | "*" | "/" | "%" =>
      if lhs == Int && rhs == Int then Pick(ArithOp(op), Int)
      else if lhs == Float && rhs == Float then Pick(ArithOpF(op), Float)
      else if lhs == Str && rhs == Str && op == "+" then Some(Picked(StrCat, Str))
      else None
    case "==" | "!=" | "<" | "<=" | ">" | ">=" =>
      if lhs == Int && rhs == Int then Pick(CmpIntOp(op), Bool)
      else if lhs == Float && rhs == Float then Pick(CmpFloatOp(op), Bool)
      else if lhs == Bool && rhs == Bool then
        if op == "==" then Some(Picked(EqBool, Bool))
        else if op == "!=" then Some(Picked(NeBool, Bool))
        else None
      else if lhs == Str && rhs == Str then
        if op == "==" then Some(Picked(EqStr, Bool))
        else if op == "!=" then Some(Picked(NeStr, Bool))
        else None
      else None
    case "&&" | "||" =>
      if lhs != Bool || rhs != Bool then None
      else if op == "&&" then Some(Picked(AndBool, Bool))
      else Some(Picked(OrBool, Bool))
    case _ => None
  }

  // One prefix operator on a lowered operand.
  function LowerPrefix(op: string, e: Expr): (r: Option<Expr>) {
    match op
    case "-" =>
      if e.Type() == Int then Some(Unary(NegI64, e, Int))
      else if e.Type() == Float then Some(Unary(NegF64, e, Float))
      else None
    case "!" => if e.Type() == Bool then Some(Unary(NotBool, e, Bool)) else None
    case _ => None
  }

  function LowerPrefixes(ops: seq<string>, e: Expr): (r: Option<Expr>) {
    if ops == [] then Some(e)
    else
      var inner := LowerPrefixes(ops[1..], e);
      if inner.None? then None else LowerPrefix(ops[0], inner.value)
  }

  // Names that expression lowering takes for itself before it looks at the
  // user's functions; none of them is part of the scalar fragment.
  const RESERVED: set<string> := {"print", "len", "append", "keys", "values", "has", "substring", "reverse", "str"}

  // The same in statement position.
  const RESERVED_STMT: set<string> := {"panic", "send", "writeFile", "appendFile"}

  predicate Underscore(e: SExpr) {
    e.rest == [] && e.left.ops == [] && e.left.value == Name("_")
  }

  function Mangle(name: string): (r: string) { "mochi__" + name }

  function LowerExpr(fs: Funcs, sc: Scope, e: SExpr): (r: Option<Expr>)
    decreases e, 0
  {
    var left := LowerUnary(fs, sc, e.left);
    if left.None? then None else LowerRest(fs, sc, left.value, e.rest)
  }

  // The chain folds to the left.
  function LowerRest(fs: Funcs, sc: Scope, left: Expr, rest: seq<SOperand>): (r: Option<Expr>)
    decreases rest, 0
  {
    if rest == [] then Some(left)
    else
      var last := rest[|rest| - 1];
      var a := LowerRest(fs, sc, left, rest[..|rest| - 1]);
      if a.None? then None
      else
        var b := LowerUnary(fs, sc, last.right);
        if b.None? then None else LowerOp(last.op, a.value, b.value)
  }

  function LowerOp(op: string, a: Expr, b: Expr): (r: Option<Expr>) {
    var o := OpForTypes(op, a.Type(), b.Type());
    if o.None? then None else Some(Binary(o.value.op, a, b, o.value.res))
  }

  function LowerUnary(fs: Funcs, sc: Scope, u: SUnary): (r: Option<Expr>)
    decreases u, 0
  {
    var inner := LowerPrimary(fs, sc, u.value);
    if inner.None? then None else LowerPrefixes(u.ops, inner.value)
  }

  function LowerPrimary(fs: Funcs, sc: Scope, x: SPrimary): (r: Option<Expr>)
    decreases x, 0
  {
    match x
    case IntL(i) => Some(IntLit(i))
    case FloatL(f) => Some(FloatLit(f))
    case BoolL(b) => Some(BoolLit(b))
    case StrL(s) => if '{' in s then None else Some(StrLit(s))
    case Group(e) => LowerExpr(fs, sc, e)
    case Name(name) =>
      var b := Lookup(sc, name);
      if b.None? then None else Some(VarRef(name, b.value.t))
    case Call(fn, args) =>
      if fn in RESERVED || fn !in fs then None
      else if (exists a :: a in args && Underscore(a)) || fs[fn].ret == Unit then None
      else
        var es := LowerArgs(fs, sc, args, fs[fn].params);
        if es.None? then None else Some(CallE(Mangle(fn), es.value, fs[fn].ret))
  }

  function Glue(done: seq<Expr>, r: Option<seq<Expr>>): (q: Option<seq<Expr>>) {
    if r.None? then None else Some(done + r.value)
  }

  function LowerArgs(fs: Funcs, sc: Scope, args: seq<SExpr>, ps: seq<Param>): (r: Option<seq<Expr>>)
    ensures r.Some? ==> |r.value| == |args| == |ps|
    decreases args, 0
  {
    if |args| != |ps| then None
    else if args == [] then Some([])
    else
      var e := LowerExpr(fs, sc, args[0]);
      if e.None? || e.value.Type() != ps[0].t then None
      else
        Glue([e.value], LowerArgs(fs, sc, args[1..], ps[1..]))
  }

  function PrintCalleeFor(t: Type): (r: Option<string>) {
    match t
    case Str => Some("mochi_print_str")
    case Int => Some("mochi_print_i64")
    case Float => Some("mochi_print_f64")
    case Bool => Some("mochi_print_bool")
    case Unit => None
  }

  function LowerCallStmt(fs: Funcs, sc: Scope, fn: string, args: seq<SExpr>): (r: Option<Stmt>) {
    if fn == "print" then
      if |args| != 1 then None
      else
        var e := LowerExpr(fs, sc, args[0]);
        if e.None? then None
        else
          var callee := PrintCalleeFor(e.value.Type());
          if callee.None? then None else Some(CallS(callee.value, [e.value]))
    else if fn in RESERVED_STMT || fn !in fs then None
    else
      var es := LowerArgs(fs, sc, args, fs[fn].params);
      if es.None? then None else Some(CallS(Mangle(fn), es.value))
  }

  // A statement and the scope it leaves.
  datatype Lowered = Lowered(stmt: Stmt, scope: Scope)
  datatype LoweredSeq = LoweredSeq(stmts: seq<Stmt>, scope: Scope)

  function LowerStmt(fs: Funcs, w: Where, sc: Scope, s: SStmt): (r: Option<Lowered>)
    requires sc != []
    ensures r.Some? ==> |r.value.scope| == |sc| && r.value.scope[1..] == sc[1..]
    decreases s, 0
  {
    match s
    case ExprS(e) =>
      var c := BareCall(e);
      if c.None? then None
      else
        var st := LowerCallStmt(fs, sc, c.value.fn, c.value.args);
        if st.None? then None else Some(Lowered(st.value, sc))
    case Bind(name, ann, init, mutable) =>
      if name == "" || name in sc[0] then None
      else
        var e := LowerExpr(fs, sc, init);
        if e.None? || (ann.Some? && TypeFromRef(ann.value) != Some(e.value.Type())) then None
        else
          var t := e.value.Type();
          Some(Lowered(Let(name, t, e.value, mutable), Declare(sc, name, Binding(t, mutable))))
    case AssignS(name, value) =>
      var b := Lookup(sc, name);
      if b.None? || !b.value.mutable then None
      else
        var e := LowerExpr(fs, sc, value);
        if e.None? || e.value.Type() != b.value.t then None else Some(Lowered(Assign(name, e.value), sc))
    case IfS(chain) =>
      var st := LowerIf(fs, w, sc, chain);
      if st.None? then None else Some(Lowered(st.value, sc))
    case WhileS(cond, body) =>
      var c := LowerExpr(fs, sc, cond);
      if c.None? || c.value.Type() != Bool then None
      else
        var b := LowerBlock(fs, Inside(w), sc, map[], body);
        if b.None? then None else Some(Lowered(While(c.value, b.value), sc))
    case ForS(name, start, end, body) =>
      if name == "" then None
      else
        var a := LowerExpr(fs, sc, start);
        if a.None? || a.value.Type() != Int then None
        else
          var z := LowerExpr(fs, sc, end);
          if z.None? || z.value.Type() != Int then None
          else
            var b := LowerBlock(fs, Inside(w), sc, map[name := Binding(Int, false)], body);
            if b.None? then None else Some(Lowered(ForRange(name, a.value, z.value, b.value), sc))
    case BreakS => if w.depth == 0 then None else Some(Lowered(Break, sc))
    case ContinueS => if w.depth == 0 then None else Some(Lowered(Continue, sc))
    case ReturnS(value) =>
      if w.ret == Unit then None
      else
        var e := LowerExpr(fs, sc, value);
        if e.None? || e.value.Type() != w.ret then None else Some(Lowered(Return(e.value), sc))
    case ReturnNothing => if w.ret == Unit then Some(Lowered(ReturnUnit, sc)) else None
    case _ => None
  }

  function LowerIf(fs: Funcs, w: Where, sc: Scope, c: IfChain): (r: Option<Stmt>)
    requires sc != []
    decreases c, 0
  {
    var e := LowerExpr(fs, sc, c.cond);
    if e.None? || e.value.Type() != Bool then None
    else
      var t := LowerBlock(fs, w, sc, map[], c.thn);
      if t.None? then None
      else
        var f := LowerElse(fs, w, sc, c.els);
        if f.None? then None else Some(If(e.value, t.value, f.value))
  }

  function LowerElse(fs: Funcs, w: Where, sc: Scope, els: Else): (r: Option<seq<Stmt>>)
    requires sc != []
    decreases els, 0
  {
    match els
    case NoElse => Some([])
    case ElseBlock(body) => LowerBlock(fs, w, sc, map[], body)
    case ElseIf(chain) =>
      var st := LowerIf(fs, w, [map[]] + sc, chain);
      if st.None? then None else Some([st.value])
  }

  function Prepend(done: seq<Stmt>, r: Option<LoweredSeq>): (q: Option<LoweredSeq>) {
    if r.None? then None else Some(LoweredSeq(done + r.value.stmts, r.value.scope))
  }

  function LowerSeq(fs: Funcs, w: Where, sc: Scope, ss: seq<SStmt>): (r: Option<LoweredSeq>)
    requires sc != []
    ensures r.Some? ==> |r.value.scope| == |sc| && r.value.scope[1..] == sc[1..]
    decreases ss, 0
  {
    if ss == [] then Some(LoweredSeq([], sc))
    else
      var l := LowerStmt(fs, w, sc, ss[0]);
      if l.None? then None else Prepend([l.value.stmt], LowerSeq(fs, w, l.value.scope, ss[1..]))
  }

  // A nested block in a fresh frame; only its statements survive.
  function LowerBlock(fs: Funcs, w: Where, sc: Scope, frame: map<string, Binding>,
                      ss: seq<SStmt>): (r: Option<seq<Stmt>>)
    decreases ss, 1
  {
    var l := LowerSeq(fs, w, [frame] + sc, ss);
    if l.None? then None else Some(l.value.stmts)
  }

  // --- Declarations ---

  function LowerParams(ps: seq<SParam>): (r: Option<seq<Param>>)
    ensures r.Some? ==> |r.value| == |ps| && forall k :: 0 <= k < |ps| ==> r.value[k].name == ps[k].name
    ensures r.Some? ==> ParamsOk(r.value, |r.value|)
  {
    if ps == [] then Some([])
    else
      var k := |ps| - 1;
      var before := LowerParams(ps[..k]);
      if before.None? || ps[k].name == "" || (exists q :: q in before.value && q.name == ps[k].name)
          || ps[k].ann.None? then None
      else
        var t := TypeFromRef(ps[k].ann.value);
        if t.None? then None else Some(before.value + [Param(ps[k].name, t.value)])
  }

  function BuildFuncSig(d: FunDecl): (r: Option<FuncSig>) {
    if d.ret.None? || TypeFromRef(d.ret.value).None? then None
    else
      var ps := LowerParams(d.params);
      if ps.None? then None else Some(FuncSig(ps.value, TypeFromRef(d.ret.value).value))
  }

  // The first pass: every declared signature.
  function Collect(ds: seq<FunDecl>): (r: Option<Funcs>)
  {
    if ds == [] then Some(map[])
    else
      var k := |ds| - 1;
      var before := Collect(ds[..k]);
      if before.None? || ds[k].name == "" || ds[k].name == "main" || ds[k].name in before.value then None
      else
        var sig := BuildFuncSig(ds[k]);
        if sig.None? then None else Some(before.value[ds[k].name := sig.value])
  }

  lemma {:induction false} CollectKeys(ds: seq<FunDecl>)
    requires Collect(ds).Some?
    ensures forall d :: d in ds ==> d.name in Collect(ds).value
  {
    hide BuildFuncSig;
    if ds != [] {
      var k := |ds| - 1;
      CollectKeys(ds[..k]);
      forall d | d in ds ensures d.name in Collect(ds).value {
        assert d in ds[..k] || d == ds[k];
      }
    }
  }

  function LowerFunction(fs: Funcs, d: FunDecl): (r: Option<Function>)
    requires d.name in fs
  {
    var sig := fs[d.name];
    var b := LowerSeq(fs, Where(sig.ret, 0), [ParamScope(sig.params)], d.body);
    if b.None? then None else Some(Function(Mangle(d.name), sig.params, sig.ret, b.value.stmts))
  }

  // The second pass over the declarations.
  function LowerFunctions(fs: Funcs, ds: seq<FunDecl>): (r: Option<seq<Function>>)
    requires forall d :: d in ds ==> d.name in fs
    ensures r.Some? ==> |r.value| == |ds|
  {
    if ds == [] then Some([])
    else
      var k := |ds| - 1;
      var before := LowerFunctions(fs, ds[..k]);
      if before.None? then None
      else
        var f := LowerFunction(fs, ds[k]);
        if f.None? then None else Some(before.value + [f.value])
  }

  // The program before its final verification.
  function LowerProgram(prog: seq<Top>): (r: Option<Program>) {
    var fs := Collect(Decls(prog));
    if fs.None? then None
    else
      CollectKeys(Decls(prog));
      var gs := LowerFunctions(fs.value, Decls(prog));
      if gs.None? then None
      else
        var m := LowerSeq(fs.value, Where(Unit, 0), [map[]], ScriptOf(prog));
        if m.None? then None
        else Some(Program(gs.value + [Function("main", [], Unit, m.value.stmts)], |gs.value|))
  }
}
