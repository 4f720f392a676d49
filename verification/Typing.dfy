/**
 * Which source programs are well typed: a judgement on the source syntax
 * alone.  It knows nothing of the lowering, its operators or its output; types
 * of calls come from the declarations, and `Acceptance` proves that exactly
 * the well-typed programs are lowered.
 */
module Typing {
  import opened Options
  import opened IR
  import opened Verifier
  import opened Source

  const TYPES: map<string, Type> := map["int" := Int, "float" := Float, "bool" := Bool, "string" := Str, "unit" := Unit]

  // The type an annotation names.
  function Named(ann: Option<string>): (t: Option<Type>) {
    if ann.Some? && ann.value in TYPES then Some(TYPES[ann.value]) else None
  }

  // Both operands have one type, and the operator is defined on it.
  function ResultType(op: string, a: Type, b: Type): (t: Option<Type>) {
    if a != b then None
    else if op in {"+", "-", "*", "/"} && a in {Int, Float} then Some(a)
    else if op == "%" && a == Int then Some(Int)
    else if op == "+" && a == Str then Some(Str)
    else if op in {"<", "<=", ">", ">="} && a in {Int, Float} then Some(Bool)
    else if op in {"==", "!="} && a != Unit then Some(Bool)
    else if op in {"&&", "||"} && a == Bool then Some(Bool)
    else None
  }

  // Every prefix operator keeps the type it is applied to.
  predicate CanPrefix(op: string, t: Type) {
    (op == "-" && t in {Int, Float}) || (op == "!" && t == Bool)
  }

  // Names with a meaning of their own in front of a user's function.
  predicate TakenInExpr(fn: string) {
    || fn == "print" || fn == "len" || fn == "append" || fn == "keys" || fn == "values" || fn == "has"
    || fn == "substring" || fn == "reverse" || fn == "str"
  }

  predicate TakenInStmt(fn: string) {
    fn == "panic" || fn == "send" || fn == "writeFile" || fn == "appendFile"
  }

  function TypeOf(ds: seq<FunDecl>, sc: Scope, e: SExpr): (t: Option<Type>)
    decreases e, 0
  {
    TypeOfChain(ds, sc, TypeOfUnary(ds, sc, e.left), e.rest)
  }

  // `left op1 u1 ... opn un` without precedence, of the type of `left`.
  function TypeOfChain(ds: seq<FunDecl>, sc: Scope, left: Option<Type>, rest: seq<SOperand>): (t: Option<Type>)
    decreases rest, 0
  {
    if rest == [] then left
    else
      var last := rest[|rest| - 1];
      var a, b := TypeOfChain(ds, sc, left, rest[..|rest| - 1]), TypeOfUnary(ds, sc, last.right);
      if a.Some? && b.Some? then ResultType(last.op, a.value, b.value) else None
  }

  function TypeOfUnary(ds: seq<FunDecl>, sc: Scope, u: SUnary): (t: Option<Type>)
    decreases u, 0
  {
    var t := TypeOfPrimary(ds, sc, u.value);
    if t.Some? && forall k :: 0 <= k < |u.ops| ==> CanPrefix(u.ops[k], t.value) then t else None
  }

  function TypeOfPrimary(ds: seq<FunDecl>, sc: Scope, x: SPrimary): (t: Option<Type>)
    decreases x, 0
  {
    match x
    case IntL(_) => Some(Int)
    case FloatL(_) => Some(Float)
    case BoolL(_) => Some(Bool)
    case StrL(s) => if '{' in s then None else Some(Str)
    case Group(e) => TypeOf(ds, sc, e)
    case Name(name) =>
      var b := Lookup(sc, name);
      if b.Some? then Some(b.value.t) else None
    case Call(fn, args) =>
      var d := FindDecl(ds, fn);
      if d.Some? && !TakenInExpr(fn) && Fits(ds, sc, args, d.value.params) && Named(d.value.ret) != Some(Unit)
          && forall k :: 0 <= k < |args| ==> args[k] != Chain(SUnary([], Name("_")), [])
      then Named(d.value.ret) else None
  }

  // One argument for each parameter, of its type.
  predicate Fits(ds: seq<FunDecl>, sc: Scope, args: seq<SExpr>, ps: seq<SParam>)
    decreases args, 0
  {
    && |args| == |ps|
    && forall k :: 0 <= k < |args| ==> TypeOf(ds, sc, args[k]).Some? && TypeOf(ds, sc, args[k]) == Named(ps[k].ann)
  }

  predicate HasType(ds: seq<FunDecl>, sc: Scope, e: SExpr, t: Type) { TypeOf(ds, sc, e) == Some(t) }

  // A call in statement position: `print` takes one printable value.
  predicate CallTyped(ds: seq<FunDecl>, sc: Scope, fn: string, args: seq<SExpr>) {
    if fn == "print" then
      |args| == 1 && TypeOf(ds, sc, args[0]).Some? && TypeOf(ds, sc, args[0]) != Some(Unit)
    else
      !TakenInStmt(fn) && FindDecl(ds, fn).Some? && Fits(ds, sc, args, FindDecl(ds, fn).value.params)
  }

  // `ret` is the type the function returns, `loops` the number of loops around.
  predicate StmtTyped(ds: seq<FunDecl>, ret: Type, loops: nat, sc: Scope, s: SStmt)
    requires sc != []
    decreases s, 0
  {
    match s
    case ExprS(e) =>
      e.rest == [] && e.left.ops == [] && e.left.value.Call? && CallTyped(ds, sc, e.left.value.fn, e.left.value.args)
    case Bind(name, ann, init, _) =>
      && name != "" && name !in sc[0]
      && TypeOf(ds, sc, init).Some?
      && (ann.Some? ==> Named(ann) == TypeOf(ds, sc, init))
    case AssignS(name, value) =>
      var b := Lookup(sc, name);
      b.Some? && b.value.mutable && HasType(ds, sc, value, b.value.t)
    case IfS(chain) => IfTyped(ds, ret, loops, sc, chain)
    case WhileS(cond, body) =>
      HasType(ds, sc, cond, Bool) && BodyTyped(ds, ret, loops + 1, sc, map[], body)
    case ForS(name, start, end, body) =>
      && name != ""
      && HasType(ds, sc, start, Int) && HasType(ds, sc, end, Int)
      && BodyTyped(ds, ret, loops + 1, sc, map[name := Binding(Int, false)], body)
    case BreakS | ContinueS => loops >= 1
    case ReturnS(value) => ret != Unit && HasType(ds, sc, value, ret)
    case ReturnNothing => ret == Unit
    case BindNothing(_) | NestedFun => false
  }

  predicate IfTyped(ds: seq<FunDecl>, ret: Type, loops: nat, sc: Scope, c: IfChain)
    requires sc != []
    decreases c, 0
  {
    && HasType(ds, sc, c.cond, Bool)
    && BodyTyped(ds, ret, loops, sc, map[], c.thn)
    && match c.els
       case NoElse => true
       case ElseBlock(body) => BodyTyped(ds, ret, loops, sc, map[], body)
       case ElseIf(chain) => IfTyped(ds, ret, loops, [map[]] + sc, chain)
  }

  // The scope after a statement: a binding adds its name.
  function Leaves(ds: seq<FunDecl>, sc: Scope, s: SStmt): (r: Scope)
    requires sc != []
    ensures r != []
  {
    if s.Bind? && TypeOf(ds, sc, s.init).Some? then
      [sc[0][s.name := Binding(TypeOf(ds, sc, s.init).value, s.mutable)]] + sc[1..]
    else sc
  }

  predicate SeqTyped(ds: seq<FunDecl>, ret: Type, loops: nat, sc: Scope, ss: seq<SStmt>)
    requires sc != []
    decreases ss, 0
  {
    ss == [] || (StmtTyped(ds, ret, loops, sc, ss[0]) && SeqTyped(ds, ret, loops, Leaves(ds, sc, ss[0]), ss[1..]))
  }

  predicate BodyTyped(ds: seq<FunDecl>, ret: Type, loops: nat, sc: Scope, frame: map<string, Binding>,
                      ss: seq<SStmt>)
    decreases ss, 1
  {
    SeqTyped(ds, ret, loops, [frame] + sc, ss)
  }

  predicate SignatureTyped(d: FunDecl) {
    && d.name != "" && d.name != "main" && Named(d.ret).Some?
    && (forall k :: 0 <= k < |d.params| ==> d.params[k].name != "" && Named(d.params[k].ann).Some?)
    && forall j, k :: 0 <= j < k < |d.params| ==> d.params[j].name != d.params[k].name
  }

  // The scope a function body starts in: its parameters, none of them mutable.
  function Formals(ps: seq<SParam>): (m: map<string, Binding>) {
    map p | p in Names(ps) :: Binding(FormalType(ps, p), false)
  }

  function Names(ps: seq<SParam>): (s: set<string>) { set p | p in ps :: p.name }

  function FormalType(ps: seq<SParam>, name: string): (t: Type)
    requires name in Names(ps)
  {
    var last := ps[|ps| - 1];
    if last.name == name then (if Named(last.ann).Some? then Named(last.ann).value else Unit)
    else
      assert ps == ps[..|ps| - 1] + [last];
      FormalType(ps[..|ps| - 1], name)
  }

  predicate DeclTyped(ds: seq<FunDecl>, d: FunDecl) {
    Named(d.ret).Some? && SeqTyped(ds, Named(d.ret).value, 0, [Formals(d.params)], d.body)
  }

  // Declarations first, then the bodies, then the script.
  predicate WellTyped(prog: seq<Top>) {
    var ds := Decls(prog);
    && (forall k :: 0 <= k < |ds| ==> SignatureTyped(ds[k]) && DeclTyped(ds, ds[k]))
    && (forall j, k :: 0 <= j < k < |ds| ==> ds[j].name != ds[k].name)
    && SeqTyped(ds, Unit, 0, [map[]], ScriptOf(prog))
  }
}
