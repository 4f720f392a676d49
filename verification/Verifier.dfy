/**
 * The IR verifier on the scalar fragment (internal/aotir/verifier.go): a
 * scoped type checker run between lowering and emission.
 *
 * `CheckExpr`, `CheckStmt`, `CheckSeq` and `Accepts` say which programs pass.
 * `Context` is the checker itself, which pushes and pops frames and bumps the
 * loop depth in place; each of its methods decides exactly those predicates.
 */
module Verifier {
  import opened Options
  import opened IR

  datatype Binding = Binding(t: Type, mutable: bool)
  type Scope = Chain<Binding>

  datatype Signature = Signature(left: Type, right: Type, res: Type)

  function BinOpSignature(op: BinOp): (r: Signature) {
    match op
    case AddI64 | SubI64 | MulI64 | DivI64 | ModI64 => Signature(Int, Int, Int)
    case AddF64 | SubF64 | MulF64 | DivF64 => Signature(Float, Float, Float)
    case EqI64 | NeI64 | LtI64 | LeI64 | GtI64 | GeI64 => Signature(Int, Int, Bool)
    case EqF64 | NeF64 | LtF64 | LeF64 | GtF64 | GeF64 => Signature(Float, Float, Bool)
    case EqBool | NeBool | AndBool | OrBool => Signature(Bool, Bool, Bool)
    case EqStr | NeStr => Signature(Str, Str, Bool)
    case StrCat => Signature(Str, Str, Str)
  }

  // What the call checks need of a callee.
  datatype Sig = Sig(params: seq<Type>, ret: Type)
  type Fns = map<string, Sig>

  // Every unary operator returns the type it takes.
  function UnOpSignature(op: UnOp): (t: Type) {
    match op
    case NegI64 => Int
    case NegF64 => Float
    case NotBool => Bool
  }

  predicate CheckExpr(fns: Fns, sc: Scope, e: Expr)
    decreases e, 0
  {
    match e
    case StrLit(_) | IntLit(_) | FloatLit(_) | BoolLit(_) => true
    case VarRef(name, t) =>
      var b := Lookup(sc, name);
      b.Some? && b.value.t == t
    case Binary(op, left, right, res) =>
      && CheckExpr(fns, sc, left)
      && CheckExpr(fns, sc, right)
      && BinOpSignature(op) == Signature(left.Type(), right.Type(), res)
    case Unary(op, operand, res) =>
      && CheckExpr(fns, sc, operand)
      && UnOpSignature(op) == operand.Type() == res
    case CallE(fn, args, res) =>
      && fn in fns
      && fns[fn].ret != Unit
      && fns[fn].ret == res
      && CheckArgs(fns, sc, args, fns[fn].params)
  }

  predicate CheckArgs(fns: Fns, sc: Scope, es: seq<Expr>, ts: seq<Type>)
    decreases es, 0
  {
    && |es| == |ts|
    && (es != [] ==>
          && CheckExpr(fns, sc, es[0])
          && es[0].Type() == ts[0]
          && CheckArgs(fns, sc, es[1..], ts[1..]))
  }

  function ParamTypes(ps: seq<Param>): (ts: seq<Type>)
    ensures |ts| == |ps|
    ensures forall k :: 0 <= k < |ps| ==> ts[k] == ps[k].t
  {
    seq(|ps|, k requires 0 <= k < |ps| => ps[k].t)
  }

  // The parameter types of a callee in statement position: a builtin wins
  // over a function of the same name.
  function ResolveCallSig(fns: Fns, fn: string): (r: Option<seq<Type>>) {
    if Builtin(fn).Some? then Some([Builtin(fn).value])
    else if fn in fns then Some(fns[fn].params)
    else None
  }

  // What a statement may see beside the scope.
  datatype Where = Where(ret: Type, depth: nat)

  // The scope after the statement, or None when it is rejected.
  function CheckStmt(fns: Fns, w: Where, sc: Scope, s: Stmt): (r: Option<Scope>)
    requires sc != []
    ensures r.Some? ==> |r.value| == |sc| && r.value[1..] == sc[1..]
    decreases s, 0
  {
    match s
    case CallS(fn, args) =>
      var ts := ResolveCallSig(fns, fn);
      if ts.Some? && CheckArgs(fns, sc, args, ts.value) then Some(sc) else None
    case Let(name, t, init, mutable) =>
      if name != "" && name !in sc[0] && CheckExpr(fns, sc, init) && init.Type() == t
      then Some(Declare(sc, name, Binding(t, mutable))) else None
    case Predeclare(name, t, mutable) =>
      if name != "" && name !in sc[0] && mutable
      then Some(Declare(sc, name, Binding(t, mutable))) else None
    case Assign(name, value) =>
      var b := Lookup(sc, name);
      if b.Some? && b.value.mutable && CheckExpr(fns, sc, value) && value.Type() == b.value.t
      then Some(sc) else None
    case If(cond, thn, els) =>
      if CheckExpr(fns, sc, cond) && cond.Type() == Bool && CheckBlock(fns, w, sc, map[], thn)
          && CheckBlock(fns, w, sc, map[], els)
      then Some(sc) else None
    case While(cond, body) =>
      if CheckExpr(fns, sc, cond) && cond.Type() == Bool && CheckBlock(fns, Inside(w), sc, map[], body)
      then Some(sc) else None
    case ForRange(name, start, end, body) =>
      if && name != ""
         && CheckExpr(fns, sc, start) && start.Type() == Int
         && CheckExpr(fns, sc, end) && end.Type() == Int
         && CheckBlock(fns, Inside(w), sc, map[name := Binding(Int, false)], body)
      then Some(sc) else None
    case Break | Continue => if w.depth > 0 then Some(sc) else None
    case Return(value) =>
      if CheckExpr(fns, sc, value) && value.Type() == w.ret then Some(sc) else None
    case ReturnUnit => if w.ret == Unit then Some(sc) else None
  }

  function Inside(w: Where): (r: Where) { w.(depth := w.depth + 1) }

  function CheckSeq(fns: Fns, w: Where, sc: Scope, ss: seq<Stmt>): (r: Option<Scope>)
    requires sc != []
    ensures r.Some? ==> |r.value| == |sc| && r.value[1..] == sc[1..]
    decreases ss, 0
  {
    if ss == [] then Some(sc)
    else
      var r := CheckStmt(fns, w, sc, ss[0]);
      if r.None? then None else CheckSeq(fns, w, r.value, ss[1..])
  }

  predicate CheckBlock(fns: Fns, w: Where, sc: Scope, frame: map<string, Binding>, ss: seq<Stmt>)
    decreases ss, 1
  {
    CheckSeq(fns, w, [frame] + sc, ss).Some?
  }

  function ParamScope(ps: seq<Param>): (m: map<string, Binding>)
    ensures m.Keys == set q | q in ps :: q.name
  {
    if ps == [] then map[]
    else
      var k := |ps| - 1;
      ParamScope(ps[..k])[ps[k].name := Binding(ps[k].t, false)]
  }

  // The first n names are there and distinct.
  predicate ParamsOk(ps: seq<Param>, n: nat)
    requires n <= |ps|
  {
    && (forall k :: 0 <= k < n ==> ps[k].name != "")
    && (forall j, k :: 0 <= j < k < n ==> ps[j].name != ps[k].name)
  }

  lemma ParamScopeTaken(ps: seq<Param>, k: nat)
    requires k < |ps|
    ensures ps[k].name in ParamScope(ps[..k]) <==> exists j :: 0 <= j < k && ps[j].name == ps[k].name
  {
    var before := ps[..k];
    if j :| 0 <= j < k && ps[j].name == ps[k].name {
      assert before[j] in before;
    }
    if ps[k].name in ParamScope(before) {
      var q :| q in before && q.name == ps[k].name;
      var j :| 0 <= j < k && before[j] == q;
      assert ps[j].name == ps[k].name;
    }
  }

  // One more parameter.
  lemma ParamScopeStep(ps: seq<Param>, k: nat)
    requires k < |ps|
    ensures ParamScope(ps[..k + 1]) == ParamScope(ps[..k])[ps[k].name := Binding(ps[k].t, false)]
  {
    assert ps[..k + 1][..k] == ps[..k];
  }

  // The name table of a program; its names are unique when it is used.
  function SigsOf(fs: seq<Function>): (m: Fns) {
    if fs == [] then map[]
    else
      var k := |fs| - 1;
      SigsOf(fs[..k])[fs[k].name := SigOf(fs[k])]
  }

  function SigOf(f: Function): (s: Sig) { Sig(ParamTypes(f.params), f.ret) }

  predicate CheckFunction(fns: Fns, f: Function) {
    && ParamsOk(f.params, |f.params|)
    && CheckSeq(fns, Where(f.ret, 0), [ParamScope(f.params)], f.body).Some?
  }

  predicate NamesOk(fs: seq<Function>) {
    && (forall k :: 0 <= k < |fs| ==> fs[k].name != "")
    && (forall j, k :: 0 <= j < k < |fs| ==> fs[j].name != fs[k].name)
  }

  // The programs Verify accepts.
  predicate Accepts(p: Program) {
    && 0 <= p.main < |p.functions|
    && NamesOk(p.functions)
    && p.functions[p.main].ret == Unit
    && p.functions[p.main].params == []
    && forall f :: f in p.functions ==> CheckFunction(SigsOf(p.functions), f)
  }

  // --- The checker as it works: frames pushed and popped in place ---

  // scope.lookup: walk the parent chain.
  method Find(scope: Scope, name: string) returns (r: Option<Binding>)
    ensures r == Lookup(scope, name)
  {
    var s := scope;
    while s != []
      invariant Lookup(s, name) == Lookup(scope, name)
      decreases |s|
    {
      if name in s[0] {
        return Some(s[0][name]);
      }
      s := s[1..];
    }
    return None;
  }

  class Context {
    const fns: Fns
    const ret: Type
    var scope: Scope
    var depth: nat

    constructor (fns: Fns, ret: Type)
      ensures this.fns == fns && this.ret == ret && scope == [map[]] && depth == 0
    {
      this.fns, this.ret, scope, depth := fns, ret, [map[]], 0;
    }

    ghost function Here(): (w: Where)
      reads this
    { Where(ret, depth) }

    // verifyExprCtx
    method VerifyExpr(e: Expr) returns (ok: bool)
      ensures ok == CheckExpr(fns, scope, e)
      decreases e, 0
    {
      match e
      case StrLit(_) | IntLit(_) | FloatLit(_) | BoolLit(_) =>
        return true;
      case VarRef(name, t) =>
        var b := Find(scope, name);
        return b.Some? && t == b.value.t;
      case Binary(op, left, right, res) =>
        var a := VerifyExpr(left);
        if !a { return false; }
        var b := VerifyExpr(right);
        if !b { return false; }
        var sig := BinOpSignature(op);
        if left.Type() != sig.left || right.Type() != sig.right { return false; }
        return res == sig.res;
      case Unary(op, operand, res) =>
        var a := VerifyExpr(operand);
        if !a { return false; }
        var t := UnOpSignature(op);
        if operand.Type() != t { return false; }
        return res == t;
      case CallE(fn, args, res) =>
        if fn !in fns || fns[fn].ret == Unit || res != fns[fn].ret { return false; }
        ok := VerifyArgs(args, fns[fn].params);
    }

    // The argument loops of CallStmt and CallExpr.
    method VerifyArgs(args: seq<Expr>, ts: seq<Type>) returns (ok: bool)
      ensures ok == CheckArgs(fns, scope, args, ts)
      decreases args, 1
    {
      if |args| != |ts| { return false; }
      var k := 0;
      while k < |args|
        invariant 0 <= k <= |args|
        invariant CheckArgs(fns, scope, args, ts) == CheckArgs(fns, scope, args[k..], ts[k..])
      {
        var a := VerifyExpr(args[k]);
        if !a || args[k].Type() != ts[k] { return false; }
        assert args[k..][1..] == args[k + 1..] && ts[k..][1..] == ts[k + 1..];
        k := k + 1;
      }
      return true;
    }

    // verifyStmt with the statement verifiers it dispatches to.
    method VerifyStmt(s: Stmt) returns (ok: bool)
      requires scope != []
      modifies this
      ensures depth == old(depth) && |scope| == |old(scope)| && scope[1..] == old(scope)[1..]
      ensures ok == CheckStmt(fns, old(Here()), old(scope), s).Some?
      ensures ok ==> scope == CheckStmt(fns, old(Here()), old(scope), s).value
      decreases s, 0
    {
      match s
      case CallS(fn, args) =>
        var ts := ResolveCallSig(fns, fn);
        if ts.None? { return false; }
        ok := VerifyArgs(args, ts.value);
      case Let(name, t, init, mutable) =>
        if name == "" || name in scope[0] { return false; }
        var a := VerifyExpr(init);
        if !a || init.Type() != t { return false; }
        scope := Declare(scope, name, Binding(t, mutable));
        return true;
      case Predeclare(name, t, mutable) =>
        if name == "" || name in scope[0] || !mutable { return false; }
        scope := Declare(scope, name, Binding(t, mutable));
        return true;
      case Assign(name, value) =>
        var b := Find(scope, name);
        if b.None? || !b.value.mutable { return false; }
        var a := VerifyExpr(value);
        return a && value.Type() == b.value.t;
      case If(cond, thn, els) =>
        var a := VerifyExpr(cond);
        if !a || cond.Type() != Bool { return false; }
        var b := VerifyBlock(map[], thn);
        if !b { return false; }
        ok := VerifyBlock(map[], els);
      case While(cond, body) =>
        var a := VerifyExpr(cond);
        if !a || cond.Type() != Bool { return false; }
        depth := depth + 1;
        ok := VerifyBlock(map[], body);
        depth := depth - 1;
      case ForRange(name, start, end, body) =>
        if name == "" { return false; }
        var a := VerifyExpr(start);
        if !a || start.Type() != Int { return false; }
        var b := VerifyExpr(end);
        if !b || end.Type() != Int { return false; }
        depth := depth + 1;
        ok := VerifyBlock(map[name := Binding(Int, false)], body);
        depth := depth - 1;
      case Break | Continue =>
        return depth != 0;
      case Return(value) =>
        var a := VerifyExpr(value);
        return a && value.Type() == ret;
      case ReturnUnit =>
        return ret == Unit;
    }

    // verifyBlock, and the body of a for loop, whose frame already holds the
    // induction variable.
    method VerifyBlock(frame: map<string, Binding>, ss: seq<Stmt>) returns (ok: bool)
      modifies this
      ensures depth == old(depth) && scope == old(scope)
      ensures ok == CheckBlock(fns, old(Here()), old(scope), frame, ss)
      decreases ss, 2
    {
      var prev := scope;
      scope := [frame] + prev;
      ok := VerifySeq(ss);
      scope := prev;
    }

    method VerifySeq(ss: seq<Stmt>) returns (ok: bool)
      requires scope != []
      modifies this
      ensures depth == old(depth) && |scope| == |old(scope)| && scope[1..] == old(scope)[1..]
      ensures ok == CheckSeq(fns, old(Here()), old(scope), ss).Some?
      decreases ss, 1
    {
      var k := 0;
      while k < |ss|
        invariant 0 <= k <= |ss|
        invariant depth == old(depth) && |scope| == |old(scope)| && scope[1..] == old(scope)[1..]
        invariant CheckSeq(fns, old(Here()), old(scope), ss) == CheckSeq(fns, Here(), scope, ss[k..])
      {
        var a := VerifyStmt(ss[k]);
        if !a { return false; }
        assert ss[k..][1..] == ss[k + 1..];
        k := k + 1;
      }
      return true;
    }

    // Seeds the root frame with the parameters.
    method SeedParams(ps: seq<Param>) returns (ok: bool)
      requires scope == [map[]]
      modifies this
      ensures depth == old(depth)
      ensures ok == ParamsOk(ps, |ps|)
      ensures ok ==> scope == [ParamScope(ps)]
    {
      var k := 0;
      while k < |ps|
        invariant 0 <= k <= |ps|
        invariant depth == old(depth) && scope == [ParamScope(ps[..k])]
        invariant ParamsOk(ps, k)
      {
        ParamScopeTaken(ps, k);
        ParamScopeStep(ps, k);
        if ps[k].name == "" || ps[k].name in scope[0] { return false; }
        scope := Declare(scope, ps[k].name, Binding(ps[k].t, false));
        k := k + 1;
      }
      assert ps[..|ps|] == ps;
      return true;
    }
  }

  // The first loop over the functions: names present and unique, collected
  // in the name table.
  method CollectNames(fs: seq<Function>) returns (ok: bool, fns: Fns)
    ensures ok == NamesOk(fs)
    ensures ok ==> fns == SigsOf(fs)
  {
    fns := map[];
    var k := 0;
    while k < |fs|
      invariant 0 <= k <= |fs|
      invariant fns.Keys == set j | 0 <= j < k :: fs[j].name
      invariant fns == SigsOf(fs[..k])
      invariant NamesOk(fs[..k])
    {
      if fs[k].name == "" || fs[k].name in fns { return false, fns; }
      assert fs[..k + 1][..k] == fs[..k];
      fns := fns[fs[k].name := SigOf(fs[k])];
      k := k + 1;
    }
    assert fs[..k] == fs;
    return true, fns;
  }

  method Verify(p: Program) returns (ok: bool)
    ensures ok == Accepts(p)
  {
    if p.main < 0 || p.main >= |p.functions| { return false; }
    var n, fns := CollectNames(p.functions);
    if !n { return false; }
    var entry := p.functions[p.main];
    if entry.ret != Unit || |entry.params| != 0 { return false; }
    for k := 0 to |p.functions|
      invariant forall j :: 0 <= j < k ==> CheckFunction(fns, p.functions[j])
    {
      var f := p.functions[k];
      assert f in p.functions;
      var ctx := new Context(fns, f.ret);
      var s := ctx.SeedParams(f.params);
      if !s { return false; }
      var b := ctx.VerifySeq(f.body);
      if !b { return false; }
    }
    return true;
  }

  // --- What no run depends on, but the verifier promises ---

  // No name bound anywhere is empty, what is predeclared is mutable, and no
  // expression calls a function without a result.
  predicate CleanExpr(fns: Fns, e: Expr)
    decreases e, 0
  {
    match e
    case Binary(_, left, right, _) => CleanExpr(fns, left) && CleanExpr(fns, right)
    case Unary(_, operand, _) => CleanExpr(fns, operand)
    case CallE(fn, args, _) =>
      fn in fns && fns[fn].ret != Unit && forall k :: 0 <= k < |args| ==> CleanExpr(fns, args[k])
    case _ => true
  }

  predicate CleanStmt(fns: Fns, s: Stmt)
    decreases s, 0
  {
    match s
    case CallS(_, args) => forall k :: 0 <= k < |args| ==> CleanExpr(fns, args[k])
    case Let(name, _, init, _) => name != "" && CleanExpr(fns, init)
    case Predeclare(name, _, mutable) => name != "" && mutable
    case Assign(_, value) => CleanExpr(fns, value)
    case If(cond, thn, els) => CleanExpr(fns, cond) && CleanSeq(fns, thn) && CleanSeq(fns, els)
    case While(cond, body) => CleanExpr(fns, cond) && CleanSeq(fns, body)
    case ForRange(name, start, end, body) =>
      name != "" && CleanExpr(fns, start) && CleanExpr(fns, end) && CleanSeq(fns, body)
    case Return(value) => CleanExpr(fns, value)
    case Break | Continue | ReturnUnit => true
  }

  predicate CleanSeq(fns: Fns, ss: seq<Stmt>)
    decreases ss, 0
  {
    forall k :: 0 <= k < |ss| ==> CleanStmt(fns, ss[k])
  }

  lemma {:induction false} CheckedExprClean(fns: Fns, sc: Scope, e: Expr)
    requires CheckExpr(fns, sc, e)
    ensures CleanExpr(fns, e)
    decreases e, 0
  {
    match e {
      case Binary(_, left, right, _) =>
        CheckedExprClean(fns, sc, left);
        CheckedExprClean(fns, sc, right);
      case Unary(_, operand, _) => CheckedExprClean(fns, sc, operand);
      case CallE(fn, args, _) => CheckedArgsClean(fns, sc, args, fns[fn].params);
      case _ =>
    }
  }

  lemma {:induction false} CheckedArgsClean(fns: Fns, sc: Scope, es: seq<Expr>, ts: seq<Type>)
    requires CheckArgs(fns, sc, es, ts)
    ensures forall k :: 0 <= k < |es| ==> CleanExpr(fns, es[k])
    decreases es, 0
  {
    hide CleanExpr, CheckExpr;
    if es != [] {
      CheckedExprClean(fns, sc, es[0]);
      CheckedArgsClean(fns, sc, es[1..], ts[1..]);
      assert forall k :: 1 <= k < |es| ==> es[k] == es[1..][k - 1];
    }
  }

  lemma {:induction false} CheckedStmtClean(fns: Fns, w: Where, sc: Scope, s: Stmt)
    requires sc != [] && CheckStmt(fns, w, sc, s).Some?
    ensures CleanStmt(fns, s)
    decreases s, 0
  {
    hide CleanExpr, CheckExpr, CheckArgs, CleanSeq;
    match s {
      case CallS(fn, args) => CheckedArgsClean(fns, sc, args, ResolveCallSig(fns, fn).value);
      case Let(_, _, init, _) => CheckedExprClean(fns, sc, init);
      case Assign(_, value) => CheckedExprClean(fns, sc, value);
      case If(cond, thn, els) =>
        CheckedExprClean(fns, sc, cond);
        CheckedSeqClean(fns, w, [map[]] + sc, thn);
        CheckedSeqClean(fns, w, [map[]] + sc, els);
      case While(cond, body) =>
        CheckedExprClean(fns, sc, cond);
        CheckedSeqClean(fns, Inside(w), [map[]] + sc, body);
      case ForRange(name, start, end, body) =>
        CheckedExprClean(fns, sc, start);
        CheckedExprClean(fns, sc, end);
        CheckedSeqClean(fns, Inside(w), [map[name := Binding(Int, false)]] + sc, body);
      case Return(value) => CheckedExprClean(fns, sc, value);
      case _ =>
    }
  }

  lemma {:induction false} CheckedSeqClean(fns: Fns, w: Where, sc: Scope, ss: seq<Stmt>)
    requires sc != [] && CheckSeq(fns, w, sc, ss).Some?
    ensures CleanSeq(fns, ss)
    decreases ss, 0
  {
    hide CleanStmt, CheckStmt;
    if ss != [] {
      CheckedStmtClean(fns, w, sc, ss[0]);
      CheckedSeqClean(fns, w, CheckStmt(fns, w, sc, ss[0]).value, ss[1..]);
      assert forall k :: 1 <= k < |ss| ==> ss[k] == ss[1..][k - 1];
    }
  }

  // An accepted program is clean throughout, and starts in a function that
  // takes and returns nothing.
  lemma AcceptedClean(p: Program)
    requires Accepts(p)
    ensures forall f :: f in p.functions ==>
              && f.name != "" && CleanSeq(SigsOf(p.functions), f.body)
              && forall k :: 0 <= k < |f.params| ==> f.params[k].name != ""
    ensures 0 <= p.main < |p.functions| && p.functions[p.main].ret == Unit && p.functions[p.main].params == []
  {
    hide CleanSeq, CheckSeq, SigsOf;
    forall f | f in p.functions
      ensures f.name != "" && CleanSeq(SigsOf(p.functions), f.body)
    {
      CheckedSeqClean(SigsOf(p.functions), Where(f.ret, 0), [ParamScope(f.params)], f.body);
    }
  }

  // A fresh name can be predeclared; it is then visible, mutable and of its
  // type, and nothing else has changed.
  lemma PredeclareBinds(fns: Fns, w: Where, sc: Scope, name: string, t: Type, other: string)
    requires sc != [] && name != "" && name !in sc[0]
    ensures var r := CheckStmt(fns, w, sc, Predeclare(name, t, true));
            && r.Some? && Lookup(r.value, name) == Some(Binding(t, true))
            && (other != name ==> Lookup(r.value, other) == Lookup(sc, other))
  {
  }
}
