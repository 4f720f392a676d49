/**
 * What lowering guarantees the verifier: its output is always accepted, scope
 * for scope and operator for operator.
 */
module LoweringCorrect {
  import opened Options
  import opened IR
  import opened Verifier
  import opened Soundness
  import opened Source
  import opened Lowering

  // --- The output verifies ---

  // The operator table of the lowerer agrees with the verifier's.
  lemma OpForTypesAgrees(op: string, lhs: Type, rhs: Type)
    requires OpForTypes(op, lhs, rhs).Some?
    ensures var o := OpForTypes(op, lhs, rhs).value; BinOpSignature(o.op) == Signature(lhs, rhs, o.res)
  {
  }

  // The emitted table holds every collected function under its mangled name.
  ghost predicate Matches(fs: Funcs, fns: Fns) {
    forall n :: n in fs ==> Mangle(n) in fns && fns[Mangle(n)] == Sig(ParamTypes(fs[n].params), fs[n].ret)
  }

  lemma {:induction false} PrefixesVerify(fns: Fns, sc: Scope, ops: seq<string>, e: Expr)
    requires CheckExpr(fns, sc, e) && LowerPrefixes(ops, e).Some?
    ensures CheckExpr(fns, sc, LowerPrefixes(ops, e).value)
  {
    if ops != [] {
      PrefixesVerify(fns, sc, ops[1..], e);
    }
  }

  lemma {:induction false} ExprVerifies(fs: Funcs, fns: Fns, sc: Scope, e: SExpr)
    requires Matches(fs, fns) && LowerExpr(fs, sc, e).Some?
    ensures CheckExpr(fns, sc, LowerExpr(fs, sc, e).value)
    decreases e, 0
  {
    hide Matches, CheckExpr, LowerUnary, LowerRest;
    UnaryVerifies(fs, fns, sc, e.left);
    RestVerifies(fs, fns, sc, LowerUnary(fs, sc, e.left).value, e.rest);
  }

  lemma {:induction false} RestVerifies(fs: Funcs, fns: Fns, sc: Scope, left: Expr, rest: seq<SOperand>)
    requires Matches(fs, fns) && CheckExpr(fns, sc, left) && LowerRest(fs, sc, left, rest).Some?
    ensures CheckExpr(fns, sc, LowerRest(fs, sc, left, rest).value)
    decreases rest, 0
  {
    if rest != [] {
      hide Matches, LowerUnary, OpForTypes, BinOpSignature;
      var last := rest[|rest| - 1];
      RestVerifies(fs, fns, sc, left, rest[..|rest| - 1]);
      UnaryVerifies(fs, fns, sc, last.right);
      var a, b := LowerRest(fs, sc, left, rest[..|rest| - 1]).value, LowerUnary(fs, sc, last.right).value;
      OpForTypesAgrees(last.op, a.Type(), b.Type());
    }
  }

  lemma {:induction false} UnaryVerifies(fs: Funcs, fns: Fns, sc: Scope, u: SUnary)
    requires Matches(fs, fns) && LowerUnary(fs, sc, u).Some?
    ensures CheckExpr(fns, sc, LowerUnary(fs, sc, u).value)
    decreases u, 0
  {
    hide Matches, CheckExpr, LowerPrimary, LowerPrefixes;
    PrimaryVerifies(fs, fns, sc, u.value);
    PrefixesVerify(fns, sc, u.ops, LowerPrimary(fs, sc, u.value).value);
  }

  lemma {:induction false} PrimaryVerifies(fs: Funcs, fns: Fns, sc: Scope, x: SPrimary)
    requires Matches(fs, fns) && LowerPrimary(fs, sc, x).Some?
    ensures CheckExpr(fns, sc, LowerPrimary(fs, sc, x).value)
    decreases x, 0
  {
    hide LowerArgs, LowerExpr, Mangle;
    match x
    case Group(e) => ExprVerifies(fs, fns, sc, e);
    case Call(fn, args) => ArgsVerify(fs, fns, sc, args, fs[fn].params);
    case _ =>
  }

  lemma {:induction false} ArgsVerify(fs: Funcs, fns: Fns, sc: Scope, args: seq<SExpr>, ps: seq<Param>)
    requires Matches(fs, fns) && LowerArgs(fs, sc, args, ps).Some?
    ensures CheckArgs(fns, sc, LowerArgs(fs, sc, args, ps).value, ParamTypes(ps))
    decreases args, 0
  {
    if args != [] {
      hide Matches, LowerExpr, CheckExpr;
      ExprVerifies(fs, fns, sc, args[0]);
      ArgsVerify(fs, fns, sc, args[1..], ps[1..]);
      assert ParamTypes(ps)[1..] == ParamTypes(ps[1..]);
      var es := LowerArgs(fs, sc, args, ps).value;
      assert es[1..] == LowerArgs(fs, sc, args[1..], ps[1..]).value;
    }
  }

  // A mangled name is never a builtin.
  lemma MangledIsNoBuiltin(name: string)
    ensures Builtin(Mangle(name)).None?
  {
    assert Mangle(name)[6] == '_';
  }

  lemma CallStmtVerifies(fs: Funcs, fns: Fns, sc: Scope, fn: string, args: seq<SExpr>)
    requires Matches(fs, fns) && LowerCallStmt(fs, sc, fn, args).Some?
    ensures var s := LowerCallStmt(fs, sc, fn, args).value;
            s.CallS? && ResolveCallSig(fns, s.fn).Some? && CheckArgs(fns, sc, s.args, ResolveCallSig(fns, s.fn).value)
  {
    hide LowerArgs, LowerExpr, Mangle, CheckExpr;
    if fn == "print" {
      ExprVerifies(fs, fns, sc, args[0]);
    } else {
      MangledIsNoBuiltin(fn);
      ArgsVerify(fs, fns, sc, args, fs[fn].params);
    }
  }

  lemma {:induction false} StmtVerifies(fs: Funcs, fns: Fns, w: Where, sc: Scope, s: SStmt)
    requires Matches(fs, fns) && sc != [] && LowerStmt(fs, w, sc, s).Some?
    ensures var l := LowerStmt(fs, w, sc, s).value; CheckStmt(fns, w, sc, l.stmt) == Some(l.scope)
    decreases s, 0
  {
    hide Matches, LowerExpr, CheckExpr, LowerCallStmt, CheckArgs, ResolveCallSig, LowerIf, LowerBlock, CheckBlock;
    match s
    case ExprS(e) =>
      var c := BareCall(e).value;
      CallStmtVerifies(fs, fns, sc, c.fn, c.args);
    case Bind(_, _, init, _) => ExprVerifies(fs, fns, sc, init);
    case AssignS(_, value) => ExprVerifies(fs, fns, sc, value);
    case IfS(chain) => IfVerifies(fs, fns, w, sc, chain);
    case WhileS(cond, body) =>
      ExprVerifies(fs, fns, sc, cond);
      BlockVerifies(fs, fns, Inside(w), sc, map[], body);
    case ForS(name, start, end, body) =>
      ExprVerifies(fs, fns, sc, start);
      ExprVerifies(fs, fns, sc, end);
      BlockVerifies(fs, fns, Inside(w), sc, map[name := Binding(Int, false)], body);
    case ReturnS(value) => ExprVerifies(fs, fns, sc, value);
    case _ =>
  }

  lemma {:induction false} IfVerifies(fs: Funcs, fns: Fns, w: Where, sc: Scope, c: IfChain)
    requires Matches(fs, fns) && sc != [] && LowerIf(fs, w, sc, c).Some?
    ensures CheckStmt(fns, w, sc, LowerIf(fs, w, sc, c).value) == Some(sc)
    decreases c, 0
  {
    hide Matches, LowerExpr, CheckExpr, LowerElse, LowerBlock, CheckBlock;
    ExprVerifies(fs, fns, sc, c.cond);
    BlockVerifies(fs, fns, w, sc, map[], c.thn);
    ElseVerifies(fs, fns, w, sc, c.els);
  }

  lemma {:induction false} ElseVerifies(fs: Funcs, fns: Fns, w: Where, sc: Scope, els: Else)
    requires Matches(fs, fns) && sc != [] && LowerElse(fs, w, sc, els).Some?
    ensures CheckBlock(fns, w, sc, map[], LowerElse(fs, w, sc, els).value)
    decreases els, 0
  {
    hide Matches, LowerBlock, LowerIf, CheckStmt;
    match els
    case ElseBlock(body) => BlockVerifies(fs, fns, w, sc, map[], body);
    case ElseIf(chain) =>
      IfVerifies(fs, fns, w, [map[]] + sc, chain);
      OneStmt(fns, w, [map[]] + sc, LowerIf(fs, w, [map[]] + sc, chain).value);
    case NoElse =>
  }

  lemma OneStmt(fns: Fns, w: Where, sc: Scope, s: Stmt)
    requires sc != []
    ensures CheckSeq(fns, w, sc, [s]) == CheckStmt(fns, w, sc, s)
  {
    hide CheckStmt;
    assert [s][1..] == [];
  }

  lemma {:induction false} SeqVerifies(fs: Funcs, fns: Fns, w: Where, sc: Scope, ss: seq<SStmt>)
    requires Matches(fs, fns) && sc != [] && LowerSeq(fs, w, sc, ss).Some?
    ensures var l := LowerSeq(fs, w, sc, ss).value; CheckSeq(fns, w, sc, l.stmts) == Some(l.scope)
    decreases ss, 0
  {
    hide Matches, LowerStmt, CheckStmt;
    if ss != [] {
      StmtVerifies(fs, fns, w, sc, ss[0]);
      var l := LowerStmt(fs, w, sc, ss[0]).value;
      SeqVerifies(fs, fns, w, l.scope, ss[1..]);
      assert LowerSeq(fs, w, sc, ss).value.stmts[1..] == LowerSeq(fs, w, l.scope, ss[1..]).value.stmts;
    }
  }

  lemma {:induction false} BlockVerifies(fs: Funcs, fns: Fns, w: Where, sc: Scope, frame: map<string, Binding>,
                                         ss: seq<SStmt>)
    requires Matches(fs, fns) && LowerBlock(fs, w, sc, frame, ss).Some?
    ensures CheckBlock(fns, w, sc, frame, LowerBlock(fs, w, sc, frame, ss).value)
    decreases ss, 1
  {
    hide Matches, LowerSeq, CheckSeq;
    SeqVerifies(fs, fns, w, [frame] + sc, ss);
  }

  // --- Whole programs ---

  // What the two passes produce for one declaration.
  ghost predicate LoweredFrom(fs: Funcs, d: FunDecl, f: Function) {
    && d.name in fs
    && BuildFuncSig(d) == Some(fs[d.name])
    && LowerFunction(fs, d) == Some(f)
  }

  lemma {:induction false} CollectAt(ds: seq<FunDecl>, k: nat)
    requires Collect(ds).Some? && k < |ds|
    ensures ds[k].name != "main"
    ensures ds[k].name in Collect(ds).value && BuildFuncSig(ds[k]) == Some(Collect(ds).value[ds[k].name])
  {
    hide BuildFuncSig;
    if k < |ds| - 1 {
      CollectAt(ds[..|ds| - 1], k);
    }
  }

  lemma {:induction false} CollectDistinct(ds: seq<FunDecl>, j: nat, k: nat)
    requires Collect(ds).Some? && j < k < |ds|
    ensures ds[j].name != ds[k].name
  {
    hide BuildFuncSig;
    var n := |ds| - 1;
    if k < n {
      CollectDistinct(ds[..n], j, k);
    } else {
      CollectAt(ds[..n], j);
    }
  }

  lemma {:induction false} CollectFrom(ds: seq<FunDecl>, name: string) returns (k: nat)
    requires Collect(ds).Some? && name in Collect(ds).value
    ensures k < |ds| && ds[k].name == name
  {
    hide BuildFuncSig;
    k := |ds| - 1;
    if ds[k].name != name {
      k := CollectFrom(ds[..k], name);
    }
  }

  lemma {:induction false} LoweredEach(fs: Funcs, ds: seq<FunDecl>, k: nat)
    requires forall d :: d in ds ==> d.name in fs
    requires LowerFunctions(fs, ds).Some? && k < |ds|
    ensures LowerFunction(fs, ds[k]) == Some(LowerFunctions(fs, ds).value[k])
  {
    hide LowerFunction;
    var n := |ds| - 1;
    if k < n {
      LoweredEach(fs, ds[..n], k);
    }
  }

  ghost predicate Compiled(prog: seq<Top>, fs: Funcs, p: Program) {
    LowerProgram(prog) == Some(p) && Collect(Decls(prog)) == Some(fs)
  }

  // Its functions are the declarations in order, then the script.
  lemma CompiledShape(prog: seq<Top>, fs: Funcs, p: Program)
    requires Compiled(prog, fs, p)
    ensures |p.functions| == |Decls(prog)| + 1 && p.main == |Decls(prog)|
    ensures var m := LowerSeq(fs, Where(Unit, 0), [map[]], ScriptOf(prog));
            m.Some? && p.functions[p.main] == Function("main", [], Unit, m.value.stmts)
  {
    CollectKeys(Decls(prog));
    hide LowerSeq, LowerFunctions, Collect, Decls, ScriptOf;
  }

  lemma MangleInjective(a: string, b: string)
    requires Mangle(a) == Mangle(b)
    ensures a == b
  {
    assert Mangle(a)[7..] == a;
    assert Mangle(b)[7..] == b;
  }

  lemma CompiledAt(prog: seq<Top>, fs: Funcs, p: Program, k: nat)
    requires Compiled(prog, fs, p) && k < |Decls(prog)|
    ensures k < |p.functions| && LoweredFrom(fs, Decls(prog)[k], p.functions[k])
    ensures Decls(prog)[k].name != "main"
  {
    var ds := Decls(prog);
    CollectKeys(ds);
    CollectAt(ds, k);
    LoweredEach(fs, ds, k);
    hide LowerSeq, LowerFunctions, LowerFunction, Collect, Decls, ScriptOf, BuildFuncSig;
  }

  lemma CompiledNamesDiffer(prog: seq<Top>, fs: Funcs, p: Program, j: nat, k: nat)
    requires Compiled(prog, fs, p) && j < k < |Decls(prog)|
    ensures Decls(prog)[j].name != Decls(prog)[k].name
  {
    hide LowerProgram;
    CollectDistinct(Decls(prog), j, k);
  }

  lemma CompiledDistinct(prog: seq<Top>, fs: Funcs, p: Program, j: nat, k: nat)
    requires Compiled(prog, fs, p) && j < k < |p.functions|
    ensures p.functions[j].name != p.functions[k].name
  {
    var ds := Decls(prog);
    hide Compiled, LoweredFrom, LowerSeq, Decls, Collect;
    CompiledShape(prog, fs, p);
    CompiledAt(prog, fs, p, j);
    LoweredSig(fs, ds[j], p.functions[j]);
    if k < |ds| {
      CompiledNamesDiffer(prog, fs, p, j, k);
      CompiledAt(prog, fs, p, k);
      LoweredSig(fs, ds[k], p.functions[k]);
      if Mangle(ds[j].name) == Mangle(ds[k].name) {
        MangleInjective(ds[j].name, ds[k].name);
      }
    } else {
      assert |Mangle(ds[j].name)| >= 7;
    }
  }

  lemma CompiledNames(prog: seq<Top>, fs: Funcs, p: Program)
    requires Compiled(prog, fs, p)
    ensures NamesOk(p.functions)
  {
    hide Compiled;
    forall k | 0 <= k < |p.functions| ensures p.functions[k].name != "" {
      hide LowerSeq, Decls, LoweredFrom;
      CompiledShape(prog, fs, p);
      if k < |Decls(prog)| {
        CompiledAt(prog, fs, p, k);
        LoweredSig(fs, Decls(prog)[k], p.functions[k]);
      }
    }
    forall j, k | 0 <= j < k < |p.functions| ensures p.functions[j].name != p.functions[k].name {
      CompiledDistinct(prog, fs, p, j, k);
    }
  }

  // The verifier's table of the output matches the collected signatures.
  lemma CompiledMatches(prog: seq<Top>, fs: Funcs, p: Program)
    requires Compiled(prog, fs, p)
    ensures Matches(fs, Table(p))
  {
    var ds := Decls(prog);
    assert Collect(ds) == Some(fs);
    hide LoweredFrom, Decls, Compiled, NamesOk, Collect;
    CompiledNames(prog, fs, p);
    forall n | n in fs
      ensures Mangle(n) in Table(p) && Table(p)[Mangle(n)] == Sig(ParamTypes(fs[n].params), fs[n].ret)
    {
      var k := CollectFrom(ds, n);
      CompiledAt(prog, fs, p, k);
      LoweredSig(fs, ds[k], p.functions[k]);
      TableHas(p.functions, k);
    }
  }

  lemma LoweredSig(fs: Funcs, d: FunDecl, f: Function)
    requires LoweredFrom(fs, d, f)
    ensures d.name in fs && f.name == Mangle(d.name) && SigOf(f) == Sig(ParamTypes(fs[d.name].params), fs[d.name].ret)
  {
    hide LowerSeq;
  }

  lemma {:induction false} TableHas(fs: seq<Function>, k: nat)
    requires NamesOk(fs) && k < |fs|
    ensures fs[k].name in SigsOf(fs) && SigsOf(fs)[fs[k].name] == SigOf(fs[k])
  {
    hide SigOf;
    var n := |fs| - 1;
    if k < n {
      TableHas(fs[..n], k);
    }
  }

  // The closing Verify of the compiler never rejects what was lowered.
  lemma LoweredProgramVerifies(prog: seq<Top>)
    requires LowerProgram(prog).Some?
    ensures Accepts(LowerProgram(prog).value)
  {
    IsCompiled(prog);
    var p, fs := LowerProgram(prog).value, Collect(Decls(prog)).value;
    hide Collect, Matches, NamesOk, Table, Compiled, LowerProgram;
    CompiledShape(prog, fs, p);
    CompiledNames(prog, fs, p);
    CompiledMatches(prog, fs, p);
    forall f | f in p.functions ensures CheckFunction(Table(p), f) {
      var k :| 0 <= k < |p.functions| && p.functions[k] == f;
      hide CheckFunction;
      EachVerifies(prog, fs, p, k);
    }
    TableIs(p);
  }

  lemma IsCompiled(prog: seq<Top>)
    requires LowerProgram(prog).Some?
    ensures Collect(Decls(prog)).Some? && Compiled(prog, Collect(Decls(prog)).value, LowerProgram(prog).value)
  {
    hide Collect, LowerFunctions, LowerSeq, Decls, ScriptOf;
  }

  lemma TableIs(p: Program)
    ensures Table(p) == SigsOf(p.functions)
  {
  }

  lemma EachVerifies(prog: seq<Top>, fs: Funcs, p: Program, k: nat)
    requires Compiled(prog, fs, p) && k < |p.functions| && Matches(fs, Table(p))
    ensures CheckFunction(Table(p), p.functions[k])
  {
    hide Matches, Table, LoweredFrom, LowerSeq, CheckSeq, Decls, ScriptOf, Compiled;
    CompiledShape(prog, fs, p);
    if k < |Decls(prog)| {
      CompiledAt(prog, fs, p, k);
      FunctionVerifies(fs, Table(p), Decls(prog)[k], p.functions[k]);
    } else {
      SeqVerifies(fs, Table(p), Where(Unit, 0), [map[]], ScriptOf(prog));
    }
  }

  lemma FunctionVerifies(fs: Funcs, fns: Fns, d: FunDecl, f: Function)
    requires Matches(fs, fns) && LoweredFrom(fs, d, f)
    ensures CheckFunction(fns, f)
  {
    hide Matches, LowerSeq, CheckSeq, ParamScope;
    SeqVerifies(fs, fns, Where(f.ret, 0), [ParamScope(f.params)], d.body);
  }
}
