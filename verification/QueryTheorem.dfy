/**
 * The theorems about lowered queries.
 *
 * A lowered query finishes exactly when its comprehension has a value and all
 * hash keys can be evaluated where the hash join evaluates them, and then its
 * result variable holds exactly that list.
 */
module QueryTheorem {
  import opened Options
  import IR
  import opened QueryIR
  import opened Query
  import opened QueryCorrect
  import opened QueryIndex

  // --- Conditions a caller can check on the query ---

  // Sources mention no query variable bound before them.  A join may reuse an
  // earlier variable unless keys were split off its condition and the outer
  // one mentions that variable: only then does the lookup read another value.
  predicate Scoped(cs: seq<Clause>, bound: set<Name>) {
    cs == [] ||
    (&& cs[0].x.User?
     && UserExpr(cs[0].src) && VarNames(cs[0].src) !! bound
     && (cs[0].on.Some? ==> UserExpr(cs[0].on.value) && OuterKeyKeeps(cs[0].on.value, cs[0].x, bound))
     && Scoped(cs[1..], bound + {cs[0].x}))
  }

  predicate OuterKeyKeeps(on: Expr, x: Name, outer: set<Name>) {
    var k := ExtractHashJoinKeys(on, x, outer);
    k.Some? ==> x !in VarNames(k.value.outer)
  }

  predicate WellScoped(q: Query) {
    GoodLeaf(q) && Scoped(PlainClauses(q), {})
  }

  function Stripped(cs: seq<Clause>): (r: seq<Clause>)
    ensures |r| == |cs|
  {
    if cs == [] then [] else [cs[0].(hash := None)] + Stripped(cs[1..])
  }

  // Splitting the condition of a join gives sound keys.
  lemma ExtractSplits(c: Clause, outer: set<Name>)
    requires c.on.Some? && UserExpr(c.on.value) && c.hash.Some?
    requires ExtractHashJoinKeys(c.on.value, c.x, outer) == Some(c.hash.value.keys)
    ensures Split(c) && VarNames(c.hash.value.keys.outer) <= outer
    ensures OuterKeyKeeps(c.on.value, c.x, outer) ==> c.x !in VarNames(c.hash.value.keys.outer)
  {
    hide VarNames, EqualityType;
  }

  lemma {:induction false} JoinsGood(q: Query, i: nat, counter: nat)
    requires i <= |q.joins| && Scoped(PlainJoins(q.joins[i..]), OuterJoinVars(q, i))
    ensures GoodClauses(JoinClauses(q, i, counter), OuterJoinVars(q, i))
    ensures Numbered(JoinClauses(q, i, counter), counter)
    ensures Stripped(JoinClauses(q, i, counter)) == PlainJoins(q.joins[i..])
    decreases |q.joins| - i
  {
    if i < |q.joins| {
      var js := q.joins[i..];
      var cs := JoinClauses(q, i, counter);
      assert js[1..] == q.joins[i + 1..];
      assert PlainJoins(js)[1..] == PlainJoins(js[1..]);
      assert cs[1..] == JoinClauses(q, i + 1, counter);
      OuterStep(q, i);
      if cs[0].hash.Some? {
        ExtractSplits(cs[0], OuterJoinVars(q, i));
      }
      hide UserExpr, VarNames, Split, ExtractHashJoinKeys, OuterJoinVars;
      JoinsGood(q, i + 1, counter);
    }
  }

  lemma OuterStep(q: Query, i: nat)
    requires i < |q.joins|
    ensures OuterJoinVars(q, i + 1) == OuterJoinVars(q, i) + {User(q.joins[i].x)}
  {
    assert q.joins[..i + 1] == q.joins[..i] + [q.joins[i]];
  }

  lemma {:induction false} FromsGood(fs: seq<From>, bound: set<Name>, js: seq<Clause>, cs: seq<Clause>, counter: nat)
    requires Scoped(FromClauses(fs) + js, bound)
    requires Scoped(js, bound + FromNames(fs)) ==>
             GoodClauses(cs, bound + FromNames(fs)) && Numbered(cs, counter) && Stripped(cs) == js
    ensures GoodClauses(FromClauses(fs) + cs, bound) && Numbered(FromClauses(fs) + cs, counter)
    ensures Stripped(FromClauses(fs) + cs) == FromClauses(fs) + js
  {
    hide UserExpr, VarNames, Split, OuterKeyKeeps;
    if fs == [] {
      assert FromClauses(fs) + js == js && FromClauses(fs) + cs == cs && bound + FromNames(fs) == bound;
    } else {
      assert (FromClauses(fs) + js)[1..] == FromClauses(fs[1..]) + js;
      assert (FromClauses(fs) + cs)[1..] == FromClauses(fs[1..]) + cs;
      FromNamesStep(fs);
      assert bound + FromNames(fs) == (bound + {User(fs[0].x)}) + FromNames(fs[1..]);
      FromsGood(fs[1..], bound + {User(fs[0].x)}, js, cs, counter);
    }
  }

  lemma FromNamesStep(fs: seq<From>)
    requires fs != []
    ensures FromNames(fs) == {User(fs[0].x)} + FromNames(fs[1..])
  {
    assert fs == [fs[0]] + fs[1..];
  }

  // The plan of a well-scoped query is sound.
  lemma PlanGood(q: Query, counter: nat)
    requires WellScoped(q)
    ensures var cs := Clauses(q, counter);
            GoodClauses(cs, {}) && Numbered(cs, counter) && Stripped(cs) == PlainClauses(q)
  {
    var fs := [From(q.x, q.src)] + q.froms;
    assert fs[1..] == q.froms;
    FromNamesStep(fs);
    var js, cs := PlainJoins(q.joins), JoinClauses(q, 0, counter);
    assert FromClauses(fs) + js == PlainClauses(q) && FromClauses(fs) + cs == Clauses(q, counter);
    assert q.joins[0..] == q.joins && q.joins[..0] == [];
    assert {} + FromNames(fs) == OuterJoinVars(q, 0);
    hide UserExpr, VarNames, Split, OuterJoinVars, FromNames, GoodLeaf;
    if Scoped(js, {} + FromNames(fs)) {
      JoinsGood(q, 0, counter);
    }
    FromsGood(fs, {}, js, cs, counter);
  }

  // --- Keys ---

  // Every index can be built.
  ghost predicate IndexesBuild(calls: Calls, home: Env, cs: seq<Clause>) {
    cs == [] || (IndexesBuild(calls, home, cs[1..]) && (cs[0].hash.Some? ==> IndexOf(calls, home, cs[0]).Some?))
  }

  // The outer key of every hash clause evaluates on every row that reaches it.
  ghost predicate RowKeysOk(calls: Calls, home: Env, env: Env, cs: seq<Clause>)
    decreases |cs|
  {
    cs == [] ||
    (&& OuterKeyOk(calls, env, cs[0])
     && var items := ItemsOf(Eval(calls, home, cs[0].src));
        items.Some? && Kept(calls, env, cs[0], items.value).Some? ==>
          forall d :: d in Kept(calls, env, cs[0], items.value).value ==>
              RowKeysOk(calls, home, [map[cs[0].x := Plain(d)]] + env, cs[1..]))
  }

  ghost predicate KeysEvaluate(calls: Calls, home: Env, cs: seq<Clause>) {
    IndexesBuild(calls, home, cs) && RowKeysOk(calls, home, home, cs)
  }

  lemma {:induction false} IndexedWhenBuilt(calls: Calls, home: Env, frame: map<Name, Slot>, cs: seq<Clause>)
    ensures Indexed(calls, home, frame, cs).Some? == IndexesBuild(calls, home, cs)
  {
    hide IndexOf;
    if cs != [] {
      IndexedWhenBuilt(calls, home, frame, cs[1..]);
    }
  }

  // A plan only adds the need to evaluate its keys.
  lemma {:induction false} RowsUnderPlan(calls: Calls, home: Env, env: Env, cs: seq<Clause>, q: Query)
    ensures Rows(calls, home, env, cs, q) ==
            if RowKeysOk(calls, home, env, cs) then Rows(calls, home, env, Stripped(cs), q) else None
    decreases |cs|, 1, 0
  {
    if cs != [] {
      var c := cs[0];
      assert Stripped(cs)[1..] == Stripped(cs[1..]);
      var items := ItemsOf(Eval(calls, home, c.src));
      if items.Some? {
        KeptStripped(calls, env, c, items.value);
        var kept := Kept(calls, env, c, items.value);
        hide Eval, Kept, OuterKeyOk;
        if kept.Some? {
          ThroughUnderPlan(calls, home, env, c.x, kept.value, cs[1..], q);
        }
        StrippedKeyOk(calls, env, c);
      }
    }
  }

  lemma StrippedKeyOk(calls: Calls, env: Env, c: Clause)
    ensures OuterKeyOk(calls, env, c.(hash := None))
  {
  }

  lemma {:induction false} KeptStripped(calls: Calls, env: Env, c: Clause, items: seq<Datum>)
    ensures Kept(calls, env, c.(hash := None), items) == Kept(calls, env, c, items)
  {
    hide Passes;
    if items != [] {
      KeptStripped(calls, env, c, items[1..]);
    }
  }

  lemma {:induction false} ThroughUnderPlan(calls: Calls, home: Env, env: Env, x: Name, items: seq<Datum>,
                                            cs: seq<Clause>, q: Query)
    ensures RowsThrough(calls, home, env, x, items, cs, q) ==
              if forall d :: d in items ==> RowKeysOk(calls, home, [map[x := Plain(d)]] + env, cs)
              then RowsThrough(calls, home, env, x, items, Stripped(cs), q) else None
    decreases |cs|, 2, |items|
  {
    hide RowKeysOk, Stripped;
    if items != [] {
      RowsUnderPlan(calls, home, [map[x := Plain(items[0])]] + env, cs, q);
      ThroughUnderPlan(calls, home, env, x, items[1..], cs, q);
      hide Rows;
      assert (forall d :: d in items ==> RowKeysOk(calls, home, [map[x := Plain(d)]] + env, cs)) <==>
             (RowKeysOk(calls, home, [map[x := Plain(items[0])]] + env, cs) &&
              forall d :: d in items[1..] ==> RowKeysOk(calls, home, [map[x := Plain(d)]] + env, cs)) by {
        assert items == [items[0]] + items[1..];
      }
    }
  }

  // --- The main theorem ---

  // The generated names above the counter are unused in the current frame.
  predicate Unused(env: Env, counter: nat)
    requires env != []
  {
    forall n :: n in env[0] && !n.User? ==> n.n <= counter
  }

  // The run left the user's variables and all outer frames alone.
  ghost predicate LeavesAlone(before: Env, after: Env) {
    |after| == |before| && after != [] && after[1..] == before[1..] && SameUser(after, before)
  }

  lemma QueryRunsUnder(calls: Calls, env: Env, q: Query, counter: nat, cs: seq<Clause>)
    requires env != [] && GoodLeaf(q) && Unused(env, counter) && GoodClauses(cs, {}) && Numbered(cs, counter + 1)
    ensures var l := CodeOf(q, counter, cs);
            var r := ExecSeq(calls, env, l.stmts);
            var rows := Rows(calls, env, env, cs, q);
            && (r.Some? <==> rows.Some? && IndexesBuild(calls, env, cs))
            && (r.Some? ==> LeavesAlone(env, r.value) && Eval(calls, r.value, Var(l.result)) == Some(ListD(rows.value)))
  {
    var l := CodeOf(q, counter, cs);
    var result := l.result;
    var f0, b := env[0], env[1..];
    assert env == [f0] + b;
    var f := f0[result := Plain(ListD([]))];
    var init := Let(result, Const(ListD([])));
    var scope := QueryScope(BodyOf(cs, Innermost(q, result)));
    assert Exec(calls, env, init) == Some([f] + b) by { DeclareHead(f0, b, result, Plain(ListD([]))); }
    SameItself(env);
    DeclareHidden(env, env, f0, b, result, Plain(ListD([])));
    GoodIsBuildable(cs, {});
    assert l.stmts == [init] + (PreludeOf(cs) + [scope]);
    assert forall i :: i > counter + 1 ==> HashIndex(i) !in f;
    hide *;
    SeqAppend(calls, env, [init], PreludeOf(cs) + [scope]);
    One(calls, env, init);
    SeqAppend(calls, [f] + b, PreludeOf(cs), [scope]);
    PreludeRuns(calls, env, f, b, cs, counter + 1);
    IndexedWhenBuilt(calls, env, f, cs);
    var g := Indexed(calls, env, f, cs);
    if g.Some? {
      One(calls, [g.value] + b, scope);
      ResultIn(calls, env, f, cs, counter);
      ScopeRuns(calls, env, f, b, q, counter, cs);
      Popped(calls, env, g.value, b, result, Rows(calls, env, env, cs, q));
      assert env[1..] == b;
    }
  }

  // The loops, once result variable and indexes are in place.
  lemma ScopeRuns(calls: Calls, env: Env, f: map<Name, Slot>, b: Env, q: Query, counter: nat, cs: seq<Clause>)
    requires GoodLeaf(q) && GoodClauses(cs, {}) && Numbered(cs, counter + 1) && Indexed(calls, env, f, cs).Some?
    requires var g := Indexed(calls, env, f, cs).value;
             && QueryVar(counter + 1) in g && g[QueryVar(counter + 1)] == Plain(ListD([]))
             && SameUser([g] + b, env)
    ensures var result := QueryVar(counter + 1);
            var a := [Indexed(calls, env, f, cs).value] + b;
            Exec(calls, a, QueryScope(BodyOf(cs, Innermost(q, result)))) ==
                Grown(a, result, [], Rows(calls, env, env, cs, q))
  {
    var result := QueryVar(counter + 1);
    var g := Indexed(calls, env, f, cs).value;
    var a := [g] + b;
    var none: map<Name, Slot> := map[];
    IndexedTables(calls, env, f, b, cs, counter + 1);
    LookupPush(g, b, result);
    hide GoodClauses, Tables, IR.Lookup, SameUser, GoodLeaf, Indexed, BodyOf, Innermost, ExecSeq, Rows;
    assert Ready(calls, env, a, env, {}, cs, result, []);
    ReadyHidden(calls, env, a, env, {}, cs, result, [], none);
    BodyRuns(calls, env, [none] + a, env, {}, cs, q, result, []);
    BlockGrown(calls, a, none, BodyOf(cs, Innermost(q, result)), result, [], Rows(calls, env, env, cs, q));
  }

  // What is left in the frame afterwards.
  lemma Popped(calls: Calls, env: Env, g: map<Name, Slot>, b: Env, result: Name, rows: Option<seq<Datum>>)
    requires env != [] && env[1..] == b && result in g && !result.User? && SameUser([g] + b, env)
    ensures var e := Grown([g] + b, result, [], rows);
            && e.Some? == rows.Some?
            && (e.Some? ==> LeavesAlone(env, e.value) && Eval(calls, e.value, Var(result)) == Some(ListD(rows.value)))
  {
    if rows.Some? {
      var x := Plain(ListD([] + rows.value));
      assert [] + rows.value == rows.value;
      UpdateHead(g, b, result, x);
      DeclareHidden([g] + b, env, g, b, result, x);
      LookupPush(g[result := x], b, result);
      hide IR.Lookup, SameUser, IR.Update;
    }
  }

  lemma SameItself(a: Env)
    ensures SameUser(a, a)
  {
  }

  lemma ResultIn(calls: Calls, home: Env, f0: map<Name, Slot>, cs: seq<Clause>, counter: nat)
    requires Numbered(cs, counter + 1) && Indexed(calls, home, f0, cs).Some? && QueryVar(counter + 1) in f0
    ensures var g := Indexed(calls, home, f0, cs).value;
            QueryVar(counter + 1) in g && g[QueryVar(counter + 1)] == f0[QueryVar(counter + 1)]
  {
    IndexedKeys(calls, home, f0, cs, counter + 1);
  }

  // A lowered query finishes exactly when the comprehension has a value and
  // every hash key evaluates; it then holds that value, in order.
  lemma LoweredQueryIsComprehension(calls: Calls, env: Env, q: Query, counter: nat)
    requires env != [] && WellScoped(q) && Unused(env, counter)
    ensures var l := Code(q, counter);
            var r := ExecSeq(calls, env, l.stmts);
            var rows := Comprehension(calls, env, q);
            && (r.Some? <==> rows.Some? && KeysEvaluate(calls, env, Clauses(q, counter + 1)))
            && (r.Some? ==> LeavesAlone(env, r.value) && Eval(calls, r.value, Var(l.result)) == Some(ListD(rows.value)))
  {
    var cs := Clauses(q, counter + 1);
    PlanGood(q, counter + 1);
    assert GoodLeaf(q);
    hide GoodClauses, Numbered, WellScoped, GoodLeaf, ExecSeq, CodeOf, Rows, IndexesBuild, RowKeysOk, PlainClauses,
        Clauses, LeavesAlone, Eval;
    QueryRunsUnder(calls, env, q, counter, cs);
    RowsUnderPlan(calls, env, env, cs, q);
  }

  // Without hash joins nothing but the comprehension has to succeed.
  lemma {:induction false} LoopsNeedNoKeys(calls: Calls, home: Env, env: Env, cs: seq<Clause>)
    requires Hashes(cs) == 0
    ensures IndexesBuild(calls, home, cs) && RowKeysOk(calls, home, env, cs)
    decreases |cs|
  {
    if cs != [] {
      LoopsNeedNoKeys(calls, home, env, cs[1..]);
      forall d ensures RowKeysOk(calls, home, [map[cs[0].x := Plain(d)]] + env, cs[1..]) {
        LoopsNeedNoKeys(calls, home, [map[cs[0].x := Plain(d)]] + env, cs[1..]);
      }
    }
  }

  // The query with every join lowered as a nested loop.
  function LoopCode(q: Query, counter: nat): (l: Lowered) { CodeOf(q, counter, PlainClauses(q)) }

  lemma {:induction false} StrippedGood(cs: seq<Clause>, bound: set<Name>, counter: nat)
    requires GoodClauses(cs, bound)
    ensures GoodClauses(Stripped(cs), bound) && Numbered(Stripped(cs), counter) && Hashes(Stripped(cs)) == 0
  {
    hide UserExpr, VarNames, Split;
    if cs != [] {
      assert Stripped(cs)[1..] == Stripped(cs[1..]);
      StrippedGood(cs[1..], bound + {cs[0].x}, counter);
    }
  }

  // The hash join refines the nested loops: when it finishes, they finish
  // with the same list; when they finish, it finishes with the same list if
  // and only if the keys it evaluates in advance have values.
  lemma HashJoinRefinesLoops(calls: Calls, env: Env, q: Query, counter: nat)
    requires env != [] && WellScoped(q) && Unused(env, counter)
    ensures var h := ExecSeq(calls, env, Code(q, counter).stmts);
            var n := ExecSeq(calls, env, LoopCode(q, counter).stmts);
            && (h.Some? ==> n.Some?)
            && (n.Some? ==> (h.Some? <==> KeysEvaluate(calls, env, Clauses(q, counter + 1))))
            && (h.Some? ==>
                  Eval(calls, h.value, Var(Code(q, counter).result)) ==
                  Eval(calls, n.value, Var(LoopCode(q, counter).result)))
  {
    var cs := Clauses(q, counter + 1);
    PlanGood(q, counter + 1);
    StrippedGood(cs, {}, counter + 1);
    assert GoodLeaf(q);
    hide GoodClauses, Numbered, WellScoped, GoodLeaf, ExecSeq, CodeOf, Rows, IndexesBuild, RowKeysOk, PlainClauses,
        Clauses, LeavesAlone, Eval, Hashes;
    LoopsNeedNoKeys(calls, env, env, Stripped(cs));
    LoweredQueryIsComprehension(calls, env, q, counter);
    QueryRunsUnder(calls, env, q, counter, Stripped(cs));
  }
}
