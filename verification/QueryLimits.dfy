/**
 * Why the scoping conditions on queries are needed: two queries outside them
 * whose lowered code finishes with a list other than the comprehension.
 */
module QueryLimits {
  import opened Options
  import IR
  import opened QueryIR
  import opened Query
  import opened QueryCorrect
  import opened QueryIndex
  import opened QueryTheorem

  function Num(i: int): (d: Datum) { Scalar(IR.IntV(i)) }

  // `from x in [[]] from y in x select y` where an outer x is [1]: the second
  // source was resolved to the outer x.
  function CapturingQuery(): (q: Query) {
    Query("x", Const(ListD([ListD([])])), [From("y", Var(User("x")))], [], None, Var(User("y")))
  }

  function CapturingScope(): (env: Env) { [map[User("x") := Plain(ListD([Num(1)]))]] }

  lemma CapturingClauses()
    ensures var x := Clause(User("x"), Const(ListD([ListD([])])), None, None);
            var y := Clause(User("y"), Var(User("x")), None, None);
            PlainClauses(CapturingQuery()) == [x, y] && Clauses(CapturingQuery(), 1) == [x, y]
  {
    var q := CapturingQuery();
    assert q.froms[1..] == [];
    assert FromClauses(q.froms) == [Clause(User("y"), Var(User("x")), None, None)];
  }

  lemma CapturingRows(calls: Calls)
    ensures Comprehension(calls, CapturingScope(), CapturingQuery()) == Some([Num(1)])
  {
    var home, q := CapturingScope(), CapturingQuery();
    CapturingClauses();
    var x, y := PlainClauses(q)[0], PlainClauses(q)[1];
    var e1 := [map[User("x") := Plain(ListD([]))]] + home;
    var e2 := [map[User("y") := Plain(Num(1))]] + e1;
    assert [x, y][1..] == [y] && [y][1..] == [];
    KeptAll(calls, home, x, [ListD([])]);
    KeptAll(calls, e1, y, [Num(1)]);
    assert Rows(calls, home, e2, [], q) == Some([Num(1)]);
    ThroughOne(calls, home, e1, User("y"), Num(1), [], q);
    assert Rows(calls, home, e1, [y], q) == Some([Num(1)]);
    ThroughOne(calls, home, home, User("x"), ListD([]), [y], q);
  }

  lemma ThroughOne(calls: Calls, home: Env, env: Env, x: Name, d: Datum, cs: seq<Clause>, q: Query)
    ensures RowsThrough(calls, home, env, x, [d], cs, q) == Rows(calls, home, [map[x := Plain(d)]] + env, cs, q)
  {
    hide Rows;
    assert [d][1..] == [];
    var r := Rows(calls, home, [map[x := Plain(d)]] + env, cs, q);
    assert RowsThrough(calls, home, env, x, [], cs, q) == Some([]);
    if r.Some? {
      assert r.value + [] == r.value;
    }
  }

  lemma EachOne(calls: Calls, a: Env, x: Name, d: Datum, body: seq<Stmt>)
    requires a != []
    ensures ExecEach(calls, a, x, [d], body) == ExecBlock(calls, a, map[x := Plain(d)], body)
  {
    hide ExecBlock;
    assert [d][1..] == [];
    var r := ExecBlock(calls, a, map[x := Plain(d)], body);
    if r.Some? {
      assert ExecEach(calls, r.value, x, [], body) == r;
    }
  }

  // Running a lowered query that builds no index.
  lemma PlainScope(calls: Calls, env: Env, q: Query, cs: seq<Clause>)
    requires env != [] && PreludeOf(cs) == [] && QueryVar(1) !in env[0]
    ensures var result := QueryVar(1);
            ExecSeq(calls, env, CodeOf(q, 0, cs).stmts) ==
              ExecBlock(calls, IR.Declare(env, result, Plain(ListD([]))), map[], BodyOf(cs, Innermost(q, result)))
  {
    var result := QueryVar(1);
    var init := Let(result, Const(ListD([])));
    var scope := QueryScope(BodyOf(cs, Innermost(q, result)));
    assert CodeOf(q, 0, cs).stmts == [init, scope];
    Two(calls, env, init, scope);
    hide ExecSeq, ExecBlock, BodyOf, Innermost;
  }

  function CapturingLoop(): (s: Stmt) {
    ForEach(User("y"), Var(User("x")), Innermost(CapturingQuery(), QueryVar(1)))
  }

  lemma CapturingBody()
    ensures var cs := Clauses(CapturingQuery(), 1);
            && PreludeOf(cs) == []
            && BodyOf(cs, Innermost(CapturingQuery(), QueryVar(1))) ==
                [ForEach(User("x"), Const(ListD([ListD([])])), [CapturingLoop()])]
  {
    var q := CapturingQuery();
    CapturingClauses();
    var cs := Clauses(q, 1);
    var y := cs[1];
    assert cs[1..] == [y] && [y][1..] == [];
    var inner := Innermost(q, QueryVar(1));
    hide Innermost, Clauses;
    assert BodyOf([], inner) == inner && PreludeOf([]) == [];
    assert BodyOf([y], inner) == [CapturingLoop()] && PreludeOf([y]) == [];
    assert cs == [cs[0], y];
  }

  // The loops read the captured x, which is empty.
  lemma CapturingRuns(calls: Calls, a: Env)
    requires a != []
    ensures ExecBlock(calls, a, map[], [ForEach(User("x"), Const(ListD([ListD([])])), [CapturingLoop()])]) == Some(a)
  {
    hide CapturingQuery, Innermost;
    var loop := CapturingLoop();
    var none: map<Name, Slot> := map[];
    var frame := map[User("x") := Plain(ListD([]))];
    var b := [none] + a;
    var c := [frame] + b;
    One(calls, b, ForEach(User("x"), Const(ListD([ListD([])])), [loop]));
    EachOne(calls, b, User("x"), ListD([]), [loop]);
    One(calls, c, loop);
    LookupPush(frame, b, User("x"));
    assert Exec(calls, c, loop) == Some(c) by {
      assert Eval(calls, c, Var(User("x"))) == Some(ListD([]));
    }
    hide ExecSeq, IR.Lookup;
    assert c[1..] == b && b[1..] == a;
  }

  lemma CapturedSourceChangesResult(calls: Calls)
    ensures var r := ExecSeq(calls, CapturingScope(), Code(CapturingQuery(), 0).stmts);
            && r.Some? && Eval(calls, r.value, Var(QueryVar(1))) == Some(ListD([]))
            && Comprehension(calls, CapturingScope(), CapturingQuery()) == Some([Num(1)])
  {
    var home, q, result := CapturingScope(), CapturingQuery(), QueryVar(1);
    var zero := Plain(ListD([]));
    var a := IR.Declare(home, result, zero);
    assert Eval(calls, a, Var(result)) == Some(ListD([])) && result !in home[0];
    assert Code(q, 0) == CodeOf(q, 0, Clauses(q, 1));
    hide *;
    CapturingRows(calls);
    CapturingBody();
    PlainScope(calls, home, q, Clauses(q, 1));
    CapturingRuns(calls, a);
  }

  // `from x in [1] join x in [2] on x == x select x`: both sides of the
  // condition count as inner and as outer, and the hash join compares the
  // first x with the second.
  function RepeatingQuery(): (q: Query) {
    var x := Var(User("x"));
    Query("x", Const(ListD([Num(1)])), [], [Join("x", Const(ListD([Num(2)])), Binary(IR.EqI64, x, x))], None, x)
  }

  function RepeatingMain(): (c: Clause) { Clause(User("x"), Const(ListD([Num(1)])), None, None) }

  function RepeatingJoin(): (c: Clause) {
    var x := Var(User("x"));
    Clause(User("x"), Const(ListD([Num(2)])), Some(Binary(IR.EqI64, x, x)), Some(HashPlan(HashKeys(x, x, IR.Int), 2)))
  }

  lemma RepeatingClauses()
    ensures Clauses(RepeatingQuery(), 1) == [RepeatingMain(), RepeatingJoin()]
    ensures PlainClauses(RepeatingQuery()) == [RepeatingMain(), RepeatingJoin().(hash := None)]
  {
    var q := RepeatingQuery();
    var x := Var(User("x"));
    assert VarNames(x) == {User("x")} && User("x") in OuterJoinVars(q, 0);
    assert ExtractHashJoinKeys(q.joins[0].on, User("x"), OuterJoinVars(q, 0)) == Some(HashKeys(x, x, IR.Int));
    assert JoinClauses(q, 1, 1) == [];
    assert JoinClauses(q, 0, 1) == [RepeatingJoin()];
    assert q.joins[1..] == [];
    assert PlainJoins(q.joins) == [RepeatingJoin().(hash := None)];
  }

  lemma RepeatingRows(calls: Calls)
    ensures Comprehension(calls, [map[]], RepeatingQuery()) == Some([Num(2)])
  {
    var home: Env, q := [map[]], RepeatingQuery();
    RepeatingClauses();
    var c, j := RepeatingMain(), RepeatingJoin().(hash := None);
    var e1 := [map[User("x") := Plain(Num(1))]] + home;
    var e2 := [map[User("x") := Plain(Num(2))]] + e1;
    assert [c, j][1..] == [j] && [j][1..] == [];
    KeptAll(calls, home, c, [Num(1)]);
    assert Eval(calls, e2, Var(User("x"))) == Some(Num(2));
    assert Passes(calls, e2, j.on) == Some(true);
    assert Kept(calls, e1, j, [Num(2)]) == Some([Num(2)]) by {
      assert [Num(2)][1..] == [] && Kept(calls, e1, j, []) == Some([]);
      assert [Num(2)] + [] == [Num(2)];
    }
    assert Rows(calls, home, e2, [], q) == Some([Num(2)]);
    ThroughOne(calls, home, e1, User("x"), Num(2), [], q);
    assert Rows(calls, home, e1, [j], q) == Some([Num(2)]);
    ThroughOne(calls, home, home, User("x"), Num(1), [j], q);
  }

  // Its index, and the frame it is put in.
  function RepeatingFrame(): (f: map<Name, Slot>) { map[QueryVar(1) := Plain(ListD([]))] }
  function RepeatingIndex(): (m: map<IR.Value, seq<Datum>>) { map[IR.IntV(2) := [Num(2)]] }

  lemma RepeatingPrelude(calls: Calls)
    ensures ExecSeq(calls, [RepeatingFrame()], PreludeOf([RepeatingMain(), RepeatingJoin()]))
         == Some([RepeatingFrame()[HashIndex(2) := Index(RepeatingIndex())]])
  {
    var home: Env := [map[]];
    var f := RepeatingFrame();
    var c, j := RepeatingMain(), RepeatingJoin();
    var cs := [c, j];
    assert cs[1..] == [j] && [j][1..] == [];
    assert Hashes([j]) == 1 by { assert Hashes([]) == 0; }
    assert Numbered([j], 1) by { assert Numbered([], 1) && Hashes([]) == 0; }
    assert Numbered(cs, 1) by { assert Numbered(cs[1..], 1) && cs[0].hash.None?; }
    assert VarNames(Var(User("x"))) == {User("x")};
    assert Buildable([j]);
    assert Buildable(cs) by { assert Buildable(cs[1..]) && cs[0] == c && UserExpr(c.src); }
    var e := [map[User("x") := Plain(Num(2))]] + home;
    assert Eval(calls, e, Var(User("x"))) == Some(Num(2));
    assert InnerKey(calls, home, j, Num(2)) == Some(IR.IntV(2));
    assert IndexOf(calls, home, j) == Some(RepeatingIndex()) by {
      assert [Num(2)][1..] == [] && [] + [Num(2)] == [Num(2)];
      assert IndexFrom(calls, home, j, RepeatingIndex(), []) == Some(RepeatingIndex());
      assert map[][IR.IntV(2) := [Num(2)]] == RepeatingIndex();
    }
    var g := f[HashIndex(2) := Index(RepeatingIndex())];
    assert Indexed(calls, home, f, []) == Some(f);
    assert Indexed(calls, home, f, [j]) == Some(g);
    assert Indexed(calls, home, f, cs) == Some(g);
    hide *;
    FrameHidden(f);
    PreludeRuns(calls, home, f, [], cs, 1);
    assert [g] + [] == [g] && [f] + [] == [f];
  }

  lemma FrameHidden(f: map<Name, Slot>)
    requires f == RepeatingFrame()
    ensures SameUser([f] + [], [map[]]) && forall i :: i > 1 ==> HashIndex(i) !in f
  {
    forall s ensures IR.Lookup([f] + [], User(s)) == IR.Lookup([map[]], User(s)) {
      LookupPush(f, [], User(s));
      var none: map<Name, Slot> := map[];
      LookupPush(none, [], User(s));
      assert [none] + [] == [none];
    }
  }

  // The lookup under the outer x misses.
  lemma RepeatingMisses(calls: Calls)
    ensures var a: Env := [RepeatingFrame()[HashIndex(2) := Index(RepeatingIndex())]];
            ExecBlock(calls, a, map[],
                      BodyOf([RepeatingMain(), RepeatingJoin()], Innermost(RepeatingQuery(), QueryVar(1)))) == Some(a)
  {
    var a: Env := [RepeatingFrame()[HashIndex(2) := Index(RepeatingIndex())]];
    var c, j := RepeatingMain(), RepeatingJoin();
    var inner := Innermost(RepeatingQuery(), QueryVar(1));
    assert [c, j][1..] == [j] && [j][1..] == [];
    var body := Wrapped(j, inner);
    assert BodyOf([j], inner) == body by { assert BodyOf([], inner) == inner; }
    assert BodyOf([c, j], inner) == [ForEach(User("x"), c.src, body)];
    var b := [map[]] + a;
    var d := [map[User("x") := Plain(Num(1))]] + b;
    One(calls, b, ForEach(User("x"), c.src, body));
    EachOne(calls, b, User("x"), Num(1), body);
    LookupPush(map[User("x") := Plain(Num(1))], b, HashIndex(2));
    LookupPush(map[], a, HashIndex(2));
    LookupRuns(calls, d, j, inner, RepeatingIndex());
    assert Eval(calls, d, Var(User("x"))) == Some(Num(1));
    hide BodyOf, Innermost, Wrapped;
    assert ExecSeq(calls, d, body) == Some(d);
    assert d[1..] == b && b[1..] == a;
  }

  lemma RepeatedJoinVariableChangesResult(calls: Calls)
    ensures var r := ExecSeq(calls, [map[]], Code(RepeatingQuery(), 0).stmts);
            && r.Some? && Eval(calls, r.value, Var(QueryVar(1))) == Some(ListD([]))
            && Comprehension(calls, [map[]], RepeatingQuery()) == Some([Num(2)])
  {
    var q, result := RepeatingQuery(), QueryVar(1);
    var cs := [RepeatingMain(), RepeatingJoin()];
    var env: Env := [map[]];
    var f := RepeatingFrame();
    var init := Let(result, Const(ListD([])));
    var scope := QueryScope(BodyOf(cs, Innermost(q, result)));
    var a: Env := [f[HashIndex(2) := Index(RepeatingIndex())]];
    assert Exec(calls, env, init) == Some([f]) by {
      assert IR.Declare(env, result, Plain(ListD([]))) == [f];
    }
    assert Eval(calls, a, Var(result)) == Some(ListD([]));
    assert Exec(calls, a, scope) == ExecBlock(calls, a, map[], BodyOf(cs, Innermost(q, result)));
    RepeatingStmts();
    hide *;
    RepeatingRows(calls);
    RepeatingMisses(calls);
    RepeatingPrelude(calls);
    One(calls, env, init);
    One(calls, a, scope);
    SeqAppend(calls, env, [init], PreludeOf(cs) + [scope]);
    SeqAppend(calls, [f], PreludeOf(cs), [scope]);
  }

  lemma RepeatingStmts()
    ensures var q, cs := RepeatingQuery(), [RepeatingMain(), RepeatingJoin()];
            Code(q, 0).stmts == [Let(QueryVar(1),
                                     Const(ListD([])))] + (PreludeOf(cs) + [QueryScope(BodyOf(cs,
                                         Innermost(q, QueryVar(1))))])
  {
    RepeatingClauses();
    hide Clauses, BodyOf, Innermost, PreludeOf, RepeatingQuery, RepeatingMain, RepeatingJoin;
  }

  // Both queries are outside the scoping condition, each by its own conjunct.
  lemma LimitsAreOutside()
    ensures !WellScoped(CapturingQuery()) && !WellScoped(RepeatingQuery())
    ensures VarNames(CapturingQuery().froms[0].src) * {User("x")} != {}
    ensures !OuterKeyKeeps(RepeatingQuery().joins[0].on, User("x"), {User("x")})
  {
    CapturingClauses();
    var y := PlainClauses(CapturingQuery())[1];
    assert PlainClauses(CapturingQuery())[1..] == [y];
    assert User("x") in VarNames(y.src);
    assert !Scoped([y], {} + {User("x")});
    RepeatingClauses();
    var j := RepeatingJoin().(hash := None);
    assert PlainClauses(RepeatingQuery())[1..] == [j];
    var x := Var(User("x"));
    assert VarNames(x) == {User("x")};
    assert ExtractHashJoinKeys(j.on.value, User("x"), {User("x")}) == Some(HashKeys(x, x, IR.Int));
    assert {} + {User("x")} == {User("x")};
    assert !Scoped([j], {} + {User("x")});
  }
}
