/**
 * What lowered queries compute: the list comprehension, in order, whether a
 * join was lowered as a loop or through a hash index.
 */
module QueryCorrect {
  import opened Options
  import IR
  import opened QueryIR
  import opened Query

  // --- Scoping conditions ---

  // A clause in the fragment whose source mentions no query variable bound
  // before it.  Sources are resolved outside the query but emitted inside the
  // loops, so such a mention would be captured.
  predicate GoodClause(c: Clause, bound: set<Name>) {
    && c.x.User?
    && UserExpr(c.src) && VarNames(c.src) !! bound
    && (c.on.Some? ==> UserExpr(c.on.value))
    && (c.hash.Some? ==> Split(c) && VarNames(c.hash.value.keys.outer) <= bound - {c.x})
  }

  // The keys are the two sides of the condition, the inner one about the
  // clause's own variable only.
  predicate Split(c: Clause)
    requires c.hash.Some?
  {
    var k := c.hash.value.keys;
    && c.on.Some? && c.on.value.Binary?
    && EqualityType(c.on.value.op) == Some(k.t)
    && UserExpr(k.inner) && UserExpr(k.outer)
    && VarNames(k.inner) <= {c.x}
    && (c.on.value == Binary(c.on.value.op, k.inner, k.outer) || c.on.value == Binary(c.on.value.op, k.outer, k.inner))
  }

  predicate GoodClauses(cs: seq<Clause>, bound: set<Name>) {
    cs == [] || (GoodClause(cs[0], bound) && GoodClauses(cs[1..], bound + {cs[0].x}))
  }

  predicate GoodLeaf(q: Query) {
    UserExpr(q.select) && (q.where_.Some? ==> UserExpr(q.where_.value))
  }

  // --- Hash indexes ---

  ghost function InnerKey(calls: Calls, home: Env, c: Clause, d: Datum): (k: Option<IR.Value>)
    requires c.hash.Some?
  {
    KeyOf(Eval(calls, [map[c.x := Plain(d)]] + home, c.hash.value.keys.inner), c.hash.value.keys.t)
  }

  function Get(m: map<IR.Value, seq<Datum>>, k: IR.Value): (l: seq<Datum>) {
    if k in m then m[k] else []
  }

  ghost function IndexFrom(calls: Calls, home: Env, c: Clause, m: map<IR.Value, seq<Datum>>,
                           items: seq<Datum>): (r: Option<map<IR.Value, seq<Datum>>>)
    requires c.hash.Some?
    decreases |items|
  {
    if items == [] then Some(m)
    else
      var k := InnerKey(calls, home, c, items[0]);
      if k.None? then None
      else IndexFrom(calls, home, c, m[k.value := Get(m, k.value) + [items[0]]], items[1..])
  }

  // The index of a hash clause, as built before the query runs.
  ghost function IndexOf(calls: Calls, home: Env, c: Clause): (r: Option<map<IR.Value, seq<Datum>>>)
    requires c.hash.Some?
  {
    var items := ItemsOf(Eval(calls, home, c.src));
    if items.None? then None else IndexFrom(calls, home, c, map[], items.value)
  }

  // The items with one key, in order.
  ghost function Matching(calls: Calls, home: Env, c: Clause, items: seq<Datum>, k: IR.Value): (r: seq<Datum>)
    requires c.hash.Some?
  {
    if items == [] then []
    else (if InnerKey(calls, home, c, items[0]) == Some(k) then [items[0]]
          else []) + Matching(calls, home, c, items[1..], k)
  }

  lemma {:induction false} IndexGroups(calls: Calls, home: Env, c: Clause, m: map<IR.Value, seq<Datum>>,
                                       items: seq<Datum>, k: IR.Value)
    requires c.hash.Some? && IndexFrom(calls, home, c, m, items).Some?
    ensures Get(IndexFrom(calls, home, c, m, items).value, k) == Get(m, k) + Matching(calls, home, c, items, k)
    decreases |items|
  {
    hide InnerKey, Get;
    if items == [] {
      assert Get(m, k) + [] == Get(m, k);
    } else {
      var j := InnerKey(calls, home, c, items[0]).value;
      var l := Get(m, j) + [items[0]];
      IndexGroups(calls, home, c, m[j := l], items[1..], k);
      GetPut(m, j, l, k);
    }
  }

  lemma GetPut(m: map<IR.Value, seq<Datum>>, j: IR.Value, l: seq<Datum>, k: IR.Value)
    ensures Get(m[j := l], k) == if k == j then l else Get(m, k)
  {
  }

  lemma {:induction false} IndexHasNoEmptyGroup(calls: Calls, home: Env, c: Clause, m: map<IR.Value, seq<Datum>>,
                                                items: seq<Datum>)
    requires c.hash.Some? && IndexFrom(calls, home, c, m, items).Some?
    requires forall j :: j in m ==> m[j] != []
    ensures var r := IndexFrom(calls, home, c, m, items).value; forall j :: j in r ==> r[j] != []
    decreases |items|
  {
    hide InnerKey, Get;
    if items != [] {
      var j := InnerKey(calls, home, c, items[0]).value;
      IndexHasNoEmptyGroup(calls, home, c, m[j := Get(m, j) + [items[0]]], items[1..]);
    }
  }

  // Every item has a key when the index was built.
  lemma {:induction false} IndexKeys(calls: Calls, home: Env, c: Clause, m: map<IR.Value, seq<Datum>>,
                                     items: seq<Datum>)
    requires c.hash.Some? && IndexFrom(calls, home, c, m, items).Some?
    ensures forall d :: d in items ==> InnerKey(calls, home, c, d).Some?
    decreases |items|
  {
    hide InnerKey;
    if items != [] {
      var j := InnerKey(calls, home, c, items[0]).value;
      IndexKeys(calls, home, c, m[j := Get(m, j) + [items[0]]], items[1..]);
    }
  }

  // --- Environments ---

  // The same user variables.
  ghost predicate SameUser(a: Env, b: Env) {
    forall s :: IR.Lookup(a, User(s)) == IR.Lookup(b, User(s))
  }

  // Only the bound names differ from the scope around the query.
  ghost predicate Extends(home: Env, r: Env, bound: set<Name>) {
    forall s :: User(s) !in bound ==> IR.Lookup(r, User(s)) == IR.Lookup(home, User(s))
  }

  lemma {:induction false} UserNames(e: Expr)
    requires UserExpr(e)
    ensures forall n :: n in VarNames(e) ==> n.User?
    decreases e, 0
  {
    match e
    case Binary(_, left, right) => UserNames(left); UserNames(right);
    case Unary(_, operand) => UserNames(operand);
    case Field(receiver, _) => UserNames(receiver);
    case Call(_, args) => UserNamesAll(args);
    case _ =>
  }

  lemma {:induction false} UserNamesAll(es: seq<Expr>)
    requires UserExprs(es)
    ensures forall n :: n in AllVarNames(es) ==> n.User?
    decreases es, 0
  {
    if es != [] {
      UserNames(es[0]);
      UserNamesAll(es[1..]);
    }
  }

  lemma EvalUser(calls: Calls, a: Env, b: Env, e: Expr)
    requires UserExpr(e) && SameUser(a, b)
    ensures Eval(calls, a, e) == Eval(calls, b, e)
  {
    UserNames(e);
    hide UserExpr, VarNames, IR.Lookup, Eval;
    forall n | n in VarNames(e) ensures IR.Lookup(a, n) == IR.Lookup(b, n) {
      assert n == User(n.id);
    }
    EvalSame(calls, a, b, e);
  }

  // A source is read inside the loops as it would be around the query.
  lemma EvalSource(calls: Calls, home: Env, r: Env, bound: set<Name>, e: Expr)
    requires UserExpr(e) && VarNames(e) !! bound && Extends(home, r, bound)
    ensures Eval(calls, r, e) == Eval(calls, home, e)
  {
    UserNames(e);
    hide UserExpr, VarNames, IR.Lookup, Eval;
    forall n | n in VarNames(e) ensures IR.Lookup(r, n) == IR.Lookup(home, n) {
      assert n == User(n.id);
    }
    EvalSame(calls, r, home, e);
  }

  lemma PushSame(a: Env, b: Env, frame: map<Name, Slot>)
    requires SameUser(a, b)
    ensures SameUser([frame] + a, [frame] + b)
  {
    hide IR.Lookup;
    forall s ensures IR.Lookup([frame] + a, User(s)) == IR.Lookup([frame] + b, User(s)) {
      LookupPush(frame, a, User(s));
      LookupPush(frame, b, User(s));
    }
  }

  // A frame of generated names is invisible to the user.
  lemma PushHidden(a: Env, b: Env, frame: map<Name, Slot>)
    requires SameUser(a, b) && forall n :: n in frame ==> !n.User?
    ensures SameUser([frame] + a, b)
  {
    hide IR.Lookup;
    forall s ensures IR.Lookup([frame] + a, User(s)) == IR.Lookup(b, User(s)) {
      LookupPush(frame, a, User(s));
    }
  }

  lemma UpdateSameUser(a: Env, b: Env, n: Name, x: Slot)
    requires SameUser(a, b) && !n.User? && IR.Lookup(a, n).Some?
    ensures SameUser(IR.Update(a, n, x), b)
  {
    hide IR.Lookup, IR.Update;
    forall s ensures IR.Lookup(IR.Update(a, n, x), User(s)) == IR.Lookup(b, User(s)) {
      LookupUpdate(a, n, x, User(s));
    }
  }

  lemma PushExtends(home: Env, r: Env, bound: set<Name>, x: Name, d: Datum)
    requires Extends(home, r, bound)
    ensures Extends(home, [map[x := Plain(d)]] + r, bound + {x})
  {
    hide IR.Lookup;
    forall s | User(s) !in bound + {x}
      ensures IR.Lookup([map[x := Plain(d)]] + r, User(s)) == IR.Lookup(home, User(s))
    {
      LookupPush(map[x := Plain(d)], r, User(s));
    }
  }

  // --- Running the loops ---

  // The result variable has grown by the rows, and nothing else changed.
  ghost function Grown(a: Env, result: Name, cur: seq<Datum>, rows: Option<seq<Datum>>): (r: Option<Env>) {
    if rows.None? then None else Some(IR.Update(a, result, Plain(ListD(cur + rows.value))))
  }

  // Every hash clause finds its index.
  ghost predicate Tables(calls: Calls, home: Env, a: Env, cs: seq<Clause>) {
    cs == [] || (TableAt(calls, home, a, cs[0]) && Tables(calls, home, a, cs[1..]))
  }

  ghost predicate TableAt(calls: Calls, home: Env, a: Env, c: Clause) {
    c.hash.Some? ==> MapAt(a, HashIndex(c.hash.value.id)).Some?
                     && IndexOf(calls, home, c) == MapAt(a, HashIndex(c.hash.value.id))
  }

  // What the code relies on when the clauses `cs` are still to be run: `a` is
  // the actual chain and `r` the row of the comprehension it stands for.
  ghost predicate Ready(calls: Calls, home: Env, a: Env, r: Env, bound: set<Name>, cs: seq<Clause>, result: Name,
                        cur: seq<Datum>) {
    && a != [] && result.QueryVar?
    && IR.Lookup(a, result) == Some(Plain(ListD(cur)))
    && SameUser(a, r)
    && Extends(home, r, bound)
    && Tables(calls, home, a, cs)
    && GoodClauses(cs, bound)
  }

  // Generated names other than those in the frame are found behind it.
  lemma {:induction false} TablesPush(calls: Calls, home: Env, a: Env, frame: map<Name, Slot>, cs: seq<Clause>)
    requires Tables(calls, home, a, cs) && forall n :: n in frame ==> !n.HashIndex?
    ensures Tables(calls, home, [frame] + a, cs)
  {
    hide IR.Lookup, IndexOf;
    if cs != [] {
      if cs[0].hash.Some? {
        LookupPush(frame, a, HashIndex(cs[0].hash.value.id));
      }
      TablesPush(calls, home, a, frame, cs[1..]);
    }
  }

  lemma {:induction false} TablesUpdate(calls: Calls, home: Env, a: Env, n: Name, x: Slot, cs: seq<Clause>)
    requires Tables(calls, home, a, cs) && !n.HashIndex? && IR.Lookup(a, n).Some?
    ensures Tables(calls, home, IR.Update(a, n, x), cs)
  {
    hide IR.Lookup, IR.Update, IndexOf;
    if cs != [] {
      if cs[0].hash.Some? {
        LookupUpdate(a, n, x, HashIndex(cs[0].hash.value.id));
      }
      TablesUpdate(calls, home, a, n, x, cs[1..]);
    }
  }

  // One more loop variable.
  lemma ReadyPush(calls: Calls, home: Env, a: Env, r: Env, bound: set<Name>, c: Clause, cs: seq<Clause>, result: Name,
                  cur: seq<Datum>, d: Datum)
    requires Ready(calls, home, a, r, bound, [c] + cs, result, cur)
    ensures Ready(calls, home, [map[c.x := Plain(d)]] + a, [map[c.x := Plain(d)]] + r, bound + {c.x}, cs, result, cur)
  {
    assert ([c] + cs)[1..] == cs;
    var frame := map[c.x := Plain(d)];
    assert c.x.User?;
    hide IR.Lookup, SameUser, Extends, Tables;
    PushSame(a, r, frame);
    PushExtends(home, r, bound, c.x, d);
    TablesSplit(calls, home, a, c, cs);
    TablesPush(calls, home, a, frame, cs);
    LookupPush(frame, a, result);
  }

  lemma TablesSplit(calls: Calls, home: Env, a: Env, c: Clause, cs: seq<Clause>)
    ensures Tables(calls, home, a, [c] + cs) <==> TableAt(calls, home, a, c) && Tables(calls, home, a, cs)
  {
    hide TableAt;
    assert ([c] + cs)[1..] == cs;
  }

  // A frame of lowerer names in front changes nothing.
  lemma ReadyHidden(calls: Calls, home: Env, a: Env, r: Env, bound: set<Name>, cs: seq<Clause>, result: Name,
                    cur: seq<Datum>, frame: map<Name, Slot>)
    requires Ready(calls, home, a, r, bound, cs, result, cur)
    requires forall n :: n in frame ==> n.HashList?
    ensures Ready(calls, home, [frame] + a, r, bound, cs, result, cur)
  {
    hide IR.Lookup, SameUser, Extends, Tables, GoodClauses;
    PushHidden(a, r, frame);
    TablesPush(calls, home, a, frame, cs);
    LookupPush(frame, a, result);
  }

  // After some rows have been added.
  lemma ReadyGrown(calls: Calls, home: Env, a: Env, r: Env, bound: set<Name>, cs: seq<Clause>, result: Name,
                   cur: seq<Datum>, more: seq<Datum>)
    requires Ready(calls, home, a, r, bound, cs, result, cur)
    ensures Ready(calls, home, IR.Update(a, result, Plain(ListD(cur + more))), r, bound, cs, result, cur + more)
  {
    hide IR.Lookup, IR.Update, SameUser, Extends, Tables, GoodClauses;
    var x := Plain(ListD(cur + more));
    UpdateSameUser(a, r, result, x);
    TablesUpdate(calls, home, a, result, x, cs);
    LookupUpdate(a, result, x, result);
  }

  lemma GrownTwice(a: Env, result: Name, cur: seq<Datum>, first: seq<Datum>, rest: seq<Datum>)
    ensures Grown(IR.Update(a, result, Plain(ListD(cur + first))), result, cur + first, Some(rest))
         == Grown(a, result, cur, Some(first + rest))
  {
    UpdateTwice(a, result, Plain(ListD(cur + first)), Plain(ListD((cur + first) + rest)));
    assert (cur + first) + rest == cur + (first + rest);
  }

  lemma GrownByNothing(a: Env, result: Name, cur: seq<Datum>)
    requires IR.Lookup(a, result) == Some(Plain(ListD(cur)))
    ensures Grown(a, result, cur, Some([])) == Some(a)
  {
    assert cur + [] == cur;
    UpdateSame(a, result);
  }

  // Leaving a block that only made the result grow.
  lemma BlockGrown(calls: Calls, a: Env, frame: map<Name, Slot>, ss: seq<Stmt>, result: Name, cur: seq<Datum>,
                   rows: Option<seq<Datum>>)
    requires a != [] && result !in frame
    requires ExecSeq(calls, [frame] + a, ss) == Grown([frame] + a, result, cur, rows)
    ensures ExecBlock(calls, a, frame, ss) == Grown(a, result, cur, rows)
  {
    hide ExecSeq, IR.Update;
    if rows.Some? {
      var x := Plain(ListD(cur + rows.value));
      UpdatePush(frame, a, result, x);
      assert ([frame] + IR.Update(a, result, x))[1..] == IR.Update(a, result, x);
    }
  }

  lemma One(calls: Calls, a: Env, s: Stmt)
    requires a != []
    ensures ExecSeq(calls, a, [s]) == Exec(calls, a, s)
  {
    hide Exec;
    assert [s][1..] == [];
    var r := Exec(calls, a, s);
    if r.Some? {
      assert ExecSeq(calls, r.value, []) == r;
    }
  }

  // The innermost body: the guarded append.
  lemma LeafRuns(calls: Calls, a: Env, r: Env, q: Query, result: Name, cur: seq<Datum>)
    requires a != [] && result.QueryVar? && IR.Lookup(a, result) == Some(Plain(ListD(cur))) && SameUser(a, r)
             && GoodLeaf(q)
    ensures ExecSeq(calls, a, Innermost(q, result)) == Grown(a, result, cur, Leaf(calls, r, q))
  {
    var append := Assign(result, Append(Var(result), q.select));
    One(calls, a, append);
    if q.where_.None? {
      AppendRuns(calls, a, r, q.select, result, cur);
    } else {
      var w := q.where_.value;
      EvalUser(calls, a, r, w);
      One(calls, a, If(w, [append]));
      var b := [map[]] + a;
      LookupPush(map[], a, result);
      PushHidden(a, r, map[]);
      AppendRuns(calls, b, r, q.select, result, cur);
      One(calls, b, append);
      hide Eval, SameUser, IR.Lookup, ExecSeq, UserExpr;
      var v := Eval(calls, r, q.select);
      BlockGrown(calls, a, map[], [append], result, cur, if v.None? then None else Some([v.value]));
      GrownByNothing(a, result, cur);
    }
  }

  lemma AppendRuns(calls: Calls, a: Env, r: Env, select: Expr, result: Name, cur: seq<Datum>)
    requires a != [] && IR.Lookup(a, result) == Some(Plain(ListD(cur))) && SameUser(a, r) && UserExpr(select)
    ensures var v := Eval(calls, r, select);
            Exec(calls, a, Assign(result, Append(Var(result), select))) ==
              Grown(a, result, cur, if v.None? then None else Some([v.value]))
  {
    hide SameUser, IR.Lookup, IR.Update, UserExpr;
    EvalUser(calls, a, r, select);
    assert Eval(calls, a, Var(result)) == Some(ListD(cur));
  }

  // The whole nest below one row.
  lemma {:induction false} BodyRuns(calls: Calls, home: Env, a: Env, r: Env, bound: set<Name>, cs: seq<Clause>,
                                    q: Query, result: Name, cur: seq<Datum>)
    requires Ready(calls, home, a, r, bound, cs, result, cur) && GoodLeaf(q)
    ensures ExecSeq(calls, a, BodyOf(cs, Innermost(q, result))) == Grown(a, result, cur, Rows(calls, home, r, cs, q))
    decreases |cs|, 1, 0
  {
    if cs == [] {
      LeafRuns(calls, a, r, q, result, cur);
    } else {
      var c, rest := cs[0], cs[1..];
      assert cs == [c] + rest;
      var body := BodyOf(rest, Innermost(q, result));
      hide ExecSeq, BodyOf, Innermost;
      assert BodyOf(cs, Innermost(q, result)) == Wrapped(c, body) by { BodyStep(cs, q, result); }
      if c.hash.Some? {
        HashRuns(calls, home, a, r, bound, c, rest, q, result, cur);
      } else {
        LoopRuns(calls, home, a, r, bound, c, rest, q, result, cur);
      }
    }
  }

  lemma BodyStep(cs: seq<Clause>, q: Query, result: Name)
    requires cs != []
    ensures BodyOf(cs, Innermost(q, result)) == Wrapped(cs[0], BodyOf(cs[1..], Innermost(q, result)))
  {
    hide Innermost, Wrapped;
  }

  // One round of a loop around the nest.
  lemma {:induction false} RoundRuns(calls: Calls, home: Env, a: Env, r: Env, bound: set<Name>, c: Clause,
                                     cs: seq<Clause>, q: Query, result: Name, cur: seq<Datum>, d: Datum)
    requires Ready(calls, home, a, r, bound, [c] + cs, result, cur) && GoodLeaf(q)
    ensures ExecBlock(calls, a, map[c.x := Plain(d)], BodyOf(cs, Innermost(q, result)))
         == Grown(a, result, cur, Rows(calls, home, [map[c.x := Plain(d)]] + r, cs, q))
    decreases |cs|, 2, 0
  {
    var frame := map[c.x := Plain(d)];
    ReadyPush(calls, home, a, r, bound, c, cs, result, cur, d);
    assert result !in frame && a != [];
    hide *;
    BodyRuns(calls, home, [frame] + a, [frame] + r, bound + {c.x}, cs, q, result, cur);
    BlockGrown(calls, a, frame, BodyOf(cs, Innermost(q, result)), result, cur, Rows(calls, home, [frame] + r, cs, q));
  }

  // All rounds, over items that need no further test.
  lemma {:induction false} EachRuns(calls: Calls, home: Env, a: Env, r: Env, bound: set<Name>, c: Clause,
                                    cs: seq<Clause>, q: Query, result: Name, cur: seq<Datum>, items: seq<Datum>)
    requires Ready(calls, home, a, r, bound, [c] + cs, result, cur) && GoodLeaf(q)
    ensures a != [] && ExecEach(calls, a, c.x, items, BodyOf(cs, Innermost(q, result)))
         == Grown(a, result, cur, RowsThrough(calls, home, r, c.x, items, cs, q))
    decreases |cs|, 3, |items|
  {
    if items == [] {
      hide ExecBlock, Rows;
      GrownByNothing(a, result, cur);
    } else {
      var body := BodyOf(cs, Innermost(q, result));
      var first := Rows(calls, home, [map[c.x := Plain(items[0])]] + r, cs, q);
      var rest := RowsThrough(calls, home, r, c.x, items[1..], cs, q);
      hide Ready, ExecBlock, Rows, BodyOf, Innermost;
      RoundRuns(calls, home, a, r, bound, c, cs, q, result, cur, items[0]);
      if first.Some? {
        var b := IR.Update(a, result, Plain(ListD(cur + first.value)));
        ReadyGrown(calls, home, a, r, bound, [c] + cs, result, cur, first.value);
        EachRuns(calls, home, b, r, bound, c, cs, q, result, cur + first.value, items[1..]);
        if rest.Some? {
          GrownTwice(a, result, cur, first.value, rest.value);
        }
      }
    }
  }

  // The rows of the items that a clause keeps.
  ghost function KeptRows(calls: Calls, home: Env, r: Env, c: Clause, cs: seq<Clause>, q: Query,
                          items: seq<Datum>): (rows: Option<seq<Datum>>) {
    var kept := Kept(calls, r, c, items);
    if kept.None? then None else RowsThrough(calls, home, r, c.x, kept.value, cs, q)
  }

  // One guarded round.
  lemma {:induction false} GuardedRuns(calls: Calls, home: Env, a: Env, r: Env, bound: set<Name>, c: Clause,
                                       cs: seq<Clause>, q: Query, result: Name, cur: seq<Datum>, d: Datum)
    requires Ready(calls, home, a, r, bound, [c] + cs, result, cur) && GoodLeaf(q) && c.on.Some?
    ensures var frame := map[c.x := Plain(d)];
            var ok := Passes(calls, [frame] + r, c.on);
            a != [] && ExecBlock(calls, a, frame, [If(c.on.value, BodyOf(cs, Innermost(q, result)))]) ==
              Grown(a, result, cur, if ok.None? then None else if ok.value then Rows(calls, home, [frame] + r, cs, q)
                    else Some([]))
    decreases |cs|, 2, 1
  {
    var frame := map[c.x := Plain(d)];
    var b, s := [frame] + a, [frame] + r;
    var body := BodyOf(cs, Innermost(q, result));
    ReadyPush(calls, home, a, r, bound, c, cs, result, cur, d);
    assert UserExpr(c.on.value) && SameUser(b, s) && result !in frame && a != []
        && IR.Lookup(b, result) == Some(Plain(ListD(cur)));
    ReadyHidden(calls, home, b, s, bound + {c.x}, cs, result, cur, map[]);
    EvalUser(calls, b, s, c.on.value);
    hide Ready, BodyOf, Innermost, ExecSeq, Rows, Eval, UserExpr, SameUser, IR.Lookup;
    BodyRuns(calls, home, [map[]] + b, s, bound + {c.x}, cs, q, result, cur);
    BlockGrown(calls, b, map[], body, result, cur, Rows(calls, home, s, cs, q));
    GrownByNothing(b, result, cur);
    One(calls, b, If(c.on.value, body));
    var ok := Passes(calls, s, c.on);
    BlockGrown(calls, a, frame, [If(c.on.value, body)], result, cur,
      if ok.None? then None else if ok.value then Rows(calls, home, s, cs, q) else Some([]));
  }

  lemma {:induction false} EachGuardedRuns(calls: Calls, home: Env, a: Env, r: Env, bound: set<Name>, c: Clause,
                                           cs: seq<Clause>, q: Query, result: Name, cur: seq<Datum>, items: seq<Datum>)
    requires Ready(calls, home, a, r, bound, [c] + cs, result, cur) && GoodLeaf(q) && c.on.Some?
    ensures a != [] && ExecEach(calls, a, c.x, items, [If(c.on.value, BodyOf(cs, Innermost(q, result)))])
         == Grown(a, result, cur, KeptRows(calls, home, r, c, cs, q, items))
    decreases |cs|, 3, |items|
  {
    if items == [] {
      hide ExecBlock, Rows;
      GrownByNothing(a, result, cur);
    } else {
      hide Ready, ExecBlock, Rows, BodyOf, Innermost, Passes, KeptRows;
      var frame := map[c.x := Plain(items[0])];
      var ok := Passes(calls, [frame] + r, c.on);
      var first := if ok.None? then None else if ok.value then Rows(calls, home, [frame] + r, cs, q) else Some([]);
      GuardedRuns(calls, home, a, r, bound, c, cs, q, result, cur, items[0]);
      KeptRowsStep(calls, home, r, c, cs, q, items);
      if first.Some? {
        var b := IR.Update(a, result, Plain(ListD(cur + first.value)));
        ReadyGrown(calls, home, a, r, bound, [c] + cs, result, cur, first.value);
        EachGuardedRuns(calls, home, b, r, bound, c, cs, q, result, cur + first.value, items[1..]);
        var rest := KeptRows(calls, home, r, c, cs, q, items[1..]);
        if rest.Some? {
          GrownTwice(a, result, cur, first.value, rest.value);
        }
      }
    }
  }

  lemma KeptRowsStep(calls: Calls, home: Env, r: Env, c: Clause, cs: seq<Clause>, q: Query, items: seq<Datum>)
    requires items != []
    ensures var frame := map[c.x := Plain(items[0])];
            var ok := Passes(calls, [frame] + r, c.on);
            var first := if ok.None? then None else if ok.value then Rows(calls, home, [frame] + r, cs, q)
                else Some([]);
            var rest := KeptRows(calls, home, r, c, cs, q, items[1..]);
            KeptRows(calls, home, r, c, cs, q, items) ==
              if first.None? || rest.None? then None else Some(first.value + rest.value)
  {
    hide Passes, Rows;
    var frame := map[c.x := Plain(items[0])];
    var ok := Passes(calls, [frame] + r, c.on);
    var kept := Kept(calls, r, c, items[1..]);
    if ok.Some? && kept.Some? {
      if ok.value {
        assert ([items[0]] + kept.value)[1..] == kept.value;
      } else {
        assert [] + kept.value == kept.value;
        var rest := RowsThrough(calls, home, r, c.x, kept.value, cs, q);
        if rest.Some? {
          assert [] + rest.value == rest.value;
        }
      }
    }
  }

  // A clause lowered as a loop.
  lemma {:induction false} LoopRuns(calls: Calls, home: Env, a: Env, r: Env, bound: set<Name>, c: Clause,
                                    cs: seq<Clause>, q: Query, result: Name, cur: seq<Datum>)
    requires Ready(calls, home, a, r, bound, [c] + cs, result, cur) && GoodLeaf(q) && c.hash.None?
    ensures a != [] && ExecSeq(calls, a, Wrapped(c, BodyOf(cs, Innermost(q, result)))) ==
            Grown(a, result, cur, Rows(calls, home, r, [c] + cs, q))
    decreases |cs|, 4, 0
  {
    assert ([c] + cs)[1..] == cs && a != [];
    assert GoodClause(c, bound) && SameUser(a, r) && Extends(home, r, bound);
    EvalUser(calls, a, r, c.src);
    EvalSource(calls, home, r, bound, c.src);
    var body := BodyOf(cs, Innermost(q, result));
    hide Ready, BodyOf, Innermost, ExecSeq, Eval, UserExpr, SameUser, Extends, GoodClause, ExecEach, Kept, RowsThrough;
    One(calls, a, Wrapped(c, body)[0]);
    var items := ItemsOf(Eval(calls, home, c.src));
    if items.Some? {
      if c.on.Some? {
        EachGuardedRuns(calls, home, a, r, bound, c, cs, q, result, cur, items.value);
      } else {
        KeptAll(calls, r, c, items.value);
        EachRuns(calls, home, a, r, bound, c, cs, q, result, cur, items.value);
      }
    }
  }

  lemma {:induction false} KeptAll(calls: Calls, r: Env, c: Clause, items: seq<Datum>)
    requires c.on.None?
    ensures Kept(calls, r, c, items) == Some(items)
  {
    if items != [] {
      KeptAll(calls, r, c, items[1..]);
      assert [items[0]] + items[1..] == items;
    }
  }

  // --- The hash lookup ---

  // The condition of a split clause compares the two keys.
  lemma SplitPasses(calls: Calls, home: Env, r: Env, c: Clause, bound: set<Name>, d: Datum, k: IR.Value)
    requires c.hash.Some? && GoodClause(c, bound)
    requires KeyOf(Eval(calls, r, c.hash.value.keys.outer), c.hash.value.keys.t) == Some(k)
    requires InnerKey(calls, home, c, d).Some?
    ensures Passes(calls, [map[c.x := Plain(d)]] + r, c.on) == Some(InnerKey(calls, home, c, d) == Some(k))
  {
    var keys := c.hash.value.keys;
    var env := [map[c.x := Plain(d)]] + r;
    InnerSame(calls, home, r, c, d);
    OuterSame(calls, r, c, bound, d);
    hide UserExpr, VarNames, IR.Lookup;
    var j := InnerKey(calls, home, c, d).value;
    EqualityApplies(c.on.value.op, j, k);
    EqualityApplies(c.on.value.op, k, j);
    assert Eval(calls, env, keys.inner) == Some(Scalar(j)) && Eval(calls, env, keys.outer) == Some(Scalar(k));
    hide InnerKey, IR.Apply, EqualityType;
  }

  lemma EqualityApplies(op: IR.BinOp, a: IR.Value, b: IR.Value)
    requires EqualityType(op) == Some(a.Type()) && a.Type() == b.Type()
    ensures Operate(op, Scalar(a), Some(Scalar(b))) == Some(Scalar(IR.BoolV(a == b)))
  {
  }

  // The inner key reads the loop variable only.
  lemma InnerSame(calls: Calls, home: Env, r: Env, c: Clause, d: Datum)
    requires c.hash.Some? && Split(c)
    ensures Eval(calls, [map[c.x := Plain(d)]] + r, c.hash.value.keys.inner) ==
            Eval(calls, [map[c.x := Plain(d)]] + home, c.hash.value.keys.inner)
  {
    var e := c.hash.value.keys.inner;
    var frame := map[c.x := Plain(d)];
    hide UserExpr, VarNames, IR.Lookup, Eval;
    forall n | n in VarNames(e) ensures IR.Lookup([frame] + r, n) == IR.Lookup([frame] + home, n) {
      LookupPush(frame, r, n);
      LookupPush(frame, home, n);
    }
    EvalSame(calls, [frame] + r, [frame] + home, e);
  }

  // The outer key does not see the loop variable.
  lemma OuterSame(calls: Calls, r: Env, c: Clause, bound: set<Name>, d: Datum)
    requires c.hash.Some? && GoodClause(c, bound)
    ensures Eval(calls, [map[c.x := Plain(d)]] + r, c.hash.value.keys.outer) == Eval(calls, r, c.hash.value.keys.outer)
  {
    var e := c.hash.value.keys.outer;
    var frame := map[c.x := Plain(d)];
    hide UserExpr, VarNames, IR.Lookup, Eval;
    forall n | n in VarNames(e) ensures IR.Lookup([frame] + r, n) == IR.Lookup(r, n) {
      LookupPush(frame, r, n);
    }
    EvalSame(calls, [frame] + r, r, e);
  }

  // The items the condition keeps are the items filed under the key.
  lemma {:induction false} KeptMatching(calls: Calls, home: Env, r: Env, c: Clause, bound: set<Name>, items: seq<Datum>,
                                        k: IR.Value)
    requires c.hash.Some? && GoodClause(c, bound)
    requires KeyOf(Eval(calls, r, c.hash.value.keys.outer), c.hash.value.keys.t) == Some(k)
    requires forall d :: d in items ==> InnerKey(calls, home, c, d).Some?
    ensures Kept(calls, r, c, items) == Some(Matching(calls, home, c, items, k))
  {
    hide GoodClause, InnerKey, Passes, Eval;
    if items != [] {
      SplitPasses(calls, home, r, c, bound, items[0], k);
      KeptMatching(calls, home, r, c, bound, items[1..], k);
    }
  }

  // With an index in place the lookup finds exactly the kept items.
  lemma IndexLookup(calls: Calls, home: Env, r: Env, c: Clause, bound: set<Name>, k: IR.Value)
    requires c.hash.Some? && GoodClause(c, bound) && IndexOf(calls, home, c).Some?
    requires KeyOf(Eval(calls, r, c.hash.value.keys.outer), c.hash.value.keys.t) == Some(k)
    ensures var m := IndexOf(calls, home, c).value;
            var items := ItemsOf(Eval(calls, home, c.src));
            && items.Some?
            && Kept(calls, r, c, items.value) == Some(Get(m, k))
            && (k in m <==> Get(m, k) != [])
  {
    hide GoodClause, InnerKey, Eval, Kept, Matching, IndexFrom;
    var items := ItemsOf(Eval(calls, home, c.src)).value;
    IndexKeys(calls, home, c, map[], items);
    IndexGroups(calls, home, c, map[], items, k);
    IndexHasNoEmptyGroup(calls, home, c, map[], items);
    KeptMatching(calls, home, r, c, bound, items, k);
    assert [] + Matching(calls, home, c, items, k) == Matching(calls, home, c, items, k);
  }

  // The lookup statement: a key that fails, a miss, a hit.
  lemma LookupRuns(calls: Calls, a: Env, c: Clause, body: seq<Stmt>, m: map<IR.Value, seq<Datum>>)
    requires a != [] && c.hash.Some? && MapAt(a, HashIndex(c.hash.value.id)) == Some(m)
    ensures var h := c.hash.value;
            var get := MapGet(HashIndex(h.id), h.keys.outer, h.keys.t);
            var k := KeyOf(Eval(calls, a, h.keys.outer), h.keys.t);
            && ExecSeq(calls, a, Wrapped(c, body)) ==
                 (if k.None? then None
                  else if k.value in m then ExecBlock(calls, a, map[],
                                                      [Let(HashList(h.id), get),
                                                       ForEach(c.x, Var(HashList(h.id)), body)])
                  else Some(a))
            && (k.Some? && k.value in m ==> Eval(calls, a, get) == Some(ListD(m[k.value])))
  {
    One(calls, a, Wrapped(c, body)[0]);
    hide MapAt, ExecSeq;
  }

  lemma RowsOfHash(calls: Calls, home: Env, r: Env, c: Clause, cs: seq<Clause>, q: Query)
    requires c.hash.Some?
    ensures var k := KeyOf(Eval(calls, r, c.hash.value.keys.outer), c.hash.value.keys.t);
            var items := ItemsOf(Eval(calls, home, c.src));
            Rows(calls, home, r, [c] + cs, q) ==
              if k.None? || items.None? || Kept(calls, r, c, items.value).None? then None
              else RowsThrough(calls, home, r, c.x, Kept(calls, r, c, items.value).value, cs, q)
  {
    hide Eval, Kept, RowsThrough;
    assert ([c] + cs)[1..] == cs;
  }

  // What HashRuns needs of a ready state.
  lemma HashReady(calls: Calls, home: Env, a: Env, r: Env, bound: set<Name>, c: Clause, cs: seq<Clause>, result: Name,
                  cur: seq<Datum>)
    requires Ready(calls, home, a, r, bound, [c] + cs, result, cur) && c.hash.Some?
    ensures a != [] && GoodClause(c, bound) && IR.Lookup(a, result) == Some(Plain(ListD(cur)))
    ensures MapAt(a, HashIndex(c.hash.value.id)).Some?
            && IndexOf(calls, home, c) == MapAt(a, HashIndex(c.hash.value.id))
    ensures Eval(calls, a, c.hash.value.keys.outer) == Eval(calls, r, c.hash.value.keys.outer)
  {
    TablesSplit(calls, home, a, c, cs);
    EvalUser(calls, a, r, c.hash.value.keys.outer);
    hide IndexOf, MapAt, IR.Lookup, Eval, UserExpr, SameUser, Extends, Tables;
  }

  // A clause lowered as a hash lookup.
  lemma {:induction false} HashRuns(calls: Calls, home: Env, a: Env, r: Env, bound: set<Name>, c: Clause,
                                    cs: seq<Clause>, q: Query, result: Name, cur: seq<Datum>)
    requires Ready(calls, home, a, r, bound, [c] + cs, result, cur) && GoodLeaf(q) && c.hash.Some?
    ensures a != [] && ExecSeq(calls, a, Wrapped(c, BodyOf(cs, Innermost(q, result)))) ==
            Grown(a, result, cur, Rows(calls, home, r, [c] + cs, q))
    decreases |cs|, 4, 0
  {
    HashReady(calls, home, a, r, bound, c, cs, result, cur);
    hide Ready, GoodLeaf, BodyOf, Innermost, ExecSeq, Wrapped, Rows, Kept, IndexOf, MapAt, IR.Lookup, Eval, GoodClause,
        ExecBlock, IR.Update;
    var h := c.hash.value;
    var m := MapAt(a, HashIndex(h.id)).value;
    var body := BodyOf(cs, Innermost(q, result));
    LookupRuns(calls, a, c, body, m);
    RowsOfHash(calls, home, r, c, cs, q);
    var k := KeyOf(Eval(calls, r, h.keys.outer), h.keys.t);
    if k.Some? {
      IndexLookup(calls, home, r, c, bound, k.value);
      if k.value in m {
        GroupRuns(calls, home, a, r, bound, c, cs, q, result, cur, m[k.value]);
      } else {
        GrownByNothing(a, result, cur);
        assert RowsThrough(calls, home, r, c.x, [], cs, q) == Some([]);
      }
    }
  }

  // The block run on a hit.
  lemma {:induction false} GroupRuns(calls: Calls, home: Env, a: Env, r: Env, bound: set<Name>, c: Clause,
                                     cs: seq<Clause>, q: Query, result: Name, cur: seq<Datum>, group: seq<Datum>)
    requires Ready(calls, home, a, r, bound, [c] + cs, result, cur) && GoodLeaf(q) && c.hash.Some?
    requires var h := c.hash.value;
             Eval(calls, a, MapGet(HashIndex(h.id), h.keys.outer, h.keys.t)) == Some(ListD(group))
    ensures var h := c.hash.value;
            a != [] && ExecBlock(calls, a, map[],
              [ Let(HashList(h.id), MapGet(HashIndex(h.id), h.keys.outer, h.keys.t)),
                ForEach(c.x, Var(HashList(h.id)), BodyOf(cs, Innermost(q, result))) ])
            == Grown(a, result, cur, RowsThrough(calls, home, r, c.x, group, cs, q))
    decreases |cs|, 3, |group| + 1
  {
    var h := c.hash.value;
    var body := BodyOf(cs, Innermost(q, result));
    var get := MapGet(HashIndex(h.id), h.keys.outer, h.keys.t);
    var list := HashList(h.id);
    var none: map<Name, Slot> := map[];
    var frame := none[list := Plain(ListD(group))];
    assert a != [] && result.QueryVar? && GoodClause(c, bound) && UserExpr(h.keys.outer);
    GetHidden(calls, a, none, get);
    ReadyHidden(calls, home, a, r, bound, [c] + cs, result, cur, frame);
    hide Ready, BodyOf, Innermost, GoodClause, UserExpr, RowsThrough, ExecEach;
    DeclareHead(none, a, list, Plain(ListD(group)));
    LookupPush(frame, a, list);
    EachRuns(calls, home, [frame] + a, r, bound, c, cs, q, result, cur, group);
    Two(calls, [none] + a, Let(list, get), ForEach(c.x, Var(list), body));
    var rows := RowsThrough(calls, home, r, c.x, group, cs, q);
    hide IR.Update, IR.Lookup, ExecSeq;
    if rows.Some? {
      var x := Plain(ListD(cur + rows.value));
      UpdatePush(frame, a, result, x);
      assert ([frame] + IR.Update(a, result, x))[1..] == IR.Update(a, result, x);
    }
  }

  // A map read whose key is a user expression, behind a hidden frame.
  lemma GetHidden(calls: Calls, a: Env, frame: map<Name, Slot>, e: Expr)
    requires e.MapGet? && UserExpr(e.key) && e.index !in frame && forall n :: n in frame ==> !n.User?
    ensures Eval(calls, [frame] + a, e) == Eval(calls, a, e)
  {
    PushHidden(a, a, frame);
    EvalUser(calls, [frame] + a, a, e.key);
    LookupPush(frame, a, e.index);
    hide IR.Lookup, UserExpr;
  }

  lemma Two(calls: Calls, a: Env, s: Stmt, t: Stmt)
    requires a != []
    ensures var r := Exec(calls, a, s);
            ExecSeq(calls, a, [s, t]) == if r.None? then None else Exec(calls, r.value, t)
  {
    hide Exec;
    assert [s, t][1..] == [t];
    var r := Exec(calls, a, s);
    if r.Some? {
      One(calls, r.value, t);
    }
  }
}
