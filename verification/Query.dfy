/**
 * Query lowering (internal/clower/lower.go): comprehensions with any number
 * of `from` clauses and inner joins become nested loops; an equality join
 * becomes a hash index built up front and a lookup.
 *
 * `Rows` is the list comprehension itself.  `BodyOf` and `PreludeOf` give the
 * code the two reverse wrapping loops produce; `LowerQuery` is those loops.
 */
module Query {
  import opened Options
  import IR
  import Verifier
  import opened QueryIR

  datatype From = From(x: string, src: Expr)
  datatype Join = Join(x: string, src: Expr, on: Expr)

  // `from x in src  from ...  join ... on ...  [where ...]  select ...`, its
  // expressions already lowered.
  datatype Query = Query(x: string, src: Expr, froms: seq<From>, joins: seq<Join>, where_: Option<Expr>, select: Expr)

  // --- Choosing hash joins ---

  // A split equality condition.
  datatype HashKeys = HashKeys(inner: Expr, outer: Expr, t: IR.Type)

  // The operand type of an equality operator.
  function EqualityType(op: IR.BinOp): (r: Option<IR.Type>) {
    match op
    case EqI64 => Some(IR.Int)
    case EqF64 => Some(IR.Float)
    case EqBool => Some(IR.Bool)
    case EqStr => Some(IR.Str)
    case _ => None
  }

  // An equality with one side over the join variable and the other over the
  // variables around it.
  predicate Splits(on: Expr, x: Name, outer: set<Name>) {
    && on.Binary? && on.op in {IR.EqI64, IR.EqF64, IR.EqBool, IR.EqStr}
    && (Over(on.left, {x}, on.right, outer) || Over(on.right, {x}, on.left, outer))
  }

  predicate Over(a: Expr, xs: set<Name>, b: Expr, ys: set<Name>) { VarNames(a) <= xs && VarNames(b) <= ys }

  // Every such equality is used, with its two sides as keys of their type.
  function ExtractHashJoinKeys(on: Expr, x: Name, outer: set<Name>): (r: Option<HashKeys>)
    ensures r.Some? <==> Splits(on, x, outer)
    ensures r.Some? ==> Over(r.value.inner, {x}, r.value.outer, outer)
    ensures r.Some? ==> var k := r.value; (k.inner, k.outer) in [(on.left, on.right), (on.right, on.left)]
    ensures r.Some? ==> Verifier.BinOpSignature(on.op) == Verifier.Signature(r.value.t, r.value.t, IR.Bool)
  {
    if !on.Binary? then None
    else
      var t := EqualityType(on.op);
      if t.None? then None
      else if VarNames(on.left) <= {x} && VarNames(on.right) <= outer then Some(HashKeys(on.left, on.right, t.value))
      else if VarNames(on.right) <= {x} && VarNames(on.left) <= outer then Some(HashKeys(on.right, on.left, t.value))
      else None
  }

  function FromNames(fs: seq<From>): (ns: set<Name>) { set f | f in fs :: User(f.x) }
  function JoinNames(js: seq<Join>): (ns: set<Name>) { set j | j in js :: User(j.x) }

  function OuterJoinVars(q: Query, i: nat): (ns: set<Name>)
    requires i <= |q.joins|
  {
    {User(q.x)} + FromNames(q.froms) + JoinNames(q.joins[..i])
  }

  // --- The plan: one clause per loop, outermost first ---

  datatype HashPlan = HashPlan(keys: HashKeys, id: nat)
  datatype Clause = Clause(x: Name, src: Expr, on: Option<Expr>, hash: Option<HashPlan>)

  function Hashes(cs: seq<Clause>): (n: nat) {
    if cs == [] then 0 else (if cs[0].hash.Some? then 1 else 0) + Hashes(cs[1..])
  }

  // The joins from the i-th on.  Ids are handed out from the last join to the
  // first, after the counter.
  function JoinClauses(q: Query, i: nat, counter: nat): (cs: seq<Clause>)
    requires i <= |q.joins|
    ensures |cs| == |q.joins| - i
    decreases |q.joins| - i
  {
    if i == |q.joins| then []
    else
      var rest := JoinClauses(q, i + 1, counter);
      var j := q.joins[i];
      var keys := ExtractHashJoinKeys(j.on, User(j.x), OuterJoinVars(q, i));
      [Clause(User(j.x), j.src, Some(j.on),
              if keys.Some? then Some(HashPlan(keys.value, counter + Hashes(rest) + 1)) else None)] + rest
  }

  // A join is planned as a hash join exactly when its condition splits.
  lemma {:induction false} JoinPlan(q: Query, i: nat, k: nat, counter: nat)
    requires i <= k < |q.joins|
    ensures var c, j := JoinClauses(q, i, counter)[k - i], q.joins[k];
            && c.x == User(j.x) && c.src == j.src && c.on == Some(j.on)
            && (c.hash.Some? <==> Splits(j.on, User(j.x), OuterJoinVars(q, k)))
    decreases k - i
  {
    hide Splits, ExtractHashJoinKeys, OuterJoinVars;
    if i < k {
      JoinPlan(q, i + 1, k, counter);
    } else {
      SplitsAre(q.joins[k].on, User(q.joins[k].x), OuterJoinVars(q, k));
    }
  }

  lemma SplitsAre(on: Expr, x: Name, outer: set<Name>)
    ensures ExtractHashJoinKeys(on, x, outer).Some? <==> Splits(on, x, outer)
  {
  }

  function FromClauses(fs: seq<From>): (cs: seq<Clause>)
    ensures |cs| == |fs|
  {
    if fs == [] then [] else [Clause(User(fs[0].x), fs[0].src, None, None)] + FromClauses(fs[1..])
  }

  function Clauses(q: Query, counter: nat): (cs: seq<Clause>) {
    [Clause(User(q.x), q.src, None, None)] + FromClauses(q.froms) + JoinClauses(q, 0, counter)
  }

  // --- The comprehension ---

  // The items that pass the clause's condition, in order.
  ghost function Kept(calls: Calls, env: Env, c: Clause, items: seq<Datum>): (r: Option<seq<Datum>>) {
    if items == [] then Some([])
    else
      var ok := Passes(calls, [map[c.x := Plain(items[0])]] + env, c.on);
      var rest := Kept(calls, env, c, items[1..]);
      if ok.None? || rest.None? then None
      else Some((if ok.value then [items[0]] else []) + rest.value)
  }

  // The value of an optional condition.
  ghost function Passes(calls: Calls, env: Env, cond: Option<Expr>): (r: Option<bool>) {
    if cond.None? then Some(true)
    else
      var v := KeyOf(Eval(calls, env, cond.value), IR.Bool);
      if v.None? then None else Some(v.value == IR.BoolV(true))
  }

  // The rows below one binding of the clauses so far.  Sources are read in
  // the scope around the query.  Where a clause is planned as a hash join its
  // outer key has to evaluate on every row that reaches it.
  ghost function Rows(calls: Calls, home: Env, env: Env, cs: seq<Clause>, q: Query): (r: Option<seq<Datum>>)
    decreases cs, 1, 0
  {
    if cs == [] then Leaf(calls, env, q)
    else if !OuterKeyOk(calls, env, cs[0]) then None
    else
      var items := ItemsOf(Eval(calls, home, cs[0].src));
      if items.None? then None
      else
        var kept := Kept(calls, env, cs[0], items.value);
        if kept.None? then None else RowsThrough(calls, home, env, cs[0].x, kept.value, cs[1..], q)
  }

  ghost function RowsThrough(calls: Calls, home: Env, env: Env, x: Name, items: seq<Datum>, cs: seq<Clause>,
                             q: Query): (r: Option<seq<Datum>>)
    decreases cs, 2, |items|
  {
    if items == [] then Some([])
    else
      var first := Rows(calls, home, [map[x := Plain(items[0])]] + env, cs, q);
      var rest := RowsThrough(calls, home, env, x, items[1..], cs, q);
      if first.None? || rest.None? then None else Some(first.value + rest.value)
  }

  ghost predicate OuterKeyOk(calls: Calls, env: Env, c: Clause) {
    c.hash.Some? ==> KeyOf(Eval(calls, env, c.hash.value.keys.outer), c.hash.value.keys.t).Some?
  }

  // One row: the selected value if `where` holds.
  ghost function Leaf(calls: Calls, env: Env, q: Query): (r: Option<seq<Datum>>) {
    var ok := Passes(calls, env, q.where_);
    if ok.None? then None
    else if !ok.value then Some([])
    else
      var v := Eval(calls, env, q.select);
      if v.None? then None else Some([v.value])
  }

  // The clauses without any plan.
  function PlainClauses(q: Query): (cs: seq<Clause>) {
    [Clause(User(q.x), q.src, None, None)] + FromClauses(q.froms) + PlainJoins(q.joins)
  }

  function PlainJoins(js: seq<Join>): (cs: seq<Clause>)
    ensures |cs| == |js|
  {
    if js == [] then [] else [Clause(User(js[0].x), js[0].src, Some(js[0].on), None)] + PlainJoins(js[1..])
  }

  // The value of the query in a scope: the list comprehension.
  ghost function Comprehension(calls: Calls, env: Env, q: Query): (r: Option<seq<Datum>>) {
    Rows(calls, env, env, PlainClauses(q), q)
  }

  // --- The code ---

  // Group the current item under its key: shared by the hash index and by
  // group-by.
  function Accumulate(m: Name, k: Name, v: Name, x: Name, key: Expr, t: IR.Type): (ss: seq<Stmt>) {
    [ LetKey(k, t, key),
      Let(v, Const(ListD([]))),
      If(MapHas(m, Var(k), t), [Assign(v, MapGet(m, Var(k), t))]),
      MapPut(m, Var(k), t, Append(Var(v), Var(x))) ]
  }

  function IndexBuild(c: Clause): (ss: seq<Stmt>)
    requires c.hash.Some?
  {
    var h := c.hash.value;
    [ LetMap(HashIndex(h.id)),
      ForEach(c.x, c.src, Accumulate(HashIndex(h.id), HashKey(h.id), HashValue(h.id), c.x, h.keys.inner, h.keys.t)) ]
  }

  // The indexes, in the order the reverse loop emits them.
  function PreludeOf(cs: seq<Clause>): (ss: seq<Stmt>) {
    if cs == [] then []
    else PreludeOf(cs[1..]) + if cs[0].hash.Some? then IndexBuild(cs[0]) else []
  }

  // One loop around a body.
  function Wrapped(c: Clause, body: seq<Stmt>): (ss: seq<Stmt>) {
    if c.hash.Some? then
      var h := c.hash.value;
      var i := HashIndex(h.id);
      [If(MapHas(i, h.keys.outer, h.keys.t),
          [ Let(HashList(h.id), MapGet(i, h.keys.outer, h.keys.t)),
            ForEach(c.x, Var(HashList(h.id)), body) ])]
    else if c.on.Some? then [ForEach(c.x, c.src, [If(c.on.value, body)])]
    else [ForEach(c.x, c.src, body)]
  }

  function BodyOf(cs: seq<Clause>, inner: seq<Stmt>): (ss: seq<Stmt>) {
    if cs == [] then inner else Wrapped(cs[0], BodyOf(cs[1..], inner))
  }

  function Innermost(q: Query, result: Name): (ss: seq<Stmt>) {
    var append := Assign(result, Append(Var(result), q.select));
    if q.where_.Some? then [If(q.where_.value, [append])] else [append]
  }

  datatype Lowered = Lowered(stmts: seq<Stmt>, result: Name, counter: nat)

  // The emitted statements under a plan.
  function CodeOf(q: Query, counter: nat, cs: seq<Clause>): (l: Lowered) {
    var result := QueryVar(counter + 1);
    Lowered([Let(result, Const(ListD([])))] + PreludeOf(cs) + [QueryScope(BodyOf(cs, Innermost(q, result)))],
            result, counter + 1 + Hashes(cs))
  }

  function Code(q: Query, counter: nat): (l: Lowered) { CodeOf(q, counter, Clauses(q, counter + 1)) }

  // --- The lowering itself ---

  lemma HashesAppend(cs: seq<Clause>, ds: seq<Clause>)
    ensures Hashes(cs + ds) == Hashes(cs) + Hashes(ds)
  {
    if cs == [] {
      assert cs + ds == ds;
    } else {
      assert (cs + ds)[1..] == cs[1..] + ds;
    }
  }

  lemma BodyAppend(cs: seq<Clause>, ds: seq<Clause>, inner: seq<Stmt>)
    ensures BodyOf(cs + ds, inner) == BodyOf(cs, BodyOf(ds, inner))
  {
    if cs == [] {
      assert cs + ds == ds;
    } else {
      assert (cs + ds)[1..] == cs[1..] + ds;
    }
  }

  // Clauses that build no index.
  lemma {:induction false} PreludeSkips(fs: seq<From>, ds: seq<Clause>)
    ensures PreludeOf(FromClauses(fs) + ds) == PreludeOf(ds) && Hashes(FromClauses(fs)) == 0
  {
    if fs == [] {
      assert [] + ds == ds;
    } else {
      PreludeSkips(fs[1..], ds);
      var c, rest := Clause(User(fs[0].x), fs[0].src, None, None), FromClauses(fs[1..]);
      assert FromClauses(fs) == [c] + rest;
      hide FromClauses, PreludeOf, Hashes;
      NoIndex(c, rest);
      NoIndex(c, rest + ds);
      assert ([c] + rest) + ds == [c] + (rest + ds);
    }
  }

  lemma NoIndex(c: Clause, cs: seq<Clause>)
    requires c.hash.None?
    ensures PreludeOf([c] + cs) == PreludeOf(cs) && Hashes([c] + cs) == Hashes(cs)
  {
    assert ([c] + cs)[1..] == cs;
    assert PreludeOf(cs) + [] == PreludeOf(cs);
  }

  // The pieces of a query put together.
  lemma CodePieces(q: Query, counter: nat)
    ensures var cs, js := Clauses(q, counter + 1), JoinClauses(q, 0, counter + 1);
            && PreludeOf(cs) == PreludeOf(js) && Hashes(cs) == Hashes(js)
            && forall inner :: BodyOf(cs, inner) ==
                [ForEach(User(q.x), q.src, BodyOf(FromClauses(q.froms), BodyOf(js, inner)))]
  {
    var main := From(q.x, q.src);
    var js := JoinClauses(q, 0, counter + 1);
    var fs := [main] + q.froms;
    assert fs[1..] == q.froms;
    assert FromClauses(fs) + js == Clauses(q, counter + 1);
    PreludeSkips(fs, js);
    HashesAppend(FromClauses(fs), js);
    forall inner ensures BodyOf(Clauses(q, counter + 1), inner) ==
        [ForEach(User(q.x), q.src, BodyOf(FromClauses(q.froms), BodyOf(js, inner)))] {
      BodyAppend(FromClauses(fs), js, inner);
      assert FromClauses(fs)[1..] == FromClauses(q.froms);
    }
  }

  // lowerQueryExpr: the two reverse wrapping loops, with indexes emitted into
  // the surrounding block as hash joins are met.
  method LowerQuery(q: Query, tempCounter: nat) returns (l: Lowered)
    ensures l == Code(q, tempCounter)
  {
    hide Wrapped, IndexBuild, ExtractHashJoinKeys, OuterJoinVars, Innermost;
    var counter := tempCounter + 1;
    var result := QueryVar(counter);
    var out := [Let(result, Const(ListD([])))];
    ghost var first := out;
    var inner := Innermost(q, result);
    var body := inner;
    ghost var js := JoinClauses(q, 0, tempCounter + 1);
    var i := |q.joins|;
    while i > 0
      invariant 0 <= i <= |q.joins|
      invariant var cs := JoinClauses(q, i, tempCounter + 1);
                && body == BodyOf(cs, inner)
                && out == first + PreludeOf(cs)
                && counter == tempCounter + 1 + Hashes(cs)
    {
      i := i - 1;
      ghost var cs := JoinClauses(q, i, tempCounter + 1);
      assert cs[1..] == JoinClauses(q, i + 1, tempCounter + 1);
      var j := q.joins[i];
      var keys := ExtractHashJoinKeys(j.on, User(j.x), OuterJoinVars(q, i));
      if keys.Some? {
        counter := counter + 1;
        var c := Clause(User(j.x), j.src, Some(j.on), Some(HashPlan(keys.value, counter)));
        assert c == cs[0];
        out := out + IndexBuild(c);
        body := Wrapped(c, body);
      } else {
        var c := Clause(User(j.x), j.src, Some(j.on), None);
        assert c == cs[0];
        body := Wrapped(c, body);
      }
    }
    ghost var joined := body;
    i := |q.froms|;
    assert q.froms[i..] == [];
    while i > 0
      invariant 0 <= i <= |q.froms|
      invariant body == BodyOf(FromClauses(q.froms[i..]), joined)
    {
      i := i - 1;
      assert q.froms[i..][1..] == q.froms[i + 1..];
      ghost var cs := FromClauses(q.froms[i..]);
      assert cs[1..] == FromClauses(q.froms[i + 1..]);
      body := Wrapped(Clause(User(q.froms[i].x), q.froms[i].src, None, None), body);
    }
    assert q.froms[0..] == q.froms;
    CodePieces(q, tempCounter);
    out := out + [QueryScope([ForEach(User(q.x), q.src, body)])];
    return Lowered(out, result, counter);
  }
}
