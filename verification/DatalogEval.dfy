/** Bottom-up evaluation: the loop nest written for each rule, run to a fixpoint
    stratum by stratum over row tables with a fixed capacity. */
module DatalogEval {
  import opened Options
  import opened Datalog

  type Tables = map<string, seq<Tuple>>

  function Rows(tables: Tables, rel: string): seq<Tuple> {
    if rel in tables then tables[rel] else []
  }

  // ---- Matching one row against the arguments of a positive condition

  /** Constants and bound variables are compared, unbound variables are bound, left to right. */
  function Bind(args: seq<Term>, row: Tuple, env: Env): Option<Env> {
    if args == [] || row == [] then (if args == [] && row == [] then Some(env) else None)
    else match args[0]
      case Const(c) => if row[0] == c then Bind(args[1..], row[1..], env) else None
      case Var(v) =>
        if v !in env then Bind(args[1..], row[1..], env[v := row[0]])
        else if env[v] == row[0] then Bind(args[1..], row[1..], env) else None
  }

  lemma {:induction false} BindSound(args: seq<Term>, row: Tuple, env: Env)
    requires Bind(args, row, env).Some?
    ensures var e := Bind(args, row, env).value;
            Extends(env, e) && e.Keys == env.Keys + TermVars(args) && Vals(args, e) == row
  {
    if args != [] {
      var first, rest := args[0], args[1..];
      var next := if first.Var? && first.name !in env then env[first.name := row[0]] else env;
      BindSound(rest, row[1..], next);
      var e := Bind(args, row, env).value;
      assert Extends(env, next);
      assert Val(first, e) == row[0];
      assert Vals(args, e) == [Val(first, e)] + Vals(rest, e) == [row[0]] + row[1..];
      TermVarsCons(args);
    }
  }

  lemma TermVarsCons(args: seq<Term>)
    requires args != []
    ensures TermVars(args) == TermVars(args[1..]) + (if args[0].Var? then {args[0].name} else {})
  {
    assert args == [args[0]] + args[1..];
  }

  lemma {:induction false} BindComplete(args: seq<Term>, env: Env, e: Env)
    requires Extends(env, e) && TermVars(args) <= e.Keys
    ensures Bind(args, Vals(args, e), env).Some? && Extends(Bind(args, Vals(args, e), env).value, e)
  {
    if args != [] {
      var row := Vals(args, e);
      assert row[1..] == Vals(args[1..], e);
      assert args[0].Var? ==> args[0].name in TermVars(args);
      var next := if args[0].Var? && args[0].name !in env then env[args[0].name := row[0]] else env;
      BindComplete(args[1..], next, e);
    }
  }

  lemma PosVarsSnoc(body: seq<Cond>, k: nat)
    requires k < |body|
    ensures PosVars(body[..k+1]) == PosVars(body[..k]) + (if body[k].Pos? then TermVars(body[k].args) else {})
  {
    assert body[..k+1] == body[..k] + [body[k]];
  }

  // ---- Loading the facts

  predicate IsHead(rules: seq<Rule>, rel: string) {
    exists r :: r in rules && r.head == rel
  }

  /** The facts that reach a table: a base relation without columns is written as an
      array holding only its terminator, so its facts are not read back. */
  function Loaded(facts: seq<Atom>, rules: seq<Rule>): seq<Atom> {
    if facts == [] then []
    else (if IsHead(rules, facts[0].rel) || facts[0].tuple != [] then [facts[0]] else [])
         + Loaded(facts[1..], rules)
  }

  function Project(order: seq<Atom>, rel: string): seq<Tuple> {
    if order == [] then []
    else (if order[0].rel == rel then [order[0].tuple] else []) + Project(order[1..], rel)
  }

  lemma {:induction false} ProjectMembers(order: seq<Atom>, rel: string, t: Tuple)
    ensures t in Project(order, rel) <==> Atom(rel, t) in order
  {
    if order != [] {
      ProjectMembers(order[1..], rel, t);
      assert order == [order[0]] + order[1..];
    }
  }

  lemma {:induction false} LoadedMembers(facts: seq<Atom>, rules: seq<Rule>, a: Atom)
    ensures a in Loaded(facts, rules) <==> a in facts && (IsHead(rules, a.rel) || a.tuple != [])
  {
    if facts != [] {
      LoadedMembers(facts[1..], rules, a);
      assert facts == [facts[0]] + facts[1..];
    }
  }

  /** The model of the loaded facts is the model of the program exactly when
      no base relation without columns has a fact. */
  lemma NullaryBaseFactsAreLost(facts: seq<Atom>, rules: seq<Rule>, m: set<Atom>)
    requires Perfect(Loaded(facts, rules), rules, m)
    ensures Perfect(facts, rules, m) <==> forall f :: f in facts && f.tuple == [] ==> IsHead(rules, f.rel)
  {
    var loaded := Loaded(facts, rules);
    forall a ensures a in loaded <==> a in facts && (IsHead(rules, a.rel) || a.tuple != []) {
      LoadedMembers(facts, rules, a);
    }
    var order :| DerivedBy(loaded, rules, m, order);
    if forall f :: f in facts && f.tuple == [] ==> IsHead(rules, f.rel) {
      assert Elems(facts) == Elems(loaded);
      forall i | 0 <= i < |order| ensures Justified(order[i], facts, rules, Elems(order[..i]), m) {
        assert Justified(order[i], loaded, rules, Elems(order[..i]), m);
      }
      assert DerivedBy(facts, rules, m, order);
    } else {
      var f :| f in facts && f.tuple == [] && !IsHead(rules, f.rel);
      assert f in Elems(facts);
      forall i | 0 <= i < |order| ensures order[i] != f {
        assert Justified(order[i], loaded, rules, Elems(order[..i]), m);
      }
      assert f !in m;
    }
  }

  // ---- The state between two steps of the evaluation

  ghost predicate Grown(tables: Tables, tables': Tables) {
    forall rel :: Rows(tables, rel) <= Rows(tables', rel)
  }

  ghost predicate Tied(tables: Tables, order: seq<Atom>) {
    forall rel, t :: t in Rows(tables, rel) <==> Atom(rel, t) in order
  }

  /** The rows after the seeded ones were absent when they were added. */
  ghost predicate FreshRows(seeds: seq<Atom>, tables: Tables) {
    forall rel :: Project(seeds, rel) <= Rows(tables, rel) && FreshAfter(|Project(seeds, rel)|, Rows(tables, rel))
  }

  ghost predicate FreshAfter(n: nat, rows: seq<Tuple>) {
    forall i, j :: 0 <= i < j < |rows| && n <= j ==> rows[i] != rows[j]
  }

  ghost predicate JustifiedUpTo(a: Atom, seeds: seq<Atom>, rules: seq<Rule>, strata: Strata, s: nat, before: set<Atom>,
                                m: set<Atom>) {
    a in seeds ||
    exists r, env :: r in rules && Level(strata, r.head) <= s && Fires(r, env, before, m) && a == HeadAtom(r, env)
  }

  ghost predicate SoundUpTo(seeds: seq<Atom>, rules: seq<Rule>, strata: Strata, s: nat, order: seq<Atom>) {
    forall i :: 0 <= i < |order| ==> JustifiedUpTo(order[i], seeds, rules, strata, s, Elems(order[..i]), Elems(order))
  }

  /** Every instance of `r` has its head, unless the head's table is full. */
  ghost predicate Done(r: Rule, env: Env, tables: Tables, order: seq<Atom>, cap: nat) {
    |Rows(tables, r.head)| >= cap || forall e :: Extends(env, e) && Fires(r, e, Elems(order), Elems(order)) ==>
        HeadAtom(r, e) in Elems(order)
  }

  ghost predicate DoneBelow(rules: seq<Rule>, strata: Strata, s: nat, tables: Tables, order: seq<Atom>, cap: nat) {
    forall r :: r in rules && Level(strata, r.head) < s ==> Done(r, map[], tables, order, cap)
  }

  ghost predicate Inv(seeds: seq<Atom>, rules: seq<Rule>, strata: Strata, cap: nat, s: nat, tables: Tables,
                      order: seq<Atom>) {
    && seeds <= order
    && Tied(tables, order)
    && FreshRows(seeds, tables)
    && (ValidStrata(strata, rules) ==>
        SoundUpTo(seeds, rules, strata, s, order) && DoneBelow(rules, strata, s, tables, order, cap))
  }

  // ---- What one insertion keeps

  ghost predicate Insertion(r: Rule, env: Env, strata: Strata, s: nat, order: seq<Atom>) {
    && Level(strata, r.head) == s
    && Fires(r, env, Elems(order), Elems(order))
    && HeadAtom(r, env) !in order
  }

  /** A rule at or below stratum `s` reads the same negations after an atom of stratum `s` is added;
      a rule below `s` reads the same body. */
  lemma BodyStable(r: Rule, env: Env, strata: Strata, s: nat, pos: set<Atom>, m: set<Atom>, a: Atom)
    requires forall c :: c in r.body ==> CondBelow(strata, r.head, c)
    requires Level(strata, r.head) <= s == Level(strata, a.rel)
    ensures Fires(r, env, pos, m) <==> Fires(r, env, pos, m + {a})
    ensures Level(strata, r.head) < s ==> (Fires(r, env, m, m) <==> Fires(r, env, m + {a}, m + {a}))
  {
    assert forall c :: c in r.body ==> CondBelow(strata, r.head, c);
    assert forall c :: c in r.body && c.Neg? ==> c.rel != a.rel;
    assert forall c :: c in r.body ==> (Holds(c, env, pos, m) <==> Holds(c, env, pos, m + {a}));
    if Level(strata, r.head) < s {
      assert forall c :: c in r.body ==> (Holds(c, env, m, m) <==> Holds(c, env, m + {a}, m + {a}));
    }
  }

  lemma InsertSound(seeds: seq<Atom>, rules: seq<Rule>, strata: Strata, s: nat, order: seq<Atom>, r: Rule, env: Env)
    requires ValidStrata(strata, rules) && r in rules
    requires SoundUpTo(seeds, rules, strata, s, order)
    requires Insertion(r, env, strata, s, order)
    ensures SoundUpTo(seeds, rules, strata, s, order + [HeadAtom(r, env)])
  {
    var a := HeadAtom(r, env);
    var order' := order + [a];
    var m, m' := Elems(order), Elems(order');
    assert m' == m + {a};
    forall i | 0 <= i < |order'|
      ensures JustifiedUpTo(order'[i], seeds, rules, strata, s, Elems(order'[..i]), m')
    {
      if i < |order| {
        assert order'[..i] == order[..i];
        assert JustifiedUpTo(order[i], seeds, rules, strata, s, Elems(order[..i]), m);
        if order[i] !in seeds {
          var q, e :| q in rules && Level(strata, q.head) <= s && Fires(q, e, Elems(order[..i]), m)
              && order[i] == HeadAtom(q, e);
          BodyStable(q, e, strata, s, Elems(order[..i]), m, a);
        }
      } else {
        assert order'[..i] == order;
        BodyStable(r, env, strata, s, m, m, a);
      }
    }
  }

  lemma InsertDone(rules: seq<Rule>, strata: Strata, s: nat, tables: Tables, order: seq<Atom>, cap: nat, r: Rule,
                   env: Env, tables': Tables)
    requires ValidStrata(strata, rules) && Insertion(r, env, strata, s, order)
    requires Grown(tables, tables')
    requires DoneBelow(rules, strata, s, tables, order, cap)
    ensures DoneBelow(rules, strata, s, tables', order + [HeadAtom(r, env)], cap)
  {
    var a := HeadAtom(r, env);
    var m, m' := Elems(order), Elems(order + [a]);
    assert m' == m + {a};
    forall q | q in rules && Level(strata, q.head) < s ensures Done(q, map[], tables', order + [a], cap) {
      assert Done(q, map[], tables, order, cap);
      assert Rows(tables, q.head) <= Rows(tables', q.head);
      forall e ensures Fires(q, e, m', m') <==> Fires(q, e, m, m) {
        BodyStable(q, e, strata, s, m, m, a);
      }
      assert forall e: Env :: Extends(map[], e);
    }
  }

  lemma InsertTied(tables: Tables, order: seq<Atom>, rel: string, row: Tuple)
    requires Tied(tables, order)
    ensures var tables' := tables[rel := Rows(tables, rel) + [row]];
            Grown(tables, tables') && Tied(tables', order + [Atom(rel, row)])
  {
    var tables' := tables[rel := Rows(tables, rel) + [row]];
    forall q, t ensures t in Rows(tables', q) <==> Atom(q, t) in order + [Atom(rel, row)] {
      assert t in Rows(tables, q) <==> Atom(q, t) in order;
    }
  }

  lemma InsertFresh(seeds: seq<Atom>, tables: Tables, rel: string, row: Tuple)
    requires FreshRows(seeds, tables) && row !in Rows(tables, rel)
    ensures FreshRows(seeds, tables[rel := Rows(tables, rel) + [row]])
  {
    hide Project;
    var tables' := tables[rel := Rows(tables, rel) + [row]];
    forall q ensures Project(seeds, q) <= Rows(tables', q) && FreshAfter(|Project(seeds, q)|, Rows(tables', q)) {
      assert Project(seeds, q) <= Rows(tables, q) && FreshAfter(|Project(seeds, q)|, Rows(tables, q));
    }
  }

  lemma InsertInv(seeds: seq<Atom>, rules: seq<Rule>, strata: Strata, cap: nat, s: nat, tables: Tables,
                  order: seq<Atom>, r: Rule, env: Env)
    requires r in rules && Inv(seeds, rules, strata, cap, s, tables, order)
    requires Insertion(r, env, strata, s, order)
    ensures var tables' := tables[r.head := Rows(tables, r.head) + [Vals(r.headArgs, env)]];
            Grown(tables, tables') && Inv(seeds, rules, strata, cap, s, tables', order + [HeadAtom(r, env)])
  {
    hide Tied, FreshRows, SoundUpTo, DoneBelow, Grown, Insertion;
    var tables' := tables[r.head := Rows(tables, r.head) + [Vals(r.headArgs, env)]];
    NotYetIn(r, env, strata, s, tables, order);
    InsertTied(tables, order, r.head, Vals(r.headArgs, env));
    InsertFresh(seeds, tables, r.head, Vals(r.headArgs, env));
    if ValidStrata(strata, rules) {
      InsertSound(seeds, rules, strata, s, order, r, env);
      InsertDone(rules, strata, s, tables, order, cap, r, env, tables');
    }
  }

  lemma NotYetIn(r: Rule, env: Env, strata: Strata, s: nat, tables: Tables, order: seq<Atom>)
    requires Insertion(r, env, strata, s, order) && Tied(tables, order)
    ensures Vals(r.headArgs, env) !in Rows(tables, r.head)
  {}

  // ---- When a loop nest has nothing left to add

  /** `Done` for the instances that match `row` at condition `c`. */
  ghost predicate DoneVia(r: Rule, env: Env, c: Cond, row: Tuple, tables: Tables, order: seq<Atom>, cap: nat)
    requires c.Pos?
  {
    |Rows(tables, r.head)| >= cap ||
    forall e :: Extends(env, e) && Fires(r, e, Elems(order), Elems(order)) && Vals(c.args, e) == row ==>
        HeadAtom(r, e) in Elems(order)
  }

  lemma DoneHere(r: Rule, env: Env, tables: Tables, order: seq<Atom>, cap: nat)
    requires env.Keys == PosVars(r.body)
    requires Fires(r, env, Elems(order), Elems(order)) ==> HeadAtom(r, env) in order || |Rows(tables, r.head)| >= cap
    ensures Done(r, env, tables, order, cap)
  {
    hide BodyHolds;
    forall e | Extends(env, e) && Fires(r, e, Elems(order), Elems(order)) ensures e == env {
      assert e.Keys == env.Keys;
    }
  }

  lemma DoneViaRow(r: Rule, env: Env, k: nat, row: Tuple, tables: Tables, order: seq<Atom>, cap: nat)
    requires k < |r.body| && r.body[k].Pos?
    requires Bind(r.body[k].args, row, env).Some? ==> Done(r, Bind(r.body[k].args, row, env).value, tables, order, cap)
    ensures DoneVia(r, env, r.body[k], row, tables, order, cap)
  {
    var c := r.body[k];
    forall e | Extends(env, e) && Fires(r, e, Elems(order), Elems(order)) && Vals(c.args, e) == row
      ensures Bind(c.args, row, env).Some? && Extends(Bind(c.args, row, env).value, e)
    {
      assert c in r.body;
      BindComplete(c.args, env, e);
    }
  }

  lemma DoneViaRows(r: Rule, env: Env, k: nat, tables: Tables, order: seq<Atom>, cap: nat)
    requires k < |r.body| && r.body[k].Pos? && Tied(tables, order)
    requires forall j :: 0 <= j < |Rows(tables, r.body[k].rel)| ==>
             DoneVia(r, env, r.body[k], Rows(tables, r.body[k].rel)[j], tables, order, cap)
    ensures Done(r, env, tables, order, cap)
  {
    var c := r.body[k];
    if |Rows(tables, r.head)| < cap {
      forall e | Extends(env, e) && Fires(r, e, Elems(order), Elems(order)) ensures HeadAtom(r, e) in Elems(order) {
        assert c in r.body && Holds(c, e, Elems(order), Elems(order));
        assert Vals(c.args, e) in Rows(tables, c.rel);
        var j :| 0 <= j < |Rows(tables, c.rel)| && Rows(tables, c.rel)[j] == Vals(c.args, e);
        assert DoneVia(r, env, c, Rows(tables, c.rel)[j], tables, order, cap);
      }
    }
  }

  lemma GrownTransitive(a: Tables, b: Tables, c: Tables)
    requires Grown(a, b) && Grown(b, c)
    ensures Grown(a, c)
  {
    forall rel ensures Rows(a, rel) <= Rows(c, rel) {
      assert Rows(a, rel) <= Rows(b, rel) && Rows(b, rel) <= Rows(c, rel);
    }
  }

  ghost predicate PosHold(body: seq<Cond>, env: Env, order: seq<Atom>) {
    forall c :: c in body && c.Pos? ==> Holds(c, env, Elems(order), Elems(order))
  }

  lemma PosHoldGrows(body: seq<Cond>, env: Env, order: seq<Atom>, order': seq<Atom>)
    requires PosHold(body, env, order) && order <= order'
    ensures PosHold(body, env, order')
  {
    forall c | c in body && c.Pos? ensures Holds(c, env, Elems(order'), Elems(order')) {
      assert Holds(c, env, Elems(order), Elems(order));
    }
  }

  lemma InvTied(seeds: seq<Atom>, rules: seq<Rule>, strata: Strata, cap: nat, s: nat, tables: Tables, order: seq<Atom>)
    requires Inv(seeds, rules, strata, cap, s, tables, order)
    ensures Tied(tables, order)
  {}

  lemma SkipCond(r: Rule, k: nat, env: Env, order: seq<Atom>)
    requires k < |r.body| && !r.body[k].Pos?
    requires env.Keys == PosVars(r.body[..k]) && PosHold(r.body[..k], env, order)
    ensures env.Keys == PosVars(r.body[..k+1]) && PosHold(r.body[..k+1], env, order)
  {
    PosVarsSnoc(r.body, k);
    assert r.body[..k+1] == r.body[..k] + [r.body[k]];
  }

  /** What a matching row gives the loops inside. */
  lemma OpenLoop(r: Rule, k: nat, env: Env, row: Tuple, order: seq<Atom>)
    requires k < |r.body| && r.body[k].Pos?
    requires env.Keys == PosVars(r.body[..k]) && PosHold(r.body[..k], env, order)
    requires Atom(r.body[k].rel, row) in order
    requires Bind(r.body[k].args, row, env).Some?
    ensures var e := Bind(r.body[k].args, row, env).value;
            e.Keys == PosVars(r.body[..k+1]) && PosHold(r.body[..k+1], e, order)
  {
    var c := r.body[k];
    var e := Bind(c.args, row, env).value;
    BindSound(c.args, row, env);
    PosVarsSnoc(r.body, k);
    assert r.body[..k+1] == r.body[..k] + [c];
    forall p | p in r.body[..k] && p.Pos? ensures Holds(p, e, Elems(order), Elems(order)) {
      assert TermVars(p.args) <= PosVars(r.body[..k]);
      ValsExtend(p.args, env, e);
      assert Holds(p, env, Elems(order), Elems(order));
    }
  }

  ghost predicate StratumDone(rules: seq<Rule>, strata: Strata, s: nat, tables: Tables, order: seq<Atom>, cap: nat) {
    forall r :: r in rules && Level(strata, r.head) == s ==> Done(r, map[], tables, order, cap)
  }

  lemma NextStratum(seeds: seq<Atom>, rules: seq<Rule>, strata: Strata, cap: nat, s: nat, tables: Tables,
                    order: seq<Atom>)
    requires Inv(seeds, rules, strata, cap, s, tables, order)
    requires StratumDone(rules, strata, s, tables, order, cap)
    ensures Inv(seeds, rules, strata, cap, s + 1, tables, order)
  {
    if ValidStrata(strata, rules) {
      forall i | 0 <= i < |order|
        ensures JustifiedUpTo(order[i], seeds, rules, strata, s + 1, Elems(order[..i]), Elems(order))
      {
        assert JustifiedUpTo(order[i], seeds, rules, strata, s, Elems(order[..i]), Elems(order));
      }
    }
  }

  // ---- Termination: the room left in the tables of the rule heads

  ghost function Room(tables: Tables, rules: seq<Rule>, cap: nat): nat {
    if rules == [] then 0
    else Room(tables, rules[1..],
              cap) + (if |Rows(tables, rules[0].head)| < cap then cap - |Rows(tables, rules[0].head)| else 0)
  }

  lemma {:induction false} RoomShrinks(tables: Tables, tables': Tables, rules: seq<Rule>, cap: nat, head: string,
                                       row: Tuple)
    requires |Rows(tables, head)| < cap
    requires tables' == tables[head := Rows(tables, head) + [row]]
    ensures Room(tables', rules, cap) <= Room(tables, rules, cap)
    ensures IsHead(rules, head) ==> Room(tables', rules, cap) < Room(tables, rules, cap)
  {
    if rules != [] {
      RoomShrinks(tables, tables', rules[1..], cap, head, row);
      assert rules == [rules[0]] + rules[1..];
    }
  }

  // ---- The evaluation

  class Engine {
    const facts: seq<Atom>
    const rules: seq<Rule>
    const strata: Strata
    const cap: nat
    var tables: Tables
    ghost var order: seq<Atom>

    constructor (facts: seq<Atom>, rules: seq<Rule>, strata: Strata, cap: nat)
      ensures this.facts == facts && this.rules == rules && this.strata == strata && this.cap == cap
      ensures order == Loaded(facts, rules)
      ensures At(0)
    {
      this.facts, this.rules, this.strata, this.cap := facts, rules, strata, cap;
      var seeds := Loaded(facts, rules);
      var names := set f | f in facts :: f.rel;
      tables := map rel | rel in names :: Project(seeds, rel);
      order := seeds;
      new;
      assert forall rel :: Rows(tables, rel) == Project(seeds, rel) by {
        forall rel ensures Rows(tables, rel) == Project(seeds, rel) {
          forall t ensures t in Project(seeds, rel) ==> rel in names {
            ProjectMembers(seeds, rel, t);
            LoadedMembers(facts, rules, Atom(rel, t));
          }
          assert Project(seeds, rel) == [] || Project(seeds, rel)[0] in Project(seeds, rel);
        }
      }
      forall rel, t ensures t in Rows(tables, rel) <==> Atom(rel, t) in order { ProjectMembers(seeds, rel, t); }
    }

    /** Strata below `s` are finished; stratum `s` may be under way. */
    ghost predicate At(s: nat)
      reads this
    {
      Inv(Loaded(facts, rules), rules, strata, cap, s, tables, order)
    }

    /** The inequality and absence checks, made after the last loop is open. */
    method Checks(r: Rule, env: Env) returns (pass: bool)
      requires Tied(tables, order)
      ensures pass <==> forall c :: c in r.body && !c.Pos? ==> Holds(c, env, Elems(order), Elems(order))
    {
      var i := 0;
      while i < |r.body|
        invariant 0 <= i <= |r.body|
        invariant forall c :: c in r.body[..i] && !c.Pos? ==> Holds(c, env, Elems(order), Elems(order))
      {
        var c := r.body[i];
        var fails := match c
          case Pos(_, _) => false
          case Neq(a, b) => Val(Var(a), env) == Val(Var(b), env)
          case Neg(rel, args) => TermVars(args) <= env.Keys && Vals(args, env) in Rows(tables, rel);
        if fails { return false; }
        i := i + 1;
      }
      return true;
    }

    /** The innermost part of the loop nest: the checks, then containment and insertion. */
    method Derive(r: Rule, env: Env, s: nat) returns (changed: bool)
      requires r in rules && Level(strata, r.head) == s
      requires env.Keys == PosVars(r.body)
      requires PosHold(r.body, env, order)
      requires At(s)
      modifies this
      ensures At(s) && old(order) <= order && Grown(old(tables), tables)
      ensures !changed ==> tables == old(tables) && order == old(order) && Done(r, env, tables, order, cap)
      ensures changed ==> Room(tables, rules, cap) < Room(old(tables), rules, cap)
      ensures changed ==> order == old(order) + [HeadAtom(r, env)] && |Rows(old(tables), r.head)| < cap
    {
      var pass := Checks(r, env);
      var row := Vals(r.headArgs, env);
      var rows := Rows(tables, r.head);
      changed := pass && row !in rows && |rows| < cap;
      if changed {
        InsertInv(Loaded(facts, rules), rules, strata, cap, s, tables, order, r, env);
        RoomShrinks(tables, tables[r.head := rows + [row]], rules, cap, r.head, row);
        tables, order := tables[r.head := rows + [row]], order + [HeadAtom(r, env)];
      } else {
        DoneHere(r, env, tables, order, cap);
      }
    }

    /** The loops over the positive conditions from `k` on; a table may grow while it is read. */
    method Nest(r: Rule, k: nat, env: Env, s: nat) returns (changed: bool)
      requires r in rules && Level(strata, r.head) == s
      requires k <= |r.body| && env.Keys == PosVars(r.body[..k])
      requires PosHold(r.body[..k], env, order)
      requires At(s)
      modifies this
      ensures At(s) && old(order) <= order && Grown(old(tables), tables)
      ensures !changed ==> tables == old(tables) && order == old(order) && Done(r, env, tables, order, cap)
      ensures changed ==> Room(tables, rules, cap) < Room(old(tables), rules, cap)
      decreases |r.body| - k, 1
    {
      hide Inv, Done, DoneVia, PosHold, ValidStrata, PosVars;
      if k == |r.body| {
        assert r.body[..k] == r.body;
        changed := Derive(r, env, s);
        return;
      }
      var c := r.body[k];
      if !c.Pos? {
        SkipCond(r, k, env, order);
        changed := Nest(r, k + 1, env, s);
        return;
      }
      changed := false;
      var i := 0;
      while i < |Rows(tables, c.rel)|
        invariant 0 <= i <= |Rows(tables, c.rel)|
        invariant At(s) && old(order) <= order && Grown(old(tables), tables)
        invariant changed ==> Room(tables, rules, cap) < Room(old(tables), rules, cap)
        invariant !changed ==> tables == old(tables) && order == old(order)
        invariant !changed ==> forall j :: 0 <= j < i ==> DoneVia(r, env, c, Rows(tables, c.rel)[j], tables, order, cap)
        decreases Room(tables, rules, cap), |Rows(tables, c.rel)| - i
      {
        ghost var before := tables;
        PosHoldGrows(r.body[..k], env, old(order), order);
        var inner := Visit(r, k, env, s, i);
        assert Rows(before, c.rel) <= Rows(tables, c.rel);
        GrownTransitive(old(tables), before, tables);
        changed := changed || inner;
        i := i + 1;
      }
      if !changed {
        InvTied(Loaded(facts, rules), rules, strata, cap, s, tables, order);
        DoneViaRows(r, env, k, tables, order, cap);
      }
    }

    /** One iteration of the loop at condition `k`: row `i` of its table. */
    method Visit(r: Rule, k: nat, env: Env, s: nat, i: nat) returns (changed: bool)
      requires r in rules && Level(strata, r.head) == s
      requires k < |r.body| && r.body[k].Pos? && env.Keys == PosVars(r.body[..k])
      requires PosHold(r.body[..k], env, order)
      requires At(s)
      requires i < |Rows(tables, r.body[k].rel)|
      modifies this
      ensures At(s) && old(order) <= order && Grown(old(tables), tables)
      ensures !changed ==> tables == old(tables) && order == old(order)
      ensures !changed ==> DoneVia(r, env, r.body[k], Rows(tables, r.body[k].rel)[i], tables, order, cap)
      ensures changed ==> Room(tables, rules, cap) < Room(old(tables), rules, cap)
      decreases |r.body| - k, 0
    {
      var c := r.body[k];
      var row := Rows(tables, c.rel)[i];
      var bound := Bind(c.args, row, env);
      changed := false;
      if bound.Some? {
        OpenLoop(r, k, env, row, order);
        changed := Nest(r, k + 1, bound.value, s);
      }
      if !changed { DoneViaRow(r, env, k, row, tables, order, cap); }
    }

    /** One round: every rule of stratum `s` once. */
    method RunRound(s: nat) returns (changed: bool)
      requires At(s)
      modifies this
      ensures At(s) && old(order) <= order
      ensures !changed ==>
                tables == old(tables) && order == old(order)
                && StratumDone(rules, strata, s, tables, order, cap)
      ensures changed ==> Room(tables, rules, cap) < Room(old(tables), rules, cap)
    {
      hide Inv;
      changed := false;
      var i := 0;
      while i < |rules|
        invariant 0 <= i <= |rules|
        invariant At(s) && old(order) <= order
        invariant changed ==> Room(tables, rules, cap) < Room(old(tables), rules, cap)
        invariant !changed ==>
                    tables == old(tables) && order == old(order)
                    && StratumDone(rules[..i], strata, s, tables, order, cap)
      {
        if Level(strata, rules[i].head) == s {
          var inner := Nest(rules[i], 0, map[], s);
          changed := changed || inner;
        }
        assert rules[..i+1] == rules[..i] + [rules[i]];
        i := i + 1;
      }
      assert rules[..|rules|] == rules;
    }

    /** One fixpoint loop: rounds until a round changes nothing. */
    method RunStratum(s: nat)
      requires At(s)
      modifies this
      ensures At(s + 1) && old(order) <= order
    {
      var changed := RunRound(s);
      while changed
        invariant At(s) && old(order) <= order
        invariant !changed ==> StratumDone(rules, strata, s, tables, order, cap)
        decreases Room(tables, rules, cap), changed
      {
        changed := RunRound(s);
      }
      NextStratum(Loaded(facts, rules), rules, strata, cap, s, tables, order);
    }

    /** All strata in turn; this ends for every program. No tuple is added twice. For a valid
        stratification every tuple in the tables is justified, and if no head table is full at
        the end, the tables hold exactly the perfect model. */
    method Evaluate()
      requires At(0)
      modifies this
      ensures Tied(tables, order)
      ensures FreshRows(Loaded(facts, rules), tables)
      ensures ValidStrata(strata, rules) ==> Derivation(Loaded(facts, rules), rules, order, Elems(order))
      ensures ValidStrata(strata, rules) && (forall r :: r in rules ==> |Rows(tables, r.head)| < cap)
              ==> Perfect(Loaded(facts, rules), rules, Elems(order))
    {
      var maxStratum := MaxLevel(strata);
      var s := 0;
      while s <= maxStratum
        invariant 0 <= s <= maxStratum + 1
        invariant At(s)
      {
        RunStratum(s);
        s := s + 1;
      }
      if ValidStrata(strata, rules) {
        AllStrataDone(Loaded(facts, rules), rules, strata, cap, s, tables, order);
      }
    }
  }

  lemma AllStrataDone(seeds: seq<Atom>, rules: seq<Rule>, strata: Strata, cap: nat, s: nat, tables: Tables,
                      order: seq<Atom>)
    requires ValidStrata(strata, rules) && Inv(seeds, rules, strata, cap, s, tables, order)
    requires forall rel :: Level(strata, rel) < s
    ensures Derivation(seeds, rules, order, Elems(order))
    ensures (forall r :: r in rules ==> |Rows(tables, r.head)| < cap) ==> Perfect(seeds, rules, Elems(order))
  {
    var m := Elems(order);
    forall i | 0 <= i < |order| ensures Justified(order[i], seeds, rules, Elems(order[..i]), m) {
      assert JustifiedUpTo(order[i], seeds, rules, strata, s, Elems(order[..i]), m);
    }
    assert DerivedBy(seeds, rules, m, order);
    if forall r :: r in rules ==> |Rows(tables, r.head)| < cap {
      forall r, env | r in rules && Fires(r, env, m, m) ensures HeadAtom(r, env) in m {
        assert Level(strata, r.head) < s;
        assert Done(r, map[], tables, order, cap);
      }
      assert Elems(seeds) <= m;
    }
  }

  method MaxLevel(strata: Strata) returns (top: nat)
    ensures forall rel :: Level(strata, rel) <= top
    ensures top == 0 || exists rel :: rel in strata && strata[rel] == top
  {
    top := 0;
    var left := strata.Keys;
    while left != {}
      invariant left <= strata.Keys
      invariant forall rel :: rel in strata.Keys - left ==> strata[rel] <= top
      invariant top == 0 || exists rel :: rel in strata && strata[rel] == top
      decreases left
    {
      var rel :| rel in left;
      if strata[rel] > top { top := strata[rel]; }
      left := left - {rel};
    }
  }
}
