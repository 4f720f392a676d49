/** Every stratified program has exactly one perfect model.

    The atoms that can be derived at all are finitely many, so saturating the
    strata one after the other comes to an end; what is reached is closed and
    derived. */
module DatalogModel {
  import opened Datalog
  import opened DatalogEval

  // ---- The atoms that can be derived

  function Tuples(values: set<string>, n: nat): set<Tuple> {
    if n == 0 then {[]} else set v, t | v in values && t in Tuples(values, n - 1) :: [v] + t
  }

  lemma {:induction false} TuplesMembers(values: set<string>, n: nat, t: Tuple)
    requires |t| == n && forall v :: v in t ==> v in values
    ensures t in Tuples(values, n)
  {
    if n > 0 {
      assert forall v :: v in t[1..] ==> v in t;
      TuplesMembers(values, n - 1, t[1..]);
      assert t == [t[0]] + t[1..];
    }
  }

  lemma {:induction false} TuplesOver(values: set<string>, n: nat, t: Tuple, v: string)
    requires t in Tuples(values, n) && v in t
    ensures v in values
  {
    if n > 0 {
      var w, u :| w in values && u in Tuples(values, n - 1) && t == [w] + u;
      if v != w {
        TuplesOver(values, n - 1, u, v);
      }
    }
  }

  /** The strings that can occur in a derived tuple. */
  function Values(facts: seq<Atom>, rules: seq<Rule>): set<string> {
    (set a, v | a in facts && v in a.tuple :: v) + (set r, t | r in rules && t in r.headArgs
                                                    && t.Const? :: t.value) + {""}
  }

  function Base(facts: seq<Atom>, rules: seq<Rule>): set<Atom> {
    Elems(facts) + set r, t | r in rules && t in Tuples(Values(facts, rules), |r.headArgs|) :: Atom(r.head, t)
  }

  lemma BaseOver(facts: seq<Atom>, rules: seq<Rule>, a: Atom, v: string)
    requires a in Base(facts, rules) && v in a.tuple
    ensures v in Values(facts, rules)
  {
    if a !in facts {
      var r, t :| r in rules && t in Tuples(Values(facts, rules), |r.headArgs|) && a == Atom(r.head, t);
      TuplesOver(Values(facts, rules), |r.headArgs|, t, v);
    }
  }

  /** What a rule derives from atoms of the base is in the base. */
  lemma HeadInBase(facts: seq<Atom>, rules: seq<Rule>, m: set<Atom>, r: Rule, env: Env)
    requires m <= Base(facts, rules) && r in rules && Fires(r, env, m, m)
    ensures HeadAtom(r, env) in Base(facts, rules)
  {
    var row := Vals(r.headArgs, env);
    forall v | v in row ensures v in Values(facts, rules) {
      var i :| 0 <= i < |row| && row[i] == v;
      HeadValue(facts, rules, m, r, env, r.headArgs[i]);
    }
    TuplesMembers(Values(facts, rules), |r.headArgs|, row);
  }

  lemma HeadValue(facts: seq<Atom>, rules: seq<Rule>, m: set<Atom>, r: Rule, env: Env, t: Term)
    requires m <= Base(facts, rules) && r in rules && Fires(r, env, m, m) && t in r.headArgs
    ensures Val(t, env) in Values(facts, rules)
  {
    hide Base;
    if t.Var? && t.name in env {
      var c, u :| c in r.body && c.Pos? && u in c.args && u.Var? && u.name == t.name;
      assert Holds(c, env, m, m);
      var i :| 0 <= i < |c.args| && c.args[i] == u;
      assert Vals(c.args, env)[i] == env[t.name];
      BaseOver(facts, rules, Atom(c.rel, Vals(c.args, env)), env[t.name]);
    }
  }

  // ---- Saturating the strata

  /** Strata below `s` are finished, everything is justified and in the base. */
  ghost predicate Reached(facts: seq<Atom>, rules: seq<Rule>, strata: Strata, s: nat, order: seq<Atom>) {
    && Elems(facts) <= Elems(order) <= Base(facts, rules)
    && SoundUpTo(facts, rules, strata, s, order)
    && DoneBelow(rules, strata, s, map[], order, 1)
  }

  lemma {:induction false} Saturate(facts: seq<Atom>, rules: seq<Rule>, strata: Strata, s: nat, order: seq<Atom>)
      returns (order': seq<Atom>)
    requires ValidStrata(strata, rules) && Reached(facts, rules, strata, s, order)
    ensures Reached(facts, rules, strata, s + 1, order')
    decreases |Base(facts, rules) - Elems(order)|
  {
    var m := Elems(order);
    if StratumDone(rules, strata, s, map[], order, 1) {
      order' := order;
      Finished(facts, rules, strata, s, order);
    } else {
      var r, env := Missing(rules, strata, s, order);
      var a := HeadAtom(r, env);
      HeadInBase(facts, rules, m, r, env);
      InsertSound(facts, rules, strata, s, order, r, env);
      InsertDone(rules, strata, s, map[], order, 1, r, env, map[]);
      assert Elems(order + [a]) == m + {a};
      assert Base(facts, rules) - (m + {a}) < Base(facts, rules) - m;
      Smaller(Base(facts, rules) - (m + {a}), Base(facts, rules) - m);
      order' := Saturate(facts, rules, strata, s, order + [a]);
    }
  }

  lemma Smaller(a: set<Atom>, b: set<Atom>)
    requires a < b
    ensures |a| < |b|
  {
    assert b == a + (b - a);
  }

  lemma Missing(rules: seq<Rule>, strata: Strata, s: nat, order: seq<Atom>) returns (r: Rule, env: Env)
    requires !StratumDone(rules, strata, s, map[], order, 1)
    ensures r in rules && Insertion(r, env, strata, s, order)
  {
    r :| r in rules && Level(strata, r.head) == s && !Done(r, map[], map[], order, 1);
    env :| Fires(r, env, Elems(order), Elems(order)) && HeadAtom(r, env) !in Elems(order);
  }

  lemma Finished(facts: seq<Atom>, rules: seq<Rule>, strata: Strata, s: nat, order: seq<Atom>)
    requires Reached(facts, rules, strata, s, order) && StratumDone(rules, strata, s, map[], order, 1)
    ensures Reached(facts, rules, strata, s + 1, order)
  {
    hide Base, Done;
    forall i | 0 <= i < |order|
      ensures JustifiedUpTo(order[i], facts, rules, strata, s + 1, Elems(order[..i]), Elems(order))
    {
      assert JustifiedUpTo(order[i], facts, rules, strata, s, Elems(order[..i]), Elems(order));
    }
  }

  /** One more than the level of every rule. */
  function Top(strata: Strata, rules: seq<Rule>): nat {
    if rules == [] then 0
    else if Level(strata, rules[0].head) + 1 > Top(strata, rules[1..]) then Level(strata, rules[0].head) + 1
    else Top(strata, rules[1..])
  }

  lemma {:induction false} TopAbove(strata: Strata, rules: seq<Rule>, r: Rule)
    requires r in rules
    ensures Level(strata, r.head) < Top(strata, rules)
  {
    if r != rules[0] {
      TopAbove(strata, rules[1..], r);
    }
  }

  lemma {:induction false} SaturateUpTo(facts: seq<Atom>, rules: seq<Rule>, strata: Strata, s: nat)
      returns (order: seq<Atom>)
    requires ValidStrata(strata, rules)
    ensures Reached(facts, rules, strata, s, order)
  {
    if s == 0 {
      order := facts;
    } else {
      hide Reached;
      var before := SaturateUpTo(facts, rules, strata, s - 1);
      order := Saturate(facts, rules, strata, s - 1, before);
    }
  }

  lemma ReachedIsPerfect(facts: seq<Atom>, rules: seq<Rule>, strata: Strata, order: seq<Atom>)
    requires Reached(facts, rules, strata, Top(strata, rules), order)
    ensures Perfect(facts, rules, Elems(order))
  {
    hide Base;
    var s, m := Top(strata, rules), Elems(order);
    forall i | 0 <= i < |order| ensures Justified(order[i], facts, rules, Elems(order[..i]), m) {
      assert JustifiedUpTo(order[i], facts, rules, strata, s, Elems(order[..i]), m);
    }
    assert DerivedBy(facts, rules, m, order);
    forall r, env | r in rules && Fires(r, env, m, m) ensures HeadAtom(r, env) in m {
      TopAbove(strata, rules, r);
      assert Done(r, map[], map[], order, 1);
      assert Extends(map[], env);
    }
  }

  // ---- The model

  lemma PerfectModelExists(facts: seq<Atom>, rules: seq<Rule>)
    requires Stratifiable(rules)
    ensures exists m :: Perfect(facts, rules, m)
  {
    var strata :| ValidStrata(strata, rules);
    hide Perfect, Reached;
    var order := SaturateUpTo(facts, rules, strata, Top(strata, rules));
    ReachedIsPerfect(facts, rules, strata, order);
  }

  /** What a stratified program means. */
  ghost function Model(facts: seq<Atom>, rules: seq<Rule>): (m: set<Atom>)
    requires Stratifiable(rules)
    ensures Perfect(facts, rules, m)
  {
    PerfectModelExists(facts, rules);
    var m :| Perfect(facts, rules, m);
    m
  }

  /** A stratified program has one perfect model and no other. */
  lemma ModelIsTheOnlyOne(facts: seq<Atom>, rules: seq<Rule>, m: set<Atom>)
    requires Stratifiable(rules)
    ensures Perfect(facts, rules, m) <==> m == Model(facts, rules)
  {
    if Perfect(facts, rules, m) {
      var strata :| ValidStrata(strata, rules);
      PerfectModelUnique(strata, facts, rules, m, Model(facts, rules));
    }
  }
}
