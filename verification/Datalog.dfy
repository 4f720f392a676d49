/** Datalog programs as the compiler collects them, and what they mean.

    A model is perfect when it is closed under the rules and every atom in it
    is reached by a derivation sequence; strata play no part in the definition.
    For stratified programs the perfect model is unique. */
module Datalog {

  /** An argument of a rule or query: a variable or a quoted constant. */
  datatype Term = Var(name: string) | Const(value: string)

  datatype Cond =
    | Pos(rel: string, args: seq<Term>)
    | Neg(rel: string, args: seq<Term>)
    | Neq(a: string, b: string)

  datatype Rule = Rule(head: string, headArgs: seq<Term>, body: seq<Cond>)

  type Tuple = seq<string>

  datatype Atom = Atom(rel: string, tuple: Tuple)

  type Env = map<string, string>

  type Strata = map<string, nat>

  // ---- Rule instances

  /** The value of an argument; an unbound variable is written as the empty string. */
  function Val(t: Term, env: Env): string {
    match t
    case Const(c) => c
    case Var(v) => if v in env then env[v] else ""
  }

  function Vals(args: seq<Term>, env: Env): (vs: Tuple)
    ensures |vs| == |args|
    ensures forall i :: 0 <= i < |args| ==> vs[i] == Val(args[i], env)
  {
    seq(|args|, i requires 0 <= i < |args| => Val(args[i], env))
  }

  function TermVars(args: seq<Term>): set<string> {
    set t | t in args && t.Var? :: t.name
  }

  /** The variables that the positive conditions of a body bind. */
  function PosVars(body: seq<Cond>): set<string> {
    set c, t | c in body && c.Pos? && t in c.args && t.Var? :: t.name
  }

  /** A condition under an environment: positive conditions read `pos`, negated ones `neg`.
      A negated condition with an unbound variable never finds a row. */
  ghost predicate Holds(c: Cond, env: Env, pos: set<Atom>, neg: set<Atom>) {
    match c
    case Pos(rel, args) => Atom(rel, Vals(args, env)) in pos
    case Neg(rel, args) => !(TermVars(args) <= env.Keys && Atom(rel, Vals(args, env)) in neg)
    case Neq(a, b) => Val(Var(a), env) != Val(Var(b), env)
  }

  ghost predicate BodyHolds(body: seq<Cond>, env: Env, pos: set<Atom>, neg: set<Atom>) {
    forall c :: c in body ==> Holds(c, env, pos, neg)
  }

  /** `env` is an instance of `r`: it binds exactly what the loop nest of `r` binds. */
  ghost predicate Fires(r: Rule, env: Env, pos: set<Atom>, neg: set<Atom>) {
    env.Keys == PosVars(r.body) && BodyHolds(r.body, env, pos, neg)
  }

  function HeadAtom(r: Rule, env: Env): Atom {
    Atom(r.head, Vals(r.headArgs, env))
  }

  ghost predicate Extends(env: Env, e: Env) {
    forall v :: v in env ==> v in e && e[v] == env[v]
  }

  lemma ValsExtend(args: seq<Term>, env: Env, e: Env)
    requires Extends(env, e) && TermVars(args) <= env.Keys
    ensures Vals(args, env) == Vals(args, e)
  {
    forall i | 0 <= i < |args| ensures Val(args[i], env) == Val(args[i], e) {
      assert args[i].Var? ==> args[i].name in TermVars(args);
    }
  }

  // ---- Perfect models

  function Elems(order: seq<Atom>): set<Atom> {
    set a | a in order
  }

  /** Every justified tuple is derived. */
  ghost predicate Closed(facts: seq<Atom>, rules: seq<Rule>, m: set<Atom>) {
    && Elems(facts) <= m
    && forall r, env :: r in rules && Fires(r, env, m, m) ==> HeadAtom(r, env) in m
  }

  ghost predicate Justified(a: Atom, facts: seq<Atom>, rules: seq<Rule>, before: set<Atom>, m: set<Atom>) {
    a in facts || exists r, env :: r in rules && Fires(r, env, before, m) && a == HeadAtom(r, env)
  }

  /** Every derived tuple is justified, by atoms that come before it. */
  ghost predicate Derivation(facts: seq<Atom>, rules: seq<Rule>, order: seq<Atom>, m: set<Atom>) {
    forall i :: 0 <= i < |order| ==> Justified(order[i], facts, rules, Elems(order[..i]), m)
  }

  ghost predicate DerivedBy(facts: seq<Atom>, rules: seq<Rule>, m: set<Atom>, order: seq<Atom>) {
    Elems(order) == m && Derivation(facts, rules, order, m)
  }

  ghost predicate Perfect(facts: seq<Atom>, rules: seq<Rule>, m: set<Atom>) {
    Closed(facts, rules, m) && exists order :: DerivedBy(facts, rules, m, order)
  }

  // ---- Stratification

  function Level(strata: Strata, rel: string): nat {
    if rel in strata then strata[rel] else 0
  }

  ghost predicate CondBelow(strata: Strata, head: string, c: Cond) {
    && (c.Pos? ==> Level(strata, c.rel) <= Level(strata, head))
    && (c.Neg? ==> Level(strata, c.rel) < Level(strata, head))
  }

  ghost predicate ValidStrata(strata: Strata, rules: seq<Rule>) {
    forall r, c :: r in rules && c in r.body ==> CondBelow(strata, r.head, c)
  }

  ghost predicate Stratifiable(rules: seq<Rule>) {
    exists strata :: ValidStrata(strata, rules)
  }

  // ---- Uniqueness

  /** The relations of `d` depend on nothing outside `d`, and both programs define them alike. */
  ghost predicate SameBelow(d: iset<string>, facts: seq<Atom>, rules: seq<Rule>, facts': seq<Atom>, rules': seq<Rule>) {
    && (forall r, c :: r in rules && r.head in d && c in r.body && !c.Neq? ==> c.rel in d)
    && (forall r: Rule :: r.head in d ==> (r in rules <==> r in rules'))
    && (forall a: Atom :: a.rel in d ==> (a in facts <==> a in facts'))
  }

  /** Two perfect models of programs that agree on `d` agree on the atoms of `d`:
      the induction is on the stratum, then on the place in the derivation. */
  lemma {:induction false} SameAtom(strata: Strata, d: iset<string>,
                   facts: seq<Atom>, rules: seq<Rule>, m: set<Atom>, order: seq<Atom>,
                   facts': seq<Atom>, rules': seq<Rule>, m': set<Atom>, order': seq<Atom>, i: nat)
    requires SameBelow(d, facts, rules, facts', rules') && SameBelow(d, facts', rules', facts, rules)
    requires forall r, c :: r in rules && r.head in d && c in r.body ==> CondBelow(strata, r.head, c)
    requires DerivedBy(facts, rules, m, order) && DerivedBy(facts', rules', m', order')
    requires Closed(facts, rules, m) && Closed(facts', rules', m')
    requires i < |order| && order[i].rel in d
    ensures order[i] in m'
    decreases Level(strata, order[i].rel), i
  {
    var a := order[i];
    assert Justified(a, facts, rules, Elems(order[..i]), m);
    if a in facts {
      assert a in facts' && a in Elems(facts');
    } else {
      var r, env :| r in rules && Fires(r, env, Elems(order[..i]), m) && a == HeadAtom(r, env);
      forall c | c in r.body ensures Holds(c, env, m', m') {
        assert Holds(c, env, Elems(order[..i]), m) && CondBelow(strata, r.head, c);
        match c
        case Pos(rel, args) =>
          var j :| 0 <= j < i && order[j] == Atom(rel, Vals(args, env));
          SameAtom(strata, d, facts, rules, m, order, facts', rules', m', order', j);
        case Neg(rel, args) =>
          var b := Atom(rel, Vals(args, env));
          if TermVars(args) <= env.Keys && b in m' {
            var j :| 0 <= j < |order'| && order'[j] == b;
            SameAtom(strata, d, facts', rules', m', order', facts, rules, m, order, j);
          }
        case Neq(_, _) =>
      }
      assert Fires(r, env, m', m');
    }
  }

  /** A stratified program has at most one perfect model. */
  lemma PerfectModelUnique(strata: Strata, facts: seq<Atom>, rules: seq<Rule>, m: set<Atom>, m': set<Atom>)
    requires ValidStrata(strata, rules)
    requires Perfect(facts, rules, m) && Perfect(facts, rules, m')
    ensures m == m'
  {
    var d := iset s: string | |s| >= 0;
    PerfectModelsAgree(strata, d, facts, rules, m, facts, rules, m');
    forall a ensures a in m <==> a in m' { assert a.rel in d; }
  }

  lemma PerfectModelsAgree(strata: Strata, d: iset<string>, facts: seq<Atom>, rules: seq<Rule>, m: set<Atom>,
                           facts': seq<Atom>, rules': seq<Rule>, m': set<Atom>)
    requires SameBelow(d, facts, rules, facts', rules')
    requires forall r, c :: r in rules && r.head in d && c in r.body ==> CondBelow(strata, r.head, c)
    requires Perfect(facts, rules, m) && Perfect(facts', rules', m')
    ensures forall a: Atom :: a.rel in d ==> (a in m <==> a in m')
  {
    var order :| DerivedBy(facts, rules, m, order);
    var order' :| DerivedBy(facts', rules', m', order');
    forall a: Atom | a.rel in d ensures a in m <==> a in m' {
      if a in m {
        var i :| 0 <= i < |order| && order[i] == a;
        SameAtom(strata, d, facts, rules, m, order, facts', rules', m', order', i);
      }
      if a in m' {
        var i :| 0 <= i < |order'| && order'[i] == a;
        SameAtom(strata, d, facts', rules', m', order', facts, rules, m, order, i);
      }
    }
  }
}
