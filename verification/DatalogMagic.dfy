/** The magic-set rewrite: guard the rules of the queried relation with a relation of
    wanted bound values, seed it from the query, and propagate it through recursive calls. */
module DatalogMagic {
  import opened Datalog
  import opened DatalogModel

  datatype Query = Query(rel: string, args: seq<Term>)

  function MagicName(rel: string): string { "magic_" + rel }

  // ---- The rewrite as a function

  function BoundPos(args: seq<Term>): seq<nat> {
    if args == [] then []
    else BoundPos(args[..|args|-1]) + (if args[|args|-1].Const? then [|args|-1] else [])
  }

  /** The arguments at the given positions; positions past the end are skipped. */
  function Pick<T>(args: seq<T>, pos: seq<nat>): seq<T> {
    if pos == [] then []
    else Pick(args, pos[..|pos|-1]) + (if pos[|pos|-1] < |args| then [args[pos[|pos|-1]]] else [])
  }

  function BoundVals(q: Query): Tuple {
    Vals(Pick(q.args, BoundPos(q.args)), map[])
  }

  function Guard(q: Query, r: Rule): Cond {
    Pos(MagicName(q.rel), Pick(r.headArgs, BoundPos(q.args)))
  }

  function Guarded(q: Query, r: Rule): Rule {
    r.(body := [Guard(q, r)] + r.body)
  }

  /** The non-recursive positive conditions, in order. */
  function NonRecursive(q: Query, body: seq<Cond>): seq<Cond> {
    if body == [] then []
    else NonRecursive(q, body[..|body|-1]) +
         (if body[|body|-1].Pos? && body[|body|-1].rel != q.rel then [body[|body|-1]] else [])
  }

  predicate Recursive(q: Query, c: Cond) { c.Pos? && c.rel == q.rel }

  function WantedArgs(q: Query, c: Cond): seq<Term>
    requires c.Pos?
  {
    Pick(c.args, BoundPos(q.args))
  }

  /** The recursive call asks for the very values its caller was asked for. */
  predicate Trivial(q: Query, r: Rule, c: Cond)
    requires c.Pos?
  {
    WantedArgs(q, c) == Guard(q, r).args
  }

  function Propagation(q: Query, r: Rule, i: nat): Rule
    requires i < |r.body| && r.body[i].Pos?
  {
    Rule(MagicName(q.rel), WantedArgs(q, r.body[i]), [Guard(q, r)] + NonRecursive(q, r.body[..i]))
  }

  function Propagations(q: Query, r: Rule, n: nat): seq<Rule>
    requires n <= |r.body|
  {
    if n == 0 then []
    else Propagations(q, r, n - 1) +
         (if Recursive(q, r.body[n-1]) && !Trivial(q, r, r.body[n-1]) then [Propagation(q, r, n - 1)] else [])
  }

  function RewriteRule(q: Query, r: Rule): seq<Rule> {
    if r.head != q.rel then [r] else [Guarded(q, r)] + Propagations(q, r, |r.body|)
  }

  function RewriteRules(q: Query, rules: seq<Rule>): seq<Rule> {
    if rules == [] then [] else RewriteRules(q, rules[..|rules|-1]) + RewriteRule(q, rules[|rules|-1])
  }

  predicate Rewrites(q: Query, rules: seq<Rule>) {
    BoundPos(q.args) != [] && exists r :: r in rules && r.head == q.rel
  }

  function MagicFacts(q: Query, facts: seq<Atom>, rules: seq<Rule>): seq<Atom> {
    if Rewrites(q, rules) then facts + [Atom(MagicName(q.rel), BoundVals(q))] else facts
  }

  function MagicRules(q: Query, rules: seq<Rule>): seq<Rule> {
    if Rewrites(q, rules) then RewriteRules(q, rules) else rules
  }

  // ---- The code

  method ApplyMagicSet(q: Query, facts: seq<Atom>, rules: seq<Rule>) returns (newFacts: seq<Atom>, newRules: seq<Rule>)
    ensures newFacts == MagicFacts(q, facts, rules)
    ensures newRules == MagicRules(q, rules)
  {
    var boundPos := CollectBound(q);
    var hasRules := HasRules(q, rules);
    if boundPos == [] || !hasRules { return facts, rules; }
    newFacts := facts + [Atom(MagicName(q.rel), BoundVals(q))];
    newRules := [];
    var i := 0;
    while i < |rules|
      invariant 0 <= i <= |rules|
      invariant newRules == RewriteRules(q, rules[..i])
    {
      assert rules[..i+1][..i] == rules[..i];
      if rules[i].head != q.rel {
        newRules := newRules + [rules[i]];
      } else {
        var out := GuardAndPropagate(q, rules[i]);
        newRules := newRules + out;
      }
      i := i + 1;
    }
    assert rules[..|rules|] == rules;
  }

  method CollectBound(q: Query) returns (pos: seq<nat>)
    ensures pos == BoundPos(q.args)
  {
    pos := [];
    var i := 0;
    while i < |q.args|
      invariant 0 <= i <= |q.args|
      invariant pos == BoundPos(q.args[..i])
    {
      assert q.args[..i+1][..i] == q.args[..i];
      if q.args[i].Const? { pos := pos + [i]; }
      i := i + 1;
    }
    assert q.args[..|q.args|] == q.args;
  }

  method HasRules(q: Query, rules: seq<Rule>) returns (found: bool)
    ensures found <==> exists r :: r in rules && r.head == q.rel
  {
    var i := 0;
    while i < |rules|
      invariant 0 <= i <= |rules|
      invariant forall r :: r in rules[..i] ==> r.head != q.rel
    {
      if rules[i].head == q.rel { return true; }
      i := i + 1;
    }
    return false;
  }

  method GuardAndPropagate(q: Query, r: Rule) returns (out: seq<Rule>)
    ensures out == [Guarded(q, r)] + Propagations(q, r, |r.body|)
  {
    out := [Guarded(q, r)];
    var bi := 0;
    while bi < |r.body|
      invariant 0 <= bi <= |r.body|
      invariant out == [Guarded(q, r)] + Propagations(q, r, bi)
    {
      if Recursive(q, r.body[bi]) && !Trivial(q, r, r.body[bi]) {
        var prop := Propagate(q, r, bi);
        out := out + [prop];
      }
      bi := bi + 1;
    }
  }

  method Propagate(q: Query, r: Rule, bi: nat) returns (p: Rule)
    requires bi < |r.body| && r.body[bi].Pos?
    ensures p == Propagation(q, r, bi)
  {
    var body := [];
    var j := 0;
    while j < bi
      invariant 0 <= j <= bi
      invariant body == NonRecursive(q, r.body[..j])
    {
      assert r.body[..j+1][..j] == r.body[..j];
      if r.body[j].Pos? && r.body[j].rel != q.rel { body := body + [r.body[j]]; }
      j := j + 1;
    }
    p := Rule(MagicName(q.rel), WantedArgs(q, r.body[bi]), [Guard(q, r)] + body);
  }

  // ---- What the rewrite contains

  lemma {:induction false} NonRecursiveMembers(q: Query, body: seq<Cond>, c: Cond)
    ensures c in NonRecursive(q, body) <==> c in body && c.Pos? && c.rel != q.rel
  {
    if body != [] {
      NonRecursiveMembers(q, body[..|body|-1], c);
      assert body == body[..|body|-1] + [body[|body|-1]];
    }
  }

  lemma {:induction false} PropagationMembers(q: Query, r: Rule, n: nat, p: Rule)
    requires n <= |r.body|
    ensures p in Propagations(q, r, n) <==>
            exists i :: 0 <= i < n && Recursive(q, r.body[i]) && !Trivial(q, r, r.body[i]) && p == Propagation(q, r, i)
  {
    if n > 0 { PropagationMembers(q, r, n - 1, p); }
  }

  lemma {:induction false} RewriteMembers(q: Query, rules: seq<Rule>, p: Rule)
    ensures p in RewriteRules(q, rules) <==> exists r :: r in rules && p in RewriteRule(q, r)
  {
    if rules != [] {
      RewriteMembers(q, rules[..|rules|-1], p);
      assert rules == rules[..|rules|-1] + [rules[|rules|-1]];
    }
  }

  lemma {:induction false} PickVals(args: seq<Term>, pos: seq<nat>, env: Env)
    ensures Vals(Pick(args, pos), env) == Pick(Vals(args, env), pos)
  {
    if pos != [] { PickVals(args, pos[..|pos|-1], env); }
  }

  // ---- When the rewrite keeps the answers

  /** What the queried relation uses besides itself: closed under dependency, without the relation. */
  ghost predicate Below(q: Query, rules: seq<Rule>, d: iset<string>) {
    && q.rel !in d && MagicName(q.rel) !in d
    && (forall r, c :: r in rules && r.head in d && c in r.body && !c.Neq? ==> c.rel in d)
    && (forall r, c :: r in rules && r.head == q.rel && c in r.body && !c.Neq? && !Recursive(q, c) ==> c.rel in d)
  }

  ghost predicate RecursiveOnlyThroughItself(q: Query, rules: seq<Rule>) {
    exists d :: Below(q, rules, d)
  }

  predicate Unused(rel: string, facts: seq<Atom>, rules: seq<Rule>) {
    && (forall f :: f in facts ==> f.rel != rel)
    && (forall r :: r in rules ==> r.head != rel)
    && (forall r, c :: r in rules && c in r.body && !c.Neq? ==> c.rel != rel)
  }

  /** The head variables at the bound positions occur in the positive body. */
  predicate GuardBound(q: Query, r: Rule) {
    TermVars(Guard(q, r).args) <= PosVars(r.body)
  }

  /** The bound arguments of each recursive call are constants, or bound by the guard
      or by earlier non-recursive positive conditions. */
  predicate CallsBound(q: Query, r: Rule) {
    forall i :: 0 <= i < |r.body| && Recursive(q, r.body[i]) ==>
      TermVars(WantedArgs(q, r.body[i])) <= PosVars([Guard(q, r)] + NonRecursive(q, r.body[..i]))
  }

  ghost predicate Applicable(q: Query, facts: seq<Atom>, rules: seq<Rule>) {
    && Unused(MagicName(q.rel), facts, rules)
    && RecursiveOnlyThroughItself(q, rules)
    && forall r :: r in rules && r.head == q.rel ==> GuardBound(q, r) && CallsBound(q, r)
  }

  /** A row agrees with the constants of the query. */
  predicate Matches(args: seq<Term>, row: Tuple) {
    forall i :: 0 <= i < |args| && args[i].Const? ==> i < |row| && row[i] == args[i].value
  }

  // ---- Proof

  lemma MagicNameFresh(rel: string)
    ensures MagicName(rel) != rel
  {
    assert |MagicName(rel)| == 6 + |rel|;
  }

  /** Below the queried relation both programs are the same. */
  lemma RewriteSameBelow(q: Query, facts: seq<Atom>, rules: seq<Rule>, d: iset<string>)
    requires Rewrites(q, rules) && Below(q, rules, d)
    ensures SameBelow(d, facts, rules, MagicFacts(q, facts, rules), MagicRules(q, rules))
  {
    forall p: Rule | p.head in d ensures p in rules <==> p in RewriteRules(q, rules) {
      RewriteMembers(q, rules, p);
      if p in rules { assert p in RewriteRule(q, p); }
      if p in RewriteRules(q, rules) {
        var r :| r in rules && p in RewriteRule(q, r);
        if r.head == q.rel { PropagationMembers(q, r, |r.body|, p); }
      }
    }
  }

  lemma GuardedRules(q: Query, rules: seq<Rule>, p: Rule) returns (r: Rule)
    requires p in RewriteRules(q, rules) && p.head == q.rel
    ensures r in rules && r.head == q.rel && p == Guarded(q, r)
  {
    RewriteMembers(q, rules, p);
    MagicNameFresh(q.rel);
    r :| r in rules && p in RewriteRule(q, r);
    PropagationMembers(q, r, |r.body|, p);
  }

  lemma GuardedVars(q: Query, r: Rule)
    requires GuardBound(q, r)
    ensures PosVars(Guarded(q, r).body) == PosVars(r.body)
  {
    assert PosVars([Guard(q, r)]) == TermVars(Guard(q, r).args);
    assert PosVars([Guard(q, r)] + r.body) == PosVars([Guard(q, r)]) + PosVars(r.body);
  }

  /** Everything the rewritten program derives for the queried relation, the program derives. */
  lemma {:induction false} MagicSound(q: Query, facts: seq<Atom>, rules: seq<Rule>, d: iset<string>, m: set<Atom>,
                                      m': set<Atom>, order': seq<Atom>, i: nat)
    requires Rewrites(q, rules) && Below(q, rules, d)
    requires forall r :: r in rules && r.head == q.rel ==> GuardBound(q, r)
    requires Closed(facts, rules, m) && DerivedBy(MagicFacts(q, facts, rules), MagicRules(q, rules), m', order')
    requires forall a: Atom :: a.rel in d ==> (a in m <==> a in m')
    requires i < |order'| && order'[i].rel == q.rel
    ensures order'[i] in m
    decreases i
  {
    var facts', rules' := MagicFacts(q, facts, rules), MagicRules(q, rules);
    var before := Elems(order'[..i]);
    assert Justified(order'[i], facts', rules', before, m');
    MagicNameFresh(q.rel);
    if order'[i] in facts' {
      assert order'[i] in Elems(facts);
    } else {
      var p, env :| p in rules' && Fires(p, env, before, m') && order'[i] == HeadAtom(p, env);
      var r := GuardedRules(q, rules, p);
      GuardedVars(q, r);
      forall c | c in r.body ensures Holds(c, env, m, m) {
        assert c in p.body && Holds(c, env, before, m');
        if Recursive(q, c) {
          var j :| 0 <= j < i && order'[j] == Atom(q.rel, Vals(c.args, env));
          MagicSound(q, facts, rules, d, m, m', order', j);
        } else if !c.Neq? {
          assert c.rel in d;
          assert before <= m';
        }
      }
      assert Fires(r, env, m, m);
    }
  }

  /** A wanted call makes its own bound values wanted. */
  lemma CallWanted(q: Query, facts: seq<Atom>, rules: seq<Rule>, d: iset<string>, m: set<Atom>, m': set<Atom>, r: Rule,
                   env: Env, i: nat)
    requires Rewrites(q, rules) && Below(q, rules, d)
    requires r in rules && r.head == q.rel && GuardBound(q, r) && CallsBound(q, r)
    requires Closed(MagicFacts(q, facts, rules), MagicRules(q, rules), m')
    requires forall a: Atom :: a.rel in d ==> (a in m <==> a in m')
    requires Fires(r, env, m, m)
    requires i < |r.body| && Recursive(q, r.body[i])
    requires Atom(MagicName(q.rel), Vals(Guard(q, r).args, env)) in m'
    ensures Atom(MagicName(q.rel), Vals(WantedArgs(q, r.body[i]), env)) in m'
  {
    if !Trivial(q, r, r.body[i]) {
      var p := Propagation(q, r, i);
      var e := map v | v in PosVars(p.body) && v in env :: env[v];
      PropagationMembers(q, r, |r.body|, p);
      RewriteMembers(q, rules, p);
      assert p in RewriteRule(q, r) && p in MagicRules(q, rules);
      assert Extends(e, env);
      PropagationVars(q, r, i);
      assert e.Keys == PosVars(p.body);
      forall c | c in p.body ensures Holds(c, e, m', m') {
        NonRecursiveMembers(q, r.body[..i], c);
        assert TermVars(c.args) <= PosVars(p.body);
        ValsExtend(c.args, e, env);
        if c != Guard(q, r) { assert c in r.body && Holds(c, env, m, m) && c.rel in d; }
      }
      assert Fires(p, e, m', m');
      ValsExtend(p.headArgs, e, env);
    }
  }

  lemma PropagationVars(q: Query, r: Rule, i: nat)
    requires i < |r.body| && r.body[i].Pos? && GuardBound(q, r)
    ensures PosVars(Propagation(q, r, i).body) <= PosVars(r.body)
    ensures forall c :: c in Propagation(q, r, i).body ==> c.Pos?
  {
    forall c | c in NonRecursive(q, r.body[..i]) ensures c in r.body && c.Pos? {
      NonRecursiveMembers(q, r.body[..i], c);
    }
  }

  /** Every tuple of the queried relation whose bound values are wanted is still derived. */
  lemma {:induction false} MagicComplete(q: Query, facts: seq<Atom>, rules: seq<Rule>, d: iset<string>, m: set<Atom>,
                                         order: seq<Atom>, m': set<Atom>, i: nat)
    requires Rewrites(q, rules) && Below(q, rules, d)
    requires forall r :: r in rules && r.head == q.rel ==> GuardBound(q, r) && CallsBound(q, r)
    requires DerivedBy(facts, rules, m, order) && Closed(MagicFacts(q, facts, rules), MagicRules(q, rules), m')
    requires forall a: Atom :: a.rel in d ==> (a in m <==> a in m')
    requires i < |order| && order[i].rel == q.rel
    requires Atom(MagicName(q.rel), Pick(order[i].tuple, BoundPos(q.args))) in m'
    ensures order[i] in m'
    decreases i
  {
    var before := Elems(order[..i]);
    assert Justified(order[i], facts, rules, before, m);
    if order[i] in facts {
      assert order[i] in Elems(MagicFacts(q, facts, rules));
    } else {
      var r, env :| r in rules && Fires(r, env, before, m) && order[i] == HeadAtom(r, env);
      var p := Guarded(q, r);
      PickVals(r.headArgs, BoundPos(q.args), env);
      FiresGrows(r, env, before, m);
      forall c | c in p.body ensures Holds(c, env, m', m') {
        if c != Guard(q, r) {
          var k :| 0 <= k < |r.body| && r.body[k] == c;
          assert Holds(c, env, before, m);
          if Recursive(q, c) {
            CallWanted(q, facts, rules, d, m, m', r, env, k);
            PickVals(c.args, BoundPos(q.args), env);
            var j :| 0 <= j < i && order[j] == Atom(q.rel, Vals(c.args, env));
            MagicComplete(q, facts, rules, d, m, order, m', j);
          } else if !c.Neq? {
            assert c.rel in d && before <= m;
          }
        }
      }
      GuardedVars(q, r);
      RewriteMembers(q, rules, p);
      assert p in RewriteRule(q, r) && p in MagicRules(q, rules);
      assert Fires(p, env, m', m');
    }
  }

  lemma FiresGrows(r: Rule, env: Env, before: set<Atom>, m: set<Atom>)
    requires Fires(r, env, before, m) && before <= m
    ensures Fires(r, env, m, m)
  {
    forall c | c in r.body ensures Holds(c, env, m, m) { assert Holds(c, env, before, m); }
  }

  lemma {:induction false} MatchPick(args: seq<Term>, row: Tuple)
    requires Matches(args, row)
    ensures Pick(row, BoundPos(args)) == Vals(Pick(args, BoundPos(args)), map[])
  {
    MatchPickPrefix(args, row, |args|);
    assert args[..|args|] == args;
  }

  lemma PickSnoc<T>(args: seq<T>, pos: seq<nat>, p: nat)
    requires p < |args|
    ensures Pick(args, pos + [p]) == Pick(args, pos) + [args[p]]
  {
    assert (pos + [p])[..|pos|] == pos;
  }

  lemma BoundPosSnoc(args: seq<Term>, n: nat)
    requires n < |args|
    ensures BoundPos(args[..0]) == []
    ensures BoundPos(args[..n+1]) == BoundPos(args[..n]) + (if args[n].Const? then [n] else [])
  {
    assert args[..n+1][..n] == args[..n];
  }

  lemma {:induction false} MatchPickPrefix(args: seq<Term>, row: Tuple, n: nat)
    requires Matches(args, row) && n <= |args|
    ensures Pick(row, BoundPos(args[..n])) == Vals(Pick(args, BoundPos(args[..n])), map[])
  {
    if n > 0 {
      MatchPickPrefix(args, row, n - 1);
      BoundPosSnoc(args, n - 1);
      var pos := BoundPos(args[..n-1]);
      hide Pick, BoundPos;
      if args[n-1].Const? {
        PickSnoc(args, pos, n - 1);
        PickSnoc(row, pos, n - 1);
        assert Vals(Pick(args, pos) + [args[n-1]], map[]) == Vals(Pick(args, pos), map[]) + [args[n-1].value];
      } else {
        assert pos + [] == pos;
      }
    }
  }

  /** The tuples that match the query are the same in the models before and after the rewrite. */
  lemma MagicKeepsAnswers(q: Query, facts: seq<Atom>, rules: seq<Rule>, row: Tuple)
    requires Stratifiable(rules) && Applicable(q, facts, rules) && Matches(q.args, row)
    ensures Stratifiable(MagicRules(q, rules))
    ensures Atom(q.rel, row) in Model(facts, rules) <==>
            Atom(q.rel, row) in Model(MagicFacts(q, facts, rules), MagicRules(q, rules))
  {
    MagicKeepsStratifiable(q, facts, rules);
    var strata :| ValidStrata(strata, rules);
    hide Perfect, Applicable, MagicFacts, MagicRules;
    SameAnswers(q, facts, rules, strata, Model(facts, rules), Model(MagicFacts(q, facts, rules), MagicRules(q, rules)),
                row);
  }

  lemma SameAnswers(q: Query, facts: seq<Atom>, rules: seq<Rule>, strata: Strata, m: set<Atom>, m': set<Atom>,
                    row: Tuple)
    requires ValidStrata(strata, rules)
    requires Applicable(q, facts, rules)
    requires Perfect(facts, rules, m)
    requires Perfect(MagicFacts(q, facts, rules), MagicRules(q, rules), m')
    requires Matches(q.args, row)
    ensures Atom(q.rel, row) in m <==> Atom(q.rel, row) in m'
  {
    if !Rewrites(q, rules) {
      PerfectModelUnique(strata, facts, rules, m, m');
    } else {
      var d :| Below(q, rules, d);
      var facts', rules' := MagicFacts(q, facts, rules), MagicRules(q, rules);
      RewriteSameBelow(q, facts, rules, d);
      PerfectModelsAgree(strata, d, facts, rules, m, facts', rules', m');
      var order :| DerivedBy(facts, rules, m, order);
      var order' :| DerivedBy(facts', rules', m', order');
      var a := Atom(q.rel, row);
      if a in m' {
        var i :| 0 <= i < |order'| && order'[i] == a;
        MagicSound(q, facts, rules, d, m, m', order', i);
      }
      if a in m {
        var i :| 0 <= i < |order| && order[i] == a;
        MatchPick(q.args, row);
        assert Atom(MagicName(q.rel), BoundVals(q)) in Elems(facts');
        MagicComplete(q, facts, rules, d, m, order, m', i);
      }
    }
  }

  /** The rewrite directs the evaluation: a derived tuple of the queried relation is one that was wanted. */
  lemma MagicFocuses(q: Query, facts: seq<Atom>, rules: seq<Rule>, a: Atom)
    requires Rewrites(q, rules) && Stratifiable(MagicRules(q, rules))
    requires a.rel == q.rel && a !in facts && a in Model(MagicFacts(q, facts, rules), MagicRules(q, rules))
    ensures Atom(MagicName(q.rel), Pick(a.tuple, BoundPos(q.args))) in Model(MagicFacts(q, facts, rules),
        MagicRules(q, rules))
  {
    var facts', rules' := MagicFacts(q, facts, rules), MagicRules(q, rules);
    var m := Model(facts', rules');
    MagicNameFresh(q.rel);
    assert a !in facts';
    var order :| DerivedBy(facts', rules', m, order);
    var i :| 0 <= i < |order| && order[i] == a;
    assert Justified(a, facts', rules', Elems(order[..i]), m);
    var p, env :| p in rules' && Fires(p, env, Elems(order[..i]), m) && a == HeadAtom(p, env);
    var r := GuardedRules(q, rules, p);
    assert Guard(q, r) in p.body && Holds(Guard(q, r), env, Elems(order[..i]), m);
    PickVals(r.headArgs, BoundPos(q.args), env);
    assert Elems(order[..i]) <= Elems(order);
  }

  lemma PropagationBelow(q: Query, r: Rule, i: nat, s: Strata, c: Cond)
    requires r.head == q.rel && i < |r.body| && r.body[i].Pos?
    requires forall b :: b in r.body ==> CondBelow(s, r.head, b)
    requires Level(s, MagicName(q.rel)) == Level(s, q.rel)
    requires c in Propagation(q, r, i).body
    ensures CondBelow(s, MagicName(q.rel), c)
  {
    NonRecursiveMembers(q, r.body[..i], c);
    assert c in r.body ==> CondBelow(s, r.head, c);
  }

  /** The rewritten program is stratified when the program is. */
  lemma MagicKeepsStratifiable(q: Query, facts: seq<Atom>, rules: seq<Rule>)
    requires Stratifiable(rules) && Unused(MagicName(q.rel), facts, rules)
    ensures Stratifiable(MagicRules(q, rules))
  {
    var s :| ValidStrata(s, rules);
    if Rewrites(q, rules) {
      var s' := s[MagicName(q.rel) := Level(s, q.rel)];
      MagicNameFresh(q.rel);
      assert forall rel :: rel != MagicName(q.rel) ==> Level(s', rel) == Level(s, rel);
      forall r, c | r in rules && c in r.body ensures CondBelow(s', r.head, c) {
        assert CondBelow(s, r.head, c) && r.head != MagicName(q.rel);
      }
      forall p, c | p in MagicRules(q, rules) && c in p.body ensures CondBelow(s', p.head, c) {
        hide CondBelow, ValidStrata, Unused;
        RewriteMembers(q, rules, p);
        var r :| r in rules && p in RewriteRule(q, r);
        if r.head == q.rel {
          PropagationMembers(q, r, |r.body|, p);
          if p == Guarded(q, r) {
            if c == Guard(q, r) { GuardBelow(q, r, s'); }
          } else {
            var i :| 0 <= i < |r.body| && Recursive(q, r.body[i]) && p == Propagation(q, r, i);
            PropagationBelow(q, r, i, s', c);
          }
        }
      }
      assert ValidStrata(s', MagicRules(q, rules));
    }
  }

  lemma GuardBelow(q: Query, r: Rule, s: Strata)
    requires r.head == q.rel && Level(s, MagicName(q.rel)) == Level(s, q.rel)
    ensures CondBelow(s, r.head, Guard(q, r))
  {}

  // ---- Outside the binding condition an answer can be lost

  /** Names and constants of the example below; any distinct ones will do. */
  datatype Names = Names(rel: string, edge: string, x: string, y: string, z: string, a: string, b: string, c: string)

  ghost predicate Distinct(n: Names) {
    && n.edge != n.rel && n.edge != MagicName(n.rel)
    && n.x != n.y && n.x != n.z && n.y != n.z
    && n.a != n.b && n.b != n.c && n.a != n.c && n.b != ""
  }

  lemma PathNamesDistinct()
    ensures Distinct(Names("path", "edge", "X", "Y", "Z", "a", "b", "c"))
  {
    assert |MagicName("path")| == 10 && |"edge"| == 4;
    assert "edge"[0] != "path"[0] && "X"[0] != "Y"[0] && "X"[0] != "Z"[0] && "Y"[0] != "Z"[0];
    assert "a"[0] != "b"[0] && "b"[0] != "c"[0] && "a"[0] != "c"[0];
  }

  /** `path(X,Y) :- edge(X,Y).` */
  function EdgeRule(n: Names): Rule {
    Rule(n.rel, [Var(n.x), Var(n.y)], [Pos(n.edge, [Var(n.x), Var(n.y)])])
  }

  /** `path(X,Y) :- path(X,Z), path(Z,Y).` */
  function DoublingRule(n: Names): Rule {
    Rule(n.rel, [Var(n.x), Var(n.y)], [Pos(n.rel, [Var(n.x), Var(n.z)]), Pos(n.rel, [Var(n.z), Var(n.y)])])
  }

  function DoubledPath(n: Names): seq<Rule> { [EdgeRule(n), DoublingRule(n)] }

  function TwoEdges(n: Names): seq<Atom> {
    [Atom(n.edge, [n.a, n.b]), Atom(n.edge, [n.b, n.c])]
  }

  /** `query path("a", Y)` */
  function FromA(n: Names): Query { Query(n.rel, [Const(n.a), Var(n.y)]) }

  lemma PickFirst<T>(args: seq<T>)
    requires args != []
    ensures Pick(args, [0]) == [args[0]]
  {
    var pos: seq<nat> := [0];
    assert pos[..0] == [] && Pick(args, pos[..0]) == [];
  }

  lemma FirstBound(c: Term, v: Term)
    requires c.Const? && v.Var?
    ensures BoundPos([c, v]) == [0]
  {
    var args := [c, v];
    assert args[..1] == [c] && args[..1][..0] == [];
    assert BoundPos(args[..1]) == BoundPos([]) + [0];
  }

  lemma ExampleBound(n: Names)
    ensures BoundPos(FromA(n).args) == [0]
    ensures BoundVals(FromA(n)) == [n.a]
  {
    FirstBound(Const(n.a), Var(n.y));
    PickFirst(FromA(n).args);
    hide Pick, BoundPos;
    assert Pick(FromA(n).args, [0]) == [Const(n.a)];
  }

  function ExampleGuard(n: Names): Cond { Pos(MagicName(n.rel), [Var(n.x)]) }

  /** The propagation rule lacks the call that binds `Z`. */
  function UnboundPropagation(n: Names): Rule {
    Rule(MagicName(n.rel), [Var(n.z)], [ExampleGuard(n)])
  }

  lemma ExampleArgs(n: Names)
    ensures Guard(FromA(n), EdgeRule(n)) == Guard(FromA(n), DoublingRule(n)) == ExampleGuard(n)
    ensures WantedArgs(FromA(n), DoublingRule(n).body[0]) == [Var(n.x)]
    ensures WantedArgs(FromA(n), DoublingRule(n).body[1]) == [Var(n.z)]
  {
    ExampleBound(n);
    PickFirst(EdgeRule(n).headArgs);
    PickFirst(DoublingRule(n).body[0].args);
    PickFirst(DoublingRule(n).body[1].args);
    hide Pick, BoundPos;
  }

  lemma EdgeRewritten(n: Names)
    requires Distinct(n)
    ensures RewriteRule(FromA(n), EdgeRule(n)) == [EdgeRule(n).(body := [ExampleGuard(n)] + EdgeRule(n).body)]
  {
    ExampleArgs(n);
    hide Guard, WantedArgs, Pick, BoundPos;
    assert Propagations(FromA(n), EdgeRule(n), 1) == Propagations(FromA(n), EdgeRule(n), 0) == [];
  }

  /** The second of two recursive calls, the first asking for the caller's own bound values. */
  lemma TwoCallsRewritten(q: Query, r: Rule)
    requires r.head == q.rel && |r.body| == 2 && Recursive(q, r.body[0]) && Recursive(q, r.body[1])
    requires Trivial(q, r, r.body[0]) && !Trivial(q, r, r.body[1])
    ensures NonRecursive(q, r.body[..1]) == []
    ensures RewriteRule(q, r) == [Guarded(q, r), Propagation(q, r, 1)]
  {
    hide Trivial, Guarded, Propagation;
    var first := r.body[..1];
    assert first[..0] == [] && NonRecursive(q, first[..0]) == [];
    assert Propagations(q, r, 0) == [];
    assert Propagations(q, r, 1) == [];
    assert Propagations(q, r, 2) == [Propagation(q, r, 1)];
  }

  lemma DoublingRewritten(n: Names)
    requires Distinct(n)
    ensures RewriteRule(FromA(n), DoublingRule(n)) ==
            [DoublingRule(n).(body := [ExampleGuard(n)] + DoublingRule(n).body), UnboundPropagation(n)]
  {
    ExampleArgs(n);
    hide Guard, WantedArgs, RewriteRule, NonRecursive;
    TwoCallsRewritten(FromA(n), DoublingRule(n));
    assert [ExampleGuard(n)] + [] == [ExampleGuard(n)];
  }

  lemma ExampleRewrites(n: Names)
    ensures Rewrites(FromA(n), DoubledPath(n))
  {
    ExampleBound(n);
    hide BoundPos, BoundVals;
    assert DoubledPath(n)[0] in DoubledPath(n) && DoubledPath(n)[0].head == n.rel;
  }

  lemma ExampleRules(n: Names, p: Rule)
    requires p in MagicRules(FromA(n), DoubledPath(n))
    ensures p in RewriteRule(FromA(n), EdgeRule(n)) || p in RewriteRule(FromA(n), DoublingRule(n))
  {
    ExampleRewrites(n);
    hide Rewrites, RewriteRule, RewriteRules, EdgeRule, DoublingRule;
    RewriteMembers(FromA(n), DoubledPath(n), p);
  }

  /** What the rewritten program can derive: it wants only "a" and the empty value,
      and no path to "c" starts there. */
  ghost predicate Stuck(n: Names, a: Atom) {
    && (a.rel == MagicName(n.rel) ==> a.tuple == [n.a] || a.tuple == [""])
    && (a.rel == n.edge ==> a in TwoEdges(n))
    && (a.rel == n.rel ==> |a.tuple| == 2 && a.tuple[1] != n.c)
  }

  lemma StuckEdge(n: Names, env: Env, before: set<Atom>)
    requires Distinct(n)
    requires Atom(MagicName(n.rel), Vals([Var(n.x)], env)) in before
    requires Atom(n.edge, Vals([Var(n.x), Var(n.y)], env)) in before
    requires forall a :: a in before ==> Stuck(n, a)
    ensures Stuck(n, HeadAtom(EdgeRule(n), env))
  {
    MagicNameFresh(n.rel);
    assert Stuck(n, Atom(MagicName(n.rel), Vals([Var(n.x)], env)));
    assert Vals([Var(n.x)], env)[0] == Vals([Var(n.x), Var(n.y)], env)[0];
  }

  lemma {:induction false} ExampleStuck(n: Names, m: set<Atom>, order: seq<Atom>, i: nat)
    requires Distinct(n)
    requires DerivedBy(MagicFacts(FromA(n), TwoEdges(n), DoubledPath(n)), MagicRules(FromA(n), DoubledPath(n)), m,
                       order)
    requires i < |order|
    ensures Stuck(n, order[i])
    decreases i
  {
    var q, rules := FromA(n), DoubledPath(n);
    var facts', rules' := MagicFacts(q, TwoEdges(n), rules), MagicRules(q, rules);
    var before := Elems(order[..i]);
    assert Justified(order[i], facts', rules', before, m);
    forall j | 0 <= j < i ensures Stuck(n, order[j]) { ExampleStuck(n, m, order, j); }
    hide MagicRules, MagicFacts, Derivation, Stuck, Fires;
    if order[i] in facts' {
      ExampleFacts(n, order[i]);
    } else {
      var p, env :| p in rules' && Fires(p, env, before, m) && order[i] == HeadAtom(p, env);
      ExampleRules(n, p);
      EdgeRewritten(n);
      DoublingRewritten(n);
      hide RewriteRule;
      ExampleStep(n, p, env, before, m);
    }
  }

  lemma ExampleFacts(n: Names, a: Atom)
    requires Distinct(n) && a in MagicFacts(FromA(n), TwoEdges(n), DoubledPath(n))
    ensures Stuck(n, a)
  {
    ExampleBound(n);
    ExampleRewrites(n);
    MagicNameFresh(n.rel);
    hide Rewrites, BoundPos, BoundVals;
  }

  lemma ExampleStep(n: Names, p: Rule, env: Env, before: set<Atom>, m: set<Atom>)
    requires Distinct(n) && Fires(p, env, before, m)
    requires || p == EdgeRule(n).(body := [ExampleGuard(n)] + EdgeRule(n).body)
             || p == DoublingRule(n).(body := [ExampleGuard(n)] + DoublingRule(n).body)
             || p == UnboundPropagation(n)
    requires forall a :: a in before ==> Stuck(n, a)
    ensures Stuck(n, HeadAtom(p, env))
  {
    MagicNameFresh(n.rel);
    var first, last := p.body[0], p.body[|p.body|-1];
    assert first in p.body && Holds(first, env, before, m);
    assert last in p.body && Holds(last, env, before, m);
    if p == EdgeRule(n).(body := [ExampleGuard(n)] + EdgeRule(n).body) {
      StuckEdge(n, env, before);
    } else if p == UnboundPropagation(n) {
      assert n.z !in PosVars(p.body);
      assert Vals(p.headArgs, env) == [""];
    } else {
      assert Stuck(n, Atom(n.rel, Vals(last.args, env)));
      assert Vals(p.headArgs, env)[1] == Vals(last.args, env)[1];
    }
  }

  /** The program has no negation, so both programs have a model. */
  lemma DoubledPathHasModels(n: Names)
    requires Distinct(n)
    ensures Stratifiable(DoubledPath(n)) && Stratifiable(MagicRules(FromA(n), DoubledPath(n)))
  {
    assert ValidStrata(map[], DoubledPath(n));
    MagicNameFresh(n.rel);
    assert Unused(MagicName(n.rel), TwoEdges(n), DoubledPath(n));
    MagicKeepsStratifiable(FromA(n), TwoEdges(n), DoubledPath(n));
  }

  /** Without the binding condition the rewrite loses the answer "c". */
  lemma DoubledPathLosesAnswer(n: Names)
    requires Distinct(n)
    ensures Matches(FromA(n).args, [n.a, n.c])
    ensures Stratifiable(DoubledPath(n)) && Stratifiable(MagicRules(FromA(n), DoubledPath(n)))
    ensures Atom(n.rel, [n.a, n.c]) in Model(TwoEdges(n), DoubledPath(n))
    ensures Atom(n.rel, [n.a, n.c]) !in Model(MagicFacts(FromA(n), TwoEdges(n), DoubledPath(n)),
                                              MagicRules(FromA(n), DoubledPath(n)))
  {
    DoubledPathHasModels(n);
    hide Perfect, MagicFacts, MagicRules, DoubledPath, TwoEdges;
    LosesAnswer(n, Model(TwoEdges(n), DoubledPath(n)),
      Model(MagicFacts(FromA(n), TwoEdges(n), DoubledPath(n)), MagicRules(FromA(n), DoubledPath(n))));
  }

  lemma LosesAnswer(n: Names, m: set<Atom>, m': set<Atom>)
    requires Distinct(n)
    requires Perfect(TwoEdges(n), DoubledPath(n), m)
    requires Perfect(MagicFacts(FromA(n), TwoEdges(n), DoubledPath(n)), MagicRules(FromA(n), DoubledPath(n)), m')
    ensures Matches(FromA(n).args, [n.a, n.c])
    ensures Atom(n.rel, [n.a, n.c]) in m && Atom(n.rel, [n.a, n.c]) !in m'
  {
    hide Closed, DerivedBy, MagicFacts, MagicRules, DoubledPath;
    var order' :| DerivedBy(MagicFacts(FromA(n), TwoEdges(n), DoubledPath(n)), MagicRules(FromA(n), DoubledPath(n)), m',
                            order');
    forall i | 0 <= i < |order'| ensures order'[i] != Atom(n.rel, [n.a, n.c]) {
      ExampleStuck(n, m', order', i);
    }
    DerivedElems(MagicFacts(FromA(n), TwoEdges(n), DoubledPath(n)), MagicRules(FromA(n), DoubledPath(n)), m', order');
    EdgeGivesPath(n, m, n.a, n.b);
    EdgeGivesPath(n, m, n.b, n.c);
    PathsCompose(n, m, n.a, n.b, n.c);
  }

  lemma DerivedElems(facts: seq<Atom>, rules: seq<Rule>, m: set<Atom>, order: seq<Atom>)
    requires DerivedBy(facts, rules, m, order)
    ensures m == Elems(order)
  {}

  lemma DoubledPathUnbound(n: Names)
    requires Distinct(n)
    ensures !CallsBound(FromA(n), DoublingRule(n))
  {
    var q, r := FromA(n), DoublingRule(n);
    ExampleArgs(n);
    hide Guard, WantedArgs;
    TwoCallsRewritten(q, r);
    hide NonRecursive, RewriteRule;
    assert [Guard(q, r)] + NonRecursive(q, r.body[..1]) == [Guard(q, r)];
    assert Var(n.z) in WantedArgs(q, r.body[1]);
    assert n.z in TermVars(WantedArgs(q, r.body[1])) && n.z !in PosVars([Guard(q, r)]);
    assert Recursive(q, r.body[1]);
  }

  lemma EdgeGivesPath(n: Names, m: set<Atom>, x: string, y: string)
    requires Distinct(n) && Closed(TwoEdges(n), DoubledPath(n), m) && Atom(n.edge, [x, y]) in TwoEdges(n)
    ensures Atom(n.rel, [x, y]) in m
  {
    var r := EdgeRule(n);
    var env := map[n.x := x, n.y := y];
    assert Atom(n.edge, [x, y]) in Elems(TwoEdges(n));
    assert PosVars(r.body) ==
        env.Keys by { assert r.body[0] in r.body && Var(n.x) in r.body[0].args && Var(n.y) in r.body[0].args; }
    assert Vals(r.headArgs, env) == [x, y] && Vals(r.body[0].args, env) == [x, y];
    assert DoubledPath(n)[0] == r && Fires(r, env, m, m);
  }

  lemma PathsCompose(n: Names, m: set<Atom>, x: string, z: string, y: string)
    requires Distinct(n) && Closed(TwoEdges(n), DoubledPath(n), m)
    requires Atom(n.rel, [x, z]) in m && Atom(n.rel, [z, y]) in m
    ensures Atom(n.rel, [x, y]) in m
  {
    var r := DoublingRule(n);
    var env := map[n.x := x, n.z := z, n.y := y];
    assert PosVars(r.body) == env.Keys by {
      assert r.body[0] in r.body && r.body[1] in r.body;
      assert Var(n.x) in r.body[0].args && Var(n.z) in r.body[0].args && Var(n.y) in r.body[1].args;
    }
    assert Vals(r.headArgs, env) == [x, y] && Vals(r.body[0].args, env) == [x, z]
        && Vals(r.body[1].args, env) == [z, y];
    assert DoubledPath(n)[1] == r && Fires(r, env, m, m);
  }

  /** The loss on one literal program: `path` over `edge(a,b)`, `edge(b,c)`, asked for `path(a,Y)`. */
  lemma PathQueryLosesAnswer()
    ensures var n := Names("path", "edge", "X", "Y", "Z", "a", "b", "c");
            && Stratifiable(DoubledPath(n)) && Stratifiable(MagicRules(FromA(n), DoubledPath(n)))
            && Atom("path", ["a", "c"]) in Model(TwoEdges(n), DoubledPath(n))
            && Atom("path", ["a", "c"]) !in Model(MagicFacts(FromA(n), TwoEdges(n), DoubledPath(n)),
                                                  MagicRules(FromA(n), DoubledPath(n)))
  {
    hide MagicFacts, MagicRules, DoubledPath, TwoEdges, Distinct;
    PathNamesDistinct();
    DoubledPathLosesAnswer(Names("path", "edge", "X", "Y", "Z", "a", "b", "c"));
  }
}
