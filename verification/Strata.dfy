/** Stratum assignment: rounds of in-place updates over the rules, cut off after
    |rules|^2 + 10 rounds, then a closing check of the negated conditions. */
module DatalogStrata {
  import opened Datalog

  datatype Result = Assigned(strata: Strata) | NegativeCycle(rel: string)

  // ---- The update as a function

  function Max(a: nat, b: nat): nat { if b > a then b else a }

  /** What the positive conditions ask of the head, starting from `s`. */
  function PosNeed(strata: Strata, body: seq<Cond>, s: nat): nat {
    if body == [] then s else
      var rest := PosNeed(strata, body[..|body|-1], s);
      var c := body[|body|-1];
      if c.Pos? then Max(rest, Level(strata, c.rel)) else rest
  }

  /** What the negated conditions ask of the head, starting from `s`. */
  function NegNeed(strata: Strata, body: seq<Cond>, s: nat): nat {
    if body == [] then s else
      var rest := NegNeed(strata, body[..|body|-1], s);
      var c := body[|body|-1];
      if c.Neg? then Max(rest, Level(strata, c.rel) + 1) else rest
  }

  function Required(strata: Strata, r: Rule): nat {
    NegNeed(strata, r.body, PosNeed(strata, r.body, Level(strata, r.head)))
  }

  function StepRule(strata: Strata, r: Rule): Strata {
    var s := Required(strata, r);
    if s != Level(strata, r.head) then strata[r.head := s] else strata
  }

  function Round(strata: Strata, rules: seq<Rule>): Strata {
    if rules == [] then strata
    else StepRule(Round(strata, rules[..|rules|-1]), rules[|rules|-1])
  }

  function Iterate(strata: Strata, rules: seq<Rule>, n: nat): Strata {
    if n == 0 then strata else Round(Iterate(strata, rules, n - 1), rules)
  }

  function Initial(facts: seq<Atom>): Strata {
    map f | f in facts :: f.rel := 0
  }

  function MaxRounds(rules: seq<Rule>): nat { |rules| * |rules| + 10 }

  function Final(facts: seq<Atom>, rules: seq<Rule>): Strata {
    Iterate(Initial(facts), rules, MaxRounds(rules))
  }

  ghost predicate AtMost(a: Strata, b: Strata) {
    forall rel :: Level(a, rel) <= Level(b, rel)
  }

  // ---- One rule

  lemma {:induction false} PosNeedBounds(strata: Strata, body: seq<Cond>, s: nat, top: nat)
    ensures s <= PosNeed(strata, body, s)
    ensures forall c :: c in body && c.Pos? ==> Level(strata, c.rel) <= PosNeed(strata, body, s)
    ensures s <= top && (forall c :: c in body && c.Pos? ==> Level(strata, c.rel) <= top)
            ==> PosNeed(strata, body, s) <= top
  {
    if body != [] {
      PosNeedBounds(strata, body[..|body|-1], s, top);
      assert body == body[..|body|-1] + [body[|body|-1]];
    }
  }

  lemma {:induction false} NegNeedBounds(strata: Strata, body: seq<Cond>, s: nat, top: nat)
    ensures s <= NegNeed(strata, body, s)
    ensures forall c :: c in body && c.Neg? ==> Level(strata, c.rel) < NegNeed(strata, body, s)
    ensures s <= top && (forall c :: c in body && c.Neg? ==> Level(strata, c.rel) < top)
            ==> NegNeed(strata, body, s) <= top
  {
    if body != [] {
      NegNeedBounds(strata, body[..|body|-1], s, top);
      assert body == body[..|body|-1] + [body[|body|-1]];
    }
  }

  lemma StepRuleGrows(strata: Strata, r: Rule)
    ensures AtMost(strata, StepRule(strata, r))
    ensures StepRule(strata, r) != strata ==> Level(strata, r.head) < Level(StepRule(strata, r), r.head)
    ensures StepRule(strata, r) == strata ==> forall c :: c in r.body ==> CondBelow(strata, r.head, c)
  {
    var s := PosNeed(strata, r.body, Level(strata, r.head));
    PosNeedBounds(strata, r.body, Level(strata, r.head), 0);
    NegNeedBounds(strata, r.body, s, 0);
  }

  lemma StepRuleBelow(strata: Strata, r: Rule, top: Strata)
    requires AtMost(strata, top)
    requires forall c :: c in r.body ==> CondBelow(top, r.head, c)
    ensures AtMost(StepRule(strata, r), top)
  {
    var s := PosNeed(strata, r.body, Level(strata, r.head));
    assert forall c :: c in r.body ==> CondBelow(top, r.head, c);
    PosNeedBounds(strata, r.body, Level(strata, r.head), Level(top, r.head));
    NegNeedBounds(strata, r.body, s, Level(top, r.head));
  }

  // ---- One round

  ghost function Sum(strata: Strata, rules: seq<Rule>): nat {
    if rules == [] then 0 else Sum(strata, rules[..|rules|-1]) + Level(strata, rules[|rules|-1].head)
  }

  lemma {:induction false} SumMonotone(a: Strata, b: Strata, rules: seq<Rule>)
    requires AtMost(a, b)
    ensures Sum(a, rules) <= Sum(b, rules)
    ensures (exists r :: r in rules && Level(a, r.head) < Level(b, r.head)) ==> Sum(a, rules) < Sum(b, rules)
  {
    if rules != [] {
      SumMonotone(a, b, rules[..|rules|-1]);
      assert rules == rules[..|rules|-1] + [rules[|rules|-1]];
    }
  }

  lemma {:induction false} SumBounded(a: Strata, rules: seq<Rule>, bound: nat)
    requires forall rel :: Level(a, rel) <= bound
    ensures Sum(a, rules) <= |rules| * bound
  {
    if rules != [] {
      SumBounded(a, rules[..|rules|-1], bound);
      assert |rules| * bound == (|rules| - 1) * bound + bound;
    }
  }

  /** A round only raises levels; if it changes anything it raises some head,
      and if it changes nothing every constraint already holds. */
  lemma {:induction false} RoundGrows(strata: Strata, rules: seq<Rule>)
    ensures AtMost(strata, Round(strata, rules))
    ensures Round(strata, rules) != strata
            ==> exists r :: r in rules && Level(strata, r.head) < Level(Round(strata, rules), r.head)
    ensures Round(strata, rules) == strata ==> ValidStrata(strata, rules)
  {
    if rules != [] {
      var init, last := rules[..|rules|-1], rules[|rules|-1];
      assert rules == init + [last];
      RoundGrows(strata, init);
      var mid := Round(strata, init);
      StepRuleGrows(mid, last);
      var after := StepRule(mid, last);
      if mid != strata {
        var r :| r in init && Level(strata, r.head) < Level(mid, r.head);
        assert Level(strata, r.head) < Level(after, r.head);
        assert r in rules;
      } else if after != mid {
        assert last in rules;
      }
    }
  }

  lemma {:induction false} RoundBelow(strata: Strata, rules: seq<Rule>, all: seq<Rule>, top: Strata)
    requires forall r :: r in rules ==> r in all
    requires AtMost(strata, top) && ValidStrata(top, all)
    ensures AtMost(Round(strata, rules), top)
  {
    if rules != [] {
      RoundBelow(strata, rules[..|rules|-1], all, top);
      StepRuleBelow(Round(strata, rules[..|rules|-1]), rules[|rules|-1], top);
    }
  }

  // ---- All rounds

  lemma {:induction false} IterateBelow(strata: Strata, rules: seq<Rule>, n: nat, top: Strata)
    requires AtMost(strata, top) && ValidStrata(top, rules)
    ensures AtMost(Iterate(strata, rules, n), top)
  {
    if n > 0 {
      IterateBelow(strata, rules, n - 1, top);
      RoundBelow(Iterate(strata, rules, n - 1), rules, rules, top);
    }
  }

  /** Either some round among the first `n` changed nothing, or the levels sum to at least `n`. */
  lemma {:induction false} Progress(strata: Strata, rules: seq<Rule>, n: nat)
    ensures Sum(Iterate(strata, rules, n), rules) >= n || StableBy(strata, rules, n)
  {
    if n > 0 && !StableBy(strata, rules, n) {
      assert !StableBy(strata, rules, n - 1);
      Progress(strata, rules, n - 1);
      var before := Iterate(strata, rules, n - 1);
      assert Stable(strata, rules, n - 1) <==> Round(before, rules) == before;
      RoundGrows(before, rules);
      SumMonotone(before, Round(before, rules), rules);
    }
  }

  /** The round after `k` rounds leaves `changed` false. */
  ghost predicate Stable(strata: Strata, rules: seq<Rule>, k: nat) {
    Round(Iterate(strata, rules, k), rules) == Iterate(strata, rules, k)
  }

  ghost predicate StableBy(strata: Strata, rules: seq<Rule>, n: nat) {
    exists k: nat :: k < n && Stable(strata, rules, k)
  }

  lemma {:induction false} StaysStable(strata: Strata, rules: seq<Rule>, k: nat, n: nat)
    requires k <= n && Stable(strata, rules, k)
    ensures Iterate(strata, rules, n) == Iterate(strata, rules, k)
  {
    if k < n { StaysStable(strata, rules, k, n - 1); }
  }

  // ---- A valid assignment can be compressed to levels at most |rules|

  ghost function HeadLevels(strata: Strata, rules: seq<Rule>, bound: nat): set<nat> {
    set r | r in rules && Level(strata, r.head) <= bound :: Level(strata, r.head)
  }

  lemma {:induction false} HeadLevelsSize(strata: Strata, rules: seq<Rule>, bound: nat)
    ensures |HeadLevels(strata, rules, bound)| <= |rules|
  {
    if rules == [] {
      assert HeadLevels(strata, rules, bound) == {};
    } else {
      var init, last := rules[..|rules|-1], rules[|rules|-1];
      assert rules == init + [last];
      HeadLevelsSize(strata, init, bound);
      assert HeadLevels(strata, rules, bound) <= HeadLevels(strata, init, bound) + {Level(strata, last.head)};
      SubsetSize(HeadLevels(strata, rules, bound), HeadLevels(strata, init, bound) + {Level(strata, last.head)});
    }
  }

  lemma {:induction false} SubsetSize(a: set<nat>, b: set<nat>)
    requires a <= b
    ensures |a| <= |b|
    ensures a != b ==> |a| < |b|
  {
    assert b == a + (b - a);
  }

  function Mentioned(rules: seq<Rule>): set<string> {
    (set r | r in rules :: r.head) + (set r, c | r in rules && c in r.body && !c.Neq? :: c.rel)
  }

  lemma Compress(strata: Strata, rules: seq<Rule>) returns (small: Strata)
    requires ValidStrata(strata, rules)
    ensures ValidStrata(small, rules)
    ensures forall rel :: Level(small, rel) <= |rules|
  {
    small := map rel | rel in Mentioned(rules) :: |HeadLevels(strata, rules, Level(strata, rel))|;
    forall rel ensures Level(small, rel) <= |rules| {
      HeadLevelsSize(strata, rules, Level(strata, rel));
    }
    forall r, c | r in rules && c in r.body ensures CondBelow(small, r.head, c) {
      assert CondBelow(strata, r.head, c);
      if !c.Neq? {
        var lo, hi := HeadLevels(strata, rules, Level(strata, c.rel)), HeadLevels(strata, rules, Level(strata, r.head));
        assert r.head in Mentioned(rules) && c.rel in Mentioned(rules);
        assert Level(strata, r.head) in hi;
        SubsetSize(lo, hi);
      }
    }
  }

  // ---- The theorem

  /** Some round leaves `changed` false exactly when the rules can be stratified;
      it then happens within the bound, and what is left is the least valid assignment. */
  lemma StrataTheorem(facts: seq<Atom>, rules: seq<Rule>)
    ensures (exists k :: Stable(Initial(facts), rules, k)) <==> Stratifiable(rules)
    ensures Stratifiable(rules) ==> StableBy(Initial(facts), rules, MaxRounds(rules))
    ensures Stratifiable(rules) <==> ValidStrata(Final(facts, rules), rules)
    ensures forall top :: ValidStrata(top, rules) ==> AtMost(Final(facts, rules), top)
  {
    var start := Initial(facts);
    if exists k :: Stable(start, rules, k) {
      var k :| Stable(start, rules, k);
      RoundGrows(Iterate(start, rules, k), rules);
    }
    forall top | ValidStrata(top, rules) ensures AtMost(Final(facts, rules), top) {
      IterateBelow(start, rules, MaxRounds(rules), top);
    }
    if Stratifiable(rules) {
      var any :| ValidStrata(any, rules);
      var small := Compress(any, rules);
      var n := MaxRounds(rules);
      IterateBelow(start, rules, n, small);
      SumBounded(Final(facts, rules), rules, |rules|);
      Progress(start, rules, n);
      var k: nat :| k < n && Stable(start, rules, k);
      StaysStable(start, rules, k, n);
      RoundGrows(Iterate(start, rules, k), rules);
    }
  }

  // ---- The code

  /** The stratum a rule asks for, by two passes over its body. */
  method RequiredLevel(strata: Strata, r: Rule) returns (s: nat)
    ensures s == Required(strata, r)
  {
    s := Level(strata, r.head);
    var i := 0;
    while i < |r.body|
      invariant 0 <= i <= |r.body|
      invariant s == PosNeed(strata, r.body[..i], Level(strata, r.head))
    {
      assert r.body[..i+1][..i] == r.body[..i];
      var c := r.body[i];
      if c.Pos? && Level(strata, c.rel) > s { s := Level(strata, c.rel); }
      i := i + 1;
    }
    assert r.body[..|r.body|] == r.body;
    ghost var base := s;
    i := 0;
    while i < |r.body|
      invariant 0 <= i <= |r.body|
      invariant s == NegNeed(strata, r.body[..i], base)
    {
      assert r.body[..i+1][..i] == r.body[..i];
      var c := r.body[i];
      if c.Neg? && Level(strata, c.rel) + 1 > s { s := Level(strata, c.rel) + 1; }
      i := i + 1;
    }
  }

  method RunRound(strata: Strata, rules: seq<Rule>) returns (after: Strata, changed: bool)
    ensures after == Round(strata, rules)
    ensures changed <==> after != strata
  {
    after, changed := strata, false;
    var i := 0;
    while i < |rules|
      invariant 0 <= i <= |rules|
      invariant after == Round(strata, rules[..i])
      invariant changed <==> after != strata
    {
      assert rules[..i+1][..i] == rules[..i];
      RoundGrows(strata, rules[..i]);
      StepRuleGrows(after, rules[i]);
      var s := RequiredLevel(after, rules[i]);
      if s != Level(after, rules[i].head) {
        ghost var before := after;
        after := after[rules[i].head := s];
        changed := true;
        assert Level(strata, rules[i].head) <= Level(before, rules[i].head) < Level(after, rules[i].head);
      }
      i := i + 1;
    }
    assert rules[..|rules|] == rules;
  }

  /** The closing check: some negated condition is not strictly below its head. */
  predicate Rejected(strata: Strata, rules: seq<Rule>) {
    exists r, c :: r in rules && c in r.body && c.Neg? && Level(strata, c.rel) >= Level(strata, r.head)
  }

  // ---- What the order of the rules decides about the closing check

  /** A round raises levels from the `k`-th rule on, and leaves alone what no later rule derives. */
  lemma {:induction false} RoundTail(strata: Strata, rules: seq<Rule>, k: nat, rel: string)
    requires k <= |rules|
    ensures Level(Round(strata, rules[..k]), rel) <= Level(Round(strata, rules), rel)
    ensures (forall j :: k <= j < |rules| ==> rules[j].head != rel)
            ==> Level(Round(strata, rules[..k]), rel) == Level(Round(strata, rules), rel)
    decreases |rules|
  {
    if k < |rules| {
      var init, last := rules[..|rules|-1], rules[|rules|-1];
      assert init[..k] == rules[..k];
      RoundTail(strata, init, k, rel);
      StepRuleGrows(Round(strata, init), last);
    } else {
      assert rules[..k] == rules;
    }
  }

  /** Right after a rule has been visited its head is at or above what its body asks. */
  lemma AfterRule(strata: Strata, rules: seq<Rule>, i: nat, c: Cond)
    requires i < |rules| && c in rules[i].body
    ensures var before, after := Round(strata, rules[..i]), Round(strata, rules[..i+1]);
            && (c.Pos? ==> Level(before, c.rel) <= Level(after, rules[i].head))
            && (c.Neg? ==> Level(before, c.rel) < Level(after, rules[i].head))
  {
    assert rules[..i+1][..i] == rules[..i];
    var before, r := Round(strata, rules[..i]), rules[i];
    var s := PosNeed(before, r.body, Level(before, r.head));
    PosNeedBounds(before, r.body, Level(before, r.head), 0);
    NegNeedBounds(before, r.body, s, 0);
  }

  /** No rule from a negated condition's own rule on derives the negated relation. */
  predicate NegationsSettled(rules: seq<Rule>) {
    forall i, c, j :: 0 <= i <= j < |rules| && c in rules[i].body && c.Neg? ==> rules[j].head != c.rel
  }

  /** Such a program passes the closing check, whether it can be stratified or not. */
  lemma SettledPasses(facts: seq<Atom>, rules: seq<Rule>)
    requires NegationsSettled(rules)
    ensures !Rejected(Final(facts, rules), rules)
  {
    hide Round, Iterate;
    var last := Iterate(Initial(facts), rules, MaxRounds(rules) - 1);
    FinalIsRound(facts, rules);
    forall r, c | r in rules && c in r.body && c.Neg?
      ensures Level(Round(last, rules), c.rel) < Level(Round(last, rules), r.head)
    {
      var i :| 0 <= i < |rules| && rules[i] == r;
      AfterRule(last, rules, i, c);
      RoundTail(last, rules, i, c.rel);
      RoundTail(last, rules, i + 1, r.head);
    }
  }

  lemma FinalIsRound(facts: seq<Atom>, rules: seq<Rule>)
    ensures Final(facts, rules) == Round(Iterate(Initial(facts), rules, MaxRounds(rules) - 1), rules)
  {}

  /** Rules with increasing indices, from `k` on, pass a level from `a` on to `b`. */
  predicate Passes(rules: seq<Rule>, k: nat, a: string, b: string)
    requires k <= |rules|
    decreases |rules| - k
  {
    a == b || exists j :: k <= j < |rules| && Reads(rules[j], a) && Passes(rules, j + 1, rules[j].head, b)
  }

  predicate Reads(r: Rule, rel: string) { exists c :: c in r.body && !c.Neq? && c.rel == rel }

  lemma {:induction false} PassesLevel(strata: Strata, rules: seq<Rule>, k: nat, a: string, b: string)
    requires k <= |rules| && Passes(rules, k, a, b)
    ensures Level(Round(strata, rules[..k]), a) <= Level(Round(strata, rules), b)
    decreases |rules| - k
  {
    hide Round;
    if a == b {
      RoundTail(strata, rules, k, a);
    } else {
      var j :| k <= j < |rules| && Reads(rules[j], a) && Passes(rules, j + 1, rules[j].head, b);
      var c :| c in rules[j].body && !c.Neq? && c.rel == a;
      assert rules[..j][..k] == rules[..k];
      RoundTail(strata, rules[..j], k, a);
      AfterRule(strata, rules, j, c);
      PassesLevel(strata, rules, j + 1, rules[j].head, b);
    }
  }

  /** Some rule's head, once no later rule derives it, reaches a relation the rule negates. */
  predicate CycleShows(rules: seq<Rule>) {
    exists i, from, c :: 0 <= i < |rules| && 0 <= from <= |rules| && c in rules[i].body && ShowsAt(rules, i, c, from)
  }

  predicate ShowsAt(rules: seq<Rule>, i: nat, c: Cond, from: nat)
    requires i < |rules| && from <= |rules|
  {
    && c.Neg?
    && (forall j :: from <= j < |rules| ==> rules[j].head != rules[i].head)
    && Passes(rules, from, rules[i].head, c.rel)
  }

  /** Such a program is refused. */
  lemma ShownCycleRejected(facts: seq<Atom>, rules: seq<Rule>)
    requires CycleShows(rules)
    ensures Rejected(Final(facts, rules), rules)
  {
    hide Round, Iterate, Passes;
    var last := Iterate(Initial(facts), rules, MaxRounds(rules) - 1);
    FinalIsRound(facts, rules);
    var i, from, c :| 0 <= i < |rules| && 0 <= from <= |rules| && c in rules[i].body && ShowsAt(rules, i, c, from);
    RoundTail(last, rules, from, rules[i].head);
    PassesLevel(last, rules, from, rules[i].head, c.rel);
    assert rules[i] in rules;
  }

  /** The closing loops: the first negated condition that is not strictly below its head. */
  method ClosingCheck(strata: Strata, rules: seq<Rule>) returns (r: Result)
    ensures r.NegativeCycle? <==> Rejected(strata, rules)
    ensures r.Assigned? ==> r.strata == strata
    ensures r.NegativeCycle? ==> exists q, c :: q in rules && c in q.body && c.Neg? && c.rel == r.rel
  {
    var i := 0;
    while i < |rules|
      invariant 0 <= i <= |rules|
      invariant forall k, c :: 0 <= k < i && c in rules[k].body && c.Neg? ==>
                                 Level(strata, c.rel) < Level(strata, rules[k].head)
    {
      var j := 0;
      while j < |rules[i].body|
        invariant 0 <= j <= |rules[i].body|
        invariant forall k :: 0 <= k < j && rules[i].body[k].Neg? ==>
                                Level(strata, rules[i].body[k].rel) < Level(strata, rules[i].head)
      {
        var c := rules[i].body[j];
        if c.Neg? && Level(strata, c.rel) >= Level(strata, rules[i].head) {
          assert rules[i] in rules && c in rules[i].body;
          return NegativeCycle(c.rel);
        }
        j := j + 1;
      }
      i := i + 1;
    }
    r := Assigned(strata);
  }

  /** A program that can be stratified gets its least stratification. A program that cannot is refused
      or let through by the order of its rules. */
  method ComputeStrata(facts: seq<Atom>, rules: seq<Rule>) returns (r: Result)
    ensures r.Assigned? <==> !Rejected(Final(facts, rules), rules)
    ensures r.Assigned? ==> r.strata == Final(facts, rules)
    ensures Stratifiable(rules) ==> r.Assigned? && ValidStrata(r.strata, rules)
    ensures r.Assigned? ==> forall top :: ValidStrata(top, rules) ==> AtMost(r.strata, top)
    ensures NegationsSettled(rules) ==> r.Assigned?
    ensures CycleShows(rules) ==> r.NegativeCycle?
    ensures r.NegativeCycle? ==> exists q, c :: q in rules && c in q.body && c.Neg? && c.rel == r.rel
  {
    var strata := Initial(facts);
    var maxIter := |rules| * |rules| + 10;
    var iter, changed := 0, true;
    while iter < maxIter && changed
      invariant 0 <= iter <= maxIter == MaxRounds(rules)
      invariant strata == Iterate(Initial(facts), rules, iter)
      invariant !changed ==> iter > 0 && Stable(Initial(facts), rules, iter - 1)
    {
      strata, changed := RunRound(strata, rules);
      iter := iter + 1;
    }
    if !changed { StaysStable(Initial(facts), rules, iter - 1, maxIter); }
    assert strata == Final(facts, rules);
    StrataTheorem(facts, rules);
    if NegationsSettled(rules) { SettledPasses(facts, rules); }
    if CycleShows(rules) { ShownCycleRejected(facts, rules); }
    hide NegationsSettled, CycleShows;

    r := ClosingCheck(strata, rules);
  }

  // ---- A negative cycle that the closing check lets through

  /** `q :- p.  p :- not q.` */
  function HiddenCycle(): seq<Rule> {
    [Rule("q", [], [Pos("p", [])]), Rule("p", [], [Neg("q", [])])]
  }

  /** The rules have no stratification, yet the levels reached after the last round pass the check:
      nothing derives `q` from its negation on. */
  lemma HiddenCycleAccepted(facts: seq<Atom>)
    ensures !Stratifiable(HiddenCycle())
    ensures !Rejected(Final(facts, HiddenCycle()), HiddenCycle())
  {
    var rules := HiddenCycle();
    forall s: Strata ensures !ValidStrata(s, rules) {
      assert rules[0] in rules && rules[0].body[0] in rules[0].body;
      assert rules[1] in rules && rules[1].body[0] in rules[1].body;
      assert !CondBelow(s, "q", rules[0].body[0]) || !CondBelow(s, "p", rules[1].body[0]);
    }
    assert NegationsSettled(rules) by { assert "p"[0] != "q"[0]; }
    SettledPasses(facts, rules);
  }

  /** The same two rules in the other order are refused. */
  lemma TurnedCycleRejected(facts: seq<Atom>)
    ensures var rules := [HiddenCycle()[1], HiddenCycle()[0]]; Rejected(Final(facts, rules), rules)
  {
    var rules := [HiddenCycle()[1], HiddenCycle()[0]];
    var c := Neg("q", []);
    assert "p"[0] != "q"[0];
    assert rules[1].body[0] in rules[1].body && Reads(rules[1], "p");
    assert Passes(rules, 2, "q", "q") && Passes(rules, 1, "p", "q");
    assert rules[0].body[0] == c && ShowsAt(rules, 0, c, 1);
    ShownCycleRejected(facts, rules);
  }
}
