/** Canonicalisation of match statements: duplicate check, stable reordering of the arms
    by tag with guarded arms first, and the walk into nested blocks. */
module MatchPass {
  import opened Options

  /** Expressions `E` are opaque; a guard stands for its expression with the arm's bindings.
      A match without a wildcard arm has an empty `wild` block. `Other` is any statement the pass skips. */
  datatype Stmt<E> =
    | Match(target: E, arms: seq<Arm<E>>, wild: seq<Stmt<E>>)
    | If(cond: E, thn: seq<Stmt<E>>, els: seq<Stmt<E>>)
    | Loop(head: E, body: seq<Stmt<E>>)
    | Scope(body: seq<Stmt<E>>)
    | Other(e: E)

  datatype Arm<E> = Arm(tag: nat, guard: Option<E>, body: seq<Stmt<E>>)

  // ---- Order of the arms

  function Rank<E>(a: Arm<E>): nat { 2 * a.tag + (if a.guard.Some? then 0 else 1) }

  /** `x` goes after every arm that does not rank above it. */
  function Insert<E>(x: Arm<E>, s: seq<Arm<E>>): seq<Arm<E>> {
    if s == [] || Rank(s[|s|-1]) <= Rank(x) then s + [x]
    else Insert(x, s[..|s|-1]) + [s[|s|-1]]
  }

  function Sorted<E>(s: seq<Arm<E>>): (r: seq<Arm<E>>)
    ensures |r| == |s|
  {
    if s == [] then [] else
      InsertLength(s[|s|-1], Sorted(s[..|s|-1]));
      Insert(s[|s|-1], Sorted(s[..|s|-1]))
  }

  lemma {:induction false} InsertLength<E>(x: Arm<E>, s: seq<Arm<E>>)
    ensures |Insert(x, s)| == |s| + 1
    decreases |s|
  {
    if s != [] { InsertLength(x, s[..|s|-1]); }
  }

  /** The arms of one rank, in order. */
  function OfRank<E>(s: seq<Arm<E>>, k: nat): seq<Arm<E>> {
    if s == [] then [] else OfRank(s[..|s|-1], k) + (if Rank(s[|s|-1]) == k then [s[|s|-1]] else [])
  }

  predicate Ascending<E>(s: seq<Arm<E>>) {
    forall i, j :: 0 <= i < j < |s| ==> Rank(s[i]) <= Rank(s[j])
  }

  lemma {:induction false} InsertAscending<E>(x: Arm<E>, s: seq<Arm<E>>)
    requires Ascending(s)
    ensures Ascending(Insert(x, s))
    ensures forall a :: a in Insert(x, s) ==> a in s || a == x
    decreases |s|
  {
    if s != [] && Rank(s[|s|-1]) > Rank(x) {
      InsertAscending(x, s[..|s|-1]);
      assert forall a :: a in Insert(x, s[..|s|-1]) ==> Rank(a) <= Rank(s[|s|-1]);
    }
  }

  lemma OfRankSnoc<E>(s: seq<Arm<E>>, x: Arm<E>, k: nat)
    ensures OfRank(s + [x], k) == OfRank(s, k) + (if Rank(x) == k then [x] else [])
  {
    assert (s + [x])[..|s|] == s;
  }

  lemma {:induction false} InsertOfRank<E>(x: Arm<E>, s: seq<Arm<E>>, k: nat)
    ensures OfRank(Insert(x, s), k) == OfRank(s, k) + (if Rank(x) == k then [x] else [])
    decreases |s|
  {
    hide OfRank;
    if s == [] || Rank(s[|s|-1]) <= Rank(x) {
      OfRankSnoc(s, x, k);
    } else {
      var t, last := s[..|s|-1], s[|s|-1];
      InsertOfRank(x, t, k);
      OfRankSnoc(Insert(x, t), last, k);
      OfRankSnoc(t, last, k);
      assert s == t + [last];
      hide Insert;
    }
  }

  /** The reordering is ascending and, rank by rank, keeps exactly the source's arms in the source's order. */
  lemma {:induction false} SortedIsStable<E>(s: seq<Arm<E>>, k: nat)
    ensures Ascending(Sorted(s))
    ensures OfRank(Sorted(s), k) == OfRank(s, k)
  {
    if s != [] {
      SortedIsStable(s[..|s|-1], k);
      InsertAscending(s[|s|-1], Sorted(s[..|s|-1]));
      InsertOfRank(s[|s|-1], Sorted(s[..|s|-1]), k);
    }
  }

  lemma {:induction false} InsertMultiset<E>(x: Arm<E>, s: seq<Arm<E>>)
    ensures multiset(Insert(x, s)) == multiset(s) + multiset{x}
    decreases |s|
  {
    if s != [] && Rank(s[|s|-1]) > Rank(x) {
      InsertMultiset(x, s[..|s|-1]);
      assert s == s[..|s|-1] + [s[|s|-1]];
    }
  }

  lemma {:induction false} SortedIsPermutation<E>(s: seq<Arm<E>>)
    ensures multiset(Sorted(s)) == multiset(s) && Ascending(Sorted(s))
  {
    if s != [] {
      SortedIsPermutation(s[..|s|-1]);
      InsertAscending(s[|s|-1], Sorted(s[..|s|-1]));
      hide Ascending;
      InsertMultiset(s[|s|-1], Sorted(s[..|s|-1]));
      assert s == s[..|s|-1] + [s[|s|-1]];
    }
  }

  /** By tag, and within a tag the guarded arms first. */
  predicate InOrder<E>(a: Arm<E>, b: Arm<E>) {
    a.tag < b.tag || (a.tag == b.tag && (a.guard.Some? || b.guard.None?))
  }

  ghost predicate ArmsInOrder<E>(s: seq<Arm<E>>) {
    forall i, j :: 0 <= i < j < |s| ==> InOrder(s[i], s[j])
  }

  /** The arms of one tag that have a guard, or those that have none, in order. */
  function Only<E>(s: seq<Arm<E>>, tag: nat, guarded: bool): seq<Arm<E>> {
    if s == [] then []
    else if s[0].tag == tag && s[0].guard.Some? == guarded then [s[0]] + Only(s[1..], tag, guarded)
    else Only(s[1..], tag, guarded)
  }

  lemma {:induction false} OnlyIsRank<E>(s: seq<Arm<E>>, tag: nat, guarded: bool)
    ensures Only(s, tag, guarded) == OfRank(s, 2 * tag + if guarded then 0 else 1)
  {
    if s != [] {
      var n, k := |s| - 1, 2 * tag + if guarded then 0 else 1;
      OnlyIsRank(s[1..], tag, guarded);
      OfRankFront(s, k);
      hide OfRank;
    }
  }

  lemma {:induction false} OfRankFront<E>(s: seq<Arm<E>>, k: nat)
    requires s != []
    ensures OfRank(s, k) == (if Rank(s[0]) == k then [s[0]] else []) + OfRank(s[1..], k)
  {
    hide Rank;
    var n := |s| - 1;
    if n > 0 {
      OfRankFront(s[..n], k);
      assert s[..n][1..] == s[1..][..n - 1];
    }
  }

  /** The arms after the reordering: by tag, guarded ones first, and otherwise as they were. */
  lemma SortedByTag<E>(s: seq<Arm<E>>, tag: nat, guarded: bool)
    ensures ArmsInOrder(Sorted(s)) && multiset(Sorted(s)) == multiset(s)
    ensures Only(Sorted(s), tag, guarded) == Only(s, tag, guarded)
  {
    SortedIsPermutation(s);
    SortedIsStable(s, 2 * tag + if guarded then 0 else 1);
    AscendingInOrder(Sorted(s));
    hide Sorted, Ascending, ArmsInOrder, OfRank, Only;
    OnlyIsRank(s, tag, guarded);
    OnlyIsRank(Sorted(s), tag, guarded);
  }

  lemma AscendingInOrder<E>(s: seq<Arm<E>>)
    requires Ascending(s)
    ensures ArmsInOrder(s)
  {
    hide Rank;
    forall i, j | 0 <= i < j < |s| ensures InOrder(s[i], s[j]) {
      RankInOrder(s[i], s[j]);
    }
  }

  lemma RankInOrder<E>(a: Arm<E>, b: Arm<E>)
    ensures Rank(a) <= Rank(b) <==> InOrder(a, b)
  {}

  // ---- Which arm a value selects

  /** How expressions read and change a state `S`; a halted state skips what follows. */
  datatype Sem<!E, !S> = Sem(tag: (E, S) -> nat, holds: (E, S) -> bool, act: (E, S) -> S, halted: S -> bool)

  predicate Takes<E, S>(sem: Sem<E, S>, a: Arm<E>, tag: nat, s: S) {
    a.tag == tag && (a.guard.Some? ==> sem.holds(a.guard.value, s))
  }

  /** The first arm, in order, that takes the value. */
  function Select<E, S>(sem: Sem<E, S>, arms: seq<Arm<E>>, tag: nat, s: S): (r: Option<Arm<E>>)
    ensures r.Some? ==> r.value in arms && Takes(sem, r.value, tag, s)
    ensures r.None? ==> forall a :: a in arms ==> !Takes(sem, a, tag, s)
  {
    if arms == [] then None
    else
      var before := Select(sem, arms[..|arms|-1], tag, s);
      if before.Some? then before
      else if Takes(sem, arms[|arms|-1], tag, s) then Some(arms[|arms|-1]) else None
  }

  function OrElse<T>(a: Option<T>, b: Option<T>): Option<T> { if a.Some? then a else b }

  lemma {:induction false} SelectConcat<E, S>(sem: Sem<E, S>, a: seq<Arm<E>>, b: seq<Arm<E>>, tag: nat, s: S)
    ensures Select(sem, a + b, tag, s) == OrElse(Select(sem, a, tag, s), Select(sem, b, tag, s))
  {
    if b == [] {
      assert a + b == a;
    } else {
      assert (a + b)[..|a + b|-1] == a + b[..|b|-1];
      SelectConcat(sem, a, b[..|b|-1], tag, s);
    }
  }

  lemma SelectOne<E, S>(sem: Sem<E, S>, a: Arm<E>, tag: nat, s: S)
    ensures Select(sem, [a], tag, s) == if Takes(sem, a, tag, s) then Some(a) else None
    ensures Select(sem, [], tag, s) == None
  {
    assert [a][..0] == [];
  }

  lemma SelectSnoc<E, S>(sem: Sem<E, S>, init: seq<Arm<E>>, last: Arm<E>, tag: nat, s: S)
    ensures Select(sem, init + [last], tag, s) ==
            OrElse(Select(sem, init, tag, s), if Takes(sem, last, tag, s) then Some(last) else None)
  {
    SelectConcat(sem, init, [last], tag, s);
    SelectOne(sem, last, tag, s);
  }

  lemma SelectOfRankSnoc<E, S>(sem: Sem<E, S>, init: seq<Arm<E>>, last: Arm<E>, k: nat, tag: nat, s: S)
    ensures Select(sem, OfRank(init + [last], k), tag, s) ==
            OrElse(Select(sem, OfRank(init, k), tag, s), if Rank(last) == k && Takes(sem, last, tag, s) then Some(last)
                   else None)
  {
    assert (init + [last])[..|init|] == init;
    if Rank(last) == k {
      SelectSnoc(sem, OfRank(init, k), last, tag, s);
    } else {
      assert OfRank(init, k) + [] == OfRank(init, k);
    }
  }

  // ---- When reordering keeps the selection

  /** A guarded arm that follows an unguarded arm of its tag repeats a guard tried before that arm. */
  ghost predicate GuardsFirst<E>(arms: seq<Arm<E>>) {
    forall i, j :: 0 <= i < j < |arms| && arms[i].tag == arms[j].tag && arms[i].guard.None? && arms[j].guard.Some? ==>
      exists k :: 0 <= k < i && arms[k].tag == arms[j].tag && arms[k].guard == arms[j].guard
  }

  /** The guarded arms of a tag are tried first, then the unguarded ones. */
  lemma {:induction false} SelectSplit<E, S>(sem: Sem<E, S>, arms: seq<Arm<E>>, tag: nat, s: S)
    requires GuardsFirst(arms)
    ensures Select(sem, arms, tag, s) ==
            OrElse(Select(sem, OfRank(arms, 2 * tag), tag, s), Select(sem, OfRank(arms, 2 * tag + 1), tag, s))
  {
    if arms != [] {
      hide Select, OfRank, GuardsFirst;
      var init, last := arms[..|arms|-1], arms[|arms|-1];
      assert arms == init + [last];
      GuardsFirstInit(arms);
      SelectSplit(sem, init, tag, s);
      if Takes(sem, last, tag, s) && last.guard.Some? && Select(sem, OfRank(init, 2 * tag + 1), tag, s).Some? {
        EarlierGuardHolds(sem, arms, tag, s);
      }
      SplitStep(sem, init, last, tag, s);
    }
  }

  lemma SplitStep<E, S>(sem: Sem<E, S>, init: seq<Arm<E>>, last: Arm<E>, tag: nat, s: S)
    requires var g, u := Select(sem, OfRank(init, 2 * tag), tag, s), Select(sem, OfRank(init, 2 * tag + 1), tag, s);
             && Select(sem, init, tag, s) == OrElse(g, u)
             && (Takes(sem, last, tag, s) && last.guard.Some? && u.Some? ==> g.Some?)
    ensures Select(sem, init + [last], tag, s) ==
            OrElse(Select(sem, OfRank(init + [last], 2 * tag), tag, s),
                   Select(sem, OfRank(init + [last], 2 * tag + 1), tag, s))
  {
    hide Select, OfRank;
    SelectSnoc(sem, init, last, tag, s);
    SelectOfRankSnoc(sem, init, last, 2 * tag, tag, s);
    SelectOfRankSnoc(sem, init, last, 2 * tag + 1, tag, s);
  }

  lemma GuardsFirstInit<E>(arms: seq<Arm<E>>)
    requires arms != [] && GuardsFirst(arms)
    ensures GuardsFirst(arms[..|arms|-1])
  {}

  lemma AscendingGuardsFirst<E>(arms: seq<Arm<E>>)
    requires Ascending(arms)
    ensures GuardsFirst(arms)
  {}

  lemma {:induction false} OfRankMembers<E>(arms: seq<Arm<E>>, k: nat, a: Arm<E>)
    ensures a in OfRank(arms, k) <==> a in arms && Rank(a) == k
  {
    if arms != [] {
      OfRankMembers(arms[..|arms|-1], k, a);
      assert arms == arms[..|arms|-1] + [arms[|arms|-1]];
    }
  }

  lemma EarlierGuardHolds<E, S>(sem: Sem<E, S>, arms: seq<Arm<E>>, tag: nat, s: S)
    requires GuardsFirst(arms) && arms != []
    requires Takes(sem, arms[|arms|-1], tag, s) && arms[|arms|-1].guard.Some?
    requires Select(sem, OfRank(arms[..|arms|-1], 2 * tag + 1), tag, s).Some?
    ensures Select(sem, OfRank(arms[..|arms|-1], 2 * tag), tag, s).Some?
  {
    var n := |arms| - 1;
    var u := Select(sem, OfRank(arms[..n], 2 * tag + 1), tag, s).value;
    OfRankMembers(arms[..n], 2 * tag + 1, u);
    var i :| 0 <= i < n && arms[i] == u;
    var k :| 0 <= k < i && arms[k].tag == arms[n].tag && arms[k].guard == arms[n].guard;
    OfRankMembers(arms[..n], 2 * tag, arms[k]);
    assert arms[k] in arms[..n] && Takes(sem, arms[k], tag, s);
  }

  lemma SelectSorted<E, S>(sem: Sem<E, S>, arms: seq<Arm<E>>, tag: nat, s: S)
    requires GuardsFirst(arms)
    ensures Select(sem, Sorted(arms), tag, s) == Select(sem, arms, tag, s)
  {
    SortedIsStable(arms, 2 * tag);
    SortedIsStable(arms, 2 * tag + 1);
    AscendingGuardsFirst(Sorted(arms));
    SelectSplit(sem, Sorted(arms), tag, s);
    SelectSplit(sem, arms, tag, s);
  }

  /** Reordering keeps the selected arm for every value under every meaning of the guards
      exactly when guards come first. */
  lemma ReorderingKeepsSelection<E(!new), S(!new)>(arms: seq<Arm<E>>, any: S)
    ensures GuardsFirst(arms) <==>
            forall sem: Sem<E, S>, tag, s :: Select(sem, Sorted(arms), tag, s) == Select(sem, arms, tag, s)
  {
    hide Select, Sorted;
    if GuardsFirst(arms) {
      hide GuardsFirst;
      forall sem: Sem<E, S>, tag, s ensures Select(sem, Sorted(arms), tag, s) == Select(sem, arms, tag, s) {
        SelectSorted(sem, arms, tag, s);
      }
    } else {
      var i, j :| 0 <= i < j < |arms| && arms[i].tag == arms[j].tag && arms[i].guard.None? && arms[j].guard.Some?
                  && forall k :: 0 <= k < i && arms[k].tag == arms[j].tag ==> arms[k].guard != arms[j].guard;
      var g := arms[j].guard.value;
      var sem: Sem<E, S> := Sem((e, s) => 0, (e, s) => e == g, (e, s) => s, s => false);
      SelectionChanges(arms, i, j, sem, any);
    }
  }

  lemma SelectionChanges<E(!new), S>(arms: seq<Arm<E>>, i: nat, j: nat, sem: Sem<E, S>, s: S)
    requires i < j < |arms| && arms[i].tag == arms[j].tag && arms[i].guard.None? && arms[j].guard.Some?
    requires forall k :: 0 <= k < i && arms[k].tag == arms[j].tag ==> arms[k].guard != arms[j].guard
    requires forall e :: e != arms[j].guard.value ==> !sem.holds(e, s)
    requires sem.holds(arms[j].guard.value, s)
    ensures Select(sem, Sorted(arms), arms[i].tag, s) != Select(sem, arms, arms[i].tag, s)
  {
    hide Sorted, GuardsFirst, OfRank, Ascending;
    var tag := arms[i].tag;
    SortedIsStable(arms, 2 * tag);
    AscendingGuardsFirst(Sorted(arms));
    SelectSplit(sem, Sorted(arms), tag, s);
    OfRankMembers(arms, 2 * tag, arms[j]);
    var after := Select(sem, OfRank(arms, 2 * tag), tag, s);
    assert Takes(sem, arms[j], tag, s) && after.Some?;
    OfRankMembers(arms, 2 * tag, after.value);
    assert after.value.guard.Some?;
    assert arms == arms[..i+1] + arms[i+1..];
    SelectConcat(sem, arms[..i+1], arms[i+1..], tag, s);
    var before := Select(sem, arms[..i+1], tag, s);
    assert arms[i] in arms[..i+1] && Takes(sem, arms[i], tag, s) && before.Some?;
    var k :| 0 <= k <= i && arms[k] == before.value;
    assert before.value.guard.None?;
  }

  // ---- The duplicate check and the reordering in place

  ghost predicate TwoUnguarded<E>(arms: seq<Arm<E>>) {
    exists i, j :: 0 <= i < j < |arms| && arms[i].guard.None? && arms[j].guard.None? && arms[i].tag == arms[j].tag
  }

  method HasDuplicate<E>(arms: array<Arm<E>>) returns (dup: bool)
    ensures dup <==> TwoUnguarded(arms[..])
  {
    var seen: set<nat>, i := {}, 0;
    while i < arms.Length
      invariant 0 <= i <= arms.Length
      invariant forall t :: t in seen <==> exists k :: 0 <= k < i && arms[k].guard.None? && arms[k].tag == t
      invariant forall j, k :: 0 <= j < k < i && arms[j].guard.None? && arms[k].guard.None? ==>
              arms[j].tag != arms[k].tag
    {
      if arms[i].guard.None? {
        if arms[i].tag in seen { return true; }
        seen := seen + {arms[i].tag};
      }
      i := i + 1;
    }
    return false;
  }

  lemma {:induction false} InsertAt<E>(x: Arm<E>, s: seq<Arm<E>>, k: nat)
    requires k <= |s|
    requires forall i :: k <= i < |s| ==> Rank(s[i]) > Rank(x)
    requires k > 0 ==> Rank(s[k-1]) <= Rank(x)
    ensures Insert(x, s) == s[..k] + [x] + s[k..]
    decreases |s|
  {
    if |s| == k {
      assert s[..k] == s && s[k..] == [];
    } else {
      var t, last := s[..|s|-1], s[|s|-1];
      InsertAt(x, t, k);
      assert Insert(x, s) == Insert(x, t) + [last];
      hide Insert, Rank;
      SplitLast(s, k, x);
    }
  }

  lemma SplitLast<T>(s: seq<T>, k: nat, x: T)
    requires k < |s|
    ensures var t := s[..|s|-1]; t[..k] + [x] + t[k..] + [s[|s|-1]] == s[..k] + [x] + s[k..]
  {
    var t := s[..|s|-1];
    assert t[..k] == s[..k] && t[k..] + [s[|s|-1]] == s[k..];
  }

  /** Arm `n` is moved down into the sorted arms before it. */
  method InsertInPlace<E>(a: array<Arm<E>>, n: nat)
    requires n < a.Length
    modifies a
    ensures a[..n+1] == Insert(old(a[n]), old(a[..n]))
    ensures a[n+1..] == old(a[n+1..])
  {
    hide Insert, Rank;
    ghost var s := a[..n];
    var x, k := a[n], n;
    while k > 0 && Rank(a[k-1]) > Rank(x)
      invariant 0 <= k <= n
      invariant a[..k] == s[..k]
      invariant forall i :: k <= i < n ==> a[i+1] == s[i] && Rank(s[i]) > Rank(x)
      invariant a[n+1..] == old(a[n+1..])
    {
      a[k] := a[k-1];
      k := k - 1;
    }
    InsertAt(x, s, k);
    a[k] := x;
    assert a[..n+1] == s[..k] + [x] + s[k..];
  }

  lemma SortedSnoc<E>(s: seq<Arm<E>>, n: nat)
    requires n < |s|
    ensures Sorted(s[..n+1]) == Insert(s[n], Sorted(s[..n]))
  {
    assert s[..n+1][..n] == s[..n] && s[..n+1][n] == s[n];
  }

  method SortInPlace<E>(a: array<Arm<E>>)
    modifies a
    ensures a[..] == Sorted(old(a[..]))
  {
    var n := 0;
    while n < a.Length
      invariant 0 <= n <= a.Length
      invariant a[..n] == Sorted(old(a[..n]))
      invariant a[n..] == old(a[n..])
    {
      ghost var src := old(a[..]);
      assert a[n] == a[n..][0] == src[n];
      SortedSnoc(src, n);
      hide Sorted, Insert;
      InsertInPlace(a, n);
      assert old(a[..n+1]) == src[..n+1] && old(a[..n]) == src[..n];
      assert a[n+1..] == old(a[n..])[1..] == old(a[n+1..]);
      n := n + 1;
    }
    assert old(a[..]) == old(a[..n]) && a[..] == a[..n];
  }

  /** One match statement: refused, and then untouched, exactly when two unguarded arms share a tag. */
  method CanonicalizeArms<E>(a: array<Arm<E>>) returns (ok: bool)
    modifies a
    ensures ok <==> !TwoUnguarded(old(a[..]))
    ensures a[..] == if ok then Sorted(old(a[..])) else old(a[..])
  {
    var dup := HasDuplicate(a);
    if dup { return false; }
    SortInPlace(a);
    return true;
  }

  // ---- The walk over nested blocks

  lemma {:induction false} InsertMembers<E>(x: Arm<E>, s: seq<Arm<E>>, a: Arm<E>)
    ensures a in Insert(x, s) <==> a in s || a == x
    decreases |s|
  {
    if s != [] && Rank(s[|s|-1]) > Rank(x) {
      InsertMembers(x, s[..|s|-1], a);
      assert s == s[..|s|-1] + [s[|s|-1]];
    }
  }

  lemma {:induction false} SortedMembers<E>(s: seq<Arm<E>>, a: Arm<E>)
    ensures a in Sorted(s) <==> a in s
  {
    if s != [] {
      SortedMembers(s[..|s|-1], a);
      InsertMembers(s[|s|-1], Sorted(s[..|s|-1]), a);
      assert s == s[..|s|-1] + [s[|s|-1]];
    }
  }

  ghost function BlockSize<E>(b: seq<Stmt<E>>): nat {
    if b == [] then 0 else StmtSize(b[0]) + BlockSize(b[1..])
  }

  ghost function StmtSize<E>(st: Stmt<E>): nat {
    match st
    case Match(_, arms, wild) => 1 + ArmsSize(arms) + BlockSize(wild)
    case If(_, thn, els) => 1 + BlockSize(thn) + BlockSize(els)
    case Loop(_, body) => 1 + BlockSize(body)
    case Scope(body) => 1 + BlockSize(body)
    case Other(_) => 1
  }

  ghost function ArmsSize<E>(arms: seq<Arm<E>>): nat {
    if arms == [] then 0 else BlockSize(arms[0].body) + ArmsSize(arms[1..])
  }

  ghost predicate Below<E>(arms: seq<Arm<E>>, bound: nat) {
    forall a :: a in arms ==> BlockSize(a.body) < bound
  }

  lemma {:induction false} ArmsBelow<E>(arms: seq<Arm<E>>, bound: nat)
    requires ArmsSize(arms) < bound
    ensures Below(arms, bound)
  {
    if arms != [] {
      ArmsBelow(arms[1..], bound);
      assert arms == [arms[0]] + arms[1..];
    }
  }

  lemma SortedBelow<E>(arms: seq<Arm<E>>, bound: nat)
    requires ArmsSize(arms) < bound
    ensures Below(Sorted(arms), bound)
  {
    ArmsBelow(arms, bound);
    forall a | a in Sorted(arms) ensures a in arms { SortedMembers(arms, a); }
  }

  ghost function PassBlock<E>(b: seq<Stmt<E>>): (r: Option<seq<Stmt<E>>>)
    decreases BlockSize(b), 3
  {
    if b == [] then Some([])
    else
      var first, rest := PassStmt(b[0]), PassBlock(b[1..]);
      if first.Some? && rest.Some? then Some([first.value] + rest.value) else None
  }

  ghost function PassStmt<E>(st: Stmt<E>): (r: Option<Stmt<E>>)
    decreases StmtSize(st), 2
  {
    match st
    case Match(target, arms, wild) =>
      if TwoUnguarded(arms) then None else
        SortedBelow(arms, StmtSize(st));
        var arms', wild' := PassArms(Sorted(arms), StmtSize(st)), PassBlock(wild);
        if arms'.Some? && wild'.Some? then Some(Match(target, arms'.value, wild'.value)) else None
    case If(cond, thn, els) =>
      var t, e := PassBlock(thn), PassBlock(els);
      if t.Some? && e.Some? then Some(If(cond, t.value, e.value)) else None
    case Loop(head, body) =>
      var b := PassBlock(body);
      if b.Some? then Some(Loop(head, b.value)) else None
    case Scope(body) =>
      var b := PassBlock(body);
      if b.Some? then Some(Scope(b.value)) else None
    case Other(_) => Some(st)
  }

  ghost function PassArms<E>(arms: seq<Arm<E>>, bound: nat): (r: Option<seq<Arm<E>>>)
    requires Below(arms, bound)
    decreases bound, 1, |arms|
  {
    if arms == [] then Some([])
    else
      var n := |arms| - 1;
      assert arms[n] in arms && Below(arms[..n], bound);
      var rest, body := PassArms(arms[..n], bound), PassBlock(arms[n].body);
      if rest.Some? && body.Some? then Some(rest.value + [arms[n].(body := body.value)]) else None
  }

  // ---- Which programs the pass refuses

  /** The match statements the pass visits. */
  ghost function VisitedBlock<E>(b: seq<Stmt<E>>): set<Stmt<E>>
    decreases BlockSize(b), 3
  {
    if b == [] then {} else VisitedStmt(b[0]) + VisitedBlock(b[1..])
  }

  ghost function VisitedStmt<E>(st: Stmt<E>): set<Stmt<E>>
    decreases StmtSize(st), 2
  {
    match st
    case Match(_, arms, wild) => {st} + (ArmsBelow(arms, StmtSize(st)); VisitedArms(arms,
        StmtSize(st))) + VisitedBlock(wild)
    case If(_, thn, els) => VisitedBlock(thn) + VisitedBlock(els)
    case Loop(_, body) => VisitedBlock(body)
    case Scope(body) => VisitedBlock(body)
    case Other(_) => {}
  }

  ghost function VisitedArms<E>(arms: seq<Arm<E>>, bound: nat): set<Stmt<E>>
    requires Below(arms, bound)
    decreases bound, 1, |arms|
  {
    if arms == [] then {}
    else
      var n := |arms| - 1;
      assert arms[n] in arms && Below(arms[..n], bound);
      VisitedArms(arms[..n], bound) + VisitedBlock(arms[n].body)
  }

  /** The blocks directly within a statement. */
  function Blocks<E>(st: Stmt<E>): seq<seq<Stmt<E>>> {
    match st
    case Match(_, arms, wild) => Bodies(arms) + [wild]
    case If(_, thn, els) => [thn, els]
    case Loop(_, body) => [body]
    case Scope(body) => [body]
    case Other(_) => []
  }

  function Bodies<E>(arms: seq<Arm<E>>): seq<seq<Stmt<E>>> {
    seq(|arms|, i requires 0 <= i < |arms| => arms[i].body)
  }

  /** A match statement somewhere within the block, however deep. */
  ghost predicate Within<E>(m: Stmt<E>, b: seq<Stmt<E>>, depth: nat) {
    exists k :: 0 <= k < |b| && ((m == b[k] && m.Match?) || DeepWithin(m, b[k], depth))
  }

  ghost predicate DeepWithin<E>(m: Stmt<E>, st: Stmt<E>, depth: nat) {
    depth > 0 && exists i :: 0 <= i < |Blocks(st)| && Within(m, Blocks(st)[i], depth - 1)
  }

  lemma {:induction false} InVisitedArms<E>(arms: seq<Arm<E>>, bound: nat, m: Stmt<E>)
    requires Below(arms, bound)
    ensures m in VisitedArms(arms, bound) <==> exists i :: 0 <= i < |arms| && m in VisitedBlock(arms[i].body)
    decreases |arms|
  {
    hide VisitedBlock;
    if arms != [] {
      var n := |arms| - 1;
      assert arms[n] in arms && Below(arms[..n], bound);
      InVisitedArms(arms[..n], bound, m);
    }
  }

  lemma {:induction false} InVisitedBlock<E>(b: seq<Stmt<E>>, m: Stmt<E>)
    ensures m in VisitedBlock(b) <==> exists k :: 0 <= k < |b| && m in VisitedStmt(b[k])
    decreases |b|
  {
    hide VisitedStmt;
    if b != [] {
      InVisitedBlock(b[1..], m);
      if k :| 0 <= k < |b| && m in VisitedStmt(b[k]) {
        assert k > 0 ==> b[1..][k - 1] == b[k];
      }
    }
  }

  /** The matches visited in a statement: itself, and those of the blocks within it. */
  lemma InVisitedStmt<E>(st: Stmt<E>, m: Stmt<E>)
    ensures m in VisitedStmt(st) <==>
            (m == st && m.Match?) || exists i :: 0 <= i < |Blocks(st)| && m in VisitedBlock(Blocks(st)[i])
  {
    var bs := Blocks(st);
    hide VisitedBlock;
    match st
    case Match(_, arms, wild) =>
      ArmsBelow(arms, StmtSize(st));
      InVisitedArms(arms, StmtSize(st), m);
      assert bs[|arms|] == wild && forall i :: 0 <= i < |arms| ==> bs[i] == arms[i].body;
      hide VisitedArms;
    case If(_, thn, els) => assert bs[0] == thn && bs[1] == els;
    case Loop(_, body) => assert bs[0] == body;
    case Scope(body) => assert bs[0] == body;
    case Other(_) =>
  }

  /** The pass visits every match statement of the block, at any depth. */
  lemma {:induction false} VisitsAll<E>(b: seq<Stmt<E>>, m: Stmt<E>, depth: nat)
    requires Within(m, b, depth)
    ensures m in VisitedBlock(b)
    decreases depth
  {
    var k :| 0 <= k < |b| && ((m == b[k] && m.Match?) || DeepWithin(m, b[k], depth));
    InVisitedBlock(b, m);
    InVisitedStmt(b[k], m);
    if !(m == b[k] && m.Match?) {
      var i :| 0 <= i < |Blocks(b[k])| && Within(m, Blocks(b[k])[i], depth - 1);
      VisitsAll(Blocks(b[k])[i], m, depth - 1);
    }
    hide Within, DeepWithin, VisitedBlock, VisitedStmt;
  }

  lemma {:induction false} PassOrders<E>(b: seq<Stmt<E>>)
    requires PassBlock(b).Some?
    ensures forall m :: m in VisitedBlock(PassBlock(b).value) ==> m.Match? && ArmsInOrder(m.arms)
    decreases BlockSize(b), 3
  {
    if b != [] {
      var c := PassBlock(b).value;
      assert c == [PassStmt(b[0]).value] + PassBlock(b[1..]).value;
      PassStmtOrders(b[0]);
      PassOrders(b[1..]);
      hide PassStmt, VisitedStmt, ArmsInOrder;
    }
  }

  lemma {:induction false} PassStmtOrders<E>(st: Stmt<E>)
    requires PassStmt(st).Some?
    ensures forall m :: m in VisitedStmt(PassStmt(st).value) ==> m.Match? && ArmsInOrder(m.arms)
    decreases StmtSize(st), 2
  {
    hide ArmsInOrder;
    match st
    case Match(_, _, _) =>
      forall m | m in VisitedStmt(PassStmt(st).value) ensures m.Match? && ArmsInOrder(m.arms) {
        PassMatchOrders(st, m);
      }
      hide VisitedStmt;
    case If(_, thn, els) =>
      PassOrders(thn);
      PassOrders(els);
    case Loop(_, body) => PassOrders(body);
    case Scope(body) => PassOrders(body);
    case Other(_) =>
  }

  /** The parts of a match after the pass. */
  lemma PassMatch<E>(st: Stmt<E>)
    requires st.Match? && PassStmt(st).Some?
    ensures var s, out := Sorted(st.arms), PassStmt(st).value;
            && out.Match? && PassBlock(st.wild) == Some(out.wild) && |out.arms| == |s|
            && forall i :: 0 <= i < |s| ==>
                 && BlockSize(s[i].body) < StmtSize(st)
                 && PassBlock(s[i].body).Some? && out.arms[i] == s[i].(body := PassBlock(s[i].body).value)
  {
    hide PassBlock, PassArms, Sorted, StmtSize, BlockSize, TwoUnguarded;
    var bound := StmtSize(st);
    MatchSize(st);
    SortedBelow(st.arms, bound);
    PassArmsKeep(Sorted(st.arms), bound);
    forall i | 0 <= i < |Sorted(st.arms)| ensures BlockSize(Sorted(st.arms)[i].body) < bound {
      BelowArm(Sorted(st.arms), bound, Sorted(st.arms)[i]);
    }
  }

  lemma MatchSize<E>(st: Stmt<E>)
    requires st.Match?
    ensures ArmsSize(st.arms) < StmtSize(st) && BlockSize(st.wild) < StmtSize(st)
  {}

  lemma {:induction false} PassMatchOrders<E>(st: Stmt<E>, m: Stmt<E>)
    requires st.Match? && PassStmt(st).Some? && m in VisitedStmt(PassStmt(st).value)
    ensures m.Match? && ArmsInOrder(m.arms)
    decreases StmtSize(st), 1
  {
    var s, out := Sorted(st.arms), PassStmt(st).value;
    PassMatch(st);
    MatchSize(st);
    InVisitedStmt(out, m);
    hide PassStmt, VisitedStmt, VisitedBlock, PassBlock, Sorted, StmtSize, BlockSize;
    if m == out {
      SortedByTag(st.arms, 0, true);
      SameOrder(s, m.arms);
    } else {
      var i :| 0 <= i < |Blocks(out)| && m in VisitedBlock(Blocks(out)[i]);
      if i < |s| { PassOrders(s[i].body); } else { PassOrders(st.wild); }
      hide ArmsInOrder;
    }
  }

  lemma SameOrder<E>(s: seq<Arm<E>>, t: seq<Arm<E>>)
    requires ArmsInOrder(s) && |t| == |s| && forall i :: 0 <= i < |s| ==> t[i] == s[i].(body := t[i].body)
    ensures ArmsInOrder(t)
  {
    forall i, j | 0 <= i < j < |t| ensures InOrder(t[i], t[j]) {
      assert InOrder(s[i], s[j]);
    }
  }

  lemma {:induction false} PassArmsKeep<E>(arms: seq<Arm<E>>, bound: nat)
    requires Below(arms, bound) && PassArms(arms, bound).Some?
    ensures var out := PassArms(arms, bound).value;
            && |out| == |arms|
            && forall i :: 0 <= i < |arms| ==>
                 PassBlock(arms[i].body).Some? && out[i] == arms[i].(body := PassBlock(arms[i].body).value)
    decreases |arms|
  {
    hide PassBlock;
    if arms != [] {
      var n := |arms| - 1;
      assert arms[n] in arms && Below(arms[..n], bound);
      PassArmsKeep(arms[..n], bound);
    }
  }

  /** After the pass every match statement, at any depth, has its arms by tag and guarded ones first. */
  lemma EveryMatchInOrder<E>(b: seq<Stmt<E>>, m: Stmt<E>, depth: nat)
    requires PassBlock(b).Some? && Within(m, PassBlock(b).value, depth)
    ensures m.Match? && ArmsInOrder(m.arms)
  {
    PassOrders(b);
    VisitsAll(PassBlock(b).value, m, depth);
  }

  ghost predicate AnyDuplicate<E>(ms: set<Stmt<E>>) {
    exists m :: m in ms && m.Match? && TwoUnguarded(m.arms)
  }

  lemma BlocksSmaller<E>(st: Stmt<E>, i: nat)
    requires i < |Blocks(st)|
    ensures BlockSize(Blocks(st)[i]) < StmtSize(st)
  {
    if st.Match? {
      ArmsBelow(st.arms, StmtSize(st));
      if i < |st.arms| { BelowArm(st.arms, StmtSize(st), st.arms[i]); }
    }
  }

  lemma {:induction false} ItemSmaller<E>(b: seq<Stmt<E>>, k: nat)
    requires k < |b|
    ensures StmtSize(b[k]) <= BlockSize(b)
  {
    if k > 0 { ItemSmaller(b[1..], k - 1); }
  }

  /** ... and nothing else. */
  lemma {:induction false} VisitsOnly<E>(b: seq<Stmt<E>>, m: Stmt<E>) returns (depth: nat)
    requires m in VisitedBlock(b)
    ensures Within(m, b, depth)
    decreases BlockSize(b)
  {
    InVisitedBlock(b, m);
    var k :| 0 <= k < |b| && m in VisitedStmt(b[k]);
    ItemSmaller(b, k);
    InVisitedStmt(b[k], m);
    hide VisitedBlock, VisitedStmt, Within;
    if m == b[k] && m.Match? {
      depth := 0;
    } else {
      var i :| 0 <= i < |Blocks(b[k])| && m in VisitedBlock(Blocks(b[k])[i]);
      BlocksSmaller(b[k], i);
      var d := VisitsOnly(Blocks(b[k])[i], m);
      depth := d + 1;
      assert DeepWithin(m, b[k], depth);
    }
    IsWithin(m, b, k, depth);
  }

  lemma IsWithin<E>(m: Stmt<E>, b: seq<Stmt<E>>, k: nat, depth: nat)
    requires k < |b| && ((m == b[k] && m.Match?) || DeepWithin(m, b[k], depth))
    ensures Within(m, b, depth)
  {}

  lemma {:induction false} PassArmsRefuses<E>(arms: seq<Arm<E>>, bound: nat)
    requires Below(arms, bound)
    ensures PassArms(arms, bound).None? <==> exists a :: a in arms && PassBlock(a.body).None?
    decreases |arms|
  {
    if arms != [] {
      var n := |arms| - 1;
      assert arms[n] in arms && Below(arms[..n], bound);
      PassArmsRefuses(arms[..n], bound);
      assert arms == arms[..n] + [arms[n]];
    }
  }

  lemma {:induction false} VisitedArmsRefuses<E>(arms: seq<Arm<E>>, bound: nat)
    requires Below(arms, bound)
    ensures AnyDuplicate(VisitedArms(arms, bound)) <==> exists a :: a in arms && AnyDuplicate(VisitedBlock(a.body))
    decreases |arms|
  {
    if arms != [] {
      var n := |arms| - 1;
      assert arms[n] in arms && Below(arms[..n], bound);
      VisitedArmsRefuses(arms[..n], bound);
      assert arms == arms[..n] + [arms[n]];
    }
  }

  /** The pass refuses a block exactly when it visits a match with two unguarded arms of one tag. */
  lemma {:induction false} PassRefuses<E>(b: seq<Stmt<E>>)
    ensures PassBlock(b).None? <==> AnyDuplicate(VisitedBlock(b))
    decreases BlockSize(b), 3
  {
    if b != [] {
      PassStmtRefuses(b[0]);
      PassRefuses(b[1..]);
      hide PassStmt, VisitedStmt;
    }
  }

  /** So a block is refused exactly when some match statement in it, at whatever depth, has two
      unguarded arms of one tag. */
  lemma RefusesDuplicates<E>(b: seq<Stmt<E>>)
    ensures PassBlock(b).None? <==> exists m, depth :: Within(m, b, depth) && TwoUnguarded(MatchArms(m))
  {
    PassRefuses(b);
    if PassBlock(b).None? {
      var m :| m in VisitedBlock(b) && m.Match? && TwoUnguarded(m.arms);
      var depth := VisitsOnly(b, m);
      assert Within(m, b, depth) && TwoUnguarded(MatchArms(m));
    }
    if m, depth :| Within(m, b, depth) && TwoUnguarded(MatchArms(m)) {
      VisitsAll(b, m, depth);
    }
  }

  function MatchArms<E>(st: Stmt<E>): seq<Arm<E>> { if st.Match? then st.arms else [] }

  lemma DuplicateUnion<E>(a: set<Stmt<E>>, b: set<Stmt<E>>)
    ensures AnyDuplicate(a + b) <==> AnyDuplicate(a) || AnyDuplicate(b)
  {}

  lemma DuplicateHere<E>(st: Stmt<E>)
    requires st.Match?
    ensures AnyDuplicate({st}) <==> TwoUnguarded(st.arms)
  {
    assert st in {st};
  }

  lemma {:induction false} ArmsRefuse<E>(arms: seq<Arm<E>>, bound: nat)
    requires Below(arms, bound) && Below(Sorted(arms), bound)
    requires forall a :: a in arms ==> (PassBlock(a.body).None? <==> AnyDuplicate(VisitedBlock(a.body)))
    ensures PassArms(Sorted(arms), bound).None? <==> AnyDuplicate(VisitedArms(arms, bound))
  {
    hide PassBlock, VisitedBlock, AnyDuplicate, Sorted, PassArms, VisitedArms;
    PassArmsRefuses(Sorted(arms), bound);
    VisitedArmsRefuses(arms, bound);
    forall a ensures a in Sorted(arms) <==> a in arms { SortedMembers(arms, a); }
    if PassArms(Sorted(arms), bound).None? {
      var a :| a in Sorted(arms) && PassBlock(a.body).None?;
      assert a in arms && AnyDuplicate(VisitedBlock(a.body));
    }
    if AnyDuplicate(VisitedArms(arms, bound)) {
      var a :| a in arms && AnyDuplicate(VisitedBlock(a.body));
      assert a in Sorted(arms) && PassBlock(a.body).None?;
    }
  }

  lemma {:induction false} PassStmtRefuses<E>(st: Stmt<E>)
    ensures PassStmt(st).None? <==> AnyDuplicate(VisitedStmt(st))
    decreases StmtSize(st), 2
  {
    hide PassBlock, PassArms, VisitedBlock, VisitedArms, TwoUnguarded, Sorted, AnyDuplicate, Below;
    match st
    case Match(_, arms, wild) =>
      var bound := StmtSize(st);
      ArmsBelow(arms, bound);
      SortedBelow(arms, bound);
      forall a | a in arms ensures PassBlock(a.body).None? <==> AnyDuplicate(VisitedBlock(a.body)) {
        BelowArm(arms, bound, a);
        PassRefuses(a.body);
      }
      PassRefuses(wild);
      ArmsRefuse(arms, bound);
      DuplicateHere(st);
      DuplicateUnion({st}, VisitedArms(arms, bound));
      DuplicateUnion({st} + VisitedArms(arms, bound), VisitedBlock(wild));
    case If(_, thn, els) =>
      PassRefuses(thn);
      PassRefuses(els);
      DuplicateUnion(VisitedBlock(thn), VisitedBlock(els));
    case Loop(_, body) => PassRefuses(body);
    case Scope(body) => PassRefuses(body);
    case Other(_) => NoDuplicate<E>();
  }

  lemma BelowArm<E>(arms: seq<Arm<E>>, bound: nat, a: Arm<E>)
    requires Below(arms, bound) && a in arms
    ensures BlockSize(a.body) < bound
  {}

  lemma NoDuplicate<E>()
    ensures !AnyDuplicate<E>({})
  {}

  // ---- The pass keeps what a block does

  /** Big steps with fuel for loop iterations; `None` is out of fuel. */
  ghost function Exec<E, S>(sem: Sem<E, S>, b: seq<Stmt<E>>, s: S, fuel: nat): Option<S>
    decreases fuel, BlockSize(b), 3
  {
    if b == [] || sem.halted(s) then Some(s)
    else
      var next := ExecStmt(sem, b[0], s, fuel);
      if next.None? then None else Exec(sem, b[1..], next.value, fuel)
  }

  ghost function ExecStmt<E, S>(sem: Sem<E, S>, st: Stmt<E>, s: S, fuel: nat): Option<S>
    decreases fuel, StmtSize(st), 2
  {
    match st
    case Match(target, arms, wild) =>
      var arm := Select(sem, arms, sem.tag(target, s), s);
      ArmsBelow(arms, StmtSize(st));
      if arm.Some? then Exec(sem, arm.value.body, s, fuel) else Exec(sem, wild, s, fuel)
    case If(cond, thn, els) => if sem.holds(cond, s) then Exec(sem, thn, s, fuel) else Exec(sem, els, s, fuel)
    case Loop(head, body) =>
      var s1 := sem.act(head, s);
      if !sem.holds(head, s1) then Some(s1)
      else if fuel == 0 then None
      else
        var s2 := Exec(sem, body, s1, fuel - 1);
        if s2.None? then None else ExecStmt(sem, st, s2.value, fuel - 1)
    case Scope(body) => Exec(sem, body, s, fuel)
    case Other(e) => Some(sem.act(e, s))
  }

  ghost predicate Ordered<E>(ms: set<Stmt<E>>) {
    forall m :: m in ms && m.Match? ==> GuardsFirst(m.arms)
  }

  /** Passing the arm bodies does not change which arm is selected. */
  lemma {:induction false} SelectPassArms<E, S>(sem: Sem<E, S>, arms: seq<Arm<E>>, bound: nat, tag: nat, s: S)
    requires Below(arms, bound) && PassArms(arms, bound).Some?
    ensures var r, r' := Select(sem, arms, tag, s), Select(sem, PassArms(arms, bound).value, tag, s);
            && (r.None? <==> r'.None?)
            && (r.Some? ==>
                  PassBlock(r.value.body).Some?
                  && r'.value == r.value.(body := PassBlock(r.value.body).value))
    decreases |arms|
  {
    if arms != [] {
      var n := |arms| - 1;
      assert arms[n] in arms && Below(arms[..n], bound);
      SelectPassArms(sem, arms[..n], bound, tag, s);
      var rest := PassArms(arms[..n], bound).value;
      SelectSnoc(sem, arms[..n], arms[n], tag, s);
      SelectSnoc(sem, rest, arms[n].(body := PassBlock(arms[n].body).value), tag, s);
      assert arms == arms[..n] + [arms[n]];
      hide Select, PassBlock;
    }
  }

  /** If guards come first in every visited match, the canonical block does what the block did. */
  lemma {:induction false} PassPreserves<E, S>(sem: Sem<E, S>, b: seq<Stmt<E>>, s: S, fuel: nat)
    requires PassBlock(b).Some? && Ordered(VisitedBlock(b))
    ensures Exec(sem, PassBlock(b).value, s, fuel) == Exec(sem, b, s, fuel)
    decreases fuel, BlockSize(b), 3
  {
    if b != [] {
      var b' := PassBlock(b).value;
      assert b'[0] == PassStmt(b[0]).value && b'[1..] == PassBlock(b[1..]).value;
      PassStmtPreserves(sem, b[0], s, fuel);
      var next := ExecStmt(sem, b[0], s, fuel);
      hide ExecStmt, PassStmt, VisitedStmt;
      if next.Some? { PassPreserves(sem, b[1..], next.value, fuel); }
    }
  }

  lemma {:induction false} PassStmtPreserves<E, S>(sem: Sem<E, S>, st: Stmt<E>, s: S, fuel: nat)
    requires PassStmt(st).Some? && Ordered(VisitedStmt(st))
    ensures ExecStmt(sem, PassStmt(st).value, s, fuel) == ExecStmt(sem, st, s, fuel)
    decreases fuel, StmtSize(st), 2
  {
    match st
    case Match(target, arms, wild) =>
      var tag := sem.tag(target, s);
      var bound := StmtSize(st);
      ArmsBelow(arms, bound);
      SortedBelow(arms, bound);
      assert st in VisitedStmt(st) && GuardsFirst(arms);
      SelectSorted(sem, arms, tag, s);
      SelectPassArms(sem, Sorted(arms), bound, tag, s);
      var arm := Select(sem, arms, tag, s);
      if arm.Some? {
        VisitedArm(arms, bound, arm.value);
        hide PassBlock, Exec;
        PassPreserves(sem, arm.value.body, s, fuel);
      } else {
        hide PassBlock, Exec;
        PassPreserves(sem, wild, s, fuel);
      }
    case If(cond, thn, els) =>
      PassPreserves(sem, thn, s, fuel);
      PassPreserves(sem, els, s, fuel);
    case Loop(head, body) =>
      var s1 := sem.act(head, s);
      if sem.holds(head, s1) && fuel > 0 {
        PassPreserves(sem, body, s1, fuel - 1);
        var s2 := Exec(sem, body, s1, fuel - 1);
        if s2.Some? { PassStmtPreserves(sem, st, s2.value, fuel - 1); }
      }
    case Scope(body) => PassPreserves(sem, body, s, fuel);
    case Other(_) =>
  }

  lemma {:induction false} VisitedArm<E>(arms: seq<Arm<E>>, bound: nat, a: Arm<E>)
    requires Below(arms, bound) && a in arms
    ensures VisitedBlock(a.body) <= VisitedArms(arms, bound)
    decreases |arms|
  {
    var n := |arms| - 1;
    assert arms[n] in arms && Below(arms[..n], bound);
    if a in arms[..n] { VisitedArm(arms[..n], bound, a); }
    assert arms == arms[..n] + [arms[n]];
  }
}
