/**
 * Group-by queries (internal/clower/lower.go, lowerGroupByQueryExpr):
 * `from x in src [where c] group by key into g select s` becomes a loop that
 * files every item under its key in a map, and a loop over the sorted keys.
 */
module GroupBy {
  import opened Options
  import IR
  import KeyOrder
  import opened QueryIR
  import opened Query
  import opened QueryCorrect
  import opened QueryIndex
  import opened QueryTheorem

  datatype GroupQuery = GroupQuery(x: string, src: Expr, where_: Option<Expr>, key: Expr, keyType: IR.Type,
                                   group: string, select: Expr)

  predicate UserGroupQuery(g: GroupQuery) {
    && UserExpr(g.src) && UserExpr(g.key) && UserExpr(g.select)
    && (g.where_.Some? ==> UserExpr(g.where_.value))
  }

  // --- What the query means ---

  datatype Keyed = Keyed(k: IR.Value, d: Datum)

  // The items that pass `where`, with their keys, in source order.
  ghost function Picked(calls: Calls, home: Env, g: GroupQuery, items: seq<Datum>): (r: Option<seq<Keyed>>) {
    if items == [] then Some([])
    else
      var first := PickOne(calls, home, g, items[0]);
      var rest := Picked(calls, home, g, items[1..]);
      if first.None? || rest.None? then None else Some(first.value + rest.value)
  }

  ghost function PickOne(calls: Calls, home: Env, g: GroupQuery, d: Datum): (r: Option<seq<Keyed>>)
    ensures r.Some? ==> |r.value| <= 1
  {
    var env := [map[User(g.x) := Plain(d)]] + home;
    var ok := Passes(calls, env, g.where_);
    if ok.None? then None
    else if !ok.value then Some([])
    else
      var k := KeyOf(Eval(calls, env, g.key), g.keyType);
      if k.None? then None else Some([Keyed(k.value, d)])
  }

  // The members of one group, in source order.
  function GroupOf(ps: seq<Keyed>, k: IR.Value): (r: seq<Datum>) {
    if ps == [] then [] else (if ps[0].k == k then [ps[0].d] else []) + GroupOf(ps[1..], k)
  }

  function KeySet(ps: seq<Keyed>): (ks: set<IR.Value>) { set p | p in ps :: p.k }

  // The selected value of each group, for the given keys.
  ghost function GroupRows(calls: Calls, home: Env, g: GroupQuery, ps: seq<Keyed>,
                           ks: seq<IR.Value>): (r: Option<seq<Datum>>) {
    if ks == [] then Some([])
    else
      var v := Eval(calls, [map[User(g.group) := Plain(ListD(GroupOf(ps, ks[0])))]] + home, g.select);
      var rest := GroupRows(calls, home, g, ps, ks[1..]);
      if v.None? || rest.None? then None else Some([v.value] + rest.value)
  }

  ghost function Grouped(calls: Calls, home: Env, g: GroupQuery): (r: Option<seq<Datum>>) {
    var items := ItemsOf(Eval(calls, home, g.src));
    if items.None? then None
    else
      var ps := Picked(calls, home, g, items.value);
      if ps.None? then None else GroupRows(calls, home, g, ps.value, KeyOrder.Ascending(KeySet(ps.value)))
  }

  // --- Groups partition the picked items ---

  function Data(ps: seq<Keyed>): (ds: multiset<Datum>) {
    if ps == [] then multiset{} else multiset{ps[0].d} + Data(ps[1..])
  }

  ghost function AllGroups(ps: seq<Keyed>, ks: seq<IR.Value>): (ds: multiset<Datum>) {
    if ks == [] then multiset{} else multiset(GroupOf(ps, ks[0])) + AllGroups(ps, ks[1..])
  }

  lemma {:induction false} AllGroupsStep(ps: seq<Keyed>, ks: seq<IR.Value>)
    requires ps != [] && forall i, j :: 0 <= i < j < |ks| ==> ks[i] != ks[j]
    ensures AllGroups(ps, ks) == (if ps[0].k in ks then multiset{ps[0].d} else multiset{}) + AllGroups(ps[1..], ks)
  {
    hide GroupOf;
    if ks != [] {
      AllGroupsStep(ps, ks[1..]);
      GroupStep(ps, ks[0]);
      assert ks == [ks[0]] + ks[1..];
    }
  }

  lemma GroupStep(ps: seq<Keyed>, k: IR.Value)
    requires ps != []
    ensures multiset(GroupOf(ps, k)) ==
            (if ps[0].k == k then multiset{ps[0].d} else multiset{}) + multiset(GroupOf(ps[1..], k))
  {
    var rest := GroupOf(ps[1..], k);
    if ps[0].k == k {
      assert multiset([ps[0].d] + rest) == multiset{ps[0].d} + multiset(rest);
    } else {
      assert [] + rest == rest;
    }
  }

  // Over any distinct keys that cover them, the groups hold every picked item
  // exactly once.
  lemma {:induction false} GroupsPartition(ps: seq<Keyed>, ks: seq<IR.Value>)
    requires forall i, j :: 0 <= i < j < |ks| ==> ks[i] != ks[j]
    requires forall p :: p in ps ==> p.k in ks
    ensures AllGroups(ps, ks) == Data(ps)
  {
    if ps == [] {
      NoGroups(ks);
    } else {
      AllGroupsStep(ps, ks);
      GroupsPartition(ps[1..], ks);
    }
  }

  lemma {:induction false} NoGroups(ks: seq<IR.Value>)
    ensures AllGroups([], ks) == multiset{}
  {
    if ks != [] {
      NoGroups(ks[1..]);
    }
  }

  // A group keeps source order: it is the picked sequence with the other keys
  // left out.  Two members stand in the order of their positions.
  lemma {:induction false} GroupAppend(ps: seq<Keyed>, qs: seq<Keyed>, k: IR.Value)
    ensures GroupOf(ps + qs, k) == GroupOf(ps, k) + GroupOf(qs, k)
  {
    if ps == [] {
      assert [] + qs == qs && [] + GroupOf(qs, k) == GroupOf(qs, k);
    } else {
      assert (ps + qs)[1..] == ps[1..] + qs;
      GroupAppend(ps[1..], qs, k);
      var first: seq<Datum> := if ps[0].k == k then [ps[0].d] else [];
      assert GroupOf(ps + qs, k) == first + GroupOf(ps[1..] + qs, k);
      hide GroupOf;
      assert first + (GroupOf(ps[1..], k) + GroupOf(qs, k)) == (first + GroupOf(ps[1..], k)) + GroupOf(qs, k);
    }
  }

  // The keys of the result: every key of a picked item, once, ascending; and
  // no group is empty.
  lemma GroupKeysAscend(ps: seq<Keyed>)
    ensures var ks := KeyOrder.Ascending(KeySet(ps));
            && KeyOrder.ValueSorted(ks)
            && (forall k :: k in ks <==> GroupOf(ps, k) != [])
            && AllGroups(ps, ks) == Data(ps)
  {
    var ks := KeyOrder.Ascending(KeySet(ps));
    KeyOrder.AscendingKeys(KeySet(ps));
    assert forall i, j :: 0 <= i < j < |ks| ==> ks[i] != ks[j];
    hide KeyOrder.Ascending, KeyOrder.ValueSorted;
    forall k ensures k in ks <==> GroupOf(ps, k) != [] {
      GroupNonEmpty(ps, k);
    }
    GroupsPartition(ps, ks);
  }

  lemma {:induction false} GroupNonEmpty(ps: seq<Keyed>, k: IR.Value)
    ensures k in KeySet(ps) <==> GroupOf(ps, k) != []
  {
    if ps != [] {
      GroupNonEmpty(ps[1..], k);
      assert ps == [ps[0]] + ps[1..];
    }
  }

  // --- The meaning item by item ---

  // The item passes `where` and has the key.
  ghost predicate HasKey(calls: Calls, home: Env, g: GroupQuery, d: Datum, k: IR.Value) {
    var env := [map[User(g.x) := Plain(d)]] + home;
    Passes(calls, env, g.where_) == Some(true) && KeyOf(Eval(calls, env, g.key), g.keyType) == Some(k)
  }

  // The places, counted from `off`, of the items with one key.
  ghost function Places(calls: Calls, home: Env, g: GroupQuery, items: seq<Datum>, k: IR.Value,
                        off: nat): (ps: seq<nat>)
    decreases |items|
  {
    if items == [] then []
    else Ahead(calls, home, g, items[0], k, off) + Places(calls, home, g, items[1..], k, off + 1)
  }

  // Only places of such items ...
  ghost predicate OnlyPlaces(calls: Calls, home: Env, g: GroupQuery, items: seq<Datum>, k: IR.Value,
                             off: nat, ps: seq<nat>) {
    forall t :: 0 <= t < |ps| ==> off <= ps[t] < off + |items| && HasKey(calls, home, g, items[ps[t] - off], k)
  }

  // ... and all of them ...
  ghost predicate EveryPlace(calls: Calls, home: Env, g: GroupQuery, items: seq<Datum>, k: IR.Value,
                             off: nat, ps: seq<nat>) {
    forall i :: 0 <= i < |items| && HasKey(calls, home, g, items[i], k) ==> i + off in ps
  }

  // ... in source order.
  ghost predicate Rising(ps: seq<nat>) {
    forall t, u :: 0 <= t < u < |ps| ==> ps[t] < ps[u]
  }

  ghost predicate ArePlaces(calls: Calls, home: Env, g: GroupQuery, items: seq<Datum>, k: IR.Value,
                            off: nat, ps: seq<nat>) {
    OnlyPlaces(calls, home, g, items, k, off, ps) && EveryPlace(calls, home, g, items, k, off, ps) && Rising(ps)
  }

  lemma {:induction false} PlacesAre(calls: Calls, home: Env, g: GroupQuery, items: seq<Datum>, k: IR.Value, off: nat)
    ensures ArePlaces(calls, home, g, items, k, off, Places(calls, home, g, items, k, off))
    decreases |items|
  {
    if items != [] {
      var rest := Places(calls, home, g, items[1..], k, off + 1);
      PlacesAre(calls, home, g, items[1..], k, off + 1);
      PlacesStep(calls, home, g, items, k, off);
      hide HasKey, Places, OnlyPlaces, EveryPlace, Rising;
      MoreOnly(calls, home, g, items, k, off, rest);
      MoreEvery(calls, home, g, items, k, off, rest);
    }
  }

  ghost function Ahead(calls: Calls, home: Env, g: GroupQuery, d: Datum, k: IR.Value, off: nat): (ps: seq<nat>) {
    if HasKey(calls, home, g, d, k) then [off] else []
  }

  lemma MoreOnly(calls: Calls, home: Env, g: GroupQuery, items: seq<Datum>, k: IR.Value, off: nat, rest: seq<nat>)
    requires items != [] && OnlyPlaces(calls, home, g, items[1..], k, off + 1, rest) && Rising(rest)
    ensures var ps := Ahead(calls, home, g, items[0], k, off) + rest;
            OnlyPlaces(calls, home, g, items, k, off, ps) && Rising(ps)
  {
    hide HasKey;
    var first := Ahead(calls, home, g, items[0], k, off);
    var ps := first + rest;
    forall t | 0 <= t < |ps|
      ensures off <= ps[t] < off + |items| && HasKey(calls, home, g, items[ps[t] - off], k)
      ensures t >= |first| ==> off < ps[t]
    {
      if t >= |first| {
        assert ps[t] == rest[t - |first|];
        assert items[1..][ps[t] - (off + 1)] == items[ps[t] - off];
      }
    }
  }

  lemma MoreEvery(calls: Calls, home: Env, g: GroupQuery, items: seq<Datum>, k: IR.Value, off: nat, rest: seq<nat>)
    requires items != [] && EveryPlace(calls, home, g, items[1..], k, off + 1, rest)
    ensures EveryPlace(calls, home, g, items, k, off, Ahead(calls, home, g, items[0], k, off) + rest)
  {
    hide HasKey;
    var ps := Ahead(calls, home, g, items[0], k, off) + rest;
    forall i | 0 <= i < |items| && HasKey(calls, home, g, items[i], k) ensures i + off in ps {
      if i > 0 {
        assert items[1..][i - 1] == items[i];
        assert (i - 1) + (off + 1) in rest;
      } else {
        assert i + off == ps[0];
      }
    }
  }

  lemma {:induction false} GroupAtPlaces(calls: Calls, home: Env, g: GroupQuery, items: seq<Datum>, k: IR.Value,
                                         off: nat)
    requires Picked(calls, home, g, items).Some?
    ensures var group, ps := GroupOf(Picked(calls, home, g, items).value, k), Places(calls, home, g, items, k, off);
            |group| == |ps| && forall t :: 0 <= t < |ps| ==>
              off <= ps[t] < off + |items| && group[t] == items[ps[t] - off]
    decreases |items|
  {
    if items != [] {
      var p, rest := PickOne(calls, home, g, items[0]).value, Picked(calls, home, g, items[1..]).value;
      GroupAtPlaces(calls, home, g, items[1..], k, off + 1);
      GroupAppend(p, rest, k);
      OnePicked(calls, home, g, items[0], k);
      hide PickOne, HasKey, Places;
      assert Places(calls, home, g, items, k, off) ==
             Ahead(calls, home, g, items[0], k, off) + Places(calls, home, g, items[1..], k, off + 1)
        by { PlacesStep(calls, home, g, items, k, off); }
    }
  }

  lemma PlacesStep(calls: Calls, home: Env, g: GroupQuery, items: seq<Datum>, k: IR.Value, off: nat)
    requires items != []
    ensures Places(calls, home, g, items, k, off) ==
            Ahead(calls, home, g, items[0], k, off) + Places(calls, home, g, items[1..], k, off + 1)
  {
  }

  lemma OnePicked(calls: Calls, home: Env, g: GroupQuery, d: Datum, k: IR.Value)
    requires PickOne(calls, home, g, d).Some?
    ensures GroupOf(PickOne(calls, home, g, d).value, k) == if HasKey(calls, home, g, d, k) then [d] else []
  {
    var p := PickOne(calls, home, g, d).value;
    if p != [] {
      assert p[1..] == [] && GroupOf(p[1..], k) == [];
    }
  }

  lemma {:induction false} PickedKey(calls: Calls, home: Env, g: GroupQuery, items: seq<Datum>, i: nat, k: IR.Value)
    requires Picked(calls, home, g, items).Some? && i < |items| && HasKey(calls, home, g, items[i], k)
    ensures k in KeySet(Picked(calls, home, g, items).value)
    decreases |items|
  {
    var p: seq<Keyed> := PickOne(calls, home, g, items[0]).value;
    var rest: seq<Keyed> := Picked(calls, home, g, items[1..]).value;
    if i == 0 {
      assert p == [Keyed(k, items[0])] && (p + rest)[0].k == k;
    } else {
      PickedKey(calls, home, g, items[1..], i - 1, k);
      var q :| q in rest && q.k == k;
      assert q in p + rest;
    }
  }

  lemma {:induction false} GroupRowsAt(calls: Calls, home: Env, g: GroupQuery, ps: seq<Keyed>, ks: seq<IR.Value>,
                                       n: nat)
    requires GroupRows(calls, home, g, ps, ks).Some? && n < |ks|
    ensures var rows := GroupRows(calls, home, g, ps, ks).value;
            && |rows| == |ks|
            && Some(rows[n]) == Eval(calls, [map[User(g.group) := Plain(ListD(GroupOf(ps, ks[n])))]] + home, g.select)
    decreases |ks|
  {
    hide Eval, GroupOf;
    if n > 0 {
      GroupRowsAt(calls, home, g, ps, ks[1..], n - 1);
    } else {
      GroupRowsSize(calls, home, g, ps, ks);
    }
  }

  lemma {:induction false} GroupRowsSize(calls: Calls, home: Env, g: GroupQuery, ps: seq<Keyed>, ks: seq<IR.Value>)
    requires GroupRows(calls, home, g, ps, ks).Some?
    ensures |GroupRows(calls, home, g, ps, ks).value| == |ks|
    decreases |ks|
  {
    hide Eval, GroupOf;
    if ks != [] {
      GroupRowsSize(calls, home, g, ps, ks[1..]);
    }
  }

  // The n-th row is `select` over the list of exactly the items with the n-th
  // key, in source order.
  ghost predicate GroupRow(calls: Calls, home: Env, g: GroupQuery, items: seq<Datum>, k: IR.Value, row: Datum) {
    exists ps: seq<nat>, group: seq<Datum> ::
      && ArePlaces(calls, home, g, items, k, 0, ps) && |group| == |ps| > 0
      && (forall t :: 0 <= t < |ps| ==> ps[t] < |items| && group[t] == items[ps[t]])
      && Some(row) == Eval(calls, [map[User(g.group) := Plain(ListD(group))]] + home, g.select)
  }

  // A grouping has one row for every key of a passing item, in ascending key
  // order.
  lemma GroupedIs(calls: Calls, home: Env, g: GroupQuery, items: seq<Datum>) returns (ks: seq<IR.Value>)
    requires ItemsOf(Eval(calls, home, g.src)) == Some(items) && Grouped(calls, home, g).Some?
    ensures var rows := Grouped(calls, home, g).value;
            && |ks| == |rows| && KeyOrder.ValueSorted(ks)
            && (forall i, k :: 0 <= i < |items| && HasKey(calls, home, g, items[i], k) ==> k in ks)
            && forall n :: 0 <= n < |ks| ==> GroupRow(calls, home, g, items, ks[n], rows[n])
  {
    var ps := Picked(calls, home, g, items).value;
    ks := KeyOrder.Ascending(KeySet(ps));
    GroupKeysAscend(ps);
    KeyOrder.AscendingKeys(KeySet(ps));
    hide KeyOrder.Ascending, KeyOrder.ValueSorted, HasKey, GroupOf, GroupRow;
    GroupRowsSize(calls, home, g, ps, ks);
    var rows := Grouped(calls, home, g).value;
    hide Picked, Eval, KeySet, GroupRows, Grouped;
    forall i, k | 0 <= i < |items| && HasKey(calls, home, g, items[i], k) ensures k in ks {
      PickedKey(calls, home, g, items, i, k);
    }
    forall n | 0 <= n < |ks| ensures GroupRow(calls, home, g, items, ks[n], rows[n]) {
      assert ks[n] in ks;
      GroupedRow(calls, home, g, items, ks, n);
    }
  }

  lemma GroupedRow(calls: Calls, home: Env, g: GroupQuery, items: seq<Datum>, ks: seq<IR.Value>, n: nat)
    requires Picked(calls, home, g, items).Some? && n < |ks|
    requires var ps := Picked(calls, home, g, items).value;
             GroupOf(ps, ks[n]) != [] && GroupRows(calls, home, g, ps, ks).Some?
    ensures var rows := GroupRows(calls, home, g, Picked(calls, home, g, items).value, ks).value;
            |rows| == |ks| && GroupRow(calls, home, g, items, ks[n], rows[n])
  {
    hide Picked, HasKey, Eval, GroupOf, GroupRows, OnlyPlaces, EveryPlace, Rising;
    GroupRowsAt(calls, home, g, Picked(calls, home, g, items).value, ks, n);
    PlacesAre(calls, home, g, items, ks[n], 0);
    GroupAtPlaces(calls, home, g, items, ks[n], 0);
    var places := Places(calls, home, g, items, ks[n], 0);
    var group := GroupOf(Picked(calls, home, g, items).value, ks[n]);
    hide Places, ArePlaces;
    assert |group| == |places| > 0;
  }

  // --- The code ---

  function GroupSlots(n: nat): (s: Slots) { Slots(GroupMap(n), GroupKey(n), GroupValue(n)) }

  function FileBody(g: GroupQuery, n: nat): (ss: seq<Stmt>) {
    var acc := Accumulate(GroupMap(n), GroupKey(n), GroupValue(n), User(g.x), g.key, g.keyType);
    if g.where_.Some? then [If(g.where_.value, acc)] else acc
  }

  function ProjectBody(g: GroupQuery, n: nat): (ss: seq<Stmt>) {
    [ Let(User(g.group), MapGet(GroupMap(n), Var(GroupKey(n)), g.keyType)),
      Assign(GroupResult(n), Append(Var(GroupResult(n)), g.select)) ]
  }

  function ProjectAll(g: GroupQuery, n: nat): (ss: seq<Stmt>) {
    [ Let(GroupKeys(n), MapKeys(GroupMap(n))),
      ForEach(GroupKey(n), Var(GroupKeys(n)), ProjectBody(g, n)) ]
  }

  function GroupCode(g: GroupQuery, counter: nat): (l: Lowered) {
    var n := counter + 1;
    Lowered([ LetMap(GroupMap(n)),
              ForEach(User(g.x), g.src, FileBody(g, n)),
              Let(GroupResult(n), Const(ListD([]))),
              QueryScope(ProjectAll(g, n)) ],
            GroupResult(n), counter + 2)
  }

  // --- The filing loop ---

  ghost function TableFrom(table: map<IR.Value, seq<Datum>>, ps: seq<Keyed>): (r: map<IR.Value, seq<Datum>>)
    decreases |ps|
  {
    if ps == [] then table else TableFrom(Filed(table, ps[0].k, ps[0].d), ps[1..])
  }

  lemma {:induction false} TableGroups(table: map<IR.Value, seq<Datum>>, ps: seq<Keyed>, k: IR.Value)
    ensures Get(TableFrom(table, ps), k) == Get(table, k) + GroupOf(ps, k)
    decreases |ps|
  {
    hide Get;
    if ps == [] {
      assert Get(table, k) + [] == Get(table, k);
    } else {
      TableGroups(Filed(table, ps[0].k, ps[0].d), ps[1..], k);
      GetPut(table, ps[0].k, Get(table, ps[0].k) + [ps[0].d], k);
      var before, d, rest := Get(table, k), ps[0].d, GroupOf(ps[1..], k);
      assert (before + [d]) + rest == before + ([d] + rest);
      assert [] + rest == rest;
    }
  }

  lemma {:induction false} TableKeys(table: map<IR.Value, seq<Datum>>, ps: seq<Keyed>)
    ensures TableFrom(table, ps).Keys == table.Keys + KeySet(ps)
    decreases |ps|
  {
    hide Get;
    if ps != [] {
      TableKeys(Filed(table, ps[0].k, ps[0].d), ps[1..]);
      assert ps == [ps[0]] + ps[1..];
      assert KeySet(ps) == {ps[0].k} + KeySet(ps[1..]);
    }
  }

  // One round files the item if it passes.
  lemma FileRuns(calls: Calls, home: Env, a: Env, g: GroupQuery, n: nat, d: Datum, table: map<IR.Value, seq<Datum>>)
    requires a != [] && UserGroupQuery(g) && SameUser(a, home) && MapAt(a, GroupMap(n)) == Some(table)
    ensures var p := PickOne(calls, home, g, d);
            ExecBlock(calls, a, map[User(g.x) := Plain(d)], FileBody(g, n)) ==
              if p.None? then None else Some(IR.Update(a, GroupMap(n), Index(TableFrom(table, p.value))))
  {
    var frame := map[User(g.x) := Plain(d)];
    var s := GroupSlots(n);
    var e, r := [frame] + a, [frame] + home;
    PushSame(a, home, frame);
    EvalUser(calls, e, r, g.key);
    LookupPush(frame, a, User(g.x));
    if g.where_.None? {
      AccumulateRuns(calls, frame, a, s, User(g.x), g.key, g.keyType, d, table);
      hide ExecSeq, Accumulate, Eval, IR.Update, IR.Lookup, SameUser, UserExpr;
      FiledOne(d, table);
    } else {
      EvalUser(calls, e, r, g.where_.value);
      GuardedFileRuns(calls, home, a, g, n, d, table);
    }
  }

  lemma FiledOne(d: Datum, table: map<IR.Value, seq<Datum>>)
    ensures forall k :: TableFrom(table, [Keyed(k, d)]) == Filed(table, k, d)
    ensures TableFrom(table, []) == table
  {
    forall k ensures TableFrom(table, [Keyed(k, d)]) == Filed(table, k, d) {
      assert [Keyed(k, d)][1..] == [];
      assert TableFrom(Filed(table, k, d), []) == Filed(table, k, d);
    }
  }

  // The guarded block, when the guard holds.
  lemma InnerFileRuns(calls: Calls, home: Env, a: Env, g: GroupQuery, n: nat, d: Datum, table: map<IR.Value,
                      seq<Datum>>)
    requires a != [] && UserGroupQuery(g) && SameUser(a, home) && MapAt(a, GroupMap(n)) == Some(table)
    ensures var frame := map[User(g.x) := Plain(d)];
            var k := KeyOf(Eval(calls, [frame] + home, g.key), g.keyType);
            ExecBlock(calls, [frame] + a, map[],
                      Accumulate(GroupMap(n), GroupKey(n), GroupValue(n), User(g.x), g.key, g.keyType)) ==
              if k.None? then None else Some([frame] + IR.Update(a, GroupMap(n), Index(Filed(table, k.value, d))))
  {
    var frame := map[User(g.x) := Plain(d)];
    var none: map<Name, Slot> := map[];
    var s := GroupSlots(n);
    var x := User(g.x);
    var e, r := [frame] + a, [frame] + home;
    PushSame(a, home, frame);
    PushHidden(e, r, none);
    EvalUser(calls, [none] + e, r, g.key);
    LookupPush(frame, a, x);
    LookupPush(none, e, x);
    LookupPush(frame, a, GroupMap(n));
    assert GroupReady(none, e, s, x, d, table);
    hide ExecSeq, Accumulate, Eval, IR.Update, IR.Lookup, SameUser, UserExpr, GroupReady;
    AccumulateRuns(calls, none, e, s, x, g.key, g.keyType, d, table);
    var k := KeyOf(Eval(calls, r, g.key), g.keyType);
    if k.Some? {
      var slot := Index(Filed(table, k.value, d));
      UpdatePush(frame, a, GroupMap(n), slot);
      assert ([Holding(none, s, k.value, Get(table, k.value))] + IR.Update(e, GroupMap(n), slot))[1..] ==
          IR.Update(e, GroupMap(n), slot);
    }
  }

  lemma GuardedFileRuns(calls: Calls, home: Env, a: Env, g: GroupQuery, n: nat, d: Datum, table: map<IR.Value,
                        seq<Datum>>)
    requires a != [] && UserGroupQuery(g) && SameUser(a, home) && MapAt(a, GroupMap(n)) == Some(table) && g.where_.Some?
    ensures var p := PickOne(calls, home, g, d);
            ExecBlock(calls, a, map[User(g.x) := Plain(d)], FileBody(g, n)) ==
              if p.None? then None else Some(IR.Update(a, GroupMap(n), Index(TableFrom(table, p.value))))
  {
    var frame := map[User(g.x) := Plain(d)];
    var w, x := g.where_.value, User(g.x);
    var e, r := [frame] + a, [frame] + home;
    var acc := Accumulate(GroupMap(n), GroupKey(n), GroupValue(n), x, g.key, g.keyType);
    InnerFileRuns(calls, home, a, g, n, d, table);
    PushSame(a, home, frame);
    EvalUser(calls, e, r, w);
    One(calls, e, If(w, acc));
    FiledOne(d, table);
    UpdateSame(a, GroupMap(n));
    assert IR.Update(a, GroupMap(n), Index(table)) == a;
    assert ExecBlock(calls, a, frame, [If(w, acc)]) == Behead(Exec(calls, e, If(w, acc)));
    hide ExecSeq, ExecBlock, Accumulate, Eval, IR.Update, IR.Lookup, SameUser, UserGroupQuery, TableFrom, MapAt;
    assert e[1..] == a;
    var k := KeyOf(Eval(calls, r, g.key), g.keyType);
    if k.Some? {
      var slot := Index(Filed(table, k.value, d));
      assert ([frame] + IR.Update(a, GroupMap(n), slot))[1..] == IR.Update(a, GroupMap(n), slot);
    }
  }

  ghost function Behead(r: Option<Env>): (q: Option<Env>)
  {
    if r.None? || r.value == [] then None else Some(r.value[1..])
  }

  lemma {:induction false} TableAppend(table: map<IR.Value, seq<Datum>>, ps: seq<Keyed>, qs: seq<Keyed>)
    ensures TableFrom(table, ps + qs) == TableFrom(TableFrom(table, ps), qs)
    decreases |ps|
  {
    if ps == [] {
      assert [] + qs == qs;
    } else {
      assert (ps + qs)[1..] == ps[1..] + qs;
      TableAppend(Filed(table, ps[0].k, ps[0].d), ps[1..], qs);
    }
  }

  // The whole loop.
  lemma {:induction false} FileAllRuns(calls: Calls, home: Env, a: Env, g: GroupQuery, n: nat, items: seq<Datum>,
                                       table: map<IR.Value, seq<Datum>>)
    requires a != [] && UserGroupQuery(g) && SameUser(a, home) && MapAt(a, GroupMap(n)) == Some(table)
    ensures var ps := Picked(calls, home, g, items);
            ExecEach(calls, a, User(g.x), items, FileBody(g, n)) ==
              if ps.None? then None else Some(IR.Update(a, GroupMap(n), Index(TableFrom(table, ps.value))))
    decreases |items|
  {
    if items == [] {
      UpdateSame(a, GroupMap(n));
    } else {
      hide ExecBlock, FileBody, UserGroupQuery, SameUser, PickOne, TableFrom, IR.Update, IR.Lookup;
      FileRuns(calls, home, a, g, n, items[0], table);
      var p := PickOne(calls, home, g, items[0]);
      if p.Some? {
        var next := TableFrom(table, p.value);
        var b := IR.Update(a, GroupMap(n), Index(next));
        LookupUpdate(a, GroupMap(n), Index(next), GroupMap(n));
        assert MapAt(a, GroupMap(n)).Some?;
        UpdateSameUser(a, home, GroupMap(n), Index(next));
        FileAllRuns(calls, home, b, g, n, items[1..], next);
        var rest := Picked(calls, home, g, items[1..]);
        if rest.Some? {
          TableAppend(table, p.value, rest.value);
          UpdateTwice(a, GroupMap(n), Index(next), Index(TableFrom(next, rest.value)));
        }
      }
    }
  }

  // --- The projection loop ---

  // What the projection relies on.
  ghost predicate Projecting(home: Env, a: Env, g: GroupQuery, n: nat, table: map<IR.Value, seq<Datum>>,
                             cur: seq<Datum>) {
    && a != [] && UserExpr(g.select) && SameUser(a, home)
    && MapAt(a, GroupMap(n)) == Some(table)
    && IR.Lookup(a, GroupResult(n)) == Some(Plain(ListD(cur)))
  }

  // One group.
  lemma ProjectRuns(calls: Calls, home: Env, a: Env, g: GroupQuery, n: nat, table: map<IR.Value, seq<Datum>>,
                    k: IR.Value, cur: seq<Datum>)
    requires Projecting(home, a, g, n, table, cur) && k in table && k.Type() == g.keyType
    ensures var v := Eval(calls, [map[User(g.group) := Plain(ListD(table[k]))]] + home, g.select);
            ExecBlock(calls, a, map[GroupKey(n) := Plain(Scalar(k))], ProjectBody(g, n)) ==
              Grown(a, GroupResult(n), cur, if v.None? then None else Some([v.value]))
  {
    var key, result, x := GroupKey(n), GroupResult(n), User(g.group);
    var slot := Plain(ListD(table[k]));
    var frame := map[key := Plain(Scalar(k))];
    var e := [frame] + a;
    var f := frame[x := slot];
    var get := MapGet(GroupMap(n), Var(key), g.keyType);
    var append := Assign(result, Append(Var(result), g.select));
    LookupPush(frame, a, key);
    LookupPush(frame, a, GroupMap(n));
    assert Eval(calls, e, Var(key)) == Some(Scalar(k));
    assert Eval(calls, e, get) == Some(ListD(table[k]));
    DeclareHead(frame, a, x, slot);
    Two(calls, e, Let(x, get), append);
    LookupPush(f, a, result);
    GroupSeen(a, home, key, Plain(Scalar(k)), x, slot);
    AppendRuns(calls, [f] + a, [map[x := slot]] + home, g.select, result, cur);
    hide ExecSeq, Eval, IR.Update, IR.Lookup, SameUser, UserExpr;
    var v := Eval(calls, [map[x := slot]] + home, g.select);
    if v.Some? {
      var y := Plain(ListD(cur + [v.value]));
      UpdatePush(f, a, result, y);
      assert ([f] + IR.Update(a, result, y))[1..] == IR.Update(a, result, y);
    }
  }

  // The group variable is all the user sees of the frame.
  lemma GroupSeen(a: Env, home: Env, key: Name, k: Slot, x: Name, slot: Slot)
    requires SameUser(a, home) && !key.User?
    ensures SameUser([map[key := k][x := slot]] + a, [map[x := slot]] + home)
  {
    hide IR.Lookup;
    var f, h := map[key := k][x := slot], map[x := slot];
    forall s ensures IR.Lookup([f] + a, User(s)) == IR.Lookup([h] + home, User(s)) {
      LookupPush(f, a, User(s));
      LookupPush(h, home, User(s));
    }
  }

  lemma ProjectingGrown(home: Env, a: Env, g: GroupQuery, n: nat, table: map<IR.Value, seq<Datum>>, cur: seq<Datum>,
                        more: seq<Datum>)
    requires Projecting(home, a, g, n, table, cur)
    ensures Projecting(home, IR.Update(a, GroupResult(n), Plain(ListD(cur + more))), g, n, table, cur + more)
  {
    hide IR.Lookup, IR.Update, SameUser, UserExpr;
    var x := Plain(ListD(cur + more));
    UpdateSameUser(a, home, GroupResult(n), x);
    LookupUpdate(a, GroupResult(n), x, GroupResult(n));
    LookupUpdate(a, GroupResult(n), x, GroupMap(n));
  }

  // All groups, in key order.
  lemma {:induction false} ProjectAllRuns(calls: Calls, home: Env, a: Env, g: GroupQuery, n: nat, table: map<IR.Value,
                                          seq<Datum>>, ps: seq<Keyed>, ks: seq<IR.Value>, cur: seq<Datum>)
    requires Projecting(home, a, g, n, table, cur)
    requires forall k :: k in ks ==> k in table && table[k] == GroupOf(ps, k) && k.Type() == g.keyType
    ensures a != [] && ExecEach(calls, a, GroupKey(n), Scalars(ks), ProjectBody(g, n))
         == Grown(a, GroupResult(n), cur, GroupRows(calls, home, g, ps, ks))
    decreases |ks|
  {
    if ks == [] {
      GrownByNothing(a, GroupResult(n), cur);
    } else {
      assert a != [];
      assert Scalars(ks)[1..] == Scalars(ks[1..]);
      hide ExecBlock, ProjectBody, Projecting, Eval, IR.Update, GroupOf;
      ProjectRuns(calls, home, a, g, n, table, ks[0], cur);
      var v := Eval(calls, [map[User(g.group) := Plain(ListD(GroupOf(ps, ks[0])))]] + home, g.select);
      if v.Some? {
        ProjectingGrown(home, a, g, n, table, cur, [v.value]);
        ProjectAllRuns(calls, home, IR.Update(a, GroupResult(n), Plain(ListD(cur + [v.value]))), g, n, table, ps,
                       ks[1..], cur + [v.value]);
        var rest := GroupRows(calls, home, g, ps, ks[1..]);
        if rest.Some? {
          GrownTwice(a, GroupResult(n), cur, [v.value], rest.value);
        }
      }
    }
  }

  lemma {:induction false} PickedTyped(calls: Calls, home: Env, g: GroupQuery, items: seq<Datum>)
    requires Picked(calls, home, g, items).Some?
    ensures forall p :: p in Picked(calls, home, g, items).value ==> p.k.Type() == g.keyType
  {
    if items != [] {
      PickedTyped(calls, home, g, items[1..]);
    }
  }

  // The table holds exactly the groups.
  lemma TableIsGroups(ps: seq<Keyed>)
    ensures var t := TableFrom(map[], ps);
            t.Keys == KeySet(ps) && forall k :: k in t ==> t[k] == GroupOf(ps, k)
  {
    var t := TableFrom(map[], ps);
    TableKeys(map[], ps);
    forall k ensures k in t ==> t[k] == GroupOf(ps, k) {
      TableGroups(map[], ps, k);
      assert [] + GroupOf(ps, k) == GroupOf(ps, k);
    }
  }

  // The query scope: read the keys, then project.
  lemma ScopedProjection(calls: Calls, home: Env, a: Env, g: GroupQuery, n: nat, ps: seq<Keyed>)
    requires Projecting(home, a, g, n, TableFrom(map[], ps), [])
    requires forall p :: p in ps ==> p.k.Type() == g.keyType
    ensures a != [] && Exec(calls, a, QueryScope(ProjectAll(g, n)))
         == Grown(a, GroupResult(n), [], GroupRows(calls, home, g, ps, KeyOrder.Ascending(KeySet(ps))))
  {
    var none: map<Name, Slot> := map[];
    var t := TableFrom(map[], ps);
    var ks := KeyOrder.Ascending(KeySet(ps));
    var keys, result := GroupKeys(n), GroupResult(n);
    var slot := Plain(ListD(Scalars(ks)));
    var f := none[keys := slot];
    var e := [none] + a;
    TableIsGroups(ps);
    KeyOrder.AscendingKeys(KeySet(ps));
    hide KeyOrder.ValueSorted;
    LookupPush(none, a, GroupMap(n));
    LookupPush(f, a, GroupMap(n));
    LookupPush(f, a, result);
    LookupPush(f, a, keys);
    PushHidden(a, home, f);
    DeclareHead(none, a, keys, slot);
    assert Eval(calls, e, MapKeys(GroupMap(n))) == Some(ListD(Scalars(ks)));
    var project := ForEach(GroupKey(n), Var(keys), ProjectBody(g, n));
    Two(calls, e, Let(keys, MapKeys(GroupMap(n))), project);
    ProjectAllRuns(calls, home, [f] + a, g, n, t, ps, ks, []);
    assert Eval(calls, [f] + a, Var(keys)) == Some(ListD(Scalars(ks)));
    hide ExecSeq, ExecEach, Eval, IR.Update, IR.Lookup, SameUser, UserExpr, ProjectBody, GroupRows, KeyOrder.Ascending,
        TableFrom, Scalars;
    var rows := GroupRows(calls, home, g, ps, ks);
    if rows.Some? {
      var y := Plain(ListD([] + rows.value));
      UpdatePush(f, a, result, y);
      assert ([f] + IR.Update(a, result, y))[1..] == IR.Update(a, result, y);
    }
  }

  // --- The theorem ---

  // The first two statements leave the table in the frame.
  lemma FilingRuns(calls: Calls, env: Env, g: GroupQuery, n: nat)
    requires env != [] && UserGroupQuery(g) && GroupMap(n) !in env[0]
    ensures var items := ItemsOf(Eval(calls, env, g.src));
            var r := ExecSeq(calls, env, [LetMap(GroupMap(n)), ForEach(User(g.x), g.src, FileBody(g, n))]);
            r == if items.None? || Picked(calls, env, g, items.value).None? then None
                 else
                   var ps := Picked(calls, env, g, items.value).value;
                   Some([env[0][GroupMap(n) := Index(TableFrom(map[], ps))]] + env[1..])
  {
    var f, b, m := env[0], env[1..], GroupMap(n);
    assert env == [f] + b;
    var empty := Index(map[]);
    var h := f[m := empty];
    var a := [h] + b;
    Two(calls, env, LetMap(m), ForEach(User(g.x), g.src, FileBody(g, n)));
    DeclareHead(f, b, m, empty);
    SameItself(env);
    DeclareHidden(env, env, f, b, m, empty);
    EvalUser(calls, a, env, g.src);
    LookupPush(h, b, m);
    hide ExecSeq, FileBody, ExecEach, Eval, IR.Update, IR.Lookup, SameUser, UserGroupQuery, Picked, TableFrom;
    var items := ItemsOf(Eval(calls, env, g.src));
    if items.Some? {
      FileAllRuns(calls, env, a, g, n, items.value, map[]);
      var ps := Picked(calls, env, g, items.value);
      if ps.Some? {
        UpdateHead(h, b, m, Index(TableFrom(map[], ps.value)));
        assert h[m := Index(TableFrom(map[], ps.value))] == f[m := Index(TableFrom(map[], ps.value))];
      }
    }
  }

  // The last two statements, from that frame.
  lemma ProjectionRuns(calls: Calls, env: Env, g: GroupQuery, n: nat, ps: seq<Keyed>)
    requires env != [] && UserGroupQuery(g) && GroupResult(n) !in env[0]
    requires forall p :: p in ps ==> p.k.Type() == g.keyType
    ensures var a := [env[0][GroupMap(n) := Index(TableFrom(map[], ps))]] + env[1..];
            var rows := GroupRows(calls, env, g, ps, KeyOrder.Ascending(KeySet(ps)));
            var r := ExecSeq(calls, a, [Let(GroupResult(n), Const(ListD([]))), QueryScope(ProjectAll(g, n))]);
            && r.Some? == rows.Some?
            && (r.Some? ==>
                  LeavesAlone(env, r.value)
                  && Eval(calls, r.value, Var(GroupResult(n))) == Some(ListD(rows.value)))
  {
    var f, b, m, result := env[0], env[1..], GroupMap(n), GroupResult(n);
    assert env == [f] + b;
    var table := Index(TableFrom(map[], ps));
    var zero := Plain(ListD([]));
    var h := f[m := table];
    var k := h[result := zero];
    Two(calls, [h] + b, Let(result, Const(ListD([]))), QueryScope(ProjectAll(g, n)));
    DeclareHead(h, b, result, zero);
    SameItself(env);
    DeclareHidden(env, env, f, b, m, table);
    DeclareHidden([h] + b, env, h, b, result, zero);
    LookupPush(k, b, m);
    LookupPush(k, b, result);
    assert Projecting(env, [k] + b, g, n, TableFrom(map[], ps), []);
    ScopedProjection(calls, env, [k] + b, g, n, ps);
    var rows := GroupRows(calls, env, g, ps, KeyOrder.Ascending(KeySet(ps)));
    Popped(calls, env, k, b, result, rows);
    hide ExecSeq, IR.Update, IR.Lookup, SameUser, UserGroupQuery, GroupRows, KeyOrder.Ascending, TableFrom, LeavesAlone,
        ProjectAll;
    assert Exec(calls, [h] + b, Let(result, Const(ListD([])))) == Some([k] + b);
  }

  // A lowered group-by finishes exactly when its meaning is defined, and then
  // its result variable holds the selected values of the groups in ascending
  // key order.
  lemma LoweredGroupByIsGrouping(calls: Calls, env: Env, g: GroupQuery, counter: nat)
    requires env != [] && UserGroupQuery(g) && Unused(env, counter)
    ensures var l := GroupCode(g, counter);
            var r := ExecSeq(calls, env, l.stmts);
            var rows := Grouped(calls, env, g);
            && r.Some? == rows.Some?
            && (r.Some? ==> LeavesAlone(env, r.value) && Eval(calls, r.value, Var(l.result)) == Some(ListD(rows.value)))
  {
    var n := counter + 1;
    var filing := [LetMap(GroupMap(n)), ForEach(User(g.x), g.src, FileBody(g, n))];
    var projecting := [Let(GroupResult(n), Const(ListD([]))), QueryScope(ProjectAll(g, n))];
    assert GroupCode(g, counter).stmts == filing + projecting;
    assert GroupMap(n) !in env[0] && GroupResult(n) !in env[0];
    hide ExecSeq, Eval, UserGroupQuery, Picked, GroupRows, KeyOrder.Ascending, TableFrom, LeavesAlone, ProjectAll,
        FileBody, GroupCode;
    FilingRuns(calls, env, g, n);
    SeqAppend(calls, env, filing, projecting);
    var items := ItemsOf(Eval(calls, env, g.src));
    if items.Some? && Picked(calls, env, g, items.value).Some? {
      PickedTyped(calls, env, g, items.value);
      ProjectionRuns(calls, env, g, n, Picked(calls, env, g, items.value).value);
    }
  }
}
