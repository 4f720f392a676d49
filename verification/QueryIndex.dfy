/**
 * The statements emitted in front of a query: the result variable and the
 * hash indexes.
 */
module QueryIndex {
  import opened Options
  import IR
  import opened QueryIR
  import opened Query
  import opened QueryCorrect

  // --- Grouping one item ---

  // The names one grouping loop uses.
  datatype Slots = Slots(m: Name, k: Name, v: Name)

  predicate GoodSlots(s: Slots) {
    !s.m.User? && !s.k.User? && !s.v.User? && s.m != s.k && s.m != s.v && s.k != s.v
  }

  ghost function Filed(table: map<IR.Value, seq<Datum>>, k: IR.Value, d: Datum): (r: map<IR.Value, seq<Datum>>) {
    table[k := Get(table, k) + [d]]
  }

  // The frame after the two lets and the conditional read.
  ghost function Holding(frame: map<Name, Slot>, s: Slots, k: IR.Value, l: seq<Datum>): (r: map<Name, Slot>) {
    frame[s.k := Plain(Scalar(k))][s.v := Plain(ListD(l))]
  }

  // What the rounds rely on.
  ghost predicate GroupReady(frame: map<Name, Slot>, b: Env, s: Slots, x: Name, d: Datum, table: map<IR.Value,
                             seq<Datum>>) {
    && GoodSlots(s) && x.User?
    && s.m !in frame && s.k !in frame && s.v !in frame
    && MapAt(b, s.m) == Some(table)
    && IR.Lookup([frame] + b, x) == Some(Plain(d))
  }

  // The lookups in such a frame.
  lemma HoldingLookups(frame: map<Name, Slot>, b: Env, s: Slots, x: Name, d: Datum, table: map<IR.Value, seq<Datum>>,
                       k: IR.Value, l: seq<Datum>)
    requires GroupReady(frame, b, s, x, d, table)
    ensures var e := [Holding(frame, s, k, l)] + b;
            && IR.Lookup(e, s.k) == Some(Plain(Scalar(k)))
            && IR.Lookup(e, s.v) == Some(Plain(ListD(l)))
            && IR.Lookup(e, x) == Some(Plain(d))
            && MapAt(e, s.m) == Some(table)
  {
    var f := Holding(frame, s, k, l);
    LookupPush(f, b, s.k);
    LookupPush(f, b, s.v);
    LookupPush(f, b, x);
    LookupPush(f, b, s.m);
    LookupPush(frame, b, x);
    hide IR.Lookup;
  }

  // LetKey and Let.
  lemma LetsRun(calls: Calls, frame: map<Name, Slot>, b: Env, s: Slots, x: Name, key: Expr, t: IR.Type, d: Datum,
                table: map<IR.Value, seq<Datum>>)
    requires GroupReady(frame, b, s, x, d, table)
    ensures var k := KeyOf(Eval(calls, [frame] + b, key), t);
            ExecSeq(calls, [frame] + b, [LetKey(s.k, t, key), Let(s.v, Const(ListD([])))]) ==
              if k.None? then None else Some([Holding(frame, s, k.value, [])] + b)
  {
    var k := KeyOf(Eval(calls, [frame] + b, key), t);
    Two(calls, [frame] + b, LetKey(s.k, t, key), Let(s.v, Const(ListD([]))));
    hide IR.Lookup, ExecSeq;
    if k.Some? {
      var slot := Plain(Scalar(k.value));
      DeclareHead(frame, b, s.k, slot);
      DeclareHead(frame[s.k := slot], b, s.v, Plain(ListD([])));
    }
  }

  // The conditional read of what was filed before.
  lemma ReadRuns(calls: Calls, frame: map<Name, Slot>, b: Env, s: Slots, x: Name, t: IR.Type, d: Datum,
                 table: map<IR.Value, seq<Datum>>, k: IR.Value)
    requires GroupReady(frame, b, s, x, d, table) && k.Type() == t
    ensures Exec(calls, [Holding(frame, s, k, [])] + b,
                 If(MapHas(s.m, Var(s.k), t), [Assign(s.v, MapGet(s.m, Var(s.k), t))]))
         == Some([Holding(frame, s, k, Get(table, k))] + b)
  {
    var e := [Holding(frame, s, k, [])] + b;
    HoldingLookups(frame, b, s, x, d, table, k, []);
    assert Eval(calls, e, Var(s.k)) == Some(Scalar(k));
    if k in table {
      AssignRuns(calls, frame, b, s, x, t, d, table, k);
    }
  }

  lemma AssignRuns(calls: Calls, frame: map<Name, Slot>, b: Env, s: Slots, x: Name, t: IR.Type, d: Datum,
                   table: map<IR.Value, seq<Datum>>, k: IR.Value)
    requires GroupReady(frame, b, s, x, d, table) && k.Type() == t && k in table
    ensures ExecBlock(calls, [Holding(frame, s, k, [])] + b, map[], [Assign(s.v, MapGet(s.m, Var(s.k), t))])
         == Some([Holding(frame, s, k, table[k])] + b)
  {
    var f := Holding(frame, s, k, []);
    var e := [f] + b;
    var none: map<Name, Slot> := map[];
    var st := Assign(s.v, MapGet(s.m, Var(s.k), t));
    HoldingLookups(frame, b, s, x, d, table, k, []);
    LookupPush(none, e, s.k);
    LookupPush(none, e, s.v);
    LookupPush(none, e, s.m);
    assert Eval(calls, [none] + e, Var(s.k)) == Some(Scalar(k));
    assert Eval(calls, [none] + e, MapGet(s.m, Var(s.k), t)) == Some(ListD(table[k]));
    One(calls, [none] + e, st);
    hide IR.Lookup, IR.Update, ExecSeq, Eval;
    var slot := Plain(ListD(table[k]));
    UpdatePush(none, e, s.v, slot);
    UpdateHead(f, b, s.v, slot);
    assert f[s.v := slot] == Holding(frame, s, k, table[k]);
    assert ([none] + IR.Update(e, s.v, slot))[1..] == IR.Update(e, s.v, slot);
  }

  // The write back.
  lemma PutRuns(calls: Calls, frame: map<Name, Slot>, b: Env, s: Slots, x: Name, t: IR.Type, d: Datum,
                table: map<IR.Value, seq<Datum>>, k: IR.Value)
    requires GroupReady(frame, b, s, x, d, table) && k.Type() == t
    ensures var f := Holding(frame, s, k, Get(table, k));
            Exec(calls, [f] + b, MapPut(s.m, Var(s.k), t, Append(Var(s.v), Var(x)))) ==
                Some([f] + IR.Update(b, s.m, Index(Filed(table, k, d))))
  {
    var f := Holding(frame, s, k, Get(table, k));
    var e := [f] + b;
    HoldingLookups(frame, b, s, x, d, table, k, Get(table, k));
    assert Eval(calls, e, Var(s.k)) == Some(Scalar(k));
    assert Eval(calls, e, Var(s.v)) == Some(ListD(Get(table, k)));
    assert Eval(calls, e, Var(x)) == Some(d);
    assert Eval(calls, e, Append(Var(s.v), Var(x))) == Some(ListD(Get(table, k) + [d]));
    hide IR.Lookup, IR.Update, Eval;
    UpdatePush(f, b, s.m, Index(Filed(table, k, d)));
  }

  lemma SeqAppend(calls: Calls, a: Env, s: seq<Stmt>, t: seq<Stmt>)
    requires a != []
    ensures var r := ExecSeq(calls, a, s);
            ExecSeq(calls, a, s + t) == if r.None? then None else ExecSeq(calls, r.value, t)
    decreases |s|
  {
    hide Exec;
    if s == [] {
      assert [] + t == t;
    } else {
      assert (s + t)[1..] == s[1..] + t;
      var r := Exec(calls, a, s[0]);
      if r.Some? {
        SeqAppend(calls, r.value, s[1..], t);
      }
    }
  }

  // One round files the item under its key.
  lemma AccumulateRuns(calls: Calls, frame: map<Name, Slot>, b: Env, s: Slots, x: Name, key: Expr, t: IR.Type, d: Datum,
                       table: map<IR.Value, seq<Datum>>)
    requires GroupReady(frame, b, s, x, d, table)
    ensures var k := KeyOf(Eval(calls, [frame] + b, key), t);
            ExecSeq(calls, [frame] + b, Accumulate(s.m, s.k, s.v, x, key, t)) ==
              if k.None? then None
              else Some([Holding(frame, s, k.value, Get(table, k.value))] + IR.Update(b, s.m,
                  Index(Filed(table, k.value, d))))
  {
    var k := KeyOf(Eval(calls, [frame] + b, key), t);
    var lets := [LetKey(s.k, t, key), Let(s.v, Const(ListD([])))];
    var read := If(MapHas(s.m, Var(s.k), t), [Assign(s.v, MapGet(s.m, Var(s.k), t))]);
    var put := MapPut(s.m, Var(s.k), t, Append(Var(s.v), Var(x)));
    assert Accumulate(s.m, s.k, s.v, x, key, t) == lets + [read, put];
    hide *;
    LetsRun(calls, frame, b, s, x, key, t, d, table);
    SeqAppend(calls, [frame] + b, lets, [read, put]);
    if k.Some? {
      ReadRuns(calls, frame, b, s, x, t, d, table, k.value);
      PutRuns(calls, frame, b, s, x, t, d, table, k.value);
      Two(calls, [Holding(frame, s, k.value, [])] + b, read, put);
    }
  }

  // --- Building one index ---

  function IndexSlots(id: nat): (s: Slots) { Slots(HashIndex(id), HashKey(id), HashValue(id)) }

  lemma {:induction false} IndexRuns(calls: Calls, home: Env, a: Env, c: Clause, table: map<IR.Value, seq<Datum>>,
                                     items: seq<Datum>)
    requires a != [] && c.hash.Some? && Split(c) && c.x.User?
    requires MapAt(a, HashIndex(c.hash.value.id)) == Some(table)
    ensures var h := c.hash.value;
            var r := IndexFrom(calls, home, c, table, items);
            ExecEach(calls, a, c.x, items,
                     Accumulate(HashIndex(h.id), HashKey(h.id), HashValue(h.id), c.x, h.keys.inner, h.keys.t)) ==
              if r.None? then None else Some(IR.Update(a, HashIndex(h.id), Index(r.value)))
    decreases |items|
  {
    var h := c.hash.value;
    var name := HashIndex(h.id);
    var acc := Accumulate(name, HashKey(h.id), HashValue(h.id), c.x, h.keys.inner, h.keys.t);
    if items == [] {
      UpdateSame(a, name);
    } else {
      var frame := map[c.x := Plain(items[0])];
      var s := IndexSlots(h.id);
      InnerSame(calls, home, a, c, items[0]);
      LookupPush(frame, a, c.x);
      AccumulateRuns(calls, frame, a, s, c.x, h.keys.inner, h.keys.t, items[0], table);
      hide ExecSeq, Accumulate, Split, IR.Lookup, Eval, IR.Update;
      var k := InnerKey(calls, home, c, items[0]);
      if k.Some? {
        var next := Filed(table, k.value, items[0]);
        var b := IR.Update(a, name, Index(next));
        var held := Holding(frame, s, k.value, Get(table, k.value));
        assert ([held] + b)[1..] == b;
        LookupUpdate(a, name, Index(next), name);
        IndexRuns(calls, home, b, c, next, items[1..]);
        var r := IndexFrom(calls, home, c, next, items[1..]);
        if r.Some? {
          UpdateTwice(a, name, Index(next), Index(r.value));
        }
      }
    }
  }

  // The two statements of one index, in the current frame.
  lemma IndexBuildRuns(calls: Calls, home: Env, frame: map<Name, Slot>, b: Env, c: Clause)
    requires c.hash.Some? && Split(c) && c.x.User? && UserExpr(c.src) && SameUser([frame] + b, home)
    requires HashIndex(c.hash.value.id) !in frame
    ensures var r := IndexOf(calls, home, c);
            ExecSeq(calls, [frame] + b, IndexBuild(c)) ==
              if r.None? then None else Some([frame[HashIndex(c.hash.value.id) := Index(r.value)]] + b)
  {
    var h := c.hash.value;
    var name := HashIndex(h.id);
    var empty := Index(map[]);
    var a := [frame[name := empty]] + b;
    var acc := Accumulate(name, HashKey(h.id), HashValue(h.id), c.x, h.keys.inner, h.keys.t);
    Two(calls, [frame] + b, LetMap(name), ForEach(c.x, c.src, acc));
    DeclareHead(frame, b, name, empty);
    DeclareHidden([frame] + b, home, frame, b, name, empty);
    EvalUser(calls, a, home, c.src);
    LookupPush(frame[name := empty], b, name);
    hide ExecSeq, Split, IR.Lookup, Eval, SameUser, UserExpr, ExecEach, IR.Update;
    assert Exec(calls, [frame] + b, LetMap(name)) == Some(a);
    var items := ItemsOf(Eval(calls, home, c.src));
    if items.Some? {
      IndexRuns(calls, home, a, c, map[], items.value);
      var r := IndexOf(calls, home, c);
      if r.Some? {
        UpdateHead(frame[name := empty], b, name, Index(r.value));
        assert frame[name := empty][name := Index(r.value)] == frame[name := Index(r.value)];
      }
    }
  }

  // A generated name in the frame is invisible to the user.
  lemma DeclareHidden(a: Env, home: Env, frame: map<Name, Slot>, b: Env, n: Name, x: Slot)
    requires a == [frame] + b && SameUser(a, home) && !n.User?
    ensures SameUser([frame[n := x]] + b, home)
  {
    hide IR.Lookup;
    forall s ensures IR.Lookup([frame[n := x]] + b, User(s)) == IR.Lookup(home, User(s)) {
      LookupPush(frame, b, User(s));
      LookupPush(frame[n := x], b, User(s));
    }
  }

  // --- All indexes ---

  // Ids are handed out upwards from the last hash clause to the first.
  predicate Numbered(cs: seq<Clause>, counter: nat) {
    cs == [] || (Numbered(cs[1..], counter)
                 && (cs[0].hash.Some? ==> cs[0].hash.value.id == counter + Hashes(cs[1..]) + 1))
  }

  predicate Buildable(cs: seq<Clause>) {
    cs == [] || (Buildable(cs[1..]) && cs[0].x.User? && UserExpr(cs[0].src) && (cs[0].hash.Some? ==> Split(cs[0])))
  }

  lemma {:induction false} GoodIsBuildable(cs: seq<Clause>, bound: set<Name>)
    requires GoodClauses(cs, bound)
    ensures Buildable(cs)
  {
    hide UserExpr, Split;
    if cs != [] {
      GoodIsBuildable(cs[1..], bound + {cs[0].x});
    }
  }

  // The frame that holds the indexes; None when one of them cannot be built.
  ghost function Indexed(calls: Calls, home: Env, frame: map<Name, Slot>, cs: seq<Clause>): (r: Option<map<Name,
      Slot>>) {
    if cs == [] then Some(frame)
    else
      var g := Indexed(calls, home, frame, cs[1..]);
      if g.None? || cs[0].hash.None? then g
      else
        var m := IndexOf(calls, home, cs[0]);
        if m.None? then None else Some(g.value[HashIndex(cs[0].hash.value.id) := Index(m.value)])
  }

  // Only index names below the next id were added.
  lemma {:induction false} IndexedKeys(calls: Calls, home: Env, frame: map<Name, Slot>, cs: seq<Clause>, counter: nat)
    requires Numbered(cs, counter) && Indexed(calls, home, frame, cs).Some?
    ensures var g := Indexed(calls, home, frame, cs).value;
            && (forall n :: n in frame && !(n.HashIndex? && n.n > counter) ==> n in g && g[n] == frame[n])
            && (forall n :: n in g && n !in frame ==> n.HashIndex? && counter < n.n <= counter + Hashes(cs))
  {
    hide IndexOf;
    if cs != [] {
      IndexedKeys(calls, home, frame, cs[1..], counter);
    }
  }

  lemma {:induction false} PreludeRuns(calls: Calls, home: Env, frame: map<Name, Slot>, b: Env, cs: seq<Clause>,
                                       counter: nat)
    requires Numbered(cs, counter) && Buildable(cs) && SameUser([frame] + b, home)
    requires forall i :: i > counter ==> HashIndex(i) !in frame
    ensures var g := Indexed(calls, home, frame, cs);
            ExecSeq(calls, [frame] + b, PreludeOf(cs)) == if g.None? then None else Some([g.value] + b)
    ensures Indexed(calls, home, frame, cs).Some? ==> SameUser([Indexed(calls, home, frame, cs).value] + b, home)
  {
    if cs != [] {
      PreludeRuns(calls, home, frame, b, cs[1..], counter);
      var g := Indexed(calls, home, frame, cs[1..]);
      SeqAppend(calls, [frame] + b, PreludeOf(cs[1..]), if cs[0].hash.Some? then IndexBuild(cs[0]) else []);
      if g.Some? && cs[0].hash.Some? {
        IndexedKeys(calls, home, frame, cs[1..], counter);
        IndexBuildRuns(calls, home, g.value, b, cs[0]);
        hide ExecSeq, IndexOf, SameUser, IndexBuild;
        var m := IndexOf(calls, home, cs[0]);
        if m.Some? {
          DeclareHidden([g.value] + b, home, g.value, b, HashIndex(cs[0].hash.value.id), Index(m.value));
        }
      }
    }
  }

  // With the indexes in the frame every hash clause finds its own.
  lemma {:induction false} IndexedTables(calls: Calls, home: Env, frame: map<Name, Slot>, b: Env, cs: seq<Clause>,
                                         counter: nat)
    requires Numbered(cs, counter) && Indexed(calls, home, frame, cs).Some?
    ensures Tables(calls, home, [Indexed(calls, home, frame, cs).value] + b, cs)
  {
    hide IndexOf, IR.Lookup;
    if cs != [] {
      var g := Indexed(calls, home, frame, cs[1..]).value;
      IndexedTables(calls, home, frame, b, cs[1..], counter);
      if cs[0].hash.Some? {
        var id := cs[0].hash.value.id;
        var x := Index(IndexOf(calls, home, cs[0]).value);
        TablesKeep(calls, home, g, b, id, x, cs[1..], counter);
        LookupPush(g[HashIndex(id) := x], b, HashIndex(id));
      }
    }
  }

  lemma {:induction false} TablesKeep(calls: Calls, home: Env, g: map<Name, Slot>, b: Env, id: nat, x: Slot,
                                      cs: seq<Clause>, counter: nat)
    requires Numbered(cs, counter) && id > counter + Hashes(cs) && Tables(calls, home, [g] + b, cs)
    ensures Tables(calls, home, [g[HashIndex(id) := x]] + b, cs)
  {
    hide IndexOf, IR.Lookup;
    if cs != [] {
      TablesKeep(calls, home, g, b, id, x, cs[1..], counter);
      if cs[0].hash.Some? {
        LookupPush(g, b, HashIndex(cs[0].hash.value.id));
        LookupPush(g[HashIndex(id) := x], b, HashIndex(cs[0].hash.value.id));
      }
    }
  }
}
