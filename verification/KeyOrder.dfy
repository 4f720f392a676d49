/**
 * The order in which a map hands out its keys: integers by value, strings
 * lexicographically (internal/aotir/program.go: MapKeysExpr is sorted
 * ascending).  The order is total on all scalar values, so the ascending list
 * of a set of keys exists and is unique.
 */
module KeyOrder {
  import opened IR

  predicate LexLess(s: string, t: string) {
    if s == [] then t != []
    else t != [] && (s[0] < t[0] || (s[0] == t[0] && LexLess(s[1..], t[1..])))
  }

  function Tag(v: Value): (n: nat) {
    match v
    case UnitV => 0
    case StrV(_) => 1
    case IntV(_) => 2
    case FloatV(_) => 3
    case BoolV(_) => 4
  }

  predicate Below(a: Value, b: Value) {
    match (a, b)
    case (IntV(x), IntV(y)) => x < y
    case (StrV(x), StrV(y)) => LexLess(x, y)
    case (FloatV(x), FloatV(y)) => x < y
    case (BoolV(x), BoolV(y)) => !x && y
    case _ => Tag(a) < Tag(b)
  }

  lemma {:induction false} LexTotal(s: string, t: string)
    ensures s == t || LexLess(s, t) || LexLess(t, s)
    ensures !(LexLess(s, t) && LexLess(t, s)) && !LexLess(s, s)
  {
    if s != [] && t != [] {
      LexTotal(s[1..], t[1..]);
      if s[0] == t[0] && s[1..] == t[1..] {
        assert s == [s[0]] + s[1..] && t == [t[0]] + t[1..];
      }
    }
    LexIrreflexive(s);
  }

  lemma {:induction false} LexIrreflexive(s: string)
    ensures !LexLess(s, s)
  {
    if s != [] {
      LexIrreflexive(s[1..]);
    }
  }

  lemma {:induction false} LexTransitive(s: string, t: string, u: string)
    requires LexLess(s, t) && LexLess(t, u)
    ensures LexLess(s, u)
  {
    if s != [] && t[0] == s[0] && u[0] == t[0] {
      LexTransitive(s[1..], t[1..], u[1..]);
    }
  }

  lemma BelowTotal(a: Value, b: Value)
    ensures a == b || Below(a, b) || Below(b, a)
    ensures !(Below(a, b) && Below(b, a)) && !Below(a, a)
  {
    hide LexLess;
    if a.StrV? && b.StrV? {
      LexTotal(a.s, b.s);
    }
    if a.StrV? {
      LexIrreflexive(a.s);
    }
  }

  lemma BelowTransitive(a: Value, b: Value, c: Value)
    requires Below(a, b) && Below(b, c)
    ensures Below(a, c)
  {
    hide LexLess;
    if a.StrV? && b.StrV? && c.StrV? {
      LexTransitive(a.s, b.s, c.s);
    }
  }

  // What the order is, value by value: integers, floats and booleans by size;
  // of two strings the earlier is a proper prefix, or smaller where they first
  // differ.
  ghost predicate ByValue(a: Value, b: Value) {
    && (a.IntV? && b.IntV? ==> a.i < b.i)
    && (a.FloatV? && b.FloatV? ==> a.f < b.f)
    && (a.BoolV? && b.BoolV? ==> !a.b && b.b)
    && (a.StrV? && b.StrV? ==> exists k: nat :: FirstDifference(a.s, b.s, k))
  }

  ghost predicate FirstDifference(s: string, t: string, k: nat) {
    && k <= |s| && k < |t| && s[..k] == t[..k]
    && (k < |s| ==> s[k] < t[k])
  }

  lemma {:induction false} LexFirstDifference(s: string, t: string) returns (k: nat)
    requires LexLess(s, t)
    ensures FirstDifference(s, t, k)
  {
    if s == [] || s[0] != t[0] {
      k := 0;
    } else {
      var n := LexFirstDifference(s[1..], t[1..]);
      k := n + 1;
      assert s[..k] == [s[0]] + s[1..][..n] && t[..k] == [t[0]] + t[1..][..n];
    }
  }

  lemma BelowByValue(a: Value, b: Value)
    requires Below(a, b)
    ensures ByValue(a, b)
  {
    if a.StrV? && b.StrV? {
      var k := LexFirstDifference(a.s, b.s);
    }
  }

  ghost predicate Least(ks: set<Value>, k: Value) {
    k in ks && forall j :: j in ks && j != k ==> Below(k, j)
  }

  lemma {:induction false} LeastExists(ks: set<Value>)
    requires ks != {}
    ensures exists k :: Least(ks, k)
    decreases |ks|
  {
    hide Below;
    var x :| x in ks;
    var rest := ks - {x};
    assert forall j :: j in ks && j != x ==> j in rest;
    if rest == {} {
      assert Least(ks, x);
    } else {
      LeastExists(rest);
      var m :| Least(rest, m);
      BelowTotal(x, m);
      if Below(m, x) {
        assert Least(ks, m);
      } else {
        forall j | j in ks && j != x ensures Below(x, j) {
          if j != m {
            BelowTransitive(x, m, j);
          }
        }
        assert Least(ks, x);
      }
    }
  }

  ghost function Ascending(ks: set<Value>): (s: seq<Value>) {
    if ks == {} then []
    else
      LeastExists(ks);
      var k :| Least(ks, k);
      [k] + Ascending(ks - {k})
  }

  ghost predicate Sorted(s: seq<Value>) {
    forall i, j :: 0 <= i < j < |s| ==> Below(s[i], s[j])
  }

  ghost predicate ValueSorted(s: seq<Value>) {
    forall i, j :: 0 <= i < j < |s| ==> ByValue(s[i], s[j]) && s[i] != s[j]
  }

  // All keys, each once, in ascending order.
  lemma AscendingKeys(ks: set<Value>)
    ensures ValueSorted(Ascending(ks)) && |Ascending(ks)| == |ks|
    ensures forall k :: k in Ascending(ks) <==> k in ks
  {
    SortedKeys(ks);
    var s := Ascending(ks);
    forall i, j | 0 <= i < j < |s| ensures ByValue(s[i], s[j]) && s[i] != s[j] {
      BelowByValue(s[i], s[j]);
      BelowTotal(s[i], s[j]);
    }
  }

  lemma {:induction false} SortedKeys(ks: set<Value>)
    ensures Sorted(Ascending(ks)) && |Ascending(ks)| == |ks|
    ensures forall k :: k in Ascending(ks) <==> k in ks
  {
    hide Below;
    if ks != {} {
      var k := Ascending(ks)[0];
      LeastExists(ks);
      assert Least(ks, k);
      var rest := Ascending(ks - {k});
      SortedKeys(ks - {k});
      var s := Ascending(ks);
      assert s == [k] + rest;
      forall i, j | 0 <= i < j < |s| ensures Below(s[i], s[j]) {
        assert s[j] == rest[j - 1] && s[j] in rest;
        if i > 0 {
          assert s[i] == rest[i - 1];
        }
      }
    }
  }
}
