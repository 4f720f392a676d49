/** Rebuilding a tree from a flat operator chain with an operand and an operator stack,
    and printing it flat again. An operand is any node that is not binary: a
    parenthesised expression is wrapped in a group node. */
module ExprTree {

  datatype Node<T> = Operand(x: T) | Binary(op: string, left: Node<T>, right: Node<T>)

  datatype Link<T> = Link(op: string, all: bool, right: T)

  /** The parser's form: a first operand and the operator/operand pairs after it. */
  datatype Chain<T> = Chain(left: T, rest: seq<Link<T>>)

  function Prec(op: string): nat {
    if op == "||" then 1
    else if op == "&&" then 2
    else if op in ["==", "!=", "<", "<=", ">", ">=", "in"] then 3
    else if op in ["+", "-", "union", "except", "intersect"] then 4
    else if op in ["*", "/", "%"] then 5
    else 0
  }

  function OpName<T>(l: Link<T>): string {
    if l.all then l.op + "_all" else l.op
  }

  // ---- Reading a tree in order

  datatype Token<T> = Value(x: T) | Oper(op: string)

  /** What the flat printer writes, token by token. */
  function Flat<T>(n: Node<T>): seq<Token<T>> {
    match n
    case Operand(x) => [Value(x)]
    case Binary(op, l, r) => Flat(l) + [Oper(op)] + Flat(r)
  }

  function ChainTokens<T>(c: Chain<T>): seq<Token<T>> {
    [Value(c.left)] + LinkTokens(c.rest)
  }

  function LinkTokens<T>(rest: seq<Link<T>>): seq<Token<T>> {
    if rest == [] then []
    else LinkTokens(rest[..|rest|-1]) + [Oper(OpName(rest[|rest|-1])), Value(rest[|rest|-1].right)]
  }

  // ---- Precedence shape

  predicate AtLeast<T>(n: Node<T>, p: nat) { n.Binary? ==> Prec(n.op) >= p }

  /** Left children bind at least as tightly as their parent, right children more tightly. */
  predicate Shaped<T>(n: Node<T>) {
    n.Binary? ==>
      && Shaped(n.left) && Shaped(n.right)
      && AtLeast(n.left, Prec(n.op)) && AtLeast(n.right, Prec(n.op) + 1)
  }

  ghost predicate OpsAtLeast<T>(ts: seq<Token<T>>, p: nat) {
    forall i :: 0 <= i < |ts| && ts[i].Oper? ==> Prec(ts[i].op) >= p
  }

  lemma {:induction false} ShapedOps<T>(n: Node<T>, p: nat)
    requires Shaped(n) && AtLeast(n, p)
    ensures OpsAtLeast(Flat(n), p)
  {
    if n.Binary? {
      ShapedOps(n.left, p);
      ShapedOps(n.right, p);
    }
  }

  lemma {:induction false} FlatAlternates<T>(n: Node<T>)
    ensures |Flat(n)| % 2 == 1
    ensures forall i :: 0 <= i < |Flat(n)| ==> (Flat(n)[i].Value? <==> i % 2 == 0)
  {
    if n.Binary? {
      FlatAlternates(n.left);
      FlatAlternates(n.right);
    }
  }

  /** The root of a shaped tree is its last operator of least precedence, so
      a shaped tree is determined by its flat reading. */
  lemma {:induction false} ShapedUnique<T>(a: Node<T>, b: Node<T>)
    requires Shaped(a) && Shaped(b) && Flat(a) == Flat(b)
    ensures a == b
  {
    if a.Binary? && b.Binary? {
      var i, j := |Flat(a.left)|, |Flat(b.left)|;
      RootAt(a);
      RootAt(b);
      assert i == j;
      assert Flat(a.left) == Flat(a)[..i] && Flat(a.right) == Flat(a)[i+1..];
      assert Flat(b.left) == Flat(b)[..j] && Flat(b.right) == Flat(b)[j+1..];
      ShapedUnique(a.left, b.left);
      ShapedUnique(a.right, b.right);
    } else {
      OperandOrNot(a);
      OperandOrNot(b);
    }
  }

  lemma OperandOrNot<T>(n: Node<T>)
    ensures n.Operand? <==> |Flat(n)| == 1
  {
    if n.Binary? {
      FlatAlternates(n.left);
      FlatAlternates(n.right);
    }
  }

  lemma RootAt<T>(n: Node<T>)
    requires n.Binary? && Shaped(n)
    ensures var i := |Flat(n.left)|;
            && i < |Flat(n)| && Flat(n)[i] == Oper(n.op)
            && (forall k :: 0 <= k < i && Flat(n)[k].Oper? ==> Prec(Flat(n)[k].op) >= Prec(n.op))
            && (forall k :: i < k < |Flat(n)| && Flat(n)[k].Oper? ==> Prec(Flat(n)[k].op) > Prec(n.op))
  {
    var i := |Flat(n.left)|;
    ShapedOps(n.left, Prec(n.op));
    ShapedOps(n.right, Prec(n.op) + 1);
    forall k | 0 <= k < i ensures Flat(n)[k] == Flat(n.left)[k] {}
    forall k | i < k < |Flat(n)| ensures Flat(n)[k] == Flat(n.right)[k - i - 1] {}
  }

  // ---- The two stacks

  /** The tokens of the first `k` operand/operator pairs, bottom to top. */
  function PairTokens<T>(operands: seq<Node<T>>, ops: seq<string>, k: nat): seq<Token<T>>
    requires k <= |operands| && k <= |ops|
  {
    if k == 0 then [] else PairTokens(operands, ops, k - 1) + Flat(operands[k-1]) + [Oper(ops[k-1])]
  }

  function StackTokens<T>(operands: seq<Node<T>>, ops: seq<string>): seq<Token<T>>
    requires |operands| == |ops| + 1
  {
    PairTokens(operands, ops, |ops|) + Flat(operands[|ops|])
  }

  lemma {:induction false} PairTokensSame<T>(operands: seq<Node<T>>, ops: seq<string>, operands': seq<Node<T>>,
                                             ops': seq<string>, k: nat)
    requires k <= |operands| && k <= |ops| && k <= |operands'| && k <= |ops'|
    requires forall i :: 0 <= i < k ==> operands[i] == operands'[i] && ops[i] == ops'[i]
    ensures PairTokens(operands, ops, k) == PairTokens(operands', ops', k)
  {
    if k > 0 { PairTokensSame(operands, ops, operands', ops', k - 1); }
  }

  /** Precedences rise strictly up the operator stack, and every operand fits between its neighbours. */
  ghost predicate Stacked<T>(operands: seq<Node<T>>, ops: seq<string>) {
    && |operands| == |ops| + 1
    && (forall i :: 0 <= i < |operands| ==> Shaped(operands[i]))
    && (forall i, j :: 0 <= i < j < |ops| ==> Prec(ops[i]) < Prec(ops[j]))
    && (forall i :: 0 <= i < |ops| ==> AtLeast(operands[i], Prec(ops[i])))
    && (forall i :: 0 <= i < |ops| ==> AtLeast(operands[i + 1], Prec(ops[i]) + 1))
  }

  /** Pops the operators that bind at least as tightly as `p`. */
  method Reduce<T>(operands0: seq<Node<T>>, ops0: seq<string>, p: nat)
      returns (operands: seq<Node<T>>, ops: seq<string>)
    requires Stacked(operands0, ops0) && AtLeast(operands0[|ops0|], p)
    ensures Stacked(operands, ops)
    ensures StackTokens(operands, ops) == StackTokens(operands0, ops0)
    ensures forall i :: 0 <= i < |ops| ==> Prec(ops[i]) < p
    ensures AtLeast(operands[|ops|], p)
  {
    hide Prec, StackTokens;
    operands, ops := operands0, ops0;
    while |ops| > 0 && Prec(ops[|ops|-1]) >= p
      invariant Stacked(operands, ops) && AtLeast(operands[|ops|], p)
      invariant StackTokens(operands, ops) == StackTokens(operands0, ops0)
      decreases |ops|
    {
      var n := |ops|;
      ReduceTokens(operands, ops);
      operands, ops := operands[..n-1] + [Binary(ops[n-1], operands[n-1], operands[n])], ops[..n-1];
    }
  }

  lemma ReduceTokens<T>(operands: seq<Node<T>>, ops: seq<string>)
    requires |operands| == |ops| + 1 && ops != []
    ensures var n := |ops|;
            StackTokens(operands[..n-1] + [Binary(ops[n-1], operands[n-1], operands[n])], ops[..n-1]) ==
                StackTokens(operands, ops)
  {
    var n := |ops|;
    var left, right, op := operands[n-1], operands[n], ops[n-1];
    var stack := operands[..n-1] + [Binary(op, left, right)];
    PairTokensSame(operands, ops, stack, ops[..n-1], n - 1);
    Regroup(PairTokens(operands, ops, n - 1), Flat(left), [Oper(op)], Flat(right));
  }

  lemma Regroup<T>(a: seq<T>, b: seq<T>, c: seq<T>, d: seq<T>)
    ensures a + (b + c + d) == a + b + c + d
  {}

  lemma PushTokens<T>(operands: seq<Node<T>>, ops: seq<string>, op: string, x: Node<T>)
    requires |operands| == |ops| + 1
    ensures StackTokens(operands + [x], ops + [op]) == StackTokens(operands, ops) + [Oper(op)] + Flat(x)
  {
    PairTokensSame(operands, ops, operands + [x], ops + [op], |ops|);
  }

  lemma ShiftStacked<T>(operands: seq<Node<T>>, ops: seq<string>, op: string, x: T)
    requires Stacked(operands, ops) && AtLeast(operands[|ops|], Prec(op))
    requires forall i :: 0 <= i < |ops| ==> Prec(ops[i]) < Prec(op)
    ensures Stacked(operands + [Operand(x)], ops + [op])
  {
    hide Prec;
  }

  lemma ShiftTokens<T>(left: T, rest: seq<Link<T>>, l: Link<T>)
    ensures ChainTokens(Chain(left, rest + [l])) ==
            ChainTokens(Chain(left, rest)) + [Oper(OpName(l))] + [Value(l.right)]
  {
    assert (rest + [l])[..|rest|] == rest;
  }

  // ---- Folding to the left without precedence

  /** What a reader makes of a chain who knows no precedence. */
  function LeftFold<T>(c: Chain<T>): Node<T>
    decreases |c.rest|
  {
    if c.rest == [] then Operand(c.left)
    else
      var last := c.rest[|c.rest|-1];
      Binary(OpName(last), LeftFold(Chain(c.left, c.rest[..|c.rest|-1])), Operand(last.right))
  }

  /** No operator binds more tightly than the one before it. */
  predicate NeverRises<T>(rest: seq<Link<T>>) {
    forall i :: 0 < i < |rest| ==> Prec(OpName(rest[i])) <= Prec(OpName(rest[i-1]))
  }

  lemma {:induction false} LeftFoldTokens<T>(c: Chain<T>)
    ensures Flat(LeftFold(c)) == ChainTokens(c)
    decreases |c.rest|
  {
    if c.rest != [] {
      LeftFoldTokens(Chain(c.left, c.rest[..|c.rest|-1]));
    }
  }

  lemma {:induction false} LeftFoldShaped<T>(c: Chain<T>)
    ensures Shaped(LeftFold(c)) <==> NeverRises(c.rest)
    decreases |c.rest|
  {
    hide Prec;
    if c.rest != [] {
      var n := |c.rest| - 1;
      var init := Chain(c.left, c.rest[..n]);
      LeftFoldShaped(init);
      assert forall i :: 0 <= i < n ==> init.rest[i] == c.rest[i];
    }
  }

  /** The left fold is the tree of the chain exactly when precedence never rises along it. */
  lemma LeftFoldIsTheTree<T>(c: Chain<T>, n: Node<T>)
    requires Flat(n) == ChainTokens(c) && Shaped(n)
    ensures n == LeftFold(c) <==> NeverRises(c.rest)
  {
    hide NeverRises, ChainTokens, Flat;
    LeftFoldTokens(c);
    LeftFoldShaped(c);
    if Shaped(LeftFold(c)) {
      ShapedUnique(n, LeftFold(c));
    }
  }

  /** The tree of a chain has the chain as its in-order reading and is precedence-shaped. */
  method FromExpr<T>(c: Chain<T>) returns (n: Node<T>)
    ensures Flat(n) == ChainTokens(c)
    ensures Shaped(n)
    ensures n == LeftFold(c) <==> NeverRises(c.rest)
  {
    hide Prec, StackTokens, ChainTokens, Stacked, Flat, LeftFold, NeverRises;
    var operands, ops := [Operand(c.left)], [];
    StartStacks(c);
    var i := 0;
    while i < |c.rest|
      invariant 0 <= i <= |c.rest|
      invariant Stacked(operands, ops) && |operands| == |ops| + 1
      invariant StackTokens(operands, ops) == ChainTokens(Chain(c.left, c.rest[..i]))
      invariant operands[|ops|].Operand?
    {
      var op, x := OpName(c.rest[i]), c.rest[i].right;
      operands, ops := Reduce(operands, ops, Prec(op));
      StackedLengths(operands, ops);
      PushTokens(operands, ops, op, Operand(x));
      ShiftStacked(operands, ops, op, x);
      ShiftTokens(c.left, c.rest[..i], c.rest[i]);
      OperandTokens(x);
      assert c.rest[..i+1] == c.rest[..i] + [c.rest[i]];
      operands, ops := operands + [Operand(x)], ops + [op];
      i := i + 1;
    }
    assert c.rest[..|c.rest|] == c.rest;
    operands, ops := Reduce(operands, ops, 0);
    StackedLengths(operands, ops);
    assert ops != [] ==> Prec(ops[0]) < 0;
    BaseTokens(operands, ops);
    n := operands[0];
    LeftFoldIsTheTree(c, n);
  }

  lemma BaseTokens<T>(operands: seq<Node<T>>, ops: seq<string>)
    requires |operands| == 1 && ops == []
    ensures StackTokens(operands, ops) == Flat(operands[0])
  {}

  lemma OperandTokens<T>(x: T)
    ensures Flat(Operand(x)) == [Value(x)]
  {}

  lemma StartStacks<T>(c: Chain<T>)
    ensures Stacked([Operand(c.left)], [])
    ensures StackTokens([Operand(c.left)], []) == ChainTokens(Chain(c.left, c.rest[..0]))
  {
    assert c.rest[..0] == [];
  }

  lemma StackedLengths<T>(operands: seq<Node<T>>, ops: seq<string>)
    requires Stacked(operands, ops)
    ensures |operands| == |ops| + 1 && Shaped(operands[0])
  {}

  // ---- Which operator binds more tightly

  /** The levels, loosest first. Any other operator, such as one marked `all`, is looser still. */
  const LEVELS: seq<seq<string>> := [
    ["||"],
    ["&&"],
    ["==", "!=", "<", "<=", ">", ">=", "in"],
    ["+", "-", "union", "except", "intersect"],
    ["*", "/", "%"]
  ]

  predicate AtLevel(op: string, k: nat) {
    if k == 0 then forall l :: l in LEVELS ==> op !in l else k <= |LEVELS| && op in LEVELS[k - 1]
  }

  lemma PrecLevel(op: string, k: nat)
    requires AtLevel(op, k)
    ensures Prec(op) == k
  {
    if k == 0 {
      assert forall i :: 0 <= i < |LEVELS| ==> LEVELS[i] in LEVELS;
      assert op !in LEVELS[0] && op !in LEVELS[1] && op !in LEVELS[2] && op !in LEVELS[3] && op !in LEVELS[4];
    }
  }

  /** Of two operators in a row the second goes first exactly when its level is the higher. */
  lemma TwoOperators<T>(n: Node<T>, x: T, a: string, y: T, b: string, z: T, i: nat, j: nat)
    requires AtLevel(a, i) && AtLevel(b, j)
    requires Shaped(n) && Flat(n) == [Value(x), Oper(a), Value(y), Oper(b), Value(z)]
    ensures n == if i < j then Binary(a, Operand(x), Binary(b, Operand(y), Operand(z)))
                 else Binary(b, Binary(a, Operand(x), Operand(y)), Operand(z))
  {
    PrecLevel(a, i);
    PrecLevel(b, j);
    hide Prec, AtLevel;
    if i < j {
      var m := Binary(a, Operand(x), Binary(b, Operand(y), Operand(z)));
      assert Flat(m.right) == [Value(y)] + [Oper(b)] + [Value(z)];
      assert Flat(m) == [Value(x)] + [Oper(a)] + Flat(m.right) == Flat(n);
      ShapedUnique(n, m);
    } else {
      var m := Binary(b, Binary(a, Operand(x), Operand(y)), Operand(z));
      assert Flat(m.left) == [Value(x)] + [Oper(a)] + [Value(y)];
      assert Flat(m) == Flat(m.left) + [Oper(b)] + [Value(z)] == Flat(n);
      ShapedUnique(n, m);
    }
  }

  /** The chain `x a y b z`; `keep` marks the first operator `all`. */
  function Three<T>(x: T, a: string, keep: bool, y: T, b: string, z: T): Chain<T> {
    Chain(x, [Link(a, keep, y), Link(b, false, z)])
  }

  lemma ThreeTokens<T>(x: T, a: string, keep: bool, y: T, b: string, z: T)
    ensures ChainTokens(Three(x, a, keep, y, b, z)) ==
            [Value(x), Oper(if keep then a + "_all" else a), Value(y), Oper(b), Value(z)]
  {
    var links := Three(x, a, keep, y, b, z).rest;
    assert links[..1] == [links[0]] && [links[0]][..0] == [];
    assert LinkTokens([links[0]]) == [Oper(OpName(links[0])), Value(y)];
  }

  ghost predicate GroupsRight<T(!new)>(x: T, a: string, keep: bool, y: T, b: string, z: T) {
    forall n :: Shaped(n) && Flat(n) == ChainTokens(Three(x, a, keep, y, b, z)) ==>
      n == Binary(if keep then a + "_all" else a, Operand(x), Binary(b, Operand(y), Operand(z)))
  }

  lemma RightGroup<T(!new)>(x: T, a: string, keep: bool, y: T, b: string, z: T, i: nat, j: nat)
    requires AtLevel(if keep then a + "_all" else a, i) && AtLevel(b, j) && i < j
    ensures GroupsRight(x, a, keep, y, b, z)
  {
    ThreeTokens(x, a, keep, y, b, z);
    hide AtLevel, Flat, Shaped, ChainTokens;
    forall n | Shaped(n) && Flat(n) == ChainTokens(Three(x, a, keep, y, b, z))
      ensures n == Binary(if keep then a + "_all" else a, Operand(x), Binary(b, Operand(y), Operand(z)))
    {
      TwoOperators(n, x, if keep then a + "_all" else a, y, b, z, i, j);
    }
  }

  /** One pair for every two neighbouring levels: in `x || y && z` the tree is `x || (y && z)`, and
      so on; `x union all y || z` groups to the right too. */
  lemma Neighbours<T(!new)>(x: T, y: T, z: T)
    ensures GroupsRight(x, "||", false, y, "&&", z)
    ensures GroupsRight(x, "&&", false, y, "==", z)
    ensures GroupsRight(x, "in", false, y, "-", z)
    ensures GroupsRight(x, "+", false, y, "*", z)
    ensures GroupsRight(x, "union", true, y, "||", z)
  {
    assert AtLevel("union_all", 0);
    assert "union" + "_all" == "union_all";
    assert AtLevel("||", 1) && AtLevel("&&", 2) && AtLevel("==", 3) && AtLevel("in", 3);
    assert AtLevel("+", 4) && AtLevel("-", 4) && AtLevel("*", 5);
    hide GroupsRight, AtLevel;
    RightGroup(x, "||", false, y, "&&", z, 1, 2);
    RightGroup(x, "&&", false, y, "==", z, 2, 3);
    RightGroup(x, "in", false, y, "-", z, 3, 4);
    RightGroup(x, "+", false, y, "*", z, 4, 5);
    RightGroup(x, "union", true, y, "||", z, 0, 1);
  }

  // ---- Printing flat and rebuilding

  /** The chain that the tokens of a tree spell. */
  function AsChain<T>(n: Node<T>): Chain<T> {
    match n
    case Operand(x) => Chain(x, [])
    case Binary(op, l, r) =>
      var a, b := AsChain(l), AsChain(r);
      Chain(a.left, a.rest + [Link(op, false, b.left)] + b.rest)
  }

  lemma {:induction false} LinkTokensConcat<T>(a: seq<Link<T>>, b: seq<Link<T>>)
    ensures LinkTokens(a + b) == LinkTokens(a) + LinkTokens(b)
  {
    if b == [] {
      assert a + b == a;
    } else {
      var n := |b| - 1;
      assert (a + b)[..|a+b|-1] == a + b[..n];
      LinkTokensConcat(a, b[..n]);
    }
  }

  lemma {:induction false} AsChainTokens<T>(n: Node<T>)
    ensures ChainTokens(AsChain(n)) == Flat(n)
  {
    if n.Binary? {
      var a, b := AsChain(n.left), AsChain(n.right);
      AsChainTokens(n.left);
      AsChainTokens(n.right);
      var link := [Link(n.op, false, b.left)];
      LinkTokensConcat(a.rest + link, b.rest);
      LinkTokensConcat(a.rest, link);
      assert link[..0] == [];
      assert LinkTokens(link) == [Oper(n.op), Value(b.left)];
    }
  }

  /** Printing a tree without inner parentheses and parsing the result returns the tree exactly
      when it is shaped. */
  method Reparse<T>(n: Node<T>) returns (again: Node<T>)
    ensures again == n <==> Shaped(n)
  {
    again := FromExpr(AsChain(n));
    AsChainTokens(n);
    if Shaped(n) { ShapedUnique(again, n); }
  }

  /** Without the shape the flat reading is ambiguous: two trees share it. */
  lemma FlatAmbiguous<T>(x: T, y: T, z: T)
    ensures var a := Binary("*", Binary("+", Operand(x), Operand(y)), Operand(z));
            var b := Binary("+", Operand(x), Binary("*", Operand(y), Operand(z)));
            Flat(a) == Flat(b) && a != b && !Shaped(a) && Shaped(b)
  {
    assert Prec("*") == 5 && Prec("+") == 4;
  }
}
