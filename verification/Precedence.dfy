/**
 * Lowering and the tree builder read a flat operator chain differently: the
 * lowerer folds it to the left (internal/clower/lower.go, lowerBinary), the
 * tree builder knows precedence (internal/ast/convert.go, FromExpr).  The two
 * give one meaning whenever precedence never rises along the chain.
 */
module Precedence {
  import opened IR
  import opened Source
  import ET = ExprTree

  function Links(rest: seq<SOperand>): (ls: seq<ET.Link<SUnary>>)
    ensures |ls| == |rest|
  {
    if rest == [] then []
    else
      var last := rest[|rest| - 1];
      Links(rest[..|rest| - 1]) + [ET.Link(last.op, false, last.right)]
  }

  // A source expression in the form the tree builder reads.
  function ChainOf(e: SExpr): (c: ET.Chain<SUnary>) { ET.Chain(e.left, Links(e.rest)) }

  // What an operator tree over source operands does.
  function TreeMeans(ds: seq<FunDecl>, fuel: nat, env: Env, n: ET.Node<SUnary>): (r: Run<Value>) {
    match n
    case Operand(u) => MeansUnary(ds, fuel, env, u)
    case Binary(op, left, right) =>
      var a := TreeMeans(ds, fuel, env, left);
      if a.res.Stop? || Settled(op, a.res.value) then a
      else
        var b := TreeMeans(ds, fuel, env, right);
        After(a.out, if b.res.Stop? then b else Run(Operate(op, a.res.value, b.res.value), b.out))
  }

  lemma {:induction false} FoldMeans(ds: seq<FunDecl>, fuel: nat, env: Env, left: SUnary, rest: seq<SOperand>)
    ensures MeansRest(ds, fuel, env, MeansUnary(ds, fuel, env, left), rest)
         == TreeMeans(ds, fuel, env, ET.LeftFold(ET.Chain(left, Links(rest))))
    decreases |rest|
  {
    hide MeansUnary, Operate, Settled;
    if rest != [] {
      var k := |rest| - 1;
      FoldMeans(ds, fuel, env, left, rest[..k]);
      assert Links(rest)[..k] == Links(rest[..k]);
      if MeansUnary(ds, fuel, env, left).res.Stop? {
        StopStays(ds, fuel, env, MeansUnary(ds, fuel, env, left), rest[..k]);
      }
    }
  }

  lemma StopStays(ds: seq<FunDecl>, fuel: nat, env: Env, a: Run<Value>, rest: seq<SOperand>)
    requires a.res.Stop?
    ensures MeansRest(ds, fuel, env, a, rest) == a
  {
  }

  // A chain means what its left fold does.
  lemma ChainMeansLeftFold(ds: seq<FunDecl>, fuel: nat, env: Env, e: SExpr)
    ensures Means(ds, fuel, env, e) == TreeMeans(ds, fuel, env, ET.LeftFold(ChainOf(e)))
  {
    hide MeansRest, TreeMeans, ET.LeftFold;
    FoldMeans(ds, fuel, env, e.left, e.rest);
  }

  // So it means what the precedence tree does if precedence never rises.
  lemma ChainMeansTree(ds: seq<FunDecl>, fuel: nat, env: Env, e: SExpr, n: ET.Node<SUnary>)
    requires ET.Flat(n) == ET.ChainTokens(ChainOf(e)) && ET.Shaped(n)
    requires ET.NeverRises(ChainOf(e).rest)
    ensures Means(ds, fuel, env, e) == TreeMeans(ds, fuel, env, n)
  {
    hide TreeMeans, ET.LeftFold, ET.NeverRises, ET.Flat, ET.Shaped;
    ET.LeftFoldIsTheTree(ChainOf(e), n);
    ChainMeansLeftFold(ds, fuel, env, e);
  }

  // --- An example ---

  function Lit(i: int): (u: SUnary) { SUnary([], IntL(i)) }
  function Plus(): (o: SOperand) { SOperand("+", Lit(2)) }
  function Times(): (o: SOperand) { SOperand("*", Lit(3)) }

  // `1 + 2 * 3`, flat and as the tree that precedence gives it.
  function FlatSum(): (e: SExpr) { Chain(Lit(1), [Plus(), Times()]) }

  function SumTree(): (n: ET.Node<SUnary>) {
    ET.Binary("+", ET.Operand(Lit(1)), ET.Binary("*", ET.Operand(Lit(2)), ET.Operand(Lit(3))))
  }

  lemma LitMeans(ds: seq<FunDecl>, fuel: nat, env: Env, i: int)
    ensures MeansUnary(ds, fuel, env, Lit(i)) == Silent(Ok(IntV(i)))
  {
  }

  // One more operator at the end of a chain.
  lemma OneMore(ds: seq<FunDecl>, fuel: nat, env: Env, a: Run<Value>, rest: seq<SOperand>, last: SOperand, x: int,
                y: int)
    requires MeansRest(ds, fuel, env, a, rest) == Silent(Ok(IntV(x)))
    requires last.right == Lit(y) && a.res.Ok?
    ensures MeansRest(ds, fuel, env, a, rest + [last]) == Silent(OnInts(last.op, x, y))
  {
    LitMeans(ds, fuel, env, y);
    IntStep(last.op, x, y);
    hide OnInts, Operate, Settled, MeansUnary, Lit;
    assert (rest + [last])[..|rest|] == rest;
    var all := MeansRest(ds, fuel, env, a, rest + [last]);
    assert all == After([], Run(OnInts(last.op, x, y), []));
  }

  lemma IntStep(op: string, x: int, y: int)
    ensures !Settled(op, IntV(x)) && Operate(op, IntV(x), IntV(y)) == OnInts(op, x, y)
  {
    hide OnInts;
  }

  lemma FlatSumMeans(ds: seq<FunDecl>, fuel: nat, env: Env)
    ensures Means(ds, fuel, env, FlatSum()) == Silent(Ok(IntV(9)))
  {
    var one := MeansUnary(ds, fuel, env, Lit(1));
    LitMeans(ds, fuel, env, 1);
    assert MeansRest(ds, fuel, env, one, []) == one;
    assert OnInts("+", 1, 2) == Ok(IntV(3)) && OnInts("*", 3, 3) == Ok(IntV(9));
    hide MeansRest, MeansUnary, OnInts;
    OneMore(ds, fuel, env, one, [], Plus(), 1, 2);
    OneMore(ds, fuel, env, one, [] + [Plus()], Times(), 3, 3);
    assert [] + [Plus()] + [Times()] == FlatSum().rest;
  }

  lemma SumTreeMeans(ds: seq<FunDecl>, fuel: nat, env: Env)
    ensures TreeMeans(ds, fuel, env, SumTree()) == Silent(Ok(IntV(7)))
  {
    LitMeans(ds, fuel, env, 1);
    LitMeans(ds, fuel, env, 2);
    LitMeans(ds, fuel, env, 3);
    hide MeansUnary;
    assert OnInts("+", 1, 6) == Ok(IntV(7)) && OnInts("*", 2, 3) == Ok(IntV(6));
    hide OnInts;
    assert TreeMeans(ds, fuel, env, SumTree().right) == Silent(Ok(IntV(6)));
  }

  lemma SumTokens()
    ensures ET.Flat(SumTree()) == ET.ChainTokens(ChainOf(FlatSum())) && ET.Shaped(SumTree())
  {
    var l1, l2 := ET.Link("+", false, Lit(2)), ET.Link("*", false, Lit(3));
    var rest := FlatSum().rest;
    assert rest[..1] == [Plus()] && rest[..1][..0] == [];
    assert Links(rest[..1][..0]) == [] && Links(rest[..1]) == [l1];
    assert Links(rest) == [l1, l2];
    assert [l1, l2][..1] == [l1] && [l1][..0] == [];
    assert ET.LinkTokens([l1]) == [ET.Oper("+"), ET.Value(Lit(2))];
    assert ET.Prec("+") == 4 && ET.Prec("*") == 5;
    hide ET.Prec, Lit;
  }

  // It is 9 as lowered and 7 as a tree.
  lemma PrecedenceIgnored(ds: seq<FunDecl>, fuel: nat, env: Env)
    ensures ET.Flat(SumTree()) == ET.ChainTokens(ChainOf(FlatSum())) && ET.Shaped(SumTree())
    ensures Means(ds, fuel, env, FlatSum()) == Silent(Ok(IntV(9)))
    ensures TreeMeans(ds, fuel, env, SumTree()) == Silent(Ok(IntV(7)))
  {
    hide *;
    SumTokens();
    FlatSumMeans(ds, fuel, env);
    SumTreeMeans(ds, fuel, env);
  }
}
