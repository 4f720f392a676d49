/** A whole query: rewrite, stratify, evaluate, collect. */
module DatalogQuery {
  import opened Datalog
  import opened DatalogStrata
  import opened DatalogMagic
  import opened DatalogEval
  import opened DatalogModel

  const MAX_FACTS: nat := 4096

  datatype Outcome = Answers(values: seq<string>) | Refused(rel: string)

  predicate NullaryBaseFree(facts: seq<Atom>, rules: seq<Rule>) {
    forall f :: f in facts && f.tuple == [] ==> IsHead(rules, f.rel)
  }

  lemma MagicKeepsLoaded(q: Query, facts: seq<Atom>, rules: seq<Rule>)
    requires NullaryBaseFree(facts, rules)
    ensures NullaryBaseFree(MagicFacts(q, facts, rules), MagicRules(q, rules))
  {
    if Rewrites(q, rules) {
      BoundValsNonempty(q);
      forall f | f in MagicFacts(q, facts, rules) && f.tuple == [] ensures IsHead(MagicRules(q, rules), f.rel) {
        var r :| r in rules && r.head == f.rel;
        var p := if r.head == q.rel then Guarded(q, r) else r;
        RewriteMembers(q, rules, p);
        assert p in RewriteRule(q, r);
      }
    }
  }

  lemma {:induction false} BoundPosInRange(args: seq<Term>)
    ensures forall p :: p in BoundPos(args) ==> p < |args|
  {
    if args != [] { BoundPosInRange(args[..|args|-1]); }
  }

  lemma BoundValsNonempty(q: Query)
    requires BoundPos(q.args) != []
    ensures BoundVals(q) != []
  {
    BoundPosInRange(q.args);
    var pos := BoundPos(q.args);
    assert pos[|pos|-1] in pos;
  }

  // ---- What the values are, cell by cell

  datatype Cell = Cell(row: nat, col: nat)

  /** A column that the query leaves open, in a row that has all its constants. */
  predicate OpenCell(args: seq<Term>, rows: seq<Tuple>, c: Cell) {
    && c.row < |rows| && c.col < |args| && c.col < |rows[c.row]| && args[c.col].Var?
    && forall i :: 0 <= i < |args| && args[i].Const? ==> i < |rows[c.row]| && rows[c.row][i] == args[i].value
  }

  predicate Before(a: Cell, b: Cell) { a.row < b.row || (a.row == b.row && a.col < b.col) }

  /** The values are read off the open cells: every one of them, once, by row and then by column. */
  ghost predicate Reads(args: seq<Term>, rows: seq<Tuple>, values: seq<string>, cells: seq<Cell>) {
    ReadsUpTo(args, rows, Cell(|rows|, 0), values, cells)
  }

  /** The same for the cells before a limit. */
  ghost predicate ReadsUpTo(args: seq<Term>, rows: seq<Tuple>, limit: Cell, values: seq<string>, cells: seq<Cell>) {
    && |cells| == |values|
    && (forall k :: 0 <= k < |cells| ==>
          && OpenCell(args, rows, cells[k]) && Before(cells[k], limit)
          && values[k] == rows[cells[k].row][cells[k].col])
    && (forall j, k :: 0 <= j < k < |cells| ==> Before(cells[j], cells[k]))
    && forall c :: OpenCell(args, rows, c) && Before(c, limit) ==> c in cells
  }

  lemma ReadCell(args: seq<Term>, rows: seq<Tuple>, limit: Cell, values: seq<string>, cells: seq<Cell>)
    requires ReadsUpTo(args, rows, limit, values, cells) && OpenCell(args, rows, limit)
    ensures ReadsUpTo(args, rows, Cell(limit.row, limit.col + 1), values + [rows[limit.row][limit.col]],
                      cells + [limit])
  {
    var row := rows[limit.row];
    hide OpenCell;
    var next, cells' := Cell(limit.row, limit.col + 1), cells + [limit];
    forall c | OpenCell(args, rows, c) && Before(c, next) ensures c in cells' {
      if c == limit { assert cells'[|cells|] == c; } else { assert c in cells; }
    }
  }

  lemma SkipCell(args: seq<Term>, rows: seq<Tuple>, limit: Cell, values: seq<string>, cells: seq<Cell>)
    requires ReadsUpTo(args, rows, limit, values, cells) && !OpenCell(args, rows, limit)
    ensures ReadsUpTo(args, rows, Cell(limit.row, limit.col + 1), values, cells)
  {
    hide OpenCell;
  }

  /** Nothing is open from the limit to the end of its row. */
  lemma NextRow(args: seq<Term>, rows: seq<Tuple>, limit: Cell, values: seq<string>, cells: seq<Cell>)
    requires ReadsUpTo(args, rows, limit, values, cells) && limit.row < |rows|
    requires limit.col >= |args| || !Matches(args, rows[limit.row])
    ensures ReadsUpTo(args, rows, Cell(limit.row + 1, 0), values, cells)
  {
    assert forall c: Cell :: c.row == limit.row && c.col >= limit.col ==> !OpenCell(args, rows, c);
    hide OpenCell;
  }

  /** With one open column and rows of full length, the k-th value is that column of the k-th matching row. */
  lemma OneOpenColumn(args: seq<Term>, rows: seq<Tuple>, values: seq<string>, cells: seq<Cell>, i: nat)
    requires Reads(args, rows, values, cells)
    requires i < |args| && args[i].Var? && forall j :: 0 <= j < |args| && j != i ==> args[j].Const?
    requires forall row :: row in rows ==> |row| == |args|
    ensures forall k :: 0 <= k < |values| ==> cells[k].col == i && values[k] == rows[cells[k].row][i]
    ensures forall j, k :: 0 <= j < k < |values| ==> cells[j].row < cells[k].row
    ensures forall r :: 0 <= r < |rows| && Matches(args, rows[r]) ==> Cell(r, i) in cells
  {
    forall r | 0 <= r < |rows| && Matches(args, rows[r]) ensures Cell(r, i) in cells {
      assert rows[r] in rows;
      assert OpenCell(args, rows, Cell(r, i));
    }
    forall k | 0 <= k < |values| ensures cells[k].col == i { assert OpenCell(args, rows, cells[k]); }
    forall j, k | 0 <= j < k < |values| ensures cells[j].row < cells[k].row { assert Before(cells[j], cells[k]); }
  }

  /** A value at an open position of some tuple of the model that matches the query. */
  ghost predicate IsAnswer(q: Query, facts: seq<Atom>, rules: seq<Rule>, v: string)
    requires Stratifiable(rules)
  {
    exists row, i: nat ::
      && Matches(q.args, row) && Atom(q.rel, row) in Model(facts, rules)
      && i < |q.args| && i < |row| && q.args[i].Var? && row[i] == v
  }

  ghost predicate NoRepeats<T(!new)>(s: seq<T>) { forall i, j :: 0 <= i < j < |s| ==> s[i] != s[j] }

  lemma ReadsMembers(args: seq<Term>, rows: seq<Tuple>, values: seq<string>, cells: seq<Cell>, v: string)
    requires Reads(args, rows, values, cells)
    ensures v in values <==>
            exists row, i: nat ::
              row in rows && Matches(args, row) && i < |args| && i < |row| && args[i].Var? && row[i] == v
  {
    if v in values {
      var k :| 0 <= k < |cells| && values[k] == v;
      var c := cells[k];
      assert OpenCell(args, rows, c) && rows[c.row] in rows && Matches(args, rows[c.row]);
    }
    if row, i: nat :| row in rows && Matches(args, row) && i < |args| && i < |row| && args[i].Var? && row[i] == v {
      var r :| 0 <= r < |rows| && rows[r] == row;
      assert OpenCell(args, rows, Cell(r, i)) && Before(Cell(r, i), Cell(|rows|, 0));
      var k :| 0 <= k < |cells| && cells[k] == Cell(r, i);
    }
  }

  // ---- No row is collected twice

  /** The atoms of one relation do not repeat. */
  ghost predicate DistinctFor(order: seq<Atom>, rel: string) {
    forall i, j :: 0 <= i < j < |order| && order[i].rel == rel ==> order[i] != order[j]
  }

  lemma {:induction false} ProjectDistinct(order: seq<Atom>, rel: string)
    requires DistinctFor(order, rel)
    ensures NoRepeats(Project(order, rel))
  {
    if order != [] {
      var rest := order[1..];
      ProjectDistinct(rest, rel);
      if order[0].rel == rel {
        ProjectMembers(rest, rel, order[0].tuple);
      }
    }
  }

  lemma {:induction false} LoadedDistinct(facts: seq<Atom>, rules: seq<Rule>, rel: string)
    requires DistinctFor(facts, rel)
    ensures DistinctFor(Loaded(facts, rules), rel)
  {
    if facts != [] {
      var rest := facts[1..];
      LoadedDistinct(rest, rules, rel);
      LoadedMembers(rest, rules, facts[0]);
      hide IsHead;
      var loaded := Loaded(rest, rules);
      assert facts[0].rel == rel ==> facts[0] !in rest;
      assert DistinctFor([facts[0]] + loaded, rel) by {
        assert facts[0].rel == rel ==> forall j :: 0 <= j < |loaded| ==> loaded[j] in loaded && loaded[j] != facts[0];
      }
    }
  }

  /** Seeding adds no atom of the queried relation, and rows added later are new. */
  lemma RowsDistinct(q: Query, facts: seq<Atom>, rules: seq<Rule>, tables: Tables)
    requires NoRepeats(facts)
    requires FreshRows(Loaded(MagicFacts(q, facts, rules), MagicRules(q, rules)), tables)
    ensures NoRepeats(Rows(tables, q.rel))
  {
    var facts', rules' := MagicFacts(q, facts, rules), MagicRules(q, rules);
    MagicNameFresh(q.rel);
    assert DistinctFor(facts', q.rel);
    hide MagicFacts, MagicRules;
    var seeds := Loaded(facts', rules');
    LoadedDistinct(facts', rules', q.rel);
    ProjectDistinct(seeds, q.rel);
    var given, rows := Project(seeds, q.rel), Rows(tables, q.rel);
    assert given <= rows && FreshAfter(|given|, rows);
    forall i, j | 0 <= i < j < |rows| ensures rows[i] != rows[j] {
      if j < |given| { assert given[i] == rows[i] && given[j] == rows[j]; }
    }
  }

  /** The values read are the answers once the rows are the matching tuples. */
  lemma ValuesAreAnswers(q: Query, facts: seq<Atom>, rules: seq<Rule>, rows: seq<Tuple>,
                         values: seq<string>, cells: seq<Cell>, v: string)
    requires Stratifiable(rules) && Reads(q.args, rows, values, cells)
    requires forall row :: Matches(q.args, row) ==> (row in rows <==> Atom(q.rel, row) in Model(facts, rules))
    ensures v in values <==> IsAnswer(q, facts, rules, v)
  {
    hide Reads, Matches;
    ReadsMembers(q.args, rows, values, cells, v);
  }

  /** Without a full table, the rows are exactly the tuples that match the query in the model of the
      program as written, whether or not it was rewritten, and the values returned are exactly their
      open values; facts without repeats give rows without repeats. */
  method LowerLogicQuery(q: Query, facts: seq<Atom>, rules: seq<Rule>) returns (r: Outcome, ghost tables: Tables)
    ensures r.Answers? ==> exists cells :: Reads(q.args, Rows(tables, q.rel), r.values, cells)
    ensures Stratifiable(rules) && Unused(MagicName(q.rel), facts, rules) ==> r.Answers?
    ensures Stratifiable(rules) && Applicable(q, facts, rules) && NullaryBaseFree(facts, rules)
            && (forall p :: p in MagicRules(q, rules) ==> |Rows(tables, p.head)| < MAX_FACTS)
            ==> && (forall row :: Matches(q.args, row) ==>
                      (row in Rows(tables, q.rel) <==> Atom(q.rel, row) in Model(facts, rules)))
                && r.Answers?
                && (forall v :: v in r.values <==> IsAnswer(q, facts, rules, v))
    ensures NoRepeats(facts) ==> NoRepeats(Rows(tables, q.rel))
  {
    hide Tied, FreshRows, Derivation, Perfect, Unused, MagicRules, MagicFacts, RecursiveOnlyThroughItself, ValidStrata,
        Rejected, Final, Inv;
    tables := map[];
    var facts', rules' := ApplyMagicSet(q, facts, rules);
    var layers := ComputeStrata(facts', rules');
    if Stratifiable(rules) && Unused(MagicName(q.rel), facts, rules) { MagicKeepsStratifiable(q, facts, rules); }
    if layers.NegativeCycle? { return Refused(layers.rel), tables; }
    var engine := new Engine(facts', rules', layers.strata, MAX_FACTS);
    engine.Evaluate();
    tables := engine.tables;
    if Stratifiable(rules) && Applicable(q, facts, rules) && NullaryBaseFree(facts, rules)
       && (forall p :: p in rules' ==> |Rows(tables, p.head)| < MAX_FACTS) {
      AnswersExact(q, facts, rules, tables, engine.order);
    }
    if NoRepeats(facts) { RowsDistinct(q, facts, rules, tables); }
    ghost var cells;
    var values;
    values, cells := CollectRows(q.args, Rows(engine.tables, q.rel));
    r := Answers(values);
    if Stratifiable(rules) && Applicable(q, facts, rules) && NullaryBaseFree(facts, rules)
       && (forall p :: p in rules' ==> |Rows(tables, p.head)| < MAX_FACTS) {
      forall v ensures v in r.values <==> IsAnswer(q, facts, rules, v) {
        ValuesAreAnswers(q, facts, rules, Rows(tables, q.rel), values, cells, v);
      }
    }
  }

  /** The query loop: a row that fails a constant is skipped, the open columns of any other are appended. */
  method CollectRows(args: seq<Term>, rows: seq<Tuple>) returns (values: seq<string>, ghost cells: seq<Cell>)
    ensures Reads(args, rows, values, cells)
  {
    hide ReadsUpTo;
    values, cells := [], [];
    assert ReadsUpTo(args, rows, Cell(0, 0), values, cells) by { NothingRead(args, rows); }
    var r := 0;
    while r < |rows|
      invariant 0 <= r <= |rows|
      invariant ReadsUpTo(args, rows, Cell(r, 0), values, cells)
    {
      var row := rows[r];
      var c := 0;
      if Matches(args, row) {
        while c < |args|
          invariant 0 <= c <= |args|
          invariant ReadsUpTo(args, rows, Cell(r, c), values, cells)
        {
          if args[c].Var? && c < |row| {
            ReadCell(args, rows, Cell(r, c), values, cells);
            values, cells := values + [row[c]], cells + [Cell(r, c)];
          } else {
            SkipCell(args, rows, Cell(r, c), values, cells);
          }
          c := c + 1;
        }
      }
      NextRow(args, rows, Cell(r, c), values, cells);
      r := r + 1;
    }
  }

  lemma NothingRead(args: seq<Term>, rows: seq<Tuple>)
    ensures ReadsUpTo(args, rows, Cell(0, 0), [], [])
  {}

  lemma AnswersExact(q: Query, facts: seq<Atom>, rules: seq<Rule>, tables: Tables, order: seq<Atom>)
    requires Stratifiable(rules) && Applicable(q, facts, rules) && NullaryBaseFree(facts, rules)
    requires Tied(tables, order)
    requires var facts', rules' := MagicFacts(q, facts, rules),
             MagicRules(q, rules); Perfect(Loaded(facts', rules'), rules', Elems(order))
    ensures forall row :: Matches(q.args, row) ==>
            (row in Rows(tables, q.rel) <==> Atom(q.rel, row) in Model(facts, rules))
  {
    var facts', rules' := MagicFacts(q, facts, rules), MagicRules(q, rules);
    MagicKeepsStratifiable(q, facts, rules);
    MagicKeepsLoaded(q, facts, rules);
    NullaryBaseFactsAreLost(facts', rules', Elems(order));
    ModelIsTheOnlyOne(facts', rules', Elems(order));
    hide Perfect, Applicable, MagicFacts, MagicRules, NullaryBaseFree;
    forall row | Matches(q.args, row)
      ensures row in Rows(tables, q.rel) <==> Atom(q.rel, row) in Model(facts, rules)
    {
      MagicKeepsAnswers(q, facts, rules, row);
      assert row in Rows(tables, q.rel) <==> Atom(q.rel, row) in order;
    }
  }
}
