# A verified model of the Mochi compiler core

This project models the parts of the repository that carry its hard guarantees and proves what they promise:

- the **Datalog compiler**: stratification of rules with negation, the magic-set rewrite, and the per-stratum fixpoint evaluation (`Datalog`, `DatalogModel`, `DatalogStrata`, `DatalogMagic`, `DatalogEval`, `DatalogQuery`);
- the **typed IR**: its meaning, its verifier, and the lowering of scalar programs into it (`IR`, `Fuel`, `Verifier`, `Soundness`, `Source`, `Typing`, `Lowering`, `Acceptance`, `LoweringCorrect`, `LoweringMeaning`, `LowererCode`);
- **queries**: comprehensions with inner joins, hash joins and group-by (`KeyOrder`, `QueryIR`, `Query`, `QueryCorrect`, `QueryIndex`, `QueryTheorem`, `QueryLimits`, `GroupBy`);
- **closure lifting** (`Closure`, `ClosureTyping`);
- the **Erlang external term format** codec (`Etf`, `EtfCode`, `EtfFormat`), after the "External Term Format" chapter of the Erlang/OTP ERTS User's Guide;
- the **concurrent call manager and mailbox** as state machines over interleaved steps (`PortManager`, `Mailbox`);
- the **tree transformations**: the shunting-yard tree builder with its flat printer (`ExprTree`, and `Precedence` for how it relates to lowering) and match-arm canonicalisation (`MatchPass`).

Code that the source writes as pure expressions is a function here. Code that changes state step by step (the fixpoint engine, the verifier context, the lowerer, the decoder cursor, the output buffer, in-place sorting of arms) is a class or a method with loops, proved to compute what a specification function says; the theorems are about those functions.

The main results:

1. An evaluation of a Datalog program always ends, and when no table is full it holds exactly the perfect model; every stratified program has exactly one such model; with the rewrite in front, the collected answers are those of the program as written (`DatalogEval.Engine.Evaluate`, `DatalogModel.ModelIsTheOnlyOne`, `DatalogMagic.MagicKeepsAnswers`, `DatalogQuery.LowerLogicQuery`).
2. A program that `Verify` accepts never gets stuck, whatever the fuel (`Soundness.VerifiedProgramsNeverGetStuck`).
3. Lowering accepts exactly the scalar source programs that are well typed, by a typing judgement on the source syntax alone (`LowererCode.Lower`, `Acceptance.LoweredExactlyWhenTyped`); what it accepts yields IR that `Verify` accepts, that prints exactly what the source prints and that ends as it ends (`LoweringCorrect.LoweredProgramVerifies`, `LoweringMeaning.LoweringPreservesMeaning`).
4. A lowered query computes the list comprehension, and the hash join refines the nested loops (`QueryTheorem.LoweredQueryIsComprehension`, `QueryTheorem.HashJoinRefinesLoops`); a lowered group-by computes the groups in ascending key order (`GroupBy.LoweredGroupByIsGrouping`), where ascending means smaller numbers first and strings in dictionary order (`GroupBy.GroupedIs`, `KeyOrder.AscendingKeys`).
5. A function expression is lifted exactly when it is well typed, and the lifted closure means what its body meant where it was created (`ClosureTyping.LiftedExactlyWhenTyped`, `Closure.LiftedBodyMeansBody`).
6. The decoder returns a value exactly for the bytes that write it in the format's grammar, which is stated with its tag numbers on the bytes themselves (`EtfFormat.DecodeIsForm`); the encoder writes that grammar (`EtfFormat.EncodeWrites`); decoding an encoding returns the normalised term and stops exactly at its end (`Etf.RoundTrip`); and what is decoded can be encoded again exactly when it holds no big integer and no name over 65535 bytes, and then decodes to itself (`Etf.DecodeEncodeDecode`).
7. Over every interleaving, each call gets at most one result, its own, saying what a packet of the run says, and no send blocks (`PortManager.CallsAreAnsweredOnce`, `PortManager.ResultsAreSourced`, `PortManager.SendsNeverBlock`); a mailbox channel is closed at most once and never used afterwards, and a push on an open mailbox is sent exactly once (`Mailbox.NeverPanics`, `Mailbox.PushesAreSent`).
8. The match pass visits every match statement at any depth, refuses exactly on two unguarded arms of one tag, and orders the arms of every match (`MatchPass.RefusesDuplicates`, `MatchPass.EveryMatchInOrder`).

Where the code does not do what its documentation says, the model follows the code:

- The closing check for negative cycles is documented to reject every cycle through negation, but what it sees depends on the order of the rules. A program in which no rule from a negation on derives the negated relation always passes (`DatalogStrata.SettledPasses`), so `q :- p`, `p :- not q` passes (`DatalogStrata.HiddenCycleAccepted`); a program in which the head of a negating rule, once settled, is carried by later rules to the negated relation is always refused (`DatalogStrata.ShownCycleRejected`), so the same two rules in the other order are refused (`DatalogStrata.TurnedCycleRejected`).
- Lowering folds a flat operator chain to the left without precedence, and the source meaning used in result 3 is that left fold: `1 + 2 * 3` is lowered as `(1 + 2) * 3`, while the tree builder makes the other tree (`Precedence.PrecedenceIgnored`). The left fold is the builder's tree if and only if precedence never rises along the chain (`ExprTree.LeftFoldIsTheTree`), and then both mean the same (`Precedence.ChainMeansTree`).
- A base relation without columns loses its facts when its table is loaded (`DatalogEval.NullaryBaseFactsAreLost`).
- The magic-set rewrite loses answers when a recursive call is bound only by another recursive call (`DatalogMagic.DoubledPathLosesAnswer`).
- The source of a query clause is resolved outside the query but emitted inside its loops, so a query variable can capture it (`QueryLimits.CapturedSourceChangesResult`); a join that reuses an earlier variable compares the wrong values when keys are split off its condition and the outer key mentions that variable (`QueryLimits.RepeatedJoinVariableChangesResult`); this is the exact guard of the branch that goes wrong, and every other join that reuses a variable is covered by the theorems.
- Sorting match arms keeps the selected arm only if guarded arms already precede the unguarded arm of their tag (`MatchPass.ReorderingKeepsSelection`).
- In a run of 2^32 + 1 calls a sequence number is reused and the first call, still waiting, is forgotten (`PortManager.WrapAroundLosesCall`).

## Model

| member | source | states |
|---|---|---|
| `Datalog.PerfectModelUnique` | internal/clower/lower.go:7432-7436 | a stratified program has at most one perfect model: closed under its rules, each member justified by a well-founded derivation, negation read against the whole model |
| `Datalog.PerfectModelsAgree` | internal/clower/lower.go:7432-7436 | programs that agree on a dependency-closed set of relations have models that agree there |
| `DatalogModel.HeadInBase` | internal/clower/lower.go:7938-7973 | what a rule derives from atoms over the values of facts and rule heads is again such an atom, so only finitely many can be derived |
| `DatalogModel.Saturate` | internal/clower/lower.go:7982-7996 | any finished lower strata extend to a finished next stratum, each added atom justified |
| `DatalogModel.PerfectModelExists` | internal/clower/lower.go:7432-7436 | every stratifiable program has a perfect model |
| `DatalogModel.ModelIsTheOnlyOne` | internal/clower/lower.go:7432-7436 | a set is a perfect model of a stratifiable program if and only if it is its model |
| `DatalogStrata.StrataTheorem` | internal/clower/lower.go:7447-7476 | some round leaves `changed` false if and only if the rules can be stratified; it happens within the iteration bound; the result is then valid, and pointwise least among valid assignments |
| `DatalogStrata.RequiredLevel` | internal/clower/lower.go:7452-7468 | the level one rule asks for, from positive (>=) and negated (>) conditions |
| `DatalogStrata.RunRound` | internal/clower/lower.go:7450-7475 | one round over the rules, and whether it changed any level |
| `DatalogStrata.ComputeStrata` | internal/clower/lower.go:7437-7492 | a stratifiable program gets its least stratification; a program whose negations are settled is never refused, one whose cycle shows always is, and the relation reported is negated in some rule |
| `DatalogStrata.ClosingCheck` | internal/clower/lower.go:7478-7491 | refuses exactly when some negated condition is not strictly below its head |
| `DatalogStrata.SettledPasses` | internal/clower/lower.go:7478-7491 | if no rule from a negated condition's own rule on derives the negated relation, the check passes, stratifiable or not |
| `DatalogStrata.ShownCycleRejected` | internal/clower/lower.go:7478-7491 | if a negating rule's head, once no later rule derives it, is passed on by later rules to the negated relation, the check refuses |
| `DatalogStrata.Compress` | internal/clower/lower.go:7448 | any stratification can be squeezed to at most as many levels as there are rules, which is why the bound suffices |
| `DatalogStrata.HiddenCycleAccepted` | internal/clower/lower.go:7480-7489 | over any facts, an unstratifiable program that the closing check accepts |
| `DatalogStrata.TurnedCycleRejected` | internal/clower/lower.go:7478-7491 | the same rules in the other order are refused |
| `DatalogEval.BindSound` | internal/clower/lower.go:7820-7859 | matching a row against a condition extends the bindings so that the condition's arguments are the row |
| `DatalogEval.BindComplete` | internal/clower/lower.go:7820-7859 | every binding under which the arguments are the row is found |
| `DatalogEval.NullaryBaseFactsAreLost` | internal/clower/lower.go:7732-7768 | the loaded tables mean the program exactly when no base relation without columns has a fact |
| `DatalogEval.Engine.constructor` | internal/clower/lower.go:7722-7768 | tables seeded with the facts |
| `DatalogEval.Engine.Checks` | internal/clower/lower.go:7869-7936 | inequality and absence checks hold exactly when those conditions hold in the tables |
| `DatalogEval.Engine.Derive` | internal/clower/lower.go:7938-7973 | at most one insertion, only of a justified new tuple into a table with room; otherwise this binding is finished |
| `DatalogEval.Engine.Nest` | internal/clower/lower.go:7793-7980 | the loop nest over tables that may grow while they are read: a run without change has finished every binding |
| `DatalogEval.Engine.Visit` | internal/clower/lower.go:7805-7867 | one row of one loop of the nest |
| `DatalogEval.Engine.RunRound` | internal/clower/lower.go:7985-7995 | a round that changes nothing leaves the stratum finished; one that changes something uses up room |
| `DatalogEval.Engine.RunStratum` | internal/clower/lower.go:7985-7995 | the fixpoint loop ends with its stratum finished |
| `DatalogEval.Engine.Evaluate` | internal/clower/lower.go:7985-7996 | evaluation ends for every program, adds no duplicate; for a valid stratification everything derived is justified, and if no head table is full the tables are exactly the perfect model |
| `DatalogEval.MaxLevel` | internal/clower/lower.go:7778-7783 | the highest stratum in use |
| `DatalogMagic.ApplyMagicSet` | internal/clower/lower.go:7511-7620 | the rewritten facts and rules |
| `DatalogMagic.CollectBound` | internal/clower/lower.go:7517-7527 | the positions at which the query has constants |
| `DatalogMagic.HasRules` | internal/clower/lower.go:7529-7539 | whether the queried relation has rules |
| `DatalogMagic.GuardAndPropagate` | internal/clower/lower.go:7557-7617 | the guarded rule and one propagation rule for each recursive call |
| `DatalogMagic.Propagate` | internal/clower/lower.go:7603-7615 | the propagation rule: the guard and the earlier non-recursive conditions |
| `DatalogMagic.MagicSound` | internal/clower/lower.go:7511-7620 | everything the rewritten program derives for the query the program derives |
| `DatalogMagic.CallWanted` | internal/clower/lower.go:7577-7616 | under the binding condition a wanted rule instance makes its recursive calls wanted |
| `DatalogMagic.MagicFocuses` | internal/clower/lower.go:7577-7616 | the rewritten program derives a tuple of the queried relation only for bound values that the query or a recursive call asks for, unless it is a fact |
| `DatalogMagic.MagicComplete` | internal/clower/lower.go:7511-7620 | every wanted tuple of the queried relation is still derived |
| `DatalogMagic.MagicKeepsAnswers` | internal/clower/lower.go:7511-7620 | under the binding condition the rewritten program is stratified and its model holds the same tuples matching the query as the model of the program as written |
| `DatalogMagic.MagicKeepsStratifiable` | internal/clower/lower.go:7511-7620 | the rewrite keeps a program stratifiable |
| `DatalogMagic.DoubledPathLosesAnswer` | internal/clower/lower.go:7606-7609 | for `path(X,Y) :- path(X,Z), path(Z,Y)` over two edges, both programs have a model, and an answer in the one is missing from the other |
| `DatalogMagic.PathQueryLosesAnswer` | internal/clower/lower.go:7606-7609 | the same on one literal program: `path(a,c)` is in the model and missing after the rewrite |
| `DatalogMagic.DoubledPathUnbound` | internal/clower/lower.go:7606-7609 | that rule is outside the binding condition |
| `DatalogQuery.LowerLogicQuery` | internal/clower/lower.go:7634-8075 | rewrite, stratify, evaluate, collect: without a full table the rows are exactly the matching tuples of the model of the program as written; the values are read off the open columns of those rows, each such cell once, by row and then by column; a value is returned if and only if it stands in an open column of such a tuple; and facts without repeats give rows without repeats |
| `DatalogQuery.CollectRows` | internal/clower/lower.go:7998-8070 | the two nested loops collect every open cell of the matching rows, once, by row and then by column, and nothing else |
| `DatalogQuery.ReadsMembers` | internal/clower/lower.go:7998-8070 | a value is collected if and only if some row with the query's constants has it in an open column |
| `DatalogQuery.OneOpenColumn` | internal/clower/lower.go:8055-8068 | with one open column the k-th value is that column of the k-th matching row |
| `DatalogQuery.RowsDistinct` | internal/clower/lower.go:7938-7973 | no row of the queried relation occurs twice when no fact does |
| `DatalogQuery.AnswersExact` | internal/clower/lower.go:7634-8075 | the tables after the rewritten run hold exactly the matching tuples of the model of the original program |
| `Fuel.FuelOnlyDelays` | internal/aotir/program.go:620-680 | a run that ends otherwise than out of fuel prints and ends alike with more fuel; what any run prints is a prefix of what it prints with more |
| `Verifier.Find` | internal/aotir/verifier.go:474-482 | the innermost binding of a name along the parent chain |
| `Verifier.Context.VerifyExpr` | internal/aotir/verifier.go:1715-2487 | accepts exactly the well-typed scalar expressions |
| `Verifier.Context.VerifyArgs` | internal/aotir/verifier.go:711-732 | accepts exactly the argument lists that fit a signature |
| `Verifier.Context.VerifyStmt` | internal/aotir/verifier.go:484-1160 | accepts exactly the well-formed statements, leaves the scope they leave, restores loop depth and outer frames |
| `Verifier.Context.VerifyBlock` | internal/aotir/verifier.go:1693-1703 | a block is checked in a frame of its own and leaves the scope as it was |
| `Verifier.Context.VerifySeq` | internal/aotir/verifier.go:408-412 | a statement list, each statement in the scope its predecessors leave |
| `Verifier.Context.SeedParams` | internal/aotir/verifier.go:387-398 | refuses exactly empty and repeated parameter names; otherwise the root frame holds the parameters, immutable |
| `Verifier.CollectNames` | internal/aotir/verifier.go:174-185 | refuses exactly empty and repeated function names; otherwise gives the name table |
| `Verifier.Verify` | internal/aotir/verifier.go:40-415 | decides exactly the predicate `Accepts` |
| `Verifier.AcceptedClean` | internal/aotir/verifier.go:40-415 | in an accepted program no name bound at any depth is empty, what is predeclared is mutable, no expression calls a function without a result, and the entry function takes and returns nothing |
| `Soundness.ApplySound` | internal/aotir/verifier.go:2593-2618 | each operator gives a value of the table's result type, or traps, on operands of the table's types |
| `Soundness.NegateSound` | internal/aotir/verifier.go:3414-3424 | the same for prefix operators |
| `Soundness.TableFinds` | internal/aotir/verifier.go:174-185 | with unique names the name table and a search of the program agree |
| `Soundness.LookupAgrees` | internal/aotir/verifier.go:474-482 | chains in agreement bind the same names, with values of the static types and the same mutability |
| `Soundness.UpdateAgrees` | internal/aotir/verifier.go:959-976 | an accepted assignment keeps the chains in agreement |
| `Soundness.EvalSound` | internal/aotir/verifier.go:1715-2487 | an accepted expression gives a value of its recorded type or halts without a fault |
| `Soundness.EvalArgsSound` | internal/aotir/verifier.go:711-732 | accepted arguments give values of the parameter types |
| `Soundness.InvokeSound` | internal/aotir/verifier.go:366-415 | a call of a verified function returns a value of its return type or halts without a fault |
| `Soundness.StmtSound` | internal/aotir/verifier.go:484-1342 | an accepted statement keeps the chains in agreement, jumps only inside a loop, returns only the return type |
| `Soundness.SeqSound` | internal/aotir/verifier.go:408-412 | the same for statement lists |
| `Soundness.BlockSound` | internal/aotir/verifier.go:1693-1703 | a block leaves the outer chain in agreement, however it ends |
| `Soundness.WhileSound` | internal/aotir/verifier.go:1103-1119 | every number of rounds of a while loop |
| `Soundness.RangeSound` | internal/aotir/verifier.go:1125-1161 | every number of rounds of a range loop |
| `Soundness.VerifiedProgramsNeverGetStuck` | internal/aotir/verifier.go:23-39 | for every accepted program and fuel, a run ends normally, in a trap, by falling off a function's end, or out of fuel |
| `LowererCode.Lowerer.Expression` | internal/clower/lower.go:3106-3175 | the left fold of a flat chain gives the lowered expression |
| `LowererCode.Lowerer.UnaryExpression` | internal/clower/lower.go:3331-3361 | prefix operators from the innermost outwards |
| `LowererCode.Lowerer.Primary` | internal/clower/lower.go:4114-4260 | literals, groups, variables and user calls |
| `LowererCode.Lowerer.CallArgs` | internal/clower/lower.go:1168-1242 | arguments lowered and checked against the parameters |
| `LowererCode.Lowerer.CallStatement` | internal/clower/lower.go:1030-1165 | print and discarded calls |
| `LowererCode.Lowerer.Statement` | internal/clower/lower.go:953-2285 | appends exactly the lowered statement, leaves the scope it leaves, restores the loop depth |
| `LowererCode.Lowerer.IfStatement` | internal/clower/lower.go:2062-2103 | an else-if becomes an else block with one statement |
| `LowererCode.Lowerer.NestedBlock` | internal/clower/lower.go:2627-2641 | a nested block in a fresh frame |
| `LowererCode.Params` | internal/clower/lower.go:788-820 | parameter names present and distinct, types known |
| `LowererCode.CollectFuncs` | internal/clower/lower.go:450-477 | the signatures of all declarations, or a refusal |
| `LowererCode.FunctionBody` | internal/clower/lower.go:508-579 | one lowered function |
| `LowererCode.Lower` | internal/clower/lower.go:40-640 | accepts exactly the well-typed programs and gives the lowered program; its closing verification never refuses |
| `Acceptance.OpTyped` | internal/clower/lower.go:3183-3327 | the operator table accepts an operator on two types exactly when both are one type it is defined on, and gives the result type |
| `Acceptance.PrefixesTyped` | internal/clower/lower.go:3331-3361 | a row of prefix operators is accepted exactly when each is defined on the operand's type, which it keeps |
| `Acceptance.ExprTyped` | internal/clower/lower.go:3106-3360 | an expression is lowered exactly when it is typed, and the lowered node has its type |
| `Acceptance.PrimaryTyped` | internal/clower/lower.go:4114-4260 | literals, groups, variables and calls, a call against the declaration it names |
| `Acceptance.ArgsTyped` | internal/clower/lower.go:1168-1242 | arguments are accepted exactly when they are as many as the parameters and of their types |
| `Acceptance.CallStmtTyped` | internal/clower/lower.go:1030-1165 | print needs one printable value, any other call a declaration that fits |
| `Acceptance.StmtAccepted` | internal/clower/lower.go:953-2285 | a statement is lowered exactly when it is typed (jumps inside a loop, returns of the declared type, names bound, fresh and mutable), and leaves the scope the judgement leaves |
| `Acceptance.IfAccepted` | internal/clower/lower.go:2062-2103 | the same for if chains |
| `Acceptance.SeqAccepted` | internal/clower/lower.go:2627-2641 | the same for statement lists, each in the scope of its predecessors |
| `Acceptance.ParamsAccepted` | internal/clower/lower.go:788-820 | parameters are accepted exactly when present, distinct and of known types |
| `Acceptance.CollectAccepted` | internal/clower/lower.go:450-477 | the declarations are collected exactly when each signature is typed and no name repeats |
| `Acceptance.BodiesAccepted` | internal/clower/lower.go:508-579 | all bodies are lowered exactly when each is typed against its declaration |
| `Acceptance.LoweredExactlyWhenTyped` | internal/clower/lower.go:40-640 | a program is lowered if and only if it is well typed |
| `LoweringCorrect.OpForTypesAgrees` | internal/clower/lower.go:3183-3327 | the operator picked from operand types has those types in the verifier's table |
| `LoweringCorrect.ExprVerifies` | internal/clower/lower.go:3106-3360 | every lowered expression passes the verifier in the same scope |
| `LoweringCorrect.CallStmtVerifies` | internal/clower/lower.go:1030-1165 | every lowered call statement resolves, and its arguments fit |
| `LoweringCorrect.StmtVerifies` | internal/clower/lower.go:953-2285 | every lowered statement passes, and lowerer and verifier end in the same scope |
| `LoweringCorrect.IfVerifies` | internal/clower/lower.go:2062-2103 | if chains pass |
| `LoweringCorrect.SeqVerifies` | internal/clower/lower.go:2627-2641 | statement lists pass, scope for scope |
| `LoweringCorrect.CompiledMatches` | internal/clower/lower.go:450-579 | the emitted functions carry the collected signatures under their mangled names |
| `LoweringCorrect.MangledIsNoBuiltin` | internal/aotir/verifier.go:16-21 | a user function can never be shadowed by a builtin |
| `LoweringCorrect.LoweredProgramVerifies` | internal/clower/lower.go:40-640 | every accepted source program lowers to a program that `Verify` accepts |
| `LoweringMeaning.PickedMeans` | internal/clower/lower.go:3183-3327 | the typed operator does what the overloaded operator does on values of those types |
| `LoweringMeaning.ExprMeans` | internal/clower/lower.go:3106-3360 | a lowered expression evaluates to what the source expression means and prints what it prints |
| `LoweringMeaning.OpMeans` | internal/clower/lower.go:3165-3174 | including short-circuit evaluation |
| `LoweringMeaning.InvokeMeans` | internal/clower/lower.go:508-579 | calls correspond, with everything their bodies print |
| `LoweringMeaning.StmtMeans` | internal/clower/lower.go:953-2285 | a lowered statement runs as the source statement runs, output included |
| `LoweringMeaning.PrintMeans` | internal/clower/lower.go:1147-1165 | a lowered print writes the value the source prints |
| `LoweringMeaning.WhileMeans` | internal/clower/lower.go:2265-2282 | while loops correspond round by round |
| `LoweringMeaning.RangeMeans` | internal/clower/lower.go:2113-2162 | range loops correspond round by round |
| `Source.Division` | transpiler/lower/lower.go:2319-2327 | division truncates toward zero and a remainder has the sign of the dividend |
| `Source.ReadsInnermost` | internal/clower/lower.go:906-950 | a name is read in the innermost frame that has it |
| `Source.WritesInnermost` | internal/clower/lower.go:1877-1900 | an assignment writes that frame and no other |
| `Source.CountsUp` | internal/aotir/program.go:651-664 | a range loop runs once for every number from the first up to, and not including, the last |
| `LoweringMeaning.LoweringPreservesMeaning` | internal/clower/lower.go:40-640 | for every accepted program and fuel, the lowered program prints exactly what the source program prints and ends as it ends |
| `LoweringMeaning.AcceptedSourceNeverGetsStuck` | internal/clower/lower.go:40-640 | an accepted source program cannot go wrong |
| `KeyOrder.AscendingKeys` | internal/aotir/program.go:1091-1100 | the keys of a map come out each exactly once and ascending: of two numbers the smaller first, of two strings the one that is a proper prefix or smaller at the first difference |
| `KeyOrder.BelowByValue` | internal/aotir/program.go:1091-1100 | the order used is that order of numbers, booleans and strings |
| `QueryIR.EvalSame` | internal/clower/lower.go:5980-6003 | an expression depends only on the variables the name scan collects |
| `Query.ExtractHashJoinKeys` | internal/clower/lower.go:6036-6053 | finds keys exactly for an equality with one side over the joined variable and the other over the outer variables, and returns those two sides with their type |
| `Query.JoinPlan` | internal/clower/lower.go:6583-6610 | a join is planned as a hash join exactly when its condition is such an equality |
| `Query.LowerQuery` | internal/clower/lower.go:6397-6771 | the two reverse wrapping loops give the code of the plan |
| `QueryCorrect.IndexGroups` | internal/clower/lower.go:6093-6118 | an index holds under each key the items with that key, in order |
| `QueryCorrect.KeptMatching` | internal/clower/lower.go:6037-6053 | the items the condition keeps are those filed under the outer key |
| `QueryCorrect.BodyRuns` | internal/clower/lower.go:6572-6687 | the nest of loops and lookups appends exactly the rows of the comprehension |
| `QueryCorrect.LoopRuns` | internal/clower/lower.go:6595-6609 | one clause as a loop, with its condition |
| `QueryCorrect.HashRuns` | internal/clower/lower.go:6120-6140 | one clause as a hash lookup |
| `QueryIndex.AccumulateRuns` | internal/clower/lower.go:6093-6113 | one round of the index loop files the item under its key |
| `QueryIndex.IndexRuns` | internal/clower/lower.go:6114-6118 | the index loop builds the index of the whole list |
| `QueryIndex.PreludeRuns` | internal/clower/lower.go:6058-6118 | all indexes, in emission order |
| `QueryTheorem.PlanGood` | internal/clower/lower.go:6583-6610 | the plan of a well-scoped query is sound and its generated names are distinct |
| `QueryTheorem.RowsUnderPlan` | internal/clower/lower.go:6588-6610 | a plan changes nothing but the need to evaluate its keys |
| `QueryTheorem.LoweredQueryIsComprehension` | internal/clower/lower.go:6397-6771 | the code finishes if and only if the comprehension has a value and the hash keys evaluate, and then holds exactly that list, leaving the user's variables alone |
| `QueryTheorem.LoopsNeedNoKeys` | internal/clower/lower.go:6595-6609 | without hash joins the key condition is empty |
| `QueryTheorem.HashJoinRefinesLoops` | internal/clower/lower.go:6058-6140 | when the hash join finishes the nested loops finish with the same list; when they finish, it finishes if and only if its keys evaluate |
| `QueryLimits.CapturedSourceChangesResult` | internal/clower/lower.go:6424-6467 | a source that mentions an earlier query variable is captured |
| `QueryLimits.RepeatedJoinVariableChangesResult` | internal/clower/lower.go:6037-6053 | a join that reuses a variable gives another list |
| `QueryLimits.LimitsAreOutside` | internal/clower/lower.go:6036-6053 | each of the two queries violates its own part of the scoping condition |
| `GroupBy.GroupKeysAscend` | internal/clower/lower.go:6334-6378 | result keys are distinct and ascending by value, no group is empty, and the groups hold every picked item exactly once |
| `GroupBy.GroupsPartition` | internal/clower/lower.go:6263-6297 | over covering distinct keys the groups partition the picked items |
| `GroupBy.GroupAppend` | internal/clower/lower.go:6263-6297 | each group keeps source order |
| `GroupBy.TableGroups` | internal/clower/lower.go:6263-6287 | the map built by the loop holds exactly the groups |
| `GroupBy.FileAllRuns` | internal/clower/lower.go:6263-6308 | the accumulation loop with its guard |
| `GroupBy.ProjectAllRuns` | internal/clower/lower.go:6345-6378 | the projection loop appends one selected value for each key |
| `GroupBy.LoweredGroupByIsGrouping` | internal/clower/lower.go:6167-6383 | the code finishes if and only if the grouping is defined, and then holds the selected values in key order |
| `GroupBy.GroupedIs` | internal/clower/lower.go:6167-6383 | the grouping item by item: one row for every key of a passing item, keys ascending by value, each row selected over the list of exactly the passing items with that key, in source order |
| `GroupBy.PlacesAre` | internal/clower/lower.go:6263-6297 | a group takes the places of all items with its key, rising, and no others |
| `Closure.Scan.Collect` | internal/clower/lower.go:3695-3762 | the scan adds exactly the identifiers the body reads |
| `Closure.LowerFunExpr` | internal/clower/lower.go:3855-4037 | gives the lifted function with its captures, or refuses |
| `Closure.LowerVars` | internal/clower/lower.go:3672-3693 | a lowered body reads exactly the scanned identifiers, and all of them are bound |
| `Closure.LiftedReadsParamsAndCaptures` | internal/clower/lower.go:3924-3962 | every variable of a lifted body is a parameter or a capture, and every capture is read there, has its type in the enclosing scope and is no parameter |
| `Closure.LiftSucceedsExactlyWhereBodyLowers` | internal/clower/lower.go:3924-4005 | with scalar parameters, result and captures, lifting succeeds if and only if the body can be lowered in the enclosing scope with the declared type |
| `ClosureTyping.LiftedExactlyWhenTyped` | internal/clower/lower.go:3855-4037 | a function expression is lifted if and only if it is well typed, with scalar parameters and captures |
| `Closure.LiftedVerifies` | internal/aotir/verifier.go:399-412 | the verifier accepts the lifted function in the scope it seeds for it |
| `Closure.LiftedBodyMeansBody` | internal/clower/lower.go:3855-4037 | a call with the captured record equals the meaning of the body in the scope at creation |
| `Etf.BeRoundTrip` | etf/etf.go:155-169 | big-endian fields read back |
| `Etf.BigRoundTrip` | etf/etf.go:402-424 | SMALL_BIG_EXT returns every 64-bit value, `MinInt64` included |
| `Etf.IntRoundTrip` | etf/etf.go:591-623 | every integer through whichever of the three forms is chosen |
| `Etf.AtomRoundTrip` | etf/etf.go:625-641 | atoms in both sizes |
| `Etf.BinaryRoundTrip` | etf/etf.go:643-650 | binaries |
| `Etf.RoundTripAll` | etf/etf.go:652-686 | element lists, consumed exactly |
| `Etf.RoundTrip` | etf/etf.go:550-730 | at any place in any input the encoding of a term within the limits decodes to its normal form with the cursor at its end |
| `Etf.EncodeDecode` | etf/etf.go:541-548 | decoding an encoding followed by anything returns the normal form |
| `Etf.PrefixFree` | etf/etf.go:541-548 | encodings are prefix-free, and equal only for terms with one normal form |
| `Etf.EncodesExactly` | etf/etf.go:550-730 | a term has an encoding if and only if no part is a big integer or has a name over 65535 bytes |
| `Etf.DecTerm` | etf/etf.go:171-250 | decoding ends on every input, stays inside it and only moves forward |
| `Etf.DecodedGood` | etf/etf.go:171-250 | whatever is decoded is in normal form and within the limits |
| `Etf.DecodeEncodeDecode` | etf/etf.go:120-135 | a decoded value re-encodes if and only if every part of it is writable, and decoding that returns it |
| `EtfFormat.DecodesForm` | etf/etf.go:171-250 | at any place in any input the decoder returns a value, and stops at an end, if and only if the bytes between write that value in the format's grammar |
| `EtfFormat.DecodesForms` | etf/etf.go:332-342 | the same for terms one after the other |
| `EtfFormat.DecodeIsForm` | etf/etf.go:120-135 | a whole input decodes to a value if and only if it is the version byte 131 and then bytes that write the value |
| `EtfFormat.NumberIs` | etf/etf.go:402-424 | the digits of a big integer weigh 1, 256, 256^2, and so on, negated for a non-zero sign byte |
| `EtfFormat.Utf8Of` | etf/etf.go:282-308 | Latin-1 text comes back as the UTF-8 of its code points |
| `EtfFormat.Refusals` | etf/etf.go:120-135 | inputs that are too short, of another version, compressed or of an unknown tag, each with its error |
| `EtfFormat.Charlist` | etf/etf.go:344-359 | 107: a character list is the list of its bytes as integers, in order |
| `EtfFormat.LongAtom` | etf/etf.go:282-308 | 100: a Latin-1 atom with a two-byte length |
| `EtfFormat.ShortAtom` | etf/etf.go:282-308 | 115: a Latin-1 atom with a one-byte length |
| `EtfFormat.LargeBig` | etf/etf.go:402-424 | 111: an integer of any number of digits |
| `EtfFormat.PidBytes` | etf/etf.go:426-455 | 103 and 88: node, id, serial and creation from their bytes |
| `EtfFormat.PortBytes` | etf/etf.go:457-482 | 102 and 89: node, id and creation from their bytes |
| `EtfFormat.OldReferenceBytes` | etf/etf.go:484-502 | 101: node, one id word and a one-byte creation |
| `EtfFormat.ReferenceBytes` | etf/etf.go:504-536 | 114 and 90: node, creation and the id words in order |
| `EtfFormat.ImproperList` | etf/etf.go:361-386 | 108: a tail that is no list becomes the last element |
| `EtfFormat.EncodeWrites` | etf/etf.go:541-730 | an encoding is 131 and then, in the grammar, a form of the normalised value with the tag of its kind |
| `EtfFormat.BoolBytes` | etf/etf.go:550-589 | booleans are the atoms true and false, byte for byte |
| `EtfFormat.NormalIs` | etf/etf.go:550-589 | what each kind of value comes back as; elements one by one, in order |
| `EtfCode.Decoder.Byte` | etf/etf.go:137-144 | reads one byte or reports truncation |
| `EtfCode.Decoder.Bytes` | etf/etf.go:146-153 | reads a slice or reports truncation |
| `EtfCode.Decoder.AtomLatin1` | etf/etf.go:282-308 | the conversion loop from Latin-1 |
| `EtfCode.Decoder.StringExt` | etf/etf.go:344-359 | a character list |
| `EtfCode.Decoder.BigInt` | etf/etf.go:402-424 | the digit loop gives the signed value |
| `EtfCode.Decoder.Terms` | etf/etf.go:332-342 | n terms in order |
| `EtfCode.Decoder.ListTerm` | etf/etf.go:361-386 | proper and improper lists |
| `EtfCode.Decoder.PidTerm` | etf/etf.go:426-455 | process identifiers |
| `EtfCode.Decoder.PortTerm` | etf/etf.go:457-482 | port identifiers |
| `EtfCode.Decoder.ReferenceOld` | etf/etf.go:484-502 | old references |
| `EtfCode.Decoder.NewReference` | etf/etf.go:504-536 | newer references |
| `EtfCode.Decoder.DecodeTerm` | etf/etf.go:171-250 | the cursor decoder does what the specification does, value and cursor |
| `EtfCode.DecodeBytes` | etf/etf.go:120-135 | the version byte, then one term |
| `EtfCode.Digits` | etf/etf.go:609-613 | the little-endian digits of a magnitude |
| `EtfCode.Buffer.PutInt` | etf/etf.go:591-623 | appends the encoding of an integer |
| `EtfCode.Buffer.PutAtom` | etf/etf.go:625-641 | appends the encoding of an atom or refuses |
| `EtfCode.Buffer.PutTerm` | etf/etf.go:550-589 | appends exactly the encoding of the term, or refuses exactly when there is none |
| `EtfCode.EncodeTerm` | etf/etf.go:541-548 | the version byte and the encoding |
| `PortManager.SeqDistinct` | port/port.go:155-160 | n calls have distinct sequence numbers if and only if n is at most 2^32 |
| `PortManager.StepKeeps` | port/port.go:154-190 | every step of callers, reader, timer and stop keeps the invariant |
| `PortManager.RunKeeps` | port/port.go:228-307 | every run keeps it |
| `PortManager.CallsAreAnsweredOnce` | port/port.go:154-190 | at most one result reaches a call, it is the call's own, and a waiting call is registered, in hand or answered |
| `PortManager.ResultsAreSourced` | port/port.go:262-307 | in every run a result in a channel or returned is what a dispatched packet says (the atom `reply`, the atom `error`, or another first element; its number; its third element), and a close comes only from a drain of that call |
| `PortManager.PacketReachesCall` | port/port.go:262-298 | a packet for a registered call puts its result in the channel of exactly that call, and the waiting caller returns it |
| `PortManager.OtherPacketsIgnored` | port/port.go:262-281 | anything else read from the wire changes nothing |
| `PortManager.ResultIs` | port/port.go:282-298 | which packet stands for which result |
| `PortManager.SendsNeverBlock` | port/port.go:262-307 | no send in `dispatch` or `drainPending` can block |
| `PortManager.DrainAnswersAll` | port/port.go:300-307 | after the final drain every waiting call has its result |
| `PortManager.WrapAroundLosesCall` | port/port.go:155-160 | a run of 2^32 + 1 calls after which the first call waits without being registered, held or answered, its sequence number owned by the last: the bound is sharp |
| `Mailbox.ControlKept` | async/async.go:109-134 | every step keeps the closing protocol |
| `Mailbox.HistoryKept` | async/async.go:136-171 | every step keeps the account of polled messages |
| `Mailbox.RunKeeps` | async/async.go:80-171 | every run keeps both |
| `Mailbox.NeverPanics` | async/async.go:109-134 | no channel is closed twice and nothing is sent after the close |
| `Mailbox.PolledInOrder` | async/async.go:136-171 | delivered polled messages are an in-order subsequence of those received, a drop means a full buffer, and the consumer sees everything sent in order |
| `Mailbox.PushesAreSent` | async/async.go:109-134 | a push that ended found the mailbox closed or has its own message in the channel's history exactly once; every unpolled message there is of one push; a close that returned has closed the channel |
| `ExprTree.Reduce` | internal/ast/convert.go:435-444 | reduction keeps the in-order reading and leaves only weaker operators on the stack |
| `ExprTree.FromExpr` | internal/ast/convert.go:403-461 | the tree reads in order as the chain and is precedence-shaped; it is the left fold if and only if precedence never rises |
| `ExprTree.ShapedUnique` | internal/ast/convert.go:417-432 | there is only one precedence-shaped tree with a given reading |
| `ExprTree.LeftFoldIsTheTree` | internal/ast/convert.go:403-461 | the left fold of a chain is its tree if and only if precedence never rises along it |
| `ExprTree.TwoOperators` | internal/ast/convert.go:418-433 | of two operators in a row the second groups first exactly when its level in the table is higher |
| `ExprTree.Neighbours` | internal/ast/convert.go:418-433 | one pair for every two neighbouring levels, `a || b && c` among them, and an `_all` operator, which binds loosest |
| `Precedence.ChainMeansLeftFold` | internal/clower/lower.go:3106-3175 | a source chain means what its left fold does |
| `Precedence.ChainMeansTree` | internal/clower/lower.go:3106-3175 | where precedence never rises it means what the precedence tree does |
| `Precedence.PrecedenceIgnored` | internal/clower/lower.go:3106-3175 | `1 + 2 * 3` is 9 as lowered and 7 as a tree |
| `ExprTree.AsChainTokens` | internal/ast/printer.go:548-557 | flat printing gives the in-order reading |
| `ExprTree.Reparse` | internal/ast/printer.go:548-557 | rebuilding from the flat print of a tree returns the tree if and only if it is shaped |
| `ExprTree.FlatAmbiguous` | internal/ast/printer.go:548-557 | without the shape two trees share one flat print |
| `MatchPass.SortedIsStable` | internal/clower/match.go:94-107 | arms of equal rank keep their order |
| `MatchPass.SortedIsPermutation` | internal/clower/match.go:94-107 | sorting loses and adds no arm, and the ranks ascend |
| `MatchPass.SortedByTag` | internal/clower/match.go:94-107 | the arms end up by tag, guarded ones first within a tag, and otherwise in their old order |
| `MatchPass.HasDuplicate` | internal/clower/match.go:80-92 | finds exactly two unguarded arms of one tag |
| `MatchPass.SortInPlace` | internal/clower/match.go:94-107 | the array becomes its stable sort |
| `MatchPass.CanonicalizeArms` | internal/clower/match.go:79-122 | refuses, leaving the arms untouched, exactly on a duplicate; otherwise sorts |
| `MatchPass.ReorderingKeepsSelection` | internal/clower/match.go:79-122 | the selected arm is unchanged for every value and every meaning of guards if and only if guards come first |
| `MatchPass.PassRefuses` | internal/clower/match.go:37-77 | the pass refuses exactly when a visited match has a duplicate |
| `MatchPass.RefusesDuplicates` | internal/clower/match.go:37-92 | a block is refused if and only if some match statement in it, at whatever depth, has two unguarded arms of one tag |
| `MatchPass.VisitsAll` | internal/clower/match.go:37-77 | every match statement within a block, at any depth, is visited |
| `MatchPass.VisitsOnly` | internal/clower/match.go:37-77 | and nothing else is |
| `MatchPass.EveryMatchInOrder` | internal/clower/match.go:37-122 | after the pass every match statement, at any depth, has its arms by tag and guarded ones first |
| `MatchPass.PassPreserves` | internal/clower/match.go:37-77 | if guards come first in every visited match, the canonical block runs as the original |

## Left out

- `DatalogStrata.ComputeStrata`: for unstratifiable programs outside both rule-order conditions, whose levels compete round by round, only the outcome of the check is stated.
- `DatalogMagic.MagicKeepsAnswers`: the binding condition is sufficient; `DoubledPathLosesAnswer` shows a program outside it that fails, but some programs outside it keep their answers by accident of their facts.
- `DatalogEval.Engine.Derive`: a rule without positive conditions is only skipped; in the emitted C its `continue` leaves the whole round.
- `DatalogEval.Engine.Checks`: models the intended loop of a multi-argument absence check, not its C text; an unbound variable of `!=` counts as the empty string.
- `DatalogEval.Engine.constructor`: a relation used with two arities, an undeclared relation, and more than 4096 seeded facts (which overflow the C array) are not modelled.
- `QueryTheorem.LoweredQueryIsComprehension`: the scoping condition is a guard on the text of the query; two lemmas in `QueryLimits` show queries outside it that fail, but one outside it can still give the right list by accident of its data.
- `Verifier.Verify`: reports acceptance only, not the error message; records, unions, collections, agents, streams, channels, extern functions and the `__await_all__` pseudo-call are outside the scalar fragment.
- `LowererCode.Lowerer.Primary`: format strings, partial application with `_`, function references and the built-in calls are refused here; the compiler lowers them to nodes outside the fragment.
- `LowererCode.Lower`: reports refusal without its message; type parameters and effects of declarations are outside the fragment.
- `Closure.LowerFunExpr`: captured names are redirected by a pass over the lowered body, where the compiler lowers the body under bindings that carry the emitted name (internal/clower/lower.go:3940-3962); block bodies and nested closures are not modelled; captures are a map, so their order in the environment record is not.
- `Query.ExtractHashJoinKeys`: equality of records, lists and maps is not modelled; the verifier accepts only int and string as map keys.
- `MatchPass.PassPreserves`: nested statements are values here; only the arm array of one match is sorted in place.
- Floating point: IR floats are reals, ETF floats are their bit patterns.
- Queries: left, right and outer joins, `sort by`, `skip`, `take`, `having`, `distinct`; query elements are data, their static types are not tracked.
- COMPRESSED terms (etf/etf.go:252-271) fail to decode here.
- Packet framing, process spawning, real timers, HTTP, and the write lock of the port manager.
- Mailbox: an unbuffered channel has no rendezvous with its consumer in this model.
- Token positions and the spelling of `_all` operators in printed expressions; parenthesised operands are opaque.
- C and Core Erlang emission, `RawCStmt`, escaping.
- `lockfile`, `hexindex`, `publish`, `cnode`, `otp`, `async/process.go`, `async/monitor.go`, `preLexScan`, `hexsemver`, `typemap`, `beamingest`, `edocingest` and the import-reference parsers.
