# ADAN

ADAN is a small language with a compiler written in C (scanner, parser, validator, lowering to blocks of
instructions, LLVM text), a runtime, and a standard library. This project models the parts of it with
the most branching and state, and proves what they are for.

| part | files | source |
|---|---|---|
| Lowering of statements to blocks and branches | Ast, Ir, Source, Lower, Lowerer, Scope, LowerShape, LowerFacts, LowerNames, Relation, ExprSimulation, StmtSimulation, Preservation, Resolution, Shadowing, Compiled, Initialiser, Linked, CallStack | src/backend/lower.c, src/backend/ir/ir.c |
| Which functions are lowered | Reachability, LoweredCalls, LiveCalls, CallNames | src/backend/lower.c |
| Regular expressions | RegexMatch, RegexMatcher, RegexLeaves, RegexRelation, RegexFacts, RegexSearch, RegexOrder, RegexGreed, RegexFind, RegexChoice, RegexText, RegexReplace, RegexTemplate, RegexParse, RegexParser, RegexReadings, RegexPrint, RegexCanon, RegexEscape | libs/regex/regex.c |
| JSON | Json, JsonParser, JsonGrammar, JsonDocument, JsonAccepts, JsonLayout, JsonRoundTrip, JsonNormal | libs/json |
| Expressions of the parser | Ladder, LadderParser, LadderOrder, LadderForms, LadderRoundTrip | src/frontend/parser/parser.c |
| Types written as text | TypeNames, TypeNameFacts, TypeNameEdges, TypeNameScan, TypeParser, TypeForms, TypeWriting | src/frontend/parser/parser.c, src/frontend/semantics/validator.c |
| Scoped symbol table | SymbolTable | src/stm.c |
| Random numbers and sampling | Random, Sampling, GrowableArray | libs/random, src/backend/runtime/runtime.c |
| Splitting and joining | Strings | libs/string |

Wrappers, Bytes and Slices are shared. `dafny verify dfyconfig.toml` checks everything.

## How the parts are built

Each imperative routine is a method, or a method of a class whose fields are the variables the routine
updates, and its contract equates the new state with a specification function of the old one. The
theorems are lemmas about those functions. What the functions themselves rest on, constants, tables and
single steps, is stated a second time in terms of the inputs alone (`RegexLeaves`, `RegexReadings`,
`CallNames`, `JsonGrammar`, `LadderOrder`, `TypeNameEdges`).

**Lowering.** `Source` gives a statement its structured meaning: a stack of scopes, the globals, a
trace of calls, and an outcome that says how the statement ended. Loops take fuel, and running out of it
is an outcome of its own. `Ir` runs blocks one instruction at a time. What a called function returns and
what an operator computes are parameters (`World`), the same for both sides; a call is answered from the
trace so far and may change globals and trace. `Linked` fills that parameter in: calls run the lowered
code of the callee on one side and execute its source on the other, to any depth; `outside` answers for
functions that are not declared, and a call that does not return, or lies too deep, is marked in the
trace. `CallStack` is one machine for the code of all functions, and comes to an end exactly where the
source does without a mark.

The symbol table of the lowering has no scopes and is never cleared, so an inner declaration of a name
changes what the name means afterwards. The condition of the theorems (`Faithful`) is that every name is
used only where the flat table still has it right. `ResolvesExactly`, for a statement, and
`ProgramResolvesExactly`, for a program, show that this says no more and no less than that each lowered
use resolves to the declaration in scope; `NoShadowFaithful` gives a simple
case, and two lemmas give programs whose meaning changes. Between functions `ProgramFaithful` takes out
of the globals that are right those names that the functions before have declared. A condition that is a
call of a void function has no value and leaves its block without a terminator, which is the other half
of the condition and the exact one in `LoweringValidates`.

**Regular expressions.** `RegexRelation` says what a tree means without any search. A tree is *linear*
when each choice in it is a number of rounds of a repeat that stands in the sequence after it, or is the
last thing tried; the items repeated must leave no choice (`Det`) and move forward. Literals, classes,
anchors, boundaries, back-references, groups, alternatives of one width without captures, alternatives
between words of which none begins another, exact counts and look-arounds over such trees leave no
choice. The search is complete on linear trees. An alternation or a group keeps the first way it
matches: `AtomicExactly` and `WordsExactly` say exactly when that loses nothing, and `ZeroWidthRounds`
when a repeat of something of no width agrees with the relation. The public entry points strip one
pair of outer quotes from each argument; everything here is about the stripped strings. Locale
predicates are a parameter of a subject.

**JSON.** A number is of any type, and its conversions from and to text are parameters (`Floats`). The
source converts with 64-bit floats and prints six digits, so not every number survives being printed;
the round trips say exactly which values and which texts are kept. Of the printing they ask that it
writes no whitespace and no punctuation of JSON (`Plain`). `JsonDocument` writes values down with all the
whitespace they may have; `AcceptsExactly` says that these texts, and no others, are valid.

**Types as text.** The buffers of 128 and 256 characters cut what does not fit. The statements about
properties and elements say what is found including the cut, so they need no bound.

The code and its documentation disagree in places, and the model follows the code: grammar.ebnf lists no
`%` and no `^`, and `libs/regex/internal.adn` describes a matcher that is not the one in regex.c.

## Model

| member | source | states |
|---|---|---|
| Preservation.LoweringPreserves | src/backend/lower.c:2452-2806 | For every scoped function body whose names are right in the table where they are lowered, shadowed or not: running its lowered blocks from the entry gives the result, the globals and the call trace of the structured execution, through nested if, while, for, break, continue and return; where the source is still running after `fuel` rounds, the code has taken at least `fuel` steps |
| Preservation.LoweringExact | src/backend/lower.c:2452-2806 | The lowered code finishes with a result, globals and trace if and only if the source does with the same ones, so termination is kept both ways |
| Preservation.LoweringNeverStuck | src/backend/lower.c:2452-2806 | No run of the lowered code reaches a missing block, an unset temporary or a slot that does not exist |
| Preservation.LoweringValidates | src/backend/ir/ir.c:1179-1206 | For every scoped function, faithful or not: terminators stand only at the end of blocks, every branch target is a block of the function and never its entry, allocas are exactly the front of the entry block, the loop stack is empty again; and validation passes if and only if every lowered condition has a value |
| Preservation.ProgramPreserves | src/backend/lower.c:3035-3242 | All functions lowered one after the other over one symbol table that is never cleared: each still means what its source means, if each uses only names that those before it have left right |
| Preservation.ProgramExact | src/backend/lower.c:3035-3242 | Each of them finishes with a result, globals and trace if and only if its source does with the same ones |
| Preservation.TableAfter | src/backend/lower.c:1156-1208 | After a function the flat symbol table still has those globals right whose names the function did not declare |
| Compiled.CompileProgram | src/backend/lower.c:3035-3242 | The code that a new lowerer returns for a program: every function agrees with its source, runs exactly as it does and never gets stuck |
| Compiled.FunctionMeans | src/backend/lower.c:1192-1208 | A new lowerer starts from a table with every global in it, from which all functions keep their meaning |
| Linked.LinkedExact | src/backend/lower.c:3035-3242 | Between functions, for calls nested to any depth: with every call running the lowered code of the callee, a function finishes with a result, globals and trace if and only if it does with every call executing the source of the callee; a call that has no answer leaves a mark in both traces |
| CallStack.CallStackExact | src/backend/lower.c:3035-3242 | The code of a program, run by a machine that keeps its calls on a stack, comes to an end with a result, globals and calls if and only if the source does with every call answered; so where calls run for ever in the source they do in the code |
| CallStack.CallStackNeverBreaks | src/backend/lower.c:3035-3242 | At no time does the machine with the stack reach a missing block, an unset temporary or a slot that does not exist, in any function |
| Linked.WorldsAlike | src/backend/lower.c:1946-2159 | At every depth running lowered callees and executing source callees answer every call the same, or both have no answer, by induction on the depth |
| Linked.EnteredExactly | src/backend/lower.c:3060-3068 | A call enters a function if and only if it is the first declared one of that name, every argument has a value, and there are as many as parameters |
| Resolution.ResolvesExactly | src/backend/lower.c:1156-1208 | For every statement and every table: each use in the lowered code resolves to the declaration in scope if and only if the static condition of the theorems holds |
| Resolution.EntriesKeptExactly | src/backend/lower.c:1156-1190 | After a statement the flat table has exactly those names right that it had right before and that nothing lowered in the statement declares |
| Shadowing.NoShadowFaithful | src/backend/lower.c:1156-1190 | A body that never redeclares a visible name satisfies the condition |
| Shadowing.ProgramResolvesExactly | src/backend/lower.c:3060-3242 | For every program and every table: all names looked up while the functions are lowered one after the other resolve to the declaration in scope if and only if each function uses only names that those before it have left right |
| Shadowing.FaithfulExactly | src/backend/lower.c:3060-3242 | From the table of all globals: the condition of the main results holds if and only if all names resolve and all lowered conditions have values |
| Shadowing.TableExactly | src/backend/lower.c:1156-1208 | After a function the uncleared table has exactly those globals right that it had right and the function does not declare |
| Shadowing.ShadowingChangesMeaning | src/backend/lower.c:1156-1190 | `{ set x = 2; } return x;` with a parameter x uses a name that is no longer right: the source returns the argument, the lowered code returns 2 |
| Shadowing.LeakingLocalChangesMeaning | src/backend/lower.c:1156-1190 | A local named like a global in one function makes the lowered code of the next function read a slot that does not exist: the two functions resolve each by itself and not together |
| StmtSimulation.SimStmt | src/backend/lower.c:2452-2806 | From related states, the blocks of one statement lead to the block, the memory and the trace that its outcome names: normal, break, continue, return or still running |
| StmtSimulation.SimTurns | src/backend/lower.c:2552-2658 | Any number of turns of a lowered while or for loop follow the turns of the source loop, out through the merge block |
| ExprSimulation.SimExpr | src/backend/lower.c:1909-2277 | Straight-line code of an expression leaves the source value in its operand and performs the same calls in the same order; `and` and `or` evaluate both sides |
| LowerFacts.LowerStmtOk | src/backend/lower.c:2452-2806 | Every statement restores the loop stack, leaves earlier blocks as they are, stays in a block that exists, and closes all its blocks if and only if its conditions have values |
| LowerNames.LowerStmtNames | src/backend/lower.c:1156-1190 | A statement rebinds exactly the names it declares, each to a slot of its own |
| LowererModule.Lowerer.Emit | src/backend/ir/ir.c:946-1010 | Appending an instruction to the current block, all other state unchanged |
| LowererModule.Lowerer.EmitEnd | src/backend/ir/ir.c:439-477 | A terminator is refused by a block that has one |
| LowererModule.Lowerer.AddSlot | src/backend/ir/ir.c:916-944 | An alloca goes to the front of the entry block, and the name is bound to it, overwriting an earlier entry |
| LowererModule.Lowerer.LowerExpr | src/backend/lower.c:1909-2277 | The imperative lowering of expressions has exactly the effect of the specification |
| LowererModule.Lowerer.LowerStatement | src/backend/lower.c:2452-2806 | The imperative lowering over current block, target stack of 128 slots and symbol list has exactly the effect of the specification |
| LowererModule.Lowerer.LowerFor | src/backend/lower.c:2594-2658 | Declaration, condition, body, increment and merge blocks of `for`, with `continue` going to the increment |
| LowererModule.Lowerer.LowerFunction | src/backend/lower.c:3113-3242 | Prolog with one slot per parameter, body, and a return at the end if the last block has no terminator |
| LowererModule.Lowerer.LowerProgram | src/backend/lower.c:3035-3242 | All functions in order |
| LowererModule.ValidateModule | src/backend/ir/ir.c:1179-1206 | The validator accepts exactly the modules whose blocks all end in a terminator |
| LowererModule.Lowerer.LowerInit | src/backend/lower.c:2830-3008 | The initialiser: a store for each variable of the top level in order, then the assignments and expressions of the top level in order, all in one block |
| Initialiser.InitRuns | src/backend/lower.c:2830-3008 | For every scoped top level, without any other condition: the code of the initialiser finishes exactly as executing all initial values in order and then the other statements does, with the same globals and calls |
| Initialiser.InitIsFunction | src/backend/lower.c:2830-3008 | The initialiser, closed by a return, is the lowered code of one function of assignments and expressions |
| Initialiser.MainCallsInit | src/backend/lower.c:3130-3133 | The code of main calls that function |
| Ir.OpcodesInOrder | src/backend/ir/ir.c:356-420 | The operators have the numbers from 1 on, in one order, and the number stands for the operator |
| Reachability.Collector.CollectReachable | src/backend/lower.c:1420-1444 | The collected list holds main and every function that the top-level statements call, if they are declared, and exactly what chains of calls reach from these, each once |
| Reachability.Collector.MarkFunctionReachable | src/backend/lower.c:1258-1288 | The depth-first walk ends on recursive call graphs and adds nothing that is not reachable |
| Reachability.Collector.CollectStmt | src/backend/lower.c:1290-1418 | Walking a statement collects the callees of every expression in it and what they reach |
| Reachability.CollectedExactly | src/backend/lower.c:1420-1444 | A walk from nothing collects exactly what its roots reach |
| LiveCalls.FunctionCalls | src/backend/lower.c:1946-2159 | The blocks of a lowered function hold a call of exactly those functions that its source calls before an ending statement cuts it off, and main one of the initialiser |
| LiveCalls.CalleesLowered | src/backend/lower.c:3060-3246 | For any function that is lowered, first of its name or not: every declared function that its code calls is collected if and only if chains of calls reach all that the lowered part of its body calls |
| LiveCalls.ProgramComplete | src/backend/lower.c:3035-3246 | The collected declarations lowered in order: no call in all the code is left without its function if and only if that holds of the later declarations of collected names |
| LiveCalls.SecondDeclarationMissed | src/frontend/semantics/validator.c:1649-1656 | Two functions f, accepted by the validator: the blocks of the second one call g, which is declared and not lowered |
| LoweredCalls.FunctionWithin | src/backend/lower.c:1946-2159 | A lowered function calls only what its source calls, and main the initialiser of the globals |
| CallNames.MemberCallLowered | src/backend/lower.c:2013-2159 | Lowering a call of `__member_m`, for every m, ends the block with a call of m with the lowered arguments, whose result is the operand unless m is void |
| CallNames.PlainCallLowered | src/backend/lower.c:1946-2159 | A call of any name without that prefix calls the function of that name |
| CallNames.ListWritten | src/backend/lower.c:1290-1418 | The walk over statements finds a function if and only if its name, or its name behind the prefix, is written in a call anywhere in them |
| CallNames.CalledIsCollected | src/backend/lower.c:1329-1340 | A declared function that is written so at the top level or in a collected function is collected |
| CallNames.CollectedIsCalled | src/backend/lower.c:1258-1288 | Every collected function but main is declared and written so at the top level or in a collected function |
| Initialiser.InitCalls | src/backend/lower.c:2830-3008 | The blocks of the initialiser call exactly what the initial values, assignments and expressions of the top level call |
| Initialiser.StartsCollected | src/backend/lower.c:1420-1444 | After the walk main is collected, and every function that the blocks of the initialiser call, if they are declared |
| Initialiser.CollectedFromStarts | src/backend/lower.c:1420-1444 | Nothing is collected that calls do not lead to from main or from a name written at the top level |
| RegexMatcher.MatchNodeInto | libs/regex/regex.c:1725-1912 | The matcher over capture arrays computes the specified match; a failing call leaves the captures as they were |
| RegexMatcher.MatchRepeatInto | libs/regex/regex.c:1568-1650 | Greedy and lazy repeats with their snapshots, a round that takes no characters being the last one |
| RegexMatcher.MatchSequenceItems | libs/regex/regex.c:1652-1692 | The items of a sequence one after the other, with only repeats tried again |
| RegexMatcher.MatchLookbehind | libs/regex/regex.c:1694-1723 | The first start at which the child matches up to the position decides |
| RegexMatcher.MatchBackref | libs/regex/regex.c:1819-1842 | The captured text is compared character by character with the text at the position |
| RegexMatch.MatchNode | libs/regex/regex.c:1725-1912 | The four mutually recursive matchers terminate; a match ends at or after its start and keeps every capture within the text |
| RegexLeaves.ClassTakes | libs/regex/regex.c:1495-1550 | A class that is not negated takes a character if and only if it lies in one of its ranges or the locale has it in one of its predicates, a word being letters, digits and underscores |
| RegexLeaves.NegatedTakesRest | libs/regex/regex.c:1495-1550 | At every character exactly one of a class and its negation matches |
| RegexLeaves.DotTakes | libs/regex/regex.c:413-417 | A dot takes everything but 10, 13, 0x2028 and 0x2029, and nothing at the end |
| RegexLeaves.LiteralTakes | libs/regex/regex.c:1725-1766 | A literal takes its own code point only |
| RegexLeaves.NoClassAtEnd | libs/regex/regex.c:1725-1766 | No class takes anything at the end of the text, negated or not |
| RegexLeaves.AnchorsHold | libs/regex/regex.c:1844-1862 | The anchors match at the beginning and at the end of the text only, taking nothing |
| RegexLeaves.BoundariesHold | libs/regex/regex.c:1552-1566 | A boundary is where exactly one of the two sides belongs to a word, and its negation is everywhere else |
| RegexLeaves.BackrefTakes | libs/regex/regex.c:1819-1842 | A back-reference takes exactly a copy of what its group has captured, and fails where that is nothing |
| RegexOrder.GreedyKeepsMost | libs/regex/regex.c:1568-1650 | A repeat of something that moves forward and any rest of its sequence: of all allowed numbers of rounds after which the rest matches, a greedy repeat keeps the largest and a lazy one the smallest, and the search fails if and only if there is none |
| RegexOrder.FirstBranchKept | libs/regex/regex.c:1767-1788 | An alternation has the match of the first branch that has one |
| RegexOrder.FirstStartKept | libs/regex/regex.c:1694-1723 | A look-behind is decided by the first place from which its child matches up to the position |
| RegexOrder.AheadDecides | libs/regex/regex.c:1867-1905 | A look-ahead matches where its child does, or where it does not, and takes nothing |
| RegexOrder.GroupCaptures | libs/regex/regex.c:1790-1818 | A group captures from where it began to where its child ended, over what was captured inside |
| RegexSearch.Sound | libs/regex/regex.c:1568-1912 | Whatever the search finds is a match of the nondeterministic relation, for every tree whose negative look-arounds are about trees that the search cannot miss; bounded and unbounded repeats, back-references, look-around and rounds of no characters included |
| RegexSearch.SearchExact | libs/regex/regex.c:1568-1912 | In a linear tree the search succeeds at a position if and only if the relation has any match there |
| RegexSearch.SearchDetExact | libs/regex/regex.c:1568-1912 | Where the tree leaves no choice the search computes the relation: same end, same captures |
| RegexGreed.GreedDoesNotMatter | libs/regex/regex.c:1574-1650 | Two linear trees that differ in greedy and lazy repeats only: a match is found for both or for neither |
| RegexGreed.GreedySameMatches | libs/regex/regex.c:1574-1650 | Greed never changes which matches a tree has |
| RegexChoice.AtomicExactly | libs/regex/regex.c:1767-1788 | For every linear tree that is no repeat and whose captures depend on the end only: keeping its first match loses nothing, whatever linear items follow and on whatever text, if and only if all its matches from one position end at the same one |
| RegexChoice.WordsExactly | libs/regex/regex.c:1767-1788 | For a choice between words, in a group or not: nothing is lost if and only if no word is a proper beginning of another |
| RegexChoice.AtomicChoiceMisses | libs/regex/regex.c:1767-1788 | A choice of a or ab, followed by c, on the text abc: the relation matches, the search does not, because the first branch is kept |
| RegexFind.ZeroWidthRounds | libs/regex/regex.c:1606-1629 | A repeat of something of no width: search and relation agree if and only if at most one round is asked for or not even one can match |
| RegexFind.FindMatch | libs/regex/regex.c:1914-1951 | The loop over positions returns the first one at which the matcher succeeds, with capture 0 set to the whole match |
| RegexFind.FindLeftmost | libs/regex/regex.c:1914-1951 | In a linear pattern the position found is the leftmost one with any match at all, and nothing is found only where there is none |
| RegexFind.FindSound | libs/regex/regex.c:1914-1951 | What is found is a match of the relation |
| RegexText.TextInit | libs/regex/regex.c:376-411 | The view has one offset per code point, from 0 to the byte length, each step 1 to 4 bytes, on arbitrary bytes |
| RegexText.ViewRoundTrip | libs/regex/regex.c:273-361 | The view of the UTF-8 encoding (section 3 of RFC 3629) of any list of scalar values is that list |
| RegexText.DecodeEncode | libs/regex/regex.c:273-361 | An encoded scalar value is read back wherever it stands |
| RegexText.DecodeExactly | libs/regex/regex.c:273-361 | At any place of any bytes the decoder reads the code point whose encoding stands there, surrogates included, or the one byte if none does |
| RegexReplace.ExpandReplacement | libs/regex/regex.c:2038-2115 | The template loop fills in `$$`, `$&`, `$n` and `\n` as specified |
| RegexReplace.ReplaceAll | libs/regex/regex.c:2351-2428 | The replacing loop writes the pieces between the matches with each expansion in its place |
| RegexReplace.Split | libs/regex/regex.c:2430-2501 | The splitting loop returns the pieces between the same matches |
| RegexReplace.ReplaceIsJoinedSplit | libs/regex/regex.c:2351-2501 | For a replacement without references, replacing all matches is joining the pieces of the split by it, although the loops treat empty matches differently |
| RegexReplace.ReplaceByWholeKeeps | libs/regex/regex.c:2351-2428 | Replacing every match by `$&` gives the text back |
| RegexTemplate.ReplaceByParts | libs/regex/regex.c:2038-2115 | A template written as kept text, references by either mark, doubled dollars and whole matches, in any order: replacing all matches puts between the pieces of the split what these say for each match, captured bytes, nothing for what is not captured, single dollars |
| RegexTemplate.ReplaceByGroup | libs/regex/regex.c:2066-2095 | Replacing by `$k` or `\k` puts the bytes of capture k of each match between the pieces of the split, for every k |
| RegexTemplate.ExpandCut | libs/regex/regex.c:2038-2115 | Any template that is cut where no reference crosses the cut expands to the expansions of its halves |
| RegexTemplate.MatchesFollow | libs/regex/regex.c:2351-2501 | Each match is the one found behind the match before it, a character further behind an empty one, and behind the last one nothing is found |
| RegexTemplate.NothingMissed | libs/regex/regex.c:2351-2501 | In a linear pattern every position with any match lies in a match that is replaced |
| RegexParser.Parser.ParseAtomHere | libs/regex/regex.c:997-1234 | The imperative atom parser advances index and capture count exactly as specified, errors included |
| RegexParser.Parser.ParseTermHere | libs/regex/regex.c:1236-1363 | An atom with `*`, `+`, `?` or a count in braces, greedy or lazy; a brace that is not closed is no count |
| RegexParser.Parser.ParseSequenceHere | libs/regex/regex.c:1365-1400 | Terms up to a bar, a closing parenthesis or the end |
| RegexParser.Parser.ParseExpressionHere | libs/regex/regex.c:1402-1444 | Branches separated by bars |
| RegexParser.Parser.ParseLiteralEscape | libs/regex/regex.c:699-758 | Escaped control characters, hexadecimal escapes, and everything else for itself |
| RegexParser.CompilePattern | libs/regex/regex.c:1446-1466 | A pattern compiles if and only if the whole of it parses |
| RegexReadings.ControlsRead | libs/regex/regex.c:713-731 | Wherever they stand, `\t \n \v \f \r \0` read as the literals 9, 10, 11, 12, 13, 0 |
| RegexReadings.HexEscapesRead | libs/regex/regex.c:494-535 | `\x`, `\u` and `\U` read as the literal x if and only if 2, 4 or 8 hexadecimal digits of x in either case follow, with the index behind them; they read as nothing else |
| RegexReadings.HexWritten | libs/regex/regex.c:731-751 | So for the digits of every code point of that width |
| RegexReadings.OthersRead | libs/regex/regex.c:752-754 | Any other character behind a backslash stands for itself |
| RegexReadings.ClassLettersRead | libs/regex/regex.c:1156-1197 | `\d`, `\s` and `\w` read as what takes a digit, a space and a character of a word |
| RegexReadings.UpperLettersRead | libs/regex/regex.c:1156-1197 | `\D`, `\S` and `\W` read as what takes any other character |
| RegexReadings.BoundaryLettersRead | libs/regex/regex.c:1198-1203 | `\b` and `\B` read as a boundary and its negation |
| RegexReadings.ExactCountReads | libs/regex/regex.c:1236-1363 | `{n}` behind an atom asks for exactly n rounds, lazily with a question mark |
| RegexReadings.OpenBraceReads | libs/regex/regex.c:1236-1363 | A number in a brace that is not closed is no count, and the brace stands for itself |
| RegexReadings.BareBraceFails | libs/regex/regex.c:1236-1363 | A brace without a number behind an atom is an error |
| RegexReadings.CharacterReads | libs/regex/regex.c:1220-1234 | A character that no branch before names is read as the code point it decodes to, `]` and the braces among them |
| RegexReadings.NoAtom | libs/regex/regex.c:997-1234 | A quantifier with nothing before it, an opening that does not exist and a last backslash are errors |
| RegexReadings.UnbalancedFails | libs/regex/regex.c:1446-1466 | No pattern that begins with a closing parenthesis, or opens one and closes none, compiles |
| RegexPrint.PrintCompiles | libs/regex/regex.c:997-1466 | Every tree with 32-bit literals, numbered groups and the six letter classes, printed as a pattern, compiles to itself with its number of groups |
| RegexCanon.ReprintCompiles | libs/regex/regex.c:997-1466 | What a pattern compiles to, unless it has a bracketed class that no letter stands for: printed and compiled again it is the same program, whose count is that of its groups |
| RegexCanon.CanonExactly | libs/regex/regex.c:997-1466 | The printable trees are exactly those that patterns without bracketed classes compile to |
| RegexPrint.ExpressionParses | libs/regex/regex.c:1402-1444 | Such a printed expression is read back wherever it stands before `)` or the end |
| RegexEscape.EscapeText | libs/regex/regex.c:2176-2196 | A backslash before each of the fourteen metacharacters |
| RegexEscape.EscapeOne | libs/regex/regex.c:2176-2196 | A byte gets a backslash if and only if it is one of `\.^$\|?*+()[]{}` |
| RegexEscape.EscapeCompiles | libs/regex/regex.c:997-1466 | For every byte string, its escaped form compiles to exactly the literals of its code points, without captures |
| RegexEscape.EscapeFindsFirst | libs/regex/regex.c:1914-1951 | Searching for escaped text finds the first place where its code points occur, or nothing if there is none |
| RegexEscape.CompiledNumbered | libs/regex/regex.c:1079-1119 | Groups are numbered from 1 by their opening parentheses, look-arounds taking a number too, and there is room for a capture of each |
| JsonParser.ReadValue | libs/json/parse.adn:62-107 | The recursive parser computes the specified result; an accepted part always advances within the text |
| JsonParser.ReadString | libs/json/parse.adn:109-168 | Strings with the eight accepted escapes; anything else after a backslash fails |
| JsonParser.ReadNumber | libs/json/parse.adn:170-217 | The end of the text that is converted to a number, a missing digit or an empty exponent failing |
| JsonParser.ReadItems | libs/json/parse.adn:219-254 | Elements and commas up to the closing bracket |
| JsonParser.ReadMembers | libs/json/parse.adn:256-304 | Keys, colons, values and commas up to the closing brace |
| JsonParser.ParseText | libs/json/parse.adn:26-37 | A text with anything but whitespace after its value is null |
| JsonParser.IsValid | libs/json/parse.adn:57-60 | A text is valid if and only if it is a value with whitespace around it |
| JsonAccepts.AcceptsExactly | libs/json/parse.adn:26-304 | A text is valid with a value if and only if it is a document of the grammar, with whitespace where it may stand, that says this value: the whole grammar of values, arrays, objects, strings, numbers and whitespace, in both directions |
| JsonGrammar.StringsAre | libs/json/parse.adn:109-168 | A string is taken exactly where quotes enclose plain bytes and the eight escapes, and is the bytes these stand for |
| JsonGrammar.NumbersAre | libs/json/parse.adn:170-217 | The grammar of numbers, exactly: an optional minus, digits with at most one point, an optional exponent; leading zeros and a point at either end are taken |
| JsonDocument.ReadDoc | libs/json/parse.adn:62-304 | Whatever is read as a value, anywhere in a text, is written by the grammar |
| JsonAccepts.DocReads | libs/json/parse.adn:62-304 | Every document of the grammar is read wherever it stands before a comma, a bracket, whitespace or the end |
| JsonParser.Write | libs/json/stringify.adn:14-95 | The printing loops write the specified text, compact or indented |
| JsonParser.WriteQuoted | libs/json/stringify.adn:105-137 | Quotes around the string with its escapes |
| JsonGrammar.QuotedAs | libs/json/stringify.adn:105-137 | A printed string has a backslash exactly for quotes, backslashes and the five control characters with a letter |
| JsonLayout.PrintIsLines | libs/json/stringify.adn:6-95 | Every printed value is its lines: each element on a line of its own behind two spaces for every bracket it stands in, commas at line ends, a blank behind each colon; the compact form is the same lines without breaks, indents and blanks |
| JsonRoundTrip.StringifyParses | libs/json/stringify.adn:97-99 | For every tree whose printed numbers are in the grammar of the parser: parsing the compact print gives the tree with each number printed and converted back, and all else the same |
| JsonRoundTrip.PrettyParses | libs/json/stringify.adn:101-103 | The same for the indented print |
| JsonRoundTrip.PrintedIsRead | libs/json/parse.adn:26-107 | The same with any whitespace around the text, which is valid |
| JsonRoundTrip.ValueReads | libs/json/parse.adn:62-304 | A printed value is read back inside a longer text wherever nothing continues it, at any depth |
| JsonNormal.RoundTripExactly | libs/json/stringify.adn:97-103 | A tree comes back from its print, in either form, if and only if each of its numbers is printed in the grammar and converted back to itself |
| JsonNormal.ReprintExactly | libs/json/parse.adn:26-37 | A text keeps its value when that is printed and parsed again if and only if the numbers in it survive |
| JsonNormal.ReprintKeeps | libs/json/parse.adn:26-37 | Every text keeps its value if and only if every number that can be written survives |
| JsonNormal.PrintSettles | libs/json/stringify.adn:97-103 | If printing a number again gives the same digits, what was printed once is printed the same for ever, although digits may be lost the first time |
| JsonNormal.SixDigitsLose | libs/json/stringify.adn:14-95 | A conversion that keeps six digits, as the runtime does, changes the value of 0.1234567 |
| JsonNormal.InfinityLost | libs/json/parse.adn:170-217 | A number beyond the range of the type is printed as `inf`, which parses to null |
| JsonNormal.ValueFormed | libs/json/parse.adn:62-304 | Every number in a parsed value was converted from a text in the grammar of numbers |
| LadderParser.Parser.ParseOr | src/frontend/parser/parser.c:1036-1051 | The loop of `or`, rebuilding its left operand, does what the specification of level 1 says |
| LadderParser.Parser.ParseNot | src/frontend/parser/parser.c:1070-1083 | At most one `not`, over a comparison |
| LadderParser.Parser.ParseComparison | src/frontend/parser/parser.c:1085-1108 | Comparisons group to the left |
| LadderParser.Parser.ParseAdditive | src/frontend/parser/parser.c:1110-1128 | Sums group to the left |
| LadderParser.Parser.ParseMultiplicative | src/frontend/parser/parser.c:1130-1149 | Products group to the left |
| LadderParser.Parser.ParsePower | src/frontend/parser/parser.c:1151-1168 | Powers group to the right |
| LadderParser.Parser.ParsePrimaryHere | src/frontend/parser/parser.c:508-619 | Names, literals, casts and groups |
| LadderParser.Parser.ApplyPostfixHere | src/frontend/parser/parser.c:785-825 | Calls, members and indices, as many as follow |
| LadderParser.Parser.ParseArgumentsHere | src/frontend/parser/parser.c:621-651 | Arguments, a comma before the closing parenthesis accepted |
| LadderRoundTrip.PrintParses | src/frontend/parser/parser.c:1031-1168 | Every expression printed with only the parentheses its levels need parses back to the same tree, reading exactly its tokens |
| LadderRoundTrip.ParensNeeded | src/frontend/parser/parser.c:1031-1168 | Where a higher level is expected, an expression without parentheses is not read as a whole |
| LadderRoundTrip.LevelReadsBack | src/frontend/parser/parser.c:1031-1168 | The same at each level, before any token that continues no expression of the level |
| LadderRoundTrip.GroupIsNoCast | src/frontend/parser/parser.c:577-603 | A parenthesised expression is never taken for a cast |
| LadderOrder.TighterTakes | src/frontend/parser/parser.c:1031-1168 | For any two operators in a row: the one further down the list `or`, `and`, comparisons, sums, products, `^` takes the operand between them; of two of one place the first does, with `^` the second |
| LadderOrder.NotTakes | src/frontend/parser/parser.c:1070-1083 | `not a op b` negates the operand before `and` and `or`, and the whole with any other operator |
| LadderOrder.DoubleNotFails | src/frontend/parser/parser.c:1070-1083 | `not not` is an error |
| LadderOrder.CastTakes | src/frontend/parser/parser.c:577-603 | A cast, by a type word or an alias, takes the operand before any operator |
| LadderOrder.NameInParens | src/frontend/parser/parser.c:577-603 | A name in parentheses that is no alias is that name |
| LadderOrder.MemberCallReads | src/frontend/parser/parser.c:668-775 | `x.m(...)` becomes a call of `__member_m`, or of one of four runtime methods, with x as first argument; of a member of a namespace, a call of the function of both names |
| LadderOrder.OtherCallsFail | src/frontend/parser/parser.c:668-783 | A call of anything but a name or a member is an error |
| LadderOrder.TypeWordReads | src/frontend/parser/parser.c:508-522 | A word for a type is an expression only if it names a namespace |
| LadderOrder.LastCommaReads | src/frontend/parser/parser.c:621-651 | A comma behind the last argument changes nothing |
| LadderForms.AcceptedIsWritten | src/frontend/parser/parser.c:508-1168 | Whatever is accepted has been written by the grammar of the levels, parentheses closed and commas between, and its tree is that of what was written |
| TypeParser.Parser.ParseTypeNameHere | src/frontend/parser/parser.c:443-492 | Words, aliases, object types and array suffixes become the specified text |
| TypeParser.Parser.ParseObjectHere | src/frontend/parser/parser.c:365-441 | The buffer of an object type grows field by field |
| TypeWriting.WrittenParses | src/frontend/parser/parser.c:345-492 | A written type is parsed to the name of the type it means, aliases replaced, and the whole of it is read |
| TypeWriting.WrittenPropertyFound | src/frontend/semantics/validator.c:829-914 | A property looked up in the text of a written object type has the written type of the first field with that key |
| TypeForms.AcceptedTypeIsWritten | src/frontend/parser/parser.c:345-492 | Whatever is accepted as a type has been written by its grammar, and its text is that of what was written |
| TypeNameEdges.LastCommaParses | src/frontend/parser/parser.c:365-441 | A comma behind the last field changes nothing |
| TypeNameEdges.NoTypeFails | src/frontend/parser/parser.c:443-492 | A name that is no alias is no type |
| TypeNameEdges.FirstFieldFound | src/frontend/semantics/validator.c:829-914 | A property is found under the name of the first field that goes by it, its key cut to 127 characters and its type to 255 |
| TypeNameEdges.NoFieldFound | src/frontend/semantics/validator.c:829-914 | Where no field goes by the name nothing is found |
| TypeNameEdges.WordKnown | src/frontend/semantics/validator.c:1618-1631 | Exactly fourteen words are types |
| TypeNameEdges.UnclosedUnknown | src/frontend/semantics/validator.c:1539-1631 | A name that begins like an array, an object or a module and does not end like one is no type; as an array it has no element, as an object no property |
| TypeNameEdges.ModuleKnown | src/frontend/semantics/validator.c:1618-1621 | A module is known whatever is in its braces |
| TypeNameScan.FindCompositePropertyType | src/frontend/semantics/validator.c:829-914 | The cursor loop with its depth counters and bounded buffers finds what is specified |
| TypeNameScan.ExtractArrayElementType | src/frontend/semantics/validator.c:953-985 | The depth loop cuts out the element type |
| TypeNameScan.IsKnownTypeName | src/frontend/semantics/validator.c:1539-1632 | The recursive check over elements and properties |
| TypeNameFacts.PropertyFound | src/frontend/semantics/validator.c:829-914 | In the name of an object type the type of a key is that of its first field with that key, cut to 255 characters, or nothing; at any nesting of braces and angles |
| TypeNameFacts.ElementExact | src/frontend/semantics/validator.c:953-985 | The element type of an array name is the whole element type if and only if that has at most 255 characters, and its first 255 otherwise |
| TypeNameFacts.ElementFound | src/frontend/semantics/validator.c:953-985 | It is always the element type cut to 255 characters |
| TypeNameFacts.NameKnown | src/frontend/semantics/validator.c:1539-1632 | The name of a type whose parts fit the buffers is accepted if and only if all its words are known, at any nesting |
| TypeNameFacts.SizesSuffice | src/frontend/semantics/validator.c:865-880 | Counts of 64 bits that wrap below 0 and back end the scan of any text where counts that are integers do |
| SymbolTable.Hash | src/helper.c:55-70 | The hash in 32 bits; a missing name hashes to 0 |
| SymbolTable.HashIsWhole | src/helper.c:55-70 | Cutting to 32 bits after each byte gives 5531, times 33 and plus the next byte for each byte, cut once at the end |
| SymbolTable.Manager.SearchBuckets | src/stm.c:119-137 | Walking the chain of the hashed bucket finds exactly the entry of the table |
| SymbolTable.Manager.LookupFrom | src/stm.c:149-157 | The innermost binding from this scope outwards |
| SymbolTable.Manager.InsertHere | src/stm.c:159-230 | A complete request for a new name is added, anything else changes nothing; every entry stays in the bucket of its hash and no name occurs twice |
| SymbolTable.Stack.PushScope | src/stm.c:92-117 | A fresh empty scope on top, one level deeper |
| SymbolTable.Stack.PopScope | src/stm.c:81-90 | The scope below comes back as it was; popping nothing does nothing |
| SymbolTable.Stack.Perform | src/stm.c:81-230 | Over every run of pushes, pops, insertions and lookups the hash tables answer as a stack of maps does |
| SymbolTable.ClosedScopeRestores | src/stm.c:81-117 | A scope opened and closed again leaves every binding as it was, whatever happened inside |
| SymbolTable.FirstInsertionWins | src/stm.c:159-230 | The first insertion of a name in a scope is found again with all its fields, and a second one changes nothing |
| SymbolTable.IncompleteIgnored | src/stm.c:159-230 | An insertion without a name, a type or a line changes nothing, and none changes another name |
| Random.Generator.AdvanceState | libs/random/state.adn:55-70 | One step multiplies the state by 16807 modulo 2147483647, in 32-bit arithmetic throughout, and stays in 1..2147483646 |
| Random.Generator.NormalizeSeed | libs/random/state.adn:9-25 | A seed becomes the congruent state, or 1 for a multiple of the modulus |
| Random.Generator.ReseedFromState | libs/random/state.adn:31-33 | Reseeding is one more step |
| Random.Generator.Perform | libs/random/state.adn:27-70 | Over every run of steps, seeds and resets the state stays in range and is the specified one |
| Random.AdvancesMultiply | libs/random/state.adn:55-70 | n steps multiply the state by the n-th power of 16807 modulo 2147483647 |
| Random.NeverZero | libs/random/state.adn:63-66 | The split product is never zero, so adding the modulus never leaves the range |
| Random.SplitFits | libs/random/state.adn:60-64 | Every intermediate result fits 32 bits |
| Random.NextInjective | libs/random/state.adn:55-70 | Different states have different successors |
| Random.NextOnto | libs/random/state.adn:55-70 | Every state in range is the successor of one |
| Random.RunInRange | libs/random/state.adn:9-70 | The state stays in 1..2147483646 over every run |
| Strings.SplitText | libs/string/split.adn:5-34 | The scanning loop returns the specified pieces |
| Strings.JoinTexts | libs/string/split.adn:90-102 | The joining loop |
| Strings.ReplaceAllIn | libs/string/modify.adn:63-85 | The replacing loop |
| Strings.SplitJoins | libs/string/split.adn:5-102 | Joining the pieces by the delimiter gives the value back |
| Strings.SplitPiecesFree | libs/string/split.adn:5-34 | No piece contains the delimiter |
| Strings.ReplaceIsJoinedSplit | libs/string/modify.adn:63-85 | Replacing every occurrence is joining the pieces by the replacement |
| Strings.JoinSplits | libs/string/split.adn:5-102 | Splitting what was joined by a single byte gives the parts back, if the byte is in none of them |
| Strings.EmptyDelimiter | libs/string/split.adn:5-16 | An empty delimiter gives the single bytes, and an empty pattern is replaced nowhere |
| GrowableArray.AdnArray.Reserve | src/backend/runtime/runtime.c:610-628 | The capacity starts at 4 and doubles no more often than it must, and the contents are kept |
| GrowableArray.AdnArray.Push | src/backend/runtime/runtime.c:630-644 | The contents with one entry appended |
| GrowableArray.AdnArray.Insert | src/backend/runtime/runtime.c:681-700 | The contents with one entry at the index moved into the array, the later ones shifted |
| GrowableArray.AdnArray.Take | src/backend/runtime/runtime.c:702-719 | The shift in place removes exactly the entry at the index; outside the array nothing changes |
| GrowableArray.AdnArray.Slice | src/backend/runtime/runtime.c:948-985 | A new array with the entries between the clamped indices |
| GrowableArray.NearestPlace | src/backend/runtime/runtime.c:681-700 | An index outside is moved to the nearest place that there is |
| GrowableArray.SliceHolds | src/backend/runtime/runtime.c:948-985 | A slice holds the entries from its first index up to its second one, as many as there are, in order |
| Sampling.Integer | libs/random/range.adn:3-19 | The value drawn between the bounds in either order, also where the size of the range overflows 32 bits; for the range of all 32-bit values that size is 0 and the division by it fails, exactly then |
| Sampling.SpanOfRange | libs/random/range.adn:17-18 | The 32-bit size of a range is zero if and only if it is the range of all values |
| Sampling.DrawInRange | libs/random/range.adn:3-19 | A drawn value lies between the bounds |
| Sampling.DrawCounts | libs/random/range.adn:3-19 | The raw value counts from the lower bound on, round and round as many values as the range has, or as are missing to 2^32 where that number has overflowed |
| Sampling.Choices | libs/random/typed_select.adn:51-71 | The result is the specified drawing from a copy of the input, the input left alone |
| Sampling.Sample | libs/random/typed_select.adn:200-202 | As many entries as asked for and present, in the order drawn, none used twice |
| Sampling.ChooseConserves | libs/random/typed_select.adn:51-71 | At every step the chosen entries and the pool together are the input, counted with multiplicity |
| Sampling.ChooseFirst | libs/random/typed_select.adn:51-71 | Choosing is drawing one entry by the remainder of the next state and choosing the others from what is left |
| Sampling.ChooseAllPermutes | libs/random/typed_select.adn:73-75 | Choosing everything is a permutation |
| Sampling.ShuffleSelf | libs/random/typed_select.adn:77-84 | The array itself ends up in the order drawn, a permutation of what it held |

## Left out

- The block of `__adan_init` is closed by the text emitter; `Initialiser` closes it with a return. The values that literals give to globals before anything runs are part of the globals at the start.
- In lowering: types, casts, strings, arrays, objects, member access, the special cases of array and string calls, `not`, variadic parameters, function declarations inside functions, and functions without a body. Values are integers.
- The folding of two string literals (src/backend/lower.c:2199-2240): it concatenates before unescaping and is not the run-time path.
- The null operand of a return or a store of pointer type: the model has the integer case, where the value 0 is used.
- More than 128 nested loops: the depth of the target stack is a precondition of the imperative lowering.
- Preservation.ProgramPreserves: a second function of one name has code of its own, where the source puts its blocks behind those of the first one (src/backend/lower.c:3063-3068), so that they are never entered. Calls enter the first one (`Linked`).
- Preservation.ProgramExact: the same.
- LowererModule.Lowerer.LowerProgram: the same; and it lowers the functions it is given, the choice of those that are collected being `LiveCalls.Collected`.
- Functions outside the program that call back into it.
- LLVM text, linking, processes, input and output, foreign libraries, floating point.
- Allocation failure and freeing, in every part.
- The syntax of bracketed character classes (libs/regex/regex.c:797-995): a class is a given set of ranges and predicates, and reading one is a parameter of the parser.
- Counts and group numbers beyond 32 bits in patterns and replacement templates.
- Completeness of the search outside linear trees, in general: it is exact for choices between words, for single repeats of no width and for what one kept match loses before linear items.
- The other entry points of the regex library (first replacement, counting, captures by number): they call the same search.
- The 64-bit floats of JSON: the two conversions are parameters. The position in a failed JSON parse is not modelled; no caller reads it.
- Error recovery in the expression and type parsers: the first syntax error ends the parse.
- String interpolation and object and array literals in expressions.
- The sixteen rotating slots that returned type names are kept in (src/frontend/semantics/validator.c:940-951): a returned name is a value.
- A lookup or an insertion without any scope: stm_lookup and stm_insert need a manager, and the model answers nothing and changes nothing.
- The printed message of sts_push_scope and the unused depth field.
- The floating-point and string twins of the sampling functions: they differ in the element type only, and the model is generic.
- Recursion depth of the parsers and the matcher is not bounded by a stack.
