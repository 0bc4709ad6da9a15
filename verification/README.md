# Verification of the Tisyn kernel, runtime, compiler and DSL

Tisyn runs programs that are trees of IR. A kernel evaluates a tree as a suspendable
generator; a runtime drives generators, journals every effect in a durable stream and replays
the stream after a crash; a compiler lowers restricted TypeScript to IR; a small DSL prints and
parses IR as text. This project models these parts in Dafny and proves what they are for.

## What is proved

**Durable execution.** `Engine` is a state machine over a tree of coroutines that share one
append-only stream: any coroutine that can take a step may take it, and a crash may happen
between any two steps (also between an effect and its append). `LiveRun.AnyRecoveryAgrees`
says: if one uninterrupted interleaving of a program of nested `all` blocks finishes, then every
schedule of steps and crashes that finishes has the same result and leaves, of every coroutine,
the same events. `LiveRun.AnyRunRecovers` says that every schedule, wherever its crashes are, can
be completed. The answers of agents are an oracle fixed by coroutine id and journal position;
`RunPlan` is the record of an uninterrupted run that the invariant is stated against, and
`LiveRun.RunGivesPlan` puts it together from an actual run. What a run comes to is said once more
without runs: `Story.Happens` is a tale of the evaluator alone, in which every effect is answered
with what the middleware and the handlers give and every `all` with the values of its children.
`LiveRun.AnyRecoveryTells` says that result and journal of every recovery are those of the one
tale that happens (`Story.TaleUnique`). `Driver` is the session as it is
written, with stream, index and journal updated in place: `Driver.Execute` comes to the planned
result from any stream that earlier sessions may have left, `Driver.ExecuteAfterCrashes` says so
of the stream that any schedule of the engine leaves. `Replaying.SessionReplays` is the replay
boundary: what a session gave, the next session on its stream gives again, without asking a
handler. A settled race halts its losers, which write their cancelled Closes, and the next session
settles it alike (`Driver.RaceThenResume`); `Settling.StoredRaceWinner` says exactly when a crash between
the winner's Close and the losers' cannot change the winner. `Resources.ClosesInOrder` is the
order of the Closes on every way out of an owner of resources. `Lanes.StackOrder` orders the
middleware of a dispatch by the registrations that put it there.

**Kernel.** `Kernel` is the evaluator as a function of the answers its effects receive.
`Generator` is the suspended machine with its control point and stack. The two agree in both
directions for every program, environment and answer list, so that resuming equals evaluating
from scratch. `Evaluate` is the evaluator with its loops. `Operators` says what the operators
compute, on the outcomes of their operands. `Polling` runs the program that `Converge` stands for.

**Loop lowering.** The compiler turns a `while` loop with early returns or reassigned `let`s into
a recursive `Fn` over versioned names with packed results. Under the kernel's call-site scoping,
`LoweringTheorem.LoweringPreservesMeaning` gives the exact outcome of the lowered code for every
fuel and answer list: the same request, returned value, error or divergence as the source loop,
or a continuation that sees every variable as the loop left it. `EmitContext` does the lowering
with a mutated context and produces the same code. `LoweringClash` is about constants that are
spelled like a version of a `let`: what the code after the loop reads, and exactly when that is
wrong. `LoweringVerdict.LoweredExactly` says which loops are lowered and which error any other one
gets, by the ways through the loop body. What follows a branch is compiled inside it, so that a
declaration in the branch also decides whether an assignment behind it is accepted.

**Names and order.** Tarjan's emission ordering, on mutable maps and an explicit stack, yields
every symbol once, components contiguous and sorted, and paths between components forward. The
pass ordering succeeds exactly when an order exists, fails exactly on cycles, and is the
lexicographically least order.

**Linking.** A function binds exactly what it can reach: `Linking.LinkClosed`. The source says that
no parameter can collide with a runtime name, because these begin with `__`; but the compiler asks
only variables not to begin so, not parameters or catch parameters, and
`LinkedRun.ParameterCaptures` is a program that runs wrong for a parameter `__m0_g`.
`Rewriting.CaptureExactly` and `Linking.LinkCapturesExactly` say, reference by reference, when
something is captured. Names that the compiler makes itself, and declared variables with their
versions, never look like runtime names (`Linking.WrittenNotLike`, and `LoweringBinders` for the
code of lowered loops). So linking captures nothing when no parameter looks like one
(`Linking.HarmlessLink`), which holds when none begins with `__`. Since calls see the caller's
names, a parameter can also capture in a function that is called further down, where no renaming
goes wrong (`LinkedRun.CalleeCaptured`): `LinkedRun.LinkedNamesHold` is about whole runs, and says
that a runtime name gives the linked function in every state of every run, when no linked function
has such a parameter.

**DSL.** The tokens of printed IR do not depend on the layout, and parsing them gives the IR back
for every indent, width and compact setting, exactly when no object literal has the key
`__proto__`. The parser assigns properties, so that key makes no entry: an object or null under
it becomes the prototype, through which `tisyn` is read like a property of the object, and
anything else is dropped. `DslRoundTrip.PrintParse` says what comes back in every case, and when
a `Construct` is refused. `Grammar.AcceptedExactly` gives the grammar that the parser accepts and
what its trees stand for, `LexicalForms` that of the tokens, `Layout` says when a term is printed
on one line. Repair of truncated text appends closing delimiters only, and the closers are unique.
A text that closing delimiters complete is recovered by `Truncation.ParseWithRecovery`, except
where it ends at the key of an object entry: the parser reports no open calls there, and the text
is not repaired. `Truncation.OpenBrace` is such a text.

**Encodings.** Canonical encodings are equal exactly when values are equal up to the order of
keys and the sign of a zero, and parse back to the value. Numbers are compared by value: all that
is used of JavaScript is that the text of a number is a numeral that rounds to the number.

Where documentation and code disagree the model follows the code. A failing `all` settles with the
error that completes first, not with the lowest index its comment names;
`Settling.AllErrorFollowsOrder` says when the two agree under every order. Parsing untrusted text
can raise an exception that is no parse error, on a call of a name that the constructor table
inherits, although the documentation says it never throws; `ParserCrash.CrashesExactly` says for
which texts, `AutoClose.RaisesExactly` for which repairs. The compiler does not detect the clash
of a constant with a version of a `let`; `LoweringClash.ClashReadsLoopVariable` is a program that
is compiled wrong. The renaming of references does not treat the payload of a finalizer as bound,
which the kernel does; `Rewriting.PayloadSpared` says when that makes no difference. Payloads are
called `__fp_0`, `__fp_1` and so on, so only a function declared under such a name, which the
compiler does not refuse, is taken for a payload: `LinkedRun.PayloadKeptExactly`.

Lemmas carry `{:induction false}`: every induction is written out.

## Model

| member | source | states |
|---|---|---|
| Evaluate.LookupName | packages/kernel/src/environment.ts:29-38 | walking the frames finds the innermost binding, or raises `UnboundVariable` |
| Evaluate.ExtendAll | packages/kernel/src/environment.ts:48-57 | the frame filled in a loop binds each parameter to the last value given for it and hides nothing else; unequal numbers are the arity error |
| Evaluate.Evaluate | packages/kernel/src/eval.ts:50-130 | evaluation of every kind of node agrees with the evaluator function, answer by answer |
| Evaluate.EvaluateStructural | packages/kernel/src/eval.ts:133-445 | every structural operation agrees with the evaluator function |
| Evaluate.EvaluateInOrder | packages/kernel/src/eval.ts:146-154 | a sequence stops at the first error or suspension, else its value is the last one |
| Evaluate.EvaluateChoice | packages/kernel/src/eval.ts:286-301 | `and`, `or` and `if` evaluate at most one more operand, and give an operand back |
| Evaluate.EvaluateWhile | packages/kernel/src/eval.ts:168-182 | the test is evaluated anew before each round; the value is that of the last round |
| Evaluate.EvaluateCall | packages/kernel/src/eval.ts:184-207 | the body runs in the caller's environment plus the parameters |
| Evaluate.EvaluateList | packages/kernel/src/eval.ts:327-346 | operands in order, stopping at the first fault |
| Evaluate.EvaluateFields | packages/kernel/src/eval.ts:317-325 | entries of `construct` in the sorted order of their keys |
| Evaluate.EvaluateTry | packages/kernel/src/eval.ts:391-445 | handler for catchable errors only; the finalizer's own error takes over |
| Evaluate.ResolveData | packages/kernel/src/resolve.ts:44-90 | effect data is resolved in one pass, keys sorted, quotes losing one layer |
| Operators.Sums | packages/kernel/src/eval.ts:219-241 | sums, differences and products of what the operands come to |
| Operators.Divisions | packages/kernel/src/eval.ts:219-245 | the remainder of the division that is cut off towards zero; a zero divisor raises |
| Operators.RemainderUnique | packages/kernel/src/eval.ts:244-245 | there is one such remainder |
| Operators.SubtractionUndoes | packages/kernel/src/eval.ts:236-239 | subtraction undoes addition, whatever the operands do on the way |
| Operators.Distributes | packages/kernel/src/eval.ts:236-241 | multiplication distributes over addition and has one as its unit |
| Operators.OnlyNumbers | packages/kernel/src/eval.ts:219-231 | both operands are evaluated, then the left and then the right one is refused |
| Operators.Comparisons | packages/kernel/src/eval.ts:251-272 | the four comparisons by the order of the numbers |
| Operators.Equalities | packages/kernel/src/eval.ts:276-283 | `eq` and `neq` of data compare canonical encodings |
| Operators.Choices | packages/kernel/src/eval.ts:38-40 | false, null, 0 and the empty string take the other branch, every other value the first |
| Operators.Concatenation | packages/kernel/src/eval.ts:336-345 | `concat` is the texts of its operands, one after another |
| Operators.ArrayConcatenation | packages/kernel/src/eval.ts:362-374 | `concat-arrays` is the elements of its operands, one array after another |
| Operators.Merging | packages/kernel/src/eval.ts:376-388 | `merge-objects` has the keys of its operands, each with its last value |
| Operators.Refusals | packages/kernel/src/eval.ts:362-388 | an operand of the wrong kind is refused before the next one is evaluated |
| Operators.Thrown | packages/kernel/src/eval.ts:347-360 | message and name of what is thrown, or its text |
| Operators.Caught | packages/kernel/src/eval.ts:391-433 | a handler sees message and name of every error but those of the host |
| Operators.Finalized | packages/kernel/src/eval.ts:391-441 | a finalizer sees the value of a normal outcome and changes the outcome only by an error or a request of its own |
| Operators.Calls | packages/kernel/src/eval.ts:183-206 | the body of a call runs in the environment of the caller behind a frame with the last argument for each parameter |
| Polling.ConvergeCode | packages/dsl/src/constructors.ts:391-417 | `Converge` is the polling program under its time limit |
| Polling.Polls | packages/dsl/src/constructors.ts:391-417 | each value that is not accepted is followed by one sleep of the interval and the next probe, the first accepted one is the result, an error of a probe ends it |
| GeneratorProof.GeneratorShowsEval | packages/kernel/src/eval.ts:50-445 | a generator that halts shows exactly the outcome of evaluation from scratch |
| GeneratorProof.EvalShownByGenerator | packages/kernel/src/eval.ts:50-445 | every outcome of evaluation is where the generator halts |
| GeneratorProof.ResumeEqualsScratch | packages/kernel/src/eval.ts:50-445 | resuming a suspended generator equals evaluating from scratch on the longer answer list |
| GeneratorProof.OneRequestPerAnswer | packages/kernel/src/eval.ts:50-445 | evaluation on the first answers suspends exactly when more are used than these, or when the whole list is too short; on the used answers alone the outcome is the same |
| GeneratorProof.PassesThrough | packages/kernel/src/eval.ts:50-445 | a run that uses more than some answers has stood at the very request where the run on these answers waits |
| GeneratorProof.FinishedIgnoresMore | packages/kernel/src/eval.ts:50-445 | a finished evaluation is unchanged by extra answers and leaves them over |
| GeneratorProof.FuelIrrelevant | packages/kernel/src/eval.ts:168-207 | fuel decides only whether an outcome is reached, not which |
| Source.TerminatingNeverFalls | packages/compiler/src/emit.ts:583-610 | a statement classified as always terminating never falls through, in any run |
| Source.ReturningTerminates | packages/compiler/src/emit.ts:619-664 | always returning implies always terminating |
| Source.ReturningExits | packages/compiler/src/emit.ts:635-664 | of an always-returning statement every exit that does not throw is a return |
| EmitContext.Names.Next | packages/compiler/src/counter.ts:11-15 | synthetic names are numbered per prefix |
| EmitContext.Context.Find | packages/compiler/src/emit.ts:114-126 | the frame found is the innermost that owns the name |
| EmitContext.Context.Declare | packages/compiler/src/emit.ts:129-137 | a declaration starts at version 0 in the innermost frame |
| EmitContext.Context.Bump | packages/compiler/src/emit.ts:145-152 | only a `let` is bumped, in the frame that owns it |
| EmitContext.Context.Resolve | packages/compiler/src/emit.ts:208-214 | a tracked name stands for its current version, an untracked one for itself |
| EmitContext.Context.EmitLoopStatements | packages/compiler/src/emit.ts:2509-2632 | the mutated context produces the code and counter of the emission function, and code at all exactly when nothing is wrong on any way through the statements |
| EmitContext.Context.EmitLoopIfStatement | packages/compiler/src/emit.ts:2649-2707 | branches are compiled in contexts of their own, with the rest of the body inlined |
| EmitContext.Context.EmitWhileCaseB | packages/compiler/src/emit.ts:2294-2370 | the lowered loop, and the context that its continuation is compiled in; or the first fault of the body |
| LoweringVerdict.LoweredExactly | packages/compiler/src/emit.ts:2509-2707 | a loop is lowered exactly when on every way through its body the statements are of the accepted kinds, declarations are unreserved and assigned names were last declared as `let`s; any other one gets the error of its first fault |
| LoweringVerdict.FirstFaultUnique | packages/compiler/src/emit.ts:2649-2707 | there is one first fault, branches in order |
| LoweringVerdict.CutMakesNoDifference | packages/compiler/src/emit.ts:583-610 | leaving out what is behind a branch that always terminates changes no code |
| LoweringBasics.VersionedInjective | packages/compiler/src/emit.ts:140-142 | a versioned name determines its variable and version |
| LoweringBasics.NamesApart | packages/compiler/src/emit.ts:140-142 | two variables share an IR name exactly when one is a constant that is spelled like the version of the other |
| LoweringBasics.RenamedSame | packages/compiler/src/emit.ts:208-214 | renaming variables to their versions preserves the outcome of an expression |
| LoweringState.HoldsAssign | packages/compiler/src/emit.ts:2578-2599 | after a reassignment the new version shows the new value and nothing else moves |
| LoweringProof.SimReturn | packages/compiler/src/emit.ts:2541-2563 | a packed return shows the returned value under its tag |
| LoweringProof.SimExit | packages/compiler/src/emit.ts:2484-2502 | the exit on a false condition shows every carried variable |
| LoweringProof.SimBody | packages/compiler/src/emit.ts:2509-2707 | the code of a loop body, with branches inlined, does what the body and all later iterations do |
| LoweringProof.LoopCall | packages/compiler/src/emit.ts:2294-2345 | the call of the loop function shows how the source loop leaves |
| LoweringTheorem.LoweringPreservesMeaning | packages/compiler/src/emit.ts:2294-2707 | the lowered loop suspends, returns, throws, diverges or continues exactly as the source loop |
| LoweringClash.ConstantReads | packages/compiler/src/emit.ts:140-214 | after a loop a constant reads as itself, or as the loop variable that leaves the loop under its spelling |
| LoweringClash.ConstantMisread | packages/compiler/src/emit.ts:140-214 | a constant is read right exactly when every loop variable that takes its spelling ends with its value |
| LoweringClash.ClashReadsLoopVariable | packages/compiler/src/emit.ts:2294-2370 | a program whose source returns 5 and whose lowered form returns 0 |
| Graph.ComputeReachability | packages/compiler/src/reachability.ts:92-121 | exactly the symbols with a path from an entrypoint |
| EmitOrder.Tarjan.StrongConnect | packages/compiler/src/reachability.ts:327-355 | a search keeps the numbering, the paths along the stack and the closed components |
| EmitOrder.ComponentsOff | packages/compiler/src/reachability.ts:342-353 | what is taken off the stack is one whole component that no call leaves but to earlier ones |
| EmitOrder.LayersOrder | packages/compiler/src/reachability.ts:357-376 | reversed, flattened components form an emission order |
| EmitOrder.ComputeEmitOrder | packages/compiler/src/reachability.ts:300-377 | each symbol once, components contiguous and sorted, paths between components forward |
| PassOrder.TopoSort | packages/cli/src/compile.ts:122-152 | succeeds exactly when an order exists, then with the least; fails exactly on a cycle |
| PassOrder.Release | packages/cli/src/compile.ts:135-143 | the ready list stays the sorted list of what may come next |
| PassOrder.GreedyIsLeast | packages/cli/src/compile.ts:129-144 | every other order is larger at the first difference |
| PassOrder.BlockedHasNoOrder | packages/cli/src/compile.ts:146-149 | unresolved passes have no order |
| PassOrder.BlockedHasCycle | packages/cli/src/compile.ts:146-149 | among unresolved passes with declared dependencies there is a cycle |
| PassOrder.OrderHasNoCycle | packages/cli/src/compile.ts:122-152 | an order rules out cycles |
| PassOrder.SelectPasses | packages/cli/src/compile.ts:154-180 | a filter selects exactly what it depends on; an unknown name is refused |
| PassOrder.FilteredBuild | packages/cli/src/compile.ts:38-47 | a filtered build runs each pass once, after its dependencies |
| Rewriting.RefsRewritten | packages/compiler/src/compile-graph.ts:558-704 | renaming moves each free reference to its new name and touches no other, nor any binder |
| Rewriting.CaptureExactly | packages/compiler/src/compile-graph.ts:558-704 | every free reference stays free exactly when none stands under a binder of its new name |
| Rewriting.RewriteFree | packages/compiler/src/compile-graph.ts:558-704 | free afterwards are exactly the new names of the free references that are not captured |
| Rewriting.ScopesSpelled | packages/compiler/src/compile-graph.ts:558-704 | a `let` binds its scope and not its value, parameters the body, a catch parameter its clause, a payload nothing |
| Rewriting.CollectedCover | packages/ir/src/collect.ts:35-106 | the collected references include every reference that is renamed |
| Rewriting.RewriteSpared | packages/compiler/src/compile-graph.ts:558-704 | taking a name as bound makes no difference exactly when nothing renames it or nothing refers to it |
| Rewriting.PayloadSpared | packages/compiler/src/compile-graph.ts:623-673 | a finalizer keeps the references to its payload exactly when no function of that name is renamed or it makes none |
| LinkedRun.PayloadKeptExactly | packages/compiler/src/emit.ts:1284-1319 | the unpacking of a finalizer that the compiler emits keeps its payload exactly when no linked function has the name of the payload in that module |
| LinkedRun.PayloadRewritten | packages/compiler/src/compile-graph.ts:645-646 | with a linked function called `__fp_n` the unpacked payload is that function instead of the value |
| Linking.BuildPerExportReachable | packages/compiler/src/compile-graph.ts:435-487 | exactly the functions with a path of references from the selected export |
| Linking.RuntimeNamesInjective | packages/compiler/src/compile-graph.ts:385-394 | no two functions have the same runtime name |
| Linking.NamesMeanTargets | packages/compiler/src/compile-graph.ts:500-549 | the name map of a module renames exactly the names that mean reachable functions, to their runtime names |
| Linking.NamesResolve | packages/compiler/src/compile-graph.ts:500-549 | a name means the function that the module declares under it, or what the module imports under it is exported as |
| Linking.RuntimeNameSpelled | packages/compiler/src/compile-graph.ts:385-394 | exported functions are called `__rtexport_` and their name, others `__m`, the position of the module, an underscore and their name |
| Linking.WrittenNotLike | packages/compiler/src/emit.ts:488-491 | no declared variable, version of one or name made by the compiler looks like a runtime name |
| Linking.LinkedReferences | packages/compiler/src/compile-graph.ts:406-419 | each reference of a reachable function that means a compiled function means a reachable one and takes its runtime name; every other one stays |
| Linking.LinkCapturesExactly | packages/compiler/src/compile-graph.ts:61-64 | a linked function captures none of its references exactly when none stands under a binder spelled like the runtime name that it takes |
| Linking.HarmlessLink | packages/compiler/src/compile-graph.ts:61-64 | nothing is captured in a function whose parameters and catch parameters do not look like runtime names |
| Linking.LinkClosed | packages/compiler/src/compile-graph.ts:406-419 | a reference to a compiled function takes a name that is bound to that function, linked in its turn, and is free exactly when no binder around it is spelled so |
| LinkedRun.LinkedNamesHold | packages/compiler/src/compile-graph.ts:61-66 | in every state of every run a reference under a runtime name gives the linked function, when no linked function has a parameter that looks like a runtime name |
| LinkedRun.ParameterCaptures | packages/compiler/src/parse.ts:57-62 | a program whose result is an error exactly when its parameter is spelled like one of the two runtime names |
| LinkedRun.CalleeCaptured | packages/compiler/src/compile-graph.ts:558-704 | in that program no function captures a reference of its own when the parameter has the name of the function called at second hand |
| LoweringBinders.LoweredClean | packages/compiler/src/emit.ts:2294-2370 | the code of a lowered loop binds only names that the compiler makes, variables and their versions, hence no runtime name |
| Linking.CompileGraphForRuntime | packages/compiler/src/compile-graph.ts:345-426 | the linked export with one binding for each function it needs and no other, or the error for a missing export |
| Journal.InMemoryStream.Append | packages/durable-streams/src/stream.ts:58-65 | appends one event at the end |
| Journal.ReplayIndex.constructor | packages/durable-streams/src/replay-index.ts:22-39 | the index holds each coroutine's yields in order and its last Close |
| Journal.ReplayIndex.PeekYield | packages/durable-streams/src/replay-index.ts:45-49 | the first entry that has not been consumed |
| Journal.ReplayIndex.ConsumeYield | packages/durable-streams/src/replay-index.ts:52-55 | advances one coroutine's cursor and no other |
| Journal.YieldsOfProj | packages/durable-streams/src/replay-index.ts:22-39 | what the index says of a coroutine depends on its own events only |
| Journal.CloseIsTheLast | packages/durable-streams/src/replay-index.ts:22-39 | the Close of a coroutine is the last one in the stream, if there is one |
| Journal.YieldsByPlace | packages/durable-streams/src/replay-index.ts:22-39 | its entries are those of its yields, at increasing places of the stream |
| Lanes.Scope.Around | packages/context-api/src/index.ts:207-232 | a registration goes to the end or the front of its group |
| Lanes.CollectMiddleware | packages/context-api/src/index.ts:237-288 | the stack has each registration once: `max` before `replay` before `min`, outer scopes first in `max` and inner ones in the others, within a scope as held |
| Lanes.ArrangedUnique | packages/context-api/src/index.ts:237-288 | there is one such stack |
| Lanes.StackOrder | packages/context-api/src/index.ts:207-288 | of any history of registrations: earlier ones first in `max`, later ones first in the other groups |
| Lanes.RegistrationOrder | packages/context-api/src/index.ts:207-288 | however registrations interleave, a scope runs `max` in order and the others latest first |
| Lanes.ThroughAppend | packages/context-api/src/index.ts:237-288 | passing two stacked lanes is passing one after the other |
| Lanes.ReplayMatchesLive | packages/runtime/src/execute.ts:885-966 | what one live dispatch journals, a replayed one accepts unchanged, and no handler runs |
| Lanes.DivergenceMeansForeign | packages/runtime/src/execute.ts:2512-2567 | a replay diverges only on an entry that no live dispatch of the request journals |
| Lanes.ReplayedExactly | packages/runtime/src/execute.ts:2512-2567 | a stored entry is replayed exactly when it names the request at the boundary or the request as it was made, and unchanged |
| Lanes.IdentityNames | packages/kernel/src/effect-id.ts:3-12 | type and name of an effect are what stands before and behind the first dot, or the whole id twice |
| Replaying.BeyondClose | packages/runtime/src/execute.ts:2462-2593 | a closed coroutine without entries left gets no answer and leaves no trace |
| Replaying.SessionReplays | packages/runtime/src/execute.ts:2462-2593 | a fresh session on the stream that a session leaves gives the same results to the same requests, whatever its handlers are, consults none and appends nothing |
| Replaying.ServeKeeps | packages/runtime/src/execute.ts:2462-2593 | an answered request leaves in the journal an entry that every later dispatch replays, and stream, stored events and cursors stay in step |
| Driver.Advance | packages/runtime/src/execute.ts:1074-1076 | the generator runs to its next halt |
| Driver.Session.AtBoundary | packages/runtime/src/execute.ts:885-966 | the replay lane consumes and records a matching entry, or notes the boundary identity |
| Driver.Session.RunLane | packages/runtime/src/execute.ts:2502-2514 | the chain's answer, boundary identity and consumption, as the middleware determine them |
| Driver.Session.DispatchEffect | packages/runtime/src/execute.ts:2462-2593 | a live result is in the stream before it is returned; a stored result is returned as it is |
| Driver.Session.AppendClose | packages/runtime/src/execute.ts:135-139 | a Close is appended unless the stream held one |
| Driver.Session.DriveKernel | packages/runtime/src/execute.ts:1022-1420 | a coroutine with a cancelled Close is not run; any other comes from any stored prefix to the outcome of the tale that happens, and to exactly the planned events of its whole subtree, touching no other coroutine |
| Driver.Session.OrchestrateAll | packages/runtime/src/execute.ts:1431-1479 | children in source order, each complete, values in source order |
| Driver.Session.OrchestrateRace | packages/runtime/src/execute.ts:1488-1534 | the children that end complete in any order with what stored Closes and plans say, until one settles the race; then all others, which need not end, are halted and write cancelled Closes |
| Driver.Session.ResumeRace | packages/runtime/src/execute.ts:1502-1534 | a race that an earlier session has won is won again, unless a child without a cancelled Close would succeed with another value |
| Driver.RaceThenResume | packages/runtime/src/execute.ts:1488-1534 | a race settled in one session is settled alike, with a value or an error, by the next one on the stream, in whatever order the children complete there |
| Races.SettledAgain | packages/runtime/src/execute.ts:1502-1527 | with the children that have ended coming to the same and the halted ones to nothing, every order settles the race as before |
| Races.LeftBehind | packages/runtime/src/execute.ts:1022-1052 | after a settled race each child that has ended comes to the same from the stream, every other one is cancelled |
| Driver.Execute | packages/runtime/src/execute.ts:969-1002 | a session on any stream left by earlier ones ends with the result and the events of the tale that happens |
| Driver.ExecuteAfterCrashes | packages/runtime/src/execute.ts:969-1002 | a session on the stream of any schedule of steps and crashes comes to the result and the events of an uninterrupted run |
| Driver.DispatchThenReplay | packages/runtime/src/execute.ts:2462-2593 | two sessions on one stream: the second gives back what the first gave and appends nothing |
| Engine.Results | packages/runtime/src/execute.ts:1467-1471 | at each place the value of the child at that place |
| RunPlan.PlanUnique | packages/runtime/src/execute.ts:1022-1420 | the uninterrupted run of a coroutine is determined by its expression and environment |
| Story.TaleHappens | packages/runtime/src/execute.ts:1022-1479 | the result of an uninterrupted run is the outcome of the evaluator on the answers of middleware and handlers and the values of the children, all of them used |
| Story.TaleUnique | packages/runtime/src/execute.ts:1022-1479 | expression and environment determine the tale |
| Story.WholeTale | packages/runtime/src/execute.ts:2585-2592 | a complete journal has, of each coroutine, the identities and results of the tale and its Close |
| RunPlan.ChildIdInjective | packages/runtime/src/execute.ts:1102-1133 | a child's id determines its parent and its number |
| RunPlan.SiblingsApart | packages/runtime/src/execute.ts:1449-1450 | no id lies below two children of one coroutine |
| Allocation.IdsUnique | packages/runtime/src/execute.ts:1102-1336 | however scopes, spawns, resources, invocations, lanes, timeboxes, `all` and `race` are mixed and nested, refused ones among them, an id that is given out is new |
| Resources.TornDownOnce | packages/runtime/src/execute.ts:1696-1702 | each resource that was created is still held or torn down once, whichever ways out ask for it |
| Resources.ClosesInOrder | packages/runtime/src/execute.ts:1080-1088 | on every way out the Closes of the resources come latest first, each once, and before that of the owner |
| PlanIndex.SubplansDistinct | packages/runtime/src/execute.ts:1449-1450 | no two coroutines of a run share an id |
| EngineRecord.DispatchPlanned | packages/runtime/src/execute.ts:2462-2593 | a dispatch is live exactly when the stored events are used up, and gives the planned entry either way |
| EngineRecord.RecordNext | packages/runtime/src/execute.ts:2585-2592 | recording keeps stream, stored events, journal and cursors in step |
| EngineInvariant.StepKeeps | packages/runtime/src/execute.ts:1022-1479 | every step of every coroutine keeps the invariant; none diverges |
| EngineInvariant.CrashKeeps | packages/runtime/src/execute.ts:969-1002 | a crash at any point leaves a stream from which the next session starts well |
| Recovery.AlwaysInv | packages/runtime/src/execute.ts:1022-1479 | the invariant holds after every schedule of steps and crashes |
| Recovery.CrashRecovery | packages/runtime/src/execute.ts:1022-1479 | a finished schedule has the planned result and, of every coroutine, exactly the planned events |
| Recovery.RunsAgree | packages/runtime/src/execute.ts:1022-1479 | any two schedules that finish agree |
| Recovery.NoDeadlock | packages/runtime/src/execute.ts:1022-1479 | until the root has ended some coroutine can step |
| Recovery.StepsDecrease | packages/runtime/src/execute.ts:1022-1479 | the steps of a session are bounded |
| Recovery.CanFinish | packages/runtime/src/execute.ts:1022-1479 | every reachable state can be driven to the end |
| Recovery.ResumedFromStream | packages/runtime/src/execute.ts:2585-2592 | a generator stands only where events that are in the stream have brought it |
| Recovery.CloseIsLast | packages/runtime/src/execute.ts:135-139 | a coroutine has at most one Close in the stream, and nothing after it |
| LiveRun.RunGivesPlan | packages/runtime/src/execute.ts:1022-1479 | an uninterrupted run that finishes, in any interleaving, yields the plan of the program |
| LiveRun.AnyRecoveryAgrees | packages/runtime/src/execute.ts:1022-1479 | every finishing schedule of steps and crashes agrees with one uninterrupted run |
| LiveRun.AnyRecoveryTells | packages/runtime/src/execute.ts:1022-1479 | every finishing schedule has the result and the events of the tale that happens |
| LiveRun.AnyRunRecovers | packages/runtime/src/execute.ts:1022-1479 | every schedule can be completed without another crash |
| Settling.AllJoin.Complete | packages/runtime/src/execute.ts:1446-1473 | the callback of one completed child |
| Settling.RaceJoin.Complete | packages/runtime/src/execute.ts:1502-1527 | the callback of one completed child |
| Settling.AllSucceeds | packages/runtime/src/execute.ts:1423-1479 | under every completion order, the values in source order |
| Settling.AllFails | packages/runtime/src/execute.ts:1457-1465 | the first completed error, whichever children complete before it, after it or not at all |
| Settling.AllErrorFollowsOrder | packages/runtime/src/execute.ts:1423-1465 | every completion order settles with the error of the first failing child exactly when all failing children fail alike |
| Settling.AllErrorAlike | packages/runtime/src/execute.ts:1457-1465 | the same for orders that end early |
| Settling.RaceWon | packages/runtime/src/execute.ts:1512-1514 | the first success wins, whichever children complete before it, after it or not at all |
| Settling.RaceLost | packages/runtime/src/execute.ts:1515-1527 | when all fail, the error of the first child in source order |
| Settling.StoredRaceWinner | packages/runtime/src/execute.ts:1046-1052 | on a stream left by a crash the stored winner is kept in every order exactly when no child without a cancelled Close would succeed with another value |
| Lexer.Tokenize | packages/dsl/src/tokenize.ts:16-254 | the loop over the source yields the tokens of the lexical function, or a lexical error |
| Lexer.UnescapeEscape | packages/dsl/src/tokenize.ts:157-236 | unescaping an escaped string gives it back, for every string |
| Lexer.LexNumber | packages/dsl/src/tokenize.ts:99-155 | a numeral of RFC 8259 section 6 is one token when nothing continues it |
| LexicalForms.NumeralForm | packages/dsl/src/tokenize.ts:99-155 | numerals are a sign, an integer without leading zeros, a fraction and an exponent, and nothing else |
| LexicalForms.EscapesRead | packages/dsl/src/tokenize.ts:177-222 | eight characters may follow a backslash, and what each stands for |
| LexicalForms.CodeRead | packages/dsl/src/tokenize.ts:201-216 | four hexadecimal digits stand for the character with that number |
| LexicalForms.EscapesWritten | packages/ir/src/print.ts:36-38 | quotes, backslashes and control characters are escaped and nothing else |
| LexicalForms.CharacterTokens | packages/dsl/src/tokenize.ts:43-97 | four characters are skipped, eight are tokens, others that begin no word, numeral or string are errors |
| Lexer.LexAppend | packages/dsl/src/tokenize.ts:16-254 | appending what cannot continue a word appends its tokens |
| PrinterTokens.WrappedReads | packages/ir/src/print.ts:400-431 | both layouts of a call, array or object have the same tokens |
| PrinterTokens.PrintReads | packages/ir/src/print.ts:27-431 | the tokens of printed IR depend on the IR alone, for all options and depths |
| Layout.FitsOnLine | packages/ir/src/print.ts:48-56 | a term that fits is printed on one line, where that is wanted |
| Layout.UnbrokenFits | packages/ir/src/print.ts:400-431 | a term that could be spread over lines and is not fits, and is wanted on one line |
| DslRoundTrip.DispatchArgs | packages/dsl/src/constructors.ts:87-390 | each constructor rebuilds the node from the arguments that are printed for it |
| DslRoundTrip.ParsePrinted | packages/dsl/src/parse.ts:101-326 | parsing a term's tokens stops after them with what comes back of the term, or refuses it |
| DslRoundTrip.PrintParse | packages/dsl/src/parse.ts:334-357 | printed IR comes back with prototypes set from `__proto__` entries, and is refused where a `Construct` would read as a node |
| DslRoundTrip.RoundTrip | packages/dsl/src/index.ts:20-23 | parsing inverts printing exactly when there are no such entries |
| DslRoundTrip.ProtoEntryLost | packages/dsl/src/parse.ts:305-323 | an object whose only key is that one comes back without entries, with the value as its prototype or without it; a `Construct` of it is refused when the prototype is a node |
| DslRoundTrip.PrintInjective | packages/ir/src/print.ts:17-25 | IR that prints alike under any options is equal |
| DslRoundTrip.InheritedNameCrashes | packages/dsl/src/parse.ts:182-241 | a call of any inherited name with any printable arguments is no parse error but an exception |
| ParserCrash.CrashesExactly | packages/dsl/src/index.ts:32-44 | parsing raises that exception exactly when a complete call of an inherited name stands where the text before it wants an expression |
| ParserCrash.NeverCrashes | packages/dsl/src/index.ts:32-44 | never where no inherited name is followed by a parenthesis |
| ProtoKeys.RereadWellFormed | packages/dsl/src/parse.ts:305-323 | what comes back is IR of the constructors exactly when no object literal sets a prototype |
| ParserState.State.BuildRecoveryInfo | packages/dsl/src/parse.ts:59-99 | everything can be closed exactly when each open call has enough arguments with one more for what is open inside it |
| ParserState.State.ParseExpression | packages/dsl/src/parse.ts:101-157 | the mutating parser consumes and reports what the parser function does |
| ParserState.State.ParseConstructorCall | packages/dsl/src/parse.ts:159-241 | a call leaves the frame stack and depth as they were |
| ParserState.ParseSource | packages/dsl/src/index.ts:32-44 | the accepted IR or the failure, with recovery information at the end of input |
| Grammar.AcceptedExactly | packages/dsl/src/parse.ts:101-357 | a source is accepted exactly when its tokens are those of a tree of the grammar that stands for a term, and gives that term |
| Grammar.RefusedExactly | packages/dsl/src/constructors.ts:87-417 | constructors refuse names that are no strings, lists that are no arrays, a `Construct` of no plain object, a `Try` without a clause or with an empty name, and nothing else |
| AutoClose.TryAutoClose | packages/dsl/src/recovery.ts:22-75 | the loop with its delimiter stack computes the repair, or raises the exception of the parser |
| AutoClose.AcceptedBalanced | packages/dsl/src/parse.ts:159-303 | every accepted source has matched delimiters |
| AutoClose.AcceptedUnchanged | packages/dsl/src/recovery.ts:63-65 | an accepted source is returned unchanged |
| AutoClose.RepairIsFixed | packages/dsl/src/recovery.ts:22-75 | a repair is a fixed point |
| AutoClose.SuffixIsClosers | packages/dsl/src/recovery.ts:67-71 | closers that make a source acceptable are the last-in-first-out closers |
| AutoClose.RepairComplete | packages/dsl/src/recovery.ts:67-74 | the repair appends closers exactly when these make the source acceptable |
| AutoClose.RaisesExactly | packages/dsl/src/recovery.ts:73-74 | the repair raises an exception exactly when closing completes a call of an inherited name behind a text that is fine as far as it goes |
| AutoClose.NeverRaises | packages/dsl/src/index.ts:56-80 | neither parsing nor repair raises one where no inherited name is followed by a parenthesis |
| AutoClose.TruncatedCallRaises | packages/dsl/src/index.ts:56-80 | an inherited name and an opening parenthesis count as a truncation that can be closed, and closing it raises |
| Truncation.TruncationReported | packages/dsl/src/parse.ts:101-326 | of a text that closing delimiters complete the parser reports that they can, unless it ends where a key is wanted, of which it reports nothing |
| Truncation.ParseWithRecovery | packages/dsl/src/index.ts:56-80 | accepted sources are never repaired; one that closing delimiters complete is repaired with exactly these, unless it ends where a key is wanted; the exceptions of parsing and repair are passed on |
| Truncation.OpenBrace | packages/dsl/src/parse.ts:305-323 | an opening brace is not repaired although a closing one completes it |
| Canonical.DecodeEncode | packages/kernel/src/canonical.ts:3-37 | parsing the encoding back gives the texts of the value, with a negative zero turned into zero |
| Canonical.ValueRoundTrip | packages/kernel/src/canonical.ts:24-29 | read as numbers again they give the value, for whatever numeral stands for a number that rounds to it |
| Canonical.ValueInjective | packages/kernel/src/canonical.ts:3-37 | encodings are equal exactly when values with numbers are, up to the sign of a zero |
| Canonical.EncodeInjective | packages/kernel/src/canonical.ts:3-37 | the same of values whose numbers are texts, up to the order of keys and the sign of a zero |
| Canonical.EqIsStructural | packages/kernel/src/eval.ts:276-283 | equality of encodings is structural equality of data values |
| Canonical.ArraySpelled | packages/kernel/src/canonical.ts:16-18 | items with commas between them and nothing else |
| Canonical.ObjectSpelled | packages/kernel/src/canonical.ts:19-21 | the least key first, its value behind a colon, the others behind a comma |
| Canonical.PayloadConsistent | packages/kernel/src/payload-sha.ts:25-31 | input and hash of a payload agree, and the hash stands for the value |

## Left out

- LoweringTheorem.LoweringPreservesMeaning: for loops that are not the last statement, without nested loops, calls of `Fn`s or shadowing inside (variables of one name in nested blocks have one place in the store of `Source`), and without a constant that is spelled like a version of a `let` (`x_1`), for which `LoweringClash` says what happens; the lowering of the last statement and of packed branches is not modelled
- LoweringVerdict.LoweredExactly: checks of capabilities, agents and unsupported expressions are not modelled
- Source.TerminatingNeverFalls: that the classifiers find every statement of the kind is not stated; that the lowering does not depend on it is `LoweringVerdict.CutMakesNoDifference`
- LoweringBasics.RenamedSame: for expressions over references, literals, operators, property reads and effects; function literals and calls inside an expression are not modelled
- LoweringClash.ConstantMisread: is about what the code after the loop reads; for loops that do not read the constant themselves
- LoweringBinders.LoweredClean: for loops, the only statements whose lowering is modelled; that the code of other statements binds only such names is taken as given in `Linking.HarmlessLink`
- Recovery.CrashRecovery: for trees of `all` blocks whose children succeed; failing children are settled in `Settling` but take no step in the engine, and races are driven by `Driver` alone
- Driver.Session.DriveKernel: runs children one after another, which is one of the interleavings of the engine, and does not itself meet a `race`, whose children `Driver.Session.OrchestrateRace` drives; a loser is halted before it has recorded anything, or not started
- Driver.Session.DispatchEffect: without runtime-direct effects (`__config`, `stream.*`), subscription handles and `ctx.invoke`
- Lanes.ReplayMatchesLive: for middleware that delegates at most once and is a function of the request; the hash of a payload is modelled as the payload
- Evaluate.EvaluateStructural: numbers are integers, so `div` and floating point are left out, and a wrong number of operands is a type error; property reads are of own keys only
- DslRoundTrip.RoundTrip: IR built by the constructors of the DSL, with distinct keys, identifiers as `Construct` keys, no object that poses as a tagged node by an entry of its own, and no type annotation on references; `Eval` of a structural id is not identified with the structural node
- Lexer.UnescapeEscape: characters are Unicode scalar values, so lone surrogates, and escapes of surrogates, are out; widths are counted in characters
- Canonical.ValueRoundTrip: the algorithm by which JavaScript chooses the text of a number, and the rounding of a numeral, are parameters with the round trip of one number as their only property; infinities and NaN are no JSON values
- Operators.Thrown: names of errors are texts, and the value that is not callable is not part of the message
- Layout.UnbrokenFits: the indentation of lines is not described further
- Positions of tokens and the wording of error messages of the parser
- Linking.LinkedReferences: for modules whose identifiers are distinct and without colons; a reference named like a property that every object inherits (`toString`) is found in the name map by the source, and is not told apart here
- Scopes, spawned tasks, resources, timeboxes, subscriptions and inline invocation in the runtime, but for the ids they give out and, of resources, the order of teardown and Closes; an owner that is halted from outside
- Polling.Polls: for a probe that asks one thing each time and a condition that asks nothing; the time limit is not modelled
- The TypeScript syntax tree: symbols, calls and statements are taken as given
- Transports, agents, files, the network and the scheduling of operations; agents are an oracle and scheduling is any interleaving
- Integer-like object keys, which JavaScript moves to the front of an object
