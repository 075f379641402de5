# SwaziLang verification project

SwaziLang is a tree-walking interpreter written in C++. This project models the parts of it whose correctness is
hardest to see from the code, and proves properties of them in Dafny 4.11. `dafny verify dfyconfig.toml` checks
everything.

## The asynchronous machine

`AsyncMachine` is a step machine: promises, call frames, the FIFO queue of microtasks, the call stack, the list of
suspended frames and the native stack of activations. Closures pushed onto callback lists become `Reaction`s. User
code is arbitrary: whenever user code runs, any of the modelled operations may come next (making and settling
promises, then, catch, finally, calls, returns, throws, await), so a statement about all runs is a statement about
every program built from these operations and every interleaving of it.

What is proved, over every reachable state and every run:

- A promise settles at most once although `resolve_next` and `reject_next` never look at its state
  (`AsyncSafety.SettledForever`), because every pending derived promise has exactly one outstanding settler and
  nothing else has any (`OneSettler`); whatever settles a promise finds it pending (`AsyncValues.SettlerFindsPending`).
- A suspended frame is listed once, off the stack, with one wake-up outstanding (`OneResumption`), and when its
  resumption is queued it is stamped with the final state and result of the very promise it waited for
  (`AsyncStamps.ResumeFindsOutcome`).
- Reactions run in attachment order, each at most once, and all of them by the time the queue is empty
  (`AsyncOrder.ReactionsInOrder`). Every step settles, attaches and sends out exactly what its `ChangeOf` names: no
  more (`AsyncValues.StepChanges`) and no less (`AsyncSends.StepDelivers`, `StepKeepsTold`).
- Microtasks start in exactly the order in which they were queued, in every run: a job with k others before it is the
  (k + 1)-th to start from there on (`AsyncQueue.FirstInFirstOut`, `StartsInTurn`). So the code after an await of a
  settled promise runs behind a then attached to it before (`ThenBeforeAwait`).
- Every reaction is told the final result of the very promise it was attached to
  (`AsyncValues.ReactionHearsItsPromise`), so `finally` passes the outcome through, and a promise returned from a
  callback is adopted: in every continuation the derived promise settles only after it and as it did, or never if a
  callback returns the derived promise itself (`Adopts`).
- Calls give back the call stack they found (`AsyncCalls.CallRestoresStack`). In any run the frame of an async call
  executes its code from await to await, is told at each the outcome of the very promise it awaited, and settles the
  call's promise with what the code ends in, and nothing else does (`AsyncDriven.CallSettlesAsItsCode`).
- The handled-marking walk ends on every parent graph, cycles included, and marks the promises reached through
  unhandled parents (`AsyncReports.MarksTheChain`). Along a run a promise becomes handled exactly by the walks that
  come past it (`AsyncHandled.HandledExactly`), and a rejection that came through `reject_promise` is reported exactly
  when its check ran before any such walk (`ReportedExactly`). This is not the same as having no handler: see below.

The proofs rest on a counting invariant (`AsyncOwnership.Inv`): for each target, a promise to settle or a frame to
wake, the reactions outstanding for it, counted over callback lists, queued microtasks and the native stack, equal
what the target's state calls for.

`Evaluator` (module `EvaluatorState`) is the imperative side: an object with the interpreter's fields, updated in place
as `Evaluator.cpp` and `ExpressionEval.cpp` do. Its `Valid()` is the invariant of its state, and `Perform` carries out
any enabled step of the machine with the object's own methods, keeps `Valid()`, and leaves every settled promise as it
was; the unguarded `ResolveNextWith` and `RejectNextWith` may only be called on a pending promise, and all their callers
are shown to do so.

## Throw and re-run

`await` and `yield` throw out of the statement, which is later run again from its start. `AwaitRerun` and `AwaitCost`
treat this as a counter: the stamped results are the digits, each re-run is one increment. For every expression,
including nested and short-circuited awaits and rejections, whose calls and promises answer the same every time,
re-running ends as direct evaluation does, after exactly `Runs - 1` suspensions, and each call and await is evaluated
exactly `Times` times (`RerunIsDirect`).

`AwaitEffects` runs programs with a state that every call and every wait may read and change. The counts stay as they
are, as long as it stays the same which calls throw and which awaits reject (`RerunCounts`). When none do, n awaits
side by side cost 2^n - 1 suspensions, the i-th await, counted from 0, being evaluated 2^(n-1-i) times, whatever the
calls return or change and whatever the promises fulfil with (`SiblingsCountInBinary`). What is computed does change:
`AwaitDirect.DirectExactly` shows that re-running ends as direct evaluation does, with the same value or exception and
in the same state, in every program and from every state, exactly when no two awaits stand side by side and nothing
but constants stands to the left of one.

`AsyncBody` and `BodyEffects` lift these results to whole function bodies, and `AsyncPrograms` puts bodies and step
machine together: in every run in which the frame of a call runs a body, with any other activity in between, the
call's promise ends as straight-line execution of the body does (`CallIsDirect` for calls and promises that answer the
same every time; `CallIsDirectIn` for any effects, if the body's statements meet the condition above).

What a body computes is also stated without the semantics that execution and reference share: `return e` may be split
into `x = e; return x` without changing the result, every other variable keeps its value, the last statement decides
how the body ends, and functions, operators and awaits get their operands as written (`AsyncBody.StoredIsReturned`,
`StoresNowhereElse`, `LastStatement`, `Applied`, and the same for programs with effects in `BodyEffects` and for
generators in `Generators`).

`Generators` compares `yield` with a coroutine that captures its continuation. The variables are shared with the rest
of the program, which may assign them in any call and between any two requests. `GeneratorLimits.CoroutineExactly`: a
statement behaves as the coroutine does, in every program and under every sequence of next and return calls, exactly
when no two of its yields stand side by side and nothing but constants stands to the left of one; a yield may stand
inside another's operand.

## Values, text and memory

`EditDistance`: the table method computes the length of a shortest edit script, which is a metric.
`Calendar`, `DateTime`, `DateTimeText`, `DateTimeForms`, `DateTimeLiterals`, `Zones`, `DateTimeObjects`: day numbers,
date-time arithmetic with the 64-bit casts written out, the scanner of timestamps, the parser's second reading of the
same text, the printer, and the texts setZone reads. `DateTimeForms.LiteralIsScanned` and `AcceptsExactly` are about
every literal that can be written: seconds or none, a fraction of any length, the zone as Z, +HH:MM, +HHMM or +HH. `DateTimeLiterals.AnySequenceReadsBack` goes the whole way round: from an
accepted literal, through any operations, to the refreshed text and back to a value. `Layout`, `Radix`, `Quoted`: the
lexer's indentation stack with blanks and tabs, its conversion of binary, octal and hexadecimal literals to decimal
strings, and quoted strings with their escapes. `Strings`, `Ranges`: splitting, joining, replacing, and integer ranges. `TrackedVector`: the byte counter of
tracked vectors.

## Where the code does less than it says

Each has its exact condition for all inputs, and a lemma at a concrete input or for every input of the failing kind.

- A rejection that a catch callback has received can still be reported as unhandled. When a then callback returns a
  pending promise q, only q's parent link is set; a catch attached to the derived promise marks upwards from there and
  never comes to q. If q then rejects, the catch runs with q's reason and q is reported
  (`AsyncWitness.CaughtYetReported`; exactly when: `AsyncHandled.ReportedExactly`).
- The rejection of a promise made by then, catch or finally is never reported (`AsyncReports.ReportsExactly`;
  `AsyncWitness.DerivedRejectionIsSilent`).
- A generator statement with two yields side by side never finishes, where the coroutine does with one call more than
  it has yields (`GeneratorLimits.SideBySideNeverFinishes`, `CoroutineFinishes`). A call, a property read or a variable
  to the left of a yield is evaluated again at the next request: `return x + (yield 0)` with x assigned in between gives
  the new x where the coroutine gives the old one (`ChangedVariable`; exactly when: `CoroutineExactly`).
- In the same way an await makes the calls to its left happen again: `next() + await 0` calls next twice and computes
  with its second answer (`AwaitDirect.NextIsCalledAgain`; exactly when: `DirectExactly`).
- A literal is accepted whatever its year, and its value disagrees with its instant exactly when that instant does not
  fit 64-bit nanoseconds (`DateTimeLiterals.LiteralConsistentExactly`; `YearOneIsOutside`).
- Printing and rescanning a date-time fails for a zero offset not marked as UTC, as in a literal written +00:00: the
  printer leaves the zone out and the scanner demands one (`DateTimeText.NoZoneNoLiteral`; exactly when:
  `RoundTripExactly`). For a value that began as a literal the zone is all that can fail, and setZone accepts shifts
  beyond the fourteen hours the scanner takes (`DateTimeLiterals.AnySequenceReadsBack`).
- `addDays` does not move the date by n days when it would carry an instant at or after the epoch to one before it: it
  stops at the epoch. An instant already before the epoch moves freely (`DateTime.DaysAddedExactly`;
  `DaysAddedClamps`).
- `includes(other)` for an empty range `other` tests its start (`Ranges.ContainsExactly`; `EmptyIsRefused`), and
  `reverse` gives the same numbers backwards only for some ranges (`Ranges.ReverseMirrorsExactly`; `ReverseMisses`).
- The comments say that a malformed Unicode escape is kept literally. Only its backslash, u and brace are; the digits
  already read are lost (`Quoted.UnicodeDenotes`, `BracedDenotes`).
- Move-assigning one tracked vector to another counts the moved block twice, against the comment in that operator
  (`TrackedVectors.CounterExactly`; `MovedBlockCountedTwice`).

## Model

| member | source | states |
|---|---|---|
| AsyncSafety.SettledForever | src/evaluator/ExpressionEval.cpp:972-1013 | in every run a settled promise keeps its state, result and callback lists, though resolve_next and reject_next never test the state |
| AsyncSafety.OneSettler | src/evaluator/ExpressionEval.cpp:1016-1095 | a pending derived promise has exactly one outstanding settler among callback lists, queued microtasks and running callbacks, and no other promise has any, also when a callback returns a pending promise or the derived promise itself |
| AsyncSafety.OneResumption | src/evaluator/ExpressionEval.cpp:326-388 | a suspended frame is among the suspended frames exactly once, off the call stack, with exactly one wake-up outstanding; any other frame has none |
| AsyncSafety.ResumeFindsSuspended | src/evaluator/ExpressionEval.cpp:470-489 | in every reachable state a queued resume microtask finds its frame suspended, listed once, off the call stack, and is the only wake-up it has |
| AsyncSafety.ReachableInv | src/evaluator/Evaluator.cpp:53-81 | the whole invariant holds in every reachable state: pointers, ownership counts, paired callback lists, call stack mirroring the native stack |
| AsyncSafety.StepInv | include/Scheduler.hpp:24-34 | each step, of the event loop or of user code, keeps the invariant, and no step changes a settled promise |
| AsyncStamps.ResumeFindsOutcome | src/evaluator/ExpressionEval.cpp:450-528 | in every reachable state a queued resumption finds its frame stamped with how the very promise it suspended for ended: the result, or the error made from the text of the reason |
| AsyncStamps.ResumeIsToldReason | src/evaluator/ExpressionEval.cpp:510-533 | a queued resumption is told a fulfilled promise's result unchanged, and for a rejection an error whose text is the reason: a string as it stands, null for no value, a number in decimal digits that read back to it |
| AsyncOwnership.ReactBalance | src/evaluator/ExpressionEval.cpp:1069-1095 | attaching a pair of reactions adds exactly one outstanding settler for their target, whatever the state of the promise |
| AsyncOrder.ReactionsInOrder | src/evaluator/Evaluator.cpp:219-292 | reactions of one promise run in attachment order, each at most once, none while it is pending, and all once it is settled and the queue is drained |
| AsyncQueue.StepQueues | include/Scheduler.hpp:24-34 | every step adds at the back of the microtask queue, one job at most, and only the step that runs a microtask takes one off: the oldest, with which it begins |
| AsyncQueue.FirstInFirstOut | src/evaluator/Async/Scheduler.cpp:68-100 | over any run the jobs started, followed by those still waiting, are the jobs that were waiting, followed by those queued since |
| AsyncQueue.StartsInTurn | src/evaluator/Async/Scheduler.cpp:88-100 | a job with k others before it is the (k + 1)-th that any run starts, after exactly those k, or waits with those of them still to come before it |
| AsyncQueue.ThenBeforeAwait | src/evaluator/ExpressionEval.cpp:326-333 | a then attached to a fulfilled promise that is awaited next is queued before the resumption, both at the back of the queue |
| AsyncQueue.AwaitQueues | src/evaluator/ExpressionEval.cpp:266-388 | await suspends the current frame; for a plain value, which it stamps as it is, and for a settled promise the resumption is queued at once, for a pending one nothing is |
| AsyncValues.ReactionHearsItsPromise | src/evaluator/Evaluator.cpp:219-280 | in every reachable state a reaction on its way or running carries the final result of the promise it was attached to and is the one of its pair for the way that promise ended |
| AsyncValues.SettlerFindsPending | src/evaluator/ExpressionEval.cpp:972-1064 | in every reachable state, a step that settles a promise, guarded or not, finds it pending and leaves it settled as the step says |
| AsyncValues.StepChanges | src/evaluator/ExpressionEval.cpp:943-1307 | a step settles, attaches and sends out nothing besides what ChangeOf names |
| AsyncSends.StepDelivers | src/evaluator/ExpressionEval.cpp:943-1307 | and it does all of that: a promise it settles sends out every reaction of its side, a pair it attaches is listed or its matching half sent out, and every other listing stays |
| AsyncSends.StepKeepsTold | src/evaluator/Evaluator.cpp:219-292 | a reaction sent out stays on its way until the step that runs it, and runs until its function returns |
| AsyncValues.CallbackSettles | src/evaluator/ExpressionEval.cpp:1029-1063 | a then or catch callback finds the derived promise pending; a value fulfils it, a settled promise gives it its own outcome, an error rejects it |
| AsyncValues.FinallyPassesThrough | src/evaluator/ExpressionEval.cpp:1218-1303 | after finally's callback, returned or thrown, the derived promise ends exactly as the original did |
| AsyncValues.UnhandledPassesThrough | src/evaluator/ExpressionEval.cpp:1016-1028 | without a handler for the way a promise ended, the derived promise ends the same way with the same result |
| AsyncValues.Adopts | src/evaluator/ExpressionEval.cpp:1045-1057 | when a callback returned a pending promise q, then in every continuation the derived promise settles only after q and as q did, has done so once idle if q has, and never settles if q is the derived promise itself |
| AsyncReports.MarksTheChain | src/evaluator/Evaluator.cpp:316-323 | the walk terminates on every parent graph and sets exactly the promises reached from its start through unhandled promises |
| AsyncReports.ReportsExactly | src/evaluator/Evaluator.cpp:246-297 | nothing is reported twice, only rejections that came through reject_promise are, and once the system is idle each of those has its handled flag set or is reported |
| AsyncReports.HandledIsNotReported | src/evaluator/Evaluator.cpp:273-279 | a promise whose flag is set before its check microtask runs is never reported afterwards |
| AsyncHandled.StepMarks | src/evaluator/Evaluator.cpp:316-323 | a step sets the flag of exactly the promises on the walk from the promise that catch, then with an onRejected, or await was applied to; no step clears one |
| AsyncHandled.HandledExactly | src/evaluator/Evaluator.cpp:316-323 | after any run a promise is handled if and only if some step of the run walked through it |
| AsyncHandled.ReportedExactly | src/evaluator/Evaluator.cpp:246-297 | a promise is reported, and once, if and only if its check came before any walk through it; once idle, a rejection that came through reject_promise is reported unless a walk came first |
| AsyncWitness.CaughtYetReported | src/evaluator/ExpressionEval.cpp:1045-1052 | a reachable state in which a catch callback runs with the reason of a promise a then callback returned, and which goes on to report that promise as unhandled |
| AsyncWitness.DerivedRejectionIsSilent | src/evaluator/ExpressionEval.cpp:993-1013 | a reachable idle state with a derived promise rejected, unhandled and not reported |
| AsyncCalls.CallRestoresStack | src/evaluator/FunctionCall.cpp:500-531 | from the call of a function to the end of its body, its suspension included, the caller's part of the call stack is untouched and is what remains |
| AsyncDriven.CallSettlesAsItsCode | src/evaluator/FunctionCall.cpp:500-531 | for a call made in any reachable state and any run in which its frame runs its code: a settled call promise is settled with the end of that code, after it was told, await by await, the final outcome of exactly what it awaited |
| AsyncPrograms.CallIsDirect | src/evaluator/FunctionCall.cpp:32-84 | in every such run a call whose body has calls and promises that answer the same every time settles its promise as straight-line execution of the body ends |
| AsyncPrograms.CallIsDirectIn | src/evaluator/FunctionCall.cpp:32-84 | with any effects, and with the state changed by others at every wait, the same holds for a body in which no two awaits of a statement stand side by side and only constants stand to the left of one; the k-th await gives the outcome of the k-th promise awaited |
| AsyncCalls.IdleStackEmpty | src/evaluator/Evaluator.cpp:53-62 | between macrotasks and microtasks the call stack is empty |
| AsyncCalls.IdlePendingWaits | src/evaluator/ExpressionEval.cpp:1045-1057 | once idle, a derived promise still pending is awaited by a reaction on some pending promise |
| EvaluatorState.Evaluator.Perform | src/evaluator/Evaluator.cpp:53-323 | any enabled step, done in place on the evaluator's fields by its methods, gives the state of the step machine, keeps the whole invariant, changes no more than ChangeOf names, leaves every settled promise its outcome, queues at the back, and takes off the queue only the oldest job, to begin it |
| EvaluatorState.Evaluator.RemoveSuspendedFrame | src/evaluator/Evaluator.cpp:75-81 | erases the first occurrence of the frame |
| EvaluatorState.Evaluator.MarkPromiseAndAncestorsHandled | src/evaluator/Evaluator.cpp:316-323 | the pointer-walking loop is the recursive marking, and terminates on cycles |
| AwaitCost.RerunIsDirect | src/evaluator/ExpressionEval.cpp:230-589 | for every expression whose calls and promises answer the same every time, throw-and-re-run ends as direct evaluation does; with fewer than Runs - 1 resumptions it is still suspended |
| AwaitEffects.RerunCounts | src/evaluator/ExpressionEval.cpp:230-589 | whatever the calls return or change and the promises bring, as long as the same calls throw, the same awaits reject and the same operators stop in each run, a statement is suspended exactly Runs - 1 times and evaluates each call and await exactly Times times, nested and short-circuited ones included |
| AwaitEffects.SiblingsCountInBinary | src/evaluator/ExpressionEval.cpp:242-264 | with n awaits side by side whose promises fulfil, and effectful calls that do not throw, there are exactly 2^n - 1 suspensions, and the i-th await is evaluated 2^(n-1-i) times |
| AwaitDirect.DirectExactly | src/evaluator/ExpressionEval.cpp:230-264 | re-running gives the value or exception and the state of direct evaluation, in every program and from every state, if and only if no two awaits stand side by side and nothing but constants stands to the left of one |
| AwaitDirect.RerunIsDirectIn | src/evaluator/ExpressionEval.cpp:230-264 | the same for such a statement over a state of any type, with as many resumptions as it has awaits |
| AwaitDirect.NextIsCalledAgain | src/evaluator/ExpressionEval.cpp:242-264 | next() + await 0 gives 2 and leaves the counter at 2, where evaluating once gives 1 and 1 |
| AwaitCost.NextCounts | src/evaluator/ExpressionEval.cpp:5824-5856 | each run is one increment of the counter formed by the stamps, and what it evaluates is accounted for |
| AwaitRerun.EveryRun | src/evaluator/ExpressionEval.cpp:242-264 | a run consumes the stamped awaits and stops at the first unstamped one, leaving the stamps of the next position; the last run ends as direct evaluation does and leaves no stamp |
| AsyncBody.BodyRerunIsDirect | src/evaluator/FunctionCall.cpp:32-84 | an async body whose calls and promises answer the same every time, re-run as often as it takes, ends with the result of straight-line execution |
| AsyncBody.StoredIsReturned | src/evaluator/StatementEval.cpp:234-258 | x = e; return x ends as return e does, re-run with any number of resumptions and in a straight line, pauses included |
| AsyncBody.StoresNowhereElse | src/evaluator/StatementEval.cpp:166-258 | a variable other than the assigned one is read afterwards as it stood before |
| AsyncBody.LastStatement | src/evaluator/FunctionCall.cpp:38-84 | the last statement's exception, returned value or suspension is the body's; otherwise the body ends undefined |
| AsyncBody.Applied | src/evaluator/ExpressionEval.cpp:230-264 | a function gets its argument, an operator its left operand first, and an await suspends with its operand and then gives what that settled with |
| BodyEffects.BodyCounts | src/evaluator/FunctionCall.cpp:32-84 | whatever its calls return or change and its promises bring, as long as the same ones fail in each run, an async body is suspended exactly as often as its statements add up to |
| BodyEffects.BodyIsDirectIn | src/evaluator/FunctionCall.cpp:32-84 | a body of statements that meet that condition ends, whatever its effects, with the result and in the state of straight-line execution |
| BodyEffects.StoredIsReturnedIn | src/evaluator/StatementEval.cpp:234-258 | in any program whose variables hold what was last assigned, x = e; return x ends with the result of return e, and in its state but for x, which holds that result |
| BodyEffects.StoresNowhereElseIn | src/evaluator/StatementEval.cpp:166-258 | in such a program any other variable is read afterwards as the assigned expression left it |
| BodyEffects.LastStatementIn | src/evaluator/FunctionCall.cpp:38-84 | the last statement decides the result and the state in which the body ends |
| BodyEffects.AppliedIn | src/evaluator/ExpressionEval.cpp:230-264 | functions, operators and awaits get their operands and the state as written |
| AsyncBody.CallFrame.EvaluateExpression | src/evaluator/ExpressionEval.cpp:230-264 | the evaluator, consuming the frame's two stamp maps in place, gives the outcome and the stamps of the specification |
| AsyncBody.CallFrame.ExecuteUntilAwaitOrReturn | src/evaluator/FunctionCall.cpp:38-84 | the statement loop stops where the specification stops; a suspension leaves the index in place |
| AsyncBody.CallFrame.Stamp | src/evaluator/ExpressionEval.cpp:461-466 | a settled promise stamps its result or its reason under the await's id |
| GeneratorLimits.CoroutineExactly | src/evaluator/FunctionCall.cpp:126-267 | a statement behaves as a coroutine does, in every program, under every sequence of requests and with any change of the variables in between, if and only if no two of its yields stand side by side and nothing but constants stands to the left of one |
| Generators.GeneratorIsCoroutine | src/evaluator/FunctionCall.cpp:126-267 | under every sequence of next and return calls, with the variables changed at will between and during them, a generator of such statements replies, logs and leaves the variables as a direct coroutine does |
| Generators.DoneIsCompleted | src/evaluator/FunctionCall.cpp:189-267 | is_done holds exactly in Completed, every reply's flag tells it, and Completed is absorbing |
| Generators.StoredIsReturned | src/evaluator/StatementEval.cpp:234-258 | for any e, with or without yields, and any request, x = e; return x replies as return e does and stands the same until it is done; then x holds what was replied, and every other variable what it held |
| Generators.SentIsStored | src/evaluator/FunctionCall.cpp:126-267 | paused in x = yield e; return x, next(v) replies v, done, with v in x and nothing else changed; return(v) replies v, done, with nothing changed |
| Generators.StoresNowhereElse | src/evaluator/StatementEval.cpp:166-258 | any other variable is read afterwards as the assigned expression left it |
| Generators.FirstNextYields | src/evaluator/ExpressionEval.cpp:591-639 | the first next of a generator that starts with a yield replies the yield's operand, not done |
| Generators.LastStatement | src/evaluator/FunctionCall.cpp:126-187 | the last statement's exception, yielded or returned value is the reply, otherwise undefined, done |
| Generators.ReturnBeforeStart | src/evaluator/FunctionCall.cpp:189-267 | return(v) before the first next replies v, done, and runs nothing |
| Generators.Applied | src/evaluator/ExpressionEval.cpp:591-639 | in interpreter and coroutine a function gets its argument with the variables, and an operator its left operand first |
| Generators.CoroutineStores | src/evaluator/StatementEval.cpp:234-258 | the coroutine, too, replies to x = e; return x as to return e and leaves the reply in x |
| Generators.FirstRun | src/evaluator/ExpressionEval.cpp:591-639 | the run up to a yield stops where the coroutine does, with the same value, and marks that yield |
| Generators.LaterRun | src/evaluator/ExpressionEval.cpp:591-639 | a re-run evaluates again exactly what stands to the left of the paused yield, with the variables as they are by now, and from there goes on as a continuation standing at that yield does; if something to the left throws or stops short, that is all it does |
| GeneratorLimits.SideBySideNeverFinishes | src/evaluator/ExpressionEval.cpp:591-639 | with two yields side by side anywhere in a statement, no number of next calls ever finishes it, however the variables change, in any program in which nothing throws or stops short |
| GeneratorLimits.CoroutineFinishes | src/evaluator/ExpressionEval.cpp:591-639 | the coroutine for any statement is finished by one next call more than it has yields |
| GeneratorLimits.ChangedVariable | src/evaluator/ExpressionEval.cpp:833-849 | for return x + (yield 0) with x changed from 1 to 10 before 5 is sent, the interpreter replies 15 and the coroutine 6 |
| Generators.GeneratorValue.EvaluateExpression | src/evaluator/ExpressionEval.cpp:591-639 | the evaluator, updating the paused-yield, sent-value and return slots in place, follows the specification |
| Generators.GeneratorValue.ExecuteUntilYieldOrReturn | src/evaluator/FunctionCall.cpp:126-187 | the statement loop of a generator follows the specification |
| Generators.GeneratorValue.ResumeGenerator | src/evaluator/FunctionCall.cpp:189-267 | state, done flag and slots after next(v) or return(v) |
| EditDistance.LevenshteinDistance | src/main.cpp:25-41 | the table computes the recursive distance |
| EditDistance.DistanceIsShortest | src/main.cpp:25-41 | some script of that many insertions, deletions and substitutions transforms one string into the other, and no shorter one does |
| EditDistance.Symmetric | src/main.cpp:25-41 | the distance is symmetric |
| EditDistance.ZeroIffEqual | src/main.cpp:25-41 | it is zero exactly for equal strings |
| EditDistance.Triangle | src/main.cpp:25-41 | it satisfies the triangle inequality |
| Calendar.SameRules | src/lexer.cpp:755-774 | the lexer and is_valid_date accept exactly the same dates |
| Calendar.EpochIsZero | src/lexer.cpp:861-873 | 1970-01-01 is day 0 |
| Calendar.NextIsOneMore | src/lexer.cpp:861-873 | the next valid date is always one day later |
| Calendar.Monotone | src/lexer.cpp:861-873 | day numbers are strictly increasing |
| Calendar.DayOfDate | src/lexer.cpp:861-873 | every integer is the day number of the date DateOfDay finds, which is valid |
| Calendar.DateOfItsDay | include/evaluator.hpp:37-53 | every valid date is found again from its day number |
| DateTime.MonthsAddedExactly | include/evaluator.hpp:775-807 | addMonths adds exactly n to 12*year+month, clamps the day to the length of the month and stays consistent |
| DateTime.YearsAreTwelveMonths | include/evaluator.hpp:810-826 | addYears(n) is addMonths(12n) |
| DateTime.DaysAddedExactly | include/evaluator.hpp:751-772 | addDays moves the day number by exactly n and keeps the time of day if and only if it does not clamp to epoch 0, and it clamps exactly when it would carry an instant at or after the epoch to one before it |
| DateTime.DaysAddedClamps | include/evaluator.hpp:751-772 | 1970-01-02, moved back two days, is 1970-01-01 |
| Zones.SetZoneKeepsInstant | include/evaluator.hpp:912-959 | setZone succeeds exactly on the texts that name a zone, keeps the instant and the agreement of the fields with it, and takes the offset named |
| Zones.ReadsExactly | include/evaluator.hpp:916-945 | the texts read as a zone are UTC, Z, and a sign with hours below 24 and minutes below 60, two characters each, as a table of character pairs gives their values |
| Zones.StoiOfPair | include/evaluator.hpp:931-938 | what stoi makes of two characters: two digits, one digit with anything behind it, or one behind white space or a sign; nothing else is a number |
| Zones.FirstColonGone | include/evaluator.hpp:925-929 | the first colon is removed and nothing else is |
| Zones.ReadsForms | include/evaluator.hpp:920-940 | the texts +HH:MM, +HHMM and +HH are read as the hours and minutes they show |
| Zones.OwnZoneExactly | include/evaluator.hpp:735-748 | setting the zone a date-time prints changes nothing, if and only if it prints one |
| DateTime.RecalendaredIsConsistent | include/evaluator.hpp:546-587 | the fields recomputed from the epoch are the civil date-time of epoch plus offset |
| DateTime.WithEpochIsConsistent | include/evaluator.hpp:589-623 | the epoch recomputed from the fields agrees with them |
| DateTime.StaysConsistent | include/evaluator.hpp:751-959 | over any sequence of addDays, addMonths, addYears and setZone that does not throw, fields and epoch stay in agreement |
| DateTimeText.PrintThenScan | include/evaluator.hpp:710-748 | scanning what was printed, whatever text follows, gives back epoch, fraction and offset and takes exactly the literal |
| DateTimeText.RoundTripExactly | src/lexer.cpp:675-898 | the round trip succeeds if and only if the fraction is exact at its precision and the zone is UTC or a nonzero whole number of minutes within fourteen hours |
| DateTimeText.NoZoneNoLiteral | include/evaluator.hpp:735-748 | a zero offset not marked UTC prints a text that the scanner rejects |
| DateTimeForms.LiteralIsScanned | src/lexer.cpp:675-898 | any literal that can be written, anywhere in a source and whatever follows, is taken whole, for the instant, fraction, precision and zone it shows: seconds left out are none, and a fraction of any length is rounded down to nanoseconds |
| DateTimeForms.ZoneIsScanned | src/lexer.cpp:813-857 | Z, +HH:MM, +HHMM and +HH, up to fourteen hours, are scanned to the offset they show and end where they end |
| DateTimeForms.FractionIsRoundedDown | src/lexer.cpp:878-889 | the nanoseconds are the digits after the point as a fraction of a second, rounded down |
| DateTimeForms.PrecisionIsCoarsest | src/lexer.cpp:890-896 | the precision is the coarsest with room for all digits, and nanoseconds when none has |
| DateTimeForms.AcceptsExactly | src/lexer.cpp:675-898 | the scanner accepts what stands at a position if and only if it starts with such a literal |
| DateTimeLiterals.LiteralFields | src/parser/expressions.cpp:1218-1248 | the calendar fields sscanf reads from a literal's text are those the scanner read |
| DateTimeLiterals.LiteralConsistentExactly | src/lexer.cpp:876-912 | the value of an accepted literal is a valid civil date-time, and agrees with its instant if and only if that instant fits 64-bit nanoseconds |
| DateTimeLiterals.YearOneIsOutside | src/lexer.cpp:876-912 | 0001-01-01T00:00:00Z is accepted and does not agree with its instant |
| DateTimeLiterals.PrintThenRead | include/evaluator.hpp:525-538 | a printed date-time, whatever text follows, is scanned and parsed back to the value it was |
| DateTimeLiterals.AnySequenceReadsBack | include/evaluator.hpp:710-959 | the text of a literal's value after any operations is read back as that very value if and only if its zone is UTC or a nonzero shift within fourteen hours |
| DateTimeObjects.DateTimeValue.RecomputeCalendarFields | include/evaluator.hpp:546-587 | updates exactly the calendar fields |
| DateTimeObjects.DateTimeValue.RecomputeEpochFromFields | include/evaluator.hpp:589-623 | updates the epoch, or fails where timegm's -1 is taken for an error |
| DateTimeObjects.DateTimeValue.UpdateLiteralText | include/evaluator.hpp:710-748 | builds the text of the specification |
| DateTimeObjects.DateTimeValue.AddDays | include/evaluator.hpp:751-772 | the object after addDays, its text printed afresh |
| DateTimeObjects.DateTimeValue.AddMonths | include/evaluator.hpp:775-807 | the object after the two normalising loops of addMonths, its text printed afresh |
| DateTimeObjects.DateTimeValue.AddYears | include/evaluator.hpp:810-826 | the object after addYears, its text printed afresh |
| DateTimeObjects.DateTimeValue.SetZone | include/evaluator.hpp:912-959 | the object after setZone of any text, its own text printed afresh, and when it throws |
| DateTimeObjects.Scanner.TryScanDatetime | src/lexer.cpp:675-898 | the cursor-moving scanner finds exactly the literal of the specification, or leaves the cursor, or fails |
| Layout.ErrorExactly | src/lexer.cpp:1445-1463 | a line is refused exactly when it falls back to a column not on the stack; otherwise the stack stays increasing with the column on top |
| Layout.StackIsBalance | src/lexer.cpp:1445-1463 | INDENTs minus DEDENTs is the height of the stack minus one, after any lines |
| Layout.FileBalances | src/lexer.cpp:1469-1474 | in a whole file they balance |
| Layout.TabIsFourBlanks | src/lexer.cpp:1376-1387 | a tab counts as four blanks wherever it stands in a lead |
| Layout.ColumnConcat | src/lexer.cpp:1376-1387 | the columns of the parts of a lead add up |
| Layout.PrintThenLex | src/lexer.cpp:1345-1474 | any block tree, one line per node with deeper columns for children, lexes to exactly its bracketing, whatever mixture of blanks and tabs worth four blanks makes up each column |
| Layout.Lexer.HandleIndent | src/lexer.cpp:1445-1463 | the stack and the tokens after one line, and when it is an error |
| Layout.Lexer.EmitRemainingDedents | src/lexer.cpp:1469-1474 | one DEDENT for each column left above the first |
| Layout.Lexer.Tokenize | src/lexer.cpp:1905-1927 | the token stream of a whole file |
| Radix.ToDecimal | src/lexer.cpp:1047-1059 | a digit string of base 2, 8 or 16 and any length becomes the canonical decimal string of the same number |
| Radix.DigitIsItsPlace | src/lexer.cpp:1048-1055 | the digits of a base are the first of 0-9a-f, in either case, and each stands for its place among them |
| Radix.NumeralOfInBase | src/lexer.cpp:1047-1059 | a number written in a base, in either case, is read back as that number |
| Radix.MulDecimalBySmall | src/lexer.cpp:1017-1031 | multiplies in place, carry below the factor, result canonical |
| Radix.AddSmallToDecimal | src/lexer.cpp:1032-1045 | adds a small number in place, result canonical |
| Radix.CanonicalIsUnique | src/lexer.cpp:1016-1059 | a number has one canonical string, so the result is determined |
| Quoted.ScanUndoesQuote | src/evaluator/EvaluatorHelper.cpp:927-943 | for every string and whatever follows, scanning the printed literal gives the string and takes exactly the literal |
| Quoted.QuoteIsOneLine | src/evaluator/EvaluatorHelper.cpp:927-943 | a printed string holds no line break |
| Quoted.QuoteAndColor | src/evaluator/EvaluatorHelper.cpp:927-943 | the printing loop, without colour, writes the quoted text |
| Quoted.Utf8Decodes | src/lexer.cpp:52-75 | the bytes written for a code point are its UTF-8 form: they read back to it whatever follows, and exist exactly for scalar values |
| Quoted.Lexer.ScanQuotedString | src/lexer.cpp:161-380 | the cursor-moving scanner gives the value and the end of the specification, unterminated literals included |
| Quoted.Lexer.ScanEscape | src/lexer.cpp:174-372 | named, octal, hexadecimal and Unicode escapes, malformed ones included |
| Quoted.NamedEscapes | src/lexer.cpp:177-205 | n, t, r, b, f and v name bytes 10, 9, 13, 8, 12 and 11; any other character but x, u and the octal digits stands for itself |
| Quoted.OctalDenotes | src/lexer.cpp:206-228 | up to three octal digits are the byte of their value, and an error beyond 255 |
| Quoted.HexDenotes | src/lexer.cpp:229-267 | one or two hexadecimal digits after x are the byte of their value; without any, backslash and x are kept |
| Quoted.UnicodeDenotes | src/lexer.cpp:263-350 | four hexadecimal digits after u are that code point in UTF-8, or an error if it is none; fewer are dropped, and backslash and u are kept |
| Quoted.BracedDenotes | src/lexer.cpp:263-350 | one to six of them in braces likewise; anything else is dropped up to where it goes wrong |
| Quoted.ScanPlain | src/lexer.cpp:161-380 | text without quotes and backslashes is read as it stands, in quotes of either kind, up to the closing one or the end of the file |
| Strings.JoinUndoesSplit | src/evaluator/ExpressionEval.cpp:4302-4326 | join(split(s, sep), sep) is s, for every separator |
| Strings.SplitIsComplete | src/evaluator/ExpressionEval.cpp:4302-4326 | no piece contains the separator |
| Strings.SplitExactly | src/evaluator/ExpressionEval.cpp:4302-4326 | split gives the one list of pieces that joins to s and takes it apart at the leftmost separators, again and again |
| Strings.SplitIntoChars | src/evaluator/ExpressionEval.cpp:4302-4326 | an empty separator gives the single characters |
| Strings.SplitUndoesJoin | src/evaluator/ExpressionEval.cpp:4983-4992 | splitting at a character no part contains gives back the parts joined with it |
| Strings.SplitString | src/evaluator/ExpressionEval.cpp:4302-4326 | the loop over find is the recursive split |
| Strings.JoinStrings | src/evaluator/ExpressionEval.cpp:4983-4992 | the loop over the elements is the recursive join |
| Strings.ReplaceAll | src/evaluator/ExpressionEval.cpp:4274-4298 | replaceAll(s, old, new) is join(split(s, old), new), and s itself for an empty old |
| Ranges.IncludesIsProduced | src/evaluator/ExpressionEval.cpp:3459-3484 | includes(x) holds exactly for the numbers a fresh range produces |
| Ranges.RemainingAt | include/evaluator.hpp:163-181 | the k-th number produced is k steps on, and within the end |
| Ranges.ContainsExactly | src/evaluator/ExpressionEval.cpp:3486-3544 | includes(other) tells whether all elements of other are in the range exactly when other is not empty or its start is in the range |
| Ranges.EmptyIsRefused | src/evaluator/ExpressionEval.cpp:3486-3544 | an empty range outside is refused, though all of its elements are in the range |
| Ranges.IncludesRange | src/evaluator/ExpressionEval.cpp:3486-3544 | the loop with its early ends gives that answer |
| Ranges.ReverseMirrorsExactly | src/evaluator/ExpressionEval.cpp:3419-3441 | reverse yields the same numbers backwards if and only if start equals end, or the range is inclusive and the last step meets the end |
| Ranges.ReverseMisses | src/evaluator/ExpressionEval.cpp:3419-3441 | the range from 0 up to 3 holds 0, 1, 2 and its reverse 3, 2, 1 |
| Ranges.NothingBeyond | src/evaluator/ExpressionEval.cpp:5375-5380 | the early break of slicing loses no element |
| Ranges.PickInOrder | src/evaluator/ExpressionEval.cpp:5355-5396 | an index in bounds picks its element, any other nothing, in the order of the indices |
| Ranges.PicksSteps | src/evaluator/ExpressionEval.cpp:5355-5396 | a slice that stays in bounds has the elements that many steps apart |
| Ranges.RangeValue.HasNext | include/evaluator.hpp:163-170 | true exactly when something remains |
| Ranges.RangeValue.Next | include/evaluator.hpp:172-181 | takes the first of what remains |
| Ranges.RangeValue.ToArray | src/evaluator/ExpressionEval.cpp:3388-3416 | everything that remains, in order, the range itself unchanged; refused beyond a million |
| Ranges.RangeValue.Slice | src/evaluator/ExpressionEval.cpp:5355-5396 | the elements at the produced in-bounds indices in order, and exactly when the size limit refuses them |
| TrackedVectors.RunAccounts | include/tracking_buffer_vector.hpp:29-98 | after any run the counter is the bytes of the live blocks plus the blocks moved by tracked-to-tracked move assignments, modulo 2^64 |
| TrackedVectors.CounterExactly | include/tracking_buffer_vector.hpp:70-80 | the counter equals the bytes held if and only if no such assignment moved a non-empty block, and is never too small |
| TrackedVectors.MovedBlockCountedTwice | include/tracking_buffer_vector.hpp:70-80 | a run of three operations after which one byte is held and two are counted |
| TrackedVectors.NeverUnderflows | include/tracking_buffer_vector.hpp:286-294 | no subtraction in a run goes below zero |
| TrackedVectors.StepAccounts | include/tracking_buffer_vector.hpp:127-253 | one operation keeps the sum |
| TrackedVectors.SwapExchanges | include/tracking_buffer_vector.hpp:250-255 | a swap exchanges the blocks with their elements, and a second one undoes it |
| TrackedVectors.MoveHandsOver | include/tracking_buffer_vector.hpp:63-80 | a moved block is the other's with its elements, and the vector moved from is empty |
| TrackedVectors.CopyKeepsSource | include/tracking_buffer_vector.hpp:38-53 | a copy has the elements of its source, which keeps its own |
| TrackedVectors.OthersAreUntouched | include/tracking_buffer_vector.hpp:29-98 | vectors an operation does not name keep blocks and elements |
| TrackedVectors.Memory.MoveAssign | include/tracking_buffer_vector.hpp:70-80 | subtracts the target's block and adds the source's, which is already counted, and the counter stays the bytes of the live blocks and of those counted twice, modulo 2^64 |
| TrackedVectors.Memory.CopyAssign | include/tracking_buffer_vector.hpp:47-53 | reports the change of capacity; self-assignment does nothing, and the counter stays the bytes of the live blocks and of those counted twice, modulo 2^64 |
| TrackedVectors.Memory.MoveConstruct | include/tracking_buffer_vector.hpp:63-68 | moves the block and reports nothing, and the counter stays the bytes of the live blocks and of those counted twice, modulo 2^64 |
| TrackedVectors.Memory.Change | include/tracking_buffer_vector.hpp:134-225 | growth and shrinkage are reported when the capacity changed, and the counter stays the bytes of the live blocks and of those counted twice, modulo 2^64 |
| TrackedVectors.Memory.SwapWithVector | include/tracking_buffer_vector.hpp:277-281 | reports the difference of the two capacities, and the counter stays the bytes of the live blocks and of those counted twice, modulo 2^64 |
| TrackedVectors.Memory.Destroy | include/tracking_buffer_vector.hpp:96-98 | gives back the block's bytes, and the counter stays the bytes of the live blocks and of those counted twice, modulo 2^64 |

## Left out

- AsyncSafety.SettledForever: shared and weak pointers are numbers into stores that only grow, so the expiry of a weak
  pointer is not modelled.
- AsyncCalls.CallRestoresStack: calls whose parameters bind; a throw while binding leaves its frame pushed
  (src/evaluator/FunctionCall.cpp:487-492).
- AsyncSafety.StepInv: the scheduler always exists; the synchronous fallbacks without one, the libuv loop, timers and
  threads are not modelled. Microtasks run first in, first out, and all before the next macrotask.
- AsyncStamps.ResumeFindsOutcome: the machine keeps the stamp of the await a frame is suspended at; the two maps of
  stamps by await id are the subject of `AsyncBody`. The text of a reason is printed without colour; objects with a
  message are not modelled, and a promise given as a reason has one fixed text.
- EvaluatorState.Evaluator.Perform: an object that holds a promise in its __promise__ slot counts as that promise;
  which steps user code takes is a parameter.
- AsyncReports.ReportsExactly: the text of a report and whether reporting ends the process are not modelled.
- AsyncBody.BodyRerunIsDirect: bodies are sequences of expression, assignment, declaration and return statements;
  loops and try/catch inside a body, which keep resumption state of their own, are not modelled.
- AwaitCost.RerunIsDirect: calls are functions of their argument that do not change the environment, and what each
  await settles to is a function of its id and operand; `AwaitDirect.DirectExactly` says what holds without that.
- AwaitEffects.RerunCounts: which calls throw, which awaits reject and where a logical operator stops is taken as the
  same in every run, since the counts depend on it; everything else may change from run to run.
- AwaitDirect.DirectExactly: operators are functions of their operands.
- AsyncPrograms.CallIsDirect: what the frame does between two awaits besides awaiting, such as making promises or
  calling functions, is free; the body itself is one of the statement kinds above.
- AsyncBody.CallFrame.ExecuteUntilAwaitOrReturn: settling the call's promise and popping the frame at the end are in
  the step machine, not in this loop; `AsyncPrograms` joins the two.
- AsyncBody.StoredIsReturned: an assignment binds a name in one environment; the search up the scopes and constants,
  whose assignment throws, are not modelled. The same holds for `Generators`.
- GeneratorLimits.CoroutineExactly: the yields of a statement have distinct ids, as the parser gives them; property
  reads and updates count as calls.
- Generators.GeneratorIsCoroutine: re-entrant next calls and the throw method, which the interpreter builds but never
  attaches, are not modelled.
- Promise.all is not modelled: it pushes callbacks of its own onto its inputs and marks the inputs handled
  (src/evaluator/globals/initial.cpp:1721-1738). Nor are natives that write a promise's state themselves and run its
  callback list on the spot, without a microtask
  (src/evaluator/modules_builtins/fs_module/fs.cc:1426-1458,
  src/evaluator/modules_builtins/net_module/net_module.cc:181-210, the HTTP callback in
  src/evaluator/modules_builtins/builtins.cpp:266-272), or schedule the list's entries on the loop one by one, as
  timers.nap does (src/evaluator/Async/AsyncApi.cpp:485-502).
- Layout.Lexer.Tokenize: the lines are already split and the first one stands at column 0.
- Strings.ReplaceAll: the replacement is a string; a replacement function is not modelled.
- DateTime.StaysConsistent: every instant stays within int64 nanoseconds; addHours to addNanos over doubles,
  subtraction of date-times and strftime are not modelled; gmtime and timegm are the calendar functions proved here,
  with timegm's -1 still read as an error.
- DateTime.DaysAddedExactly: int64 overflow of the product with a day's nanoseconds and of the sum is excluded by a
  range condition; the sum of an instant with its zone offset is taken without overflow.
- DateTimeLiterals.LiteralFields: the token's text between its bars, from which the parser takes the other fields, is
  taken as the scanner's numbers; a field sscanf does not reach is the zero of a fresh node.
- Layout.PrintThenLex: blank and comment lines, parentheses and continuations, and a first line that does not stand at
  column 0 are not modelled.
- Radix.ToDecimal: the placement of underscores and prefixes is validated elsewhere in the lexer.
- Quoted.QuoteAndColor: the coloured form is not modelled.
- Strings.JoinStrings: elements are strings already; conversion of other values to text is not modelled.
- Ranges.RangeValue.Next: integers are unbounded, so a step past the largest int is not modelled.
- TrackedVectors.RunAccounts: one element size for all vectors, capacities chosen by std::vector are part of each
  operation, and the raw access through underlying_vector is not modelled.
- The parser, the module loader, the formatter, regular expressions, file and buffer access, the REPL and printing of
  objects are not modelled: library calls, or code with no inverse or invariant to prove.
