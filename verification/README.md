# Verified models of sack.vfs

This project models four parts of sack.vfs in Dafny and proves what they promise.  `dafny verify dfyconfig.toml`
checks everything.  Code that updates state in place is modelled as classes and methods, each proved against a
specification; the results are then proved of the specifications, over all inputs, all runs or all interleavings.

## What is modelled

**JSOX references** (`Jsox*.dfy`).  While a document is built, a `ref[...]` that lands on a container still being
built is given a fresh placeholder; when the document is complete every reference is resolved by a memoised walk and
every placeholder is overwritten in place, on a graph that may be cyclic.

* `JsoxModel` heaps, walks, reachability; `JsoxRefs` the meaning of references as a least relation, and rewriting;
  `JsoxReviver` the mutable state; `JsoxResolve`, `JsoxSubstitute`, `JsoxSettle` the two passes.
* `JsoxDoc` parse trees and what building them gives; `JsoxChain`, `JsoxInvariant`, `JsoxMeaning`, `JsoxDocument`,
  `JsoxDistinct` the proof that a settled document means its parse tree; `JsoxBuild` the building code with arbitrary
  callbacks; `JsoxLimits` concrete documents on both sides of the condition.

**SQL** (`SqlPool.dfy`, `SqlRuns.dfy`, `SqlOpenings.dfy`, `SqlObject.dfy`, `QueryScheduler.dfy`, `QueryResult.dfy`,
`QueryRecord.dfy`, `SqlDates.dfy`).  The pool of connections with its counters, pruning and pinning, and the openings that run the open
callback, as a state machine and as code; promised queries as an interleaving of event loop, submissions and workers;
the grouping of a query's columns into records, and what a record says of its row; day arithmetic and timestamps.

**Signing** (`SignCheck.dfy`, `Signing.dfy`).  The run-length scan over a byte table against its bit-by-bit
definition; the race of signing threads over parameters that outlive the call; verifying against signing.

**Mouse events** (`MouseEvents.dfy`).  The loop that splits a requested state into inputs, for one request in a
four-slot array and for a list of requests.

## What the proofs turned up

Where a promise fails the code is modelled as it is, with a concrete failing case, and the condition under which the
promise holds.

* A reference step whose name is missing off the revive stack falls back to the container being filled, and a number
  step 0 takes a named stack member for element 0; both can store a value that is at no such path, without an error
  (`JsoxLimits.FallbackReadsTheWrongObject`, `JsoxLimits.IndexZeroMatchesANamedMember`).  The build is specified for
  every untagged document.  A document whose references are each known when read, or end on a container still open,
  builds; it converts if and only if its deferred references have a meaning, and then means its parse tree
  (`JsoxDocument.DocumentMeansItsTree`, `JsoxBuild.ConvertMessage`); if all are known it always converts.  Known means
  that the path exists in the document so far and names what is open by a step of its kind
  (`JsoxChain.KnownExactlyWhen`).  The walk of any other reference fails, or its end is stored at once (nothing, if
  that is undefined); what is stored then can still equal the value at the path (`JsoxLimits.WrongWayEndsRight`).
* A client that borrowed a pinned connection and drops it after the pinning ended makes that connection idle twice
  (`SqlRuns.BorrowerOutlivesTheTransaction`).  Every connection stays in one place exactly when whoever hands one back
  is its last holder, and what is pinned stays held (`SqlPool.StepKeepsExactlyWhen`).
* The open callback runs at exactly the openings of the first connection made (`SqlOpenings.CallbackRunsExactlyWhen`,
  `SqlOpenings.FirstIsCarrier`): late when the connect did not open it (`SqlOpenings.RunsLateWhenFirstFails`), and
  again each time it was lost (`SqlOpenings.RunsAgainWhenLost`).  README_Sqlite.md says that the callback is called when
  the database is opened or reopened; no other connection gets it, so none made after all were closed
  (`SqlOpenings.ReopenedWithoutCallback`).
* A command of the open callback that itself opens the connection again ends the pin for the callback it belongs to
  (`SqlObject.CallsKeepOpening`), so that the connection can be idle and about to be handed out at once
  (`SqlOpenings.InnerOpeningUnpins`).
* A table alias that spells an array index, or `length`, can overwrite other cells of a duplicated column's array
  (`QueryResult.NumericAliasSpoils`, `QueryResult.ArraysExactExactlyWhen`).
* The scan in `signCheck` can miss runs shorter than 8, so that for low pads it decides differently from the
  definition (`SignCheck.AgreesExactlyWhen`).
* A vertical scroll is dropped unless a nonzero horizontal one comes with it (`MouseEvents.VerticalScrollNeedsBoth`),
  although README_hid.md describes the two as independent; and within one list of requests presses of X buttons are not
  recorded, so that asking again for a held one presses it again (`MouseEvents.XPressedTwice`).  Their inputs replay to
  the recorded state if and only if no request asks for an X button that is not recorded
  (`MouseEvents.XReplaysExactlyWhen`).  An open mouse handler records such presses once the system reports them, that
  is between lists.

## Reading the models

* `Options` holds the option type.  Object identities and connections are numbers; a heap maps an object to its own
  properties.  JSOX strings and numbers are opaque scalars.
* `answer`, `nonce`, `calls`, `cursor` and the like are parameters that stand for what the database, the
  generator, a callback or the system answers; `Library` stands for the digest and for base64, `Lengths` for the
  conversion of a value to an array length.
* Foreign code in the JSOX build is `JsoxBuild.Callback`: it may allocate, turn the object graph into any other,
  return anything, or throw.
* The state machines of `QueryScheduler`, `SqlPool` and `Signing` have one step for each critical section or each
  access to what is shared.  The library's queues are first-in first-out and its lists insert at the head.

## Model

| member | source | states |
|---|---|---|
| `JsoxModel.DecimalInjective` | src/jsoxParse.cc:1566-1567 | Different array indexes are different property names, so a number step and the element stored at that number meet in one slot and no two elements share one. |
| `JsoxModel.ReachClosed` | src/jsoxParse.cc:1602-1629 | The set of objects reachable without stepping onto a placeholder contains its start and is closed under the remaining slots. |
| `JsoxModel.ReachLeast` | src/jsoxParse.cc:1602-1629 | ... and is contained in every set that is: the visited region of substitution, defined without the algorithm. |
| `JsoxRefs.DerivesFunctional` | src/jsoxParse.cc:1531-1598 | In the relation "walk the path from the root, replacing placeholders by what they resolve to" a reference means at most one value. |
| `JsoxRefs.DerivesIsLeast` | src/jsoxParse.cc:1531-1598 | That relation is closed under the walking rule and is contained in every relation closed under it: it is the least one, so circular references are exactly those without a finite derivation. |
| `JsoxRefs.DerivesFinal` | src/jsoxParse.cc:1588-1594 | No reference resolves to undefined or to another placeholder. |
| `JsoxRefs.PlaceholderRootResolvesNothing` | src/jsoxParse.cc:1549-1555 | If the root is itself a placeholder, no reference at all has a meaning: every walk begins by needing itself. |
| `JsoxRefs.DerivesReached` | src/jsoxParse.cc:1558-1588 | Every object a reference resolves to was already reachable from the root through slots that hold no placeholder; this is why substitution need not descend into the values it writes. |
| `JsoxRefs.NoPlaceholderReachable` | src/jsoxParse.cc:1602-1648 | After rewriting just the objects visited from the root and the owners, nothing reachable from the root through any slot, written values included, holds a placeholder. |
| `JsoxRefs.RewriteIdempotent` | src/jsoxParse.cc:1602-1648 | A second substitution run over the rewritten document changes nothing. |
| `JsoxRefs.StepsArePlainWalks` | src/jsoxParse.cc:1558-1588 | A plain walk of the finished document goes where the resolving walk went while references were pending. |
| `JsoxRefs.ResolvedIsValueAt` | src/jsoxParse.cc:1531-1598 | What a reference resolves to is exactly the value at its path in the finished document. |
| `JsoxResolve.FindPlaceholder` | src/jsoxParse.cc:1518-1525 | Finds the entry whose placeholder the value is, or reports none exactly when it is no placeholder. |
| `JsoxResolve.DerefDeferred` | src/jsoxParse.cc:1531-1535 | Steps through a placeholder to a value the walking rule allows; keeps finished entries; cannot fail when the placeholder has a derivation that needs nothing in progress. |
| `JsoxResolve.ResolveDeferredOne` | src/jsoxParse.cc:1543-1598 | The memoised three-state walk terminates on every list and every cyclic graph; if it succeeds the reference is resolved to its meaning and entries in progress are as before, and it succeeds whenever the reference has a derivation lower than those of everything in progress. |
| `JsoxResolve.WalkDeferred` | src/jsoxParse.cc:1555-1589 | The loop over one path: arrives where the walking rule leads, and does arrive when a bounded derivation exists. |
| `JsoxResolve.StepDeferred` | src/jsoxParse.cc:1559-1588 | One step: fails on a value that is no container and on a missing name, reads a missing index as undefined, and steps through the placeholder found. |
| `JsoxSubstitute.SubstituteDeferred` | src/jsoxParse.cc:1602-1629 | On any finite cyclic graph the depth-first pass terminates and is an exact rewrite: in every newly visited object each placeholder slot holds that reference's value, every other slot and every key set is as it was, and no other object changed. |
| `JsoxSubstitute.SubstituteSlots` | src/jsoxParse.cc:1608-1628 | The same for the loop over one object's own properties, in whatever order they come. |
| `JsoxSubstitute.SubstituteSlot` | src/jsoxParse.cc:1613-1627 | One property: a placeholder is overwritten, a container is visited, and the progress invariant of the enclosing visit is kept. |
| `JsoxSettle.ResolveAll` | src/jsoxParse.cc:1636-1639 | The first loop fails exactly when some reference has no meaning, and otherwise every entry holds its meaning. |
| `JsoxSettle.ResolveNext` | src/jsoxParse.cc:1637-1638 | One call at top level fails only if that very reference has no meaning. |
| `JsoxSettle.SubstituteAll` | src/jsoxParse.cc:1641-1648 | Substitution from the root and then from every owner rewrites exactly what is reachable from them. |
| `JsoxSettle.SubstituteFrom` | src/jsoxParse.cc:1642-1648 | One more starting point extends the region already rewritten, and nothing else. |
| `JsoxSettle.ResolveDeferredRefs` | src/jsoxParse.cc:1631-1652 | The whole pass fails if and only if some reference has no meaning, then leaving the objects untouched; otherwise the root is returned and the objects are exactly the specified rewriting. |
| `JsoxSettle.OrderIsImmaterial` | src/jsoxParse.cc:1636-1648 | Any reordering of the deferred list, owners included, gives the same outcome: whether all references have a meaning, and the document that results, do not depend on the order they were deferred in. |
| `JsoxSettle.ResolvableRoot` | src/jsoxParse.cc:1549-1555 | Success implies that the root is no placeholder: a document that is nothing but its own reference always fails. |
| `JsoxSettle.SettledDocument` | src/jsoxParse.cc:1631-1652 | What a caller gets: no placeholder reachable from the root, every reference equal to the value at its path, and settling again changes nothing. |
| `JsoxDoc.ArrayPropsUnique` | src/jsoxParse.cc:1134-1137 | Array elements are stored under different names by themselves, so only object members need the uniqueness condition. |
| `JsoxChain.EagerStepIsKnown` | src/jsoxParse.cc:683-836 | One step of the eager walk whose target is stored or is the next open container: choosing between slot and revive stack, the code chooses right. |
| `JsoxChain.EagerIsKnown` | src/jsoxParse.cc:666-838 | The whole eager walk of such a path lands on the value the path leads to. |
| `JsoxChain.KnownIsWalk` | src/jsoxParse.cc:666-838 | A path every step of which is stored, or is the next open container, is a plain path of the document in which the open containers are already linked to their parents. |
| `JsoxChain.WalkIsKnown` | src/jsoxParse.cc:666-838 | Conversely a path of that linked document is known when it is read, provided each open container not stored in its parent yet is named by a step of its own kind. |
| `JsoxChain.KnownExactlyWhen` | src/jsoxParse.cc:666-838 | So a path is known when it is read if and only if it exists in the document so far and goes by kind; and then the eager walk lands on the value at it, whatever container is being filled. |
| `JsoxChain.LinkedGrew` | src/jsoxParse.cc:1224-1260 | As the build goes on, that linked document only ever gains slots, so a path once walked stays. |
| `JsoxInvariant.PutOK` | src/jsoxParse.cc:1185-1187 | Storing a finished value keeps the build invariant: the chain of open containers, stored links where they belong, and no open object visible in any slot. |
| `JsoxInvariant.DeferOK` | src/jsoxParse.cc:1503-1515 | Deferring a reference keeps it and adds a placeholder nothing else can name. |
| `JsoxInvariant.OpenOK` | src/jsoxParse.cc:1224-1240 | Opening a child keeps it: an object is pushed without being stored, an array is stored first. |
| `JsoxInvariant.CloseOK` | src/jsoxParse.cc:1355-1467 | Closing it again keeps it, and links the child exactly where the document already had it. |
| `JsoxMeaning.FieldOK` | src/jsoxParse.cc:1128-1469 | Building one field of any kind gives its slot what the field means: a reference that is known gets its value, one that is known or ends on an open container by any steps gets a placeholder with its path. |
| `JsoxMeaning.FieldsOK` | src/jsoxParse.cc:1128-1470 | Building the fields of a container gives exactly their slots, each with its meaning, and disturbs nothing built before. |
| `JsoxDocument.FieldsLand` | src/jsoxParse.cc:846-849 | When every reference is known as it is read, every placeholder handed out so far has a path that leads to a container of the document as linked. |
| `JsoxDocument.ReadsAreBuilt` | src/jsoxParse.cc:1128-1470 | A document whose references are all known when read, or end on a container still open, builds: no walk fails. |
| `JsoxDocument.WalkSettles` | src/jsoxParse.cc:1631-1652 | Where a path led while references were pending, it leads after settling, placeholders replaced by their values. |
| `JsoxDocument.ReferenceSettles` | src/jsoxParse.cc:846-849 | A reference slot, resolved eagerly or deferred, ends up holding exactly the value at its path in the finished document. |
| `JsoxDocument.DocumentMeansItsTree` | src/jsoxParse.cc:1654-1717 | Main result: a well-formed document each of whose references is known when read or ends on a container still open (a forward reference does) builds, and when its deferred references all have a meaning the finished objects are exactly what the parse tree describes -- exactly its slots, every reference slot equal to the value at its path. |
| `JsoxDocument.KnownReferencesResolve` | src/jsoxParse.cc:1636-1639 | When every reference is known as it is read, all the deferred ones have a meaning, so the document converts. |
| `JsoxDistinct.FieldsApart` | src/jsoxParse.cc:1190-1260 | The containers built for a node, down to the leaves, are all new and all different objects. |
| `JsoxDistinct.ContainersStayApart` | src/jsoxParse.cc:1654-1717 | The settled document has exactly as many objects as the parse tree has container nodes: no two containers share one, before or after settling. |
| `JsoxBuild.IsStillOpen` | src/jsoxParse.cc:1488-1501 | Says whether the value is the root, the container being filled or on the revive stack; it never misses a container whose build has not finished. |
| `JsoxBuild.DeferReference` | src/jsoxParse.cc:1503-1515 | Appends an entry with a fresh placeholder, the path and the container being filled. |
| `JsoxBuild.WalkReference` | src/jsoxParse.cc:666-838 | The loop over the path, with its fall-backs and error returns, computes the eager walk. |
| `JsoxBuild.MakeReference` | src/jsoxParse.cc:652-850 | A reference before there is a root fails.  Otherwise, whatever the steps, the eager walk decides: if it fails so does the revival, if it lands on an open container a placeholder with the path is deferred, and else the value is that where it lands. |
| `JsoxBuild.MakeValue` | src/jsoxParse.cc:582-590 | A value that is no container: a plain scalar is itself, undefined is undefined, a reference is as its walk decides and alone can change the state; if foreign code is called the last answer is the value. |
| `JsoxBuild.GetObject` | src/jsoxParse.cc:335-337 | An untagged object is a new empty one; a tagged one is what the registered constructor answers, if that is an object. |
| `JsoxBuild.GetArray` | src/jsoxParse.cc:460-465 | The same for arrays. |
| `JsoxBuild.BuildValueField` | src/jsoxParse.cc:1139-1189 | The hole and the plain value: under a field callback the slot gets what its last call answers, unless that is undefined; without callbacks what the specification stores, or failure when the walk of a reference fails. |
| `JsoxBuild.HandValueOver` | src/jsoxParse.cc:1147-1175 | The last answer of foreign code goes into the slot, unless it threw or answered undefined; the rest of the graph is as that call left it. |
| `JsoxBuild.StoreArray` | src/jsoxParse.cc:1193-1225 | Under a field callback its answer takes the place of the new array, or what the slot holds if it answers undefined. |
| `JsoxBuild.ReplaceArray` | src/jsoxParse.cc:1268-1322 | After the callbacks the slot holds what the last one answered, unless that is the array itself. |
| `JsoxBuild.ReplaceObject` | src/jsoxParse.cc:1396-1456 | An object passes through exactly the callbacks there are; the last answer takes its place, and any that throws fails the revival. |
| `JsoxBuild.BuildArrayField` | src/jsoxParse.cc:1190-1323 | An array: stored first, pushed, filled without the field callback, popped, replaced by what callbacks return; without callbacks the state is what the specification gives, and it fails exactly when the specification gives nothing. |
| `JsoxBuild.BuildObjectField` | src/jsoxParse.cc:1324-1468 | An object: pushed, filled, popped, passed through its callbacks, then stored: what the last one answered ends up in the slot, unless it is undefined; without callbacks the state is as specified, failures included. |
| `JsoxBuild.BuildPushed` | src/jsoxParse.cc:1229-1260 | Filling a container while it is on the stack leaves the stack at its entry height. |
| `JsoxBuild.BuildLoop` | src/jsoxParse.cc:1128-1470 | The loop over the fields, with its early returns; without callbacks it computes the specified build of every untagged container, failures included. |
| `JsoxBuild.BuildObject` | src/jsoxParse.cc:1107-1474 | Throughout any build -- callbacks that do anything, failures, the early return that leaves `refObject` changed -- the revive stack returns to its entry height and every unfinished container is the root or on it; without callbacks every untagged tree gives the specified result, whatever its references. |
| `JsoxBuild.ConvertMessage` | src/jsoxParse.cc:1654-1725 | The whole conversion: a message that is a plain scalar is that scalar, undefined is undefined, a bare reference fails, and all three leave the objects as they were; under a reviver function such a message is what that answers.  Whatever callbacks did, success leaves no placeholder reachable from the result.  An untagged document fails if and only if its build does or a deferred reference has no meaning.  If all its references are read well and it does not fail, it means its parse tree, with one object for each container; if all are known it does not fail. |
| `JsoxLimits.FallbackReadsTheWrongObject` | src/jsoxParse.cc:790-803 | Outside the condition: `{a:{},b:{k:1,c:ref["a","x","k"]}}` converts, and its `c` is 1, though nothing is at that path: the missing name `x` falls back to the container being filled. |
| `JsoxLimits.IndexZeroMatchesANamedMember` | src/jsoxParse.cc:702-710 | Outside it too: `{foo:{k:1,x:ref[0,"k"]}}` converts, and its `x` is 1, though nothing is at that path: a number step 0 takes the named member `foo` of the stack for element 0. |
| `JsoxLimits.WrongWayEndsRight` | src/jsoxParse.cc:790-803 | `{x:{c:1,a:ref["x","b","c"],b:{c:1}}}` is read by the same fall-back, not well, and still means its parse tree: outside the condition a slot can be right by coincidence. |
| `JsoxLimits.ForwardReferenceIsRight` | src/jsoxParse.cc:790-803 | `{a:ref["b"],b:5}` is within it: the walk falls back to the open root, the reference is deferred, and the finished slot holds 5. |
| `JsoxLimits.CircularReferencesFail` | src/jsoxParse.cc:1549-1551 | Within it, references that only lead to each other: the build succeeds and the conversion does not. |
| `JsoxLimits.NameOfAnElementFails` | src/jsoxParse.cc:739-803 | `[{x:ref["0"]}]`: the path exists in the document so far, but names an open array element by a string, and the build fails; this is why a known path goes by kind. |
| `JsoxLimits.CyclicDocument` | src/jsoxParse.cc:846-849 | All references known: a document that refers to an enclosing object becomes a cycle. |
| `SqlPool.PruningCutsTheTail` | src/sql_module.cc:186-202 | With a clock that does not go back, pruning cuts off exactly the tail of the list that has been idle for more than the timeout, and closes it oldest first. |
| `SqlPool.HeldIsNowhereElse` | src/sql_module.cc:172-298 | A held connection, in particular a transacting or opening one, is neither idle nor closed. |
| `SqlPool.DropKeeps` | src/sql_module.cc:203-244 | Handing a connection back keeps every connection in one place if and only if the last holder does it. |
| `SqlPool.EndTransactionKeeps` | src/sql_module.cc:663-689 | Commit and rollback do so if and only if nobody else holds the transacting connection: no client, and no use that is still opening it. |
| `SqlPool.EndOpenKeeps` | src/sql_module.cc:278-282 | The end of a first opening does so if and only if the transaction it was for does not take the place of another whose connection nobody else holds. |
| `SqlPool.ReopenKeeps` | src/sql_module.cc:1516 | Opening the connection again does so if and only if somebody holds it, when it carries the callback: one that the library opens by itself while it is idle would be pinned and idle at once. |
| `SqlPool.EndReopenKeeps` | src/sql_module.cc:1545 | The end of such an opening does so if and only if somebody besides the pin still holds the connection. |
| `SqlPool.StepKeepsExactlyWhen` | src/sql_module.cc:172-318 | For every event, including all that can happen while an open callback runs, further openings within it, and connections lost and opened again: the invariant is kept if and only if whoever hands a connection back is its last holder and what is pinned stays held. |
| `SqlRuns.RunKeeps` | src/sql_module.cc:172-318 | So it holds throughout every run in which that is respected. |
| `SqlRuns.DropLeaves` | src/sql_module.cc:203-244 | From the state before and the clock alone: a connection handed back becomes the newest idle one if fewer than the maximum were idle within the timeout, and otherwise is closed, last; what was idle for longer is closed in either case, oldest first; a pinned connection is not handed back. |
| `SqlRuns.EndTransactionLeaves` | src/sql_module.cc:663-689 | The same for the connection of a commit or rollback. |
| `SqlRuns.UseLeaves` | src/sql_module.cc:246-298 | A use gives out the pinned connection, or else the newest idle one within the timeout, or else a new one, and closes what was idle for longer; counters included. |
| `SqlRuns.TransactLeaves` | src/sql_module.cc:654-660 | So does the start of a transaction, which pins what it is given. |
| `SqlRuns.CloseAllLeaves` | src/sql_module.cc:300-317 | Closing all closes every idle connection, newest first, and no other. |
| `SqlRuns.EachInOnePlace` | src/sql_module.cc:172-318 | Each connection ever made is in exactly one place -- closed once, idle once, or held -- and a pinned one is not idle and not closed. |
| `SqlRuns.CountersMeanSets` | src/sql_module.cc:172-318 | opened = closed + active + pooled, and each counter is the size of its set, the connection that is being opened for its first use accounted for; at most `maxIdle` are idle. |
| `SqlRuns.CountersAlwaysBalance` | src/sql_module.cc:172-318 | The counters balance, and the idle list never exceeds its maximum, on every run at all. |
| `SqlRuns.AlwaysOrdered` | src/sql_module.cc:186-244 | On every run at all, also one in which connections are handed back out of turn, the idle list is sorted, most recently used first. |
| `SqlRuns.PinStays` | src/sql_module.cc:246-249 | A pin stays until its transaction or an open callback ends, and meanwhile every use is given the pinned connection. |
| `SqlRuns.UseIsExclusive` | src/sql_module.cc:246-298 | With nothing pinned a use is given a connection nobody else holds and that is no longer idle. |
| `SqlRuns.ReuseIsNewest` | src/sql_module.cc:250-280 | On any sorted list, so on every run, a use with nothing pinned is given the idle connection used most recently, if that was within the timeout, and otherwise a new one, every idle one having been closed. |
| `SqlRuns.BorrowerOutlivesTheTransaction` | src/sql_module.cc:663-674 | The failing case: a client that borrowed the transaction's connection and drops it after the commit makes it idle twice and the active count -1. |
| `SqlOpenings.CallbackRunsExactlyWhen` | src/sack/sack.cc:117845-117914 | On every run of an object with an open callback the callback starts at exactly the openings of the first connection made: by the connect, later if that failed, and each time after it was lost; no opening of another connection starts it. |
| `SqlOpenings.FirstIsCarrier` | src/sack/sack.cc:118776-118777 | On every run the callback is carried, from the first connect on, by the connection that connect makes, opened or not, and by no other. |
| `SqlOpenings.CallbackGivenExactlyWhen` | src/sql_module.cc:273-280 | At any moment of any run a use that connects is given the callback if and only if the object has one and no connect was counted before. |
| `SqlOpenings.CallbackGivenOnce` | src/sql_module.cc:273-280 | So no two connects of a run are given it. |
| `SqlOpenings.ReopenedWithoutCallback` | src/sql_module.cc:263-280 | The failing case: opened, handed back, all closed, used again -- the second connection is opened without the callback. |
| `SqlOpenings.RunsAgainWhenLost` | src/sack/sack.cc:118583-118646 | The first connection, lost and opened again under the client that uses it, runs the callback a second time. |
| `SqlOpenings.RunsLateWhenFirstFails` | src/sack/sack.cc:118781-118782 | When the first connect does not open its connection, the callback runs when a command does. |
| `SqlOpenings.InnerOpeningUnpins` | src/sql_module.cc:1516-1545 | A failing case: a command of the callback loses the connection and opens it again; the inner callback ends the pin of the outer one, and the command then puts the connection into the pool, while the first use is still to be given it. |
| `SqlObject.SqlObject.PruneIdleODBCs` | src/sql_module.cc:186-202 | The in-place walk over the list, onto a close list, is the specified pruning. |
| `SqlObject.SqlObject.DropODBC` | src/sql_module.cc:203-244 | Computes the specified drop, the null handle and the pinned connections ignored. |
| `SqlObject.SqlObject.UseODBC` | src/sql_module.cc:246-298 | Computes the specified use; if it connects and opens with the callback due, with whatever the callback does in between. |
| `SqlObject.SqlObject.OnOpen` | src/sql_module.cc:1509-1546 | Pins the connection, runs the callback, and unpins, whatever was pinned by then. |
| `SqlObject.SqlObject.OpenCallback` | src/sql_module.cc:1521-1545 | Any sequence of uses, drops, transactions, closings and further openings, nested to any depth, by the callback. |
| `SqlObject.SqlObject.Transact` | src/sql_module.cc:654-660 | Pins what a use gives. |
| `SqlObject.SqlObject.EndTransaction` | src/sql_module.cc:662-689 | Unpins first and drops then. |
| `SqlObject.SqlObject.ClosePooledODBCs` | src/sql_module.cc:300-317 | Closes every idle connection, newest first. |
| `SqlObject.CallsKeepOpening` | src/sql_module.cc:1516-1545 | While the callback runs its connection stays pinned if and only if none of its commands opens the connection again. |
| `SqlObject.UseWithCallbackIsEvents` | src/sql_module.cc:246-298 | A use with its open callback, by a client or by `transact`, whatever the callback calls, is a run of the state machine: the opening begins, the calls happen, inner openings with theirs, the opening ends. |
| `QueryScheduler.StepKeeps` | src/sql_module.cc:1250-1299 | Every step of event loop, submission and worker keeps: at most one query between queue and settling, exactly when `promisedRunning` says so; submitted = started + queued and started = settled + in flight, in order; the pending count; and a waiting query with none running only just before the code looks again. |
| `QueryScheduler.Safety` | src/sql_module.cc:1250-1299 | In every interleaving at most one query is in flight, queries start and settle in submission order, each once, pending = queued + running, and a non-empty queue implies a running query. |
| `QueryScheduler.StepProgress` | src/sql_module.cc:2183-2219 | Every step except a submission brings the end nearer. |
| `QueryScheduler.StuckIsDone` | src/sql_module.cc:1284-1299 | No lost wakeup: a state in which nothing can happen has settled everything. |
| `QueryScheduler.Bounded` | src/sql_module.cc:2183-2219 | Once submissions stop every schedule ends within a bound, so every submitted query settles. |
| `QueryScheduler.SubmissionIsSteps` | src/sql_module.cc:1457-1471 | A submission without interruption is a stretch of the interleaved steps. |
| `QueryScheduler.HandlingIsSteps` | src/sql_module.cc:2187-2219 | So is handling one message. |
| `QueryScheduler.SqlState.StartQueuedQuery` | src/sql_module.cc:1284-1299 | Takes and starts the next query unless one is running. |
| `QueryScheduler.SqlState.SubmitPromised` | src/sql_module.cc:1457-1471 | Counts, queues and tries to start. |
| `QueryScheduler.SqlState.QueryThreadEnds` | src/sql_module.cc:1250-1282 | A finished worker posts its message. |
| `QueryScheduler.SqlState.HandleQueryMessage` | src/sql_module.cc:2188-2219 | Settles the query of the first message, uncounts it and starts the next. |
| `QueryScheduler.SqlState.HandleMessages` | src/sql_module.cc:2183-2219 | The loop settles all finished queries in the order of their messages. |
| `QueryResult.Known` | src/sql_module.cc:918-957 | A column whose name is known joins its field at the depth of the columns before it. |
| `QueryResult.New` | src/sql_module.cc:960-1001 | A column with a new name starts a field. |
| `QueryResult.Leaders` | src/sql_module.cc:928-1001 | A field is led by its first column, at depth 0; every other column of it comes later and deeper, below the field's count. |
| `QueryResult.AliasesOnce` | src/sql_module.cc:897-954 | The table list holds no alias and then each alias once, and has room within items + 1. |
| `QueryResult.DepthGrows` | src/sql_module.cc:927-928 | The maximal depth, though only approximated, exceeds 1 exactly when some name is duplicated. |
| `QueryResult.PlaceInTable` | src/sql_module.cc:938-954 | Finds a column's alias in the table list or adds it. |
| `QueryResult.GroupColumns` | src/sql_module.cc:918-1002 | The first pass computes the partition of the columns by name without case, the depths, and the table list. |
| `QueryResult.CountTableNames` | src/sql_module.cc:1003-1011 | With several aliased tables a name that is also an alias counts once more for each. |
| `QueryResult.WidenedShape` | src/sql_module.cc:1003-1011 | That leaves leaders, depths and columns as they were, and every depth below its count. |
| `QueryResult.FillNames` | src/sql_module.cc:1018-1044 | The names loop fills exactly usedFields + extraUsedFields positions: the aliases, then each field once, in order. |
| `QueryResult.FillRow` | src/sql_module.cc:1053-1177 | The row loop, of different structure, fills as many values, position by position for the same table or field; arrays and table objects get their cells. |
| `QueryResult.StoreCell` | src/sql_module.cc:1066-1174 | One column of a row: the record gets its cell where the specification has it, and the two loops' common count is kept. |
| `QueryResult.BuildQueryResult` | src/sql_module.cc:859-1180 | For every column list and every row: names and values are equally long and each position denotes the same thing in both, as the record laws below (`QueryRecord`) spell out by columns and cells. |
| `QueryResult.ArraysExactExactlyWhen` | src/sql_module.cc:1167-1174 | The array of a duplicated field is exact -- dense, in column order, nothing else indexed -- in every row there can be if and only if no alias of its columns names the length, an index below the column's place, or one past the last. |
| `QueryResult.ExactExactlyWhen` | src/sql_module.cc:1170-1173 | The same for a list of aliases and any cells. |
| `QueryResult.NumericAliasSpoils` | src/sql_module.cc:1170-1173 | A failing case: the second table called `0` overwrites the first table's cell. |
| `QueryResult.TableHoldsItsColumns` | src/sql_module.cc:1167 | A table's object has exactly the duplicated names that occur in the table, each with the cell of the last such column. |
| `QueryResult.GroupInOrder` | src/sql_module.cc:1167-1174 | The cells of a duplicated name are those of its columns, each at the place its column has among them. |
| `QueryResult.NamedAliasKept` | src/sql_module.cc:1170-1173 | An alias that is an ordinary name is a property of the array, with the cell of its last column. |
| `QueryResult.PropertiesAreAliases` | src/sql_module.cc:1170-1173 | The array has no other properties. |
| `QueryResult.IndexKeysAreSpellings` | src/sql_module.cc:1170-1173 | The aliases taken for indexes are exactly the decimal spellings of the numbers below 2^32 - 1. |
| `QueryResult.FoldJoinsCases` | src/sql_module.cc:918-924 | Names are compared so that letters match their other case and nothing else matches. |
| `QueryRecord.SingleColumnsAreThere` | src/sql_module.cc:1162-1164 | Of every record: a column whose name occurs once, and is no table alias when several tables are aliased, has its own cell at a position that bears its name. |
| `QueryRecord.ScalarsAreSingleColumns` | src/sql_module.cc:1162-1164 | Conversely every plain cell of a record is that of the one column named at its position. |
| `QueryRecord.DuplicatesAreArrays` | src/sql_module.cc:1167-1174 | Any other name has, at a position that bears it as its first column spells it, an array filled from its columns in order. |
| `QueryRecord.ArraysAreDuplicates` | src/sql_module.cc:1167-1174 | Conversely every array of a record is that of the duplicated name at its position. |
| `QueryRecord.NamesDifferByPosition` | src/sql_module.cc:1032-1044 | No two positions of columns bear the same name. |
| `QueryRecord.TablesAreThere` | src/sql_module.cc:1053-1064 | With several aliases and a repeated name, every alias has an object of its table, which has the last cell of each of its duplicated names and nothing else. |
| `QueryRecord.TablesAreAliases` | src/sql_module.cc:1053-1064 | Otherwise there is no such object, and each one there is belongs to the alias at its position. |
| `SqlDates.NextDayIsNext` | src/sql_module.cc:823-830 | From each valid Gregorian date to its successor, in any year, the count grows by exactly one. |
| `SqlDates.Epoch` | src/sql_module.cc:823-830 | 1 January 1970 is day 0. |
| `SqlDates.DayCount` | src/sql_module.cc:823-830 | So the formula, with its C division and unsigned wrap-around, is the number of days counted one by one. |
| `SqlDates.DaysOrdered` | src/sql_module.cc:823-830 | It preserves the order of dates and tells different dates apart. |
| `SqlDates.DateOfDaysIsDate` | src/sql_module.cc:823-830 | Counting days and the formula are inverse to each other. |
| `SqlDates.IsoToMs` | src/sql_module.cc:833-857 | The reader computes its specification on every string: date, optional time, seconds, fraction and zone. |
| `SqlDates.PrintThenRead` | src/sql_module.cc:833-857 | Every timestamp reads back as the instant it names: as a bare date or with a time of day, a `T` or a blank between them, with seconds or without, any number of fraction digits, those beyond the third dropped, no zone, `Z`, or an offset with a colon or without. |
| `SqlDates.InstantRoundTrip` | src/sql_module.cc:833-857 | Every millisecond instant with a four-digit local year, printed at any offset, reads back as itself, so printings at different offsets agree. |
| `SignCheck.InitBitCountLookupTables` | src/srg_module.cc:270-348 | Every entry of the byte table is right: count of set bits, runs at both ends, whether the byte is mixed. |
| `SignCheck.LongestIsLongest` | src/srg_module.cc:355-407 | The bit-by-bit definition is the longest stretch there is. |
| `SignCheck.SignCheck` | src/srg_module.cc:355-434 | The scan over the table computes its specification, signature and return value; the signature describes the bits as `SignatureMeans` says. |
| `SignCheck.TableRunsAreTrue` | src/srg_module.cc:355-407 | For every buffer the count is exact, no run is over-reported, and runs of 8 or more are exact. |
| `SignCheck.SignatureIsTrue` | src/srg_module.cc:404-434 | For pad1 >= -22 the signature from the table is that of the bit-by-bit definition, classifier and extent. |
| `SignCheck.SignatureMeans` | src/srg_module.cc:404-434 | What a signature says of the bits: 1, more than 167 + pad2 are set, and 2, fewer than 89 - pad2, the extent being by how many; for pad1 >= -22, 3, neither, but more than 29 + pad1 zeros in a row, and 4, none of these, but as many ones, the longest stretch being 29 + pad1 + extent. |
| `SignCheck.BitsAreBinary` | src/srg_module.cc:270-348 | The bits of a byte are its binary digits, low bit first. |
| `SignCheck.OnesAreSetBits` | src/srg_module.cc:355-407 | The count is the number of positions of set bits. |
| `SignCheck.AgreesExactlyWhen` | src/srg_module.cc:404-434 | The pass/fail decision agrees with the definition on all buffers if and only if pad1 >= -22 or a threshold is so low that everything passes (pad1 <= -29 or pad2 <= -40). |
| `Signing.CallerKeeps` | src/srg_module.cc:633-674 | Every step of the caller -- starting threads, waiting, searching -- keeps the invariant of the race. |
| `Signing.ThreadKeeps` | src/srg_module.cc:462-505 | So does every step of a thread; whoever first sets `done` holds a proven nonce. |
| `Signing.RunKeeps` | src/srg_module.cc:462-505 | In every interleaving, from whatever earlier calls left in the parameters. |
| `Signing.CallReturnsProvenNonce` | src/srg_module.cc:627-675 | When a call returns all threads have ended, at least one holds a nonce, the first holder is returned, and every holder's buffer is the digest of this text and its nonce and passed this call's check. |
| `Signing.DoneStaysAndNothingSticks` | src/srg_module.cc:494-500 | `done` is never lowered, and before the call returns something can always happen. |
| `Signing.WindsDown` | src/srg_module.cc:494-500 | Once `done` is set every schedule ends within a bound. |
| `Signing.ParsePads` | src/srg_module.cc:688-697 | The first number among the arguments is the first pad, every later one replaces the second. |
| `Signing.PadsByPosition` | src/srg_module.cc:688-697 | By position: pad1 is the number at the first index that holds one, pad2 that at the last such index if it is another, and else 0. |
| `Signing.NoPads` | src/srg_module.cc:688-697 | Without numbers both are 0. |
| `Signing.KeyIsNoPad` | src/srg_module.cc:745-756 | A key between text and pads does not change the pads. |
| `Signing.Verify` | src/srg_module.cc:734-796 | Verifying reports the signature of the digest of text and decoded key, of no bytes for an undefined key, and nothing at all without a key argument. |
| `Signing.SignThenVerify` | src/srg_module.cc:677-722 | Verifying a returned key on the same text with the same pads reports the classifier, extent and id that signing reported, the classifier not being 0; so for the nonce of every thread. |
| `Signing.VerifiedMeans` | src/srg_module.cc:734-796 | What verifying reports, from the bits: the id encodes the digest of text and decoded key, and classifier and extent describe its bits under the pads given. |
| `Signing.ProvenMeans` | src/srg_module.cc:462-494 | What makes a nonce proven: the bits of its digest are lopsided in the way the signature says. |
| `Signing.TryNonce` | src/srg_module.cc:466-494 | The body of the thread's loop is its three steps in a row. |
| `Signing.FindHolder` | src/srg_module.cc:663-674 | Finds the first thread that holds a nonce. |
| `MouseEvents.InputCount` | src/hid_module.cc:934-1017 | The loop terminates with one input for each X transition and each scroll, or a single one for none. |
| `MouseEvents.OneToFourInputs` | src/hid_module.cc:1076-1162 | Between 1 and 4 inputs for every request, so the array of four suffices. |
| `MouseEvents.EventReplays` | src/hid_module.cc:1109-1160 | The inputs of one request take left, right and middle from recorded to requested state, never pressing a pressed button or releasing a released one. |
| `MouseEvents.SequenceReplays` | src/hid_module.cc:905-1018 | Replaying everything emitted for a list of requests from the initial state reaches the recorded final state, likewise. |
| `MouseEvents.XPressesForgotten` | src/hid_module.cc:978-997 | An X button counts as held afterwards only if it did before and still should: presses are not recorded. |
| `MouseEvents.EventReplaysX` | src/hid_module.cc:978-997 | The X inputs of one request are those its recorded and requested X buttons call for: nothing, one press or one release. |
| `MouseEvents.XReplaysExactlyWhen` | src/hid_module.cc:905-1018 | From a recorded state, replaying a list of requests never presses a pressed or releases a released X button and ends in the recorded state, if and only if no request asks for a button not recorded then. |
| `MouseEvents.LostForGood` | src/hid_module.cc:978-997 | Within one list, after the first such request the button stays unrecorded, so what was pressed is not released. |
| `MouseEvents.XPressedTwice` | src/hid_module.cc:978-981 | So asking twice for a held X1 presses it twice. |
| `MouseEvents.VerticalScrollNeedsBoth` | src/hid_module.cc:918-925 | A vertical scroll is emitted, once and with its amount, if and only if both amounts are given and nonzero. |
| `MouseEvents.HorizontalScrollIsKept` | src/hid_module.cc:918-925 | A horizontal one is emitted, once and with its amount, if and only if it is given, even as zero. |
| `MouseEvents.MovesWhereAsked` | src/hid_module.cc:926-957 | The point asked for is as given, missing coordinates from the cursor, the cursor added for a relative request; the first input moves there if and only if the mouse is elsewhere, and no other input moves or has a position. |
| `MouseEvents.EventMoves` | src/hid_module.cc:944-957 | So the inputs of a request take the mouse to the point asked for. |
| `MouseEvents.CursorReplays` | src/hid_module.cc:905-1018 | And those of a list take it to the position kept for the next request. |
| `MouseEvents.FillInput` | src/hid_module.cc:1085-1161 | One pass through the loop body. |
| `MouseEvents.Event` | src/hid_module.cc:1060-1165 | Fills the array within its bounds and sends exactly the specified inputs, of which the laws above say what buttons, scrolls and moves they make. |
| `MouseEvents.GenerateEvent` | src/hid_module.cc:905-1018 | One request of the list. |
| `MouseEvents.GenerateEvents` | src/hid_module.cc:888-1018 | All requests in turn, sent at once; replaying what was sent from the old cursor ends at the recorded position. |

## Left out

- The JSON and JSOX tokenisers, the VFS and object-store formats, the entropy generators, base64 and TLS: they live in the SACK library, of which only the opening of database connections is modelled.
- V8 and Node wrapping, argument checks, exceptions and messages, networking, COM ports, file monitor, sound, registry, hooks: no algorithm to prove, or input and output only.
- `JSOX` Maps, getters, accessors and prototype chains inside the object graph: properties are own slots of plain objects, and a missing property reads as undefined or fails as for those.
- The `length` property of JSOX arrays, and the values of scalars; number steps of a path are taken as already cut to 32 bits.
- JsoxDocument.DocumentMeansItsTree: for documents without registered classes, with unique names in each object, and whose references are known when read or end on an open container; of others only the build and its failures are specified, as a slot read from where a walk fell back to is right by coincidence at most. With callbacks the result is up to foreign code: the stack discipline, the absence of placeholders, and that its last answer is what a slot gets are stated, but not which function is called with which arguments.
- JsoxBuild.BuildObjectField: the early return before a field callback whose argument is undefined (src/jsoxParse.cc:1154-1156) also leaves `fieldName` unrestored, so that the parent stores that child under the last name the child read; the model stores a child under its own name.
- Date and typed-array values: in the code objects that a path can step into (src/jsoxParse.cc:592-645), here scalars, on which a path with further steps fails.
- Class lookup in `getObject` and `getArray` for tagged containers: modelled as an arbitrary callback that may install a field callback.
- Races between two threads inside one pool operation, such as between testing for an idle connection and opening one: each operation, or each half of a use around the open callback, is one step.
- QueryScheduler.SqlState.HandleMessages: messages of the queue that are not query results; and the message loop that `OnOpen` re-enters while a use is running on the event-loop thread (src/sql_module.cc:1530-1542) is not a step of its own, its turns are taken as the event loop's.
- How the library finds that a connection is lost, repeats a command, or keeps trying to open a required connection: losses and openings are events that can come at any time.
- `SqlObject::outstanding` and `SqlObject::pooled`, which the code does not keep on all paths, and the text of the trace output.
- Reuse of a closed connection's address by a later one: connections are told apart by identity.
- Refreshing database settings on a connection (auto transaction, logging, corruption handler) when it is handed out.
- The quote and escape scan of `queryBuilder`, which follows no rule of SQL literals, and `IsTextAnyNumber`, an easy scanner.
- Rows whose column list differs from the first row's, and memory of names that the database may reuse between columns.
- QueryResult.BuildQueryResult: for a pending exception after an array refused a `length`, the array is modelled as unchanged; and of records whose names repeat (an alias that is also a column name) only the two lists are described, not which of them the object keeps.
- Case folding of column names beyond ASCII letters.
- SqlDates.IsoToMs: reads past the terminating zero of a short string are taken as zeros, and milliseconds as integers, exact below 2^53.
- SqlDates.DayCount: years are unbounded; the 32-bit overflow of the year arithmetic and the width of `long` are not modelled.
- SignCheck.SignCheck: overflow of 29 + pad1 and of 128 + 39 + pad2 in 32 bits is not modelled.
- Signing.CallReturnsProvenNonce: for 1 to 32 threads, as the parameters have room for; with none the call waits for ever, and that some nonce is found at all is a matter of chance.
- `sign` and `verify`, the older pair beside `srg_sign` and `srg_verify`: the same shapes, the first of which returns nothing.
- MouseEvents.Event: button masks and input flags are sets of the bits the code tests; scaling of positions to the virtual desktop and of scrolls to notches is left to the system.
- MouseEvents.XReplaysExactlyWhen: for the requests of one call, from any recorded state; between calls an open mouse handler may change what is recorded (src/hid_module.cc:722-735).
- `MouseEvents` `clickAt` and the keyboard: only easy members.
