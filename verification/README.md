# Verified model of T-Rex

A model, in Dafny, of the T-Rex complex-event-processing engine, with proofs. The modules follow
the engine's components.

* **Events, Rules** - typed values, publications, operation trees and rules. A rule is a tree of
  states with windows and selection kinds, negations, aggregates, parameters and a consuming set.
* **Search, Detection, Soundness** - the binary searches over time-sorted stacks and the
  detector that joins backwards from a terminator. `Soundness` gives the declarative meaning of a
  match and proves that the detector finds exactly the matches.
* **MatchMeaning** - matches, negations and aggregate values spelled out over integers and the values of
  operation trees, and that the detector and the aggregates agree with it.
* **Aggregates** - the window fold behind SUM, COUNT, MIN, MAX and AVG.
* **Runs, Reception, Targets** - whole runs of publications through one rule; which of them the engine
  can receive, given what its index reports of a packet; and how to reach given stacks by one.
* **Expiry, Timelines, Purging, PurgeLimits, Consumption** - what expiry and consumption do along a run.
  `Expiry` says packet by packet what an expiry leaves.
  `Purging` proves that expiry is invisible when the packets of each between-state negation's two
  states can never be further apart than the window by which the negation is purged; `PurgeLimits`
  proves the converse; `Consumption` proves that a consumed packet is never used again and that no
  match is emitted twice. `Timelines` holds how far apart the packets of a match can be.
* **Parameters, ParameterLimits, RulePackets** - when early parameter checks preserve meaning, and that
  they do not otherwise; building rules; windows.
* **StacksRules, Engine** - the detector as it runs: classes with stacks and reference counts
  updated in place, proved equal to the step of `Runs`, and the engine around them with its bounded
  recursion, its notifications and its accounting of references over all rules.
* **Meaning, Reports** - what a rule means over a history of packets, without index, stacks, expiry or
  detector, and that this is what the engine tells its listeners.
* **Workers** - the publisher and its workers as a state machine over program counters, mutex owners
  and the countdown barrier.
* **Indexing, IndexingTables** - shared constraints, sorted tables scanned with early exit and
  counters per predicate, proved equal to checking every constraint.
* **StringIndexing** - installing constraints on strings, and exactly when that goes right.
* **WireFormat, WireRoundTrip, Marshaller, Unmarshaller, RuleLoading** - the bytes of rules and
  publications: Java writes them, C++ reads them and builds the rule.
* **Framing, Delivery** - cutting a chunked byte stream into packets; and that what clients send is what
  the server decodes.
* **Ring, RingSearch, GpuTrees** - the ring buffers and the tree arrays prepared for the GPU engine.

Time stamps are natural numbers with the engine's saturating subtraction. Rules are well formed:
each state but the root refers to an earlier one, and between states the lower is after the upper.
The operations under the parameter evaluators (`Prims`) are arbitrary functions of what packets hold
under the names read, so no result about parameters depends on overflow, division or missing
attributes. Packets carry an identifier that stands for their address.

Where the code and its evident intent differ, the code is modelled and the difference is stated:

* Between-state negations are purged by the window of the lower state alone
  (`PurgeLimits.PurgeSafeIsExact` says when that is enough).
* At a FIRST or LAST state the parameters take part in the choice of the candidate
  (`ParameterLimits.PushdownIsExact`, `ParameterLimits.FirstFails`).
* Parameters whose last state is 0 are never checked (`ParameterLimits.PushdownOfAllIsExact`).
* An expiry keeps one expired packet when the newest packet sits exactly on the bound
  (`Search.UnexpiredIsSuffix`).
* Two equal constraints in one predicate are counted once, so that it never matches
  (`IndexingTables.IndexingTable.HandlerIsNaive`).
* The search for a string constraint to share looks for one with another value, so that at most one
  predicate for each attribute and operator is connected rightly
  (`StringIndexing.StringConstraintIndex.InstallConstraint`).
* Packets unmarshalled in the same call as an unknown type byte are lost, and a negative length
  blocks the stream for ever (`Framing.AllHandedOver`, `Framing.WaitingIsPartial`).
* A negative reference is accepted when a predicate is added
  (`RulePackets.RulePkt.AddPredicate`). So is a parameter of a negation that reads a state bound after
  the negation is checked, which then reads an unset slot
  (`RulePackets.RulePkt.AddComplexParameterForNegation`), and a parameter of states that also reads a
  negation, an aggregate or a negative index, which then reads a slot that holds another packet or
  none (`RulePackets.RulePkt.AddComplexParameter`).
* The search for the last element of a wrapped ring window takes the window's size from the slot it
  starts at and computes a slot past the ring for a window that ends at slot 0
  (`RingSearch.SearchIsExact` says exactly when it is right all the same).

`dafny verify dfyconfig.toml` checks the whole project.

## Model

| member | source | states |
|---|---|---|
| `Soundness.DetectIsExact` | TRex2-lib/src/Engine/StacksRule.cc:262-337 | A list is returned for a terminator if and only if it is a declared match: its first event is the terminator, each further event is the choice of its state (any, the earliest or the latest candidate strictly inside the window that passes parameters and linked negations), and no negation linked to the terminator fires |
| `MatchMeaning.DetectIsSpelled` | TRex2-lib/src/Engine/StacksRule.cc:262-378 | The same spelled out over integers and values: each further event lies before the one it refers to by more than nothing and less than the window; the parameters compare the value of their left tree with that of their right; and no packet of a negation that ends there lies between its two states, or before its upper state by less than its time, with its parameters holding of the values read from it and from the states |
| `Soundness.DetectDistinct` | TRex2-lib/src/Engine/StacksRule.cc:380-421 | When no stack holds a packet twice, no match is returned twice |
| `Consumption.EmittedDistinct` | TRex2-lib/src/Engine/StacksRule.cc:380-421 | Along every run of distinct packets, no publication emits a match twice |
| `Consumption.RunDistinct` | TRex2-lib/src/Engine/StacksRule.cc:136-188 | Along every run of distinct packets, no stack ever holds a packet twice |
| `StacksRules.StacksRule.GetPartialResults` | TRex2-lib/src/Engine/StacksRule.cc:380-421 | The state-by-state loop returns exactly the detector's list, in order, also when it stops early |
| `StacksRules.StacksRule.NextState` | TRex2-lib/src/Engine/StacksRule.cc:391-416 | One round extends every partial event, in order |
| `StacksRules.StacksRule.GetWinEvents` | TRex2-lib/src/Engine/StacksRule.cc:262-337 | Appends the extensions of one partial event: the two binary searches bound exactly the packets that can be bound |
| `StacksRules.StacksRule.ScanWindow` | TRex2-lib/src/Engine/StacksRule.cc:286-336 | The scan of the window, backwards for LAST, yields all, the first or the last usable packet in the order of the stack |
| `StacksRules.StacksRule.CheckNegation` | TRex2-lib/src/Engine/StacksRule.cc:339-378 | Reports a hit if and only if some stored packet lies strictly inside the negation's interval and each of its parameters compares the value of its left tree with that of its right, the negation read from the packet and states from the partial event |
| `StacksRules.StacksRule.InvalidatedByNegations` | TRex2-lib/src/Engine/StacksRule.cc:304-317 | Checks exactly the negations linked to the state just bound |
| `StacksRules.FittingSlice` | TRex2-lib/src/Engine/StacksRule.cc:270-284 | Outside the slice found by the binary searches no packet can be bound |
| `Search.GetFirstValidElement` | TRex2-lib/src/Common/Funs.cc:449-471 | The first element strictly later than the bound, or -1 exactly when there is none; elements before it are not later |
| `Search.GetLastValidElement` | TRex2-lib/src/Common/Funs.cc:473-495 | The last element strictly earlier than the bound from an index on, or -1 when that element is not earlier |
| `Search.DeleteInvalidElements` | TRex2-lib/src/Common/Funs.cc:497-509 | How many of the newest elements an expiry keeps, including the newest one that sits exactly on the bound |
| `Search.UnexpiredIsSuffix` | TRex2-lib/src/Common/Funs.cc:497-509 | Expiry keeps a suffix: it drops only expired elements, and all of them exactly when the newest element is not on the bound |
| `Purging.PurgingInvisible` | TRex2-lib/src/Engine/StacksRule.cc:536-588 | On every run with nondecreasing time stamps, an engine that purges emits the same matches in the same order, with the same time-based aggregates, as one that never does, for any mix of EACH, FIRST, LAST and consumption, provided the packets of each between-state negation's two states can never be further apart than the lower state's window |
| `Purging.AncestorIsSafe` | TRex2-lib/src/Engine/StacksRule.cc:549-556 | That holds whenever the negation's lower state refers to its upper state or to an ancestor of it |
| `Purging.LeadBounds` | TRex2-lib/src/Engine/StacksRule.cc:270-277 | In every partial match, the packet of one state is later than that of another by at most the sum of the windows on the way up, less one tick for each step |
| `Purging.StepSame` | TRex2-lib/src/Engine/StacksRule.cc:148-173 | One publication keeps the purged and the unpurged stacks related and emits the same |
| `Purging.RunRelated` | TRex2-lib/src/Engine/StacksRule.cc:536-588 | After every run the purged stacks are the unpurged ones without some oldest packets that no later match or negation can use |
| `PurgeLimits.PurgeSafeIsExact` | TRex2-lib/src/Engine/StacksRule.cc:549-556 | For every rule, purging is invisible on every run the engine can receive, whatever the event types, constraints and machine operations, if and only if that condition holds or some window is too short to hold any packet. A run is one the engine can receive when packets are fresh and in time order and each is filed under exactly what the index reports of it |
| `PurgeLimits.SeparableSafeIsExact` | TRex2-lib/src/Engine/StacksRule.cc:549-556 | With the rule's own event types and constraints, whatever the machine operations, the same holds of every rule whose states and negations each have some packet that is filed nowhere else in the rule |
| `PurgeLimits.BareSafeIsExact` | TRex2-lib/src/Engine/StacksRule.cc:549-556 | If such a rule has no parameters the same holds for its own machine operations |
| `PurgeLimits.UnreportedIsInvisible` | TRex2-lib/src/Engine/IndexingTable.cc:125-142 | A rule with a state that the index never reports, as one that asks for the same constraint twice, emits nothing either way, so that the windows alone do not decide it |
| `Targets.PlainIsSeparable` | TRex2-lib/src/Engine/StacksRule.cc:549-556 | Every rule without constraints whose states, negations and aggregates have different event types is such a rule |
| `Reception.Reach` | TRex2-lib/src/Engine/TRexEngine.cc:55-88 | Any sorted stacks without a terminator, of packets that are each filed under their stack only, are what some run the engine can receive leaves when the terminator arrives, with or without expiry |
| `Reception.CalmStacks` | TRex2-lib/src/Engine/StacksRule.cc:175-188 | As long as no terminator arrives every stack holds exactly what was filed under its key, in order |
| `Reception.Ask` | TRex2-lib/src/Engine/IndexingTable.cc:125-142 | What the handler of a packet says of a rule the table knows is exactly the states, negations and aggregates whose naive check the packet passes and that do not ask for a constraint twice |
| `PurgeLimits.PurgesTooMuch` | TRex2-lib/src/Engine/StacksRule.cc:549-556 | For a rule that violates the condition, a run the engine can receive, on which it emits nothing without purging and something with it: one packet for each state, of its own type, and two for the negation |
| `PurgeLimits.ChainIsExact` | TRex2-lib/src/Engine/StacksRule.cc:549-556 | For a chain of three states negated from end to end, over four event types, purging is invisible on the runs the engine can receive if and only if the middle window is below 3 ticks or the last below 2 |
| `PurgeLimits.ChainPurgesTooMuch` | TRex2-lib/src/Engine/StacksRule.cc:549-556 | The chain with windows of 10 ticks, and a run the engine can receive that emits nothing without purging and something with it |
| `Timelines.LeadStep` | TRex2-lib/src/Engine/StacksRule.cc:270-277 | When every window holds a packet there is a timeline, with every packet in its window, in which all packets are as much later than a given one as they can be |
| `Expiry.RunExpires` | TRex2-lib/src/Engine/StacksRule.cc:536-588 | Along every run each terminator leaves of a state's stack exactly the packets later than the oldest one left of the state it refers to less the window, and the newest one when it sits exactly there; of a negation's stack the same against its upper state by its time or the lower state's window; of an aggregate's the same by its time. The matches are made of what is left, and exactly what they bind to consuming states is removed too |
| `Expiry.LeftIsRecent` | TRex2-lib/src/Engine/StacksRule.cc:538-547 | What a terminator leaves of a state that refers to it is later than the terminator less the window, or is the newest packet and sits exactly there |
| `Expiry.RunSorted` | TRex2-lib/src/Engine/StacksRule.cc:175-188 | Along every run, whatever the order of the time stamps, every stack is sorted |
| `StacksRules.StacksRule.ClearStacks` | TRex2-lib/src/Engine/StacksRule.cc:536-572 | Leaves exactly the packets that survive, stack by stack, with all packets accounted for; a packet that goes and that nobody else holds is deleted |
| `StacksRules.StacksRule.ClearState` | TRex2-lib/src/Engine/StacksRule.cc:538-547 | Expiry of one state's stack against the oldest packet of the state it refers to |
| `StacksRules.StacksRule.ClearNegation` | TRex2-lib/src/Engine/StacksRule.cc:548-558 | Expiry of one negation's stack, by the window of its lower state when it is between states |
| `StacksRules.StacksRule.ClearAggregate` | TRex2-lib/src/Engine/StacksRule.cc:559-571 | Expiry of one aggregate's stack |
| `StacksRules.RemoveOldPacketsFromStack` | TRex2-lib/src/Engine/StacksRule.cc:574-588 | Leaves exactly the unexpired packets and releases one reference for each packet removed |
| `Consumption.ConsumedOnce` | TRex2-lib/src/Engine/StacksRule.cc:501-527 | Along every run of distinct packets, a packet bound to a consuming state by one publication is bound to that state by no later one |
| `Consumption.ConsumedLeaves` | TRex2-lib/src/Engine/StacksRule.cc:501-527 | A packet that a match binds to a consuming state is not in that state's stack afterwards |
| `Consumption.StaysGone` | TRex2-lib/src/Engine/StacksRule.cc:136-188 | A packet that has left a stack does not come back unless it is published again |
| `Consumption.EmittedMember` | TRex2-lib/src/Engine/StacksRule.cc:262-337 | A match binds only packets stored for the state, or the published one |
| `StacksRules.StacksRule.RemoveConsumedEvent` | TRex2-lib/src/Engine/StacksRule.cc:501-527 | Removes from the consuming states other than the terminator exactly the packets bound by some match, keeping order and size counters |
| `StacksRules.StacksRule.ConsumeState` | TRex2-lib/src/Engine/StacksRule.cc:501-527 | The same for one state, releasing one reference for each packet removed |
| `StacksRules.EraseAll` | TRex2-lib/src/Engine/StacksRule.cc:512-524 | Erasing one by one while stepping through the vector leaves the others in order and the size in step |
| `ParameterLimits.PushdownIsExact` | TRex2-lib/src/Engine/StacksRule.cc:286-303 | For every rule: checking each parameter at its last state yields the list of the rule without parameters, filtered by every parameter whose last state is not 0, for all stacks of packets of the right types and all operations on what packets hold, if and only if every FIRST or LAST state has no parameter of its own or some window holds no packet |
| `Parameters.PushdownExact` | TRex2-lib/src/Engine/StacksRule.cc:286-303 | When every FIRST or LAST state has no parameter of its own, the list is that of the rule without parameters, filtered by every parameter whose last state is not 0 |
| `ParameterLimits.FilterOnRunsIsExact` | TRex2-lib/src/Engine/StacksRule.cc:286-303 | Over the runs the engine can receive the same two equivalences hold for every rule whose states have packets of their own, whatever these hold under the names that parameters read |
| `ParameterLimits.PlainIsGradable` | TRex2-lib/src/Engine/StacksRule.cc:286-303 | Every rule without constraints whose states, negations and aggregates have different event types has such packets |
| `ParameterLimits.FilterFails` | TRex2-lib/src/Engine/StacksRule.cc:286-303 | For a rule that violates the condition, operations and a run the engine can receive on which the list and the filter differ |
| `ParameterLimits.FirstFails` | TRex2-lib/src/Engine/StacksRule.cc:286-303 | The smallest such rule with integer comparison, a terminator and one FIRST state, with two candidates whose attribute differs: the later one passes and is detected, but filtering afterwards would lose it |
| `ParameterLimits.PushdownOfAllIsExact` | TRex2-lib/src/Engine/StacksRule.cc:398-411 | For every rule: it is that list filtered by all parameters if and only if, besides, no parameter reads the terminator alone, or some window holds no packet: such parameters are never checked |
| `Parameters.PushdownOfAllParameters` | TRex2-lib/src/Engine/StacksRule.cc:398-411 | On given stacks it is so if and only if the list is empty or the terminator satisfies the parameters that read no other state |
| `Parameters.EvalIsValue` | TRex2-lib/src/Common/Funs.cc:572-629 | Evaluating an operation tree on the candidate and the states bound so far is evaluating it on any match that extends them: an unbound state is never read |
| `MatchMeaning.ParamsAreValues` | TRex2-lib/src/Common/Funs.cc:572-629 | The parameters of a negation or an aggregate hold of a packet if and only if each comparison does of the values of its two trees, in that order, which read the packet for the negation or aggregate and the bound states otherwise |
| `RulePackets.LastStateReadable` | TRex2-lib/src/Packets/RulePkt.cc:134-151 | Below its last state everything a tree reads is bound when it is checked |
| `RulePackets.RulePkt.AddRootPredicate` | TRex2-lib/src/Packets/RulePkt.cc:71-88 | Accepted exactly for an empty rule; the root refers to no state and has no window |
| `RulePackets.RulePkt.AddPredicate` | TRex2-lib/src/Packets/RulePkt.cc:90-109 | Accepted exactly when there is a root and the reference is to an earlier state or negative; the rule stays well formed exactly when it is not negative |
| `RulePackets.RulePkt.AddNegation` | TRex2-lib/src/Packets/RulePkt.cc:497-522 | Accepted exactly when the states exist and the lower is after the upper; the rule stays well formed |
| `RulePackets.RulePkt.AddNegationBetweenStates` | TRex2-lib/src/Packets/RulePkt.cc:117-123 | The states may be given in either order; equal ones are refused |
| `RulePackets.RulePkt.AddAggregate` | TRex2-lib/src/Packets/RulePkt.cc:554-581 | The same acceptance for aggregates |
| `RulePackets.RulePkt.AddAggregateBetweenStates` | TRex2-lib/src/Packets/RulePkt.cc:384-392 | The same orientation for aggregates |
| `RulePackets.RulePkt.AddComplexParameter` | TRex2-lib/src/Packets/RulePkt.cc:337-364 | Registers the parameter under the last state it reads and refuses one that reads none; the rule stays well formed exactly when only existing states are read, and no negation or aggregate |
| `RulePackets.RulePkt.AddComplexParameterForAggregate` | TRex2-lib/src/Packets/RulePkt.cc:191-220 | Registers the parameter under the last aggregate it reads; the rule stays well formed exactly when that aggregate exists and the states read exist |
| `RulePackets.RulePkt.AddComplexParameterForNegation` | TRex2-lib/src/Packets/RulePkt.cc:222-253 | Registers the parameter under the last negation it reads; the rule stays well formed exactly when that negation exists and the states read are bound when it is checked |
| `RulePackets.RulePkt.AddConsuming` | TRex2-lib/src/Packets/RulePkt.cc:394-401 | Accepts existing states only |
| `RulePackets.RulePkt.GetWinBetween` | TRex2-lib/src/Packets/RulePkt.cc:453-461 | The total window along the references, whose walk terminates |
| `RulePackets.RulePkt.GetReferenceCount` | TRex2-lib/src/Packets/RulePkt.cc:583-593 | A state's count is the number of predicates that refer to it |
| `RulePackets.RulePkt.GetMaxWin` | TRex2-lib/src/Packets/RulePkt.cc:442-451 | The maximum over the leaves bounds the window total of every state, and is attained |
| `RulePackets.RulePkt.IsInTheSameSequence` | TRex2-lib/src/Packets/RulePkt.cc:471-485 | True exactly when the references from the larger state lead to the smaller one |
| `RulePackets.LeafBelow` | TRex2-lib/src/Packets/RulePkt.cc:442-451 | Every state has a leaf below it whose window total is at least as large |
| `RulePackets.SpanBound` | TRex2-lib/src/Engine/StacksRule.cc:270-277 | In every match, state i lies less than the window total from i to the root before the terminator |
| `Aggregates.ComputeAggregate` | TRex2-lib/src/Engine/CompositeEventGenerator.cc:288-366 | The value is the named function of the contributions of exactly the packets strictly inside the window that pass the parameters; an empty window gives 0 for COUNT and undefined otherwise |
| `Aggregates.FoldWindow` | TRex2-lib/src/Engine/CompositeEventGenerator.cc:322-352 | The accumulators hold sum, number, least and greatest of the contributions seen |
| `Aggregates.AggregateUnique` | TRex2-lib/src/Engine/CompositeEventGenerator.cc:353-365 | A window and a function determine one value |
| `MatchMeaning.AggregateIsSpelled` | TRex2-lib/src/Engine/CompositeEventGenerator.cc:288-366 | The value of an aggregate is the named function of what the packets inside add: those strictly between its two states, or before its upper state by less than its time, of which each parameter holds; an integer adds itself, a float its value, and anything else or nothing adds 0 |
| `Purging.AggregateSame` | TRex2-lib/src/Engine/StacksRule.cc:559-571 | Purging does not change the value of a time-based aggregate of any match |
| `StacksRules.StacksRule.CreateComplexEvents` | TRex2-lib/src/Engine/StacksRule.cc:483-499 | One composite event for each match, with the value of every aggregate |
| `StacksRules.StacksRule.GenerateCompositeEvent` | TRex2-lib/src/Engine/CompositeEventGenerator.cc:34-80 | The composite event has the terminator's time stamp and the value of every aggregate, spelled out |
| `StacksRules.ParametricAddToStack` | TRex2-lib/src/Engine/StacksRule.cc:175-188 | The packet goes after all packets that are not later; the stack stays sorted, the size in step, and the packet gains one reference |
| `StacksRules.StacksRule.AddToStack` | TRex2-lib/src/Engine/StacksRule.cc:136-138 | Stores the packet in a state's stack |
| `StacksRules.StacksRule.AddToAggregateStack` | TRex2-lib/src/Engine/StacksRule.cc:140-142 | Stores the packet in an aggregate's stack |
| `StacksRules.StacksRule.AddToNegationStack` | TRex2-lib/src/Engine/StacksRule.cc:144-146 | Stores the packet in a negation's stack |
| `StacksRules.StacksRule.StartComputation` | TRex2-lib/src/Engine/StacksRule.cc:148-173 | Push, purge, detect, generate, consume and pop together are the terminator step of the specification; references and stored occurrences change together, and a packet that goes and that nobody else holds is deleted |
| `StacksRules.StacksRule.PushTerminator` | TRex2-lib/src/Engine/StacksRule.cc:149-153 | The terminator's own stack holds just the terminator, which gains a reference |
| `StacksRules.StacksRule.PopTerminator` | TRex2-lib/src/Engine/StacksRule.cc:167-171 | The terminator's own stack is empty again and the reference dropped |
| `StacksRules.StacksRule.ProcessPkt` | TRex2-lib/src/Engine/TRexEngine.cc:55-88 | One publication through one rule: negations, aggregates and states are stored first and the terminator handled last, which is the step of the specification |
| `StacksRules.PacketPool.IncRefCount` | TRex2-lib/src/Packets/PubPkt.cc:92-100 | Adds one reference to a live packet |
| `StacksRules.PacketPool.DecRefCount` | TRex2-lib/src/Packets/PubPkt.cc:102-112 | Drops one reference and tells whether it was the last |
| `StacksRules.PacketPool.Release` | TRex2-lib/src/Engine/StacksRule.cc:578-584 | Whoever drops the last reference deletes the packet: every packet is referenced or deleted, never both |
| `Engine.TRexEngine.FreedExactly` | TRex2-lib/src/Engine/TRexEngine.cc:198-283 | Between publications a packet's count is the number of its occurrences in all stacks of all rules, and it is deleted exactly when there is none |
| `Engine.TRexEngine.ProcessRule` | TRex2-lib/src/Engine/TRexEngine.cc:55-88 | One rule's stacks and the reference counts change together, the other rules keep their stacks, and one composite event is generated for each match, in order |
| `Engine.TRexEngine.Publish` | TRex2-lib/src/Engine/CompositeEventGenerator.cc:34-80 | Each composite event becomes one new packet, in order, with its time stamp and the content given for it |
| `Engine.TRexEngine.RunRules` | TRex2-lib/src/Engine/TRexEngine.cc:54-90 | Every rule takes its step on the packet once, and the result is, rule by rule, one packet for each match with the time stamp of the packet that completed it |
| `Engine.TRexEngine.Round` | TRex2-lib/src/Engine/TRexEngine.cc:198-283 | One engine round moves the stacks, the recursion depth, the notifications and the history as prescribed, for any order in which the results are handled, feeds back everything it reports until the depth reaches 10, and returns with the books balanced and the packet released |
| `Engine.TRexEngine.HandleResult` | TRex2-lib/src/Engine/TRexEngine.cc:274-281 | A result goes through the rules as a copy, with everything that leads to, unless the depth is 10, and is then dropped; an engine without recursion only drops it |
| `Engine.TRexEngine.RoundSpreads` | TRex2-lib/src/Engine/TRexEngine.cc:267-281 | What a round of a recursive engine reports, at any depth, goes through the rules too, but for the identifier, or the depth reaches 10; and while it does not, the packets that go through the rules are as many as were published and reported |
| `Engine.TRexEngine.ProcessPubPkt` | TRex2-lib/src/Engine/TRexEngine.cc:285-287 | One external publication moves the engine as the rounds prescribe, leaves exact counts and costs at most eleven rounds; a recursive engine feeds back everything it reports and nothing else until the depth reaches 10 |
| `Meaning.EmittedIsDeclared` | TRex2-lib/src/Engine/TRexEngine.cc:55-88 | Along every run the engine can receive, what a publication makes a rule report is, without duplicates, exactly what the history of packets declares: the packet passes the naive check of state 0 and completes a match of packets that passed the checks of the others and that no earlier declared match has used up. Time-based aggregates are those over everything that has passed for them. It needs the condition under which purging is invisible |
| `Meaning.StoredIs` | TRex2-lib/src/Engine/StacksRule.cc:136-188 | Without expiry every stack holds exactly the packets that have passed its naive check and that no declared match has used up, in order |
| `Reports.RoundTold` | TRex2-lib/src/Engine/TRexEngine.cc:198-283 | From the index to the listeners: along a publication, at any depth of the recursion, the listeners are told of each packet that goes through the rules, published or derived, exactly one packet for each match that the history up to it declares, rule by rule |
| `Reports.StartTold` | TRex2-lib/src/Engine/TRexEngine.cc:285-287 | An engine that has received nothing has told its listeners just what its empty history declares, so that this holds from the start |
| `Reports.ProcessPubPkt` | TRex2-lib/src/Engine/TRexEngine.cc:285-287 | Publishing in time order keeps everything the listeners were ever told exactly what the history declares |
| `Reports.Consult` | TRex2-lib/src/Engine/IndexingTable.cc:125-142 | What an engine wired to the indexing table is told of a rule is what asking the table answers |
| `Engine.ResultsStamped` | TRex2-lib/src/Engine/CompositeEventGenerator.cc:34-80 | Every composite event carries the time stamp of the packet that completed it |
| `Engine.TRexEngine.AllStamped` | TRex2-lib/src/Engine/TRexEngine.cc:267-281 | Everything a publication makes the engine report, at any depth of the recursion, carries the publication's own time stamp |
| `Workers.ProtocolSafe` | TRex2-lib/src/Engine/TRexEngine.cc:34-98 | Under every interleaving: a worker's memory is written only while it waits, a working worker finds the current event in it whenever it reads, results are collected only after all workers have finished, and each event is handled and collected exactly once and in order |
| `Workers.NoDeadlock` | TRex2-lib/src/Engine/TRexEngine.cc:214-233 | During a publication some thread can always take a step: no deadlock and no lost wakeup |
| `Workers.RoundEnds` | TRex2-lib/src/Engine/TRexEngine.cc:214-252 | A measure bounds the number of steps of every publication |
| `Workers.Completes` | TRex2-lib/src/Engine/TRexEngine.cc:214-252 | From every reachable state the publication can be driven to its end |
| `Workers.IdleStarts` | TRex2-lib/src/Engine/TRexEngine.cc:198-233 | Whenever the publisher is idle it can start on the next event |
| `Workers.EveryEvent` | TRex2-lib/src/Engine/TRexEngine.cc:198-252 | Any number of events can be published one after the other, and then every worker has handled exactly these in order and all its results have been collected |
| `Workers.RunInv` | TRex2-lib/src/Engine/TRexEngine.cc:34-98 | The invariant over program counters, mutexes and the countdown holds after every sequence of steps |
| `Workers.PartitionExact` | TRex2-lib/src/Engine/TRexEngine.cc:186-191 | Every rule lies in exactly one worker's range, for any number of rules and workers |
| `Workers.EachRuleOnce` | TRex2-lib/src/Engine/TRexEngine.cc:137-160 | Between publications each rule has been given every event exactly once, by the one worker that serves it |
| `IndexingTables.IndexingTable.HandlerIsNaive` | TRex2-lib/src/Engine/IndexingTable.cc:33-70 | A state, aggregate or negation of an installed rule is in the handler if and only if the event has its type and satisfies each of its constraints, and no two of its constraints are the same |
| `IndexingTables.MeetsIsSatisfies` | TRex2-lib/src/Engine/IntConstraintIndex.cc:47-110 | What the index compares is what a constraint means: integers by the operator, floats by the operator on their rank, booleans by equality, and never values of different types |
| `IndexingTables.RepeatsIsExact` | TRex2-lib/src/Engine/IntConstraintIndex.cc:112-122 | The index takes two constraints for one if and only if they agree in name, operator and value |
| `IndexingTables.IndexingTable.ProcessMessage` | TRex2-lib/src/Engine/IndexingTable.cc:125-142 | Through all indexes with shared counters, the handler holds exactly the installed predicates that match |
| `IndexingTables.IndexingTable.InstallRulePkt` | TRex2-lib/src/Engine/IndexingTable.cc:33-70 | All states, aggregates and negations of a rule become known, and the other rules stay as they were |
| `IndexingTables.IndexingTable.InstallTablePredicate` | TRex2-lib/src/Engine/IndexingTable.cc:72-80 | Connects a predicate to exactly its constraints, or to none |
| `IndexingTables.InstallConstraint` | TRex2-lib/src/Engine/IntConstraintIndex.cc:33-45 | Equal constraints are shared: exactly the given predicate is added to the users of exactly this constraint |
| `IndexingTables.CountReaches` | TRex2-lib/src/Engine/IntConstraintIndex.cc:154-168 | Counting satisfied distinct constraints reaches the number of constraints exactly when all are satisfied and no two are the same |
| `IndexingTables.IndexingTable.ReachedIsMatching` | TRex2-lib/src/Engine/IntConstraintIndex.cc:154-168 | A counter reaches its target exactly for the predicates that match |
| `Indexing.ProcessConstraint` | TRex2-lib/src/Engine/IntConstraintIndex.cc:154-168 | Every connected predicate is counted once, and added when its counter reaches its number of constraints |
| `Indexing.TallyStep` | TRex2-lib/src/Engine/IntConstraintIndex.cc:154-168 | Each counter is the number of the predicate's constraints satisfied so far, and the handler holds those that have reached their number |
| `Indexing.ScanDown` | TRex2-lib/src/Engine/IntConstraintIndex.cc:66-83 | The descending scan with early exit counts exactly the satisfied LT or LE constraints |
| `Indexing.ScanUp` | TRex2-lib/src/Engine/IntConstraintIndex.cc:84-100 | The ascending scan with early exit counts exactly the satisfied GT or GE constraints |
| `Indexing.ScanOthers` | TRex2-lib/src/Engine/IntConstraintIndex.cc:101-109 | The scan that skips the value counts exactly the satisfied NE constraints |
| `Indexing.ProcessOrdered` | TRex2-lib/src/Engine/IntConstraintIndex.cc:47-110 | One attribute through all operator tables counts each satisfied constraint once |
| `Indexing.ProcessBool` | TRex2-lib/src/Engine/BoolConstraintIndex.cc:46-72 | The two lookups, of the value and of its negation, count exactly the satisfied EQ and NE constraints |
| `Indexing.AddToMatchingHandler` | TRex2-lib/src/Engine/AbstractConstraintIndex.cc:26-62 | Adds exactly the predicate's slot to the right map of the handler |
| `IndexingTables.IndexingTable.ProcessFree` | TRex2-lib/src/Engine/NoConstraintIndex.cc:34-39 | The handler starts with exactly the predicates of the event's type that have no constraints |
| `StringIndexing.StringConstraintIndex.InstallConstraint` | TRex2-lib/src/Engine/StringConstraintIndex.cc:33-45 | A predicate is connected to its constraint on a string and to nothing else if and only if the operator has a table and no constraint on this attribute with this operator is in use yet, or the predicate is connected to an equal one already |
| `StringIndexing.StringConstraintIndex.GetConstraint` | TRex2-lib/src/Engine/StringConstraintIndex.cc:76-87 | Finds a constraint of the same name and operator but with another value |
| `StringIndexing.Created` | TRex2-lib/src/Engine/StringConstraintIndex.cc:97-109 | A constraint that is put into use while an equal one is in a table is never reached: the table keeps its entry |
| `StringIndexing.Shared` | TRex2-lib/src/Engine/StringConstraintIndex.cc:76-87 | A predicate that shares a constraint with another value is never counted for its own |
| `WireRoundTrip.RuleRoundTrip` | TRex2-lib/src/Marshalling/Unmarshaller.cc:64-98 | Decoding the Java encoding of a rule, whatever order the tables and the consuming set were written in and whatever comes before and after it, yields the original and stops at its end, if and only if no name holds a NUL or overflows its buffer |
| `WireRoundTrip.PubRoundTrip` | TRex2-lib/src/Marshalling/Unmarshaller.cc:157-173 | A publication comes back with its time stamp, or with the current time when it had none, under the same condition |
| `Delivery.AllDelivered` | TRex-Server/src/Packet/BufferedPacketUnmarshaller.cpp:56-116 | Rules and publications sent one after the other and cut in any way reach the server as so many packets in order, with nothing left over, and each is decoded by its type into what was sent |
| `Delivery.SaysWhatWasSent` | TRex-Server/src/Packet/BufferedPacketUnmarshaller.cpp:79-97 | A packet is decoded into what was sent if and only if the names in it are clean |
| `Delivery.SendRule` | TRex-Java-client/src/polimi/trex/marshalling/Marshaller.java:77-81 | The array built of a rule is one packet, which the server reads as that rule |
| `Delivery.SendPub` | TRex-Java-client/src/polimi/trex/marshalling/Marshaller.java:71-75 | The array built of a publication is one packet, which the server reads as that publication |
| `Delivery.Codes` | TRex2-lib/src/Common/Consts.h:166-210 | Every enumeration is sent as the place of its member in the header, and the server knows exactly the five packet types |
| `Delivery.Limits` | TRex2-lib/src/Common/Consts.h:49-56 | Names and strings of constraints have room for 15 bytes, those of attributes for 14 |
| `Delivery.SampleSent` | TRex-Java-client/src/polimi/trex/marshalling/Marshaller.java:144-151 | The same publication as sent: packet type, length and body |
| `Delivery.SampleBody` | TRex-Java-client/src/polimi/trex/marshalling/Marshaller.java:144-151 | The bytes of one publication with one attribute |
| `WireRoundTrip.TreeBack` | TRex2-lib/src/Marshalling/Unmarshaller.cc:318-330 | An operation tree is read back to itself |
| `WireRoundTrip.EntriesBack` | TRex2-lib/src/Marshalling/Unmarshaller.cc:65-96 | Every key is read once and nothing is lost, for every order of the keys |
| `WireRoundTrip.StringBack` | TRex2-lib/src/Marshalling/Unmarshaller.cc:416-425 | A string comes back up to its first NUL |
| `WireRoundTrip.IntBack` | TRex2-lib/src/Marshalling/Unmarshaller.cc:386-392 | A 32-bit integer is read back to itself |
| `WireRoundTrip.LongBack` | TRex2-lib/src/Marshalling/Unmarshaller.cc:403-414 | A 64-bit time is read back to itself |
| `WireRoundTrip.BytesBack` | TRex-Java-client/src/polimi/trex/marshalling/Marshaller.java:456-487 | The bytes of an integer, read back, are the integer modulo the width |
| `Marshaller.GetByteArrayOfRule` | TRex-Java-client/src/polimi/trex/marshalling/Marshaller.java:77-81 | The array is exactly as long as the packet: type, length of the body, body; every write is in bounds |
| `Marshaller.GetByteArrayOfPub` | TRex2-lib/src/Marshalling/Marshaller.cc:166-177 | The same for publications, which both clients write alike |
| `Marshaller.NumBytesRule` | TRex-Java-client/src/polimi/trex/marshalling/Marshaller.java:101-111 | The size is that of the encoding, in every order of the keys |
| `Marshaller.NumBytesPub` | TRex-Java-client/src/polimi/trex/marshalling/Marshaller.java:136-142 | The size is that of the encoding |
| `Marshaller.NumBytesTree` | TRex-Java-client/src/polimi/trex/marshalling/Marshaller.java:359-371 | The size of a tree is that of its encoding |
| `Marshaller.NumBytesTable` | TRex-Java-client/src/polimi/trex/marshalling/Marshaller.java:628-639 | The size of a keyed table is that of its encoding in every order of its keys |
| `Marshaller.NumBytesCollection` | TRex-Java-client/src/polimi/trex/marshalling/Marshaller.java:603-613 | The size of a collection is that of its encoding |
| `Marshaller.EncodeInt` | TRex-Java-client/src/polimi/trex/marshalling/Marshaller.java:456-462 | Writes the four bytes, most significant first, and advances past them |
| `Marshaller.EncodeLong` | TRex-Java-client/src/polimi/trex/marshalling/Marshaller.java:477-487 | Writes the eight bytes, most significant first, and advances past them |
| `Marshaller.EncodeString` | TRex-Java-client/src/polimi/trex/marshalling/Marshaller.java:493-500 | Writes the length and the characters |
| `Marshaller.EncodeTree` | TRex-Java-client/src/polimi/trex/marshalling/Marshaller.java:373-384 | Appends the encoding of the tree to what is written already |
| `Marshaller.EncodeCollection` | TRex-Java-client/src/polimi/trex/marshalling/Marshaller.java:615-626 | Appends the number of elements and each element |
| `Marshaller.EncodeTable` | TRex-Java-client/src/polimi/trex/marshalling/Marshaller.java:641-653 | Appends the number of entries and each entry once, in some order of the keys |
| `Marshaller.EncodeRuleBody` | TRex-Java-client/src/polimi/trex/marshalling/Marshaller.java:123-134 | Appends predicates, parameters, aggregates, negations, template and consuming set, in this order |
| `Marshaller.SomeEntries` | TRex-Java-client/src/polimi/trex/marshalling/Marshaller.java:628-639 | The size of a table does not depend on the order of its keys, and a part is not larger than the whole |
| `Unmarshaller.DecodeInt` | TRex2-lib/src/Marshalling/Unmarshaller.cc:386-392 | The shifted bytes are the signed integer of the format |
| `Unmarshaller.DecodeLong` | TRex2-lib/src/Marshalling/Unmarshaller.cc:403-414 | The shifted bytes are the integer of the format |
| `Unmarshaller.DecodeString` | TRex2-lib/src/Marshalling/Unmarshaller.cc:416-425 | Copies the announced number of characters, of which those before the first NUL count |
| `Unmarshaller.DecodeTree` | TRex2-lib/src/Marshalling/Unmarshaller.cc:318-330 | Reads the tree of the format and advances past it |
| `Unmarshaller.DecodeRef` | TRex2-lib/src/Marshalling/Unmarshaller.cc:346-369 | Reads the reference of the format; an aggregate reference with the empty name is the nameless one |
| `Unmarshaller.DecodeCollection` | TRex2-lib/src/Marshalling/Unmarshaller.cc:244-250 | The loop reads exactly the announced elements |
| `Unmarshaller.DecodeTable` | TRex2-lib/src/Marshalling/Unmarshaller.cc:65-71 | The loop inserts each announced entry; a repeated key keeps its first entry |
| `Unmarshaller.DecodeTables` | TRex2-lib/src/Marshalling/Unmarshaller.cc:64-98 | Reads all tables of a rule and advances past them |
| `Unmarshaller.DecodePubPkt` | TRex2-lib/src/Marshalling/Unmarshaller.cc:157-173 | Reads a publication; a missing time stamp becomes the current time |
| `RuleLoading.LoadedIsMeant` | TRex2-lib/src/Marshalling/Unmarshaller.cc:99-154 | The engine's rule is the rule that was sent if and only if the sender left the fields that are not taken over at their defaults: the root's window, negative state numbers, and times and indexes the engine sets itself |
| `RuleLoading.BuildRulePkt` | TRex2-lib/src/Marshalling/Unmarshaller.cc:99-154 | Builds the rule from the decoded tables, in ascending order of the keys: predicates, aggregates, negations, parameters, consuming set |
| `RuleLoading.AddEntry` | TRex2-lib/src/Marshalling/Unmarshaller.cc:100-149 | Each entry goes through the matching add operation |
| `RuleLoading.Transfer` | TRex2-lib/src/Marshalling/Unmarshaller.cc:29-32 | Encoding, decoding and building together make the rule the tables describe |
| `Framing.ChunkingIndependence` | TRex-Server/src/Packet/BufferedPacketUnmarshaller.cpp:56-116 | An unknown type byte raises an exception whatever the chunks or never; without one, packets and leftover buffer do not depend on the chunks; with one, what was handed over before is a beginning of the stream's packets |
| `Framing.CutIsExact` | TRex-Server/src/Packet/BufferedPacketUnmarshaller.cpp:56-116 | The packets cut off a buffer are the one way to read it as whole frames and a rest that is no frame; it is an exception if and only if the rest begins with an unknown type byte |
| `Framing.AllHandedOver` | TRex-Server/src/Packet/BufferedPacketUnmarshaller.cpp:106-116 | Every way of chunking hands over all packets if and only if the stream is not one or more whole packets followed by an unknown type byte: packets cut in the same call as the exception are lost |
| `Framing.StreamArrives` | TRex-Server/src/Packet/BufferedPacketUnmarshaller.cpp:56-116 | Valid packets, cut in any way, arrive in order with nothing left over |
| `Framing.WaitingIsPartial` | TRex-Server/src/Packet/BufferedPacketUnmarshaller.cpp:71-80 | What waits in the buffer is a strict beginning of a frame that the right bytes complete, if and only if the announced length is not negative; otherwise no bytes ever do |
| `Framing.BufferedPacketUnmarshaller.UnmarshalOne` | TRex-Server/src/Packet/BufferedPacketUnmarshaller.cpp:56-104 | Takes one whole frame off the buffer, or leaves it untouched |
| `Framing.BufferedPacketUnmarshaller.UnmarshalAll` | TRex-Server/src/Packet/BufferedPacketUnmarshaller.cpp:106-116 | Takes all whole frames off the buffer and terminates; an exception loses them |
| `Framing.CutInTwo` | TRex-Server/src/Packet/BufferedPacketUnmarshaller.cpp:106-116 | Cutting a front and then what is left with the rest is cutting the whole |
| `Ring.GetFirstValidElementCircular` | TRex2-lib/src/Common/Funs.cc:344-377 | On a non-empty window, wrapped or not, the slot of the first element later than the bound, or -1 |
| `RingSearch.SearchIsExact` | TRex2-lib/src/Common/Funs.cc:379-415 | For every window and every slot of it: searched from there, the search finds the last element earlier than the bound for all contents and all bounds if and only if the window is not wrapped; or it is searched from its low bound and does not end at slot 0, unless it is the ring's last slot alone; or it is searched from below its high bound and the halving comes past the last element and from there over the free slots |
| `RingSearch.GetLastValidElementCircular` | TRex2-lib/src/Common/Funs.cc:379-415 | On every window, what the code finds; -1 exactly when the element searched from is not earlier; on the windows above the slot of the last element earlier than the bound |
| `RingSearch.NarrowSplits` | TRex2-lib/src/Common/Funs.cc:396-414 | On a stretch of slots whose first are earlier than the bound and whose others are not, the halving ends at the boundary |
| `RingSearch.NarrowIsLast` | TRex2-lib/src/Common/Funs.cc:396-414 | Between an element of the window that is earlier and one that is not, or the last, it ends at the last earlier one |
| `RingSearch.SearchedFromInside` | TRex2-lib/src/Common/Funs.cc:385-388 | A wrapped window searched from inside, on which the answer is wrong |
| `RingSearch.EndsAtZero` | TRex2-lib/src/Common/Funs.cc:393-394 | A window that ends at slot 0, on which a slot outside the ring is read |
| `Ring.DeleteInvalidElementsCircular` | TRex2-lib/src/Common/Funs.cc:417-439 | Drops exactly the elements not later than the bound and returns the new size |
| `Ring.Stack.AddEventToStack` | TRex2-lib/src/Engine/GPU/GPUProcessor.cc:518-535 | Appends to the unrolled window, or drops the event when the ring is full; events in time order keep the window sorted |
| `Ring.Stack.DeleteExpired` | TRex2-lib/src/Engine/GPU/GPUProcessor.cc:577-596 | Leaves an empty window alone and drops exactly the expired elements otherwise |
| `Ring.ExpiredIsExact` | TRex2-lib/src/Common/Funs.cc:344-377 | In a sorted window the expired elements are exactly those not later than the bound |
| `GpuTrees.PreorderIsFaithful` | TRex2-lib/src/Packets/RulePkt.cc:284-335 | Two trees fill the array with the same cells if and only if they differ in nothing but what the cells do not hold: value types of nodes, boolean and string constants, names of aggregates |
| `GpuTrees.CellShows` | TRex2-lib/src/Packets/RulePkt.cc:284-335 | Every cell of the array shows the root of its subtree, the root of the tree first, then the left and the right subtree: the operation, the constant, or the reference, with states counted from the last one |
| `GpuTrees.ReadBack` | TRex2-lib/src/Packets/RulePkt.cc:284-335 | Reading the array gives the tree back, up to what the cells do not hold |
| `GpuTrees.CountBound` | TRex2-lib/src/Packets/RulePkt.cc:255-262 | A tree has no more nodes than a full tree of the depth found |
| `GpuTrees.FullFits` | TRex2-lib/src/Packets/RulePkt.cc:264-275 | The cells cleared for a depth lie inside the arrays if and only if the depth is within the limit |
| `GpuTrees.SerializeNode` | TRex2-lib/src/Packets/RulePkt.cc:284-335 | Writes the nodes of the tree, root first, and leaves the other cells alone |
| `GpuTrees.SerializeTrees` | TRex2-lib/src/Packets/RulePkt.cc:264-282 | Each array holds its tree, then cleared cells up to those of a full tree of the depth, then what it held before; trees no deeper than the limit fit |

## Left out

- Simple parameters and the final filter over partial events: the constructor and the check pair the names with opposite events (TRex2-lib/src/Engine/StacksRule.cc:74-76 and 425-432), so that they mean something only when both names are equal.
- What boolean, string and float evaluation of parameters computes: EQ and NE on booleans are AND and OR in the code; the model keeps all of them as arbitrary functions.
- What is read by a state parameter that also reads a negation, an aggregate or a negative index: such a rule is not well formed here.
- IndexingTables.IndexingTable.HandlerIsNaive: for rules without string constraints; what is known of a rule says nothing when it has one.
- IndexingTables.IndexingTable.ProcessMessage: the string index takes no part.
- IndexingTables.IndexingTable.InstallRulePkt: rules without string constraints only.
- IndexingTables.IndexingTable.InstallTablePredicate: predicates without string constraints only.
- Messages through the string index, IN on numbers, and operators other than EQ and NE on booleans, which share one table there.
- Events with repeated attribute names in the index, and runs that contain them.
- Reports.RoundTold: publications in time order and rules whose purging is invisible only; for the others the engine tells what the purged stacks give, Engine.TRexEngine.ProcessPubPkt. Between-state aggregates are as in Purging.PurgingInvisible.
- Meaning.EmittedIsDeclared: the same.
- Purging.PurgingInvisible: compares time-based aggregates only; a between-state aggregate is purged by the wall-clock time of its creation.
- StacksRules.StacksRule.CreateComplexEvents: only the time stamp and the aggregates' values of a composite event; the event type and the attribute trees are the parameter `content` of the engine.
- StacksRules.StacksRule.GenerateCompositeEvent: the same; the attribute trees and static attributes are not evaluated.
- StacksRules.StacksRule.StartComputation: without the final filter by simple parameters.
- Aggregates.ComputeAggregate: values are exact real numbers, so that float rounding and overflow are outside the contract.
- Aggregates.FoldWindow: the accumulators are exact real numbers where the source has floats.
- Float constraints are compared by an arbitrary order of the bit patterns.
- Reference counts are unbounded, packets are identified by a number instead of an address, and the mutex inside each packet is not modelled; the copying mode of the engine is left out.
- Engine.TRexEngine.RunRules: takes the rules in one sequence and lists the results in the order of the rules, where the source keeps a set; that the workers give every rule every event once, in order, is Workers.EachRuleOnce.
- Engine.TRexEngine.ProcessPubPkt: the answer of the indexing table and the content of composite events are parameters; that the table answers as IndexingTables.IndexingTable.HandlerIsNaive says is the premise `Indexed` of Reports.RoundTold.
- Workers.ProtocolSafe: one publisher, no spurious wakeups, all workers waiting at the start; the start-up race hidden by a sleep, rules added between publications and the end of the threads are left out.
- Characters beyond one byte: the Java side writes the low byte of each character, and names are bytes here.
- RuleLoading.BuildRulePkt: one clock reading serves all between-state negations and aggregates of a rule.
- Subscriptions, advertisements, joins, and the C++ encoder for rules, which is not the inverse of the decoder.
- Framing.BufferedPacketUnmarshaller.UnmarshalOne: a packet is its type byte and its bytes; the decoders of bodies are in WireFormat, and what a connection does after an exception is left out.
- GpuTrees.SerializeTrees: trees no deeper than the limit only; the code takes deeper ones too and then clears cells past the arrays (GpuTrees.FullFits).
- Ring.Stack.DeleteExpired: the bound is a parameter; the code computes it from the terminator or from the oldest event of the state referred to.
- Searches on an empty ring window, removal from a ring, and the CUDA kernels.
- Sockets, timers, logging, tracing, the HTTP proxy, the command-line client, the rule parser, the routing table and the Java decoders.
