# Verification of the architecture engines

A Dafny model of the parts of the repository whose correctness rests on graph algorithms, on mutable
state that many steps change, or on two components agreeing. To check the project, run
`dafny verify dfyconfig.toml` here with Dafny 4.11.

**Migration planning** (`Reachability`, `StepGraph`, `Components`, `Cycles`, `CycleSearch`, `Ordering`,
`OrderFacts`, `Levels`; `Plan`, `PlanRank`, `PlanSteps`, `PlanOrder`, `Planner`, `PlanFacts`, `PlanMeanings`).
The dependency graph finds cycles with an iterative Tarjan search, orders steps by Kahn's algorithm, and puts
them in levels. The generator drafts steps by key, overwriting and extending drafts as it goes. A rank for every
shape of step shows that no plan can hold a cycle, so that levelling a generated plan never fails; the order
across data moves, switches and retirements is then proved on the graph the plan is built into, and the plan is
determined from the context alone: which steps it holds, and which of them each waits for.

**Demand propagation** (`Traffic`, `Propagation`, `TrafficFacts`, `TrafficPaths`, `TrafficBounds`,
`TrafficMeanings`). Demand spreads over a multigraph of flows, marks what it cannot know, and drops what is on
or after a cycle. The result is shown to solve equations that do not mention the order nodes were taken in, to
be the sum over all paths from the entries, and to bound the truth from below where something is not declared.

**Discovery and drift** (`Discovery`, `Proposal`, `NodeMatching`, `ConnectionMatching`, `MatchingFacts`,
`Comparison`, `DriftFacts`, `OwnDrift`, `RouteDrift`, `DriftExamples`; `ProposalMeanings`, `DriftMeanings`,
`ConnectionMeanings`). A proposal is built from candidates, matched back with the run it came from, and
compared: what is reported is characterised exactly, wherever the services of the run lead. What any proposal
holds, and what a comparison of any baseline with any run reports, is stated from the candidates, the decisions
and the baseline themselves.

**The architecture itself** (`Commands`, `CommandFacts`, `CommandMeanings`; `Serialization`, `RoundTrip`,
`Decimals`; `FieldPaths`, `Diff`, `DiffMeanings`, `WrittenDiff`, `WrittenPaths`; `Topology`): edits and the diff
that must agree with them, a written form that is read back and that the diff compares, reachability and
containment.

**The nesting scanner** (`JsonDepth`): a scan character by character against the nesting of the value a text
holds, texts per RFC 8259.

Classes stand where the source updates objects (`Plan.Steps`, `Planner.Generator`, `Proposal.Builder`,
`Commands.Draft`), methods with loops where it loops, and each is proved against functions and predicates the
lemmas are about. Ids are integers with equality and an order, text is text where it is written or read, and a
plan's step keys are a datatype.

## What does not hold as stated

The code is kept as it is; these are the places where its own documentation or intent says more.

- A reroute asks for its ends' verifications before the nodes' steps exist, since changes are sorted with
  connections before nodes: it is prepared and switched without waiting for them. A switch comes after an end's
  verification exactly when an earlier change drafted it (`PlanFacts.SwitchAfterEndExactly`,
  `PlanFacts.PreparationWaitsForNothing`); for a plan where it does not, see `PlanFacts.RerouteBeforeItsEnd`.
- Several stores can be replaced by one node; the verification of that node under traffic then comes after
  a store's cutover exactly when the store is the last by id (`PlanFacts.TrafficVerifiedAfterLast`), so not after
  the first of two (`PlanFacts.FirstCutoverNotAwaited`).
- Work in different units is meant never to be added up, but the workload's own demand at an entry is added
  after the units were compared: exactly when that happens is `TrafficBounds.UnitsOfComplete`, and a setting where
  it does `TrafficBounds.UnitsAddedUp`.
- A reference routed by a service back to its own workload makes the whole proposal fail, and nothing else does
  (`DriftFacts.FailsExactly`); `DriftExamples.ProposeBackToItself` is such a run.
- A reference that repeats a proposed connection is reported by the comparison as an added one
  (`OwnDrift.RepeatIsReported`, and exactly when `RouteDrift.RepeatReported`); `DriftExamples.CompareRepeated` is such
  a run.
- A service with two selectors can be followed to one workload by the proposal and to another by the
  matching, as the two read the relationships in different orders; exactly when is `RouteDrift.ElsewhereExactly`.
  A proposed connection is then reported as removed, of another kind or unclear exactly as
  `RouteDrift.RemovedExactly`, `RouteDrift.KindDiffersExactly` and `RouteDrift.UnclearExactly` say, a reference as
  added exactly as `RouteDrift.AddedExactly` says, and `DriftExamples.CompareTwoSelectors` is a run whose only
  connection is reported as removed.
- Removing connections with one id repeated fails on a missing key instead of being refused
  (`CommandFacts.RunFailsExactly`, and `CommandFacts.FailingInput` for an input).
- The fields of a diff do not tell a dotted key from a nested one, a null or an empty object from nothing, or true
  from 1, among unrecognised settings, and only there: exactly what they do tell is `WrittenDiff.NodeSameExactly`
  with `WrittenDiff.SettingsJoinedExactly` (`WrittenDiff.SettingsSameExactly` where no key has a dot), settings taken
  for one are in `WrittenDiff.SettingsMerge`, and nodes in `WrittenDiff.NodesMerge`.
- What a source type cannot express is meant not to be compared, but a matched node is reported for its unknown
  properties and unrecognised settings whatever the source: exactly when is `DriftFacts.DroppedReported`, and
  `DriftExamples.CompareSettled` is a node for which it is.
- Equal architectures can be written differently: a decimal property held as an int is written as a number,
  and as text once it was read; an architecture survives unchanged exactly when it has none
  (`RoundTrip.UnchangedExactly`, `Decimals.FormIsStable`).

## Model

| member | source | states |
|---|---|---|
| CycleSearch.FindCycles | engines/migration/dependency_graph.py:39-79 | the groups returned are exactly the strongly connected components of two or more steps: each group mutually reachable and maximal, every pair of distinct mutually waiting steps in one group, each group in key order and the groups in the order of their first keys; the search with its explicit stacks terminates |
| Cycles.CyclesDetermined | engines/migration/dependency_graph.py:39-79 | only one sequence of groups answers that description |
| Cycles.SortedAreCycles | engines/migration/dependency_graph.py:77-79 | sorting the components by first key keeps every component and drops the single steps only |
| CycleSearch.Explore | engines/migration/dependency_graph.py:53-78 | exploring from one root assigns every step it reaches to its component and leaves the stack as it found it |
| CycleSearch.Leave | engines/migration/dependency_graph.py:68-78 | leaving a step hands its low link up, or takes its whole component off the stack |
| Components.SegmentIsComponent | engines/migration/dependency_graph.py:72-76 | the steps above one whose low link is its own index are a whole component |
| Ordering.Order | engines/migration/dependency_graph.py:92-106 | the order is topological, takes the least ready key at every position, and stops only when nothing is ready |
| OrderFacts.OrderIsLeast | engines/migration/dependency_graph.py:92-106 | every other topological order of the same steps is later, comparing keys from the first step on |
| OrderFacts.OrderDetermined | engines/migration/dependency_graph.py:92-106 | the steps alone determine the order |
| OrderFacts.LeftOutExactly | engines/migration/dependency_graph.py:92-106 | a step is left out exactly when it is on a cycle of dependencies or waits for one |
| OrderFacts.CompleteWithoutCycles | engines/migration/dependency_graph.py:39-106 | where no step waits for itself, the order is complete exactly when no group is reported |
| Levels.LevelsOf | engines/migration/dependency_graph.py:108-117 | refused exactly for an unknown dependency or two steps that wait for each other; otherwise the levels partition the steps, none is empty, each is in key order, and a step's level is the length of its longest chain of dependencies |
| Levels.LevelAbove | engines/migration/dependency_graph.py:114-115 | a dependency's longest chain is shorter, and a step above level 0 has a dependency exactly one level below |
| Levels.Ancestors | engines/migration/dependency_graph.py:81-90 | exactly the steps reached by one or more dependencies |
| Plan.Steps.Add | engines/migration/planner.py:67-81 | a draft under a key takes the place of the one before |
| Plan.Steps.Depend | engines/migration/planner.py:83-86 | a drafted step waits for those of the named steps that exist, itself excepted, and nothing else changes |
| PlanRank.PairChange | engines/migration/patternbook.py:56-71 | every pair comes from a technology changed in place, or from a removal and an addition of its kind |
| PlanRank.PairNodes | engines/migration/patternbook.py:56-71 | a pair joins a source node with a target node, the same one exactly when the store stays |
| PlanRank.ExtendGood | engines/migration/planner.py:83-86 | adding dependencies of lower rank keeps every step's dependencies drafted and of lower rank, and drops none |
| PlanSteps.AfterChangeGood | engines/migration/planner.py:580-592 | planning any change, in any order, keeps the drafts sound: every dependency drafted and of lower rank, and the dependencies each rule promises present |
| PlanSteps.ReplaceGood | engines/migration/planner.py:368-401 | a data move added to sound drafts leaves them sound, the replacement's verification being drafted |
| Planner.Generator.ProvisionElement | engines/migration/planner.py:142-206 | the drafts of an added element: provision, configure (a node's) and verify, each after the one before |
| Planner.Generator.Reconfigure | engines/migration/planner.py:210-257 | the drafts of a changed element, blue/green where the strategy covers it |
| Planner.Generator.SwitchBlueGreen | engines/migration/planner.py:259-327 | the drafts of a blue/green rollout |
| Planner.Generator.Reroute | engines/migration/planner.py:329-364 | the drafts of a reroute, its preparation waiting for the ends' verifications that exist at that moment |
| Planner.Generator.Replace | engines/migration/planner.py:368-463 | the drafts of a data move, replicated or offline |
| Planner.Generator.CutOver | engines/migration/planner.py:465-524 | the consistency check, cutover, verification under traffic and retirement that end a data move |
| Planner.Generator.DecommissionElement | engines/migration/planner.py:528-557 | the drafts of a removed element |
| Planner.Generator.OrderConnections | engines/migration/planner.py:563-564 | exactly the links from every connection of the target to its ends' verifications are added, where both steps are drafted |
| Planner.Generator.OrderReplacements | engines/migration/planner.py:565-572 | exactly the links of every pair are added: clients switch after the new connections are verified, and the store and what touched it are retired after the switch |
| Planner.Generator.OrderRetirements | engines/migration/planner.py:573-575 | exactly the links from an end's retirement to that of the connections that touched it are added |
| Planner.Generator.OrderReroutes | engines/migration/planner.py:576-578 | exactly the links from the retirement of an end a connection leaves to the verification of the connection are added |
| Planner.Generator.Generate | engines/migration/planner.py:580-601 | what every finished plan holds, for every source, target, strategy and order of changes: everything drafted, and the links across elements and no others |
| Planner.ChangesNext | engines/migration/planner.py:580-592 | what is drafted after each change, and which verifications a preparation has found |
| Planner.PairsNext | engines/migration/planner.py:593-600 | what is drafted after each data move, and which cutover a verification under traffic waits for |
| PlanFacts.PlanIsAcyclic | engines/migration/planner.py:83-101 | every plan's steps have unique keys, no unknown dependency, no step waiting for itself and no cycle |
| PlanFacts.PlanLevels | engines/migration/planner.py:561-601 | generating, building and levelling any plan succeeds: the levels are never refused |
| PlanFacts.DataMovesInOrder | engines/migration/planner.py:368-578 | retiring a replaced store comes after its cutover, that after the consistency check, the copy, the replication or stop of writes, and the provisioning of the replacement |
| PlanFacts.ClientsSwitchLast | engines/migration/planner.py:565-568 | a store's clients switch after every new connection to its replacement is verified |
| PlanFacts.SwitchesInOrder | engines/migration/planner.py:259-364 | a reroute or blue/green switch comes after its preparation, its verification after the switch, and the retirement of the previous environment after that |
| PlanFacts.TrafficVerifiedAfterLast | engines/migration/planner.py:496-503 | the verification of a replacement under traffic comes after the cutover of a store it replaces exactly when that store is the last of them by id |
| PlanFacts.FirstCutoverNotAwaited | engines/migration/patternbook.py:66-70 | two stores removed and one of their kind added: in every plan the replacement is verified under traffic without waiting for the first store's cutover |
| PlanFacts.ConnectionsRetireFirst | engines/migration/planner.py:573-575 | a component is decommissioned after every removed connection that touched it |
| PlanFacts.LeftBeforeRetired | engines/migration/planner.py:576-578 | a component is decommissioned after every connection that left it is verified |
| PlanFacts.ConnectionsComeAfterEnds | engines/migration/planner.py:563-564 | a connection added is provisioned after each added node it joins is provisioned and verified, whether with its own change or with the data moved to it |
| PlanFacts.PreparationWaits | engines/migration/planner.py:364 | a reroute's preparation waits for exactly those ends whose verification was drafted by an earlier change |
| PlanFacts.PreparationWaitsForNothing | engines/migration/planner.py:581 | with connections sorted before nodes, as the changes are, a reroute's preparation waits for nothing at all |
| PlanFacts.SwitchAfterEndExactly | engines/migration/planner.py:329-364 | a rerouted connection is switched after the verification of a new end exactly when an earlier change drafted that verification |
| PlanFacts.SwitchWaitsForPreparation | engines/migration/planner.py:342-364 | with connections planned first, the switch comes after its preparation and after no other step |
| PlanFacts.RerouteBeforeItsEnd | engines/migration/planner.py:329-364 | a connection rerouted to a node the same plan adds is prepared and switched without waiting for the node's verification |
| PlanMeanings.PlanExactly | engines/migration/planner.py:142-601 | the whole plan from the context: a step is drafted exactly when the changes, the strategy and the data moves ask for it, and waits for exactly those drafted steps that its own rule and the rules across elements name |
| PlanMeanings.MovesExactly | engines/migration/patternbook.py:56-71 | data move exactly from a store that changes technology to itself, and from a store removed to the one store of its kind added |
| PlanMeanings.LinksExactly | engines/migration/planner.py:561-578 | the links across elements, from the connections of both architectures, the data moves and the changed connections |
| PlanMeanings.AdjustedThenVerified | engines/migration/planner.py:236-257 | an element changed where it is, since it is no reroute, moves no data and is not covered by blue/green, is configured and then verified |
| PlanMeanings.ConnectedThenVerified | engines/migration/planner.py:142-170 | a connection added is provisioned and then verified, and not configured |
| PlanMeanings.GreenExactly | engines/migration/planner.py:210-327 | a changed element that is no reroute and moves no data is rolled out beside itself exactly when the strategy is blue/green and covers it |
| PlanMeanings.ReplicatesExactly | engines/migration/planner.py:399-427 | a data move replicates exactly when the strategy is replication and covers the replacement, and stops writes otherwise; the copy waits for that step |
| PlanMeanings.MovesInPlaceExactly | engines/migration/patternbook.py:59-64 | the data of a store that stays are moved exactly when it changes technology |
| Traffic.Flows | engines/capacity/traffic.py:67-75 | the flows of the connections that carry demand, in order, a consumed queue's turned around |
| Traffic.Multiplier | engines/capacity/traffic.py:96-122 | the product of what a connection declares, unknown when neither share nor calls are declared or one side of an unknown mix is carried |
| Traffic.FactorNonNegative | engines/capacity/traffic.py:96-122 | declared values in their ranges give a factor that is not negative |
| TrafficMeanings.FlowsExactly | engines/capacity/traffic.py:67-75 | a setting has a flow from one node to another exactly for a listed request, data access or publication from the first to the second, and a listed consumption by the second from the first |
| TrafficMeanings.FlowsOnce | engines/capacity/traffic.py:67-75 | different connections give different flows, each once |
| TrafficMeanings.FactorKnown | engines/capacity/traffic.py:96-122 | the factor is unknown exactly when neither share nor calls are declared, or one side of an unknown mix is carried |
| TrafficMeanings.PassesAllOn | engines/capacity/traffic.py:96-122 | a share of one and nothing else passes all work on |
| TrafficMeanings.ShareScales | engines/capacity/traffic.py:101-111 | the share scales the factor, and is one when only calls are declared |
| TrafficMeanings.CallsScale | engines/capacity/traffic.py:101-111 | the calls scale the factor, and are one when only the share is declared |
| TrafficMeanings.CacheTakesAway | engines/capacity/traffic.py:112-115 | a cache takes away the part it answers: all of it at one, nothing when none is declared |
| TrafficMeanings.ReadsAndWrites | engines/capacity/traffic.py:116-121 | a connection of reads and its twin of writes add up to the undivided one; with nothing but reads the twin carries nothing |
| Traffic.PopKeeps | engines/capacity/traffic.py:185-211 | taking a ready node keeps the state of the propagation consistent |
| Traffic.SendKeeps | engines/capacity/traffic.py:212-254 | following one flow keeps the state of the propagation consistent |
| Propagation.Follow | engines/capacity/traffic.py:212-254 | one flow followed: what it delivers, whom it leaves incomplete, and when its downstream is ready |
| Propagation.SpreadDemand | engines/capacity/traffic.py:153-267 | the demands solve the equations of the propagation: every delivered amount, every base, every incomplete node |
| Propagation.Propagate | engines/capacity/traffic.py:125-286 | unknown entries refused, no entry reported, otherwise the propagation from the named entries or the clients |
| TrafficFacts.Determined | engines/capacity/traffic.py:182-254 | the demands and the incomplete nodes are the same whichever ready node is taken first |
| TrafficFacts.UndefinedExactly | engines/capacity/traffic.py:256-267 | the nodes without a defined demand are exactly those on a cycle of traffic or after one; they are incomplete and nothing is delivered to them |
| TrafficFacts.IncompleteExactly | engines/capacity/traffic.py:199-254 | a node with a defined demand is incomplete exactly when mixed units or an unknown delivery arrive at it or somewhere before it |
| TrafficMeanings.DeliversExactly | engines/capacity/traffic.py:191-245 | a flow delivers nothing exactly when its factor is unknown, its upstream sends of its own or gets work in different units, or the amount reaches the bound; otherwise what goes through its upstream times its factor |
| TrafficMeanings.IncompleteMeans | engines/capacity/traffic.py:185-270 | a node is incomplete exactly when it is on or after a cycle, or work in different units, or a flow that delivers nothing, arrives at it or before it |
| TrafficMeanings.ConsumerIsReached | engines/capacity/traffic.py:73-74 | a client that publishes all it does to a broker: its consumer gets all of the demand, and nothing is incomplete |
| TrafficPaths.WorkIsSumOverPaths | engines/capacity/traffic.py:185-254 | the work of a complete node is the workload's rate times the sum over all flow paths from the entries of the product of their factors |
| TrafficPaths.WalksHas | engines/capacity/traffic.py:212-254 | the paths summed over are exactly the paths of flows from an entry to the node |
| TrafficPaths.WalksOnce | engines/capacity/traffic.py:212-254 | each path is counted once |
| TrafficPaths.WalksBounded | engines/capacity/traffic.py:182-184 | no path to a node with a defined demand is longer than the nodes before it, so the sum leaves none out |
| TrafficBounds.WorkIsLowerBound | engines/capacity/traffic.py:96-122 | whatever factors and outside sources were not declared, as long as none is negative, a node's true work is at least what is recorded |
| TrafficBounds.CompleteWorkIsExact | engines/capacity/traffic.py:96-122 | the work recorded for a complete node is its work whatever was not declared |
| TrafficBounds.WorkFollowsRate | engines/capacity/traffic.py:185-254 | complete work is proportional to the workload's rate |
| TrafficBounds.LowerRateStaysComplete | engines/capacity/traffic.py:230-254 | a node complete at one rate is complete at every lower one |
| TrafficBounds.SaturationMultiple | engines/capacity/headroom.py:118-121 | at the reported multiple of the workload the demand equals the capacity |
| TrafficBounds.SaturationFromAbove | engines/capacity/headroom.py:118-121 | a demand above its capacity is brought exactly to it, whether or not the lower rate was known to be complete |
| TrafficBounds.UnitsOfComplete | engines/capacity/traffic.py:199-211 | a complete node's demand adds up one unit, unless the workload enters there, the node is no client, and some flow into it counts another unit than the workload's; then it does not |
| TrafficBounds.UnitsAddedUp | engines/capacity/traffic.py:268-280 | requests and events added up at an entry whose demand is called complete |
| TrafficBounds.ReplicasAreLeast | engines/capacity/operating_envelope.py:157-170 | the stated replicas are the least number that meets the goal, and more than there are |
| Proposal.Builder.AddNode | engines/discovery/proposal.py:140-183 | what becomes of an entity, and the node it gives |
| Proposal.Builder.AddConnection | engines/discovery/proposal.py:247-313 | the connection a relationship gives, or what becomes of it: needing review exactly when it awaits a reviewer's word on an end or on its kind, else excluded; a connection of a node with itself is refused |
| Proposal.Builder.Configuration | engines/discovery/proposal.py:224-235 | the usable values by property, the last one given |
| Proposal.Propose | engines/discovery/proposal.py:334-360 | the nodes and connections of the whole proposal, what became of every candidate, and exactly when it fails |
| ProposalMeanings.NodeExactly | engines/discovery/proposal.py:140-235 | a component not declined is proposed exactly when it has a kind and the checks accept the node; the node has the source's kind or else the accepted one, the accepted component if the catalog has it, none if not, and without a choice the confident mapping, the stated technology, and the last usable values; it waits for review exactly when it has no kind |
| ProposalMeanings.LeadsExactly | engines/discovery/proposal.py:101-112 | a reference to a service leads to what its selector of highest id picks, and any other to what it names |
| ProposalMeanings.ConnectionExactly | engines/discovery/proposal.py:239-313 | a reference gives a connection exactly when it joins two proposed nodes by a known kind and none of a lower id makes the same one; it is that connection |
| ProposalMeanings.WaitsExactly | engines/discovery/proposal.py:247-300 | a reference waits for review exactly when it joins components proposed or waiting, and one of them or its kind is still to be stated |
| Discovery.RoutesOrderFree | engines/discovery/proposal.py:101-112 | with one selector for each service the routes do not depend on the order of the relationships |
| DriftFacts.FailsExactly | engines/discovery/proposal.py:299-306 | a proposal fails exactly when a reference everything else is known of leads a node back to itself |
| DriftFacts.BackThroughService | engines/discovery/proposal.py:269-272 | only a service's route leads a node back to itself |
| DriftExamples.BackToItselfFails | engines/discovery/proposal.py:269-306 | a service that selects the workload referring to it: its reference is proposed as a connection of the workload with itself |
| DriftExamples.ProposeBackToItself | engines/discovery/proposal.py:334-360 | proposing from that run fails |
| NodeMatching.Claims | engines/drift/matching.py:96-112 | which nodes claim which entities, by id or by a confirmed mapping, and which claim nothing |
| NodeMatching.Resolve | engines/drift/matching.py:125-132 | an entity one node claims is matched to it; claimed by several, all are ambiguous |
| NodeMatching.Locate | engines/drift/matching.py:133-147 | the nodes that claim nothing: ambiguous with the unclaimed entities at their place, unless a mapping was confirmed, else unmatched |
| NodeMatching.MatchNodes | engines/drift/matching.py:115-153 | the matches are exactly one for each node and one for each entity no node is matched to, each as its claims and place say |
| NodeMatching.NodeOnce | engines/drift/matching.py:115-153 | every node is in exactly one match |
| NodeMatching.EntityOnce | engines/drift/matching.py:115-153 | every entity is in exactly one match, so the matched pairs are one to one |
| NodeMatching.MatchedExactly | engines/drift/matching.py:125-128 | a node and an entity are matched exactly when the node alone claims the entity |
| ConnectionMatching.Endpoints | engines/drift/matching.py:156-175 | the references between components, a service followed to its workload, and whether both ends matched |
| ConnectionMatching.BaselineSide | engines/drift/matching.py:178-212 | every connection's match: the same reference, all references between its ends when alone, those of its kind when it is the first of that kind, else ambiguous or unmatched |
| ConnectionMatching.MatchConnections | engines/drift/matching.py:215-244 | the matches of all connections, and the references left over, by their ends |
| MatchingFacts.ConnectionOnce | engines/drift/matching.py:178-212 | every connection is in exactly one match |
| MatchingFacts.TakesOnce | engines/drift/matching.py:184-206 | no two connections take one reference |
| MatchingFacts.ReferenceOnce | engines/drift/matching.py:215-244 | every reference is in exactly one match, or else only a candidate; never both and never lost |
| Comparison.DeclaredValues | engines/drift/comparison.py:111-137 | the node's configuration once everything the source can and does state is applied, and the values that cannot be read |
| Comparison.CompareNode | engines/drift/comparison.py:153-190 | the fields that differ, the values that cannot be read, or that the two cannot be compared |
| Comparison.DroppedExactly | engines/drift/comparison.py:138-146 | whatever the source can express, a comparable node is reported for its unknown properties exactly when it has any, and for an unrecognised setting exactly when it has it |
| Comparison.CompareNodes | engines/drift/comparison.py:216-243 | what every node match reports |
| Comparison.Differences | engines/drift/comparison.py:303-316 | every difference the matching leads to, and none else |
| DriftMeanings.NodesExactly | engines/drift/matching.py:96-153 | over a whole report: a node is removed, an entity added, and either unclear, exactly by ids, confirmed mappings and places, as the two sides state them |
| DriftMeanings.ValuesExactly | engines/drift/comparison.py:101-190 | over a whole report: kind, component, technology and each property of a matched node are reported exactly when the source can and does state another acceptable value, or no longer states one; a last value not usable is reported unreadable; a node not accepted as declared is reported once |
| DriftMeanings.ValuesOfMatched | engines/drift/comparison.py:216-243 | values are reported of a node only when it is the one node that claims an entity |
| ConnectionMeanings.RefExactly | engines/drift/matching.py:156-175 | a reference is held between the nodes its ends are, or as one that leads to or from no node, with its kind |
| ConnectionMeanings.ConnectionsExactly | engines/drift/comparison.py:254-300 | over a whole report: a connection is removed, unclear or of another kind exactly by the references between the nodes it joins |
| ConnectionMeanings.AddedExactly | engines/drift/matching.py:215-244 | over a whole report: added are exactly the references left over between two nodes, and those to or from no node, by their ends |
| DriftFacts.DroppedReported | engines/drift/comparison.py:111-190 | over the whole report: exactly when the node has them and is matched with an entity it can be compared with |
| DriftExamples.CompareSettled | engines/drift/comparison.py:303-316 | a node with an unknown property and an unrecognised setting, compared with a source that can state nothing, is reported for both |
| DriftFacts.OwnNode | engines/drift/comparison.py:111-190 | a proposed node compared with its own entity differs in nothing but a component a reviewer overrode |
| DriftFacts.OwnNodes | engines/drift/comparison.py:216-243 | what comparing a proposal's nodes with their own run reports |
| OwnDrift.OwnConnections | engines/drift/comparison.py:251-300 | what comparing a proposal's connections with their own run reports: withheld references, and nothing else |
| OwnDrift.OwnDriftIsExplained | engines/drift/comparison.py:303-316 | a proposal compared with its own run shows no removal, additions only of what it withheld, and a differing value only where a reviewer overrode a component |
| OwnDrift.NothingDiffersUndecided | engines/drift/comparison.py:303-316 | without decisions and with one selector a service, nothing is removed or modified |
| OwnDrift.WithheldNodeReported | engines/drift/comparison.py:205-213 | every component the proposal withheld is reported as added |
| OwnDrift.WithheldReferenceReported | engines/drift/comparison.py:292-300 | every reference between components the proposal withheld is reported as an added connection |
| OwnDrift.RepeatIsReported | engines/discovery/proposal.py:294-298 | a reference that repeats a proposed connection is reported as added between the ends it already joins |
| DriftExamples.CompareRepeated | engines/drift/comparison.py:303-316 | a run with one reference written twice: its own proposal is compared, and the second is reported as added between ends a connection of its kind joins |
| OwnDrift.SameIdExactly | engines/drift/matching.py:186-190 | a proposed connection is matched as the same reference exactly when the matching follows its reference where the proposal did |
| RouteDrift.ElsewhereExactly | engines/discovery/proposal.py:101-112 | the matching follows a reference elsewhere than the proposal exactly when the service it names has a selector last by reference and one of the highest id that lead to different workloads |
| RouteDrift.RemovedExactly | engines/drift/comparison.py:278-291 | a proposed connection is reported as removed exactly when its reference is followed elsewhere and, of the references now followed to its ends and not matched as themselves, none states its kind or no kind, and none is left at all if it is the only connection so moved |
| RouteDrift.KindDiffersExactly | engines/drift/comparison.py:261-270 | its kind is reported as differing exactly when it is the only connection so moved and the references followed to its ends state other kinds and never its own |
| RouteDrift.UnclearExactly | engines/drift/comparison.py:271-277 | it is reported as unclear exactly when it is one of several so moved, no reference states its kind, and one states none |
| RouteDrift.AddedExactly | engines/drift/comparison.py:292-300 | a reference is reported as added exactly when the matching follows it between components, an end of it is no proposed node or else it is not matched as its own connection, and no moved connection takes it or may be it |
| RouteDrift.WithheldReported | engines/drift/comparison.py:292-300 | for every run: a withheld reference is reported as added exactly when it joins components and no moved connection claims it |
| RouteDrift.RepeatReported | engines/discovery/proposal.py:294-298 | for every run: a repeat followed where the proposal followed it is between ends a connection of its kind joins, and is reported as added exactly when no moved connection claims it |
| RouteDrift.OwnDriftAccounted | engines/drift/comparison.py:303-316 | whatever a proposal compared with its own run reports is accounted for, however services lead: withheld or moved references, overridden components, unreadable values, and the three cases above |
| DriftExamples.OwnConnectionRemoved | engines/drift/comparison.py:251-300 | a client, a service and its two selectors: the only proposed connection is reported as removed |
| DriftExamples.CompareTwoSelectors | engines/drift/comparison.py:303-316 | proposing from that run and comparing with it gives that report |
| DriftExamples.SelectorsDisagree | engines/discovery/proposal.py:346 | two selectors of one service that the proposal and the matching read in different orders |
| Commands.Draft.Perform | core/architecture_ir/commands.py:197-231 | one command: the new state of the whole draft, or why it is refused |
| Commands.Draft.RemoveNodeSet | core/architecture_ir/commands.py:178-194 | nodes removed with the connections attached to them, dropped from what was about them; a boundary in use refused |
| Commands.Draft.RemoveConnectionList | core/architecture_ir/commands.py:213-219 | connections removed one by one, failing on one named twice |
| Commands.Draft.Forget | core/architecture_ir/commands.py:141-150 | removed elements dropped from every subject list |
| CommandFacts.ApplyCommands | core/architecture_ir/commands.py:234-267 | all commands in order, or the first that is refused; it fails exactly when a command reached removes connections that are all there and names one twice |
| CommandMeanings.AddNodeMeans | core/architecture_ir/commands.py:200-203 | a run that goes on to add a node holds it as given, from where it says or else from the edit, and nothing else changes; refused exactly for an id in use |
| CommandMeanings.AddConnectionMeans | core/architecture_ir/commands.py:206-213 | the same of a connection, refused exactly for an id in use or else for an end that is not there |
| CommandMeanings.RemoveNodesMeans | core/architecture_ir/commands.py:178-195 | exactly the nodes named and the connections that ended at one are gone, and forgotten; refused exactly for an unknown node or else for one left under a removed one |
| CommandMeanings.RemoveConnectionsMeans | core/architecture_ir/commands.py:214-220 | exactly the connections named are gone, and forgotten; refused exactly for an unknown one, and failing exactly for one named twice |
| CommandMeanings.RenameMeans | core/architecture_ir/commands.py:221-226 | the node has the name, attributed to the edit exactly when it is another; the rest is as it was; refused exactly for an unknown node |
| CommandMeanings.UpdateConfigurationMeans | core/architecture_ir/commands.py:227-228 | the values named are set or cleared and known, what really changed is attributed, and nothing else changes; refused exactly for an unknown node |
| CommandMeanings.UpdateConnectionMeans | core/architecture_ir/commands.py:229-230 | the same of a connection |
| CommandFacts.RunKeeps | core/architecture_ir/commands.py:117-231 | every run keeps ids unique, connection ends present, and assumption and decision subjects present |
| CommandFacts.ParentsKept | core/architecture_ir/commands.py:182-188 | parents stay present exactly when no node is added under an absent one |
| CommandFacts.RunKeepsParents | core/architecture_ir/commands.py:178-267 | parents are present all through a run, and so at its end, exactly when no command reached adds a node under one that is absent then |
| CommandFacts.RunFailsExactly | core/architecture_ir/commands.py:213-218 | a run fails on a missing key exactly when some command it reaches removes connections that are all there and names one of them twice |
| CommandFacts.RemovedTwice | core/architecture_ir/commands.py:213-218 | any architecture with a connection: naming it twice in one removal fails the run, naming it once does not |
| CommandFacts.FailingInput | core/architecture_ir/commands.py:213-218 | an architecture and a command for which it fails |
| CommandFacts.ConfigureMeans | core/architecture_ir/commands.py:159-175 | for each property: set, cleared or left; known once named; attributed to the edit exactly when its value changed or was unknown |
| CommandFacts.ConfiguringAgain | core/architecture_ir/commands.py:159-175 | setting values to what they already are changes nothing, whoever does it |
| CommandFacts.RunIsLocal | core/architecture_ir/commands.py:178-267 | a run never changes the architecture's own fields, and of its elements only what its commands name, what was attached to nodes they remove, and what was about those |
| CommandFacts.AssumptionUntouched | core/architecture_ir/commands.py:141-150 | an assumption about nothing removed, and nothing attached to it, stays as it was |
| CommandFacts.DecisionUntouched | core/architecture_ir/commands.py:141-150 | so does a decision |
| FieldPaths.WalkLeaves | core/architecture_ir/diff.py:215-232 | the fields of a written element by path, as the rules for configurations, provenance records and values compared whole say |
| FieldPaths.SameByKey | core/architecture_ir/diff.py:215-232 | objects whose keys are told apart have the same fields exactly when each key gives the same |
| FieldPaths.SettingsSame | core/architecture_ir/diff.py:215-232 | unrecognised settings whose keys hold no dot have the same fields exactly when they hold the same value at every path of keys |
| FieldPaths.ConfigurationsAlike | core/architecture_ir/diff.py:221-225 | configurations have the same fields exactly when their values, their unknown names and the fields of their unrecognised settings are the same |
| Diff.DiffElements | core/architecture_ir/diff.py:274-297 | every id's change, once, in id order |
| Diff.NoChanges | core/architecture_ir/diff.py:262-271 | no field change exactly when every path holds the same value |
| Diff.Compare | core/architecture_ir/diff.py:303-315 | the whole diff of two architectures: their own fields, then the four kinds of element |
| DiffMeanings.DiffMeans | core/architecture_ir/diff.py:262-315 | in each of the four lists an element is added exactly when only the second architecture has it, removed exactly when only the first has, and modified exactly when both do and a path other than the id's differs; the fields are the paths that differ, with the old and the new value |
| DiffMeanings.AddedNodeReported | core/architecture_ir/diff.py:289-290 | a node a run ends by adding is reported added, unless the architecture had one of that id |
| DiffMeanings.AddedConnectionReported | core/architecture_ir/diff.py:289-290 | and so a connection |
| DiffMeanings.RemovedNodesReported | core/architecture_ir/diff.py:291-292 | nodes a run ends by removing are reported removed with the connections that ended at them, if the architecture had them |
| DiffMeanings.RemovedConnectionsReported | core/architecture_ir/diff.py:291-292 | and so connections |
| WrittenPaths.NodeOwnPaths | core/architecture_ir/diff.py:215-232 | the path under which a diff finds each own field of a node, and both parts of its technology |
| WrittenPaths.NodeNotesPaths | core/architecture_ir/diff.py:215-232 | the paths of provenance and references, whole, of metadata and field provenance, by name, and of configuration values, unknown ones and unrecognised settings |
| WrittenPaths.ConnectionOwnPaths | core/architecture_ir/diff.py:215-232 | the path of each own field of a connection |
| WrittenPaths.SubjectPaths | core/architecture_ir/diff.py:215-232 | the paths of an assumption's and a decision's fields |
| WrittenPaths.HeaderPaths | core/architecture_ir/diff.py:300-310 | the paths of the architecture's own fields |
| Diff.EmptyExactly | core/architecture_ir/diff.py:303-315 | it is empty exactly when both have the same ids and the same value at every path |
| WrittenDiff.NodeSameExactly | core/architecture_ir/diff.py:215-232 | two valid nodes as written have the same fields exactly when they are the same node, their unrecognised settings compared field by field |
| WrittenDiff.NodeReportedExactly | core/architecture_ir/diff.py:274-297 | a node on both sides is not reported exactly in that case |
| WrittenDiff.ConnectionSameExactly | core/architecture_ir/diff.py:215-232 | the same of connections as written |
| WrittenDiff.ConnectionReportedExactly | core/architecture_ir/diff.py:274-297 | and as reported |
| WrittenDiff.AssumptionSameExactly | core/architecture_ir/diff.py:215-232 | assumptions as written have the same fields exactly when they are equal |
| WrittenDiff.DecisionSameExactly | core/architecture_ir/diff.py:215-232 | and so decisions |
| WrittenDiff.HeaderSameExactly | core/architecture_ir/diff.py:300-310 | no field of the architecture itself is reported exactly when name, description, metadata, provenance and references are equal |
| WrittenDiff.HeaderIsDocument | core/architecture_ir/diff.py:300-310 | what is compared of the architecture itself is its document without its collections and schema version |
| WrittenDiff.SettingsSameExactly | core/architecture_ir/diff.py:221-225 | without dots in their keys, unrecognised settings have the same fields exactly when they hold the same at every path of keys |
| WrittenDiff.SettingsJoinedExactly | core/architecture_ir/diff.py:215-232 | with any keys, unrecognised settings have the same fields exactly when they hold the same at every join of keys by dots, the last path walked deciding |
| WrittenPaths.WholeSetting | core/architecture_ir/diff.py:212 | an unrecognised setting named provenance, requirement_refs or subject_ids is one field, even an object |
| FieldPaths.JoinedIs | core/architecture_ir/diff.py:218-232 | a field is the value at the last walked path of keys that joins to it, and no field is there when no path does |
| WrittenDiff.SettingsMerge | core/architecture_ir/diff.py:215-232 | under unrecognised settings a dotted key and a key inside another, a null or an empty object and nothing, or true and 1 are different configurations with the same fields |
| WrittenDiff.NodesMerge | core/architecture_ir/diff.py:215-232 | so two different nodes of which a diff reports nothing |
| Diff.DiffMirrors | core/architecture_ir/diff.py:262-297 | the diff back is the mirror of the diff |
| Diff.WholeDiffMirrors | core/architecture_ir/diff.py:303-315 | the whole diff back is the whole diff turned around: own fields, and every list of changes in its order |
| Diff.ChangesPatch | core/architecture_ir/diff.py:262-271 | the changes written over the old fields give the new ones |
| Diff.DiffOfRunIsLocal | core/architecture_ir/diff.py:303-315 | the diff of a run of commands reports no field of the architecture itself, only nodes its commands name, connections they name or detach, and assumptions and decisions about what is gone |
| Topology.Closure | core/architecture_ir/topology.py:91-101 | exactly what is reached, the start left out, in id order |
| Topology.ReachableFrom | core/architecture_ir/topology.py:65-67 | everything a node depends on, over connections of the kinds asked for |
| Topology.DependentsOf | core/architecture_ir/topology.py:69-71 | everything that depends on a node |
| Topology.DependenceIsConverse | core/architecture_ir/topology.py:65-71 | one node depends on another exactly when that one has it as a dependent |
| Topology.ReachesDepends | core/architecture_ir/topology.py:57-71 | a node is reached exactly over connections of the kinds asked for, or of any kind when none is, each initiated by one node and ending at the next |
| Topology.Ancestors | core/architecture_ir/topology.py:78-89 | the whole chain of containers, innermost first, each once |
| Topology.ContainersEnd | core/architecture_ir/topology.py:78-89 | in a valid architecture the chain ends at a boundary without a parent and never at the node, so the guard against repeats never ends it |
| Topology.InContainmentCycle | core/architecture_ir/model.py:280-289 | whether a node is on a cycle of parents |
| Topology.ContainmentProblems | core/architecture_ir/model.py:180-202 | the nodes whose parent is missing, is no boundary, or makes the node contain itself, each once with the first rule it breaks; none exactly when all hold |
| Topology.ProblemsMean | core/architecture_ir/model.py:180-202 | a node is listed for a parent that is not there, for one that is no boundary, or, under a boundary, for a chain of parents back to itself, and for the first of these only |
| JsonDepth.MeasureDepth | engines/discovery/loading.py:184-202 | the depth counted while scanning, as the scan of each character says |
| JsonDepth.DepthIsNesting | engines/discovery/loading.py:184-202 | the depth measured of every well-formed text of a value is how deep its arrays and objects nest |
| JsonDepth.ReadQuoted | engines/discovery/loading.py:188-197 | nothing inside a string counts, brackets, quotation marks and backslashes included |
| JsonDepth.TooDeep | engines/discovery/loading.py:209-212 | a well-formed text is refused exactly when it nests deeper than the limit |
| Decimals.RoundTrip | core/architecture_ir/values.py:83-88 | every number of at most nine places below 10^15 is written in a text the reader accepts, and read back exactly |
| Decimals.FitsExactly | core/architecture_ir/values.py:98-109 | the bounds admit exactly the numbers that are a whole number of billionths below 10^15 |
| Decimals.SameText | core/architecture_ir/values.py:83-88 | two such numbers have one text exactly when they are one number |
| Decimals.CanonicalDecides | core/architecture_ir/values.py:79-80 | two decimals are the same number exactly when their canonical forms are equal |
| Decimals.PropertyRoundTrip | core/architecture_ir/serialization.py:390-398 | a decimal property written and read keeps its number, and its very form when held as a decimal |
| RoundTrip.ArchitectureRoundTrip | core/architecture_ir/serialization.py:54-609 | every valid architecture is read back from its written form, with decimal properties held as decimals |
| RoundTrip.ReadBack | core/architecture_ir/serialization.py:577-609 | what any architecture of proper values is read back as, accepted or refused as the model's own checks say |
| RoundTrip.RoundTripSettles | core/architecture_ir/serialization.py:54-609 | what was read once is written and read the same ever after |
| RoundTrip.UnchangedExactly | core/architecture_ir/serialization.py:99-104 | a valid architecture is read back as it was exactly when no decimal property of a node or connection is held as an int |
| RoundTrip.NodeRead | core/architecture_ir/serialization.py:507-524 | a node is read back from its fields, each optional one absent as null |
| RoundTrip.ConnectionRead | core/architecture_ir/serialization.py:527-543 | a connection is read back from its fields |
| RoundTrip.ConfigurationRead | core/architecture_ir/serialization.py:418-440 | values by the type of their property, unknown properties as a set, unrecognised settings as found |
| RoundTrip.ValueRead | core/architecture_ir/serialization.py:390-398 | a value of its property's type is read back, an int of a decimal property as a decimal |
| RoundTrip.ProvenanceRead | core/architecture_ir/serialization.py:334-354 | a provenance record is read back, its confidence exactly |
| Decimals.FormIsStable | core/architecture_ir/serialization.py:99-104 | the written form of a decimal property survives a round trip exactly when it was not held as an int, and is fixed after one |

## Left out

- PlanFacts.PlanIsAcyclic: step keys are a datatype and their text and ids distinct (`Distinct`); keys built from element ids that hold `:` can collide as text, which is not modelled.
- Planner.Generator.Generate: the chosen strategy is any pattern with any covered elements; which strategy is chosen, step texts, traces, risks, rollbacks and the limit on the number of steps are not modelled.
- Levels.LevelsOf: a step that waits for itself is excluded, as a step refuses to be made so (core/domain/migrations/steps.py:118).
- Planner.Generator.PlanChanges: an element changes once for each element type, as a diff reports it; a node and a connection may share an id only across the two architectures.
- Propagation.SpreadDemand: amounts are exact reals; rounding of quantities, the finite precision of decimals (an amount of 10^19 or more would not even round) and the order of the demand lists are not modelled.
- Propagation.Propagate: of what is reported as unsupported, the incomplete nodes and their causes are modelled, not the texts, nor the notice that entry shares exceed the whole.
- TrafficBounds.ReplicasAreLeast: the limit given by one replica's throughput alone, without quantity rounding or its overflow.
- Traffic.Holds: the bound on a stated demand, rounding included, is written out; the other checks of a quantity are not.
- Proposal.Propose: names, provenance, notes, the reasons of statuses, validation issues and the checks of the whole architecture (which turn a proposal into none) are not modelled; what the architecture accepts of a node or technology is a parameter.
- NodeMatching.MatchNodes: the result is in the order found, before it is sorted.
- ConnectionMatching.MatchConnections: the result is in the order found, before it is sorted.
- Comparison.Differences: a difference is the elements and field it names; values, evidence, locations and explanations are left out, and secret-looking fields are not redacted.
- Comparison.DroppedExactly: unrecognised settings are held as the fields a diff gives of them.
- OwnDrift.OwnDriftIsExplained: relationship ids are distinct, as hashes of source, reference and place.
- Discovery.Routes: several selectors of one service are kept; `OwnDrift.OwnDriftIsExplained` asks for agreeing routes, `RouteDrift.OwnDriftAccounted` does not.
- Commands.Draft.Perform: `ChangeReplicas` is a configuration update of one property; element checks made by `replace` and by the final validation are not modelled, nor the order of subjects.
- FieldPaths.WalkLeaves: a written configuration has its three parts, as every written element does; the order keys are walked in is any function of the keys; redaction and categories are left out.
- WrittenDiff.NodeSameExactly: property names hold no dot and none is `unknown`, as in core/architecture_ir/configuration.py:172-643.
- Decimals.RoundTrip: surrounding white space and digits of other scripts, which the reader also accepts, are not modelled.
- RoundTrip.ArchitectureRoundTrip: whatever the model's own checks refuse is refused without its list of problems; enumerations, identifiers and times are written by codecs read back exactly; schema upgrades, fractional JSON numbers and the reading of JSON text are not modelled, and the checks are taken to accept a decimal where they accept the equal int (`Indifferent`).
- Duplicate-connection and dangling-reference rules of the model, catalog tables, source adapters, cost, availability, reliability, rule books, HTTP, storage and the agent: lookups or one-branch rules, or input and output.
- The YAML reader and its own depth limit.
