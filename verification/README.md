# Gibson's brain, modelled and proved

Gibson's brain keeps an event-sourced picture of an infrastructure, infers
how likely each part of it is reachable and exploitable, and plans what to do
next.  This project models that core in Dafny and proves what the system
promises about it:

- **Exact inference** (`Factors`, `SumProduct`, `Elimination`, `Query`, `Names`,
  `NoisyOr`, `Tables`, `Ground`, `CauseOrder`, `Solve`, `ModelCheck`): variable
  elimination over flat row-major tables, the noisy-OR decomposition, grounding
  and solving a slice, and model validation.  `SumProduct` is the brute-force reference
  that mentions no elimination.
- **Attack graph** (`Order`, `Lists`, `Graphs`, `AttackGraph`, `Slice`): the
  cycle-breaking order, and bounded slices.
- **Slice-digest gate** (`GateModel`, `SliceGate`): the check, score, apply and
  invalidate protocol, and why its rounds settle.
- **Log-first engine** (`EventLog`, `EngineLoop`): append before fold, retries,
  snapshots, trims, crashes and restarts.
- **Planner** (`Sampler`, `TopoOrder`, `SweepOrder`, `NativeGround`,
  `SamplerNetwork`, `SamplerGround`, `SearchTree`, `SearchLoop`): the world sampler against the
  exact solver, and the UCT search tree.
- **Controllers and small protocols** (`Bank`, `BankReconciler`,
  `BeliefPipeline`, `Settlement`, `Decider`, `Calibration`).

Pure code is modelled by functions, code that updates things in place by classes
and loops that are proved against those functions.  Protocols are step
functions with an invariant over every run.  `dafny verify dfyconfig.toml`
verifies everything.

## Assumptions

- Numbers are reals, and integers are unbounded.
- A digest is the payload it fingerprints, so hashing is injective.
- The slice provider is a function of what a slice digest covers (ids, kinds
  and edges); the registry is fixed; substrate reads and writes do not fail and
  writes are visible to the next read; relevance is fixed during the rounds.
- Restoring a snapshot gives back the World that was saved; idempotency keys
  are never used twice; stream ids are consecutive numbers.
- One process lifetime for the per-host belief protocol and the decision loop,
  each with the modelled component as the only writer.
- A dictionary with a meaningful iteration order is a sequence with distinct
  keys; where the order is unspecified it is a map or a set.

## Where code and documentation differ

The models follow the code.

- The comment on the cycle cut says that the cut edges are those a cycle
  forces out of order.  A cut edge need not lie on a cycle
  (`AttackGraph.CutOffCycle`); its head is always reachable from one
  (`CutOnlyAfterCycles`), and it is cut exactly when its head is forced first
  (`CutExactly`).
- The comment on slices says that an edge into the target is never cut when
  another edge of the cycle can go.  `Slice.TargetLosesItsEdge` is a slice whose
  target loses its only edge, which is on no cycle; `Slice.SliceCutsExactly`
  says for every slice which edges go.
- Distinct accepted pairs can share a ground name (`Ground.SharedGroundName`);
  `Ground.GroundNameCollision` says exactly when.
- The sort of enablement causes is documented as independent of input order,
  but its key omits the strength, so two strengths on one link show in the
  factor list (`CauseOrder.TwoListings`, and `CauseOrder.OrderFreeIff` for
  exactly when).  The posteriors do not depend on it
  (`Solve.SolveAnyListing`).
- The sampler's grounding is documented to mirror the solver's exactly.  A
  parent listed twice under one variable, which the schema validation accepts,
  counts twice for the sampler and once for the solver
  (`NativeGround.ListedTwice`); without one the groundings agree
  (`NativeGround.IntraAgree`, `NativeGround.IntraChance`).
- The sampling order is documented to break ties by the smallest ready name.
  One sweep goes on forward instead (`SweepOrder.SweepPassesBy`);
  `SweepOrder.SmallestFirstIff` says exactly when the two orders agree.

## Model

| member | source | states |
|---|---|---|
| `Factors.EvalReduce` | sidecar/belief/infer.py:60-77 | Slicing evidence out of a flat row-major table reads the original factor with the evidence written over the assignment. |
| `Factors.EvalMultiply` | sidecar/belief/infer.py:79-103 | The aligned, broadcast product table is the pointwise product over the union of the axes. |
| `Factors.EvalSumOut` | sidecar/belief/infer.py:89-93 | Summing an axis adds the two states of that variable at every assignment of the others. |
| `Factors.CpdEntry` | sidecar/belief/infer.py:106-128 | A table accepted from an artifact reads the row of its variable at the column of its parents, the last parent varying fastest. |
| `Elimination.EliminateSums` | sidecar/belief/infer.py:211-218 | One elimination step (multiply what mentions the variable, sum it out) sums the whole product over that variable. |
| `Elimination.EliminationOrder` | sidecar/belief/infer.py:131-174 | Lists every variable but the kept one exactly once, each the first of least degree in the graph induced so far. |
| `Elimination.MinDegreeOrderElems` | sidecar/belief/infer.py:152-174 | Any list with that greedy property is a permutation of the variables to eliminate. |
| `Elimination.MinDegreeOrderUnique` | sidecar/belief/infer.py:131-139 | The greedy order is determined by the factors alone. |
| `Query.EliminateAllSums` | sidecar/belief/infer.py:15-18 | Eliminating in any order gives the sum over exactly the eliminated variables: the order never changes the answer. |
| `Query.WeightAnyOrder` | sidecar/belief/infer.py:134-139 | The brute-force weight does not depend on how the hidden variables are listed. |
| `Query.EliminatedWeight` | sidecar/belief/infer.py:190-218 | Reduced, stripped of constants and eliminated, the factors weigh each state of the query as brute force does, up to the dropped constant. |
| `Query.SplitConstant` | sidecar/belief/infer.py:197-203 | Fully observed factors are multiplied into one constant and the others are kept in order. |
| `Query.EliminateLoop` | sidecar/belief/infer.py:210-218 | The loop leaves the factors that eliminating the whole order leaves. |
| `Query.Normalise` | sidecar/belief/infer.py:220-232 | The last table is normalised, or reported as zero, or lacks an axis for the variable. |
| `Query.ZeroSound` | sidecar/belief/infer.py:192-208 | For non-negative factors the two zero guards fire exactly when the evidence has total weight zero. |
| `Query.Ask` | sidecar/belief/infer.py:177-232 | The answer is the brute-force normalised sum of products; an error exactly when non-negative factors give the evidence weight zero. |
| `Names.AuxiliaryInjective` | sidecar/belief/noisy_or.py:28-32 | An auxiliary name determines its variable, role and index, so two calls never collide. |
| `NoisyOr.OrTable` | sidecar/belief/noisy_or.py:97-100 | The table filled in place is the deterministic OR. |
| `NoisyOr.ChainSum` | sidecar/belief/noisy_or.py:86-107 | Summing any prefix of the chain out leaves the closed form of the causes so far at its accumulator. |
| `NoisyOr.Exact` | sidecar/belief/noisy_or.py:61-109 | For every number of causes, summing the auxiliaries out gives 1 - (1 - leak) * product over true parents of (1 - strength). |
| `NoisyOr.DecompositionScope` | sidecar/belief/noisy_or.py:61-71 | The factors mention the variable, its parents and only names that this call introduces. |
| `NoisyOr.DecompositionNonNegative` | sidecar/belief/noisy_or.py:71-75 | With leak and strengths in range no table entry is negative, so the exact query applies. |
| `NoisyOr.BuildMechanisms` | sidecar/belief/noisy_or.py:86-93 | The loop names and builds one mechanism per cause. |
| `NoisyOr.BuildGates` | sidecar/belief/noisy_or.py:102-107 | The loop threads the accumulator from the leak to the variable itself. |
| `NoisyOr.Build` | sidecar/belief/noisy_or.py:61-109 | Returns the decomposition, or an error exactly when the leak or a strength is outside [0, 1]. |
| `Tables.NetworkWeight` | sidecar/belief/ground.py:83-111 | The weight a query on the flattened factors normalises is the marginal of the product of closed-form tables. |
| `Tables.QueryAnswers` | sidecar/belief/ground.py:114-143 | An exact query on the factor list answers for the network of closed-form tables. |
| `Ground.GroundNameCollision` | sidecar/belief/ground.py:40-46 | Two accepted pairs share a ground name exactly when equal or when a ":" moves between node id and variable. |
| `Ground.SharedGroundName` | sidecar/belief/ground.py:40-46 | Counterexample: variable b of node "a:" and variable ":b" of node a share a ground name. |
| `Ground.GroupByTarget` | sidecar/belief/ground.py:88-93 | Groups causes by target, each group sorted by source with ties in input order. |
| `Ground.CollectTables` | sidecar/belief/ground.py:95-108 | Walks nodes and variables in sorted order, one noisy-OR table each, in-node causes before edge causes. |
| `Ground.GroundSlice` | sidecar/belief/ground.py:83-111 | The factors of every table, or an error exactly when a name or a strength is refused. |
| `Ground.SliceTablesAlike` | sidecar/belief/ground.py:91-97 | Another listing of nodes or causes changes at most the order of causes inside a table. |
| `Solve.SolveSlice` | sidecar/belief/ground.py:114-145 | Every unobserved variable gets the normalised marginal of the closed-form network, every observed one a point mass. |
| `Solve.SolveAnyOrder` | sidecar/belief/ground.py:83-145 | The same slice listed in any order of nodes and causes gives the same beliefs or the same error. |
| `Solve.SolveAnyListing` | sidecar/belief/ground.py:83-145 | The same slice with its nodes, each node's variables, each variable's dependencies and the causes in any listing gives the same beliefs or the same error. |
| `CauseOrder.ListShows` | sidecar/belief/ground.py:88-93 | The factor list shows in which order the causes of one link were listed. |
| `CauseOrder.OrderFreeIff` | sidecar/belief/ground.py:88-93 | Every listing of the causes grounds to the same result exactly when grounding fails or no link into a declared variable has two strengths. |
| `CauseOrder.TwoListings` | sidecar/belief/ground.py:88-93 | Counterexample: strengths 1/4 and 1/2 on one link, listed both ways, are accepted and give different factor lists. |
| `ModelCheck.Visit` | sidecar/belief/infer.py:273-283 | The three-state search either returns a real directed cycle or extends a parents-first order. |
| `ModelCheck.FindCycle` | sidecar/belief/infer.py:285-286 | No cycle returned means that all variables are in parents-first order. |
| `ModelCheck.CheckOwners` | sidecar/belief/infer.py:243-252 | Which of the three ownership errors is raised, exactly. |
| `ModelCheck.CheckTables` | sidecar/belief/infer.py:254-265 | The verdict is that of the first table that is not sound, unknown parents before bad columns. |
| `ModelCheck.CheckModel` | sidecar/belief/infer.py:235-286 | Cyclic exactly when a well-formed model has a directed cycle, also one of a table that names its own variable as parent; the cycle is returned. Accepted tables with exact columns sum to one. |
| `ModelCheck.OrderedTotal` | sidecar/belief/infer.py:238-242 | The product of normalised tables in parents-first order sums to one. |
| `Graphs.ForcedAfterCycle` | internal/engine/brain/belief_attack_graph.go:263-275 | A node taken before its predecessor was forced, and is reachable from a cycle. |
| `Graphs.AgainstIffForced` | internal/engine/brain/belief_attack_graph.go:253-285 | An edge runs against the order exactly when its head was forced, with nothing ready, before its tail was picked. |
| `AttackGraph.AssignPotentials` | internal/engine/brain/belief_attack_graph.go:232-288 | The counting loops give each id its rank in the order "smallest ready id, else smallest id". |
| `AttackGraph.BreakCycles` | internal/engine/brain/belief_attack_graph.go:174-204 | The loops compute the cut that the lemmas below are about. |
| `AttackGraph.PotentialsBijective` | internal/engine/brain/belief_attack_graph.go:249-287 | Potentials are a bijection from the ids onto 0 .. n - 1. |
| `AttackGraph.CutNodes` | internal/engine/brain/belief_attack_graph.go:197-203 | The nodes come back sorted by id, changed only in their potential. |
| `AttackGraph.CutSharesEdges` | internal/engine/brain/belief_attack_graph.go:185-195 | Kept and dropped edges are together the input, with multiplicity: none lost, none doubled. |
| `AttackGraph.CutAcyclic` | internal/engine/brain/belief_attack_graph.go:170-174 | The kept edges have no cycle. |
| `AttackGraph.CutOnlyAfterCycles` | internal/engine/brain/belief_attack_graph.go:105-107 | The head of every cut edge is reachable from an input cycle. |
| `AttackGraph.CutExactly` | internal/engine/brain/belief_attack_graph.go:263-275 | An edge is cut exactly when its head is forced before its tail is picked. |
| `AttackGraph.CutsNothingIffAcyclic` | internal/engine/brain/belief_attack_graph.go:105-107 | Nothing is cut exactly when the input has no cycle. |
| `AttackGraph.AcyclicLosesNothing` | internal/engine/brain/belief_attack_graph.go:170-174 | An acyclic input keeps every edge. |
| `AttackGraph.CutOffCycle` | internal/engine/brain/belief_attack_graph.go:264-268 | Counterexample: an edge that only leaves a cycle is cut, because the smallest id is forced first. |
| `AttackGraph.FirstForced` | internal/engine/brain/belief_attack_graph.go:269-275 | Where every node waits for another, the smallest id keeps no incoming edge. |
| `AttackGraph.CutRelisted` | internal/engine/brain/belief_attack_graph.go:170-174 | The same graph listed in any order gives the identical result. |
| `AttackGraph.EnablementGraph` | internal/engine/brain/belief_attack_graph.go:128-168 | The loops compute the enablement graph that the next lemmas are about. |
| `AttackGraph.EnabledExactly` | internal/engine/brain/belief_attack_graph.go:120-125 | It holds exactly the belief-bearing nodes and the enablement edges between them, with multiplicity. |
| `AttackGraph.EnabledWellFormed` | internal/engine/brain/belief_attack_graph.go:222-226 | What reaches the cut has unique ids and no edge out of the node set. |
| `AttackGraph.DerivationRelisted` | internal/engine/brain/belief_attack_graph.go:109-113 | The derivation depends on the nodes and edges present, not on their order. |
| `AttackGraph.DeriveAttackGraph` | internal/engine/brain/belief_attack_graph.go:116-118 | The derived graph is the cut of the enablement graph, and acyclic. |
| `Slice.BallIsReach` | internal/engine/brain/belief_slice.go:37-40 | Membership in a hop ball is the existence of a walk of at most that length to the target. |
| `Slice.BackwardSearch` | internal/engine/brain/belief_slice.go:97-128 | Breadth-first search visits exactly the ids within the hop bound and gives each its shortest distance. |
| `Slice.ChosenIsTop` | internal/engine/brain/belief_slice.go:130-135 | Over budget, the target and the budget - 1 best others by (relevance, id) survive. |
| `Slice.TopIsUnique` | internal/engine/brain/belief_slice.go:132-135 | No other set of that size is made of the best candidates. |
| `Slice.SelectByBudget` | internal/engine/brain/belief_slice.go:136-161 | Sorting and truncating any listing of the candidates gives exactly that set. |
| `Slice.BuildGraph` | internal/engine/brain/belief_slice.go:165-189 | Kept nodes sorted by id with every edge between two of them. |
| `Slice.DropTargetOutEdges` | internal/engine/brain/belief_slice.go:79-90 | Edges out of the target move to the dropped ones, the others stay in order. |
| `Slice.ExtractBoundedSlice` | internal/engine/brain/belief_slice.go:60-72 | The composition computes the slice that the next lemmas are about; an unknown target gives the empty graph. |
| `Slice.SliceNodes` | internal/engine/brain/belief_slice.go:37-50 | The slice holds exactly the hop-bounded ancestors, or the best of them when they exceed the budget. |
| `Slice.SliceEdges` | internal/engine/brain/belief_slice.go:52-54 | It is acyclic, nothing leaves the target, and kept and dropped edges are together the induced ones. |
| `Slice.SliceLosesNothing` | internal/engine/brain/belief_slice.go:14-17 | When the induced edges that do not leave the target are acyclic, no other edge is lost. |
| `Slice.SliceCutsExactly` | internal/engine/brain/belief_slice.go:74-90 | An induced edge that does not leave the target is cut exactly when its head is forced before its tail, and kept otherwise. |
| `Slice.TargetStarved` | internal/engine/brain/belief_slice.go:74-78 | A target with the smallest id of a slice in which every node waits for another keeps no edge at all. |
| `Slice.TargetLosesItsEdge` | internal/engine/brain/belief_slice.go:74-78 | Counterexample: the only edge into the target is cut, although it is on no cycle. |
| `Slice.ThreeHosts` | internal/engine/brain/belief_slice.go:74-78 | A graph of three hosts that the counterexample applies to. |
| `Slice.SliceRelisted` | internal/engine/brain/belief_slice.go:56-59 | The same graph in any order gives the identical slice. |
| `GateModel.DigestSame` | internal/engine/brain/belief_slice_gate.go:110-125 | A digest depends on evidence and shape only, never on a belief. |
| `GateModel.CheckKeeps` | internal/engine/brain/belief_slice_gate.go:174-190 | Checking keeps the invariant: a recorded digest is answered or has its request pending. |
| `GateModel.ScoreKeeps` | internal/engine/brain/belief_slice_gate.go:349-384 | Scoring, applying and invalidating keep it, stale scores included. |
| `GateModel.RunKeeps` | internal/engine/brain/belief_slice_gate.go:174-392 | Every interleaving of checks, scores and new evidence, on changing graphs, keeps it. |
| `GateModel.EmptyGate` | internal/engine/brain/belief_slice_gate.go:163-165 | So it holds in every state reachable from an empty gate. |
| `GateModel.ScoreRights` | internal/engine/brain/belief_slice_gate.go:350-355 | A score never turns a right belief into a wrong one. |
| `GateModel.InvalidationCorrects` | internal/engine/brain/belief_slice_gate.go:375-383 | When a score invalidates a recorded digest, it has just put a wrong belief right. |
| `GateModel.RoundProgress` | internal/engine/brain/belief_graph_wire.go:76-110 | After a round nothing is pending, and if the next round will ask again, fewer beliefs are wrong. |
| `GateModel.IssuingCosts` | internal/engine/brain/belief_graph_wire.go:94-109 | The k-th later round asks only if at least k beliefs were put right. |
| `GateModel.RoundsSettle` | internal/engine/brain/belief_graph_wire.go:76-110 | On a fixed world only the first n + 1 rounds for n nodes can ask; then rounds change nothing and each scored node holds its own slice's score. |
| `SliceGate.DownstreamAffected` | internal/engine/brain/belief_slice_gate.go:252-287 | The forward walk returns the sorted, bounded set of nodes within the hop bound. |
| `SliceGate.Gate.SliceDigest` | internal/engine/brain/belief_slice_gate.go:126-150 | Collects ids, kinds and evidence in slice order, and the edges. |
| `SliceGate.Gate.Check` | internal/engine/brain/belief_slice_gate.go:174-190 | Asks exactly when the current digest is not the recorded one, and records it. |
| `SliceGate.Gate.Apply` | internal/engine/brain/belief_slice_gate.go:206-226 | Writes exactly when the digest is still the recorded one, keeping each node's evidence. |
| `SliceGate.Gate.Invalidate` | internal/engine/brain/belief_slice_gate.go:236-244 | Forgets exactly the digests of the affected nodes. |
| `SliceGate.CheckNode` | internal/engine/brain/belief_graph_wire.go:94-103 | Checking one node and tapping its request is the check step of the protocol. |
| `SliceGate.Worker.ChangesABelief` | internal/engine/brain/belief_slice_gate.go:318-333 | True exactly when some scored node does not hold that content yet. |
| `SliceGate.Worker.ScoreTarget` | internal/engine/brain/belief_slice_gate.go:356-365 | Keeps of a slice's scores only the target's own. |
| `SliceGate.Worker.Drain` | internal/engine/brain/belief_slice_gate.go:342-392 | Performs the score steps of all buffered requests in order and reports every invalidated id once, sorted. |
| `SliceGate.SliceBeliefRound` | internal/engine/brain/belief_graph_wire.go:76-110 | Performs one round of the protocol, and scores something exactly when some node was out of date. |
| `EventLog.AppendOnceKeeps` | internal/infra/datapool/timelinestore.go:144-166 | A new key appends one event; repeating the last key changes nothing. |
| `EventLog.LoadsHistory` | internal/infra/datapool/timelinestore.go:340-376 | History table and stream tail together read back the whole history. |
| `EventLog.LoadsTail` | internal/infra/datapool/timelinestore.go:173-192 | Any live tail reads back as that tail. |
| `EventLog.TrimKeeps` | internal/infra/datapool/timelinestore.go:264-334 | A trim never loses or repeats an event, wherever it stops. |
| `EventLog.AppendDurableOnce` | internal/engine/brain/engine.go:224-246 | Retries under one key put the event on the log at most once, and exactly once when they report success. |
| `EventLog.SnapshotKeeps` | internal/engine/brain/engine.go:306-325 | Saving and trimming change neither the history nor the World, whatever fails. |
| `EventLog.ApplyKeeps` | internal/engine/brain/engine.go:253-296 | A running engine logged and folded the event once; a stopped one left the World alone and the log at most one event ahead. |
| `EventLog.HydrateExact` | internal/engine/brain/engine.go:413-476 | Snapshot plus tail rebuild the fold of the whole history. |
| `EventLog.ApplyAllHistory` | internal/engine/brain/engine.go:327-356 | A series of applies logs its events in order, up to the one that stopped the engine. |
| `EventLog.RunKeeps` | internal/engine/brain/engine.go:224-325 | Every interleaving of events, faults, snapshots, trims, crashes and restarts keeps the invariant. |
| `EventLog.WorldIsFold` | internal/engine/brain/brain.go:538-544 | From a new tenant: a running World is the fold of the durable history, a stopped one at most one event behind, and a restart rebuilds the fold. |
| `EventLog.HistoryGrows` | internal/engine/brain/engine.go:641-650 | The durable history only grows. |
| `EventLog.FramesAreStable` | internal/engine/brain/engine.go:674-691 | A frame at a length the history once had never changes, and the last frame is the live World. |
| `EngineLoop.TimelineStore.Append` | internal/infra/datapool/timelinestore.go:144-166 | Performs the idempotent append, or nothing when refused. |
| `EngineLoop.TimelineStore.CopyToHistory` | internal/infra/datapool/timelinestore.go:286-334 | Copies rows that are not in the table yet. |
| `EngineLoop.TimelineStore.Trim` | internal/infra/datapool/timelinestore.go:264-282 | Copies first and removes after, also when it stops part-way. |
| `EngineLoop.EngineObject.AppendDurably` | internal/engine/brain/engine.go:224-246 | The retry loop performs the bounded retries with one key. |
| `EngineLoop.EngineObject.SnapshotAndTrim` | internal/engine/brain/engine.go:306-325 | Saves, trims the store and then empties the Timeline. |
| `EngineLoop.EngineObject.FoldEvent` | internal/engine/brain/engine.go:259-279 | Counts towards the snapshot, folds, and snapshots after the fold. |
| `EngineLoop.EngineObject.ApplyEvent` | internal/engine/brain/engine.go:253-296 | Appends before folding and stops on a failed append. |
| `EngineLoop.EngineObject.DrainIntake` | internal/engine/brain/engine.go:327-340 | Applies the queued events in order until one fails. |
| `EngineLoop.EngineObject.RunSystems` | internal/engine/brain/engine.go:342-356 | Applies what each system returns on the World that the ones before it left, until the engine stops; the log grows by what was applied, and if that is nothing every system is silent. |
| `EngineLoop.RepeatGrew` | internal/engine/brain/engine.go:361-376 | However often it sweeps, the log grows by exactly the events applied, and by one more at most if the engine stopped. |
| `EngineLoop.EngineObject.Tick` | internal/engine/brain/engine.go:361-376 | Sweeps over the queued events and the systems until one applies nothing; unless it stopped or hit the sweep cap, it ends with an empty queue and silent systems. |
| `EngineLoop.EngineObject.Hydrate` | internal/engine/brain/engine.go:413-476 | The replay loop rebuilds the hydrated engine; unless the tenant is new, the failures of interrupted work join the intake. |
| `EngineLoop.EngineObject.HistoryFrameAt` | internal/engine/brain/engine.go:679-691 | Folds the clamped prefix of the durable history. |
| `Sampler.VariableProb` | internal/engine/brain/bamcp.go:880-899 | Stopping at the first draw that fires gives the noisy-OR probability. |
| `Sampler.WorldProb` | internal/engine/brain/bamcp.go:861-875 | In an order with causes first, a world is sampled with the product of the closed-form tables. |
| `Sampler.SampleVariable` | internal/engine/brain/bamcp.go:880-899 | For every tape of random numbers the code follows the coin-flip tree of the variable. |
| `Sampler.SampleWorld` | internal/engine/brain/bamcp.go:861-875 | For every tape the code follows the coin-flip tree of the world. |
| `TopoOrder.StrandedMeansCycle` | internal/engine/brain/bamcp.go:794-798 | Something is stranded only by a cycle among declared causes. |
| `TopoOrder.SamplingOrder` | internal/engine/brain/bamcp.go:799-848 | The counting loops compute the forward sweeps over the sorted names: each variable once, causes before effects up to the stranded ones, which come sorted; nothing is stranded without a cycle or an undeclared cause. |
| `SweepOrder.OrderRelisted` | internal/engine/brain/bamcp.go:788-792 | The order depends on the variables, not on their listing. |
| `SweepOrder.SmallestFirstIff` | internal/engine/brain/bamcp.go:788-792 | It is the order that takes the smallest ready name each time exactly when no sweep has a ready name behind it and one ahead. |
| `SweepOrder.AscendingStraight` | internal/engine/brain/bamcp.go:788-792 | That holds in particular when each effect has a larger name than its causes. |
| `SweepOrder.SweepPassesBy` | internal/engine/brain/bamcp.go:788-792 | Counterexample: with a caused by b, the sweep gives b, c, a and the smallest ready name b, a, c. |
| `TopoOrder.SamplerExact` | internal/engine/brain/bamcp.go:799-875 | In any order with causes first, the sampling probability is the product of the variables' tables. |
| `NativeGround.TerminalVariables` | internal/engine/brain/belief_slice_native.go:264-280 | The variables of a kind that none of the kind depends on, sorted. |
| `NativeGround.IntraAgree` | internal/engine/brain/bamcp.go:742-748 | The two groundings give the same in-node causes exactly when no parent is listed twice. |
| `NativeGround.IntraChance` | internal/engine/brain/bamcp.go:742-748 | With every parent on and strengths strictly between 0 and 1, both give the variable the same chance exactly when no parent is listed twice. |
| `NativeGround.ListedTwice` | internal/engine/brain/bamcp.go:742-748 | Counterexample: a parent of strength 1/2 listed twice fails with chance 1/4 for the sampler and 1/2 for the solver. |
| `NativeGround.EdgeCausesAgree` | internal/engine/brain/bamcp.go:753-776 | Both groundings give a declared variable the same causes across edges. |
| `NativeGround.VariablesAlike` | internal/engine/brain/bamcp.go:707-722 | The groundings agree on every variable up to the order of causes. |
| `SamplerNetwork.SameWeights` | internal/engine/brain/bamcp.go:707-722 | Sampler and solver give every world the same weight. |
| `SamplerNetwork.CausesAcyclic` | internal/engine/brain/bamcp.go:792-798 | The causes grounded from an acyclic slice are declared and have no cycle. |
| `SamplerNetwork.SamplerMatchesSolver` | internal/engine/brain/bamcp.go:850-875 | The sampling order is topological and a world's probability is the product of the tables the solver gets. |
| `SamplerGround.GroundForSampling` | internal/engine/brain/bamcp.go:723-786 | One sampled variable for each declared variable, with the causes of the specification. |
| `SamplerGround.GroundAttackGraph` | internal/engine/brain/belief_slice_native.go:174-227 | The specifications and causes whose tables the solver uses. |
| `SamplerGround.PrepareSlice` | internal/engine/brain/bamcp.go:366-367 | Grounding and ordering give the coin flips of the slice, which depend on nothing else; without a cycle and without a parent listed twice they give every world the weight of the solver's network. |
| `SamplerGround.SampleSlice` | internal/engine/brain/bamcp.go:366-376 | For every tape of random numbers the sampled world follows those coin flips. |
| `SamplerGround.DerivedSlices` | internal/engine/brain/bamcp.go:792-795 | Every slice of every derived graph meets the conditions of the theorem, up to the ground names. |
| `SearchTree.RolloutMoves` | internal/engine/brain/bamcp.go:656-678 | A rollout takes exactly as many new candidates as the horizon leaves. |
| `SearchTree.SimulateMoves` | internal/engine/brain/bamcp.go:598-623 | A simulation takes exactly depth - step distinct free candidates. |
| `SearchTree.SimulateConserves` | internal/engine/brain/bamcp.go:598-623 | At every node visits stay the sum of counts, and a child's visits stay its move's count less one. |
| `SearchTree.SimulateGrows` | internal/engine/brain/bamcp.go:611-618 | A simulation adds at most one node and removes none. |
| `SearchTree.SimulateBounds` | internal/engine/brain/bamcp.go:584-623 | A return lies in [0, (w * V + T) * sum of discount^k for k below the remaining depth]. |
| `SearchTree.RunConserves` | internal/engine/brain/bamcp.go:374-379 | Over every run the books of every node balance and the tree has at most one node per simulation besides the root. |
| `SearchTree.RunTotals` | internal/engine/brain/bamcp.go:374-379 | Candidates are tried in order and root totals respect the bound. |
| `SearchTree.RankingWithin` | internal/engine/brain/bamcp.go:381-385 | With at least one simulation per candidate every candidate is tried and its mean lies within the bound. |
| `SearchLoop.Tree.IsUnlocked` | internal/engine/brain/bamcp.go:568-578 | True without enablers or with a taken one. |
| `SearchLoop.Tree.Select` | internal/engine/brain/bamcp.go:633-651 | The first untried free candidate, else the first of highest score. |
| `SearchLoop.Tree.RolloutFrom` | internal/engine/brain/bamcp.go:656-678 | The discounting loop computes the rollout return and restores the taken marks. |
| `SearchLoop.Tree.SimulateFrom` | internal/engine/brain/bamcp.go:598-623 | The recursion on the shared buffers performs the simulation and restores the taken marks. |
| `SearchLoop.Tree.RunSimulation` | internal/engine/brain/bamcp.go:374-379 | One simulation on the sampled outcomes. |
| `SearchLoop.Search` | internal/engine/brain/bamcp.go:374-379 | One simulation per sampled world from an empty tree. |
| `Bank.SpillMembers` | internal/engine/bank/reconciler.go:429-442 | Enough members for the waiting jobs and no more, capped. |
| `Bank.SiftSorts` | internal/engine/bank/reconciler.go:593-597 | The inner swap loop extends the sorted prefix by one. |
| `Bank.SortInPlace` | internal/engine/bank/reconciler.go:590-599 | The in-place insertion sort is a sorted permutation. |
| `Bank.DrainOrder` | internal/engine/bank/reconciler.go:590-606 | Fewest jobs first, the oldest among equals, on a copy. |
| `Bank.FirstPass` | internal/engine/bank/reconciler.go:252-285 | After the first pass the active rows are exactly the live and the suspended members. |
| `BankReconciler.Reconciler.Classify` | internal/engine/bank/reconciler.go:252-285 | Removes the recycled, dead and drained, releases the jobs of the dead, and lists the live and suspended in order. |
| `BankReconciler.Reconciler.MarkDead` | internal/engine/bank/reconciler.go:509-539 | Releases exactly the jobs of the dead member and removes its row. |
| `BankReconciler.Reconciler.Drain` | internal/engine/bank/reconciler.go:559-585 | Drains the n least busy members: those without jobs are removed at once, the others keep their rows as draining, no other row changes. |
| `BankReconciler.Reconciler.Launch` | internal/engine/bank/reconciler.go:614-647 | Adds one row per new id in the initial state and changes no other. |
| `BankReconciler.Reconciler.SuspendIdle` | internal/engine/bank/reconciler.go:355-373 | Suspends exactly the members that were idle long enough, also ones that were just drained; no other row and no count changes. |
| `BankReconciler.Reconciler.Recycle` | internal/engine/bank/reconciler.go:304-310 | Recycles exactly the first n suspended members and touches no live one. |
| `BankReconciler.Reconciler.Shrink` | internal/engine/bank/reconciler.go:302-315 | Recycles the first suspended members and drains only once all are gone; the drained are exactly the live members that left, least work first; the table is given exactly. |
| `BankReconciler.ShrunkActive` | internal/engine/bank/reconciler.go:302-315 | In that table the active rows are the live members less the drained ones and the suspended ones not recycled. |
| `BankReconciler.Reconciler.Adjust` | internal/engine/bank/reconciler.go:301-320 | Reaches the target by shrinking or by launching exactly the missing members; the table is given exactly. |
| `BankReconciler.StaysAttended` | internal/engine/bank/reconciler.go:528-538 | If every job is held by a member that has a row and counts jobs, a pass leaves no job with a member that has no row. |
| `BankReconciler.Reconciler.ReconcileBank` | internal/engine/bank/reconciler.go:246-328 | Members neither dead nor draining number exactly the target; the drained are exactly the live members no longer among them; nobody waits suspended if one was drained; no kept member would have interrupted less work; busy members keep their rows; launching recycles nobody; with an empty queue the idle are suspended. The table and the job holders are given exactly. |
| `BeliefPipeline.StepKeeps` | internal/engine/brain/belief.go:140-175 | Every step keeps: a recorded digest is answered, or its request or result is under way. |
| `BeliefPipeline.RunKeeps` | internal/engine/brain/belief.go:258-360 | So does every interleaving of evidence, requests, scoring and folding. |
| `BeliefPipeline.QuietIsRight` | internal/engine/brain/belief.go:146-175 | With empty queues and a silent system each belief is the score of the current evidence. |
| `BeliefPipeline.StepWorks` | internal/engine/brain/belief.go:258-360 | Each step but new evidence uses up exactly one unit of work. |
| `BeliefPipeline.RestIffNoWork` | internal/engine/brain/belief.go:258-267 | The pipeline is at rest exactly when no work is left, and can move otherwise. |
| `BeliefPipeline.RunsEnd` | internal/engine/brain/belief.go:258-360 | Without new evidence every run ends after at most that many steps. |
| `BeliefPipeline.Pipeline.RequestScores` | internal/engine/brain/belief.go:258-267 | The system's loop is the run that asks once for each stale host, in order, and takes no other step; no listed host is stale afterwards. |
| `BeliefPipeline.Pipeline.Drain` | internal/engine/brain/belief.go:337-360 | The worker's loop is a run of fetch and submit steps that puts the score of every buffered request on the intake, in order. |
| `BeliefPipeline.Pipeline.FoldResults` | internal/engine/brain/belief.go:162-175 | Folding the queued results is the run that applies each of them, in order. |
| `Settlement.BrierBounds` | internal/engine/brain/bet_scoring.go:59-81 | For a valid prediction the score lies in [0, 1]. |
| `Settlement.FirstWins` | internal/engine/brain/bet_settlement.go:186-338 | The settlement of a bet is that of the first settlement event folded for it, of any of the three kinds. |
| `Settlement.AtMostOne` | internal/engine/brain/bet_settlement.go:186-338 | A bet has at most one settlement. |
| `Settlement.SettledForEver` | internal/engine/brain/bet_settlement.go:186-338 | Once settled, a bet stays settled the same way. |
| `Settlement.FirstDecisionWins` | internal/engine/brain/destructive_authz.go:124-195 | The recorded authorization is the first decision after the first request. |
| `Settlement.ApprovalIsFirstDecision` | internal/engine/brain/destructive_authz.go:172-195 | A recorded decision points to the first request and the first decision after it in the log. |
| `Settlement.DestructiveNeedsApproval` | internal/engine/brain/bet_settlement.go:476-534 | A destructive proof submits only when the first decision folded after its request was an approval. |
| `Settlement.RunSettles` | internal/engine/brain/bet_settlement.go:476-756 | Over every run: one settlement per bet, from its first event, scored by the squared error of its verdict within [0, 1]. |
| `Settlement.Entities.ApplySettlement` | internal/engine/brain/bet_settlement.go:186-338 | The scan-and-add reducers perform the fold step. |
| `Settlement.Entities.ApplyRequested` | internal/engine/brain/destructive_authz.go:124-150 | Adds one open action per hypothesis. |
| `Settlement.Entities.ApplyDecided` | internal/engine/brain/destructive_authz.go:172-195 | Decides the open action in place, once. |
| `Decider.StepKeeps` | internal/engine/brain/decider.go:210-234 | Every step keeps the books of requests, answers and open decisions, and the numbering of decisions. |
| `Decider.RunKeeps` | internal/engine/brain/decider.go:288-437 | So does every interleaving of gate, worker, engine and mission changes. |
| `Decider.OneAtATime` | internal/engine/brain/decider.go:288-301 | At most one open decision per mission, in flight exactly then; each request is waiting or was answered exactly once. |
| `Decider.DeciderLoop.GateMission` | internal/engine/brain/decider.go:288-301 | The gate performs the request step. |
| `Decider.DeciderLoop.CloseOpen` | internal/engine/brain/decider.go:171-182 | Closes the first open decision of the mission, if any. |
| `Decider.DeciderLoop.Fold` | internal/engine/brain/decider.go:227-234 | Folding a queued event performs the fold step. |
| `Decider.DrainRun` | internal/engine/brain/decider.go:344-367 | A whole drain as steps of the protocol: requests of planning missions go back to the front in order, each other one is answered in order, and nothing else changes. |
| `Decider.DeciderLoop.Drain` | internal/engine/brain/decider.go:344-367 | Performs exactly those steps: afterwards the buffer holds the requests of planning missions, and the intake the answers of all others. |
| `Calibration.BinIsInterval` | internal/engine/brain/calibration.go:231-240 | The clamped index picks the half-open interval of the prediction, the last one closed. |
| `Calibration.BinsPartition` | internal/engine/brain/calibration.go:191-194 | Sums within bins add up to the sum over all points. |
| `Calibration.BinsAddUp` | internal/engine/brain/calibration.go:197-210 | Bin counts sum to N and count-weighted bin means equal the overall means. |
| `Calibration.BinGap` | internal/engine/brain/calibration.go:202-209 | Within a bin the squared error is at least the count times the squared gap of the means. |
| `Calibration.BrierBoundsGap` | internal/engine/brain/calibration.go:197-210 | The Brier score is at least the bin-weighted mean of the squared gap. |
| `Calibration.SummaryPermuted` | internal/engine/brain/calibration.go:174-211 | A summary does not depend on the order of its points. |
| `Calibration.ReportPermuted` | internal/engine/brain/calibration.go:115-170 | The report does not depend on the order of the settlements. |
| `Calibration.AccumulateBins` | internal/engine/brain/calibration.go:180-195 | The in-place loop accumulates each bin's sums and count. |
| `Calibration.SummarizeCalibration` | internal/engine/brain/calibration.go:174-211 | The loops compute the summary. |
| `Calibration.GroupByTechnique` | internal/engine/brain/calibration.go:130-151 | Groups the scored points by technique in order. |
| `Calibration.ReadAll` | internal/engine/brain/calibration.go:130-139 | Reads all settlements, or stops at the first belief that cannot be read. |
| `Calibration.ComputeCalibration` | internal/engine/brain/calibration.go:115-170 | The report, or an error exactly when some belief cannot be read. |

## Left out

- SamplerGround.GroundForSampling: requires distinct, accepted ground names, because the source silently skips or overwrites the others and the agreement with the solver is only claimed for distinct names.
- SamplerGround.PrepareSlice: requires those names; the solver's weights are stated for slices and kinds without a cycle, because the source orders a cycle arbitrarily, and for kinds that list no parent twice.
- SamplerGround.SampleSlice: requires those names, for the same reason.
- Solve.SolveSlice: requires distinct node ids, distinct ground names and no declared name that is also an auxiliary name, because the source leaves that to its callers.
- NoisyOr.Exact: requires that no parent is an auxiliary name of the variable, for the same reason.
- ModelCheck.CheckModel: the sum-to-one clause is for exactly normalised columns of tables that list no parent twice; the tolerance of the check is modelled, its effect on the total is not bounded.
- SearchTree.SimulateConserves: nodes of the search tree are values, so the sharing of nodes by pointer is not captured.
- SearchTree.SimulateBounds: the UCB1 score is an arbitrary function, since no property depends on its logarithm and root.
- BankReconciler.Reconciler.ReconcileBank: launches, stops, removals, queue reads and state writes on existing rows succeed, 32-bit counts are not modelled, and resuming a suspended member, which writes no row, is left out together with closing stale jobs; no job is assigned during a pass.
- EventLog.ApplyKeeps: events of an older run, which the reducer drops or detaches, and the subscribers that see folded events are part of the abstract reducer.
- SliceGate.Gate.Apply: a substrate that fails part-way through the writes is not modelled.
- Sampler.SampleVariable: strengths are point values, so the Beta draws that precede each coin are not modelled.
- Sampler.SampleWorld: strengths are point values for the same reason.
- EngineLoop.EngineObject.HistoryFrameAt: folds the whole history; the frame of a single mission, which folds that mission's slice of it, is not modelled.
- Decider.DeciderLoop.Drain: what the language model decides is an arbitrary list of other events.
- Floating-point rounding, the PRNG, SHA-256 and JSON encoding.
- The one-step value-of-information planner, the sampling of hypothesis outcomes and the final candidate sort of the planner.
- Run checks and the snapshot codec of the engine.
- Edge outcomes and labels that a settlement also submits, and the CEL evaluation of proof predicates.
- Identity resolution and the mission, work, domain, credential, entity and hypothesis reducers: each finds its entity by key or creates it, and merges the fields of the event into it.
- Artifact tables with parents of more than two states: every variable of the system is binary.
- Regex redaction, the command line, Kubernetes, gRPC, HTTP and identity clients.
