# A verified model of the forwarding engine and its control plane

This project models the Go agent's forwarding engine and service control plane, with three smaller parts around them,
in Dafny 4.11, and proves properties of the model. `dafny verify dfyconfig.toml` checks the whole project.

## What is modelled

**Route selection and failover.** A dial of the router retries: every try selects a node hop by hop (`Hop.dfy`,
`Selector.dfy`, `Weighted.dfy`), builds a route out of the selection (`Chains.dfy`, `Routes.dfy`), prints its path
(`RoutePaths.dfy`) and dials it (`Dialing.dfy`). Dialling marks and clears the failure markers that the next selection
reads. Nodes, routes, transports and markers are classes; copying a transport returns the original, as the code does, so
a multiplexed transport is shared. What a dial does is described a second time as a script of foreign calls
(`Wire.dfy`, `Script.dfy`), with an oracle for the outcome of every call; the methods are proved to carry out exactly the
script, and the scripts are characterised for every nesting of routes and every point of failure (`Refusal.dfy`). On top
stands the potential argument for the retry loop (`FlatDial.dfy`, `Failover.dfy`, `Router.dfy`): every failed attempt
uses up one of the failures that live broken nodes have left, for chains of any number of hops. `Example.dfy` dials
through chains that meet the conditions of the bound or break those of the path.

**Batch service commands.** Create, update, delete, pause and resume work on a registry and an ordered list of
configurations, with an oracle that may refuse any parse (`Registry.dfy`, `Services.dfy`, `Agent.dfy`). The methods of
the agent are proved against a relation between the states before and after; what every run of commands keeps is proved
about that relation (`ServiceRuns.dfy`, `ServiceLaws.dfy`, `ServiceEffects.dfy`, `ServiceOrder.dfy`).

**The accept loop and the traffic report.** `Accept.dfy` holds the loop with its back-off, the states it shows and the
log of the last twenty events. `Traffic.dfy` is a transition system of the report: handlers count, the observer reads,
sends, reads again and stores, in every interleaving.

**Indexes, compilers and text.** Suffix lookup of hosts against a scan of the list (`Suffix.dfy`, `Ingress.dfy`,
`Hosts.dfy`); the tree of matchers built from a rule against the evaluation of the rule (`Matcher.dfy`); export of
forwards against import (`ForwardText.dfy`, `Text.dfy`); the rewrite of durations in a JSON tree (`Duration.dfy`).

**The reporter's lock.** `Reporter.dfy` is a transition system of any number of run loops, receivers and stops that share
the connection.

## What the proofs found

- A multiplexed transport that is selected twice makes `routePath` recurse until the stack overflows, whatever its depth;
  otherwise the path always exists and is the selection (`RoutePaths.PathExistsIffDistinct`). A chain that holds one hop
  twice shows it (`Examples.SameHopTwice`).
- Round robin stays fair across the wrap of its counter exactly when the length of the list divides 2^64
  (`Weighted.RoundRobinFairAcrossWrap`).
- The route is cut at the first hop that finds every candidate dead, and the target is dialled from there
  (`Routers.CutAtFirstDeadHop`); when that is the first hop, the chain is bypassed (`Routers.BypassedWhenAllDead`).
- A positive priority counts more than failures: a hop is sure to return a live node exactly when no priority is
  positive or all candidates of top priority are live (`Hops.LiveUnlessDeadPreferred`, `Examples.DeadIsPreferred`).
- An update whose request pads a name with white space replaces the service and keeps the old configuration
  (`ServiceLaws.UpdateStored`, `ServiceLaws.PaddedUpdateForgets`).
- Taking back a pause restores nothing: the names are still registered, so every service made for them is refused and
  closed (`ServiceLaws.PauseRollbackRestoresNothing`). In runs of the five commands that branch is never reached.
- Registry and configuration name the same services exactly as long as no update of known services and no resume of
  resumable ones meets a configuration that does not parse (`ServiceOrder.TidyIff`, `ServiceOrder.RunTidyIff`). The service
  lost then comes back exactly with a create that is accepted (`ServiceLaws.LostUntilCreated`), which leaves two entries of
  its name (`ServiceOrder.RecreatedTwice`).
- A head is resolved before the routes it is dialled through, so in a nested route a head that does not resolve is refused
  before anything is connected, whatever its place on the path (`Refusal.DialStopsShort`).
- Bytes counted between the second read of a counter and the store that follows are lost, and only these
  (`Traffic.EveryRunConserves`, `Traffic.LossHappens`).
- Bytes of a refused report are stuck exactly until something is counted again (`Traffic.StuckIff`, `Traffic.StuckHappens`).
- `hostMapper.Lookup` never sets its second result, so it is false for every host (`Hosts.HostMapper.Lookup`).
- `Stop` of the reporter reads the connection twice without the lock. It finds none the second time exactly when a run
  loop dropped the connection in between and none was stored since (`Reporters.StopFindsNothingIff`,
  `Reporters.StopMayFindNothing`).
- The documentation of `FailFilter` says that an object is dead when it failed more often than `MaxFails`; the code
  counts it dead from `MaxFails` on. The model follows the code (`Selector.LiveOnly`).

## Assumptions

Code that is not in the repository enters as follows. The fail marker: `Mark` adds one and stamps the time, `Reset` zeroes
the count and keeps the time. `Node.Copy` is shallow. Parsing a service gives a fresh open service or an error. Host and
port splitting, duration parsing, the makers of leaf matchers, dialling, handshakes and name resolution are oracles. A
dialer calls the dial function of its network dialer once for every dial. Loop variables are per iteration, so stored
references are distinct. The stack of the process is deeper than a chain has hops.

## Model

| member | source | states |
|---|---|---|
| Nodes.Transport.Copy | go-gost/x/chain/transport.go:102-106 | the copy of a transport is the transport itself |
| Nodes.Node.CopyWith | go-gost/x/chain/chain.go:105-106 | a copy shares the options and the marker and is a new node |
| Nodes.Route.AddNode | go-gost/x/chain/route.go:125-127 | a node is appended to the route |
| Weighted.RandomWeighted.Add | go-gost/x/selector/weighted.go:25-29 | appends the item and keeps the sum equal to the sum of the weights |
| Weighted.RandomWeighted.Reset | go-gost/x/selector/weighted.go:49-52 | empties the table |
| Weighted.RandomWeighted.Next | go-gost/x/selector/weighted.go:31-47 | returns the item whose interval of draws holds the draw, for all weights; the fallback at the end is unreachable |
| Weighted.WeightedChoiceIsExact | go-gost/x/selector/weighted.go:38-44 | with weights of at least 1, exactly as many draws select an item as its weight says |
| Weighted.EveryDrawSelectsOne | go-gost/x/selector/weighted.go:38-46 | every draw selects one item and no other |
| Weighted.RoundRobin.Apply | go-gost/x/selector/strategy.go:28-35 | takes the next ticket of a 64-bit counter and returns the element at its residue |
| Weighted.InTurn | go-gost/x/selector/strategy.go:33-34 | the first ticket serves the first element and each next ticket the next one, until the counter wraps |
| Weighted.RoundRobinFair | go-gost/x/selector/strategy.go:28-35 | in every window that does not cross the wrap each index is served floor or ceiling of w/n times |
| Weighted.WrapServesZeroTwice | go-gost/x/selector/strategy.go:33-34 | a window across the wrap is unfair when the length does not divide 2^64 |
| Weighted.RoundRobinFairWhenDividing | go-gost/x/selector/strategy.go:33-34 | every window is fair when the length divides 2^64 |
| Weighted.RoundRobinFairAcrossWrap | go-gost/x/selector/strategy.go:28-35 | all windows are fair if and only if the length divides 2^64 |
| Selector.LimitsDecide | go-gost/x/selector/filter.go:33-61 | a node is live under the limit it sets, else under the one of the filter, else under one failure and ten seconds; without a marker it always is |
| Selector.OwnLimitsDecide | go-gost/x/selector/filter.go:33-50 | a node that sets both limits is judged by them alone |
| Selector.DefaultLimits | go-gost/x/selector/filter.go:45-50 | without limits one failure keeps a node out for ten seconds |
| Selector.LiveOnly | go-gost/x/selector/filter.go:31-63 | holds exactly the live nodes of the list |
| Selector.LiveInPlace | go-gost/x/selector/filter.go:31-63 | every node is judged for itself and keeps its place |
| Selector.WithBackup | go-gost/x/selector/filter.go:80-89 | holds exactly the nodes with the wanted backup flag |
| Selector.BackupsInPlace | go-gost/x/selector/filter.go:80-94 | every node is judged for itself and keeps its place |
| Selector.SingleCandidatePasses | go-gost/x/selector/filter.go:28-30 | a single candidate passes every pipeline, dead or not |
| Selector.ApplyFail | go-gost/x/selector/filter.go:27-64 | the loop leaves the live nodes; a single candidate is never filtered out |
| Selector.ApplyBackup | go-gost/x/selector/filter.go:75-95 | the loop leaves the primaries, or the backups when there is no primary |
| Selector.StandardPipeline | go-gost/x/selector/filter.go:27-95 | fail filter then backup filter leave exactly the live primaries, or the live backups when no primary is live; nothing exactly when all are dead |
| Selector.ApplyStrategy | go-gost/x/selector/strategy.go:28-115 | each strategy returns the element its rule names |
| Selector.FifoChoice | go-gost/x/selector/strategy.go:75-88 | the choice sticks to the first survivor, whoever comes after it |
| Selector.HashChoice | go-gost/x/selector/strategy.go:105-109 | the index is what the checksum leaves over in full rounds of the list |
| Selector.DrawnByWeight | go-gost/x/selector/strategy.go:59-70 | as many draws choose a node as its weight says, a weight that is not positive counting as 1 |
| Selector.ApplyRandom | go-gost/x/selector/strategy.go:50-71 | the table is rebuilt with positive weights and the draw selects by weight |
| Selector.NodeSelector.FilterAll | go-gost/x/selector/selector.go:35-38 | candidates pass through all filters in turn |
| Selector.NodeSelector.Select | go-gost/x/selector/selector.go:35-43 | returns the strategy's choice among the survivors, or nothing when none survives |
| Hops.DottedHostFilter | go-gost/x/hop/hop.go:212-234 | a dotted host filter accepts exactly the hosts that end in the rest of it |
| Hops.FilterAccepts | go-gost/x/hop/hop.go:198-258 | without a matcher a filter accepts exactly the requests for its protocol, under its path, and for its host with or without a port, or under its dotted domain; an empty field asks for nothing |
| Hops.BypassThenMatcher | go-gost/x/hop/hop.go:148-173 | a bypass that holds keeps a node out; otherwise a matcher alone decides; a node with neither matcher nor filter serves everyone |
| Hops.Candidates | go-gost/x/hop/hop.go:144-176 | exactly the non-nil nodes that may serve the request |
| Hops.CandidatesInPlace | go-gost/x/hop/hop.go:144-176 | every node is judged for itself and keeps its place |
| Hops.Hop.Gather | go-gost/x/hop/hop.go:144-176 | the loop collects the candidates in order |
| Hops.SortByPriority | go-gost/x/hop/hop.go:184-186 | a permutation in descending priority |
| Hops.Hop.Select | go-gost/x/hop/hop.go:130-196 | what a hop may return: nothing, the only candidate, a node of top priority, or a survivor of the pipeline |
| Hops.Hop.Choose | go-gost/x/hop/hop.go:184-195 | among several candidates a positive priority decides, then the selector |
| Hops.SelectedIsCandidate | go-gost/x/hop/hop.go:130-196 | a selected node is a candidate |
| Hops.NothingSelected | go-gost/x/hop/hop.go:137-195 | nothing is selected when the hop is bypassed or no node may serve, and otherwise only when the selector filters out several candidates without a positive priority; without a selector the node has top priority |
| Hops.StandardSelect | go-gost/x/hop/hop.go:180-195 | a live node, primary while a primary is live, and nothing exactly when all candidates are dead |
| Hops.LiveUnlessDeadPreferred | go-gost/x/hop/hop.go:184-195 | with a live candidate, every possible result is live exactly when no priority is positive or every candidate of top priority is live |
| Wire.ExecOutcome | go-gost/x/chain/route.go:188-298 | every run is the whole script or the script cut at one of its calls, with the matching clears, marks and hang-ups |
| Wire.ExecAsks | go-gost/x/chain/route.go:129-298 | a run makes the calls of its script one by one in order up to the first refused, succeeds when none is, and its connections are the ones granted |
| Wire.FailureLinks | go-gost/x/chain/route.go:188-298 | a cut run made a prefix of the connections |
| Routing.DialLinks | go-gost/x/chain/route.go:129-153 | through any nesting, dialling makes exactly the connections along the flattened path and then to the target, in order, each once |
| Routing.PathLinksAt | go-gost/x/chain/route.go:146-275 | each connection of a path leads from the node before, the first one directly |
| Routing.DialAsks | go-gost/x/chain/route.go:188-298 | the calls of a dial, in order: the heads are resolved, outer routes first; then each node is resolved unless it is a head, connected to and greeted, inner routes first; then the target |
| Routing.DialAsksInOrder | go-gost/x/chain/route.go:129-298 | in every world a dial makes these calls in this order until one is refused |
| Refusal.DialClears | go-gost/x/chain/route.go:188-298 | a whole dial clears every node and chain, inner routes first |
| Refusal.DialFailures | go-gost/x/chain/route.go:192-298 | for every refusal, wherever it happens: which call it was, which connections were made, which markers are cleared before and marked after, and one close of the connection made so far |
| Refusal.DialStopsShort | go-gost/x/chain/route.go:188-298 | with the refusing node at place p of the flattened path, the first p connections were made when it does not resolve or is not reached, p + 1 when it does not greet, none when it is a head that does not resolve; all but the last when the target refuses |
| Refusal.DialOutcome | go-gost/x/chain/route.go:129-298 | the record of every dial, successful or refused, in every world: connections, markers, closes and the call refused |
| FlatDial.FlatOutcome | go-gost/x/chain/route.go:188-298 | over nodes that work or are broken, a dial fails exactly at the first broken node |
| Dialing.World.Mark | go-gost/x/chain/route.go:203-206 | a missing marker is left alone, an existing one gets a failure and the time |
| Dialing.World.Reset | go-gost/x/chain/route.go:214-216 | a missing marker is left alone, an existing one is cleared |
| Dialing.MarkersCountFailures | go-gost/x/chain/route.go:221-290 | a marker counts the failures since the success that last cleared it and keeps the time of the last failure |
| Dialing.Dial | go-gost/x/chain/route.go:129-153 | the method carries out the script of the nested routes |
| Dialing.Connect | go-gost/x/chain/route.go:188-218 | the chain marker is marked on any error and reset on success |
| Dialing.Head | go-gost/x/chain/route.go:220-248 | the head is resolved, dialled and greeted, and marked once when one of these fails |
| Dialing.DialHead | go-gost/x/chain/transport.go:33-51 | the head is dialled through the route nested in its transport |
| Dialing.Hop | go-gost/x/chain/route.go:262-294 | one node is reached through the one before it |
| Dialing.Greet | go-gost/x/chain/route.go:280-290 | a handshake resets the node or hangs up and marks it |
| Dialing.WalkOn | go-gost/x/chain/route.go:261-294 | the loop over the remaining nodes stops at the first refusal |
| Dialing.Walk | go-gost/x/chain/route.go:188-298 | the head and then the others |
| Routes.Wrap | go-gost/x/chain/chain.go:102-110 | a multiplexed node opens a new route around the one so far |
| Routes.Append | go-gost/x/chain/chain.go:110 | another node is added to the current route |
| Routes.Extend | go-gost/x/chain/chain.go:102-110 | the routes keep holding the selection, whatever transports are shared |
| Routes.WrapIsConsistent | go-gost/x/chain/chain.go:102-110 | wrapping keeps the routes linked and the selection in them |
| Routes.AddIsConsistent | go-gost/x/chain/chain.go:110 | adding a node keeps the routes linked and the selection in them |
| RoutePaths.RoutePath | go-gost/x/chain/router.go:198-209 | the recursion returns the path unfolded as deep as the stack, or overflows it |
| RoutePaths.PathDeeper | go-gost/x/chain/router.go:198-209 | a deeper stack changes nothing once the recursion ends |
| RoutePaths.SharedNeverUnfolds | go-gost/x/chain/router.go:198-209 | a transport used twice leads the recursion back into itself forever |
| RoutePaths.PathExistsIffDistinct | go-gost/x/chain/router.go:198-209 | the path exists, and is the selection, exactly when no multiplexed transport was selected twice; otherwise every stack overflows |
| RoutePaths.PlanIsDialable | go-gost/x/chain/route.go:129-153 | without repeated transports the routes can be dialled and flatten to the selection |
| Chains.Chain.SelectAt | go-gost/x/chain/chain.go:93-98 | the node a hop selects is one of its candidates |
| Chains.Chain.Advance | go-gost/x/chain/chain.go:93-110 | one hop extends the route or ends it |
| Chains.Chain.Route | go-gost/x/chain/chain.go:82-113 | the route holds the nodes selected hop by hop up to the first hop that selects none |
| Chains.SelectionIsDistinct | go-gost/x/chain/chain.go:93-112 | hops that share no multiplexed transport never select one twice |
| Failover.TotalFalls | go-gost/x/chain/router.go:91-142 | the total budget falls when one entrant's does and no other rises |
| Failover.TotalAtMost | go-gost/x/selector/filter.go:45-57 | the failures left are at most those allowed for one node, for each candidate that does not work |
| Failover.MovedLowers | go-gost/x/chain/route.go:192-298 | a failure at a live broken node uses up part of its budget and raises no other |
| Failover.FailureMoves | go-gost/x/chain/route.go:188-298 | a failed dial moves the markers of the pool in exactly that way |
| Routers.SelectionIsLive | go-gost/x/chain/chain.go:93-112 | while each hop has a working live candidate every hop selects a live node |
| Routers.AttemptUsesBudget | go-gost/x/chain/router.go:91-142 | a failed attempt lowers the budget and keeps the situation hopeful |
| Routers.FailedAttempt | go-gost/x/chain/router.go:115-141 | the same of a whole attempt: select, build, dial |
| Routers.HopefulIsFlat | go-gost/x/chain/router.go:123-125 | in the situation of the bound no selection overflows the stack |
| Routers.BypassedWhenAllDead | go-gost/x/chain/router.go:115-132 | the target is dialled directly exactly when the first hop finds every candidate dead |
| Routers.CutAtFirstDeadHop | go-gost/x/chain/chain.go:93-101 | the selection ends before the first hop whose candidates are all dead, and the target is dialled from its last node |
| Routers.Router.Attempt | go-gost/x/chain/router.go:115-137 | the dialled routes flatten to the selection, and the stack overflows exactly when the selection repeats a multiplexed transport |
| Routers.Router.Dial | go-gost/x/chain/router.go:83-145 | every try asks for what the address resolves to anew, selects on the markers the tries before left and dials what it selected, until one succeeds with a connection to that address, the address does not resolve, a selection overflows the stack, or as many tries as there are retries and one more are used up (one, when the retries are negative); failed attempts are at most the failures live broken candidates have left over all hops, so more tries than that always succeed |
| Routers.TryReaches | go-gost/x/chain/router.go:132-140 | a try that succeeds ends with a connection to the address asked for |
| Examples.OneFailureAtMost | go-gost/x/chain/router.go:83-145 | a chain with one broken and one working node meets the conditions, and one retry is enough |
| Examples.SameHopTwice | go-gost/x/chain/router.go:123-125 | a chain that holds one hop twice, with a multiplexed node, overflows the stack at the first try |
| Examples.DeadIsPreferred | go-gost/x/hop/hop.go:188-190 | a dead node of positive priority is selected beside a live one |
| Routers.PrintPath | go-gost/x/chain/router.go:123-125 | the printed path is the selection, and there is none when a multiplexed transport was selected twice |
| Routers.DialPlan | go-gost/x/chain/router.go:123-137 | the path printed and the route dialled come from the same selection; nothing is dialled when the path overflows the stack |
| Routers.DialDirect | go-gost/x/chain/router.go:129-137 | without a route the target is dialled directly |
| Text.TrimTrims | go-gost/x/socket/service.go:29 | trimming gives a trimmed text and changes exactly the others |
| Text.TrimTakesOuterSpace | go-gost/x/socket/service.go:29 | trimming takes nothing but outer white space, and what it leaves is the only trimmed text that cutting off outer white space can leave |
| Registries.Registry.Register | go-gost/x/registry/registry.go:63-72 | an empty name is ignored, a taken name refused, any other registered |
| Registries.Registry.Unregister | go-gost/x/registry/registry.go:74-81 | the name is removed and its service closed |
| Registries.Registry.IsRegistered | go-gost/x/registry/registry.go:83-86 | whether the name is taken |
| Registries.Registry.Get | go-gost/x/registry/registry.go:88-95 | the service of a name, none for the empty name |
| Services.First | go-gost/x/socket/service.go:344-351 | the position of the first entry of a name |
| Services.LastOfIsLast | go-gost/x/socket/service.go:263-266 | the table holds the entry after which the name does not occur again |
| Agents.Configuration.SetTags | go-gost/x/socket/service.go:294-307 | the first entry of every name is tagged |
| Agents.Configuration.RenewAll | go-gost/x/socket/service.go:135-145 | the first entry of every name as written is replaced |
| Agents.Configuration.Remove | go-gost/x/socket/service.go:186-202 | the entries of the names are filtered out, order kept |
| Agents.Configuration.Append | go-gost/x/socket/service.go:74-79 | the batch is appended in order |
| Agents.Configuration.Find | go-gost/x/socket/service.go:344-351 | the first entry of a name |
| Agents.Agent.CheckNames | go-gost/x/socket/service.go:162-177 | all names are known, or the first that is not is reported |
| Agents.Agent.ParseBatch | go-gost/x/socket/service.go:28-48 | all configurations are fit, or the first that is not is reported and nothing else changed |
| Agents.Agent.RegisterAll | go-gost/x/socket/service.go:50-64 | the whole batch is registered, or a repeated name takes back and closes what was |
| Agents.Agent.Create | go-gost/x/socket/service.go:16-82 | the outcome and the whole new state of a create |
| Agents.Agent.Replace | go-gost/x/socket/service.go:109-130 | a service is closed, taken out and replaced, and registering is never refused |
| Agents.Agent.Update | go-gost/x/socket/service.go:84-148 | the outcome and the whole new state of an update, with no missing service on the way |
| Agents.Agent.Delete | go-gost/x/socket/service.go:150-205 | the outcome and the whole new state of a delete |
| Agents.Agent.TakeBackPause | go-gost/x/socket/service.go:443-478 | every service remade is refused by the registry and closed |
| Agents.Agent.Pause | go-gost/x/socket/service.go:207-316 | the outcome and the whole new state of a pause |
| Agents.Agent.Select | go-gost/x/socket/service.go:331-376 | the names flagged paused, with their services and entries |
| Agents.Agent.TakeBackResume | go-gost/x/socket/service.go:480-505 | what runs again is closed and flagged |
| Agents.Agent.Resume | go-gost/x/socket/service.go:318-441 | the outcome and the whole new state of a resume |
| Agents.Agent.Carry | go-gost/x/socket/service.go:16-441 | every command makes a step of the relation |
| ServiceRuns.TaggedAt | go-gost/x/socket/service.go:294-307 | tagging changes exactly the first entries of the names, once |
| ServiceRuns.RenewedAt | go-gost/x/socket/service.go:135-145 | an update replaces exactly the first entry of a name by the last request with that name as written |
| ServiceRuns.LeadOfWithout | go-gost/x/socket/service.go:186-202 | deleting names removes all their entries and leaves the first entries of all others |
| ServiceRuns.SwappedReplaces | go-gost/x/socket/service.go:105-132 | replacing a batch leaves its services new and open and all others as they were |
| ServiceRuns.StoppedKeeps | go-gost/x/socket/service.go:119-122 | a parse failure halfway keeps the invariant |
| ServiceRuns.PauseNeverStops | go-gost/x/socket/service.go:270-275 | the branch for a missing configuration is unreachable |
| ServiceRuns.StepKeeps | go-gost/x/socket/service.go:16-441 | every command keeps the invariant, parsing failing at any point |
| ServiceRuns.InvAtStart | go-gost/x/socket/service.go:16-505 | an agent that registered nothing satisfies the invariant |
| ServiceRuns.EveryRunKeeps | go-gost/x/socket/service.go:16-505 | in every run each registered name has an entry, and a service whose first entry is not flagged paused is open |
| ServiceLaws.CreateAllOrNothing | go-gost/x/socket/service.go:16-82 | a create is accepted exactly when all names are new, non-empty, distinct and parse; otherwise both stores are unchanged; on success the registry gains exactly the batch and the list ends with it in order |
| ServiceLaws.UpdateStored | go-gost/x/socket/service.go:135-145 | the stored configuration becomes the requested one exactly when the name was written without padding or nothing changed |
| ServiceLaws.PaddedUpdateForgets | go-gost/x/socket/service.go:136-138 | a request that pads a name replaces the service and keeps the configuration |
| ServiceLaws.StoppedLoses | go-gost/x/socket/service.go:116-122 | a parse failure takes exactly the failing name out of the registry |
| ServiceLaws.PauseRollbackRestoresNothing | go-gost/x/socket/service.go:443-478 | after the rollback of a pause the services closed so far are closed and their configuration unflagged |
| ServiceLaws.ResumeRollback | go-gost/x/socket/service.go:480-505 | after a failed resume the flags are as before, the failing service is gone and those before it are closed |
| ServiceLaws.LostStays | go-gost/x/socket/service.go:84-441 | a service lost to a failed parse stays lost under every command but create |
| ServiceLaws.LostUntilCreated | go-gost/x/socket/service.go:16-441 | it comes back exactly with an accepted create that names it |
| ServiceLaws.RoundRestores | go-gost/x/socket/service.go:295-430 | flagging and unflagging names restores the list exactly when their first entries had no flag and no empty table |
| ServiceLaws.PauseThenResume | go-gost/x/socket/service.go:207-441 | pausing then resuming restores the configuration exactly under that condition and leaves the batch new and open |
| ServiceOrder.ConfigKeepsOrder | go-gost/x/socket/service.go:134-202 | configuration names keep their order but for those appended and those deleted |
| ServiceOrder.CalmKeys | go-gost/x/socket/service.go:16-441 | what each command does to the registered names when no parse fails after a service was taken out |
| ServiceOrder.CalmIff | go-gost/x/socket/service.go:104-132 | a command takes a service out and does not parse it exactly when it is a spoiling one, judged on the state before; then one name is dropped and nothing else |
| ServiceOrder.TidyIff | go-gost/x/socket/service.go:16-441 | from a tidy state the next is tidy exactly when the command is not a spoiling one, and a spoiling one loses the service that did not parse |
| ServiceOrder.RunTidyIff | go-gost/x/socket/service.go:16-441 | in every run registry and configuration name the same services, each once, exactly as long as no command spoils it |
| ServiceOrder.EveryCalmRunIsTidy | go-gost/x/socket/service.go:16-441 | runs in which no update and no resume ended with a parse failure are tidy |
| ServiceOrder.RecreatedTwice | go-gost/x/socket/service.go:35-79 | creating a lost service again leaves two entries, the old one first |
| ServiceEffects.TagChangesOnlyFlag | go-gost/x/socket/service.go:347-430 | tagging sets or clears the flag of an entry and nothing else, and leaves no empty table |
| ServiceEffects.CreateEffect | go-gost/x/socket/service.go:16-82 | an accepted create gives each name of the batch a service of its own that is open and served, and an entry; every other name is untouched |
| ServiceEffects.UpdateEffect | go-gost/x/socket/service.go:84-148 | an accepted update replaces each service of the batch by a new open one and closes the old one; every other is untouched |
| ServiceEffects.DeleteEffect | go-gost/x/socket/service.go:150-205 | an accepted delete takes out and closes each service of the batch with its entries; every other is untouched |
| ServiceEffects.PauseEffect | go-gost/x/socket/service.go:207-316 | an accepted pause closes each service of the batch, keeps it registered and flags its first entry; every other is untouched |
| ServiceEffects.ResumeEffect | go-gost/x/socket/service.go:318-441 | an accepted resume replaces exactly the services flagged paused and takes their flags away; every other, in the batch or not, is untouched |
| ServiceEffects.ErrorsAreTrue | go-gost/x/socket/service.go:16-441 | every error names a name of the batch and is true of the state before; a missing configuration is never reported under the invariant |
| ServiceEffects.EveryRunTracks | go-gost/x/socket/service.go:16-505 | in every run each service that was ever served is registered or closed |
| ServiceEffects.RemadeExactly | go-gost/x/socket/service.go:448-459 | taking back a pause makes exactly the services whose configuration parses |
| ServiceEffects.FlagsInPlace | go-gost/x/socket/service.go:330-376 | the names resumed are those flagged paused, in the order of the batch |
| ServiceEffects.WithoutInPlace | go-gost/x/socket/service.go:186-202 | a delete leaves every other entry in its place |
| Accepting.Status.AddEvent | go-gost/x/service/status.go:62-72 | the events are the last twenty of all ever logged, in order |
| Accepting.Status.SetState | go-gost/x/service/service.go:328-335 | the state and its message |
| Accepting.Status.Events | go-gost/x/service/status.go:52-60 | a list of twenty that begins with the events and is blank after them |
| Accepting.KeptNext | go-gost/x/service/status.go:66-71 | dropping the oldest of a full list and appending keeps the last events |
| Accepting.DelayNext | go-gost/x/service/service.go:194-201 | limiting at every doubling gives the least of 2^(k-1) and 5 seconds |
| Accepting.DelayTable | go-gost/x/service/service.go:194-201 | the delays are 1, 2 and 4 seconds, and 5 from then on |
| Accepting.InARowCounts | go-gost/x/service/service.go:187-221 | the count of temporary errors in a row is that of the ending run |
| Accepting.LastLogged | go-gost/x/service/service.go:203-221 | the state shown is the one last logged |
| Accepting.OneEach | go-gost/x/service/service.go:187-296 | one message for every error and every recovery, one sleep for every temporary error, one call of the handler for every connection admitted |
| Accepting.PauseLength | go-gost/x/service/service.go:194-206 | the sleep after a temporary error is the delay for the temporary errors in a row up to it |
| Accepting.Service.Serve | go-gost/x/service/service.go:161-298 | delay and state at every loop head as functions of the arrivals, closed only on return, every delay slept, every message logged |
| Traffic.NextBalanced | go-gost/x/service/service.go:382-412 | every atomic step keeps the balance of both directions modulo 2^64 |
| Traffic.NextTight | go-gost/x/service/service.go:382-412 | the same without wrap while fewer than 2^64 bytes were counted |
| Traffic.LateCounted | go-gost/x/service/service.go:409 | the late bytes are those counted between the second read and the store |
| Traffic.EveryRunConserves | go-gost/x/service/service.go:360-423 | acknowledged bytes, the counter and the late bytes add up to all bytes counted, so nothing is lost exactly when none is late |
| Traffic.LossHappens | go-gost/x/service/service.go:409 | a run that loses three bytes |
| Traffic.NoUnderflow | go-gost/x/service/service.go:409 | the subtractions never go below zero |
| Traffic.NothingForgotten | go-gost/x/service/service.go:382-418 | idle with bytes waiting, the flag is up or about to be, or the last report was refused |
| Traffic.FlagRaised | go-gost/x/service/service.go:382-383 | since the flag was taken it was raised exactly for the counts that no longer owe it |
| Traffic.FlagDownIdles | go-gost/x/service/service.go:365-383 | while the flag is down ticks change nothing but a pending event |
| Traffic.StuckIff | go-gost/x/service/service.go:365-418 | idle with no count owing the flag, ticks send nothing exactly when nothing was counted since the flag was taken nor owed it then; with bytes waiting the last report was then refused |
| Traffic.StuckHappens | go-gost/x/service/service.go:404-412 | a run whose five bytes are refused and stuck |
| Traffic.PendingIffRefused | go-gost/x/service/service.go:369-417 | in every run an event is pending exactly when the last report of it was refused and so was every tick since; the observer is then idle |
| Traffic.PendingGoesFirst | go-gost/x/service/service.go:369-375 | while an event is pending a tick resends it and does nothing else: no report begins and the flag stays |
| Traffic.EveryReportRuns | go-gost/x/service/service.go:382-418 | every report takes one of three ways, nothing to send, not acknowledged, or acknowledged, read again and stored, and each ends by telling the observer; it is skipped exactly when both amounts are zero and recorded as refused exactly when it was not acknowledged |
| Traffic.RunsGoOn | go-gost/x/service/service.go:365-423 | handlers may count and the observer may go on with any answer after every run |
| Suffixes.ParentsExact | go-gost/x/ingress/ingress.go:234-245 | the walk visits exactly the suffixes that start at a dot with no empty label before it |
| Suffixes.ParentsShrink | go-gost/x/ingress/ingress.go:234-245 | longest first, so the walk ends |
| Suffixes.SeekFirst | go-gost/x/ingress/ingress.go:229-245 | what is found is found under no key before its own |
| Ingresses.Scan | go-gost/x/ingress/ingress.go:119-140 | a usable rule with the key, if there is one |
| Ingresses.ScanIsLast | go-gost/x/ingress/ingress.go:127-140 | the rule after which no usable rule has the key |
| Ingresses.LaterRuleReplaces | go-gost/x/ingress/ingress.go:119-128 | a later rule is found under its host name, without a leading star, and changes no other key; without a host name or an endpoint it is not found |
| Ingresses.Ingress.Reload | go-gost/x/ingress/ingress.go:116-150 | the index agrees with a scan of all rules for every key |
| Ingresses.Ingress.GetRule | go-gost/x/ingress/ingress.go:218-252 | the walk returns the scan for the most specific key |
| Ingresses.BestIsMostSpecific | go-gost/x/ingress/ingress.go:229-245 | no rule has a more specific key than the one returned; none is returned exactly when no rule has any key of the host |
| Ingresses.OwnNameFirst | go-gost/x/ingress/ingress.go:229-245 | the name itself comes first, then its own wildcard, then those of the parent domains |
| Hosts.EqualIsCanonical | go-gost/x/hosts/hosts.go:197-202 | addresses are equal exactly when their canonical forms are |
| Hosts.FourForms | go-gost/x/hosts/hosts.go:197-202 | an address in four bytes and the same mapped into sixteen are equal, and exactly these have a four-byte form |
| Hosts.DedupKeepsOne | go-gost/x/hosts/hosts.go:194-207 | no two kept addresses are equal and every address equals a kept one |
| Hosts.DedupGrows | go-gost/x/hosts/hosts.go:194-207 | the order is that of first occurrence |
| Hosts.VersionsSplit | go-gost/x/hosts/hosts.go:131-149 | every address is listed for exactly one version |
| Hosts.VersionsInPlace | go-gost/x/hosts/hosts.go:131-149 | every address is listed for its version in its place |
| Hosts.WrittenInPlace | go-gost/x/hosts/hosts.go:194-214 | every mapping of a name gives its address in its place |
| Hosts.FoursDistinct | go-gost/x/hosts/hosts.go:132-139 | distinct addresses stay distinct in four bytes |
| Hosts.HostMapper.Reload | go-gost/x/hosts/hosts.go:191-226 | the index agrees with a scan of all mappings for every name |
| Hosts.HostMapper.Split | go-gost/x/hosts/hosts.go:131-149 | the addresses of the wanted version |
| Hosts.HostMapper.Lookup | go-gost/x/hosts/hosts.go:107-156 | the addresses of the most specific key, and a second result that is always false |
| Matchers.InvertNegates | go-gost/x/routing/rules/parser.go:80-95 | inverting a tree negates it |
| Matchers.ParseKeepsMeaning | go-gost/x/routing/rules/parser.go:60-101 | pushing negations to the leaves keeps the meaning of every rule |
| Matchers.RefusedIffUnusable | go-gost/x/routing/matcher.go:105-137 | a rule is refused exactly when one of its calls is |
| Matchers.CallMeans | go-gost/x/routing/matcher.go:347-350 | a call is answered by the test its own name makes, a pattern matcher with only a key by the one that looks for the key |
| Matchers.UsableCall | go-gost/x/routing/matcher.go:139-162 | a call can be used exactly when it has one argument, or two where a key and a value are meant, none is empty and a test can be made of them |
| Matchers.MatchersTree.AddLeaf | go-gost/x/routing/matcher.go:117-134 | the checks in order, and the test that results |
| Matchers.MatchersTree.AddRule | go-gost/x/routing/matcher.go:105-137 | the first refused leaf, or a tree in which every node is a leaf or an operator with two children |
| Matchers.MatchersTree.Match | go-gost/x/routing/matcher.go:82-101 | the evaluation of the rule; the two branches that should never happen are unreachable |
| Matchers.Matcher.Match | go-gost/x/routing/matcher.go:61-67 | a matcher matches exactly the requests its rule holds of |
| Matchers.NewMatcher | go-gost/x/routing/matcher.go:39-59 | a matcher exists exactly for usable rules |
| ForwardText.SplitJoin | vite-frontend/src/pages/forward.tsx:859 | splitting undoes joining when no part holds the separator |
| ForwardText.ParseShown | vite-frontend/src/pages/forward.tsx:942 | the lenient number reader reads back every number printed, negative ones as well, whatever follows that is not part of a number |
| ForwardText.ParseHex | vite-frontend/src/pages/forward.tsx:942 | a hexadecimal mark makes a hexadecimal number |
| ForwardText.DigitsMean | vite-frontend/src/pages/forward.tsx:942 | digits and their places in both radices |
| ForwardText.Import | vite-frontend/src/pages/forward.tsx:883-984 | which creations are asked for in which order, and the results latest first |
| ForwardText.ReadFields | vite-frontend/src/pages/forward.tsx:898-961 | what becomes of a line by its fields: without a third field, or with a blank one, the port is left to the server, otherwise it must read as 1 to 65535 |
| ForwardText.PortDecides | vite-frontend/src/pages/forward.tsx:940-950 | a forward with a plain name and proper addresses is asked for exactly when its port is one from 1 to 65535 |
| ForwardText.HostPortForm | vite-frontend/src/pages/forward.tsx:925-927 | an address is a host without a colon, a colon and decimal digits, none of them empty |
| ForwardText.KeptInPlace | vite-frontend/src/pages/forward.tsx:898 | every line that is not blank stays in its place |
| ForwardText.CreationsInPlace | vite-frontend/src/pages/forward.tsx:900-961 | every line that is not refused gives its creation in its place |
| ForwardText.AllHostPorts | vite-frontend/src/pages/forward.tsx:925-927 | every address has the form host, colon, digits |
| ForwardText.ImportedSound | vite-frontend/src/pages/forward.tsx:898-961 | whatever is asked for is printable again, but for a port left open |
| ForwardText.PrintableReturns | vite-frontend/src/pages/forward.tsx:855-961 | printable forwards come back |
| ForwardText.ExportThenImport | vite-frontend/src/pages/forward.tsx:855-961 | importing an export asks for the same forwards in the same order if and only if every forward is printable |
| ForwardText.BarsAreLost | vite-frontend/src/pages/forward.tsx:856 | a name with a bar does not come back |
| Durations.RewriteChangesOnlyTimeouts | go-gost/x/socket/websocket_reporter.go:1089-1119 | exactly the readable text fail timeouts directly inside an object under a selector key change, at every path of every tree |
| Durations.TimeoutsAreRewritten | go-gost/x/socket/websocket_reporter.go:1099-1110 | a fail timeout written as text becomes the nanoseconds the reader makes of it, or stays when the reader refuses it |
| Durations.RewriteTwice | go-gost/x/socket/websocket_reporter.go:1089-1119 | rewriting twice is rewriting once |
| Durations.ProcessFields | go-gost/x/socket/websocket_reporter.go:1097-1115 | the outcome is the same in whatever order the keys come |
| Durations.Process | go-gost/x/socket/websocket_reporter.go:1089-1119 | the recursion computes the rewrite |
| Reporters.AllSteps | go-gost/x/socket/websocket_reporter.go:140-372 | a step under the lock keeps or frees it in order, a step without it changes nothing shared |
| Reporters.NextKeeps | go-gost/x/socket/websocket_reporter.go:140-372 | every step of every thread keeps the invariant |
| Reporters.EveryInterleaving | go-gost/x/socket/websocket_reporter.go:140-372 | with a free lock connected implies a connection and never connecting; one thread under the lock; the branch for a spare connection is never taken; uses under the lock find a connection; connecting is what some thread does; nobody dials while connected or writes unless connected |
| Reporters.ConnectedIffRaised | go-gost/x/socket/websocket_reporter.go:178-372 | in every run the reporter counts as connected exactly when a connect has marked it so and no failed write, failed read, close of the peer or end of the run loop has marked it otherwise since |
| Reporters.NoneExactlyAfterDrop | go-gost/x/socket/websocket_reporter.go:203-236 | in every run, once there is a connection there is none later exactly when a run loop dropped it and none was stored since |
| Reporters.StopFindsNothingIff | go-gost/x/socket/websocket_reporter.go:131-137 | in every run, a stop that tested the connection finds none exactly when that happened after its test |
| Reporters.StopMayFindNothing | go-gost/x/socket/websocket_reporter.go:131-137 | such a run exists |

## Left out

- Sockets, dialers, connectors, DNS, Redis, HTTP and file loaders, commands, metrics, logging and encryption: foreign calls.
- Contexts and the timeout of a retry: a call that times out is a call the oracle refuses.
- The chain group, `Bind`, recorders and UDP wrapping of the router: they repeat the shapes modelled or only wrap.
- Reload of a hop, an ingress or a host table by timer: the list of nodes is fixed and the loaded lists are parameters.
- The bound on failed attempts for multiplexed chains: a nested failure marks the outer node as well, so the budget argument does not carry over.
- Sessions of multiplexing dialers: a dialer is taken to dial through its route once for every dial.
- The HTTP handlers in `x/api` and the chain and limiter commands: the same shape as the service commands.
- Defaults that parsing a service fills into its handler and listener settings: the settings no command looks at are one text.
- Forced closing of the connections of a port when a service is paused: a foreign call.
- Agents.Agent.Create: a service is a number, closing and serving it puts the number in a set; configurations are values, where the code keeps distinct references and writes through them.
- Matchers.Invert: inverting is modelled on values; the code rewrites in place a tree that nobody else holds.
- Matchers.NewMatcher: the makers of leaf tests are oracles and the text of a rule is given as its expression; regular expressions, address ranges and the grammar of rules are library semantics.
- Durations.Process: the tree is rebuilt as a value; the code writes into slices and tables of a decoded tree that nobody else holds.
- ForwardText.Export: ports are integers printed in decimal; numbers so large that they print with an exponent are not modelled.
- ForwardText.Import: the answers of the server decide only how a sent line is reported, so a result says that a line was asked for.
- Traffic.EveryRunConserves: the exact sum is stated while fewer than 2^64 bytes were counted in a direction, the sum modulo 2^64 always.
- Routers.Router.Dial: the bound is stated for dials that end before a fail timeout of a failing node runs out, over nodes that work or are broken throughout.
- The number of readers per connection of the reporter and the closing of superseded connections: the code guarantees neither.
- Wire.Hang: the record counts hang-ups and does not name the connection that was closed.
- Encodings: strings are sequences of Unicode characters; text that is not valid UTF-8 is not modelled. Searching for bytes, as the host walk does, finds the same places, because the bytes sought are ASCII.
