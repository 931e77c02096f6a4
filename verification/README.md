# Flux in Dafny

A model of the state machines at the heart of Flux, and proofs about all their
inputs, runs and interleavings. Flux runs an agent and a balancer on every
host. The agent watches docker and the store, works out which containers are
instances of which services, and writes them to the store; the balancer watches
the store and forwards, or rejects, traffic to services. Both are chains of
components that keep each other up to date with snapshots, resets and
incremental updates. `dafny verify dfyconfig.toml` checks everything.

| files | model |
|---|---|
| `Prelude`, `StoreData` | options, addresses and the values passed between components |
| `DockerListener` | docker's event log and listing, inspection (`agent/docker_listener.go`) |
| `SyncInstances` | the join of services and containers, as a stream of updates (`agent/sync_instances.go`) |
| `SetInstances` | applying the stream to the store (`agent/set_instances.go`) |
| `Agent` | the agent as a whole, beside other hosts (`agent/agent.go`) |
| `ServerSide` | forwarders for local instances and their ingress entries (`balancer/serverside/serverside.go`) |
| `Fluxd` | the agent's stream reaching the server side (`cmd/fluxd/main.go`) |
| `EtcdModel`, `EtcdStore`, `InMemModel`, `InMem`, `StoreReads`, `StoreEquivalence` | the two stores, what is read of what was written, and where they agree (`common/store/etcdstore/etcdstore.go`, `common/store/inmem/inmem.go`) |
| `Watch`, `Keys`, `EtcdWatch` | watching services (`common/store/watch.go`, etcd keys and events) |
| `GarbageCollection` | collecting the values of dead sessions (`common/store/etcdstore/gc.go`) |
| `Backoff`, `Heap`, `Pool` | the instance pool and its retry queue (`balancer/forwarder/pool.go`) |
| `PoolHistories`, `PoolRuns` | sequences of calls of the pool, as values and as calls |
| `IpTables`, `Services` | packet rules (`balancer/iptables.go`, `balancer/services.go`) |
| `Packets` | what the rules do to packets |
| `Deps`, `Supervision` | start order and supervision (`common/daemon/deps.go`, `common/daemon/component.go`) |

## How the pieces are modelled

Code that updates fields is a class whose methods update fields, proved against
functions or predicates on its values; goroutines that run side by side (the
watcher, the collector, supervision) are step relations over explicit state.
Map order and `select` order are nondeterministic; random draws, clocks and
addresses are parameters, and so is the success of what can fail outside the
code: which packet rule commands can be run, by their number
(`IpTables.IpTables.runs`), where the forwarders of each service can be made, by
the number of the attempt (`Services.Opens`, `ServerSide.Ports`), and what docker
answers (`DockerListener.Answers`). The fields that count commands and attempts
(`ran`, `tries`) are there to say which of these outcomes a call meets.

`Agent.FromDockerToStore` is the agent from end to end: `DockerListener` says
what is known of docker, `SyncInstances` that folding the stream is the join,
`SetInstances` that the store's instances of this host are what folding gives.
It runs on the in-memory store's own class, whose events are those that
`Watch.Converges` consumes. `Fluxd.Run` and `Fluxd.ForwardsIff` follow the same
stream into the server-side balancer.

## What the code does that one might not expect

Each of these is kept as it is in the code and stated exactly.

- Failing a ready instance moves the last ready one into its slot without
  rewriting its index (`balancer/forwarder/pool.go:118`). In a run the pool is
  whole up to some call exactly if only last ready instances were failed
  (`PoolHistories.WholeIffLastOnly`); otherwise the next failure of the moved
  instance panics (`Pool.InstancePool.FailBoth`, `Pool.TwoFailuresPanic`), or,
  once the ready list has grown again, takes out another one in its place
  (`PoolRuns.SecondFailureAtOnce`). With the index rewritten the pool is whole
  after every call (`PoolHistories.RepairedIsWhole`). `UpdateInstances` repairs
  any state.
- The retry delay wraps after 33 earlier failures. In runs in which every failed
  instance sits where it says, that takes a streak of at least 2^34 - 1 seconds
  (`PoolHistories.BackoffInRuns`); all runs of the repaired pool are such. As
  written an instance can fail again at once, exactly if it did not sit there
  (`PoolRuns.CanFailAgainIff`).
- In-memory `AddService` wipes rules and instances of an existing service, etcd
  does not; etcd shows values of a session that comes back. The exact
  conditions are `StoreEquivalence.Safe`; `StoreEquivalence.AddedTwice` and
  `StoreEquivalence.HeardAgain` are histories that fail them.
- An etcd directory without a spec, such as a rule written for an unknown
  service leaves behind, makes listing all services fail.
- No event on the etcd service tree tells that a session has ended, or is back
  (`EtcdWatch.SessionEndIsSilent`). These are the only changes of GetService's
  answers that go unreported (`EtcdWatch.SilentIff`). The listing of all services
  can also turn into an error, or back, unreported, because of directories without
  a spec (`EtcdWatch.SilentListingIff`).
- etcd's watcher does not learn of a directory that a value written below an
  unknown service leaves behind, while a new watcher lists it
  (`EtcdWatch.KnownIsDirsIff`, `EtcdWatch.OrphanStaysUnknown`).
- Stopping the balancer unhooks only nat's PREROUTING, so nat's chain and the
  jump from OUTPUT stay (`IpTables.Names.StopResult`).
- A forwarding state compares updates with the service it was started with, so
  coming back to that service leaves the pool of the update in between
  (`Services.PoolFollowsIff`, `Services.ComingBackLeavesThePool`); a rejecting
  state ignores a change of address (`Services.AddressFollowsIff`,
  `Services.MovingLeavesTheRule`).
- Announcing a recorded instance again without an address leaves the old address
  in use (`ServerSide.TracksIffNoAddressLost`, `ServerSide.LoseAnAddress`); that is
  the one way for the server side to lose track of the agent's stream
  (`Fluxd.TracksIffNoneLost`). It also makes a record for an unknown service
  (`ServerSide.ServerSide.RecordInstance`).
- When making a forwarder fails the service has none, nor an ingress entry, until
  an update of the service or its instances tries again
  (`ServerSide.ServerSide.GiveUp`).
- A container's back-links may name services that no longer have an instance of
  it (`agent/sync_instances.go:206-218`); withdrawing such an instance again is
  harmless to a consumer, and the proofs do not rely on the links being exact.

## Assumptions

- Clock readings never go back and are more than 2^63 ns after Go's zero time,
  so that a retry time is never mistaken for "not waiting"; failure counts are
  unbounded.
- `container/heap` is not part of this repository; its documented sifting is
  modelled over the pool's own `Less` and `Swap`, in the order down then up for
  removal.
- The agent announces docker containers under their own id, and an inspection
  that finds no such container means that it was not running at that moment.
- iptables refuses to delete a chain that is referred to or not empty, as the
  command does; the test double in `balancer/mock_iptables_test.go` deletes it
  regardless. Its other commands are modelled as the double has them.
- The balancer's services have an address, because it watches the store with
  addressless services filtered out (`balancer/model/watch_services.go:97-100`).
- The names in the pool of a server-side forwarder are those of its last
  SetInstances; what `balancer/forwarder/pool.go:118` may do to them in between is
  not seen there.
- When the server side starts, the store has no ingress entries of an earlier run
  on the same host.
- In runs of `Agent`, hosts write under the ids of their own containers, and what
  is written belongs to services that are in the store.
- In `Packets`, different ports are written differently, services have different
  addresses, and the balancer's chain is not called REJECT or DNAT; a packet
  matches a rule if its interface, protocol, destination and port are those that
  the words -i, -p, -d and --dport ask for.
- Reset channels have room for at least one request, as all of them are made.

## Model

| member | source | states |
|---|---|---|
| Backoff.DelayIsExponentialIffNoWrap | balancer/forwarder/pool.go:125-129 | the retry delay computed in wrapping 64-bit arithmetic is 2^failures base intervals if and only if failures is at most 33 |
| Backoff.DelaysByNumber | balancer/forwarder/pool.go:125-129 | the first delay is a second, that after 33 earlier failures over two centuries, and the one after 34 negative, in nanoseconds |
| Heap.RootIsMinimum | balancer/forwarder/pool.go:185-185 | in a heap the root is a minimum of all keys, so the root's retry time is the one to wait for |
| Pool.RetryQueue.Swap | balancer/forwarder/pool.go:228-233 | two slots change places and both instances know their new slot |
| Pool.RetryQueue.Up | balancer/forwarder/pool.go:235-239 | sifting up restores the heap by a permutation and keeps every index true |
| Pool.RetryQueue.Down | balancer/forwarder/pool.go:220-233 | sifting down restores order below a slot, up to the edge into it, by a permutation and keeps every index true |
| Pool.RetryQueue.Push | balancer/forwarder/pool.go:235-239 | heap push: the members are the old ones and the new one, and a heap with true indices stays one |
| Pool.RetryQueue.Remove | balancer/forwarder/pool.go:240-245 | heap remove at any slot: still a heap with true indices, whose members are the old ones without exactly that one |
| Pool.RetryQueue.Init | balancer/forwarder/pool.go:171-171 | heap init turns any queue with true indices into a heap by a permutation |
| Pool.InstancePool.MembersFit | balancer/forwarder/pool.go:107-123 | under the whole invariant every member is ready exactly when its retry time is zero and sits where its index says, so no Succeeded or Failed of a member misses it |
| Pool.InstancePool.ResetTimer | balancer/forwarder/pool.go:175-202 | the timer is armed for the root of the retry queue; with an empty queue an existing timer is put off a day and none is made |
| Pool.InstancePool.Fail | balancer/forwarder/pool.go:116-123 | called on any pool, fail as written panics exactly when the stored index is past the ready list; on an intact one it keeps membership and partition exactly when the index is right, then only this instance's failures and retry time change, and every index stays true exactly when it is the last ready one |
| Pool.InstancePool.FailRepaired | balancer/forwarder/pool.go:116-123 | with the moved instance's index rewritten, fail keeps the whole invariant for every ready instance, and only that instance's failures and retry time change |
| Pool.InstancePool.FailedRepaired | balancer/forwarder/pool.go:107-114 | Failed over the repaired fail: the whole invariant is kept for every member, waiting or not |
| Pool.InstancePool.PickRepaired | balancer/forwarder/pool.go:60-90 | PickInstance over the repaired fail: the whole invariant is kept, and a failure is counted for exactly a picked ready instance with earlier ones |
| Pool.InstancePool.FailBoth | balancer/forwarder/pool.go:116-123 | as written, failing a ready instance other than the last and then the one that took its slot always panics |
| Pool.TwoFailuresPanic | balancer/forwarder/pool.go:118-119 | a concrete pool of two fresh instances in which two failures in a row panic |
| Pool.InstancePool.Succeeded | balancer/forwarder/pool.go:92-105 | keeps partition and membership exactly for instances that are ready or wait where they say; panics exactly when the stored index is past the queue |
| Pool.InstancePool.Failed | balancer/forwarder/pool.go:107-114 | changes nothing for waiting instances; on others it is fail, with the exact conditions for panicking, for keeping the pool intact and for keeping the indices, and only that instance's standing changes |
| Pool.InstancePool.PickInstance | balancer/forwarder/pool.go:60-90 | which instance a draw picks, ready ones first and none exactly if there is none; without earlier failures of a ready one picked nothing at all changes; otherwise its failures, retry time and place are given, everyone else's are kept, and it panics, or loses members or indices, exactly as fail does |
| Pool.InstancePool.ProcessRetries | balancer/forwarder/pool.go:205-218 | terminates with exactly the due instances made ready and every other still waiting beyond now; members and invariant are kept |
| Pool.InstancePool.UpdateInstances | balancer/forwarder/pool.go:131-173 | from any state, even a corrupted one, the names become exactly the given keys and the whole invariant holds; survivors keep address, failures and retry time, new ones start fresh |
| Backoff.PaceFails | balancer/forwarder/pool.go:125-129 | one more failure keeps a streak within the bound that n failures fill at least 2^n - 1 base intervals |
| Backoff.PaceStep | balancer/forwarder/pool.go:107-129 | in a streak younger than 2^34 - 1 base intervals a ready instance with n failures has had 2^n - 1 intervals, and its next delay does not wrap |
| PoolRuns.Step | balancer/forwarder/pool.go:60-173 | any of the five calls, as written or repaired: it panics or loses the core or a member exactly when it would fail an instance that does not sit where it says; otherwise what it made happen, how standings and addresses move, and that a whole pool stays whole exactly if the repair is in or only the last ready instance is failed |
| PoolRuns.Run | balancer/forwarder/pool.go:60-218 | a new pool taken through any sequence of calls leaves a trace in which every step is as described; the repaired pool always gets to the end, and the pool as written gets there unless a call is to fail an instance that does not sit where it says, which breaks it |
| PoolHistories.CoreIsCoreAt | balancer/forwarder/pool.go:14-40 | what is said of the snapshots in a trace is the pool's own invariant at that moment |
| PoolHistories.RepairedIsWhole | balancer/forwarder/pool.go:116-123 | in every run of the repaired pool the whole invariant holds after every call |
| PoolHistories.WholeIffLastOnly | balancer/forwarder/pool.go:116-123 | in every run of the pool as written, it is whole throughout up to some call if and only if all calls before failed none but the last ready instance |
| PoolHistories.AddressesFollow | balancer/forwarder/pool.go:140-167 | in every run, at every point, members and addresses are those that the updates so far amount to, whatever failed in between |
| PoolHistories.BackoffInRuns | balancer/forwarder/pool.go:107-129 | in every run with a clock that does not go back, each member counts its failures since its last success, and within a streak shorter than 2^34 - 1 base intervals failure n + 1 comes at least 2^n - 1 intervals after the first, and its delay has not wrapped |
| PoolRuns.CanFailAgainIff | balancer/forwarder/pool.go:66-73 | as written, a ready instance that was failed without a panic can be failed again at once by some pick if and only if it did not sit where it said |
| PoolRuns.SecondFailureAtOnce | balancer/forwarder/pool.go:116-119 | a concrete pool of three in which an instance fails twice at one instant |
| Pool.UpdateRetainsAddresses | balancer/forwarder/pool.go:140-167 | as a map from name to address the pool becomes the given one, with old addresses kept for names it had; this is the pool of the forwarder models |
| Deps.OrderExcludesCycles | common/daemon/deps.go:67-113 | a graph that has an order with every dependency before its owners has no cycle |
| Deps.WalkBack | common/daemon/deps.go:106-110 | in a finite set each member of which has a predecessor in the set, there is a cycle |
| Deps.StuckMeansCyclic | common/daemon/deps.go:106-110 | a dependency whose count never drops to zero sits on or behind a cycle |
| Deps.BeforeIsAsking | common/daemon/deps.go:49-63 | one dependency must precede another in the registered graph exactly when the other's configuration asks for it |
| Deps.CyclicIffAskingCycle | common/daemon/deps.go:49-63 | the registered graph is cyclic exactly when configurations ask for each other in a circle through a registered key |
| Deps.Dependencies.Dependency | common/daemon/deps.go:49-63 | a call registers the key and all that its configuration transitively asks for, each link once per ask, with the current owner restored |
| Deps.Dependencies.Sort | common/daemon/deps.go:65-113 | terminates; the result lists every dependency once and before all owners of its slots; it panics exactly when the slot-owner graph has a cycle, repeated edges included |
| Deps.Dependencies.Order | common/daemon/deps.go:127-147 | populating registers exactly what the slots ask for, directly or through what they ask for; sorting then panics exactly when some of these configurations ask for each other in a circle, and otherwise gives an order of them |
| SyncInstances.MirrorsTheJoin | agent/sync_instances.go:163-172 | per-service instance maps that hold exactly the selected containers make a mirroring copy the join of services and containers by rule |
| SyncInstances.SyncInstances.AddInstances | agent/sync_instances.go:163-172 | over the rules in any order, an instance is linked exactly when some rule includes the container, and it is what such a rule extracts |
| SyncInstances.SyncInstances.JoinContainer | agent/sync_instances.go:132-148 | a new container is joined with every service, and the pending update says so to a consumer |
| SyncInstances.SyncInstances.RemoveContainer | agent/sync_instances.go:150-161 | a container leaves every service that has an instance of it, possibly stale back-links included, and the consumer still mirrors the services |
| SyncInstances.SyncInstances.UpdateService | agent/sync_instances.go:196-219 | a service is joined anew with all containers and what it no longer selects is withdrawn |
| SyncInstances.SyncInstances.RemoveService | agent/sync_instances.go:221-232 | all instances of a service are withdrawn and the containers' back-links to it dropped |
| SyncInstances.SyncInstances.ClearInstances | agent/sync_instances.go:234-246 | services and containers stay known with no instances and no back-links |
| SyncInstances.SyncInstances.ProcessContainerUpdate | agent/sync_instances.go:104-119 | a consumer that folds the pending update holds the join of the new view; a reset is sent exactly when both sources are known and then withdraws nothing |
| SyncInstances.SyncInstances.ProcessServiceUpdate | agent/sync_instances.go:179-194 | the same for service updates, in either arrival order of the two resets |
| SyncInstances.SyncInstances.Step | agent/sync_instances.go:75-101 | one event: the invariant is kept for the consumer that folds what is sent, becoming known always sends a reset, and what is sent has entries only for containers that the event or the known ones name; a reset request drops both sources and sends nothing; what a service update leaves known of every service |
| SyncInstances.SyncInstances.Run | agent/sync_instances.go:67-102 | after every event of any run, folding the stream gives exactly the join of what both sources told; every reset update carries only instances, no withdrawals; nothing is sent before both sources have reset, after a reset request as after the start, and what is sent first then is a reset |
| SyncInstances.KnownIsBothReset | agent/sync_instances.go:87-119 | both sources are known exactly if each has reset since the last request |
| SyncInstances.InfoIsLast | agent/sync_instances.go:179-194 | what is known of a service is what was last said of it, resets included |
| SyncInstances.ContIsFirst | agent/sync_instances.go:132-148 | a container is known as it was first given, until it is withdrawn |
| SyncInstances.ContIsGone | agent/sync_instances.go:150-161 | a container that is withdrawn, or that a reset does not give, is not known until it is given again |
| SyncInstances.JoinInLabels | common/store/data.go:82-93 | in terms of labels: there is an instance exactly if some rule of the service asks for no label but what the container has, an empty one for a label that it lacks; it is on this host, with the container's labels and an address taken as such a rule says |
| SetInstances.UpdateAtKey | agent/set_instances.go:59-99 | pruning and then applying an update does to this host's entry at any key what folding the update does, and another host's entry stays exactly if the update has no entry for its key |
| SetInstances.SetInstances.ListInstances | agent/set_instances.go:63-78 | the listing that is pruned is exactly the store's instances of all services |
| SetInstances.SetInstances.ProcessReset | agent/set_instances.go:59-84 | exactly this host's instances that the update does not give are removed |
| SetInstances.SetInstances.ProcessUpdate | agent/set_instances.go:86-99 | whatever the store holds, this host's instances become what folding the update gives; other hosts' instances all stay if and only if the update has no entry for a key of theirs |
| SetInstances.SentIsOurs | agent/sync_instances.go:248-262 | every instance that the join sends is for the agent's own host and for a known service |
| SetInstances.Turn | agent/set_instances.go:44-50 | one event through join and store: the store's instances of this host are the current join whenever both sources are known, leftovers of an earlier run included; other hosts' are kept exactly if nothing is sent for their keys |
| Agent.KnownContainers | agent/docker_listener.go:193-249 | without resets the containers that the join knows are those of the docker updates, in whatever way other events come in between |
| Agent.EventsOfBoth | agent/agent.go:77-119 | the events that inputs lead to are those of their parts, in order |
| Agent.EventsOfOne | agent/agent.go:77-119 | which event each input leads to |
| Agent.WrittenIsLast | agent/set_instances.go:59-84 | what other hosts' inputs leave at a key is what was written last |
| Agent.WriteElsewhere | agent/set_instances.go:59-84 | another host's write below a key that this host does not use changes nothing of this host's instances, and of the others' just the one written |
| Agent.Live | agent/agent.go:77-119 | docker's updates and all else, services, resets and other hosts' writes, handled in any interleaving: the store's instances of this host are the join of all that was told, and those of other hosts are exactly what these wrote |
| Agent.FromDockerToStore | agent/agent.go:77-119 | from docker's log and listing through inspection, join and store, with services and other hosts' writes coming at any time: in the end the known containers are those that docker runs, each as docker answered when it was said to start, and the store's instances of this host are the join of the services with them |
| DockerListener.ToldIsLast | agent/docker_listener.go:85-167 | a consumer has a container exactly when its last event is a start or, without an event, when the listing had it |
| DockerListener.RunningIff | agent/docker_listener.go:98-150 | a container runs exactly if it has started and not died since, or ran at the beginning and nothing has been said of it |
| DockerListener.ToldIsRunningIff | agent/docker_listener.go:65-167 | after any number n of events the consumer's set is docker's running set if and only if no container without an event so far changed between n and the point of the listing |
| DockerListener.ToldIsRunning | agent/docker_listener.go:65-167 | from the point of the listing on the consumer's set is docker's running set, wherever in the log the listing was received |
| DockerListener.ReadContainerIDs | agent/docker_listener.go:65-167 | the messages sent are the reset set, events winning over the listing, and one per later start or die event; folding them gives docker's running set for every point that the listing may reflect |
| DockerListener.Inspector.Inspect | agent/docker_listener.go:201-249 | the announced set is exactly what the consumer knows; what is sent are the very containers that docker answered, for the ids said to have started, and withdrawals of announced ones only; nothing is sent if and only if it is no reset and there is no found and no withdrawn container; it fails, sending nothing, exactly if an inspection does |
| DockerListener.Inspector.InspectStream | agent/docker_listener.go:193-250 | a stream through inspectContainers fails exactly if some inspection does, and otherwise ends with the announced set of the specification, which is what folding the updates sent gives; every container known then is as docker answered for its id, with no death and no reset since |
| DockerListener.AnnouncedIsRunning | agent/docker_listener.go:65-250 | with inspections made after the events they answer and up to n, the announced containers are exactly those that run after n events |
| ServerSide.ServerSide.UpdateService | balancer/serverside/serverside.go:183-217 | a forwarder runs afterwards exactly when the service is known and has instances, and one ran before or the attempt at a new one succeeds; a new one listens where it was opened with the given instances, an old one stays where it listens with known instances at their old addresses; an attempt is made exactly when one is wanted and none runs; the record goes exactly when it is empty |
| ServerSide.ServerSide.EntriesAreForwarders | balancer/serverside/serverside.go:203-212 | at every moment between updates this host has an ingress entry for a service exactly where its forwarder listens, weighted by the number of its instances |
| ServerSide.ServerSide.DueIsRunning | balancer/serverside/serverside.go:183-217 | and there is a forwarder, with the names of the instances, exactly for known services with instances, but for those whose latest attempt failed |
| ServerSide.ServerSide.GiveUp | balancer/serverside/serverside.go:185-196 | when the attempt at a forwarder fails the record stays, without forwarder and without ingress entry, and nothing else changes |
| ServerSide.ServerSide.RecordInstance | balancer/serverside/serverside.go:160-170 | one entry: what is recorded afterwards; an announcement without address changes nothing but that an unknown service gets a record |
| ServerSide.ServerSide.ProcessServiceUpdate | balancer/serverside/serverside.go:107-127 | services become what the update tells, with a reset forgetting all others, and the whole record of each, forwarder included, follows from its old one and the outcome of at most one attempt; instances and other hosts' entries stay |
| ServerSide.ServerSide.ProcessInstanceReset | balancer/serverside/serverside.go:129-157 | recorded instances become exactly the addressed entries, every other service left with none, and each whole record follows from its old one and the outcome of at most one attempt |
| ServerSide.ServerSide.GroupByService | balancer/serverside/serverside.go:130-143 | the intermediate grouping files every addressed entry under its service and nothing else |
| ServerSide.ServerSide.ProcessInstanceUpdate | balancer/serverside/serverside.go:159-171 | withdrawals and addressed entries are recorded, an announcement without address leaves the recorded address; services without such entries keep their forwarders, or go on without, with no attempt made |
| ServerSide.TracksIffNoAddressLost | balancer/serverside/serverside.go:159-171 | recorded addresses follow the announced ones if and only if no recorded instance is announced again without its address |
| ServerSide.LoseAnAddress | balancer/serverside/serverside.go:165-168 | a new server side told of an instance, and then of it without address, still has the old address recorded |
| ServerSide.TracksAfterReset | balancer/serverside/serverside.go:129-157 | after a reset the recorded addresses are the announced ones again |
| Fluxd.Deliver | agent/sync_instances.go:75-101 | an event of the agent reaches the server side as the update it leads to, if any: what was sent amounts to the join, and resets withdraw nothing, as the server side requires |
| Fluxd.EventsOfBoth | cmd/fluxd/main.go:16-33 | the agent's events among the inputs are those of their parts, in order |
| Fluxd.ServiceIsLast | balancer/serverside/serverside.go:107-127 | the service that the balancer holds is what was last said of it, resets included |
| Fluxd.Run | cmd/fluxd/main.go:16-33 | agent and server side from their starts through any order of events and service updates: after every event the stream amounts to the join of what was told, and the server side holds the services it was told and the addresses it was sent |
| Fluxd.TracksIffNoneLost | balancer/serverside/serverside.go:91-99 | in every stream, at every point, the recorded addresses are those that the stream amounts to, if and only if no update so far announced a recorded instance without its address |
| Fluxd.TracksAfterAnyReset | balancer/serverside/serverside.go:129-157 | whatever was lost before, a reset in the stream puts that right |
| Fluxd.ForwardsIff | balancer/serverside/serverside.go:72-105 | after any such run in which no address is lost, a forwarder runs exactly for a told service of which the stream amounts to an addressed instance, with exactly these names in its pool, unless the latest attempt at it has failed |
| StoreEquivalence.RelatedAgree | common/store/etcdstore/etcdstore.go:210-349 | related states of the two stores answer every query alike |
| StoreEquivalence.SafeKeepsRelated | common/store/etcdstore/etcdstore.go:186-390 | every safe operation keeps the two stores related |
| StoreEquivalence.AgreeIffSafe | common/store/inmem/inmem.go:244-381 | from related states one operation keeps all answers equal if and only if it is safe: services added only when bare, rules and values only below existing services, written by live sessions, no session revived that has written |
| StoreEquivalence.HistoriesAgreeIffSafe | common/store/inmem/inmem.go:79-145 | two stores that start empty agree after every prefix of a history if and only if every operation is safe when its turn comes |
| StoreEquivalence.ReAddBreaksAgreement | common/store/inmem/inmem.go:244-248 | adding a service again over visible rules or instances makes the two stores differ |
| StoreEquivalence.AddedTwice | common/store/etcdstore/etcdstore.go:186-194 | a concrete history: a service is added, given a rule and added again, and only then the two stores differ |
| StoreEquivalence.HeardAgain | common/store/etcdstore/etcdstore.go:596-610 | a concrete history: a session registers a host, ends and is heard of again, and only then the two stores differ |
| StoreEquivalence.OrphanBreaksAgreement | common/store/etcdstore/etcdstore.go:237-249 | a directory without a spec makes the etcd listing fail |
| StoreEquivalence.DeadWriteBreaksAgreement | common/store/etcdstore/etcdstore.go:359-376 | a write of a session that is not live makes the two stores differ, or panics in the in-memory one |
| StoreEquivalence.ReviveBreaksAgreement | common/store/etcdstore/etcdstore.go:311-313 | a heartbeat of an ended session that has written makes its values visible again in etcd only |
| EtcdStore.CollectLive | common/store/etcdstore/etcdstore.go:303-315 | the values shown are exactly those whose session is live |
| EtcdStore.ServiceInfoFromNode | common/store/etcdstore/etcdstore.go:290-349 | a service is shown with the parts that the options ask for, live values only, and not at all without its spec |
| EtcdStore.GetAllServices | common/store/etcdstore/etcdstore.go:226-252 | all services are listed, or none if one lacks its spec |
| StoreReads.EtcdAnswer | common/store/etcdstore/etcdstore.go:210-224 | what a query shows, part by part and key by key: values of live sessions, rules, the spec |
| StoreReads.EtcdListing | common/store/etcdstore/etcdstore.go:226-252 | the listing has every service's answer, or is an error exactly if a directory lacks its spec |
| StoreReads.EtcdServices | common/store/etcdstore/etcdstore.go:186-208 | how each operation changes directories and specs |
| StoreReads.EtcdRules | common/store/etcdstore/etcdstore.go:351-357 | a rule is the one last written at its key, unless it or its service was removed |
| StoreReads.EtcdInstances | common/store/etcdstore/etcdstore.go:359-367 | so is an instance, with the session that wrote it |
| StoreReads.EtcdIngress | common/store/etcdstore/etcdstore.go:369-380 | so is an ingress entry |
| StoreReads.EtcdSessions | common/store/etcdstore/etcdstore.go:596-608 | a session is live from a heartbeat to its end |
| StoreReads.EtcdHosts | common/store/etcdstore/etcdstore.go:493-529 | a host is listed, as last registered, while its session is live |
| StoreReads.MemAnswer | common/store/inmem/inmem.go:273-307 | what a query of the in-memory store shows, part by part and key by key |
| StoreReads.MemListing | common/store/inmem/inmem.go:309-317 | the listing has every service's answer |
| StoreReads.MemServices | common/store/inmem/inmem.go:244-271 | how each operation changes the services |
| StoreReads.MemRules | common/store/inmem/inmem.go:340-360 | a rule is the one last written at its key since its service was last added |
| StoreReads.MemInstances | common/store/inmem/inmem.go:319-334 | so is an instance, until its session ends |
| StoreReads.MemIngress | common/store/inmem/inmem.go:366-381 | so is an ingress entry |
| StoreReads.MemHosts | common/store/inmem/inmem.go:397-415 | so is a host |
| InMem.InMem.AddService | common/store/inmem/inmem.go:244-253 | replaces the spec, wipes the sub-maps and reports the change to everyone |
| InMem.InMem.RemoveService | common/store/inmem/inmem.go:255-264 | takes everything of the service out and reports its removal to everyone |
| InMem.InMem.RemoveAllServices | common/store/inmem/inmem.go:266-271 | takes every service out and reports the changes in order |
| InMem.InMem.SetContainerRule | common/store/inmem/inmem.go:340-349 | fails exactly on an unknown service; otherwise sets the rule and reports to watchers of rules |
| InMem.InMem.RemoveContainerRule | common/store/inmem/inmem.go:351-360 | fails exactly on an unknown service; otherwise drops the rule and reports to watchers of rules |
| InMem.InMem.AddInstance | common/store/inmem/inmem.go:319-323 | panics exactly on an unknown service; otherwise sets the instance and reports to watchers of instances |
| InMem.InMem.RemoveInstance | common/store/inmem/inmem.go:325-334 | fails exactly on an unknown instance; otherwise drops it and reports to watchers of instances |
| InMem.InMem.AddIngressInstance | common/store/inmem/inmem.go:366-370 | panics exactly on an unknown service; otherwise sets the entry and reports to watchers of ingress instances |
| InMem.InMem.RemoveIngressInstance | common/store/inmem/inmem.go:372-381 | fails exactly on an unknown entry; otherwise drops it and reports to watchers of ingress instances |
| InMem.InMem.RegisterHost | common/store/inmem/inmem.go:79-83 | sets the host and tells of it |
| InMem.InMem.DeregisterHost | common/store/inmem/inmem.go:407-415 | drops the host and tells of it, even if there was none |
| InMem.InMem.Heartbeat | common/store/inmem/inmem.go:85-103 | counts every heartbeat but the first and has a timer running for the session |
| InMem.InMem.EndSession | common/store/inmem/inmem.go:105-145 | exactly the hosts, instances and ingress entries that the session owns go, and its timer; every service that loses something is reported, in order, and each host that goes is told of once |
| InMem.InMem.MakeServiceInfo | common/store/inmem/inmem.go:282-307 | copies the parts that the options ask for |
| InMem.InMem.GetAllServices | common/store/inmem/inmem.go:309-317 | lists every service with its info |
| Watch.MutateKeepsInv | common/store/inmem/inmem.go:200-217 | a store change with its event keeps every service up to date or queued with the right last flag |
| Watch.HandleChangeKeepsInv | common/store/watch.go:62-80 | re-querying a reported service keeps that too |
| Watch.StepKeepsInv | common/store/watch.go:52-93 | every step of store and watcher keeps that |
| Watch.Converges | common/store/watch.go:52-93 | in every run from the subscription on, at every step each service is up to date or queued, and a drained queue means that the replica is the store's view |
| Watch.ComesToView | common/store/watch.go:52-93 | from wherever the watcher is at work it comes to the store's view by itself once the store stays as it is, unless a queued change is of a service removed since, and then it may fail |
| Watch.FailureHasARemovalQueued | common/store/watch.go:70-75 | the loop fails on a change only if that service's removal is queued behind it |
| GarbageCollection.ClientKeepsInv | common/store/etcdstore/gc.go:13-50 | what clients do between the steps of a collection keeps the guards of pending deletes sound |
| GarbageCollection.CollectorKeepsInv | common/store/etcdstore/gc.go:13-67 | so do the steps of the collection |
| GarbageCollection.CullSpares | common/store/etcdstore/gc.go:58-63 | a guarded delete removes at most the very value scanned, never one whose session has been live since it was written |
| GarbageCollection.RunKeepsInv | common/store/etcdstore/gc.go:13-67 | the invariant holds at every point of every interleaving |
| GarbageCollection.LiveValueSurvives | common/store/etcdstore/gc.go:13-67 | in every interleaving a value whose session stays live from its write on, and which clients leave alone, is still there, unchanged |
| GarbageCollection.DueIffDead | common/store/etcdstore/gc.go:24-27 | once the live sessions are read, exactly the scanned values that name a dead one are due to be deleted |
| GarbageCollection.CullRemoves | common/store/etcdstore/gc.go:61-63 | a guarded delete of a value that is still the one scanned removes it, and no other |
| GarbageCollection.DeadValueGoes | common/store/etcdstore/gc.go:13-67 | in every interleaving a scanned value of a session that is dead when the live ones are read, and that nobody rewrites, is gone once the collection has come past it |
| GarbageCollection.CullsFinish | common/store/etcdstore/gc.go:52-67 | as many deletes as values are due finish a collection |
| GarbageCollection.Uninterrupted | common/store/etcdstore/gc.go:13-50 | the steps of a collection that nothing interrupts, in whatever order it deletes, remove exactly the values that name a dead session and change no query result |
| GarbageCollection.CollectionCompletes | common/store/etcdstore/gc.go:13-50 | such a collection can always be completed |
| GarbageCollection.DeleteInvisibleIffDead | common/store/etcdstore/gc.go:61-63 | deleting a value changes no query result if and only if its session is not live |
| GarbageCollection.Collection.CullSessionValues | common/store/etcdstore/gc.go:52-67 | exactly the scanned values of dead sessions are deleted, and no query result changes |
| GarbageCollection.Collection.DoCollection | common/store/etcdstore/gc.go:13-50 | an uninterrupted collection removes every value owned by a dead session, keeps all others, and changes no query result |
| Keys.KeysAreSpelled | common/store/etcdstore/etcdstore.go:78-106 | every key, written out |
| Keys.ServiceRootKeyRoundTrip | common/store/etcdstore/etcdstore.go:88-90 | parsing the key gives back its kind and names exactly for non-empty names without slash |
| Keys.ServiceKeyRoundTrip | common/store/etcdstore/etcdstore.go:92-94 | parsing the key gives back its kind and names exactly for names without slash |
| Keys.RuleKeyRoundTrip | common/store/etcdstore/etcdstore.go:96-98 | parsing the key gives back its kind and names exactly for names without slash |
| Keys.InstanceKeyRoundTrip | common/store/etcdstore/etcdstore.go:100-102 | parsing the key gives back its kind and names exactly for names without slash |
| Keys.IngressInstanceKeyRoundTrip | common/store/etcdstore/etcdstore.go:104-106 | parsing the key gives back its kind and names exactly for names without slash |
| EtcdWatch.EventsParse | common/store/etcdstore/etcdstore.go:399-450 | the event of every operation with proper names parses to that operation's kind and names |
| EtcdWatch.FiredIsMutation | common/store/inmem/inmem.go:200-217 | what is reported of an operation is what the in-memory store changes with it |
| EtcdWatch.EtcdWatcher.HandleResponse | common/store/etcdstore/etcdstore.go:399-450 | what each event does to the known services and which changes it sends, for every key, recognised or not; deleting the root reports each known service once |
| EtcdWatch.EtcdWatcher.DeleteAll | common/store/etcdstore/etcdstore.go:403-410 | every known service is reported deleted exactly once |
| EtcdWatch.Replay | common/store/etcdstore/etcdstore.go:463-480 | replaying the events of any operations reports each one just as the in-memory store would, and leaves the known services that the operations imply |
| EtcdWatch.KnownIsSpecs | common/store/etcdstore/etcdstore.go:399-450 | whatever is written where, the known services stay exactly those that exist |
| EtcdWatch.KnownIsDirsIff | common/store/etcdstore/etcdstore.go:463-480 | they stay those that a new watcher would list, the directories, if and only if nothing is written below a service that has none |
| EtcdWatch.UnreportedStays | common/store/etcdstore/etcdstore.go:399-450 | an operation other than the end or return of a session changes no answer for a service that it does not report |
| EtcdWatch.SilentIff | common/store/etcdstore/etcdstore.go:290-349 | an answer changes without a report that names the service if and only if a live session ends, or a dead one returns, that has written a value which the query shows |
| EtcdWatch.SilentIffInRuns | common/store/etcdstore/etcdstore.go:290-349 | so it is at every point of every run that is replayed to a watcher, which may start with any set of services that has all those with a spec |
| EtcdWatch.SilentListingIff | common/store/etcdstore/etcdstore.go:226-252 | the listing of all services changes with nothing reported if and only if a session turns whose values it shows, a value that the query does not show is written below an unknown service, which makes it an error, or only directories without a spec are removed |
| EtcdWatch.OrphanStaysUnknown | common/store/etcdstore/etcdstore.go:351-353 | a rule written for an unknown service leaves a directory that a watcher does not know of |
| EtcdWatch.SessionEndIsSilent | common/store/etcdstore/etcdstore.go:311-313 | a concrete history in which the end of a session, and then its return, change an answer without an event on the service tree |
| IpTables.DeleteFirstLess | balancer/mock_iptables_test.go:106-114 | deleting a rule takes out one occurrence and so terminates the deletion loop |
| IpTables.IpTables.Do | balancer/iptables.go:77-107 | a command changes the tables as iptables does, is refused, or, exactly if it cannot be run, changes nothing |
| IpTables.IpTables.DeleteChainRule | balancer/iptables.go:176-186 | terminates with every occurrence of the rule gone and the others in order, and fails exactly if some command cannot be run |
| IpTables.IpTables.AddRule | balancer/iptables.go:188-190 | succeeds exactly if its command can be run and the chain is there, and then appends the rule |
| IpTables.IpTables.DeleteChain | balancer/iptables.go:149-174 | both forms of jump go from the hook chains; the chain goes too, and the call succeeds, exactly when nothing else refers to it |
| IpTables.IpTables.SetupChain | balancer/iptables.go:128-147 | succeeds exactly when the old chain could be deleted, and then leaves the tables of the specification |
| IpTables.Names.TidyCanDelete | balancer/iptables.go:149-174 | if the chain is referred to only from the hook chains in the two known forms, it can be deleted and no reference is left |
| IpTables.Names.SetupResult | balancer/iptables.go:128-174 | from a tidy table: an empty chain, a jump first in each hook chain, the other rules of hook chains in order, everything else untouched |
| IpTables.Names.OneJumpEach | balancer/iptables.go:128-174 | every hook chain then has exactly one jump and none of the old form |
| IpTables.Names.StartedJumpsFirst | balancer/iptables.go:31-45 | after a start the first rule of nat's PREROUTING and OUTPUT and of filter's FORWARD and INPUT is the jump to the balancer's chain |
| IpTables.Names.SetupIdempotent | balancer/iptables.go:128-147 | setting up twice is setting up once |
| IpTables.Names.DeleteUndoesSetup | balancer/iptables.go:149-174 | deleting with the same hook chains undoes a setup |
| IpTables.Names.LeftHookedIsKept | balancer/iptables.go:47-51 | if one hook chain is left out, deletion fails and the emptied chain and that jump stay |
| IpTables.IpTables.Start | balancer/iptables.go:31-45 | from tidy tables both chains are set up and flagged; the flags say how far it came |
| IpTables.IpTables.Stop | balancer/iptables.go:47-57 | what is deleted for each flag that was set |
| IpTables.Names.StopResult | balancer/iptables.go:47-57 | after start and stop nat keeps the emptied chain and the jump from OUTPUT; filter and all other rules are as before the start |
| IpTables.Names.RestartAsFirst | balancer/iptables.go:31-57 | what a stop leaves behind does not hinder the next start, which gives the same tables as the first |
| Services.RuleDeleted | balancer/services.go:190-192 | a rule that is over is found by its delete, which leaves the table balanced |
| Services.StateReplaced | balancer/services.go:160-164 | replacing a service's state leaves exactly its old rule over |
| Services.BalancedIsCovered | balancer/services.go:146-147 | in a balanced table every service's rule is installed |
| Services.Services.StartForwarding | balancer/services.go:211-247 | a fresh forwarding state, listening where the forwarder was opened and with its rule installed beside all others, if and only if the forwarder can be made and the command run; otherwise no rule has changed |
| Services.Services.StopState | balancer/services.go:195-197 | exactly the state's rule goes, or, exactly if the command cannot be run, it is counted as leaked |
| Services.Services.UpdateState | balancer/services.go:138-166 | it fails exactly if the state has to be replaced and a forwarder is needed that cannot be made, or the command for the rule cannot be run; rules stay in balance even then; otherwise the new state is the specified one; after every command every service managed at that moment has the rule of the state it has then, or of the one it is being given |
| Services.Services.DoUpdate | balancer/services.go:77-115 | the same for whole updates: an entry fails exactly as above, each with a command and an attempt of its own; each service follows its entry, stays if that failed, or goes; nat and filter chains hold exactly the rules of the states, and no other chain changes; make before break after every command for every service managed at that moment, added and closed ones included |
| Services.FailsIfDenied | balancer/services.go:77-115 | if every command of an update can be run, the entries that fail are exactly those that need a forwarder which cannot be made |
| Services.Services.Stop | balancer/services.go:45-59 | all states go and, if every command could be run, both chains are empty |
| Services.FollowsKind | balancer/services.go:149-153 | a service with instances is forwarded, any other rejected |
| Services.PoolFollowsIff | balancer/services.go:254-274 | the pool has the names of the update if and only if the update does not bring back the service the forwarder started with, or the pool had those names already |
| Services.ProtocolFollowsIff | balancer/services.go:254-274 | so has the forwarder the protocol of the update |
| Services.ForwarderStays | balancer/services.go:254-274 | while a service is forwarded at the same address its forwarder stays where it listens, and instances that stay keep their address in the pool |
| Services.NewStateFits | balancer/services.go:138-166 | a new state is for the very service, with a pool of its instances and its protocol, or rejects its address |
| Services.AddressFollowsIff | balancer/services.go:199-201 | the rule matches the updated address if and only if the service was not already rejected at another address |
| Services.MovingLeavesTheRule | balancer/services.go:199-201 | a service rejected and then rejected at another address keeps the rule for the old one |
| Services.ComingBackLeavesThePool | balancer/services.go:260-263 | three updates, back to the first, that leave the second one's pool in place |
| Packets.HeldMeans | balancer/services.go:189-239 | read as iptables reads them, the words of a state's rule match exactly the tcp packets to its address, and reject them or send them to its forwarder |
| Packets.RulesRoute | balancer/services.go:189-239 | with services at different addresses, a packet to a forwarded service is sent to its forwarder by nat's chain and let pass by filter's; one to a rejected service is rejected by filter's and let pass by nat's |
| Packets.RulesLeaveOthers | balancer/services.go:189-239 | packets to no service's address are let pass by both |
| Packets.UpdateRoutes | balancer/services.go:77-115 | after an update packets to a service that it gives go to where its forwarder was opened, or has been since before, exactly if it has instances, and are rejected otherwise |
| Packets.CoveredMeans | balancer/services.go:146-147 | while an update is going on, each managed service has a rule in its chain that matches exactly its packets and treats them as its old or its new state does |
| Packets.StaysSinceStart | balancer/iptables.go:31-45 | calls that change only the balancer's chains leave what a start set up |
| Packets.HooksRoute | balancer/iptables.go:31-45 | from a start on, packets that come in or start on the host, and so meet PREROUTING or OUTPUT, are sent to the forwarder of the service they go to; in FORWARD and INPUT those to a rejected service are rejected |
| Supervision.StepKeepsInv | common/daemon/component.go:25-173 | every step of Reset, Restart, their component and their environment keeps the invariant |
| Supervision.RunKeepsInv | common/daemon/component.go:25-173 | the invariant holds at every point of every run |
| Supervision.StartsAndStopsAlternate | common/daemon/component.go:29-64 | in every run each started component is stopped exactly once and before the next is started, across resets too |
| Supervision.NoneSurvives | common/daemon/component.go:86-97 | nothing is running once Restart has finished, so when Stop returns |
| Supervision.DoneWasAsked | common/daemon/component.go:36-63 | Restart finishes only when it has been asked to stop, as Reset asks when it ends it |
| Supervision.FailedIsRestarted | common/daemon/component.go:36-63 | at every point of every run, a component that has failed is stopped and started again by Restart's own steps and the passing of time, as long as no stop is asked |
| Supervision.ResetIsServed | common/daemon/component.go:144-173 | at every point of every run, a requested reset leads to a new launch by the supervisors' own steps, unless they are ending for good |
| Supervision.StopIsServed | common/daemon/component.go:86-97 | at every point of every run after a stop was asked, the supervisors come to the end by their own steps, with nothing left running |
| Supervision.FinishedForGood | common/daemon/component.go:144-173 | once Reset has finished nothing is running and nothing is ever started again |
| Supervision.StartsAreApart | common/daemon/component.go:31-62 | any two starts by one Restart read clock values at least the interval apart |
| Supervision.NoResetIsLost | agent/sync_instances.go:121-130 | from a request to the next launch, a request is in the channel or Reset is on its way to a launch |

## Left out

- Sockets, byte copying and HTTP (`balancer/forwarder/forwarder.go`, `balancer/forwarder/http.go`): a forwarder is its address, protocol and pool.
- JSON, etcd, docker and iptables as processes: encoding is the identity, and the tree, the log and the tables are values; errors of etcd calls are left out.
- Address and label extraction (`agent/sync_instances.go:248-330`): an uninterpreted function of container, service and rule; labels are part of the container.
- The `bufferContainerIDs` queue (`agent/docker_listener.go:169-191`): a first-in first-out queue, covered by letting inspections lag behind events by any amount.
- Stopping in the middle of a docker listing or an update, and errors that end a component: the component is restarted from its start.
- GarbageCollection.LiveValueSurvives: speaks of values that clients leave alone after the write, because a client may delete or overwrite its own value.
- SyncInstances.SyncInstances.Run: speaks of containers announced under their own id, as docker does; other announcements keep the invariant but not the view.
- Agent.FromDockerToStore: speaks of one stretch from a start or reset to the next reset request, with answers to every inspection; `Agent.Live` covers resets in between, and `DockerListener.Inspector.InspectStream` failing inspections.
- PoolRuns.Run: ends at the first call that breaks the pool as written; what is said of runs up to there is not said of a broken pool, of which `Pool.InstancePool.Fail`, `Failed`, `PickInstance` and `UpdateInstances` still speak.
- Watch.Converges: changing the store and telling the watcher is one step, the unbuffered channel is a queue, and errors injected by tests are left out.
- InMem.InMem.Heartbeat: does not model time, so that a timer which expires is a call of EndSession left to the caller; each watcher's own queue is the one list of what is fired.
- Supervision.StartsAreApart: concerns the clock readings before each start; a start call that is itself delayed is not timed.
- Supervision.ResetIsServed: says that the supervisors can come to a launch by their own steps from everywhere, as `Supervision.StopIsServed` and `Supervision.FailedIsRestarted` say of the end and of restarts; that the scheduler lets them is left to it.
- Services.Services.DoUpdate: does not compare the order of rules within a chain.
- ServerSide.ServerSide.ProcessInstanceUpdate: does not say which attempt a service that several entries concern has come to, because that depends on the order of map iteration; that its latest attempt failed if it lacks a forwarder is said.
- IpTables.Names.SetupResult: covers tables whose references to the chain are in the two known forms; `IpTables.IpTables.DeleteChain` says what happens in all others.
- Aggregate, Par and SimpleComponent (`common/daemon/component.go:74-142`): plumbing around the supervisors.
- Fairness of schedulers, channels and `select`: what is stated is that progress is possible from every reachable state.
- `fluxctl`, `web`, Prometheus, event logging, template generation in `balancer/balagent/balagent.go`, flags and the banner; IP and port parsing in `common/netutil/netutil.go`.
