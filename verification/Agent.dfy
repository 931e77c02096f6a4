// The whole agent (agent/agent.go): docker's events and listing, the join, and
// the store, while other hosts write to the store too.
module Agent {
  import opened Prelude
  import opened StoreData
  import M = InMemModel
  import InMem
  import opened SetInstances
  import Sync = SyncInstances
  import Docker = DockerListener

  // What happens beside the docker updates: the watcher of services has an
  // update, a reset of the instances is requested, or another host sets or
  // removes an instance of its own.
  datatype Input =
    | Services(u: ServiceUpdate)
    | ResetInstances
    | Elsewhere(session: string, k: InstanceKey, inst: Option<Instance>)

  // Hosts keep to the ids of their own containers, and to existing services.
  ghost predicate Orderly(input: Input, ids: set<string>, host: string, services: set<string>) {
    match input
    case Services(u) => forall s :: s in u.services && u.services[s].Some? ==> s in services
    case ResetInstances => true
    case Elsewhere(_, k, inst) =>
      k.instance !in ids && k.service in services && (inst.Some? ==> inst.value.host != host)
  }

  ghost predicate Within(copy: map<InstanceKey, Instance>, ids: set<string>) {
    forall k :: k in copy ==> k.instance in ids
  }

  // The docker updates among the events, in order.
  function DockerUpdates(events: seq<Sync.Event>): seq<ContainerUpdate> {
    if events == [] then []
    else
      var rest, last := DockerUpdates(events[..|events| - 1]), events[|events| - 1];
      if last.ContainersChanged? then rest + [last.conts] else rest
  }

  // The other events, in order, and those that inputs lead to.
  function OtherEvents(events: seq<Sync.Event>): seq<Sync.Event> {
    if events == [] then []
    else
      var rest, last := OtherEvents(events[..|events| - 1]), events[|events| - 1];
      if last.ContainersChanged? then rest else rest + [last]
  }

  function EventsOf(inputs: seq<Input>): seq<Sync.Event> {
    if inputs == [] then []
    else
      var rest, last := EventsOf(inputs[..|inputs| - 1]), inputs[|inputs| - 1];
      rest + if EventOf(last).Some? then [EventOf(last).value] else []
  }

  // They keep the events in order, and nothing else.
  lemma {:induction false} EventsOfBoth(a: seq<Input>, b: seq<Input>)
    ensures EventsOf(a + b) == EventsOf(a) + EventsOf(b)
  {
    if b == [] {
      assert a + b == a;
    } else {
      assert (a + b)[..|a + b| - 1] == a + b[..|b| - 1];
      EventsOfBoth(a, b[..|b| - 1]);
    }
  }

  lemma EventsOfOne(input: Input)
    ensures EventsOf([input]) == match input
                                 case Services(u) => [Sync.ServicesChanged(u)]
                                 case ResetInstances => [Sync.ResetRequested]
                                 case Elsewhere(_, _, _) => []
  {
    assert [input][..0] == [];
  }

  lemma {:induction false} UpdatesOfBoth(a: seq<Sync.Event>, b: seq<Sync.Event>)
    ensures DockerUpdates(a + b) == DockerUpdates(a) + DockerUpdates(b)
  {
    if b == [] {
      assert a + b == a;
    } else {
      assert (a + b)[..|a + b| - 1] == a + b[..|b| - 1];
      UpdatesOfBoth(a, b[..|b| - 1]);
    }
  }

  lemma {:induction false} OthersOfBoth(a: seq<Sync.Event>, b: seq<Sync.Event>)
    ensures OtherEvents(a + b) == OtherEvents(a) + OtherEvents(b)
  {
    if b == [] {
      assert a + b == a;
    } else {
      assert (a + b)[..|a + b| - 1] == a + b[..|b| - 1];
      OthersOfBoth(a, b[..|b| - 1]);
    }
  }

  lemma UpdatesOfOne(e: Sync.Event)
    ensures DockerUpdates([e]) == if e.ContainersChanged? then [e.conts] else []
    ensures OtherEvents([e]) == if e.ContainersChanged? then [] else [e]
  {
    assert [e][..0] == [];
  }

  ghost predicate NoReset(events: seq<Sync.Event>) {
    forall n :: 0 <= n < |events| ==> !events[n].ResetRequested?
  }

  // Without resets, the known containers are those of the docker updates.
  lemma {:induction false} KnownContainers(events: seq<Sync.Event>)
    requires NoReset(events)
    ensures Sync.ViewAfter(events).conts == Docker.KnownFrom(DockerUpdates(events))
  {
    if events != [] {
      var rest, last := events[..|events| - 1], events[|events| - 1];
      KnownContainers(rest);
      if last.ContainersChanged? {
        assert (DockerUpdates(rest) + [last.conts])[..|DockerUpdates(rest)|] == DockerUpdates(rest);
      }
    }
  }

  lemma JoinWithin(env: Sync.Env, copy: map<InstanceKey, Instance>, infos: map<string, ServiceInfo>,
                   conts: map<string, Container>, ids: set<string>)
    requires Sync.IsJoin(env, copy, infos, conts) && conts.Keys <= ids
    ensures Within(copy, ids)
  {
    forall k | k in copy ensures k.instance in ids {
      assert Sync.JoinedAt(env, copy, infos, conts, k);
    }
  }

  // The services and containers that are known stay those that there can be.
  ghost predicate ViewWithin(v: Sync.View, ids: set<string>, services: set<string>) {
    && (v.infos.Some? ==> v.infos.value.Keys <= services)
    && (v.conts.Some? ==> v.conts.value.Keys <= ids)
  }

  ghost predicate EventWithin(e: Sync.Event, ids: set<string>, services: set<string>) {
    match e
    case ContainersChanged(u) => Docker.OfThisHost(u, ids)
    case ServicesChanged(u) => forall s :: s in u.services && u.services[s].Some? ==> s in services
    case ResetRequested => true
  }

  lemma ViewStaysWithin(v: Sync.View, e: Sync.Event, ids: set<string>, services: set<string>)
    requires ViewWithin(v, ids, services) && EventWithin(e, ids, services)
    ensures ViewWithin(Sync.NextView(v, e), ids, services)
  {
  }

  // No other host's instance is that of one of these containers.
  ghost predicate Apart(m: M.Mem, host: string, ids: set<string>) {
    forall k: InstanceKey :: k.instance in ids ==> !IsForeign(StoreAt(m, k), host)
  }

  // What inputs make of another host's instance at a key.
  function WrittenAt(inputs: seq<Input>, k: InstanceKey, before: Option<Instance>): Option<Instance> {
    if inputs == [] then before
    else Written(inputs[|inputs| - 1], k, WrittenAt(inputs[..|inputs| - 1], k, before))
  }

  // That is, what was written last.
  lemma {:induction false} WrittenIsLast(inputs: seq<Input>, k: InstanceKey, before: Option<Instance>, j: nat)
    requires j <= |inputs|
    requires forall i :: j <= i < |inputs| && inputs[i].Elsewhere? ==> inputs[i].k != k
    ensures j == 0 ==> WrittenAt(inputs, k, before) == before
    ensures j > 0 && inputs[j - 1].Elsewhere? && inputs[j - 1].k == k ==>
              WrittenAt(inputs, k, before) == inputs[j - 1].inst
  {
    if j < |inputs| {
      WrittenIsLast(inputs[..|inputs| - 1], k, before, j);
    }
  }

  function Written(input: Input, k: InstanceKey, before: Option<Instance>): Option<Instance> {
    if input.Elsewhere? && input.k == k then input.inst else before
  }

  // Between inputs: the store's instances of this host follow the join.
  ghost predicate Follows(sync: Sync.SyncInstances, setter: SetInstances, ids: set<string>)
    reads sync, setter, setter.store
  {
    && setter.hostIP == sync.env.hostIP && setter.store.Valid()
    && sync.Inv(Mine(setter.store.State(), setter.hostIP))
    && Within(Mine(setter.store.State(), setter.hostIP), ids)
    && Apart(setter.store.State(), setter.hostIP, ids)
    && ViewWithin(sync.KnownView(), ids, setter.store.services.Keys)
  }

  method HandleEvent(sync: Sync.SyncInstances, setter: SetInstances, e: Sync.Event, ghost ids: set<string>)
    requires Follows(sync, setter, ids) && EventWithin(e, ids, setter.store.services.Keys)
    modifies sync, setter.store
    ensures Follows(sync, setter, ids) && setter.store.services == old(setter.store.services)
    ensures sync.KnownView() == Sync.NextView(old(sync.KnownView()), e)
    ensures Sync.InSync(sync.env, Mine(setter.store.State(), setter.hostIP), sync.KnownView())
    ensures forall k :: Theirs(setter.store.State(), setter.hostIP, k) ==
              Theirs(old(setter.store.State()), setter.hostIP, k)
    ensures e.ResetRequested? ==>
              sync.services == None && sync.containers == None && setter.store.State() == old(setter.store.State())
  {
    ghost var before := setter.store.State();
    ViewStaysWithin(sync.KnownView(), e, ids, setter.store.services.Keys);
    var sent := Turn(sync, setter, e);
    ghost var v, mine := sync.KnownView(), Mine(setter.store.State(), setter.hostIP);
    if sent.Some? {
      JoinWithin(sync.env, mine, v.infos.value, v.conts.value, ids);
      ConcernedWithin(e, v, ids, setter.store.services.Keys);
      StaysApart(before, setter.store.State(), setter.hostIP, ids, sent.value);
    }
  }

  lemma ConcernedWithin(e: Sync.Event, v: Sync.View, ids: set<string>, services: set<string>)
    requires EventWithin(e, ids, services) && ViewWithin(v, ids, services)
    ensures Sync.ConcernedBy(e, v) <= ids
  {
  }

  // An update with entries for these containers only leaves the others alone.
  lemma StaysApart(before: M.Mem, after: M.Mem, host: string, ids: set<string>, u: InstanceUpdate)
    requires Apart(before, host, ids) && Sync.EntriesFor(ids, map[], u.instances)
    requires OthersKept(before, after, host) <==> NoForeignKeys(before, host, u)
    ensures Apart(after, host, ids)
    ensures forall k :: Theirs(after, host, k) == Theirs(before, host, k)
  {
  }

  // Another host's write leaves this host's copy alone.
  method WriteElsewhere(store: InMem.InMem, host: string, session: string, k: InstanceKey, inst: Option<Instance>)
    requires store.Valid() && k.service in store.services && k !in Mine(store.State(), host)
    requires inst.Some? ==> inst.value.host != host
    modifies store
    ensures store.Valid() && store.services == old(store.services)
    ensures Mine(store.State(), host) == Mine(old(store.State()), host)
    ensures forall j :: Theirs(store.State(), host, j) ==
              if j == k then inst else Theirs(old(store.State()), host, j)
  {
    ghost var before := store.State();
    PutElsewhere(store, session, k, inst);
    SameElsewhere(before, store.State(), host, k);
  }

  method PutElsewhere(store: InMem.InMem, session: string, k: InstanceKey, inst: Option<Instance>)
    requires store.Valid() && k.service in store.services
    modifies store
    ensures store.Valid() && store.services == old(store.services)
    ensures forall j :: StoreAt(store.State(), j) == if j == k then inst else StoreAt(old(store.State()), j)
  {
    match inst {
      case Some(i) => var panicked := store.AddInstance(session, k.service, k.instance, i);
      case None => var found := store.RemoveInstance(k.service, k.instance);
    }
  }

  lemma SameElsewhere(before: M.Mem, after: M.Mem, host: string, k: InstanceKey)
    requires k !in Mine(before, host)
    requires forall j {:trigger StoreAt(after, j)} :: j != k ==> StoreAt(after, j) == StoreAt(before, j)
    requires IfHost(StoreAt(after, k), host) == None
    ensures Mine(after, host) == Mine(before, host)
  {
    forall j ensures Get(Mine(after, host), j) == Get(Mine(before, host), j) {
      MineGet(before, host, j);
      MineGet(after, host, j);
    }
    SameMaps(Mine(after, host), Mine(before, host));
  }

  // One event more.
  lemma EventsMore(events: seq<Sync.Event>, e: Sync.Event)
    ensures Sync.ViewAfter(events + [e]) == Sync.NextView(Sync.ViewAfter(events), e)
    ensures DockerUpdates(events + [e]) == DockerUpdates(events) + if e.ContainersChanged? then [e.conts] else []
    ensures OtherEvents(events + [e]) == OtherEvents(events) + if e.ContainersChanged? then [] else [e]
    ensures NoReset(events) && !e.ResetRequested? ==> NoReset(events + [e])
  {
    assert (events + [e])[..|events|] == events;
  }

  // What an input is, if it is an event.
  function EventOf(input: Input): Option<Sync.Event> {
    match input
    case Services(u) => Some(Sync.ServicesChanged(u))
    case ResetInstances => Some(Sync.ResetRequested)
    case Elsewhere(_, _, _) => None
  }

  lemma InputsMore(inputs: seq<Input>, j: nat)
    requires j < |inputs|
    ensures var e := EventOf(inputs[j]);
            EventsOf(inputs[..j + 1]) == EventsOf(inputs[..j]) + if e.Some? then [e.value] else []
  {
    assert inputs[..j + 1][..j] == inputs[..j];
  }

  // The events are an interleaving of the first i updates and j inputs.
  ghost predicate Interleaves(events: seq<Sync.Event>, updates: seq<ContainerUpdate>, i: nat, rest: seq<Input>, j: nat)
    requires i <= |updates| && j <= |rest|
  {
    && DockerUpdates(events) == updates[..i] && OtherEvents(events) == EventsOf(rest[..j])
    && ((forall n :: 0 <= n < |rest| ==> !rest[n].ResetInstances?) ==> NoReset(events))
  }

  lemma TakeUpdate(events: seq<Sync.Event>, updates: seq<ContainerUpdate>, i: nat, rest: seq<Input>, j: nat)
    requires i < |updates| && j <= |rest| && Interleaves(events, updates, i, rest, j)
    ensures Interleaves(events + [Sync.ContainersChanged(updates[i])], updates, i + 1, rest, j)
  {
    EventsMore(events, Sync.ContainersChanged(updates[i]));
  }

  function WithInput(events: seq<Sync.Event>, input: Input): seq<Sync.Event> {
    if EventOf(input).Some? then events + [EventOf(input).value] else events
  }

  lemma WrittenMore(inputs: seq<Input>, j: nat, k: InstanceKey, before: Option<Instance>)
    requires j < |inputs|
    ensures WrittenAt(inputs[..j + 1], k, before) == Written(inputs[j], k, WrittenAt(inputs[..j], k, before))
  {
    assert inputs[..j + 1][..j] == inputs[..j];
  }

  lemma TakeInput(events: seq<Sync.Event>, updates: seq<ContainerUpdate>, i: nat, rest: seq<Input>, j: nat)
    requires i <= |updates| && j < |rest| && Interleaves(events, updates, i, rest, j)
    ensures Interleaves(WithInput(events, rest[j]), updates, i, rest, j + 1)
  {
    InputsMore(rest, j);
    if EventOf(rest[j]).Some? {
      EventsMore(events, EventOf(rest[j]).value);
    }
  }

  lemma WriteStaysApart(before: M.Mem, after: M.Mem, host: string, ids: set<string>, k: InstanceKey,
                        inst: Option<Instance>)
    requires Apart(before, host, ids) && k.instance !in ids
    requires forall j :: Theirs(after, host, j) == if j == k then inst else Theirs(before, host, j)
    ensures Apart(after, host, ids)
  {
    forall j: InstanceKey | j.instance in ids ensures !IsForeign(StoreAt(after, j), host) {
      assert Theirs(after, host, j) == Theirs(before, host, j);
    }
  }

  method HandleWrite(sync: Sync.SyncInstances, setter: SetInstances, session: string, k: InstanceKey,
                     inst: Option<Instance>, ghost ids: set<string>)
    requires Follows(sync, setter, ids)
    requires Orderly(Elsewhere(session, k, inst), ids, setter.hostIP, setter.store.services.Keys)
    modifies setter.store
    ensures Follows(sync, setter, ids) && setter.store.services == old(setter.store.services)
    ensures forall j :: Theirs(setter.store.State(), setter.hostIP, j) ==
              if j == k then inst else Theirs(old(setter.store.State()), setter.hostIP, j)
  {
    ghost var before := setter.store.State();
    WriteElsewhere(setter.store, setter.hostIP, session, k, inst);
    WriteStaysApart(before, setter.store.State(), setter.hostIP, ids, k, inst);
  }

  method HandleInput(sync: Sync.SyncInstances, setter: SetInstances, input: Input, ghost ids: set<string>)
    requires Follows(sync, setter, ids) && Orderly(input, ids, setter.hostIP, setter.store.services.Keys)
    modifies sync, setter.store
    ensures Follows(sync, setter, ids) && setter.store.services == old(setter.store.services)
    ensures sync.KnownView() == (var e := EventOf(input);
                                 if e.None? then old(sync.KnownView())
                                 else Sync.NextView(old(sync.KnownView()), e.value))
    ensures forall k :: Theirs(setter.store.State(), setter.hostIP, k) ==
              Written(input, k, Theirs(old(setter.store.State()), setter.hostIP, k))
    ensures input.ResetInstances? ==>
              sync.services == None && sync.containers == None && setter.store.State() == old(setter.store.State())
  {
    match input {
      case Services(u) => HandleEvent(sync, setter, Sync.ServicesChanged(u), ids);
      case ResetInstances => HandleEvent(sync, setter, Sync.ResetRequested, ids);
      case Elsewhere(session, k, inst) => HandleWrite(sync, setter, session, k, inst, ids);
    }
  }

  // A life of the agent: docker's updates in order, and everything else, in
  // any interleaving.  Whatever is known of both sources, the store's
  // instances of this host are their join, and other hosts' instances are what
  // these have written.
  method Live(sync: Sync.SyncInstances, setter: SetInstances, updates: seq<ContainerUpdate>, rest: seq<Input>,
              ghost ids: set<string>)
    returns (ghost events: seq<Sync.Event>)
    requires sync.services == None && sync.containers == None && Follows(sync, setter, ids)
    requires forall n :: 0 <= n < |updates| ==> Docker.OfThisHost(updates[n], ids)
    requires forall n :: 0 <= n < |rest| ==> Orderly(rest[n], ids, setter.hostIP, setter.store.services.Keys)
    modifies sync, setter.store
    ensures Follows(sync, setter, ids) && setter.store.services == old(setter.store.services)
    ensures sync.KnownView() == Sync.ViewAfter(events)
    ensures DockerUpdates(events) == updates && OtherEvents(events) == EventsOf(rest)
    ensures Sync.InSync(sync.env, Mine(setter.store.State(), setter.hostIP), Sync.ViewAfter(events))
    ensures (forall n :: 0 <= n < |rest| ==> !rest[n].ResetInstances?) ==> NoReset(events)
    ensures forall k :: Theirs(setter.store.State(), setter.hostIP, k) ==
              WrittenAt(rest, k, Theirs(old(setter.store.State()), setter.hostIP, k))
  {
    var i, j := 0, 0;
    events := [];
    while i < |updates| || j < |rest|
      invariant i <= |updates| && j <= |rest|
      invariant Follows(sync, setter, ids) && setter.store.services == old(setter.store.services)
      invariant sync.KnownView() == Sync.ViewAfter(events)
      invariant Interleaves(events, updates, i, rest, j)
      invariant forall k :: Theirs(setter.store.State(), setter.hostIP, k) ==
                  WrittenAt(rest[..j], k, Theirs(old(setter.store.State()), setter.hostIP, k))
      decreases |updates| - i + |rest| - j
    {
      var docker: bool := *;
      if j == |rest| || (docker && i < |updates|) {
        var e := Sync.ContainersChanged(updates[i]);
        HandleEvent(sync, setter, e, ids);
        EventsMore(events, e);
        TakeUpdate(events, updates, i, rest, j);
        events := events + [e];
        i := i + 1;
      } else {
        HandleInput(sync, setter, rest[j], ids);
        forall k ensures WrittenAt(rest[..j + 1], k, Theirs(old(setter.store.State()), setter.hostIP, k)) ==
            Written(rest[j], k, WrittenAt(rest[..j], k, Theirs(old(setter.store.State()), setter.hostIP, k))) {
          WrittenMore(rest, j, k, Theirs(old(setter.store.State()), setter.hostIP, k));
        }
        if EventOf(rest[j]).Some? {
          EventsMore(events, EventOf(rest[j]).value);
        }
        TakeInput(events, updates, i, rest, j);
        events := WithInput(events, rest[j]);
        j := j + 1;
      }
    }
    assert updates[..|updates|] == updates && rest[..|rest|] == rest;
    if sync.Known() {
      Sync.MirrorsTheJoin(sync.env, Mine(setter.store.State(), setter.hostIP), sync.services.value,
        sync.containers.value);
    }
  }

  // From docker to the store: the log is read from p on until n, the listing
  // reflects its point s, answers are what docker says of each container when
  // it is inspected, and everything else happens at any time in between.  If
  // no resets are requested, then once everything is handled the containers
  // that are known are those that run, and if the services are known too, the
  // store's instances of this host are the join of services and what runs.
  method FromDockerToStore(sync: Sync.SyncInstances, setter: SetInstances, inspector: Docker.Inspector,
                           log: seq<Docker.Event>, listing: set<string>, p: nat, n: nat, answers: seq<Docker.Answers>,
                           rest: seq<Input>, ghost initial: set<string>, ghost s: nat, ghost ids: set<string>)
    requires sync.services == None && sync.containers == None && Follows(sync, setter, ids)
    requires inspector.Inv() && inspector.known == None
    requires p <= n <= |log| && s <= n && Docker.IsRunningSet(listing, initial, log, s)
    requires forall j :: 0 <= j < |rest| ==>
              Orderly(rest[j], ids, setter.hostIP, setter.store.services.Keys) && !rest[j].ResetInstances?
    requires Reliable(log, listing, initial, s, p, n, answers, ids)
    modifies sync, setter.store, inspector
    ensures setter.store.Valid() && sync.KnownView().conts.Some?
    ensures Docker.IsRunningSet(sync.KnownView().conts.value.Keys, initial, log, n)
    ensures var ms := Docker.Stream(Docker.First(log, listing, p), log, p, n);
            |answers| == |ms| &&
            forall id :: id in sync.KnownView().conts.value ==>
              Docker.GivenIn(ms, answers, id, sync.KnownView().conts.value[id])
    ensures sync.KnownView().infos == Sync.ViewAfter(EventsOf(rest)).infos
    ensures sync.KnownView().infos.Some? ==>
              Sync.IsJoin(sync.env, Mine(setter.store.State(), setter.hostIP),
                          sync.KnownView().infos.value, sync.KnownView().conts.value)
    ensures forall k :: Theirs(setter.store.State(), setter.hostIP, k) ==
              WrittenAt(rest, k, Theirs(old(setter.store.State()), setter.hostIP, k))
  {
    var ms := Docker.ReadContainerIDs(log, listing, p, n);
    var sent, failed := inspector.InspectStream(ms, answers, ids);
    Docker.FirstFits(log, listing, p);
    Docker.AnnouncedIsRunning(initial, Docker.First(log, listing, p), listing, log, s, p, n, Docker.FoundAll(answers));
    ghost var events := Live(sync, setter, sent, rest, ids);
    KnownContainers(events);
    InfosOfOthers(events);
  }

  // What docker answers: something for every container asked about, no errors,
  // containers under their own ids, which are this host's, and of a container
  // that it does not know, the truth.
  ghost predicate Reliable(log: seq<Docker.Event>, listing: set<string>, initial: set<string>, s: nat, p: nat, n: nat,
                           answers: seq<Docker.Answers>, ids: set<string>)
    requires p <= n <= |log|
  {
    var first := Docker.First(log, listing, p);
    var ms := Docker.Stream(first, log, p, n);
    && |answers| == |ms|
    && (forall j :: 0 <= j < |ms| ==>
          Docker.Answered(ms[j], answers[j]) && !Docker.Fails(ms[j], answers[j]))
    && Docker.Proper(ms, answers, ids)
    && Docker.Honest(initial, first, log, s, p, n, Docker.FoundAll(answers))
  }

  lemma {:induction false} InfosOfOthers(events: seq<Sync.Event>)
    ensures Sync.ViewAfter(events).infos == Sync.ViewAfter(OtherEvents(events)).infos
  {
    if events != [] {
      var rest, last := events[..|events| - 1], events[|events| - 1];
      InfosOfOthers(rest);
      if !last.ContainersChanged? {
        assert (OtherEvents(rest) + [last])[..|OtherEvents(rest)|] == OtherEvents(rest);
      }
    }
  }
}
