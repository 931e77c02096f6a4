// Applying instance updates to the store (agent/set_instances.go), and the
// agent's two halves together.
module SetInstances {
  import opened Prelude
  import opened StoreData
  import M = InMemModel
  import InMem
  import Sync = SyncInstances

  const OPTIONS := QueryServiceOptions(true, false, false)

  function StoreAt(m: M.Mem, k: InstanceKey): Option<Instance> {
    if k.service in m.instances && k.instance in m.instances[k.service]
    then Some(m.instances[k.service][k.instance].value)
    else None
  }

  // The instances of a host, as its agent's copy.
  function Mine(m: M.Mem, host: string): map<InstanceKey, Instance> {
    map s, i | s in m.instances && i in m.instances[s] && m.instances[s][i].value.host == host ::
      InstanceKey(s, i) := m.instances[s][i].value
  }

  function IfHost(inst: Option<Instance>, host: string): Option<Instance> {
    if inst.Some? && inst.value.host == host then inst else None
  }

  lemma MineGet(m: M.Mem, host: string, k: InstanceKey)
    ensures Get(Mine(m, host), k) == IfHost(StoreAt(m, k), host)
  {
    assert k == InstanceKey(k.service, k.instance);
  }

  // An update gives this host's instances, for the given services.
  ghost predicate Ours(u: InstanceUpdate, host: string, services: set<string>) {
    forall k :: k in u.instances && u.instances[k].Some? ==>
      u.instances[k].value.host == host && k.service in services
  }

  // What an entry makes of a key.
  function Entry(entries: map<InstanceKey, Option<Instance>>, k: InstanceKey, before: Option<Instance>)
    : Option<Instance>
  {
    if k in entries then entries[k] else before
  }

  ghost predicate IsForeign(inst: Option<Instance>, host: string) {
    inst.Some? && inst.value.host != host
  }

  ghost predicate OthersKept(before: M.Mem, after: M.Mem, host: string) {
    forall k :: IsForeign(StoreAt(before, k), host) || IsForeign(StoreAt(after, k), host) ==>
      StoreAt(after, k) == StoreAt(before, k)
  }

  // The instance of another host at a key.
  ghost function Theirs(m: M.Mem, host: string, k: InstanceKey): Option<Instance> {
    if IsForeign(StoreAt(m, k), host) then StoreAt(m, k) else None
  }

  // No other host uses the keys of an update.
  ghost predicate NoForeignKeys(m: M.Mem, host: string, u: InstanceUpdate) {
    forall k :: k in u.instances ==> !IsForeign(StoreAt(m, k), host)
  }

  // What processReset makes of a key.
  function AfterReset(entries: map<InstanceKey, Option<Instance>>, k: InstanceKey, host: string,
                      before: Option<Instance>)
    : Option<Instance>
  {
    if before.Some? && before.value.host == host && Entry(entries, k, None).None? then None else before
  }

  // What an update makes of a key.
  function Updated(u: InstanceUpdate, k: InstanceKey, host: string, before: Option<Instance>): Option<Instance> {
    Entry(u.instances, k, if u.reset then AfterReset(u.instances, k, host, before) else before)
  }

  // One key through an update: this host's copy does as a consumer's, and
  // another host's instance stays exactly if the update has no entry there.
  lemma UpdateAtKey(start: M.Mem, end: M.Mem, host: string, u: InstanceUpdate, k: InstanceKey)
    requires k in u.instances && u.instances[k].Some? ==> u.instances[k].value.host == host
    requires StoreAt(end, k) == Updated(u, k, host, StoreAt(start, k))
    ensures Get(Mine(end, host), k) == Get(Folded(Mine(start, host), u), k)
    ensures IsForeign(StoreAt(end, k), host) ==> StoreAt(end, k) == StoreAt(start, k)
    ensures IsForeign(StoreAt(start, k), host) ==> (StoreAt(end, k) == StoreAt(start, k) <==> k !in u.instances)
  {
    MineGet(end, host, k);
    MineGet(start, host, k);
    OverlayGet(if u.reset then map[] else Mine(start, host), u.instances, k);
  }

  class SetInstances {
    const hostIP: string
    const session: string
    const store: InMem.InMem

    constructor (hostIP: string, session: string, store: InMem.InMem)
      ensures this.hostIP == hostIP && this.session == session && this.store == store
    {
      this.hostIP, this.session, this.store := hostIP, session, store;
    }

    // removeInstance; the error of a missing instance is only posted.
    method RemoveInstance(k: InstanceKey)
      requires store.Valid()
      modifies store
      ensures store.Valid() && store.services == old(store.services)
      ensures forall j {:trigger StoreAt(store.State(), j)} ::
                StoreAt(store.State(), j) == if j == k then None else StoreAt(old(store.State()), j)
    {
      var found := store.RemoveInstance(k.service, k.instance);
    }

    method AddInstance(k: InstanceKey, inst: Instance)
      requires store.Valid() && k.service in store.services
      modifies store
      ensures store.Valid() && store.services == old(store.services)
      ensures forall j {:trigger StoreAt(store.State(), j)} ::
                StoreAt(store.State(), j) == if j == k then Some(inst) else StoreAt(old(store.State()), j)
    {
      var panicked := store.AddInstance(session, k.service, k.instance, inst);
    }

    // The instances of all services, by key.
    method ListInstances() returns (listed: map<InstanceKey, Instance>)
      requires store.Valid()
      ensures forall k :: Get(listed, k) == StoreAt(store.State(), k)
    {
      var svcs := store.GetAllServices(OPTIONS);
      listed := map s, i | s in svcs && i in svcs[s].instances :: InstanceKey(s, i) := svcs[s].instances[i];
      forall k ensures Get(listed, k) == StoreAt(store.State(), k) {
        assert k == InstanceKey(k.service, k.instance);
      }
    }

    // One entry of an update.
    method Apply(k: InstanceKey, inst: Option<Instance>)
      requires store.Valid() && (inst.Some? ==> k.service in store.services)
      modifies store
      ensures store.Valid() && store.services == old(store.services)
      ensures forall j {:trigger StoreAt(store.State(), j)} ::
                StoreAt(store.State(), j) == if j == k then inst else StoreAt(old(store.State()), j)
    {
      match inst {
        case None => RemoveInstance(k);
        case Some(inst) => AddInstance(k, inst);
      }
    }

    // One instance found by processReset.
    method Prune(k: InstanceKey, inst: Instance, u: InstanceUpdate)
      requires store.Valid() && StoreAt(store.State(), k) == Some(inst)
      modifies store
      ensures store.Valid() && store.services == old(store.services)
      ensures forall j {:trigger StoreAt(store.State(), j)} :: StoreAt(store.State(), j) ==
                if j == k then AfterReset(u.instances, k, hostIP, Some(inst)) else StoreAt(old(store.State()), j)
    {
      if inst.host == hostIP {
        if k !in u.instances || u.instances[k].None? {
          RemoveInstance(k);
        }
      }
    }

    // processReset: this host's instances that the update does not give go.
    method ProcessReset(u: InstanceUpdate)
      requires store.Valid()
      modifies store
      ensures store.Valid() && store.services == old(store.services)
      ensures forall k {:trigger StoreAt(store.State(), k)} ::
                StoreAt(store.State(), k) == AfterReset(u.instances, k, hostIP, StoreAt(old(store.State()), k))
    {
      ghost var start := store.State();
      var listed := ListInstances();
      var rest := listed.Keys;
      while rest != {}
        invariant store.Valid() && store.services == old(store.services) && rest <= listed.Keys
        invariant forall k {:trigger StoreAt(store.State(), k)} :: StoreAt(store.State(), k) ==
                    if k in rest then StoreAt(start, k) else AfterReset(u.instances, k, hostIP, StoreAt(start, k))
        decreases rest
      {
        var k :| k in rest;
        assert Get(listed, k) == StoreAt(start, k);
        rest := rest - {k};
        Prune(k, listed[k], u);
      }
      forall k ensures StoreAt(store.State(), k) == AfterReset(u.instances, k, hostIP, StoreAt(start, k)) {
        assert k !in rest;
      }
    }

    // The loop of processUpdate.
    method ApplyAll(u: InstanceUpdate)
      requires store.Valid()
      requires forall k :: k in u.instances && u.instances[k].Some? ==> k.service in store.services
      modifies store
      ensures store.Valid() && store.services == old(store.services)
      ensures forall k {:trigger StoreAt(store.State(), k)} ::
                StoreAt(store.State(), k) == Entry(u.instances, k, StoreAt(old(store.State()), k))
    {
      ghost var start := store.State();
      var rest := u.instances.Keys;
      while rest != {}
        invariant store.Valid() && store.services == old(store.services) && rest <= u.instances.Keys
        invariant forall k {:trigger StoreAt(store.State(), k)} :: StoreAt(store.State(), k) ==
                    if k in rest then StoreAt(start, k) else Entry(u.instances, k, StoreAt(start, k))
        decreases rest
      {
        var k :| k in rest;
        rest := rest - {k};
        Apply(k, u.instances[k]);
      }
      forall k ensures StoreAt(store.State(), k) == Entry(u.instances, k, StoreAt(start, k)) {
        assert k !in rest;
      }
    }

    // processUpdate: whatever this host had in the store before, it has what
    // a consumer holds after the update; other hosts' instances stay exactly if
    // the update has no entries for their keys.
    method ProcessUpdate(u: InstanceUpdate)
      requires store.Valid() && Ours(u, hostIP, store.services.Keys)
      modifies store
      ensures store.Valid() && store.services == old(store.services)
      ensures forall k {:trigger StoreAt(store.State(), k)} ::
                StoreAt(store.State(), k) == Updated(u, k, hostIP, StoreAt(old(store.State()), k))
      ensures Mine(store.State(), hostIP) == Folded(Mine(old(store.State()), hostIP), u)
      ensures OthersKept(old(store.State()), store.State(), hostIP) <==> NoForeignKeys(old(store.State()), hostIP, u)
    {
      ghost var start := store.State();
      if u.reset {
        ProcessReset(u);
      }
      ApplyAll(u);
      UpdateEverywhere(start, store.State(), hostIP, u);
    }
  }

  lemma UpdateEverywhere(start: M.Mem, end: M.Mem, host: string, u: InstanceUpdate)
    requires forall k :: k in u.instances && u.instances[k].Some? ==> u.instances[k].value.host == host
    requires forall k {:trigger StoreAt(end, k)} :: StoreAt(end, k) == Updated(u, k, host, StoreAt(start, k))
    ensures Mine(end, host) == Folded(Mine(start, host), u)
    ensures OthersKept(start, end, host) <==> NoForeignKeys(start, host, u)
  {
    forall k
      ensures Get(Mine(end, host), k) == Get(Folded(Mine(start, host), u), k)
      ensures IsForeign(StoreAt(end, k), host) ==> StoreAt(end, k) == StoreAt(start, k)
      ensures IsForeign(StoreAt(start, k), host) ==> (StoreAt(end, k) == StoreAt(start, k) <==> k !in u.instances)
    {
      UpdateAtKey(start, end, host, u, k);
    }
    SameMaps(Mine(end, host), Folded(Mine(start, host), u));
  }

  // The updates that the agent's join produces are for its own host and for
  // services that it knows.
  lemma SentIsOurs(sync: Sync.SyncInstances, copy: map<InstanceKey, Instance>, u: InstanceUpdate)
    requires sync.Inv(Folded(copy, u)) && sync.Known()
    ensures Ours(u, sync.env.hostIP, sync.services.value.Keys)
  {
    forall k | k in u.instances && u.instances[k].Some?
      ensures u.instances[k].value.host == sync.env.hostIP && k.service in sync.services.value
    {
      OverlayGet(if u.reset then map[] else copy, u.instances, k);
      assert Get(Folded(copy, u), k) == Sync.InstanceOf(sync.services.value, k);
      var svc := sync.services.value[k.service];
      assert Sync.JoinedOn(sync.env, k.service, svc, sync.containers.value, sync.containers.value.Keys);
    }
  }

  // One event through the whole agent.  The store's instances of this host
  // follow the join, stale ones included once both sources are known; other
  // hosts' instances are left alone exactly if nothing is sent for their keys.
  method Turn(sync: Sync.SyncInstances, setter: SetInstances, e: Sync.Event) returns (sent: Option<InstanceUpdate>)
    requires setter.hostIP == sync.env.hostIP && setter.store.Valid()
    requires sync.Inv(Mine(setter.store.State(), setter.hostIP)) && Sync.WellKeyedEvent(e)
    requires var v := Sync.NextView(sync.KnownView(), e);
             v.infos.Some? ==> v.infos.value.Keys <= setter.store.services.Keys
    modifies sync, setter.store
    ensures setter.store.Valid() && setter.store.services == old(setter.store.services)
    ensures sync.KnownView() == Sync.NextView(old(sync.KnownView()), e)
    ensures sync.Inv(Mine(setter.store.State(), setter.hostIP))
    ensures Sync.InSync(sync.env, Mine(setter.store.State(), setter.hostIP), sync.KnownView())
    ensures sent.Some? ==>
              (OthersKept(old(setter.store.State()), setter.store.State(), setter.hostIP) <==>
               NoForeignKeys(old(setter.store.State()), setter.hostIP, sent.value))
    ensures sent.None? ==> setter.store.State() == old(setter.store.State())
    ensures sent.Some? ==> sync.Known()
    ensures sent.Some? ==> Sync.EntriesFor(Sync.ConcernedBy(e, sync.KnownView()), map[], sent.value.instances)
    ensures e.ResetRequested? ==> sent == None && sync.services == None && sync.containers == None
  {
    ghost var copy := Mine(setter.store.State(), setter.hostIP);
    sent := sync.Step(e, copy);
    if sent.Some? {
      SentIsOurs(sync, copy, sent.value);
      setter.ProcessUpdate(sent.value);
    }
    ghost var mine := Mine(setter.store.State(), setter.hostIP);
    if sync.Known() {
      Sync.MirrorsTheJoin(sync.env, mine, sync.services.value, sync.containers.value);
    }
  }
}
