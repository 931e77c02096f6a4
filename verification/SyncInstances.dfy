// The agent's join of services and containers (agent/sync_instances.go).
module SyncInstances {
  import opened Prelude
  import opened StoreData

  // What extractInstance depends on beside its arguments.
  datatype Env = Env(hostIP: string, addressOf: (Container, ServiceInfo, ContainerRule) -> Option<IPPort>)

  predicate Includes(rule: ContainerRule, cont: Container) {
    forall l :: l in rule.selector ==> rule.selector[l] == if l in cont.labels then cont.labels[l] else ""
  }

  function ExtractInstance(env: Env, cont: Container, info: ServiceInfo, rule: ContainerRule): Option<Instance> {
    if Includes(rule, cont) then
      Some(Instance(env.hostIP, env.addressOf(cont, info, rule), cont.labels))
    else
      None
  }

  // Some rule of the service selects the container.
  ghost predicate Selected(info: ServiceInfo, cont: Container) {
    exists r :: r in info.containerRules && Includes(info.containerRules[r], cont)
  }

  // inst is what some selecting rule makes of the container.
  ghost predicate ExtractedBy(env: Env, info: ServiceInfo, cont: Container, inst: Instance) {
    exists r :: r in info.containerRules && ExtractInstance(env, cont, info, info.containerRules[r]) == Some(inst)
  }

  datatype ServiceState = ServiceState(info: ServiceInfo, instances: map<string, Instance>)

  datatype ContainerState = ContainerState(container: Container, instances: set<string>)

  type Services = map<string, ServiceState>
  type Containers = map<string, ContainerState>

  // Those of the containers in seen that some rule selects.
  ghost function SelectedIn(info: ServiceInfo, containers: Containers, seen: set<string>): set<string> {
    set c | c in seen && c in containers && Selected(info, containers[c].container)
  }

  // Among the containers in seen, the instances of a service are exactly those
  // that one of its rules selects; they point back to the service.
  ghost predicate JoinedOn(env: Env, s: string, svc: ServiceState, containers: Containers, seen: set<string>) {
    && svc.instances.Keys == SelectedIn(svc.info, containers, seen)
    && (forall c :: c in svc.instances ==>
          ExtractedBy(env, svc.info, containers[c].container, svc.instances[c]) && s in containers[c].instances)
  }

  ghost predicate AllJoined(env: Env, services: Services, containers: Containers) {
    forall s :: s in services ==> JoinedOn(env, s, services[s], containers, containers.Keys)
  }

  // The same containers with possibly more back-links.
  ghost predicate Grown(before: Containers, after: Containers) {
    && before.Keys == after.Keys
    && (forall c :: c in before ==>
      before[c].container == after[c].container && before[c].instances <= after[c].instances)
  }

  function InstanceOf(services: Services, k: InstanceKey): Option<Instance> {
    if k.service in services then Get(services[k.service].instances, k.instance) else None
  }

  // copy holds the instances of all services and nothing else.
  ghost predicate Mirrors(copy: map<InstanceKey, Instance>, services: Services) {
    forall k :: Get(copy, k) == InstanceOf(services, k)
  }

  function Infos(services: Services): map<string, ServiceInfo> {
    map s | s in services :: services[s].info
  }

  function Conts(containers: Containers): map<string, Container> {
    map c | c in containers :: containers[c].container
  }

  // The effect of finding, or not, an instance of service s in container c.
  function LinkServices(services: Services, s: string, c: string, inst: Option<Instance>): Services
    requires s in services
  {
    if inst.None? then services else
    services[s := ServiceState(services[s].info, services[s].instances[c := inst.value])]
  }

  function LinkContainers(containers: Containers, s: string, c: string, inst: Option<Instance>): Containers
    requires c in containers
  {
    if inst.None? then containers else
    containers[c := ContainerState(containers[c].container, containers[c].instances + {s})]
  }

  function LinkEntries(entries: map<InstanceKey, Option<Instance>>, s: string, c: string, inst: Option<Instance>)
    : map<InstanceKey, Option<Instance>>
  {
    if inst.None? then entries else entries[InstanceKey(s, c) := inst]
  }

  // New entries are for instances of certain containers only.
  ghost predicate EntriesFor(ids: set<string>, before: map<InstanceKey, Option<Instance>>,
                             after: map<InstanceKey, Option<Instance>>)
  {
    forall k :: k in after ==> k in before || k.instance in ids
  }

  lemma LinkWithdrawsNothing(entries: map<InstanceKey, Option<Instance>>, s: string, c: string, inst: Option<Instance>)
    ensures AllGiven(entries) ==> AllGiven(LinkEntries(entries, s, c, inst))
  {
  }

  // inst is what rule evaluation finds.
  ghost predicate Found(env: Env, info: ServiceInfo, cont: Container, inst: Option<Instance>) {
    && (inst.Some? <==> Selected(info, cont))
    && (inst.Some? ==> ExtractedBy(env, info, cont, inst.value))
  }

  lemma LinkMirrors(base: map<InstanceKey, Instance>, entries: map<InstanceKey, Option<Instance>>,
                    services: Services, s: string, c: string, inst: Option<Instance>)
    requires s in services && Mirrors(Overlay(base, entries), services)
    ensures Mirrors(Overlay(base, LinkEntries(entries, s, c, inst)), LinkServices(services, s, c, inst))
  {
    var entries', services' := LinkEntries(entries, s, c, inst), LinkServices(services, s, c, inst);
    forall k ensures Get(Overlay(base, entries'), k) == InstanceOf(services', k) {
      OverlayGet(base, entries, k);
      OverlayGet(base, entries', k);
      assert Get(Overlay(base, entries), k) == InstanceOf(services, k);
    }
  }

  lemma LinkJoins(env: Env, services: Services, containers: Containers, s: string, c: string,
                  inst: Option<Instance>, seen: set<string>)
    requires s in services && c in containers && c !in seen
    requires JoinedOn(env, s, services[s], containers, seen)
    requires Found(env, services[s].info, containers[c].container, inst)
    ensures var services', containers' := LinkServices(services, s, c, inst), LinkContainers(containers, s, c, inst);
            JoinedOn(env, s, services'[s], containers', seen + {c}) && Grown(containers, containers')
  {
  }

  // Only the last of several instances found counts.
  lemma LinkTwice(services: Services, containers: Containers, entries: map<InstanceKey, Option<Instance>>,
                  s: string, c: string, was: Option<Instance>, inst: Instance)
    requires s in services && c in containers
    ensures LinkServices(LinkServices(services, s, c, was), s, c, Some(inst)) ==
              LinkServices(services, s, c, Some(inst))
    ensures LinkContainers(LinkContainers(containers, s, c, was), s, c, Some(inst)) ==
              LinkContainers(containers, s, c, Some(inst))
    ensures LinkEntries(LinkEntries(entries, s, c, was), s, c, Some(inst)) == LinkEntries(entries, s, c, Some(inst))
  {
    if was.Some? {
      assert services[s].instances[c := was.value][c := inst] == services[s].instances[c := inst];
    }
  }

  lemma LinkInfos(services: Services, s: string, c: string, inst: Option<Instance>)
    requires s in services
    ensures Infos(LinkServices(services, s, c, inst)) == Infos(services)
  {
  }

  lemma GrownKeepsJoined(env: Env, s: string, svc: ServiceState, before: Containers, after: Containers,
                         seen: set<string>)
    requires JoinedOn(env, s, svc, before, seen) && Grown(before, after)
    ensures JoinedOn(env, s, svc, after, seen)
  {
  }

  // All services are joined with seen, and those not in rest also with id.
  ghost predicate JoinedBut(env: Env, services: Services, containers: Containers, seen: set<string>, id: string,
                            rest: set<string>) {
    forall s :: s in services ==>
      JoinedOn(env, s, services[s], containers, if s in rest then seen else seen + {id})
  }

  lemma JoinStep(env: Env, services: Services, containers: Containers, seen: set<string>, id: string, rest: set<string>,
                 s: string, inst: Option<Instance>)
    requires s in rest && s in services && id in containers && id !in seen
    requires JoinedBut(env, services, containers, seen, id, rest)
    requires Found(env, services[s].info, containers[id].container, inst)
    ensures JoinedBut(env, LinkServices(services, s, id, inst), LinkContainers(containers, s, id, inst), seen, id,
              rest - {s})
    ensures Grown(containers, LinkContainers(containers, s, id, inst))
  {
    var services', containers' := LinkServices(services, s, id, inst), LinkContainers(containers, s, id, inst);
    LinkJoins(env, services, containers, s, id, inst, seen);
    forall t | t in services' && t != s
      ensures JoinedOn(env, t, services'[t], containers', if t in rest - {s} then seen else seen + {id})
    {
      GrownKeepsJoined(env, t, services[t], containers, containers', if t in rest then seen else seen + {id});
    }
  }

  lemma JoinStart(env: Env, services: Services, containers: Containers, cont: Container)
    requires AllJoined(env, services, containers) && cont.id !in containers
    ensures var containers' := containers[cont.id := ContainerState(cont, {})];
            JoinedBut(env, services, containers', containers.Keys, cont.id, services.Keys)
  {
    var containers' := containers[cont.id := ContainerState(cont, {})];
    forall s | s in services ensures JoinedOn(env, s, services[s], containers', containers.Keys) {
      assert JoinedOn(env, s, services[s], containers, containers.Keys);
      assert SelectedIn(services[s].info, containers', containers.Keys) ==
        SelectedIn(services[s].info, containers, containers.Keys);
    }
  }

  lemma GrownTwice(a: Containers, b: Containers, c: Containers)
    requires Grown(a, b) && Grown(b, c)
    ensures Grown(a, c)
  {
  }

  lemma GrownConts(before: Containers, after: Containers)
    requires Grown(before, after)
    ensures Conts(before) == Conts(after)
  {
  }

  // All services but s are joined.
  ghost predicate OthersJoined(env: Env, services: Services, containers: Containers, s: string) {
    forall t :: t in services && t != s ==> JoinedOn(env, t, services[t], containers, containers.Keys)
  }

  // One service is being joined with container after container.
  lemma EvaluateStep(env: Env, services: Services, containers: Containers, s: string, seen: set<string>,
                     c: string, inst: Option<Instance>)
    requires s in services && c in containers && c !in seen
    requires OthersJoined(env, services, containers, s) && JoinedOn(env, s, services[s], containers, seen)
    requires Found(env, services[s].info, containers[c].container, inst)
    ensures var services', containers' := LinkServices(services, s, c, inst), LinkContainers(containers, s, c, inst);
            && OthersJoined(env, services', containers', s)
            && JoinedOn(env, s, services'[s], containers', seen + {c})
            && Grown(containers, containers')
  {
    var services', containers' := LinkServices(services, s, c, inst), LinkContainers(containers, s, c, inst);
    LinkJoins(env, services, containers, s, c, inst, seen);
    forall t | t in services' && t != s ensures JoinedOn(env, t, services'[t], containers', containers'.Keys) {
      GrownKeepsJoined(env, t, services[t], containers, containers', containers.Keys);
    }
  }

  // Services as a consumer sees them while service s is replaced: what is left
  // of the old instances shows through.
  function Shadowed(services: Services, s: string, left: map<string, Instance>): Services
    requires s in services
  {
    services[s := ServiceState(services[s].info, left + services[s].instances)]
  }

  lemma ShadowedLink(services: Services, s: string, left: map<string, Instance>, c: string, inst: Option<Instance>)
    requires s in services
    ensures Shadowed(LinkServices(services, s, c, inst), s, left) ==
              LinkServices(Shadowed(services, s, left), s, c, inst)
  {
    if inst.Some? {
      assert left + services[s].instances[c := inst.value] == (left + services[s].instances)[c := inst.value];
    }
  }

  lemma ShadowedDrop(services: Services, s: string, left: map<string, Instance>, c: string)
    requires s in services
    ensures c !in services[s].instances ==>
              Shadowed(services, s, left - {c}) == UnlinkServices(Shadowed(services, s, left), s, c)
    ensures c in services[s].instances ==> Shadowed(services, s, left - {c}) == Shadowed(services, s, left)
  {
    if c in services[s].instances {
      assert left - {c} + services[s].instances == left + services[s].instances;
    } else {
      assert left - {c} + services[s].instances == (left + services[s].instances) - {c};
    }
  }

  lemma MirrorsSameInstances(copy: map<InstanceKey, Instance>, services: Services, services': Services)
    requires Mirrors(copy, services)
    requires forall k :: InstanceOf(services, k) == InstanceOf(services', k)
    ensures Mirrors(copy, services')
  {
    forall k ensures Get(copy, k) == InstanceOf(services', k) {
      assert Get(copy, k) == InstanceOf(services, k);
    }
  }

  // The effect of withdrawing service s's instance for container c, if any.
  function UnlinkServices(services: Services, s: string, c: string): Services {
    if s !in services then services else
    services[s := ServiceState(services[s].info, services[s].instances - {c})]
  }

  lemma UnlinkMirrors(base: map<InstanceKey, Instance>, entries: map<InstanceKey, Option<Instance>>,
                      services: Services, s: string, c: string)
    requires Mirrors(Overlay(base, entries), services)
    ensures Mirrors(Overlay(base, entries[InstanceKey(s, c) := None]), UnlinkServices(services, s, c))
  {
    var entries', services' := entries[InstanceKey(s, c) := None], UnlinkServices(services, s, c);
    forall k ensures Get(Overlay(base, entries'), k) == InstanceOf(services', k) {
      OverlayGet(base, entries, k);
      OverlayGet(base, entries', k);
      assert Get(Overlay(base, entries), k) == InstanceOf(services, k);
    }
  }

  lemma UnlinkInfos(services: Services, s: string, c: string)
    ensures Infos(UnlinkServices(services, s, c)) == Infos(services)
  {
  }

  // Services in rest are still joined with container id; the others are
  // joined with all containers but id.
  ghost predicate LeftBut(env: Env, services: Services, containers: Containers, id: string, rest: set<string>) {
    forall s :: s in services ==>
      if s in rest then JoinedOn(env, s, services[s], containers, containers.Keys)
      else JoinedOn(env, s, services[s], containers - {id}, containers.Keys - {id})
  }

  lemma LeaveUnlinked(env: Env, s: string, svc: ServiceState, containers: Containers, id: string)
    requires JoinedOn(env, s, svc, containers, containers.Keys)
    ensures JoinedOn(env, s, ServiceState(svc.info, svc.instances - {id}), containers - {id}, containers.Keys - {id})
  {
    SelectedWithout(svc.info, containers, id);
  }

  lemma SelectedWithout(info: ServiceInfo, containers: Containers, id: string)
    ensures SelectedIn(info, containers - {id}, containers.Keys - {id}) ==
            SelectedIn(info, containers, containers.Keys) - {id}
  {
  }

  lemma LeaveStart(env: Env, services: Services, containers: Containers, id: string)
    requires AllJoined(env, services, containers) && id in containers
    ensures LeftBut(env, services, containers, id, containers[id].instances)
  {
    forall s | s in services && s !in containers[id].instances
      ensures JoinedOn(env, s, services[s], containers - {id}, containers.Keys - {id})
    {
      LeaveOther(env, services, containers, id, s);
    }
  }

  lemma LeaveOther(env: Env, services: Services, containers: Containers, id: string, s: string)
    requires AllJoined(env, services, containers) && id in containers
    requires s in services && s !in containers[id].instances
    ensures JoinedOn(env, s, services[s], containers - {id}, containers.Keys - {id})
  {
    var svc := services[s];
    assert JoinedOn(env, s, svc, containers, containers.Keys);
    assert id !in svc.instances;
    assert ServiceState(svc.info, svc.instances - {id}) == svc;
    LeaveUnlinked(env, s, svc, containers, id);
  }

  lemma LeaveStep(env: Env, services: Services, containers: Containers, id: string, rest: set<string>, s: string)
    requires LeftBut(env, services, containers, id, rest) && s in rest
    ensures LeftBut(env, UnlinkServices(services, s, id), containers, id, rest - {s})
  {
    if s in services {
      LeaveUnlinked(env, s, services[s], containers, id);
    }
  }

  // The same containers, possibly without back-links to s.
  ghost predicate Unpointed(before: Containers, after: Containers, s: string) {
    && before.Keys == after.Keys
    && (forall c :: c in before ==>
          before[c].container == after[c].container && before[c].instances - {s} <= after[c].instances)
  }

  function Unpoint(containers: Containers, c: string, s: string): Containers {
    if c !in containers then containers else
    containers[c := ContainerState(containers[c].container, containers[c].instances - {s})]
  }

  lemma UnpointStep(before: Containers, containers: Containers, c: string, s: string)
    requires Unpointed(before, containers, s)
    ensures Unpointed(before, Unpoint(containers, c, s), s)
  {
  }

  lemma UnpointedConts(before: Containers, after: Containers, s: string)
    requires Unpointed(before, after, s)
    ensures Conts(before) == Conts(after)
  {
  }

  // Taking service s out leaves the other services joined, also after its
  // back-links are gone.
  lemma ForgetService(env: Env, services: Services, before: Containers, after: Containers, s: string)
    requires AllJoined(env, services, before) && Unpointed(before, after, s)
    ensures AllJoined(env, services - {s}, after)
  {
    forall t | t in services - {s} ensures JoinedOn(env, t, services[t], after, after.Keys) {
      assert JoinedOn(env, t, services[t], before, before.Keys);
      assert SelectedIn(services[t].info, after, after.Keys) == SelectedIn(services[t].info, before, before.Keys);
    }
  }

  lemma OthersStayJoined(env: Env, services: Services, containers: Containers, s: string, svc: ServiceState)
    requires AllJoined(env, services, containers)
    ensures OthersJoined(env, services[s := svc], containers, s)
  {
  }

  // Replacing service s, before anything is withdrawn.
  lemma ReplaceStart(env: Env, copy: map<InstanceKey, Instance>, services: Services, s: string, info: ServiceInfo)
    requires Mirrors(copy, services)
    ensures var olds := if s in services then services[s].instances else map[];
            Mirrors(copy, Shadowed(services[s := ServiceState(info, map[])], s, olds))
    ensures Infos(services[s := ServiceState(info, map[])]) == Infos(services)[s := info]
  {
    var olds := if s in services then services[s].instances else map[];
    assert olds + map[] == olds;
    MirrorsSameInstances(copy, services, Shadowed(services[s := ServiceState(info, map[])], s, olds));
  }

  // A service without instances may as well be absent.
  lemma ForgetEmpty(copy: map<InstanceKey, Instance>, services: Services, s: string)
    requires Mirrors(copy, services) && (s in services ==> services[s].instances == map[])
    ensures Mirrors(copy, services - {s})
  {
    MirrorsSameInstances(copy, services, services - {s});
  }

  // The containers known after an update to those known before: an
  // announcement of a known container changes nothing.
  function ContsAfter(known: map<string, Container>, updates: map<string, Option<Container>>): map<string, Container> {
    map c | c in known.Keys + updates.Keys && (c in updates ==> updates[c].Some?) ::
      if c in known then known[c] else updates[c].value
  }

  function InfosAfter(known: map<string, ServiceInfo>, updates: map<string, Option<ServiceInfo>>)
    : map<string, ServiceInfo>
  {
    map s | s in known.Keys + updates.Keys && (s in updates ==> updates[s].Some?) ::
      if s in updates then updates[s].value else known[s]
  }

  // The containers known after a container update, if any are.
  function NextConts(known: Option<map<string, Container>>, u: ContainerUpdate): Option<map<string, Container>> {
    if u.reset then Some(ContsAfter(map[], u.containers))
    else if known.Some? then Some(ContsAfter(known.value, u.containers))
    else None
  }

  function NextInfos(known: Option<map<string, ServiceInfo>>, u: ServiceUpdate): Option<map<string, ServiceInfo>> {
    if u.reset then Some(InfosAfter(map[], u.services))
    else if known.Some? then Some(InfosAfter(known.value, u.services))
    else None
  }

  // Containers are announced under their own id.
  ghost predicate WellKeyed(updates: map<string, Option<Container>>) {
    forall c :: c in updates && updates[c].Some? ==> updates[c].value.id == c
  }

  lemma ContsStep(known: map<string, Container>, updates: map<string, Option<Container>>, rest: set<string>, c: string)
    requires c in rest && c in updates
    ensures ContsAfter(known, updates - (rest - {c})) ==
            match updates[c]
            case Some(cont) => map[c := cont] + ContsAfter(known, updates - rest)
            case None => ContsAfter(known, updates - rest) - {c}
  {
  }

  lemma InfosStep(known: map<string, ServiceInfo>, updates: map<string, Option<ServiceInfo>>, rest: set<string>,
                  s: string)
    requires s in rest && s in updates
    ensures InfosAfter(known, updates - (rest - {s})) ==
            match updates[s]
            case Some(info) => InfosAfter(known, updates - rest)[s := info]
            case None => InfosAfter(known, updates - rest) - {s}
  {
  }

  // What the select loop receives.
  datatype Event =
    | ContainersChanged(conts: ContainerUpdate)
    | ServicesChanged(svcs: ServiceUpdate)
    | ResetRequested

  // The services and containers that the sources have told of; unknown until
  // their first reset after a reset request.
  datatype View = View(infos: Option<map<string, ServiceInfo>>, conts: Option<map<string, Container>>)

  function NextView(v: View, e: Event): View {
    match e
    case ContainersChanged(u) => v.(conts := NextConts(v.conts, u))
    case ServicesChanged(u) => v.(infos := NextInfos(v.infos, u))
    case ResetRequested => View(None, None)
  }

  function ViewAfter(events: seq<Event>): View {
    if events == [] then View(None, None)
    else NextView(ViewAfter(events[..|events| - 1]), events[|events| - 1])
  }

  ghost predicate WellKeyedEvent(e: Event) {
    e.ContainersChanged? ==> WellKeyed(e.conts.containers)
  }

  // What each event leads to be sent, if anything.
  type Sent = seq<Option<InstanceUpdate>>

  // A consumer's copy after some of the events led to updates.
  function FoldAll(sent: Sent): map<InstanceKey, Instance> {
    if sent == [] then map[]
    else
      var copy, last := FoldAll(sent[..|sent| - 1]), sent[|sent| - 1];
      if last.Some? then Folded(copy, last.value) else copy
  }

  // copy has an instance at k exactly when some rule of the service selects
  // the container, and then it is what such a rule extracts.
  ghost predicate JoinedAt(env: Env, copy: map<InstanceKey, Instance>, infos: map<string, ServiceInfo>,
                           conts: map<string, Container>, k: InstanceKey) {
    if k.service in infos && k.instance in conts && Selected(infos[k.service], conts[k.instance])
    then k in copy && ExtractedBy(env, infos[k.service], conts[k.instance], copy[k])
    else k !in copy
  }

  // copy is services x containers, by rule.
  ghost predicate IsJoin(env: Env, copy: map<InstanceKey, Instance>, infos: map<string, ServiceInfo>,
                         conts: map<string, Container>) {
    forall k: InstanceKey :: JoinedAt(env, copy, infos, conts, k)
  }

  ghost predicate InSync(env: Env, copy: map<InstanceKey, Instance>, v: View) {
    v.infos.Some? && v.conts.Some? ==> IsJoin(env, copy, v.infos.value, v.conts.value)
  }

  // What has been sent is in step with what the agent was told, at every point.
  ghost predicate InSyncThroughout(env: Env, sent: Sent, events: seq<Event>) {
    |sent| == |events| && forall n :: 0 <= n <= |sent| ==> InSyncAt(env, sent, events, n)
  }

  ghost predicate InSyncAt(env: Env, sent: Sent, events: seq<Event>, n: nat)
    requires n <= |sent| && n <= |events|
  {
    InSync(env, FoldAll(sent[..n]), ViewAfter(events[..n]))
  }

  lemma InSyncMore(env: Env, sent: Sent, one: Option<InstanceUpdate>, events: seq<Event>, e: Event)
    requires InSyncThroughout(env, sent, events)
    requires InSync(env, FoldAll(sent + [one]), NextView(ViewAfter(events), e))
    ensures ViewAfter(events + [e]) == NextView(ViewAfter(events), e)
    ensures InSyncThroughout(env, sent + [one], events + [e])
  {
    var sent', events' := sent + [one], events + [e];
    assert events'[..|events|] == events && events'[..|events'|] == events' && sent'[..|sent'|] == sent';
    forall n | 0 <= n <= |sent'| ensures InSyncAt(env, sent', events', n) {
      if n <= |sent| {
        assert sent'[..n] == sent[..n] && events'[..n] == events[..n];
        assert InSyncAt(env, sent, events, n);
      }
    }
  }

  lemma MirrorsTheJoin(env: Env, copy: map<InstanceKey, Instance>, services: Services, containers: Containers)
    requires AllJoined(env, services, containers) && Mirrors(copy, services)
    ensures IsJoin(env, copy, Infos(services), Conts(containers))
  {
    var infos, conts := Infos(services), Conts(containers);
    forall k: InstanceKey ensures JoinedAt(env, copy, infos, conts, k) {
      assert Get(copy, k) == InstanceOf(services, k);
      if k.service in services {
        assert JoinedOn(env, k.service, services[k.service], containers, containers.Keys);
        assert k.instance in services[k.service].instances <==>
          k.instance in SelectedIn(infos[k.service], containers, containers.Keys);
      }
    }
  }

  // The containers that an event which leads to a view can have entries for.
  ghost function ConcernedBy(e: Event, v: View): set<string> {
    match e
    case ContainersChanged(u) => u.containers.Keys
    case ServicesChanged(_) => if v.conts.Some? then v.conts.value.Keys else {}
    case ResetRequested => {}
  }

  // Joined services have instances of known containers only.
  lemma JoinedIsKnown(env: Env, services: Services, containers: Containers, s: string)
    requires AllJoined(env, services, containers) && s in services
    ensures services[s].instances.Keys <= containers.Keys
  {
    assert JoinedOn(env, s, services[s], containers, containers.Keys);
  }

  // What the join amounts to, in terms of labels: there is an instance exactly
  // if some rule of the service asks for no label but what the container has,
  // or asks for an empty label that it has not; it is on this host, with the
  // container's labels and an address taken as such a rule says.
  lemma JoinInLabels(env: Env, copy: map<InstanceKey, Instance>, infos: map<string, ServiceInfo>,
                     conts: map<string, Container>, k: InstanceKey)
    requires IsJoin(env, copy, infos, conts)
    ensures k in copy <==>
              && k.service in infos && k.instance in conts
              && exists r :: r in infos[k.service].containerRules &&
                   forall l :: l in infos[k.service].containerRules[r].selector ==>
                     if l in conts[k.instance].labels
                     then conts[k.instance].labels[l] == infos[k.service].containerRules[r].selector[l]
                     else infos[k.service].containerRules[r].selector[l] == ""
    ensures k in copy ==>
              && copy[k].host == env.hostIP && copy[k].labels == conts[k.instance].labels
              && exists r :: r in infos[k.service].containerRules &&
                   Includes(infos[k.service].containerRules[r], conts[k.instance]) &&
                   copy[k].address ==
                     env.addressOf(conts[k.instance], infos[k.service], infos[k.service].containerRules[r])
  {
    assert JoinedAt(env, copy, infos, conts, k);
    if k.service in infos && k.instance in conts {
      var rules := infos[k.service].containerRules;
      forall r | r in rules
        ensures Includes(rules[r], conts[k.instance]) <==>
                forall l :: l in rules[r].selector ==>
                  if l in conts[k.instance].labels then conts[k.instance].labels[l] == rules[r].selector[l]
                  else rules[r].selector[l] == ""
      {
      }
    }
  }

  // --- what is known after a run ---

  // No reset has been requested after event b, which is one of the sources'.
  ghost predicate ServicesResetAt(events: seq<Event>, b: nat) {
    && b < |events| && events[b].ServicesChanged? && events[b].svcs.reset
    && (forall i :: b < i < |events| ==> !events[i].ResetRequested?)
  }

  ghost predicate ContainersResetAt(events: seq<Event>, b: nat) {
    && b < |events| && events[b].ContainersChanged? && events[b].conts.reset
    && (forall i :: b < i < |events| ==> !events[i].ResetRequested?)
  }

  // A source is known from its reset to the next request for resets.
  lemma {:induction false} InfosKnownIff(events: seq<Event>)
    ensures ViewAfter(events).infos.Some? <==> exists b :: ServicesResetAt(events, b)
  {
    if events != [] {
      var before, last := events[..|events| - 1], events[|events| - 1];
      InfosKnownIff(before);
      forall b: nat ensures ServicesResetAt(events, b) <==>
          (if b == |before| then last.ServicesChanged? && last.svcs.reset
           else ServicesResetAt(before, b) && !last.ResetRequested?) {
        if b < |before| && ServicesResetAt(before, b) && !last.ResetRequested? {
          assert forall i :: b < i < |events| ==> events[i] == if i < |before| then before[i] else last;
        }
      }
      if last.ServicesChanged? && last.svcs.reset {
        assert ServicesResetAt(events, |before|);
      } else if ViewAfter(before).infos.Some? && !last.ResetRequested? {
        var b :| ServicesResetAt(before, b);
        assert ServicesResetAt(events, b);
      }
    }
  }

  lemma {:induction false} ContsKnownIff(events: seq<Event>)
    ensures ViewAfter(events).conts.Some? <==> exists b :: ContainersResetAt(events, b)
  {
    if events != [] {
      var before, last := events[..|events| - 1], events[|events| - 1];
      ContsKnownIff(before);
      forall b: nat ensures ContainersResetAt(events, b) <==>
          (if b == |before| then last.ContainersChanged? && last.conts.reset
           else ContainersResetAt(before, b) && !last.ResetRequested?) {
        if b < |before| && ContainersResetAt(before, b) && !last.ResetRequested? {
          assert forall i :: b < i < |events| ==> events[i] == if i < |before| then before[i] else last;
        }
      }
      if last.ContainersChanged? && last.conts.reset {
        assert ContainersResetAt(events, |before|);
      } else if ViewAfter(before).conts.Some? && !last.ResetRequested? {
        var b :| ContainersResetAt(before, b);
        assert ContainersResetAt(events, b);
      }
    }
  }

  // What is known of a service is what was last said of it, where a reset says
  // of services that it does not give that there are none.
  lemma {:induction false} InfoIsLast(events: seq<Event>, j: nat, s: string)
    requires j < |events| && events[j].ServicesChanged? && (events[j].svcs.reset || s in events[j].svcs.services)
    requires forall i :: j < i < |events| ==> !events[i].ResetRequested?
    requires forall i :: j < i < |events| && events[i].ServicesChanged? ==>
               !events[i].svcs.reset && s !in events[i].svcs.services
    requires ViewAfter(events).infos.Some?
    ensures Get(ViewAfter(events).infos.value, s) ==
            if s in events[j].svcs.services then events[j].svcs.services[s] else None
  {
    if j < |events| - 1 {
      assert !events[|events| - 1].ResetRequested?;
      InfoIsLast(events[..|events| - 1], j, s);
    }
  }

  // A container is known as it was first given, until it is withdrawn.
  lemma {:induction false} ContIsFirst(events: seq<Event>, j: nat, id: string)
    requires j < |events| && events[j].ContainersChanged? && WellKeyed(events[j].conts.containers)
    requires id in events[j].conts.containers && events[j].conts.containers[id].Some?
    requires events[j].conts.reset || ViewAfter(events[..j]).conts.None? ||
             id !in ViewAfter(events[..j]).conts.value
    requires forall i :: j < i < |events| ==> !events[i].ResetRequested?
    requires forall i :: j < i < |events| && events[i].ContainersChanged? ==>
               !events[i].conts.reset && (id in events[i].conts.containers ==> events[i].conts.containers[id].Some?)
    requires ViewAfter(events).conts.Some?
    ensures Get(ViewAfter(events).conts.value, id) == events[j].conts.containers[id]
  {
    if j < |events| - 1 {
      assert !events[|events| - 1].ResetRequested?;
      assert events[..|events| - 1][..j] == events[..j];
      ContIsFirst(events[..|events| - 1], j, id);
    }
  }

  lemma {:induction false} ContIsGone(events: seq<Event>, j: nat, id: string)
    requires j < |events| && events[j].ContainersChanged?
    requires if id in events[j].conts.containers then events[j].conts.containers[id].None? else events[j].conts.reset
    requires forall i :: j < i < |events| ==> !events[i].ResetRequested?
    requires forall i :: j < i < |events| && events[i].ContainersChanged? && id in events[i].conts.containers ==>
               events[i].conts.containers[id].None?
    requires ViewAfter(events).conts.Some?
    ensures id !in ViewAfter(events).conts.value
  {
    if j < |events| - 1 {
      assert !events[|events| - 1].ResetRequested?;
      if ViewAfter(events[..|events| - 1]).conts.Some? {
        ContIsGone(events[..|events| - 1], j, id);
      }
    }
  }

  // A service update, service by service.
  lemma InfosSay(before: Option<map<string, ServiceInfo>>, u: ServiceUpdate, after: Option<map<string, ServiceInfo>>)
    requires after == NextInfos(before, u)
    ensures after.Some? <==> u.reset || before.Some?
    ensures after.Some? ==>
              forall s :: Get(after.value, s) ==
                if s in u.services then u.services[s] else if u.reset then None else Get(before.value, s)
  {
  }

  lemma NothingFolded(copy: map<InstanceKey, Instance>)
    ensures Folded(copy, InstanceUpdate(map[], false)) == copy
  {
  }

  // Both sources have reset, and no reset has been requested since.
  ghost predicate BothReset(events: seq<Event>) {
    && (exists a :: ContainersResetAt(events, a))
    && (exists b :: ServicesResetAt(events, b))
  }

  lemma KnownIsBothReset(events: seq<Event>)
    ensures ViewAfter(events).infos.Some? && ViewAfter(events).conts.Some? <==> BothReset(events)
  {
    InfosKnownIff(events);
    ContsKnownIff(events);
  }

  // The first thing sent from i on is sent at j.
  ghost predicate FirstSent(sent: Sent, i: nat, j: nat) {
    j < |sent| && sent[j].Some? && forall m :: i <= m < j ==> sent[m].None?
  }

  // What is sent first after the start, or after a request, is a reset.
  ghost predicate ResetsFirst(events: seq<Event>, sent: Sent) {
    && |sent| == |events|
    && (forall i, j ::
          0 <= i < j < |events| && events[i].ResetRequested? && FirstSent(sent, i + 1, j) ==> sent[j].value.reset)
    && (forall j :: 0 <= j < |events| && FirstSent(sent, 0, j) ==> sent[j].value.reset)
  }

  // Something has been sent since the start, and since every request.
  ghost predicate SentSince(events: seq<Event>, sent: Sent) {
    && |sent| == |events| && (exists m :: 0 <= m < |sent| && sent[m].Some?)
    && (forall i :: 0 <= i < |events| && events[i].ResetRequested? ==> exists m :: i < m < |sent| && sent[m].Some?)
  }

  lemma ResetsMore(events: seq<Event>, sent: Sent, e: Event, one: Option<InstanceUpdate>)
    requires ResetsFirst(events, sent)
    requires one.Some? ==> one.value.reset || SentSince(events, sent)
    requires e.ResetRequested? ==> one.None?
    ensures ResetsFirst(events + [e], sent + [one])
    ensures one.Some? || (SentSince(events, sent) && !e.ResetRequested?) ==> SentSince(events + [e], sent + [one])
  {
    var events', sent' := events + [e], sent + [one];
    assert forall m :: 0 <= m < |sent| ==> sent'[m] == sent[m];
    forall i, j | 0 <= i < j < |events'| && events'[i].ResetRequested? && FirstSent(sent', i + 1, j)
      ensures sent'[j].value.reset
    {
      if j < |sent| {
        assert FirstSent(sent, i + 1, j);
      } else {
        NoneSince(events, sent, i + 1);
      }
    }
    forall j | 0 <= j < |events'| && FirstSent(sent', 0, j) ensures sent'[j].value.reset {
      if j < |sent| {
        assert FirstSent(sent, 0, j);
      } else {
        NoneSince(events, sent, 0);
      }
    }
    SentMore(events, sent, e, one);
  }

  lemma NoneSince(events: seq<Event>, sent: Sent, i: nat)
    requires i <= |sent| == |events| && (i == 0 || events[i - 1].ResetRequested?)
    requires forall m :: i <= m < |sent| ==> sent[m].None?
    ensures !SentSince(events, sent)
  {
  }

  lemma SentMore(events: seq<Event>, sent: Sent, e: Event, one: Option<InstanceUpdate>)
    requires |sent| == |events| && (e.ResetRequested? ==> one.None?)
    ensures one.Some? || (SentSince(events, sent) && !e.ResetRequested?) ==> SentSince(events + [e], sent + [one])
  {
    var events', sent' := events + [e], sent + [one];
    if one.Some? {
      assert sent'[|sent|].Some?;
    } else if SentSince(events, sent) && !e.ResetRequested? {
      var m :| 0 <= m < |sent| && sent[m].Some?;
      assert sent'[m].Some?;
      forall i | 0 <= i < |events'| && events'[i].ResetRequested?
        ensures exists m :: i < m < |sent'| && sent'[m].Some?
      {
        var m :| i < m < |sent| && sent[m].Some?;
        assert sent'[m].Some?;
      }
    }
  }

  class SyncInstances {
    const env: Env
    var services: Option<Services>
    var containers: Option<Containers>
    var update: InstanceUpdate

    constructor (env: Env)
      ensures this.env == env && services == None && containers == None
      ensures update == InstanceUpdate(map[], false)
    {
      this.env := env;
      services, containers, update := None, None, InstanceUpdate(map[], false);
    }

    ghost predicate Known()
      reads this
    {
      services.Some? && containers.Some?
    }

    method Link(s: string, c: string, inst: Instance)
      requires Known() && s in services.value && c in containers.value
      modifies this
      ensures services == Some(LinkServices(old(services.value), s, c, Some(inst)))
      ensures containers == Some(LinkContainers(old(containers.value), s, c, Some(inst)))
      ensures update == InstanceUpdate(LinkEntries(old(update.instances), s, c, Some(inst)), old(update.reset))
    {
      var svc, entry := services.value[s], containers.value[c];
      services := Some(services.value[s := svc.(instances := svc.instances[c := inst])]);
      containers := Some(containers.value[c := entry.(instances := entry.instances + {s})]);
      update := update.(instances := update.instances[InstanceKey(s, c) := Some(inst)]);
    }

    // addInstances
    method AddInstances(s: string, c: string) returns (ghost inst: Option<Instance>)
      requires Known() && s in services.value && c in containers.value
      modifies this
      ensures Found(env, old(services.value[s].info), old(containers.value[c].container), inst)
      ensures services == Some(LinkServices(old(services.value), s, c, inst))
      ensures containers == Some(LinkContainers(old(containers.value), s, c, inst))
      ensures update == InstanceUpdate(LinkEntries(old(update.instances), s, c, inst), old(update.reset))
    {
      var info, cont := services.value[s].info, containers.value[c].container;
      ghost var sv, cs, us := services.value, containers.value, update.instances;
      var rest := info.containerRules.Keys;
      inst := None;
      while rest != {}
        invariant rest <= info.containerRules.Keys
        invariant inst.None? ==> forall r :: r in info.containerRules && r !in rest ==>
                  !Includes(info.containerRules[r], cont)
        invariant inst.Some? ==> ExtractedBy(env, info, cont, inst.value)
        invariant services == Some(LinkServices(sv, s, c, inst))
        invariant containers == Some(LinkContainers(cs, s, c, inst))
        invariant update == InstanceUpdate(LinkEntries(us, s, c, inst), old(update.reset))
        decreases rest
      {
        var r :| r in rest;
        rest := rest - {r};
        var extracted := ExtractInstance(env, cont, info, info.containerRules[r]);
        if extracted.Some? {
          LinkTwice(sv, cs, us, s, c, inst, extracted.value);
          inst := extracted;
          Link(s, c, extracted.value);
        }
      }
    }

    // The consumer that holds base, and then the pending update, mirrors the
    // services.
    ghost predicate Mirrored(base: map<InstanceKey, Instance>)
      reads this
    {
      services.Some? ==> Mirrors(Overlay(base, update.instances), services.value)
    }

    ghost predicate Keyed()
      reads this
    {
      containers.Some? ==> forall c :: c in containers.value ==> containers.value[c].container.id == c
    }

    ghost predicate Consistent()
      reads this
    {
      && Keyed()
      && (Known() ==> AllJoined(env, services.value, containers.value))
      && (services.Some? && containers.None? ==> forall s :: s in services.value ==>
        services.value[s].instances == map[])
    }

    // addContainer on a container that is not known yet.
    method JoinContainer(cont: Container, ghost base: map<InstanceKey, Instance>)
      requires Consistent() && Mirrored(base) && Known() && cont.id !in containers.value
      modifies this
      ensures Consistent() && Mirrored(base) && Known() && update.reset == old(update.reset)
      ensures Infos(services.value) == old(Infos(services.value))
      ensures Conts(containers.value) == old(Conts(containers.value))[cont.id := cont]
      ensures old(AllGiven(update.instances)) ==> AllGiven(update.instances)
      ensures EntriesFor({cont.id}, old(update.instances), update.instances)
    {
      var id := cont.id;
      ghost var seen := containers.value.Keys;
      JoinStart(env, services.value, containers.value, cont);
      containers := Some(containers.value[id := ContainerState(cont, {})]);
      ghost var cs := containers.value;
      assert Conts(cs) == old(Conts(containers.value))[id := cont];
      var rest := services.value.Keys;
      while rest != {}
        invariant Known() && rest <= services.value.Keys && id in containers.value
        invariant Grown(cs, containers.value)
        invariant JoinedBut(env, services.value, containers.value, seen, id, rest)
        invariant Infos(services.value) == old(Infos(services.value)) && update.reset == old(update.reset)
        invariant Mirrors(Overlay(base, update.instances), services.value)
        invariant old(AllGiven(update.instances)) ==> AllGiven(update.instances)
        invariant EntriesFor({id}, old(update.instances), update.instances)
        decreases rest
      {
        var s :| s in rest;
        ghost var sv, cs0, us := services.value, containers.value, update.instances;
        var inst := AddInstances(s, id);
        JoinStep(env, sv, cs0, seen, id, rest, s, inst);
        GrownTwice(cs, cs0, containers.value);
        LinkInfos(sv, s, id, inst);
        LinkWithdrawsNothing(us, s, id, inst);
        LinkMirrors(base, us, sv, s, id, inst);
        rest := rest - {s};
      }
      GrownConts(cs, containers.value);
      assert seen + {id} == containers.value.Keys;
    }

    // removeContainer
    method RemoveContainer(id: string, ghost base: map<InstanceKey, Instance>)
      requires Consistent() && Mirrored(base)
      modifies this
      ensures Consistent() && Mirrored(base) && update.reset == old(update.reset)
      ensures services.Some? == old(services.Some?) && containers.Some? == old(containers.Some?)
      ensures services.Some? ==> Infos(services.value) == old(Infos(services.value))
      ensures containers.Some? ==> Conts(containers.value) == old(Conts(containers.value)) - {id}
      ensures EntriesFor({id}, old(update.instances), update.instances)
      ensures !Known() || id !in old(containers.value) ==> update == old(update) && services == old(services)
    {
      if containers.None? || id !in containers.value {
        assert containers.Some? ==> Conts(containers.value) == Conts(containers.value) - {id};
        return;
      }
      var cont := containers.value[id];
      ghost var cs := containers.value;
      containers := Some(containers.value - {id});
      assert Conts(containers.value) == Conts(cs) - {id};
      if services.Some? {
        LeaveStart(env, services.value, cs, id);
        var rest := cont.instances;
        while rest != {}
          invariant services.Some? && containers == Some(cs - {id})
          invariant LeftBut(env, services.value, cs, id, rest)
          invariant Infos(services.value) == old(Infos(services.value)) && update.reset == old(update.reset)
          invariant Mirrors(Overlay(base, update.instances), services.value)
          invariant EntriesFor({id}, old(update.instances), update.instances)
          decreases rest
        {
          var s :| s in rest;
          LeaveStep(env, services.value, cs, id, rest, s);
          UnlinkMirrors(base, update.instances, services.value, s, id);
          UnlinkInfos(services.value, s, id);
          services := Some(UnlinkServices(services.value, s, id));
          update := update.(instances := update.instances[InstanceKey(s, id) := None]);
          rest := rest - {s};
        }
        assert AllJoined(env, services.value, containers.value);
      }
    }

    // The first loop of updateService: join a new service with every container.
    method JoinService(s: string, ghost left: map<string, Instance>, ghost base: map<InstanceKey, Instance>)
      requires Known() && Keyed() && s in services.value && services.value[s].instances == map[]
      requires OthersJoined(env, services.value, containers.value, s)
      requires Mirrors(Overlay(base, update.instances), Shadowed(services.value, s, left))
      modifies this
      ensures Known() && Keyed() && AllJoined(env, services.value, containers.value) && s in services.value
      ensures Infos(services.value) == old(Infos(services.value))
      ensures Conts(containers.value) == old(Conts(containers.value))
      ensures Mirrors(Overlay(base, update.instances), Shadowed(services.value, s, left))
      ensures update.reset == old(update.reset)
      ensures old(AllGiven(update.instances)) ==> AllGiven(update.instances)
      ensures EntriesFor(old(containers.value.Keys), old(update.instances), update.instances)
    {
      ghost var cs := containers.value;
      ghost var seen: set<string> := {};
      var rest := containers.value.Keys;
      assert JoinedOn(env, s, services.value[s], cs, seen);
      while rest != {}
        invariant Known() && rest !! seen && rest + seen == containers.value.Keys
        invariant s in services.value && Grown(cs, containers.value)
        invariant OthersJoined(env, services.value, containers.value, s)
        invariant JoinedOn(env, s, services.value[s], containers.value, seen)
        invariant Infos(services.value) == old(Infos(services.value)) && update.reset == old(update.reset)
        invariant Mirrors(Overlay(base, update.instances), Shadowed(services.value, s, left))
        invariant old(AllGiven(update.instances)) ==> AllGiven(update.instances)
        invariant EntriesFor(cs.Keys, old(update.instances), update.instances)
        decreases rest
      {
        var c :| c in rest;
        ghost var sv, cs0, us := services.value, containers.value, update.instances;
        var inst := AddInstances(s, c);
        EvaluateStep(env, sv, cs0, s, seen, c, inst);
        GrownTwice(cs, cs0, containers.value);
        LinkInfos(sv, s, c, inst);
        ShadowedLink(sv, s, left, c, inst);
        LinkMirrors(base, us, Shadowed(sv, s, left), s, c, inst);
        LinkWithdrawsNothing(us, s, c, inst);
        seen := seen + {c};
        rest := rest - {c};
      }
      assert seen == containers.value.Keys;
      GrownConts(cs, containers.value);
    }

    // The second loop of updateService: withdraw the instances that went away.
    method WithdrawOld(s: string, olds: map<string, Instance>, ghost base: map<InstanceKey, Instance>)
      requires services.Some? && s in services.value
      requires Mirrors(Overlay(base, update.instances), Shadowed(services.value, s, olds))
      modifies this`update
      ensures Mirrors(Overlay(base, update.instances), services.value)
      ensures update.reset == old(update.reset)
      ensures olds == map[] ==> update == old(update)
      ensures EntriesFor(olds.Keys, old(update.instances), update.instances)
    {
      ghost var left := olds;
      var rest := olds.Keys;
      while rest != {}
        invariant left.Keys == rest && update.reset == old(update.reset)
        invariant Mirrors(Overlay(base, update.instances), Shadowed(services.value, s, left))
        invariant olds == map[] ==> update == old(update)
        invariant rest <= olds.Keys && EntriesFor(olds.Keys, old(update.instances), update.instances)
        decreases rest
      {
        var c :| c in rest;
        ShadowedDrop(services.value, s, left, c);
        if c !in services.value[s].instances {
          UnlinkMirrors(base, update.instances, Shadowed(services.value, s, left), s, c);
          update := update.(instances := update.instances[InstanceKey(s, c) := None]);
        }
        left := left - {c};
        rest := rest - {c};
      }
      assert left + services.value[s].instances == services.value[s].instances;
      assert Shadowed(services.value, s, left) == services.value;
    }

    // updateService
    method UpdateService(s: string, info: ServiceInfo, ghost base: map<InstanceKey, Instance>)
      requires Consistent() && Mirrored(base)
      modifies this
      ensures Consistent() && Mirrored(base) && update.reset == old(update.reset)
      ensures services.Some? == old(services.Some?) && containers.Some? == old(containers.Some?)
      ensures !Known() ==> update == old(update)
      ensures Known() ==> EntriesFor(old(containers.value.Keys), old(update.instances), update.instances)
      ensures services.Some? ==> Infos(services.value) == old(Infos(services.value))[s := info]
      ensures containers.Some? ==> Conts(containers.value) == old(Conts(containers.value))
      ensures old(services.Some? && s !in services.value && AllGiven(update.instances)) ==> AllGiven(update.instances)
    {
      if services.None? {
        return;
      }
      var olds := if s in services.value then services.value[s].instances else map[];
      ReplaceStart(env, Overlay(base, update.instances), services.value, s, info);
      if containers.Some? {
        if s in services.value {
          JoinedIsKnown(env, services.value, containers.value, s);
        }
        OthersStayJoined(env, services.value, containers.value, s, ServiceState(info, map[]));
      }
      services := Some(services.value[s := ServiceState(info, map[])]);
      RejoinService(s, olds, base);
    }

    // The two loops of updateService, for a service that has just been put in
    // place of one with the instances olds.
    method RejoinService(s: string, olds: map<string, Instance>, ghost base: map<InstanceKey, Instance>)
      requires services.Some? && s in services.value && services.value[s].instances == map[] && Keyed()
      requires containers.Some? ==> OthersJoined(env, services.value, containers.value, s)
      requires containers.None? ==> olds == map[] && forall t :: t in services.value ==>
                services.value[t].instances == map[]
      requires Mirrors(Overlay(base, update.instances), Shadowed(services.value, s, olds))
      modifies this
      ensures Consistent() && Mirrored(base) && update.reset == old(update.reset)
      ensures services.Some? && containers.Some? == old(containers.Some?)
      ensures containers.None? ==> update == old(update)
      ensures containers.Some? ==>
                EntriesFor(old(containers.value.Keys) + olds.Keys, old(update.instances), update.instances)
      ensures Infos(services.value) == old(Infos(services.value))
      ensures containers.Some? ==> Conts(containers.value) == old(Conts(containers.value))
      ensures olds == map[] && old(AllGiven(update.instances)) ==> AllGiven(update.instances)
    {
      if containers.Some? {
        JoinService(s, olds, base);
      }
      WithdrawOld(s, olds, base);
    }

    // The loop of removeService: services holds everything but s, whose
    // instances olds are withdrawn one by one.
    method WithdrawAll(s: string, svc: ServiceState, ghost base: map<InstanceKey, Instance>)
      requires Known() && Keyed() && s !in services.value
      requires Mirrors(Overlay(base, update.instances), services.value[s := svc])
      modifies this`containers, this`update
      ensures Known() && Unpointed(old(containers.value), containers.value, s)
      ensures Mirrors(Overlay(base, update.instances), services.value)
      ensures update.reset == old(update.reset)
      ensures EntriesFor(svc.instances.Keys, old(update.instances), update.instances)
    {
      ghost var cs, shown := containers.value, services.value[s := svc];
      var rest := svc.instances.Keys;
      while rest != {}
        invariant Known() && Unpointed(cs, containers.value, s) && update.reset == old(update.reset)
        invariant s in shown && shown - {s} == services.value && shown[s].instances.Keys == rest
        invariant Mirrors(Overlay(base, update.instances), shown)
        invariant rest <= svc.instances.Keys
        invariant EntriesFor(svc.instances.Keys, old(update.instances), update.instances)
        decreases rest
      {
        var c :| c in rest;
        UnpointStep(cs, containers.value, c, s);
        containers := Some(Unpoint(containers.value, c, s));
        UnlinkMirrors(base, update.instances, shown, s, c);
        shown := UnlinkServices(shown, s, c);
        update := update.(instances := update.instances[InstanceKey(s, c) := None]);
        rest := rest - {c};
      }
      ForgetEmpty(Overlay(base, update.instances), shown, s);
    }

    // removeService
    method RemoveService(s: string, ghost base: map<InstanceKey, Instance>)
      requires Consistent() && Mirrored(base)
      modifies this
      ensures Consistent() && Mirrored(base) && update.reset == old(update.reset)
      ensures services.Some? == old(services.Some?) && containers.Some? == old(containers.Some?)
      ensures services.Some? ==> Infos(services.value) == old(Infos(services.value)) - {s}
      ensures containers.Some? ==> Conts(containers.value) == old(Conts(containers.value))
      ensures Known() ==> EntriesFor(old(containers.value.Keys), old(update.instances), update.instances)
      ensures old(!Known() || s !in services.value) ==> update == old(update)
    {
      if services.None? || s !in services.value {
        assert services.Some? ==> Infos(services.value) - {s} == Infos(services.value);
        return;
      }
      var svc := services.value[s];
      ghost var sv := services.value;
      services := Some(services.value - {s});
      assert Infos(services.value) == Infos(sv) - {s};
      if containers.Some? {
        ghost var cs := containers.value;
        JoinedIsKnown(env, sv, cs, s);
        assert services.value[s := svc] == sv;
        WithdrawAll(s, svc, base);
        ForgetService(env, sv, cs, containers.value, s);
        UnpointedConts(cs, containers.value, s);
      } else {
        ForgetEmpty(Overlay(base, update.instances), sv, s);
      }
    }

    // addContainer
    method AddContainer(cont: Container, ghost base: map<InstanceKey, Instance>)
      requires Consistent() && Mirrored(base)
      modifies this
      ensures Consistent() && Mirrored(base) && update.reset == old(update.reset)
      ensures services.Some? == old(services.Some?) && containers.Some? == old(containers.Some?)
      ensures !Known() ==> update == old(update)
      ensures services.Some? ==> Infos(services.value) == old(Infos(services.value))
      ensures containers.Some? ==> Conts(containers.value) == map[cont.id := cont] + old(Conts(containers.value))
      ensures old(AllGiven(update.instances)) ==> AllGiven(update.instances)
      ensures EntriesFor({cont.id}, old(update.instances), update.instances)
    {
      if containers.None? || cont.id in containers.value {
        assert containers.Some? ==> map[cont.id := cont] + Conts(containers.value) == Conts(containers.value);
      } else if services.None? {
        ghost var cs := containers.value;
        containers := Some(containers.value[cont.id := ContainerState(cont, {})]);
        assert Conts(containers.value) == map[cont.id := cont] + Conts(cs);
      } else {
        ghost var cs := containers.value;
        JoinContainer(cont, base);
        assert Conts(containers.value) == map[cont.id := cont] + Conts(cs);
      }
    }

    // The two loops of clearInstances.
    method ClearServices()
      modifies this`services
      ensures services.Some? == old(services.Some?)
      ensures services.Some? ==> Infos(services.value) == old(Infos(services.value))
      ensures services.Some? ==> forall s :: s in services.value ==> services.value[s].instances == map[]
    {
      if services.Some? {
        var rest := services.value.Keys;
        while rest != {}
          invariant services.Some? && services.value.Keys == old(services.value.Keys) && rest <= services.value.Keys
          invariant forall s :: s in services.value ==> services.value[s].info == old(services.value[s].info)
          invariant forall s :: s in services.value && s !in rest ==> services.value[s].instances == map[]
          decreases rest
        {
          var s :| s in rest;
          services := Some(services.value[s := services.value[s].(instances := map[])]);
          rest := rest - {s};
        }
      }
    }

    method ClearContainers()
      modifies this`containers
      ensures containers.Some? == old(containers.Some?)
      ensures containers.Some? ==> Conts(containers.value) == old(Conts(containers.value))
      ensures containers.Some? ==> forall c :: c in containers.value ==> containers.value[c].instances == {}
    {
      if containers.Some? {
        var rest := containers.value.Keys;
        while rest != {}
          invariant containers.Some? && containers.value.Keys == old(containers.value.Keys) &&
                    rest <= containers.value.Keys
          invariant forall c :: c in containers.value ==>
                    containers.value[c].container == old(containers.value[c].container)
          invariant forall c :: c in containers.value && c !in rest ==> containers.value[c].instances == {}
          decreases rest
        {
          var c :| c in rest;
          containers := Some(containers.value[c := containers.value[c].(instances := {})]);
          rest := rest - {c};
        }
      }
    }

    // clearInstances
    method ClearInstances()
      modifies this`services, this`containers
      ensures services.Some? == old(services.Some?) && containers.Some? == old(containers.Some?)
      ensures services.Some? ==> Infos(services.value) == old(Infos(services.value))
      ensures containers.Some? ==> Conts(containers.value) == old(Conts(containers.value))
      ensures services.Some? ==> forall s :: s in services.value ==> services.value[s].instances == map[]
      ensures containers.Some? ==> forall c :: c in containers.value ==> containers.value[c].instances == {}
    {
      ClearServices();
      ClearContainers();
    }

    ghost function KnownInfos(): Option<map<string, ServiceInfo>>
      reads this
    {
      if services.Some? then Some(Infos(services.value)) else None
    }

    ghost function KnownConts(): Option<map<string, Container>>
      reads this
    {
      if containers.Some? then Some(Conts(containers.value)) else None
    }

    ghost function KnownView(): View
      reads this
    {
      View(KnownInfos(), KnownConts())
    }

    // Between events: a consumer that holds copy mirrors the join.
    ghost predicate Inv(copy: map<InstanceKey, Instance>)
      reads this
    {
      Consistent() && (Known() ==> Mirrors(copy, services.value))
    }

    // What the pending update is relative to.
    ghost function Base(reset: bool, copy: map<InstanceKey, Instance>): map<InstanceKey, Instance>
      reads this
    {
      if reset || !Known() then map[] else copy
    }

    // The reset case of processContainerUpdate.
    method ResetContainers()
      requires update.instances == map[]
      modifies this
      ensures containers == Some(map[]) && Consistent() && Mirrored(map[])
      ensures KnownInfos() == old(KnownInfos())
      ensures update == InstanceUpdate(map[], services.Some?)
    {
      containers := Some(map[]);
      ClearInstances();
      assert Conts(containers.value).Keys == {} == containers.value.Keys;
      update := update.(reset := services.Some?);
      if services.Some? {
        forall s | s in services.value
          ensures JoinedOn(env, s, services.value[s], containers.value, containers.value.Keys) {
          assert SelectedIn(services.value[s].info, containers.value, containers.value.Keys) == {};
        }
      }
    }

    // processContainerUpdate
    method ProcessContainerUpdate(u: ContainerUpdate, ghost copy: map<InstanceKey, Instance>)
      requires Inv(copy) && update == InstanceUpdate(map[], false)
      modifies this
      ensures Inv(Folded(copy, update))
      ensures KnownInfos() == old(KnownInfos())
      ensures KnownConts().Some? == NextConts(old(KnownConts()), u).Some?
      ensures WellKeyed(u.containers) ==> KnownConts() == NextConts(old(KnownConts()), u)
      ensures update.reset <==> u.reset && Known()
      ensures !Known() ==> update == InstanceUpdate(map[], false)
      ensures u.reset && WellKeyed(u.containers) ==> AllGiven(update.instances)
      ensures WellKeyed(u.containers) ==> EntriesFor(u.containers.Keys, map[], update.instances)
    {
      ghost var base := Base(u.reset, copy);
      if u.reset {
        ResetContainers();
      }
      ghost var known := if containers.Some? then Conts(containers.value) else map[];
      assert u.containers - u.containers.Keys == map[];
      assert ContsAfter(known, map[]) == known;
      var rest := u.containers.Keys;
      while rest != {}
        invariant rest <= u.containers.Keys
        invariant Consistent() && Mirrored(base)
        invariant KnownInfos() == old(KnownInfos())
        invariant containers.Some? == (u.reset || old(containers.Some?))
        invariant containers.Some? && WellKeyed(u.containers) ==>
                  Conts(containers.value) == ContsAfter(known, u.containers - rest)
        invariant update.reset == (u.reset && services.Some?)
        invariant !Known() ==> update.instances == map[]
        invariant u.reset && WellKeyed(u.containers) ==> AllGiven(update.instances)
        invariant WellKeyed(u.containers) ==> EntriesFor(u.containers.Keys, map[], update.instances)
        decreases rest
      {
        var id :| id in rest;
        ContsStep(known, u.containers, rest, id);
        match u.containers[id] {
          case Some(cont) => AddContainer(cont, base);
          case None =>
            assert u.reset && WellKeyed(u.containers) ==> id !in Conts(containers.value);
            RemoveContainer(id, base);
        }
        rest := rest - {id};
      }
      assert u.containers - {} == u.containers;
    }

    // The reset case of processServiceUpdate.
    method ResetServices()
      requires update.instances == map[] && Keyed()
      modifies this
      ensures services == Some(map[]) && Consistent() && Mirrored(map[])
      ensures KnownConts() == old(KnownConts())
      ensures update == InstanceUpdate(map[], containers.Some?)
    {
      services := Some(map[]);
      ClearInstances();
      assert Infos(services.value).Keys == {} == services.value.Keys;
      update := update.(reset := containers.Some?);
      if containers.Some? {
        forall c | c in containers.value ensures containers.value[c].container.id == c {
          assert Conts(containers.value)[c] == old(Conts(containers.value))[c];
        }
      }
    }

    // processServiceUpdate
    method ProcessServiceUpdate(u: ServiceUpdate, ghost copy: map<InstanceKey, Instance>)
      requires Inv(copy) && update == InstanceUpdate(map[], false)
      modifies this
      ensures Inv(Folded(copy, update))
      ensures KnownConts() == old(KnownConts())
      ensures KnownInfos() == NextInfos(old(KnownInfos()), u)
      ensures update.reset <==> u.reset && Known()
      ensures !Known() ==> update == InstanceUpdate(map[], false)
      ensures u.reset ==> AllGiven(update.instances)
      ensures Known() ==> EntriesFor(KnownConts().value.Keys, map[], update.instances)
    {
      ghost var base := Base(u.reset, copy);
      if u.reset {
        ResetServices();
      }
      ghost var known := if services.Some? then Infos(services.value) else map[];
      assert u.services - u.services.Keys == map[];
      assert InfosAfter(known, map[]) == known;
      var rest := u.services.Keys;
      while rest != {}
        invariant rest <= u.services.Keys
        invariant Consistent() && Mirrored(base)
        invariant KnownConts() == old(KnownConts())
        invariant services.Some? == (u.reset || old(services.Some?))
        invariant services.Some? ==> Infos(services.value) == InfosAfter(known, u.services - rest)
        invariant update.reset == (u.reset && containers.Some?)
        invariant !Known() ==> update.instances == map[]
        invariant u.reset ==> AllGiven(update.instances)
        invariant Known() ==> EntriesFor(KnownConts().value.Keys, map[], update.instances)
        decreases rest
      {
        var s :| s in rest;
        InfosStep(known, u.services, rest, s);
        assert u.reset ==> s !in Infos(services.value);
        match u.services[s] {
          case Some(info) => UpdateService(s, info, base);
          case None => RemoveService(s, base);
        }
        rest := rest - {s};
      }
      assert u.services - {} == u.services;
    }

    // One turn of the event loop.
    method Step(e: Event, ghost copy: map<InstanceKey, Instance>) returns (sent: Option<InstanceUpdate>)
      requires Inv(copy)
      modifies this
      ensures Inv(if sent.Some? then Folded(copy, sent.value) else copy)
      ensures WellKeyedEvent(e) ==> KnownView() == NextView(old(KnownView()), e)
      ensures sent.Some? ==> Known()
      ensures Known() && !old(Known()) ==> sent.Some? && sent.value.reset
      ensures sent.Some? && sent.value.reset && WellKeyedEvent(e) ==> AllGiven(sent.value.instances)
      ensures sent.Some? && WellKeyedEvent(e) ==> EntriesFor(ConcernedBy(e, KnownView()), map[], sent.value.instances)
      ensures e.ResetRequested? ==> sent == None && services == None && containers == None
      ensures e.ServicesChanged? ==>
                && (containers.Some? <==> old(containers.Some?))
                && (services.Some? <==> e.svcs.reset || old(services.Some?))
                && (services.Some? ==>
                     forall s :: Get(Infos(services.value), s) ==
                       if s in e.svcs.services then e.svcs.services[s]
                       else if e.svcs.reset then None else old(Get(Infos(services.value), s)))
      ensures e.ContainersChanged? ==>
                && (services.Some? <==> old(services.Some?))
                && (containers.Some? <==> e.conts.reset || old(containers.Some?))
    {
      ghost var before, after := KnownInfos(), KnownInfos();
      sent := TakeTurn(e, copy);
      after := KnownInfos();
      if e.ServicesChanged? {
        InfosSay(before, e.svcs, after);
      }
    }

    method TakeTurn(e: Event, ghost copy: map<InstanceKey, Instance>) returns (sent: Option<InstanceUpdate>)
      requires Inv(copy)
      modifies this
      ensures Inv(if sent.Some? then Folded(copy, sent.value) else copy)
      ensures WellKeyedEvent(e) ==> KnownView() == NextView(old(KnownView()), e)
      ensures sent.Some? ==> Known()
      ensures Known() && !old(Known()) ==> sent.Some? && sent.value.reset
      ensures sent.Some? && sent.value.reset && WellKeyedEvent(e) ==> AllGiven(sent.value.instances)
      ensures sent.Some? && WellKeyedEvent(e) ==> EntriesFor(ConcernedBy(e, KnownView()), map[], sent.value.instances)
      ensures e.ResetRequested? ==> services == None && containers == None
      ensures e.ServicesChanged? ==> KnownConts() == old(KnownConts())
      ensures e.ServicesChanged? ==> KnownInfos() == NextInfos(old(KnownInfos()), e.svcs)
      ensures e.ContainersChanged? ==> KnownInfos() == old(KnownInfos())
      ensures e.ContainersChanged? ==> KnownConts().Some? == NextConts(old(KnownConts()), e.conts).Some?
    {
      update := InstanceUpdate(map[], false);
      Receive(e, copy);
      sent := None;
      if |update.instances| > 0 || update.reset {
        sent := Some(update);
      } else {
        NothingFolded(copy);
      }
    }

    // The select statement.
    method Receive(e: Event, ghost copy: map<InstanceKey, Instance>)
      requires Inv(copy) && update == InstanceUpdate(map[], false)
      modifies this
      ensures Inv(Folded(copy, update))
      ensures WellKeyedEvent(e) ==> KnownView() == NextView(old(KnownView()), e)
      ensures !Known() ==> update == InstanceUpdate(map[], false)
      ensures Known() && !old(Known()) ==> update.reset
      ensures update.reset && WellKeyedEvent(e) ==> AllGiven(update.instances)
      ensures WellKeyedEvent(e) ==> EntriesFor(ConcernedBy(e, KnownView()), map[], update.instances)
      ensures e.ResetRequested? ==> services == None && containers == None
      ensures e.ServicesChanged? ==> KnownConts() == old(KnownConts())
      ensures e.ServicesChanged? ==> KnownInfos() == NextInfos(old(KnownInfos()), e.svcs)
      ensures e.ContainersChanged? ==> KnownInfos() == old(KnownInfos())
      ensures e.ContainersChanged? ==> KnownConts().Some? == NextConts(old(KnownConts()), e.conts).Some?
    {
      match e {
        case ContainersChanged(u) => ProcessContainerUpdate(u, copy);
        case ServicesChanged(u) => ProcessServiceUpdate(u, copy);
        case ResetRequested => services, containers := None, None;
      }
    }

    // Any run: after every event, a consumer that has folded what was sent
    // holds exactly the join of what the sources have told, whenever both are
    // known; every reset update alone already is that join.  Nothing is sent
    // before both sources have reset, after a request as after the start, and
    // what is sent first then is a reset.
    method Run(events: seq<Event>) returns (sent: Sent)
      requires services == None && containers == None
      requires forall n :: 0 <= n < |events| ==> WellKeyedEvent(events[n])
      modifies this
      ensures InSyncThroughout(env, sent, events)
      ensures forall n :: 0 <= n < |events| && sent[n].Some? && sent[n].value.reset ==>
                AllGiven(sent[n].value.instances)
      ensures forall j :: 0 <= j < |events| && sent[j].Some? ==> BothReset(events[..j + 1])
      ensures ResetsFirst(events, sent)
    {
      sent := [];
      for i := 0 to |events|
        invariant Inv(FoldAll(sent)) && KnownView() == ViewAfter(events[..i])
        invariant InSyncThroughout(env, sent, events[..i])
        invariant forall n :: 0 <= n < i && sent[n].Some? && sent[n].value.reset ==> AllGiven(sent[n].value.instances)
        invariant forall j :: 0 <= j < i && sent[j].Some? ==> BothReset(events[..j + 1])
        invariant ResetsFirst(events[..i], sent) && (Known() ==> SentSince(events[..i], sent))
      {
        ghost var before := sent;
        var one := StepInSync(events[i], before);
        sent := sent + [one];
        assert events[..i + 1] == events[..i] + [events[i]];
        InSyncMore(env, before, one, events[..i], events[i]);
        ResetsMore(events[..i], before, events[i], one);
        if one.Some? {
          KnownIsBothReset(events[..i + 1]);
        }
      }
      assert events[..|events|] == events;
    }

    // One event, for a consumer that has folded all that was sent before.
    method StepInSync(e: Event, ghost sent: Sent) returns (one: Option<InstanceUpdate>)
      requires Inv(FoldAll(sent)) && WellKeyedEvent(e)
      modifies this
      ensures Inv(FoldAll(sent + [one])) && KnownView() == NextView(old(KnownView()), e)
      ensures one.Some? && one.value.reset ==> AllGiven(one.value.instances)
      ensures InSync(env, FoldAll(sent + [one]), KnownView())
      ensures one.Some? ==> Known()
      ensures Known() && !old(Known()) ==> one.Some? && one.value.reset
      ensures e.ResetRequested? ==> one == None && !Known()
    {
      one := Step(e, FoldAll(sent));
      assert (sent + [one])[..|sent|] == sent;
      if Known() {
        MirrorsTheJoin(env, FoldAll(sent + [one]), services.value, containers.value);
      }
    }
  }
}
