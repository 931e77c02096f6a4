// The server-side balancer: a forwarder for every known service with local
// instances, advertised as an ingress instance
// (balancer/serverside/serverside.go).
module ServerSide {
  import opened Prelude
  import opened StoreData

  // A running forwarder: the port it listens on and the instances in its pool.
  datatype Forwarder = Forwarder(port: int, pool: map<string, IPPort>)

  datatype ServiceState = ServiceState(
    service: Option<Service>,
    forwarder: Option<Forwarder>,
    instances: map<string, IPPort>)

  // Ingress instances in the store, by service and address.
  datatype IngressKey = IngressKey(service: string, address: IPPort)

  const FRESH := ServiceState(None, None, map[])

  function StateOf(services: map<string, ServiceState>, s: string): ServiceState {
    if s in services then services[s] else FRESH
  }

  ghost predicate SameBut(before: map<string, ServiceState>, after: map<string, ServiceState>, s: string) {
    forall t :: t != s ==> Get(after, t) == Get(before, t)
  }

  lemma OthersSame(before: map<string, ServiceState>, after: map<string, ServiceState>, s: string)
    requires SameBut(before, after, s)
    ensures forall t :: t != s ==> StateOf(after, t) == StateOf(before, t)
  {
    forall t | t != s ensures StateOf(after, t) == StateOf(before, t) {
      assert Get(after, t) == Get(before, t);
    }
  }

  // A forwarder is due for a known service with instances.
  ghost predicate Due(svc: ServiceState) {
    svc.service.Some? && svc.instances != map[]
  }

  // Where new forwarders come to listen, by service and number of the attempt,
  // or None if the attempt fails.
  type Ports = (string, nat) -> Option<int>

  // How many forwarders have been tried, by service.
  type Tries = map<string, nat>

  function Tried(tries: Tries, s: string): nat {
    if s in tries then tries[s] else 0
  }

  function NextPort(ports: Ports, tries: Tries, s: string): Option<int> {
    ports(s, Tried(tries, s))
  }

  // The latest attempt for a service has failed.
  ghost predicate Refused(ports: Ports, tries: Tries, s: string) {
    Tried(tries, s) > 0 && ports(s, Tried(tries, s) - 1).None?
  }

  // There is a forwarder exactly if it is due, but for a latest attempt that
  // has failed, and its pool has the names of the instances.
  ghost predicate Settled(svc: ServiceState, refused: bool) {
    && (svc.forwarder.Some? ==> Due(svc) && svc.forwarder.value.pool.Keys == svc.instances.Keys)
    && (Due(svc) && svc.forwarder.None? ==> refused)
  }

  // A new forwarder has to be tried.
  ghost predicate Wants(svc: ServiceState) {
    Due(svc) && svc.forwarder.None?
  }

  // What updateService makes of a record, if a new forwarder would be at port.
  ghost function Brought(svc: ServiceState, port: Option<int>): (svc': ServiceState)
    ensures svc'.service == svc.service && svc'.instances == svc.instances
  {
    if !Due(svc) then svc.(forwarder := None)
    else if svc.forwarder.Some? then
      svc.(forwarder := Some(Forwarder(svc.forwarder.value.port, Retained(svc.forwarder.value.pool, svc.instances))))
    else if port.Some? then svc.(forwarder := Some(Forwarder(port.value, svc.instances)))
    else svc
  }

  // The attempts after one at s, or none.
  ghost function NextTries(tries: Tries, s: string, wanted: bool): Tries {
    if wanted then tries[s := Tried(tries, s) + 1] else tries
  }

  // The ingress entries that a service's forwarder accounts for.
  function Advertised(host: string, s: string, svc: ServiceState): map<IngressKey, IngressInstance> {
    if svc.forwarder.None? then map[]
    else map[IngressKey(s, IPPort(host, svc.forwarder.value.port)) := IngressInstance(|svc.instances|)]
  }

  // This host's ingress entries are those of the running forwarders.
  ghost predicate AdvertisedExactly(host: string, services: map<string, ServiceState>,
                                    ingress: map<IngressKey, IngressInstance>) {
    forall k: IngressKey :: k.address.ip == host ==>
      Get(ingress, k) == Get(Advertised(host, k.service, StateOf(services, k.service)), k)
  }

  // What an instance update records for one instance: withdrawals and
  // addressed instances count, an announcement without an address is ignored.
  function Recorded(entries: map<InstanceKey, Option<Instance>>, k: InstanceKey, before: Option<IPPort>)
    : Option<IPPort>
  {
    if k !in entries then before
    else if entries[k].None? then None
    else if entries[k].value.address.Some? then entries[k].value.address
    else before
  }

  function RecordedAt(services: map<string, ServiceState>, k: InstanceKey): Option<IPPort> {
    Get(StateOf(services, k.service).instances, k.instance)
  }

  function AddressIn(entries: map<InstanceKey, Option<Instance>>, k: InstanceKey): Option<IPPort> {
    if k in entries && entries[k].Some? then entries[k].value.address else None
  }

  // The addressed entries for one service.
  function Grouped(entries: map<InstanceKey, Option<Instance>>, s: string): map<string, IPPort> {
    map k | k in entries && k.service == s && AddressIn(entries, k).Some? :: k.instance := AddressIn(entries, k).value
  }

  function Filed(svcs: map<string, map<string, IPPort>>, k: InstanceKey): Option<IPPort> {
    if k.service in svcs then Get(svcs[k.service], k.instance) else None
  }

  function File(svcs: map<string, map<string, IPPort>>, k: InstanceKey, address: IPPort)
    : map<string, map<string, IPPort>>
  {
    var insts := if k.service in svcs then svcs[k.service] else map[];
    svcs[k.service := insts[k.instance := address]]
  }

  lemma GroupedIsFiled(u: InstanceUpdate, svcs: map<string, map<string, IPPort>>)
    requires forall k: InstanceKey :: Filed(svcs, k) == AddressIn(u.instances, k)
    ensures forall s :: Grouped(u.instances, s) == if s in svcs then svcs[s] else map[]
  {
    forall s ensures Grouped(u.instances, s) == if s in svcs then svcs[s] else map[] {
      var filed := if s in svcs then svcs[s] else map[];
      var grouped := Grouped(u.instances, s);
      forall n ensures Get(grouped, n) == Get(filed, n) {
        var k := InstanceKey(s, n);
        assert Filed(svcs, k) == AddressIn(u.instances, k);
      }
      assert forall n :: n in grouped <==> Get(grouped, n).Some?;
      assert forall n :: n in filed <==> Get(filed, n).Some?;
    }
  }

  lemma GroupedIsGiven(services: map<string, ServiceState>, u: InstanceUpdate)
    requires AllGiven(u.instances) && forall s :: StateOf(services, s).instances == Grouped(u.instances, s)
    ensures forall k: InstanceKey :: RecordedAt(services, k) ==
              if k in u.instances then u.instances[k].value.address else None
  {
    forall k: InstanceKey
      ensures RecordedAt(services, k) == if k in u.instances then u.instances[k].value.address else None
    {
      assert StateOf(services, k.service).instances == Grouped(u.instances, k.service);
      assert k == InstanceKey(k.service, k.instance);
    }
  }

  // What a copy of the announced instances would have recorded.
  function AddressOf(copy: map<InstanceKey, Instance>, k: InstanceKey): Option<IPPort> {
    if k in copy then copy[k].address else None
  }

  ghost predicate Tracks(services: map<string, ServiceState>, copy: map<InstanceKey, Instance>) {
    forall k: InstanceKey :: RecordedAt(services, k) == AddressOf(copy, k)
  }

  // An announcement that takes away the address of a recorded instance.
  ghost predicate LosesAnAddress(services: map<string, ServiceState>, u: InstanceUpdate) {
    exists k :: k in u.instances && u.instances[k].Some? && u.instances[k].value.address.None? &&
      RecordedAt(services, k).Some?
  }

  // Recorded addresses are those announced, until an instance is announced
  // again without its address.
  lemma TracksIffNoAddressLost(before: map<string, ServiceState>, after: map<string, ServiceState>,
                               copy: map<InstanceKey, Instance>, u: InstanceUpdate)
    requires Tracks(before, copy) && !u.reset
    requires forall k: InstanceKey :: RecordedAt(after, k) == Recorded(u.instances, k, RecordedAt(before, k))
    ensures Tracks(after, Folded(copy, u)) <==> !LosesAnAddress(before, u)
  {
    forall k: InstanceKey
      ensures RecordedAt(after, k) == AddressOf(Folded(copy, u), k) <==>
              !(k in u.instances && u.instances[k].Some? && u.instances[k].value.address.None? &&
                RecordedAt(before, k).Some?)
    {
      assert RecordedAt(before, k) == AddressOf(copy, k);
      OverlayGet(copy, u.instances, k);
    }
  }

  // A reset makes them so again.
  lemma TracksAfterReset(after: map<string, ServiceState>, copy: map<InstanceKey, Instance>, u: InstanceUpdate)
    requires u.reset && AllGiven(u.instances)
    requires forall s :: StateOf(after, s).instances == Grouped(u.instances, s)
    ensures Tracks(after, Folded(copy, u))
  {
    forall k: InstanceKey ensures RecordedAt(after, k) == AddressOf(Folded(copy, u), k) {
      assert StateOf(after, k.service).instances == Grouped(u.instances, k.service);
      assert k == InstanceKey(k.service, k.instance);
    }
  }

  lemma Advertise(host: string, services: map<string, ServiceState>, ingress: map<IngressKey, IngressInstance>,
                  s: string, svc: ServiceState)
    requires AdvertisedExactly(host, services, ingress) && svc.forwarder.Some?
    requires var old_ := StateOf(services, s).forwarder; old_.Some? ==> old_.value.port == svc.forwarder.value.port
    ensures var k := IngressKey(s, IPPort(host, svc.forwarder.value.port));
            AdvertisedExactly(host, services[s := svc], ingress[k := IngressInstance(|svc.instances|)])
  {
    var k0 := IngressKey(s, IPPort(host, svc.forwarder.value.port));
    var services', ingress' := services[s := svc], ingress[k0 := IngressInstance(|svc.instances|)];
    forall k: IngressKey | k.address.ip == host
      ensures Get(ingress', k) == Get(Advertised(host, k.service, StateOf(services', k.service)), k)
    {
      assert Get(ingress, k) == Get(Advertised(host, k.service, StateOf(services, k.service)), k);
      assert k == IngressKey(k.service, IPPort(host, k.address.port));
    }
  }

  lemma Withdraw(host: string, services: map<string, ServiceState>, services': map<string, ServiceState>,
                 ingress: map<IngressKey, IngressInstance>, s: string)
    requires AdvertisedExactly(host, services, ingress)
    requires SameBut(services, services', s) && StateOf(services', s).forwarder.None?
    ensures AdvertisedExactly(host, services', WithdrawnFor(host, ingress, s, StateOf(services, s).forwarder))
  {
    var ingress' := WithdrawnFor(host, ingress, s, StateOf(services, s).forwarder);
    forall k: IngressKey | k.address.ip == host
      ensures Get(ingress', k) == Get(Advertised(host, k.service, StateOf(services', k.service)), k)
    {
      assert Get(ingress, k) == Get(Advertised(host, k.service, StateOf(services, k.service)), k);
      assert k == IngressKey(k.service, IPPort(host, k.address.port));
      assert k.service != s ==> Get(services', k.service) == Get(services, k.service);
    }
  }

  // The store's ingress instances once a forwarder has been stopped.
  function WithdrawnFor(host: string, ingress: map<IngressKey, IngressInstance>, s: string, fwd: Option<Forwarder>)
    : map<IngressKey, IngressInstance>
  {
    if fwd.None? then ingress else ingress - {IngressKey(s, IPPort(host, fwd.value.port))}
  }

  // A service after the entries of an update, and after a reset has also
  // dropped what the update does not mention.
  function Told(u: ServiceUpdate, s: string, before: Option<Service>): Option<Service> {
    if s !in u.services then before
    else if u.services[s].Some? then Some(u.services[s].value.service)
    else None
  }

  function NextService(u: ServiceUpdate, s: string, before: Option<Service>): Option<Service> {
    Told(u, s, if u.reset then None else before)
  }

  // A record with what a service update says of it, and brought up to date.
  function Entered(u: ServiceUpdate, s: string, svc: ServiceState): ServiceState {
    svc.(service := Told(u, s, svc.service))
  }

  ghost function AfterServices(u: ServiceUpdate, s: string, svc: ServiceState, port: Option<int>): ServiceState {
    if s in u.services || u.reset then Brought(svc.(service := NextService(u, s, svc.service)), port) else svc
  }

  // A record with the instances that a reset gives it.
  function Holding(u: InstanceUpdate, s: string, svc: ServiceState): ServiceState {
    svc.(instances := Grouped(u.instances, s))
  }

  function Filled(svcs: map<string, map<string, IPPort>>, s: string, svc: ServiceState): ServiceState {
    svc.(instances := if s in svcs then svcs[s] else map[])
  }

  // A record with an entry of an instance update that withdraws an instance or
  // gives its address.
  function WithInstance(svc: ServiceState, n: string, inst: Option<Instance>): ServiceState
    requires Counts(inst)
  {
    svc.(instances := if inst.None? then svc.instances - {n} else svc.instances[n := inst.value.address.value])
  }

  // The entry is of that kind.
  predicate Counts(inst: Option<Instance>) {
    inst.None? || inst.value.address.Some?
  }

  // There is such an entry for a service.
  ghost predicate Concerns(u: InstanceUpdate, s: string) {
    exists k :: k in u.instances && k.service == s && Counts(u.instances[k])
  }

  // The record of s, having become svc, has been brought up to date, and nothing
  // else has changed.
  ghost predicate BroughtOne(before: map<string, ServiceState>, after: map<string, ServiceState>, ports: Ports,
                             tries: Tries, tries': Tries, s: string, svc: ServiceState)
  {
    && (forall t :: StateOf(after, t) == if t == s then Brought(svc, NextPort(ports, tries, s)) else StateOf(before, t))
    && tries' == NextTries(tries, s, Wants(svc))
  }

  // The records of done, having become what next says, have been.
  ghost predicate BroughtAll(before: map<string, ServiceState>, after: map<string, ServiceState>, ports: Ports,
                             tries: Tries, tries': Tries, done: set<string>, next: string -> ServiceState)
  {
    && (forall s :: StateOf(after, s) ==
          if s in done then Brought(next(s), NextPort(ports, tries, s)) else StateOf(before, s))
    && (forall s :: Tried(tries', s) == Tried(tries, s) + if s in done && Wants(next(s)) then 1 else 0)
  }

  lemma BroughtMore(before: map<string, ServiceState>, mid: map<string, ServiceState>,
                    after: map<string, ServiceState>, ports: Ports, tries: Tries, mid': Tries, tries': Tries,
                    done: set<string>, next: string -> ServiceState, s: string)
    requires BroughtAll(before, mid, ports, tries, mid', done, next) && s !in done
    requires BroughtOne(mid, after, ports, mid', tries', s, next(s))
    ensures BroughtAll(before, after, ports, tries, tries', done + {s}, next)
  {
    assert Tried(mid', s) == Tried(tries, s);
  }

  class ServerSide {
    const hostIP: string
    const ports: Ports
    var tries: Tries
    var services: map<string, ServiceState>
    var ingress: map<IngressKey, IngressInstance>  // the store's

    constructor (hostIP: string, ports: Ports, ingress: map<IngressKey, IngressInstance>)
      requires forall k :: k in ingress ==> k.address.ip != hostIP
      ensures this.hostIP == hostIP && this.ports == ports
      ensures services == map[] && tries == map[] && this.ingress == ingress
      ensures Inv()
    {
      this.hostIP, this.ports, services, tries, this.ingress := hostIP, ports, map[], map[], ingress;
    }

    ghost predicate SettledBut(s: string)
      reads this
    {
      && (forall t :: t in services && t != s ==> Settled(services[t], Refused(ports, tries, t)))
      && AdvertisedExactly(hostIP, services, ingress)
    }

    // Every service is settled, and this host's ingress entries are those of
    // the running forwarders.
    ghost predicate Inv()
      reads this
    {
      && (forall t :: t in services ==> Settled(services[t], Refused(ports, tries, t)))
      && AdvertisedExactly(hostIP, services, ingress)
    }

    // So there is an entry for a service exactly where its forwarder listens, by
    // the number of its instances.
    lemma EntriesAreForwarders(s: string, port: int)
      requires Inv()
      ensures var k := IngressKey(s, IPPort(hostIP, port));
              && (k in ingress <==>
                   s in services && services[s].forwarder.Some? && services[s].forwarder.value.port == port)
              && (k in ingress ==> ingress[k].weight == |services[s].instances|)
    {
      var k := IngressKey(s, IPPort(hostIP, port));
      assert Get(ingress, k) == Get(Advertised(hostIP, s, StateOf(services, s)), k);
    }

    // There is a forwarder if one is due, unless the latest attempt failed.
    lemma DueIsRunning(s: string)
      requires Inv() && s in services
      ensures var svc := services[s];
              && (svc.forwarder.Some? ==> svc.service.Some? && svc.instances != map[])
              && (svc.service.Some? && svc.instances != map[] && svc.forwarder.None? ==>
                   Tried(tries, s) > 0 && ports(s, Tried(tries, s) - 1) == None)
              && (svc.forwarder.Some? ==> svc.forwarder.value.pool.Keys == svc.instances.Keys)
    {
    }

    ghost predicate OthersIngressKept(before: map<IngressKey, IngressInstance>)
      reads this
    {
      forall k: IngressKey :: k.address.ip != hostIP ==> Get(ingress, k) == Get(before, k)
    }

    // updateService, on the record svc of service s; store calls succeed.
    method UpdateService(s: string, svc: ServiceState)
      requires SettledBut(s)
      requires svc.forwarder == StateOf(services, s).forwarder
      modifies this`services, this`ingress, this`tries
      ensures Inv() && OthersIngressKept(old(ingress))
      ensures SameBut(old(services), services, s)
      ensures StateOf(services, s) == Brought(svc, NextPort(ports, old(tries), s))
      ensures tries == NextTries(old(tries), s, Wants(svc))
      ensures s in services <==> svc.service.Some? || svc.instances != map[]
      ensures var fwd := StateOf(services, s).forwarder;
              && (fwd.Some? <==> svc.service.Some? && svc.instances != map[] &&
                                 (svc.forwarder.Some? || ports(s, Tried(old(tries), s)).Some?))
              && (fwd.Some? && svc.forwarder.None? ==>
                   fwd.value.pool == svc.instances && ports(s, Tried(old(tries), s)) == Some(fwd.value.port))
              && (fwd.Some? && svc.forwarder.Some? ==>
                   && fwd.value.port == svc.forwarder.value.port && fwd.value.pool.Keys == svc.instances.Keys
                   && forall i :: i in svc.instances ==>
                        fwd.value.pool[i] == if i in svc.forwarder.value.pool then svc.forwarder.value.pool[i]
                                             else svc.instances[i])
    {
      if svc.service != None && |svc.instances| != 0 {
        Forward(s, svc);
      } else {
        StopForwarding(s, svc);
      }
    }

    method Forward(s: string, svc: ServiceState)
      requires SettledBut(s) && Due(svc)
      requires svc.forwarder == StateOf(services, s).forwarder
      modifies this`services, this`ingress, this`tries
      ensures Inv() && OthersIngressKept(old(ingress))
      ensures SameBut(old(services), services, s) && s in services
      ensures services[s] == Brought(svc, NextPort(ports, old(tries), s))
      ensures tries == NextTries(old(tries), s, Wants(svc))
    {
      var fwd := svc.forwarder;
      if fwd == None {
        var port := ports(s, Tried(tries, s));
        tries := tries[s := Tried(tries, s) + 1];
        if port == None {
          GiveUp(s, svc);
          return;
        }
        assert Retained(map[], svc.instances) == svc.instances;
        fwd := Some(Forwarder(port.value, map[]));
      }
      Announce(s, svc, fwd.value);
    }

    // The forwarder, new or not, gets the instances and is advertised.
    method Announce(s: string, svc: ServiceState, fwd: Forwarder)
      requires SettledBut(s) && Due(svc)
      requires var was := StateOf(services, s).forwarder; was.Some? ==> was == Some(fwd)
      modifies this`services, this`ingress
      ensures Inv() && OthersIngressKept(old(ingress))
      ensures SameBut(old(services), services, s) && s in services
      ensures services[s] == svc.(forwarder := Some(Forwarder(fwd.port, Retained(fwd.pool, svc.instances))))
    {
      var svc' := svc.(forwarder := Some(Forwarder(fwd.port, Retained(fwd.pool, svc.instances))));
      Advertise(hostIP, services, ingress, s, svc');
      assert Settled(svc', false);
      services := services[s := svc'];
      AddIngressInstance(s, fwd.port, |svc.instances|);
    }

    method AddIngressInstance(s: string, port: int, weight: nat)
      modifies this`ingress
      ensures ingress == old(ingress)[IngressKey(s, IPPort(hostIP, port)) := IngressInstance(weight)]
      ensures OthersIngressKept(old(ingress))
    {
      ingress := ingress[IngressKey(s, IPPort(hostIP, port)) := IngressInstance(weight)];
    }

    // Making the forwarder has failed.
    method GiveUp(s: string, svc: ServiceState)
      requires SettledBut(s) && Wants(svc) && StateOf(services, s).forwarder.None? && Refused(ports, tries, s)
      modifies this`services
      ensures Inv() && SameBut(old(services), services, s) && services == old(services)[s := svc]
    {
      ghost var before := services;
      services := services[s := svc];
      Withdraw(hostIP, before, services, ingress, s);
    }

    method StopForwarding(s: string, svc: ServiceState)
      requires SettledBut(s) && (svc.service.None? || svc.instances == map[])
      requires svc.forwarder == StateOf(services, s).forwarder
      modifies this`services, this`ingress
      ensures Inv() && OthersIngressKept(old(ingress))
      ensures SameBut(old(services), services, s)
      ensures StateOf(services, s) == svc.(forwarder := None)
      ensures s in services <==> svc.service.Some? || svc.instances != map[]
    {
      ghost var before := services;
      if svc.service == None && |svc.instances| == 0 {
        services := services - {s};
      } else {
        services := services[s := svc.(forwarder := None)];
      }
      assert SameBut(before, services, s);
      StopAdvertising(before, s, svc.forwarder);
    }

    method StopAdvertising(ghost before: map<string, ServiceState>, s: string, fwd: Option<Forwarder>)
      requires AdvertisedExactly(hostIP, before, ingress) && fwd == StateOf(before, s).forwarder
      requires SameBut(before, services, s) && StateOf(services, s).forwarder.None?
      modifies this`ingress
      ensures AdvertisedExactly(hostIP, services, ingress) && OthersIngressKept(old(ingress))
    {
      Withdraw(hostIP, before, services, ingress, s);
      if fwd != None {
        ingress := ingress - {IngressKey(s, IPPort(hostIP, fwd.value.port))};
      }
    }

    // processServiceUpdate
    method ProcessServiceUpdate(u: ServiceUpdate)
      requires Inv()
      modifies this`services, this`ingress, this`tries
      ensures Inv() && OthersIngressKept(old(ingress))
      ensures forall s :: StateOf(services, s) ==
                AfterServices(u, s, StateOf(old(services), s), NextPort(ports, old(tries), s))
      ensures forall s :: Tried(tries, s) == Tried(old(tries), s) +
                if s in u.services && Wants(Entered(u, s, StateOf(old(services), s))) then 1 else 0
      ensures forall s :: StateOf(services, s).instances == StateOf(old(services), s).instances
      ensures forall s :: StateOf(services, s).service ==
                if s in u.services then (if u.services[s].Some? then Some(u.services[s].value.service) else None)
                else if u.reset then None else StateOf(old(services), s).service
    {
      ApplyServices(u);
    }

    method ApplyServices(u: ServiceUpdate)
      requires Inv()
      modifies this`services, this`ingress, this`tries
      ensures Inv() && OthersIngressKept(old(ingress))
      ensures forall s :: StateOf(services, s) ==
                AfterServices(u, s, StateOf(old(services), s), NextPort(ports, old(tries), s))
      ensures forall s :: Tried(tries, s) == Tried(old(tries), s) +
                if s in u.services && Wants(Entered(u, s, StateOf(old(services), s))) then 1 else 0
    {
      TellEntries(u);
      if u.reset {
        ForgetOthers(u);
      }
    }

    // The entries of an update, each for its service.
    method TellEntries(u: ServiceUpdate)
      requires Inv()
      modifies this`services, this`ingress, this`tries
      ensures Inv() && OthersIngressKept(old(ingress))
      ensures BroughtAll(old(services), services, ports, old(tries), tries, u.services.Keys,
                s => Entered(u, s, StateOf(old(services), s)))
    {
      var rest := u.services.Keys;
      ghost var before, tries0 := services, tries;
      ghost var next := s => Entered(u, s, StateOf(before, s));
      while rest != {}
        invariant Inv() && OthersIngressKept(old(ingress)) && rest <= u.services.Keys
        invariant BroughtAll(before, services, ports, tries0, tries, u.services.Keys - rest, next)
        decreases rest
      {
        var s :| s in rest;
        TellNext(u, s, before, tries0, u.services.Keys - rest, next);
        assert u.services.Keys - rest + {s} == u.services.Keys - (rest - {s});
        rest := rest - {s};
      }
    }

    method TellNext(u: ServiceUpdate, s: string, ghost before: map<string, ServiceState>, ghost tries0: Tries,
                    ghost done: set<string>, ghost next: string -> ServiceState)
      requires Inv() && s in u.services && s !in done
      requires BroughtAll(before, services, ports, tries0, tries, done, next)
      requires next(s) == Entered(u, s, StateOf(before, s))
      modifies this`services, this`ingress, this`tries
      ensures Inv() && OthersIngressKept(old(ingress))
      ensures BroughtAll(before, services, ports, tries0, tries, done + {s}, next)
    {
      ghost var mid, mid' := services, tries;
      SetService(s, if u.services[s].Some? then Some(u.services[s].value.service) else None);
      BroughtMore(before, mid, services, ports, tries0, mid', tries, done, next, s);
    }

    // Services that a reset does not give are forgotten.
    method ForgetOthers(u: ServiceUpdate)
      requires Inv()
      modifies this`services, this`ingress, this`tries
      ensures Inv() && OthersIngressKept(old(ingress)) && forall s :: Tried(tries, s) == Tried(old(tries), s)
      ensures forall s :: StateOf(services, s) ==
                if s in u.services && u.services[s].Some? then StateOf(old(services), s)
                else StateOf(old(services), s).(service := None, forwarder := None)
    {
      ghost var before := services;
      var rest := services.Keys;
      while rest != {}
        invariant Inv() && OthersIngressKept(old(ingress)) && forall s :: Tried(tries, s) == Tried(old(tries), s)
        invariant forall s :: StateOf(services, s) ==
                    if s in rest || (s in u.services && u.services[s].Some?) then StateOf(before, s)
                    else StateOf(before, s).(service := None, forwarder := None)
        decreases rest
      {
        var s :| s in rest;
        rest := rest - {s};
        if s !in u.services || u.services[s].None? {
          SetService(s, None);
        }
      }
    }

    // Set the service of a record and bring its forwarder up to date.
    method SetService(s: string, service: Option<Service>)
      requires Inv()
      modifies this`services, this`ingress, this`tries
      ensures Inv() && OthersIngressKept(old(ingress))
      ensures BroughtOne(old(services), services, ports, old(tries), tries, s,
                old(StateOf(services, s)).(service := service))
    {
      ghost var before := services;
      var svc := StateOf(services, s).(service := service);
      UpdateService(s, svc);
      OthersSame(before, services, s);
    }

    // Set the instances of a record and bring its forwarder up to date.
    method SetServiceInstances(s: string, instances: map<string, IPPort>)
      requires Inv()
      modifies this`services, this`ingress, this`tries
      ensures Inv() && OthersIngressKept(old(ingress))
      ensures BroughtOne(old(services), services, ports, old(tries), tries, s,
                old(StateOf(services, s)).(instances := instances))
    {
      ghost var before := services;
      var svc := StateOf(services, s).(instances := instances);
      UpdateService(s, svc);
      OthersSame(before, services, s);
    }

    // processInstanceReset; every entry must carry an instance, as the agent's
    // resets do.
    method ProcessInstanceReset(u: InstanceUpdate)
      requires Inv() && AllGiven(u.instances)
      modifies this`services, this`ingress, this`tries
      ensures Inv() && OthersIngressKept(old(ingress))
      ensures forall s :: StateOf(services, s) ==
                Brought(Holding(u, s, StateOf(old(services), s)), NextPort(ports, old(tries), s))
      ensures forall s :: Tried(tries, s) ==
                Tried(old(tries), s) + if Wants(Holding(u, s, StateOf(old(services), s))) then 1 else 0
      ensures forall s :: StateOf(services, s).service == StateOf(old(services), s).service
      ensures forall k: InstanceKey :: RecordedAt(services, k) ==
                if k in u.instances then u.instances[k].value.address else None
    {
      ResetRecords(u);
      assert forall s :: StateOf(services, s).instances == Grouped(u.instances, s);
      GroupedIsGiven(services, u);
    }

    method ResetRecords(u: InstanceUpdate)
      requires Inv() && AllGiven(u.instances)
      modifies this`services, this`ingress, this`tries
      ensures Inv() && OthersIngressKept(old(ingress))
      ensures forall s :: StateOf(services, s) ==
                Brought(Holding(u, s, StateOf(old(services), s)), NextPort(ports, old(tries), s))
      ensures forall s :: Tried(tries, s) ==
                Tried(old(tries), s) + if Wants(Holding(u, s, StateOf(old(services), s))) then 1 else 0
    {
      var svcs := GroupByService(u);
      FillServices(svcs);
      EmptyOthers(svcs);
    }

    // Services that a reset has addressed instances for get these.
    method FillServices(svcs: map<string, map<string, IPPort>>)
      requires Inv()
      modifies this`services, this`ingress, this`tries
      ensures Inv() && OthersIngressKept(old(ingress))
      ensures BroughtAll(old(services), services, ports, old(tries), tries, svcs.Keys,
                s => Filled(svcs, s, StateOf(old(services), s)))
    {
      var rest := svcs.Keys;
      ghost var before, tries0 := services, tries;
      ghost var next := s => Filled(svcs, s, StateOf(before, s));
      while rest != {}
        invariant Inv() && OthersIngressKept(old(ingress)) && rest <= svcs.Keys
        invariant BroughtAll(before, services, ports, tries0, tries, svcs.Keys - rest, next)
        decreases rest
      {
        var s :| s in rest;
        FillNext(svcs, s, before, tries0, svcs.Keys - rest, next);
        assert svcs.Keys - rest + {s} == svcs.Keys - (rest - {s});
        rest := rest - {s};
      }
    }

    method FillNext(svcs: map<string, map<string, IPPort>>, s: string, ghost before: map<string, ServiceState>,
                    ghost tries0: Tries, ghost done: set<string>, ghost next: string -> ServiceState)
      requires Inv() && s in svcs && s !in done
      requires BroughtAll(before, services, ports, tries0, tries, done, next)
      requires next(s) == Filled(svcs, s, StateOf(before, s))
      modifies this`services, this`ingress, this`tries
      ensures Inv() && OthersIngressKept(old(ingress))
      ensures BroughtAll(before, services, ports, tries0, tries, done + {s}, next)
    {
      ghost var mid, mid' := services, tries;
      SetServiceInstances(s, svcs[s]);
      BroughtMore(before, mid, services, ports, tries0, mid', tries, done, next, s);
    }

    // Services that a reset has no addressed instance for are left with none.
    method EmptyOthers(svcs: map<string, map<string, IPPort>>)
      requires Inv()
      modifies this`services, this`ingress, this`tries
      ensures Inv() && OthersIngressKept(old(ingress)) && forall s :: Tried(tries, s) == Tried(old(tries), s)
      ensures forall s :: StateOf(services, s) ==
                if s in svcs then StateOf(old(services), s)
                else StateOf(old(services), s).(instances := map[], forwarder := None)
    {
      ghost var before := services;
      var rest := services.Keys;
      while rest != {}
        invariant Inv() && OthersIngressKept(old(ingress)) && forall s :: Tried(tries, s) == Tried(old(tries), s)
        invariant forall s :: StateOf(services, s) ==
                    if s in svcs || s in rest then StateOf(before, s)
                    else StateOf(before, s).(instances := map[], forwarder := None)
        decreases rest
      {
        var s :| s in rest;
        rest := rest - {s};
        if s !in svcs {
          SetServiceInstances(s, map[]);
        }
      }
    }

    // The addressed entries of an update, by service.
    method GroupByService(u: InstanceUpdate) returns (svcs: map<string, map<string, IPPort>>)
      requires AllGiven(u.instances)
      ensures forall s :: Grouped(u.instances, s) == if s in svcs then svcs[s] else map[]
    {
      svcs := map[];
      var rest := u.instances.Keys;
      while rest != {}
        invariant rest <= u.instances.Keys
        invariant forall k: InstanceKey :: Filed(svcs, k) == if k in rest then None else AddressIn(u.instances, k)
        decreases rest
      {
        var k :| k in rest;
        rest := rest - {k};
        var inst := u.instances[k].value;
        if inst.address != None {
          svcs := File(svcs, k, inst.address.value);
        }
      }
      GroupedIsFiled(u, svcs);
    }

    // processInstanceUpdate; services that the update does not concern keep
    // their forwarders, or go on without.
    method ProcessInstanceUpdate(u: InstanceUpdate)
      requires Inv()
      modifies this`services, this`ingress, this`tries
      ensures Inv() && OthersIngressKept(old(ingress))
      ensures forall s :: StateOf(services, s).service == StateOf(old(services), s).service
      ensures forall k: InstanceKey :: RecordedAt(services, k) == Recorded(u.instances, k, RecordedAt(old(services), k))
      ensures forall s :: !Concerns(u, s) ==>
                StateOf(services, s) == StateOf(old(services), s) && Tried(tries, s) == Tried(old(tries), s)
    {
      ghost var before := services;
      var rest := u.instances.Keys;
      while rest != {}
        invariant Inv() && OthersIngressKept(old(ingress)) && rest <= u.instances.Keys
        invariant forall s :: StateOf(services, s).service == StateOf(before, s).service
        invariant forall k: InstanceKey :: RecordedAt(services, k) ==
                    if k in rest then RecordedAt(before, k) else Recorded(u.instances, k, RecordedAt(before, k))
        invariant forall s :: !Concerns(u, s) ==>
                    StateOf(services, s) == StateOf(before, s) && Tried(tries, s) == Tried(old(tries), s)
        decreases rest
      {
        var k :| k in rest;
        rest := rest - {k};
        RecordNext(u, k);
      }
    }

    method RecordNext(u: InstanceUpdate, k: InstanceKey)
      requires Inv() && k in u.instances
      modifies this`services, this`ingress, this`tries
      ensures Inv() && OthersIngressKept(old(ingress))
      ensures forall s :: StateOf(services, s).service == StateOf(old(services), s).service
      ensures forall j: InstanceKey :: RecordedAt(services, j) ==
                if j == k then Recorded(u.instances, k, RecordedAt(old(services), k))
                else RecordedAt(old(services), j)
      ensures forall s :: !Concerns(u, s) ==>
                StateOf(services, s) == StateOf(old(services), s) && Tried(tries, s) == Tried(old(tries), s)
    {
      RecordInstance(k, u.instances[k]);
      assert Counts(u.instances[k]) ==> Concerns(u, k.service);
    }

    // One entry; an announcement without address only sees to it that there is
    // a record.
    method RecordInstance(k: InstanceKey, inst: Option<Instance>)
      requires Inv()
      modifies this`services, this`ingress, this`tries
      ensures Inv() && OthersIngressKept(old(ingress))
      ensures !Counts(inst) ==>
                && services == (if k.service in old(services) then old(services) else old(services)[k.service := FRESH])
                && tries == old(tries)
      ensures Counts(inst) ==>
                BroughtOne(old(services), services, ports, old(tries), tries, k.service,
                  WithInstance(old(StateOf(services, k.service)), k.instance, inst))
      ensures forall j: InstanceKey :: RecordedAt(services, j) ==
                if j == k then Recorded(map[k := inst], k, RecordedAt(old(services), k))
                else RecordedAt(old(services), j)
    {
      GetService(k.service);
      var insts := services[k.service].instances;
      if inst == None {
        SetServiceInstances(k.service, insts - {k.instance});
      } else if inst.value.address != None {
        SetServiceInstances(k.service, insts[k.instance := inst.value.address.value]);
      }
    }

    // getService: the record is made on demand, and kept even if nothing is
    // recorded in it.
    method GetService(s: string)
      requires Inv()
      modifies this`services
      ensures Inv() && s in services
      ensures services == if s in old(services) then old(services) else old(services)[s := FRESH]
    {
      if s !in services {
        services := services[s := FRESH];
        assert forall t :: StateOf(services, t) == StateOf(old(services), t);
      }
    }
  }

  // A new server side is told of an instance, and then of it again without its
  // address, which stays recorded.
  method LoseAnAddress(hostIP: string, ports: Ports, k: InstanceKey, inst: Instance,
                       ghost copy: map<InstanceKey, Instance>)
    returns (ss: ServerSide)
    requires inst.address.Some?
    requires copy == Folded(Folded(map[], InstanceUpdate(map[k := Some(inst)], false)),
                            InstanceUpdate(map[k := Some(inst.(address := None))], false))
    ensures RecordedAt(ss.services, k) == inst.address && AddressOf(copy, k) == None
    ensures !Tracks(ss.services, copy)
  {
    ss := new ServerSide(hostIP, ports, map[]);
    var told := InstanceUpdate(map[k := Some(inst)], false);
    var again := InstanceUpdate(map[k := Some(inst.(address := None))], false);
    ss.ProcessInstanceUpdate(told);
    ghost var was := ss.services;
    assert RecordedAt(was, k) == inst.address;
    ss.ProcessInstanceUpdate(again);
    OverlayGet(Folded(map[], told), again.instances, k);
  }
}
