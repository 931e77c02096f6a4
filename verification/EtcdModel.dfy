// The etcd store's key tree and what its operations do to it
// (common/store/etcdstore/etcdstore.go).
module EtcdModel {
  import opened Prelude
  import opened StoreData

  // A value below a service: the path elements after the service root.
  datatype Ref<K> = Ref(service: string, name: K)

  // A value written by a session, and the index of that write.
  datatype Stamped<V> = Stamped(value: V, session: string, modified: nat)

  // The tree under /weave-flux/, by kind of key.  A service directory outlives
  // its last child; sessions are the unexpired session keys.
  datatype Etcd = Etcd(
    dirs: set<string>,
    specs: map<string, Service>,
    rules: map<Ref<string>, ContainerRule>,
    instances: map<Ref<string>, Stamped<Instance>>,
    ingress: map<Ref<IPPort>, Stamped<IngressInstance>>,
    hosts: map<string, Stamped<string>>,
    sessions: set<string>,
    index: nat)

  const EMPTY := Etcd({}, map[], map[], map[], map[], map[], {}, 0)

  function NamesUnder<K(==), V>(m: map<Ref<K>, V>, service: string): set<K> {
    set k | k in m && k.service == service :: k.name
  }

  function Under<K(==), V>(m: map<Ref<K>, V>, service: string): map<K, V> {
    map n | n in NamesUnder(m, service) && Ref(service, n) in m :: m[Ref(service, n)]
  }

  function LiveUnder<K(==), V>(m: map<Ref<K>, Stamped<V>>, sessions: set<string>, service: string): map<K, V> {
    map n | n in NamesUnder(m, service) && Ref(service, n) in m && m[Ref(service, n)].session in sessions ::
      m[Ref(service, n)].value
  }

  lemma UnderIsGet<K(!new), V(!new)>(m: map<Ref<K>, V>, s: string, n: K)
    ensures Get(Under(m, s), n) == Get(m, Ref(s, n))
  {
    assert Ref(s, n) in m ==> n in NamesUnder(m, s);
  }

  lemma LiveUnderIsGet<K(!new), V(!new)>(m: map<Ref<K>, Stamped<V>>, sessions: set<string>, s: string, n: K)
    ensures Get(LiveUnder(m, sessions, s), n) ==
            var v := Get(m, Ref(s, n)); if v.Some? && v.value.session in sessions then Some(v.value.value) else None
  {
    assert Ref(s, n) in m ==> n in NamesUnder(m, s);
  }

  // serviceInfoFromNode; the spec must be there.
  function InfoFrom(e: Etcd, s: string, opts: QueryServiceOptions): Option<ServiceInfo> {
    if s !in e.specs then None else
    Some(ServiceInfo(
      e.specs[s],
      if opts.withInstances then LiveUnder(e.instances, e.sessions, s) else map[],
      if opts.withContainerRules then Under(e.rules, s) else map[],
      if opts.withIngressInstances then LiveUnder(e.ingress, e.sessions, s) else map[]))
  }

  // GetService: an error without the directory or the spec.
  function GetService(e: Etcd, s: string, opts: QueryServiceOptions): Option<ServiceInfo> {
    if s in e.dirs then InfoFrom(e, s, opts) else None
  }

  // GetAllServices: an error if any service directory lacks its spec.
  function GetAllServices(e: Etcd, opts: QueryServiceOptions): Option<map<string, ServiceInfo>> {
    if e.dirs <= e.specs.Keys then
      Some(map s | s in e.dirs && s in e.specs :: InfoFrom(e, s, opts).value)
    else
      None
  }

  // GetHosts, by host name.
  function GetHosts(e: Etcd): map<string, string> {
    map h | h in e.hosts && e.hosts[h].session in e.sessions :: e.hosts[h].value
  }

  function Without<K(==), V>(m: map<Ref<K>, V>, service: string): map<Ref<K>, V> {
    map k | k in m && k.service != service :: m[k]
  }

  function Tick(e: Etcd): Etcd {
    e.(index := e.index + 1)
  }

  function AddService(e: Etcd, s: string, details: Service): Etcd {
    Tick(e).(dirs := e.dirs + {s}, specs := e.specs[s := details])
  }

  // A recursive delete; an error, without effect, if there is no such key.
  function RemoveService(e: Etcd, s: string): Etcd {
    if s !in e.dirs then e else
    Tick(e).(dirs := e.dirs - {s}, specs := e.specs - {s}, rules := Without(e.rules, s),
             instances := Without(e.instances, s), ingress := Without(e.ingress, s))
  }

  function RemoveAllServices(e: Etcd): Etcd {
    Tick(e).(dirs := {}, specs := map[], rules := map[], instances := map[], ingress := map[])
  }

  function SetContainerRule(e: Etcd, s: string, r: string, rule: ContainerRule): Etcd {
    Tick(e).(dirs := e.dirs + {s}, rules := e.rules[Ref(s, r) := rule])
  }

  function RemoveContainerRule(e: Etcd, s: string, r: string): Etcd {
    if Ref(s, r) in e.rules then Tick(e).(rules := e.rules - {Ref(s, r)}) else e
  }

  function AddInstance(e: Etcd, session: string, s: string, i: string, inst: Instance): Etcd {
    Tick(e).(dirs := e.dirs + {s}, instances := e.instances[Ref(s, i) := Stamped(inst, session, e.index + 1)])
  }

  function RemoveInstance(e: Etcd, s: string, i: string): Etcd {
    if Ref(s, i) in e.instances then Tick(e).(instances := e.instances - {Ref(s, i)}) else e
  }

  function AddIngressInstance(e: Etcd, session: string, s: string, a: IPPort, inst: IngressInstance): Etcd {
    Tick(e).(dirs := e.dirs + {s}, ingress := e.ingress[Ref(s, a) := Stamped(inst, session, e.index + 1)])
  }

  function RemoveIngressInstance(e: Etcd, s: string, a: IPPort): Etcd {
    if Ref(s, a) in e.ingress then Tick(e).(ingress := e.ingress - {Ref(s, a)}) else e
  }

  function RegisterHost(e: Etcd, session: string, h: string, ip: string): Etcd {
    Tick(e).(hosts := e.hosts[h := Stamped(ip, session, e.index + 1)])
  }

  function DeregisterHost(e: Etcd, h: string): Etcd {
    if h in e.hosts then Tick(e).(hosts := e.hosts - {h}) else e
  }

  function Heartbeat(e: Etcd, session: string): Etcd {
    Tick(e).(sessions := e.sessions + {session})
  }

  // EndSession, or the expiry of the session key.
  function EndSession(e: Etcd, session: string): Etcd {
    if session in e.sessions then Tick(e).(sessions := e.sessions - {session}) else e
  }
}
