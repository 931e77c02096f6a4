// The state of the in-memory store and what its operations make of it
// (common/store/inmem/inmem.go).
module InMemModel {
  import opened Prelude
  import opened StoreData

  // A value that goes away with its session.
  datatype Owned<V> = Owned(value: V, session: string)

  datatype Mem = Mem(
    services: map<string, Service>,
    rules: map<string, map<string, ContainerRule>>,
    instances: map<string, map<string, Owned<Instance>>>,
    ingress: map<string, map<IPPort, Owned<IngressInstance>>>,
    hosts: map<string, Owned<string>>)

  const EMPTY := Mem(map[], map[], map[], map[], map[])

  function Values<K, V>(m: map<K, Owned<V>>): map<K, V> {
    map k | k in m :: m[k].value
  }

  // What is left of a map when a session ends.
  function Surviving<K, V>(m: map<K, Owned<V>>, session: string): map<K, Owned<V>> {
    map k | k in m && m[k].session != session :: m[k]
  }

  // A session's end halfway: the services in rest still have its values.
  function EndedBut<K, V>(m: map<string, map<K, Owned<V>>>, rest: set<string>, session: string)
    : map<string, map<K, Owned<V>>>
  {
    map s | s in m :: if s in rest then m[s] else Surviving(m[s], session)
  }

  lemma EndOneMore<K, V>(m: map<string, map<K, Owned<V>>>, rest: set<string>, s: string, session: string)
    requires s in rest && s in m
    ensures EndedBut(m, rest, session)[s := Surviving(m[s], session)] == EndedBut(m, rest - {s}, session)
  {
  }

  // The sub-map of a service; indexing a Go map without the key gives nil.
  function Sub<K, V>(m: map<string, map<K, V>>, s: string): map<K, V> {
    if s in m then m[s] else map[]
  }

  function MakeServiceInfo(m: Mem, s: string, svc: Service, opts: QueryServiceOptions): ServiceInfo {
    ServiceInfo(
      svc,
      if opts.withInstances then Values(Sub(m.instances, s)) else map[],
      if opts.withContainerRules then Sub(m.rules, s) else map[],
      if opts.withIngressInstances then Values(Sub(m.ingress, s)) else map[])
  }

  function GetService(m: Mem, s: string, opts: QueryServiceOptions): Option<ServiceInfo> {
    if s in m.services then Some(MakeServiceInfo(m, s, m.services[s], opts)) else None
  }

  function GetAllServices(m: Mem, opts: QueryServiceOptions): map<string, ServiceInfo> {
    map s | s in m.services :: MakeServiceInfo(m, s, m.services[s], opts)
  }

  function GetHosts(m: Mem): map<string, string> {
    Values(m.hosts)
  }

  // AddService starts the service afresh, also when it was there before.
  function AddService(m: Mem, s: string, details: Service): Mem {
    Mem(m.services[s := details], m.rules[s := map[]], m.instances[s := map[]], m.ingress[s := map[]], m.hosts)
  }

  function RemoveService(m: Mem, s: string): Mem {
    Mem(m.services - {s}, m.rules - {s}, m.instances - {s}, m.ingress - {s}, m.hosts)
  }

  function RemoveServices(m: Mem, ss: set<string>): Mem {
    Mem(m.services - ss, m.rules - ss, m.instances - ss, m.ingress - ss, m.hosts)
  }

  function SetContainerRule(m: Mem, s: string, r: string, rule: ContainerRule): Mem {
    if s in m.rules then m.(rules := m.rules[s := m.rules[s][r := rule]]) else m
  }

  function RemoveContainerRule(m: Mem, s: string, r: string): Mem {
    if s in m.rules then m.(rules := m.rules[s := m.rules[s] - {r}]) else m
  }

  // Assigning into a missing sub-map panics: no effect.
  function AddInstance(m: Mem, session: string, s: string, i: string, inst: Instance): Mem {
    if s in m.instances then m.(instances := m.instances[s := m.instances[s][i := Owned(inst, session)]]) else m
  }

  function RemoveInstance(m: Mem, s: string, i: string): Mem {
    if s in m.instances && i in m.instances[s] then m.(instances := m.instances[s := m.instances[s] - {i}]) else m
  }

  function AddIngressInstance(m: Mem, session: string, s: string, a: IPPort, inst: IngressInstance): Mem {
    if s in m.ingress then m.(ingress := m.ingress[s := m.ingress[s][a := Owned(inst, session)]]) else m
  }

  function RemoveIngressInstance(m: Mem, s: string, a: IPPort): Mem {
    if s in m.ingress && a in m.ingress[s] then m.(ingress := m.ingress[s := m.ingress[s] - {a}]) else m
  }

  function RegisterHost(m: Mem, session: string, h: string, ip: string): Mem {
    m.(hosts := m.hosts[h := Owned(ip, session)])
  }

  function DeregisterHost(m: Mem, h: string): Mem {
    m.(hosts := m.hosts - {h})
  }

  function EndSession(m: Mem, session: string): Mem {
    m.(hosts := Surviving(m.hosts, session),
       instances := EndedBut(m.instances, {}, session),
       ingress := EndedBut(m.ingress, {}, session))
  }

  lemma RemoveOneMore(m: Mem, ss: set<string>, s: string)
    ensures RemoveService(RemoveServices(m, ss), s) == RemoveServices(m, ss + {s})
  {
    assert m.services - ss - {s} == m.services - (ss + {s});
    assert m.rules - ss - {s} == m.rules - (ss + {s});
    assert m.instances - ss - {s} == m.instances - (ss + {s});
    assert m.ingress - ss - {s} == m.ingress - (ss + {s});
  }
}
