// The etcd store, which filters values by live session when they are read, and
// the in-memory store, which deletes them when their session ends, answer
// queries alike.
module StoreEquivalence {
  import opened Prelude
  import opened StoreData
  import E = EtcdModel
  import M = InMemModel

  datatype Op =
    | AddService(s: string, details: Service)
    | RemoveService(s: string)
    | RemoveAllServices
    | SetContainerRule(s: string, r: string, rule: ContainerRule)
    | RemoveContainerRule(s: string, r: string)
    | AddInstance(session: string, s: string, i: string, inst: Instance)
    | RemoveInstance(s: string, i: string)
    | AddIngressInstance(session: string, s: string, a: IPPort, ing: IngressInstance)
    | RemoveIngressInstance(s: string, a: IPPort)
    | RegisterHost(session: string, h: string, ip: string)
    | DeregisterHost(h: string)
    | Heartbeat(session: string)
    | EndSession(session: string)

  function EtcdStep(e: E.Etcd, op: Op): E.Etcd {
    match op
    case AddService(s, details) => E.AddService(e, s, details)
    case RemoveService(s) => E.RemoveService(e, s)
    case RemoveAllServices => E.RemoveAllServices(e)
    case SetContainerRule(s, r, rule) => E.SetContainerRule(e, s, r, rule)
    case RemoveContainerRule(s, r) => E.RemoveContainerRule(e, s, r)
    case AddInstance(session, s, i, inst) => E.AddInstance(e, session, s, i, inst)
    case RemoveInstance(s, i) => E.RemoveInstance(e, s, i)
    case AddIngressInstance(session, s, a, ing) => E.AddIngressInstance(e, session, s, a, ing)
    case RemoveIngressInstance(s, a) => E.RemoveIngressInstance(e, s, a)
    case RegisterHost(session, h, ip) => E.RegisterHost(e, session, h, ip)
    case DeregisterHost(h) => E.DeregisterHost(e, h)
    case Heartbeat(session) => E.Heartbeat(e, session)
    case EndSession(session) => E.EndSession(e, session)
  }

  // A heartbeat leaves the contents of the in-memory store alone.
  function MemStep(m: M.Mem, op: Op): M.Mem {
    match op
    case AddService(s, details) => M.AddService(m, s, details)
    case RemoveService(s) => M.RemoveService(m, s)
    case RemoveAllServices => M.RemoveServices(m, m.services.Keys)
    case SetContainerRule(s, r, rule) => M.SetContainerRule(m, s, r, rule)
    case RemoveContainerRule(s, r) => M.RemoveContainerRule(m, s, r)
    case AddInstance(session, s, i, inst) => M.AddInstance(m, session, s, i, inst)
    case RemoveInstance(s, i) => M.RemoveInstance(m, s, i)
    case AddIngressInstance(session, s, a, ing) => M.AddIngressInstance(m, session, s, a, ing)
    case RemoveIngressInstance(s, a) => M.RemoveIngressInstance(m, s, a)
    case RegisterHost(session, h, ip) => M.RegisterHost(m, session, h, ip)
    case DeregisterHost(h) => M.DeregisterHost(m, h)
    case Heartbeat(session) => m
    case EndSession(session) => M.EndSession(m, session)
  }

  // Every query gives the same answer.
  ghost predicate Agree(e: E.Etcd, m: M.Mem) {
    && (forall opts :: E.GetAllServices(e, opts) == Some(M.GetAllServices(m, opts)))
    && (forall s, opts :: E.GetService(e, s, opts) == M.GetService(m, s, opts))
    && E.GetHosts(e) == M.GetHosts(m)
  }

  // No value in the tree was written by the session.
  ghost predicate Unused(e: E.Etcd, session: string) {
    && (forall k :: k in e.instances ==> e.instances[k].session != session)
    && (forall k :: k in e.ingress ==> e.ingress[k].session != session)
    && (forall h :: h in e.hosts ==> e.hosts[h].session != session)
  }

  // Services are added only when absent (or bare), only existing services are
  // touched, only live sessions write, and no ended session that has written
  // is revived.
  ghost predicate Safe(e: E.Etcd, op: Op) {
    match op
    case AddService(s, _) =>
      E.Under(e.rules, s) == map[] && E.LiveUnder(e.instances, e.sessions, s) == map[] &&
        E.LiveUnder(e.ingress, e.sessions, s) == map[]
    case SetContainerRule(s, _, _) => s in e.specs
    case AddInstance(session, s, _, _) => s in e.specs && session in e.sessions
    case AddIngressInstance(session, s, _, _) => s in e.specs && session in e.sessions
    case RegisterHost(session, _, _) => session in e.sessions
    case Heartbeat(session) => session in e.sessions || Unused(e, session)
    case _ => true
  }

  // A stamped map and a nested owned map hold the same live values.
  ghost predicate SameLive<K(!new), V(!new)>(sm: map<E.Ref<K>, E.Stamped<V>>, sessions: set<string>,
                             om: map<string, map<K, M.Owned<V>>>) {
    forall s, n {:trigger LiveOwned(sm, sessions, E.Ref(s, n))} ::
      LiveOwned(sm, sessions, E.Ref(s, n)) == Get(M.Sub(om, s), n)
  }

  function LiveOwned<K(==), V>(sm: map<K, E.Stamped<V>>, sessions: set<string>, k: K): Option<M.Owned<V>> {
    if k in sm && sm[k].session in sessions then Some(M.Owned(sm[k].value, sm[k].session)) else None
  }

  ghost predicate SameRules(er: map<E.Ref<string>, ContainerRule>, mr: map<string, map<string, ContainerRule>>) {
    forall s, r {:trigger Get(er, E.Ref(s, r))} :: Get(er, E.Ref(s, r)) == Get(M.Sub(mr, s), r)
  }

  ghost predicate SameHosts(eh: map<string, E.Stamped<string>>, sessions: set<string>,
                            mh: map<string, M.Owned<string>>) {
    forall h {:trigger LiveOwned(eh, sessions, h)} :: LiveOwned(eh, sessions, h) == Get(mh, h)
  }

  ghost predicate Within<K(!new), V(!new)>(m: map<E.Ref<K>, V>, services: set<string>) {
    forall k :: k in m ==> k.service in services
  }

  // Both stores hold the same services, and values only below them.
  ghost predicate SameShape(e: E.Etcd, m: M.Mem) {
    && e.dirs == e.specs.Keys
    && m.services == e.specs
    && m.rules.Keys == m.instances.Keys == m.ingress.Keys == e.specs.Keys
    && Within(e.rules, e.dirs) && Within(e.instances, e.dirs) && Within(e.ingress, e.dirs)
  }

  ghost predicate Related(e: E.Etcd, m: M.Mem) {
    && SameShape(e, m)
    && SameRules(e.rules, m.rules)
    && SameLive(e.instances, e.sessions, m.instances)
    && SameLive(e.ingress, e.sessions, m.ingress)
    && SameHosts(e.hosts, e.sessions, m.hosts)
  }

  lemma LiveUnderIsValues<K(!new), V(!new)>(sm: map<E.Ref<K>, E.Stamped<V>>, sessions: set<string>,
                            om: map<string, map<K, M.Owned<V>>>, s: string)
    requires SameLive(sm, sessions, om)
    ensures E.LiveUnder(sm, sessions, s) == M.Values(M.Sub(om, s))
  {
    var a, b := E.LiveUnder(sm, sessions, s), M.Values(M.Sub(om, s));
    forall n ensures Get(a, n) == Get(b, n) {
      assert LiveOwned(sm, sessions, E.Ref(s, n)) == Get(M.Sub(om, s), n);
    }
    SameMaps(a, b);
  }

  lemma RelatedInfo(e: E.Etcd, m: M.Mem, s: string, opts: QueryServiceOptions)
    requires Related(e, m) && s in e.specs
    ensures E.InfoFrom(e, s, opts) == Some(M.MakeServiceInfo(m, s, m.services[s], opts))
  {
    LiveUnderIsValues(e.instances, e.sessions, m.instances, s);
    LiveUnderIsValues(e.ingress, e.sessions, m.ingress, s);
    var a, b := E.Under(e.rules, s), M.Sub(m.rules, s);
    forall r ensures Get(a, r) == Get(b, r) {
      assert Get(e.rules, E.Ref(s, r)) == Get(M.Sub(m.rules, s), r);
    }
    SameMaps(a, b);
  }

  lemma RelatedAgree(e: E.Etcd, m: M.Mem)
    requires Related(e, m)
    ensures Agree(e, m)
  {
    forall opts ensures E.GetAllServices(e, opts) == Some(M.GetAllServices(m, opts)) {
      forall s | s in e.specs ensures E.InfoFrom(e, s, opts) == Some(M.MakeServiceInfo(m, s, m.services[s], opts)) {
        RelatedInfo(e, m, s, opts);
      }
      assert E.GetAllServices(e, opts).Some?;
      assert E.GetAllServices(e, opts).value == M.GetAllServices(m, opts);
    }
    forall s, opts ensures E.GetService(e, s, opts) == M.GetService(m, s, opts) {
      if s in e.specs {
        RelatedInfo(e, m, s, opts);
      }
    }
    var a, b := E.GetHosts(e), M.GetHosts(m);
    forall h ensures Get(a, h) == Get(b, h) {
      assert LiveOwned(e.hosts, e.sessions, h) == Get(m.hosts, h);
    }
    SameMaps(a, b);
  }

  lemma AddStaysWithin<K(!new), V(!new)>(m: map<E.Ref<K>, V>, services: set<string>, s: string, n: K, v: V)
    requires Within(m, services) && s in services
    ensures Within(m[E.Ref(s, n) := v], services)
  {
  }

  lemma DropStaysWithin<K(!new), V(!new)>(m: map<E.Ref<K>, V>, services: set<string>, s: string)
    requires Within(m, services)
    ensures Within(E.Without(m, s), services - {s})
  {
  }

  lemma AddKeepsLive<K(!new), V(!new)>(sm: map<E.Ref<K>, E.Stamped<V>>, sessions: set<string>,
      om: map<string, map<K, M.Owned<V>>>, s: string, n: K, v: V, session: string, index: nat)
    requires SameLive(sm, sessions, om) && s in om && session in sessions
    ensures SameLive(sm[E.Ref(s, n) := E.Stamped(v, session, index)], sessions,
              om[s := om[s][n := M.Owned(v, session)]])
  {
    var sm', om' := sm[E.Ref(s, n) := E.Stamped(v, session, index)], om[s := om[s][n := M.Owned(v, session)]];
    forall t, k ensures LiveOwned(sm', sessions, E.Ref(t, k)) == Get(M.Sub(om', t), k) {
      assert LiveOwned(sm, sessions, E.Ref(t, k)) == Get(M.Sub(om, t), k);
    }
  }

  lemma DeleteKeepsLive<K(!new), V(!new)>(sm: map<E.Ref<K>, E.Stamped<V>>, sessions: set<string>,
      om: map<string, map<K, M.Owned<V>>>, s: string, n: K)
    requires SameLive(sm, sessions, om)
    ensures SameLive(if E.Ref(s, n) in sm then sm - {E.Ref(s, n)} else sm, sessions,
                     if s in om && n in om[s] then om[s := om[s] - {n}] else om)
  {
    var sm' := if E.Ref(s, n) in sm then sm - {E.Ref(s, n)} else sm;
    var om' := if s in om && n in om[s] then om[s := om[s] - {n}] else om;
    forall t, k ensures LiveOwned(sm', sessions, E.Ref(t, k)) == Get(M.Sub(om', t), k) {
      assert LiveOwned(sm, sessions, E.Ref(t, k)) == Get(M.Sub(om, t), k);
      assert LiveOwned(sm, sessions, E.Ref(s, n)) == Get(M.Sub(om, s), n);
    }
  }

  lemma DropKeepsLive<K(!new), V(!new)>(sm: map<E.Ref<K>, E.Stamped<V>>, sessions: set<string>,
      om: map<string, map<K, M.Owned<V>>>, s: string)
    requires SameLive(sm, sessions, om)
    ensures SameLive(E.Without(sm, s), sessions, om - {s})
  {
    forall t, k ensures LiveOwned(E.Without(sm, s), sessions, E.Ref(t, k)) == Get(M.Sub(om - {s}, t), k) {
      assert LiveOwned(sm, sessions, E.Ref(t, k)) == Get(M.Sub(om, t), k);
    }
  }

  // Emptying a service that shows no live values changes nothing.
  lemma WipeKeepsLive<K(!new), V(!new)>(sm: map<E.Ref<K>, E.Stamped<V>>, sessions: set<string>,
      om: map<string, map<K, M.Owned<V>>>, s: string)
    requires SameLive(sm, sessions, om) && E.LiveUnder(sm, sessions, s) == map[]
    ensures SameLive(sm, sessions, om[s := map[]])
  {
    forall t, k ensures LiveOwned(sm, sessions, E.Ref(t, k)) == Get(M.Sub(om[s := map[]], t), k) {
      assert LiveOwned(sm, sessions, E.Ref(t, k)) == Get(M.Sub(om, t), k);
      assert t == s && E.Ref(t, k) in sm && sm[E.Ref(t, k)].session in sessions ==> k in E.LiveUnder(sm, sessions, s);
    }
  }

  lemma EndKeepsLive<K(!new), V(!new)>(sm: map<E.Ref<K>, E.Stamped<V>>, sessions: set<string>,
      om: map<string, map<K, M.Owned<V>>>, session: string)
    requires SameLive(sm, sessions, om)
    ensures SameLive(sm, sessions - {session}, M.EndedBut(om, {}, session))
  {
    var om' := M.EndedBut(om, {}, session);
    forall t, k ensures LiveOwned(sm, sessions - {session}, E.Ref(t, k)) == Get(M.Sub(om', t), k) {
      assert LiveOwned(sm, sessions, E.Ref(t, k)) == Get(M.Sub(om, t), k);
    }
  }

  lemma ReviveKeepsLive<K(!new), V(!new)>(sm: map<E.Ref<K>, E.Stamped<V>>, sessions: set<string>,
      om: map<string, map<K, M.Owned<V>>>, session: string)
    requires SameLive(sm, sessions, om)
    requires session in sessions || forall k :: k in sm ==> sm[k].session != session
    ensures SameLive(sm, sessions + {session}, om)
  {
    forall t, k ensures LiveOwned(sm, sessions + {session}, E.Ref(t, k)) == Get(M.Sub(om, t), k) {
      assert LiveOwned(sm, sessions, E.Ref(t, k)) == Get(M.Sub(om, t), k);
    }
  }

  lemma WipeKeepsRules(er: map<E.Ref<string>, ContainerRule>, mr: map<string, map<string, ContainerRule>>, s: string)
    requires SameRules(er, mr) && E.Under(er, s) == map[]
    ensures SameRules(er, mr[s := map[]])
  {
    forall t, q ensures Get(er, E.Ref(t, q)) == Get(M.Sub(mr[s := map[]], t), q) {
      assert Get(er, E.Ref(t, q)) == Get(M.Sub(mr, t), q);
      assert t == s && E.Ref(t, q) in er ==> q in E.Under(er, s);
    }
  }

  lemma DropKeepsRules(er: map<E.Ref<string>, ContainerRule>, mr: map<string, map<string, ContainerRule>>, s: string)
    requires SameRules(er, mr)
    ensures SameRules(E.Without(er, s), mr - {s})
  {
    forall t, q ensures Get(E.Without(er, s), E.Ref(t, q)) == Get(M.Sub(mr - {s}, t), q) {
      assert Get(er, E.Ref(t, q)) == Get(M.Sub(mr, t), q);
    }
  }

  lemma SetKeepsRules(er: map<E.Ref<string>, ContainerRule>, mr: map<string, map<string, ContainerRule>>,
                      s: string, r: string, rule: ContainerRule)
    requires SameRules(er, mr) && s in mr
    ensures SameRules(er[E.Ref(s, r) := rule], mr[s := mr[s][r := rule]])
  {
    var er', mr' := er[E.Ref(s, r) := rule], mr[s := mr[s][r := rule]];
    forall t, q ensures Get(er', E.Ref(t, q)) == Get(M.Sub(mr', t), q) {
      assert Get(er, E.Ref(t, q)) == Get(M.Sub(mr, t), q);
    }
  }

  lemma DeleteKeepsRules(er: map<E.Ref<string>, ContainerRule>, mr: map<string, map<string, ContainerRule>>, s: string,
                         r: string)
    requires SameRules(er, mr)
    ensures SameRules(if E.Ref(s, r) in er then er - {E.Ref(s, r)} else er,
                      if s in mr then mr[s := mr[s] - {r}] else mr)
  {
    var er' := if E.Ref(s, r) in er then er - {E.Ref(s, r)} else er;
    var mr' := if s in mr then mr[s := mr[s] - {r}] else mr;
    forall t, q ensures Get(er', E.Ref(t, q)) == Get(M.Sub(mr', t), q) {
      assert Get(er, E.Ref(t, q)) == Get(M.Sub(mr, t), q);
    }
  }

  lemma AddServiceShape(e: E.Etcd, m: M.Mem, s: string, details: Service)
    requires SameShape(e, m)
    ensures SameShape(E.AddService(e, s, details), M.AddService(m, s, details))
  {
  }

  lemma SafeAddService(e: E.Etcd, m: M.Mem, s: string, details: Service)
    requires Related(e, m) && Safe(e, AddService(s, details))
    ensures Related(E.AddService(e, s, details), M.AddService(m, s, details))
  {
    AddServiceShape(e, m, s, details);
    WipeKeepsLive(e.instances, e.sessions, m.instances, s);
    WipeKeepsLive(e.ingress, e.sessions, m.ingress, s);
    WipeKeepsRules(e.rules, m.rules, s);
  }

  lemma SafeRemoveService(e: E.Etcd, m: M.Mem, s: string)
    requires Related(e, m)
    ensures Related(E.RemoveService(e, s), M.RemoveService(m, s))
  {
    if s in e.dirs {
      DropKeepsLive(e.instances, e.sessions, m.instances, s);
      DropKeepsLive(e.ingress, e.sessions, m.ingress, s);
      DropKeepsRules(e.rules, m.rules, s);
      DropStaysWithin(e.rules, e.dirs, s);
      DropStaysWithin(e.instances, e.dirs, s);
      DropStaysWithin(e.ingress, e.dirs, s);
    } else {
      assert M.RemoveService(m, s) == m;
    }
  }

  lemma SafeRemoveAllServices(e: E.Etcd, m: M.Mem)
    requires Related(e, m)
    ensures Related(E.RemoveAllServices(e), M.RemoveServices(m, m.services.Keys))
  {
    var m' := M.RemoveServices(m, m.services.Keys);
    assert m' == M.Mem(map[], map[], map[], map[], m.hosts);
  }

  lemma SafeSetRule(e: E.Etcd, m: M.Mem, s: string, r: string, rule: ContainerRule)
    requires Related(e, m) && s in e.specs
    ensures Related(E.SetContainerRule(e, s, r, rule), M.SetContainerRule(m, s, r, rule))
  {
    SetKeepsRules(e.rules, m.rules, s, r, rule);
    assert e.dirs + {s} == e.dirs;
  }

  lemma SafeRemoveRule(e: E.Etcd, m: M.Mem, s: string, r: string)
    requires Related(e, m)
    ensures Related(E.RemoveContainerRule(e, s, r), M.RemoveContainerRule(m, s, r))
  {
    DeleteKeepsRules(e.rules, m.rules, s, r);
  }

  lemma AddInstanceShape(e: E.Etcd, m: M.Mem, session: string, s: string, i: string, inst: Instance)
    requires SameShape(e, m) && s in e.specs
    ensures SameShape(E.AddInstance(e, session, s, i, inst), M.AddInstance(m, session, s, i, inst))
  {
    AddStaysWithin(e.instances, e.dirs, s, i, E.Stamped(inst, session, e.index + 1));
    assert e.dirs + {s} == e.dirs;
  }

  lemma SafeAddInstance(e: E.Etcd, m: M.Mem, session: string, s: string, i: string, inst: Instance)
    requires Related(e, m) && s in e.specs && session in e.sessions
    ensures Related(E.AddInstance(e, session, s, i, inst), M.AddInstance(m, session, s, i, inst))
  {
    AddInstanceShape(e, m, session, s, i, inst);
    AddKeepsLive(e.instances, e.sessions, m.instances, s, i, inst, session, e.index + 1);
  }

  lemma SafeRemoveInstance(e: E.Etcd, m: M.Mem, s: string, i: string)
    requires Related(e, m)
    ensures Related(E.RemoveInstance(e, s, i), M.RemoveInstance(m, s, i))
  {
    DeleteKeepsLive(e.instances, e.sessions, m.instances, s, i);
  }

  lemma AddIngressShape(e: E.Etcd, m: M.Mem, session: string, s: string, a: IPPort, ing: IngressInstance)
    requires SameShape(e, m) && s in e.specs
    ensures SameShape(E.AddIngressInstance(e, session, s, a, ing), M.AddIngressInstance(m, session, s, a, ing))
  {
    AddStaysWithin(e.ingress, e.dirs, s, a, E.Stamped(ing, session, e.index + 1));
    assert e.dirs + {s} == e.dirs;
  }

  lemma SafeAddIngress(e: E.Etcd, m: M.Mem, session: string, s: string, a: IPPort, ing: IngressInstance)
    requires Related(e, m) && s in e.specs && session in e.sessions
    ensures Related(E.AddIngressInstance(e, session, s, a, ing), M.AddIngressInstance(m, session, s, a, ing))
  {
    AddIngressShape(e, m, session, s, a, ing);
    AddKeepsLive(e.ingress, e.sessions, m.ingress, s, a, ing, session, e.index + 1);
  }

  lemma SafeRemoveIngress(e: E.Etcd, m: M.Mem, s: string, a: IPPort)
    requires Related(e, m)
    ensures Related(E.RemoveIngressInstance(e, s, a), M.RemoveIngressInstance(m, s, a))
  {
    DeleteKeepsLive(e.ingress, e.sessions, m.ingress, s, a);
  }

  lemma SafeHostOps(e: E.Etcd, m: M.Mem, op: Op)
    requires Related(e, m) && Safe(e, op) && (op.RegisterHost? || op.DeregisterHost?)
    ensures Related(EtcdStep(e, op), MemStep(m, op))
  {
    SameHostsStay(e, m, op);
  }

  lemma SameHostsStay(e: E.Etcd, m: M.Mem, op: Op)
    requires SameHosts(e.hosts, e.sessions, m.hosts) && Safe(e, op) && (op.RegisterHost? || op.DeregisterHost?)
    ensures SameHosts(EtcdStep(e, op).hosts, e.sessions, MemStep(m, op).hosts)
  {
    var eh, mh := EtcdStep(e, op).hosts, MemStep(m, op).hosts;
    forall h ensures LiveOwned(eh, e.sessions, h) == Get(mh, h) {
      assert LiveOwned(e.hosts, e.sessions, h) == Get(m.hosts, h);
    }
  }

  lemma SafeHeartbeat(e: E.Etcd, m: M.Mem, session: string)
    requires Related(e, m) && Safe(e, Heartbeat(session))
    ensures Related(E.Heartbeat(e, session), m)
  {
    ReviveKeepsLive(e.instances, e.sessions, m.instances, session);
    ReviveKeepsLive(e.ingress, e.sessions, m.ingress, session);
    forall h ensures LiveOwned(e.hosts, e.sessions + {session}, h) == Get(m.hosts, h) {
      assert LiveOwned(e.hosts, e.sessions, h) == Get(m.hosts, h);
    }
    assert SameHosts(e.hosts, e.sessions + {session}, m.hosts);
  }

  lemma SafeEndSession(e: E.Etcd, m: M.Mem, session: string)
    requires Related(e, m)
    ensures Related(E.EndSession(e, session), M.EndSession(m, session))
  {
    EndKeepsLive(e.instances, e.sessions, m.instances, session);
    EndKeepsLive(e.ingress, e.sessions, m.ingress, session);
    forall h ensures LiveOwned(e.hosts, e.sessions - {session}, h) == Get(M.Surviving(m.hosts, session), h) {
      assert LiveOwned(e.hosts, e.sessions, h) == Get(m.hosts, h);
    }
    assert SameHosts(e.hosts, e.sessions - {session}, M.Surviving(m.hosts, session));
    assert E.EndSession(e, session).sessions == e.sessions - {session};
  }

  // Safe operations keep the two stores related.
  lemma SafeKeepsRelated(e: E.Etcd, m: M.Mem, op: Op)
    requires Related(e, m) && Safe(e, op)
    ensures Related(EtcdStep(e, op), MemStep(m, op))
  {
    match op {
      case AddService(s, details) => SafeAddService(e, m, s, details);
      case RemoveService(s) => SafeRemoveService(e, m, s);
      case RemoveAllServices => SafeRemoveAllServices(e, m);
      case SetContainerRule(s, r, rule) => SafeSetRule(e, m, s, r, rule);
      case RemoveContainerRule(s, r) => SafeRemoveRule(e, m, s, r);
      case AddInstance(session, s, i, inst) => SafeAddInstance(e, m, session, s, i, inst);
      case RemoveInstance(s, i) => SafeRemoveInstance(e, m, s, i);
      case AddIngressInstance(session, s, a, ing) => SafeAddIngress(e, m, session, s, a, ing);
      case RemoveIngressInstance(s, a) => SafeRemoveIngress(e, m, s, a);
      case RegisterHost(_, _, _) => SafeHostOps(e, m, op);
      case DeregisterHost(_) => SafeHostOps(e, m, op);
      case Heartbeat(session) => SafeHeartbeat(e, m, session);
      case EndSession(session) => SafeEndSession(e, m, session);
    }
  }

  const EVERYTHING := QueryServiceOptions(true, true, true)

  lemma OrphanBreaksAgreement(e: E.Etcd, m: M.Mem, s: string)
    requires s in e.dirs && s !in e.specs
    ensures !Agree(e, m)
  {
    assert E.GetAllServices(e, EVERYTHING) == None;
  }

  lemma ReAddBreaksAgreement(e: E.Etcd, m: M.Mem, s: string, details: Service)
    requires Related(e, m) && !Safe(e, AddService(s, details))
    ensures !Agree(E.AddService(e, s, details), M.AddService(m, s, details))
  {
    var e', m' := E.AddService(e, s, details), M.AddService(m, s, details);
    var ei, mi := E.GetService(e', s, EVERYTHING), M.GetService(m', s, EVERYTHING);
    assert mi == Some(ServiceInfo(details, map[], map[], map[]));
    assert ei.value.instances == E.LiveUnder(e.instances, e.sessions, s);
    assert ei.value.ingressInstances == E.LiveUnder(e.ingress, e.sessions, s);
    assert ei.value.containerRules == E.Under(e.rules, s);
  }

  lemma DeadWriteBreaksAgreement(e: E.Etcd, m: M.Mem, op: Op)
    requires Related(e, m) && !Safe(e, op)
    requires op.AddInstance? || op.AddIngressInstance? || op.RegisterHost?
    ensures !Agree(EtcdStep(e, op), MemStep(m, op))
  {
    var e', m' := EtcdStep(e, op), MemStep(m, op);
    if op.RegisterHost? {
      assert op.h in M.GetHosts(m') && op.h !in E.GetHosts(e');
    } else if op.s !in e.specs {
      OrphanBreaksAgreement(e', m', op.s);
    } else {
      var ei, mi := E.GetService(e', op.s, EVERYTHING).value, M.GetService(m', op.s, EVERYTHING).value;
      if op.AddInstance? {
        assert op.i in mi.instances && op.i !in ei.instances;
      } else {
        assert op.a in mi.ingressInstances && op.a !in ei.ingressInstances;
      }
    }
  }

  lemma ReviveBreaksAgreement(e: E.Etcd, m: M.Mem, session: string)
    requires Related(e, m) && session !in e.sessions && !Unused(e, session)
    ensures !Agree(E.Heartbeat(e, session), m)
  {
    var e' := E.Heartbeat(e, session);
    if k :| k in e.instances && e.instances[k].session == session {
      assert k == E.Ref(k.service, k.name);
      assert LiveOwned(e.instances, e.sessions, k) == Get(M.Sub(m.instances, k.service), k.name);
      assert k.name in E.LiveUnder(e'.instances, e'.sessions, k.service);
      assert k.name !in M.GetService(m, k.service, EVERYTHING).value.instances;
      assert k.name in E.GetService(e', k.service, EVERYTHING).value.instances;
    } else if k :| k in e.ingress && e.ingress[k].session == session {
      assert k == E.Ref(k.service, k.name);
      assert LiveOwned(e.ingress, e.sessions, k) == Get(M.Sub(m.ingress, k.service), k.name);
      assert k.name in E.LiveUnder(e'.ingress, e'.sessions, k.service);
      assert k.name !in M.GetService(m, k.service, EVERYTHING).value.ingressInstances;
      assert k.name in E.GetService(e', k.service, EVERYTHING).value.ingressInstances;
    } else {
      var h :| h in e.hosts && e.hosts[h].session == session;
      assert LiveOwned(e.hosts, e.sessions, h) == Get(m.hosts, h);
      assert h in E.GetHosts(e') && h !in M.GetHosts(m);
    }
  }

  // From related stores, an operation keeps all query results equal exactly
  // when it is safe.
  lemma AgreeIffSafe(e: E.Etcd, m: M.Mem, op: Op)
    requires Related(e, m)
    ensures Agree(EtcdStep(e, op), MemStep(m, op)) <==> Safe(e, op)
    ensures Safe(e, op) ==> Related(EtcdStep(e, op), MemStep(m, op))
  {
    if Safe(e, op) {
      SafeKeepsRelated(e, m, op);
      RelatedAgree(EtcdStep(e, op), MemStep(m, op));
    } else {
      match op {
        case AddService(s, details) => ReAddBreaksAgreement(e, m, s, details);
        case SetContainerRule(s, r, rule) => OrphanBreaksAgreement(EtcdStep(e, op), MemStep(m, op), s);
        case AddInstance(_, _, _, _) => DeadWriteBreaksAgreement(e, m, op);
        case AddIngressInstance(_, _, _, _) => DeadWriteBreaksAgreement(e, m, op);
        case RegisterHost(_, _, _) => DeadWriteBreaksAgreement(e, m, op);
        case Heartbeat(session) => ReviveBreaksAgreement(e, m, session);
      }
    }
  }

  function EtcdAfter(ops: seq<Op>): E.Etcd {
    if ops == [] then E.EMPTY else EtcdStep(EtcdAfter(ops[..|ops| - 1]), ops[|ops| - 1])
  }

  function MemAfter(ops: seq<Op>): M.Mem {
    if ops == [] then M.EMPTY else MemStep(MemAfter(ops[..|ops| - 1]), ops[|ops| - 1])
  }

  ghost predicate SafeAt(ops: seq<Op>, n: nat)
    requires n < |ops|
  {
    Safe(EtcdAfter(ops[..n]), ops[n])
  }

  ghost predicate AgreeAt(ops: seq<Op>, n: nat)
    requires n <= |ops|
  {
    Agree(EtcdAfter(ops[..n]), MemAfter(ops[..n]))
  }

  // Every operation of a history is safe when its turn comes.
  ghost predicate SafeHistory(ops: seq<Op>) {
    forall n :: 0 <= n < |ops| ==> SafeAt(ops, n)
  }

  ghost predicate RelatedAt(ops: seq<Op>, n: nat)
    requires n <= |ops|
  {
    Related(EtcdAfter(ops[..n]), MemAfter(ops[..n]))
  }

  lemma SafeKeepsRelatedAt(ops: seq<Op>, n: nat)
    requires n < |ops| && RelatedAt(ops, n) && SafeAt(ops, n)
    ensures RelatedAt(ops, n + 1)
  {
    assert ops[..n + 1][..n] == ops[..n];
    SafeKeepsRelated(EtcdAfter(ops[..n]), MemAfter(ops[..n]), ops[n]);
  }

  lemma {:induction false} SafePrefixRelated(ops: seq<Op>, n: nat)
    requires n <= |ops| && forall k :: 0 <= k < n ==> SafeAt(ops, k)
    ensures RelatedAt(ops, n)
  {
    if n > 0 {
      SafePrefixRelated(ops, n - 1);
      SafeKeepsRelatedAt(ops, n - 1);
    }
  }

  lemma FirstUnsafeBreaksAgreement(ops: seq<Op>, n: nat)
    requires n < |ops| && !SafeAt(ops, n) && forall k :: 0 <= k < n ==> SafeAt(ops, k)
    ensures !AgreeAt(ops, n + 1)
  {
    SafePrefixRelated(ops, n);
    AgreeIffSafe(EtcdAfter(ops[..n]), MemAfter(ops[..n]), ops[n]);
    assert ops[..n + 1][..n] == ops[..n];
  }

  // The trees that a history goes through.
  ghost predicate Through(ops: seq<Op>, es: seq<E.Etcd>) {
    && 0 < |es| <= |ops| && es[0] == E.EMPTY
    && (forall n: nat, k {:trigger es[n], es[k]} :: k == n + 1 && k < |es| ==> es[k] == EtcdStep(es[n], ops[n]))
  }

  lemma {:induction false} ThroughIsAfter(ops: seq<Op>, es: seq<E.Etcd>, n: nat)
    requires Through(ops, es) && n < |es|
    ensures EtcdAfter(ops[..n]) == es[n]
  {
    if n > 0 {
      ThroughIsAfter(ops, es, n - 1);
      assert ops[..n][..n - 1] == ops[..n - 1];
      assert es[n] == EtcdStep(es[n - 1], ops[n - 1]);
    }
  }

  // A history whose last operation alone is unsafe.
  lemma LastDisagrees(ops: seq<Op>, es: seq<E.Etcd>)
    requires Through(ops, es) && |es| == |ops|
    requires forall n :: 0 <= n < |ops| - 1 ==> Safe(es[n], ops[n])
    requires !Safe(es[|ops| - 1], ops[|ops| - 1])
    ensures forall n :: 0 <= n < |ops| ==> AgreeAt(ops, n)
    ensures !AgreeAt(ops, |ops|)
  {
    forall n | 0 <= n < |ops| ensures SafeAt(ops, n) <==> n < |ops| - 1 {
      ThroughIsAfter(ops, es, n);
    }
    forall n | 0 <= n < |ops| ensures AgreeAt(ops, n) {
      SafePrefixRelated(ops, n);
      RelatedAgree(EtcdAfter(ops[..n]), MemAfter(ops[..n]));
    }
    FirstUnsafeBreaksAgreement(ops, |ops| - 1);
  }

  // A service is added, given a rule, and added again: only then the stores
  // disagree.
  lemma AddedTwice(s: string, a: Service, b: Service, r: string, rule: ContainerRule)
    ensures var ops := [AddService(s, a), SetContainerRule(s, r, rule), AddService(s, b)];
            AgreeAt(ops, 2) && !AgreeAt(ops, 3)
  {
    var ops := [AddService(s, a), SetContainerRule(s, r, rule), AddService(s, b)];
    var e1 := E.AddService(E.EMPTY, s, a);
    var e2 := E.SetContainerRule(e1, s, r, rule);
    RuleIsUnder(e1, s, r, rule);
    NothingUnderEmpty(s);
    LastDisagrees(ops, [E.EMPTY, e1, e2]);
  }

  lemma RuleIsUnder(e: E.Etcd, s: string, r: string, rule: ContainerRule)
    ensures r in E.Under(E.SetContainerRule(e, s, r, rule).rules, s)
  {
    assert E.Ref(s, r) in E.SetContainerRule(e, s, r, rule).rules;
  }

  lemma NothingUnderEmpty(s: string)
    ensures forall details :: Safe(E.EMPTY, AddService(s, details))
  {
  }

  // A session registers a host, ends, and is heard of again.
  lemma HeardAgain(x: string, h: string, ip: string)
    ensures var ops := [Heartbeat(x), RegisterHost(x, h, ip), EndSession(x), Heartbeat(x)];
            AgreeAt(ops, 3) && !AgreeAt(ops, 4)
  {
    var e1 := E.Heartbeat(E.EMPTY, x);
    var e2 := E.RegisterHost(e1, x, h, ip);
    var e3 := E.EndSession(e2, x);
    assert h in e3.hosts && e3.hosts[h].session == x && x !in e3.sessions;
    LastDisagrees([Heartbeat(x), RegisterHost(x, h, ip), EndSession(x), Heartbeat(x)], [E.EMPTY, e1, e2, e3]);
  }

  lemma {:induction false} FirstFalse(flags: seq<bool>) returns (n: nat)
    requires false in flags
    ensures n < |flags| && !flags[n] && forall k :: 0 <= k < n ==> flags[k]
  {
    if !flags[0] {
      n := 0;
    } else {
      n := FirstFalse(flags[1..]);
      n := n + 1;
      assert forall k :: 0 < k < n ==> flags[k] == flags[1..][k - 1];
    }
  }

  lemma UnsafeHistoryDisagrees(ops: seq<Op>)
    requires !SafeHistory(ops)
    ensures exists n :: 0 <= n <= |ops| && !AgreeAt(ops, n)
  {
    var flags := seq(|ops|, n requires 0 <= n < |ops| => SafeAt(ops, n));
    var m :| 0 <= m < |ops| && !SafeAt(ops, m);
    assert !flags[m];
    var n := FirstFalse(flags);
    forall k | 0 <= k < n ensures SafeAt(ops, k) {
      assert flags[k];
    }
    FirstUnsafeBreaksAgreement(ops, n);
  }

  lemma SafePrefixAgrees(ops: seq<Op>, n: nat)
    requires n <= |ops| && SafeHistory(ops)
    ensures AgreeAt(ops, n)
  {
    SafePrefixRelated(ops, n);
    RelatedAgree(EtcdAfter(ops[..n]), MemAfter(ops[..n]));
  }

  // Two stores that start empty answer every query alike after every prefix of
  // a history exactly when the whole history is safe.
  lemma HistoriesAgreeIffSafe(ops: seq<Op>)
    ensures (forall n :: 0 <= n <= |ops| ==> AgreeAt(ops, n)) <==> SafeHistory(ops)
  {
    if SafeHistory(ops) {
      forall n | 0 <= n <= |ops| ensures AgreeAt(ops, n) {
        SafePrefixAgrees(ops, n);
      }
    } else {
      UnsafeHistoryDisagrees(ops);
    }
  }
}
