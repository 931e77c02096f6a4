// What is written to a store is what is read from it: how every operation changes
// the answers of queries, for both stores.
module StoreReads {
  import opened Prelude
  import opened StoreData
  import E = EtcdModel
  import M = InMemModel
  import opened StoreEquivalence
  import Watch

  // --- etcd ---

  // There is an answer for a service exactly if it has a directory and a spec,
  // with the parts that are asked for; a value shows exactly if its session is
  // live.
  lemma EtcdAnswer(e: E.Etcd, s: string, opts: QueryServiceOptions)
    ensures var info := E.GetService(e, s, opts);
            && (info.Some? <==> s in e.dirs && s in e.specs)
            && (info.Some? ==>
                 && info.value.service == e.specs[s]
                 && (forall i :: Get(info.value.instances, i) ==
                      if opts.withInstances && E.Ref(s, i) in e.instances &&
                         e.instances[E.Ref(s, i)].session in e.sessions
                      then Some(e.instances[E.Ref(s, i)].value) else None)
                 && (forall r :: Get(info.value.containerRules, r) ==
                      if opts.withContainerRules then Get(e.rules, E.Ref(s, r)) else None)
                 && (forall a :: Get(info.value.ingressInstances, a) ==
                      if opts.withIngressInstances && E.Ref(s, a) in e.ingress &&
                         e.ingress[E.Ref(s, a)].session in e.sessions
                      then Some(e.ingress[E.Ref(s, a)].value) else None))
  {
    if s in e.dirs && s in e.specs {
      if opts.withInstances {
        forall i ensures Get(E.LiveUnder(e.instances, e.sessions, s), i) ==
            (var v := Get(e.instances, E.Ref(s, i));
             if v.Some? && v.value.session in e.sessions then Some(v.value.value) else None) {
          E.LiveUnderIsGet(e.instances, e.sessions, s, i);
        }
      }
      if opts.withContainerRules {
        forall r ensures Get(E.Under(e.rules, s), r) == Get(e.rules, E.Ref(s, r)) {
          E.UnderIsGet(e.rules, s, r);
        }
      }
      if opts.withIngressInstances {
        forall a ensures Get(E.LiveUnder(e.ingress, e.sessions, s), a) ==
            (var v := Get(e.ingress, E.Ref(s, a));
             if v.Some? && v.value.session in e.sessions then Some(v.value.value) else None) {
          E.LiveUnderIsGet(e.ingress, e.sessions, s, a);
        }
      }
    }
  }

  // The listing has every service's answer, unless a directory has no spec.
  lemma EtcdListing(e: E.Etcd, opts: QueryServiceOptions)
    ensures E.GetAllServices(e, opts).None? <==> exists s :: s in e.dirs && s !in e.specs
    ensures E.GetAllServices(e, opts).Some? ==>
              forall s :: Get(E.GetAllServices(e, opts).value, s) == E.GetService(e, s, opts)
  {
  }

  // Services come, with a directory each, and go with all that is below them.
  lemma EtcdServices(e: E.Etcd, op: Op, s: string)
    ensures var e' := EtcdStep(e, op);
            && (s in e'.specs <==>
                 (op.AddService? && op.s == s)
                 || (s in e.specs && !op.RemoveAllServices? && !(op.RemoveService? && op.s == s && s in e.dirs)))
            && (s in e'.specs ==> e'.specs[s] == if op.AddService? && op.s == s then op.details else e.specs[s])
            && (s in e'.dirs <==>
                 (op.AddService? && op.s == s)
                 || (op.SetContainerRule? && op.s == s) || (op.AddInstance? && op.s == s)
                 || (op.AddIngressInstance? && op.s == s)
                 || (s in e.dirs && !op.RemoveAllServices? && !(op.RemoveService? && op.s == s)))
  {
  }

  // An operation takes away all values below s.
  predicate Clears(e: E.Etcd, op: Op, s: string) {
    op.RemoveAllServices? || (op.RemoveService? && op.s == s && s in e.dirs)
  }

  // Rules and values are what was last written at their keys.
  lemma EtcdRules(e: E.Etcd, op: Op, s: string, r: string)
    ensures Get(EtcdStep(e, op).rules, E.Ref(s, r)) ==
            if Clears(e, op, s) then None
            else if op.SetContainerRule? && op.s == s && op.r == r then Some(op.rule)
            else if op.RemoveContainerRule? && op.s == s && op.r == r then None
            else Get(e.rules, E.Ref(s, r))
  {
  }

  lemma EtcdInstances(e: E.Etcd, op: Op, s: string, i: string)
    ensures var v := Get(EtcdStep(e, op).instances, E.Ref(s, i));
            if Clears(e, op, s) then v == None
            else if op.AddInstance? && op.s == s && op.i == i then
              v.Some? && v.value.value == op.inst && v.value.session == op.session
            else if op.RemoveInstance? && op.s == s && op.i == i then v == None
            else v == Get(e.instances, E.Ref(s, i))
  {
  }

  lemma EtcdIngress(e: E.Etcd, op: Op, s: string, a: IPPort)
    ensures var v := Get(EtcdStep(e, op).ingress, E.Ref(s, a));
            if Clears(e, op, s) then v == None
            else if op.AddIngressInstance? && op.s == s && op.a == a then
              v.Some? && v.value.value == op.ing && v.value.session == op.session
            else if op.RemoveIngressInstance? && op.s == s && op.a == a then v == None
            else v == Get(e.ingress, E.Ref(s, a))
  {
  }

  // A session is live from a heartbeat to its end.
  lemma EtcdSessions(e: E.Etcd, op: Op, session: string)
    ensures session in EtcdStep(e, op).sessions <==>
            (op.Heartbeat? && op.session == session)
            || (session in e.sessions && !(op.EndSession? && op.session == session))
  {
  }

  // A host is listed, once registered, while its session is live.
  lemma EtcdHosts(e: E.Etcd, op: Op, h: string)
    ensures Get(E.GetHosts(e), h) ==
            if h in e.hosts && e.hosts[h].session in e.sessions then Some(e.hosts[h].value) else None
    ensures var v := Get(EtcdStep(e, op).hosts, h);
            if op.RegisterHost? && op.h == h then v.Some? && v.value.value == op.ip && v.value.session == op.session
            else if op.DeregisterHost? && op.h == h then v == None
            else v == Get(e.hosts, h)
  {
  }

  // --- in memory ---

  lemma MemAnswer(m: M.Mem, s: string, opts: QueryServiceOptions)
    ensures var info := M.GetService(m, s, opts);
            && (info.Some? <==> s in m.services)
            && (info.Some? ==>
                 && info.value.service == m.services[s]
                 && (forall i :: Get(info.value.instances, i) ==
                      if opts.withInstances && s in m.instances && i in m.instances[s]
                      then Some(m.instances[s][i].value) else None)
                 && (forall r :: Get(info.value.containerRules, r) ==
                      if opts.withContainerRules && s in m.rules then Get(m.rules[s], r) else None)
                 && (forall a :: Get(info.value.ingressInstances, a) ==
                      if opts.withIngressInstances && s in m.ingress && a in m.ingress[s]
                      then Some(m.ingress[s][a].value) else None))
  {
  }

  lemma MemListing(m: M.Mem, opts: QueryServiceOptions, s: string)
    ensures Get(M.GetAllServices(m, opts), s) == M.GetService(m, s, opts)
  {
  }

  lemma MemServices(m: M.Mem, op: Op, s: string)
    ensures Get(MemStep(m, op).services, s) ==
            if op.AddService? && op.s == s then Some(op.details)
            else if op.RemoveAllServices? || (op.RemoveService? && op.s == s) then None
            else Get(m.services, s)
  {
  }

  // An operation leaves no value below s; adding a service starts it afresh.
  predicate Wipes(op: Op, s: string) {
    op.RemoveAllServices? || ((op.RemoveService? || op.AddService?) && op.s == s)
  }

  // Every service has its sub-maps, always.
  lemma MemStaysShaped(m: M.Mem, op: Op)
    requires Watch.Shaped(m)
    ensures Watch.Shaped(MemStep(m, op))
  {
  }

  lemma MemRules(m: M.Mem, op: Op, s: string, r: string)
    requires Watch.Shaped(m)
    ensures Get(M.Sub(MemStep(m, op).rules, s), r) ==
            if Wipes(op, s) then None
            else if op.SetContainerRule? && op.s == s && op.r == r && s in m.services then Some(op.rule)
            else if op.RemoveContainerRule? && op.s == s && op.r == r then None
            else Get(M.Sub(m.rules, s), r)
  {
    match op {
      case SetContainerRule(_, _, _) =>
      case RemoveContainerRule(_, _) =>
      case _ =>
    }
  }

  lemma EndedAt<K(!new), V(!new)>(m: map<string, map<K, M.Owned<V>>>, session: string, s: string, k: K)
    ensures Get(M.Sub(M.EndedBut(m, {}, session), s), k) ==
            var was := Get(M.Sub(m, s), k); if was.Some? && was.value.session == session then None else was
  {
  }

  lemma MemInstances(m: M.Mem, op: Op, s: string, i: string)
    requires Watch.Shaped(m)
    ensures Get(M.Sub(MemStep(m, op).instances, s), i) ==
            var was := Get(M.Sub(m.instances, s), i);
            if Wipes(op, s) then None
            else if op.AddInstance? && op.s == s && op.i == i && s in m.services then Some(M.Owned(op.inst, op.session))
            else if op.RemoveInstance? && op.s == s && op.i == i then None
            else if op.EndSession? && was.Some? && was.value.session == op.session then None
            else was
  {
    if op.EndSession? {
      EndedAt(m.instances, op.session, s, i);
    }
  }

  lemma MemIngress(m: M.Mem, op: Op, s: string, a: IPPort)
    requires Watch.Shaped(m)
    ensures Get(M.Sub(MemStep(m, op).ingress, s), a) ==
            var was := Get(M.Sub(m.ingress, s), a);
            if Wipes(op, s) then None
            else if op.AddIngressInstance? && op.s == s && op.a == a && s in m.services
            then Some(M.Owned(op.ing, op.session))
            else if op.RemoveIngressInstance? && op.s == s && op.a == a then None
            else if op.EndSession? && was.Some? && was.value.session == op.session then None
            else was
  {
    if op.EndSession? {
      EndedAt(m.ingress, op.session, s, a);
    }
  }

  lemma MemHosts(m: M.Mem, op: Op, h: string)
    ensures Get(M.GetHosts(m), h) == if h in m.hosts then Some(m.hosts[h].value) else None
    ensures Get(MemStep(m, op).hosts, h) ==
            var was := Get(m.hosts, h);
            if op.RegisterHost? && op.h == h then Some(M.Owned(op.ip, op.session))
            else if op.DeregisterHost? && op.h == h then None
            else if op.EndSession? && was.Some? && was.value.session == op.session then None
            else was
  {
  }
}
