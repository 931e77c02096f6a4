// The in-memory store (common/store/inmem/inmem.go).
module InMem {
  import opened Prelude
  import opened StoreData
  import M = InMemModel
  import opened Watch

  datatype HostChange = HostChange(name: string, departed: bool)

  // Each name of a set once, as a departure.
  ghost predicate DepartsEach(changes: seq<HostChange>, names: set<string>) {
    EachOnce(changes, set h | h in names :: HostChange(h, true))
  }

  lemma DepartsMore(changes: seq<HostChange>, names: set<string>, h: string)
    requires DepartsEach(changes, names) && h !in names
    ensures DepartsEach(changes + [HostChange(h, true)], names + {h})
  {
    var all := set n | n in names :: HostChange(n, true);
    OnceMore(changes, all, HostChange(h, true));
    assert all + {HostChange(h, true)} == set n | n in names + {h} :: HostChange(n, true);
  }

  // One service more in the loops of EndSession.
  lemma InstancesEndedMore(start: M.Mem, rest: set<string>, s: string, session: string, before: M.Mem, fs: seq<Fired>)
    requires Shaped(before) && s in rest && rest <= start.instances.Keys
    requires before == start.(instances := M.EndedBut(start.instances, rest, session)) && Reported(start, fs, before)
    ensures var left := M.Surviving(before.instances[s], session);
            var after := before.(instances := before.instances[s := left]);
            && after == start.(instances := M.EndedBut(start.instances, rest - {s}, session)) && Shaped(after)
            && (left == before.instances[s] ==> after == before)
            && Reported(start, fs + [Changed(s, WithInstances)], after)
  {
    var left := M.Surviving(before.instances[s], session);
    var after := before.(instances := before.instances[s := left]);
    M.EndOneMore(start.instances, rest, s, session);
    InstancesMutate(before, s, left);
    ReportMore(start, fs, before, Changed(s, WithInstances), after);
  }

  // The ingress loop, which goes on reporting what has changed since origin.
  lemma IngressEndedMore(origin: M.Mem, start: M.Mem, rest: set<string>, s: string, session: string, before: M.Mem,
                         fs: seq<Fired>)
    requires Shaped(before) && s in rest && rest <= start.ingress.Keys
    requires before == start.(ingress := M.EndedBut(start.ingress, rest, session)) && Reported(origin, fs, before)
    ensures var left := M.Surviving(before.ingress[s], session);
            var after := before.(ingress := before.ingress[s := left]);
            && after == start.(ingress := M.EndedBut(start.ingress, rest - {s}, session)) && Shaped(after)
            && (left == before.ingress[s] ==> after == before)
            && Reported(origin, fs + [Changed(s, WithIngress)], after)
  {
    var left := M.Surviving(before.ingress[s], session);
    var after := before.(ingress := before.ingress[s := left]);
    M.EndOneMore(start.ingress, rest, s, session);
    IngressMutate(before, s, left);
    ReportMore(origin, fs, before, Changed(s, WithIngress), after);
  }

  lemma RemovedNone(m: M.Mem)
    ensures M.RemoveServices(m, {}) == m
  {
  }

  // One service more in the loop of RemoveAllServices.
  lemma RemovedMore(start: M.Mem, done: set<string>, s: string, fs: seq<Fired>, before: M.Mem, after: M.Mem)
    requires before == M.RemoveServices(start, done) && Reported(start, fs, before)
    requires after == M.RemoveService(before, s) && Mutation(before, after, Fired(ServiceChange(s, true), Everyone))
    ensures after == M.RemoveServices(start, done + {s})
    ensures Reported(start, fs + [Fired(ServiceChange(s, true), Everyone)], after)
  {
    M.RemoveOneMore(start, done, s);
    ReportMore(start, fs, before, Fired(ServiceChange(s, true), Everyone), after);
  }

  class InMem {
    var services: map<string, Service>
    var groupSpecs: map<string, map<string, ContainerRule>>
    var instances: map<string, map<string, M.Owned<Instance>>>
    var ingressInstances: map<string, map<IPPort, M.Owned<IngressInstance>>>
    var hosts: map<string, M.Owned<string>>
    var heartbeats: map<string, nat>  // how often each session has been heard again
    var timers: set<string>           // sessions that are to expire
    var fired: seq<Fired>             // what watchers of services were offered
    var hostFired: seq<HostChange>    // what watchers of hosts were offered

    constructor ()
      ensures Valid() && State() == M.EMPTY && fired == [] && hostFired == []
      ensures heartbeats == map[] && timers == {}
    {
      services, groupSpecs, instances, ingressInstances, hosts := map[], map[], map[], map[], map[];
      heartbeats, timers, fired, hostFired := map[], {}, [], [];
    }

    ghost function State(): M.Mem
      reads this
    {
      M.Mem(services, groupSpecs, instances, ingressInstances, hosts)
    }

    ghost predicate Valid()
      reads this
    {
      Shaped(State())
    }

    method FireServiceChange(s: string, deleted: bool, filter: Filter)
      modifies this`fired
      ensures fired == old(fired) + [Fired(ServiceChange(s, deleted), filter)]
    {
      fired := fired + [Fired(ServiceChange(s, deleted), filter)];
    }

    // Give s these rules, and tell those who watch them.
    method SetRulesOf(s: string, values: map<string, ContainerRule>)
      requires Valid() && s in groupSpecs
      modifies this`groupSpecs, this`fired
      ensures Valid() && State() == old(State()).(rules := old(groupSpecs)[s := values])
      ensures fired == old(fired) + [Changed(s, WithRules)]
    {
      groupSpecs := groupSpecs[s := values];
      FireServiceChange(s, false, WithRules);
    }

    // Give s these instances, and tell those who watch them.
    method SetInstancesOf(s: string, values: map<string, M.Owned<Instance>>)
      requires Valid() && s in instances
      modifies this`instances, this`fired
      ensures Valid() && State() == old(State()).(instances := old(instances)[s := values])
      ensures fired == old(fired) + [Changed(s, WithInstances)]
    {
      instances := instances[s := values];
      FireServiceChange(s, false, WithInstances);
    }

    // Give s these ingress instances, and tell those who watch them.
    method SetIngressOf(s: string, values: map<IPPort, M.Owned<IngressInstance>>)
      requires Valid() && s in ingressInstances
      modifies this`ingressInstances, this`fired
      ensures Valid() && State() == old(State()).(ingress := old(ingressInstances)[s := values])
      ensures fired == old(fired) + [Changed(s, WithIngress)]
    {
      ingressInstances := ingressInstances[s := values];
      FireServiceChange(s, false, WithIngress);
    }

    method AddService(s: string, svc: Service)
      requires Valid()
      modifies this`services, this`groupSpecs, this`instances, this`ingressInstances, this`fired
      ensures Valid() && State() == M.AddService(old(State()), s, svc)
      ensures fired == old(fired) + [Changed(s, Everyone)]
      ensures Mutation(old(State()), State(), Changed(s, Everyone))
    {
      AddServiceMutates(State(), s, svc);
      services := services[s := svc];
      groupSpecs := groupSpecs[s := map[]];
      instances := instances[s := map[]];
      ingressInstances := ingressInstances[s := map[]];
      FireServiceChange(s, false, Everyone);
    }

    method RemoveService(s: string)
      requires Valid()
      modifies this`services, this`groupSpecs, this`instances, this`ingressInstances, this`fired
      ensures Valid() && State() == M.RemoveService(old(State()), s)
      ensures fired == old(fired) + [Fired(ServiceChange(s, true), Everyone)]
      ensures Mutation(old(State()), State(), Fired(ServiceChange(s, true), Everyone))
    {
      RemoveServiceMutates(State(), s);
      services := services - {s};
      groupSpecs := groupSpecs - {s};
      instances := instances - {s};
      ingressInstances := ingressInstances - {s};
      FireServiceChange(s, true, Everyone);
    }

    // The loop of RemoveAllServices: those of done are gone.
    ghost predicate ServicesRemoved(start: M.Mem, f0: seq<Fired>, done: set<string>, fs: seq<Fired>)
      reads this
    {
      && Valid() && State() == M.RemoveServices(start, done)
      && fired == f0 + fs && Reported(start, fs, State())
    }

    method RemoveNext(s: string, ghost start: M.Mem, ghost f0: seq<Fired>, ghost done: set<string>,
                      ghost fs0: seq<Fired>)
      returns (ghost fs: seq<Fired>)
      requires ServicesRemoved(start, f0, done, fs0)
      modifies this`services, this`groupSpecs, this`instances, this`ingressInstances, this`fired
      ensures ServicesRemoved(start, f0, done + {s}, fs)
    {
      ghost var before := State();
      RemoveService(s);
      RemovedMore(start, done, s, fs0, before, State());
      fs := fs0 + [Fired(ServiceChange(s, true), Everyone)];
    }

    // RemoveAllServices: one removal, and one report, per service.
    method RemoveAllServices() returns (ghost reported: seq<Fired>)
      requires Valid()
      modifies this`services, this`groupSpecs, this`instances, this`ingressInstances, this`fired
      ensures Valid() && State() == M.RemoveServices(old(State()), old(services).Keys)
      ensures fired == old(fired) + reported && Reported(old(State()), reported, State())
    {
      var rest := services.Keys;
      ghost var done: set<string> := {};
      reported := [];
      ReportNone(State());
      RemovedNone(State());
      while rest != {}
        invariant done + rest == old(services).Keys && ServicesRemoved(old(State()), old(fired), done, reported)
        decreases rest
      {
        var s :| s in rest;
        reported := RemoveNext(s, old(State()), old(fired), done, reported);
        done := done + {s};
        rest := rest - {s};
      }
      assert done == old(services).Keys;
    }

    method SetContainerRule(s: string, r: string, rule: ContainerRule) returns (found: bool)
      requires Valid()
      modifies this`groupSpecs, this`fired
      ensures Valid() && State() == M.SetContainerRule(old(State()), s, r, rule)
      ensures found <==> s in services
      ensures fired == old(fired) + if found then [Changed(s, WithRules)] else []
      ensures found ==> Mutation(old(State()), State(), Changed(s, WithRules))
    {
      found := s in groupSpecs;
      if found {
        RulesMutate(State(), s, groupSpecs[s][r := rule]);
        SetRulesOf(s, groupSpecs[s][r := rule]);
      }
    }

    method RemoveContainerRule(s: string, r: string) returns (found: bool)
      requires Valid()
      modifies this`groupSpecs, this`fired
      ensures Valid() && State() == M.RemoveContainerRule(old(State()), s, r)
      ensures found <==> s in services
      ensures fired == old(fired) + if found then [Changed(s, WithRules)] else []
      ensures found ==> Mutation(old(State()), State(), Changed(s, WithRules))
    {
      found := s in groupSpecs;
      if found {
        RulesMutate(State(), s, groupSpecs[s] - {r});
        SetRulesOf(s, groupSpecs[s] - {r});
      }
    }

    method AddInstance(session: string, s: string, i: string, inst: Instance) returns (panicked: bool)
      requires Valid()
      modifies this`instances, this`fired
      ensures Valid() && State() == M.AddInstance(old(State()), session, s, i, inst)
      ensures panicked <==> s !in services
      ensures fired == old(fired) + if panicked then [] else [Changed(s, WithInstances)]
      ensures !panicked ==> Mutation(old(State()), State(), Changed(s, WithInstances))
    {
      panicked := s !in instances;
      if !panicked {
        InstancesMutate(State(), s, instances[s][i := M.Owned(inst, session)]);
        SetInstancesOf(s, instances[s][i := M.Owned(inst, session)]);
      }
    }

    method RemoveInstance(s: string, i: string) returns (found: bool)
      requires Valid()
      modifies this`instances, this`fired
      ensures Valid() && State() == M.RemoveInstance(old(State()), s, i)
      ensures found <==> i in old(M.Sub(instances, s))
      ensures fired == old(fired) + if found then [Changed(s, WithInstances)] else []
      ensures found ==> Mutation(old(State()), State(), Changed(s, WithInstances))
    {
      found := s in instances && i in instances[s];
      if found {
        InstancesMutate(State(), s, instances[s] - {i});
        SetInstancesOf(s, instances[s] - {i});
      }
    }

    method AddIngressInstance(session: string, s: string, a: IPPort, ing: IngressInstance) returns (panicked: bool)
      requires Valid()
      modifies this`ingressInstances, this`fired
      ensures Valid() && State() == M.AddIngressInstance(old(State()), session, s, a, ing)
      ensures panicked <==> s !in services
      ensures fired == old(fired) + if panicked then [] else [Changed(s, WithIngress)]
      ensures !panicked ==> Mutation(old(State()), State(), Changed(s, WithIngress))
    {
      panicked := s !in ingressInstances;
      if !panicked {
        IngressMutate(State(), s, ingressInstances[s][a := M.Owned(ing, session)]);
        SetIngressOf(s, ingressInstances[s][a := M.Owned(ing, session)]);
      }
    }

    method RemoveIngressInstance(s: string, a: IPPort) returns (found: bool)
      requires Valid()
      modifies this`ingressInstances, this`fired
      ensures Valid() && State() == M.RemoveIngressInstance(old(State()), s, a)
      ensures found <==> a in old(M.Sub(ingressInstances, s))
      ensures fired == old(fired) + if found then [Changed(s, WithIngress)] else []
      ensures found ==> Mutation(old(State()), State(), Changed(s, WithIngress))
    {
      found := s in ingressInstances && a in ingressInstances[s];
      if found {
        IngressMutate(State(), s, ingressInstances[s] - {a});
        SetIngressOf(s, ingressInstances[s] - {a});
      }
    }

    method RegisterHost(session: string, h: string, ip: string)
      requires Valid()
      modifies this`hosts, this`hostFired
      ensures Valid() && State() == M.RegisterHost(old(State()), session, h, ip)
      ensures hostFired == old(hostFired) + [HostChange(h, false)]
    {
      hosts := hosts[h := M.Owned(ip, session)];
      hostFired := hostFired + [HostChange(h, false)];
    }

    // The departure is told of even if there was no such host.
    method DeregisterHost(h: string)
      requires Valid()
      modifies this`hosts, this`hostFired
      ensures Valid() && State() == M.DeregisterHost(old(State()), h)
      ensures hostFired == old(hostFired) + [HostChange(h, true)]
    {
      hosts := hosts - {h};
      hostFired := hostFired + [HostChange(h, true)];
    }

    // The session is to expire anew; the first heartbeat counts for nothing.
    method Heartbeat(session: string)
      requires Valid()
      modifies this`heartbeats, this`timers
      ensures heartbeats == old(heartbeats)[session :=
                if session in old(heartbeats) then old(heartbeats)[session] + 1 else 0]
      ensures timers == old(timers) + {session}
    {
      if session in heartbeats {
        heartbeats := heartbeats[session := heartbeats[session] + 1];
      } else {
        heartbeats := heartbeats[session := 0];
      }
      timers := timers + {session};
    }

    // The loop of EndSession over hosts: the session's go and are told of, each
    // once.
    method EndHosts(session: string) returns (ghost gone: seq<HostChange>)
      modifies this`hosts, this`hostFired
      ensures hosts == M.Surviving(old(hosts), session)
      ensures hostFired == old(hostFired) + gone && DepartsEach(gone, old(hosts).Keys - hosts.Keys)
    {
      var rest := hosts.Keys;
      gone := [];
      while rest != {}
        invariant rest <= old(hosts).Keys
        invariant hosts == map h | h in old(hosts) && (h in rest || old(hosts)[h].session != session) :: old(hosts)[h]
        invariant hostFired == old(hostFired) + gone && DepartsEach(gone, old(hosts).Keys - hosts.Keys)
        decreases rest
      {
        var h :| h in rest;
        rest := rest - {h};
        if hosts[h].session == session {
          DepartsMore(gone, old(hosts).Keys - hosts.Keys, h);
          assert old(hosts).Keys - hosts.Keys + {h} == old(hosts).Keys - (hosts - {h}).Keys;
          hosts := hosts - {h};
          hostFired := hostFired + [HostChange(h, true)];
          gone := gone + [HostChange(h, true)];
        }
      }
    }

    // Its loop over the values of one service.
    method EndValues<K, V>(values: map<K, M.Owned<V>>, session: string)
      returns (left: map<K, M.Owned<V>>, changed: bool)
      ensures left == M.Surviving(values, session)
      ensures changed <==> left != values
    {
      left, changed := values, false;
      var rest := values.Keys;
      while rest != {}
        invariant rest <= values.Keys
        invariant left == map k | k in values && (k in rest || values[k].session != session) :: values[k]
        invariant changed <==> left != values
        decreases rest
      {
        var k :| k in rest;
        rest := rest - {k};
        if left[k].session == session {
          left := left - {k};
          changed := true;
        }
      }
    }

    // The instances loop of EndSession: rest is still to do.
    ghost predicate InstancesEnded(start: M.Mem, f0: seq<Fired>, rest: set<string>, fs: seq<Fired>, session: string)
      reads this
    {
      && Valid() && rest <= start.instances.Keys
      && State() == start.(instances := M.EndedBut(start.instances, rest, session))
      && fired == f0 + fs && Reported(start, fs, State())
    }

    method EndInstancesOf(s: string, session: string, ghost start: M.Mem, ghost f0: seq<Fired>,
                          ghost rest: set<string>, ghost fs0: seq<Fired>)
      returns (ghost fs: seq<Fired>)
      requires InstancesEnded(start, f0, rest, fs0, session) && s in rest
      modifies this`instances, this`fired
      ensures InstancesEnded(start, f0, rest - {s}, fs, session)
    {
      ghost var before := State();
      var left, changed := EndValues(instances[s], session);
      InstancesEndedMore(start, rest, s, session, before, fs0);
      fs := fs0;
      assert left == M.Surviving(before.instances[s], session);
      if changed {
        SetInstancesOf(s, left);
        fs := fs0 + [Changed(s, WithInstances)];
      }
    }

    method EndInstances(session: string) returns (ghost fs: seq<Fired>)
      requires Valid()
      modifies this`instances, this`fired
      ensures InstancesEnded(old(State()), old(fired), {}, fs, session)
    {
      fs := [];
      var rest := instances.Keys;
      ReportNone(State());
      assert M.EndedBut(instances, rest, session) == instances;
      while rest != {}
        invariant InstancesEnded(old(State()), old(fired), rest, fs, session)
        decreases rest
      {
        var s :| s in rest;
        fs := EndInstancesOf(s, session, old(State()), old(fired), rest, fs);
        rest := rest - {s};
      }
    }

    // The ingress loop of EndSession: rest is still to do.
    ghost predicate IngressEnded(origin: M.Mem, f0: seq<Fired>, start: M.Mem, rest: set<string>, fs: seq<Fired>,
                                 session: string)
      reads this
    {
      && Valid() && rest <= start.ingress.Keys
      && State() == start.(ingress := M.EndedBut(start.ingress, rest, session))
      && fired == f0 + fs && Reported(origin, fs, State())
    }

    method EndIngressOf(s: string, session: string, ghost origin: M.Mem, ghost f0: seq<Fired>, ghost start: M.Mem,
                        ghost rest: set<string>, ghost fs0: seq<Fired>)
      returns (ghost fs: seq<Fired>)
      requires IngressEnded(origin, f0, start, rest, fs0, session) && s in rest
      modifies this`ingressInstances, this`fired
      ensures IngressEnded(origin, f0, start, rest - {s}, fs, session)
    {
      ghost var before := State();
      var left, changed := EndValues(ingressInstances[s], session);
      IngressEndedMore(origin, start, rest, s, session, before, fs0);
      fs := fs0;
      assert left == M.Surviving(before.ingress[s], session);
      if changed {
        SetIngressOf(s, left);
        fs := fs0 + [Changed(s, WithIngress)];
      }
    }

    method EndIngress(session: string, ghost origin: M.Mem, ghost f0: seq<Fired>, ghost fs0: seq<Fired>)
      returns (ghost fs: seq<Fired>)
      requires Valid() && fired == f0 + fs0 && Reported(origin, fs0, State())
      modifies this`ingressInstances, this`fired
      ensures IngressEnded(origin, f0, old(State()), {}, fs, session)
    {
      fs := fs0;
      var rest := ingressInstances.Keys;
      assert M.EndedBut(ingressInstances, rest, session) == ingressInstances;
      while rest != {}
        invariant IngressEnded(origin, f0, old(State()), rest, fs, session)
        decreases rest
      {
        var s :| s in rest;
        fs := EndIngressOf(s, session, origin, f0, old(State()), rest, fs);
        rest := rest - {s};
      }
    }

    method EndServiceValues(session: string) returns (ghost fs: seq<Fired>)
      requires Valid()
      modifies this`instances, this`ingressInstances, this`fired
      ensures Valid() && fired == old(fired) + fs && Reported(old(State()), fs, State())
      ensures State() == old(State()).(instances := M.EndedBut(old(instances), {}, session),
                                       ingress := M.EndedBut(old(ingressInstances), {}, session))
    {
      ghost var start, f0 := State(), fired;
      fs := EndInstances(session);
      fs := EndIngress(session, start, f0, fs);
    }

    // EndSession: whatever the session owns goes, every service that loses
    // something is reported, and so is every host that goes.
    method EndSession(session: string) returns (ghost fs: seq<Fired>, ghost gone: seq<HostChange>)
      requires Valid()
      modifies this`hosts, this`instances, this`ingressInstances, this`timers, this`fired, this`hostFired
      ensures Valid() && State() == M.EndSession(old(State()), session)
      ensures fired == old(fired) + fs && Reported(old(State()).(hosts := hosts), fs, State())
      ensures hostFired == old(hostFired) + gone && DepartsEach(gone, old(hosts).Keys - hosts.Keys)
      ensures timers == old(timers) - {session}
    {
      timers := timers - {session};
      gone := EndHosts(session);
      fs := EndServiceValues(session);
    }

    method CopyValues<K, V>(values: map<K, M.Owned<V>>) returns (copy: map<K, V>)
      ensures copy == M.Values(values)
    {
      copy := map[];
      var rest := values.Keys;
      while rest != {}
        invariant rest <= values.Keys
        invariant copy == map k | k in values && k !in rest :: values[k].value
        decreases rest
      {
        var k :| k in rest;
        copy := copy[k := values[k].value];
        rest := rest - {k};
      }
    }

    // makeServiceInfo
    method MakeServiceInfo(s: string, svc: Service, opts: QueryServiceOptions) returns (info: ServiceInfo)
      requires Valid()
      ensures info == M.MakeServiceInfo(State(), s, svc, opts)
    {
      info := ServiceInfo(svc, map[], map[], map[]);
      if opts.withInstances && s in instances {
        var copy := CopyValues(instances[s]);
        info := info.(instances := copy);
      }
      if opts.withContainerRules && s in groupSpecs {
        info := info.(containerRules := groupSpecs[s]);
      }
      if opts.withIngressInstances && s in ingressInstances {
        var copy := CopyValues(ingressInstances[s]);
        info := info.(ingressInstances := copy);
      }
    }

    method GetService(s: string, opts: QueryServiceOptions) returns (info: Option<ServiceInfo>)
      requires Valid()
      ensures info == M.GetService(State(), s, opts)
    {
      info := None;
      if s in services {
        var found := MakeServiceInfo(s, services[s], opts);
        info := Some(found);
      }
    }

    method GetAllServices(opts: QueryServiceOptions) returns (svcs: map<string, ServiceInfo>)
      requires Valid()
      ensures svcs == M.GetAllServices(State(), opts)
    {
      svcs := map[];
      var rest := services.Keys;
      while rest != {}
        invariant rest <= services.Keys
        invariant svcs == map s | s in services && s !in rest :: M.MakeServiceInfo(State(), s, services[s], opts)
        decreases rest
      {
        var s :| s in rest;
        var info := MakeServiceInfo(s, services[s], opts);
        svcs := svcs[s := info];
        rest := rest - {s};
      }
    }
  }
}
