// Queries of the etcd store: the loops that build service infos from the key
// tree (common/store/etcdstore/etcdstore.go).
module EtcdStore {
  import opened Prelude
  import opened StoreData
  import E = EtcdModel

  // The instance and ingress loops of serviceInfoFromNode.
  method CollectLive<K(==), V>(values: map<E.Ref<K>, E.Stamped<V>>, sessions: set<string>, s: string)
    returns (live: map<K, V>)
    ensures live == E.LiveUnder(values, sessions, s)
  {
    live := map[];
    var names := E.NamesUnder(values, s);
    var rest := names;
    while rest != {}
      invariant rest <= names
      invariant live == map n | n in names && n !in rest && E.Ref(s, n) in values &&
                values[E.Ref(s, n)].session in sessions ::
                  values[E.Ref(s, n)].value
      decreases rest
    {
      var n :| n in rest;
      rest := rest - {n};
      var k :| k in values && k.service == s && k.name == n;
      assert k == E.Ref(s, n);
      if values[k].session in sessions {
        live := live[n := values[k].value];
      }
    }
  }

  // serviceInfoFromNode
  method ServiceInfoFromNode(e: E.Etcd, s: string, opts: QueryServiceOptions) returns (info: Option<ServiceInfo>)
    ensures info == E.InfoFrom(e, s, opts)
  {
    if s !in e.specs {
      return None;
    }
    var svc := ServiceInfo(e.specs[s], map[], map[], map[]);
    if opts.withInstances {
      var live := CollectLive(e.instances, e.sessions, s);
      svc := svc.(instances := live);
    }
    if opts.withContainerRules {
      svc := svc.(containerRules := E.Under(e.rules, s));
    }
    if opts.withIngressInstances {
      var live := CollectLive(e.ingress, e.sessions, s);
      svc := svc.(ingressInstances := live);
    }
    info := Some(svc);
  }

  // GetAllServices: the first directory without a spec is an error.
  method GetAllServices(e: E.Etcd, opts: QueryServiceOptions) returns (svcs: Option<map<string, ServiceInfo>>)
    ensures svcs == E.GetAllServices(e, opts)
  {
    var found: map<string, ServiceInfo> := map[];
    var rest := e.dirs;
    while rest != {}
      invariant rest <= e.dirs && e.dirs - rest <= e.specs.Keys
      invariant found == map s | s in e.dirs && s !in rest && s in e.specs :: E.InfoFrom(e, s, opts).value
      decreases rest
    {
      var s :| s in rest;
      var info := ServiceInfoFromNode(e, s, opts);
      if info.None? {
        return None;
      }
      found := found[s := info.value];
      rest := rest - {s};
    }
    assert found == E.GetAllServices(e, opts).value;
    svcs := Some(found);
  }
}
