// How the etcd store turns the event log of the key tree into service changes
// (WatchServices in common/store/etcdstore/etcdstore.go).
module EtcdWatch {
  import opened Prelude
  import opened StoreData
  import opened Keys
  import E = EtcdModel
  import M = InMemModel
  import opened StoreEquivalence
  import Watch

  datatype Action = Set | DeleteKey

  // An etcd watch response; the node's key has no trailing slash.
  datatype Response = Response(action: Action, key: string)

  // relevantTo, for the three kinds of value keys.
  function RelevantTo(k: Parsed, opts: QueryServiceOptions): Option<string> {
    match k
    case ParsedRule(s, _) => if opts.withContainerRules then Some(s) else None
    case ParsedInstance(s, _) => if opts.withInstances then Some(s) else None
    case ParsedIngress(s, _) => if opts.withIngressInstances then Some(s) else None
    case _ => None
  }

  // Each name of a set once, as a deletion.
  ghost predicate DeletesEach(changes: seq<ServiceChange>, names: set<string>) {
    EachOnce(changes, set s | s in names :: ServiceChange(s, true))
  }

  lemma DeletesMore(changes: seq<ServiceChange>, names: set<string>, s: string)
    requires DeletesEach(changes, names) && s !in names
    ensures DeletesEach(changes + [ServiceChange(s, true)], names + {s})
  {
    var all := set n | n in names :: ServiceChange(n, true);
    OnceMore(changes, all, ServiceChange(s, true));
    assert all + {ServiceChange(s, true)} == set n | n in names + {s} :: ServiceChange(n, true);
  }

  class EtcdWatcher {
    const opts: QueryServiceOptions
    var svcs: set<string>
    var sent: seq<ServiceChange>

    constructor (opts: QueryServiceOptions, listed: set<string>)
      ensures this.opts == opts && svcs == listed && sent == []
    {
      this.opts, svcs, sent := opts, listed, [];
    }

    method HandleResponse(r: Response) returns (ghost changes: seq<ServiceChange>)
      modifies this
      ensures sent == old(sent) + changes
      ensures r.action.DeleteKey? && ParseKey(r.key).ParsedRoot? ==> DeletesEach(changes, old(svcs)) && svcs == {}
      ensures r.action.DeleteKey? && ParseKey(r.key).ParsedServiceRoot? ==>
                var s := ParseKey(r.key).service;
                changes == [ServiceChange(s, true)] && svcs == old(svcs) - {s}
      ensures r.action.Set? && ParseKey(r.key).ParsedService? ==>
                var s := ParseKey(r.key).service;
                changes == [ServiceChange(s, false)] && svcs == old(svcs) + {s}
      ensures ParseKey(r.key).ParsedRule? || ParseKey(r.key).ParsedInstance? || ParseKey(r.key).ParsedIngress? ==>
                var relevant := RelevantTo(ParseKey(r.key), opts);
                changes == (if relevant.Some? then [ServiceChange(relevant.value, false)] else []) && svcs == old(svcs)
      ensures ParseKey(r.key).Unrecognised? || (r.action.DeleteKey? && ParseKey(r.key).ParsedService?)
              || (r.action.Set? && (ParseKey(r.key).ParsedRoot? || ParseKey(r.key).ParsedServiceRoot?)) ==>
                changes == [] && svcs == old(svcs)
    {
      changes := [];
      var key := ParseKey(r.key);
      match r.action {
        case DeleteKey =>
          if key.ParsedRoot? {
            changes := DeleteAll();
          } else if key.ParsedServiceRoot? {
            svcs := svcs - {key.service};
            changes := [ServiceChange(key.service, true)];
            sent := sent + [ServiceChange(key.service, true)];
          } else if RelevantTo(key, opts).Some? {
            changes := [ServiceChange(RelevantTo(key, opts).value, false)];
            sent := sent + [ServiceChange(RelevantTo(key, opts).value, false)];
          }
        case Set =>
          if key.ParsedService? {
            svcs := svcs + {key.service};
            changes := [ServiceChange(key.service, false)];
            sent := sent + [ServiceChange(key.service, false)];
          } else if RelevantTo(key, opts).Some? {
            changes := [ServiceChange(RelevantTo(key, opts).value, false)];
            sent := sent + [ServiceChange(RelevantTo(key, opts).value, false)];
          }
      }
    }

    // The deletion of the root.
    method DeleteAll() returns (ghost changes: seq<ServiceChange>)
      modifies this
      ensures DeletesEach(changes, old(svcs)) && svcs == {}
      ensures sent == old(sent) + changes
    {
      changes := [];
      var rest := svcs;
      while rest != {}
        invariant rest <= svcs == old(svcs)
        invariant DeletesEach(changes, svcs - rest)
        invariant sent == old(sent) + changes
        decreases rest
      {
        var s :| s in rest;
        DeletesMore(changes, svcs - rest, s);
        assert svcs - rest + {s} == svcs - (rest - {s});
        sent := sent + [ServiceChange(s, true)];
        changes := changes + [ServiceChange(s, true)];
        rest := rest - {s};
      }
      svcs := {};
    }
  }

  // The tree event that an operation on an existing key, or a set, leads to;
  // sessions and hosts live elsewhere in the tree.  An address is formatted by
  // the given function.
  function EventOf(e: E.Etcd, op: Op, show: IPPort -> string): Option<Response> {
    match op
    case AddService(s, _) => Some(Response(Set, ServiceKey(s)))
    case RemoveService(s) => if s in e.dirs then Some(Response(DeleteKey, ServiceRootKey(s))) else None
    case RemoveAllServices => Some(Response(DeleteKey, SERVICE_ROOT[..|SERVICE_ROOT| - 1]))
    case SetContainerRule(s, r, _) => Some(Response(Set, RuleKey(s, r)))
    case RemoveContainerRule(s, r) => if E.Ref(s, r) in e.rules then Some(Response(DeleteKey, RuleKey(s, r))) else None
    case AddInstance(_, s, i, _) => Some(Response(Set, Keys.InstanceKey(s, i)))
    case RemoveInstance(s, i) =>
      if E.Ref(s, i) in e.instances then Some(Response(DeleteKey, Keys.InstanceKey(s, i))) else None
    case AddIngressInstance(_, s, a, _) => Some(Response(Set, IngressInstanceKey(s, show(a))))
    case RemoveIngressInstance(s, a) =>
      if E.Ref(s, a) in e.ingress then Some(Response(DeleteKey, IngressInstanceKey(s, show(a)))) else None
    case _ => None
  }

  // Names as the store's users choose them.
  ghost predicate ProperNames(op: Op, show: IPPort -> string) {
    match op
    case AddService(s, _) => s != "" && SlashFree(s)
    case RemoveService(s) => s != "" && SlashFree(s)
    case SetContainerRule(s, r, _) => s != "" && SlashFree(s) && SlashFree(r)
    case RemoveContainerRule(s, r) => s != "" && SlashFree(s) && SlashFree(r)
    case AddInstance(_, s, i, _) => s != "" && SlashFree(s) && SlashFree(i)
    case RemoveInstance(s, i) => s != "" && SlashFree(s) && SlashFree(i)
    case AddIngressInstance(_, s, a, _) => s != "" && SlashFree(s) && SlashFree(show(a))
    case RemoveIngressInstance(s, a) => s != "" && SlashFree(s) && SlashFree(show(a))
    case _ => true
  }

  // What the event of an operation parses to.
  function KindOf(op: Op, show: IPPort -> string): Parsed {
    match op
    case AddService(s, _) => ParsedService(s)
    case RemoveService(s) => ParsedServiceRoot(s)
    case SetContainerRule(s, r, _) => ParsedRule(s, r)
    case RemoveContainerRule(s, r) => ParsedRule(s, r)
    case AddInstance(_, s, i, _) => ParsedInstance(s, i)
    case RemoveInstance(s, i) => ParsedInstance(s, i)
    case AddIngressInstance(_, s, a, _) => ParsedIngress(s, show(a))
    case RemoveIngressInstance(s, a) => ParsedIngress(s, show(a))
    case _ => ParsedRoot
  }

  lemma EventsParse(e: E.Etcd, op: Op, show: IPPort -> string)
    requires ProperNames(op, show) && EventOf(e, op, show).Some?
    ensures ParseKey(EventOf(e, op, show).value.key) == KindOf(op, show)
  {
    match op {
      case AddService(s, _) => ServiceKeyRoundTrip(s);
      case RemoveService(s) => ServiceRootKeyRoundTrip(s);
      case SetContainerRule(s, r, _) => RuleKeyRoundTrip(s, r);
      case RemoveContainerRule(s, r) => RuleKeyRoundTrip(s, r);
      case AddInstance(_, s, i, _) => InstanceKeyRoundTrip(s, i);
      case RemoveInstance(s, i) => InstanceKeyRoundTrip(s, i);
      case AddIngressInstance(_, s, a, _) => IngressInstanceKeyRoundTrip(s, show(a));
      case RemoveIngressInstance(s, a) => IngressInstanceKeyRoundTrip(s, show(a));
      case _ =>
    }
  }

  // What the in-memory store fires for an operation on one service.
  function FiredBy(op: Op): Watch.Fired
    requires op.AddService? || op.RemoveService? || op.SetContainerRule? || op.RemoveContainerRule? || op.AddInstance?
          || op.RemoveInstance? || op.AddIngressInstance? || op.RemoveIngressInstance?
  {
    match op
    case AddService(s, _) => Watch.Changed(s, Watch.Everyone)
    case RemoveService(s) => Watch.Fired(ServiceChange(s, true), Watch.Everyone)
    case SetContainerRule(s, _, _) => Watch.Changed(s, Watch.WithRules)
    case RemoveContainerRule(s, _) => Watch.Changed(s, Watch.WithRules)
    case AddInstance(_, s, _, _) => Watch.Changed(s, Watch.WithInstances)
    case RemoveInstance(s, _) => Watch.Changed(s, Watch.WithInstances)
    case AddIngressInstance(_, s, _, _) => Watch.Changed(s, Watch.WithIngress)
    case RemoveIngressInstance(s, _) => Watch.Changed(s, Watch.WithIngress)
  }

  // That is what changes in the in-memory store, if the operation has an effect.
  lemma FiredIsMutation(m: M.Mem, op: Op)
    requires Watch.Shaped(m)
    requires op.AddService? || op.RemoveService? || op.SetContainerRule? || op.RemoveContainerRule? || op.AddInstance?
          || op.RemoveInstance? || op.AddIngressInstance? || op.RemoveIngressInstance?
    requires op.AddService? || op.RemoveService? || op.s in m.services
    ensures Watch.Mutation(m, MemStep(m, op), FiredBy(op))
  {
    match op {
      case AddService(s, details) => Watch.AddServiceMutates(m, s, details);
      case RemoveService(s) => Watch.RemoveServiceMutates(m, s);
      case SetContainerRule(s, r, rule) => Watch.RulesMutate(m, s, m.rules[s][r := rule]);
      case RemoveContainerRule(s, r) => Watch.RulesMutate(m, s, m.rules[s] - {r});
      case AddInstance(x, s, i, inst) => Watch.InstancesMutate(m, s, m.instances[s][i := M.Owned(inst, x)]);
      case AddIngressInstance(x, s, a, ing) => Watch.IngressMutate(m, s, m.ingress[s][a := M.Owned(ing, x)]);
      case RemoveInstance(s, i) =>
        Watch.InstancesMutate(m, s, m.instances[s] - {i});
        WithoutAbsent(m.instances, s, i);
      case RemoveIngressInstance(s, a) =>
        Watch.IngressMutate(m, s, m.ingress[s] - {a});
        WithoutAbsent(m.ingress, s, a);
    }
  }

  lemma WithoutAbsent<K, V>(m: map<string, map<K, V>>, s: string, k: K)
    requires s in m
    ensures k !in m[s] ==> m[s := m[s] - {k}] == m
  {
    assert k !in m[s] ==> m[s] - {k} == m[s];
  }

  // An operation that changes the service tree is reported just as the
  // in-memory store would report it; removing everything reports each service
  // that is known.
  ghost predicate ReportsOp(e: E.Etcd, svcs: set<string>, op: Op, opts: QueryServiceOptions, show: IPPort -> string,
                            changes: seq<ServiceChange>) {
    if EventOf(e, op, show).None? then changes == []
    else if op.RemoveAllServices? then DeletesEach(changes, svcs)
    else
      var f := FiredBy(op);
      changes == if Watch.Hears(opts, f.filter) then [f.change] else []
  }

  // The known services after an operation, and after many.
  function KnownStep(svcs: set<string>, e: E.Etcd, op: Op): set<string> {
    match op
    case AddService(s, _) => svcs + {s}
    case RemoveService(s) => if s in e.dirs then svcs - {s} else svcs
    case RemoveAllServices => {}
    case _ => svcs
  }

  function KnownAfter(svcs: set<string>, e: E.Etcd, ops: seq<Op>): set<string> {
    if ops == [] then svcs
    else
      var rest := ops[..|ops| - 1];
      KnownStep(KnownAfter(svcs, e, rest), TreeAfter(e, rest), ops[|ops| - 1])
  }

  // The first k operations are reported.
  ghost predicate AllReported(svcs: set<string>, e: E.Etcd, ops: seq<Op>, k: nat, opts: QueryServiceOptions,
                              show: IPPort -> string, reports: seq<seq<ServiceChange>>)
    requires k <= |ops|
  {
    && |reports| == k
    && (forall n :: 0 <= n < k ==>
          ReportsOp(TreeAfter(e, ops[..n]), KnownAfter(svcs, e, ops[..n]), ops[n], opts, show, reports[n]))
  }

  lemma OneMoreReported(svcs: set<string>, e: E.Etcd, ops: seq<Op>, k: nat, opts: QueryServiceOptions,
                        show: IPPort -> string, reports: seq<seq<ServiceChange>>, changes: seq<ServiceChange>)
    requires k < |ops| && AllReported(svcs, e, ops, k, opts, show, reports)
    requires ReportsOp(TreeAfter(e, ops[..k]), KnownAfter(svcs, e, ops[..k]), ops[k], opts, show, changes)
    ensures AllReported(svcs, e, ops, k + 1, opts, show, reports + [changes])
    ensures TreeAfter(e, ops[..k + 1]) == EtcdStep(TreeAfter(e, ops[..k]), ops[k])
    ensures KnownAfter(svcs, e, ops[..k + 1]) ==
              KnownStep(KnownAfter(svcs, e, ops[..k]), TreeAfter(e, ops[..k]), ops[k])
  {
    assert (reports + [changes])[..k] == reports;
    assert ops[..k + 1][..k] == ops[..k];
    forall n | 0 <= n < k + 1
      ensures ReportsOp(TreeAfter(e, ops[..n]), KnownAfter(svcs, e, ops[..n]), ops[n], opts, show,
                (reports + [changes])[n])
    {
      if n < k {
        assert (reports + [changes])[n] == reports[n];
      }
    }
  }

  lemma FlatMore(before: seq<ServiceChange>, reports: seq<seq<ServiceChange>>, changes: seq<ServiceChange>)
    ensures before + Flat(reports + [changes]) == before + Flat(reports) + changes
  {
    assert (reports + [changes])[..|reports|] == reports;
    assert before + (Flat(reports) + changes) == before + Flat(reports) + changes;
  }

  // Replaying the event log of operations reports every operation and keeps
  // svcs to what these operations make known.
  method Replay(w: EtcdWatcher, e0: E.Etcd, ops: seq<Op>, show: IPPort -> string)
    returns (e: E.Etcd, ghost reports: seq<seq<ServiceChange>>)
    requires forall n :: 0 <= n < |ops| ==> ProperNames(ops[n], show)
    modifies w
    ensures e == TreeAfter(e0, ops) && w.svcs == KnownAfter(old(w.svcs), e0, ops)
    ensures w.sent == old(w.sent) + Flat(reports)
    ensures AllReported(old(w.svcs), e0, ops, |ops|, w.opts, show, reports)
  {
    e, reports := e0, [];
    ghost var svcs := w.svcs;
    for i := 0 to |ops|
      invariant e == TreeAfter(e0, ops[..i]) && w.svcs == KnownAfter(svcs, e0, ops[..i])
      invariant w.sent == old(w.sent) + Flat(reports)
      invariant AllReported(svcs, e0, ops, i, w.opts, show, reports)
    {
      ghost var changes := ReplayOne(w, e, ops[i], show);
      OneMoreReported(svcs, e0, ops, i, w.opts, show, reports, changes);
      FlatMore(old(w.sent), reports, changes);
      reports := reports + [changes];
      e := EtcdStep(e, ops[i]);
    }
    assert ops[..|ops|] == ops;
  }

  method ReplayOne(w: EtcdWatcher, e: E.Etcd, op: Op, show: IPPort -> string)
    returns (ghost changes: seq<ServiceChange>)
    requires ProperNames(op, show)
    modifies w
    ensures w.svcs == KnownStep(old(w.svcs), e, op) && w.sent == old(w.sent) + changes
    ensures ReportsOp(e, old(w.svcs), op, w.opts, show, changes)
  {
    var event := EventOf(e, op, show);
    changes := [];
    if event.Some? {
      EventsParse(e, op, show);
      changes := w.HandleResponse(event.value);
    }
  }

  // Watchers that start with the services there are know the services there
  // are, whatever is written where.
  lemma {:induction false} KnownIsSpecs(svcs: set<string>, e: E.Etcd, ops: seq<Op>)
    requires svcs == e.specs.Keys <= e.dirs
    ensures KnownAfter(svcs, e, ops) == TreeAfter(e, ops).specs.Keys <= TreeAfter(e, ops).dirs
  {
    if ops != [] {
      var rest := ops[..|ops| - 1];
      KnownIsSpecs(svcs, e, rest);
      KnownStepIsSpecs(TreeAfter(e, rest), ops[|ops| - 1]);
    }
  }

  lemma KnownStepIsSpecs(e: E.Etcd, op: Op)
    requires e.specs.Keys <= e.dirs
    ensures KnownStep(e.specs.Keys, e, op) == EtcdStep(e, op).specs.Keys <= EtcdStep(e, op).dirs
  {
  }

  // Watchers that start with more, such as all the directories there are, never
  // know less.
  lemma {:induction false} KnownHoldsSpecs(svcs: set<string>, e: E.Etcd, ops: seq<Op>)
    requires e.specs.Keys <= svcs && e.specs.Keys <= e.dirs
    ensures TreeAfter(e, ops).specs.Keys <= KnownAfter(svcs, e, ops)
    ensures TreeAfter(e, ops).specs.Keys <= TreeAfter(e, ops).dirs
  {
    if ops != [] {
      var rest := ops[..|ops| - 1];
      KnownHoldsSpecs(svcs, e, rest);
      KnownStepHoldsSpecs(KnownAfter(svcs, e, rest), TreeAfter(e, rest), ops[|ops| - 1]);
    }
  }

  lemma KnownStepHoldsSpecs(svcs: set<string>, e: E.Etcd, op: Op)
    requires e.specs.Keys <= svcs && e.specs.Keys <= e.dirs
    ensures EtcdStep(e, op).specs.Keys <= KnownStep(svcs, e, op)
    ensures EtcdStep(e, op).specs.Keys <= EtcdStep(e, op).dirs
  {
  }

  // They know the directories there are, which is what a new watcher would
  // list, exactly as long as nothing is written below a service that has none.
  lemma KnownStepIsDirsIff(e: E.Etcd, op: Op)
    ensures KnownStep(e.dirs, e, op) == EtcdStep(e, op).dirs <==> TouchesExisting(e, op)
  {
    match op {
      case SetContainerRule(s, _, _) => assert s in EtcdStep(e, op).dirs;
      case AddInstance(_, s, _, _) => assert s in EtcdStep(e, op).dirs;
      case AddIngressInstance(_, s, _, _) => assert s in EtcdStep(e, op).dirs;
      case _ =>
    }
  }

  ghost predicate KnowsDirs(e: E.Etcd, ops: seq<Op>, n: nat)
    requires n <= |ops|
  {
    KnownAfter(e.dirs, e, ops[..n]) == TreeAfter(e, ops[..n]).dirs
  }

  ghost predicate TouchesExistingAt(e: E.Etcd, ops: seq<Op>, n: nat)
    requires n < |ops|
  {
    TouchesExisting(TreeAfter(e, ops[..n]), ops[n])
  }

  lemma KnowsDirsMore(e: E.Etcd, ops: seq<Op>, n: nat)
    requires n < |ops| && KnowsDirs(e, ops, n)
    ensures KnowsDirs(e, ops, n + 1) <==> TouchesExistingAt(e, ops, n)
  {
    assert ops[..n + 1][..n] == ops[..n];
    KnownStepIsDirsIff(TreeAfter(e, ops[..n]), ops[n]);
  }

  lemma KnownIsDirsIff(e: E.Etcd, ops: seq<Op>)
    ensures (forall n :: 0 <= n <= |ops| ==> KnowsDirs(e, ops, n)) <==>
            (forall n :: 0 <= n < |ops| ==> TouchesExistingAt(e, ops, n))
  {
    if forall n :: 0 <= n < |ops| ==> TouchesExistingAt(e, ops, n) {
      for n := 0 to |ops|
        invariant forall k :: 0 <= k <= n ==> KnowsDirs(e, ops, k)
      {
        KnowsDirsMore(e, ops, n);
      }
    } else {
      var n :| 0 <= n < |ops| && !TouchesExistingAt(e, ops, n);
      if KnowsDirs(e, ops, n) {
        KnowsDirsMore(e, ops, n);
      }
    }
  }

  // A rule written for a service that there is none of.
  lemma OrphanStaysUnknown(s: string, r: string, rule: ContainerRule)
    ensures var ops := [SetContainerRule(s, r, rule)];
            KnowsDirs(E.EMPTY, ops, 0) && !KnowsDirs(E.EMPTY, ops, 1)
  {
    var ops := [SetContainerRule(s, r, rule)];
    KnowsDirsMore(E.EMPTY, ops, 0);
  }

  function Flat(reports: seq<seq<ServiceChange>>): seq<ServiceChange> {
    if reports == [] then [] else Flat(reports[..|reports| - 1]) + reports[|reports| - 1]
  }

  // --- changes that are not reported ---

  // The end of a session takes its values out of the answers, and its return
  // brings them back, but no event on the service tree tells of either.
  lemma SessionEndIsSilent(s: string, details: Service, i: string, inst: Instance, session: string,
                           show: IPPort -> string)
    ensures var opts := QueryServiceOptions(true, false, false);
            var e := E.AddInstance(E.AddService(E.Heartbeat(E.EMPTY, session), s, details), session, s, i, inst);
            var ended := E.EndSession(e, session);
            && EventOf(e, EndSession(session), show) == None && EventOf(ended, Heartbeat(session), show) == None
            && E.GetService(e, s, opts) != E.GetService(ended, s, opts)
            && E.GetService(ended, s, opts) != E.GetService(E.Heartbeat(ended, session), s, opts)
  {
    var opts := QueryServiceOptions(true, false, false);
    var e := E.AddInstance(E.AddService(E.Heartbeat(E.EMPTY, session), s, details), session, s, i, inst);
    var ended := E.EndSession(e, session);
    assert e.instances == map[E.Ref(s, i) := E.Stamped(inst, session, 3)];
    assert i in E.GetService(e, s, opts).value.instances;
    assert i !in E.GetService(ended, s, opts).value.instances;
    assert i in E.GetService(E.Heartbeat(ended, session), s, opts).value.instances;
  }

  // The session has written a value below s that the options ask for.
  ghost predicate Shows(e: E.Etcd, session: string, s: string, opts: QueryServiceOptions) {
    && s in e.specs
    && ((opts.withInstances && WroteUnder(e.instances, session, s))
        || (opts.withIngressInstances && WroteUnder(e.ingress, session, s)))
  }

  ghost predicate WroteUnder<K(!new), V(!new)>(m: map<E.Ref<K>, E.Stamped<V>>, session: string, s: string) {
    exists k :: k in m && k.service == s && m[k].session == session
  }

  // The end of a live session, or the return of a dead one, that shows.
  ghost predicate Silent(e: E.Etcd, op: Op, s: string, opts: QueryServiceOptions) {
    match op
    case EndSession(session) => session in e.sessions && Shows(e, session, s, opts)
    case Heartbeat(session) => session !in e.sessions && Shows(e, session, s, opts)
    case _ => false
  }

  lemma SessionTurnsLive<K(!new), V(!new)>(m: map<E.Ref<K>, E.Stamped<V>>, sessions: set<string>, session: string,
                           s: string)
    requires session !in sessions
    ensures E.LiveUnder(m, sessions, s) == E.LiveUnder(m, sessions + {session}, s) <==> !WroteUnder(m, session, s)
  {
    var a, b := E.LiveUnder(m, sessions, s), E.LiveUnder(m, sessions + {session}, s);
    if k :| k in m && k.service == s && m[k].session == session {
      assert k == E.Ref(s, k.name);
      assert k.name in b && k.name !in a;
    } else {
      forall n | n in E.NamesUnder(m, s) && E.Ref(s, n) in m ensures m[E.Ref(s, n)].session != session {
        assert E.Ref(s, n).service == s;
      }
    }
  }

  lemma SessionTurns(e: E.Etcd, e': E.Etcd, session: string, s: string, opts: QueryServiceOptions)
    requires e.specs.Keys <= e.dirs && session !in e.sessions
    requires e'.(index := 0) == e.(sessions := e.sessions + {session}, index := 0)
    ensures E.GetService(e, s, opts) == E.GetService(e', s, opts) <==> !Shows(e, session, s, opts)
  {
    SessionTurnsLive(e.instances, e.sessions, session, s);
    SessionTurnsLive(e.ingress, e.sessions, session, s);
  }

  lemma UnderElsewhere<K(!new), V(!new)>(m: map<E.Ref<K>, V>, m': map<E.Ref<K>, V>, s: string)
    requires forall k: E.Ref<K> :: k.service == s ==> Get(m, k) == Get(m', k)
    ensures E.Under(m, s) == E.Under(m', s)
  {
    forall n ensures Get(E.Under(m, s), n) == Get(E.Under(m', s), n) {
      E.UnderIsGet(m, s, n);
      E.UnderIsGet(m', s, n);
    }
    SameMaps(E.Under(m, s), E.Under(m', s));
  }

  lemma LiveUnderElsewhere<K(!new), V(!new)>(m: map<E.Ref<K>, E.Stamped<V>>, m': map<E.Ref<K>, E.Stamped<V>>,
                                             sessions: set<string>, s: string)
    requires forall k: E.Ref<K> :: k.service == s ==> Get(m, k) == Get(m', k)
    ensures E.LiveUnder(m, sessions, s) == E.LiveUnder(m', sessions, s)
  {
    var a, b := E.LiveUnder(m, sessions, s), E.LiveUnder(m', sessions, s);
    forall n ensures Get(a, n) == Get(b, n) {
      E.LiveUnderIsGet(m, sessions, s, n);
      E.LiveUnderIsGet(m', sessions, s, n);
    }
    SameMaps(a, b);
  }

  // Two trees with the same spec, directory and shown values of a service.
  lemma SameAnswer(e: E.Etcd, e': E.Etcd, s: string, opts: QueryServiceOptions)
    requires e'.sessions == e.sessions && Get(e'.specs, s) == Get(e.specs, s) && (s in e'.dirs <==> s in e.dirs)
    requires opts.withInstances ==> forall k: E.Ref<string> :: k.service == s ==>
              Get(e.instances, k) == Get(e'.instances, k)
    requires opts.withContainerRules ==> forall k: E.Ref<string> :: k.service == s ==>
              Get(e.rules, k) == Get(e'.rules, k)
    requires opts.withIngressInstances ==> forall k: E.Ref<IPPort> :: k.service == s ==>
              Get(e.ingress, k) == Get(e'.ingress, k)
    ensures E.GetService(e, s, opts) == E.GetService(e', s, opts)
  {
    if opts.withInstances {
      LiveUnderElsewhere(e.instances, e'.instances, e.sessions, s);
    }
    if opts.withIngressInstances {
      LiveUnderElsewhere(e.ingress, e'.ingress, e.sessions, s);
    }
    if opts.withContainerRules {
      UnderElsewhere(e.rules, e'.rules, s);
    }
  }

  // What other operations do to a service that they do not report.
  lemma UnreportedStays(e: E.Etcd, svcs: set<string>, op: Op, opts: QueryServiceOptions, show: IPPort -> string,
                        changes: seq<ServiceChange>, s: string)
    requires e.specs.Keys <= e.dirs && e.specs.Keys <= svcs && ReportsOp(e, svcs, op, opts, show, changes)
    requires !op.EndSession? && !op.Heartbeat?
    requires forall c :: c in changes ==> c.name != s
    ensures E.GetService(e, s, opts) == E.GetService(EtcdStep(e, op), s, opts)
  {
    var e' := EtcdStep(e, op);
    if op.RemoveAllServices? {
      assert s in svcs ==> ServiceChange(s, true) in changes;
    } else if s in e.specs {
      SameAnswer(e, e', s, opts);
    }
  }

  // The answer for a service changes without a report that names it if and
  // only if a live session ends, or a dead one comes back, that has written
  // something shown in the answer.
  lemma SilentIff(e: E.Etcd, svcs: set<string>, op: Op, opts: QueryServiceOptions, show: IPPort -> string,
                  changes: seq<ServiceChange>, s: string)
    requires e.specs.Keys <= e.dirs && e.specs.Keys <= svcs && ReportsOp(e, svcs, op, opts, show, changes)
    ensures E.GetService(e, s, opts) != E.GetService(EtcdStep(e, op), s, opts) &&
              (forall c :: c in changes ==> c.name != s)
            <==> Silent(e, op, s, opts)
  {
    match op {
      case EndSession(session) =>
        if session in e.sessions {
          var e' := EtcdStep(e, op);
          assert e'.sessions + {session} == e.sessions;
          SessionTurns(e', e, session, s, opts);
        }
      case Heartbeat(session) =>
        if session in e.sessions {
          assert e.sessions + {session} == e.sessions;
        } else {
          SessionTurns(e, EtcdStep(e, op), session, s, opts);
        }
      case _ =>
        if forall c :: c in changes ==> c.name != s {
          UnreportedStays(e, svcs, op, opts, show, changes, s);
        }
    }
  }

  // So it is at every point of every run.
  lemma SilentIffInRuns(svcs: set<string>, e: E.Etcd, ops: seq<Op>, n: nat, opts: QueryServiceOptions,
                        show: IPPort -> string, reports: seq<seq<ServiceChange>>, s: string)
    requires e.specs.Keys <= svcs && e.specs.Keys <= e.dirs
    requires n < |ops| && AllReported(svcs, e, ops, |ops|, opts, show, reports)
    ensures var before := TreeAfter(e, ops[..n]);
            E.GetService(before, s, opts) != E.GetService(EtcdStep(before, ops[n]), s, opts)
            && (forall c :: c in reports[n] ==> c.name != s)
            <==> Silent(before, ops[n], s, opts)
  {
    KnownHoldsSpecs(svcs, e, ops[..n]);
    SilentIff(TreeAfter(e, ops[..n]), KnownAfter(svcs, e, ops[..n]), ops[n], opts, show, reports[n], s);
  }

  // --- changes of the listing that are not reported ---

  // The listing of all services turns from an answer into an error when a value
  // that the options do not ask for is written below an unknown service, and
  // back into one when all that is removed are directories without a spec.
  ghost predicate SilentListing(e: E.Etcd, svcs: set<string>, op: Op, opts: QueryServiceOptions) {
    match op
    case EndSession(_) => e.dirs <= e.specs.Keys && exists s :: Silent(e, op, s, opts)
    case Heartbeat(_) => e.dirs <= e.specs.Keys && exists s :: Silent(e, op, s, opts)
    case SetContainerRule(s, _, _) => !opts.withContainerRules && e.dirs <= e.specs.Keys && s !in e.dirs
    case AddInstance(_, s, _, _) => !opts.withInstances && e.dirs <= e.specs.Keys && s !in e.dirs
    case AddIngressInstance(_, s, _, _) => !opts.withIngressInstances && e.dirs <= e.specs.Keys && s !in e.dirs
    case RemoveAllServices => svcs == {} && e.dirs != {}
    case _ => false
  }

  // With the same directories and specs, listings differ as answers do.
  lemma ListingsDifferIff(e: E.Etcd, e': E.Etcd, opts: QueryServiceOptions)
    requires e.specs.Keys == e'.specs.Keys <= e.dirs == e'.dirs
    ensures E.GetAllServices(e, opts) != E.GetAllServices(e', opts) <==>
            e.dirs <= e.specs.Keys && exists s :: E.GetService(e, s, opts) != E.GetService(e', s, opts)
  {
    if e.dirs <= e.specs.Keys {
      var a, b := E.GetAllServices(e, opts).value, E.GetAllServices(e', opts).value;
      if s :| E.GetService(e, s, opts) != E.GetService(e', s, opts) {
        assert Get(a, s) == E.GetService(e, s, opts) && Get(b, s) == E.GetService(e', s, opts);
      } else {
        forall s ensures Get(a, s) == Get(b, s) {
          assert E.GetService(e, s, opts) == E.GetService(e', s, opts);
        }
        SameMaps(a, b);
      }
    }
  }

  lemma SilentListingOfTurns(e: E.Etcd, svcs: set<string>, op: Op, opts: QueryServiceOptions, show: IPPort -> string)
    requires e.specs.Keys <= e.dirs && e.specs.Keys <= svcs && (op.EndSession? || op.Heartbeat?)
    ensures E.GetAllServices(e, opts) != E.GetAllServices(EtcdStep(e, op), opts) <==> SilentListing(e, svcs, op, opts)
  {
    ListingsDifferIff(e, EtcdStep(e, op), opts);
    forall s ensures E.GetService(e, s, opts) != E.GetService(EtcdStep(e, op), s, opts) <==> Silent(e, op, s, opts) {
      SilentIff(e, svcs, op, opts, show, [], s);
    }
  }

  lemma SilentListingOfWrites(e: E.Etcd, svcs: set<string>, op: Op, opts: QueryServiceOptions, show: IPPort -> string)
    requires e.specs.Keys <= e.dirs && e.specs.Keys <= svcs && ReportsOp(e, svcs, op, opts, show, [])
    requires !op.EndSession? && !op.Heartbeat? && !op.RemoveAllServices?
    ensures E.GetAllServices(e, opts) != E.GetAllServices(EtcdStep(e, op), opts) <==> SilentListing(e, svcs, op, opts)
  {
    var e' := EtcdStep(e, op);
    if e'.dirs == e.dirs {
      ListingsDifferIff(e, e', opts);
      forall s ensures E.GetService(e, s, opts) == E.GetService(e', s, opts) {
        UnreportedStays(e, svcs, op, opts, show, [], s);
      }
    }
  }

  // The listing changes with nothing reported at all if and only if that is so,
  // or a session turns whose values some answer shows.
  lemma SilentListingIff(e: E.Etcd, svcs: set<string>, op: Op, opts: QueryServiceOptions, show: IPPort -> string,
                         changes: seq<ServiceChange>)
    requires e.specs.Keys <= e.dirs && e.specs.Keys <= svcs && ReportsOp(e, svcs, op, opts, show, changes)
    ensures E.GetAllServices(e, opts) != E.GetAllServices(EtcdStep(e, op), opts) && changes == []
            <==> SilentListing(e, svcs, op, opts)
  {
    if op.EndSession? || op.Heartbeat? {
      SilentListingOfTurns(e, svcs, op, opts, show);
    } else if op.RemoveAllServices? {
      if s :| s in svcs {
        assert ServiceChange(s, true) in changes;
      } else {
        assert changes != [] ==> changes[0] in changes;
      }
    } else if changes == [] {
      SilentListingOfWrites(e, svcs, op, opts, show);
    }
  }

  function TreeAfter(e: E.Etcd, ops: seq<Op>): E.Etcd {
    if ops == [] then e else EtcdStep(TreeAfter(e, ops[..|ops| - 1]), ops[|ops| - 1])
  }

  // Values are only written below services that exist.
  ghost predicate TouchesExisting(e: E.Etcd, op: Op) {
    match op
    case SetContainerRule(s, _, _) => s in e.dirs
    case AddInstance(_, s, _, _) => s in e.dirs
    case AddIngressInstance(_, s, _, _) => s in e.dirs
    case _ => true
  }
}
