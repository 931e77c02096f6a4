// A subscriber that queries first once it is subscribed, and then re-queries
// each service it is told has changed (common/store/watch.go), over the
// in-memory store's change events (common/store/inmem/inmem.go).
module Watch {
  import opened Prelude
  import opened StoreData
  import M = InMemModel

  // Which watchers hear of a change.
  datatype Filter = Everyone | WithInstances | WithRules | WithIngress

  // A fireServiceChange call.
  datatype Fired = Fired(change: ServiceChange, filter: Filter)

  predicate Hears(opts: QueryServiceOptions, filter: Filter) {
    match filter
    case Everyone => true
    case WithInstances => opts.withInstances
    case WithRules => opts.withContainerRules
    case WithIngress => opts.withIngressInstances
  }

  // Every service has its three sub-maps, and nothing else has.
  ghost predicate Shaped(m: M.Mem) {
    m.rules.Keys == m.instances.Keys == m.ingress.Keys == m.services.Keys
  }

  // A change of one service, with the event that reports it: other services
  // stay as they are, the event says whether the service is gone, and what its
  // filter does not cover stays as it is.
  ghost predicate Mutation(m: M.Mem, m': M.Mem, f: Fired) {
    var s := f.change.name;
    && Shaped(m')
    && (forall t :: t != s ==> SameService(m, m', t, Everyone))
    && (f.change.serviceDeleted <==> s !in m'.services)
    && (f.filter != Everyone ==> SameService(m, m', s, f.filter))
  }

  // Service t is the same in both states, except for what watchers with this
  // filter would hear of.
  ghost predicate SameService(m: M.Mem, m': M.Mem, t: string, but: Filter) {
    && Get(m.services, t) == Get(m'.services, t)
    && (but == WithRules || M.Sub(m.rules, t) == M.Sub(m'.rules, t))
    && (but == WithInstances || M.Sub(m.instances, t) == M.Sub(m'.instances, t))
    && (but == WithIngress || M.Sub(m.ingress, t) == M.Sub(m'.ingress, t))
  }

  function Changed(s: string, filter: Filter): Fired {
    Fired(ServiceChange(s, false), filter)
  }

  lemma AddServiceMutates(m: M.Mem, s: string, details: Service)
    requires Shaped(m)
    ensures Mutation(m, M.AddService(m, s, details), Changed(s, Everyone))
  {
  }

  lemma RemoveServiceMutates(m: M.Mem, s: string)
    requires Shaped(m)
    ensures Mutation(m, M.RemoveService(m, s), Fired(ServiceChange(s, true), Everyone))
  {
  }

  // Every other operation that fires reports the one sub-map that it changes,
  // of a service that exists.
  lemma RulesMutate(m: M.Mem, s: string, rules: map<string, ContainerRule>)
    requires Shaped(m) && s in m.services
    ensures Mutation(m, m.(rules := m.rules[s := rules]), Changed(s, WithRules))
  {
  }

  lemma InstancesMutate(m: M.Mem, s: string, instances: map<string, M.Owned<Instance>>)
    requires Shaped(m) && s in m.services
    ensures Mutation(m, m.(instances := m.instances[s := instances]), Changed(s, WithInstances))
  {
  }

  lemma IngressMutate(m: M.Mem, s: string, ingress: map<IPPort, M.Owned<IngressInstance>>)
    requires Shaped(m) && s in m.services
    ensures Mutation(m, m.(ingress := m.ingress[s := ingress]), Changed(s, WithIngress))
  {
  }

  ghost predicate Chain(ms: seq<M.Mem>, fs: seq<Fired>) {
    |ms| == |fs| + 1 && forall k {:trigger fs[k]} :: 0 <= k < |fs| ==> Mutation(ms[k], ms[k + 1], fs[k])
  }

  // The changes from m to m', in order, are what fs reports.
  ghost predicate Reported(m: M.Mem, fs: seq<Fired>, m': M.Mem) {
    exists ms :: Chain(ms, fs) && ms[0] == m && ms[|fs|] == m'
  }

  lemma ReportNone(m: M.Mem)
    ensures Reported(m, [], m)
  {
    assert Chain([m], []);
  }

  lemma ReportOne(m: M.Mem, f: Fired, m': M.Mem)
    requires Mutation(m, m', f)
    ensures Reported(m, [f], m')
  {
    assert Chain([m, m'], [f]);
  }

  lemma ChainBoth(ms: seq<M.Mem>, fs: seq<Fired>, ns: seq<M.Mem>, gs: seq<Fired>)
    requires Chain(ms, fs) && Chain(ns, gs) && ms[|fs|] == ns[0]
    ensures var all := ms + ns[1..]; Chain(all, fs + gs) && all[0] == ms[0] && all[|fs + gs|] == ns[|gs|]
  {
    var all := ms + ns[1..];
    forall k | 0 <= k < |fs + gs| ensures Mutation(all[k], all[k + 1], (fs + gs)[k]) {
      if k < |fs| {
        assert Mutation(ms[k], ms[k + 1], fs[k]);
      } else {
        assert Mutation(ns[k - |fs|], ns[k - |fs| + 1], gs[k - |fs|]);
      }
    }
  }

  lemma ReportBoth(m: M.Mem, fs: seq<Fired>, mid: M.Mem, gs: seq<Fired>, m': M.Mem)
    requires Reported(m, fs, mid) && Reported(mid, gs, m')
    ensures Reported(m, fs + gs, m')
  {
    var ms :| Chain(ms, fs) && ms[0] == m && ms[|fs|] == mid;
    var ns :| Chain(ns, gs) && ns[0] == mid && ns[|gs|] == m';
    ChainBoth(ms, fs, ns, gs);
  }

  lemma ReportMore(m: M.Mem, fs: seq<Fired>, mid: M.Mem, f: Fired, m': M.Mem)
    requires Reported(m, fs, mid) && Mutation(mid, m', f)
    ensures Reported(m, fs + [f], m')
  {
    ReportOne(mid, f, m');
    ReportBoth(m, fs, mid, [f], m');
  }

  // What the watcher is after: the services as its options show them.
  function View(m: M.Mem, opts: QueryServiceOptions): map<string, ServiceInfo> {
    M.GetAllServices(m, opts)
  }

  datatype Phase = Subscribed | Watching | Failed

  datatype State = State(mem: M.Mem, queue: seq<ServiceChange>, phase: Phase, replica: map<string, ServiceInfo>)

  // What the consumer holds after an update.
  function Folded(replica: map<string, ServiceInfo>, u: ServiceUpdate): map<string, ServiceInfo> {
    var base := if u.reset then map[] else replica;
    map s | s in base.Keys + u.services.Keys && (s in u.services ==> u.services[s].Some?) ::
      if s in u.services then u.services[s].value else base[s]
  }

  // The store changes and tells the watcher, if it listens.
  function Mutate(st: State, m': M.Mem, f: Fired, opts: QueryServiceOptions): State {
    st.(mem := m', queue := if Hears(opts, f.filter) then st.queue + [f.change] else st.queue)
  }

  // doInitialQuery
  function InitialQuery(st: State, opts: QueryServiceOptions): State {
    var svcs := M.GetAllServices(st.mem, opts);
    var u := ServiceUpdate(map s | s in svcs :: Some(svcs[s]), true);
    st.(phase := Watching, replica := Folded(st.replica, u))
  }

  // One turn of run's loop: an error from GetService ends it.
  function HandleChange(st: State, opts: QueryServiceOptions): State
    requires st.queue != []
  {
    var change, rest := st.queue[0], st.queue[1..];
    var svc := if change.serviceDeleted then None else M.GetService(st.mem, change.name, opts);
    if !change.serviceDeleted && svc.None? then
      st.(queue := rest, phase := Failed)
    else
      st.(queue := rest, replica := Folded(st.replica, ServiceUpdate(map[change.name := svc], false)))
  }

  ghost predicate Step(st: State, st': State, opts: QueryServiceOptions) {
    || (exists m', f :: Mutation(st.mem, m', f) && st' == Mutate(st, m', f, opts))
    || (st.phase.Subscribed? && st' == InitialQuery(st, opts))
    || (st.phase.Watching? && st.queue != [] && st' == HandleChange(st, opts))
  }

  // The last queued change of a service.
  function LastChange(queue: seq<ServiceChange>, s: string): Option<ServiceChange> {
    if queue == [] then None
    else if queue[|queue| - 1].name == s then Some(queue[|queue| - 1])
    else LastChange(queue[..|queue| - 1], s)
  }

  // A service that is not queued is up to date; one that is has the right flag
  // on its last change.
  ghost predicate OnTrack(st: State, opts: QueryServiceOptions, s: string) {
    match LastChange(st.queue, s)
    case None => st.phase.Watching? ==> Get(st.replica, s) == Get(View(st.mem, opts), s)
    case Some(last) => last.serviceDeleted <==> s !in st.mem.services
  }

  ghost predicate Inv(st: State, opts: QueryServiceOptions) {
    Shaped(st.mem) && forall s :: OnTrack(st, opts, s)
  }

  lemma {:induction false} LastOfTail(queue: seq<ServiceChange>, s: string)
    requires queue != []
    ensures LastChange(queue, s) ==
            if LastChange(queue[1..], s).Some? then LastChange(queue[1..], s)
            else if queue[0].name == s then Some(queue[0]) else None
  {
    var n := |queue| - 1;
    if n > 0 {
      assert queue[1..][..n - 1] == queue[..n][1..];
      if queue[n].name != s {
        LastOfTail(queue[..n], s);
      }
    }
  }

  // A change that a service's view does not hear of leaves it alone.
  lemma UnheardStays(m: M.Mem, m': M.Mem, f: Fired, opts: QueryServiceOptions, s: string)
    requires Mutation(m, m', f) && (s != f.change.name || !Hears(opts, f.filter))
    ensures Get(View(m, opts), s) == Get(View(m', opts), s) && (s in m.services <==> s in m'.services)
  {
    assert s != f.change.name ==> SameService(m, m', s, Everyone);
  }

  lemma MutateKeepsInv(st: State, m': M.Mem, f: Fired, opts: QueryServiceOptions)
    requires Inv(st, opts) && Mutation(st.mem, m', f)
    ensures Inv(Mutate(st, m', f, opts), opts)
  {
    var st' := Mutate(st, m', f, opts);
    forall s ensures OnTrack(st', opts, s) {
      assert OnTrack(st, opts, s);
      if s != f.change.name || !Hears(opts, f.filter) {
        UnheardStays(st.mem, m', f, opts, s);
      }
      if Hears(opts, f.filter) {
        assert st'.queue[..|st.queue|] == st.queue;
      }
    }
  }

  lemma InitialQueryKeepsInv(st: State, opts: QueryServiceOptions)
    requires Inv(st, opts)
    ensures Inv(InitialQuery(st, opts), opts)
  {
    forall s ensures OnTrack(InitialQuery(st, opts), opts, s) {
      assert OnTrack(st, opts, s);
    }
  }

  lemma HandleChangeKeepsInv(st: State, opts: QueryServiceOptions)
    requires Inv(st, opts) && st.phase.Watching? && st.queue != []
    ensures Inv(HandleChange(st, opts), opts)
  {
    forall s ensures OnTrack(HandleChange(st, opts), opts, s) {
      assert OnTrack(st, opts, s);
      LastOfTail(st.queue, s);
    }
  }

  lemma StepKeepsInv(st: State, st': State, opts: QueryServiceOptions)
    requires Inv(st, opts) && Step(st, st', opts)
    ensures Inv(st', opts)
  {
    if m', f :| Mutation(st.mem, m', f) && st' == Mutate(st, m', f, opts) {
      MutateKeepsInv(st, m', f, opts);
    } else if st.phase.Subscribed? && st' == InitialQuery(st, opts) {
      InitialQueryKeepsInv(st, opts);
    } else {
      HandleChangeKeepsInv(st, opts);
    }
  }

  ghost predicate IsRun(run: seq<State>, opts: QueryServiceOptions) {
    && run != [] && run[0].queue == [] && run[0].phase.Subscribed? && Shaped(run[0].mem)
    && forall n :: 0 <= n < |run| - 1 ==> Step(run[n], run[n + 1], opts)
  }

  // In every run from the subscription on, whenever the watcher is at work
  // each service is up to date or has a queued change whose last one knows
  // whether it is gone; so a drained queue means the replica is the view.
  lemma {:induction false} Converges(run: seq<State>, opts: QueryServiceOptions, n: nat)
    requires IsRun(run, opts) && n < |run|
    ensures Inv(run[n], opts)
    ensures run[n].phase.Watching? && run[n].queue == [] ==> run[n].replica == View(run[n].mem, opts)
  {
    if n > 0 {
      Converges(run, opts, n - 1);
      StepKeepsInv(run[n - 1], run[n], opts);
    }
    if run[n].phase.Watching? && run[n].queue == [] {
      DrainedIsView(run[n], opts);
    }
  }

  lemma DrainedIsView(st: State, opts: QueryServiceOptions)
    requires Inv(st, opts) && st.phase.Watching? && st.queue == []
    ensures st.replica == View(st.mem, opts)
  {
    forall s ensures Get(st.replica, s) == Get(View(st.mem, opts), s) {
      assert OnTrack(st, opts, s);
    }
    SameMaps(st.replica, View(st.mem, opts));
  }

  // The loop fails on a change only if the service's removal is queued behind.
  lemma FailureHasARemovalQueued(st: State, opts: QueryServiceOptions)
    requires Inv(st, opts) && st.phase.Watching? && st.queue != []
    requires HandleChange(st, opts).phase.Failed?
    ensures LastChange(st.queue[1..], st.queue[0].name) == Some(ServiceChange(st.queue[0].name, true))
  {
    var s := st.queue[0].name;
    assert OnTrack(st, opts, s);
    LastOfTail(st.queue, s);
    LastIsOf(st.queue[1..], s);
  }

  lemma {:induction false} LastIsOf(queue: seq<ServiceChange>, s: string)
    ensures LastChange(queue, s).Some? ==> LastChange(queue, s).value.name == s
  {
    if queue != [] && queue[|queue| - 1].name != s {
      LastIsOf(queue[..|queue| - 1], s);
    }
  }

  // A run of the watcher while the store stays as it is.
  ghost predicate Quiet(run: seq<State>, opts: QueryServiceOptions) {
    run != [] && forall n :: 0 <= n < |run| - 1 ==> QuietStep(run[n], run[n + 1], opts)
  }

  ghost predicate QuietStep(st: State, st': State, opts: QueryServiceOptions) {
    Step(st, st', opts) && st'.mem == st.mem
  }

  // There is an answer for every queued change that asks for one.
  ghost predicate Answerable(st: State) {
    forall c :: c in st.queue && !c.serviceDeleted ==> c.name in st.mem.services
  }

  // From wherever a watcher is at work, it comes to the store's view by itself
  // once the store stays as it is, unless a queued change is of a service that
  // has been removed since.
  lemma {:induction false} ComesToView(st: State, opts: QueryServiceOptions) returns (run: seq<State>)
    requires Inv(st, opts) && !st.phase.Failed?
    ensures Quiet(run, opts) && run[0] == st
    ensures var last := run[|run| - 1];
            && last.mem == st.mem
            && (if last.phase.Failed? then !Answerable(st)
                else last.phase.Watching? && last.queue == [] && last.replica == View(st.mem, opts))
    decreases st.phase.Subscribed?, |st.queue|
  {
    if st.phase.Watching? && st.queue == [] {
      DrainedIsView(st, opts);
      return [st];
    }
    var next := if st.phase.Subscribed? then InitialQuery(st, opts) else HandleChange(st, opts);
    StepKeepsInv(st, next, opts);
    assert QuietStep(st, next, opts);
    if next.phase.Failed? {
      assert st.queue[0] in st.queue;
      return [st, next];
    }
    var rest := ComesToView(next, opts);
    run := [st] + rest;
    forall n | 0 <= n < |run| - 1 ensures QuietStep(run[n], run[n + 1], opts) {
      assert n > 0 ==> QuietStep(rest[n - 1], rest[n], opts);
    }
  }
}
