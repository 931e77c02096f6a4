// Collection of the values of dead sessions, interleaved with everything that
// clients of the store do (common/store/etcdstore/gc.go).
module GarbageCollection {
  import opened Prelude
  import opened StoreData
  import E = EtcdModel
  import opened StoreEquivalence

  // A key that holds a session's value.
  datatype Path = HostPath(h: string) | InstancePath(i: E.Ref<string>) | IngressPath(a: E.Ref<IPPort>)

  // Who wrote a value, and the index of that write.
  datatype Stamp = Stamp(session: string, modified: nat)

  function StampOf<V>(v: E.Stamped<V>): Stamp {
    Stamp(v.session, v.modified)
  }

  function StampAt(e: E.Etcd, p: Path): Option<Stamp> {
    match p
    case HostPath(h) => if h in e.hosts then Some(StampOf(e.hosts[h])) else None
    case InstancePath(i) => if i in e.instances then Some(StampOf(e.instances[i])) else None
    case IngressPath(a) => if a in e.ingress then Some(StampOf(e.ingress[a])) else None
  }

  function Delete(e: E.Etcd, p: Path): E.Etcd {
    match p
    case HostPath(h) => e.(hosts := e.hosts - {h}, index := e.index + 1)
    case InstancePath(i) => e.(instances := e.instances - {i}, index := e.index + 1)
    case IngressPath(a) => e.(ingress := e.ingress - {a}, index := e.index + 1)
  }

  // A delete guarded by the index of the write that was seen.
  function CompareAndDelete(e: E.Etcd, p: Path, modified: nat): E.Etcd {
    if StampAt(e, p).Some? && StampAt(e, p).value.modified == modified then Delete(e, p) else e
  }

  function HostStamps(e: E.Etcd): map<Path, Stamp> {
    map h | h in e.hosts :: HostPath(h) := StampOf(e.hosts[h])
  }

  function InstanceStamps(e: E.Etcd): map<Path, Stamp> {
    map i | i in e.instances :: InstancePath(i) := StampOf(e.instances[i])
  }

  function IngressStamps(e: E.Etcd): map<Path, Stamp> {
    map a | a in e.ingress :: IngressPath(a) := StampOf(e.ingress[a])
  }

  function ServiceStamps(e: E.Etcd): map<Path, Stamp> {
    InstanceStamps(e) + IngressStamps(e)
  }

  // What cullSessionValues deletes, given the sessions found live.
  function Dead(scanned: map<Path, Stamp>, live: set<string>): map<Path, Stamp> {
    map p | p in scanned && scanned[p].session != "" && scanned[p].session !in live :: scanned[p]
  }

  // How far a collection has come.
  datatype Collector =
    | Idle
    | HostsRead(seen: map<Path, Stamp>)
    | AllRead(seen: map<Path, Stamp>)
    | Culling(todo: map<Path, Stamp>)

  // unbroken: the values whose session has been live ever since they were
  // written.
  datatype State = State(etcd: E.Etcd, collector: Collector, unbroken: set<Path>)

  // What a client does to the unbroken values.
  function Writes(op: Op): Option<(Path, string)> {
    match op
    case AddInstance(session, s, i, _) => Some((InstancePath(E.Ref(s, i)), session))
    case AddIngressInstance(session, s, a, _) => Some((IngressPath(E.Ref(s, a)), session))
    case RegisterHost(session, h, _) => Some((HostPath(h), session))
    case _ => None
  }

  function StillUnbroken(e: E.Etcd, unbroken: set<Path>, op: Op): set<Path> {
    var e' := EtcdStep(e, op);
    var kept := set p | p in unbroken && StampAt(e', p).Some? && StampAt(e', p).value.session in e'.sessions;
    match Writes(op)
    case Some((p, session)) => if session in e.sessions then kept + {p} else kept - {p}
    case None => kept
  }

  datatype Action =
    | Client(op: Op)
    | ReadHosts
    | ReadServices
    | ReadLive
    | Cull(p: Path)
    | Finish

  predicate Enabled(s: State, a: Action) {
    match a
    case Client(_) => true
    case ReadHosts => s.collector.Idle?
    case ReadServices => s.collector.HostsRead?
    case ReadLive => s.collector.AllRead?
    case Cull(p) => s.collector.Culling? && p in s.collector.todo
    case Finish => true
  }

  function Next(s: State, a: Action): State
    requires Enabled(s, a)
  {
    match a
    case Client(op) => State(EtcdStep(s.etcd, op), s.collector, StillUnbroken(s.etcd, s.unbroken, op))
    case ReadHosts => s.(collector := HostsRead(HostStamps(s.etcd)))
    case ReadServices => s.(collector := AllRead(s.collector.seen + ServiceStamps(s.etcd)))
    case ReadLive => s.(collector := Culling(Dead(s.collector.seen, s.etcd.sessions)))
    case Cull(p) =>
      var e' := CompareAndDelete(s.etcd, p, s.collector.todo[p].modified);
      State(e', Culling(s.collector.todo - {p}), set q | q in s.unbroken && StampAt(e', q).Some?)
    case Finish => s.(collector := Idle)
  }

  ghost predicate SeenStamps(c: Collector, p: Path, stamp: Stamp) {
    match c
    case Idle => false
    case HostsRead(seen) => p in seen && seen[p] == stamp
    case AllRead(seen) => p in seen && seen[p] == stamp
    case Culling(todo) => p in todo && todo[p] == stamp
  }

  ghost predicate IndexPast(e: E.Etcd, p: Path) {
    StampAt(e, p).Some? ==> StampAt(e, p).value.modified <= e.index
  }

  // A scanned stamp is past, and a value still at its index is the value that
  // was scanned.
  ghost predicate ScanHolds(e: E.Etcd, p: Path, stamp: Stamp) {
    && stamp.modified <= e.index
    && (StampAt(e, p).Some? && StampAt(e, p).value.modified == stamp.modified ==> StampAt(e, p).value == stamp)
  }

  ghost predicate LiveAt(e: E.Etcd, p: Path) {
    StampAt(e, p).Some? && StampAt(e, p).value.session in e.sessions
  }

  // Nothing unbroken is due to be deleted.
  ghost predicate Inv(s: State) {
    && (forall p :: IndexPast(s.etcd, p))
    && (forall p, stamp :: SeenStamps(s.collector, p, stamp) ==> ScanHolds(s.etcd, p, stamp))
    && (forall p :: p in s.unbroken ==> LiveAt(s.etcd, p))
    && (s.collector.Culling? ==>
          forall p :: p in s.collector.todo && p in s.unbroken ==> StampAt(s.etcd, p) != Some(s.collector.todo[p]))
  }

  // A client's operation leaves each stamp alone, removes it, or writes the
  // one it names at a fresh index.
  lemma StampsAfter(e: E.Etcd, op: Op, p: Path)
    ensures var e' := EtcdStep(e, op);
            && e.index <= e'.index
            && (match Writes(op)
                case Some((q, session)) =>
                  && e'.index > e.index
                  && StampAt(e', p) == (if p == q then Some(Stamp(session, e'.index)) else StampAt(e, p))
                case None => StampAt(e', p) == None || StampAt(e', p) == StampAt(e, p))
  {
  }

  lemma ClientKeepsInv(s: State, op: Op)
    requires Inv(s)
    ensures Inv(Next(s, Client(op)))
  {
    var s' := Next(s, Client(op));
    forall p ensures IndexPast(s'.etcd, p) {
      StampsAfter(s.etcd, op, p);
      assert IndexPast(s.etcd, p);
    }
    forall p, stamp | SeenStamps(s'.collector, p, stamp) ensures ScanHolds(s'.etcd, p, stamp) {
      StampsAfter(s.etcd, op, p);
      assert SeenStamps(s.collector, p, stamp);
    }
    forall p | p in s'.unbroken ensures LiveAt(s'.etcd, p) {
      StampsAfter(s.etcd, op, p);
    }
    if s.collector.Culling? {
      forall p | p in s.collector.todo && p in s'.unbroken ensures StampAt(s'.etcd, p) != Some(s.collector.todo[p]) {
        StampsAfter(s.etcd, op, p);
        assert SeenStamps(s.collector, p, s.collector.todo[p]);
      }
    }
  }

  lemma DeleteStamps(e: E.Etcd, p: Path, q: Path)
    ensures StampAt(Delete(e, p), q) == if q == p then None else StampAt(e, q)
  {
  }

  lemma StampsOfHosts(e: E.Etcd, p: Path)
    ensures Get(HostStamps(e), p) == if p.HostPath? then StampAt(e, p) else None
  {
  }

  lemma StampsOfServices(e: E.Etcd, p: Path)
    ensures Get(ServiceStamps(e), p) == if p.HostPath? then None else StampAt(e, p)
  {
    StampsOfInstances(e, p);
    StampsOfIngress(e, p);
  }

  lemma StampsOfInstances(e: E.Etcd, p: Path)
    ensures Get(InstanceStamps(e), p) == if p.InstancePath? then StampAt(e, p) else None
  {
  }

  lemma StampsOfIngress(e: E.Etcd, p: Path)
    ensures Get(IngressStamps(e), p) == if p.IngressPath? then StampAt(e, p) else None
  {
  }

  lemma CollectorKeepsInv(s: State, a: Action)
    requires Inv(s) && Enabled(s, a) && !a.Client?
    ensures Inv(Next(s, a))
  {
    var s' := Next(s, a);
    match a {
      case ReadHosts =>
        forall p, stamp | SeenStamps(s'.collector, p, stamp) ensures ScanHolds(s'.etcd, p, stamp) {
          StampsOfHosts(s.etcd, p);
          assert IndexPast(s.etcd, p);
        }
      case ReadServices =>
        forall p, stamp | SeenStamps(s'.collector, p, stamp) ensures ScanHolds(s'.etcd, p, stamp) {
          StampsOfServices(s.etcd, p);
          assert IndexPast(s.etcd, p);
          assert SeenStamps(s.collector, p, stamp) || Get(ServiceStamps(s.etcd), p) == Some(stamp);
        }
      case ReadLive =>
        forall p, stamp | SeenStamps(s'.collector, p, stamp) ensures ScanHolds(s'.etcd, p, stamp) {
          assert SeenStamps(s.collector, p, stamp);
        }
      case Cull(p) =>
        forall q ensures IndexPast(s'.etcd, q) {
          DeleteStamps(s.etcd, p, q);
          assert IndexPast(s.etcd, q);
        }
        forall q, stamp | SeenStamps(s'.collector, q, stamp) ensures ScanHolds(s'.etcd, q, stamp) {
          DeleteStamps(s.etcd, p, q);
          assert SeenStamps(s.collector, q, stamp);
        }
        forall q | q in s'.unbroken ensures LiveAt(s'.etcd, q) {
          DeleteStamps(s.etcd, p, q);
          assert LiveAt(s.etcd, q);
        }
        forall q | q in s'.collector.todo && q in s'.unbroken
          ensures StampAt(s'.etcd, q) != Some(s'.collector.todo[q]) {
          DeleteStamps(s.etcd, p, q);
        }
      case Finish =>
    }
  }

  // A guarded delete only ever takes away the very value that was scanned, and
  // never one whose session has been live ever since it was written.
  lemma CullSpares(s: State, p: Path, q: Path)
    requires Inv(s) && Enabled(s, Cull(p))
    requires StampAt(s.etcd, q).Some? && StampAt(Next(s, Cull(p)).etcd, q) != StampAt(s.etcd, q)
    ensures q == p && q !in s.unbroken
    ensures StampAt(s.etcd, q) == Some(s.collector.todo[p])
  {
    DeleteStamps(s.etcd, p, q);
    assert SeenStamps(s.collector, p, s.collector.todo[p]);
  }

  ghost predicate IsRun(states: seq<State>, actions: seq<Action>) {
    && |states| == |actions| + 1
    && states[0] == State(E.EMPTY, Idle, {})
    && forall n :: 0 <= n < |actions| ==> Enabled(states[n], actions[n]) && states[n + 1] == Next(states[n], actions[n])
  }

  lemma {:induction false} RunKeepsInv(states: seq<State>, actions: seq<Action>, n: nat)
    requires IsRun(states, actions) && n < |states|
    ensures Inv(states[n])
  {
    if n > 0 {
      RunKeepsInv(states, actions, n - 1);
      match actions[n - 1] {
        case Client(op) => ClientKeepsInv(states[n - 1], op);
        case _ => CollectorKeepsInv(states[n - 1], actions[n - 1]);
      }
    }
  }

  lemma WriteIsUnbroken(s: State, op: Op, p: Path, session: string)
    requires Writes(op) == Some((p, session)) && session in s.etcd.sessions
    ensures p in Next(s, Client(op)).unbroken
    ensures StampAt(Next(s, Client(op)).etcd, p) == Some(Stamp(session, Next(s, Client(op)).etcd.index))
  {
    StampsAfter(s.etcd, op, p);
  }

  lemma StaysUnbroken(s: State, a: Action, p: Path)
    requires Inv(s) && Enabled(s, a) && p in s.unbroken && LiveAt(s.etcd, p)
    requires StampAt(s.etcd, p).value.session in Next(s, a).etcd.sessions
    requires a.Client? ==> StampAt(Next(s, a).etcd, p) == StampAt(s.etcd, p)
    ensures p in Next(s, a).unbroken && StampAt(Next(s, a).etcd, p) == StampAt(s.etcd, p)
  {
    match a {
      case Client(op) => StampsAfter(s.etcd, op, p);
      case Cull(q) =>
        if StampAt(Next(s, a).etcd, p) != StampAt(s.etcd, p) {
          CullSpares(s, q, p);
        }
      case _ =>
    }
  }

  // In any interleaving, a value whose session is live from its write on is
  // still there, unless a client itself removed or overwrote it.
  lemma {:induction false} LiveValueSurvives(states: seq<State>, actions: seq<Action>, w: nat, n: nat, p: Path,
                                             session: string)
    requires IsRun(states, actions) && w < n < |states|
    requires actions[w].Client? && Writes(actions[w].op) == Some((p, session))
    requires forall k :: w <= k <= n ==> session in states[k].etcd.sessions
    requires forall k :: w < k < n && actions[k].Client? ==>
              StampAt(states[k + 1].etcd, p) == StampAt(states[k].etcd, p)
    ensures p in states[n].unbroken
    ensures StampAt(states[n].etcd, p) == Some(Stamp(session, states[w + 1].etcd.index))
  {
    if n == w + 1 {
      assert states[w + 1] == Next(states[w], actions[w]);
      WriteIsUnbroken(states[w], actions[w].op, p, session);
    } else {
      LiveValueSurvives(states, actions, w, n - 1, p, session);
      RunKeepsInv(states, actions, n - 1);
      assert states[n - 1 + 1] == Next(states[n - 1], actions[n - 1]);
      StaysUnbroken(states[n - 1], actions[n - 1], p);
    }
  }

  // Every query gives the same answer.
  ghost predicate SameAnswers(e: E.Etcd, e': E.Etcd) {
    && (forall opts :: E.GetAllServices(e, opts) == E.GetAllServices(e', opts))
    && (forall s, opts :: E.GetService(e, s, opts) == E.GetService(e', s, opts))
    && E.GetHosts(e) == E.GetHosts(e')
  }

  lemma DeadDeleteKeepsLive<K(!new), V(!new)>(m: map<E.Ref<K>, E.Stamped<V>>, sessions: set<string>, i: E.Ref<K>,
                              s: string)
    requires i in m && m[i].session !in sessions
    ensures E.LiveUnder(m - {i}, sessions, s) == E.LiveUnder(m, sessions, s)
  {
    var a, b := E.LiveUnder(m - {i}, sessions, s), E.LiveUnder(m, sessions, s);
    forall n ensures Get(a, n) == Get(b, n) {
      assert n in a <==> E.Ref(s, n) in m - {i} && m[E.Ref(s, n)].session in sessions;
      assert n in b <==> E.Ref(s, n) in m && m[E.Ref(s, n)].session in sessions;
    }
    SameMaps(a, b);
  }

  lemma DeadDeleteIsInvisible(e: E.Etcd, p: Path)
    requires StampAt(e, p).Some? && StampAt(e, p).value.session !in e.sessions
    ensures SameAnswers(e, Delete(e, p))
  {
    var e' := Delete(e, p);
    forall s, opts ensures E.InfoFrom(e, s, opts) == E.InfoFrom(e', s, opts) {
      match p {
        case HostPath(_) =>
        case InstancePath(i) => DeadDeleteKeepsLive(e.instances, e.sessions, i, s);
        case IngressPath(a) => DeadDeleteKeepsLive(e.ingress, e.sessions, a, s);
      }
    }
    assert E.GetHosts(e) == E.GetHosts(e');
    forall opts ensures E.GetAllServices(e, opts) == E.GetAllServices(e', opts) {
      if e.dirs <= e.specs.Keys {
        assert E.GetAllServices(e, opts).value == E.GetAllServices(e', opts).value;
      }
    }
  }

  // A value sits below a service that exists.
  ghost predicate Housed(e: E.Etcd, p: Path) {
    match p
    case HostPath(_) => true
    case InstancePath(i) => i.service in e.dirs && i.service in e.specs
    case IngressPath(a) => a.service in e.dirs && a.service in e.specs
  }

  // Deleting a session's value changes no query result exactly when the
  // session is dead at that moment.
  lemma DeleteInvisibleIffDead(e: E.Etcd, p: Path)
    requires StampAt(e, p).Some? && Housed(e, p)
    ensures SameAnswers(e, Delete(e, p)) <==> StampAt(e, p).value.session !in e.sessions
  {
    var e' := Delete(e, p);
    if StampAt(e, p).value.session !in e.sessions {
      DeadDeleteIsInvisible(e, p);
    } else {
      match p {
        case HostPath(h) =>
          assert h in E.GetHosts(e) && h !in E.GetHosts(e');
        case InstancePath(i) =>
          assert i == E.Ref(i.service, i.name);
          assert i.name in E.GetService(e, i.service, EVERYTHING).value.instances;
          assert i.name !in E.GetService(e', i.service, EVERYTHING).value.instances;
        case IngressPath(a) =>
          assert a == E.Ref(a.service, a.name);
          assert a.name in E.GetService(e, a.service, EVERYTHING).value.ingressInstances;
          assert a.name !in E.GetService(e', a.service, EVERYTHING).value.ingressInstances;
      }
    }
  }

  lemma ScansAreStamps(e: E.Etcd)
    ensures forall p :: p in HostStamps(e) ==> p !in ServiceStamps(e) && StampAt(e, p) == Some(HostStamps(e)[p])
    ensures forall p :: p in ServiceStamps(e) ==> p !in HostStamps(e) && StampAt(e, p) == Some(ServiceStamps(e)[p])
  {
    forall p | p in HostStamps(e) || p in ServiceStamps(e)
      ensures Get(HostStamps(e), p) == if p.HostPath? then StampAt(e, p) else None
      ensures Get(ServiceStamps(e), p) == if p.HostPath? then None else StampAt(e, p)
    {
      StampsOfHosts(e, p);
      StampsOfServices(e, p);
    }
  }

  // --- that dead values go ---

  // What a scan sees: the hosts at one moment, everything else at another.
  lemma HostScanSees(s: State, p: Path)
    requires s.collector.Idle?
    ensures Next(s, ReadHosts).collector.HostsRead? && Next(s, ReadHosts).etcd == s.etcd
    ensures Get(Next(s, ReadHosts).collector.seen, p) == if p.HostPath? then StampAt(s.etcd, p) else None
  {
    StampsOfHosts(s.etcd, p);
  }

  lemma ServiceScanSees(s: State, p: Path)
    requires s.collector.HostsRead?
    ensures Next(s, ReadServices).collector.AllRead? && Next(s, ReadServices).etcd == s.etcd
    ensures Get(Next(s, ReadServices).collector.seen, p) ==
            if p.HostPath? || StampAt(s.etcd, p).None? then Get(s.collector.seen, p) else StampAt(s.etcd, p)
  {
    var seen, stamps := s.collector.seen, ServiceStamps(s.etcd);
    StampsOfServices(s.etcd, p);
    GetOfBoth(seen, stamps, p);
    assert Next(s, ReadServices).collector.seen == seen + stamps;
  }

  lemma GetOfBoth(a: map<Path, Stamp>, b: map<Path, Stamp>, p: Path)
    ensures Get(a + b, p) == if Get(b, p).Some? then Get(b, p) else Get(a, p)
  {
  }

  // Once the live sessions are read, exactly the scanned values of named dead
  // ones are due.
  lemma DueIffDead(s: State, p: Path)
    requires s.collector.AllRead?
    ensures var s' := Next(s, ReadLive);
            && s'.etcd == s.etcd && s'.collector.Culling?
            && (Enabled(s', Cull(p)) <==>
                 && p in s.collector.seen && s.collector.seen[p].session != ""
                 && s.collector.seen[p].session !in s.etcd.sessions)
            && (Enabled(s', Cull(p)) ==> s'.collector.todo[p] == s.collector.seen[p])
  {
  }

  // A value that is due, and is still the one scanned, goes.
  lemma CullRemoves(s: State, p: Path)
    requires Enabled(s, Cull(p))
    ensures var s' := Next(s, Cull(p));
            && s'.collector == Culling(s.collector.todo - {p}) && s'.etcd.sessions == s.etcd.sessions
            && (StampAt(s.etcd, p) == Some(s.collector.todo[p]) ==> StampAt(s'.etcd, p) == None)
            && (StampAt(s.etcd, p) == None ==> StampAt(s'.etcd, p) == None)
            && (forall q :: q != p ==> StampAt(s'.etcd, q) == StampAt(s.etcd, q))
  {
    forall q ensures StampAt(Delete(s.etcd, p), q) == if q == p then None else StampAt(s.etcd, q) {
      DeleteStamps(s.etcd, p, q);
    }
  }

  ghost predicate WritesAt(a: Action, p: Path) {
    a.Client? && Writes(a.op).Some? && Writes(a.op).value.0 == p
  }

  // A scanned value that is due, or gone.
  ghost predicate Going(s: State, p: Path, stamp: Stamp) {
    && s.collector.Culling?
    && (if p in s.collector.todo
        then s.collector.todo[p] == stamp && (StampAt(s.etcd, p) == None || StampAt(s.etcd, p) == Some(stamp))
        else StampAt(s.etcd, p) == None)
  }

  lemma KeepsGoing(s: State, a: Action, p: Path, stamp: Stamp)
    requires Going(s, p, stamp) && Enabled(s, a) && !a.Finish? && !WritesAt(a, p)
    ensures Going(Next(s, a), p, stamp)
  {
    match a {
      case Client(op) => StampsAfter(s.etcd, op, p);
      case Cull(q) => CullRemoves(s, q);
    }
  }

  // In any interleaving, a scanned value of a session that is dead when the
  // live ones are read, and that nobody has rewritten since the scan, is gone
  // once the collection has come past it.
  lemma {:induction false} DeadValueGoes(states: seq<State>, actions: seq<Action>, b: nat, n: nat, p: Path)
    requires IsRun(states, actions) && b < n < |states| && actions[b] == ReadLive
    requires var seen := states[b].collector.seen;
             && p in seen && seen[p].session != "" && seen[p].session !in states[b].etcd.sessions
             && (StampAt(states[b].etcd, p) == None || StampAt(states[b].etcd, p) == Some(seen[p]))
    requires forall k :: b < k < n ==> !actions[k].Finish? && !WritesAt(actions[k], p)
    ensures Going(states[n], p, states[b].collector.seen[p])
    ensures states[n].collector.Culling?
    ensures p !in states[n].collector.todo ==> StampAt(states[n].etcd, p) == None
  {
    assert states[n - 1 + 1] == Next(states[n - 1], actions[n - 1]);
    if n == b + 1 {
      DueIffDead(states[b], p);
    } else {
      DeadValueGoes(states, actions, b, n - 1, p);
      KeepsGoing(states[n - 1], actions[n - 1], p, states[b].collector.seen[p]);
    }
  }

  // --- a collection that nothing interrupts ---

  ghost predicate Leads(s: State, actions: seq<Action>, s': State)
    decreases |actions|
  {
    if actions == [] then s' == s
    else Enabled(s, actions[0]) && Leads(Next(s, actions[0]), actions[1..], s')
  }

  ghost predicate AllCulls(actions: seq<Action>) {
    forall a :: a in actions ==> a.Cull?
  }

  // Every scanned value is still there, and its session is dead.
  ghost predicate Fresh(s: State) {
    s.collector.Culling? && forall p :: p in s.collector.todo ==>
      StampAt(s.etcd, p) == Some(s.collector.todo[p]) && s.collector.todo[p].session !in s.etcd.sessions
  }

  lemma FreshCull(s: State, p: Path)
    requires Fresh(s) && Enabled(s, Cull(p))
    ensures Fresh(Next(s, Cull(p))) && SameAnswers(s.etcd, Next(s, Cull(p)).etcd)
  {
    CullRemoves(s, p);
    DeadDeleteIsInvisible(s.etcd, p);
  }

  // Some culls of what is due.
  lemma {:induction false} CullsResult(s: State, culls: seq<Action>, s': State)
    requires Fresh(s) && AllCulls(culls) && Leads(s, culls, s')
    ensures Fresh(s') && SameAnswers(s.etcd, s'.etcd) && s'.etcd.sessions == s.etcd.sessions
    ensures forall p :: StampAt(s'.etcd, p) ==
              if p in s.collector.todo && p !in s'.collector.todo then None else StampAt(s.etcd, p)
    ensures forall p :: p in s'.collector.todo ==> p in s.collector.todo
    decreases |culls|
  {
    if culls != [] {
      assert culls[0] in culls;
      var p := culls[0].p;
      FreshCull(s, p);
      CullRemoves(s, p);
      CullsResult(Next(s, culls[0]), culls[1..], s');
    }
  }

  // As many culls as there are values due, and then none is left.
  lemma {:induction false} CullsFinish(s: State) returns (culls: seq<Action>, s': State)
    requires s.collector.Culling?
    ensures AllCulls(culls) && |culls| == |s.collector.todo| && Leads(s, culls, s')
    ensures s'.collector == Culling(map[])
    decreases |s.collector.todo|
  {
    if s.collector.todo == map[] {
      culls, s' := [], s;
    } else {
      var p :| p in s.collector.todo;
      CullRemoves(s, p);
      assert (s.collector.todo - {p}).Keys == s.collector.todo.Keys - {p};
      assert |s.collector.todo| == |s.collector.todo.Keys| && |s.collector.todo - {p}| == |s.collector.todo.Keys - {p}|;
      var rest;
      rest, s' := CullsFinish(Next(s, Cull(p)));
      culls := [Cull(p)] + rest;
      assert culls[1..] == rest;
    }
  }

  // What an uninterrupted collection does, in whatever order it culls.
  lemma Uninterrupted(s: State, culls: seq<Action>, s': State)
    requires s.collector.Idle? && AllCulls(culls)
    requires Leads(Next(Next(Next(s, ReadHosts), ReadServices), ReadLive), culls, s') && s'.collector == Culling(map[])
    ensures SameAnswers(s.etcd, s'.etcd) && s'.etcd.sessions == s.etcd.sessions
    ensures forall p :: StampAt(s'.etcd, p) ==
              var stamp := StampAt(s.etcd, p);
              if stamp.Some? && stamp.value.session != "" && stamp.value.session !in s.etcd.sessions then None
              else stamp
  {
    var s1 := Next(s, ReadHosts);
    var s2 := Next(s1, ReadServices);
    var s3 := Next(s2, ReadLive);
    forall p ensures Get(s2.collector.seen, p) == StampAt(s.etcd, p) {
      HostScanSees(s, p);
      ServiceScanSees(s1, p);
    }
    forall p
      ensures p in s3.collector.todo <==>
              var stamp := StampAt(s.etcd, p);
              stamp.Some? && stamp.value.session != "" && stamp.value.session !in s.etcd.sessions
      ensures p in s3.collector.todo ==> StampAt(s.etcd, p) == Some(s3.collector.todo[p])
    {
      DueIffDead(s2, p);
      assert Get(s2.collector.seen, p) == StampAt(s.etcd, p);
    }
    CullsResult(s3, culls, s');
  }

  // It can always be completed, and then does what DoCollection does.
  lemma CollectionCompletes(s: State) returns (culls: seq<Action>, s': State)
    requires s.collector.Idle?
    ensures AllCulls(culls)
    ensures Leads(Next(Next(Next(s, ReadHosts), ReadServices), ReadLive), culls, s') && s'.collector == Culling(map[])
    ensures forall p :: StampAt(s'.etcd, p).Some? && StampAt(s'.etcd, p).value.session != "" ==>
              StampAt(s'.etcd, p).value.session in s'.etcd.sessions
  {
    culls, s' := CullsFinish(Next(Next(Next(s, ReadHosts), ReadServices), ReadLive));
    Uninterrupted(s, culls, s');
  }

  class Collection {
    var etcd: E.Etcd

    constructor (etcd: E.Etcd)
      ensures this.etcd == etcd
    {
      this.etcd := etcd;
    }

    // cullSessionValues, on a scan of the current tree.
    method CullSessionValues(scanned: map<Path, Stamp>, live: set<string>)
      requires live == etcd.sessions
      requires forall p :: p in scanned ==> StampAt(etcd, p) == Some(scanned[p])
      modifies this
      ensures SameAnswers(old(etcd), etcd) && etcd.sessions == live
      ensures forall p :: StampAt(etcd, p) ==
                if p in scanned && scanned[p].session != "" && scanned[p].session !in live then None
                else StampAt(old(etcd), p)
    {
      var rest := scanned.Keys;
      while rest != {}
        invariant rest <= scanned.Keys && etcd.sessions == live
        invariant SameAnswers(old(etcd), etcd)
        invariant forall p ::
                  StampAt(etcd, p) ==
                    if p in scanned && p !in rest && scanned[p].session != "" && scanned[p].session !in live then None
                    else StampAt(old(etcd), p)
        decreases rest
      {
        var p :| p in rest;
        rest := rest - {p};
        if scanned[p].session != "" && scanned[p].session !in live {
          ghost var before := etcd;
          DeadDeleteIsInvisible(etcd, p);
          etcd := CompareAndDelete(etcd, p, scanned[p].modified);
          forall q ensures StampAt(etcd, q) == if q == p then None else StampAt(before, q) {
            DeleteStamps(before, p, q);
          }
        }
      }
    }

    // doCollection without interference: no query result changes, and of the
    // values that name a session only those of live sessions remain.
    method DoCollection()
      modifies this
      ensures SameAnswers(old(etcd), etcd) && etcd.sessions == old(etcd.sessions)
      ensures forall p :: StampAt(etcd, p) ==
                var stamp := StampAt(old(etcd), p);
                if stamp.Some? && stamp.value.session != "" && stamp.value.session !in etcd.sessions then None
                else stamp
    {
      var hosts, services := HostStamps(etcd), ServiceStamps(etcd);
      var live := etcd.sessions;
      ghost var before := etcd;
      ScansAreStamps(etcd);
      CullSessionValues(hosts, live);
      ghost var between := etcd;
      CullSessionValues(services, live);
      forall p
        ensures StampAt(etcd, p) ==
                var stamp := StampAt(before, p);
                if stamp.Some? && stamp.value.session != "" && stamp.value.session !in live then None else stamp
      {
        StampsOfHosts(before, p);
        StampsOfServices(before, p);
      }
    }
  }
}
