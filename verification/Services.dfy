// The rule and forwarder of every service that the balancer knows
// (balancer/services.go).
module Services {
  import opened Prelude
  import opened IpTables

  // model.Service; the balancer watches services with their address only, so
  // there is one.
  datatype Service = Service(name: string, protocol: string, address: IPPort, instances: map<string, IPPort>)

  // None is a deleted service.
  datatype Update = Update(updates: map<string, Option<Service>>, reset: bool)

  datatype Forwarder = Forwarder(address: IPPort, protocol: string, pool: map<string, IPPort>)

  // rejecting and forwarding; service is the one that forwarding started with.
  datatype State =
    | Rejecting(address: IPPort)
    | Forwarding(service: Service, forwarder: Forwarder)

  // A rule in the balancer's chain of a table.
  datatype Held = Held(table: string, rule: Rule)

  type Decimal = int -> string

  function HeldBy(text: Decimal, st: State): Held {
    match st
    case Rejecting(a) => Held("filter", ["-p", "tcp", "-d", a.ip, "--dport", text(a.port), "-j", "REJECT"])
    case Forwarding(s, f) =>
      Held("nat", ["-p", "tcp", "-d", s.address.ip, "--dport", text(s.address.port), "-j", "DNAT",
                   "--to-destination", f.address.ip + ":" + text(f.address.port)])
  }

  type States = map<string, State>

  function Holders(text: Decimal, services: States, h: Held): set<string> {
    set n | n in services && HeldBy(text, services[n]) == h
  }

  function Installed(names: Names, tables: Tables, h: Held): nat {
    if names.Key(h.table) in tables then multiset(tables[names.Key(h.table)])[h.rule] else 0
  }

  // In both chains every rule is there once for every service that holds it,
  // and for every time it is in spare.
  ghost predicate Balanced(names: Names, text: Decimal, tables: Tables, services: States, spare: multiset<Held>) {
    && names.Key("nat") in tables && names.Key("filter") in tables
    && (forall h: Held :: h.table == "nat" || h.table == "filter" ==>
         Installed(names, tables, h) == |Holders(text, services, h)| + spare[h])
  }

  // Every service has its rule installed.
  ghost predicate Covered(names: Names, text: Decimal, tables: Tables, services: States) {
    forall n :: n in services ==> Installed(names, tables, HeldBy(text, services[n])) > 0
  }

  lemma BalancedIsCovered(names: Names, text: Decimal, tables: Tables, services: States, spare: multiset<Held>)
    requires Balanced(names, text, tables, services, spare)
    ensures Covered(names, text, tables, services)
  {
    forall n | n in services ensures Installed(names, tables, HeldBy(text, services[n])) > 0 {
      assert n in Holders(text, services, HeldBy(text, services[n]));
    }
  }

  lemma NothingHeldIsEmpty(names: Names, text: Decimal, tables: Tables)
    requires Balanced(names, text, tables, map[], multiset{})
    ensures tables[names.Key("nat")] == [] && tables[names.Key("filter")] == []
  {
    forall t | t == "nat" || t == "filter" ensures tables[names.Key(t)] == [] {
      var rules := tables[names.Key(t)];
      forall r ensures multiset(rules)[r] == 0 {
        assert Holders(text, map[], Held(t, r)) == {};
        assert Installed(names, tables, Held(t, r)) == |Holders(text, map[], Held(t, r))| + multiset{}[Held(t, r)];
      }
      assert multiset(rules) == multiset{} && |rules| == |multiset(rules)|;
    }
  }

  lemma RuleAdded(names: Names, text: Decimal, tables: Tables, tables': Tables, services: States,
                  spare: multiset<Held>, h: Held)
    requires Balanced(names, text, tables, services, spare)
    requires Exec(tables, A(names.Key(h.table), h.rule)) == Some(tables')
    ensures Balanced(names, text, tables', services, spare + multiset{h})
  {
    forall g: Held | g.table == "nat" || g.table == "filter"
      ensures Installed(names, tables', g) == |Holders(text, services, g)| + (spare + multiset{h})[g]
    {
      assert Installed(names, tables, g) == |Holders(text, services, g)| + spare[g];
    }
  }

  lemma RuleDeleted(names: Names, text: Decimal, tables: Tables, services: States, spare: multiset<Held>, h: Held)
    requires Balanced(names, text, tables, services, spare + multiset{h}) && (h.table == "nat" || h.table == "filter")
    ensures var after := Exec(tables, D(names.Key(h.table), h.rule));
            after.Some? && Balanced(names, text, after.value, services, spare)
  {
    assert Installed(names, tables, h) == |Holders(text, services, h)| + (spare + multiset{h})[h];
    var key := names.Key(h.table);
    assert h.rule in multiset(tables[key]);
    DeleteFirstLess(tables[key], h.rule);
    var tables' := tables[key := DeleteFirst(tables[key], h.rule)];
    forall g: Held | g.table == "nat" || g.table == "filter"
      ensures Installed(names, tables', g) == |Holders(text, services, g)| + spare[g]
    {
      OneLess(names, tables, h, g);
    }
  }

  lemma OneLess(names: Names, tables: Tables, h: Held, g: Held)
    requires names.Key(h.table) in tables && h.rule in multiset(tables[names.Key(h.table)])
    ensures var key := names.Key(h.table);
            Installed(names, tables[key := DeleteFirst(tables[key], h.rule)], g) ==
            Installed(names, tables, g) - if g == h then 1 else 0
  {
    DeleteFirstLess(tables[names.Key(h.table)], h.rule);
  }

  lemma StateDropped(names: Names, text: Decimal, tables: Tables, services: States, spare: multiset<Held>, n: string)
    requires Balanced(names, text, tables, services, spare) && n in services
    ensures Balanced(names, text, tables, services - {n}, spare + multiset{HeldBy(text, services[n])})
  {
    var h := HeldBy(text, services[n]);
    forall g: Held | g.table == "nat" || g.table == "filter"
      ensures Installed(names, tables, g) == |Holders(text, services - {n}, g)| + (spare + multiset{h})[g]
    {
      assert Installed(names, tables, g) == |Holders(text, services, g)| + spare[g];
      assert Holders(text, services - {n}, g) == Holders(text, services, g) - {n};
    }
  }

  lemma HoldersWith(text: Decimal, services: States, n: string, st: State, g: Held)
    requires n !in services
    ensures |Holders(text, services[n := st], g)| ==
              |Holders(text, services, g)| + if HeldBy(text, st) == g then 1 else 0
  {
    var before, after := Holders(text, services, g), Holders(text, services[n := st], g);
    forall k ensures k in after <==> k in before || (k == n && HeldBy(text, st) == g) {
    }
    assert after == if HeldBy(text, st) == g then before + {n} else before;
  }

  lemma StateTaken(names: Names, text: Decimal, tables: Tables, services: States, spare: multiset<Held>, n: string,
                   st: State)
    requires n !in services && Balanced(names, text, tables, services, spare + multiset{HeldBy(text, st)})
    ensures Balanced(names, text, tables, services[n := st], spare)
  {
    var h := HeldBy(text, st);
    forall g: Held | g.table == "nat" || g.table == "filter"
      ensures Installed(names, tables, g) == |Holders(text, services[n := st], g)| + spare[g]
    {
      assert Installed(names, tables, g) == |Holders(text, services, g)| + (spare + multiset{h})[g];
      HoldersWith(text, services, n, st, g);
    }
  }

  lemma StateReplaced(names: Names, text: Decimal, tables: Tables, services: States, spare: multiset<Held>, n: string,
                      st: State)
    requires n in services && Balanced(names, text, tables, services, spare + multiset{HeldBy(text, st)})
    ensures Balanced(names, text, tables, services[n := st], spare + multiset{HeldBy(text, services[n])})
  {
    var new_, old_ := multiset{HeldBy(text, st)}, multiset{HeldBy(text, services[n])};
    StateDropped(names, text, tables, services, spare + new_, n);
    assert spare + new_ + old_ == spare + old_ + new_;
    StateTaken(names, text, tables, services - {n}, spare + old_, n, st);
    assert (services - {n})[n := st] == services[n := st];
  }

  lemma RuleKept(names: Names, text: Decimal, tables: Tables, services: States, spare: multiset<Held>, n: string,
                 st: State)
    requires Balanced(names, text, tables, services, spare)
    requires n in services && HeldBy(text, st) == HeldBy(text, services[n])
    ensures Balanced(names, text, tables, services[n := st], spare)
  {
    forall g: Held | g.table == "nat" || g.table == "filter"
      ensures Installed(names, tables, g) == |Holders(text, services[n := st], g)| + spare[g]
    {
      assert Installed(names, tables, g) == |Holders(text, services, g)| + spare[g];
      assert Holders(text, services[n := st], g) == Holders(text, services, g);
    }
  }

  // --- what an update is to make of a service ---

  // A state started for s.
  ghost predicate Fresh(s: Service, st: State) {
    match st
    case Rejecting(a) => s.instances == map[] && a == s.address
    case Forwarding(c, f) => s.instances != map[] && c == s && f.pool == s.instances && f.protocol == s.protocol
  }

  // The update methods of the two states: whether they stay, and as what.
  predicate Stays(st: State, s: Service) {
    match st
    case Rejecting(_) => |s.instances| == 0
    case Forwarding(c, _) => |s.instances| != 0 && (s == c || s.address == c.address)
  }

  function Stayed(st: State, s: Service): State {
    if st.Rejecting? || s == st.service then st
    else st.(forwarder := Forwarder(st.forwarder.address, s.protocol, Retained(st.forwarder.pool, s.instances)))
  }

  ghost predicate Follows(before: Option<State>, s: Service, after: State) {
    if before.Some? && Stays(before.value, s) then after == Stayed(before.value, s) else Fresh(s, after)
  }

  // The state has to be replaced.
  ghost predicate Changes(before: Option<State>, s: Service) {
    before.None? || !Stays(before.value, s)
  }

  // A new forwarder is needed for that.
  ghost predicate Wants(before: Option<State>, s: Service) {
    Changes(before, s) && s.instances != map[]
  }

  // And there is to be none.
  ghost predicate Denied(before: Option<State>, s: Service, addr: Option<IPPort>) {
    Wants(before, s) && addr.None?
  }

  // Where forwarders come to listen, by service and number of the attempt, or
  // None if the attempt fails.
  type Opens = (string, nat) -> Option<IPPort>

  // How many forwarders have been tried, by service.
  type Tries = map<string, nat>

  function Tried(tries: Tries, n: string): nat {
    if n in tries then tries[n] else 0
  }

  function Opened(opens: Opens, tries: Tries, n: string): Option<IPPort> {
    opens(n, Tried(tries, n))
  }

  // A service with instances is forwarded and any other rejected.
  lemma FollowsKind(before: Option<State>, s: Service, after: State)
    requires Follows(before, s, after)
    ensures after.Forwarding? <==> s.instances != map[]
  {
    if s.instances == map[] {
      assert |s.instances| == 0;
    } else {
      var n :| n in s.instances;
      assert s.instances.Keys != {} && |s.instances.Keys| == |s.instances|;
    }
  }

  // The pool has the names of the update, unless the update brings back the
  // service that the forwarder was started with, in which case the pool stays
  // what it was.
  lemma PoolFollowsIff(before: Option<State>, s: Service, after: State)
    requires Follows(before, s, after) && s.instances != map[]
    ensures after.Forwarding?
    ensures var comesBack := before.Some? && before.value.Forwarding? && s == before.value.service;
            after.forwarder.pool.Keys == s.instances.Keys <==>
            !comesBack || before.value.forwarder.pool.Keys == s.instances.Keys
  {
    FollowsKind(before, s, after);
    assert |s.instances| != 0;
  }

  // So has the forwarder its protocol.
  lemma ProtocolFollowsIff(before: Option<State>, s: Service, after: State)
    requires Follows(before, s, after) && s.instances != map[]
    ensures after.Forwarding?
    ensures var comesBack := before.Some? && before.value.Forwarding? && s == before.value.service;
            after.forwarder.protocol == s.protocol <==> !comesBack || before.value.forwarder.protocol == s.protocol
  {
    FollowsKind(before, s, after);
    assert |s.instances| != 0;
  }

  // While a service is forwarded at the same address, its forwarder stays where
  // it listens, and instances that stay keep their address in the pool.
  lemma ForwarderStays(before: State, s: Service, after: State)
    requires Follows(Some(before), s, after) && before.Forwarding? && s.instances != map[]
    requires s.address == before.service.address
    ensures after.Forwarding? && after.forwarder.address == before.forwarder.address
    ensures after.service == before.service
    ensures s != before.service ==>
              forall i :: i in s.instances ==>
                && i in after.forwarder.pool
                && after.forwarder.pool[i] == if i in before.forwarder.pool then before.forwarder.pool[i]
                                              else s.instances[i]
    ensures s == before.service ==> after == before
  {
    assert |s.instances| != 0;
  }

  // A new state is for the very service, with a pool of its instances.
  lemma NewStateFits(before: Option<State>, s: Service, after: State)
    requires Follows(before, s, after)
    requires before.None? || (before.value.Rejecting? <==> s.instances != map[]) ||
             (before.value.Forwarding? && before.value.service.address != s.address)
    ensures s.instances == map[] ==> after == Rejecting(s.address)
    ensures s.instances != map[] ==>
              after.Forwarding? && after.service == s && after.forwarder.pool == s.instances &&
              after.forwarder.protocol == s.protocol
  {
    assert s.instances == map[] <==> |s.instances| == 0;
  }

  // The address that the rule matches is that of the update, unless a service
  // that was rejected before at another address is rejected again.
  function RuleAddress(st: State): IPPort {
    match st
    case Rejecting(a) => a
    case Forwarding(c, _) => c.address
  }

  lemma AddressFollowsIff(before: Option<State>, s: Service, after: State)
    requires Follows(before, s, after)
    ensures RuleAddress(after) == s.address <==>
            !(before.Some? && before.value.Rejecting? && s.instances == map[] && before.value.address != s.address)
  {
    FollowsKind(before, s, after);
    assert s.instances == map[] <==> |s.instances| == 0;
  }

  // A service that is rejected, and then rejected at another address.
  lemma MovingLeavesTheRule(s: Service, address: IPPort, started: State)
    requires Fresh(s, started) && s.instances == map[] && address != s.address
    ensures Follows(Some(started), s.(address := address), Stayed(started, s.(address := address)))
    ensures RuleAddress(Stayed(started, s.(address := address))) == s.address != address
  {
    assert |s.(address := address).instances| == 0;
  }

  // Three updates of one service: started with a, then b, then a again.
  lemma ComingBackLeavesThePool(a: Service, b: Service, started: State)
    requires Fresh(a, started) && a.instances != map[] && b.instances != map[]
    requires b.address == a.address && b.instances.Keys != a.instances.Keys
    ensures Follows(Some(started), b, Stayed(started, b)) && Follows(Some(Stayed(started, b)), a, Stayed(started, b))
    ensures Stayed(started, b).forwarder.pool.Keys == b.instances.Keys
  {
    assert |a.instances| != 0 && |b.instances| != 0;
  }

  // --- make before break ---

  // The tables after a command, and the states that services then have.
  datatype Moment = Moment(tables: Tables, states: States)

  // A service that is managed at the moment has its rule installed, or that of
  // the state it is being given.
  ghost predicate CoveredAt(names: Names, text: Decimal, m: Moment, after: States, n: string) {
    n in m.states ==>
      || Installed(names, m.tables, HeldBy(text, m.states[n])) > 0
      || (n in after && Installed(names, m.tables, HeldBy(text, after[n])) > 0)
  }

  // At each moment from a point on, every service stands as before or as after,
  // and is covered if it is managed then.
  ghost predicate CoveredSince(names: Names, text: Decimal, before: States, after: States, trace: seq<Moment>,
                               from: nat) {
    forall i, n {:trigger CoveredAt(names, text, trace[i], after, n)} {:trigger Get(trace[i].states, n)} ::
      from <= i < |trace| ==>
        && (Get(trace[i].states, n) == Get(before, n) || Get(trace[i].states, n) == Get(after, n))
        && CoveredAt(names, text, trace[i], after, n)
  }

  lemma CoverMore(names: Names, text: Decimal, before: States, mid: States, after: States,
                  trace: seq<Moment>, trace': seq<Moment>, from: nat)
    requires trace <= trace' && from <= |trace|
    requires CoveredSince(names, text, before, mid, trace, from) &&
              CoveredSince(names, text, mid, after, trace', |trace|)
    requires forall n :: Get(mid, n) == Get(before, n) || Get(mid, n) == Get(after, n)
    ensures CoveredSince(names, text, before, after, trace', from)
  {
    forall i, n | from <= i < |trace'|
      ensures Get(trace'[i].states, n) == Get(before, n) || Get(trace'[i].states, n) == Get(after, n)
      ensures CoveredAt(names, text, trace'[i], after, n)
    {
      assert Get(mid, n) == Get(before, n) || Get(mid, n) == Get(after, n);
      if i < |trace| {
        assert trace'[i] == trace[i] && CoveredAt(names, text, trace[i], mid, n);
      } else {
        assert CoveredAt(names, text, trace'[i], after, n);
      }
    }
  }

  // What doUpdate is to make of a service, unless its update failed.
  ghost predicate Updated(u: Update, before: States, after: States, failed: set<string>, n: string) {
    if n in failed then Get(after, n) == Get(before, n)
    else if n in u.updates && u.updates[n].Some? then
      n in after && Follows(Get(before, n), u.updates[n].value, after[n])
    else if n in u.updates || u.reset then n !in after
    else Get(after, n) == Get(before, n)
  }

  // The entries of an update that are not in rest have been applied.
  ghost predicate Applied(u: Update, before: States, services: States, failed: set<string>, rest: set<string>) {
    && (forall n :: if n in rest then Get(services, n) == Get(before, n)
                    else Updated(u.(reset := false), before, services, failed, n))
    && (forall n :: n in failed ==> n in u.updates && u.updates[n].Some? && n !in rest)
  }

  // What applying one entry does to the states.
  ghost predicate One(before: States, after: States, n: string, ms: Option<Service>, ok: bool) {
    && (!ok ==> ms.Some? && after == before)
    && (forall m :: m != n ==> Get(after, m) == Get(before, m))
    && (ok && ms.Some? ==> n in after && Follows(Get(before, n), ms.value, after[n]))
    && (ms.None? ==> n !in after)
  }

  lemma AppliedMore(u: Update, before: States, mid: States, after: States, failed: set<string>, rest: set<string>,
                    n: string, ok: bool)
    requires n in rest && n in u.updates && Applied(u, before, mid, failed, rest) &&
              One(mid, after, n, u.updates[n], ok)
    ensures Applied(u, before, after, if ok then failed else failed + {n}, rest - {n})
    ensures forall m :: Get(mid, m) == Get(before, m) || Get(mid, m) == Get(after, m)
  {
    var failed' := if ok then failed else failed + {n};
    assert Get(mid, n) == Get(before, n);
    forall m | m !in rest - {n} ensures Updated(u.(reset := false), before, after, failed', m) {
      assert m != n ==> Get(after, m) == Get(mid, m) && Updated(u.(reset := false), before, mid, failed, m);
    }
  }

  // Applying the entries and then dropping what a reset does not give.
  lemma UpdatedThenDropped(u: Update, before: States, mid: States, after: States, failed: set<string>, n: string)
    requires u.reset && Updated(u.(reset := false), before, mid, failed, n)
    requires n in failed ==> n in u.updates && u.updates[n].Some?
    requires Get(after, n) == if n in u.updates && u.updates[n].Some? then Get(mid, n) else None
    ensures Updated(u, before, after, failed, n)
    ensures Get(mid, n) == Get(before, n) || Get(mid, n) == Get(after, n)
  {
  }

  // Only the balancer's chains have changed.
  ghost predicate OthersKept(names: Names, before: Tables, after: Tables) {
    forall k :: k != names.Key("nat") && k != names.Key("filter") ==> Get(after, k) == Get(before, k)
  }

  // The old states' rules while the last moment but one, the new states' in
  // the last.
  lemma CoveredByTurns(names: Names, text: Decimal, before: States, after: States, trace: seq<Moment>, last: Moment)
    requires trace != [] && trace[|trace| - 1].states == before == last.states
    requires Covered(names, text, trace[|trace| - 1].tables, before) && Covered(names, text, last.tables, after)
    requires before.Keys <= after.Keys
    ensures CoveredSince(names, text, before, after, trace + [last], |trace| - 1)
  {
  }

  lemma CoveredBefore(names: Names, text: Decimal, before: States, after: States, trace: seq<Moment>)
    requires trace != [] && trace[|trace| - 1].states == before &&
              Covered(names, text, trace[|trace| - 1].tables, before)
    ensures CoveredSince(names, text, before, after, trace, |trace| - 1)
  {
  }

  lemma CoveredNow(names: Names, text: Decimal, before: States, after: States, trace: seq<Moment>, last: Moment)
    requires last.states == after && Covered(names, text, last.tables, after)
    ensures CoveredSince(names, text, before, after, trace + [last], |trace|)
  {
  }

  // --- what fails ---

  // The entries of an update that are not in rest and replace a state.
  ghost predicate Replaces(u: Update, before: States, rest: set<string>, n: string) {
    n in u.updates && n !in rest && u.updates[n].Some? && Changes(Get(before, n), u.updates[n].value)
  }

  ghost predicate WantsOne(u: Update, before: States, rest: set<string>, n: string) {
    Replaces(u, before, rest, n) && Wants(Get(before, n), u.updates[n].value)
  }

  // A replaced state's rule is added by a command of its own, numbered by at,
  // unless its forwarder cannot be made; the entry fails exactly if that is so
  // or the command cannot be run.
  ghost predicate Explained(u: Update, before: States, opens: Opens, tries: Tries, runs: nat -> bool,
                            failed: set<string>, at: map<string, nat>, from: nat, to: nat, rest: set<string>)
  {
    && (forall n :: n in at <==>
          Replaces(u, before, rest, n) && !Denied(Get(before, n), u.updates[n].value, Opened(opens, tries, n)))
    && (forall n :: n in at ==> from <= at[n] < to)
    && (forall n, m :: n in at && m in at && n != m ==> at[n] != at[m])
    && (forall n :: n in failed <==> Replaces(u, before, rest, n) && (n in at ==> !runs(at[n])))
  }

  // The same for one service.
  ghost predicate Accepts(before: Option<State>, s: Service, addr: Option<IPPort>, run: bool) {
    Changes(before, s) ==> !Denied(before, s, addr) && run
  }

  lemma ExplainedMore(u: Update, before: States, opens: Opens, tries: Tries, runs: nat -> bool,
                      failed: set<string>, at: map<string, nat>, from: nat, mid: nat, to: nat, rest: set<string>,
                      n: string, ok: bool)
    requires Explained(u, before, opens, tries, runs, failed, at, from, mid, rest) && from <= mid <= to
    requires n in rest && n in u.updates
    requires u.updates[n].None? ==> ok
    requires u.updates[n].Some? ==>
               && (ok <==> Accepts(Get(before, n), u.updates[n].value, Opened(opens, tries, n), runs(mid)))
               && (Changes(Get(before, n), u.updates[n].value) ==>
                     Denied(Get(before, n), u.updates[n].value, Opened(opens, tries, n)) || mid < to)
    ensures var at' := if u.updates[n].Some? && Changes(Get(before, n), u.updates[n].value) &&
                          !Denied(Get(before, n), u.updates[n].value, Opened(opens, tries, n))
                       then at[n := mid] else at;
            Explained(u, before, opens, tries, runs, if ok then failed else failed + {n}, at', from, to, rest - {n})
  {
  }

  // If every command can be run, what fails is what is denied a forwarder.
  lemma FailsIfDenied(u: Update, before: States, opens: Opens, tries: Tries, runs: nat -> bool,
                      failed: set<string>, at: map<string, nat>, from: nat, to: nat)
    requires Explained(u, before, opens, tries, runs, failed, at, from, to, {})
    requires forall k :: from <= k < to ==> runs(k)
    ensures forall n :: n in failed <==>
              && n in u.updates && u.updates[n].Some? && u.updates[n].value.instances != map[]
              && !(n in before && Stays(before[n], u.updates[n].value)) && opens(n, Tried(tries, n)) == None
  {
    assert forall n :: n in at ==> runs(at[n]);
  }

  // Attempts at forwarders are counted, one for every entry that wants one.
  ghost predicate Counted(u: Update, before: States, tries: Tries, tries': Tries, rest: set<string>) {
    forall n :: Tried(tries', n) == Tried(tries, n) + if WantsOne(u, before, rest, n) then 1 else 0
  }

  // New forwarders listen where they were addr.
  ghost predicate Listening(u: Update, before: States, opens: Opens, tries: Tries, services: States,
                            failed: set<string>, rest: set<string>)
  {
    forall n :: WantsOne(u, before, rest, n) && n !in failed ==>
      n in services && ListensAt(services[n], Opened(opens, tries, n))
  }

  ghost predicate ListensAt(st: State, addr: Option<IPPort>) {
    st.Forwarding? && addr == Some(st.forwarder.address)
  }

  lemma CountedMore(u: Update, before: States, tries: Tries, mid: Tries, tries': Tries, rest: set<string>, n: string)
    requires Counted(u, before, tries, mid, rest) && n in rest && n in u.updates
    requires tries' == if u.updates[n].Some? && Wants(Get(before, n), u.updates[n].value)
                       then mid[n := Tried(mid, n) + 1] else mid
    ensures Counted(u, before, tries, tries', rest - {n})
  {
    forall m ensures Tried(tries', m) == Tried(tries, m) + if WantsOne(u, before, rest - {n}, m) then 1 else 0 {
      assert WantsOne(u, before, rest - {n}, m) <==>
          WantsOne(u, before, rest, m) || (m == n && WantsOne(u, before, {}, n));
      assert Tried(mid, m) == Tried(tries, m) + if WantsOne(u, before, rest, m) then 1 else 0;
    }
  }

  lemma ListeningMore(u: Update, before: States, opens: Opens, tries: Tries, mid: States, after: States,
                      failed: set<string>, rest: set<string>, n: string, ok: bool)
    requires Listening(u, before, opens, tries, mid, failed, rest) && n in rest
    requires forall m :: m != n ==> Get(after, m) == Get(mid, m)
    requires ok && WantsOne(u, before, {}, n) ==> n in after && ListensAt(after[n], Opened(opens, tries, n))
    ensures Listening(u, before, opens, tries, after, if ok then failed else failed + {n}, rest - {n})
  {
    var failed' := if ok then failed else failed + {n};
    forall m | WantsOne(u, before, rest - {n}, m) && m !in failed'
      ensures m in after && ListensAt(after[m], Opened(opens, tries, m))
    {
      if m == n {
        assert WantsOne(u, before, {}, n);
      } else {
        assert WantsOne(u, before, rest, m) && Get(after, m) == Get(mid, m);
      }
    }
  }

  class Services {
    const text: Decimal
    const ipt: IpTables
    const opens: Opens
    var tries: Tries
    var services: States
    ghost var leaked: multiset<Held>  // rules that could not be deleted
    ghost var trace: seq<Moment>      // after every command

    constructor (text: Decimal, ipt: IpTables, opens: Opens)
      requires ipt.names.Key("nat") in ipt.tables && ipt.tables[ipt.names.Key("nat")] == []
      requires ipt.names.Key("filter") in ipt.tables && ipt.tables[ipt.names.Key("filter")] == []
      ensures this.text == text && this.ipt == ipt && this.opens == opens
      ensures services == map[] && tries == map[] && leaked == multiset{}
      ensures Inv()
    {
      this.text, this.ipt, this.opens := text, ipt, opens;
      services, tries, leaked, trace := map[], map[], multiset{}, [];
    }

    ghost predicate Inv()
      reads this`services, this`leaked, ipt`tables
    {
      Balanced(ipt.names, text, ipt.tables, services, leaked)
    }

    // There is a moment for every command, nothing leaks if all can be run, and
    // only the two chains change.
    twostate predicate Accounted()
      reads this`leaked, this`trace, ipt`ran, ipt`tables
    {
      && OthersKept(ipt.names, old(ipt.tables), ipt.tables)
      && old(ipt.ran) <= ipt.ran && |trace| - |old(trace)| == ipt.ran - old(ipt.ran)
      && (ipt.AllRan(old(ipt.ran), ipt.ran) ==> leaked == old(leaked))
    }

    // startRejecting
    method StartRejecting(s: Service) returns (state: Option<State>)
      requires Inv() && s.instances == map[]
      modifies ipt`tables, ipt`ran, this`trace
      ensures ipt.ran == old(ipt.ran) + 1 && (state.Some? <==> ipt.runs(old(ipt.ran)))
      ensures |trace| == |old(trace)| + 1
      ensures Started(state, s)
    {
      var st := Rejecting(s.address);
      state := AddRule(st);
    }

    // startForwarding, for the service that is known as n.
    method StartForwarding(n: string, s: Service) returns (state: Option<State>)
      requires Inv() && s.instances != map[]
      modifies ipt`tables, ipt`ran, this`trace, this`tries
      ensures tries == old(tries)[n := Tried(old(tries), n) + 1]
      ensures ipt.ran == old(ipt.ran) + if Opened(opens, old(tries), n).Some? then 1 else 0
      ensures |trace| - |old(trace)| == ipt.ran - old(ipt.ran)
      ensures state.Some? <==> Opened(opens, old(tries), n).Some? && ipt.runs(old(ipt.ran))
      ensures state.Some? ==> ListensAt(state.value, Opened(opens, old(tries), n))
      ensures Started(state, s)
    {
      var address := opens(n, Tried(tries, n));
      tries := tries[n := Tried(tries, n) + 1];
      if address == None {
        return None;
      }
      var st := Forwarding(s, Forwarder(address.value, s.protocol, Retained(map[], s.instances)));
      assert Retained(map[], s.instances) == s.instances;
      state := AddRule(st);
    }

    // Either nothing has happened, or the rule of a new state is installed.
    twostate predicate Started(new state: Option<State>, s: Service)
      reads this`services, this`leaked, this`trace, ipt`tables
    {
      OthersKept(ipt.names, old(ipt.tables), ipt.tables) &&
      if state.None? then
        && ipt.tables == old(ipt.tables)
        && (trace == old(trace) || trace == old(trace) + [Moment(ipt.tables, services)])
      else
        && Fresh(s, state.value)
        && Balanced(ipt.names, text, ipt.tables, services, leaked + multiset{HeldBy(text, state.value)})
        && trace == old(trace) + [Moment(ipt.tables, services)]
    }

    method AddRule(st: State) returns (state: Option<State>)
      requires Inv()
      modifies ipt`tables, ipt`ran, this`trace
      ensures ipt.ran == old(ipt.ran) + 1 && (state.Some? <==> ipt.runs(old(ipt.ran)))
      ensures trace == old(trace) + [Moment(ipt.tables, services)]
      ensures OthersKept(ipt.names, old(ipt.tables), ipt.tables)
      ensures state.None? ==> ipt.tables == old(ipt.tables)
      ensures state.Some? ==>
                && state.value == st
                && Balanced(ipt.names, text, ipt.tables, services, leaked + multiset{HeldBy(text, st)})
    {
      var h := HeldBy(text, st);
      ghost var before := ipt.tables;
      var ok := ipt.AddRule(h.table, h.rule);
      if !ok {
        trace := trace + [Moment(ipt.tables, services)];
        return None;
      }
      RuleAdded(ipt.names, text, before, ipt.tables, services, leaked, h);
      trace := trace + [Moment(ipt.tables, services)];
      state := Some(st);
    }

    // The stop methods of the two states, as services becomes after; the
    // error of deleting the rule is ignored.
    method StopState(st: State, ghost after: States)
      requires Balanced(ipt.names, text, ipt.tables, after, leaked + multiset{HeldBy(text, st)})
      modifies ipt`tables, ipt`ran, this`trace, this`leaked
      ensures ipt.ran == old(ipt.ran) + 1
      ensures leaked == if ipt.runs(old(ipt.ran)) then old(leaked) else old(leaked) + multiset{HeldBy(text, st)}
      ensures Balanced(ipt.names, text, ipt.tables, after, leaked)
      ensures OthersKept(ipt.names, old(ipt.tables), ipt.tables)
      ensures trace == old(trace) + [Moment(ipt.tables, services)]
    {
      var h := HeldBy(text, st);
      RuleDeleted(ipt.names, text, ipt.tables, after, leaked, h);
      var ok := ipt.DeleteRule(h.table, h.rule);
      if !ok {
        leaked := leaked + multiset{h};
      }
      trace := trace + [Moment(ipt.tables, services)];
    }

    // updateState, and newService for a service without a state.
    method UpdateState(n: string, s: Service) returns (ok: bool)
      requires Inv()
      modifies ipt`tables, ipt`ran, this`services, this`trace, this`leaked, this`tries
      ensures Inv() && Accounted() && old(trace) <= trace
      ensures ok <==> Accepts(Get(old(services), n), s, Opened(opens, old(tries), n), ipt.runs(old(ipt.ran)))
      ensures ok <==>
                || (n in old(services) && Stays(old(services)[n], s))
                || ((s.instances != map[] ==> opens(n, Tried(old(tries), n)) != None) && ipt.runs(old(ipt.ran)))
      ensures Counts(n, s)
      ensures !ok ==> services == old(services)
      ensures ok ==> n in services && services == old(services)[n := services[n]]
      ensures ok ==> Follows(Get(old(services), n), s, services[n])
      ensures CoveredSince(ipt.names, text, old(services), services, trace, |old(trace)|)
    {
      if n in services && Stays(services[n], s) {
        KeepState(n, s);
        ok := true;
      } else {
        ok := ChangeState(n, s);
      }
    }

    // Attempts, commands, and where a new forwarder listens, for one service.
    twostate predicate Counts(n: string, s: Service)
      reads this`tries, this`services, ipt`ran
    {
      var before, addr := old(Get(services, n)), old(Opened(opens, tries, n));
      && tries == (if Wants(before, s) then old(tries)[n := Tried(old(tries), n) + 1] else old(tries))
      && (Changes(before, s) && !Denied(before, s, addr) ==> old(ipt.ran) < ipt.ran)
      && (Wants(before, s) && addr.Some? && ipt.runs(old(ipt.ran)) ==>
            n in services && ListensAt(services[n], addr))
    }

    // The state takes the update itself; no command is run.
    method KeepState(n: string, s: Service)
      requires Inv() && n in services && Stays(services[n], s)
      modifies this`services
      ensures Inv() && services == old(services)[n := Stayed(old(services)[n], s)]
    {
      RuleKept(ipt.names, text, ipt.tables, services, leaked, n, Stayed(services[n], s));
      services := services[n := Stayed(services[n], s)];
    }

    // The start method for the new state.
    method StartState(n: string, s: Service) returns (state: Option<State>)
      requires Inv()
      modifies ipt`tables, ipt`ran, this`trace, this`tries
      ensures tries == if s.instances != map[] then old(tries)[n := Tried(old(tries), n) + 1] else old(tries)
      ensures ipt.ran == old(ipt.ran) +
                if s.instances != map[] && Opened(opens, old(tries), n).None? then 0 else 1
      ensures |trace| - |old(trace)| == ipt.ran - old(ipt.ran)
      ensures state.Some? <==>
                (s.instances != map[] ==> Opened(opens, old(tries), n).Some?) && ipt.runs(old(ipt.ran))
      ensures state.Some? && s.instances != map[] ==> ListensAt(state.value, Opened(opens, old(tries), n))
      ensures Started(state, s)
    {
      if |s.instances| == 0 {
        state := StartRejecting(s);
      } else {
        state := StartForwarding(n, s);
      }
    }

    method ChangeState(n: string, s: Service) returns (ok: bool)
      requires Changes(Get(services, n), s)
      requires Inv()
      modifies ipt`tables, ipt`ran, this`services, this`trace, this`leaked, this`tries
      ensures Inv() && Accounted() && old(trace) <= trace
      ensures ok <==> Accepts(Get(old(services), n), s, Opened(opens, old(tries), n), ipt.runs(old(ipt.ran)))
      ensures Counts(n, s)
      ensures !ok ==> services == old(services)
      ensures ok ==> n in services && services == old(services)[n := services[n]]
      ensures ok ==> Follows(Get(old(services), n), s, services[n])
      ensures CoveredSince(ipt.names, text, old(services), services, trace, |old(trace)|)
    {
      var state := StartState(n, s);
      ok := state != None;
      if ok {
        Switch(n, state.value);
      } else {
        BalancedIsCovered(ipt.names, text, ipt.tables, services, leaked);
        CoveredNow(ipt.names, text, services, services, old(trace), Moment(ipt.tables, services));
      }
    }

    // The new state has been started; the old one, if any, is stopped.
    method Switch(n: string, st: State)
      requires Balanced(ipt.names, text, ipt.tables, services, leaked + multiset{HeldBy(text, st)})
      requires trace != [] && trace[|trace| - 1] == Moment(ipt.tables, services)
      modifies ipt`tables, ipt`ran, this`services, this`trace, this`leaked
      ensures Inv() && Accounted() && old(trace) <= trace
      ensures services == old(services)[n := st]
      ensures CoveredSince(ipt.names, text, old(services), services, trace, |old(trace)| - 1)
    {
      if n in services {
        StopOld(n, st);
      } else {
        TakeState(n, st);
      }
    }

    method TakeState(n: string, st: State)
      requires Balanced(ipt.names, text, ipt.tables, services, leaked + multiset{HeldBy(text, st)})
      requires trace != [] && trace[|trace| - 1] == Moment(ipt.tables, services) && n !in services
      modifies this`services
      ensures Inv() && services == old(services)[n := st]
      ensures CoveredSince(ipt.names, text, old(services), services, trace, |trace| - 1)
    {
      BalancedIsCovered(ipt.names, text, ipt.tables, services, leaked + multiset{HeldBy(text, st)});
      StateTaken(ipt.names, text, ipt.tables, services, leaked, n, st);
      CoveredBefore(ipt.names, text, services, services[n := st], trace);
      services := services[n := st];
    }

    method StopOld(n: string, st: State)
      requires Balanced(ipt.names, text, ipt.tables, services, leaked + multiset{HeldBy(text, st)})
      requires trace != [] && trace[|trace| - 1] == Moment(ipt.tables, services) && n in services
      modifies ipt`tables, ipt`ran, this`services, this`trace, this`leaked
      ensures Inv() && Accounted() && old(trace) <= trace
      ensures services == old(services)[n := st]
      ensures CoveredSince(ipt.names, text, old(services), services, trace, |old(trace)| - 1)
    {
      ghost var before := services;
      BalancedIsCovered(ipt.names, text, ipt.tables, services, leaked + multiset{HeldBy(text, st)});
      StopReplaced(n, st);
      BalancedIsCovered(ipt.names, text, ipt.tables, services, leaked);
      CoveredByTurns(ipt.names, text, before, services, old(trace), Moment(ipt.tables, before));
    }

    method StopReplaced(n: string, st: State)
      requires Balanced(ipt.names, text, ipt.tables, services, leaked + multiset{HeldBy(text, st)}) && n in services
      modifies ipt`tables, ipt`ran, this`services, this`trace, this`leaked
      ensures Inv() && Accounted() && services == old(services)[n := st]
      ensures trace == old(trace) + [Moment(ipt.tables, old(services))]
    {
      StateReplaced(ipt.names, text, ipt.tables, services, leaked, n, st);
      var after := services[n := st];
      StopState(services[n], after);
      services := after;
    }

    // close, for a service that is being forgotten.
    method Close(n: string)
      requires Inv() && n in services
      modifies ipt`tables, ipt`ran, this`services, this`trace, this`leaked
      ensures Inv() && Accounted() && old(trace) <= trace
      ensures services == old(services) - {n}
      ensures CoveredSince(ipt.names, text, old(services), services, trace, |old(trace)|)
    {
      StateDropped(ipt.names, text, ipt.tables, services, leaked, n);
      var st := services[n];
      services := services - {n};
      StopState(st, services);
      BalancedIsCovered(ipt.names, text, ipt.tables, services, leaked);
      CoveredNow(ipt.names, text, old(services), services, old(trace), Moment(ipt.tables, services));
    }

    // doUpdate; an entry fails exactly if its forwarder cannot be made or the
    // command for its rule cannot be run.
    method DoUpdate(u: Update) returns (ghost failed: set<string>, ghost at: map<string, nat>)
      requires Inv()
      modifies ipt`tables, ipt`ran, this`services, this`trace, this`leaked, this`tries
      ensures Inv() && Accounted() && old(trace) <= trace
      ensures forall n :: Updated(u, old(services), services, failed, n)
      ensures Explained(u, old(services), opens, old(tries), ipt.runs, failed, at, old(ipt.ran), ipt.ran, {})
      ensures Counted(u, old(services), old(tries), tries, {})
      ensures Listening(u, old(services), opens, old(tries), services, failed, {})
      ensures CoveredSince(ipt.names, text, old(services), services, trace, |old(trace)|)
    {
      failed, at := ApplyUpdates(u);
      if u.reset {
        ghost var mid, midTrace := services, trace;
        DropOthers(u);
        forall n
          ensures Updated(u, old(services), services, failed, n)
          ensures Get(mid, n) == Get(old(services), n) || Get(mid, n) == Get(services, n)
        {
          UpdatedThenDropped(u, old(services), mid, services, failed, n);
        }
        CoverMore(ipt.names, text, old(services), mid, services, midTrace, trace, |old(trace)|);
        assert forall n :: WantsOne(u, old(services), {}, n) ==> Get(services, n) == Get(mid, n);
      }
    }

    // One entry of an update.
    method ApplyOne(n: string, ms: Option<Service>) returns (ok: bool)
      requires Inv()
      modifies ipt`tables, ipt`ran, this`services, this`trace, this`leaked, this`tries
      ensures Inv() && Accounted() && old(trace) <= trace
      ensures One(old(services), services, n, ms, ok)
      ensures ms.None? ==> ok && tries == old(tries)
      ensures ms.Some? ==>
                && Counts(n, ms.value)
                && (ok <==> Accepts(Get(old(services), n), ms.value, Opened(opens, old(tries), n),
                              ipt.runs(old(ipt.ran))))
      ensures CoveredSince(ipt.names, text, old(services), services, trace, |old(trace)|)
    {
      ok := true;
      match ms {
        case Some(s) => ok := UpdateState(n, s);
        case None =>
          if n in services {
            Close(n);
          }
      }
    }

    method ApplyUpdates(u: Update) returns (ghost failed: set<string>, ghost at: map<string, nat>)
      requires Inv()
      modifies ipt`tables, ipt`ran, this`services, this`trace, this`leaked, this`tries
      ensures Inv() && Accounted() && old(trace) <= trace
      ensures forall n :: Updated(u.(reset := false), old(services), services, failed, n)
      ensures forall n :: n in failed ==> n in u.updates && u.updates[n].Some?
      ensures Explained(u, old(services), opens, old(tries), ipt.runs, failed, at, old(ipt.ran), ipt.ran, {})
      ensures Counted(u, old(services), old(tries), tries, {})
      ensures Listening(u, old(services), opens, old(tries), services, failed, {})
      ensures CoveredSince(ipt.names, text, old(services), services, trace, |old(trace)|)
    {
      failed, at := {}, map[];
      var rest := u.updates.Keys;
      while rest != {}
        invariant Inv() && Accounted() && old(trace) <= trace && rest <= u.updates.Keys
        invariant Applied(u, old(services), services, failed, rest)
        invariant Explained(u, old(services), opens, old(tries), ipt.runs, failed, at, old(ipt.ran), ipt.ran, rest)
        invariant Counted(u, old(services), old(tries), tries, rest)
        invariant Listening(u, old(services), opens, old(tries), services, failed, rest)
        invariant CoveredSince(ipt.names, text, old(services), services, trace, |old(trace)|)
        decreases rest
      {
        var n :| n in rest;
        failed, at := ApplyNext(u, n, old(services), old(tries), old(ipt.ran), failed, at, rest, |old(trace)|);
        rest := rest - {n};
      }
    }

    // The next entry of an update.
    method ApplyNext(u: Update, n: string, ghost before: States, ghost tries0: Tries, ghost from: nat,
                     ghost failed0: set<string>, ghost at0: map<string, nat>, ghost rest: set<string>,
                     ghost start: nat)
      returns (ghost failed: set<string>, ghost at: map<string, nat>)
      requires Inv() && n in rest && n in u.updates && start <= |trace| && from <= ipt.ran
      requires Applied(u, before, services, failed0, rest) && Counted(u, before, tries0, tries, rest)
      requires Explained(u, before, opens, tries0, ipt.runs, failed0, at0, from, ipt.ran, rest)
      requires Listening(u, before, opens, tries0, services, failed0, rest)
      requires CoveredSince(ipt.names, text, before, services, trace, start)
      modifies ipt`tables, ipt`ran, this`services, this`trace, this`leaked, this`tries
      ensures Inv() && Accounted() && old(trace) <= trace
      ensures Applied(u, before, services, failed, rest - {n}) && Counted(u, before, tries0, tries, rest - {n})
      ensures Explained(u, before, opens, tries0, ipt.runs, failed, at, from, ipt.ran, rest - {n})
      ensures Listening(u, before, opens, tries0, services, failed, rest - {n})
      ensures CoveredSince(ipt.names, text, before, services, trace, start)
    {
      ghost var mid, midTries, midTrace, ran := services, tries, trace, ipt.ran;
      assert Get(mid, n) == Get(before, n) && Tried(midTries, n) == Tried(tries0, n);
      var ok := ApplyOne(n, u.updates[n]);
      AppliedMore(u, before, mid, services, failed0, rest, n, ok);
      CountedMore(u, before, tries0, midTries, tries, rest, n);
      ListeningMore(u, before, opens, tries0, mid, services, failed0, rest, n, ok);
      ExplainedMore(u, before, opens, tries0, ipt.runs, failed0, at0, from, ran, ipt.ran, rest, n, ok);
      failed := if ok then failed0 else failed0 + {n};
      at := if u.updates[n].Some? && Changes(Get(before, n), u.updates[n].value) &&
               !Denied(Get(before, n), u.updates[n].value, Opened(opens, tries0, n))
            then at0[n := ran] else at0;
      CoverMore(ipt.names, text, before, mid, services, midTrace, trace, start);
    }

    // Services that a reset does not give are closed.
    method DropOthers(u: Update)
      requires Inv()
      modifies ipt`tables, ipt`ran, this`services, this`trace, this`leaked
      ensures Inv() && Accounted() && old(trace) <= trace
      ensures forall n ::
                Get(services, n) == if n in u.updates && u.updates[n].Some? then Get(old(services), n) else None
      ensures CoveredSince(ipt.names, text, old(services), services, trace, |old(trace)|)
    {
      var rest := services.Keys;
      while rest != {}
        invariant Inv() && Accounted() && old(trace) <= trace
        invariant forall n :: Get(services, n) ==
                    if n in rest || (n in u.updates && u.updates[n].Some?) then Get(old(services), n) else None
        invariant CoveredSince(ipt.names, text, old(services), services, trace, |old(trace)|)
        decreases rest
      {
        ghost var mid, midTrace := services, trace;
        var n :| n in rest;
        rest := rest - {n};
        if (n !in u.updates || u.updates[n] == None) && n in services {
          Close(n);
          CoverMore(ipt.names, text, old(services), mid, services, midTrace, trace, |old(trace)|);
        }
      }
    }

    // stop: if every command could be run, nothing is left in the chains.
    method Stop()
      requires Inv()
      modifies ipt`tables, ipt`ran, this`services, this`trace, this`leaked
      ensures Inv() && Accounted() && services == map[]
      ensures ipt.AllRan(old(ipt.ran), ipt.ran) && old(leaked) == multiset{} ==>
                ipt.tables[ipt.names.Key("nat")] == [] && ipt.tables[ipt.names.Key("filter")] == []
    {
      var rest := services.Keys;
      while rest != {}
        invariant Inv() && Accounted() && services.Keys == rest
        decreases rest
      {
        var n :| n in rest;
        rest := rest - {n};
        Close(n);
      }
      if leaked == multiset{} {
        NothingHeldIsEmpty(ipt.names, text, ipt.tables);
      }
    }
  }
}
