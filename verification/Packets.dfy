// What the rules of the balancer's chains do to packets: rules are read word by
// word, as iptables reads them.
module Packets {
  import opened Prelude
  import opened IpTables
  import opened Services

  // What rules ask about a packet.
  datatype Packet = Packet(bridge: string, protocol: string, destination: IPPort)

  datatype Verdict = Reject | SendTo(destination: string) | JumpTo(chain: string) | Undecided

  // The words come in pairs, an option and its value; others than these options
  // test nothing.
  predicate Holds(text: Decimal, option: string, value: string, p: Packet) {
    && (option == "-i" ==> value == p.bridge)
    && (option == "-p" ==> value == p.protocol)
    && (option == "-d" ==> value == p.destination.ip)
    && (option == "--dport" ==> value == text(p.destination.port))
  }

  predicate Matches(text: Decimal, rule: Rule, p: Packet) {
    |rule| >= 2 ==> Holds(text, rule[0], rule[1], p) && Matches(text, rule[2..], p)
  }

  function Target(rule: Rule): Verdict {
    if |rule| < 2 then Undecided
    else if rule[0] != "-j" then Target(rule[2..])
    else if rule[1] == "REJECT" then Reject
    else if rule[1] != "DNAT" then JumpTo(rule[1])
    else if |rule| >= 4 && rule[2] == "--to-destination" then SendTo(rule[3])
    else Undecided
  }

  // A packet goes through rules in order until one decides; a chain that is
  // jumped to and does not decide is left again.
  function Walk(text: Decimal, tables: Tables, table: string, rules: seq<Rule>, p: Packet, depth: nat): Verdict
    decreases depth, |rules|
  {
    if rules == [] then Undecided
    else
      var rest := Walk(text, tables, table, rules[1..], p, depth);
      if !Matches(text, rules[0], p) then rest
      else
        var v := Target(rules[0]);
        if !v.JumpTo? then (if v.Undecided? then rest else v)
        else
          var key := ChainKey(table, v.chain);
          if depth == 0 || key !in tables then rest
          else
            var there := Walk(text, tables, table, tables[key], p, depth - 1);
            if there.Undecided? then rest else there
  }

  // Ports are written differently if they are different.
  ghost predicate Distinct(text: Decimal) {
    forall a, b :: text(a) == text(b) ==> a == b
  }

  lemma PairMatches(text: Decimal, option: string, value: string, rest: Rule, p: Packet)
    ensures Matches(text, [option, value] + rest, p) <==> Holds(text, option, value, p) && Matches(text, rest, p)
    ensures option != "-j" ==> Target([option, value] + rest) == Target(rest)
  {
    assert ([option, value] + rest)[2..] == rest;
  }

  // What the rule of a state says: the packets of one address are rejected, or
  // sent to the forwarder.
  lemma HeldMeans(text: Decimal, st: State, p: Packet)
    requires Distinct(text)
    ensures Matches(text, HeldBy(text, st).rule, p) <==> p.protocol == "tcp" && p.destination == RuleAddress(st)
    ensures st.Rejecting? ==> HeldBy(text, st).table == "filter" && Target(HeldBy(text, st).rule) == Reject
    ensures st.Forwarding? ==>
              && HeldBy(text, st).table == "nat"
              && Target(HeldBy(text, st).rule) ==
                 SendTo(st.forwarder.address.ip + ":" + text(st.forwarder.address.port))
  {
    var a, r := RuleAddress(st), HeldBy(text, st).rule;
    if st.Rejecting? {
      TestsMatch(text, a, ["-j", "REJECT"] + [], p);
      TargetMatches(text, "REJECT", [], p);
      assert r == Tests(text, a) + (["-j", "REJECT"] + []);
    } else {
      var to := st.forwarder.address.ip + ":" + text(st.forwarder.address.port);
      TestsMatch(text, a, ["-j", "DNAT"] + ["--to-destination", to], p);
      TargetMatches(text, "DNAT", ["--to-destination", to], p);
      PairMatches(text, "--to-destination", to, [], p);
      assert ["--to-destination", to] + [] == ["--to-destination", to];
      assert r == Tests(text, a) + (["-j", "DNAT"] + ["--to-destination", to]);
    }
  }

  function Tests(text: Decimal, a: IPPort): Rule {
    ["-p", "tcp", "-d", a.ip, "--dport", text(a.port)]
  }

  lemma TestsMatch(text: Decimal, a: IPPort, target: Rule, p: Packet)
    requires Distinct(text)
    ensures Matches(text, Tests(text, a) + target, p) <==>
            p.protocol == "tcp" && p.destination == a && Matches(text, target, p)
    ensures Target(Tests(text, a) + target) == Target(target)
  {
    var last := ["--dport", text(a.port)] + target;
    assert Tests(text, a) + target == ["-p", "tcp"] + (["-d", a.ip] + last);
    PairMatches(text, "-p", "tcp", ["-d", a.ip] + last, p);
    PairMatches(text, "-d", a.ip, last, p);
    PairMatches(text, "--dport", text(a.port), target, p);
  }

  lemma TargetMatches(text: Decimal, target: string, rest: Rule, p: Packet)
    ensures Matches(text, ["-j", target] + rest, p) <==> Matches(text, rest, p)
    ensures target == "REJECT" ==> Target(["-j", target] + rest) == Reject
    ensures target == "DNAT" && |rest| >= 2 && rest[0] == "--to-destination" ==>
              Target(["-j", target] + rest) == SendTo(rest[1])
  {
    PairMatches(text, "-j", target, rest, p);
  }

  // If the only rule that matches is r, and it decides, it decides.
  lemma {:induction false} WalkFinds(text: Decimal, tables: Tables, table: string, rules: seq<Rule>, p: Packet,
                                     depth: nat, r: Rule)
    requires r in rules && Matches(text, r, p) && !Target(r).JumpTo? && !Target(r).Undecided?
    requires forall s :: s in rules && Matches(text, s, p) ==> s == r
    ensures Walk(text, tables, table, rules, p, depth) == Target(r)
  {
    if rules[0] != r {
      WalkFinds(text, tables, table, rules[1..], p, depth, r);
    }
  }

  lemma {:induction false} WalkPasses(text: Decimal, tables: Tables, table: string, rules: seq<Rule>, p: Packet,
                                      depth: nat)
    requires forall s :: s in rules ==> !Matches(text, s, p)
    ensures Walk(text, tables, table, rules, p, depth) == Undecided
  {
    if rules != [] {
      WalkPasses(text, tables, table, rules[1..], p, depth);
    }
  }

  // A rule in one of the chains is that of a service, or a spare one.
  lemma RuleIsHeld(names: Names, text: Decimal, tables: Tables, services: States, spare: multiset<Held>, h: Held)
    returns (n: Option<string>)
    requires Balanced(names, text, tables, services, spare) && (h.table == "nat" || h.table == "filter")
    requires h.rule in tables[names.Key(h.table)]
    ensures n.Some? ==> n.value in services && HeldBy(text, services[n.value]) == h
    ensures n.None? ==> h in spare
  {
    assert Installed(names, tables, h) == |Holders(text, services, h)| + spare[h];
    assert multiset(tables[names.Key(h.table)])[h.rule] > 0;
    if Holders(text, services, h) == {} {
      n := None;
    } else {
      var m :| m in Holders(text, services, h);
      n := Some(m);
    }
  }

  // None of the rules that are there without a service matches.
  ghost predicate SparesMiss(text: Decimal, spare: multiset<Held>, p: Packet) {
    forall h: Held :: h in spare ==> !Matches(text, h.rule, p)
  }

  // The one service whose address a packet goes to.
  ghost predicate GoesTo(services: States, n: string, p: Packet) {
    && n in services && p.protocol == "tcp" && p.destination == RuleAddress(services[n])
    && (forall m :: m in services && m != n ==> RuleAddress(services[m]) != RuleAddress(services[n]))
  }

  // What becomes of a packet in each of the two chains.
  function InChain(names: Names, text: Decimal, tables: Tables, table: string, p: Packet): Verdict
    requires names.Key(table) in tables
  {
    Walk(text, tables, table, tables[names.Key(table)], p, 0)
  }

  // A packet to a service that is forwarded is sent to its forwarder, and one to
  // a service that is rejected is rejected; the other chain does neither.
  lemma RulesRoute(names: Names, text: Decimal, tables: Tables, services: States, spare: multiset<Held>, n: string,
                   p: Packet)
    requires Distinct(text) && Balanced(names, text, tables, services, spare)
    requires GoesTo(services, n, p) && SparesMiss(text, spare, p)
    ensures services[n].Forwarding? ==>
              && InChain(names, text, tables, "nat", p) ==
                 (var to := services[n].forwarder.address; SendTo(to.ip + ":" + text(to.port)))
              && InChain(names, text, tables, "filter", p) == Undecided
    ensures services[n].Rejecting? ==>
              InChain(names, text, tables, "filter", p) == Reject && InChain(names, text, tables, "nat", p) == Undecided
  {
    var h := HeldBy(text, services[n]);
    HeldMeans(text, services[n], p);
    forall t, r | (t == "nat" || t == "filter") && r in tables[names.Key(t)] && Matches(text, r, p)
      ensures Held(t, r) == h
    {
      OnlyOneMatches(names, text, tables, services, spare, n, p, Held(t, r));
    }
    BalancedIsCovered(names, text, tables, services, spare);
    assert h.rule in multiset(tables[names.Key(h.table)]);
    WalkFinds(text, tables, h.table, tables[names.Key(h.table)], p, 0, h.rule);
    var other := if h.table == "nat" then "filter" else "nat";
    WalkPasses(text, tables, other, tables[names.Key(other)], p, 0);
  }

  lemma OnlyOneMatches(names: Names, text: Decimal, tables: Tables, services: States, spare: multiset<Held>,
                       n: string, p: Packet, h: Held)
    requires Distinct(text) && Balanced(names, text, tables, services, spare)
    requires GoesTo(services, n, p) && SparesMiss(text, spare, p)
    requires (h.table == "nat" || h.table == "filter") && h.rule in tables[names.Key(h.table)]
    requires Matches(text, h.rule, p)
    ensures h == HeldBy(text, services[n])
  {
    var m := RuleIsHeld(names, text, tables, services, spare, h);
    HeldMeans(text, services[m.value], p);
  }

  // A packet to no service's address is left alone.
  lemma RulesLeaveOthers(names: Names, text: Decimal, tables: Tables, services: States, spare: multiset<Held>,
                         p: Packet)
    requires Distinct(text) && Balanced(names, text, tables, services, spare) && SparesMiss(text, spare, p)
    requires p.protocol != "tcp" || forall n :: n in services ==> p.destination != RuleAddress(services[n])
    ensures InChain(names, text, tables, "nat", p) == InChain(names, text, tables, "filter", p) == Undecided
  {
    forall t, r | (t == "nat" || t == "filter") && r in tables[names.Key(t)] ensures !Matches(text, r, p) {
      var m := RuleIsHeld(names, text, tables, services, spare, Held(t, r));
      if m.Some? {
        HeldMeans(text, services[m.value], p);
      }
    }
    WalkPasses(text, tables, "nat", tables[names.Key("nat")], p, 0);
    WalkPasses(text, tables, "filter", tables[names.Key("filter")], p, 0);
  }

  // After an update, packets to a service that it gives are sent to where its
  // forwarder was opened, or is since before, if it has instances, and rejected
  // otherwise.
  lemma UpdateRoutes(names: Names, text: Decimal, tables: Tables, u: Update, before: States, services: States,
                     failed: set<string>, opens: Opens, tries: Tries, spare: multiset<Held>, n: string, p: Packet)
    requires Distinct(text) && Balanced(names, text, tables, services, spare) && SparesMiss(text, spare, p)
    requires n in u.updates && u.updates[n].Some? && n !in failed && GoesTo(services, n, p)
    requires Updated(u, before, services, failed, n)
    requires Listening(u, before, opens, tries, services, failed, {})
    ensures u.updates[n].value.instances == map[] ==>
              InChain(names, text, tables, "filter", p) == Reject && InChain(names, text, tables, "nat", p) == Undecided
    ensures u.updates[n].value.instances != map[] ==>
              && InChain(names, text, tables, "filter", p) == Undecided
              && (exists to: IPPort ::
                    && InChain(names, text, tables, "nat", p) == SendTo(to.ip + ":" + text(to.port))
                    && (opens(n, Tried(tries, n)) == Some(to)
                        || (n in before && before[n].Forwarding? && before[n].forwarder.address == to)))
  {
    RulesRoute(names, text, tables, services, spare, n, p);
    FollowsKind(Get(before, n), u.updates[n].value, services[n]);
    if u.updates[n].value.instances != map[] {
      var to := services[n].forwarder.address;
      assert InChain(names, text, tables, "nat", p) == SendTo(to.ip + ":" + text(to.port));
      assert WantsOne(u, before, {}, n) || !Changes(Get(before, n), u.updates[n].value);
    }
  }

  // While an update is going on, a service that is managed has a rule in its
  // chain that decides about its packets as its old state or its new one does.
  lemma CoveredMeans(names: Names, text: Decimal, m: Moment, after: States, n: string)
    requires Distinct(text) && CoveredAt(names, text, m, after, n) && n in m.states
    ensures exists st: State, rule: Rule :: (st == m.states[n] || Get(after, n) == Some(st)) &&
              RuleIn(names, m.tables, if st.Rejecting? then "filter" else "nat", rule) && Decides(text, rule, st)
  {
    var st := if Installed(names, m.tables, HeldBy(text, m.states[n])) > 0 then m.states[n] else after[n];
    var h := HeldBy(text, st);
    assert h.rule in multiset(m.tables[names.Key(h.table)]);
    forall p ensures Matches(text, h.rule, p) <==> p.protocol == "tcp" && p.destination == RuleAddress(st) {
      HeldMeans(text, st, p);
    }
    HeldMeans(text, st, Packet("", "", RuleAddress(st)));
    assert Decides(text, h.rule, st);
    assert RuleIn(names, m.tables, h.table, h.rule);
  }

  ghost predicate RuleIn(names: Names, tables: Tables, table: string, rule: Rule) {
    names.Key(table) in tables && rule in tables[names.Key(table)]
  }

  ghost predicate Decides(text: Decimal, rule: Rule, st: State) {
    && (forall p: Packet :: Matches(text, rule, p) <==> p.protocol == "tcp" && p.destination == RuleAddress(st))
    && Target(rule) == match st
                       case Rejecting(_) => Reject
                       case Forwarding(_, f) => SendTo(f.address.ip + ":" + text(f.address.port))
  }

  // --- from the hook chains ---

  // The tables of a start, with whatever rules in the balancer's two chains.
  ghost predicate SinceStart(names: Names, before: Tables, tables: Tables) {
    && names.Key("nat") in tables && names.Key("filter") in tables
    && names.IsStarted(before, tables[names.Key("nat") := []][names.Key("filter") := []])
  }

  // So they stay while only these chains change, as the balancer's calls see to.
  lemma StaysSinceStart(names: Names, before: Tables, tables: Tables, tables': Tables)
    requires SinceStart(names, before, tables) && OthersKept(names, tables, tables')
    requires names.Key("nat") in tables' && names.Key("filter") in tables'
    ensures SinceStart(names, before, tables')
  {
    var a := tables[names.Key("nat") := []][names.Key("filter") := []];
    var b := tables'[names.Key("nat") := []][names.Key("filter") := []];
    forall k ensures Get(a, k) == Get(b, k) {
      assert k != names.Key("nat") && k != names.Key("filter") ==> Get(tables', k) == Get(tables, k);
    }
    SameMaps(a, b);
  }

  // A jump at the head of a chain is taken first.
  lemma HookWalks(names: Names, text: Decimal, tables: Tables, table: string, hook: string, p: Packet)
    requires names.chain != "REJECT" && names.chain != "DNAT"
    requires ChainKey(table, hook) in tables && tables[ChainKey(table, hook)] != []
    requires tables[ChainKey(table, hook)][0] == ["-j", names.chain] && names.Key(table) in tables
    ensures var v := InChain(names, text, tables, table, p);
            !v.Undecided? ==> Walk(text, tables, table, tables[ChainKey(table, hook)], p, 1) == v
  {
    var rules := tables[ChainKey(table, hook)];
    PairMatches(text, "-j", names.chain, [], p);
    assert ["-j", names.chain] + [] == rules[0];
    assert Target(rules[0]) == JumpTo(names.chain);
  }

  // Packets that come in, or start here, are routed as the services are.
  lemma HooksRoute(names: Names, text: Decimal, before: Tables, tables: Tables, services: States,
                   spare: multiset<Held>, n: string, p: Packet)
    requires names.Ready(before) && SinceStart(names, before, tables)
    requires names.chain != "REJECT" && names.chain != "DNAT"
    requires Distinct(text) && Balanced(names, text, tables, services, spare)
    requires GoesTo(services, n, p) && SparesMiss(text, spare, p)
    ensures services[n].Forwarding? ==>
              forall hook :: hook == "PREROUTING" || hook == "OUTPUT" ==>
                && ChainKey("nat", hook) in tables
                && Walk(text, tables, "nat", tables[ChainKey("nat", hook)], p, 1) ==
                   (var to := services[n].forwarder.address; SendTo(to.ip + ":" + text(to.port)))
    ensures services[n].Rejecting? ==>
              forall hook :: hook == "FORWARD" || hook == "INPUT" ==>
                && ChainKey("filter", hook) in tables
                && Walk(text, tables, "filter", tables[ChainKey("filter", hook)], p, 1) == Reject
  {
    RulesRoute(names, text, tables, services, spare, n, p);
    var started := tables[names.Key("nat") := []][names.Key("filter") := []];
    names.StartedJumpsFirst(before, started);
    forall table, hook | (table == "nat" && (hook == "PREROUTING" || hook == "OUTPUT")) ||
                         (table == "filter" && (hook == "FORWARD" || hook == "INPUT"))
      ensures ChainKey(table, hook) in tables
      ensures var v := InChain(names, text, tables, table, p);
              !v.Undecided? ==> Walk(text, tables, table, tables[ChainKey(table, hook)], p, 1) == v
    {
      var k := ChainKey(table, hook);
      assert k in started && k != names.Key("nat") && k != names.Key("filter");
      HookWalks(names, text, tables, table, hook, p);
    }
  }
}
