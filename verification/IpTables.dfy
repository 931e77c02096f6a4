// The balancer's chain in the nat and filter tables (balancer/iptables.go).
module IpTables {
  import opened Prelude

  type Rule = seq<string>

  datatype ChainKey = ChainKey(table: string, chain: string)

  type Tables = map<ChainKey, seq<Rule>>

  // The commands that are used, by their option letter.
  datatype Command =
    | N(key: ChainKey)
    | X(key: ChainKey)
    | F(key: ChainKey)
    | I(key: ChainKey, rule: Rule)
    | A(key: ChainKey, rule: Rule)
    | D(key: ChainKey, rule: Rule)

  // The outcome of a command: Refused is iptables exiting with an error,
  // Broken is iptables failing to run at all.
  datatype Outcome = Done | Refused | Broken

  // The rule jumps to the chain.
  predicate Refers(rule: Rule, chain: string) {
    exists i :: 0 <= i < |rule| - 1 && rule[i] == "-j" && rule[i + 1] == chain
  }

  predicate Referenced(tables: Tables, key: ChainKey) {
    exists k, i :: k in tables && k.table == key.table && 0 <= i < |tables[k]| && Refers(tables[k][i], key.chain)
  }

  // The list without the first occurrence of a rule.
  function DeleteFirst(rules: seq<Rule>, rule: Rule): seq<Rule> {
    if rules == [] then []
    else if rules[0] == rule then rules[1..]
    else [rules[0]] + DeleteFirst(rules[1..], rule)
  }

  // The list without any occurrence of a rule, in its order.
  function Without(rules: seq<Rule>, rule: Rule): seq<Rule> {
    if rules == [] then []
    else if rules[0] == rule then Without(rules[1..], rule)
    else [rules[0]] + Without(rules[1..], rule)
  }

  // What iptables makes of the tables, if it accepts the command.
  function Exec(tables: Tables, c: Command): Option<Tables> {
    match c
    case N(k) => if k in tables then None else Some(tables[k := []])
    case X(k) => if k in tables && tables[k] == [] && !Referenced(tables, k) then Some(tables - {k}) else None
    case F(k) => if k in tables then Some(tables[k := []]) else None
    case I(k, r) => if k in tables then Some(tables[k := [r] + tables[k]]) else None
    case A(k, r) => if k in tables then Some(tables[k := tables[k] + [r]]) else None
    case D(k, r) => if k in tables && r in tables[k] then Some(tables[k := DeleteFirst(tables[k], r)]) else None
  }

  lemma {:induction false} DeleteFirstLess(rules: seq<Rule>, rule: Rule)
    requires rule in rules
    ensures |DeleteFirst(rules, rule)| == |rules| - 1
    ensures Without(DeleteFirst(rules, rule), rule) == Without(rules, rule)
    ensures multiset(DeleteFirst(rules, rule)) == multiset(rules) - multiset{rule}
  {
    assert rules == [rules[0]] + rules[1..];
    if rules[0] != rule {
      DeleteFirstLess(rules[1..], rule);
      assert multiset(DeleteFirst(rules, rule)) == multiset([rules[0]]) + multiset(DeleteFirst(rules[1..], rule));
    }
  }

  lemma {:induction false} WithoutMembers(rules: seq<Rule>, rule: Rule)
    ensures forall r :: r in Without(rules, rule) <==> r in rules && r != rule
  {
    if rules != [] {
      WithoutMembers(rules[1..], rule);
      assert rules == [rules[0]] + rules[1..];
    }
  }

  lemma {:induction false} WithoutAbsent(rules: seq<Rule>, rule: Rule)
    requires rule !in rules
    ensures Without(rules, rule) == rules
  {
    if rules != [] {
      assert rules[0] != rule;
      WithoutAbsent(rules[1..], rule);
      assert rules == [rules[0]] + rules[1..];
    }
  }

  function Cleared(tables: Tables, key: ChainKey, rule: Rule): Tables {
    if key in tables then tables[key := Without(tables[key], rule)] else tables
  }

  const NAT_HOOKS := ["PREROUTING", "OUTPUT"]
  const FILTER_HOOKS := ["FORWARD", "INPUT"]

  // The chain that is managed, and the bridge that the old form of jump names.
  datatype Names = Names(chain: string, bridge: string) {
    function Jump(): Rule {
      ["-j", chain]
    }

    function OldJump(): Rule {
      ["-i", bridge, "-j", chain]
    }

    function Key(table: string): ChainKey {
      ChainKey(table, chain)
    }

    function Bare(rules: seq<Rule>): seq<Rule> {
      Without(Without(rules, Jump()), OldJump())
    }

    predicate IsHook(table: string, hooks: seq<string>, k: ChainKey) {
      k.table == table && k.chain in hooks
    }

    // Both forms of jump taken out of the hook chains.
    function Unhooked(tables: Tables, table: string, hooks: seq<string>): Tables {
      map k | k in tables :: if IsHook(table, hooks, k) then Bare(tables[k]) else tables[k]
    }

    function Emptied(tables: Tables, table: string, hooks: seq<string>): Tables {
      Unhooked(tables[Key(table) := []], table, hooks)
    }

    // A new chain that the hook chains jump to first.
    function Hooked(tables: Tables, table: string, hooks: seq<string>): Tables {
      map k | k in tables.Keys + {Key(table)} ::
        if k == Key(table) then [] else if IsHook(table, hooks, k) then [Jump()] + tables[k] else tables[k]
    }

    // What deleteChain makes of the tables; it succeeds if CanDelete.
    function AfterDelete(tables: Tables, table: string, hooks: seq<string>): Tables {
      if Key(table) !in tables then tables
      else if CanDelete(tables, table, hooks) then Emptied(tables, table, hooks) - {Key(table)}
      else Emptied(tables, table, hooks)
    }

    predicate CanDelete(tables: Tables, table: string, hooks: seq<string>) {
      Key(table) !in tables || !Referenced(Emptied(tables, table, hooks), Key(table))
    }

    ghost predicate HooksFit(tables: Tables, table: string, hooks: seq<string>) {
      && chain !in hooks
      && (forall i, j :: 0 <= i < j < |hooks| ==> hooks[i] != hooks[j])
      && (forall h :: h in hooks ==> ChainKey(table, h) in tables)
    }

    // The chain is only referred to from the hook chains, in one of the two
    // forms, and not at all if it does not exist.
    ghost predicate Tidy(tables: Tables, table: string, hooks: seq<string>) {
      forall k, r :: k in tables && k.table == table && r in tables[k] && Refers(r, chain) ==>
        Key(table) in tables && k.chain in hooks + [chain] && (r == Jump() || r == OldJump() || k.chain == chain)
    }

    lemma BareMembers(rules: seq<Rule>)
      ensures forall r :: r in Bare(rules) <==> r in rules && r != Jump() && r != OldJump()
    {
      WithoutMembers(rules, Jump());
      WithoutMembers(Without(rules, Jump()), OldJump());
    }

    lemma UnhookedMore(tables: Tables, table: string, hooks: seq<string>, i: nat)
      requires i < |hooks|
      ensures Unhooked(Unhooked(tables, table, hooks[..i]), table, [hooks[i]]) ==
                Unhooked(tables, table, hooks[..i + 1])
    {
      assert hooks[..i + 1] == hooks[..i] + [hooks[i]];
      forall k | k in tables
        ensures Unhooked(Unhooked(tables, table, hooks[..i]), table, [hooks[i]])[k] ==
                  Unhooked(tables, table, hooks[..i + 1])[k]
      {
        BareMembers(tables[k]);
        if IsHook(table, hooks[..i], k) {
          BareOfBare(Bare(tables[k]));
        }
      }
    }

    // The tables once setupChain is done with them.
    function AfterSetup(tables: Tables, table: string, hooks: seq<string>): Tables {
      Hooked(AfterDelete(tables, table, hooks), table, hooks)
    }

    lemma HookedNone(tables: Tables, table: string)
      ensures Hooked(tables, table, []) == tables[Key(table) := []]
    {
    }

    lemma HookedMore(tables: Tables, table: string, hooks: seq<string>, i: nat)
      requires i < |hooks| && HooksFit(tables, table, hooks)
      ensures Exec(Hooked(tables, table, hooks[..i]), I(ChainKey(table, hooks[i]), Jump())) ==
              Some(Hooked(tables, table, hooks[..i + 1]))
    {
      assert hooks[..i + 1] == hooks[..i] + [hooks[i]];
      assert hooks[i] in hooks && hooks[i] !in hooks[..i] && hooks[i] != chain;
      var k, before := ChainKey(table, hooks[i]), Hooked(tables, table, hooks[..i]);
      assert k in before && Hooked(tables, table, hooks[..i + 1]) == before[k := [Jump()] + before[k]];
    }

    lemma JumpsRefer()
      ensures Refers(Jump(), chain) && Refers(OldJump(), chain) && Jump() != OldJump()
    {
      assert Jump()[0] == "-j" && Jump()[1] == chain;
      assert OldJump()[2] == "-j" && OldJump()[3] == chain;
    }

    // From a tidy table, deleting the chain succeeds and leaves no reference.
    lemma TidyCanDelete(tables: Tables, table: string, hooks: seq<string>)
      requires Tidy(tables, table, hooks) && HooksFit(tables, table, hooks)
      ensures CanDelete(tables, table, hooks)
      ensures forall k, r ::
                k in AfterDelete(tables, table, hooks) && k.table == table &&
                  r in AfterDelete(tables, table, hooks)[k] ==>
                !Refers(r, chain)
    {
      var emptied := Emptied(tables, table, hooks);
      if Key(table) in tables {
        forall k, r | k in emptied && k.table == table && r in emptied[k] ensures !Refers(r, chain) {
          if k != Key(table) && IsHook(table, hooks, k) {
            BareMembers(tables[k]);
          } else if k == Key(table) {
            BareMembers([]);
          }
        }
      }
    }

    // From a tidy table, setupChain leaves an empty chain, one jump to it at
    // the head of every hook chain, the other rules of hook chains in their
    // order, and everything else as it was.
    lemma SetupResult(tables: Tables, table: string, hooks: seq<string>)
      requires Tidy(tables, table, hooks) && HooksFit(tables, table, hooks)
      ensures var after := AfterSetup(tables, table, hooks);
              && CanDelete(tables, table, hooks)
              && after.Keys == tables.Keys + {Key(table)} && after[Key(table)] == []
              && (forall k :: k in tables && k != Key(table) ==>
                   after[k] == if IsHook(table, hooks, k) then [Jump()] + Bare(tables[k]) else tables[k])
    {
      TidyCanDelete(tables, table, hooks);
      JumpsRefer();
      if Key(table) !in tables {
        forall k | k in tables && IsHook(table, hooks, k) ensures Bare(tables[k]) == tables[k] {
          BareOfBare(tables[k]);
        }
      }
    }

    // The jumps of a hook chain afterwards.
    lemma OneJumpEach(tables: Tables, table: string, hooks: seq<string>, h: string)
      requires Tidy(tables, table, hooks) && HooksFit(tables, table, hooks) && h in hooks
      ensures var k, after := ChainKey(table, h), AfterSetup(tables, table, hooks);
              && k in after && multiset(after[k])[Jump()] == 1 && OldJump() !in after[k]
              && Bare(after[k]) == Bare(tables[k])
              && (forall r :: r in after[k] && Refers(r, chain) ==> r == Jump())
    {
      SetupResult(tables, table, hooks);
      JumpsRefer();
      var k := ChainKey(table, h);
      assert IsHook(table, hooks, k) && k in tables && k != Key(table);
      var bare := Bare(tables[k]);
      BareMembers(tables[k]);
      BareOfBare(bare);
      var rules := [Jump()] + bare;
      assert rules[1..] == bare && Without(rules, Jump()) == Without(bare, Jump());
      assert Jump() !in multiset(bare);
      assert multiset(rules) == multiset{Jump()} + multiset(bare);
    }

    lemma SetupStaysTidy(tables: Tables, table: string, hooks: seq<string>)
      requires Tidy(tables, table, hooks) && HooksFit(tables, table, hooks)
      ensures Tidy(AfterSetup(tables, table, hooks), table, hooks)
      ensures HooksFit(AfterSetup(tables, table, hooks), table, hooks)
    {
      SetupResult(tables, table, hooks);
      var after := AfterSetup(tables, table, hooks);
      forall k, r | k in after && k.table == table && r in after[k] && Refers(r, chain)
        ensures k.chain in hooks + [chain] && (r == Jump() || r == OldJump() || k.chain == chain)
      {
        if k.chain in hooks {
          OneJumpEach(tables, table, hooks, k.chain);
        } else {
          assert k != Key(table) && after[k] == tables[k];
        }
      }
    }

    // Doing it twice is doing it once.
    lemma SetupIdempotent(tables: Tables, table: string, hooks: seq<string>)
      requires Tidy(tables, table, hooks) && HooksFit(tables, table, hooks)
      ensures var after := AfterSetup(tables, table, hooks);
              CanDelete(after, table, hooks) && AfterSetup(after, table, hooks) == after
    {
      var after := AfterSetup(tables, table, hooks);
      SetupStaysTidy(tables, table, hooks);
      SetupResult(tables, table, hooks);
      SetupResult(after, table, hooks);
      forall k | k in after ensures AfterSetup(after, table, hooks)[k] == after[k] {
        if k != Key(table) && IsHook(table, hooks, k) {
          OneJumpEach(tables, table, hooks, k.chain);
        }
      }
    }

    // deleteChain undoes setupChain when it is given the same hook chains.
    lemma DeleteUndoesSetup(tables: Tables, table: string, hooks: seq<string>)
      requires Tidy(tables, table, hooks) && HooksFit(tables, table, hooks)
      ensures var after := AfterSetup(tables, table, hooks);
              && CanDelete(after, table, hooks)
              && AfterDelete(after, table, hooks) == Unhooked(tables, table, hooks) - {Key(table)}
    {
      var after := AfterSetup(tables, table, hooks);
      SetupStaysTidy(tables, table, hooks);
      TidyCanDelete(after, table, hooks);
      SetupResult(tables, table, hooks);
      forall k | k in tables && k != Key(table) && IsHook(table, hooks, k) ensures Bare(after[k]) == Bare(tables[k]) {
        OneJumpEach(tables, table, hooks, k.chain);
      }
    }

    // A chain that is jumped to from elsewhere is only emptied.
    lemma JumpedToIsKept(tables: Tables, table: string, h: string, left: ChainKey)
      requires Key(table) in tables && tables[Key(table)] == [] && h != chain && ChainKey(table, h) in tables
      requires left in tables && left.table == table && left.chain != h && left.chain != chain
      requires tables[left] != [] && tables[left][0] == Jump()
      ensures !CanDelete(tables, table, [h])
      ensures AfterDelete(tables, table, [h]) == tables[ChainKey(table, h) := Bare(tables[ChainKey(table, h)])]
    {
      var emptied := Emptied(tables, table, [h]);
      JumpsRefer();
      assert !IsHook(table, [h], left) && Refers(emptied[left][0], chain);
      assert emptied == tables[ChainKey(table, h) := Bare(tables[ChainKey(table, h)])];
    }

    // If a hook chain is left out, it still jumps to the chain, which
    // therefore stays; so it is with nat's OUTPUT when the balancer stops.
    lemma LeftHookedIsKept(tables: Tables, table: string, h: string, left: string)
      requires Tidy(tables, table, [h, left]) && HooksFit(tables, table, [h, left])
      ensures var after, k := AfterSetup(tables, table, [h, left]), ChainKey(table, h);
              && k in tables && !CanDelete(after, table, [h])
              && AfterDelete(after, table, [h]) == after[k := Bare(tables[k])]
    {
      var hooks := [h, left];
      assert hooks[0] != hooks[1] && hooks[0] in hooks && hooks[1] in hooks;
      SetupResult(tables, table, hooks);
      OneJumpEach(tables, table, hooks, h);
      var l := ChainKey(table, left);
      assert l in tables && IsHook(table, hooks, l) && l != Key(table);
      JumpedToIsKept(AfterSetup(tables, table, hooks), table, h, l);
    }

    // What start and stop rely on and do.
    ghost predicate Ready(tables: Tables) {
      && HooksFit(tables, "nat", NAT_HOOKS) && HooksFit(tables, "filter", FILTER_HOOKS)
      && Tidy(tables, "nat", NAT_HOOKS) && Tidy(tables, "filter", FILTER_HOOKS)
    }

    function AfterStart(tables: Tables): Tables {
      AfterSetup(AfterSetup(tables, "nat", NAT_HOOKS), "filter", FILTER_HOOKS)
    }

    function AfterStop(tables: Tables): Tables {
      AfterDelete(AfterDelete(tables, "nat", ["PREROUTING"]), "filter", FILTER_HOOKS)
    }

    // Setting up one table leaves the other alone.
    lemma NatThenFilter(tables: Tables)
      requires Ready(tables)
      ensures var after := AfterSetup(tables, "nat", NAT_HOOKS);
              && CanDelete(tables, "nat", NAT_HOOKS) && CanDelete(after, "filter", FILTER_HOOKS)
              && HooksFit(after, "filter", FILTER_HOOKS) && Tidy(after, "filter", FILTER_HOOKS)
    {
      var after := AfterSetup(tables, "nat", NAT_HOOKS);
      SetupResult(tables, "nat", NAT_HOOKS);
      assert forall k :: k in after && k.table == "filter" ==> k in tables && after[k] == tables[k];
      TidyCanDelete(after, "filter", FILTER_HOOKS);
    }

    predicate IsHookOfEither(k: ChainKey) {
      IsHook("nat", NAT_HOOKS, k) || IsHook("filter", FILTER_HOOKS, k)
    }

    // The tables that a start makes: both chains empty, jumped to first.
    ghost predicate IsStarted(tables: Tables, started: Tables) {
      && started.Keys == tables.Keys + {Key("nat"), Key("filter")}
      && started[Key("nat")] == [] && started[Key("filter")] == []
      && (forall k :: k in tables && k != Key("nat") && k != Key("filter") ==>
           started[k] == if IsHookOfEither(k) then [Jump()] + Bare(tables[k]) else tables[k])
    }

    lemma StartResult(tables: Tables)
      requires Ready(tables)
      ensures IsStarted(tables, AfterStart(tables))
    {
      NatThenFilter(tables);
      SetupResult(tables, "nat", NAT_HOOKS);
      SetupResult(AfterSetup(tables, "nat", NAT_HOOKS), "filter", FILTER_HOOKS);
    }

    // Said of the chains by name: packets that come in, or start here, meet the
    // jump first, in both tables.
    lemma StartedJumpsFirst(tables: Tables, started: Tables)
      requires Ready(tables) && IsStarted(tables, started)
      ensures forall k :: k == ChainKey("nat", "PREROUTING") || k == ChainKey("nat", "OUTPUT")
                          || k == ChainKey("filter", "FORWARD") || k == ChainKey("filter", "INPUT") ==>
                && k in started && started[k] != [] && started[k][0] == ["-j", chain]
                && k != ChainKey("nat", chain) && k != ChainKey("filter", chain)
    {
      assert NAT_HOOKS[0] in NAT_HOOKS && NAT_HOOKS[1] in NAT_HOOKS;
      assert FILTER_HOOKS[0] in FILTER_HOOKS && FILTER_HOOKS[1] in FILTER_HOOKS;
    }

    lemma BareOfHooked(rules: seq<Rule>)
      ensures Bare([Jump()] + Bare(rules)) == Bare(rules)
      ensures Bare(Bare(rules)) == Bare(rules)
    {
      BareMembers(rules);
      BareOfBare(Bare(rules));
      assert ([Jump()] + Bare(rules))[1..] == Bare(rules);
    }

    // What remains when the balancer has been started and stopped: in nat the
    // emptied chain and the jump from OUTPUT, in filter nothing.
    ghost predicate IsStopped(tables: Tables, stopped: Tables) {
      && stopped.Keys == tables.Keys + {Key("nat")} - {Key("filter")}
      && stopped[Key("nat")] == []
      && (forall k :: k in stopped && k != Key("nat") ==>
           stopped[k] ==
             if k == ChainKey("nat", "OUTPUT") then [Jump()] + Bare(tables[k])
             else if IsHookOfEither(k) then Bare(tables[k])
             else tables[k])
    }

    lemma NatStopResult(tables: Tables)
      requires Ready(tables)
      ensures var started, k := AfterStart(tables), ChainKey("nat", "PREROUTING");
              && !CanDelete(started, "nat", ["PREROUTING"]) && k in tables
              && AfterDelete(started, "nat", ["PREROUTING"]) == started[k := Bare(tables[k])]
    {
      var started, k, left := AfterStart(tables), ChainKey("nat", "PREROUTING"), ChainKey("nat", "OUTPUT");
      StartResult(tables);
      assert NAT_HOOKS[0] in NAT_HOOKS && NAT_HOOKS[1] in NAT_HOOKS;
      assert IsHook("nat", NAT_HOOKS, k) && IsHook("nat", NAT_HOOKS, left);
      BareOfHooked(tables[k]);
      JumpedToIsKept(started, "nat", "PREROUTING", left);
    }

    lemma FilterStopResult(tables: Tables)
      requires Ready(tables)
      ensures var nat_ := AfterDelete(AfterStart(tables), "nat", ["PREROUTING"]);
              && CanDelete(nat_, "filter", FILTER_HOOKS)
              && AfterStop(AfterStart(tables)) == Unhooked(nat_, "filter", FILTER_HOOKS) - {Key("filter")}
    {
      var started := AfterStart(tables);
      NatThenFilter(tables);
      SetupStaysTidy(AfterSetup(tables, "nat", NAT_HOOKS), "filter", FILTER_HOOKS);
      NatStopResult(tables);
      StartResult(tables);
      DeleteResult(started, AfterDelete(started, "nat", ["PREROUTING"]), "filter", FILTER_HOOKS);
    }

    lemma DeleteResult(before: Tables, tables: Tables, table: string, hooks: seq<string>)
      requires forall k: ChainKey :: k.table == table ==> Get(tables, k) == Get(before, k)
      requires Tidy(before, table, hooks) && HooksFit(before, table, hooks) && Key(table) in tables
      ensures CanDelete(tables, table, hooks)
      ensures AfterDelete(tables, table, hooks) == Unhooked(tables, table, hooks) - {Key(table)}
    {
      SameTableTidy(before, tables, table, hooks);
      TidyCanDelete(tables, table, hooks);
    }

    lemma SameTableTidy(before: Tables, after: Tables, table: string, hooks: seq<string>)
      requires forall k: ChainKey :: k.table == table ==> Get(after, k) == Get(before, k)
      requires Tidy(before, table, hooks) && HooksFit(before, table, hooks)
      ensures Tidy(after, table, hooks) && HooksFit(after, table, hooks)
    {
      forall k, r | k in after && k.table == table && r in after[k] && Refers(r, chain)
        ensures Key(table) in after && k.chain in hooks + [chain] && (r == Jump() || r == OldJump() || k.chain == chain)
      {
        assert Get(after, k) == Get(before, k) && Get(after, Key(table)) == Get(before, Key(table));
      }
      forall h | h in hooks ensures ChainKey(table, h) in after {
        assert Get(after, ChainKey(table, h)) == Get(before, ChainKey(table, h));
      }
    }

    lemma StoppedFrom(tables: Tables, started: Tables, nat_: Tables)
      requires IsStarted(tables, started) && ChainKey("nat", "PREROUTING") in tables
      requires chain !in NAT_HOOKS && chain !in FILTER_HOOKS
      requires var k := ChainKey("nat", "PREROUTING"); nat_ == started[k := Bare(tables[k])]
      ensures IsStopped(tables, Unhooked(nat_, "filter", FILTER_HOOKS) - {Key("filter")})
    {
      assert NAT_HOOKS[0] in NAT_HOOKS && NAT_HOOKS[1] in NAT_HOOKS;
      var stopped := Unhooked(nat_, "filter", FILTER_HOOKS) - {Key("filter")};
      forall k | k in stopped && IsHook("filter", FILTER_HOOKS, k) ensures stopped[k] == Bare(tables[k]) {
        BareOfHooked(tables[k]);
      }
    }

    lemma StopResult(tables: Tables)
      requires Ready(tables)
      ensures IsStopped(tables, AfterStop(AfterStart(tables)))
    {
      StartResult(tables);
      NatStopResult(tables);
      FilterStopResult(tables);
      assert NAT_HOOKS[1] in NAT_HOOKS;
      StoppedFrom(tables, AfterStart(tables), AfterDelete(AfterStart(tables), "nat", ["PREROUTING"]));
    }

    // What remains does not hinder the next start, which does what the first did.
    lemma StoppedIsReady(tables: Tables, stopped: Tables)
      requires Ready(tables) && IsStopped(tables, stopped)
      ensures Ready(stopped)
    {
      forall k, r | k in stopped && (k.table == "nat" || k.table == "filter") && r in stopped[k] && Refers(r, chain)
        ensures k == ChainKey("nat", "OUTPUT") && r == Jump()
      {
        if k != Key("nat") {
          BareMembers(tables[k]);
          JumpsRefer();
        }
      }
      assert NAT_HOOKS[1] in NAT_HOOKS;
    }

    lemma RestartAsFirst(tables: Tables)
      requires Ready(tables)
      ensures var stopped := AfterStop(AfterStart(tables));
              Ready(stopped) && AfterStart(stopped) == AfterStart(tables)
    {
      var stopped := AfterStop(AfterStart(tables));
      StopResult(tables);
      StoppedIsReady(tables, stopped);
      StartResult(tables);
      StartResult(stopped);
      SameStart(tables, stopped, AfterStart(tables), AfterStart(stopped));
    }

    lemma SameStart(tables: Tables, stopped: Tables, first: Tables, second: Tables)
      requires IsStopped(tables, stopped) && IsStarted(tables, first) && IsStarted(stopped, second)
      requires chain !in NAT_HOOKS && chain !in FILTER_HOOKS
      ensures first == second
    {
      forall k | k in first ensures first[k] == second[k] {
        if k != Key("nat") && k != Key("filter") {
          BareOfHooked(tables[k]);
        }
      }
    }

    lemma BareOfBare(rules: seq<Rule>)
      requires Jump() !in rules && OldJump() !in rules
      ensures Bare(rules) == rules
    {
      WithoutAbsent(rules, Jump());
      WithoutAbsent(rules, OldJump());
    }
  }

  class IpTables {
    const names: Names
    var natChainSetup: bool
    var filterChainSetup: bool
    var tables: Tables  // the kernel's
    const runs: nat -> bool  // which commands, by number, can be run
    var ran: nat  // how many have been tried

    constructor (names: Names, tables: Tables, runs: nat -> bool)
      ensures this.names == names && this.tables == tables && this.runs == runs
      ensures !natChainSetup && !filterChainSetup && ran == 0
    {
      this.names, this.tables, this.runs := names, tables, runs;
      natChainSetup, filterChainSetup, ran := false, false, 0;
    }

    // Every command tried between two moments could be run.
    ghost predicate AllRan(from: nat, to: nat) {
      forall k :: from <= k < to ==> runs(k)
    }

    // doIPTables
    method Do(c: Command) returns (outcome: Outcome)
      modifies this`tables, this`ran
      ensures ran == old(ran) + 1
      ensures outcome == if !runs(old(ran)) then Broken else if Exec(old(tables), c).None? then Refused else Done
      ensures tables == if outcome == Done then Exec(old(tables), c).value else old(tables)
    {
      ran := ran + 1;
      if !runs(ran - 1) {
        return Broken;
      }
      var after := Exec(tables, c);
      if after == None {
        return Refused;
      }
      tables := after.value;
      return Done;
    }

    // deleteChainRule
    method DeleteChainRule(key: ChainKey, rule: Rule) returns (ok: bool)
      modifies this`tables, this`ran
      ensures old(ran) <= ran && (ok <==> AllRan(old(ran), ran))
      ensures ok ==> tables == Cleared(old(tables), key, rule)
    {
      while true
        invariant old(ran) <= ran && AllRan(old(ran), ran)
        invariant Cleared(tables, key, rule) == Cleared(old(tables), key, rule)
        decreases if key in tables then |tables[key]| else 0
      {
        ghost var before := tables;
        var outcome := Do(D(key, rule));
        if outcome == Refused {
          if key in tables {
            WithoutAbsent(tables[key], rule);
          }
          assert Cleared(tables, key, rule) == tables;
          return true;
        } else if outcome == Broken {
          return false;
        }
        DeleteFirstLess(before[key], rule);
      }
    }

    // Both forms of jump are deleted from one hook chain.
    method Unhook(table: string, hook: string) returns (ok: bool)
      modifies this`tables, this`ran
      ensures old(ran) <= ran && (ok <==> AllRan(old(ran), ran))
      ensures ok ==> tables == names.Unhooked(old(tables), table, [hook])
    {
      ok := DeleteChainRule(ChainKey(table, hook), names.Jump());
      if ok {
        ok := DeleteChainRule(ChainKey(table, hook), names.OldJump());
      }
    }

    // deleteChain; it fails, with all done but the last step, if the chain is
    // still referred to.
    method DeleteChain(table: string, hooks: seq<string>) returns (ok: bool)
      modifies this`tables, this`ran
      ensures old(ran) <= ran
      ensures AllRan(old(ran), ran) ==> tables == names.AfterDelete(old(tables), table, hooks)
      ensures AllRan(old(ran), ran) ==> (ok <==> names.CanDelete(old(tables), table, hooks))
    {
      var outcome := Do(F(names.Key(table)));
      if outcome == Refused {
        return true;
      }
      for i := 0 to |hooks|
        invariant old(ran) <= ran
        invariant AllRan(old(ran), ran) ==>
                    names.Key(table) in old(tables) && tables == names.Emptied(old(tables), table, hooks[..i])
      {
        ok := Unhook(table, hooks[i]);
        if AllRan(old(ran), ran) {
          names.UnhookedMore(old(tables)[names.Key(table) := []], table, hooks, i);
        }
        if !ok {
          return;
        }
      }
      assert hooks[..|hooks|] == hooks;
      outcome := Do(X(names.Key(table)));
      ok := outcome == Done;
    }

    // setupChain
    method SetupChain(table: string, hooks: seq<string>) returns (ok: bool)
      modifies this`tables, this`ran
      ensures old(ran) <= ran
      ensures AllRan(old(ran), ran) && names.HooksFit(old(tables), table, hooks) ==>
                && (ok <==> names.CanDelete(old(tables), table, hooks))
                && (ok ==> tables == names.AfterSetup(old(tables), table, hooks))
    {
      ok := DeleteChain(table, hooks);
      if !ok {
        return;
      }
      ghost var deleted := tables;
      ghost var well := AllRan(old(ran), ran) && names.HooksFit(old(tables), table, hooks);
      var outcome := Do(N(names.Key(table)));
      if outcome != Done {
        return false;
      }
      if well {
        names.HookedNone(deleted, table);
      }
      ok := HookAll(table, hooks, deleted);
    }

    // The hook chains are made to jump to the new chain.
    method HookAll(table: string, hooks: seq<string>, ghost before: Tables) returns (ok: bool)
      modifies this`tables, this`ran
      ensures old(ran) <= ran
      ensures AllRan(old(ran), ran) && names.HooksFit(before, table, hooks) &&
                old(tables) == names.Hooked(before, table, []) ==>
                ok && tables == names.Hooked(before, table, hooks)
    {
      ghost var well := names.HooksFit(before, table, hooks) && tables == names.Hooked(before, table, []);
      for i := 0 to |hooks|
        invariant old(ran) <= ran
        invariant AllRan(old(ran), ran) && well ==> tables == names.Hooked(before, table, hooks[..i])
      {
        if well {
          names.HookedMore(before, table, hooks, i);
        }
        var outcome := Do(I(ChainKey(table, hooks[i]), names.Jump()));
        if outcome != Done {
          return false;
        }
      }
      assert hooks[..|hooks|] == hooks;
      ok := true;
    }

    method Start() returns (ok: bool)
      modifies this
      ensures old(ran) <= ran
      ensures AllRan(old(ran), ran) && names.Ready(old(tables)) ==>
                ok && natChainSetup && filterChainSetup && tables == names.AfterStart(old(tables))
      ensures old(!natChainSetup && !filterChainSetup) ==>
                (ok <==> filterChainSetup) && (filterChainSetup ==> natChainSetup)
    {
      if names.Ready(tables) {
        names.NatThenFilter(tables);
      }
      ok := SetupChain("nat", NAT_HOOKS);
      if !ok {
        return;
      }
      natChainSetup := true;
      ok := SetupChain("filter", FILTER_HOOKS);
      if !ok {
        return;
      }
      filterChainSetup := true;
    }

    // Errors are only logged; nat's OUTPUT chain is not unhooked.
    method Stop()
      modifies this
      ensures old(ran) <= ran
      ensures !natChainSetup && !filterChainSetup
      ensures AllRan(old(ran), ran) ==>
                (var nat_ := if old(natChainSetup) then names.AfterDelete(old(tables), "nat", ["PREROUTING"])
                  else old(tables);
                 tables == if old(filterChainSetup) then names.AfterDelete(nat_, "filter", FILTER_HOOKS) else nat_)
    {
      if natChainSetup {
        natChainSetup := false;
        var _ := DeleteChain("nat", ["PREROUTING"]);
      }
      if filterChainSetup {
        filterChainSetup := false;
        var _ := DeleteChain("filter", FILTER_HOOKS);
      }
    }

    // addRule
    method AddRule(table: string, rule: Rule) returns (ok: bool)
      modifies this`tables, this`ran
      ensures ran == old(ran) + 1
      ensures ok <==> runs(old(ran)) && names.Key(table) in old(tables)
      ensures ok ==> Exec(old(tables), A(names.Key(table), rule)) == Some(tables)
      ensures !ok ==> tables == old(tables)
    {
      var outcome := Do(A(names.Key(table), rule));
      ok := outcome == Done;
    }

    // deleteRule
    method DeleteRule(table: string, rule: Rule) returns (ok: bool)
      modifies this`tables, this`ran
      ensures ran == old(ran) + 1
      ensures ok <==> runs(old(ran)) && Exec(old(tables), D(names.Key(table), rule)).Some?
      ensures ok ==> Exec(old(tables), D(names.Key(table), rule)) == Some(tables)
      ensures !ok ==> tables == old(tables)
    {
      var outcome := Do(D(names.Key(table), rule));
      ok := outcome == Done;
    }
  }
}
