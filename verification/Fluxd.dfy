// One host's daemon (cmd/fluxd/main.go): the agent's stream of instance updates
// is also what the server-side balancer is told.
module Fluxd {
  import opened Prelude
  import opened StoreData
  import opened ServerSide
  import Sync = SyncInstances

  // What happens: the agent has an event, or the balancer's watcher of services
  // has an update.
  datatype Input = Agent(e: Sync.Event) | Balancer(u: ServiceUpdate)

  type Sent = Sync.Sent

  // The agent's events among the inputs, in order.
  function EventsOf(inputs: seq<Input>): seq<Sync.Event> {
    if inputs == [] then []
    else
      var rest, last := EventsOf(inputs[..|inputs| - 1]), inputs[|inputs| - 1];
      if last.Agent? then rest + [last.e] else rest
  }

  // The services that the balancer has been told of.
  function ServiceAfter(inputs: seq<Input>, s: string): Option<Service> {
    if inputs == [] then None
    else
      var before, last := ServiceAfter(inputs[..|inputs| - 1], s), inputs[|inputs| - 1];
      if last.Balancer? then NextService(last.u, s, before) else before
  }

  // That is, what was last said of it, where a reset says of services that it
  // does not give that there are none.
  lemma {:induction false} ServiceIsLast(inputs: seq<Input>, j: nat, s: string)
    requires j < |inputs| && inputs[j].Balancer? && (inputs[j].u.reset || s in inputs[j].u.services)
    requires forall i :: j < i < |inputs| && inputs[i].Balancer? ==>
               !inputs[i].u.reset && s !in inputs[i].u.services
    ensures ServiceAfter(inputs, s) ==
            if s in inputs[j].u.services && inputs[j].u.services[s].Some?
            then Some(inputs[j].u.services[s].value.service) else None
  {
    if j < |inputs| - 1 {
      ServiceIsLast(inputs[..|inputs| - 1], j, s);
    }
  }

  // EventsOf keeps just the agent's events, in order.
  lemma {:induction false} EventsOfBoth(a: seq<Input>, b: seq<Input>)
    ensures EventsOf(a + b) == EventsOf(a) + EventsOf(b)
  {
    if b == [] {
      assert a + b == a;
    } else {
      assert (a + b)[..|a + b| - 1] == a + b[..|b| - 1];
      EventsOfBoth(a, b[..|b| - 1]);
    }
  }

  lemma EventsOfOne(input: Input)
    ensures EventsOf([input]) == if input.Agent? then [input.e] else []
  {
    assert [input][..0] == [];
  }

  // The address that the balancer has recorded for an instance after a series of
  // updates.
  function RecordedAfter(sent: Sent, k: InstanceKey): Option<IPPort> {
    if sent == [] then None
    else
      var before, last := RecordedAfter(sent[..|sent| - 1], k), sent[|sent| - 1];
      if last.None? then before
      else if last.value.reset then AddressIn(last.value.instances, k)
      else Recorded(last.value.instances, k, before)
  }

  // Resets withdraw nothing, as the agent's do not.
  ghost predicate ResetsGive(sent: Sent) {
    forall n :: 0 <= n < |sent| && sent[n].Some? && sent[n].value.reset ==> AllGiven(sent[n].value.instances)
  }

  // After n updates, the recorded addresses are those of the instances that the
  // stream amounts to.
  ghost predicate TracksAt(sent: Sent, n: nat)
    requires n <= |sent|
  {
    forall k :: TracksKey(sent, n, k)
  }

  ghost predicate TracksKey(sent: Sent, n: nat, k: InstanceKey)
    requires n <= |sent|
  {
    RecordedAfter(sent[..n], k) == AddressOf(Sync.FoldAll(sent[..n]), k)
  }

  // Update n announces a recorded instance without its address.
  ghost predicate LosesAt(sent: Sent, n: nat)
    requires n < |sent|
  {
    sent[n].Some? && !sent[n].value.reset && exists k :: LosesKey(sent, n, k)
  }

  ghost predicate LosesKey(sent: Sent, n: nat, k: InstanceKey)
    requires n < |sent| && sent[n].Some?
  {
    var entries := sent[n].value.instances;
    k in entries && entries[k].Some? && entries[k].value.address.None? && RecordedAfter(sent[..n], k).Some?
  }

  lemma RecordedMore(sent: Sent, n: nat, k: InstanceKey)
    requires n < |sent|
    ensures RecordedAfter(sent[..n + 1], k) ==
            if sent[n].None? then RecordedAfter(sent[..n], k)
            else if sent[n].value.reset then AddressIn(sent[n].value.instances, k)
            else Recorded(sent[n].value.instances, k, RecordedAfter(sent[..n], k))
  {
    assert sent[..n + 1][..n] == sent[..n];
  }

  lemma FoldMore(sent: Sent, n: nat)
    requires n < |sent|
    ensures var copy := Sync.FoldAll(sent[..n]);
            Sync.FoldAll(sent[..n + 1]) == if sent[n].Some? then Folded(copy, sent[n].value) else copy
  {
    assert sent[..n + 1][..n] == sent[..n];
  }

  // One update: a record that is right stays right exactly if its address is
  // not lost, and a reset makes it right.
  lemma TracksKeyMore(sent: Sent, n: nat, k: InstanceKey)
    requires n < |sent| && ResetsGive(sent) && TracksKey(sent, n, k)
    ensures TracksKey(sent, n + 1, k) <==>
            !(sent[n].Some? && !sent[n].value.reset && LosesKey(sent, n, k))
  {
    RecordedMore(sent, n, k);
    FoldMore(sent, n);
    if sent[n].Some? {
      var u := sent[n].value;
      OverlayGet(if u.reset then map[] else Sync.FoldAll(sent[..n]), u.instances, k);
      assert u.reset && k in u.instances ==> u.instances[k].Some?;
    }
  }

  lemma TracksMore(sent: Sent, n: nat)
    requires n < |sent| && ResetsGive(sent) && TracksAt(sent, n)
    ensures TracksAt(sent, n + 1) <==> !LosesAt(sent, n)
  {
    var next := n + 1;
    forall k ensures TracksKey(sent, next, k) <==>
        !(sent[n].Some? && !sent[n].value.reset && LosesKey(sent, n, k)) {
      TracksKeyMore(sent, n, k);
    }
  }

  // The recorded addresses follow the stream throughout if and only if no
  // update loses an address.
  lemma {:induction false} TracksIffNoneLost(sent: Sent, n: nat)
    requires n <= |sent| && ResetsGive(sent)
    ensures (forall i :: 0 <= i <= n ==> TracksAt(sent, i)) <==> (forall i :: 0 <= i < n ==> !LosesAt(sent, i))
  {
    if n > 0 {
      TracksIffNoneLost(sent, n - 1);
      if TracksAt(sent, n - 1) {
        TracksMore(sent, n - 1);
      }
    }
  }

  // And whatever was lost before, they are those of the stream after a reset.
  lemma TracksAfterAnyReset(sent: Sent, n: nat)
    requires n < |sent| && ResetsGive(sent) && sent[n].Some? && sent[n].value.reset
    ensures TracksAt(sent, n + 1)
  {
    var next := n + 1;
    forall k ensures TracksKey(sent, next, k) {
      RecordedMore(sent, n, k);
      FoldMore(sent, n);
      OverlayGet(map[], sent[n].value.instances, k);
      assert k in sent[n].value.instances ==> sent[n].value.instances[k].Some?;
    }
  }

  // The server side after some inputs, of which sent came from the agent.
  ghost predicate Holds(ss: ServerSide, inputs: seq<Input>, sent: Sent)
    reads ss
  {
    && ss.Inv()
    && (forall s :: StateOf(ss.services, s).service == ServiceAfter(inputs, s))
    && (forall k: InstanceKey :: RecordedAt(ss.services, k) == RecordedAfter(sent, k))
  }

  // The agent's event, and what it sends, if anything, to the balancer.
  method Deliver(sync: Sync.SyncInstances, ss: ServerSide, e: Sync.Event, ghost sent: Sent, ghost inputs: seq<Input>)
    returns (one: Option<InstanceUpdate>)
    requires sync.Inv(Sync.FoldAll(sent)) && Sync.WellKeyedEvent(e) && Holds(ss, inputs, sent)
    modifies sync, ss`services, ss`ingress, ss`tries
    ensures sync.Inv(Sync.FoldAll(sent + [one])) && sync.KnownView() == Sync.NextView(old(sync.KnownView()), e)
    ensures one.Some? && one.value.reset ==> AllGiven(one.value.instances)
    ensures Holds(ss, inputs + [Agent(e)], sent + [one])
    ensures Sync.InSync(sync.env, Sync.FoldAll(sent + [one]), sync.KnownView())
  {
    one := sync.StepInSync(e, sent);
    assert (sent + [one])[..|sent|] == sent;
    assert (inputs + [Agent(e)])[..|inputs|] == inputs;
    if one.Some? {
      Receive(ss, one.value, sent);
    }
  }

  // The instance update case of the server side's loop.
  method Receive(ss: ServerSide, u: InstanceUpdate, ghost sent: Sent)
    requires ss.Inv() && (u.reset ==> AllGiven(u.instances))
    requires forall k: InstanceKey :: RecordedAt(ss.services, k) == RecordedAfter(sent, k)
    modifies ss`services, ss`ingress, ss`tries
    ensures ss.Inv()
    ensures forall s :: StateOf(ss.services, s).service == StateOf(old(ss.services), s).service
    ensures forall k: InstanceKey :: RecordedAt(ss.services, k) == RecordedAfter(sent + [Some(u)], k)
    ensures var copy := Sync.FoldAll(sent);
            && (u.reset ==> Tracks(ss.services, Folded(copy, u)))
            && (!u.reset && Tracks(old(ss.services), copy) ==>
                  (Tracks(ss.services, Folded(copy, u)) <==> !LosesAnAddress(old(ss.services), u)))
  {
    ghost var sent' := sent + [Some(u)];
    assert sent'[..|sent|] == sent && sent'[..|sent'|] == sent';
    ghost var before := ss.services;
    if u.reset {
      ss.ProcessInstanceReset(u);
      forall k: InstanceKey ensures RecordedAt(ss.services, k) == AddressIn(u.instances, k) {
        assert StateOf(ss.services, k.service).instances == Grouped(u.instances, k.service);
        assert k == InstanceKey(k.service, k.instance);
      }
      TracksAfterReset(ss.services, Sync.FoldAll(sent), u);
    } else {
      ss.ProcessInstanceUpdate(u);
      if Tracks(before, Sync.FoldAll(sent)) {
        TracksIffNoAddressLost(before, ss.services, Sync.FoldAll(sent), u);
      }
    }
  }

  // The balancer's service update.
  method Inform(ss: ServerSide, u: ServiceUpdate, ghost sent: Sent, ghost inputs: seq<Input>)
    requires Holds(ss, inputs, sent)
    modifies ss`services, ss`ingress, ss`tries
    ensures Holds(ss, inputs + [Balancer(u)], sent)
  {
    assert (inputs + [Balancer(u)])[..|inputs|] == inputs;
    ss.ProcessServiceUpdate(u);
    forall k: InstanceKey ensures RecordedAt(ss.services, k) == RecordedAfter(sent, k) {
      assert StateOf(ss.services, k.service).instances == StateOf(old(ss.services), k.service).instances;
    }
  }

  // Both sides from their starts, through inputs in any order: what the agent
  // sends amounts to the join of what it has been told, and the balancer holds
  // the services that it has been told and the addresses that it was sent.
  method Run(sync: Sync.SyncInstances, ss: ServerSide, inputs: seq<Input>) returns (sent: Sent)
    requires sync.services == None && sync.containers == None
    requires ss.Inv() && ss.services == map[]
    requires forall n :: 0 <= n < |inputs| && inputs[n].Agent? ==> Sync.WellKeyedEvent(inputs[n].e)
    modifies sync, ss`services, ss`ingress, ss`tries
    ensures |sent| == |EventsOf(inputs)| && ResetsGive(sent) && Holds(ss, inputs, sent)
    ensures Sync.InSyncThroughout(sync.env, sent, EventsOf(inputs))
  {
    sent := [];
    ghost var events: seq<Sync.Event> := [];
    for i := 0 to |inputs|
      invariant events == EventsOf(inputs[..i]) && |sent| == |events|
      invariant sync.Inv(Sync.FoldAll(sent)) && sync.KnownView() == Sync.ViewAfter(events)
      invariant ResetsGive(sent) && Holds(ss, inputs[..i], sent)
      invariant Sync.InSyncThroughout(sync.env, sent, events)
    {
      assert inputs[..i + 1][..i] == inputs[..i] && inputs[..i + 1] == inputs[..i] + [inputs[i]];
      match inputs[i] {
        case Agent(e) =>
          ghost var before := sent;
          var one := Deliver(sync, ss, e, sent, inputs[..i]);
          sent := sent + [one];
          Sync.InSyncMore(sync.env, before, one, events, e);
          events := events + [e];
        case Balancer(u) =>
          Inform(ss, u, sent, inputs[..i]);
      }
    }
    assert inputs[..|inputs|] == inputs;
  }

  // What the stream amounts to has an instance there, with an address.
  ghost predicate AddressedIn(copy: map<InstanceKey, Instance>, k: InstanceKey) {
    AddressOf(copy, k).Some?
  }

  // While no address has been lost, a forwarder runs exactly for a service that
  // the balancer knows and for which the stream amounts to an addressed
  // instance, with the names of these in its pool; unless the latest attempt
  // at making one has failed.
  lemma ForwardsIff(ss: ServerSide, inputs: seq<Input>, sent: Sent, s: string)
    requires Holds(ss, inputs, sent) && TracksAt(sent, |sent|)
    ensures var copy, svc := Sync.FoldAll(sent), StateOf(ss.services, s);
            var due := ServiceAfter(inputs, s).Some? && exists i :: AddressedIn(copy, InstanceKey(s, i));
            && (svc.forwarder.Some? ==> due)
            && (due && svc.forwarder.None? ==> Refused(ss.ports, ss.tries, s))
            && (svc.forwarder.Some? ==>
                  forall i :: i in svc.forwarder.value.pool <==> AddressedIn(copy, InstanceKey(s, i)))
  {
    var copy, svc := Sync.FoldAll(sent), StateOf(ss.services, s);
    assert sent[..|sent|] == sent;
    forall i ensures i in svc.instances <==> AddressedIn(copy, InstanceKey(s, i)) {
      var k := InstanceKey(s, i);
      assert TracksKey(sent, |sent|, k);
      assert RecordedAt(ss.services, k) == RecordedAfter(sent, k);
    }
    if svc.instances != map[] {
      var i :| i in svc.instances;
      assert AddressedIn(copy, InstanceKey(s, i));
    }
  }
}
