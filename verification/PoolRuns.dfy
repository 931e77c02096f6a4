// Runs of the instance pool (balancer/forwarder/pool.go): any sequence of calls
// on current members, with a clock that does not go back.
module PoolRuns {
  import opened Prelude
  import opened Backoff
  import opened Pool
  import opened PoolHistories

  // --- single calls ---

  function Find(q: seq<PooledInstance>, name: string): (found: Option<PooledInstance>)
    ensures found.Some? ==> found.value in q && found.value.name == name
    ensures found.None? ==> forall x :: x in q ==> x.name != name
  {
    if q == [] then None else if q[0].name == name then Some(q[0]) else Find(q[1..], name)
  }

  method DoRetry(pool: InstancePool, now: Instant, ghost before: Standings) returns (ghost after: Standings)
    requires pool.Core() && before == pool.MemberStandings()
    modifies pool, pool.queue, pool.queue.retry`index, pool.queue.retry`retryTime
    ensures pool.Core() && pool.Members() == old(pool.Members())
    ensures old(pool.Valid()) ==> pool.Valid()
    ensures Moves(Retry, None, before, after, now) && after == pool.MemberStandings()
  {
    pool.ProcessRetries(now);
    forall x | x in pool.Members()
      ensures x.retryTime == old(x.retryTime) || (x.retryTime == 0 && old(x.retryTime) <= now)
    {
      if x in pool.ready {
        var k :| 0 <= k < |pool.ready| && pool.ready[k] == x;
      }
    }
    after := pool.MemberStandings();
  }

  method DoUpdate(pool: InstancePool, instances: map<string, IPPort>, now: Instant, ghost before: Standings)
    returns (ghost after: Standings)
    requires pool.Core() && before == pool.MemberStandings()
    modifies pool, pool.queue, pool.ready`index, pool.queue.retry`index
    ensures pool.Valid()
    ensures forall x :: x in pool.Members() ==> x in old(pool.Members()) || fresh(x)
    ensures Moves(Update(instances), None, before, after, now) && after == pool.MemberStandings()
    ensures Addresses(pool.Members()) == Retained(old(Addresses(pool.Members())), instances)
  {
    ghost var members := pool.Members();
    pool.UpdateInstances(instances, now);
    forall x | x in pool.Members() && x !in members ensures x.failures == 0 && x.retryTime == 0 {
      assert x !in pool.queue.retry;
      pool.MembersFit(x);
    }
    SameNamesOfMembers(pool);
    UpdateRetainsAddresses(members, pool.Members(), instances);
    after := pool.MemberStandings();
  }

  lemma SameNamesOfMembers(pool: InstancePool)
    ensures (set x | x in pool.Members() :: x.name) == Names(pool.ready) + Names(pool.queue.retry)
  {
  }

  lemma Forgiven(before: Standings, after: Standings, x: PooledInstance)
    requires after.Keys == before.Keys && x in before && after[x] == Standing(0, 0)
    requires forall y :: y in before && y != x ==> after[y] == before[y]
    ensures after == before[x := Standing(0, 0)]
  {
  }

  method SucceedMember(pool: InstancePool, x: PooledInstance, now: Instant, ghost before: Standings)
    returns (ghost after: Standings)
    requires pool.Core() && before == pool.MemberStandings() && x in pool.Members()
    modifies pool, pool.queue, x, pool.queue.retry`index
    ensures pool.Core() && pool.Members() == old(pool.Members())
    ensures old(pool.Valid()) ==> pool.Valid()
    ensures after == pool.MemberStandings() == before[x := Standing(0, 0)]
  {
    pool.MembersFit(x);
    var panicked := pool.Succeeded(x, now);
    pool.MembersFit(x);
    after := pool.MemberStandings();
    Forgiven(before, after, x);
  }

  method DoSucceed(pool: InstancePool, name: string, now: Instant, ghost before: Standings)
    returns (ghost h: Option<Happened>, ghost after: Standings)
    requires pool.Core() && before == pool.MemberStandings()
    modifies pool, pool.queue, pool.Members()
    ensures pool.Core() && pool.Members() == old(pool.Members())
    ensures old(pool.Valid()) ==> pool.Valid()
    ensures Caused({}, before.Keys, Succeed(name), now, h)
    ensures Moves(Succeed(name), h, before, after, now) && after == pool.MemberStandings()
  {
    var found := Find(pool.ready + pool.queue.retry, name);
    if found == None {
      h, after := None, before;
    } else {
      after := SucceedMember(pool, found.value, now, before);
      h := Some(Success(found.value));
    }
  }

  // Targets, and where they sit, in the pool's own terms.
  ghost function Aims(pool: InstancePool, op: Op): set<PooledInstance>
    reads pool, pool.queue, pool.Members()
  {
    match op
    case Pick(draw) => pool.Suspects(draw)
    case Fail(name) => set x | x in pool.Members() && x.name == name && x.retryTime == 0
    case _ => {}
  }

  ghost predicate AimFits(pool: InstancePool, op: Op)
    reads pool, pool.queue, pool.Members()
  {
    forall x :: x in Aims(pool, op) ==> pool.ReadySlotOf(x)
  }

  ghost predicate AimIsLast(pool: InstancePool, op: Op)
    reads pool, pool.queue, pool.Members()
  {
    forall x :: x in Aims(pool, op) ==> x.index == |pool.ready| - 1
  }

  lemma AimsAreTargets(pool: InstancePool, op: Op)
    requires pool.Core()
    ensures Aims(pool, op) == Targets(Snap(pool), op)
    ensures AimFits(pool, op) <==> IsSafe(Snap(pool), op)
    ensures AimIsLast(pool, op) <==> FailsLastOnly(Snap(pool), op)
  {
    assert forall x :: x in pool.ready ==> x in pool.Members();
    assert Aims(pool, op) == Targets(Snap(pool), op);
    assert Aims(pool, op) <= pool.Members();
  }

  lemma AimOfFail(pool: InstancePool, x: PooledInstance)
    requires pool.Core() && x in pool.Members()
    ensures AimFits(pool, Fail(x.name)) <==> (x.retryTime == 0 ==> pool.ReadySlotOf(x))
    ensures AimIsLast(pool, Fail(x.name)) <==> (x.retryTime == 0 ==> x.index == |pool.ready| - 1)
  {
    assert UniqueNames(pool.Members());
    assert Aims(pool, Fail(x.name)) == if x.retryTime == 0 then {x} else {};
  }

  lemma NobodyToFail(pool: InstancePool, name: string)
    requires forall x :: x in pool.Members() ==> x.name != name
    ensures Aims(pool, Fail(name)) == {}
    ensures AimFits(pool, Fail(name)) && AimIsLast(pool, Fail(name))
  {
  }

  lemma NobodyToPick(pool: InstancePool, draw: nat)
    requires pool.Suspects(draw) == {}
    ensures Aims(pool, Pick(draw)) == {}
    ensures AimFits(pool, Pick(draw)) && AimIsLast(pool, Pick(draw))
  {
  }

  // Failed on a member, as written or repaired; fits says whether fail is
  // given an instance that sits where it says, if it is called.
  method FailMember(pool: InstancePool, x: PooledInstance, name: string, now: Instant, repaired: bool,
                    ghost before: Standings)
    returns (fits: bool, panicked: bool, ghost h: Option<Happened>, ghost after: Standings)
    requires pool.Core() && (repaired ==> pool.Valid()) && before == pool.MemberStandings() && x in pool.Members()
    requires x.name == name
    modifies pool, pool.queue, pool.Members()
    ensures fits <==> old(AimFits(pool, Fail(name)))
    ensures fits <==> !panicked && pool.Core() && pool.Members() == old(pool.Members())
    ensures Caused(old(Aims(pool, Fail(name))), before.Keys, Fail(name), now, h)
    ensures fits ==> Moves(Fail(name), h, before, after, now) && after == pool.MemberStandings()
    ensures repaired ==> fits && pool.Valid()
    ensures old(pool.Valid()) && !repaired ==> (pool.Valid() <==> old(AimIsLast(pool, Fail(name))))
  {
    AimOfFail(pool, x);
    if x.retryTime == 0 {
      h := Some(Failure(x, now));
      fits, panicked, after := FailReady(pool, x, now, repaired, before);
    } else {
      fits, panicked, h, after := true, false, None, before;
      if repaired {
        pool.FailedRepaired(x, now);
      } else {
        panicked := pool.Failed(x, now);
      }
    }
  }

  method FailReady(pool: InstancePool, x: PooledInstance, now: Instant, repaired: bool, ghost before: Standings)
    returns (fits: bool, panicked: bool, ghost after: Standings)
    requires pool.Core() && (repaired ==> pool.Valid()) && before == pool.MemberStandings()
    requires x in pool.Members() && x.retryTime == 0
    modifies pool, pool.queue, pool.Members()
    ensures fits <==> old(pool.ReadySlotOf(x))
    ensures fits <==> !panicked && pool.Core() && pool.Members() == old(pool.Members())
    ensures fits ==> FailedOnce(before, after, x, now) && after == pool.MemberStandings()
    ensures repaired ==> fits && pool.Valid()
    ensures old(pool.Valid()) && !repaired ==> (pool.Valid() <==> old(x.index == |pool.ready| - 1))
  {
    pool.MembersFit(x);
    fits, panicked := x.index < |pool.ready| && pool.ready[x.index] == x, false;
    if repaired {
      pool.FailedRepaired(x, now);
    } else {
      panicked := pool.Failed(x, now);
    }
    after := pool.MemberStandings();
  }

  method DoFail(pool: InstancePool, name: string, now: Instant, repaired: bool, ghost before: Standings)
    returns (fits: bool, panicked: bool, ghost h: Option<Happened>, ghost after: Standings)
    requires pool.Core() && (repaired ==> pool.Valid()) && before == pool.MemberStandings()
    modifies pool, pool.queue, pool.Members()
    ensures fits <==> old(AimFits(pool, Fail(name)))
    ensures fits <==> !panicked && pool.Core() && pool.Members() == old(pool.Members())
    ensures Caused(old(Aims(pool, Fail(name))), before.Keys, Fail(name), now, h)
    ensures fits ==> Moves(Fail(name), h, before, after, now) && after == pool.MemberStandings()
    ensures repaired ==> fits && pool.Valid()
    ensures old(pool.Valid()) && !repaired ==> (pool.Valid() <==> old(AimIsLast(pool, Fail(name))))
  {
    var found := Find(pool.ready + pool.queue.retry, name);
    if found == None {
      NobodyToFail(pool, name);
      return true, false, None, before;
    }
    fits, panicked, h, after := FailMember(pool, found.value, name, now, repaired, before);
  }

  // A pick that fails nothing.
  method PickOnly(pool: InstancePool, draw: nat, now: Instant, repaired: bool, ghost before: Standings)
    returns (fits: bool, panicked: bool, ghost h: Option<Happened>, ghost after: Standings)
    requires pool.Suspects(draw) == {}
    requires pool.Core() && (repaired ==> pool.Valid()) && before == pool.MemberStandings()
    modifies pool, pool.queue, pool.Members()
    ensures fits <==> old(AimFits(pool, Pick(draw)))
    ensures fits <==> !panicked && pool.Core() && pool.Members() == old(pool.Members())
    ensures Caused(old(Aims(pool, Pick(draw))), before.Keys, Pick(draw), now, h)
    ensures fits ==> Moves(Pick(draw), h, before, after, now) && after == pool.MemberStandings()
    ensures repaired ==> fits && pool.Valid()
    ensures old(pool.Valid()) && !repaired ==> (pool.Valid() <==> old(AimIsLast(pool, Pick(draw))))
  {
    NobodyToPick(pool, draw);
    fits, panicked, h, after := true, false, None, before;
    if repaired {
      var picked := pool.PickRepaired(draw, now);
    } else {
      var picked;
      picked, panicked := pool.PickInstance(draw, now);
    }
    pool.Untouched();
  }

  method PickSuspect(pool: InstancePool, draw: nat, now: Instant, repaired: bool, ghost before: Standings)
    returns (fits: bool, panicked: bool, ghost h: Option<Happened>, ghost after: Standings)
    requires pool.Suspects(draw) != {}
    requires pool.Core() && (repaired ==> pool.Valid()) && before == pool.MemberStandings()
    modifies pool, pool.queue, pool.Members()
    ensures fits <==> old(AimFits(pool, Pick(draw)))
    ensures fits <==> !panicked && pool.Core() && pool.Members() == old(pool.Members())
    ensures Caused(old(Aims(pool, Pick(draw))), before.Keys, Pick(draw), now, h)
    ensures fits ==> Moves(Pick(draw), h, before, after, now) && after == pool.MemberStandings()
    ensures repaired ==> fits && pool.Valid()
    ensures old(pool.Valid()) && !repaired ==> (pool.Valid() <==> old(AimIsLast(pool, Pick(draw))))
  {
    var x := pool.Drawn(draw);
    assert x in pool.Members();
    pool.MembersFit(x);
    fits, panicked, h := x.index < |pool.ready| && pool.ready[x.index] == x, false, Some(Failure(x, now));
    if repaired {
      var picked := pool.PickRepaired(draw, now);
    } else {
      var picked;
      picked, panicked := pool.PickInstance(draw, now);
    }
    after := pool.MemberStandings();
  }

  method DoPick(pool: InstancePool, draw: nat, now: Instant, repaired: bool, ghost before: Standings)
    returns (fits: bool, panicked: bool, ghost h: Option<Happened>, ghost after: Standings)
    requires pool.Core() && (repaired ==> pool.Valid()) && before == pool.MemberStandings()
    modifies pool, pool.queue, pool.Members()
    ensures fits <==> old(AimFits(pool, Pick(draw)))
    ensures fits <==> !panicked && pool.Core() && pool.Members() == old(pool.Members())
    ensures Caused(old(Aims(pool, Pick(draw))), before.Keys, Pick(draw), now, h)
    ensures fits ==> Moves(Pick(draw), h, before, after, now) && after == pool.MemberStandings()
    ensures repaired ==> fits && pool.Valid()
    ensures old(pool.Valid()) && !repaired ==> (pool.Valid() <==> old(AimIsLast(pool, Pick(draw))))
  {
    if pool.ready == [] || pool.Drawn(draw).failures == 0 {
      fits, panicked, h, after := PickOnly(pool, draw, now, repaired, before);
    } else {
      fits, panicked, h, after := PickSuspect(pool, draw, now, repaired, before);
    }
  }

  // Any call.
  method Step(pool: InstancePool, op: Op, now: Instant, repaired: bool, ghost before: Standings)
    returns (fits: bool, panicked: bool, ghost h: Option<Happened>, ghost after: Standings)
    requires pool.Core() && (repaired ==> pool.Valid()) && before == pool.MemberStandings()
    modifies pool, pool.queue, pool.Members()
    ensures fits <==> old(AimFits(pool, op))
    ensures fits <==> !panicked && pool.Core() && (op.Update? || pool.Members() == old(pool.Members()))
    ensures Caused(old(Aims(pool, op)), before.Keys, op, now, h)
    ensures fits ==> Moves(op, h, before, after, now) && after == pool.MemberStandings()
    ensures fits ==> forall x :: x in pool.Members() ==> x in old(pool.Members()) || fresh(x)
    ensures fits && op.Update? ==> Addresses(pool.Members()) == Retained(old(Addresses(pool.Members())), op.instances)
    ensures repaired ==> fits && pool.Valid()
    ensures old(pool.Valid()) && !repaired ==> (pool.Valid() <==> old(AimIsLast(pool, op)))
  {
    fits, panicked, h := true, false, None;
    match op {
      case Pick(draw) => fits, panicked, h, after := DoPick(pool, draw, now, repaired, before);
      case Fail(name) => fits, panicked, h, after := DoFail(pool, name, now, repaired, before);
      case Succeed(name) => h, after := DoSucceed(pool, name, now, before);
      case Update(instances) => after := DoUpdate(pool, instances, now, before);
      case Retry => after := DoRetry(pool, now, before);
    }
  }

  // --- runs ---

  // The next call of a run.
  method Advance(pool: InstancePool, call: Call, repaired: bool)
    returns (fits: bool, panicked: bool, ghost h: Option<Happened>)
    requires pool.Core() && (repaired ==> pool.Valid())
    modifies pool, pool.queue, pool.Members()
    ensures fits <==> old(IsSafe(Snap(pool), call.op))
    ensures fits <==> !panicked && pool.Core() && (call.op.Update? || pool.Members() == old(pool.Members()))
    ensures fits ==> StepAt(old(Snap(pool)), call, h, Snap(pool), repaired)
    ensures fits ==> forall x :: x in pool.Members() && x !in old(Snap(pool)).standings ==> fresh(x)
    ensures pool.Members() == Snap(pool).standings.Keys
    ensures repaired ==> fits && pool.Valid()
  {
    ghost var before := pool.MemberStandings();
    ghost var after;
    CoreIsCoreAt(pool);
    AimsAreTargets(pool, call.op);
    fits, panicked, h, after := Step(pool, call.op, call.now, repaired, before);
    CoreIsCoreAt(pool);
  }

  // Any run on a new pool, up to the first call that would fail an instance
  // which does not sit where it says; that call panics, or the pool loses its
  // core or a member.  Until then nothing panics.  The repaired pool gets to
  // the end.
  method Run(calls: seq<Call>, repaired: bool)
    returns (pool: InstancePool, done: nat, panicked: bool,
             ghost trace: seq<Snapshot>, ghost hs: seq<Option<Happened>>)
    ensures |hs| == done && IsRun(trace, calls, hs, repaired)
    ensures done == |calls| ==> !panicked && Snap(pool) == trace[done]
    ensures done < |calls| ==> !IsSafe(trace[done], calls[done].op)
    ensures done < |calls| ==> panicked || !pool.Core() || pool.Members() != trace[done].standings.Keys
    ensures repaired ==> done == |calls|
  {
    pool := new InstancePool();
    done, panicked, trace, hs := 0, false, [Snap(pool)], [];
    RunStarts(Snap(pool), calls, repaired);
    while done < |calls|
      invariant fresh(pool) && fresh(pool.queue) && forall x :: x in pool.Members() ==> fresh(x)
      invariant !panicked && |hs| == done <= |calls| && Goes(pool, calls, trace, hs, repaired)
    {
      var fits;
      fits, panicked, trace, hs := GoOn(pool, calls, done, repaired, trace, hs);
      if !fits {
        return;
      }
      done := done + 1;
    }
  }

  // A run that has come to the pool as it is.
  ghost predicate Goes(pool: InstancePool, calls: seq<Call>, trace: seq<Snapshot>, hs: seq<Option<Happened>>,
                       repaired: bool)
    reads pool, pool.queue, pool.Members()
  {
    && pool.Core() && (repaired ==> pool.Valid())
    && IsRun(trace, calls, hs, repaired) && trace[|hs|] == Snap(pool)
  }

  method GoOn(pool: InstancePool, calls: seq<Call>, done: nat, repaired: bool,
              ghost trace0: seq<Snapshot>, ghost hs0: seq<Option<Happened>>)
    returns (fits: bool, panicked: bool, ghost trace: seq<Snapshot>, ghost hs: seq<Option<Happened>>)
    requires |hs0| == done < |calls| && Goes(pool, calls, trace0, hs0, repaired)
    modifies pool, pool.queue, pool.Members()
    ensures fits <==> IsSafe(trace0[done], calls[done].op)
    ensures fits ==> !panicked && |hs| == done + 1 && Goes(pool, calls, trace, hs, repaired)
    ensures fits ==> forall x :: x in pool.Members() ==> x in old(pool.Members()) || fresh(x)
    ensures !fits ==>
              && trace == trace0 && hs == hs0
              && (panicked || !pool.Core() || pool.Members() != trace0[done].standings.Keys)
    ensures repaired ==> fits
  {
    ghost var h;
    fits, panicked, h := Advance(pool, calls[done], repaired);
    trace, hs := trace0, hs0;
    if fits {
      RunMore(trace0, calls, hs0, Snap(pool), h, repaired);
      trace, hs := trace0 + [Snap(pool)], hs0 + [h];
    }
  }

  method NewPool(a: IPPort, b: IPPort, c: IPPort, now: Instant) returns (pool: InstancePool)
    ensures fresh(pool) && fresh(pool.queue) && pool.Valid()
    ensures |pool.ready| >= 3 && pool.queue.retry == []
    ensures forall x :: x in pool.ready ==> fresh(x) && x.failures == 0
  {
    pool := new InstancePool();
    ghost var before := pool.Members();
    assert before == {};
    pool.UpdateInstances(map["a" := a, "b" := b, "c" := c], now);
    assert Elements(pool.queue.retry) <= before;
    NoElements(pool.queue.retry);
    assert Names(pool.queue.retry) == {};
    ThreeNames(pool.ready);
    forall x | x in pool.ready ensures fresh(x) && x.failures == 0 {
      assert x in pool.Members();
    }
  }

  lemma ThreeNames(q: seq<PooledInstance>)
    requires "a" in Names(q) && "b" in Names(q) && "c" in Names(q)
    ensures |q| >= 3
  {
    var i :| 0 <= i < |q| && q[i].name == "a";
    var j :| 0 <= j < |q| && q[j].name == "b";
    var k :| 0 <= k < |q| && q[k].name == "c";
    assert i != j && j != k && i != k;
  }

  // Three new instances: the first fails and returns, and the last, which took
  // its slot, is not where it says.
  method Misplace(a: IPPort, b: IPPort, c: IPPort, now: Instant, later: Instant)
    returns (pool: InstancePool, x: PooledInstance)
    requires later >= now + RETRY_INTERVAL_BASE
    ensures fresh(pool) && fresh(pool.queue) && fresh(x)
    ensures pool.Core() && pool.queue.retry == []
    ensures 0 < x.index < |pool.ready| && pool.ready[0] == x && x.failures == 0
  {
    pool := NewPool(a, b, c, now);
    var n := |pool.ready|;
    var first := pool.ready[0];
    x := pool.ready[n - 1];
    assert first in pool.ready && x in pool.ready && x != first;
    assert pool.ReadySlotOf(first) && Elements(pool.queue.retry) == {};
    var panicked := pool.Failed(first, now);
    DelayIsExponentialIffNoWrap(0);
    assert pool.ready[0] == x && Elements(pool.queue.retry) == {first};
    OnlyElement(pool.queue.retry, first);
    ReturnOnly(pool, first, later);
  }

  lemma OnlyElement(q: seq<PooledInstance>, x: PooledInstance)
    requires Elements(q) == {x} && Indexed(q)
    ensures q == [x]
  {
    assert x in q;
    assert q[0] in Elements(q) && q[|q| - 1] in Elements(q);
  }

  // The one waiting instance is due.
  method ReturnOnly(pool: InstancePool, x: PooledInstance, now: Instant)
    requires pool.Core() && pool.queue.retry == [x] && x.retryTime <= now
    modifies pool, pool.queue, x`index, x`retryTime
    ensures pool.Core() && old(pool.ready) < pool.ready && pool.queue.retry == []
  {
    assert x in pool.Members();
    pool.MembersFit(x);
    assert forall y :: y in pool.queue.retry ==> y == x;
    pool.ProcessRetries(now);
    NoElements(pool.queue.retry);
    assert x in pool.Members();
  }

  // A ready instance that has been failed, as written and without a panic, can
  // be failed again at once by some pick exactly if it did not sit where it
  // said; so the bound of Run needs that condition.
  method CanFailAgainIff(pool: InstancePool, x: PooledInstance, now: Instant)
    requires pool.Core() && x in pool.ready && x.index < |pool.ready|
    modifies pool, pool.queue, x, pool.queue.retry`index
    ensures (exists draw: nat :: x in pool.Suspects(draw)) <==> !old(pool.ReadySlotOf(x))
  {
    var slot, was := x.index, pool.ready;
    assert x.retryTime == 0;
    var panicked := pool.Failed(x, now);
    TakenOutIff(was, slot, x);
    pool.AnyReadyCanBeDrawn(x);
    assert forall draw: nat :: x in pool.Suspects(draw) <==> pool.ready != [] && pool.Drawn(draw) == x;
  }

  lemma TakenOutIff(q: seq<PooledInstance>, i: nat, x: PooledInstance)
    requires i < |q| && Distinct(q) && x in q
    ensures x in TakeOut(q, i) <==> q[i] != x
  {
    var m :| 0 <= m < |q| && q[m] == x;
    TakeOutRemoves(q, i);
    if m != i {
      assert TakeOut(q, i)[if m == |q| - 1 then i else m] == x;
    }
  }

  // As written, an instance that does not sit where it says can be failed
  // again, by a pick, at the very instant of its first failure.
  method FailAgain(pool: InstancePool, x: PooledInstance, now: Instant) returns (firstRetry: int)
    requires pool.Core() && pool.queue.retry == []
    requires 0 < x.index < |pool.ready| && pool.ready[0] == x && x.failures == 0
    modifies pool, pool.queue, x
    ensures x.failures == 2
    ensures firstRetry == now + Delay(0) && x.retryTime == now + Delay(1)
  {
    assert x in pool.ready && Elements(pool.queue.retry) == {};
    var panicked := pool.Failed(x, now);
    firstRetry := x.retryTime;
    OnlyElement(pool.queue.retry, x);
    assert pool.Drawn(0) == x;
    var picked;
    picked, panicked := pool.PickInstance(0, now);
  }

  // As written: two failures in a row at one instant, where backoff demands a
  // base interval between them.
  method SecondFailureAtOnce(a: IPPort, b: IPPort, c: IPPort, now: Instant, later: Instant)
    returns (x: PooledInstance, firstRetry: int)
    requires later >= now + RETRY_INTERVAL_BASE
    ensures x.failures == 2
    ensures firstRetry == later + Delay(0) && x.retryTime == later + Delay(1)
  {
    var pool;
    pool, x := Misplace(a, b, c, now, later);
    firstRetry := FailAgain(pool, x, later);
  }
}
