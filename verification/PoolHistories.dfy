// Histories of the instance pool (balancer/forwarder/pool.go): what any sequence
// of calls on current members, with a clock that does not go back, does to
// values.  PoolRuns makes the calls.
module PoolHistories {
  import opened Prelude
  import opened Backoff
  import opened Heap
  import opened Pool

  // A call; instances are given by name, and a call for a name that is not in
  // the pool is not made.
  datatype Op =
    | Pick(draw: nat)
    | Succeed(name: string)
    | Fail(name: string)
    | Update(instances: map<string, IPPort>)
    | Retry

  datatype Call = Call(op: Op, now: Instant)

  // What a run records, in order.
  datatype Happened =
    | Failure(x: PooledInstance, at: int)
    | Success(x: PooledInstance)

  // How often x has failed since its last success.
  ghost function Failures(log: seq<Happened>, x: PooledInstance): nat {
    if log == [] then 0
    else
      var rest, last := log[..|log| - 1], log[|log| - 1];
      if last.x != x then Failures(rest, x) else if last.Failure? then Failures(rest, x) + 1 else 0
  }

  // When the first failure since then was.
  ghost function StreakStart(log: seq<Happened>, x: PooledInstance): int {
    if log == [] then 0
    else
      var rest, last := log[..|log| - 1], log[|log| - 1];
      if last.x == x && last.Failure? && Failures(rest, x) == 0 then last.at else StreakStart(rest, x)
  }

  // Within a streak shorter than the limit, failure n + 1 comes at least
  // 2^n - 1 base intervals after the first, and the delay that it sets is the
  // intended one.
  ghost predicate BoundAt(log: seq<Happened>, i: nat)
    requires i < |log| && log[i].Failure?
  {
    var n, start := Failures(log[..i], log[i].x), StreakStart(log[..i + 1], log[i].x);
    log[i].at - start < STREAK_LIMIT ==>
      && log[i].at >= start + (Pow2(n) - 1) * RETRY_INTERVAL_BASE
      && Delay(n) == Pow2(n) * RETRY_INTERVAL_BASE
  }

  ghost predicate Bounded(log: seq<Happened>) {
    forall i :: 0 <= i < |log| && log[i].Failure? ==> BoundAt(log, i)
  }

  // The members' failures are those of the log, and their streaks are in pace.
  ghost predicate Logged(standings: Standings, log: seq<Happened>, clock: int) {
    forall x :: x in standings ==> LoggedAt(standings[x], log, clock, x)
  }

  ghost predicate LoggedAt(standing: Standing, log: seq<Happened>, clock: int, x: PooledInstance) {
    && standing.failures == Failures(log, x)
    && (standing.failures > 0 ==> Pace(standing.failures, standing.retryTime, clock, StreakStart(log, x)))
  }

  // What a call makes happen: it fails its target, if it has one, or a success
  // is that of the member named.
  ghost predicate Caused(targets: set<PooledInstance>, members: set<PooledInstance>, op: Op, now: int,
                         h: Option<Happened>)
  {
    match h
    case None => targets == {} && (op.Succeed? ==> forall x :: x in members ==> x.name != op.name)
    case Some(Success(x)) => op.Succeed? && x in members && x.name == op.name
    case Some(Failure(x, at)) => at == now && targets == {x}
  }

  // How exactly a call changes standings.
  ghost predicate Moves(op: Op, h: Option<Happened>, before: Standings, after: Standings, now: int) {
    match h
    case Some(Failure(x, at)) => at == now && FailedOnce(before, after, x, now)
    case Some(Success(x)) => x in before && after == before[x := Standing(0, 0)]
    case None =>
      if op.Retry? then after == Due(before, now)
      else if op.Update? then forall x :: x in after ==> after[x] == if x in before then before[x] else Standing(0, 0)
      else after == before
  }

  ghost function Due(before: Standings, now: int): Standings {
    map x | x in before ::
      Standing(before[x].failures, if before[x].retryTime <= now then 0 else before[x].retryTime)
  }

  function Extended(log: seq<Happened>, h: Option<Happened>): seq<Happened> {
    if h.None? then log else log + [h.value]
  }

  ghost predicate Unheard(log: seq<Happened>, x: PooledInstance) {
    forall i :: 0 <= i < |log| ==> log[i].x != x
  }

  lemma {:induction false} UnheardNeverFailed(log: seq<Happened>, x: PooledInstance)
    requires Unheard(log, x)
    ensures Failures(log, x) == 0
  {
    if log != [] {
      assert log[|log| - 1].x != x;
      UnheardNeverFailed(log[..|log| - 1], x);
    }
  }

  lemma LogMore(log: seq<Happened>, h: Happened, x: PooledInstance)
    ensures Failures(log + [h], x) ==
            if h.x != x then Failures(log, x) else if h.Failure? then Failures(log, x) + 1 else 0
    ensures StreakStart(log + [h], x) ==
            if h.x == x && h.Failure? && Failures(log, x) == 0 then h.at else StreakStart(log, x)
  {
    assert (log + [h])[..|log|] == log;
  }

  lemma LoggedMore(op: Op, before: Standings, after: Standings, log: seq<Happened>, h: Option<Happened>, clock: int,
                   now: int, x: PooledInstance)
    requires Logged(before, log, clock) && clock <= now && Moves(op, h, before, after, now)
    requires x in after && (x !in before ==> Unheard(Extended(log, h), x))
    ensures LoggedAt(after[x], Extended(log, h), now, x)
  {
    if x !in before {
      UnheardNeverFailed(Extended(log, h), x);
    } else {
      assert LoggedAt(before[x], log, clock, x);
      if h.Some? {
        LogMore(log, h.value, x);
      }
      if h.Some? && h.value.Failure? && h.value.x == x {
        PaceFails(before[x].failures, clock, now, StreakStart(Extended(log, h), x));
      } else if before[x].failures > 0 {
        PaceWaits(before[x].failures, before[x].retryTime, clock, now, StreakStart(log, x));
      }
    }
  }

  lemma BoundedMore(op: Op, before: Standings, after: Standings, log: seq<Happened>, h: Option<Happened>, clock: int,
                    now: int)
    requires Bounded(log) && Logged(before, log, clock) && clock <= now && Moves(op, h, before, after, now)
    ensures Bounded(Extended(log, h))
  {
    if h.Some? {
      var log' := log + [h.value];
      forall i | 0 <= i < |log'| && log'[i].Failure? ensures BoundAt(log', i) {
        assert log'[..i] == log[..i];
        if i < |log| {
          assert log'[..i + 1] == log[..i + 1] && BoundAt(log, i);
        } else {
          assert log[..i] == log && log'[..i + 1] == log';
          LastIsBound(before, log, h.value.x, clock, now);
        }
      }
    }
  }

  lemma LastIsBound(before: Standings, log: seq<Happened>, x: PooledInstance, clock: int, now: int)
    requires Logged(before, log, clock) && clock <= now && x in before && before[x].retryTime == 0
    ensures var n, start := Failures(log, x), StreakStart(log + [Failure(x, now)], x);
            now - start < STREAK_LIMIT ==>
              && now >= start + (Pow2(n) - 1) * RETRY_INTERVAL_BASE
              && Delay(n) == Pow2(n) * RETRY_INTERVAL_BASE
  {
    assert LoggedAt(before[x], log, clock, x);
    LogMore(log, Failure(x, now), x);
    var n, start := Failures(log, x), StreakStart(log + [Failure(x, now)], x);
    if n == 0 {
      DelayIsExponentialIffNoWrap(0);
    } else if now - start < STREAK_LIMIT {
      PaceStep(n, clock, now, start);
    }
  }

  lemma LogStays(op: Op, before: Standings, after: Standings, log: seq<Happened>, h: Option<Happened>, clock: int,
                 now: int)
    requires Bounded(log) && Logged(before, log, clock) && clock <= now && Moves(op, h, before, after, now)
    requires forall x :: x in after && x !in before ==> Unheard(Extended(log, h), x)
    ensures Bounded(Extended(log, h)) && Logged(after, Extended(log, h), now)
  {
    BoundedMore(op, before, after, log, h, clock, now);
    forall x | x in after ensures LoggedAt(after[x], Extended(log, h), now, x) {
      LoggedMore(op, before, after, log, h, clock, now, x);
    }
  }

  // --- the pool at one moment ---

  datatype Snapshot = Snapshot(ready: seq<PooledInstance>, retry: seq<PooledInstance>,
                               index: map<PooledInstance, nat>, standings: Standings, timer: Option<int>)

  ghost function Snap(pool: InstancePool): Snapshot
    reads pool, pool.queue, pool.Members()
  {
    Snapshot(pool.ready, pool.queue.retry, map x | x in pool.Members() :: x.index, pool.MemberStandings(), pool.timer)
  }

  ghost predicate SlotsAt(s: Snapshot, q: seq<PooledInstance>) {
    forall k :: 0 <= k < |q| ==> q[k] in s.index && s.index[q[k]] == k
  }

  ghost function TimesAt(s: Snapshot): seq<int>
    requires forall x :: x in s.retry ==> x in s.standings
  {
    seq(|s.retry|, k requires 0 <= k < |s.retry| => s.standings[s.retry[k]].retryTime)
  }

  // Ready and waiting instances are told apart by their retry times and are
  // the members, names are unique, the waiting ones are a heap that knows its
  // slots, and the timer fires at its root.
  ghost predicate CoreAt(s: Snapshot) {
    && s.index.Keys == s.standings.Keys == Elements(s.ready) + Elements(s.retry)
    && UniqueNames(s.standings.Keys) && Distinct(s.ready)
    && (forall x :: x in s.ready ==> x in s.standings && s.standings[x].retryTime == 0)
    && (forall x :: x in s.retry ==> x in s.standings && s.standings[x].retryTime != 0)
    && SlotsAt(s, s.retry) && Ordered(TimesAt(s), 0, |s.retry|)
    && (s.retry != [] ==> s.timer == Some(s.standings[s.retry[0]].retryTime))
  }

  // And the ready ones know their slots too.
  ghost predicate WholeAt(s: Snapshot) {
    CoreAt(s) && SlotsAt(s, s.ready)
  }

  lemma CoreIsCoreAt(pool: InstancePool)
    ensures CoreAt(Snap(pool)) <==> pool.Core()
    ensures WholeAt(Snap(pool)) <==> pool.Valid()
  {
    var s := Snap(pool);
    assert s.standings.Keys == s.index.Keys == pool.Members();
    assert forall x :: x in s.ready || x in s.retry ==> x in pool.Members();
    assert TimesAt(s) == Times(pool.queue.retry);
    SlotsAreIndexed(pool, pool.ready);
    SlotsAreIndexed(pool, pool.queue.retry);
    assert (forall x :: x in s.ready ==> s.standings[x].retryTime == 0) <==> AllReady(pool.ready) by {
      assert forall k :: 0 <= k < |pool.ready| ==> pool.ready[k] in s.ready;
    }
    assert (forall x :: x in s.retry ==> s.standings[x].retryTime != 0) <==> AllWaiting(pool.queue.retry) by {
      assert forall k :: 0 <= k < |s.retry| ==> s.retry[k] in s.retry;
    }
  }

  lemma SlotsAreIndexed(pool: InstancePool, q: seq<PooledInstance>)
    requires forall x :: x in q ==> x in pool.Members()
    ensures SlotsAt(Snap(pool), q) <==> Indexed(q)
  {
    assert forall k :: 0 <= k < |q| ==> q[k] in pool.Members();
  }

  // The instance that a call is to fail, if any.
  ghost function Targets(s: Snapshot, op: Op): set<PooledInstance> {
    match op
    case Pick(draw) =>
      if s.ready == [] then {}
      else
        var x := s.ready[draw % |s.ready|];
        if x in s.standings && s.standings[x].failures != 0 then {x} else {}
    case Fail(name) => set x | x in s.standings && x.name == name && s.standings[x].retryTime == 0
    case _ => {}
  }

  // It sits where it says.
  ghost predicate IsSafe(s: Snapshot, op: Op) {
    forall x :: x in Targets(s, op) ==> x in s.index && s.index[x] < |s.ready| && s.ready[s.index[x]] == x
  }

  // It says that it is the last ready one.
  ghost predicate FailsLastOnly(s: Snapshot, op: Op) {
    forall x :: x in Targets(s, op) ==> x in s.index && s.index[x] == |s.ready| - 1
  }

  // --- runs ---

  function Events(hs: seq<Option<Happened>>): seq<Happened> {
    if hs == [] then [] else Extended(Events(hs[..|hs| - 1]), hs[|hs| - 1])
  }

  // One call.  As written, it keeps a whole pool whole exactly if it fails
  // none but the last ready instance.
  ghost predicate StepAt(s: Snapshot, call: Call, h: Option<Happened>, s': Snapshot, repaired: bool) {
    && CoreAt(s) && CoreAt(s') && IsSafe(s, call.op)
    && Caused(Targets(s, call.op), s.standings.Keys, call.op, call.now, h)
    && Moves(call.op, h, s.standings, s'.standings, call.now)
    && (if call.op.Update?
        then Addresses(s'.standings.Keys) == Retained(Addresses(s.standings.Keys), call.op.instances)
        else s'.standings.Keys == s.standings.Keys)
    && (WholeAt(s) ==> (WholeAt(s') <==> repaired || FailsLastOnly(s, call.op)))
  }

  // What is new at step n has never been there.
  ghost predicate Newcomers(trace: seq<Snapshot>, n: nat)
    requires n + 1 < |trace|
  {
    forall x, j :: x in trace[n + 1].standings && x !in trace[n].standings && 0 <= j <= n ==>
      x !in trace[j].standings
  }

  // The trace of the calls of a new pool's run, or of the first of them.
  ghost predicate IsRun(trace: seq<Snapshot>, calls: seq<Call>, hs: seq<Option<Happened>>, repaired: bool) {
    && |trace| == |hs| + 1 && |hs| <= |calls| && trace[0] == Snapshot([], [], map[], map[], None)
    && (forall n :: 0 <= n < |hs| ==> RunStep(trace, calls, hs, n, repaired))
  }

  ghost predicate RunStep(trace: seq<Snapshot>, calls: seq<Call>, hs: seq<Option<Happened>>, n: nat, repaired: bool)
    requires n < |hs| <= |calls| && n + 1 < |trace|
  {
    StepAt(trace[n], calls[n], hs[n], trace[n + 1], repaired) && Newcomers(trace, n)
  }

  lemma RunStarts(s: Snapshot, calls: seq<Call>, repaired: bool)
    requires s.ready == s.retry == [] && s.index == map[] && s.standings == map[] && s.timer == None
    ensures IsRun([s], calls, [], repaired)
  {
  }

  lemma RunMore(trace: seq<Snapshot>, calls: seq<Call>, hs: seq<Option<Happened>>, s: Snapshot, h: Option<Happened>,
                repaired: bool)
    requires IsRun(trace, calls, hs, repaired) && |hs| < |calls|
    requires StepAt(trace[|hs|], calls[|hs|], h, s, repaired)
    requires forall x, j :: x in s.standings && x !in trace[|hs|].standings && 0 <= j <= |hs| ==>
               x !in trace[j].standings
    ensures IsRun(trace + [s], calls, hs + [h], repaired)
  {
    forall n | 0 <= n < |hs| + 1 ensures RunStep(trace + [s], calls, hs + [h], n, repaired) {
      if n < |hs| {
        StepStays(trace, calls, hs, s, h, n, repaired);
      }
    }
  }

  lemma StepStays(trace: seq<Snapshot>, calls: seq<Call>, hs: seq<Option<Happened>>, s: Snapshot, h: Option<Happened>,
                  n: nat, repaired: bool)
    requires n < |hs| < |calls| && |trace| == |hs| + 1 && RunStep(trace, calls, hs, n, repaired)
    ensures RunStep(trace + [s], calls, hs + [h], n, repaired)
  {
    assert forall j :: 0 <= j <= n + 1 ==> (trace + [s])[j] == trace[j];
  }

  ghost predicate InOrder(calls: seq<Call>) {
    forall i, j :: 0 <= i < j < |calls| ==> calls[i].now <= calls[j].now
  }

  lemma StepOfRun(trace: seq<Snapshot>, calls: seq<Call>, hs: seq<Option<Happened>>, n: nat, repaired: bool)
    requires IsRun(trace, calls, hs, repaired) && n < |hs|
    ensures StepAt(trace[n], calls[n], hs[n], trace[n + 1], repaired) && Newcomers(trace, n)
  {
    assert RunStep(trace, calls, hs, n, repaired);
  }

  lemma NewIsWhole(trace: seq<Snapshot>, calls: seq<Call>, hs: seq<Option<Happened>>, repaired: bool)
    requires IsRun(trace, calls, hs, repaired)
    ensures WholeAt(trace[0])
  {
  }

  lemma StepWhole(trace: seq<Snapshot>, calls: seq<Call>, hs: seq<Option<Happened>>, n: nat, repaired: bool)
    requires IsRun(trace, calls, hs, repaired) && n < |hs|
    ensures WholeAt(trace[n]) ==> (WholeAt(trace[n + 1]) <==> repaired || FailsLastOnly(trace[n], calls[n].op))
  {
    StepOfRun(trace, calls, hs, n, repaired);
  }

  // The repaired pool is whole after every call.
  lemma {:induction false} RepairedIsWhole(trace: seq<Snapshot>, calls: seq<Call>, hs: seq<Option<Happened>>, n: nat)
    requires IsRun(trace, calls, hs, true) && n <= |hs|
    ensures WholeAt(trace[n])
  {
    if n == 0 {
      NewIsWhole(trace, calls, hs, true);
    } else {
      RepairedIsWhole(trace, calls, hs, n - 1);
      StepWhole(trace, calls, hs, n - 1, true);
    }
  }

  // The pool as written is so up to some point exactly if every call before
  // has failed none but the last ready instance.
  lemma WholeIffLastOnly(trace: seq<Snapshot>, calls: seq<Call>, hs: seq<Option<Happened>>, n: nat)
    requires IsRun(trace, calls, hs, false) && n <= |hs|
    ensures (forall i :: 0 <= i <= n ==> WholeAt(trace[i])) <==>
            (forall i :: 0 <= i < n ==> FailsLastOnly(trace[i], calls[i].op))
  {
    var whole := seq(n + 1, i requires 0 <= i <= n => WholeAt(trace[i]));
    var lastOnly := seq(n, i requires 0 <= i < n => FailsLastOnly(trace[i], calls[i].op));
    NewIsWhole(trace, calls, hs, false);
    forall i | 0 <= i < n ensures whole[i] ==> (whole[i + 1] <==> lastOnly[i]) {
      StepWhole(trace, calls, hs, i, false);
    }
    StaysIff(whole, lastOnly, n);
    assert forall i :: 0 <= i <= n ==> (whole[i] <==> WholeAt(trace[i]));
    assert forall i :: 0 <= i < n ==> (lastOnly[i] <==> FailsLastOnly(trace[i], calls[i].op));
  }

  // What is kept exactly by the steps that are good is kept by all exactly if
  // all are good.
  lemma {:induction false} StaysIff(kept: seq<bool>, good: seq<bool>, n: nat)
    requires n < |kept| && n <= |good| && kept[0]
    requires forall i :: 0 <= i < n && kept[i] ==> (kept[i + 1] <==> good[i])
    ensures (forall i :: 0 <= i <= n ==> kept[i]) <==> (forall i :: 0 <= i < n ==> good[i])
  {
    if n > 0 {
      StaysIff(kept, good, n - 1);
      var i := n - 1;
      assert kept[i] ==> (kept[i + 1] <==> good[i]);
    }
  }

  // The addresses that a run's updates amount to.
  function AddressesAfter(calls: seq<Call>): map<string, IPPort> {
    if calls == [] then map[]
    else
      var rest, op := AddressesAfter(calls[..|calls| - 1]), calls[|calls| - 1].op;
      if op.Update? then Retained(rest, op.instances) else rest
  }

  ghost predicate AddressesAt(trace: seq<Snapshot>, calls: seq<Call>, n: nat)
    requires n < |trace| && n <= |calls|
  {
    CoreAt(trace[n]) && Addresses(trace[n].standings.Keys) == AddressesAfter(calls[..n])
  }

  // The members are those of the updates, whatever fails in between.
  lemma {:induction false} AddressesFollow(trace: seq<Snapshot>, calls: seq<Call>, hs: seq<Option<Happened>>, n: nat,
                                           repaired: bool)
    requires IsRun(trace, calls, hs, repaired) && n <= |hs|
    ensures AddressesAt(trace, calls, n)
  {
    if n > 0 {
      AddressesFollow(trace, calls, hs, n - 1, repaired);
      StepOfRun(trace, calls, hs, n - 1, repaired);
      AddressesMore(calls, n - 1);
      AddressesStep(trace[n - 1], calls[n - 1], hs[n - 1], trace[n], repaired);
    }
  }

  lemma AddressesStep(s: Snapshot, call: Call, h: Option<Happened>, s': Snapshot, repaired: bool)
    requires StepAt(s, call, h, s', repaired)
    ensures CoreAt(s) && CoreAt(s')
    ensures var before, after := Addresses(s.standings.Keys), Addresses(s'.standings.Keys);
            after == if call.op.Update? then Retained(before, call.op.instances) else before
  {
  }

  lemma AddressesMore(calls: seq<Call>, n: nat)
    requires n < |calls|
    ensures var rest, op := AddressesAfter(calls[..n]), calls[n].op;
            AddressesAfter(calls[..n + 1]) == if op.Update? then Retained(rest, op.instances) else rest
  {
    assert calls[..n + 1][..n] == calls[..n];
  }

  ghost function Clock(calls: seq<Call>, n: nat): int
    requires n <= |calls|
  {
    if n > 0 then calls[n - 1].now else if calls == [] then 0 else calls[0].now
  }

  ghost predicate Seen(log: seq<Happened>, trace: seq<Snapshot>, n: nat)
    requires n <= |trace|
  {
    forall i :: 0 <= i < |log| ==> exists j :: 0 <= j < n && log[i].x in trace[j].standings
  }

  lemma {:induction false} LogFollows(trace: seq<Snapshot>, calls: seq<Call>, hs: seq<Option<Happened>>, n: nat,
                                      repaired: bool)
    requires IsRun(trace, calls, hs, repaired) && InOrder(calls) && n <= |hs|
    ensures Seen(Events(hs[..n]), trace, n)
    ensures Bounded(Events(hs[..n])) && Logged(trace[n].standings, Events(hs[..n]), Clock(calls, n))
  {
    if n > 0 {
      LogFollows(trace, calls, hs, n - 1, repaired);
      assert hs[..n][..n - 1] == hs[..n - 1];
      StepOfRun(trace, calls, hs, n - 1, repaired);
      LogOneMore(trace, calls, Events(hs[..n - 1]), hs[n - 1], n - 1, repaired);
    }
  }

  lemma LogOneMore(trace: seq<Snapshot>, calls: seq<Call>, log: seq<Happened>, h: Option<Happened>, n: nat,
                   repaired: bool)
    requires InOrder(calls) && n < |calls| && n + 1 < |trace|
    requires StepAt(trace[n], calls[n], h, trace[n + 1], repaired) && Newcomers(trace, n)
    requires Seen(log, trace, n) && Bounded(log) && Logged(trace[n].standings, log, Clock(calls, n))
    ensures Seen(Extended(log, h), trace, n + 1)
    ensures Bounded(Extended(log, h)) && Logged(trace[n + 1].standings, Extended(log, h), calls[n].now)
  {
    assert h.Some? ==> h.value.x in trace[n].standings;
    LogStays(calls[n].op, trace[n].standings, trace[n + 1].standings, log, h, Clock(calls, n), calls[n].now);
  }

  // In every run every failure comes when backoff allows it, and the failures
  // that members count are those since they last succeeded.
  lemma BackoffInRuns(trace: seq<Snapshot>, calls: seq<Call>, hs: seq<Option<Happened>>, repaired: bool)
    requires IsRun(trace, calls, hs, repaired) && InOrder(calls)
    ensures Bounded(Events(hs))
    ensures forall x :: x in trace[|hs|].standings ==> trace[|hs|].standings[x].failures == Failures(Events(hs), x)
  {
    LogFollows(trace, calls, hs, |hs|, repaired);
    assert hs[..|hs|] == hs;
    assert forall x :: x in trace[|hs|].standings ==>
        LoggedAt(trace[|hs|].standings[x], Events(hs), Clock(calls, |hs|), x);
  }
}
