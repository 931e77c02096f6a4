// The pool of a forwarder's instances: those that are ready, and those that
// wait to be retried, in a heap (balancer/forwarder/pool.go).
module Pool {
  import opened Prelude
  import opened Backoff
  import opened Heap

  class PooledInstance {
    const name: string
    const address: IPPort
    var index: nat
    var failures: nat
    var retryTime: int

    constructor (name: string, address: IPPort, index: nat)
      ensures this.name == name && this.address == address && this.index == index
      ensures failures == 0 && retryTime == 0
    {
      this.name, this.address, this.index := name, address, index;
      failures, retryTime := 0, 0;
    }
  }

  // Slot k of q is recorded in the instance that sits there.
  ghost predicate Indexed(q: seq<PooledInstance>)
    reads q`index
  {
    forall k :: 0 <= k < |q| ==> q[k].index == k
  }

  ghost function Times(q: seq<PooledInstance>): (ts: seq<int>)
    reads q
    ensures |ts| == |q|
    ensures forall k :: 0 <= k < |q| ==> ts[k] == q[k].retryTime
  {
    seq(|q|, k requires 0 <= k < |q| reads q => q[k].retryTime)
  }

  // The queue is a heap on retry times that knows its slots.
  ghost predicate IsHeap(q: seq<PooledInstance>)
    reads q
  {
    Indexed(q) && Ordered(Times(q), 0, |q|)
  }

  ghost function Elements<T>(q: seq<T>): set<T> {
    set x | x in q
  }

  ghost predicate Permuted<T>(a: seq<T>, b: seq<T>) {
    && |a| == |b|
    && multiset(a) == multiset(b)
    && (forall k :: 0 <= k < |a| ==> a[k] in b)
  }

  lemma PermutedElements<T>(a: seq<T>, b: seq<T>)
    requires multiset(a) == multiset(b)
    ensures Elements(a) == Elements(b)
  {
    assert forall x :: x in a <==> x in multiset(a);
    assert forall x :: x in b <==> x in multiset(b);
  }

  // Appended to a heap, x is all that may be out of order.
  lemma AppendedFits(q: seq<PooledInstance>, x: PooledInstance)
    requires IsHeap(q) && x !in q && x.index == |q|
    ensures Indexed(q + [x]) && OrderedButInto(Times(q + [x]), 0, |q|, |q| + 1)
  {
    assert Times(q + [x])[..|q|] == Times(q);
  }

  lemma DropLast(q: seq<PooledInstance>)
    requires |q| > 0 && Indexed(q) && Ordered(Times(q), 0, |q| - 1)
    ensures IsHeap(q[..|q| - 1])
    ensures Elements(q[..|q| - 1]) == Elements(q) - {q[|q| - 1]}
  {
    var n := |q| - 1;
    assert q == q[..n] + [q[n]];
    assert Times(q[..n]) == Times(q)[..n];
  }

  class RetryQueue {
    var retry: seq<PooledInstance>

    constructor ()
      ensures retry == []
    {
      retry := [];
    }

    method Less(i: nat, j: nat) returns (less: bool)
      requires i < |retry| && j < |retry|
      ensures less <==> retry[i].retryTime < retry[j].retryTime
    {
      less := retry[i].retryTime < retry[j].retryTime;
    }

    method Swap(i: nat, j: nat)
      requires i < |retry| && j < |retry|
      modifies this, retry`index
      ensures retry == old(Swapped(retry, i, j))
      ensures retry[i] != retry[j] ==> retry[i].index == i && retry[j].index == j
      ensures old(Indexed(retry)) ==> Indexed(retry)
      ensures Permuted(retry, old(retry))
      ensures Times(retry) == Swapped(old(Times(retry)), i, j)
    {
      var a, b := retry[i], retry[j];
      retry := retry[i := b][j := a];
      a.index := j;
      b.index := i;
    }

    // One step of Up.
    method SwapUp(i: nat, j: nat, ghost n: nat, ghost good: bool)
      requires j < n <= |retry| && Child(i, j) && retry[j].retryTime < retry[i].retryTime
      requires good ==> Indexed(retry) && OrderedButInto(Times(retry), 0, j, n)
      modifies this, retry`index
      ensures Permuted(retry, old(retry))
      ensures n < |retry| ==> retry[n] == old(retry)[n]
      ensures good ==> Indexed(retry) && OrderedButInto(Times(retry), 0, i, n)
    {
      if good {
        UpStep(Times(retry), i, j, n);
      }
      Swap(i, j);
    }

    // container/heap's sift towards the root, on the first n slots.
    method Up(j0: nat, ghost n: nat)
      requires j0 < n <= |retry|
      modifies this, retry`index
      ensures Permuted(retry, old(retry))
      ensures n < |retry| ==> retry[n] == old(retry)[n]
      ensures old(Indexed(retry) && OrderedButInto(Times(retry), 0, j0, n)) ==>
                Indexed(retry) && Ordered(Times(retry), 0, n)
    {
      ghost var good := Indexed(retry) && OrderedButInto(Times(retry), 0, j0, n);
      var j: nat := j0;
      while true
        invariant j < n <= |retry|
        invariant Permuted(retry, old(retry))
        invariant n < |retry| ==> retry[n] == old(retry)[n]
        invariant good ==> Indexed(retry) && OrderedButInto(Times(retry), 0, j, n)
        decreases j
      {
        var i: nat := if j == 0 then 0 else (j - 1) / 2;
        var less := Less(j, i);
        if i == j || !less {
          if good {
            UpDone(Times(retry), j, n);
          }
          break;
        }
        SwapUp(i, j, n, good);
        j := i;
      }
    }

    method SmallerChild(i: nat, n: nat) returns (j: nat)
      requires 2 * i + 1 < n <= |retry|
      ensures j < n && Child(i, j)
      ensures forall k: nat {:trigger Child(i, k)} :: Child(i, k) && k < n ==> Times(retry)[j] <= Times(retry)[k]
    {
      j := 2 * i + 1;
      var j2 := j + 1;
      if j2 < n {
        var left := Less(j, j2);
        if !left {
          j := j2;
        }
      }
    }

    // container/heap's sift away from the root, on the first n slots.
    method Down(i0: nat, n: nat, ghost lo: nat)
      requires lo <= i0 <= n <= |retry|
      requires Indexed(retry)
      requires OrderedButOutOf(Times(retry), lo, i0, i0, n)
      modifies this, retry`index
      ensures Indexed(retry)
      ensures Permuted(retry, old(retry))
      ensures n < |retry| ==> retry[n] == old(retry)[n]
      ensures OrderedButInto(Times(retry), lo, i0, n)
    {
      var i: nat := i0;
      while true
        invariant i0 <= i <= n <= |retry|
        invariant Indexed(retry)
        invariant Permuted(retry, old(retry))
        invariant n < |retry| ==> retry[n] == old(retry)[n]
        invariant OrderedButOutOf(Times(retry), lo, i0, i, n)
        decreases n - i
      {
        if 2 * i + 1 >= n {
          DownDone(Times(retry), lo, i0, i, n);
          break;
        }
        var j := SmallerChild(i, n);
        var less := Less(j, i);
        if !less {
          DownDone(Times(retry), lo, i0, i, n);
          break;
        }
        DownStep(Times(retry), lo, i0, i, j, n);
        Swap(i, j);
        i := j;
      }
    }

    // heap.Push
    method Push(x: PooledInstance)
      modifies this, retry`index, x`index
      ensures Elements(retry) == old(Elements(retry)) + {x}
      ensures old(IsHeap(retry)) && x !in old(retry) ==> IsHeap(retry)
    {
      ghost var fits := IsHeap(retry) && x !in retry;
      x.index := |retry|;
      if fits {
        assert IsHeap(retry);
        AppendedFits(retry, x);
      }
      retry := retry + [x];
      ghost var appended := retry;
      Up(|retry| - 1, |retry|);
      PermutedElements(retry, appended);
    }

    method MoveToEnd(i: nat)
      requires i < |retry| - 1
      requires IsHeap(retry)
      modifies this, retry`index
      ensures Indexed(retry)
      ensures Permuted(retry, old(retry))
      ensures retry[|retry| - 1] == old(retry[i])
      ensures OrderedButOutOf(Times(retry), 0, i, i, |retry| - 1)
    {
      RemoveStep(Times(retry), i);
      Swap(|retry| - 1, i);
    }

    // The two sifts of heap.Remove.
    method Settle(i: nat, n: nat)
      requires i < n < |retry|
      requires Indexed(retry)
      requires OrderedButOutOf(Times(retry), 0, i, i, n)
      modifies this, retry`index
      ensures Indexed(retry)
      ensures Permuted(retry, old(retry))
      ensures retry[n] == old(retry[n])
      ensures Ordered(Times(retry), 0, n)
    {
      Down(i, n, 0);

      Up(i, n);
    }

    method SiftOut(i: nat)
      requires i < |retry| - 1
      requires IsHeap(retry)
      modifies this, retry`index
      ensures Indexed(retry)
      ensures |retry| == old(|retry|) && Elements(retry) == old(Elements(retry))
      ensures retry[|retry| - 1] == old(retry[i])
      ensures Ordered(Times(retry), 0, |retry| - 1)
    {
      MoveToEnd(i);
      ghost var moved := retry;
      PermutedElements(moved, old(retry));
      Settle(i, |retry| - 1);
      PermutedElements(retry, moved);
    }

    // heap.Remove; heap.Pop is the case i == 0.
    method Remove(i: nat)
      requires i < |retry|
      requires IsHeap(retry)
      modifies this, retry`index
      ensures IsHeap(retry)
      ensures |retry| == old(|retry|) - 1
      ensures Elements(retry) == old(Elements(retry)) - {old(retry[i])}
    {
      if i != |retry| - 1 {
        SiftOut(i);
      }
      RemoveLast();
    }

    method RemoveLast()
      requires |retry| > 0 && Indexed(retry) && Ordered(Times(retry), 0, |retry| - 1)
      modifies this
      ensures IsHeap(retry) && |retry| == old(|retry|) - 1
      ensures Elements(retry) == old(Elements(retry)) - {old(retry[|retry| - 1])}
    {
      DropLast(retry);
      retry := retry[..|retry| - 1];
    }

    // heap.Init
    method Init()
      requires Indexed(retry)
      modifies this, retry`index
      ensures IsHeap(retry)
      ensures Permuted(retry, old(retry))
    {
      var n := |retry|;
      var i := n / 2;
      while i > 0
        invariant 0 <= i <= n == |retry|
        invariant Indexed(retry)
        invariant Permuted(retry, old(retry))
        invariant Ordered(Times(retry), i, n)
      {
        i := i - 1;
        Down(i, n, i);
      }
    }
  }

  // A reading of the clock: more than 2^63 ns after Go's zero time, so that no
  // retry time computed from it is mistaken for "not waiting".
  type Instant = t: int | t > TWO_63 witness TWO_63 + 1

  const DAY := 24 * 60 * 60 * 1_000_000_000

  ghost predicate Distinct(q: seq<PooledInstance>) {
    forall i, k :: 0 <= i < k < |q| ==> q[i] != q[k]
  }

  ghost predicate AllReady(q: seq<PooledInstance>)
    reads q`retryTime
  {
    forall k :: 0 <= k < |q| ==> q[k].retryTime == 0
  }

  ghost predicate AllWaiting(q: seq<PooledInstance>)
    reads q`retryTime
  {
    forall k :: 0 <= k < |q| ==> q[k].retryTime != 0
  }

  // Slot i is overwritten by the last slot, which is then dropped.
  ghost function TakeOut<T>(q: seq<T>, i: nat): (r: seq<T>)
    requires i < |q|
    ensures |r| == |q| - 1
  {
    q[i := q[|q| - 1]][..|q| - 1]
  }

  lemma TakeOutRemoves(q: seq<PooledInstance>, i: nat)
    requires i < |q| && Distinct(q)
    ensures Distinct(TakeOut(q, i))
    ensures Elements(TakeOut(q, i)) == Elements(q) - {q[i]}
  {
    var r := TakeOut(q, i);
    forall x | x in q && x != q[i] ensures x in r {
      var k :| 0 <= k < |q| && q[k] == x;
      assert r[if k == |q| - 1 then i else k] == x;
    }
  }

  ghost predicate UniqueNames(m: set<PooledInstance>) {
    forall x, y :: x in m && y in m && x.name == y.name ==> x == y
  }

  ghost function Names(q: seq<PooledInstance>): (names: set<string>) {
    set x | x in q :: x.name
  }

  // Two queues under construction: slots and readiness are right, and no name
  // is used twice or still wanted.
  ghost predicate Sorted(ready: seq<PooledInstance>, retry: seq<PooledInstance>, wanted: set<string>)
    reads ready, retry
  {
    && Indexed(ready) && AllReady(ready)
    && Indexed(retry) && AllWaiting(retry)
    && UniqueNames(Elements(ready) + Elements(retry))
    && (Names(ready) + Names(retry)) !! wanted
  }

  // With unique names, a kept instance that bears x's name is x itself.
  lemma AllSurvive(before: set<PooledInstance>, kept: seq<PooledInstance>, added: set<string>, keys: set<string>)
    requires UniqueNames(before)
    requires forall y :: y in kept ==> y in before
    requires Names(kept) + added == keys
    requires forall x :: x in before ==> x.name !in added
    ensures forall x :: x in before && x.name in keys ==> x in kept
  {
    forall x | x in before && x.name in keys ensures x in kept {
      var y :| y in kept && y.name == x.name;
    }
  }

  lemma SameNames(a: seq<PooledInstance>, b: seq<PooledInstance>)
    requires Elements(a) == Elements(b)
    ensures Names(a) == Names(b)
  {
    assert forall x :: x in a <==> x in Elements(a);
    assert forall x :: x in b <==> x in Elements(b);
  }

  lemma NamesAppend(q: seq<PooledInstance>, x: PooledInstance)
    ensures Names(q + [x]) == Names(q) + {x.name}
  {
    assert forall y :: y in q + [x] <==> y in q || y == x;
  }

  lemma UniqueNamesAppend(a: seq<PooledInstance>, b: seq<PooledInstance>, x: PooledInstance)
    requires UniqueNames(Elements(a) + Elements(b)) && x.name !in Names(a) + Names(b)
    ensures UniqueNames(Elements(a + [x]) + Elements(b))
    ensures UniqueNames(Elements(b) + Elements(a + [x]))
  {
    assert Elements(a + [x]) == Elements(a) + {x};
  }

  // A pool with unique names, as a map from name to address.
  ghost function Addresses(members: set<PooledInstance>): map<string, IPPort>
    requires UniqueNames(members)
  {
    map x | x in members :: x.name := x.address
  }

  // What UpdateInstances promises of the members amounts to keeping the
  // addresses of the wanted names and adding the missing ones.
  lemma UpdateRetainsAddresses(before: set<PooledInstance>, after: set<PooledInstance>, instances: map<string, IPPort>)
    requires UniqueNames(before) && UniqueNames(after)
    requires (set x | x in after :: x.name) == instances.Keys
    requires forall x :: x in after ==> x in before || (x.name in instances && x.address == instances[x.name])
    requires forall x :: x in before && x.name in instances ==> x in after
    ensures Addresses(after) == Retained(Addresses(before), instances)
  {
    var a, b := Addresses(after), Retained(Addresses(before), instances);
    forall n | n in instances ensures n in a && a[n] == b[n] {
      var x :| x in after && x.name == n;
      assert a[x.name] == x.address;
    }
  }

  // One step of keepInsts.
  method Keep(inst: PooledInstance, want0: map<string, IPPort>,
              ready0: seq<PooledInstance>, retry0: seq<PooledInstance>)
    returns (want: map<string, IPPort>, ready: seq<PooledInstance>, retry: seq<PooledInstance>)
    requires Sorted(ready0, retry0, want0.Keys)
    modifies inst`index
    ensures Sorted(ready, retry, want.Keys)
    ensures want == want0 - {inst.name}
    ensures Names(ready) + Names(retry) + want.Keys == Names(ready0) + Names(retry0) + want0.Keys
    ensures forall x :: x in ready + retry ==> x in ready0 + retry0 || x == inst
  {
    want, ready, retry := want0 - {inst.name}, ready0, retry0;
    if inst.name in want0 {
      if inst.retryTime == 0 {
        NamesAppend(ready, inst);
        UniqueNamesAppend(ready, retry, inst);
        inst.index := |ready|;
        ready := ready + [inst];
      } else {
        NamesAppend(retry, inst);
        UniqueNamesAppend(retry, ready, inst);
        inst.index := |retry|;
        retry := retry + [inst];
      }
    }
  }

  // keepInsts: move the wanted instances of insts across, in order.
  method KeepInsts(insts: seq<PooledInstance>, want0: map<string, IPPort>,
                   ready0: seq<PooledInstance>, retry0: seq<PooledInstance>)
    returns (want: map<string, IPPort>, ready: seq<PooledInstance>, retry: seq<PooledInstance>)
    requires Sorted(ready0, retry0, want0.Keys)
    modifies insts`index
    ensures Sorted(ready, retry, want.Keys)
    ensures want == want0 - Names(insts)
    ensures Names(ready) + Names(retry) + want.Keys == Names(ready0) + Names(retry0) + want0.Keys
    ensures forall x :: x in ready + retry ==> x in ready0 + retry0 || x in insts
  {
    want, ready, retry := want0, ready0, retry0;
    for i := 0 to |insts|
      invariant Sorted(ready, retry, want.Keys)
      invariant want == want0 - Names(insts[..i])
      invariant Names(ready) + Names(retry) + want.Keys == Names(ready0) + Names(retry0) + want0.Keys
      invariant forall x :: x in ready + retry ==> x in ready0 + retry0 || x in insts
    {
      assert insts[..i + 1] == insts[..i] + [insts[i]];
      NamesAppend(insts[..i], insts[i]);
      want, ready, retry := Keep(insts[i], want, ready, retry);
    }
    assert insts[..|insts|] == insts;
  }

  method AddOne(name: string, address: IPPort, ready0: seq<PooledInstance>, retry: seq<PooledInstance>,
                ghost rest: set<string>)
    returns (ready: seq<PooledInstance>, inst: PooledInstance)
    requires Sorted(ready0, retry, rest) && name in rest
    ensures Sorted(ready, retry, rest - {name})
    ensures Names(ready) == Names(ready0) + {name}
    ensures ready == ready0 + [inst]
    ensures fresh(inst) && inst.name == name && inst.address == address && inst.failures == 0
  {
    inst := new PooledInstance(name, address, |ready0|);
    NamesAppend(ready0, inst);
    UniqueNamesAppend(ready0, retry, inst);
    ready := ready0 + [inst];
  }

  // A brand-new instance for one of the wanted names.
  ghost predicate NewFor(x: PooledInstance, want: map<string, IPPort>)
    reads x`failures
  {
    x.name in want && x.address == want[x.name] && x.failures == 0
  }

  // The instances that were not there before, ready and without failures.
  method AddNew(want: map<string, IPPort>, ready0: seq<PooledInstance>, retry: seq<PooledInstance>)
    returns (ready: seq<PooledInstance>)
    requires Sorted(ready0, retry, want.Keys)
    ensures Sorted(ready, retry, {})
    ensures Names(ready) == Names(ready0) + want.Keys
    ensures forall x :: x in ready0 ==> x in ready
    ensures forall x :: x in ready ==> x in ready0 || fresh(x)
    ensures forall x :: x in ready ==> x in ready0 || NewFor(x, want)
  {
    ready := ready0;
    var rest := want.Keys;
    while rest != {}
      invariant rest <= want.Keys
      invariant Sorted(ready, retry, rest)
      invariant Names(ready) + rest == Names(ready0) + want.Keys
      invariant forall x :: x in ready0 ==> x in ready
      invariant forall x :: x in ready ==> x in ready0 || fresh(x)
      invariant forall x :: x in ready ==> x in ready0 || NewFor(x, want)
      decreases rest
    {
      var name :| name in rest;
      var inst;
      ready, inst := AddOne(name, want[name], ready, retry, rest);
      rest := rest - {name};
    }
  }

  lemma NoneDue(q: seq<PooledInstance>, now: int)
    requires IsHeap(q) && (q == [] || q[0].retryTime > now)
    ensures forall x :: x in q ==> x.retryTime > now
  {
    forall x | x in q ensures x.retryTime > now {
      var k :| 0 <= k < |q| && q[k] == x;
      RootIsMinimum(Times(q), k);
    }
  }

  // How often an instance has failed in a row, and until when it waits.
  datatype Standing = Standing(failures: nat, retryTime: int)

  type Standings = map<PooledInstance, Standing>

  // One ready instance has failed, and nothing else has changed.
  ghost predicate FailedOnce(before: Standings, after: Standings, x: PooledInstance, now: int) {
    && x in before && before[x].retryTime == 0 && after.Keys == before.Keys
    && after[x] == Standing(before[x].failures + 1, now + Delay(before[x].failures)) && after[x].retryTime != 0
    && (forall y :: y in before && y != x ==> after[y] == before[y])
  }

  class InstancePool {
    var ready: seq<PooledInstance>
    const queue: RetryQueue
    var timer: Option<int>  // the instant it fires, once it exists

    constructor ()
      ensures Valid() && ready == [] && queue.retry == [] && timer == None && fresh(queue)
    {
      ready := [];
      queue := new RetryQueue();
      timer := None;
    }

    ghost function Members(): set<PooledInstance>
      reads this`ready, queue
    {
      Elements(ready) + Elements(queue.retry)
    }

    ghost function MemberStandings(): Standings
      reads this`ready, queue, Members()`failures, Members()`retryTime
    {
      map x | x in Members() :: Standing(x.failures, x.retryTime)
    }

    // Readiness and waiting partition the members, names are unique, and the
    // queue is a heap.
    ghost predicate Partitioned()
      reads this`ready, queue, ready`retryTime, queue.retry
    {
      && Distinct(ready) && AllReady(ready)
      && IsHeap(queue.retry) && AllWaiting(queue.retry)
      && UniqueNames(Members())
    }

    // The timer fires at the root of the queue.
    ghost predicate Timed()
      reads this`timer, queue, queue.retry`retryTime
    {
      queue.retry != [] ==> timer == Some(queue.retry[0].retryTime)
    }

    // All of the invariant but the slots of ready instances.
    ghost predicate Core()
      reads this, queue, ready`retryTime, queue.retry
    {
      Partitioned() && Timed()
    }

    ghost predicate Valid()
      reads this, queue, ready`index, ready`retryTime, queue.retry
    {
      Core() && Indexed(ready)
    }

    method ResetTimer(now: Instant)
      modifies this`timer
      ensures Timed()
      ensures queue.retry == [] ==> timer == if old(timer).None? then None else Some(now + DAY)
    {
      if |queue.retry| == 0 {
        if timer != None {
          timer := Some(now + DAY);
        }
        return;
      }
      var delay := queue.retry[0].retryTime - now;
      timer := Some(now + delay);
    }

    // The instance sits where its index says.
    ghost predicate ReadySlotOf(inst: PooledInstance)
      reads this`ready, inst`index
    {
      inst.index < |ready| && ready[inst.index] == inst
    }

    // Every waiting member is where it says; with the whole invariant every
    // ready one is too, so neither Succeeded nor Failed misses a member.
    lemma MembersFit(inst: PooledInstance)
      requires Core() && inst in Members()
      ensures SucceedFits(inst)
      ensures inst.retryTime == 0 <==> inst in ready
      ensures Indexed(ready) ==> (inst.retryTime == 0 <==> ReadySlotOf(inst))
    {
      if inst in ready {
        var k :| 0 <= k < |ready| && ready[k] == inst;
      }
    }

    method Reschedule(inst: PooledInstance, now: Instant)
      modifies inst
      ensures inst.index == old(inst.index)
      ensures inst.failures == old(inst.failures) + 1
      ensures inst.retryTime == now + Delay(old(inst.failures)) != 0
    {
      var delay := Delay(inst.failures);
      inst.failures := inst.failures + 1;
      inst.retryTime := now + delay;
    }

    // What fail does, when it does not panic, to a pool with the given ready
    // and waiting instances.
    twostate predicate FailStep(inst: PooledInstance, was: seq<PooledInstance>, waiting: seq<PooledInstance>)
      reads this, queue, queue.retry, inst, was, waiting
    {
      && old(inst.index) < |was| && ready == TakeOut(was, old(inst.index))
      && IsHeap(queue.retry)
      && Elements(queue.retry) == Elements(waiting) + {inst}
      && inst.retryTime != 0
      && (forall x :: x in was && x != inst ==> x.retryTime == old(x.retryTime))
      && (forall x :: x in waiting && x != inst ==> x.retryTime == old(x.retryTime))
      && queue.retry != []
      && timer == Some(queue.retry[0].retryTime)
    }

    twostate lemma FailKeepsCore(inst: PooledInstance)
      requires old(Core()) && FailStep(inst, old(ready), old(queue.retry)) && old(ReadySlotOf(inst))
      ensures Core() && Members() == old(Members())
    {
      TakeOutRemoves(old(ready), old(inst.index));
      forall k | 0 <= k < |ready| ensures ready[k].retryTime == 0 {
        assert ready[k] in old(ready);
      }
      forall k | 0 <= k < |queue.retry| ensures queue.retry[k].retryTime != 0 {
        assert queue.retry[k] in Elements(queue.retry);
      }
    }

    twostate lemma FailBreaksCore(inst: PooledInstance)
      requires old(Core()) && FailStep(inst, old(ready), old(queue.retry)) && !old(ReadySlotOf(inst)) &&
                old(inst.retryTime == 0)
      ensures !(Core() && Members() == old(Members()))
    {
      if inst in old(ready) {
        var m :| 0 <= m < |old(ready)| && old(ready)[m] == inst;
        assert ready[if m == |ready| then old(inst.index) else m] == inst;
      } else {
        assert inst in Members() && inst !in old(Members());
      }
    }

    method Demote(inst: PooledInstance, now: Instant)
      requires inst.index < |ready|
      modifies this, inst, queue, queue.retry`index
      ensures inst.failures == old(inst.failures) + 1
      ensures inst.retryTime == now + Delay(old(inst.failures)) != 0
      ensures ready == TakeOut(old(ready), old(inst.index))
      ensures Elements(queue.retry) == old(Elements(queue.retry)) + {inst}
      ensures old(Core() && inst.retryTime == 0) ==> FailStep(inst, old(ready), old(queue.retry))
    {
      ready := ready[inst.index := ready[|ready| - 1]];
      ready := ready[..|ready| - 1];
      Enqueue(inst, now);
      assert inst in Elements(queue.retry);
      ResetTimer(now);
    }

    // Reschedule an instance, and have it wait.
    method Enqueue(inst: PooledInstance, now: Instant)
      modifies inst, queue, queue.retry`index
      ensures inst.failures == old(inst.failures) + 1
      ensures inst.retryTime == now + Delay(old(inst.failures)) != 0
      ensures Elements(queue.retry) == old(Elements(queue.retry)) + {inst}
      ensures old(IsHeap(queue.retry)) && inst !in old(queue.retry) ==> IsHeap(queue.retry)
    {
      Reschedule(inst, now);
      assert old(IsHeap(queue.retry)) && inst !in old(queue.retry) ==> IsHeap(queue.retry);
      queue.Push(inst);
    }

    // What demoting does: the pool keeps its core and its members exactly if
    // the instance sits where it says.
    twostate predicate Demoted(inst: PooledInstance, now: int)
      requires old(inst.index < |ready|)
      reads this, queue, queue.retry, ready`retryTime, inst
    {
      && inst.failures == old(inst.failures) + 1
      && inst.retryTime == now + Delay(old(inst.failures)) != 0
      && ready == TakeOut(old(ready), old(inst.index))
      && Elements(queue.retry) == old(Elements(queue.retry)) + {inst}
      && (old(Core() && inst.retryTime == 0) ==>
           && IsHeap(queue.retry) && Timed()
           && (old(ReadySlotOf(inst)) <==> Core() && Members() == old(Members())))
    }

    method DemoteReady(inst: PooledInstance, now: Instant)
      requires inst.index < |ready|
      modifies this, inst, queue, queue.retry`index
      ensures Demoted(inst, now)
    {
      Demote(inst, now);
      if old(Core() && inst.retryTime == 0) {
        if old(ReadySlotOf(inst)) {
          FailKeepsCore(inst);
        } else {
          FailBreaksCore(inst);
        }
      }
    }

    // Then nothing else has changed.
    twostate lemma DemotedOnce(inst: PooledInstance)
      requires old(Core() && inst.retryTime == 0 && ReadySlotOf(inst))
      requires Demoted(inst, inst.retryTime - Delay(old(inst.failures)))
      requires forall y :: y in old(Members()) && y != inst ==>
                 y.failures == old(y.failures) && y.retryTime == old(y.retryTime)
      ensures FailedOnce(old(MemberStandings()), MemberStandings(), inst, inst.retryTime - Delay(old(inst.failures)))
    {
      assert inst in old(Members());
    }

    method DemoteOnce(inst: PooledInstance, now: Instant)
      requires inst.index < |ready|
      modifies this, inst, queue, queue.retry`index
      ensures Demoted(inst, now)
      ensures old(Core() && inst.retryTime == 0 && ReadySlotOf(inst)) ==>
                FailedOnce(old(MemberStandings()), MemberStandings(), inst, now)
    {
      DemoteReady(inst, now);
      if old(Core() && inst.retryTime == 0 && ReadySlotOf(inst)) {
        DemotedOnce(inst);
      }
    }

    twostate lemma FailKeepsSlotsOfLast(inst: PooledInstance)
      requires old(Valid()) && old(ReadySlotOf(inst)) && ready == TakeOut(old(ready), old(inst.index))
      requires forall x :: x in old(ready) && x != inst ==> x.index == old(x.index)
      ensures Indexed(ready) <==> old(inst.index == |ready| - 1)
      ensures forall k :: 0 <= k < |ready| && k != old(inst.index) ==> ready[k].index == k
    {
      if old(inst.index) != |ready| {
        assert ready[old(inst.index)] == old(ready[|ready| - 1]);
        assert ready[old(inst.index)].index == |ready|;
      }
    }

    // And the indices are right exactly if it was the last ready one.
    method DemoteTracked(inst: PooledInstance, now: Instant)
      requires inst.index < |ready|
      modifies this, inst, queue, queue.retry`index
      ensures Demoted(inst, now)
      ensures old(Core() && inst.retryTime == 0 && ReadySlotOf(inst)) ==>
                FailedOnce(old(MemberStandings()), MemberStandings(), inst, now)
      ensures old(Valid() && inst.retryTime == 0 && ReadySlotOf(inst)) ==>
                && (Indexed(ready) <==> old(inst.index == |ready| - 1))
                && (forall k :: 0 <= k < |ready| && k != old(inst.index) ==> ready[k].index == k)
    {
      DemoteOnce(inst, now);
      if old(Valid() && inst.retryTime == 0 && ReadySlotOf(inst)) {
        assert forall x :: x in old(ready) ==> x !in old(queue.retry);
        FailKeepsSlotsOfLast(inst);
      }
    }

    // fail, as written: the last ready instance moves into the freed slot but
    // keeps its old index.
    method Fail(inst: PooledInstance, now: Instant) returns (panicked: bool)
      modifies this, inst, queue, queue.retry`index
      ensures panicked <==> old(inst.index >= |ready|)
      ensures panicked ==> unchanged(this, inst, queue, old(queue.retry))
      ensures !panicked ==> inst.failures == old(inst.failures) + 1
      ensures !panicked ==> inst.retryTime == now + Delay(old(inst.failures)) != 0
      ensures !panicked ==> ready == TakeOut(old(ready), old(inst.index))
      ensures !panicked ==> Elements(queue.retry) == old(Elements(queue.retry)) + {inst}
      ensures !panicked && old(Core() && inst.retryTime == 0) ==> IsHeap(queue.retry) && Timed()
      ensures old(Core() && inst.retryTime == 0) ==>
                (old(ReadySlotOf(inst)) <==> !panicked && Core() && Members() == old(Members()))
      ensures old(Core() && inst.retryTime == 0 && ReadySlotOf(inst)) ==>
                FailedOnce(old(MemberStandings()), MemberStandings(), inst, now)
      ensures old(Valid() && inst.retryTime == 0 && ReadySlotOf(inst)) ==>
                (Valid() <==> old(inst.index == |ready| - 1))
    {
      panicked := inst.index >= |ready|;
      if !panicked {
        DemoteTracked(inst, now);
      }
    }

    // Succeeded has nothing to move, or finds the instance where it looks.
    ghost predicate SucceedFits(inst: PooledInstance)
      reads queue, inst`index, inst`retryTime
    {
      inst.retryTime == 0 || (inst.index < |queue.retry| && queue.retry[inst.index] == inst)
    }

    // The instance in slot i of a queue becomes the last ready one.
    twostate predicate ReleaseStep(i: int, inst: PooledInstance, was: seq<PooledInstance>, waiting: seq<PooledInstance>)
      reads this, queue, queue.retry, inst, was, waiting
    {
      && 0 <= i < |waiting|
      && ready == was + [inst] && inst.index == |was|
      && IsHeap(queue.retry)
      && |queue.retry| == |waiting| - 1
      && Elements(queue.retry) == Elements(waiting) - {waiting[i]}
      && inst.retryTime == 0
      && (forall x :: x in was && x != inst ==> x.retryTime == old(x.retryTime) && x.index == old(x.index))
      && (forall x :: x in waiting && x != inst ==> x.retryTime == old(x.retryTime))
    }

    twostate lemma ReleaseKeepsPartition(inst: PooledInstance)
      requires old(Partitioned()) && ReleaseStep(old(inst.index), inst, old(ready), old(queue.retry))
      requires old(inst.retryTime) != 0 && old(queue.retry)[old(inst.index)] == inst
      ensures Partitioned() && Members() == old(Members())
      ensures old(Indexed(ready)) ==> Indexed(ready)
    {
      assert Members() == old(Members());
      assert AllWaiting(queue.retry) by {
        forall k | 0 <= k < |queue.retry| ensures queue.retry[k].retryTime != 0 {
          assert queue.retry[k] in Elements(queue.retry);
        }
      }
      assert Distinct(ready) && AllReady(ready);
    }

    twostate lemma ReleaseBreaksPartition(inst: PooledInstance)
      requires old(Partitioned()) && ReleaseStep(old(inst.index), inst, old(ready), old(queue.retry))
      requires old(inst.retryTime) != 0 && old(queue.retry)[old(inst.index)] != inst
      ensures Members() != old(Members())
    {
      assert inst in Members() && inst !in old(Members());
    }

    // Take slot i out of the queue and append inst to the ready instances.
    method Release(i: nat, inst: PooledInstance)
      requires Partitioned() && inst.retryTime != 0
      requires i < |queue.retry| && inst.index == i
      modifies this`ready, inst`index, inst`retryTime, queue, queue.retry`index
      ensures ReleaseStep(i, inst, old(ready), old(queue.retry))
    {
      queue.Remove(i);
      assert inst in Elements(old(queue.retry)) ==> inst == old(queue.retry[i]);
      assert inst !in Elements(queue.retry);
      ghost var times := Times(queue.retry);
      inst.retryTime := 0;
      inst.index := |ready|;
      ready := ready + [inst];
      assert Times(queue.retry) == times;
    }

    // The part of Succeeded for an instance that was waiting.
    method Reinstate(inst: PooledInstance, now: Instant) returns (panicked: bool)
      requires Core() && inst.retryTime != 0
      modifies this, inst`index, inst`retryTime, queue, queue.retry`index
      ensures panicked <==> old(inst.index >= |queue.retry|)
      ensures old(SucceedFits(inst)) <==> !panicked && Core() && Members() == old(Members())
      ensures old(Valid() && SucceedFits(inst)) ==> Valid()
      ensures !panicked ==> ReleaseStep(old(inst.index), inst, old(ready), old(queue.retry))
    {
      panicked := inst.index >= |queue.retry|;
      if !panicked {
        Release(inst.index, inst);
        ResetTimer(now);
        if old(SucceedFits(inst)) {
          ReleaseKeepsPartition(inst);
        } else {
          ReleaseBreaksPartition(inst);
        }
      }
    }

    // Succeeded keeps the pool intact exactly for instances that are not
    // waiting or sit in the queue where they say, as every member does.
    method Succeeded(inst: PooledInstance, now: Instant) returns (panicked: bool)
      requires Core()
      modifies this, inst, queue, queue.retry`index
      ensures panicked <==> old(inst.retryTime != 0 && inst.index >= |queue.retry|)
      ensures old(SucceedFits(inst)) <==> !panicked && Core() && Members() == old(Members())
      ensures old(Valid() && SucceedFits(inst)) ==> Valid()
      ensures inst.failures == 0
      ensures old(inst.retryTime) == 0 ==> ready == old(ready) && queue.retry == old(queue.retry)
      ensures !panicked && old(inst.retryTime) != 0 ==>
                ReleaseStep(old(inst.index), inst, old(ready), old(queue.retry))
    {
      inst.failures := 0;
      panicked := false;
      assert Core() && (old(Valid()) ==> Valid()) by {
        assert Times(queue.retry) == old(Times(queue.retry));
      }
      if inst.retryTime != 0 {
        panicked := Reinstate(inst, now);
      }
    }

    // Failed keeps the pool intact exactly for instances that are waiting or
    // sit in a ready slot where they say.
    method Failed(inst: PooledInstance, now: Instant) returns (panicked: bool)
      modifies this, inst, queue, queue.retry`index
      ensures panicked <==> old(inst.retryTime == 0 && inst.index >= |ready|)
      ensures panicked || old(inst.retryTime) != 0 ==> unchanged(this, inst, queue, old(queue.retry))
      ensures !panicked && old(inst.retryTime) == 0 ==> inst.failures == old(inst.failures) + 1
      ensures !panicked && old(inst.retryTime) == 0 ==> inst.retryTime == now + Delay(old(inst.failures)) != 0
      ensures !panicked && old(inst.retryTime) == 0 ==> ready == TakeOut(old(ready), old(inst.index))
      ensures !panicked && old(inst.retryTime) == 0 ==> Elements(queue.retry) == old(Elements(queue.retry)) + {inst}
      ensures !panicked && old(Core() && inst.retryTime == 0) ==> IsHeap(queue.retry) && Timed()
      ensures old(Core()) ==>
                (old(inst.retryTime != 0 || ReadySlotOf(inst)) <==> !panicked && Core() && Members() == old(Members()))
      ensures old(Core() && inst.retryTime == 0 && ReadySlotOf(inst)) ==>
                FailedOnce(old(MemberStandings()), MemberStandings(), inst, now)
      ensures old(Valid() && inst.retryTime == 0 && ReadySlotOf(inst)) ==>
                (Valid() <==> old(inst.index == |ready| - 1))
    {
      panicked := false;
      if inst.retryTime == 0 {
        panicked := Fail(inst, now);
      }
    }

    twostate lemma Untouched()
      requires unchanged(this, queue, old(queue.retry), old(ready))
      ensures Core() == old(Core()) && Valid() == old(Valid())
      ensures Members() == old(Members()) && MemberStandings() == old(MemberStandings())
    {
    }

    // The ready instance that a draw selects.
    function Drawn(draw: nat): PooledInstance
      requires ready != []
      reads this`ready
    {
      ready[draw % |ready|]
    }

    // What a pick may fail.
    function Suspects(draw: nat): set<PooledInstance>
      reads this`ready, ready`failures
    {
      if ready != [] && Drawn(draw).failures != 0 then {Drawn(draw)} else {}
    }

    lemma AnyReadyCanBeDrawn(inst: PooledInstance)
      ensures inst in ready <==> exists draw: nat :: ready != [] && Drawn(draw) == inst
    {
      if inst in ready {
        var k :| 0 <= k < |ready| && ready[k] == inst;
        assert Drawn(k) == inst;
      }
    }

    // A ready instance is preferred; picking one with failures counts as a
    // failure at once.  Otherwise a pick changes nothing.
    method PickInstance(draw: nat, now: Instant) returns (picked: Option<PooledInstance>, panicked: bool)
      modifies this, queue, Suspects(draw), queue.retry`index
      ensures picked == old(if ready != [] then Some(Drawn(draw))
                            else if queue.retry != [] then Some(queue.retry[draw % |queue.retry|]) else None)
      ensures old(Suspects(draw)) == {} ==> !panicked && unchanged(this, queue, old(queue.retry), old(ready))
      ensures old(Suspects(draw)) != {} ==>
                var inst := old(Drawn(draw));
                && (panicked <==> old(inst.index >= |ready|))
                && (!panicked ==> inst.failures == old(inst.failures) + 1)
                && (!panicked ==> inst.retryTime == now + Delay(old(inst.failures)) != 0)
                && (!panicked ==> ready == TakeOut(old(ready), old(inst.index)))
                && (!panicked ==> Elements(queue.retry) == old(Elements(queue.retry)) + {inst})
                && (!panicked && old(Core()) ==> IsHeap(queue.retry) && Timed())
                && (old(Core()) ==> (old(ReadySlotOf(inst)) <==> !panicked && Core() && Members() == old(Members())))
                && (old(Core() && ReadySlotOf(inst)) ==>
                  FailedOnce(old(MemberStandings()), MemberStandings(), inst, now))
                && (old(Valid()) ==> (Valid() <==> old(inst.index == |ready| - 1)))
    {
      panicked := false;
      if |ready| != 0 {
        var inst := ready[draw % |ready|];
        if inst.failures != 0 {
          panicked := Fail(inst, now);
        }
        return Some(inst), panicked;
      }
      if |queue.retry| != 0 {
        return Some(queue.retry[draw % |queue.retry|]), false;
      }
      picked := None;
    }

    // Exactly the instances whose retry time has come become ready.
    method ProcessRetries(now: Instant)
      requires Core()
      modifies this, queue, queue.retry`index, queue.retry`retryTime
      ensures Core() && Members() == old(Members())
      ensures old(Indexed(ready)) ==> Indexed(ready)
      ensures old(ready) <= ready
      ensures forall x :: x in ready ==> x in old(ready) || (x in old(queue.retry) && old(x.retryTime) <= now)
      ensures forall x :: x in queue.retry ==>
                x in old(queue.retry) && x.retryTime == old(x.retryTime) && x.retryTime > now
    {
      while |queue.retry| != 0 && now >= queue.retry[0].retryTime
        invariant Partitioned() && Members() == old(Members())
        invariant old(Indexed(ready)) ==> Indexed(ready)
        invariant old(ready) <= ready
        invariant forall x :: x in ready ==> x in old(ready) || (x in old(queue.retry) && old(x.retryTime) <= now)
        invariant forall x :: x in queue.retry ==> x in old(queue.retry) && x.retryTime == old(x.retryTime)
        decreases |queue.retry|
      {
        ReleaseFirst(now);
      }
      ResetTimer(now);
      NoneDue(queue.retry, now);
    }

    method ReleaseFirst(now: Instant)
      requires Partitioned() && |queue.retry| != 0
      modifies this`ready, queue, queue.retry`index, queue.retry`retryTime
      ensures Partitioned() && Members() == old(Members())
      ensures old(Indexed(ready)) ==> Indexed(ready)
      ensures ready == old(ready) + [old(queue.retry[0])]
      ensures |queue.retry| < old(|queue.retry|)
      ensures forall x :: x in queue.retry ==> x in old(queue.retry) && x.retryTime == old(x.retryTime)
    {
      var inst := queue.retry[0];
      Release(0, inst);
      ReleaseKeepsPartition(inst);
      assert forall x :: x in queue.retry ==> x in Elements(queue.retry);
    }

    // The ready and waiting instances that UpdateInstances keeps, and the
    // entries left to add.
    method KeepBoth(instances: map<string, IPPort>)
      returns (want: map<string, IPPort>, ready': seq<PooledInstance>, retry': seq<PooledInstance>)
      modifies ready`index, queue.retry`index
      ensures Sorted(ready', retry', want.Keys)
      ensures want == instances - Names(ready) - Names(queue.retry)
      ensures Names(ready') + Names(retry') + want.Keys == instances.Keys
      ensures forall x :: x in ready' ==> x in ready || x in queue.retry
      ensures forall k :: 0 <= k < |retry'| ==> retry'[k] in ready || retry'[k] in queue.retry
    {
      want, ready', retry' := KeepInsts(ready, instances, [], []);
      ghost var first := ready' + retry';
      want, ready', retry' := KeepInsts(queue.retry, want, ready', retry');
      ghost var second := ready' + retry';
      assert forall x :: x in ready' ==> x in second;
      assert forall x :: x in retry' ==> x in second;
      assert forall x :: x in first ==> x in ready;
    }

    // The two queues that UpdateInstances installs.
    method Rebuild(instances: map<string, IPPort>)
      returns (ready'': seq<PooledInstance>, retry': seq<PooledInstance>)
      modifies ready`index, queue.retry`index
      ensures Sorted(ready'', retry', {})
      ensures Names(ready'') + Names(retry') == instances.Keys
      ensures forall x :: x in ready'' ==> x in old(Members()) || (fresh(x) && NewFor(x, instances))
      ensures forall k :: 0 <= k < |retry'| ==> retry'[k] in ready || retry'[k] in queue.retry
      ensures old(UniqueNames(Members())) ==>
                forall x :: x in old(Members()) && x.name in instances ==> x in ready'' || x in retry'
    {
      var want, ready';
      want, ready', retry' := KeepBoth(instances);
      ready'' := AddNew(want, ready', retry');
      if UniqueNames(Members()) {
        AllSurvive(Members(), ready' + retry', want.Keys, instances.Keys);
      }
    }

    // Make the given instances the members.
    method Install(ready': seq<PooledInstance>, retry': seq<PooledInstance>, now: Instant)
      requires Sorted(ready', retry', {})
      modifies this, queue, retry'`index
      ensures Valid()
      ensures ready == ready' && Elements(queue.retry) == Elements(retry')
      ensures Names(ready) + Names(queue.retry) == Names(ready') + Names(retry')
    {
      ready := ready';
      queue.retry := retry';
      queue.Init();
      ResetTimer(now);
      PermutedElements(queue.retry, retry');
      SameNames(queue.retry, retry');
    }

    // Whatever state the pool is in, its members become exactly the named
    // instances and the whole invariant holds; survivors keep their address,
    // failures and retry time.
    method UpdateInstances(instances: map<string, IPPort>, now: Instant)
      modifies this, queue, ready`index, queue.retry`index
      ensures Valid()
      ensures Names(ready) + Names(queue.retry) == instances.Keys
      ensures forall x :: x in queue.retry ==> x in old(Members())
      ensures forall x :: x in Members() ==> x in old(Members()) || (fresh(x) && NewFor(x, instances))
      ensures old(UniqueNames(Members())) ==>
                forall x :: x in old(Members()) && x.name in instances ==> x in Members()
    {
      var ready'', retry' := Rebuild(instances);
      Install(ready'', retry', now);
      assert forall x :: x in queue.retry ==> x in Elements(retry');
      assert forall x :: x in Members() && x !in old(Members()) ==> x.failures == 0;
    }

    // fail with the moved instance's index rewritten.
    method FailRepaired(inst: PooledInstance, now: Instant)
      requires Valid() && inst.retryTime == 0 && ReadySlotOf(inst)
      modifies this, inst, queue, queue.retry`index, ready`index
      ensures Valid() && Members() == old(Members())
      ensures ready == TakeOut(old(ready), old(inst.index))
      ensures FailedOnce(old(MemberStandings()), MemberStandings(), inst, now)
    {
      var slot := inst.index;
      DemoteTracked(inst, now);
      if slot < |ready| {
        RewriteIndex(ready[slot], slot);
      }
    }

    method RewriteIndex(moved: PooledInstance, slot: nat)
      requires Core() && slot < |ready| && ready[slot] == moved
      requires forall k :: 0 <= k < |ready| && k != slot ==> ready[k].index == k
      modifies moved`index
      ensures Valid() && Members() == old(Members()) && MemberStandings() == old(MemberStandings())
    {
      ghost var times := Times(queue.retry);
      assert moved !in queue.retry;
      moved.index := slot;
      assert Times(queue.retry) == times;
    }

    // Failed and PickInstance over the repaired fail.
    method FailedRepaired(inst: PooledInstance, now: Instant)
      requires Valid() && inst in Members()
      modifies this, inst, queue, queue.retry`index, ready`index
      ensures Valid() && Members() == old(Members())
      ensures old(inst.retryTime) != 0 ==> unchanged(this, inst, queue, old(queue.retry), old(ready))
      ensures old(inst.retryTime) == 0 ==>
                && ready == TakeOut(old(ready), old(inst.index))
                && FailedOnce(old(MemberStandings()), MemberStandings(), inst, now)
    {
      MembersFit(inst);
      if inst.retryTime == 0 {
        FailRepaired(inst, now);
      }
    }

    method PickRepaired(draw: nat, now: Instant) returns (picked: Option<PooledInstance>)
      requires Valid()
      modifies this, queue, Suspects(draw), queue.retry`index, ready`index
      ensures Valid() && Members() == old(Members())
      ensures picked == old(if ready != [] then Some(Drawn(draw))
                            else if queue.retry != [] then Some(queue.retry[draw % |queue.retry|]) else None)
      ensures old(Suspects(draw)) == {} ==> unchanged(this, queue, old(queue.retry), old(ready))
      ensures old(Suspects(draw)) != {} ==>
                var inst := old(Drawn(draw));
                && ready == TakeOut(old(ready), old(inst.index))
                && FailedOnce(old(MemberStandings()), MemberStandings(), inst, now)
    {
      if |ready| != 0 {
        var inst := ready[draw % |ready|];
        if inst.failures != 0 {
          FailRepaired(inst, now);
        }
        return Some(inst);
      }
      if |queue.retry| != 0 {
        return Some(queue.retry[draw % |queue.retry|]);
      }
      picked := None;
    }

    // As written, a failure of any ready instance but the last makes the next
    // failure of the instance that took its slot panic.
    method FailBoth(inst: PooledInstance, now: Instant, later: Instant) returns (panicked: bool)
      requires Valid() && inst.retryTime == 0 && ReadySlotOf(inst)
      requires inst.index < |ready| - 1
      modifies this, ready, queue, queue.retry`index
      ensures panicked
    {
      var moved := ready[|ready| - 1];
      assert moved != inst && moved !in queue.retry;
      var first := Failed(inst, now);
      assert Core() && moved.index == |ready| && moved.retryTime == 0;
      assert forall k :: 0 <= k < |queue.retry| ==> queue.retry[k] in Elements(queue.retry);
      panicked := Failed(moved, later);
    }
  }

  lemma NoElements(q: seq<PooledInstance>)
    ensures Elements(q) == {} <==> q == []
  {
    if q != [] {
      assert q[0] in Elements(q);
    }
  }

  lemma TwoNames(q: seq<PooledInstance>, a: string, b: string)
    requires a in Names(q) && b in Names(q) && a != b
    ensures |q| >= 2
  {
    var x :| x in q && x.name == a;
    var y :| y in q && y.name == b;
    assert x != y;
  }

  // Two instances that fail one after the other, the first slot first.
  method TwoFailuresPanic(a: IPPort, b: IPPort, now: Instant) returns (panicked: bool)
    ensures panicked
  {
    var pool := new InstancePool();
    ghost var before := pool.Members();
    assert before == {};
    pool.UpdateInstances(map["a" := a, "b" := b], now);
    assert Elements(pool.queue.retry) <= before;
    NoElements(pool.queue.retry);
    assert Names(pool.queue.retry) == {};
    TwoNames(pool.ready, "a", "b");
    forall k | 0 <= k < |pool.ready| ensures fresh(pool.ready[k]) {
      assert pool.ready[k] in pool.Members();
    }
    panicked := pool.FailBoth(pool.ready[0], now, now);
  }
}
