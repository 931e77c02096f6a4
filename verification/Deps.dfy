// Dependency slots and the order in which dependencies are made
// (common/daemon/deps.go).  A dependency is identified by its key.
module Deps {
  import opened Prelude

  type Key = string

  // A slot to fill; owner is None for slots of top-level configurations.
  datatype Slot = Slot(owner: Option<Key>)

  type Graph = map<Key, seq<Slot>>

  // Slot i of d, as an edge from d to the slot's owner.
  datatype Edge = Edge(d: Key, i: nat)

  ghost predicate IsEdge(g: Graph, e: Edge) {
    e.d in g && e.i < |g[e.d]| && g[e.d][e.i].owner.Some?
  }

  ghost function Target(g: Graph, e: Edge): Key
    requires IsEdge(g, e)
  {
    g[e.d][e.i].owner.value
  }

  // Every owner is itself a dependency.
  ghost predicate WellFormed(g: Graph) {
    forall e: Edge :: IsEdge(g, e) ==> Target(g, e) in g
  }

  // n has a slot filled by d: d must be made before n.
  ghost predicate Before(g: Graph, d: Key, n: Key) {
    exists e: Edge :: IsEdge(g, e) && e.d == d && Target(g, e) == n
  }

  ghost predicate IsPath(g: Graph, p: seq<Key>) {
    forall k :: 0 <= k < |p| - 1 ==> Before(g, p[k], p[k + 1])
  }

  ghost predicate IsCycle(g: Graph, p: seq<Key>) {
    |p| >= 2 && IsPath(g, p) && p[0] == p[|p| - 1]
  }

  ghost predicate Cyclic(g: Graph) {
    exists p :: IsCycle(g, p)
  }

  // Each dependency once, before all owners of its slots.
  ghost predicate IsOrder(g: Graph, res: seq<Key>) {
    && (forall k :: 0 <= k < |res| ==> res[k] in g)
    && (forall d :: d in g ==> d in res)
    && (forall i, j :: 0 <= i < j < |res| ==> res[i] != res[j])
    && (forall i, j :: 0 <= i < |res| && 0 <= j < |res| && Before(g, res[i], res[j]) ==> i < j)
  }

  // The edges of a set that go into n.
  ghost function Into(g: Graph, es: set<Edge>, n: Key): (r: set<Edge>)
    requires forall e :: e in es ==> IsEdge(g, e)
  {
    set e | e in es && Target(g, e) == n
  }

  function Count(counts: map<Key, int>, n: Key): int {
    if n in counts then counts[n] else 0
  }

  // counts[n] is the number of edges of es into n.
  ghost predicate Counted(g: Graph, counts: map<Key, int>, es: set<Edge>) {
    && (forall e :: e in es ==> IsEdge(g, e))
    && (forall n :: Count(counts, n) == |Into(g, es, n)|)
  }

  lemma CountedAdd(g: Graph, counts: map<Key, int>, es: set<Edge>, e: Edge)
    requires Counted(g, counts, es) && IsEdge(g, e) && e !in es
    ensures var n := Target(g, e); Counted(g, counts[n := Count(counts, n) + 1], es + {e})
  {
    var n := Target(g, e);
    assert Into(g, es + {e}, n) == Into(g, es, n) + {e};
    forall m | m != n ensures Into(g, es + {e}, m) == Into(g, es, m) {
    }
  }

  lemma CountedRemove(g: Graph, counts: map<Key, int>, es: set<Edge>, e: Edge)
    requires Counted(g, counts, es) && e in es
    ensures var n := Target(g, e); Counted(g, counts[n := Count(counts, n) - 1], es - {e})
  {
    var n := Target(g, e);
    assert Into(g, es - {e}, n) == Into(g, es, n) - {e};
    forall m | m != n ensures Into(g, es - {e}, m) == Into(g, es, m) {
    }
  }

  // An order makes positions grow along every path.
  lemma {:induction false} PathGoesForward(g: Graph, res: seq<Key>, p: seq<Key>) returns (i: nat, j: nat)
    requires IsOrder(g, res) && IsPath(g, p) && |p| >= 2
    requires p[0] in res && forall k :: 0 <= k < |p| ==> p[k] in g
    ensures i < |res| && j < |res| && res[i] == p[0] && res[j] == p[|p| - 1] && i < j
  {
    assert Before(g, p[0], p[1]);
    i :| 0 <= i < |res| && res[i] == p[0];
    var m :| 0 <= m < |res| && res[m] == p[1];
    if |p| == 2 {
      j := m;
    } else {
      var q := p[1..];
      assert IsPath(g, q) by {
        forall k | 0 <= k < |q| - 1 ensures Before(g, q[k], q[k + 1]) {
          assert Before(g, p[k + 1], p[k + 2]);
        }
      }
      var i';
      i', j := PathGoesForward(g, res, q);
    }
  }

  lemma OrderExcludesCycles(g: Graph, res: seq<Key>)
    requires WellFormed(g) && IsOrder(g, res)
    ensures !Cyclic(g)
  {
    if p :| IsCycle(g, p) {
      forall k | 0 <= k < |p| ensures p[k] in g {
        var m := if k == 0 then 0 else k - 1;
        assert Before(g, p[m], p[m + 1]);
      }
      var i, j := PathGoesForward(g, res, p);
      assert false;
    }
  }

  lemma Prepend(g: Graph, d: Key, p: seq<Key>)
    requires |p| > 0 && IsPath(g, p) && Before(g, d, p[0])
    ensures IsPath(g, [d] + p)
  {
    var q := [d] + p;
    forall m | 0 <= m < |q| - 1 ensures Before(g, q[m], q[m + 1]) {
      if m > 0 {
        assert Before(g, p[m - 1], p[m]);
      }
    }
  }

  ghost predicate HasPredecessor(g: Graph, stuck: set<Key>, n: Key) {
    exists d :: d in stuck && Before(g, d, n)
  }

  // Walking backwards inside a finite set that every member has a predecessor
  // in must come round.
  lemma {:induction false} WalkBack(g: Graph, stuck: set<Key>, p: seq<Key>)
    requires forall n {:trigger HasPredecessor(g, stuck, n)} :: n in stuck ==> HasPredecessor(g, stuck, n)
    requires |p| > 0 && IsPath(g, p) && forall k :: 0 <= k < |p| ==> p[k] in stuck
    ensures Cyclic(g)
    decreases stuck - (set n | n in p)
  {
    assert HasPredecessor(g, stuck, p[0]);
    var d :| d in stuck && Before(g, d, p[0]);
    if d in p {
      var k :| 0 <= k < |p| && p[k] == d;
      Prepend(g, d, p[..k + 1]);
      assert IsCycle(g, [d] + p[..k + 1]);
    } else {
      Prepend(g, d, p);
      assert (set n | n in [d] + p) == (set n | n in p) + {d};
      WalkBack(g, stuck, [d] + p);
    }
  }

  // Whatever is never made sits on or behind a cycle.
  lemma StuckMeansCyclic(g: Graph, counts: map<Key, int>, es: set<Edge>, res: seq<Key>, n: Key)
    requires WellFormed(g) && Counted(g, counts, es) && n in g && n !in res
    requires forall e: Edge :: e in es <==> IsEdge(g, e) && e.d !in res
    requires forall m :: m in g && m !in res ==> Count(counts, m) != 0
    ensures Cyclic(g)
  {
    var stuck := set m | m in g && m !in res;
    forall m | m in stuck ensures HasPredecessor(g, stuck, m) {
      assert Into(g, es, m) != {};
      var e :| e in Into(g, es, m);
      assert e.d in stuck && Before(g, e.d, m);
    }
    WalkBack(g, stuck, [n]);
  }

  ghost predicate Distinct(q: seq<Key>) {
    forall i, j :: 0 <= i < j < |q| ==> q[i] != q[j]
  }

  // counts counts the edges out of whatever is not made yet, and ready lists,
  // without repeats, what has no such edge into it and is not made yet.
  ghost predicate Tracked(g: Graph, counts: map<Key, int>, made: set<Key>, ready: seq<Key>, es: set<Edge>) {
    && counts.Keys <= g.Keys
    && Counted(g, counts, es)
    && Distinct(ready)
    && (forall n :: n in ready ==> n in g && n !in made)
    && (forall n :: n in g ==> (n in made || n in ready <==> Count(counts, n) == 0))
  }

  // The edges out of whatever is not made, and those out of dep from slot i on.
  ghost predicate LeftToDo(g: Graph, made: set<Key>, dep: Key, i: nat, es: set<Edge>) {
    forall e: Edge :: e in es <==> IsEdge(g, e) && (e.d !in made || (e.d == dep && e.i >= i))
  }

  lemma LeftToDoNext(g: Graph, made: set<Key>, dep: Key, i: nat, es: set<Edge>)
    requires dep in made && dep in g && i < |g[dep]|
    requires LeftToDo(g, made, dep, i, es)
    ensures IsEdge(g, Edge(dep, i)) ==> Edge(dep, i) in es
    ensures LeftToDo(g, made, dep, i + 1, es - {Edge(dep, i)})
  {
  }

  // Everything a made dependency needs was made before it.
  ghost predicate InOrder(g: Graph, res: seq<Key>) {
    forall j, d :: 0 <= j < |res| && Before(g, d, res[j]) ==> d in res[..j]
  }

  lemma Appended(g: Graph, counts: map<Key, int>, made: set<Key>, res: seq<Key>, es: set<Edge>, dep: Key)
    requires InOrder(g, res) && Counted(g, counts, es) && Count(counts, dep) == 0
    requires forall e: Edge :: e in es <==> IsEdge(g, e) && e.d !in made
    requires forall n :: n in res <==> n in made
    ensures InOrder(g, res + [dep])
  {
    var all := res + [dep];
    forall j, d | 0 <= j < |all| && Before(g, d, all[j]) ensures d in all[..j] {
      if j < |res| {
        assert all[..j] == res[..j];
      } else {
        assert all[..j] == res;
        var e :| IsEdge(g, e) && e.d == d && Target(g, e) == dep;
        assert e !in Into(g, es, dep);
      }
    }
  }

  // How many slots of owner o dependency d fills.
  ghost function Links(g: Graph, d: Key, o: Option<Key>): (n: nat) {
    if d in g then multiset(g[d])[Slot(o)] else 0
  }

  // Each dependency fills a slot of o for each time o's configuration asks
  // for it.
  ghost predicate LinkedTo(g: Graph, populate: map<Key, seq<Key>>, o: Key)
    requires o in populate
  {
    forall d :: Links(g, d, Some(o)) == multiset(populate[o])[d]
  }

  // What a Dependency call for key, with the given current owner, makes of g.
  ghost predicate Extends(g: Graph, g': Graph, populate: map<Key, seq<Key>>, key: Key, current: Option<Key>) {
    && g.Keys <= g'.Keys <= populate.Keys && key in g'
    && WellFormed(g')
    && (forall o :: o in g' && o !in g ==> LinkedTo(g', populate, o))
    && (forall d, o: Option<Key> :: (o.Some? ==> o.value in g) ==>
          Links(g', d, o) == Links(g, d, o) + if o == current && d == key then 1 else 0)
  }

  lemma ExtendsLinks(g: Graph, g': Graph, populate: map<Key, seq<Key>>, key: Key)
    requires Extends(g, g', populate, key, None) && forall o :: o in g ==> LinkedTo(g, populate, o)
    ensures forall o :: o in g' ==> LinkedTo(g', populate, o)
  {
    forall o | o in g ensures LinkedTo(g', populate, o) {
      assert LinkedTo(g, populate, o);
    }
  }

  lemma OwnersAreKnown(g: Graph, d: Key, o: Key)
    requires WellFormed(g) && o !in g
    ensures Links(g, d, Some(o)) == 0
  {
    if d in g {
      forall i | 0 <= i < |g[d]| ensures g[d][i] != Slot(Some(o)) {
        assert IsEdge(g, Edge(d, i)) ==> Target(g, Edge(d, i)) in g;
      }
      assert Slot(Some(o)) !in g[d];
    }
  }

  lemma AddDependency(g: Graph, key: Key)
    requires WellFormed(g) && key !in g
    ensures var g' := g[key := []];
            WellFormed(g') && forall d, o :: Links(g', d, o) == Links(g, d, o)
  {
    var g' := g[key := []];
    forall e: Edge | IsEdge(g', e) ensures Target(g', e) in g' {
      assert IsEdge(g, e);
    }
  }

  lemma AddSlot(g: Graph, key: Key, c: Option<Key>)
    requires WellFormed(g) && key in g && (c.Some? ==> c.value in g)
    ensures var g' := g[key := g[key] + [Slot(c)]];
            WellFormed(g') && forall d, o :: Links(g', d, o) == Links(g, d, o) + if o == c && d == key then 1 else 0
  {
    var g' := g[key := g[key] + [Slot(c)]];
    forall e: Edge | IsEdge(g', e) ensures Target(g', e) in g' {
      assert IsEdge(g, e) || (e.d == key && e.i == |g[key]|);
    }
  }

  // The configurations that ask for each other, as edges from what is asked
  // for to who asks.
  ghost predicate AsksFor(populate: map<Key, seq<Key>>, d: Key, o: Key) {
    o in populate && d in populate[o]
  }

  // A configuration asks for another, and that for another, and so on to o.
  ghost predicate LeadsTo(populate: map<Key, seq<Key>>, p: seq<Key>, a: Key, o: Key) {
    && p != [] && p[0] == a && p[|p| - 1] == o
    && forall k :: 0 <= k < |p| - 1 ==> AsksFor(populate, p[k + 1], p[k])
  }

  ghost predicate Needed(populate: map<Key, seq<Key>>, a: Key, o: Key) {
    exists p :: LeadsTo(populate, p, a, o)
  }

  ghost predicate NeededBySome(populate: map<Key, seq<Key>>, slots: seq<Key>, o: Key) {
    exists a :: a in slots && Needed(populate, a, o)
  }

  // Every one of these keys is needed by some slot.
  ghost predicate AllNeededBy(populate: map<Key, seq<Key>>, slots: seq<Key>, keys: set<Key>) {
    forall o :: o in keys ==> NeededBySome(populate, slots, o)
  }

  lemma NeededByMore(populate: map<Key, seq<Key>>, slots: seq<Key>, i: nat, before: set<Key>, after: set<Key>)
    requires i < |slots| && AllNeededBy(populate, slots[..i], before)
    requires forall o :: o in after && o !in before ==> Needed(populate, slots[i], o)
    ensures AllNeededBy(populate, slots[..i + 1], after)
  {
    assert slots[..i + 1] == slots[..i] + [slots[i]];
    forall o | o in after ensures NeededBySome(populate, slots[..i + 1], o) {
      if o in before {
        var a :| a in slots[..i] && Needed(populate, a, o);
        assert a in slots[..i + 1];
      } else {
        assert slots[i] in slots[..i + 1];
      }
    }
  }

  lemma NeedsItself(populate: map<Key, seq<Key>>, a: Key)
    ensures Needed(populate, a, a)
  {
    assert LeadsTo(populate, [a], a, a);
  }

  lemma NeededThrough(populate: map<Key, seq<Key>>, a: Key, b: Key, o: Key)
    requires AsksFor(populate, b, a) && Needed(populate, b, o)
    ensures Needed(populate, a, o)
  {
    var p :| LeadsTo(populate, p, b, o);
    var q := [a] + p;
    forall k | 0 <= k < |q| - 1 ensures AsksFor(populate, q[k + 1], q[k]) {
      assert k > 0 ==> AsksFor(populate, p[k - 1 + 1], p[k - 1]);
    }
    assert LeadsTo(populate, q, a, o);
  }

  // A graph with all links has whatever its keys need.
  lemma {:induction false} NeededIsKnown(g: Graph, populate: map<Key, seq<Key>>, p: seq<Key>, a: Key, o: Key)
    requires WellFormed(g) && g.Keys <= populate.Keys && forall k :: k in g ==> LinkedTo(g, populate, k)
    requires a in g && LeadsTo(populate, p, a, o)
    ensures o in g
  {
    if |p| > 1 {
      assert AsksFor(populate, p[0 + 1], p[0]);
      BeforeIsAsking(g, populate, p[1], a);
      var rest := p[1..];
      forall k | 0 <= k < |rest| - 1 ensures AsksFor(populate, rest[k + 1], rest[k]) {
        assert AsksFor(populate, p[k + 1 + 1], p[k + 1]);
      }
      NeededIsKnown(g, populate, rest, p[1], o);
    }
  }

  ghost predicate AskingCycle(populate: map<Key, seq<Key>>, known: set<Key>, p: seq<Key>) {
    && |p| >= 2 && p[0] == p[|p| - 1] && p[0] in known
    && forall k :: 0 <= k < |p| - 1 ==> AsksFor(populate, p[k], p[k + 1])
  }

  lemma BeforeIsAsking(g: Graph, populate: map<Key, seq<Key>>, d: Key, o: Key)
    requires WellFormed(g) && g.Keys <= populate.Keys
    requires forall k :: k in g ==> LinkedTo(g, populate, k)
    ensures Before(g, d, o) <==> o in g && AsksFor(populate, d, o)
    ensures o in g && AsksFor(populate, d, o) ==> d in g
  {
    if o in g {
      assert LinkedTo(g, populate, o);
      assert d in populate[o] <==> Links(g, d, Some(o)) > 0;
      if Links(g, d, Some(o)) > 0 {
        assert Slot(Some(o)) in g[d];
        var i :| 0 <= i < |g[d]| && g[d][i] == Slot(Some(o));
        assert IsEdge(g, Edge(d, i)) && Target(g, Edge(d, i)) == o;
      }
      if Before(g, d, o) {
        var e :| IsEdge(g, e) && e.d == d && Target(g, e) == o;
        assert g[d][e.i] == Slot(Some(o));
      }
    }
  }

  // The registered graph has a cycle exactly when the configurations ask for
  // each other in a circle through a registered key.
  lemma CyclicIffAskingCycle(g: Graph, populate: map<Key, seq<Key>>)
    requires WellFormed(g) && g.Keys <= populate.Keys
    requires forall k :: k in g ==> LinkedTo(g, populate, k)
    ensures Cyclic(g) <==> exists p :: AskingCycle(populate, g.Keys, p)
  {
    if p :| IsCycle(g, p) {
      forall k | 0 <= k < |p| - 1 ensures AsksFor(populate, p[k], p[k + 1]) {
        assert Before(g, p[k], p[k + 1]);
        BeforeIsAsking(g, populate, p[k], p[k + 1]);
      }
      BeforeIsAsking(g, populate, p[0], p[1]);
      assert AskingCycle(populate, g.Keys, p);
    }
    if p :| AskingCycle(populate, g.Keys, p) {
      var k := |p| - 1;
      while k > 0
        invariant 0 <= k < |p| && p[k] in g
        invariant forall m :: k <= m < |p| - 1 ==> Before(g, p[m], p[m + 1])
      {
        assert AsksFor(populate, p[k - 1], p[k]);
        BeforeIsAsking(g, populate, p[k - 1], p[k]);
        k := k - 1;
      }
      assert IsCycle(g, p);
    }
  }

  class Dependencies {
    // The slots that each key's configuration asks for, in order.
    const populate: map<Key, seq<Key>>
    var deps: Graph
    var current: Option<Key>

    constructor (populate: map<Key, seq<Key>>)
      ensures this.populate == populate && deps == map[] && current == None
    {
      this.populate := populate;
      deps, current := map[], None;
    }

    ghost predicate Closed() {
      forall k, i :: k in populate && 0 <= i < |populate[k]| ==> populate[k][i] in populate
    }

    ghost predicate Ready()
      reads this
    {
      && Closed() && deps.Keys <= populate.Keys && WellFormed(deps)
      && (current.Some? ==> current.value in deps)
    }

    // Dependency
    method Dependency(key: Key)
      requires Ready() && key in populate
      modifies this`deps, this`current
      ensures Ready() && current == old(current)
      ensures Extends(old(deps), deps, populate, key, current)
      ensures forall o :: o in deps && o !in old(deps) ==> Needed(populate, key, o)
      decreases populate.Keys - deps.Keys, 2
    {
      if key !in deps {
        Introduce(key);
      }
      AddSlot(deps, key, current);
      deps := deps[key := deps[key] + [Slot(current)]];
    }

    // A key that is new is registered, and then what its configuration asks for.
    method Introduce(key: Key)
      requires Ready() && key in populate && key !in deps
      modifies this`deps, this`current
      ensures Ready() && current == old(current) && old(deps).Keys <= deps.Keys && key in deps
      ensures forall o :: o in deps && o !in old(deps) ==> LinkedTo(deps, populate, o)
      ensures forall d, o: Option<Key> :: (o.Some? ==> o.value in old(deps)) ==>
                Links(deps, d, o) == Links(old(deps), d, o)
      ensures forall o :: o in deps && o !in old(deps) ==> Needed(populate, key, o)
      decreases populate.Keys - deps.Keys, 1
    {
      NeedsItself(populate, key);
      Register(key);
      assert key in populate.Keys - old(deps).Keys && key !in populate.Keys - deps.Keys;
      var outer := current;
      current := Some(key);
      Populate(key);
      current := outer;
    }

    // What a key that is asked for brings in, is needed by who asks.
    lemma NewAreNeeded(before: Graph, key: Key, asked: Key)
      requires AsksFor(populate, asked, key)
      requires forall o :: o in deps && o !in before ==> Needed(populate, asked, o)
      ensures forall o :: o in deps && o !in before ==> Needed(populate, key, o)
    {
      forall o | o in deps && o !in before ensures Needed(populate, key, o) {
        NeededThrough(populate, key, asked, o);
      }
    }

    // A key that has not been asked for before.
    method Register(key: Key)
      requires Ready() && key in populate && key !in deps
      modifies this`deps
      ensures Ready() && deps == old(deps)[key := []]
      ensures forall d, o :: Links(deps, d, o) == Links(old(deps), d, o)
      ensures forall d :: Links(deps, d, Some(key)) == 0
    {
      AddDependency(deps, key);
      forall d ensures Links(deps, d, Some(key)) == 0 {
        OwnersAreKnown(deps, d, key);
      }
      deps := deps[key := []];
    }

    lemma AllNeeded(slots: seq<Key>)
      requires Ready() && (forall k :: 0 <= k < |slots| ==> slots[k] in deps)
      requires forall o :: o in deps ==> LinkedTo(deps, populate, o)
      ensures forall o :: NeededBySome(populate, slots, o) ==> o in deps
    {
      forall o | NeededBySome(populate, slots, o) ensures o in deps {
        var a :| a in slots && Needed(populate, a, o);
        var p :| LeadsTo(populate, p, a, o);
        NeededIsKnown(deps, populate, p, a, o);
      }
    }

    // The Populate of key's configuration.
    method Populate(key: Key)
      requires Ready() && key in populate && current == Some(key)
      requires forall d :: Links(deps, d, current) == 0
      modifies this`deps, this`current
      ensures Ready() && current == old(current)
      ensures old(deps).Keys <= deps.Keys && LinkedTo(deps, populate, key)
      ensures forall o :: o in deps && o !in old(deps) ==> LinkedTo(deps, populate, o)
      ensures forall d, o: Option<Key> :: (o.Some? ==> o.value in old(deps)) && o != current ==>
                Links(deps, d, o) == Links(old(deps), d, o)
      ensures forall o :: o in deps && o !in old(deps) ==> Needed(populate, key, o)
      decreases populate.Keys - deps.Keys, 3
    {
      for i := 0 to |populate[key]|
        invariant Ready() && current == old(current)
        invariant old(deps).Keys <= deps.Keys
        invariant forall d :: Links(deps, d, current) == multiset(populate[key][..i])[d]
        invariant forall o :: o in deps && o !in old(deps) ==> LinkedTo(deps, populate, o)
        invariant forall d, o: Option<Key> :: (o.Some? ==> o.value in old(deps)) && o != current ==>
                  Links(deps, d, o) == Links(old(deps), d, o)
        invariant forall o :: o in deps && o !in old(deps) ==> Needed(populate, key, o)
      {
        assert populate[key][..i + 1] == populate[key][..i] + [populate[key][i]];
        ghost var before := deps;
        Dependency(populate[key][i]);
        NewAreNeeded(before, key, populate[key][i]);
      }
      assert populate[key][..|populate[key]|] == populate[key];
    }

    // The number of unprocessed dependencies of each dependency.
    method CountOwners() returns (counts: map<Key, int>, ghost es: set<Edge>)
      requires WellFormed(deps)
      ensures Counted(deps, counts, es) && counts.Keys <= deps.Keys
      ensures forall e: Edge :: e in es <==> IsEdge(deps, e)
    {
      counts, es := map[], {};
      var rest := deps.Keys;
      while rest != {}
        invariant rest <= deps.Keys && counts.Keys <= deps.Keys
        invariant Counted(deps, counts, es)
        invariant forall e: Edge :: e in es <==> IsEdge(deps, e) && e.d !in rest
        decreases rest
      {
        var d :| d in rest;
        for i := 0 to |deps[d]|
          invariant counts.Keys <= deps.Keys
          invariant Counted(deps, counts, es)
          invariant forall e: Edge :: e in es <==> IsEdge(deps, e) && (e.d !in rest || (e.d == d && e.i < i))
        {
          var slot := deps[d][i];
          if slot.owner.Some? {
            CountedAdd(deps, counts, es, Edge(d, i));
            assert Target(deps, Edge(d, i)) in deps;
            counts := counts[slot.owner.value := Count(counts, slot.owner.value) + 1];
            es := es + {Edge(d, i)};
          }
        }
        rest := rest - {d};
      }
    }

    method FindReady(counts: map<Key, int>) returns (ready: seq<Key>)
      ensures forall n :: n in ready <==> n in deps && Count(counts, n) == 0
      ensures forall i, j :: 0 <= i < j < |ready| ==> ready[i] != ready[j]
    {
      ready := [];
      var rest := deps.Keys;
      while rest != {}
        invariant rest <= deps.Keys
        invariant forall n :: n in ready <==> n in deps && n !in rest && Count(counts, n) == 0
        invariant forall i, j :: 0 <= i < j < |ready| ==> ready[i] != ready[j]
        decreases rest
      {
        var d :| d in rest;
        if Count(counts, d) == 0 {
          ready := ready + [d];
        }
        rest := rest - {d};
      }
    }

    // Process slot i of a made dependency.
    method ProcessSlot(dep: Key, i: nat, counts0: map<Key, int>, ready0: seq<Key>,
                       ghost made: set<Key>, ghost es0: set<Edge>)
      returns (counts: map<Key, int>, ready: seq<Key>, ghost es: set<Edge>)
      requires WellFormed(deps) && dep in deps && i < |deps[dep]|
      requires Tracked(deps, counts0, made, ready0, es0)
      requires IsEdge(deps, Edge(dep, i)) ==> Edge(dep, i) in es0
      ensures Tracked(deps, counts, made, ready, es)
      ensures es == es0 - {Edge(dep, i)}
    {
      counts, ready, es := counts0, ready0, es0 - {Edge(dep, i)};
      var slot := deps[dep][i];
      if slot.owner.Some? {
        var e := Edge(dep, i);
        var owner := slot.owner.value;
        CountedRemove(deps, counts0, es0, e);
        assert Target(deps, e) == owner && owner in deps && e in Into(deps, es0, owner);
        var count := Count(counts0, owner) - 1;
        counts := counts0[owner := count];
        if count == 0 {
          ready := ready + [owner];
        }
      } else {
        assert es == es0;
      }
    }

    // Process a dependency that has just been made.
    method Process(dep: Key, counts0: map<Key, int>, ready0: seq<Key>, ghost made: set<Key>, ghost es0: set<Edge>)
      returns (counts: map<Key, int>, ready: seq<Key>, ghost es: set<Edge>)
      requires WellFormed(deps) && dep in deps && dep in made
      requires Tracked(deps, counts0, made, ready0, es0) && LeftToDo(deps, made, dep, 0, es0)
      ensures Tracked(deps, counts, made, ready, es) && LeftToDo(deps, made, dep, |deps[dep]|, es)
    {
      counts, ready, es := counts0, ready0, es0;
      for i := 0 to |deps[dep]|
        invariant Tracked(deps, counts, made, ready, es)
        invariant LeftToDo(deps, made, dep, i, es)
      {
        LeftToDoNext(deps, made, dep, i, es);
        counts, ready, es := ProcessSlot(dep, i, counts, ready, made, es);
      }
    }

    // sort: None stands for the "Circular dependencies" panic.
    method Sort() returns (order: Option<seq<Key>>)
      requires WellFormed(deps)
      ensures order.Some? ==> IsOrder(deps, order.value)
      ensures order.None? <==> Cyclic(deps)
    {
      var counts, es := CountOwners();
      var ready := FindReady(counts);
      var res: seq<Key> := [];
      ghost var made: set<Key> := {};
      while |ready| != 0
        invariant Tracked(deps, counts, made, ready, es)
        invariant forall e: Edge :: e in es <==> IsEdge(deps, e) && e.d !in made
        invariant forall n :: n in res <==> n in made
        invariant made <= deps.Keys
        invariant Distinct(res) && InOrder(deps, res)
        decreases deps.Keys - made
      {
        var dep := ready[|ready| - 1];
        Appended(deps, counts, made, res, es, dep);
        ready := ready[..|ready| - 1];
        made := made + {dep};
        res := res + [dep];
        counts, ready, es := Process(dep, counts, ready, made, es);
      }
      if n :| n in counts && counts[n] != 0 {
        StuckMeansCyclic(deps, counts, es, res, n);
        return None;
      }
      assert IsOrder(deps, res);
      OrderExcludesCycles(deps, res);
      return Some(res);
    }

    // The next slot at the top.
    method FillNext(slot: Key)
      requires Ready() && slot in populate && current == None
      requires forall o :: o in deps ==> LinkedTo(deps, populate, o)
      modifies this`deps, this`current
      ensures Ready() && current == None && old(deps).Keys <= deps.Keys && slot in deps
      ensures forall o :: o in deps ==> LinkedTo(deps, populate, o)
      ensures forall o :: o in deps && o !in old(deps) ==> Needed(populate, slot, o)
    {
      ghost var before := deps;
      Dependency(slot);
      ExtendsLinks(before, deps, populate, slot);
    }

    // What the top-level configurations ask for is registered.
    method Fill(slots: seq<Key>)
      requires Closed() && deps == map[] && current == None
      requires forall k :: 0 <= k < |slots| ==> slots[k] in populate
      modifies this`deps, this`current
      ensures Ready() && forall k :: 0 <= k < |slots| ==> slots[k] in deps
      ensures forall o :: o in deps ==> LinkedTo(deps, populate, o)
      ensures AllNeededBy(populate, slots, deps.Keys)
    {
      for i := 0 to |slots|
        invariant Ready() && current == None
        invariant forall k :: 0 <= k < i ==> slots[k] in deps
        invariant forall o :: o in deps ==> LinkedTo(deps, populate, o)
        invariant AllNeededBy(populate, slots[..i], deps.Keys)
      {
        ghost var before := deps;
        FillNext(slots[i]);
        NeededByMore(populate, slots, i, before.Keys, deps.Keys);
      }
      assert slots[..|slots|] == slots;
    }

    // Fill slots as configsToStartFuncs does: register what the top-level
    // configurations ask for, then sort.
    method Order(slots: seq<Key>) returns (order: Option<seq<Key>>)
      requires Closed() && deps == map[] && current == None
      requires forall k :: 0 <= k < |slots| ==> slots[k] in populate
      modifies this`deps, this`current
      ensures WellFormed(deps) && forall k :: 0 <= k < |slots| ==> slots[k] in deps
      ensures forall o :: o in deps ==> o in populate && LinkedTo(deps, populate, o)
      ensures forall o :: o in deps <==> NeededBySome(populate, slots, o)
      ensures order.Some? ==> IsOrder(deps, order.value)
      ensures order.None? <==> exists p :: AskingCycle(populate, deps.Keys, p)
    {
      Fill(slots);
      AllNeeded(slots);
      CyclicIffAskingCycle(deps, populate);
      order := Sort();
    }
  }
}
