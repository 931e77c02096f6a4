// Binary heap order on a sequence of keys, and what one sift step does to it.
module Heap {

  ghost predicate Child(i: nat, k: nat) {
    k == 2 * i + 1 || k == 2 * i + 2
  }

  // Order on the first n slots, for parents from lo on.
  ghost predicate Ordered(ts: seq<int>, lo: nat, n: nat)
    requires n <= |ts|
  {
    forall p: nat, k: nat {:trigger Child(p, k)} :: Child(p, k) && lo <= p && k < n ==> ts[p] <= ts[k]
  }

  // Order but for the edge into slot j; j's children are no smaller than j's
  // parent.
  ghost predicate OrderedButInto(ts: seq<int>, lo: nat, j: nat, n: nat)
    requires n <= |ts|
  {
    && (forall p: nat, k: nat {:trigger Child(p, k)} :: Child(p, k) && lo <= p && k < n && k != j ==> ts[p] <= ts[k])
    && (forall p: nat, k: nat {:trigger Child(p, j), Child(j, k)} ::
          Child(p, j) && Child(j, k) && lo <= p && k < n ==> ts[p] <= ts[k])
  }

  // Order but for the edges out of slot i and, while i has not moved from top,
  // the edge into it; i's children are no smaller than i's parent.
  ghost predicate OrderedButOutOf(ts: seq<int>, lo: nat, top: nat, i: nat, n: nat)
    requires n <= |ts|
  {
    && (forall p: nat, k: nat {:trigger Child(p, k)} ::
          Child(p, k) && lo <= p && p != i && k < n && (k != top || i != top) ==> ts[p] <= ts[k])
    && (forall p: nat, k: nat {:trigger Child(p, i), Child(i, k)} ::
          Child(p, i) && Child(i, k) && lo <= p && k < n ==> ts[p] <= ts[k])
  }

  ghost function Swapped<T>(ts: seq<T>, i: nat, j: nat): (r: seq<T>)
    requires i < |ts| && j < |ts|
    ensures |r| == |ts|
  {
    ts[i := ts[j]][j := ts[i]]
  }

  lemma UpStep(ts: seq<int>, i: nat, j: nat, n: nat)
    requires j < n <= |ts| && Child(i, j)
    requires OrderedButInto(ts, 0, j, n) && ts[j] < ts[i]
    ensures OrderedButInto(Swapped(ts, i, j), 0, i, n)
  {
    var r := Swapped(ts, i, j);
    forall p: nat, k: nat | Child(p, k) && k < n && k != i ensures r[p] <= r[k] {
      if p == j {
        assert Child(j, k) && Child(i, j);
      }
    }
    forall p: nat, k: nat | Child(p, i) && Child(i, k) && k < n ensures r[p] <= r[k] {
      assert ts[p] <= ts[i];
    }
  }

  lemma UpDone(ts: seq<int>, j: nat, n: nat)
    requires j < n <= |ts| && OrderedButInto(ts, 0, j, n)
    requires forall p: nat {:trigger Child(p, j)} :: Child(p, j) ==> ts[p] <= ts[j]
    ensures Ordered(ts, 0, n)
  {
  }

  lemma DownStep(ts: seq<int>, lo: nat, top: nat, i: nat, j: nat, n: nat)
    requires lo <= top <= i && j < n <= |ts| && Child(i, j)
    requires OrderedButOutOf(ts, lo, top, i, n) && ts[j] < ts[i]
    requires forall k: nat {:trigger Child(i, k)} :: Child(i, k) && k < n ==> ts[j] <= ts[k]
    ensures OrderedButOutOf(Swapped(ts, i, j), lo, top, j, n)
  {
    var r := Swapped(ts, i, j);
    forall p: nat, k: nat | Child(p, k) && lo <= p && p != j && k < n ensures r[p] <= r[k] {
      if k == i {
        assert Child(p, i) && Child(i, j);
      } else if p == i {
        assert ts[j] <= ts[k];
      }
    }
    forall p: nat, k: nat | Child(p, j) && Child(j, k) && lo <= p && k < n ensures r[p] <= r[k] {
      assert ts[j] <= ts[k];
    }
  }

  lemma DownDone(ts: seq<int>, lo: nat, top: nat, i: nat, n: nat)
    requires lo <= top <= i && n <= |ts|
    requires OrderedButOutOf(ts, lo, top, i, n)
    requires forall k: nat {:trigger Child(i, k)} :: Child(i, k) && k < n ==> ts[i] <= ts[k]
    ensures OrderedButInto(ts, lo, top, n)
  {
    forall p: nat, k: nat | Child(p, top) && Child(top, k) && lo <= p && k < n ensures ts[p] <= ts[k] {
      if i != top {
        assert ts[p] <= ts[top] && ts[top] <= ts[k];
      }
    }
  }

  // Taking slot i out by swapping it with the last one leaves only the
  // neighbourhood of i unordered.
  lemma RemoveStep(ts: seq<int>, i: nat)
    requires i < |ts| - 1 && Ordered(ts, 0, |ts|)
    ensures OrderedButOutOf(Swapped(ts, |ts| - 1, i), 0, i, i, |ts| - 1)
  {
    var n := |ts| - 1;
    var r := Swapped(ts, n, i);
    forall p: nat, k: nat | Child(p, i) && Child(i, k) && k < n ensures r[p] <= r[k] {
      assert ts[p] <= ts[i] && ts[i] <= ts[k];
    }
  }

  // The root is a minimum.
  lemma {:induction false} RootIsMinimum(ts: seq<int>, k: nat)
    requires k < |ts| && Ordered(ts, 0, |ts|)
    ensures ts[0] <= ts[k]
  {
    if k > 0 {
      var p := (k - 1) / 2;
      assert Child(p, k);
      RootIsMinimum(ts, p);
    }
  }
}
