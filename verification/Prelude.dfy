// Small datatypes shared by the other modules.
module Prelude {

  // A Go pointer that is only ever nil or dereferenced.
  datatype Option<+T> = None | Some(value: T)

  function Get<K, V>(m: map<K, V>, k: K): Option<V> {
    if k in m then Some(m[k]) else None
  }

  lemma SameMaps<K(!new), V(!new)>(a: map<K, V>, b: map<K, V>)
    requires forall n :: Get(a, n) == Get(b, n)
    ensures a == b
  {
    forall n ensures n in a <==> n in b {
      assert Get(a, n) == Get(b, n);
    }
    forall n | n in a ensures a[n] == b[n] {
      assert Get(a, n) == Get(b, n);
    }
  }

  // The elements of a set, each once.
  ghost predicate EachOnce<T(!new)>(q: seq<T>, all: set<T>) {
    && (forall x :: x in q <==> x in all)
    && (forall i, j :: 0 <= i < j < |q| ==> q[i] != q[j])
  }

  lemma OnceMore<T(!new)>(q: seq<T>, all: set<T>, x: T)
    requires EachOnce(q, all) && x !in all
    ensures EachOnce(q + [x], all + {x})
  {
  }

  // The wanted entries, with the value that they had before if they had one.
  function Retained<K, V>(before: map<K, V>, wanted: map<K, V>): map<K, V> {
    map k | k in wanted :: if k in before then before[k] else wanted[k]
  }

  // netutil.IPPort, a comparable address.
  datatype IPPort = IPPort(ip: string, port: int)
}
