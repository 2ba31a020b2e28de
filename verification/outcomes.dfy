/** How calls of the machine end: Java's exceptional exits written as values. */
module Outcomes {

  /** The three ways a call can end abruptly. */
  datatype Exception =
    | Unsupported      // UnsupportedOperationException: the current state rejects the call
    | IllegalArgument  // IllegalArgumentException: a stock, quantity or settlement check failed
    | NullDeref        // NullPointerException: a map lookup answered null and the null was used

  /** A Java reference that may be null. */
  datatype Option<+T> = None | Some(value: T)

  /** A call that yields a value (or a new piece of state), or throws. */
  datatype Result<+T> = Ok(value: T) | Throw(exc: Exception)

  /** How a void call ended. */
  datatype Completion = Normal | Raised(exc: Exception)
}

/** Iteration over the key set of a Java HashMap, in the map's own order. */
module KeyOrder {

  /** `keys` lists every key of `m` exactly once, in the order a for-each loop visits them. */
  predicate Enumerates<V>(keys: seq<int>, m: map<int, V>)
  {
    && (forall j :: 0 <= j < |keys| ==> keys[j] in m)
    && (forall k :: k in m ==> k in keys)
    && (forall j, l :: 0 <= j < l < |keys| ==> keys[j] != keys[l])
  }

  lemma EnumeratesEmpty<V>(keys: seq<int>, m: map<int, V>)
    requires Enumerates(keys, m)
    ensures keys == [] <==> m == map[]
  {
    if keys == [] {
      assert forall k :: k !in m;
      assert m == map[];
    }
    if keys != [] {
      assert keys[0] in m;
    }
  }

  /** Taking the key at position `j` out of an enumeration leaves an enumeration of the rest
      of the map. */
  lemma EnumeratesRemoveAt<V>(b: seq<int>, m: map<int, V>, j: nat)
    requires Enumerates(b, m) && j < |b|
    ensures Enumerates(b[..j] + b[j + 1..], m - {b[j]})
  {
    var m' := m - {b[j]};
    var c := b[..j] + b[j + 1..];
    forall l | 0 <= l < |c|
      ensures c[l] in m'
    {
      if l < j { assert c[l] == b[l]; } else { assert c[l] == b[l + 1]; }
    }
    forall k | k in m'
      ensures k in c
    {
      assert k in m;
      var l :| 0 <= l < |b| && b[l] == k;
      if l < j { assert c[l] == k; } else { assert c[l - 1] == k; }
    }
    forall l, n | 0 <= l < n < |c|
      ensures c[l] != c[n]
    {
      var l' := if l < j then l else l + 1;
      var n' := if n < j then n else n + 1;
      assert c[l] == b[l'];
      assert c[n] == b[n'];
    }
  }

  /** Two enumerations of one map visit the same keys: the first key of one sits at some
      position of the other, and with that key taken out of both, what remains of each
      enumerates the rest of the map. */
  lemma EnumeratesDrop<V>(a: seq<int>, b: seq<int>, m: map<int, V>) returns (j: nat)
    requires Enumerates(a, m) && Enumerates(b, m) && a != []
    ensures j < |b| && b[j] == a[0]
    ensures Enumerates(a[1..], m - {a[0]})
    ensures Enumerates(b[..j] + b[j + 1..], m - {a[0]})
  {
    var x := a[0];
    assert x in b by {
      assert x in m;
      assert forall k :: k in m ==> k in b;
    }
    j :| 0 <= j < |b| && b[j] == x;
    assert Enumerates(a[1..], m - {x}) by {
      EnumeratesRemoveAt(a, m, 0);
      assert a[..0] + a[1..] == a[1..];
    }
    EnumeratesRemoveAt(b, m, j);
  }
}
