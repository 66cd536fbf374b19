/** Options, lookups and rearranged sequences. */
module Collections {
  datatype Option<T> = None | Some(value: T)

  function Lookup<K, V>(m: map<K, V>, key: K): Option<V> {
    if key in m then Some(m[key]) else None
  }

  lemma OneItemMore<T>(before: seq<T>, items: seq<T>, j: nat)
    requires j < |items|
    ensures before + items[..j + 1] == before + items[..j] + [items[j]]
  {
  }

  lemma ConcatAssociates<T>(a: seq<T>, b: seq<T>, c: seq<T>)
    ensures (a + b) + c == a + (b + c)
  {
  }

  lemma CancelOne<T>(a: multiset<T>, b: multiset<T>, x: T)
    requires a + multiset{x} == b + multiset{x}
    ensures a == b
  {
    assert a == (a + multiset{x}) - multiset{x};
  }

  /** A rearrangement of a sequence holds its last item somewhere, and is without it a
      rearrangement of the rest. */
  lemma TakenOut<T>(items: seq<T>, other: seq<T>) returns (a: seq<T>, b: seq<T>)
    requires items != [] && multiset(items) == multiset(other)
    ensures other == a + [items[|items| - 1]] + b && multiset(a + b) == multiset(items[..|items| - 1])
  {
    var rest, last := items[..|items| - 1], items[|items| - 1];
    assert items == rest + [last];
    assert last in multiset(other);
    var i :| 0 <= i < |other| && other[i] == last;
    a, b := other[..i], other[i + 1..];
    assert other == a + [last] + b;
    assert multiset(other) == multiset(a + b) + multiset{last};
    CancelOne(multiset(a + b), multiset(rest), last);
  }
}
