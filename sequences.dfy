/** Sequence helpers the model relies on: counting the occurrences of a value element by
    element (the count a `multiset` reports, in a form whose proofs stay local), flattening,
    and re-association of concatenations. */
module Sequences {

  function Occurrences<T(==)>(xs: seq<T>, v: T): (c: nat)
    ensures c <= |xs|
  {
    if |xs| == 0 then 0
    else Occurrences(xs[..|xs| - 1], v) + (if xs[|xs| - 1] == v then 1 else 0)
  }

  lemma OccurrencesSingle<T>(a: T, v: T)
    ensures Occurrences([a], v) == if a == v then 1 else 0
  {
    assert [a][..0] == [];
  }

  lemma {:induction false} OccurrencesAppend<T>(a: seq<T>, b: seq<T>, v: T)
    ensures Occurrences(a + b, v) == Occurrences(a, v) + Occurrences(b, v)
    decreases |b|
  {
    if |b| > 0 {
      var n := |b| - 1;
      assert (a + b)[..|a + b| - 1] == a + b[..n];
      OccurrencesAppend(a, b[..n], v);
    } else {
      assert a + b == a;
    }
  }

  lemma {:induction false} OccurrencesMember<T>(xs: seq<T>, v: T)
    ensures Occurrences(xs, v) > 0 <==> v in xs
    decreases |xs|
  {
    if |xs| > 0 {
      var n := |xs| - 1;
      assert xs == xs[..n] + [xs[n]];
      OccurrencesMember(xs[..n], v);
    }
  }

  lemma {:induction false} OccurrencesMultiset<T>(xs: seq<T>, v: T)
    ensures multiset(xs)[v] == Occurrences(xs, v)
    decreases |xs|
  {
    if |xs| > 0 {
      var n := |xs| - 1;
      assert xs == xs[..n] + [xs[n]];
      OccurrencesMultiset(xs[..n], v);
    }
  }

  /** The concatenation of a sequence of sequences, in order. */
  function Flatten<T>(parts: seq<seq<T>>): seq<T>
  {
    if |parts| == 0 then [] else Flatten(parts[..|parts| - 1]) + parts[|parts| - 1]
  }

  /** If `v` can only occur in the part numbered `owner`, and occurs there once exactly
      when `present` holds, the concatenation holds it once exactly when `owner` is a
      part and `present` holds. */
  lemma {:induction false} FlattenOccurrences<T>(parts: seq<seq<T>>, v: T, owner: int, present: bool)
    requires forall i :: 0 <= i < |parts| ==> Occurrences(parts[i], v) == if i == owner && present then 1 else 0
    ensures Occurrences(Flatten(parts), v) == if 0 <= owner < |parts| && present then 1 else 0
    decreases |parts|
  {
    if |parts| > 0 {
      var n := |parts| - 1;
      var front := parts[..n];
      assert forall i :: 0 <= i < n ==> front[i] == parts[i];
      FlattenOccurrences(front, v, owner, present);
      OccurrencesAppend(Flatten(front), parts[n], v);
    }
  }

  lemma AppendAssoc<T>(a: seq<T>, b: seq<T>, c: seq<T>)
    ensures (a + b) + c == a + (b + c)
  {
  }

  /** The numbers `0, 1, ..., n - 1` in order. */
  function Iota(n: nat): (r: seq<int>)
    ensures |r| == n
  {
    if n == 0 then [] else Iota(n - 1) + [n - 1]
  }

  lemma {:induction false} IotaAt(n: nat, k: int)
    requires 0 <= k < n
    ensures Iota(n)[k] == k
  {
    if k < n - 1 {
      IotaAt(n - 1, k);
    }
  }

  /** Appending the next two numbers extends the run. */
  lemma IotaExtend(n: nat)
    ensures Iota(n) + [n, n + 1] == Iota(n + 2)
  {
    AppendAssoc(Iota(n), [n], [n + 1]);
  }
}
