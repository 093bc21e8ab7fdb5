/** Python's insertion-ordered `dict` / `OrderedDict`. */
module OrderedMaps {

  /** No element occurs twice. */
  ghost predicate Distinct<T>(s: seq<T>) {
    forall i, j :: 0 <= i < j < |s| ==> s[i] != s[j]
  }

  /** `[f(x) for x in s]`. */
  function Project<A, B>(s: seq<A>, f: A -> B): (r: seq<B>)
    ensures |r| == |s| && forall i :: 0 <= i < |s| ==> r[i] == f(s[i])
  {
    seq(|s|, i requires 0 <= i < |s| => f(s[i]))
  }

  /** A prefix of a repeat-free sequence is repeat-free. */
  lemma DistinctPrefix<T>(s: seq<T>, j: nat)
    requires Distinct(s) && j <= |s|
    ensures Distinct(s[..j])
  {
    forall a, b | 0 <= a < b < j
      ensures s[..j][a] != s[..j][b]
    {
      assert s[..j][a] == s[a] && s[..j][b] == s[b];
    }
  }

  /** Dropping the head of a repeat-free sequence leaves one without the head. */
  lemma DistinctTail<T>(s: seq<T>)
    requires Distinct(s) && s != []
    ensures Distinct(s[1..]) && s[0] !in s[1..]
  {
    var t := s[1..];
    forall i, j | 0 <= i < j < |t|
      ensures t[i] != t[j]
    {
      assert t[i] == s[i + 1] && t[j] == s[j + 1];
    }
  }

  /** Dropping the last element of a repeat-free sequence leaves one without it. */
  lemma DistinctInit<T>(s: seq<T>, x: T)
    requires Distinct(s + [x])
    ensures Distinct(s) && x !in s
  {
    forall i, j | 0 <= i < j < |s|
      ensures s[i] != s[j]
    {
      assert s[i] == (s + [x])[i] && s[j] == (s + [x])[j];
    }
    forall i | 0 <= i < |s|
      ensures s[i] != x
    {
      assert s[i] == (s + [x])[i] && x == (s + [x])[|s|];
    }
  }

  /** A sequence without repeats has as many elements as its set. */
  lemma {:induction false} DistinctCard<T>(s: seq<T>)
    requires Distinct(s)
    ensures |set x | x in s| == |s|
  {
    if s != [] {
      var t := s[..|s| - 1];
      DistinctCard(t);
      assert (set x | x in s) == (set x | x in t) + {s[|s| - 1]};
      assert s[|s| - 1] !in t;
    }
  }

  /** Two repeat-free sequences, the first drawn from the second: if the first is shorter,
      the second has an element the first lacks; if they are as long, they hold the same
      elements. */
  lemma Pigeonhole<T>(a: seq<T>, b: seq<T>)
    requires Distinct(a) && Distinct(b)
    requires forall x :: x in a ==> x in b
    ensures |a| < |b| ==> exists y :: y in b && y !in a
    ensures |a| == |b| ==> forall y :: y in b ==> y in a
  {
    DistinctCard(a);
    DistinctCard(b);
    var sa, sb := set x | x in a, set x | x in b;
    assert sb == sa + (sb - sa);
    assert sa * (sb - sa) == {};
    assert |sb - sa| == |sb| - |sa|;
    if |a| == |b| {
      assert sb - sa == {};
      forall y | y in b
        ensures y in a
      {
        assert y in sb;
        assert y !in sb - sa;
        assert y in sa;
      }
    } else if |a| < |b| {
      assert sb - sa != {};
      var y :| y in sb - sa;
      assert y in b && y !in a;
    }
  }

  /** The keys in insertion order, and the value stored under each key. */
  datatype OrderedMap<K, V> = OrderedMap(keys: seq<K>, vals: map<K, V>) {
    ghost predicate Valid() {
      && (forall i, j :: 0 <= i < j < |keys| ==> keys[i] != keys[j])
      && vals.Keys == set k | k in keys
    }
  }

  /** Every key is listed exactly once, and exactly the stored keys are listed. */
  type OMap<K, V> = m: OrderedMap<K, V> | m.Valid() witness OrderedMap([], map[])

  function Empty<K, V>(): (m: OMap<K, V>)
    ensures m.keys == [] && m.vals == map[]
  {
    OrderedMap([], map[])
  }

  /** `m[k] = v`: an existing key keeps its position, a new key goes last. */
  function Put<K, V>(m: OMap<K, V>, k: K, v: V): (r: OMap<K, V>)
    ensures r.vals == m.vals[k := v]
    ensures r.keys == if k in m.vals then m.keys else m.keys + [k]
  {
    if k in m.vals then OrderedMap(m.keys, m.vals[k := v])
    else OrderedMap(m.keys + [k], m.vals[k := v])
  }
}
