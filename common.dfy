/** Small shared types: optional values, HTTP responses, and hash-map values listed in an iteration order. */
module Common {

  /** A JavaScript/Java value that may be absent (null or undefined). */
  datatype Option<+T> = None | Some(value: T) {
    /** The `??` operator: the value when present, otherwise the default. */
    function GetOr(default: T): T {
      match this
      case Some(v) => v
      case None => default
    }
  }

  /** `s.filter(p)`: the elements satisfying `p`, in their order. */
  function Filter<T>(s: seq<T>, p: T -> bool): (r: seq<T>)
    ensures |r| <= |s|
    ensures forall x | x in r :: x in s && p(x)
    ensures forall x | x in s && p(x) :: x in r
  {
    if s == [] then [] else (if p(s[0]) then [s[0]] else []) + Filter(s[1..], p)
  }

  /** Filtering distributes over concatenation, so it keeps the relative order of what it keeps. */
  lemma {:induction false} FilterConcat<T>(a: seq<T>, b: seq<T>, p: T -> bool)
    ensures Filter(a + b, p) == Filter(a, p) + Filter(b, p)
  {
    if a != [] {
      FilterConcat(a[1..], b, p);
      assert (a + b)[0] == a[0];
      assert (a + b)[1..] == a[1..] + b;
      var head := if p(a[0]) then [a[0]] else [];
      var rest, tail := Filter(a[1..], p), Filter(b, p);
      assert Filter(a, p) == head + rest;
      assert Filter(a + b, p) == head + (rest + tail);
      assert head + (rest + tail) == (head + rest) + tail;
    } else {
      assert a + b == b;
    }
  }

  /** Filtering keeps everything exactly when every element satisfies the predicate. */
  lemma {:induction false} FilterKeepsAll<T>(s: seq<T>, p: T -> bool)
    ensures Filter(s, p) == s <==> forall i | 0 <= i < |s| :: p(s[i])
  {
    if s != [] {
      FilterKeepsAll(s[1..], p);
      if !p(s[0]) {
        assert |Filter(s, p)| < |s|;
      } else {
        assert [s[0]] + s[1..] == s;
        if forall i | 0 <= i < |s| :: p(s[i]) {
          assert forall i | 0 <= i < |s[1..]| :: p(s[1..][i]) by {
            forall i | 0 <= i < |s[1..]| ensures p(s[1..][i]) {
              assert s[1..][i] == s[i + 1];
            }
          }
        } else {
          var k :| 0 <= k < |s| && !p(s[k]);
          assert s[1..][k - 1] == s[k];
        }
      }
    }
  }

  /** Filtering keeps nothing when no element satisfies the predicate. */
  lemma {:induction false} FilterDropsAll<T>(s: seq<T>, p: T -> bool)
    requires forall i | 0 <= i < |s| :: !p(s[i])
    ensures Filter(s, p) == []
  {
    if s != [] {
      assert !p(s[0]);
      assert forall i | 0 <= i < |s[1..]| :: s[1..][i] == s[i + 1];
      FilterDropsAll(s[1..], p);
    }
  }

  /** No element occurs twice. */
  predicate Distinct<T(==)>(s: seq<T>) {
    forall i, j | 0 <= i < j < |s| :: s[i] != s[j]
  }

  /** Filtering a sequence without repetitions gives one without repetitions. */
  lemma {:induction false} FilterDistinct<T>(s: seq<T>, p: T -> bool)
    requires Distinct(s)
    ensures Distinct(Filter(s, p))
  {
    if s != [] {
      var rest := Filter(s[1..], p);
      FilterDistinct(s[1..], p);
      assert s[0] !in s[1..] by {
        forall i | 0 <= i < |s[1..]| ensures s[1..][i] != s[0] {
          assert s[1..][i] == s[i + 1];
        }
      }
      if p(s[0]) {
        assert s[0] !in rest;
        var r := Filter(s, p);
        assert r == [s[0]] + rest;
        forall i, j | 0 <= i < j < |r| ensures r[i] != r[j] {
          if i == 0 {
            assert r[j] == rest[j - 1];
          } else {
            assert r[i] == rest[i - 1] && r[j] == rest[j - 1];
          }
        }
      }
    }
  }

  /** `s.map(f)`. */
  function Map<T, U>(s: seq<T>, f: T -> U): (r: seq<U>)
    ensures |r| == |s| && forall i | 0 <= i < |s| :: r[i] == f(s[i])
  {
    if s == [] then [] else [f(s[0])] + Map(s[1..], f)
  }

  /** `s.findIndex(p)`: the first position whose element satisfies `p`. */
  function FirstIndex<T>(s: seq<T>, p: T -> bool): (r: Option<nat>)
    ensures r.None? <==> forall i | 0 <= i < |s| :: !p(s[i])
    ensures r.Some? ==> r.value < |s| && p(s[r.value]) && forall j | 0 <= j < r.value :: !p(s[j])
  {
    if s == [] then None
    else if p(s[0]) then Some(0)
    else match FirstIndex(s[1..], p)
      case None => None
      case Some(i) => Some(i + 1)
  }

  /** `s.find(p)`: the first element satisfying `p`. */
  function Find<T>(s: seq<T>, p: T -> bool): Option<T> {
    match FirstIndex(s, p)
    case None => None
    case Some(i) => Some(s[i])
  }

  /** An HTTP response of a Spring controller: a status code and an optional body. */
  datatype Response<+T> = Response(code: int, body: Option<T>)

  /** `order` lists every key of `m` exactly once: an iteration order of a Java hash map. */
  ghost predicate EnumeratesKeys<K, V>(m: map<K, V>, order: seq<K>) {
    && (forall k | k in order :: k in m)
    && (forall k | k in m :: k in order)
    && (forall i, j :: 0 <= i < j < |order| ==> order[i] != order[j])
  }

  /** `new ArrayList<>(map.values())`: the values of `m` in the iteration order `order`. */
  function ValuesInOrder<K, V>(m: map<K, V>, order: seq<K>): (r: seq<V>)
    requires forall k | k in order :: k in m
    ensures |r| == |order|
    ensures forall i | 0 <= i < |order| :: r[i] == m[order[i]]
  {
    if order == [] then [] else [m[order[0]]] + ValuesInOrder(m, order[1..])
  }

  /** A sequence without repeated elements has as many elements as the set of its elements. */
  lemma {:induction false} DistinctCardinality<K>(order: seq<K>)
    requires forall i, j :: 0 <= i < j < |order| ==> order[i] != order[j]
    ensures |set k | k in order| == |order|
  {
    if order != [] {
      var rest := order[1..];
      DistinctCardinality(rest);
      assert (set k | k in order) == (set k | k in rest) + {order[0]};
      assert order[0] !in (set k | k in rest) by {
        forall i | 0 <= i < |rest| ensures rest[i] != order[0] {
          assert rest[i] == order[i + 1];
        }
      }
    }
  }

  /** Listing the values of a map in an iteration order yields every stored value, one per key. */
  lemma ValuesInOrderComplete<K, V>(m: map<K, V>, order: seq<K>)
    requires EnumeratesKeys(m, order)
    ensures |ValuesInOrder(m, order)| == |m|
    ensures forall k | k in m :: m[k] in ValuesInOrder(m, order)
  {
    DistinctCardinality(order);
    assert (set k | k in order) == m.Keys;
    var r := ValuesInOrder(m, order);
    forall k | k in m ensures m[k] in r {
      var i :| 0 <= i < |order| && order[i] == k;
      assert r[i] == m[k];
    }
  }
}
