/** Sums over finite maps and sequences, with the update laws that accounting proofs need. */
module Sums {

  /** Sum of all values of a map. */
  ghost function SumMap<K>(m: map<K, nat>): nat {
    if m == map[] then 0
    else
      var k :| k in m;
      m[k] + SumMap(m - {k})
  }

  lemma {:induction false} SumMapRemove<K>(m: map<K, nat>, k: K)
    requires k in m
    ensures SumMap(m) == m[k] + SumMap(m - {k})
    decreases |m|
  {
    var j :| j in m && SumMap(m) == m[j] + SumMap(m - {j});
    if j != k {
      SumMapRemove(m - {j}, k);
      SumMapRemove(m - {k}, j);
      assert m - {j} - {k} == m - {k} - {j};
    }
  }

  lemma {:induction false} SumMapSet<K>(m: map<K, nat>, k: K, v: nat)
    ensures SumMap(m[k := v]) == SumMap(m) - (if k in m then m[k] else 0) + v
  {
    SumMapRemove(m[k := v], k);
    assert m[k := v] - {k} == m - {k};
    if k in m { SumMapRemove(m, k); } else { assert m - {k} == m; }
  }

  lemma {:induction false} SumMapZero<K>(m: map<K, nat>)
    ensures SumMap(m) == 0 <==> forall k :: k in m ==> m[k] == 0
    decreases |m|
  {
    if k :| k in m {
      SumMapRemove(m, k);
      SumMapZero(m - {k});
      assert forall j :: j in m <==> j == k || j in m - {k};
    }
  }

  lemma {:induction false} SumMapWithout<K>(m: map<K, nat>, zeros: set<K>)
    requires forall k :: k in zeros ==> k in m && m[k] == 0
    ensures SumMap(m - zeros) == SumMap(m)
    decreases |zeros|
  {
    if k :| k in zeros {
      SumMapRemove(m, k);
      SumMapWithout(m - {k}, zeros - {k});
      assert m - {k} - (zeros - {k}) == m - zeros;
    } else {
      assert m - zeros == m;
    }
  }

  lemma {:induction false} SumMapAtLeast<K>(m: map<K, nat>, k: K)
    requires k in m
    ensures m[k] <= SumMap(m)
  {
    SumMapRemove(m, k);
  }

  function Sum(s: seq<nat>): nat {
    if s == [] then 0 else s[0] + Sum(s[1..])
  }

  lemma {:induction false} SumConcat(a: seq<nat>, b: seq<nat>)
    ensures Sum(a + b) == Sum(a) + Sum(b)
  {
    if a == [] {
      assert a + b == b;
    } else {
      assert (a + b)[1..] == a[1..] + b;
      SumConcat(a[1..], b);
    }
  }

  lemma {:induction false} SumSet(s: seq<nat>, i: nat, v: nat)
    requires i < |s|
    ensures Sum(s[i := v]) == Sum(s) - s[i] + v
  {
    assert s == s[..i] + [s[i]] + s[i + 1..];
    assert s[i := v] == s[..i] + [v] + s[i + 1..];
    SumConcat(s[..i] + [s[i]], s[i + 1..]);
    SumConcat(s[..i] + [v], s[i + 1..]);
    SumConcat(s[..i], [s[i]]);
    SumConcat(s[..i], [v]);
  }

  lemma {:induction false} SumZero(s: seq<nat>)
    ensures Sum(s) == 0 <==> forall i :: 0 <= i < |s| ==> s[i] == 0
  {
    if s != [] {
      SumZero(s[1..]);
      assert forall i :: 0 < i < |s| ==> s[i] == s[1..][i - 1];
      assert forall i :: 0 <= i < |s| - 1 ==> s[1..][i] == s[i + 1];
    }
  }

  lemma {:induction false} SumAtLeast(s: seq<nat>, i: nat)
    requires i < |s|
    ensures s[i] <= Sum(s)
  {
    SumSet(s, i, 0);
  }
}
