/** Finite sums over maps and sequences, independent of the order of summation. */
module Sums {

  ghost function Sum<K>(m: map<K, int>): int
    decreases |m|
  {
    if m == map[] then 0
    else
      var k :| k in m;
      m[k] + Sum(m - {k})
  }

  /** Any key may be taken out first. */
  lemma {:induction false} SumPick<K>(m: map<K, int>, k: K)
    requires k in m
    ensures Sum(m) == m[k] + Sum(m - {k})
    decreases |m|
  {
    var j :| j in m && Sum(m) == m[j] + Sum(m - {j});
    if j != k {
      SumPick(m - {j}, k);
      SumPick(m - {k}, j);
      assert m - {j} - {k} == m - {k} - {j};
    }
  }

  lemma SumUpdate<K>(m: map<K, int>, k: K, v: int)
    ensures Sum(m[k := v]) == Sum(m) + v - (if k in m then m[k] else 0)
  {
    SumPick(m[k := v], k);
    assert m[k := v] - {k} == m - {k};
    if k in m {
      SumPick(m, k);
    } else {
      assert m - {k} == m;
    }
  }

  lemma {:induction false} SumAdd<K>(a: map<K, int>, b: map<K, int>, c: map<K, int>)
    requires a.Keys == b.Keys == c.Keys
    requires forall k :: k in a ==> c[k] == a[k] + b[k]
    ensures Sum(c) == Sum(a) + Sum(b)
    decreases |a|
  {
    if a == map[] {
      assert b == map[] && c == map[];
    } else {
      var k :| k in a;
      SumPick(a, k);
      SumPick(b, k);
      SumPick(c, k);
      SumAdd(a - {k}, b - {k}, c - {k});
    }
  }

  lemma {:induction false} SumZero<K>(m: map<K, int>)
    requires forall k :: k in m ==> m[k] == 0
    ensures Sum(m) == 0
    decreases |m|
  {
    if m != map[] {
      var k :| k in m && Sum(m) == m[k] + Sum(m - {k});
      SumZero(m - {k});
    }
  }

  lemma {:induction false} SumNonNegative<K>(m: map<K, int>)
    requires forall k :: k in m ==> m[k] >= 0
    ensures Sum(m) >= 0
    decreases |m|
  {
    if m != map[] {
      var k :| k in m && Sum(m) == m[k] + Sum(m - {k});
      SumNonNegative(m - {k});
    }
  }

  /** No single entry of a non-negative family exceeds its sum. */
  lemma SumDominates<K>(m: map<K, int>, k: K)
    requires forall j :: j in m ==> m[j] >= 0
    requires k in m
    ensures 0 <= m[k] <= Sum(m)
  {
    SumPick(m, k);
    SumNonNegative(m - {k});
  }

  /** Keys left out of a smaller family contribute nothing when their values are zero. */
  lemma {:induction false} SumWithoutZeros<K>(family: map<K, int>, part: map<K, int>)
    requires part.Keys <= family.Keys
    requires forall a :: a in part ==> part[a] == family[a]
    requires forall a :: a in family && a !in part ==> family[a] == 0
    ensures Sum(part) == Sum(family)
    decreases |family|
  {
    if family == map[] {
      assert part == map[];
    } else {
      var a :| a in family;
      SumPick(family, a);
      if a in part {
        SumPick(part, a);
        SumWithoutZeros(family - {a}, part - {a});
      } else {
        SumWithoutZeros(family - {a}, part);
      }
    }
  }

  function SeqSum(s: seq<int>): int {
    if s == [] then 0 else SeqSum(s[..|s| - 1]) + s[|s| - 1]
  }

  /** Renaming keys one to one keeps the sum. */
  lemma {:induction false} SumRekey<K, L>(m: map<K, int>, n: map<L, int>, f: K -> L)
    requires forall k :: k in m ==> f(k) in n && n[f(k)] == m[k]
    requires forall j, k :: j in m && k in m && f(j) == f(k) ==> j == k
    requires forall l :: l in n ==> exists k :: k in m && f(k) == l
    ensures Sum(m) == Sum(n)
    decreases |m|
  {
    if m == map[] {
      assert n == map[];
    } else {
      var k :| k in m;
      SumPick(m, k);
      SumPick(n, f(k));
      var m', n' := m - {k}, n - {f(k)};
      forall l | l in n' ensures exists j :: j in m' && f(j) == l {
        var j :| j in m && f(j) == l;
        assert j in m';
      }
      SumRekey(m', n', f);
    }
  }

  /** `keys` lists, once each, at least every key whose value is not zero. */
  ghost predicate Lists<K>(keys: seq<K>, m: map<K, int>) {
    && (forall i :: 0 <= i < |keys| ==> keys[i] in m)
    && (forall i, j :: 0 <= i < j < |keys| ==> keys[i] != keys[j])
    && (forall k :: k in m && m[k] != 0 ==> k in keys)
  }

  /** Summing along any such listing gives the sum of the map. */
  lemma {:induction false} SumAlongListing<K>(keys: seq<K>, m: map<K, int>, values: seq<int>)
    requires Lists(keys, m)
    requires |values| == |keys| && forall i :: 0 <= i < |keys| ==> values[i] == m[keys[i]]
    ensures SeqSum(values) == Sum(m)
    decreases |keys|
  {
    if keys == [] {
      SumZero(m);
    } else {
      var n := |keys| - 1;
      SumPick(m, keys[n]);
      SumAlongListing(keys[..n], m - {keys[n]}, values[..n]);
    }
  }
}
