/** Sums of natural numbers: over a sequence, and over the values of a map. */
module Totals {

  function Sum(s: seq<nat>): nat {
    if s == [] then 0 else s[0] + Sum(s[1..])
  }

  lemma {:induction false} SumUpdate(s: seq<nat>, i: nat, x: nat)
    requires i < |s|
    ensures Sum(s[i := x]) + s[i] == Sum(s) + x
  {
    if i == 0 {
      assert s[0 := x][1..] == s[1..];
    } else {
      assert s[i := x][1..] == s[1..][i - 1 := x];
      SumUpdate(s[1..], i - 1, x);
    }
  }

  lemma {:induction false} SumAppend(s: seq<nat>, x: nat)
    ensures Sum(s + [x]) == Sum(s) + x
  {
    if s == [] {
      assert s + [x] == [x];
    } else {
      assert (s + [x])[1..] == s[1..] + [x];
      SumAppend(s[1..], x);
    }
  }

  lemma {:induction false} SumAtLeast(s: seq<nat>, i: nat)
    requires i < |s|
    ensures s[i] <= Sum(s)
  {
    if i > 0 {
      SumAtLeast(s[1..], i - 1);
    }
  }

  lemma {:induction false} SumZero(s: seq<nat>)
    requires forall i :: 0 <= i < |s| ==> s[i] == 0
    ensures Sum(s) == 0
  {
    if s != [] {
      SumZero(s[1..]);
    }
  }

  ghost function Total<K>(m: map<K, nat>): nat
    decreases |m|
  {
    if m == map[] then 0
    else
      var k :| k in m;
      assert |(m - {k}).Keys| == |m.Keys - {k}|;
      m[k] + Total(m - {k})
  }

  lemma MinusShrinks<K>(m: map<K, nat>, k: K)
    requires k in m
    ensures |m - {k}| < |m|
  {
    assert (m - {k}).Keys == m.Keys - {k};
  }

  /** The total does not depend on the order in which keys are taken. */
  lemma {:induction false} TotalRemove<K>(m: map<K, nat>, k: K)
    requires k in m
    ensures Total(m) == m[k] + Total(m - {k})
    decreases |m|
  {
    var x :| x in m && Total(m) == m[x] + Total(m - {x});
    if x != k {
      MinusShrinks(m, x);
      MinusShrinks(m, k);
      TotalRemove(m - {x}, k);
      TotalRemove(m - {k}, x);
      assert m - {x} - {k} == m - {k} - {x};
    }
  }

  lemma TotalPut<K>(m: map<K, nat>, k: K, n: nat)
    ensures Total(m[k := n]) + (if k in m then m[k] else 0) == Total(m) + n
  {
    TotalRemove(m[k := n], k);
    assert m[k := n] - {k} == m - {k};
    if k in m {
      TotalRemove(m, k);
    } else {
      assert m - {k} == m;
    }
  }

  /** A map split in two by its keys. */
  lemma {:induction false} TotalSplit<K>(m: map<K, nat>, keys: set<K>)
    ensures Total(m) == Total(map k | k in m && k in keys :: m[k]) + Total(map k | k in m && k !in keys :: m[k])
    decreases |m|
  {
    var inside, outside := map k | k in m && k in keys :: m[k], map k | k in m && k !in keys :: m[k];
    if m == map[] {
      assert inside == map[] && outside == map[];
    } else {
      var x :| x in m;
      MinusShrinks(m, x);
      TotalRemove(m, x);
      TotalSplit(m - {x}, keys);
      assert (map k | k in m - {x} && k in keys :: (m - {x})[k]) == inside - {x};
      assert (map k | k in m - {x} && k !in keys :: (m - {x})[k]) == outside - {x};
      if x in keys {
        TotalRemove(inside, x);
        assert outside - {x} == outside;
      } else {
        TotalRemove(outside, x);
        assert inside - {x} == inside;
      }
    }
  }

  /** Part of a map has no larger a total. */
  lemma {:induction false} TotalOfPart<K>(part: map<K, nat>, m: map<K, nat>)
    requires forall k :: k in part ==> k in m && part[k] == m[k]
    ensures Total(part) <= Total(m)
    decreases |m|
  {
    if k :| k in m && k !in part {
      MinusShrinks(m, k);
      TotalRemove(m, k);
      TotalOfPart(part, m - {k});
    } else {
      assert part == m;
    }
  }
}
