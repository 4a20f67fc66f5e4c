/** Sums of the values held in a map, independent of any key order. */
module Sums {

  /** The sum of `m`'s values at the keys in `ks`. */
  ghost function SumOver(m: map<int, real>, ks: set<int>): real
    requires ks <= m.Keys
    decreases ks
  {
    if ks == {} then 0.0 else HasElement(ks); var k :| k in ks; m[k] + SumOver(m, ks - {k})
  }

  /** A non-empty set has a member to pick. */
  lemma HasElement(ks: set<int>)
    requires ks != {}
    ensures exists k :: k in ks
  {
    if forall k :: k !in ks {
      assert false;
    }
  }

  /** The sum of all values of `m`. */
  ghost function MapSum(m: map<int, real>): real
  {
    SumOver(m, m.Keys)
  }

  /** The value at `k`, or 0 when `k` is not a key (`getOrDefault(k, 0.0)`). */
  function ValueOr0(m: map<int, real>, k: int): (r: real)
    ensures k in m ==> r == m[k]
    ensures k !in m ==> r == 0.0
  {
    if k in m then m[k] else 0.0
  }

  /** Any key may be taken out first: the sum does not depend on the order. */
  lemma {:induction false} SumOverRemove(m: map<int, real>, ks: set<int>, k: int)
    requires ks <= m.Keys && k in ks
    ensures SumOver(m, ks) == m[k] + SumOver(m, ks - {k})
    decreases ks
  {
    var j :| j in ks && SumOver(m, ks) == m[j] + SumOver(m, ks - {j});
    if j != k {
      SumOverRemove(m, ks - {j}, k);
      SumOverRemove(m, ks - {k}, j);
      assert ks - {j} - {k} == ks - {k} - {j};
    }
  }

  /** Two maps that agree on `ks` have the same sum over `ks`. */
  lemma {:induction false} SumOverAgree(m: map<int, real>, m': map<int, real>, ks: set<int>)
    requires ks <= m.Keys && ks <= m'.Keys
    requires forall k :: k in ks ==> m[k] == m'[k]
    ensures SumOver(m, ks) == SumOver(m', ks)
    decreases ks
  {
    if ks != {} {
      HasElement(ks);
      var j :| j in ks;
      SumOverRemove(m, ks, j);
      SumOverRemove(m', ks, j);
      SumOverAgree(m, m', ks - {j});
    }
  }

  /** Storing `v` at `k` changes the sum by `v` minus what was there. */
  lemma MapSumUpdate(m: map<int, real>, k: int, v: real)
    ensures MapSum(m[k := v]) == MapSum(m) - ValueOr0(m, k) + v
  {
    var m' := m[k := v];
    SumOverRemove(m', m'.Keys, k);
    if k in m {
      assert m'.Keys == m.Keys;
      SumOverRemove(m, m.Keys, k);
      SumOverAgree(m, m', m.Keys - {k});
    } else {
      assert m'.Keys - {k} == m.Keys;
      SumOverAgree(m, m', m.Keys);
    }
  }

  lemma MapSumEmpty(m: map<int, real>)
    requires m == map[]
    ensures MapSum(m) == 0.0
  {
    assert m.Keys == {};
  }
}
