/** SUM over a table: the order the rows come in never matters, so the sum of a finite map picks them in any order. */
module Sums {

  /** Three steps deep, so that a sum is taken apart only by the proofs below that pick a row of it. */
  ghost function Sum<K>(m: map<K, int>): int
    decreases |m|, 2
  {
    Summed(m)
  }

  ghost function Summed<K>(m: map<K, int>): int
    decreases |m|, 1
  {
    RowByRow(m)
  }

  ghost function RowByRow<K>(m: map<K, int>): int
    decreases |m|, 0
  {
    if m == map[] then 0 else
      var k :| k in m;
      assert |m - {k}| == |m| - 1 by { assert (m - {k}).Keys == m.Keys - {k}; assert |m.Keys| == |m|; }
      m[k] + Sum(m - {k})
  }

  lemma {:induction false} SumOfRows<K>(m: map<K, int>)
    ensures Sum(m) == RowByRow(m)
  {
    assert Sum(m) == Summed(m);
  }

  lemma {:induction false} SumPick<K>(m: map<K, int>, k: K)
    requires k in m
    ensures Sum(m) == m[k] + Sum(m - {k})
    decreases |m|
  {
    SumOfRows(m);
    var p :| p in m && RowByRow(m) == m[p] + Sum(m - {p});
    if p != k {
      assert (m - {p}).Keys == m.Keys - {p};
      SumPick(m - {p}, k);
      assert m - {p} - {k} == m - {k} - {p};
      assert (m - {k}).Keys == m.Keys - {k};
      SumPick(m - {k}, p);
    }
  }

  lemma SumPut<K>(m: map<K, int>, k: K, v: int)
    ensures Sum(m[k := v]) == Sum(m) + v - (if k in m then m[k] else 0)
  {
    SumPick(m[k := v], k);
    if k in m {
      SumPick(m, k);
      assert m[k := v] - {k} == m - {k};
    } else {
      assert m[k := v] - {k} == m;
    }
  }

  lemma {:induction false} SumDrop<K>(m: map<K, int>, k: K)
    ensures Sum(m - {k}) == Sum(m) - (if k in m then m[k] else 0)
  {
    if k in m {
      SumPick(m, k);
    } else {
      assert m - {k} == m;
    }
  }

  lemma {:induction false} SumZero<K>(m: map<K, int>)
    requires forall k | k in m :: m[k] == 0
    ensures Sum(m) == 0
    decreases |m|
  {
    if m != map[] {
      var k :| k in m;
      SumPick(m, k);
      assert (m - {k}).Keys == m.Keys - {k};
      SumZero(m - {k});
    } else {
      SumOfRows(m);
    }
  }

  /** Rows that count as nothing may be left out. */
  lemma {:induction false} SumIgnoresZeros<K>(whole: map<K, int>, part: map<K, int>)
    requires part.Keys <= whole.Keys
    requires forall k | k in whole :: whole[k] == if k in part then part[k] else 0
    ensures Sum(part) == Sum(whole)
    decreases |whole|
  {
    if whole == map[] {
      assert part == map[];
    } else {
      var k :| k in whole;
      SumPick(whole, k);
      SumDrop(part, k);
      assert (whole - {k}).Keys == whole.Keys - {k};
      SumIgnoresZeros(whole - {k}, part - {k});
    }
  }

  /** Two columns of one table add up cell by cell. */
  lemma {:induction false} SumColumns<K>(a: map<K, int>, b: map<K, int>, both: map<K, int>)
    requires a.Keys == b.Keys == both.Keys
    requires forall k | k in both :: both[k] == a[k] + b[k]
    ensures Sum(both) == Sum(a) + Sum(b)
    decreases |both|
  {
    if both != map[] {
      var k :| k in both;
      SumPick(both, k);
      SumPick(a, k);
      SumPick(b, k);
      assert (both - {k}).Keys == both.Keys - {k};
      SumColumns(a - {k}, b - {k}, both - {k});
    } else {
      SumZero(a);
      SumZero(b);
      SumZero(both);
    }
  }

  /** The rows of one group keep their amounts; every other row counts as zero. */
  ghost function OfGroup<K, G>(amounts: map<K, int>, key: map<K, G>, g: G): map<K, int>
    requires key.Keys == amounts.Keys
  {
    map k | k in amounts :: if key[k] == g then amounts[k] else 0
  }

  ghost function OfGroups<K, G>(amounts: map<K, int>, key: map<K, G>, groups: set<G>): map<K, int>
    requires key.Keys == amounts.Keys
  {
    map k | k in amounts :: if key[k] in groups then amounts[k] else 0
  }

  ghost function GroupSums<K, G>(amounts: map<K, int>, key: map<K, G>, groups: set<G>): map<G, int>
    requires key.Keys == amounts.Keys
  {
    map g | g in groups :: Sum(OfGroup(amounts, key, g))
  }

  /** GROUP BY: the sums of the groups add up to the sum of the rows that fall into one of them. */
  lemma {:induction false} SumByGroup<K, G>(amounts: map<K, int>, key: map<K, G>, groups: set<G>)
    requires key.Keys == amounts.Keys
    ensures Sum(GroupSums(amounts, key, groups)) == Sum(OfGroups(amounts, key, groups))
    decreases |groups|
  {
    var sums := GroupSums(amounts, key, groups);
    if groups == {} {
      SumZero(sums);
      SumZero(OfGroups(amounts, key, groups));
    } else {
      var g :| g in groups;
      var rest := groups - {g};
      SumPick(sums, g);
      assert sums - {g} == GroupSums(amounts, key, rest);
      SumByGroup(amounts, key, rest);
      SumColumns(OfGroup(amounts, key, g), OfGroups(amounts, key, rest), OfGroups(amounts, key, groups));
    }
  }

  /** When every row falls into one of the groups, grouping loses nothing. */
  lemma {:induction false} SumOfGroupsIsWhole<K, G>(amounts: map<K, int>, key: map<K, G>, groups: set<G>)
    requires key.Keys == amounts.Keys
    requires forall k | k in key :: key[k] in groups
    ensures Sum(GroupSums(amounts, key, groups)) == Sum(amounts)
  {
    SumByGroup(amounts, key, groups);
    assert OfGroups(amounts, key, groups) == amounts;
  }
}
