/**
 * The aggregates the dashboard computes over a view of the table: column
 * sums and means (Series.sum, Series.mean), and grouped tables of counts,
 * sums, means and shares (groupby, value_counts), with the conservation
 * laws that tie a grouped table back to the whole view.
 */
module Aggregates {
  import opened Wrappers
  import opened Sequences
  import opened Consultations

  /** Series.sum over the rows, in stored units; 0 over no rows. */
  function Sum(s: seq<Record>, c: Column): int
  {
    if s == [] then 0 else Value(s[0], c) + Sum(s[1..], c)
  }

  /** A count times a real amount. */
  function Times(n: nat, m: real): real
  {
    n as real * m
  }

  /** x divided by a positive count. */
  function Ratio(x: real, n: nat): real
    requires n > 0
  {
    x / n as real
  }

  lemma RatioCancel(x: real, n: nat)
    requires n > 0
    ensures Times(n, Ratio(x, n)) == x
  {
  }

  lemma RatioBounds(x: real, n: nat, lo: real, hi: real)
    requires n > 0 && Times(n, lo) <= x <= Times(n, hi)
    ensures lo <= Ratio(x, n) <= hi
  {
  }

  /** A count over a positive total is a fraction in [0, 1]; it is 0 only for none and 1 only for all. */
  lemma RatioOfCount(k: nat, n: nat)
    requires 0 < n && k <= n
    ensures 0.0 <= Ratio(k as real, n) <= 1.0
    ensures Ratio(k as real, n) == 0.0 <==> k == 0
    ensures Ratio(k as real, n) == 1.0 <==> k == n
  {
  }

  /** The mean of a column over at least one row, in the column's own unit. */
  function MeanOf(s: seq<Record>, c: Column): real
    requires |s| > 0
  {
    Ratio(InUnits(Sum(s, c), c), |s|)
  }

  /** Series.mean: undefined (NaN in pandas) over no rows. */
  function Mean(s: seq<Record>, c: Column): (m: Option<real>)
    ensures m.None? <==> |s| == 0
  {
    if |s| == 0 then None else Some(MeanOf(s, c))
  }

  lemma {:induction false} SumCons(r: Record, s: seq<Record>, c: Column)
    ensures Sum([r] + s, c) == Value(r, c) + Sum(s, c)
  {
    assert ([r] + s)[1..] == s;
  }

  /** If every value lies in [lo, hi], the sum lies between lo and hi times the row count. */
  lemma {:induction false} SumBounds(s: seq<Record>, c: Column, lo: int, hi: int)
    requires forall i :: 0 <= i < |s| ==> lo <= Value(s[i], c) <= hi
    ensures lo * |s| <= Sum(s, c) <= hi * |s|
  {
    if s != [] {
      SumBounds(s[1..], c, lo, hi);
      var n := |s[1..]|;
      assert lo * |s| == lo * n + lo && hi * |s| == hi * n + hi;
    }
  }

  /** If every value lies in [lo, hi] (stored units), the mean lies in [lo, hi] (column units). */
  lemma {:induction false} MeanBounds(s: seq<Record>, c: Column, lo: int, hi: int)
    requires |s| > 0
    requires forall r :: r in s ==> lo <= Value(r, c) <= hi
    ensures InUnits(lo, c) <= MeanOf(s, c) <= InUnits(hi, c)
  {
    SumBounds(s, c, lo, hi);
    UnitsBounds(Sum(s, c), |s|, lo, hi, c);
    RatioBounds(InUnits(Sum(s, c), c), |s|, InUnits(lo, c), InUnits(hi, c));
  }

  lemma UnitsBounds(x: int, n: nat, lo: int, hi: int, c: Column)
    requires lo * n <= x <= hi * n
    ensures Times(n, InUnits(lo, c)) <= InUnits(x, c) <= Times(n, InUnits(hi, c))
  {
    assert (lo * n) as real == lo as real * n as real && (hi * n) as real == hi as real * n as real;
  }

  /** The mask `column == 1`. */
  function IsOne(c: Column): Record -> bool
  {
    (r: Record) => Value(r, c) == 1
  }

  /** A 0/1 column sums to the number of rows holding 1. */
  lemma {:induction false} SumOfFlags(s: seq<Record>, c: Column)
    requires forall r :: r in s ==> Value(r, c) == 0 || Value(r, c) == 1
    ensures Sum(s, c) == |Filter(s, IsOne(c))|
  {
    if s != [] {
      assert forall r :: r in s[1..] ==> r in s;
      SumOfFlags(s[1..], c);
      assert s[0] in s;
    }
  }

  /** One bar or slice of a grouped chart: the group's key and its aggregate. */
  datatype Group<K, V> = Group(key: K, value: V)

  function KeysOf<K, V>(gs: seq<Group<K, V>>): (ks: seq<K>)
    ensures |ks| == |gs|
  {
    seq(|gs|, i requires 0 <= i < |gs| => gs[i].key)
  }

  /** The value stored under key k, if any (Series.get without a default). */
  function Lookup<K(==), V>(gs: seq<Group<K, V>>, k: K): (v: Option<V>)
    ensures v.Some? <==> k in KeysOf(gs)
  {
    if gs == [] then None
    else if gs[0].key == k then
      assert KeysOf(gs)[0] == k;
      Some(gs[0].value)
    else
      var v := Lookup(gs[1..], k);
      assert KeysOf(gs) == [gs[0].key] + KeysOf(gs[1..]);
      v
  }

  /** Row counts per key, in the order of `keys`: the sizes of the groups. */
  function CountGroups<K(==)>(s: seq<Record>, key: Record -> K, keys: seq<K>): (gs: seq<Group<K, nat>>)
    ensures KeysOf(gs) == keys
  {
    if keys == [] then []
    else [Group(keys[0], |Select(s, key, keys[0])|)] + CountGroups(s, key, keys[1..])
  }

  /** Column sums per key (groupby(...)[column].sum()). */
  function SumGroups<K(==)>(s: seq<Record>, key: Record -> K, keys: seq<K>, c: Column): (gs: seq<Group<K, int>>)
    ensures KeysOf(gs) == keys
  {
    if keys == [] then []
    else [Group(keys[0], Sum(Select(s, key, keys[0]), c))] + SumGroups(s, key, keys[1..], c)
  }

  /** Column means per key (groupby(...)[column].mean()); every key must occur, so no group is empty. */
  function MeanGroups<K(==)>(s: seq<Record>, key: Record -> K, keys: seq<K>, c: Column): (gs: seq<Group<K, real>>)
    requires forall i :: 0 <= i < |keys| ==> keys[i] in Project(s, key)
    ensures KeysOf(gs) == keys
  {
    if keys == [] then []
    else
      SelectNonEmpty(s, key, keys[0]);
      [Group(keys[0], MeanOf(Select(s, key, keys[0]), c))] + MeanGroups(s, key, keys[1..], c)
  }

  /** Shares of the rows per key (value_counts(normalize=True)). */
  function ShareGroups<K(==)>(s: seq<Record>, key: Record -> K, keys: seq<K>): (gs: seq<Group<K, real>>)
    requires |s| > 0
    ensures KeysOf(gs) == keys
  {
    if keys == [] then []
    else [Group(keys[0], Ratio(|Select(s, key, keys[0])| as real, |s|))] + ShareGroups(s, key, keys[1..])
  }

  function CountTotal<K>(gs: seq<Group<K, nat>>): nat
  {
    if gs == [] then 0 else gs[0].value + CountTotal(gs[1..])
  }

  function SumTotal<K>(gs: seq<Group<K, int>>): int
  {
    if gs == [] then 0 else gs[0].value + SumTotal(gs[1..])
  }

  /** The group of `keys` sizes, weighted by group means: sum of count times mean over the groups. */
  function Weighted<K>(counts: seq<Group<K, nat>>, means: seq<Group<K, real>>): real
    requires |counts| == |means|
  {
    if counts == [] then 0.0 else Times(counts[0].value, means[0].value) + Weighted(counts[1..], means[1..])
  }

  /** The share stored for k is k's row count over all rows, and there is none for a key not listed. */
  lemma {:induction false} LookupShare<K>(s: seq<Record>, key: Record -> K, keys: seq<K>, k: K)
    requires |s| > 0
    ensures Lookup(ShareGroups(s, key, keys), k)
         == if k in keys then Some(Ratio(|Select(s, key, k)| as real, |s|)) else None
  {
    if keys != [] && keys[0] != k {
      LookupShare(s, key, keys[1..], k);
      assert k in keys <==> k in keys[1..];
    }
  }

  /** Looking a key up in a grouped table gives that key's group aggregate, and nothing for a key not listed. */
  lemma {:induction false} LookupGroups<K>(s: seq<Record>, key: Record -> K, keys: seq<K>, c: Column, k: K)
    requires forall i :: 0 <= i < |keys| ==> keys[i] in Project(s, key)
    ensures Lookup(CountGroups(s, key, keys), k) == if k in keys then Some(|Select(s, key, k)|) else None
    ensures Lookup(SumGroups(s, key, keys, c), k) == if k in keys then Some(Sum(Select(s, key, k), c)) else None
    ensures k in keys ==> |Select(s, key, k)| > 0 && Lookup(MeanGroups(s, key, keys, c), k) == Some(MeanOf(Select(s, key, k), c))
    ensures k !in keys ==> Lookup(MeanGroups(s, key, keys, c), k) == None
  {
    if keys != [] {
      SelectNonEmpty(s, key, keys[0]);
      if keys[0] != k {
        LookupGroups(s, key, keys[1..], c, k);
        assert k in keys <==> k in keys[1..];
      }
    }
  }

  /** When every row's value lies in [lo, hi], so does every group's mean. */
  lemma {:induction false} GroupMeansWithin<K>(s: seq<Record>, key: Record -> K, keys: seq<K>, c: Column, lo: int, hi: int)
    requires forall i :: 0 <= i < |keys| ==> keys[i] in Project(s, key)
    requires forall r :: r in s ==> lo <= Value(r, c) <= hi
    ensures forall i :: 0 <= i < |keys| ==>
      InUnits(lo, c) <= MeanGroups(s, key, keys, c)[i].value <= InUnits(hi, c)
  {
    if keys != [] {
      var g := Select(s, key, keys[0]);
      SelectNonEmpty(s, key, keys[0]);
      FilterSpec(s, HasKey(key, keys[0]));
      MeanBounds(g, c, lo, hi);
      GroupMeansWithin(s, key, keys[1..], c, lo, hi);
      var gs := MeanGroups(s, key, keys, c);
      assert gs[0].value == MeanOf(g, c);
      assert forall i :: 1 <= i < |keys| ==> gs[i] == MeanGroups(s, key, keys[1..], c)[i - 1];
    }
  }

  /** Adding one row adds one to the count total, if its key is listed. */
  lemma {:induction false} CountGroupsCons<K>(r: Record, s: seq<Record>, key: Record -> K, keys: seq<K>)
    requires NoDup(keys)
    ensures CountTotal(CountGroups([r] + s, key, keys))
         == CountTotal(CountGroups(s, key, keys)) + (if key(r) in keys then 1 else 0)
  {
    if keys != [] {
      NoDupTail(keys);
      SelectCons(r, s, key, keys[0]);
      CountGroupsCons(r, s, key, keys[1..]);
      assert key(r) in keys <==> key(r) == keys[0] || key(r) in keys[1..];
    }
  }

  /** Adding one row adds its value to the sum total, if its key is listed. */
  lemma {:induction false} SumGroupsCons<K>(r: Record, s: seq<Record>, key: Record -> K, keys: seq<K>, c: Column)
    requires NoDup(keys)
    ensures SumTotal(SumGroups([r] + s, key, keys, c))
         == SumTotal(SumGroups(s, key, keys, c)) + (if key(r) in keys then Value(r, c) else 0)
  {
    if keys != [] {
      NoDupTail(keys);
      SelectCons(r, s, key, keys[0]);
      if key(r) == keys[0] {
        SumCons(r, Select(s, key, keys[0]), c);
      } else {
        assert Select([r] + s, key, keys[0]) == Select(s, key, keys[0]);
      }
      SumGroupsCons(r, s, key, keys[1..], c);
      assert key(r) in keys <==> key(r) == keys[0] || key(r) in keys[1..];
    }
  }

  lemma {:induction false} GroupsOfNothing<K>(key: Record -> K, keys: seq<K>, c: Column)
    ensures CountTotal(CountGroups([], key, keys)) == 0
    ensures SumTotal(SumGroups([], key, keys, c)) == 0
  {
    if keys != [] {
      GroupsOfNothing(key, keys[1..], c);
    }
  }

  /**
   * Conservation: when the keys are distinct and cover every row, the group
   * sizes add up to the row count and the group sums to the column sum.
   */
  lemma {:induction false} GroupsPartition<K>(s: seq<Record>, key: Record -> K, keys: seq<K>, c: Column)
    requires NoDup(keys)
    requires forall r :: r in s ==> key(r) in keys
    ensures CountTotal(CountGroups(s, key, keys)) == |s|
    ensures SumTotal(SumGroups(s, key, keys, c)) == Sum(s, c)
  {
    if s == [] {
      GroupsOfNothing(key, keys, c);
    } else {
      var r, rest := s[0], s[1..];
      assert s == [r] + rest;
      assert key(r) in keys;
      forall x | x in rest ensures key(x) in keys {
        assert x in s;
      }
      GroupsPartition(rest, key, keys, c);
      CountGroupsCons(r, rest, key, keys);
      SumGroupsCons(r, rest, key, keys, c);
      SumCons(r, rest, c);
    }
  }

  /** Group size times group mean gives back the group sum, in column units. */
  lemma {:induction false} WeightedIsSum<K>(s: seq<Record>, key: Record -> K, keys: seq<K>, c: Column)
    requires forall i :: 0 <= i < |keys| ==> keys[i] in Project(s, key)
    ensures Weighted(CountGroups(s, key, keys), MeanGroups(s, key, keys, c))
         == InUnits(SumTotal(SumGroups(s, key, keys, c)), c)
  {
    if keys != [] {
      WeightedIsSum(s, key, keys[1..], c);
      var g := Select(s, key, keys[0]);
      var a, b := Sum(g, c), SumTotal(SumGroups(s, key, keys[1..], c));
      var rest := Weighted(CountGroups(s, key, keys[1..]), MeanGroups(s, key, keys[1..], c));
      calc {
        Weighted(CountGroups(s, key, keys), MeanGroups(s, key, keys, c));
      == { WeightedHead(s, key, keys, c); }
        Times(|g|, MeanOf(g, c)) + rest;
      == { MeanTimesCount(g, c); }
        InUnits(a, c) + rest;
      == // the induction hypothesis
        InUnits(a, c) + InUnits(b, c);
      ==
        InUnits(a + b, c);
      == { assert SumTotal(SumGroups(s, key, keys, c)) == a + b; }
        InUnits(SumTotal(SumGroups(s, key, keys, c)), c);
      }
    }
  }

  lemma WeightedHead<K>(s: seq<Record>, key: Record -> K, keys: seq<K>, c: Column)
    requires keys != []
    requires forall i :: 0 <= i < |keys| ==> keys[i] in Project(s, key)
    ensures |Select(s, key, keys[0])| > 0
    ensures Weighted(CountGroups(s, key, keys), MeanGroups(s, key, keys, c))
         == Times(|Select(s, key, keys[0])|, MeanOf(Select(s, key, keys[0]), c))
          + Weighted(CountGroups(s, key, keys[1..]), MeanGroups(s, key, keys[1..], c))
  {
    SelectNonEmpty(s, key, keys[0]);
  }

  lemma MeanTimesCount(g: seq<Record>, c: Column)
    requires |g| > 0
    ensures Times(|g|, MeanOf(g, c)) == InUnits(Sum(g, c), c)
  {
    RatioCancel(InUnits(Sum(g, c), c), |g|);
  }

  /**
   * The per-key means recombine to the overall mean: weighting each group's
   * mean by its size and dividing by the row count gives the mean of all rows.
   */
  lemma {:induction false} MeanRecombine<K>(s: seq<Record>, key: Record -> K, keys: seq<K>, c: Column)
    requires |s| > 0 && NoDup(keys)
    requires forall r :: r in s ==> key(r) in keys
    requires forall i :: 0 <= i < |keys| ==> keys[i] in Project(s, key)
    ensures Ratio(Weighted(CountGroups(s, key, keys), MeanGroups(s, key, keys, c)), |s|) == MeanOf(s, c)
  {
    WeightedIsSum(s, key, keys, c);
    GroupsPartition(s, key, keys, c);
  }
}
