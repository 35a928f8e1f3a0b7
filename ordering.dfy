/**
 * Python's ordering of str values (lexicographic by code point) and an
 * insertion sort by it. pandas' groupby sorts its group keys by this order
 * before aggregating, so the per-doctor tables come out sorted by doctor.
 */
module Ordering {
  import opened Sequences

  /** a <= b in Python's string order: compare code points left to right; a proper prefix comes first. */
  predicate Leq(a: string, b: string)
  {
    |a| == 0 || (|b| > 0 && (a[0] < b[0] || (a[0] == b[0] && Leq(a[1..], b[1..]))))
  }

  lemma {:induction false} LeqTotal(a: string, b: string)
    ensures Leq(a, b) || Leq(b, a)
  {
    if |a| > 0 && |b| > 0 && a[0] == b[0] {
      LeqTotal(a[1..], b[1..]);
    }
  }

  lemma {:induction false} LeqTransitive(a: string, b: string, c: string)
    requires Leq(a, b) && Leq(b, c)
    ensures Leq(a, c)
  {
    if |a| > 0 && |b| > 0 && |c| > 0 && a[0] == b[0] && b[0] == c[0] {
      LeqTransitive(a[1..], b[1..], c[1..]);
    }
  }

  lemma {:induction false} LeqAntisymmetric(a: string, b: string)
    requires Leq(a, b) && Leq(b, a)
    ensures a == b
  {
    if |a| > 0 && |b| > 0 {
      assert a[0] == b[0];
      LeqAntisymmetric(a[1..], b[1..]);
      assert a == [a[0]] + a[1..] && b == [b[0]] + b[1..];
    }
  }

  predicate Sorted(s: seq<string>)
  {
    forall i, j :: 0 <= i < j < |s| ==> Leq(s[i], s[j])
  }

  lemma SortedCons(h: string, t: seq<string>)
    requires Sorted(t)
    requires forall i :: 0 <= i < |t| ==> Leq(h, t[i])
    ensures Sorted([h] + t)
  {
    var r := [h] + t;
    forall i, j | 0 <= i < j < |r| ensures Leq(r[i], r[j]) {
      if i > 0 { assert r[i] == t[i - 1] && r[j] == t[j - 1]; }
    }
  }

  lemma NoDupCons<T>(h: T, t: seq<T>)
    requires NoDup(t) && h !in t
    ensures NoDup([h] + t)
  {
    var r := [h] + t;
    forall i, j | 0 <= i < j < |r| ensures r[i] != r[j] {
      assert r[j] == t[j - 1];
      if i > 0 { assert r[i] == t[i - 1]; }
    }
  }

  /** Insert x into a sorted sequence, before the first element not below it. */
  function Insert(x: string, s: seq<string>): (r: seq<string>)
    requires Sorted(s)
    ensures multiset(r) == multiset(s) + multiset{x}
    ensures Sorted(r)
    ensures NoDup(s) && x !in s ==> NoDup(r)
  {
    if s == [] then [x]
    else if Leq(x, s[0]) then
      InsertFront(x, s);
      [x] + s
    else
      var t := Insert(x, s[1..]);
      InsertBehind(x, s, t);
      [s[0]] + t
  }

  lemma InsertFront(x: string, s: seq<string>)
    requires Sorted(s) && s != [] && Leq(x, s[0])
    ensures Sorted([x] + s)
    ensures NoDup(s) && x !in s ==> NoDup([x] + s)
  {
    forall j | 0 <= j < |s| ensures Leq(x, s[j]) {
      if j > 0 { LeqTransitive(x, s[0], s[j]); }
    }
    SortedCons(x, s);
    if NoDup(s) && x !in s { NoDupCons(x, s); }
  }

  lemma InsertBehind(x: string, s: seq<string>, t: seq<string>)
    requires Sorted(s) && s != [] && !Leq(x, s[0])
    requires multiset(t) == multiset(s[1..]) + multiset{x}
    requires Sorted(t)
    requires NoDup(s[1..]) && x !in s[1..] ==> NoDup(t)
    ensures multiset([s[0]] + t) == multiset(s) + multiset{x}
    ensures Sorted([s[0]] + t)
    ensures NoDup(s) && x !in s ==> NoDup([s[0]] + t)
  {
    assert s == [s[0]] + s[1..];
    LeqTotal(x, s[0]);
    forall i | 0 <= i < |t| ensures Leq(s[0], t[i]) {
      assert t[i] in multiset(t);
      if t[i] != x {
        assert t[i] in s[1..];
        var k :| 0 <= k < |s[1..]| && s[1..][k] == t[i];
        assert s[k + 1] == t[i];
      }
    }
    SortedCons(s[0], t);
    if NoDup(s) && x !in s {
      assert NoDup(s[1..]) by {
        forall i, j | 0 <= i < j < |s[1..]| ensures s[1..][i] != s[1..][j] {
          assert s[1..][i] == s[i + 1] && s[1..][j] == s[j + 1];
        }
      }
      assert s[0] !in multiset(t);
      NoDupCons(s[0], t);
    }
  }

  /** Insertion sort by Python's string order: a sorted permutation of s. */
  function Sort(s: seq<string>): (r: seq<string>)
    ensures multiset(r) == multiset(s)
    ensures Sorted(r)
    ensures NoDup(s) ==> NoDup(r)
  {
    if s == [] then []
    else
      var t := Sort(s[1..]);
      SortStep(s, t);
      Insert(s[0], t)
  }

  /** Sorting keeps exactly the values of s. */
  lemma SortMembers(s: seq<string>)
    ensures forall x :: x in Sort(s) <==> x in s
  {
    forall x ensures x in Sort(s) <==> x in s {
      assert x in Sort(s) <==> x in multiset(Sort(s));
      assert x in s <==> x in multiset(s);
    }
  }

  lemma SortStep(s: seq<string>, t: seq<string>)
    requires s != [] && Sorted(t) && multiset(t) == multiset(s[1..])
    requires NoDup(s[1..]) ==> NoDup(t)
    ensures multiset(Insert(s[0], t)) == multiset(s)
    ensures NoDup(s) ==> NoDup(Insert(s[0], t))
  {
    assert s == [s[0]] + s[1..];
    if NoDup(s) {
      NoDupTail(s);
      assert s[0] !in multiset(t);
    }
  }
}
