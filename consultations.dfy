/**
 * The consultation table: one record per row of doctor_performance.csv, as
 * the dashboard holds it in memory after loading.
 */
module Consultations {
  import opened Sequences

  /** The Outcome column takes one of three labels. */
  datatype Outcome = Successful | Ongoing | Unsuccessful

  /**
   * One consultation. `date` is the parsed Consultation Date as a day
   * number; `responseTime` (minutes) and `revenue` (currency units) are in
   * hundredths, as the data holds them rounded to two places; `retention`
   * is the 0/1 Retention column; `feedback` is the 1-5 Feedback score.
   */
  datatype Record = Record(
    id: string,
    doctor: string,
    date: int,
    feedback: int,
    outcome: Outcome,
    responseTime: int,
    revenue: int,
    retention: int)

  /** The numeric columns the dashboard averages or sums. */
  datatype Column = Feedback | ResponseTime | Retention | Revenue

  function Value(r: Record, c: Column): int
  {
    match c
    case Feedback => r.feedback
    case ResponseTime => r.responseTime
    case Retention => r.retention
    case Revenue => r.revenue
  }

  /** A stored amount of the column in the column's own unit: hundredths become minutes or currency units. */
  function InUnits(x: int, c: Column): real
  {
    if c == ResponseTime || c == Revenue then x as real / 100.0 else x as real
  }

  /** The grouping keys the charts use. */
  function DoctorOf(r: Record): string { r.doctor }
  function OutcomeOf(r: Record): Outcome { r.outcome }
  function DayAndDoctor(r: Record): (int, string) { (r.date, r.doctor) }

  /** The values of one key column, row by row (df["Doctor"], df["Outcome"], ...). */
  function Project<K>(s: seq<Record>, key: Record -> K): (ks: seq<K>)
    ensures |ks| == |s|
  {
    seq(|s|, i requires 0 <= i < |s| => key(s[i]))
  }

  /** The condition `key(row) == k`, as a mask. */
  function HasKey<K(==)>(key: Record -> K, k: K): Record -> bool
  {
    (r: Record) => key(r) == k
  }

  /** The rows of one group: those whose key is k. */
  function Select<K(==)>(s: seq<Record>, key: Record -> K, k: K): seq<Record>
  {
    Filter(s, HasKey(key, k))
  }

  /** Selecting by key on a row followed by more rows. */
  lemma SelectCons<K>(r: Record, s: seq<Record>, key: Record -> K, k: K)
    ensures Select([r] + s, key, k) == (if key(r) == k then [r] else []) + Select(s, key, k)
  {
    assert ([r] + s)[1..] == s;
  }

  /**
   * A group is non-empty exactly when its key occurs in the key column: the
   * groupings have no zero-filled groups and miss no key.
   */
  lemma {:induction false} SelectNonEmpty<K>(s: seq<Record>, key: Record -> K, k: K)
    ensures |Select(s, key, k)| > 0 <==> k in Project(s, key)
  {
    FilterSpec(s, HasKey(key, k));
    var sel := Select(s, key, k);
    if k in Project(s, key) {
      var i :| 0 <= i < |s| && Project(s, key)[i] == k;
      assert s[i] in sel;
    }
    if |sel| > 0 {
      assert sel[0] in sel;
      var i :| 0 <= i < |s| && s[i] == sel[0];
      assert Project(s, key)[i] == k;
    }
  }

  /** Every row's key appears in the key column. */
  lemma ProjectCovers<K>(s: seq<Record>, key: Record -> K)
    ensures forall r :: r in s ==> key(r) in Project(s, key)
  {
    forall r | r in s ensures key(r) in Project(s, key) {
      var i :| 0 <= i < |s| && s[i] == r;
      assert Project(s, key)[i] == key(r);
    }
  }
}
