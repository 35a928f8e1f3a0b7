/**
 * update_dashboard: from the table and the filter inputs to the six summary
 * metrics and the data behind the six charts, recomputed from scratch on
 * every interaction.
 */
module Dashboard {
  import opened Wrappers
  import opened Sequences
  import opened Ordering
  import opened Consultations
  import opened Aggregates
  import opened Filtering

  /**
   * The summary metrics: row count, mean Feedback, percentage of Successful
   * outcomes, mean Response Time (minutes), Retention percentage, and total
   * Revenue (hundredths). A mean over no rows is None (NaN in pandas).
   */
  datatype Summary = Summary(
    totalConsultations: nat,
    avgSatisfaction: Option<real>,
    successRate: real,
    avgResponseTime: Option<real>,
    retentionRate: Option<real>,
    totalRevenue: int)

  /** What the callback returns: the metrics and the data each chart is drawn from. */
  datatype Outputs = Outputs(
    metrics: Summary,
    volume: seq<Group<(int, string), nat>>,
    satisfaction: seq<Group<string, real>>,
    efficacy: seq<Group<Outcome, nat>>,
    responseTime: seq<Group<string, real>>,
    retention: seq<Group<string, real>>,
    revenue: seq<Group<string, int>>)

  /** value_counts(normalize=True) of the Outcome column; empty over no rows. */
  function OutcomeShares(v: seq<Record>): seq<Group<Outcome, real>>
  {
    if |v| == 0 then [] else ShareGroups(v, OutcomeOf, Distinct(Project(v, OutcomeOf)))
  }

  /** `value_counts(normalize=True).get("Successful", 0) * 100`. */
  function SuccessRate(v: seq<Record>): real
  {
    match Lookup(OutcomeShares(v), Successful)
    case Some(share) => share * 100.0
    case None => 0.0
  }

  /** A fraction as a percentage; an undefined fraction stays undefined. */
  function Percent(m: Option<real>): Option<real>
  {
    match m
    case Some(x) => Some(x * 100.0)
    case None => None
  }

  /** `Retention.mean() * 100`: undefined over no rows. */
  function RetentionRate(v: seq<Record>): Option<real>
  {
    Percent(Mean(v, Retention))
  }

  function Summarize(v: seq<Record>): Summary
  {
    Summary(|v|, Mean(v, Feedback), SuccessRate(v), Mean(v, ResponseTime), RetentionRate(v), Sum(v, Revenue))
  }

  /** The group keys of groupby("Doctor"): the doctors of the view, sorted. */
  function DoctorKeys(v: seq<Record>): seq<string>
  {
    Sort(Distinct(Project(v, DoctorOf)))
  }

  /**
   * The per-doctor keys list each doctor of the view once, in Python's
   * string order, and no doctor without rows (no zero-filled groups).
   */
  lemma DoctorKeysSpec(v: seq<Record>)
    ensures NoDup(DoctorKeys(v)) && Sorted(DoctorKeys(v))
    ensures forall d :: d in DoctorKeys(v) <==> |Select(v, DoctorOf, d)| > 0
    ensures forall i :: 0 <= i < |DoctorKeys(v)| ==> DoctorKeys(v)[i] in Project(v, DoctorOf)
    ensures forall r :: r in v ==> DoctorOf(r) in DoctorKeys(v)
  {
    var col := Project(v, DoctorOf);
    DistinctMembers(col);
    SortMembers(Distinct(col));
    forall d ensures d in DoctorKeys(v) <==> |Select(v, DoctorOf, d)| > 0 {
      SelectNonEmpty(v, DoctorOf, d);
    }
    ProjectCovers(v, DoctorOf);
  }

  /** groupby("Doctor")[column].mean(): one mean per doctor of the view. */
  function DoctorMeans(v: seq<Record>, c: Column): seq<Group<string, real>>
  {
    DoctorKeysSpec(v);
    MeanGroups(v, DoctorOf, DoctorKeys(v), c)
  }

  /** The keys of the other groupings: outcomes and (day, doctor) pairs in order of first appearance. */
  lemma FirstSeenKeysSpec<K>(v: seq<Record>, key: Record -> K)
    ensures NoDup(Distinct(Project(v, key)))
    ensures forall r :: r in v ==> key(r) in Distinct(Project(v, key))
  {
    ProjectCovers(v, key);
    DistinctMembers(Project(v, key));
  }

  /** update_dashboard: filter the table, then compute the metrics and the chart data from the view. */
  function UpdateDashboard(t: seq<Record>, fs: FilterState): (out: Outputs)
    ensures out.metrics.totalConsultations == |View(t, fs)| <= |t|
    ensures CountTotal(out.volume) == out.metrics.totalConsultations
    ensures CountTotal(out.efficacy) == out.metrics.totalConsultations
    ensures SumTotal(out.revenue) == out.metrics.totalRevenue
    ensures 0.0 <= out.metrics.successRate <= 100.0
    ensures KeysOf(out.satisfaction) == KeysOf(out.responseTime) == KeysOf(out.retention)
         == KeysOf(out.revenue) == DoctorKeys(View(t, fs))
    ensures out.metrics.avgSatisfaction.None? <==> out.metrics.totalConsultations == 0
    ensures out.metrics.avgResponseTime.None? <==> out.metrics.totalConsultations == 0
    ensures out.metrics.retentionRate.None? <==> out.metrics.totalConsultations == 0
  {
    var v := View(t, fs);
    var doctors := DoctorKeys(v);
    DoctorKeysSpec(v);
    ViewSpec(t, fs);
    SubsequenceLength(v, t);
    FirstSeenKeysSpec(v, DayAndDoctor);
    FirstSeenKeysSpec(v, OutcomeOf);
    GroupsPartition(v, DayAndDoctor, Distinct(Project(v, DayAndDoctor)), Revenue);
    GroupsPartition(v, OutcomeOf, Distinct(Project(v, OutcomeOf)), Revenue);
    GroupsPartition(v, DoctorOf, doctors, Revenue);
    SuccessRateSpec(v);
    Outputs(
      Summarize(v),
      CountGroups(v, DayAndDoctor, Distinct(Project(v, DayAndDoctor))),
      DoctorMeans(v, Feedback),
      CountGroups(v, OutcomeOf, Distinct(Project(v, OutcomeOf))),
      DoctorMeans(v, ResponseTime),
      DoctorMeans(v, Retention),
      SumGroups(v, DoctorOf, doctors, Revenue))
  }

  /** The rows of the view with Outcome Successful. */
  function Successes(v: seq<Record>): seq<Record>
  {
    Select(v, OutcomeOf, Successful)
  }

  /**
   * The success rate is 100 times the share of Successful rows, 0 over no
   * rows; it lies in [0, 100], is 0 exactly when no row is Successful and
   * 100 exactly when every row is and there is one.
   */
  lemma SuccessRateSpec(v: seq<Record>)
    ensures SuccessRate(v) == if |v| == 0 then 0.0 else Ratio(|Successes(v)| as real, |v|) * 100.0
    ensures 0.0 <= SuccessRate(v) <= 100.0
    ensures SuccessRate(v) == 0.0 <==> forall r :: r in v ==> r.outcome != Successful
    ensures SuccessRate(v) == 100.0 <==> |v| > 0 && forall r :: r in v ==> r.outcome == Successful
  {
    SuccessRateValue(v);
    SuccessCount(v);
    if |v| > 0 {
      RatioOfCount(|Successes(v)|, |v|);
    }
  }

  /** No row is Successful exactly when there are no successes; every row is exactly when all rows are successes. */
  lemma SuccessCount(v: seq<Record>)
    ensures |Successes(v)| <= |v|
    ensures |Successes(v)| == 0 <==> forall r :: r in v ==> r.outcome != Successful
    ensures |Successes(v)| == |v| <==> forall r :: r in v ==> r.outcome == Successful
  {
    var p := HasKey(OutcomeOf, Successful);
    FilterLength(v, p);
    assert forall r :: p(r) <==> r.outcome == Successful;
  }

  lemma SuccessRateValue(v: seq<Record>)
    ensures SuccessRate(v) == if |v| == 0 then 0.0 else Ratio(|Successes(v)| as real, |v|) * 100.0
  {
    if |v| > 0 {
      var keys := Distinct(Project(v, OutcomeOf));
      LookupShare(v, OutcomeOf, keys, Successful);
      var share := Ratio(|Successes(v)| as real, |v|);
      if Successful in keys {
        assert Lookup(OutcomeShares(v), Successful) == Some(share);
      } else {
        DistinctMembers(Project(v, OutcomeOf));
        SelectNonEmpty(v, OutcomeOf, Successful);
        assert Lookup(OutcomeShares(v), Successful) == None;
        assert |Successes(v)| == 0;
        RatioOfCount(0, |v|);
      }
    }
  }

  /**
   * With 0/1 Retention values the retention rate is the percentage of rows
   * with Retention 1, so it lies in [0, 100]; it is undefined over no rows.
   */
  lemma RetentionRateSpec(v: seq<Record>)
    requires forall r :: r in v ==> r.retention == 0 || r.retention == 1
    ensures RetentionRate(v).None? <==> |v| == 0
    ensures |v| > 0 ==> RetentionRate(v) == Some(Ratio(|Filter(v, IsOne(Retention))| as real, |v|) * 100.0)
    ensures |v| > 0 ==> 0.0 <= RetentionRate(v).value <= 100.0
  {
    if |v| > 0 {
      SumOfFlags(v, Retention);
      RatioOfCount(|Filter(v, IsOne(Retention))|, |v|);
    }
  }

  /**
   * If every admitted row's value in column c lies in [lo, hi], then so does
   * the view's mean (when there are rows) and every per-doctor mean.
   */
  lemma MeansWithinBounds(t: seq<Record>, fs: FilterState, c: Column, lo: int, hi: int)
    requires forall r :: r in t && Admitted(fs, r) ==> lo <= Value(r, c) <= hi
    ensures var v := View(t, fs);
      && (Mean(v, c).Some? ==> InUnits(lo, c) <= Mean(v, c).value <= InUnits(hi, c))
      && (forall i :: 0 <= i < |DoctorMeans(v, c)| ==> InUnits(lo, c) <= DoctorMeans(v, c)[i].value <= InUnits(hi, c))
  {
    var v := View(t, fs);
    ViewSpec(t, fs);
    if |v| > 0 {
      MeanBounds(v, c, lo, hi);
    }
    DoctorKeysSpec(v);
    GroupMeansWithin(v, DoctorOf, DoctorKeys(v), c, lo, hi);
  }

  /**
   * A doctor's group in the view is the view obtained by selecting that
   * doctor alone over the same date range.
   */
  lemma DoctorGroupIsSingleSelection(t: seq<Record>, fs: FilterState, d: string)
    requires d in DoctorKeys(View(t, fs))
    ensures Select(View(t, fs), DoctorOf, d) == View(t, fs.(selected := Some([d])))
  {
    var single := fs.(selected := Some([d]));
    DoctorIsPicked(t, fs, d);
    SingleSelectionMask(t, fs, d);
    ViewIsOneFilter(t, fs);
    ViewIsOneFilter(t, single);
    FilterFilter(t, Admits(fs), HasKey(DoctorOf, d), Admits(single));
  }

  /** A doctor with rows in the view is one the selection picks, if there is a selection. */
  lemma DoctorIsPicked(t: seq<Record>, fs: FilterState, d: string)
    requires d in DoctorKeys(View(t, fs))
    ensures SelectionActive(fs.selected) ==> d in fs.selected.value
  {
    var v := View(t, fs);
    var col := Project(v, DoctorOf);
    SortMembers(Distinct(col));
    DistinctMembers(col);
    var i :| 0 <= i < |col| && col[i] == d;
    assert v[i] in v && v[i].doctor == d;
    ViewMembers(t, fs);
  }

  /** For a picked doctor, selecting that doctor alone admits the admitted rows of that doctor. */
  lemma SingleSelectionMask(t: seq<Record>, fs: FilterState, d: string)
    requires SelectionActive(fs.selected) ==> d in fs.selected.value
    ensures forall x :: x in t ==> Admits(fs.(selected := Some([d])))(x) == (Admits(fs)(x) && HasKey(DoctorOf, d)(x))
  {
    var single := fs.(selected := Some([d]));
    assert SelectionActive(single.selected);
    forall x | x in t ensures Admits(single)(x) == (Admits(fs)(x) && HasKey(DoctorOf, d)(x)) {
      assert x.doctor in [d] <==> x.doctor == d;
      assert Admits(single)(x) == Admitted(single, x);
      assert Admits(fs)(x) == Admitted(fs, x);
      assert DoctorOf(x) == x.doctor;
      assert HasKey(DoctorOf, d)(x) == (DoctorOf(x) == d);
    }
  }

  /**
   * Each per-doctor bar shows what the summary metrics show when that doctor
   * alone is selected; a doctor with no rows in the view has no bar.
   */
  lemma DoctorBarsMatchSingleSelection(t: seq<Record>, fs: FilterState, d: string)
    ensures var out := UpdateDashboard(t, fs);
      var single := UpdateDashboard(t, fs.(selected := Some([d]))).metrics;
      && (d in DoctorKeys(View(t, fs)) ==>
            && Lookup(out.satisfaction, d) == single.avgSatisfaction
            && Lookup(out.responseTime, d) == single.avgResponseTime
            && Lookup(out.revenue, d) == Some(single.totalRevenue)
            && single.retentionRate == Percent(Lookup(out.retention, d)))
      && (d !in DoctorKeys(View(t, fs)) ==>
            && Lookup(out.satisfaction, d).None? && Lookup(out.responseTime, d).None?
            && Lookup(out.retention, d).None? && Lookup(out.revenue, d).None?)
  {
    var v := View(t, fs);
    var out := UpdateDashboard(t, fs);
    assert out.satisfaction == DoctorMeans(v, Feedback);
    assert out.responseTime == DoctorMeans(v, ResponseTime);
    assert out.retention == DoctorMeans(v, Retention);
    assert out.revenue == SumGroups(v, DoctorOf, DoctorKeys(v), Revenue);
    DoctorLookup(v, d, Feedback);
    DoctorLookup(v, d, ResponseTime);
    DoctorLookup(v, d, Retention);
    DoctorLookup(v, d, Revenue);
    if d in DoctorKeys(v) {
      DoctorGroupIsSingleSelection(t, fs, d);
      var g := Select(v, DoctorOf, d);
      DoctorKeysSpec(v);
      assert UpdateDashboard(t, fs.(selected := Some([d]))).metrics == Summarize(g);
    }
  }

  /** A doctor's per-doctor mean and sum are the mean and sum of that doctor's group; an absent doctor has neither. */
  lemma DoctorLookup(v: seq<Record>, d: string, c: Column)
    ensures d in DoctorKeys(v) ==> Lookup(DoctorMeans(v, c), d) == Mean(Select(v, DoctorOf, d), c)
    ensures d in DoctorKeys(v) ==> Lookup(SumGroups(v, DoctorOf, DoctorKeys(v), c), d) == Some(Sum(Select(v, DoctorOf, d), c))
    ensures d !in DoctorKeys(v) ==> Lookup(DoctorMeans(v, c), d).None? && Lookup(SumGroups(v, DoctorOf, DoctorKeys(v), c), d).None?
  {
    DoctorKeysSpec(v);
    LookupGroups(v, DoctorOf, DoctorKeys(v), c, d);
  }

  /**
   * The per-doctor means, weighted by the doctors' row counts, recombine to
   * the mean of the whole view.
   */
  lemma DoctorMeansRecombine(v: seq<Record>, c: Column)
    requires |v| > 0
    ensures Ratio(Weighted(CountGroups(v, DoctorOf, DoctorKeys(v)), DoctorMeans(v, c)), |v|) == Mean(v, c).value
  {
    DoctorKeysSpec(v);
    MeanRecombine(v, DoctorOf, DoctorKeys(v), c);
  }

  /**
   * Over an empty view every mean is undefined, the success rate is 0, the
   * total revenue is 0, and every chart is empty.
   */
  lemma EmptyView(t: seq<Record>, fs: FilterState)
    requires View(t, fs) == []
    ensures UpdateDashboard(t, fs) == Outputs(Summary(0, None, 0.0, None, None, 0), [], [], [], [], [], [])
  {
    var v := View(t, fs);
    assert Project(v, DoctorOf) == [];
    assert Project(v, OutcomeOf) == [];
    assert Project(v, DayAndDoctor) == [];
    assert DoctorKeys(v) == [];
  }
}
