/**
 * The filter inputs of the dashboard and the view they select: the
 * doctor dropdown (its options and its selection) and the date-range
 * picker (its default range), and the two-step filter update_dashboard
 * applies to the table.
 */
module Filtering {
  import opened Wrappers
  import opened Sequences
  import opened Consultations

  /**
   * One interaction's inputs: the dropdown's value (None before anything is
   * picked, otherwise the list of picked doctors) and the two picked dates.
   */
  datatype FilterState = FilterState(selected: Option<seq<string>>, start: int, end: int)

  /** `if selected_doctors:` holds for a non-empty list only; None and [] are false. */
  predicate SelectionActive(sel: Option<seq<string>>)
  {
    sel.Some? && |sel.value| > 0
  }

  /** The mask `start <= Consultation Date <= end`. */
  function InDateRange(start: int, end: int): Record -> bool
  {
    (r: Record) => start <= r.date <= end
  }

  /** The mask `Doctor.isin(docs)`. */
  function DoctorIn(docs: seq<string>): Record -> bool
  {
    (r: Record) => r.doctor in docs
  }

  /** The filtered view, computed as update_dashboard does: dates first, then doctors if a selection is active. */
  function View(t: seq<Record>, fs: FilterState): seq<Record>
  {
    var byDate := Filter(t, InDateRange(fs.start, fs.end));
    if SelectionActive(fs.selected) then Filter(byDate, DoctorIn(fs.selected.value)) else byDate
  }

  /** Whether the filter state admits one row: in the date range, and picked if any doctor is picked. */
  predicate Admitted(fs: FilterState, r: Record)
  {
    fs.start <= r.date <= fs.end && (!SelectionActive(fs.selected) || r.doctor in fs.selected.value)
  }

  function Admits(fs: FilterState): Record -> bool
  {
    (r: Record) => Admitted(fs, r)
  }

  /** The two-step filter is a single filter by Admitted. */
  lemma ViewIsOneFilter(t: seq<Record>, fs: FilterState)
    ensures View(t, fs) == Filter(t, Admits(fs))
  {
    var byDate := InDateRange(fs.start, fs.end);
    if SelectionActive(fs.selected) {
      FilterFilter(t, byDate, DoctorIn(fs.selected.value), Admits(fs));
    } else {
      FilterExtensional(t, byDate, Admits(fs));
    }
  }

  /**
   * A row is in the view iff the filter state admits it; the view keeps each
   * admitted row as often as the table has it, in table order, and adds nothing.
   */
  lemma ViewSpec(t: seq<Record>, fs: FilterState)
    ensures IsSubsequence(View(t, fs), t)
    ensures forall r :: r in View(t, fs) <==> r in t && Admitted(fs, r)
    ensures forall r :: multiset(View(t, fs))[r] == if Admitted(fs, r) then multiset(t)[r] else 0
  {
    ViewIsOneFilter(t, fs);
    FilterSpec(t, Admits(fs));
  }

  /** Membership alone: a row is in the view iff the table has it and the filter state admits it. */
  lemma ViewMembers(t: seq<Record>, fs: FilterState)
    ensures forall r :: r in View(t, fs) <==> r in t && Admitted(fs, r)
  {
    ViewSpec(t, fs);
  }

  /** An empty or missing selection leaves only the date filter, the same view as picking every doctor of the table. */
  lemma EmptySelection(t: seq<Record>, fs: FilterState)
    requires !SelectionActive(fs.selected)
    ensures View(t, fs) == Filter(t, InDateRange(fs.start, fs.end))
    ensures View(t, fs) == View(t, fs.(selected := Some(DoctorOptions(t))))
  {
    var all := fs.(selected := Some(DoctorOptions(t)));
    var byDate := Filter(t, InDateRange(fs.start, fs.end));
    FilterSpec(t, InDateRange(fs.start, fs.end));
    ProjectCovers(t, DoctorOf);
    assert forall r :: r in byDate ==> DoctorIn(DoctorOptions(t))(r);
    FilterLength(byDate, DoctorIn(DoctorOptions(t)));
    if t != [] {
      assert t[0] in t;
      assert SelectionActive(all.selected);
    }
  }

  /**
   * `fs2` is at least as wide as `fs1`: its date range contains fs1's, and it
   * either picks no doctor or picks every doctor fs1 picks.
   */
  predicate Wider(fs2: FilterState, fs1: FilterState)
  {
    && fs2.start <= fs1.start && fs1.end <= fs2.end
    && (SelectionActive(fs2.selected) ==>
          SelectionActive(fs1.selected) && forall d :: d in fs1.selected.value ==> d in fs2.selected.value)
  }

  /** Widening the range or the selection keeps every row of the narrower view, in order, so the count never drops. */
  lemma ViewMonotone(t: seq<Record>, fs1: FilterState, fs2: FilterState)
    requires Wider(fs2, fs1)
    ensures IsSubsequence(View(t, fs1), View(t, fs2))
    ensures |View(t, fs1)| <= |View(t, fs2)| <= |t|
  {
    ViewIsOneFilter(t, fs1);
    ViewIsOneFilter(t, fs2);
    FilterWeaken(t, Admits(fs1), Admits(fs2));
    SubsequenceLength(View(t, fs1), View(t, fs2));
  }

  /** The dropdown's options: the Doctor column's distinct values in order of first appearance. */
  function DoctorOptions(t: seq<Record>): (opts: seq<string>)
    ensures NoDup(opts)
    ensures forall r :: r in t ==> r.doctor in opts
    ensures forall i :: 0 <= i < |opts| ==> exists r :: r in t && r.doctor == opts[i]
    ensures forall i :: 0 <= i < |opts| ==> opts[i] in Project(t, DoctorOf)
    ensures forall i, j :: 0 <= i < j < |opts| ==> FirstIndex(Project(t, DoctorOf), opts[i]) < FirstIndex(Project(t, DoctorOf), opts[j])
  {
    var col := Project(t, DoctorOf);
    ProjectCovers(t, DoctorOf);
    var opts := Distinct(col);
    assert forall i :: 0 <= i < |opts| ==> exists r :: r in t && r.doctor == opts[i] by {
      forall i | 0 <= i < |opts| ensures exists r :: r in t && r.doctor == opts[i] {
        var k :| 0 <= k < |col| && col[k] == opts[i];
        assert t[k] in t;
      }
    }
    opts
  }

  /** The earliest Consultation Date of a non-empty table. */
  function MinDate(t: seq<Record>): (m: int)
    requires |t| > 0
    ensures forall i :: 0 <= i < |t| ==> m <= t[i].date
    ensures exists i :: 0 <= i < |t| && t[i].date == m
  {
    if |t| == 1 then t[0].date
    else
      var m := MinDate(t[1..]);
      assert forall i :: 1 <= i < |t| ==> t[i] == t[1..][i - 1];
      if t[0].date <= m then t[0].date else m
  }

  /** The latest Consultation Date of a non-empty table. */
  function MaxDate(t: seq<Record>): (m: int)
    requires |t| > 0
    ensures forall i :: 0 <= i < |t| ==> t[i].date <= m
    ensures exists i :: 0 <= i < |t| && t[i].date == m
  {
    if |t| == 1 then t[0].date
    else
      var m := MaxDate(t[1..]);
      assert forall i :: 1 <= i < |t| ==> t[i] == t[1..][i - 1];
      if m <= t[0].date then t[0].date else m
  }

  /**
   * The date picker's initial range: the table's earliest and latest dates.
   * pandas gives NaT for an empty table, modelled as None.
   */
  function DefaultRange(t: seq<Record>): (range: Option<(int, int)>)
    ensures range.None? <==> |t| == 0
  {
    if |t| == 0 then None else Some((MinDate(t), MaxDate(t)))
  }

  /** The dashboard's initial state (no doctor picked, the default range) shows the whole table. */
  lemma InitialViewIsTable(t: seq<Record>)
    requires |t| > 0
    ensures View(t, FilterState(None, DefaultRange(t).value.0, DefaultRange(t).value.1)) == t
  {
    var fs := FilterState(None, MinDate(t), MaxDate(t));
    forall r | r in t ensures InDateRange(fs.start, fs.end)(r) {
      var i :| 0 <= i < |t| && t[i] == r;
    }
    FilterLength(t, InDateRange(fs.start, fs.end));
  }
}
