/** The completed-issues table of the dashboard
    (components/completed-issues.tsx): the "completed within" range, the
    recency filter it drives, and the filter's active/reset rule. Time is
    an integer count of milliseconds. */
module CompletedIssues {
  import opened Wrappers
  import opened Strings
  import opened Linear

  datatype RangeOption = RangeOption(caption: string, value: string, days: nat)

  /** `RANGE_OPTIONS`, in menu order. */
  const RangeOptions: seq<RangeOption> :=
    [RangeOption("Last 7 days", "week", 7), RangeOption("Last 30 days", "month", 30)]

  /** `DEFAULT_RANGE` */
  const DefaultRange: string := "week"

  const MillisPerDay: int := 86_400_000

  /** The first option whose value is `range`. */
  function FindOption(options: seq<RangeOption>, range: string): (r: Option<RangeOption>)
    ensures r.Some? <==> exists k :: 0 <= k < |options| && options[k].value == range
    ensures r.Some? ==> r.value in options && r.value.value == range
  {
    if options == [] then None
    else if options[0].value == range then Some(options[0])
    else
      var rest := FindOption(options[1..], range);
      assert forall k :: 1 <= k < |options| ==> options[k] == options[1..][k - 1];
      rest
  }

  /** The option for the chosen range, falling back to the first one. */
  function SelectedOption(range: string): (r: RangeOption)
    ensures r in RangeOptions
    ensures range == "week" ==> r.days == 7
    ensures range == "month" ==> r.days == 30
    ensures range != "week" && range != "month" ==> r == RangeOptions[0]
  {
    match FindOption(RangeOptions, range)
    case Some(option) => option
    case None => RangeOptions[0]
  }

  /** The start of the window: `days` calendar days before `now`. */
  function Threshold(range: string, now: int): int {
    now - SelectedOption(range).days * MillisPerDay
  }

  /** An issue is kept when it has a non-empty `completedAt` that parses
      (`parseDate`, `None` for an invalid date, which compares false) to a
      moment at or after the threshold. */
  predicate Kept(issue: Issue, threshold: int, parseDate: string -> Option<int>) {
    Truthy(issue.fields.completedAt) &&
    var at := parseDate(issue.fields.completedAt.value);
    at.Some? && at.value >= threshold
  }

  /** `issues.filter(...)` with the window of the chosen range. */
  function FilterCompleted(issues: seq<Issue>, threshold: int, parseDate: string -> Option<int>): (r: seq<Issue>)
    ensures |r| <= |issues|
    ensures forall k :: 0 <= k < |r| ==> Kept(r[k], threshold, parseDate) && r[k] in issues
  {
    if issues == [] then []
    else
      var rest := FilterCompleted(issues[1..], threshold, parseDate);
      (if Kept(issues[0], threshold, parseDate) then [issues[0]] else []) + rest
  }

  /** The filtered table shown for the chosen range at time `now`. */
  function CompletedWithin(issues: seq<Issue>, range: string, now: int, parseDate: string -> Option<int>): seq<Issue> {
    FilterCompleted(issues, Threshold(range, now), parseDate)
  }

  /** The filter keeps exactly the issues that qualify, with the inclusive
      bound: a present issue is shown iff it qualifies. */
  lemma {:induction false} FilterMembership(issues: seq<Issue>, threshold: int, parseDate: string -> Option<int>, x: Issue)
    ensures x in FilterCompleted(issues, threshold, parseDate) <==> x in issues && Kept(x, threshold, parseDate)
  {
    if issues != [] {
      FilterMembership(issues[1..], threshold, parseDate, x);
      assert x in issues <==> x == issues[0] || x in issues[1..];
    }
  }

  lemma ConcatTail(a: seq<Issue>, b: seq<Issue>)
    requires a != []
    ensures (a + b)[0] == a[0] && (a + b)[1..] == a[1..] + b
  {
  }

  lemma ConcatAssoc(a: seq<Issue>, b: seq<Issue>, c: seq<Issue>)
    ensures a + (b + c) == (a + b) + c
  {
  }

  /** The filter keeps order: it distributes over concatenation. */
  lemma {:induction false} FilterAppend(a: seq<Issue>, b: seq<Issue>, threshold: int, parseDate: string -> Option<int>)
    ensures FilterCompleted(a + b, threshold, parseDate)
            == FilterCompleted(a, threshold, parseDate) + FilterCompleted(b, threshold, parseDate)
  {
    if a == [] {
      assert a + b == b;
    } else {
      ConcatTail(a, b);
      FilterAppend(a[1..], b, threshold, parseDate);
      var head := if Kept(a[0], threshold, parseDate) then [a[0]] else [];
      ConcatAssoc(head, FilterCompleted(a[1..], threshold, parseDate), FilterCompleted(b, threshold, parseDate));
    }
  }

  /** An issue without `completedAt`, or with an empty one, is never shown. */
  lemma IncompleteHidden(issues: seq<Issue>, range: string, now: int, parseDate: string -> Option<int>, x: Issue)
    requires !Truthy(x.fields.completedAt)
    ensures x !in CompletedWithin(issues, range, now, parseDate)
  {
    FilterMembership(issues, Threshold(range, now), parseDate, x);
  }

  /** The window is inclusive: an issue completed exactly `days` days ago
      is shown, one a millisecond earlier is not. */
  lemma BoundIsInclusive(issues: seq<Issue>, range: string, now: int, parseDate: string -> Option<int>, x: Issue)
    requires x in issues && Truthy(x.fields.completedAt)
    ensures parseDate(x.fields.completedAt.value) == Some(Threshold(range, now)) ==>
              x in CompletedWithin(issues, range, now, parseDate)
    ensures parseDate(x.fields.completedAt.value) == Some(Threshold(range, now) - 1) ==>
              x !in CompletedWithin(issues, range, now, parseDate)
  {
    FilterMembership(issues, Threshold(range, now), parseDate, x);
  }

  /** Widening the window from "week" to "month" only adds issues. */
  lemma MonthCoversWeek(issues: seq<Issue>, now: int, parseDate: string -> Option<int>, x: Issue)
    requires x in CompletedWithin(issues, "week", now, parseDate)
    ensures x in CompletedWithin(issues, "month", now, parseDate)
  {
    FilterMembership(issues, Threshold("week", now), parseDate, x);
    FilterMembership(issues, Threshold("month", now), parseDate, x);
  }

  /** `isActive`: the filter is highlighted when the range is not the
      default one. */
  predicate IsActive(range: string) {
    range != DefaultRange
  }

  /** The "Reset" menu item: ignored while the filter is inactive,
      otherwise it sets the default range. Either way the range is then
      the default and the filter is inactive. */
  function OnReset(range: string): (r: string)
    ensures !IsActive(r)
    ensures !IsActive(range) ==> r == range
  {
    if !IsActive(range) then range else DefaultRange
  }
}
