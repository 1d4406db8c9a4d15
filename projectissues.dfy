/** The issue table of the dashboard (components/project-issues.tsx): the
    priority label, the priority and status sort orders, and the combined
    comparator whose last tie-break is the issue identifier. */
module ProjectIssues {
  import opened Wrappers
  import opened Strings
  import opened Linear

  /** `formatPriority`: a non-empty label is shown as is, otherwise a
      numeric priority is shown as "P" and its canonical decimal text,
      otherwise "No priority". */
  function FormatPriority(priorityLabel: Option<string>, priority: Option<int>): (r: string)
    ensures Truthy(priorityLabel) ==> r == priorityLabel.value
    ensures !Truthy(priorityLabel) && priority.Some? ==>
              |r| > 0 && r[0] == 'P' && ParseInt(r[1..]) == Some(priority.value) && CanonicalInt(r[1..])
    ensures !Truthy(priorityLabel) && priority.None? ==> r == "No priority"
  {
    if Truthy(priorityLabel) then priorityLabel.value
    else if priority.Some? then
      IntToStringRoundTrip(priority.value);
      IntToStringCanonical(priority.value);
      var digits := IntToString(priority.value);
      assert ("P" + digits)[1..] == digits;
      "P" + digits
    else "No priority"
  }

  /** The two drop-downs of the table. */
  datatype PrioritySort = PriorityDefault | HighLow | LowHigh
  datatype StatusSort = StatusDefault | AZ | ZA

  /** A comparison function in the style of `Array.prototype.sort`: negative
      when the first argument goes first, positive when it goes last. */
  type Comparison<-T> = (T, T) -> int

  function Sign(x: int): int {
    if x < 0 then -1 else if x > 0 then 1 else 0
  }

  /** A comparison that is a total preorder: swapping the arguments flips
      the sign, and "not after" is transitive. String collation
      (`localeCompare`) is taken to be one. */
  ghost predicate TotalPreorder<T(!new)>(c: Comparison<T>) {
    (forall a, b :: Sign(c(a, b)) == -Sign(c(b, a))) &&
    (forall a, b, d :: c(a, b) <= 0 && c(b, d) <= 0 ==> c(a, d) <= 0)
  }

  /** In a total preorder, a chain of two "not after" steps ends in a tie
      only when both steps are ties. */
  lemma PreorderStep<T(!new)>(c: Comparison<T>, a: T, b: T, d: T)
    requires TotalPreorder(c)
    requires c(a, b) <= 0 && c(b, d) <= 0
    ensures c(a, d) <= 0
    ensures c(a, d) == 0 ==> c(a, b) == 0 && c(b, d) == 0
  {
    if c(a, d) == 0 {
      assert Sign(c(d, a)) == -Sign(c(a, d));
      assert c(d, b) <= 0;
      assert Sign(c(d, b)) == -Sign(c(b, d));
      assert c(b, a) <= 0;
      assert Sign(c(b, a)) == -Sign(c(a, b));
    }
  }

  // ---------------------------------------------------------------------
  // The sort. `Array.prototype.sort` is stable, so with a total preorder
  // its result is the one stable insertion sort produces. The source sorts
  // a copy (`[...issues]`); on values the input is never changed.

  /** Places `x` after every element of `s` that does not go after it. */
  function Insert<T(!new)>(x: T, s: seq<T>, c: Comparison<T>): (r: seq<T>)
    ensures multiset(r) == multiset(s) + multiset{x}
  {
    if s == [] then [x]
    else if c(x, s[0]) < 0 then [x] + s
    else
      assert s == [s[0]] + s[1..];
      [s[0]] + Insert(x, s[1..], c)
  }

  /** Stable sort: each element is inserted, in input order, behind the
      elements already placed that it ties with. */
  function SortBy<T(!new)>(s: seq<T>, c: Comparison<T>): (r: seq<T>)
    ensures multiset(r) == multiset(s)
  {
    if s == [] then []
    else
      assert s == s[..|s| - 1] + [s[|s| - 1]];
      Insert(s[|s| - 1], SortBy(s[..|s| - 1], c), c)
  }

  ghost predicate SortedBy<T(!new)>(s: seq<T>, c: Comparison<T>) {
    forall i, j :: 0 <= i < j < |s| ==> c(s[i], s[j]) <= 0
  }

  /** `y` goes no later than anything in `s` or `x`, so also no later than
      anything in `Insert(x, s, c)`. */
  lemma FirstOfInsert<T(!new)>(y: T, x: T, s: seq<T>, c: Comparison<T>)
    requires c(y, x) <= 0
    requires forall j :: 0 <= j < |s| ==> c(y, s[j]) <= 0
    ensures forall k :: 0 <= k < |Insert(x, s, c)| ==> c(y, Insert(x, s, c)[k]) <= 0
  {
    var r := Insert(x, s, c);
    forall k | 0 <= k < |r| ensures c(y, r[k]) <= 0 {
      assert r[k] in multiset(r);
      if r[k] != x {
        assert r[k] in multiset(s);
      }
    }
  }

  lemma {:induction false} InsertSorted<T(!new)>(x: T, s: seq<T>, c: Comparison<T>)
    requires TotalPreorder(c) && SortedBy(s, c)
    ensures SortedBy(Insert(x, s, c), c)
  {
    if s != [] {
      if c(x, s[0]) < 0 {
        forall j | 0 <= j < |s| ensures c(x, s[j]) <= 0 {
          if j > 0 {
            PreorderStep(c, x, s[0], s[j]);
          }
        }
      } else {
        assert Sign(c(s[0], x)) == -Sign(c(x, s[0]));
        InsertSorted(x, s[1..], c);
        FirstOfInsert(s[0], x, s[1..], c);
      }
    }
  }

  /** The sort's result is a permutation of its input, ordered by `c`. */
  lemma {:induction false} SortBySorted<T(!new)>(s: seq<T>, c: Comparison<T>)
    requires TotalPreorder(c)
    ensures SortedBy(SortBy(s, c), c)
  {
    if s != [] {
      SortBySorted(s[..|s| - 1], c);
      InsertSorted(s[|s| - 1], SortBy(s[..|s| - 1], c), c);
    }
  }

  /** Elements that tie with everything stay in input order: this is the
      stability the missing-priority case below relies on. */
  lemma {:induction false} TiesKeepOrder<T(!new)>(s: seq<T>, c: Comparison<T>)
    requires forall i, j :: 0 <= i < |s| && 0 <= j < |s| ==> c(s[i], s[j]) == 0
    ensures SortBy(s, c) == s
  {
    if s != [] {
      var init := s[..|s| - 1];
      TiesKeepOrder(init, c);
      TiesAppend(s[|s| - 1], init, c);
      assert init + [s[|s| - 1]] == s;
    }
  }

  lemma {:induction false} TiesAppend<T(!new)>(x: T, s: seq<T>, c: Comparison<T>)
    requires forall j :: 0 <= j < |s| ==> c(x, s[j]) == 0
    ensures Insert(x, s, c) == s + [x]
  {
    if s != [] {
      TiesAppend(x, s[1..], c);
      assert [s[0]] + (s[1..] + [x]) == s + [x];
    }
  }

  // ---------------------------------------------------------------------
  // The comparators.

  /** `priorityA - priorityB` with a missing priority read as +∞, reduced
      to a sign where an operand is infinite. Two missing priorities tie. */
  function PriorityDiff(p: Option<int>, q: Option<int>): int {
    match (p, q)
    case (Some(x), Some(y)) => x - y
    case (Some(_), None) => -1
    case (None, Some(_)) => 1
    case (None, None) => 0
  }

  /** `getPriorityComparator`: "high-low" subtracts b's priority from a's,
      "low-high" a's from b's. "default" has no comparator, so the level is
      skipped: it ties every pair. */
  function PriorityOrder(sort: PrioritySort, a: Issue, b: Issue): int {
    match sort
    case PriorityDefault => 0
    case HighLow => PriorityDiff(a.fields.priority, b.fields.priority)
    case LowHigh => PriorityDiff(b.fields.priority, a.fields.priority)
  }

  /** `getStatusComparator`: "az" collates the state names, "za" collates
      them the other way round, "default" ties every pair. */
  function StatusOrder(sort: StatusSort, collate: Comparison<string>, a: Issue, b: Issue): int {
    match sort
    case StatusDefault => 0
    case AZ => collate(a.fields.state.name, b.fields.state.name)
    case ZA => collate(b.fields.state.name, a.fields.state.name)
  }

  /** The table's comparator: the first non-zero of the priority order and
      the status order, otherwise the identifiers' collation. */
  function CompareIssues(ps: PrioritySort, ss: StatusSort, collate: Comparison<string>, a: Issue, b: Issue): int {
    var p := PriorityOrder(ps, a, b);
    if p != 0 then p
    else
      var s := StatusOrder(ss, collate, a, b);
      if s != 0 then s else collate(a.fields.identifier, b.fields.identifier)
  }

  function Comparator(ps: PrioritySort, ss: StatusSort, collate: Comparison<string>): Comparison<Issue> {
    (a: Issue, b: Issue) => CompareIssues(ps, ss, collate, a, b)
  }

  /** The comparator as the code has it: with a priority sort chosen and
      both priorities missing, `Infinity - Infinity` is NaN; NaN is not 0,
      so it is returned, and the sort reads it as a tie. The status and
      identifier tie-breaks are never reached for such a pair. */
  function CompareAsWritten(ps: PrioritySort, ss: StatusSort, collate: Comparison<string>, a: Issue, b: Issue): int {
    if ps != PriorityDefault && a.fields.priority.None? && b.fields.priority.None? then 0
    else CompareIssues(ps, ss, collate, a, b)
  }

  /** The priority order is antisymmetric and transitive, it ties exactly
      equal priorities, and "low-high" is "high-low" with the arguments
      swapped. */
  lemma PriorityOrderFacts(sort: PrioritySort, a: Issue, b: Issue, d: Issue)
    ensures PriorityOrder(sort, a, b) == -PriorityOrder(sort, b, a)
    ensures PriorityOrder(sort, a, b) <= 0 && PriorityOrder(sort, b, d) <= 0 ==>
              PriorityOrder(sort, a, d) <= 0 &&
              (PriorityOrder(sort, a, d) == 0 ==> PriorityOrder(sort, a, b) == 0 && PriorityOrder(sort, b, d) == 0)
    ensures sort != PriorityDefault ==> (PriorityOrder(sort, a, b) == 0 <==> a.fields.priority == b.fields.priority)
    ensures PriorityOrder(LowHigh, a, b) == PriorityOrder(HighLow, b, a)
  {
  }

  lemma StatusOrderFacts(sort: StatusSort, collate: Comparison<string>, a: Issue, b: Issue, d: Issue)
    requires TotalPreorder(collate)
    ensures Sign(StatusOrder(sort, collate, a, b)) == -Sign(StatusOrder(sort, collate, b, a))
    ensures StatusOrder(sort, collate, a, b) <= 0 && StatusOrder(sort, collate, b, d) <= 0 ==>
              StatusOrder(sort, collate, a, d) <= 0 &&
              (StatusOrder(sort, collate, a, d) == 0 ==>
                 StatusOrder(sort, collate, a, b) == 0 && StatusOrder(sort, collate, b, d) == 0)
  {
    var na, nb, nd := a.fields.state.name, b.fields.state.name, d.fields.state.name;
    assert Sign(collate(na, nb)) == -Sign(collate(nb, na));
    if StatusOrder(sort, collate, a, b) <= 0 && StatusOrder(sort, collate, b, d) <= 0 {
      if sort == AZ {
        PreorderStep(collate, na, nb, nd);
      } else if sort == ZA {
        PreorderStep(collate, nd, nb, na);
      }
    }
  }

  lemma CompareTransitive(ps: PrioritySort, ss: StatusSort, collate: Comparison<string>, a: Issue, b: Issue, d: Issue)
    requires TotalPreorder(collate)
    requires CompareIssues(ps, ss, collate, a, b) <= 0 && CompareIssues(ps, ss, collate, b, d) <= 0
    ensures CompareIssues(ps, ss, collate, a, d) <= 0
  {
    PriorityOrderFacts(ps, a, b, d);
    StatusOrderFacts(ss, collate, a, b, d);
    if PriorityOrder(ps, a, d) == 0 && StatusOrder(ss, collate, a, d) == 0 {
      PreorderStep(collate, a.fields.identifier, b.fields.identifier, d.fields.identifier);
    }
  }

  /** The table's comparator is a total preorder whenever collation is. */
  lemma ComparatorPreorder(ps: PrioritySort, ss: StatusSort, collate: Comparison<string>)
    requires TotalPreorder(collate)
    ensures TotalPreorder(Comparator(ps, ss, collate))
  {
    var c := Comparator(ps, ss, collate);
    forall a, b ensures Sign(c(a, b)) == -Sign(c(b, a)) {
      PriorityOrderFacts(ps, a, b, b);
      StatusOrderFacts(ss, collate, a, b, b);
      assert Sign(collate(a.fields.identifier, b.fields.identifier))
          == -Sign(collate(b.fields.identifier, a.fields.identifier));
    }
    forall a, b, d | c(a, b) <= 0 && c(b, d) <= 0 ensures c(a, d) <= 0 {
      CompareTransitive(ps, ss, collate, a, b, d);
    }
  }

  /** `p` may come before `q` in "high-low" order: a missing priority counts
      as +∞, so it comes after every number. */
  predicate PriorityAtMost(p: Option<int>, q: Option<int>) {
    q.None? || (p.Some? && p.value <= q.value)
  }

  /** What it means for `a` to be placed before `b`: the chosen priority
      order holds; where priorities tie (or no priority order is chosen),
      the chosen status order holds; where status ties too (or no status
      order is chosen), the identifiers are in order. */
  ghost predicate Placed(ps: PrioritySort, ss: StatusSort, collate: Comparison<string>, a: Issue, b: Issue) {
    var priorityTie := ps == PriorityDefault || a.fields.priority == b.fields.priority;
    var statusTie := ss == StatusDefault || collate(a.fields.state.name, b.fields.state.name) == 0;
    (ps == HighLow ==> PriorityAtMost(a.fields.priority, b.fields.priority)) &&
    (ps == LowHigh ==> PriorityAtMost(b.fields.priority, a.fields.priority)) &&
    (priorityTie && ss == AZ ==> collate(a.fields.state.name, b.fields.state.name) <= 0) &&
    (priorityTie && ss == ZA ==> collate(b.fields.state.name, a.fields.state.name) <= 0) &&
    (priorityTie && statusTie ==> collate(a.fields.identifier, b.fields.identifier) <= 0)
  }

  lemma CompareMeaning(ps: PrioritySort, ss: StatusSort, collate: Comparison<string>, a: Issue, b: Issue)
    requires TotalPreorder(collate)
    requires CompareIssues(ps, ss, collate, a, b) <= 0
    ensures Placed(ps, ss, collate, a, b)
  {
    PriorityOrderFacts(ps, a, b, b);
    var na, nb := a.fields.state.name, b.fields.state.name;
    assert Sign(collate(na, nb)) == -Sign(collate(nb, na));
  }

  /** The table's ordering of a project's issues. */
  function SortIssues(ps: PrioritySort, ss: StatusSort, collate: Comparison<string>, issues: seq<Issue>): seq<Issue> {
    SortBy(issues, Comparator(ps, ss, collate))
  }

  /** The sorted table holds the same issues, and every issue is placed
      before every later one in the sense of `Placed`: for "high-low" the
      priorities ascend with missing ones last, for "low-high" they
      descend with missing ones first, status names follow "az"/"za"
      among equal priorities, and identifiers break the remaining ties. */
  lemma SortIssuesOrder(ps: PrioritySort, ss: StatusSort, collate: Comparison<string>, issues: seq<Issue>)
    requires TotalPreorder(collate)
    ensures multiset(SortIssues(ps, ss, collate, issues)) == multiset(issues)
    ensures var r := SortIssues(ps, ss, collate, issues);
            forall i, j :: 0 <= i < j < |r| ==> Placed(ps, ss, collate, r[i], r[j])
  {
    var c := Comparator(ps, ss, collate);
    ComparatorPreorder(ps, ss, collate);
    SortBySorted(issues, c);
    var r := SortIssues(ps, ss, collate, issues);
    forall i, j | 0 <= i < j < |r| ensures Placed(ps, ss, collate, r[i], r[j]) {
      assert c(r[i], r[j]) <= 0;
      CompareMeaning(ps, ss, collate, r[i], r[j]);
    }
  }

  // ---------------------------------------------------------------------
  // The missing-priority tie. With "high-low" or "low-high" chosen, two
  // issues without priority compare as NaN, which the sort reads as a tie,
  // so among such issues identifier order is not applied.

  function ComparatorAsWritten(ps: PrioritySort, ss: StatusSort, collate: Comparison<string>): Comparison<Issue> {
    (a: Issue, b: Issue) => CompareAsWritten(ps, ss, collate, a, b)
  }

  /** As written: issues without priority keep their input order under a
      priority sort, whatever their status and identifiers. */
  lemma MissingPrioritiesKeepInputOrder(ps: PrioritySort, ss: StatusSort, collate: Comparison<string>, issues: seq<Issue>)
    requires ps != PriorityDefault
    requires forall k :: 0 <= k < |issues| ==> issues[k].fields.priority.None?
    ensures SortBy(issues, ComparatorAsWritten(ps, ss, collate)) == issues
  {
    TiesKeepOrder(issues, ComparatorAsWritten(ps, ss, collate));
  }

  function Unprioritized(identifier: string): Issue {
    Issue(IssueFields("id-" + identifier, identifier, "", "", None, None, None, None, None,
                      IssueState("", "Todo", None)), [])
  }

  /** The input that shows it: "ENG-2" listed before "ENG-1", neither with
      a priority, sorted "high-low". The code keeps ENG-2 first; the
      comparator's final tie-break, which the corrected comparator reaches,
      puts ENG-1 first. */
  lemma MissingPriorityExample(collate: Comparison<string>)
    requires collate("ENG-1", "ENG-2") < 0
    ensures SortBy([Unprioritized("ENG-2"), Unprioritized("ENG-1")], ComparatorAsWritten(HighLow, StatusDefault, collate))
            == [Unprioritized("ENG-2"), Unprioritized("ENG-1")]
    ensures SortBy([Unprioritized("ENG-2"), Unprioritized("ENG-1")], Comparator(HighLow, StatusDefault, collate))
            == [Unprioritized("ENG-1"), Unprioritized("ENG-2")]
  {
    var s := [Unprioritized("ENG-2"), Unprioritized("ENG-1")];
    MissingPrioritiesKeepInputOrder(HighLow, StatusDefault, collate, s);
    assert s[..1] == [Unprioritized("ENG-2")];
  }
}
