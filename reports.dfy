/** `ReportViewSet.department_priority_stats` and
    `ReportViewSet.all_department_stats`: ticket counts per (department,
    priority), for one pair or as a sorted breakdown over every pair present
    in an optionally filtered complaint set. */
module Reports {
  import opened Records
  import opened TextOrder
  import opened Queries

  /** Open, resolved and total tickets of one (department, priority) pair. */
  datatype TicketCounts = TicketCounts(
    department: string,
    priority: string,
    openTickets: nat,
    resolvedTickets: nat,
    totalTickets: nat)

  function KeyOf(c: Complaint): GroupKey {
    (c.assignedDepartment, c.priority)
  }

  function KeyIs(k: GroupKey): Criteria {
    Criteria(Some(k.0), Some(k.1), None, None)
  }

  function KeyWithStatus(k: GroupKey, status: string): Criteria {
    Criteria(Some(k.0), Some(k.1), Some(status), None)
  }

  lemma MatchesKey(c: Complaint, k: GroupKey)
    ensures Matches(c, KeyIs(k)) <==> KeyOf(c) == k
  {
  }

  /** The aggregate `Count('ticket_id', filter=Q(status=...))` and
      `Count('ticket_id')` over the complaints of one pair. */
  function CountsFor(cs: seq<Complaint>, k: GroupKey): (r: TicketCounts)
    ensures r.department == k.0 && r.priority == k.1
    ensures r.totalTickets == |Select(cs, KeyIs(k))|
    ensures r.openTickets == |Select(cs, KeyWithStatus(k, "open"))|
    ensures r.resolvedTickets == |Select(cs, KeyWithStatus(k, "resolved"))|
    ensures r.openTickets + r.resolvedTickets <= r.totalTickets
  {
    var matching := Select(cs, KeyIs(k));
    SelectSelect(cs, KeyIs(k), StatusIs("open"), KeyWithStatus(k, "open"));
    SelectSelect(cs, KeyIs(k), StatusIs("resolved"), KeyWithStatus(k, "resolved"));
    DisjointCounts(matching, StatusIs("open"), StatusIs("resolved"));
    TicketCounts(k.0, k.1, |Select(matching, StatusIs("open"))|, |Select(matching, StatusIs("resolved"))|, |matching|)
  }

  // ---- department_priority_stats ----

  /** `department_priority_stats`: both parameters are required (absent or
      empty is refused), the priority must be a priority choice, and the
      answer echoes both with the three counts of that pair. */
  function DepartmentPriorityStats(store: seq<Complaint>, choices: Choices, department: Option<string>, priority: Option<string>)
    : (r: Result<TicketCounts>)
    ensures r.Err? <==> !Given(department) || !Given(priority) || priority.value !in choices.priorities
    ensures !Given(department) || !Given(priority) ==> r == Err(MissingParameters)
    ensures Given(department) && Given(priority) && priority.value !in choices.priorities ==> r == Err(InvalidPriority)
    ensures r.Ok? ==>
      && r.value.department == department.value
      && r.value.priority == priority.value
      && r.value.totalTickets == |Select(store, Criteria(department, priority, None, None))|
      && r.value.openTickets == |Select(store, Criteria(department, priority, Some("open"), None))|
      && r.value.resolvedTickets == |Select(store, Criteria(department, priority, Some("resolved"), None))|
      && r.value.openTickets + r.value.resolvedTickets <= r.value.totalTickets
  {
    if !Given(department) || !Given(priority) then Err(MissingParameters)
    else if priority.value !in choices.priorities then Err(InvalidPriority)
    else Ok(CountsFor(store, (department.value, priority.value)))
  }

  // ---- the GROUP BY of all_department_stats ----

  /** Adds `k` to an ascending key list, keeping it ascending and without repeats. */
  function InsertKey(k: GroupKey, ks: seq<GroupKey>): (r: seq<GroupKey>)
    requires StrictlyAscending(ks)
    ensures StrictlyAscending(r)
    ensures forall x :: x in r <==> x in ks || x == k
  {
    if ks == [] then [k]
    else if k == ks[0] then ks
    else if KeyLess(k, ks[0]) then
      BelowHead(k, ks);
      PrependAscending(k, ks);
      [k] + ks
    else
      var rest := InsertKey(k, ks[1..]);
      KeyLessTotal(k, ks[0]);
      assert forall x :: x in rest ==> KeyLess(ks[0], x);
      PrependAscending(ks[0], rest);
      assert ks == [ks[0]] + ks[1..];
      [ks[0]] + rest
  }

  lemma BelowHead(k: GroupKey, ks: seq<GroupKey>)
    requires StrictlyAscending(ks) && ks != [] && KeyLess(k, ks[0])
    ensures forall x :: x in ks ==> KeyLess(k, x)
  {
    forall x | x in ks ensures KeyLess(k, x) {
      var j :| 0 <= j < |ks| && ks[j] == x;
      if j > 0 {
        KeyLessTransitive(k, ks[0], x);
      }
    }
  }

  lemma PrependAscending(k: GroupKey, ks: seq<GroupKey>)
    requires StrictlyAscending(ks)
    requires forall x :: x in ks ==> KeyLess(k, x)
    ensures StrictlyAscending([k] + ks)
  {
    forall i, j | 0 <= i < j < |[k] + ks| ensures KeyLess(([k] + ks)[i], ([k] + ks)[j]) {
      assert ([k] + ks)[j] == ks[j - 1];
      if i > 0 {
        assert ([k] + ks)[i] == ks[i - 1];
      }
    }
  }

  /** The distinct (department, priority) pairs of `cs`, in ascending order:
      every pair of `cs` is there, and every pair there has a complaint. */
  function SortedKeys(cs: seq<Complaint>): (ks: seq<GroupKey>)
    ensures StrictlyAscending(ks)
    ensures forall c :: c in cs ==> KeyOf(c) in ks
    ensures forall k :: k in ks ==> |Select(cs, KeyIs(k))| >= 1
  {
    if cs == [] then []
    else
      var ks := InsertKey(KeyOf(cs[0]), SortedKeys(cs[1..]));
      SortedKeysStep(cs, ks);
      ks
  }

  lemma SortedKeysStep(cs: seq<Complaint>, ks: seq<GroupKey>)
    requires cs != []
    requires forall c :: c in cs[1..] ==> KeyOf(c) in SortedKeys(cs[1..])
    requires forall k :: k in SortedKeys(cs[1..]) ==> |Select(cs[1..], KeyIs(k))| >= 1
    requires forall x :: x in ks <==> x in SortedKeys(cs[1..]) || x == KeyOf(cs[0])
    ensures forall c :: c in cs ==> KeyOf(c) in ks
    ensures forall k :: k in ks ==> |Select(cs, KeyIs(k))| >= 1
  {
    assert cs == [cs[0]] + cs[1..];
    forall k | k in ks ensures |Select(cs, KeyIs(k))| >= 1 {
      SelectCons(cs[0], cs[1..], KeyIs(k));
    }
  }

  /** One row per key, in the order of the keys. */
  function CountsPerKey(cs: seq<Complaint>, ks: seq<GroupKey>): (gs: seq<TicketCounts>)
    ensures |gs| == |ks|
    ensures forall i :: 0 <= i < |ks| ==> gs[i] == CountsFor(cs, ks[i])
  {
    if ks == [] then [] else [CountsFor(cs, ks[0])] + CountsPerKey(cs, ks[1..])
  }

  /** `values('assigned_department', 'priority').annotate(...).order_by('assigned_department', 'priority')`. */
  function Groups(cs: seq<Complaint>): seq<TicketCounts> {
    CountsPerKey(cs, SortedKeys(cs))
  }

  function GroupKeyOf(g: TicketCounts): GroupKey {
    (g.department, g.priority)
  }

  function SumTotals(gs: seq<TicketCounts>): nat {
    if gs == [] then 0 else gs[0].totalTickets + SumTotals(gs[1..])
  }

  /** The rows of the breakdown: ascending and unique pairs, each row the
      counts of its pair, each with at least one ticket, a row for every pair
      present, and none at all exactly when there are no complaints. */
  lemma GroupsShape(cs: seq<Complaint>)
    ensures var gs := Groups(cs);
      && (forall i, j :: 0 <= i < j < |gs| ==> KeyLess(GroupKeyOf(gs[i]), GroupKeyOf(gs[j])))
      && (forall i :: 0 <= i < |gs| ==> gs[i] == CountsFor(cs, GroupKeyOf(gs[i])))
      && (forall i :: 0 <= i < |gs| ==> gs[i].totalTickets >= 1)
      && (forall i :: 0 <= i < |gs| ==> gs[i].openTickets + gs[i].resolvedTickets <= gs[i].totalTickets)
      && (forall c :: c in cs ==> exists i :: 0 <= i < |gs| && GroupKeyOf(gs[i]) == KeyOf(c))
      && (gs == [] <==> cs == [])
  {
    var ks := SortedKeys(cs);
    var gs := Groups(cs);
    assert forall i :: 0 <= i < |gs| ==> GroupKeyOf(gs[i]) == ks[i];
    forall c | c in cs ensures exists i :: 0 <= i < |gs| && GroupKeyOf(gs[i]) == KeyOf(c) {
      var i :| 0 <= i < |ks| && ks[i] == KeyOf(c);
      assert GroupKeyOf(gs[i]) == KeyOf(c);
    }
    if cs != [] {
      assert KeyOf(cs[0]) in ks;
    }
    forall i | 0 <= i < |gs| ensures gs[i].totalTickets >= 1 {
      assert ks[i] in ks;
    }
  }

  /** How many times `k` appears in `ks`. */
  function Occurrences(ks: seq<GroupKey>, k: GroupKey): nat {
    if ks == [] then 0 else (if ks[0] == k then 1 else 0) + Occurrences(ks[1..], k)
  }

  lemma {:induction false} OccursOnce(ks: seq<GroupKey>, k: GroupKey)
    requires StrictlyAscending(ks)
    ensures Occurrences(ks, k) == if k in ks then 1 else 0
  {
    if ks != [] {
      OccursOnce(ks[1..], k);
      if ks[0] == k {
        forall j | 0 <= j < |ks[1..]| ensures ks[1..][j] != k {
          AscendingHasNoRepeats(ks, 0, j + 1);
        }
      }
    }
  }

  /** Adding one complaint adds one ticket to the row of each occurrence of its pair. */
  lemma {:induction false} SumTotalsCons(c: Complaint, cs: seq<Complaint>, ks: seq<GroupKey>)
    ensures SumTotals(CountsPerKey([c] + cs, ks)) == SumTotals(CountsPerKey(cs, ks)) + Occurrences(ks, KeyOf(c))
  {
    if ks != [] {
      SumTotalsCons(c, cs, ks[1..]);
      SelectCons(c, cs, KeyIs(ks[0]));
      MatchesKey(c, ks[0]);
    }
  }

  lemma {:induction false} SumTotalsEmpty(ks: seq<GroupKey>)
    ensures SumTotals(CountsPerKey([], ks)) == 0
  {
    if ks != [] {
      SumTotalsEmpty(ks[1..]);
    }
  }

  /** Rows over ascending keys that cover every pair of `cs` count every complaint once. */
  lemma {:induction false} SumOverCoveringKeys(cs: seq<Complaint>, ks: seq<GroupKey>)
    requires StrictlyAscending(ks)
    requires forall c :: c in cs ==> KeyOf(c) in ks
    ensures SumTotals(CountsPerKey(cs, ks)) == |cs|
  {
    if cs == [] {
      SumTotalsEmpty(ks);
    } else {
      assert cs == [cs[0]] + cs[1..];
      SumOverCoveringKeys(cs[1..], ks);
      SumTotalsCons(cs[0], cs[1..], ks);
      OccursOnce(ks, KeyOf(cs[0]));
    }
  }

  /** The groups partition the complaints: their totals add up to the count. */
  lemma GroupsPartition(cs: seq<Complaint>)
    ensures SumTotals(Groups(cs)) == |cs|
  {
    SumOverCoveringKeys(cs, SortedKeys(cs));
  }

  // ---- all_department_stats ----

  /** The four optional query parameters of `all_department_stats`; the
      submission date is the calendar day, already parsed. */
  datatype StatsQuery = StatsQuery(
    priority: Option<string>,
    department: Option<string>,
    status: Option<string>,
    submittedOn: Option<int>)

  /** The statistics rows, or the "No data found" message echoing the filters. */
  datatype StatsReport =
    | Breakdown(groups: seq<TicketCounts>)
    | NoData(filtersApplied: StatsQuery)

  /** The successive `queryset = queryset.filter(...)` of the view: each
      parameter that is given narrows the set, the others are skipped. */
  function Filtered(store: seq<Complaint>, q: StatsQuery): seq<Complaint> {
    var byPriority := if Given(q.priority) then Select(store, PriorityIs(q.priority.value)) else store;
    var byDepartment := if Given(q.department) then Select(byPriority, DepartmentIs(q.department.value)) else byPriority;
    var byStatus := if Given(q.status) then Select(byDepartment, StatusIs(q.status.value)) else byDepartment;
    if q.submittedOn.Some? then Select(byStatus, SubmittedOn(q.submittedOn.value)) else byStatus
  }

  /** The same filters as one conjunction. */
  function CriteriaOf(q: StatsQuery): Criteria {
    Criteria(
      if Given(q.department) then q.department else None,
      if Given(q.priority) then q.priority else None,
      if Given(q.status) then q.status else None,
      q.submittedOn)
  }

  lemma {:induction false} SelectEverything(cs: seq<Complaint>)
    ensures Select(cs, Criteria(None, None, None, None)) == cs
  {
    if cs != [] {
      SelectEverything(cs[1..]);
      assert cs == [cs[0]] + cs[1..];
    }
  }

  /** Field criteria that each leave the other fields free. */
  function Narrow(q: Criteria, r: Criteria): Criteria {
    Criteria(
      if r.department.Some? then r.department else q.department,
      if r.priority.Some? then r.priority else q.priority,
      if r.status.Some? then r.status else q.status,
      if r.day.Some? then r.day else q.day)
  }

  lemma NarrowStep(cs: seq<Complaint>, q: Criteria, r: Criteria)
    requires q.department.None? || r.department.None?
    requires q.priority.None? || r.priority.None?
    requires q.status.None? || r.status.None?
    requires q.day.None? || r.day.None?
    ensures Select(Select(cs, q), r) == Select(cs, Narrow(q, r))
  {
    SelectSelect(cs, q, r, Narrow(q, r));
  }

  /** Applying the filters one after another selects the complaints that meet
      all of the given ones. */
  lemma FilteredIsConjunction(store: seq<Complaint>, q: StatsQuery)
    ensures Filtered(store, q) == Select(store, CriteriaOf(q))
  {
    var none := Criteria(None, None, None, None);
    SelectEverything(store);
    var c1 := if Given(q.priority) then PriorityIs(q.priority.value) else none;
    var s1 := Select(store, c1);
    var c2 := if Given(q.department) then Narrow(c1, DepartmentIs(q.department.value)) else c1;
    if Given(q.department) { NarrowStep(store, c1, DepartmentIs(q.department.value)); }
    var c3 := if Given(q.status) then Narrow(c2, StatusIs(q.status.value)) else c2;
    if Given(q.status) { NarrowStep(store, c2, StatusIs(q.status.value)); }
    var c4 := if q.submittedOn.Some? then Narrow(c3, SubmittedOn(q.submittedOn.value)) else c3;
    if q.submittedOn.Some? { NarrowStep(store, c3, SubmittedOn(q.submittedOn.value)); }
    assert c4 == CriteriaOf(q);
  }

  /** Lines 200-219: group, and answer with the message when there is nothing. */
  function Tabulate(store: seq<Complaint>, q: StatsQuery): StatsReport {
    var stats := Groups(Filtered(store, q));
    if stats == [] then NoData(q) else Breakdown(stats)
  }

  predicate IsInvalidPriority(q: StatsQuery, choices: Choices) {
    Given(q.priority) && q.priority.value !in choices.priorities
  }

  /** `all_department_stats` as written: the invalid-priority branch evaluates
      `status.HTTP_400_BAD_REQUEST` while `status` is the local query value, so
      it raises instead of answering 400. */
  function AllDepartmentStatsAsWritten(store: seq<Complaint>, choices: Choices, q: StatsQuery): (r: Result<StatsReport>)
    ensures r.Err? <==> IsInvalidPriority(q, choices)
    ensures r.Err? ==> r.error == Unhandled
  {
    if IsInvalidPriority(q, choices) then Err(Unhandled) else Ok(Tabulate(store, q))
  }

  /** `all_department_stats` with the intended 400 for an invalid priority: a
      given priority outside the choices is refused; otherwise the answer is
      the breakdown of the complaints meeting every given filter, or the
      message echoing the four filters when none does. */
  function AllDepartmentStats(store: seq<Complaint>, choices: Choices, q: StatsQuery): (r: Result<StatsReport>)
    ensures r.Err? <==> IsInvalidPriority(q, choices)
    ensures r.Err? ==> r.error == InvalidPriority
    ensures r.Ok? ==> (r.value.NoData? <==> Select(store, CriteriaOf(q)) == [])
    ensures r.Ok? && r.value.NoData? ==> r.value.filtersApplied == q
    ensures r.Ok? && r.value.Breakdown? ==> r.value.groups == Groups(Select(store, CriteriaOf(q)))
  {
    if IsInvalidPriority(q, choices) then Err(InvalidPriority)
    else
      FilteredIsConjunction(store, q);
      GroupsShape(Filtered(store, q));
      Ok(Tabulate(store, q))
  }

  /** What a successful breakdown promises: unique pairs in ascending order,
      every row with at least one ticket and open + resolved <= total, the
      counts of each row those of its pair among the filtered complaints, and
      the totals adding up to the number of filtered complaints. */
  lemma BreakdownProperties(store: seq<Complaint>, choices: Choices, q: StatsQuery, gs: seq<TicketCounts>)
    requires AllDepartmentStats(store, choices, q) == Ok(Breakdown(gs))
    ensures forall i, j :: 0 <= i < j < |gs| ==> KeyLess(GroupKeyOf(gs[i]), GroupKeyOf(gs[j]))
    ensures forall i :: 0 <= i < |gs| ==> gs[i] == CountsFor(Select(store, CriteriaOf(q)), GroupKeyOf(gs[i]))
    ensures forall i :: 0 <= i < |gs| ==> 1 <= gs[i].totalTickets
    ensures forall i :: 0 <= i < |gs| ==> gs[i].openTickets + gs[i].resolvedTickets <= gs[i].totalTickets
    ensures SumTotals(gs) == |Select(store, CriteriaOf(q))|
  {
    GroupsShape(Select(store, CriteriaOf(q)));
    GroupsPartition(Select(store, CriteriaOf(q)));
  }

  /** The defect on a concrete request: `?priority=urgent` when "urgent" is
      not a priority choice raises, where a 400 was meant. */
  lemma UrgentPriorityRaises(store: seq<Complaint>)
    ensures var choices := Choices({}, {"open", "resolved"}, {"low", "medium", "high"});
      var q := StatsQuery(Some("urgent"), None, None, None);
      && AllDepartmentStatsAsWritten(store, choices, q) == Err(Unhandled)
      && AllDepartmentStats(store, choices, q) == Err(InvalidPriority)
  {
  }

  /** On every other request the view as written and the corrected one agree. */
  lemma AsWrittenAgreesOtherwise(store: seq<Complaint>, choices: Choices, q: StatsQuery)
    requires !IsInvalidPriority(q, choices)
    ensures AllDepartmentStatsAsWritten(store, choices, q) == AllDepartmentStats(store, choices, q)
  {
  }

  /** Each row of the unfiltered breakdown is what `department_priority_stats`
      answers for its pair, whenever that pair is a valid query. */
  lemma BreakdownAgreesWithPairQuery(store: seq<Complaint>, choices: Choices, i: int)
    requires 0 <= i < |Groups(store)|
    requires Groups(store)[i].department != "" && Groups(store)[i].priority != ""
    requires Groups(store)[i].priority in choices.priorities
    ensures var g := Groups(store)[i];
      DepartmentPriorityStats(store, choices, Some(g.department), Some(g.priority)) == Ok(g)
  {
    GroupsShape(store);
  }
}
