/** The relational meaning of the ORM calls the views make over the complaint
    table: `filter(...)` as a conjunction of field equalities, and the
    listing order `order_by('-submitted_at')`. */
module Queries {
  import opened Records

  /** The field equalities of one `filter(...)` call; `None` leaves a field unconstrained. */
  datatype Criteria = Criteria(
    department: Option<string>,
    priority: Option<string>,
    status: Option<string>,
    day: Option<int>)

  function DepartmentIs(d: string): Criteria { Criteria(Some(d), None, None, None) }
  function PriorityIs(p: string): Criteria { Criteria(None, Some(p), None, None) }
  function StatusIs(s: string): Criteria { Criteria(None, None, Some(s), None) }
  function SubmittedOn(day: int): Criteria { Criteria(None, None, None, Some(day)) }

  /** `submitted_at__date=day` compares the calendar day of the timestamp. */
  predicate Matches(c: Complaint, q: Criteria) {
    && (q.department.Some? ==> c.assignedDepartment == q.department.value)
    && (q.priority.Some? ==> c.priority == q.priority.value)
    && (q.status.Some? ==> c.status == q.status.value)
    && (q.day.Some? ==> DayOf(c.submittedAt) == q.day.value)
  }

  /** `queryset.filter(...)`: the matching complaints, in the order they come. */
  function Select(cs: seq<Complaint>, q: Criteria): (r: seq<Complaint>)
    ensures |r| <= |cs|
  {
    if cs == [] then []
    else if Matches(cs[0], q) then [cs[0]] + Select(cs[1..], q)
    else Select(cs[1..], q)
  }

  /** A selection keeps every matching complaint as often as the input holds
      it, and nothing else. */
  lemma {:induction false} SelectMultiset(cs: seq<Complaint>, q: Criteria)
    ensures forall c :: multiset(Select(cs, q))[c] == if Matches(c, q) then multiset(cs)[c] else 0
  {
    if cs != [] {
      SelectMultiset(cs[1..], q);
      assert cs == [cs[0]] + cs[1..];
    }
  }

  lemma SelectMembers(cs: seq<Complaint>, q: Criteria, c: Complaint)
    ensures c in Select(cs, q) <==> c in cs && Matches(c, q)
  {
    SelectMultiset(cs, q);
    assert c in Select(cs, q) <==> multiset(Select(cs, q))[c] > 0;
  }

  lemma SelectCons(c: Complaint, cs: seq<Complaint>, q: Criteria)
    ensures Select([c] + cs, q) == if Matches(c, q) then [c] + Select(cs, q) else Select(cs, q)
  {
    assert ([c] + cs)[0] == c && ([c] + cs)[1..] == cs;
  }

  /** Chained `filter` calls are one filter with the conjunction of their conditions. */
  lemma {:induction false} SelectSelect(cs: seq<Complaint>, a: Criteria, b: Criteria, both: Criteria)
    requires forall c :: Matches(c, both) <==> Matches(c, a) && Matches(c, b)
    ensures Select(Select(cs, a), b) == Select(cs, both)
  {
    if cs != [] {
      SelectSelect(cs[1..], a, b, both);
      SelectCons(cs[0], cs[1..], a);
      if Matches(cs[0], a) {
        SelectCons(cs[0], Select(cs[1..], a), b);
      }
      assert cs == [cs[0]] + cs[1..];
    }
  }

  /** Two conditions no complaint meets at once count at most the whole set. */
  lemma {:induction false} DisjointCounts(cs: seq<Complaint>, a: Criteria, b: Criteria)
    requires forall c :: !(Matches(c, a) && Matches(c, b))
    ensures |Select(cs, a)| + |Select(cs, b)| <= |cs|
  {
    if cs != [] {
      DisjointCounts(cs[1..], a, b);
    }
  }

  // ---- The listing order: newest first (`order_by('-submitted_at')`) ----

  predicate NewestFirst(cs: seq<Complaint>) {
    forall i, j :: 0 <= i < j < |cs| ==> cs[i].submittedAt >= cs[j].submittedAt
  }

  /** Places `c` before the first complaint that is not newer than it. */
  function Insert(c: Complaint, cs: seq<Complaint>): (r: seq<Complaint>)
    requires NewestFirst(cs)
    ensures NewestFirst(r)
    ensures multiset(r) == multiset(cs) + multiset{c}
    ensures |r| == |cs| + 1
  {
    if cs == [] || c.submittedAt >= cs[0].submittedAt then
      PrependNewest(c, cs);
      [c] + cs
    else
      var rest := Insert(c, cs[1..]);
      assert cs == [cs[0]] + cs[1..];
      NoNewerThanHead(cs, c, rest);
      PrependNewest(cs[0], rest);
      [cs[0]] + rest
  }

  lemma PrependNewest(x: Complaint, cs: seq<Complaint>)
    requires NewestFirst(cs)
    requires forall y :: y in cs ==> y.submittedAt <= x.submittedAt
    ensures NewestFirst([x] + cs)
  {
    forall i, j | 0 <= i < j < |[x] + cs|
      ensures ([x] + cs)[i].submittedAt >= ([x] + cs)[j].submittedAt
    {
      if i > 0 {
        assert ([x] + cs)[i] == cs[i - 1];
      }
      assert ([x] + cs)[j] == cs[j - 1];
    }
  }

  lemma NoNewerThanHead(cs: seq<Complaint>, c: Complaint, rest: seq<Complaint>)
    requires NewestFirst(cs) && cs != [] && c.submittedAt < cs[0].submittedAt
    requires multiset(rest) == multiset(cs[1..]) + multiset{c}
    ensures forall y :: y in rest ==> y.submittedAt <= cs[0].submittedAt
  {
    forall y | y in rest ensures y.submittedAt <= cs[0].submittedAt {
      assert multiset(rest)[y] > 0;
      if y != c {
        assert y in multiset(cs[1..]);
        var k :| 0 <= k < |cs[1..]| && cs[1..][k] == y;
        assert cs[k + 1] == y;
      }
    }
  }

  /** The store's complaints in listing order. Complaints submitted at the same
      instant keep their store order. */
  function Newest(cs: seq<Complaint>): (r: seq<Complaint>)
    ensures NewestFirst(r)
    ensures multiset(r) == multiset(cs)
  {
    if cs == [] then []
    else
      assert cs == [cs[0]] + cs[1..];
      Insert(cs[0], Newest(cs[1..]))
  }

  lemma NewestFirstBound(cs: seq<Complaint>, q: Criteria, x: Complaint)
    requires NewestFirst(cs) && cs != []
    requires x in Select(cs, q)
    ensures x.submittedAt <= cs[0].submittedAt
  {
    SelectMembers(cs, q, x);
  }

  /** Filtering commutes with inserting into a newest-first list. */
  lemma {:induction false} SelectInsert(c: Complaint, cs: seq<Complaint>, q: Criteria)
    requires NewestFirst(cs)
    ensures NewestFirst(Select(cs, q))
    ensures Select(Insert(c, cs), q) == if Matches(c, q) then Insert(c, Select(cs, q)) else Select(cs, q)
  {
    SelectNewestFirst(cs, q);
    if cs == [] {
    } else if c.submittedAt >= cs[0].submittedAt {
      SelectInsertFront(c, cs, q);
    } else {
      SelectInsert(c, cs[1..], q);
      SelectInsertBehind(c, cs, q);
    }
  }

  lemma SelectInsertFront(c: Complaint, cs: seq<Complaint>, q: Criteria)
    requires NewestFirst(cs) && NewestFirst(Select(cs, q))
    requires cs != [] && c.submittedAt >= cs[0].submittedAt
    ensures Select(Insert(c, cs), q) == if Matches(c, q) then Insert(c, Select(cs, q)) else Select(cs, q)
  {
    assert Insert(c, cs) == [c] + cs;
    SelectCons(c, cs, q);
    var sel := Select(cs, q);
    if Matches(c, q) && sel != [] {
      NewestFirstBound(cs, q, sel[0]);
      assert Insert(c, sel) == [c] + sel;
    }
  }

  lemma SelectInsertBehind(c: Complaint, cs: seq<Complaint>, q: Criteria)
    requires cs != [] && c.submittedAt < cs[0].submittedAt
    requires NewestFirst(cs) && NewestFirst(Select(cs, q)) && NewestFirst(Select(cs[1..], q))
    requires Select(Insert(c, cs[1..]), q) == if Matches(c, q) then Insert(c, Select(cs[1..], q)) else Select(cs[1..], q)
    ensures Select(Insert(c, cs), q) == if Matches(c, q) then Insert(c, Select(cs, q)) else Select(cs, q)
  {
    var head, tail := cs[0], cs[1..];
    assert cs == [head] + tail;
    assert Insert(c, cs) == [head] + Insert(c, tail);
    SelectCons(head, Insert(c, tail), q);
    SelectCons(head, tail, q);
    if Matches(head, q) {
      var sel := Select(cs, q);
      assert sel == [head] + Select(tail, q);
      if Matches(c, q) {
        InsertBehindHead(c, head, Select(tail, q));
      }
    }
  }

  lemma InsertBehindHead(c: Complaint, head: Complaint, cs: seq<Complaint>)
    requires c.submittedAt < head.submittedAt
    requires NewestFirst(cs) && NewestFirst([head] + cs)
    ensures Insert(c, [head] + cs) == [head] + Insert(c, cs)
  {
    var l := [head] + cs;
    assert l[0] == head && l[1..] == cs;
  }

  /** A selection of a newest-first list is newest first. */
  lemma {:induction false} SelectNewestFirst(cs: seq<Complaint>, q: Criteria)
    requires NewestFirst(cs)
    ensures NewestFirst(Select(cs, q))
  {
    if cs != [] {
      SelectNewestFirst(cs[1..], q);
      SelectCons(cs[0], cs[1..], q);
      assert cs == [cs[0]] + cs[1..];
      var rest := Select(cs[1..], q);
      forall x | x in rest ensures x.submittedAt <= cs[0].submittedAt {
        SelectMembers(cs[1..], q, x);
      }
    }
  }

  /** Sorting then filtering gives the same list as filtering then sorting:
      a filtered listing is a subsequence of the whole listing. */
  lemma {:induction false} SelectNewest(cs: seq<Complaint>, q: Criteria)
    ensures Select(Newest(cs), q) == Newest(Select(cs, q))
  {
    if cs != [] {
      SelectNewest(cs[1..], q);
      SelectInsert(cs[0], Newest(cs[1..]), q);
      SelectCons(cs[0], cs[1..], q);
      assert cs == [cs[0]] + cs[1..];
      if Matches(cs[0], q) {
        assert Select(cs, q)[0] == cs[0] && Select(cs, q)[1..] == Select(cs[1..], q);
      }
    }
  }
}
