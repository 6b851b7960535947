/** `TATViewSet.all_department_TATS`: the turnaround-time report over every
    complaint in the store. Durations are whole seconds; the '-' placeholder
    is a case of its own. */
module Turnaround {
  import opened Records

  /** A ticket's turnaround time, or '-'. */
  datatype Tat = Placeholder | Span(seconds: int)

  /** `average_tat`: '-', or the mean of `count` durations adding up to
      `total`, kept exact as the pair. */
  datatype AverageTat = NoAverage | Mean(total: int, count: nat)

  /** One entry of the report's `tickets` list. */
  datatype TicketTat = TicketTat(
    ticketId: string,
    submittedAt: Time,
    resolvedAt: Option<Time>,
    priority: string,
    status: string,
    tat: Tat)

  datatype TatReport = TatReport(totalTickets: nat, averageTat: AverageTat, tickets: seq<TicketTat>)

  /** `status='resolved', resolved_at__isnull=False`. */
  predicate IsTimed(c: Complaint) {
    c.status == "resolved" && c.resolvedAt.Some?
  }

  /** The `resolved_at - submitted_at` of every timed complaint, in store order. */
  function TimedDurations(cs: seq<Complaint>): (ds: seq<int>)
    ensures |ds| <= |cs|
  {
    if cs == [] then []
    else if IsTimed(cs[0]) then [cs[0].resolvedAt.value - cs[0].submittedAt] + TimedDurations(cs[1..])
    else TimedDurations(cs[1..])
  }

  function Sum(ds: seq<int>): int {
    if ds == [] then 0 else ds[0] + Sum(ds[1..])
  }

  /** `Avg('tat')` over the timed complaints, shown as '-' when there are none
      and when the mean is zero (a zero duration is false). */
  function AverageOf(cs: seq<Complaint>): (a: AverageTat)
    ensures a.NoAverage? <==> TimedDurations(cs) == [] || Sum(TimedDurations(cs)) == 0
    ensures a.Mean? ==> a.count == |TimedDurations(cs)| > 0 && a.total == Sum(TimedDurations(cs)) != 0
  {
    var ds := TimedDurations(cs);
    if ds == [] || Sum(ds) == 0 then NoAverage else Mean(Sum(ds), |ds|)
  }

  /** With no resolved ticket that carries a resolution time the average is '-'. */
  lemma {:induction false} NothingTimedMeansNoAverage(cs: seq<Complaint>)
    requires forall i :: 0 <= i < |cs| ==> !IsTimed(cs[i])
    ensures TimedDurations(cs) == []
    ensures AverageOf(cs) == NoAverage
  {
    if cs != [] {
      NothingTimedMeansNoAverage(cs[1..]);
    }
  }

  /** Conversely, a single resolved ticket with a resolution time gives the
      average something to be taken over. */
  lemma {:induction false} SomeTimedHasDurations(cs: seq<Complaint>, i: int)
    requires 0 <= i < |cs| && IsTimed(cs[i])
    ensures TimedDurations(cs) != []
    ensures AverageOf(cs).Mean? || Sum(TimedDurations(cs)) == 0
  {
    if i > 0 && !IsTimed(cs[0]) {
      SomeTimedHasDurations(cs[1..], i - 1);
    }
  }

  /** The positions of the timed complaints. */
  function TimedPositions(cs: seq<Complaint>): set<int> {
    set i | 0 <= i < |cs| && IsTimed(cs[i])
  }

  /** Shifting every element of a set by one keeps its size. */
  lemma {:induction false} ShiftedSize(s: set<int>)
    ensures |set j | j in s :: j + 1| == |s|
    decreases |s|
  {
    if s != {} {
      // A set with no element would be the empty set.
      if forall y :: y !in s {
        assert false;
      }
      var x :| x in s;
      ShiftedSize(s - {x});
      var smaller := set j | j in s - {x} :: j + 1;
      var all := set j | j in s :: j + 1;
      forall y | y in all && y != x + 1 ensures y in smaller {
        assert y - 1 in s - {x};
      }
      assert all == smaller + {x + 1};
      assert x + 1 !in smaller;
    }
  }

  /** The average is taken over one duration per timed complaint: exactly as
      many durations as there are resolved complaints with a resolution time. */
  lemma {:induction false} OneDurationPerTimedComplaint(cs: seq<Complaint>)
    ensures |TimedDurations(cs)| == |TimedPositions(cs)|
  {
    if cs != [] {
      OneDurationPerTimedComplaint(cs[1..]);
      var rest := TimedPositions(cs[1..]);
      var shifted := set j | j in rest :: j + 1;
      ShiftedSize(rest);
      forall i ensures i in TimedPositions(cs) - {0} <==> i in shifted {
        if i in TimedPositions(cs) - {0} {
          assert cs[1..][i - 1] == cs[i];
          assert i - 1 in rest;
        }
        if i in shifted {
          var j :| j in rest && i == j + 1;
          assert cs[1..][j] == cs[i];
        }
      }
      assert TimedPositions(cs) - {0} == shifted;
      if IsTimed(cs[0]) {
        assert TimedPositions(cs) == shifted + {0};
      } else {
        assert TimedPositions(cs) == shifted;
      }
    }
  }

  /** The durations of the '-'-free entries of a ticket list, in list order. */
  function Spans(tickets: seq<TicketTat>): seq<int> {
    if tickets == [] then []
    else if tickets[0].tat.Span? then [tickets[0].tat.seconds] + Spans(tickets[1..])
    else Spans(tickets[1..])
  }

  /** What the loop of the view puts in the list for each complaint. */
  predicate DescribesTicket(t: TicketTat, c: Complaint) {
    && t.ticketId == c.ticketId
    && t.submittedAt == c.submittedAt
    && t.resolvedAt == c.resolvedAt
    && t.priority == c.priority
    && t.status == c.status
    && (t.tat.Span? <==> IsTimed(c))
    && (t.tat.Span? ==> t.tat.seconds == c.resolvedAt.value - c.submittedAt)
  }

  /** The per-ticket TATs shown in the list are exactly the durations the
      average is taken over, in the same order. */
  lemma {:induction false} ListingMatchesAverage(cs: seq<Complaint>, tickets: seq<TicketTat>)
    requires |tickets| == |cs|
    requires forall i :: 0 <= i < |cs| ==> DescribesTicket(tickets[i], cs[i])
    ensures Spans(tickets) == TimedDurations(cs)
    ensures AverageOf(cs).Mean? ==>
      AverageOf(cs).total == Sum(Spans(tickets)) && AverageOf(cs).count == |Spans(tickets)|
  {
    if cs != [] {
      assert forall i :: 0 <= i < |cs[1..]| ==> DescribesTicket(tickets[1..][i], cs[1..][i]) by {
        forall i | 0 <= i < |cs[1..]| ensures DescribesTicket(tickets[1..][i], cs[1..][i]) {
          assert DescribesTicket(tickets[i + 1], cs[i + 1]);
        }
      }
      ListingMatchesAverage(cs[1..], tickets[1..]);
      assert DescribesTicket(tickets[0], cs[0]);
    }
  }

  /** The loop of lines 261-270: one entry per complaint, in the order the
      complaints are read. */
  method ListTickets(cs: seq<Complaint>) returns (tickets: seq<TicketTat>)
    ensures |tickets| == |cs|
    ensures forall i :: 0 <= i < |cs| ==> DescribesTicket(tickets[i], cs[i])
    ensures Spans(tickets) == TimedDurations(cs)
  {
    tickets := [];
    var i := 0;
    while i < |cs|
      invariant 0 <= i <= |cs|
      invariant |tickets| == i
      invariant forall k :: 0 <= k < i ==> DescribesTicket(tickets[k], cs[k])
    {
      var ticket := cs[i];
      var tat := if ticket.status == "resolved" && ticket.resolvedAt.Some?
        then Span(ticket.resolvedAt.value - ticket.submittedAt)
        else Placeholder;
      tickets := tickets + [TicketTat(ticket.ticketId, ticket.submittedAt, ticket.resolvedAt, ticket.priority, ticket.status, tat)];
      i := i + 1;
    }
    ListingMatchesAverage(cs, tickets);
  }

  /** `all_department_TATS` reading the current store on every request:
      `total_tickets` counts every complaint, `average_tat` is the mean over
      the timed ones (or '-'), and the list has one entry per complaint, in
      store order, whose TAT is the duration exactly when the complaint is
      resolved with a resolution time. */
  method AllDepartmentTats(store: seq<Complaint>) returns (report: TatReport)
    ensures report.totalTickets == |store|
    ensures report.averageTat == AverageOf(store)
    ensures |report.tickets| == |store|
    ensures forall i :: 0 <= i < |store| ==> DescribesTicket(report.tickets[i], store[i])
    ensures Spans(report.tickets) == TimedDurations(store)
  {
    var tickets := ListTickets(store);
    report := TatReport(|store|, AverageOf(store), tickets);
  }

  /** The view object as written. `self.queryset` is one QuerySet shared by
      every request the process serves; iterating it fills its result cache,
      and `count()` and later iterations answer from that cache. A `filter()`
      clone starts without a cache. */
  class TatViewSet {
    var resultCache: Option<seq<Complaint>>

    constructor ()
      ensures resultCache == None
    {
      resultCache := None;
    }

    /** `all_department_TATS` as written: the average is taken over the
        current store, but the count and the list come from the complaints
        the first request read. */
    method AllDepartmentTatsAsWritten(store: seq<Complaint>) returns (report: TatReport)
      modifies this
      ensures var listed := if old(resultCache).Some? then old(resultCache).value else store;
        && resultCache == Some(listed)
        && report.totalTickets == |listed|
        && report.averageTat == AverageOf(store)
        && |report.tickets| == |listed|
        && (forall i :: 0 <= i < |listed| ==> DescribesTicket(report.tickets[i], listed[i]))
    {
      var listed := if resultCache.Some? then resultCache.value else store;
      var tickets := ListTickets(listed);
      resultCache := Some(listed);
      report := TatReport(|listed|, AverageOf(store), tickets);
    }
  }

  /** The stale answer: after a first request over `before`, a second request
      over `after` still counts and lists `before`, while its average and the
      per-request view follow `after`. */
  method SecondRequestIsStale(before: seq<Complaint>, after: seq<Complaint>) returns (second: TatReport, current: TatReport)
    ensures second.totalTickets == |before| && |second.tickets| == |before|
    ensures forall i :: 0 <= i < |before| ==> DescribesTicket(second.tickets[i], before[i])
    ensures second.averageTat == AverageOf(after)
    ensures current.totalTickets == |after| && |current.tickets| == |after|
    ensures forall i :: 0 <= i < |after| ==> DescribesTicket(current.tickets[i], after[i])
  {
    var view := new TatViewSet();
    var first := view.AllDepartmentTatsAsWritten(before);
    second := view.AllDepartmentTatsAsWritten(after);
    current := AllDepartmentTats(after);
  }
}
