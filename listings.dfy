/** `ComplaintViewSet.by_status` and `ComplaintViewSet.by_priority`: one
    required query parameter, checked against a choice list, then the
    complaint listing (newest first) restricted to that value. */
module Listings {
  import opened Records
  import opened Queries

  /** `by_status`: the complaints whose status is the parameter, newest first. */
  function ByStatus(store: seq<Complaint>, choices: Choices, status: Option<string>): (r: Result<seq<Complaint>>)
    ensures r.Err? <==> !IsChoice(status, choices.complaintStatuses)
    ensures r.Err? ==> r.error == InvalidStatus
    ensures r.Ok? ==> NewestFirst(r.value) && r.value == Select(Newest(store), StatusIs(status.value))
  {
    if !IsChoice(status, choices.complaintStatuses) then Err(InvalidStatus)
    else
      SelectNewest(store, StatusIs(status.value));
      Ok(Newest(Select(store, StatusIs(status.value))))
  }

  /** `by_priority`: the complaints whose priority is the parameter, newest first. */
  function ByPriority(store: seq<Complaint>, choices: Choices, priority: Option<string>): (r: Result<seq<Complaint>>)
    ensures r.Err? <==> !IsChoice(priority, choices.priorities)
    ensures r.Err? ==> r.error == InvalidPriority
    ensures r.Ok? ==> NewestFirst(r.value) && r.value == Select(Newest(store), PriorityIs(priority.value))
  {
    if !IsChoice(priority, choices.priorities) then Err(InvalidPriority)
    else
      SelectNewest(store, PriorityIs(priority.value));
      Ok(Newest(Select(store, PriorityIs(priority.value))))
  }

  /** A successful listing holds exactly the complaints of the store whose
      field equals the parameter, each as often as the store does. */
  lemma {:induction false} ListingContents(store: seq<Complaint>, choices: Choices, param: Option<string>, c: Complaint)
    ensures ByStatus(store, choices, param).Ok? ==>
      multiset(ByStatus(store, choices, param).value)[c] == if c.status == param.value then multiset(store)[c] else 0
    ensures ByPriority(store, choices, param).Ok? ==>
      multiset(ByPriority(store, choices, param).value)[c] == if c.priority == param.value then multiset(store)[c] else 0
  {
    if param.Some? {
      SelectMultiset(store, StatusIs(param.value));
      SelectMultiset(store, PriorityIs(param.value));
    }
  }
}
