/** The actions that change the store: `RoomViewSet.update_status`,
    `ComplaintViewSet.perform_create` and `ComplaintViewSet.update_status`.
    The store holds the room table and the complaint table; each action
    looks its record up by key, validates, and updates that one record. */
module Store {
  import opened Records

  /** The primary key of a room. */
  function RoomId(r: Room): int { r.id }

  /** The lookup key of a complaint. */
  function TicketOf(c: Complaint): string { c.ticketId }

  /** No two records share a key. */
  predicate UniqueKeys<T, K(==)>(s: seq<T>, keyOf: T -> K) {
    forall i, j :: 0 <= i < j < |s| ==> keyOf(s[i]) != keyOf(s[j])
  }

  /** The lookup of `get_object()`: the position of the record with key `k`. */
  function IndexOfKey<T, K(==)>(s: seq<T>, keyOf: T -> K, k: K): (r: Option<nat>)
    ensures r.Some? ==> r.value < |s| && keyOf(s[r.value]) == k
    ensures r.None? <==> forall j :: 0 <= j < |s| ==> keyOf(s[j]) != k
  {
    if s == [] then None
    else if keyOf(s[0]) == k then Some(0)
    else match IndexOfKey(s[1..], keyOf, k)
      case None => None
      case Some(i) => Some(i + 1)
  }

  /** `submitted_by` of a new complaint: the username, or "Anonymous". */
  function SubmitterOf(user: User): string {
    match user
    case Anonymous => "Anonymous"
    case Authenticated(name) => name
  }

  /** `resolved_by` of a resolution: the username, or null. */
  function ResolverOf(user: User): Option<string> {
    match user
    case Anonymous => None
    case Authenticated(name) => Some(name)
  }

  /** The partial update that `ComplaintViewSet.update_status` saves once the
      new status is accepted. */
  function ApplyStatus(c: Complaint, newStatus: string, remarks: Option<string>, user: User, now: Time): (r: Complaint)
    ensures r.status == newStatus
    ensures r.remarks == (if remarks.Some? then remarks.value else "")
    ensures newStatus == "resolved" ==>
      && r.resolvedAt == Some(now)
      && r.resolvedBy == (if user.Authenticated? then Some(user.username) else None)
    ensures newStatus != "resolved" ==> r.resolvedAt == c.resolvedAt && r.resolvedBy == c.resolvedBy
    ensures r.(status := c.status, remarks := c.remarks, resolvedAt := c.resolvedAt, resolvedBy := c.resolvedBy) == c
  {
    var updated := c.(status := newStatus, remarks := remarks.GetOr(""));
    if newStatus == "resolved" then
      updated.(resolvedBy := ResolverOf(user), resolvedAt := Some(now))
    else
      updated
  }

  /** Resolving a ticket and then moving it to another status keeps the old
      resolution stamp: a ticket can be "open" with `resolved_at` set. */
  lemma ReopenedKeepsStamp(c: Complaint, reopen: string, r1: Option<string>, r2: Option<string>, u1: User, u2: User, t1: Time, t2: Time)
    requires reopen != "resolved"
    ensures var d := ApplyStatus(ApplyStatus(c, "resolved", r1, u1, t1), reopen, r2, u2, t2);
      d.status == reopen && d.resolvedAt == Some(t1) && d.resolvedBy == ResolverOf(u1)
  {
  }

  /** Resolving again re-stamps: the latest resolution time and resolver win. */
  lemma ResolvingAgainRestamps(c: Complaint, r1: Option<string>, r2: Option<string>, u1: User, u2: User, t1: Time, t2: Time)
    ensures ApplyStatus(ApplyStatus(c, "resolved", r1, u1, t1), "resolved", r2, u2, t2) == ApplyStatus(c, "resolved", r2, u2, t2)
  {
  }

  class ComplaintStore {
    var rooms: seq<Room>
    var complaints: seq<Complaint>
    const choices: Choices

    ghost predicate Valid()
      reads this
    {
      UniqueKeys(rooms, RoomId) && UniqueKeys(complaints, TicketOf)
    }

    constructor (choices: Choices, rooms: seq<Room>, complaints: seq<Complaint>)
      requires UniqueKeys(rooms, RoomId) && UniqueKeys(complaints, TicketOf)
      ensures Valid()
      ensures this.choices == choices && this.rooms == rooms && this.complaints == complaints
    {
      this.choices := choices;
      this.rooms := rooms;
      this.complaints := complaints;
    }

    /** `RoomViewSet.update_status`: an unknown room is not found; a status
        outside the room choices is refused and nothing changes; otherwise the
        room's status, and nothing else, becomes the requested value. */
    method UpdateRoomStatus(id: int, newStatus: Option<string>) returns (r: Result<Room>)
      requires Valid()
      modifies this`rooms
      ensures Valid()
      ensures IndexOfKey(old(rooms), RoomId, id).None? ==> r == Err(NotFound) && rooms == old(rooms)
      ensures IndexOfKey(old(rooms), RoomId, id).Some? && !IsChoice(newStatus, choices.roomStatuses) ==>
        r == Err(InvalidStatus) && rooms == old(rooms)
      ensures IndexOfKey(old(rooms), RoomId, id).Some? && IsChoice(newStatus, choices.roomStatuses) ==>
        var i := IndexOfKey(old(rooms), RoomId, id).value;
        && rooms == old(rooms)[i := old(rooms)[i].(status := newStatus.value)]
        && r == Ok(rooms[i])
        && (forall j :: 0 <= j < |rooms| && j != i ==> rooms[j].id != id)
    {
      var found := IndexOfKey(rooms, RoomId, id);
      if found.None? {
        return Err(NotFound);
      }
      if !IsChoice(newStatus, choices.roomStatuses) {
        return Err(InvalidStatus);
      }
      var i := found.value;
      rooms := rooms[i := rooms[i].(status := newStatus.value)];
      r := Ok(rooms[i]);
    }

    /** `ComplaintViewSet.perform_create`: stores the validated submission with
        `submitted_by` set from the caller. The generic create validates the
        submission first, so its ticket id is not yet taken. */
    method Submit(draft: Complaint, user: User) returns (created: Complaint)
      requires Valid()
      requires IndexOfKey(complaints, TicketOf, draft.ticketId).None?
      modifies this`complaints
      ensures Valid()
      ensures created == draft.(submittedBy := if user.Authenticated? then user.username else "Anonymous")
      ensures complaints == old(complaints) + [created]
    {
      created := draft.(submittedBy := SubmitterOf(user));
      complaints := complaints + [created];
    }

    /** `ComplaintViewSet.update_status`: an unknown ticket is not found; a
        status outside the complaint choices is refused and nothing changes;
        otherwise that one complaint takes the transition of `ApplyStatus`. */
    method UpdateComplaintStatus(ticketId: string, newStatus: Option<string>, remarks: Option<string>, user: User, now: Time)
      returns (r: Result<Complaint>)
      requires Valid()
      modifies this`complaints
      ensures Valid()
      ensures IndexOfKey(old(complaints), TicketOf, ticketId).None? ==> r == Err(NotFound) && complaints == old(complaints)
      ensures IndexOfKey(old(complaints), TicketOf, ticketId).Some? && !IsChoice(newStatus, choices.complaintStatuses) ==>
        r == Err(InvalidStatus) && complaints == old(complaints)
      ensures IndexOfKey(old(complaints), TicketOf, ticketId).Some? && IsChoice(newStatus, choices.complaintStatuses) ==>
        var i := IndexOfKey(old(complaints), TicketOf, ticketId).value;
        && complaints == old(complaints)[i := ApplyStatus(old(complaints)[i], newStatus.value, remarks, user, now)]
        && r == Ok(complaints[i])
        && (forall j :: 0 <= j < |complaints| && j != i ==> complaints[j].ticketId != ticketId)
    {
      var found := IndexOfKey(complaints, TicketOf, ticketId);
      if found.None? {
        return Err(NotFound);
      }
      if !IsChoice(newStatus, choices.complaintStatuses) {
        return Err(InvalidStatus);
      }
      var i := found.value;
      complaints := complaints[i := ApplyStatus(complaints[i], newStatus.value, remarks, user, now)];
      r := Ok(complaints[i]);
    }
  }
}
