/** The records of the complaint store and the values a request carries in:
    rooms and complaints, the fixed choice lists, the calling user, and the
    outcome of an action (a value or a client error). */
module Records {

  datatype Option<+T> = None | Some(value: T) {
    /** The wrapped value, or `default` when there is none (`dict.get(k, default)`). */
    function GetOr(default: T): T {
      if Some? then value else default
    }
  }

  /** The error bodies the actions answer with. `Unhandled` stands for an
      exception that escapes the view (a server error, not a 400). */
  datatype Error =
    | NotFound
    | InvalidStatus
    | InvalidPriority
    | MissingParameters
    | Unhandled

  datatype Result<+T> = Ok(value: T) | Err(error: Error)

  /** The caller of a request: anonymous, or an authenticated user with a username. */
  datatype User = Anonymous | Authenticated(username: string)

  /** The keys of the models' fixed choice lists (`Room.STATUS_CHOICES`,
      `Complaint.STATUS_CHOICES`, `Complaint.PRIORITY_CHOICES`). */
  datatype Choices = Choices(roomStatuses: set<string>, complaintStatuses: set<string>, priorities: set<string>)

  /** A point in time, in whole seconds since the epoch (UTC). */
  type Time = int

  const SECONDS_PER_DAY: int := 86400

  /** The calendar day of a timestamp, counted in days since the epoch. */
  function DayOf(t: Time): (d: int)
    ensures d * SECONDS_PER_DAY <= t < (d + 1) * SECONDS_PER_DAY
  {
    t / SECONDS_PER_DAY
  }

  /** A room/bed unit; `id` is its primary key. */
  datatype Room = Room(
    id: int,
    roomNo: string,
    bedNo: string,
    block: string,
    ward: string,
    speciality: string,
    roomType: string,
    status: string)

  /** A complaint ticket; `ticketId` is its lookup key. */
  datatype Complaint = Complaint(
    ticketId: string,
    roomNumber: string,
    bedNumber: string,
    block: string,
    ward: string,
    issueType: string,
    assignedDepartment: string,
    priority: string,
    status: string,
    description: string,
    submittedAt: Time,
    submittedBy: string,
    resolvedAt: Option<Time>,
    resolvedBy: Option<string>,
    remarks: string)

  /** A query or body parameter that Python treats as true: present and not empty. */
  predicate Given(p: Option<string>) {
    p.Some? && p.value != ""
  }

  /** `p in dict(CHOICES)`: present and one of the keys (an absent value is never a key). */
  predicate IsChoice(p: Option<string>, keys: set<string>) {
    p.Some? && p.value in keys
  }
}
