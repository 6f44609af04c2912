/**
 * The technician's dashboard: ticket statistics over the technician's own
 * tickets, the pending-approval list, today's check-in and check-out, and
 * which attendance buttons show.
 */
module TechnicianDashboard {
  import opened Wrappers
  import Seqs
  import opened Records
  import TicketForm

  /** The dashboard's ticket statistics. */
  datatype Stats = Stats(total: nat, completed: nat, inProgress: nat, pending: nat)

  predicate IsCompleted(t: TicketRow) { t.ticketStatus == "complete" }
  predicate IsInProgress(t: TicketRow) { t.ticketStatus == "in_progress" }
  predicate IsPending(t: TicketRow) { t.ticketStatus in ["in_queue", "assigned"] }

  /**
   * The statistics: the number of tickets, and how many are `complete`,
   * `in_progress`, or `in_queue`/`assigned`. The three groups never
   * overlap, so together they count at most the total.
   */
  function TicketStats(tickets: seq<TicketRow>): (r: Stats)
    ensures r.total == |tickets|
    ensures r.completed == Seqs.Count(tickets, IsCompleted)
    ensures r.inProgress == Seqs.Count(tickets, IsInProgress)
    ensures r.pending == Seqs.Count(tickets, IsPending)
    ensures r.completed + r.inProgress + r.pending <= r.total
  {
    var completed := Seqs.Count(tickets, IsCompleted);
    var inProgress := Seqs.Count(tickets, IsInProgress);
    var pending := Seqs.Count(tickets, IsPending);
    Seqs.CountDisjointBound(tickets, IsCompleted, IsInProgress, IsPending);
    Stats(|tickets|, completed, inProgress, pending)
  }

  /** The pie chart's slices, in order. */
  function StatusData(s: Stats): (r: seq<(string, nat)>)
    ensures |r| == 3 && r[0] == ("Completed", s.completed) && r[1] == ("In Progress", s.inProgress)
    ensures r[2] == ("Pending", s.pending)
  {
    [("Completed", s.completed), ("In Progress", s.inProgress), ("Pending", s.pending)]
  }

  /** The pending-approval list: the user's own tickets awaiting approval with status `generated`. */
  function PendingApproval(rows: seq<TicketRow>, userId: string): (r: seq<TicketRow>)
    ensures forall i :: 0 <= i < |r| ==>
      r[i] in rows && r[i].createdBy == userId && r[i].needsApproval && r[i].ticketStatus == "generated"
    ensures forall i :: 0 <= i < |rows| ==>
      (rows[i].createdBy == userId && rows[i].needsApproval && rows[i].ticketStatus == "generated" ==> rows[i] in r)
  {
    Seqs.Filter(rows, (t: TicketRow) => t.createdBy == userId && t.needsApproval && t.ticketStatus == "generated")
  }

  /**
   * The list asks for `generated`, but the ticket form writes `in_queue`:
   * a ticket the technician has just created never appears in it.
   */
  lemma NewTicketNeverPending(input: TicketForm.TicketInput, user: string, id: string, admins: Option<seq<string>>,
                              currentName: string, others: seq<TicketRow>)
    ensures var t := TicketForm.Submit(input, true, Some(user), Ok(id), admins, currentName, None).inserted.value;
      TicketForm.AsRow(t, id) !in PendingApproval(others + [TicketForm.AsRow(t, id)], user)
  {
  }

  /** The dashboard's main branch: skeleton while loading, then the user error, then the dashboard. */
  datatype Screen = Skeleton | LoadError | Dashboard

  function Show(isLoading: bool, isLoadingAttendance: bool, userError: bool): (r: Screen)
    ensures r == Skeleton <==> isLoading || isLoadingAttendance
    ensures r == LoadError <==> !isLoading && !isLoadingAttendance && userError
  {
    if isLoading || isLoadingAttendance then Skeleton
    else if userError then LoadError
    else Dashboard
  }

  /** The session's user as the auth call reports it: an error, no user, or the user id. */
  type Auth = Result<Option<string>, string>

  /** The error an auth lookup throws, if any. */
  function AuthError(auth: Auth): (r: Option<string>)
    ensures r.None? <==> auth.Ok? && auth.value.Some?
  {
    match auth
    case Err(e) => Some(e)
    case Ok(None) => Some("Not authenticated")
    case Ok(Some(_)) => None
  }

  /**
   * The check-in mutation. `existing` is today's row for the user, if any,
   * and `insertError` the store's answer to the insert. On success the
   * result is the inserted row: today's date, `check_in` now, status
   * `present`. A failure is reported with the prefix of the error toast.
   */
  function CheckIn(auth: Auth, existing: Option<AttendanceRecord>, newId: string, today: string, now: string,
                   insertError: Option<string>): (r: Result<AttendanceRecord, string>)
    ensures r.Ok? <==> AuthError(auth).None? && existing.None? && insertError.None?
    ensures AuthError(auth).None? && existing.Some? ==> r == Err("Failed to check in: Already checked in for today")
    ensures r.Ok? ==>
              (r.value.technicianId == auth.value.value && r.value.date == today && r.value.checkIn == Some(now) &&
               r.value.checkOut.None? && r.value.status == "present" && !r.value.isApproved)
  {
    match AuthError(auth)
    case Some(e) => Err("Failed to check in: " + e)
    case None =>
      if existing.Some? then Err("Failed to check in: Already checked in for today")
      else if insertError.Some? then Err("Failed to check in: " + insertError.value)
      else Ok(AttendanceRecord(newId, auth.value.value, today, Some(now), None, "present", false, None, None, None))
  }

  /**
   * The check-out mutation on today's row as last fetched: without a row
   * it is refused; otherwise `check_out` and `updated_at` are set to now
   * and nothing else changes. An existing `check_out` is overwritten.
   */
  function CheckOut(auth: Auth, today: Option<AttendanceRecord>, now: string, updateError: Option<string>)
    : (r: Result<AttendanceRecord, string>)
    ensures r.Ok? <==> AuthError(auth).None? && today.Some? && today.value.attendanceId != "" && updateError.None?
    ensures AuthError(auth).None? && today.None? ==> r == Err("Failed to check out: No check-in record found for today")
    ensures r.Ok? ==> r.value == today.value.(checkOut := Some(now), updatedAt := Some(now))
  {
    match AuthError(auth)
    case Some(e) => Err("Failed to check out: " + e)
    case None =>
      if today.None? || today.value.attendanceId == "" then Err("Failed to check out: No check-in record found for today")
      else if updateError.Some? then Err("Failed to check out: " + updateError.value)
      else Ok(today.value.(checkOut := Some(now), updatedAt := Some(now)))
  }

  /** "Check In" shows while today's row has no check-in: no row, or a check-in stored as null. */
  predicate ShowCheckIn(today: Option<AttendanceRecord>): (r: bool)
    ensures today.None? ==> r
    ensures today.Some? ==> (r <==> OrNull(today.value.checkIn).None?)
  {
    !(today.Some? && Truthy(today.value.checkIn))
  }

  /** "Check Out" shows once checked in and until checked out: a stored check-in and a null check-out. */
  predicate ShowCheckOut(today: Option<AttendanceRecord>): (r: bool)
    ensures r <==> today.Some? && OrNull(today.value.checkIn).Some? && OrNull(today.value.checkOut).None?
  {
    today.Some? && Truthy(today.value.checkIn) && !Truthy(today.value.checkOut)
  }

  /** The two buttons never show together. */
  lemma OneButtonAtATime(today: Option<AttendanceRecord>)
    ensures !(ShowCheckIn(today) && ShowCheckOut(today))
  {
  }

  /**
   * The day's cycle: with no row, only "Check In" shows; a successful
   * check-in shows only "Check Out" and refuses a second check-in; a
   * successful check-out then shows neither.
   */
  lemma DayCycle(user: string, newId: string, today: string, inAt: string, outAt: string)
    requires inAt != "" && outAt != "" && newId != ""
    ensures ShowCheckIn(None) && !ShowCheckOut(None)
    ensures var a := CheckIn(Ok(Some(user)), None, newId, today, inAt, None);
      a.Ok? && !ShowCheckIn(Some(a.value)) && ShowCheckOut(Some(a.value)) &&
      CheckIn(Ok(Some(user)), Some(a.value), newId, today, inAt, None).Err?
    ensures var a := CheckIn(Ok(Some(user)), None, newId, today, inAt, None).value;
      var b := CheckOut(Ok(Some(user)), Some(a), outAt, None);
      b.Ok? && !ShowCheckIn(Some(b.value)) && !ShowCheckOut(Some(b.value))
  {
  }

  /** The migration step runs for admins only. */
  function RunsMigrations(role: Option<string>): (r: bool)
    ensures r <==> role == Some("admin")
  {
    match role
    case Some(name) => name == "admin"
    case None => false
  }
}
