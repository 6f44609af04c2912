/**
 * The rows the dashboard reads and writes that several screens share: a
 * ticket as the list queries return it, an in-app notification and a
 * technician's attendance for one day.
 */
module Records {
  import opened Wrappers
  import Seqs

  /**
   * A ticket row. `ticketStatus` is the status code as stored; a missing
   * description, technician or timestamp is `None`.
   */
  datatype TicketRow = TicketRow(
    ticketId: string, title: string, description: Option<string>, ticketStatus: string,
    priority: string, technicianId: Option<string>, createdBy: string,
    needsApproval: bool, isDeleted: bool, archiveStatus: bool, updatedAt: Option<string>)

  /** A row of the `notifications` table: recipient, title, message, ticket and read flag. */
  datatype Notice = Notice(userId: string, title: string, message: string, ticketId: string, isRead: bool)

  /** The ticket with `is_deleted` set and nothing else changed. */
  function SoftDelete(t: TicketRow): (r: TicketRow)
    ensures r.isDeleted && r.(isDeleted := t.isDeleted) == t
  {
    t.(isDeleted := true)
  }

  /**
   * The tickets a technician's queries return: assigned to that technician
   * and not deleted, in query order.
   */
  function AssignedTo(rows: seq<TicketRow>, technicianId: string): (r: seq<TicketRow>)
    ensures forall i :: 0 <= i < |r| ==> r[i] in rows && r[i].technicianId == Some(technicianId) && !r[i].isDeleted
    ensures forall i :: 0 <= i < |rows| && rows[i].technicianId == Some(technicianId) && !rows[i].isDeleted ==>
      rows[i] in r
  {
    Seqs.Filter(rows, (t: TicketRow) => t.technicianId == Some(technicianId) && !t.isDeleted)
  }

  /**
   * A row of the `attendance` table. `status` is `present`, `absent` or
   * `half_day`; timestamps are kept as the stored strings.
   */
  datatype AttendanceRecord = AttendanceRecord(
    attendanceId: string, technicianId: string, date: string,
    checkIn: Option<string>, checkOut: Option<string>, status: string,
    isApproved: bool, approvedBy: Option<string>, approvedAt: Option<string>, updatedAt: Option<string>)

  /** JavaScript truthiness of an optional string: present and non-empty. */
  predicate Truthy(s: Option<string>) { s.Some? && s.value != "" }

  /** `value || null` for an optional text: an empty or missing text is stored as null. */
  function OrNull(s: Option<string>): (r: Option<string>)
    ensures r.None? <==> !Truthy(s)
    ensures r.Some? ==> r == s
  {
    if Truthy(s) then s else None
  }
}
