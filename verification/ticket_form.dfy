/**
 * The new-ticket form: its schema, the record a submit inserts, the
 * follow-up assignment for admins and the notifications a technician's
 * ticket raises for every admin.
 */
module TicketForm {
  import opened Wrappers
  import opened Records
  import Seqs
  import TicketsPage

  const IssueTypes: seq<string> := ["hardware", "software", "network", "other"]
  const TicketTypes: seq<string> := ["customer", "internal"]
  const DeviceTypes: seq<string> := ["LAPTOP", "DESKTOP", "ALL-IN-ONE", "OTHERS"]
  const DeviceStatuses: seq<string> := ["WORKING", "NOT_WORKING"]
  const Priorities: seq<string> := ["low", "medium", "high", "critical"]
  const DefaultPriority: string := "medium"

  /** The form values; a field the form never set is `None`. */
  datatype FormData = FormData(
    customerId: Option<string>, title: string, description: string,
    issueType: string, ticketType: string, deviceType: string,
    deviceBrand: string, serialNumber: string, deviceStatus: string,
    priority: Option<string>, technicianId: Option<string>, comment: Option<string>)

  /** The values the schema lets through, with the priority defaulted. */
  datatype TicketInput = TicketInput(
    customerId: string, title: string, description: string,
    issueType: string, ticketType: string, deviceType: string,
    deviceBrand: string, serialNumber: string, deviceStatus: string,
    priority: string, technicianId: Option<string>, comment: Option<string>)

  /** The schema's fields. */
  datatype FieldName =
    | CustomerId | Title | Description | IssueType | TicketType | DeviceType
    | DeviceBrand | SerialNumber | DeviceStatus | Priority

  /** The fields in schema order. */
  const Fields: seq<FieldName> := [
    CustomerId, Title, Description, IssueType, TicketType, DeviceType,
    DeviceBrand, SerialNumber, DeviceStatus, Priority
  ]

  /** Where a field sits in `Fields`. */
  function Position(f: FieldName): (i: nat)
    ensures i < |Fields| && Fields[i] == f
  {
    match f
    case CustomerId => 0
    case Title => 1
    case Description => 2
    case IssueType => 3
    case TicketType => 4
    case DeviceType => 5
    case DeviceBrand => 6
    case SerialNumber => 7
    case DeviceStatus => 8
    case Priority => 9
  }

  /** Whether the schema rejects field `f` of `d`. */
  predicate Fails(d: FormData, f: FieldName) {
    match f
    case CustomerId => !Truthy(d.customerId)
    case Title => |d.title| == 0
    case Description => |d.description| == 0
    case IssueType => d.issueType !in IssueTypes
    case TicketType => d.ticketType !in TicketTypes
    case DeviceType => d.deviceType !in DeviceTypes
    case DeviceBrand => |d.deviceBrand| == 0
    case SerialNumber => |d.serialNumber| == 0
    case DeviceStatus => d.deviceStatus !in DeviceStatuses
    case Priority => d.priority.Some? && d.priority.value !in Priorities
  }

  /** The fields the schema rejects, in schema order; every field is checked. */
  function Issues(d: FormData): (r: seq<FieldName>)
    ensures forall f :: f in r <==> Fails(d, f)
  {
    var keep := (f: FieldName) => Fails(d, f);
    var r := Seqs.Filter(Fields, keep);
    forall f ensures f in r <==> Fails(d, f) {
      Seqs.FilterMember(Fields, keep, f);
      assert Fields[Position(f)] == f;
    }
    r
  }

  /** `ticketSchema`: the parsed input, or the rejected fields. A missing priority becomes `medium`. */
  function Validate(d: FormData): (r: Result<TicketInput, seq<FieldName>>)
    ensures r.Ok? <==> Issues(d) == []
    ensures r.Err? ==> r.error == Issues(d) && |r.error| > 0
    ensures r.Ok? ==> r.value.priority == d.priority.GetOr(DefaultPriority)
    ensures r.Ok? ==> Some(r.value.customerId) == d.customerId && r.value.title == d.title &&
                      r.value.technicianId == d.technicianId && r.value.comment == d.comment
  {
    var issues := Issues(d);
    if issues != [] then Err(issues)
    else
      assert CustomerId !in issues;
      Ok(TicketInput(d.customerId.value, d.title, d.description, d.issueType, d.ticketType, d.deviceType,
                     d.deviceBrand, d.serialNumber, d.deviceStatus, d.priority.GetOr(DefaultPriority),
                     d.technicianId, d.comment))
  }

  /** Input the schema accepts carries one of the four priorities and only the enumerated values it allows. */
  lemma ValidatedInRange(d: FormData)
    requires Issues(d) == []
    ensures d.priority.GetOr(DefaultPriority) in Priorities
    ensures d.issueType in IssueTypes && d.ticketType in TicketTypes
    ensures d.deviceType in DeviceTypes && d.deviceStatus in DeviceStatuses
    ensures Truthy(d.customerId) && |d.title| > 0 && |d.description| > 0
    ensures |d.deviceBrand| > 0 && |d.serialNumber| > 0
  {
    var issues := Issues(d);
    assert Priority !in issues && IssueType !in issues && TicketType !in issues && DeviceType !in issues;
    assert DeviceStatus !in issues && CustomerId !in issues && Title !in issues && Description !in issues;
    assert DeviceBrand !in issues && SerialNumber !in issues;
    assert DefaultPriority == Priorities[1];
  }

  /** The form's blank defaults (no customer, empty texts) are rejected on exactly the five text fields. */
  lemma BlankDefaultsRejected(f: FieldName)
    ensures var d := FormData(None, "", "", "hardware", "customer", "LAPTOP", "", "", "WORKING", Some("medium"), None, Some(""));
      f in Issues(d) <==> f in {CustomerId, Title, Description, DeviceBrand, SerialNumber}
  {
    var d := FormData(None, "", "", "hardware", "customer", "LAPTOP", "", "", "WORKING", Some("medium"), None, Some(""));
    assert d.issueType == IssueTypes[0] && d.ticketType == TicketTypes[0];
    assert d.deviceType == DeviceTypes[0] && d.deviceStatus == DeviceStatuses[0] && d.priority.value == Priorities[1];
    BlankTextsRejected(d, f);
  }

  /** A form with no customer and empty texts, whose choices are all allowed, is rejected on exactly those five fields. */
  lemma BlankTextsRejected(d: FormData, f: FieldName)
    requires d.customerId.None? && d.title == d.description == d.deviceBrand == d.serialNumber == ""
    requires d.issueType in IssueTypes && d.ticketType in TicketTypes
    requires d.deviceType in DeviceTypes && d.deviceStatus in DeviceStatuses
    requires d.priority.None? || d.priority.value in Priorities
    ensures f in Issues(d) <==> f in {CustomerId, Title, Description, DeviceBrand, SerialNumber}
  {
    var blank := f == CustomerId || f == Title || f == Description || f == DeviceBrand || f == SerialNumber;
    assert Fails(d, f) <==> blank;
    assert f in Issues(d) <==> Fails(d, f);
  }

  /** The row a submit inserts. */
  datatype NewTicket = NewTicket(
    input: TicketInput, ticketStatus: string, technicianId: Option<string>, comment: Option<string>,
    createdBy: string, needsApproval: bool)

  /** What a submit does: the row it inserts, the follow-up assignment, the notices for admins, the error shown. */
  datatype SubmitOutcome = SubmitOutcome(
    inserted: Option<NewTicket>, assignedFollowUp: Option<string>, notices: seq<Notice>, error: Option<string>)

  function AdminNotice(admin: string, technicianName: string, title: string, ticketId: string): Notice {
    Notice(admin, "New Ticket Generated",
           "Technician " + technicianName + " has created a new ticket \"" + title + "\" that needs assignment.",
           ticketId, false)
  }

  /**
   * `onSubmit` for validated input. `user` is the session's user id,
   * `insert` the store's answer (the new ticket id or an error message),
   * `admins` the admin profiles found (`None` when the lookup yields
   * nothing; its failures are swallowed), `currentName` the creator's
   * display name. `editing` is the ticket the form was opened with, which
   * the submit ignores.
   */
  function Submit(input: TicketInput, isTechnician: bool, user: Option<string>, insert: Result<string, string>,
                  admins: Option<seq<string>>, currentName: string, editing: Option<string>): (r: SubmitOutcome)
    ensures user.None? ==> r == SubmitOutcome(None, None, [], Some("No user found"))
    ensures r.inserted.Some? <==> user.Some?
    ensures r.inserted.Some? ==>
              (r.inserted.value.ticketStatus == "in_queue" && r.inserted.value.needsApproval == isTechnician &&
               r.inserted.value.createdBy == user.value &&
               r.inserted.value.technicianId == (if isTechnician then None else input.technicianId) &&
               r.inserted.value.comment == OrNull(input.comment))
    ensures r.error.None? <==> user.Some? && insert.Ok?
    ensures r.assignedFollowUp.Some? <==>
      user.Some? && insert.Ok? && !isTechnician && Truthy(input.technicianId)
    ensures r.assignedFollowUp.Some? ==> r.assignedFollowUp.value == insert.value
    ensures |r.notices| > 0 ==> user.Some? && insert.Ok? && isTechnician && admins.Some?
    ensures user.Some? && insert.Ok? && isTechnician && admins.Some? ==>
      |r.notices| == |admins.value| &&
      forall i :: 0 <= i < |r.notices| ==>
        (r.notices[i].userId == admins.value[i] && r.notices[i].title == "New Ticket Generated" &&
         r.notices[i].ticketId == insert.value && !r.notices[i].isRead)
  {
    match user
    case None => SubmitOutcome(None, None, [], Some("No user found"))
    case Some(u) =>
      var row := NewTicket(input, "in_queue", if isTechnician then None else input.technicianId,
                           OrNull(input.comment), u, isTechnician);
      match insert
      case Err(msg) => SubmitOutcome(Some(row), None, [], Some("Failed to create ticket: " + msg))
      case Ok(id) =>
        var followUp := if !isTechnician && Truthy(input.technicianId) then Some(id) else None;
        var notices := if isTechnician && admins.Some? then
          seq(|admins.value|, i requires 0 <= i < |admins.value| => AdminNotice(admins.value[i], currentName, input.title, id))
          else [];
        SubmitOutcome(Some(row), followUp, notices, None)
  }

  /** The submit creates a new row whatever ticket the form was opened with. */
  lemma SubmitIgnoresEditing(input: TicketInput, isTechnician: bool, user: Option<string>, insert: Result<string, string>,
                             admins: Option<seq<string>>, currentName: string, editing: string)
    ensures Submit(input, isTechnician, user, insert, admins, currentName, Some(editing))
            == Submit(input, isTechnician, user, insert, admins, currentName, None)
  {
  }

  /** The ticket row as the list queries later see it, before any other change. */
  function AsRow(t: NewTicket, id: string): (r: TicketRow)
    ensures r.ticketId == id && r.ticketStatus == t.ticketStatus && r.needsApproval == t.needsApproval &&
            r.createdBy == t.createdBy && !r.isDeleted
  {
    TicketRow(id, t.input.title, Some(t.input.description), t.ticketStatus, t.input.priority, t.technicianId,
              t.createdBy, t.needsApproval, false, false, None)
  }

  /**
   * A technician's new ticket lands in the admins' generated list, but
   * never in the technician's own pending-approval tab: that tab is built
   * from the main list, which leaves out `in_queue`.
   */
  lemma TechnicianTicketOnlyGenerated(input: TicketInput, user: string, id: string, admins: Option<seq<string>>,
                                      currentName: string, others: seq<TicketRow>, selected: Option<string>)
    ensures var t := Submit(input, true, Some(user), Ok(id), admins, currentName, None).inserted.value;
      var row := AsRow(t, id);
      row in TicketsPage.Generated(others + [row]) && row !in TicketsPage.Pending(others + [row], selected, user)
  {
    var t := Submit(input, true, Some(user), Ok(id), admins, currentName, None).inserted.value;
    var row := AsRow(t, id);
    assert (others + [row])[|others|] == row;
  }
}
