/**
 * The ticket action bar: which controls a user sees for a ticket, the
 * statuses its buttons request, the archive write and the assignment guard.
 */
module TicketActions {
  import opened Wrappers
  import opened Records
  import Notifications
  import TicketUpdates
  import WhatsApp

  /** What the action bar renders. */
  datatype ActionsView =
    | Updating
    | ApproveReject
    | WorkButtons(startDisabled: bool, completeDisabled: bool)
    | AwaitingApproval
    | DefaultActions(adminTools: bool)

  const ApproveTarget: string := "in_queue"
  const RejectTarget: string := "rejected"
  const StartTarget: string := "in_progress"
  const CompleteTarget: string := "complete"

  /**
   * The rendering decision, in this order of precedence: a pending update, an
   * admin on a ticket awaiting approval, a technician on an approved
   * ticket, a technician on a ticket awaiting approval, everyone else.
   */
  function View(isLoading: bool, isAdmin: bool, isTechnician: bool, needsApproval: bool, status: string): (r: ActionsView)
    ensures r == Updating <==> isLoading
    ensures r == ApproveReject <==> !isLoading && isAdmin && needsApproval
    ensures r.WorkButtons? <==> !isLoading && !(isAdmin && needsApproval) && isTechnician && !needsApproval
    ensures r == AwaitingApproval <==> !isLoading && !isAdmin && isTechnician && needsApproval
    ensures r.WorkButtons? ==> (r.startDisabled <==> status == StartTarget) && (r.completeDisabled <==> status == CompleteTarget)
    ensures r.DefaultActions? ==> (r.adminTools <==> isAdmin)
  {
    if isLoading then Updating
    else if isAdmin && needsApproval then ApproveReject
    else if isTechnician && !needsApproval then WorkButtons(status == StartTarget, status == CompleteTarget)
    else if isTechnician && needsApproval then AwaitingApproval
    else DefaultActions(isAdmin)
  }

  /** A technician on a ticket awaiting approval gets no status action, whatever else holds. */
  lemma PendingTechnicianHasNoActions(isAdmin: bool, status: string)
    ensures var v := View(false, isAdmin, true, true, status);
      !v.WorkButtons? && (v == ApproveReject || v == AwaitingApproval)
  {
  }

  /** A user who is both admin and technician sees the admin's approval buttons first. */
  lemma AdminApprovalFirst(status: string)
    ensures View(false, true, true, true, status) == ApproveReject
  {
  }

  /** `handleApprove`: the status update to `in_queue`. */
  function Approve(ticketId: string, response: Result<Option<Notifications.Properties>, string>,
                   notify: TicketUpdates.Notifier): (r: TicketUpdates.Run)
    ensures |r.effects| > 1 && r.effects[1] == TicketUpdates.WriteTicket(ticketId, [TicketUpdates.Field("status", ApproveTarget)])
  {
    TicketUpdates.UpdateTicketStatus(ticketId, ApproveTarget, response, notify)
  }

  /** `handleReject`: the status update to `rejected`. */
  function Reject(ticketId: string, response: Result<Option<Notifications.Properties>, string>,
                  notify: TicketUpdates.Notifier): (r: TicketUpdates.Run)
    ensures |r.effects| > 1 && r.effects[1] == TicketUpdates.WriteTicket(ticketId, [TicketUpdates.Field("status", RejectTarget)])
  {
    TicketUpdates.UpdateTicketStatus(ticketId, RejectTarget, response, notify)
  }

  /**
   * Approving or rejecting sends no WhatsApp message when the returned row
   * carries the written status: neither `in_queue` nor `rejected` has an
   * entry in the notification table.
   */
  lemma ApproveRejectSilent(ticketId: string, row: Notifications.Properties, rcp: Notifications.Recipients,
                            c: WhatsApp.Config, gateway: WhatsApp.Request -> Result<string, string>)
    requires Notifications.Read(row, "status") in [Some(ApproveTarget), Some(RejectTarget)]
    ensures var r := Approve(ticketId, Ok(Some(row)), TicketUpdates.Service(rcp, c, gateway));
      r.error.None? && forall i :: 0 <= i < |r.effects| ==> !r.effects[i].Send?
    ensures var r := Reject(ticketId, Ok(Some(row)), TicketUpdates.Service(rcp, c, gateway));
      r.error.None? && forall i :: 0 <= i < |r.effects| ==> !r.effects[i].Send?
  {
    ServiceSilent(row, rcp, c, gateway);
    var notify := TicketUpdates.Service(rcp, c, gateway);
    TicketUpdates.QuietNotifier(ticketId, [TicketUpdates.Field("status", ApproveTarget)], row, notify);
    TicketUpdates.QuietNotifier(ticketId, [TicketUpdates.Field("status", RejectTarget)], row, notify);
  }

  /** The notification service sends nothing, and reports no error, for a row in either target status. */
  lemma ServiceSilent(row: Notifications.Properties, rcp: Notifications.Recipients,
                      c: WhatsApp.Config, gateway: WhatsApp.Request -> Result<string, string>)
    requires Notifications.Read(row, "status") in [Some(ApproveTarget), Some(RejectTarget)]
    ensures TicketUpdates.Service(rcp, c, gateway)(row) == Notifications.Outcome([], None)
  {
    assert Notifications.Read(row, "status").value !in Notifications.NotifiedStatuses;
  }

  /** `handleArchive`: sets `archive_status` and nothing else, when the store accepts it. */
  function Archive(t: TicketRow, ok: bool): (r: TicketRow)
    ensures ok ==> r.archiveStatus && r.(archiveStatus := t.archiveStatus) == t
    ensures !ok ==> r == t
  {
    if ok then t.(archiveStatus := true) else t
  }

  /** An archived ticket stays on every list built from the row: no list filters on the archive flag. */
  lemma ArchiveStaysListed(t: TicketRow, ok: bool, technicianId: string)
    ensures (Archive(t, ok) in AssignedTo([Archive(t, ok)], technicianId)) <==> (t in AssignedTo([t], technicianId))
  {
  }

  /**
   * The row after an update of `fields`, for the columns the row type
   * holds: `technician_id` and `ticket_status`, the later write winning. A
   * column the row type does not hold, such as `status`, leaves it as it is.
   */
  function Applied(t: TicketRow, fields: seq<TicketUpdates.Field>): (r: TicketRow)
    ensures r.(technicianId := t.technicianId, ticketStatus := t.ticketStatus) == t
    ensures (forall i :: 0 <= i < |fields| ==> fields[i].column != "technician_id") ==> r.technicianId == t.technicianId
    ensures (forall i :: 0 <= i < |fields| ==> fields[i].column != "ticket_status") ==> r.ticketStatus == t.ticketStatus
    ensures |fields| > 0 && fields[|fields| - 1].column == "technician_id" ==> r.technicianId == Some(fields[|fields| - 1].value)
    ensures |fields| > 0 && fields[|fields| - 1].column == "ticket_status" ==> r.ticketStatus == fields[|fields| - 1].value
    decreases |fields|
  {
    if |fields| == 0 then t
    else
      var before := Applied(t, fields[..|fields| - 1]);
      var f := fields[|fields| - 1];
      assert forall i :: 0 <= i < |fields| - 1 ==> fields[..|fields| - 1][i] == fields[i];
      if f.column == "technician_id" then before.(technicianId := Some(f.value))
      else if f.column == "ticket_status" then before.(ticketStatus := f.value)
      else before
  }

  /** The outcome of the assign dialog: the update run, if one was started, and whether the dialog closes. */
  datatype AssignResult = AssignResult(run: Option<TicketUpdates.Run>, closes: bool)

  /**
   * `handleAssignTechnician`: without a selected technician (none, or the
   * empty string) nothing is written; otherwise the hook's assignment runs
   * and the dialog closes only if it did not throw.
   */
  function Assign(ticketId: string, selected: Option<string>, response: Result<Option<Notifications.Properties>, string>,
                  notify: TicketUpdates.Notifier): (r: AssignResult)
    ensures r.run.None? <==> selected.None? || selected.value == ""
    ensures r.run.Some? ==>
              (|r.run.value.effects| > 1 &&
               r.run.value.effects[1] == TicketUpdates.WriteTicket(ticketId,
                 [TicketUpdates.Field("technician_id", selected.value), TicketUpdates.Field("status", "assigned")]))
    ensures r.closes <==> r.run.Some? && r.run.value.error.None?
  {
    if selected.None? || selected.value == "" then AssignResult(None, false)
    else
      var run := TicketUpdates.AssignTechnician(ticketId, selected.value, response, notify);
      AssignResult(Some(run), run.error.None?)
  }

  /**
   * An assignment the store accepts puts a live ticket on the selected technician's
   * list and on no other technician's. The status written goes to the
   * column `status`, which the row type does not hold, so `ticket_status`
   * keeps its value.
   */
  lemma AssignedListed(t: TicketRow, technicianId: string, other: string, response: Result<Option<Notifications.Properties>, string>,
                       notify: TicketUpdates.Notifier)
    requires technicianId != "" && !t.isDeleted && other != technicianId && response.Ok?
    ensures var r := Assign(t.ticketId, Some(technicianId), response, notify);
      var a := Applied(t, r.run.value.effects[1].fields);
      a in AssignedTo([a], technicianId) && a !in AssignedTo([a], other) && a.ticketStatus == t.ticketStatus
  {
    var fields := [TicketUpdates.Field("technician_id", technicianId), TicketUpdates.Field("status", "assigned")];
    var a := Applied(t, fields);
    assert Applied(t, fields[..1]).technicianId == Some(technicianId);
    assert a.technicianId == Some(technicianId);
    assert AssignedTo([a], technicianId) == [a];
  }
}
