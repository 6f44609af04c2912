/**
 * The ticket-update hook: a status change or an assignment is written
 * first, the WhatsApp notifications for the returned row are sent after it,
 * and any failure is reported and passed on to the caller. The run is
 * recorded as the sequence of its effects.
 */
module TicketUpdates {
  import opened Wrappers
  import Notifications
  import WhatsApp

  /** One column written by an update. */
  datatype Field = Field(column: string, value: string)

  /** What the hook does, in order. */
  datatype Effect =
    | Loading(on: bool)
    | WriteTicket(ticketId: string, fields: seq<Field>)
    | Send(job: Notifications.Job)
    | Refresh

  /** The effects of a call and the error it throws, if any. */
  datatype Run = Run(effects: seq<Effect>, error: Option<string>)

  /** The sends of a delivery, as effects. */
  function SendEffects(jobs: seq<Notifications.Job>): (r: seq<Effect>)
    ensures |r| == |jobs| && forall i :: 0 <= i < |r| ==> r[i] == Send(jobs[i])
  {
    seq(|jobs|, i requires 0 <= i < |jobs| => Send(jobs[i]))
  }

  /**
   * The effects of a call whose notification sends got through `sent` and
   * stopped with `error`: loading on, the write, the sends, a refresh only
   * when nothing failed, loading off.
   */
  function Trace(ticketId: string, fields: seq<Field>, sent: seq<Notifications.Job>, error: Option<string>): (r: Run)
    ensures |r.effects| >= 3 + |sent| && r.effects[0] == Loading(true) && r.effects[1] == WriteTicket(ticketId, fields)
    ensures r.effects[|r.effects| - 1] == Loading(false)
    ensures r.effects[2..2 + |sent|] == SendEffects(sent)
    ensures forall i :: 0 <= i < |r.effects| && r.effects[i].Send? ==> 2 <= i < 2 + |sent|
    ensures r.error == error
    ensures r.error.None? <==> Refresh in r.effects
  {
    var sends := SendEffects(sent);
    var tail := if error.None? then [Refresh, Loading(false)] else [Loading(false)];
    var effects := [Loading(true), WriteTicket(ticketId, fields)] + sends + tail;
    assert effects[2..2 + |sent|] == sends;
    assert forall i :: 0 <= i < |effects| && i != 2 + |sent| ==> effects[i] != Refresh;
    assert error.None? ==> effects[2 + |sent|] == Refresh;
    Run(effects, error)
  }

  /** The notification service for a returned row: which jobs went out and the error that stopped them. */
  type Notifier = Notifications.Properties -> Notifications.Outcome

  /** The WhatsApp notification service with its recipients, client configuration and gateway. */
  function Service(rcp: Notifications.Recipients, c: WhatsApp.Config,
                   gateway: WhatsApp.Request -> Result<string, string>): Notifier {
    row => Notifications.SendStatusChangeNotifications(row, rcp, c, gateway)
  }

  /**
   * The shared shape of both hook functions. `response` is the store's
   * answer to the update: an error, or the updated row if one came back.
   * The notification service runs only on a returned row.
   */
  function WriteThenNotify(ticketId: string, fields: seq<Field>, response: Result<Option<Notifications.Properties>, string>,
                           notify: Notifier): (r: Run)
    ensures |r.effects| >= 3 && r.effects[0] == Loading(true) && r.effects[1] == WriteTicket(ticketId, fields)
    ensures r.effects[|r.effects| - 1] == Loading(false)
    ensures forall i :: 0 <= i < |r.effects| && r.effects[i].Send? ==> 2 <= i && response.Ok? && response.value.Some?
    ensures response.Err? ==> r.error == Some(response.error)
    ensures response.Ok? && response.value.None? ==> r.error.None?
    ensures response.Ok? && response.value.Some? ==>
      var o := notify(response.value.value);
      |r.effects| >= 2 + |o.sent| && r.effects[2..2 + |o.sent|] == SendEffects(o.sent) && r.error == o.error
    ensures r.error.None? <==> Refresh in r.effects
  {
    match response
    case Err(e) => Trace(ticketId, fields, [], Some(e))
    case Ok(None) => Trace(ticketId, fields, [], None)
    case Ok(Some(row)) =>
      var o := notify(row);
      Trace(ticketId, fields, o.sent, o.error)
  }

  /** `updateTicketStatus`: writes the new status to the column named `status`. */
  function UpdateTicketStatus(ticketId: string, newStatus: string, response: Result<Option<Notifications.Properties>, string>,
                              notify: Notifier): (r: Run)
    ensures |r.effects| > 1 && r.effects[1] == WriteTicket(ticketId, [Field("status", newStatus)])
  {
    WriteThenNotify(ticketId, [Field("status", newStatus)], response, notify)
  }

  /** `assignTechnician`: writes the technician and the `assigned` status in one update. */
  function AssignTechnician(ticketId: string, technicianId: string, response: Result<Option<Notifications.Properties>, string>,
                            notify: Notifier): (r: Run)
    ensures |r.effects| > 1 && r.effects[1] == WriteTicket(ticketId, [Field("technician_id", technicianId), Field("status", "assigned")])
  {
    WriteThenNotify(ticketId, [Field("technician_id", technicianId), Field("status", "assigned")], response, notify)
  }

  /** A failed update sends nothing and throws its error. */
  lemma UpdateErrorSendsNothing(ticketId: string, fields: seq<Field>, e: string, notify: Notifier)
    ensures var r := WriteThenNotify(ticketId, fields, Err(e), notify);
      r.error == Some(e) && forall i :: 0 <= i < |r.effects| ==> !r.effects[i].Send?
  {
  }

  /** A row the service has nothing to send for makes a quiet, successful call. */
  lemma QuietNotifier(ticketId: string, fields: seq<Field>, row: Notifications.Properties, notify: Notifier)
    requires notify(row) == Notifications.Outcome([], None)
    ensures var r := WriteThenNotify(ticketId, fields, Ok(Some(row)), notify);
      r.error.None? && forall i :: 0 <= i < |r.effects| ==> !r.effects[i].Send?
  {
  }

  /**
   * A failing send is thrown to the caller although the update is already
   * written: the write precedes it and the data is not refreshed.
   */
  lemma SendFailureAfterWrite(ticketId: string, fields: seq<Field>, row: Notifications.Properties, notify: Notifier)
    requires notify(row).error.Some?
    ensures var r := WriteThenNotify(ticketId, fields, Ok(Some(row)), notify);
      r.effects[1] == WriteTicket(ticketId, fields) && r.error == notify(row).error && Refresh !in r.effects
  {
  }

  /**
   * With the WhatsApp service and every send succeeding, the planned jobs
   * all go out, after the write, and the call succeeds.
   */
  lemma AllSent(ticketId: string, fields: seq<Field>, row: Notifications.Properties,
                rcp: Notifications.Recipients, c: WhatsApp.Config,
                gateway: WhatsApp.Request -> Result<string, string>)
    requires forall req :: gateway(req).Ok?
    ensures var r := WriteThenNotify(ticketId, fields, Ok(Some(row)), Service(rcp, c, gateway));
      var plan := Notifications.Plan(Notifications.TicketView(row), rcp);
      |r.effects| >= 2 + |plan| && r.error.None? && r.effects[2..2 + |plan|] == SendEffects(plan)
  {
    var o := Notifications.SendStatusChangeNotifications(row, rcp, c, gateway);
    assert Service(rcp, c, gateway)(row) == o;
    assert forall j :: Notifications.Sent(j, c, gateway).Ok?;
    assert o.error.None?;
  }

  /**
   * Assigning a technician whose phone is known, on a store that returns the
   * row with the written status: the one message sent is the technician's
   * `ticket_assigned`, with the ticket id and customer name undefined.
   */
  lemma AssignmentMessage(ticketId: string, technicianId: string, row: Notifications.Properties,
                          rcp: Notifications.Recipients, c: WhatsApp.Config,
                          gateway: WhatsApp.Request -> Result<string, string>)
    requires Notifications.StoreRow(row) && Notifications.Read(row, "status") == Some("assigned")
    requires rcp.technicianPhone.Some? && rcp.technicianPhone.value != ""
    requires forall req :: gateway(req).Ok?
    ensures var r := AssignTechnician(ticketId, technicianId, Ok(Some(row)), Service(rcp, c, gateway));
      r.error.None? && |r.effects| == 5 &&
      r.effects[2] == Send(Notifications.Job(Notifications.Technician, rcp.technicianPhone.value, "ticket_assigned",
                                             [None, None, Notifications.Read(row, "description")]))
  {
    Notifications.AssignedStoreRow(row, rcp);
    AllSent(ticketId, [Field("technician_id", technicianId), Field("status", "assigned")], row, rcp, c, gateway);
  }

  /** A returned row without a `status` property sends nothing and the call succeeds. */
  lemma NoStatusPropertySilent(ticketId: string, fields: seq<Field>, row: Notifications.Properties,
                               rcp: Notifications.Recipients, c: WhatsApp.Config,
                               gateway: WhatsApp.Request -> Result<string, string>)
    requires "status" !in row
    ensures var r := WriteThenNotify(ticketId, fields, Ok(Some(row)), Service(rcp, c, gateway));
      r.error.None? && forall i :: 0 <= i < |r.effects| ==> !r.effects[i].Send?
  {
    assert Service(rcp, c, gateway)(row) == Notifications.Outcome([], None);
    QuietNotifier(ticketId, fields, row, Service(rcp, c, gateway));
  }
}
