/**
 * Status-change notifications: the table from a ticket status to the
 * template and variables each audience receives, the gated and ordered list
 * of sends it produces, and the send loop that stops at the first failure.
 */
module Notifications {
  import opened Wrappers
  import WhatsApp

  /**
   * A JavaScript object with text-valued properties, such as the ticket row
   * the store hands back: a property it lacks (or holds `null` in) reads as
   * `undefined`.
   */
  type Properties = map<string, string>

  /** Reading one property; `None` is `undefined`. */
  function Read(o: Properties, name: string): (r: Option<string>)
    ensures r.Some? <==> name in o
    ensures r.Some? ==> o[name] == r.value
  {
    if name in o then Some(o[name]) else None
  }

  /**
   * The ticket properties the table reads, under the camel-case names it
   * reads them by, each `None` where the object does not have it.
   */
  datatype Ticket = Ticket(
    status: Option<string>, ticketId: Option<string>, customerName: Option<string>, description: Option<string>,
    pickupDate: Option<string>, pickupTime: Option<string>, deliveryDate: Option<string>, deliveryTime: Option<string>,
    estimateAmount: Option<string>)

  /** What the table sees of an object. */
  function TicketView(o: Properties): Ticket {
    Ticket(Read(o, "status"), Read(o, "ticketId"), Read(o, "customerName"), Read(o, "description"),
           Read(o, "pickupDate"), Read(o, "pickupTime"), Read(o, "deliveryDate"), Read(o, "deliveryTime"),
           Read(o, "estimateAmount"))
  }

  /** A property name without capital letters, as the store's column names are. */
  predicate SnakeCase(name: string) {
    forall i :: 0 <= i < |name| ==> !('A' <= name[i] <= 'Z')
  }

  /** An object whose every property is named in the store's style: a row as the store returns it. */
  predicate StoreRow(o: Properties) {
    forall name :: name in o ==> SnakeCase(name)
  }

  /**
   * On a row as the store returns it, every camel-case property the table
   * reads is `undefined`: only `status` and `description` can have a value.
   */
  lemma StoreRowCamelCaseUndefined(o: Properties)
    requires StoreRow(o)
    ensures var t := TicketView(o);
      && t.ticketId.None? && t.customerName.None?
      && t.pickupDate.None? && t.pickupTime.None? && t.deliveryDate.None? && t.deliveryTime.None?
      && t.estimateAmount.None?
  {
    assert "ticketId"[6] == 'I' && !SnakeCase("ticketId");
    assert "customerName"[8] == 'N' && !SnakeCase("customerName");
    assert "pickupDate"[6] == 'D' && !SnakeCase("pickupDate");
    assert "pickupTime"[6] == 'T' && !SnakeCase("pickupTime");
    assert "deliveryDate"[8] == 'D' && !SnakeCase("deliveryDate");
    assert "deliveryTime"[8] == 'T' && !SnakeCase("deliveryTime");
    assert "estimateAmount"[8] == 'A' && !SnakeCase("estimateAmount");
  }

  /** A template name and its positional variables, each `None` where it reads `undefined`. */
  datatype Spec = Spec(template: string, variables: seq<Option<string>>)

  /** What one status sends to each audience; `None` where the table has no (or a null) entry. */
  datatype StatusEntry = StatusEntry(client: Option<Spec>, admin: Option<Spec>, technician: Option<Spec>)

  datatype Audience = Client | Admin | Technician

  datatype Recipients = Recipients(clientPhone: string, technicianPhone: Option<string>, adminPhone: string)

  /** One message to send. */
  datatype Job = Job(audience: Audience, to: string, template: string, variables: seq<Option<string>>)

  /** The statuses the table has an entry for. */
  const NotifiedStatuses: seq<string> := [
    "generated", "assigned", "in_progress", "pickup_scheduled", "product_received",
    "estimate_sent", "approval_received", "delivery_scheduled", "done"
  ]

  /** The per-status table, looked up by the ticket's status code. */
  function StatusTemplates(t: Ticket): (r: Option<StatusEntry>)
    ensures r.Some? <==> t.status.Some? && t.status.value in NotifiedStatuses
  {
    var name, id := t.customerName, t.ticketId;
    if t.status.None? then None
    else match t.status.value
    case "generated" => Some(StatusEntry(
      Some(Spec("query_received", [name, id])),
      Some(Spec("new_ticket_generated", [id, name, t.description])),
      None))
    case "assigned" => Some(StatusEntry(
      None,
      None,
      Some(Spec("ticket_assigned", [id, name, t.description]))))
    case "in_progress" => Some(StatusEntry(
      Some(Spec("technician_started", [name, id])),
      Some(Spec("technician_started", [id, name])),
      None))
    case "pickup_scheduled" => Some(StatusEntry(
      Some(Spec("pickup_scheduled", [name, t.pickupDate, t.pickupTime])),
      Some(Spec("pickup_scheduled", [id, name, t.pickupDate, t.pickupTime])),
      None))
    case "product_received" => Some(StatusEntry(
      Some(Spec("product_received", [name, id])),
      Some(Spec("product_received", [id, name])),
      None))
    case "estimate_sent" => Some(StatusEntry(
      Some(Spec("estimate_sent", [name, id, t.estimateAmount])),
      None,
      None))
    case "approval_received" => Some(StatusEntry(
      None,
      Some(Spec("approval_received", [id, name])),
      None))
    case "delivery_scheduled" => Some(StatusEntry(
      Some(Spec("delivery_scheduled", [name, t.deliveryDate, t.deliveryTime])),
      Some(Spec("delivery_scheduled", [id, name, t.deliveryDate, t.deliveryTime])),
      None))
    case "done" => Some(StatusEntry(
      Some(Spec("feedback", [name, id])),
      Some(Spec("generate_invoice", [id, name])),
      None))
    case _ => None
  }

  function SpecFor(e: StatusEntry, a: Audience): Option<Spec> {
    match a
    case Client => e.client
    case Admin => e.admin
    case Technician => e.technician
  }

  /** The phone of an audience; a missing technician phone reads as the empty (falsy) string. */
  function PhoneFor(rcp: Recipients, a: Audience): string {
    match a
    case Client => rcp.clientPhone
    case Admin => rcp.adminPhone
    case Technician => rcp.technicianPhone.GetOr("")
  }

  /** The send order: client, then admin, then technician. */
  function Rank(a: Audience): nat {
    match a
    case Client => 0
    case Admin => 1
    case Technician => 2
  }

  /** The job for one audience, present when the entry names a template and the phone is non-empty. */
  function JobFor(e: StatusEntry, rcp: Recipients, a: Audience): seq<Job> {
    match SpecFor(e, a)
    case Some(s) => if PhoneFor(rcp, a) != "" then [Job(a, PhoneFor(rcp, a), s.template, s.variables)] else []
    case None => []
  }

  /** The audience receives a job from the plan. */
  predicate Targets(jobs: seq<Job>, a: Audience) {
    exists i :: 0 <= i < |jobs| && jobs[i].audience == a
  }

  /**
   * The messages a status change sends, in order. An audience gets a job
   * exactly when the status entry has a template for it and its phone is
   * non-empty; every job goes to that audience's phone with that template;
   * audiences appear in strictly increasing send order, so at most once each.
   */
  function Plan(t: Ticket, rcp: Recipients): (r: seq<Job>)
    ensures StatusTemplates(t).None? ==> r == []
    ensures forall a: Audience :: Targets(r, a) <==>
      StatusTemplates(t).Some? && SpecFor(StatusTemplates(t).value, a).Some? && PhoneFor(rcp, a) != ""
    ensures forall i :: 0 <= i < |r| ==>
      r[i].to == PhoneFor(rcp, r[i].audience) && r[i].to != "" &&
      SpecFor(StatusTemplates(t).value, r[i].audience) == Some(Spec(r[i].template, r[i].variables))
    ensures forall i, j :: 0 <= i < j < |r| ==> Rank(r[i].audience) < Rank(r[j].audience)
  {
    match StatusTemplates(t)
    case None => []
    case Some(e) =>
      EntryPlanTargets(e, rcp);
      EntryPlanJobs(e, rcp);
      EntryPlanOrder(e, rcp);
      EntryPlan(e, rcp)
  }

  /** The jobs of one status entry: client, admin, technician, each when present. */
  function EntryPlan(e: StatusEntry, rcp: Recipients): seq<Job> {
    JobFor(e, rcp, Client) + JobFor(e, rcp, Admin) + JobFor(e, rcp, Technician)
  }

  /** An audience is targeted exactly when the entry has a template for it and its phone is set. */
  lemma EntryPlanTargets(e: StatusEntry, rcp: Recipients)
    ensures forall a: Audience :: Targets(EntryPlan(e, rcp), a) <==> SpecFor(e, a).Some? && PhoneFor(rcp, a) != ""
  {
    var r := EntryPlan(e, rcp);
    forall a: Audience ensures Targets(r, a) <==> JobFor(e, rcp, a) != [] {
      if JobFor(e, rcp, a) != [] {
        var k := |JobFor(e, rcp, Client)| * (if a == Client then 0 else 1)
               + |JobFor(e, rcp, Admin)| * (if a == Technician then 1 else 0);
        assert r[k].audience == a;
      }
    }
  }

  /** Each job goes to its audience's phone with the entry's template for that audience. */
  lemma EntryPlanJobs(e: StatusEntry, rcp: Recipients)
    ensures forall i :: 0 <= i < |EntryPlan(e, rcp)| ==>
      EntryPlan(e, rcp)[i].to == PhoneFor(rcp, EntryPlan(e, rcp)[i].audience) && EntryPlan(e, rcp)[i].to != "" &&
      SpecFor(e, EntryPlan(e, rcp)[i].audience) == Some(Spec(EntryPlan(e, rcp)[i].template, EntryPlan(e, rcp)[i].variables))
  {
  }

  /** The jobs follow the send order. */
  lemma EntryPlanOrder(e: StatusEntry, rcp: Recipients)
    ensures forall i, j :: 0 <= i < j < |EntryPlan(e, rcp)| ==> Rank(EntryPlan(e, rcp)[i].audience) < Rank(EntryPlan(e, rcp)[j].audience)
  {
  }

  /**
   * A status the table does not know (among them the codes the database
   * stores), or no status property at all, sends nothing.
   */
  lemma UnknownStatusesAreSilent(t: Ticket, rcp: Recipients)
    requires t.status.None? || t.status.value in ["in_queue", "pickup", "on_hold", "complete"]
    ensures Plan(t, rcp) == []
  {
  }

  /** `assigned` reaches the technician alone, with the assignment template. */
  lemma AssignedOnlyTechnician(t: Ticket, rcp: Recipients)
    requires t.status == Some("assigned")
    ensures !Targets(Plan(t, rcp), Client) && !Targets(Plan(t, rcp), Admin)
    ensures PhoneFor(rcp, Technician) != "" ==>
      Plan(t, rcp) == [Job(Technician, PhoneFor(rcp, Technician), "ticket_assigned", [t.ticketId, t.customerName, t.description])]
  {
  }

  /** `in_progress` uses one template for both audiences but orders the variables differently. */
  lemma InProgressVariableOrder(t: Ticket, rcp: Recipients)
    requires t.status == Some("in_progress") && rcp.clientPhone != "" && rcp.adminPhone != ""
    ensures Plan(t, rcp) == [
      Job(Client, rcp.clientPhone, "technician_started", [t.customerName, t.ticketId]),
      Job(Admin, rcp.adminPhone, "technician_started", [t.ticketId, t.customerName])]
  {
  }

  /** The estimate goes to the client only; the approval goes to the admin only. */
  lemma EstimateAndApprovalAudiences(t: Ticket, rcp: Recipients)
    ensures t.status == Some("estimate_sent") ==> forall j :: j in Plan(t, rcp) ==> j.audience == Client
    ensures t.status == Some("approval_received") ==> forall j :: j in Plan(t, rcp) ==> j.audience == Admin
  {
  }

  /**
   * Assigning on a row as the store returns it: the technician's message
   * carries an undefined ticket id and customer name, and the row's
   * description.
   */
  lemma AssignedStoreRow(o: Properties, rcp: Recipients)
    requires StoreRow(o) && Read(o, "status") == Some("assigned") && PhoneFor(rcp, Technician) != ""
    ensures Plan(TicketView(o), rcp) ==
      [Job(Technician, PhoneFor(rcp, Technician), "ticket_assigned", [None, None, Read(o, "description")])]
  {
    StoreRowCamelCaseUndefined(o);
    AssignedOnlyTechnician(TicketView(o), rcp);
  }

  /** Starting work on a row as the store returns it: both messages carry two undefined variables. */
  lemma InProgressStoreRow(o: Properties, rcp: Recipients)
    requires StoreRow(o) && Read(o, "status") == Some("in_progress") && rcp.clientPhone != "" && rcp.adminPhone != ""
    ensures Plan(TicketView(o), rcp) == [
      Job(Client, rcp.clientPhone, "technician_started", [None, None]),
      Job(Admin, rcp.adminPhone, "technician_started", [None, None])]
  {
    StoreRowCamelCaseUndefined(o);
    InProgressVariableOrder(TicketView(o), rcp);
  }

  /**
   * For a row as the store returns it, no planned message carries any
   * ticket property except the description: every other variable is
   * undefined.
   */
  lemma {:induction false} StoreRowVariables(o: Properties, rcp: Recipients)
    requires StoreRow(o)
    ensures forall i, k :: 0 <= i < |Plan(TicketView(o), rcp)| && 0 <= k < |Plan(TicketView(o), rcp)[i].variables| ==>
      Plan(TicketView(o), rcp)[i].variables[k] in {None, Read(o, "description")}
  {
    var t := TicketView(o);
    StoreRowCamelCaseUndefined(o);
    var e := StatusTemplates(t);
    if e.Some? {
      forall a: Audience | SpecFor(e.value, a).Some?
        ensures forall k :: 0 <= k < |SpecFor(e.value, a).value.variables| ==>
          SpecFor(e.value, a).value.variables[k] in {None, t.description}
      {
      }
    }
  }

  /** How far the sends got: the jobs sent successfully and the error that stopped them, if any. */
  datatype Outcome = Outcome(sent: seq<Job>, error: Option<string>)

  /**
   * Sends the jobs one after another through the WhatsApp client; the first
   * failing send stops the rest and its error is passed on. The successfully
   * sent jobs are a prefix of the list, and on an error the next job is the
   * one that failed.
   */
  function Deliver(jobs: seq<Job>, c: WhatsApp.Config, gateway: WhatsApp.Request -> Result<string, string>): (r: Outcome)
    ensures |r.sent| <= |jobs| && r.sent == jobs[..|r.sent|]
    ensures r.error.None? ==> r.sent == jobs
    ensures forall i :: 0 <= i < |r.sent| ==> Sent(r.sent[i], c, gateway).Ok?
    ensures r.error.Some? ==> |r.sent| < |jobs| && Sent(jobs[|r.sent|], c, gateway) == Err(r.error.value)
  {
    if |jobs| == 0 then Outcome([], None)
    else match Sent(jobs[0], c, gateway)
      case Err(e) => Outcome([], Some(e))
      case Ok(_) =>
        var rest := Deliver(jobs[1..], c, gateway);
        Outcome([jobs[0]] + rest.sent, rest.error)
  }

  /** One job handed to the WhatsApp client. */
  function Sent(j: Job, c: WhatsApp.Config, gateway: WhatsApp.Request -> Result<string, string>): Result<string, string> {
    WhatsApp.SendTemplateMessage(c, j.to, j.template, j.variables, gateway)
  }

  /**
   * `sendStatusChangeNotifications`: read the ticket's properties, plan the
   * jobs, then deliver them in order.
   */
  function SendStatusChangeNotifications(o: Properties, rcp: Recipients, c: WhatsApp.Config,
                                         gateway: WhatsApp.Request -> Result<string, string>): (r: Outcome)
    ensures StatusTemplates(TicketView(o)).None? ==> r == Outcome([], None)
    ensures var plan := Plan(TicketView(o), rcp);
      |r.sent| <= |plan| && r.sent == plan[..|r.sent|] && (r.error.None? <==> r.sent == plan)
  {
    var plan := Plan(TicketView(o), rcp);
    var r := Deliver(plan, c, gateway);
    assert r.error.Some? ==> |r.sent| < |plan|;
    r
  }
}
