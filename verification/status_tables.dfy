/**
 * The ticket-status vocabularies of the dashboard. Each component carries its
 * own table of status codes, and the tables disagree with each other and
 * with the database enum; they are therefore kept apart here, exactly as
 * written, and the disagreements are stated as lemmas.
 */
module StatusTables {
  import opened Wrappers

  /** One row of a status table: the stored code, its display label and its badge colour. */
  datatype Entry = Entry(code: string, caption: string, color: string)

  /** The codes of a table, in table order. */
  function Codes(t: seq<Entry>): (r: seq<string>)
    ensures |r| == |t|
    ensures forall i :: 0 <= i < |t| ==> r[i] == t[i].code
  {
    seq(|t|, i requires 0 <= i < |t| => t[i].code)
  }

  /** No code occurs twice in the sequence. */
  predicate Distinct(s: seq<string>) {
    forall i, j :: 0 <= i < j < |s| ==> s[i] != s[j]
  }

  /**
   * The first row of `t` whose code is `code`: the object-key lookup
   * `statusConfig[code]`, which is `undefined` for a code the table lacks.
   */
  function Lookup(t: seq<Entry>, code: string): (r: Option<Entry>)
    ensures r.Some? <==> code in Codes(t)
    ensures r.Some? ==> r.value in t && r.value.code == code
  {
    LookupFrom(t, code, 0)
  }

  /** The first row at or after index `i` whose code is `code`. */
  function LookupFrom(t: seq<Entry>, code: string, i: nat): (r: Option<Entry>)
    requires i <= |t|
    ensures r.Some? <==> exists k :: i <= k < |t| && t[k].code == code
    ensures r.Some? ==> r.value in t && r.value.code == code
    decreases |t| - i
  {
    if i == |t| then None
    else if t[i].code == code then Some(t[i])
    else LookupFrom(t, code, i + 1)
  }

  /** The first row is found: every earlier row has another code. */
  lemma {:induction false} LookupFromAt(t: seq<Entry>, code: string, i: nat, j: nat)
    requires i <= j < |t| && t[j].code == code
    requires forall k :: i <= k < j ==> t[k].code != code
    ensures LookupFrom(t, code, i) == Some(t[j])
    decreases j - i
  {
    if i < j {
      LookupFromAt(t, code, i + 1, j);
    }
  }

  /** A lookup finds the first row carrying the code. */
  lemma LookupFirst(t: seq<Entry>, j: nat)
    requires j < |t| && forall k :: 0 <= k < j ==> t[k].code != t[j].code
    ensures Lookup(t, t[j].code) == Some(t[j])
  {
    LookupFromAt(t, t[j].code, 0, j);
  }

  /** In a table with distinct codes, a lookup finds the row at the code's position. */
  lemma LookupAt(t: seq<Entry>, i: nat)
    requires i < |t| && Distinct(Codes(t))
    ensures Lookup(t, t[i].code) == Some(t[i])
  {
    forall k | 0 <= k < i ensures t[k].code != t[i].code {
      assert Codes(t)[k] != Codes(t)[i];
    }
    LookupFirst(t, i);
  }

  /** A code no row carries is not found. */
  lemma LookupAbsent(t: seq<Entry>, code: string)
    requires forall i :: 0 <= i < |t| ==> t[i].code != code
    ensures Lookup(t, code) == None
  {
    assert code !in Codes(t);
  }

  // ---------------------------------------------------------------------
  // The tables, each as written in its component.
  // ---------------------------------------------------------------------

  /** The ordered filter list of the tickets page (border colours). */
  const TicketsPageList: seq<Entry> := [
    Entry("in_queue", "Generated", "border-blue-500"),
    Entry("assigned", "Ticket Assigned", "border-purple-500"),
    Entry("ticket_accepted", "Ticket Accepted", "border-indigo-500"),
    Entry("pickup", "Pickup Schedule", "border-cyan-500"),
    Entry("product_received", "Product Received", "border-teal-500"),
    Entry("in_progress", "In Progress", "border-orange-500"),
    Entry("client_approval", "Client Approval", "border-amber-500"),
    Entry("delivery_scheduled", "Delivery Scheduled", "border-lime-500"),
    Entry("delivered", "Delivered", "border-green-500"),
    Entry("done", "Done", "border-emerald-500"),
    Entry("invoice_sent", "Invoice Sent", "border-sky-500"),
    Entry("payment_received", "Payment Received", "border-violet-500"),
    Entry("complete", "Complete", "border-green-700"),
    Entry("on_hold", "On Hold", "border-red-500")
  ]

  /** The badge configuration of the tickets page (background colours). */
  const TicketsPageConfig: seq<Entry> := [
    Entry("in_queue", "Generated", "bg-blue-500"),
    Entry("assigned", "Ticket Assigned", "bg-purple-500"),
    Entry("ticket_accepted", "Ticket Accepted", "bg-indigo-500"),
    Entry("pickup", "Pickup Schedule", "bg-cyan-500"),
    Entry("product_received", "Product Received", "bg-teal-500"),
    Entry("in_progress", "In Progress", "bg-orange-500"),
    Entry("client_approval", "Estimate Sent", "bg-amber-500"),
    Entry("approval_received", "Approval Received", "bg-yellow-500"),
    Entry("delivery_scheduled", "Delivery Scheduled", "bg-lime-500"),
    Entry("delivered", "Delivered", "bg-green-500"),
    Entry("done", "Done", "bg-emerald-500"),
    Entry("invoice_sent", "Invoice Sent", "bg-sky-500"),
    Entry("payment_received", "Payment Received", "bg-violet-500"),
    Entry("complete", "Complete", "bg-green-700"),
    Entry("on_hold", "On Hold", "bg-red-500")
  ]

  /** The ticket card's status configuration, which also drives its status menu. */
  const CardConfig: seq<Entry> := [
    Entry("in_queue", "Generated", "bg-blue-500 text-white"),
    Entry("assigned", "Ticket Assigned", "bg-purple-500 text-white"),
    Entry("ticket_accepted", "Ticket Accepted", "bg-indigo-500 text-white"),
    Entry("pickup", "Pickup Schedule", "bg-cyan-500 text-white"),
    Entry("product_received", "Product Received", "bg-teal-500 text-white"),
    Entry("in_progress", "In Progress", "bg-orange-500 text-white"),
    Entry("client_approval", "Client Approval", "bg-amber-500 text-white"),
    Entry("delivery_scheduled", "Delivery Scheduled", "bg-lime-500 text-white"),
    Entry("delivered", "Delivered", "bg-green-500 text-white"),
    Entry("done", "Done", "bg-emerald-500 text-white"),
    Entry("invoice_sent", "Invoice Sent", "bg-sky-500 text-white"),
    Entry("payment_received", "Payment Received", "bg-violet-500 text-white"),
    Entry("complete", "Complete", "bg-green-700 text-white"),
    Entry("on_hold", "On Hold", "bg-red-500 text-white")
  ]

  /** The technician ticket list's configuration: the statuses a technician may set. */
  const TechnicianConfig: seq<Entry> := [
    Entry("ticket_accepted", "Ticket Accepted", "bg-blue-500 text-white"),
    Entry("pickup", "Pickup Schedule", "bg-purple-500 text-white"),
    Entry("product_received", "Product Received", "bg-indigo-500 text-white"),
    Entry("in_progress", "In Progress", "bg-yellow-500 text-white"),
    Entry("delivered", "Delivered", "bg-green-500 text-white"),
    Entry("done", "Done", "bg-emerald-500 text-white"),
    Entry("on_hold", "On Hold", "bg-red-500 text-white")
  ]

  /** The template module's status dictionary (no colours: the colour cell is empty). */
  const TemplateStatuses: seq<Entry> := [
    Entry("in_queue", "Generated", ""),
    Entry("assigned", "Ticket Assigned", ""),
    Entry("ticket_accepted", "Ticket Accepted", ""),
    Entry("pickup", "Pickup Schedule", ""),
    Entry("product_received", "Product Received", ""),
    Entry("in_progress", "In Progress", ""),
    Entry("client_approval", "Client Approval", ""),
    Entry("delivery_scheduled", "Delivery Scheduled", ""),
    Entry("delivered", "Delivered", ""),
    Entry("done", "Done", ""),
    Entry("invoice_sent", "Invoice Sent", ""),
    Entry("payment_received", "Payment Received", ""),
    Entry("complete", "Complete", ""),
    Entry("hold", "On Hold", "")
  ]

  /** The database enum of ticket statuses. */
  const DbStatuses: seq<string> := [
    "in_queue", "assigned", "in_progress", "pickup", "client_approval", "admin_approval",
    "on_hold", "done", "complete", "archive", "feedback", "rejected"
  ]

  lemma TicketsPageListShape()
    ensures |TicketsPageList| == 14 && Distinct(Codes(TicketsPageList))
    ensures TicketsPageList[0].code == "in_queue" && TicketsPageList[13].code == "on_hold"
  {
  }

  lemma ListClientApproval()
    ensures Lookup(TicketsPageList, "client_approval") == Some(Entry("client_approval", "Client Approval", "border-amber-500"))
  {
    TicketsPageListShape();
    LookupAt(TicketsPageList, 6);
  }

  lemma ListLacksApprovalReceived()
    ensures Lookup(TicketsPageList, "approval_received") == None
  {
    forall i | 0 <= i < |TicketsPageList| ensures TicketsPageList[i].code != "approval_received" {
      assert |TicketsPageList[i].code| != 17;
    }
    LookupAbsent(TicketsPageList, "approval_received");
  }

  lemma ConfigClientApproval()
    ensures Lookup(TicketsPageConfig, "client_approval") == Some(Entry("client_approval", "Estimate Sent", "bg-amber-500"))
  {
    forall k | 0 <= k < 6 ensures TicketsPageConfig[k].code != "client_approval" {
      assert TicketsPageConfig[k].code[0] != 'c';
    }
    LookupFirst(TicketsPageConfig, 6);
  }

  lemma ConfigApprovalReceived()
    ensures Lookup(TicketsPageConfig, "approval_received") == Some(Entry("approval_received", "Approval Received", "bg-yellow-500"))
  {
    forall k | 0 <= k < 7 ensures TicketsPageConfig[k].code != "approval_received" {
      assert |TicketsPageConfig[k].code| != 17;
    }
    LookupFirst(TicketsPageConfig, 7);
  }

  /**
   * The list and the badge configuration of the same page label
   * `client_approval` differently, and only the configuration knows
   * `approval_received`.
   */
  lemma TicketsPageTablesDisagree()
    ensures Lookup(TicketsPageList, "client_approval") == Some(Entry("client_approval", "Client Approval", "border-amber-500"))
    ensures Lookup(TicketsPageConfig, "client_approval") == Some(Entry("client_approval", "Estimate Sent", "bg-amber-500"))
    ensures Lookup(TicketsPageList, "approval_received") == None
    ensures Lookup(TicketsPageConfig, "approval_received").Some?
  {
    ListClientApproval();
    ConfigClientApproval();
    ListLacksApprovalReceived();
    ConfigApprovalReceived();
  }

  lemma TicketsPageConfigShape()
    ensures |TicketsPageConfig| == 15 && Distinct(Codes(TicketsPageConfig))
  {
  }

  /** The card knows the same fourteen codes as the tickets page list. */
  lemma CardConfigShape()
    ensures |CardConfig| == 14 && Distinct(Codes(CardConfig))
    ensures Codes(CardConfig) == Codes(TicketsPageList)
  {
  }

  lemma CardConfigHold()
    ensures Lookup(CardConfig, "on_hold") == Some(Entry("on_hold", "On Hold", "bg-red-500 text-white"))
  {
    forall k | 0 <= k < 13 ensures CardConfig[k].code != "on_hold" {
      assert CardConfig[k].code[0] != 'o';
    }
    LookupFirst(CardConfig, 13);
  }

  lemma CardConfigLacksRejected()
    ensures Lookup(CardConfig, "rejected") == None
  {
    forall i | 0 <= i < |CardConfig| ensures CardConfig[i].code != "rejected" {
      assert CardConfig[i].code[0] != 'r';
    }
    LookupAbsent(CardConfig, "rejected");
  }

  /** The card has a badge for `on_hold` and none for `rejected`. */
  lemma CardConfigHoldNotRejected()
    ensures Lookup(CardConfig, "on_hold") == Some(Entry("on_hold", "On Hold", "bg-red-500 text-white"))
    ensures Lookup(CardConfig, "rejected") == None
  {
    CardConfigHold();
    CardConfigLacksRejected();
  }

  lemma TechnicianConfigShape()
    ensures Codes(TechnicianConfig) == ["ticket_accepted", "pickup", "product_received", "in_progress", "delivered", "done", "on_hold"]
  {
  }

  lemma TemplateStatusesShape()
    ensures |TemplateStatuses| == 14 && Distinct(Codes(TemplateStatuses))
  {
  }

  lemma TemplateHold()
    ensures Lookup(TemplateStatuses, "hold") == Some(Entry("hold", "On Hold", ""))
  {
    forall k | 0 <= k < 13 ensures TemplateStatuses[k].code != "hold" {
      assert TemplateStatuses[k].code[0] != 'h';
    }
    LookupFirst(TemplateStatuses, 13);
  }

  lemma TemplateLacksOnHold()
    ensures Lookup(TemplateStatuses, "on_hold") == None
  {
    forall i | 0 <= i < |TemplateStatuses| ensures TemplateStatuses[i].code != "on_hold" {
      assert TemplateStatuses[i].code[0] != 'o';
    }
    LookupAbsent(TemplateStatuses, "on_hold");
  }

  /** The template dictionary spells the hold status `hold`, where the other tables say `on_hold`. */
  lemma TemplateHoldSpelling()
    ensures Lookup(TemplateStatuses, "hold") == Some(Entry("hold", "On Hold", ""))
    ensures Lookup(TemplateStatuses, "on_hold") == None
  {
    TemplateHold();
    TemplateLacksOnHold();
  }

  /** The database enum has twelve distinct codes. */
  lemma DbStatusesShape()
    ensures |DbStatuses| == 12 && Distinct(DbStatuses)
  {
  }

  /** The database enum stores `in_queue` and `on_hold` but none of `generated`, `delivered`, `hold`. */
  lemma DbStatusesMembers()
    ensures "in_queue" in DbStatuses && "on_hold" in DbStatuses
    ensures "generated" !in DbStatuses && "delivered" !in DbStatuses && "hold" !in DbStatuses
  {
    assert DbStatuses[0] == "in_queue" && DbStatuses[6] == "on_hold";
    forall i | 0 <= i < |DbStatuses| ensures DbStatuses[i] != "generated" && DbStatuses[i] != "delivered" && DbStatuses[i] != "hold" {
      assert |DbStatuses[i]| != 9 && DbStatuses[i][0] != 'h';
    }
  }

  // ---------------------------------------------------------------------
  // The typed status of the ticket interface and its label record.
  // ---------------------------------------------------------------------

  datatype TicketStatus =
    | Generated | Assigned | InProgress | PickupScheduled | ProductReceived | EstimateSent
    | ApprovalReceived | DeliveryScheduled | Done | Hold | Complete

  /** Every status, in declaration order. */
  const AllTicketStatuses: seq<TicketStatus> := [
    Generated, Assigned, InProgress, PickupScheduled, ProductReceived, EstimateSent,
    ApprovalReceived, DeliveryScheduled, Done, Hold, Complete
  ]

  /** The string literal each status stands for. */
  function Code(s: TicketStatus): string {
    match s
    case Generated => "generated"
    case Assigned => "assigned"
    case InProgress => "in_progress"
    case PickupScheduled => "pickup_scheduled"
    case ProductReceived => "product_received"
    case EstimateSent => "estimate_sent"
    case ApprovalReceived => "approval_received"
    case DeliveryScheduled => "delivery_scheduled"
    case Done => "done"
    case Hold => "hold"
    case Complete => "complete"
  }

  /** The label record: a total map from status to display text. */
  function Label(s: TicketStatus): (r: string)
    ensures |r| > 0
  {
    match s
    case Generated => "Generated"
    case Assigned => "Assigned"
    case InProgress => "In Progress"
    case PickupScheduled => "Pickup Scheduled"
    case ProductReceived => "Product Received"
    case EstimateSent => "Estimate Sent"
    case ApprovalReceived => "Approval Received"
    case DeliveryScheduled => "Delivery Scheduled"
    case Done => "Done"
    case Hold => "On Hold"
    case Complete => "Complete"
  }

  /** Reads a string as a typed status: `None` for every string outside the eleven literals. */
  function ParseTicketStatus(c: string): (r: Option<TicketStatus>)
    ensures r.Some? ==> Code(r.value) == c
  {
    if c == "generated" then Some(Generated)
    else if c == "assigned" then Some(Assigned)
    else if c == "in_progress" then Some(InProgress)
    else if c == "pickup_scheduled" then Some(PickupScheduled)
    else if c == "product_received" then Some(ProductReceived)
    else if c == "estimate_sent" then Some(EstimateSent)
    else if c == "approval_received" then Some(ApprovalReceived)
    else if c == "delivery_scheduled" then Some(DeliveryScheduled)
    else if c == "done" then Some(Done)
    else if c == "hold" then Some(Hold)
    else if c == "complete" then Some(Complete)
    else None
  }

  /** Reading back the literal of a status gives the status. */
  lemma ParseCode(s: TicketStatus)
    ensures ParseTicketStatus(Code(s)) == Some(s)
  {
  }

  /** There are exactly eleven statuses, all listed, with distinct literals. */
  lemma TicketStatusCount(s: TicketStatus)
    ensures |AllTicketStatuses| == 11 && s in AllTicketStatuses
    ensures forall i, j :: 0 <= i < j < 11 ==> Code(AllTicketStatuses[i]) != Code(AllTicketStatuses[j])
  {
  }

  /** Distinct statuses have distinct labels. */
  lemma LabelsDistinct(a: TicketStatus, b: TicketStatus)
    ensures Label(a) == Label(b) ==> a == b
  {
  }

  lemma LabelFacts()
    ensures Label(Hold) == "On Hold" && Label(Generated) == "Generated"
    ensures ParseTicketStatus("in_queue") == None && ParseTicketStatus("on_hold") == None
  {
  }

  /** The priority field of the ticket interface: three values, no `critical`. */
  datatype InterfacePriority = Low | Medium | High

  function ParseInterfacePriority(c: string): (r: Option<InterfacePriority>)
    ensures r.Some? <==> c in ["low", "medium", "high"]
  {
    if c == "low" then Some(Low)
    else if c == "medium" then Some(Medium)
    else if c == "high" then Some(High)
    else None
  }
}
