/**
 * The WhatsApp template record and the eleven default templates the
 * Templates page can import. Everything but the prose (subject and message)
 * is given literally; the prose is a parameter of `Defaults`.
 */
module DefaultTemplates {
  import opened Wrappers
  import opened Text
  import StatusTables
  import TemplateActions

  datatype Recipient = Client | Technician | Admin

  /** A template as the application handles it; `variables` is optional. */
  datatype WhatsAppTemplate = WhatsAppTemplate(
    id: string, title: string, subject: string, message: string,
    recipient: Recipient, status: string, isActive: bool, variables: Option<seq<string>>)

  /** Every field of a template except its subject and message. */
  datatype Header = Header(
    id: string, title: string, recipient: Recipient, status: string, isActive: bool,
    variables: Option<seq<string>>)

  /** The subject and message of a template. */
  datatype Prose = Prose(subject: string, message: string)

  const CustomerName: string := "{Customer Name}"

  const DefaultHeaders: seq<Header> := [
    Header("1", "Query Received", Client, "in_queue", true, Some([CustomerName])),
    Header("2", "Technician Started", Client, "in_progress", true, Some([CustomerName])),
    Header("3", "Pickup Scheduled", Client, "pickup", true, Some([CustomerName])),
    Header("4", "Product Received", Client, "product_received", true, Some([CustomerName])),
    Header("5", "Estimate Sent", Client, "client_approval", true, Some([CustomerName])),
    Header("6", "Approval Received", Client, "in_progress", true, Some([CustomerName])),
    Header("7", "Update After Repair", Client, "done", true,
           Some([CustomerName, "{Issue 1}", "{Issue 2}", "{Issue 3}"])),
    Header("8", "Delivery Scheduled", Client, "delivery_scheduled", true, Some([CustomerName])),
    Header("9", "Delivered", Client, "delivered", true, Some([CustomerName])),
    Header("10", "Invoice Sent", Client, "invoice_sent", true, Some([CustomerName])),
    Header("11", "On Hold", Client, "hold", true, Some([CustomerName]))
  ]

  function HeaderOf(t: WhatsAppTemplate): Header {
    Header(t.id, t.title, t.recipient, t.status, t.isActive, t.variables)
  }

  function ProseOf(t: WhatsAppTemplate): Prose {
    Prose(t.subject, t.message)
  }

  /** A template put together from its header and its prose. */
  function Assemble(h: Header, p: Prose): (t: WhatsAppTemplate)
    ensures HeaderOf(t) == h && ProseOf(t) == p
  {
    WhatsAppTemplate(h.id, h.title, p.subject, p.message, h.recipient, h.status, h.isActive, h.variables)
  }

  /** A template is its header and prose put back together. */
  lemma AssembleSplit(t: WhatsAppTemplate)
    ensures Assemble(HeaderOf(t), ProseOf(t)) == t
  {
  }

  /** `DEFAULT_TEMPLATES`, given the prose of each default in order. */
  function Defaults(prose: seq<Prose>): (r: seq<WhatsAppTemplate>)
    requires |prose| == |DefaultHeaders|
    ensures |r| == |DefaultHeaders|
    ensures forall i :: 0 <= i < |r| ==> HeaderOf(r[i]) == DefaultHeaders[i] && ProseOf(r[i]) == prose[i]
  {
    seq(|prose|, i requires 0 <= i < |prose| => Assemble(DefaultHeaders[i], prose[i]))
  }

  function Ids(hs: seq<Header>): (r: seq<string>)
    ensures |r| == |hs| && forall i :: 0 <= i < |hs| ==> r[i] == hs[i].id
  {
    seq(|hs|, i requires 0 <= i < |hs| => hs[i].id)
  }

  /** There are eleven defaults, numbered "1" to "11" in order. */
  lemma DefaultIds()
    ensures Ids(DefaultHeaders) == ["1", "2", "3", "4", "5", "6", "7", "8", "9", "10", "11"]
    ensures StatusTables.Distinct(Ids(DefaultHeaders))
  {
    DefaultIdsListed();
    var ids := Ids(DefaultHeaders);
    forall i, j | 0 <= i < j < |ids| ensures ids[i] != ids[j] {
      assert ids[i][0] != ids[j][0] || |ids[i]| != |ids[j]| || ids[i][1] != ids[j][1];
    }
  }

  lemma DefaultIdsListed()
    ensures Ids(DefaultHeaders) == ["1", "2", "3", "4", "5", "6", "7", "8", "9", "10", "11"]
  {
  }

  /** Every default is addressed to the client and active. */
  lemma DefaultsClientActive()
    ensures forall i :: 0 <= i < |DefaultHeaders| ==>
      DefaultHeaders[i].recipient == Client && DefaultHeaders[i].isActive
  {
  }

  /** Every default's status is a key of the template status dictionary. */
  lemma DefaultStatusesKnown()
    ensures forall i :: 0 <= i < |DefaultHeaders| ==>
      DefaultHeaders[i].status in StatusTables.Codes(StatusTables.TemplateStatuses)
  {
    var codes := StatusTables.Codes(StatusTables.TemplateStatuses);
    assert codes == ["in_queue", "assigned", "ticket_accepted", "pickup", "product_received", "in_progress",
                     "client_approval", "delivery_scheduled", "delivered", "done", "invoice_sent",
                     "payment_received", "complete", "hold"];
  }

  /**
   * Every default lists `{Customer Name}` first; "Update After Repair" is
   * the one default with four variables, all others have just that one.
   */
  lemma DefaultVariables()
    ensures forall i :: 0 <= i < |DefaultHeaders| ==>
      DefaultHeaders[i].variables.Some? && |DefaultHeaders[i].variables.value| > 0 &&
      DefaultHeaders[i].variables.value[0] == CustomerName
    ensures forall i :: 0 <= i < |DefaultHeaders| ==>
      (|DefaultHeaders[i].variables.value| == 4 <==> DefaultHeaders[i].title == "Update After Repair") &&
      (DefaultHeaders[i].title != "Update After Repair" ==> |DefaultHeaders[i].variables.value| == 1)
  {
  }

  /** Two defaults share a status, "Technician Started" and "Approval Received" (`in_progress`); no other pair does. */
  lemma SharedStatus()
    ensures forall i, j :: 0 <= i < j < |DefaultHeaders| ==>
      (DefaultHeaders[i].status == DefaultHeaders[j].status <==> i == 1 && j == 5)
    ensures DefaultHeaders[1].status == "in_progress"
  {
  }

  /** The variables any default declares. */
  const DefaultVariableNames: seq<string> := [CustomerName, "{Issue 1}", "{Issue 2}", "{Issue 3}"]

  /** Each default variable is a braced token and is none of the six placeholders the send button fills in. */
  lemma DefaultVariableTokens()
    ensures forall k :: 0 <= k < |DefaultVariableNames| ==>
      IsBraced(DefaultVariableNames[k]) && DefaultVariableNames[k] !in TemplateActions.Placeholders
    ensures forall i :: 0 <= i < |DefaultHeaders| ==>
      forall k :: 0 <= k < |DefaultHeaders[i].variables.value| ==>
        DefaultHeaders[i].variables.value[k] in DefaultVariableNames
  {
    forall k | 0 <= k < |DefaultVariableNames| ensures IsBraced(DefaultVariableNames[k]) {
      BracedChars(DefaultVariableNames[k]);
    }
    DefaultVariablesNotPlaceholders();
    DefaultVariablesDeclared();
  }

  /** The default variables are capitalised, the send button's placeholders are not. */
  lemma DefaultVariablesNotPlaceholders()
    ensures forall k :: 0 <= k < |DefaultVariableNames| ==> DefaultVariableNames[k] !in TemplateActions.Placeholders
  {
    forall k, j | 0 <= k < |DefaultVariableNames| && 0 <= j < |TemplateActions.Placeholders|
      ensures DefaultVariableNames[k] != TemplateActions.Placeholders[j]
    {
      assert DefaultVariableNames[k][1] != TemplateActions.Placeholders[j][1];
    }
  }

  lemma DefaultVariablesDeclared()
    ensures forall i :: 0 <= i < |DefaultHeaders| ==>
      forall k :: 0 <= k < |DefaultHeaders[i].variables.value| ==>
        DefaultHeaders[i].variables.value[k] in DefaultVariableNames
  {
  }

  /** The template pieces that are literal text or one of the default variables. */
  predicate DefaultStyled(ps: seq<TemplateActions.Piece>) {
    forall i :: 0 <= i < |ps| ==>
      match ps[i]
      case Literal(t) => '{' !in t
      case Placeholder(q) => q in DefaultVariableNames
  }

  /**
   * The default variables are written `{Customer Name}`, while the send
   * button fills in `{customer_name}` and its siblings: a message written in
   * the defaults' style goes out with its variables verbatim.
   */
  lemma DefaultVariablesVerbatim(ctx: TemplateActions.Context, ps: seq<TemplateActions.Piece>)
    requires TemplateActions.PlainContext(ctx) && DefaultStyled(ps)
    ensures TemplateActions.ReplaceVariables(ctx, TemplateActions.Join(ps)) == TemplateActions.Join(ps)
  {
    DefaultVariableTokens();
    var subs := TemplateActions.Substitutions(ctx);
    assert TemplateActions.WellFormedPieces(ps) by {
      forall i | 0 <= i < |ps| ensures TemplateActions.WellFormedPiece(ps[i]) {
        match ps[i]
        case Literal(t) =>
        case Placeholder(q) =>
      }
    }
    SubstitutedUnchanged(ps, subs);
  }

  /** Placeholders that no substitution names are kept, so such a text is its own substitution. */
  lemma {:induction false} SubstitutedUnchanged(ps: seq<TemplateActions.Piece>, subs: seq<TemplateActions.Substitution>)
    requires DefaultStyled(ps)
    requires forall i :: 0 <= i < |subs| ==> subs[i].pattern !in DefaultVariableNames
    ensures TemplateActions.JoinSubstituted(ps, subs) == TemplateActions.Join(ps)
    decreases |ps|
  {
    if |ps| > 0 {
      assert DefaultStyled(ps[1..]) by {
        forall i | 0 <= i < |ps| - 1 ensures ps[1..][i] == ps[i + 1] { }
      }
      SubstitutedUnchanged(ps[1..], subs);
      match ps[0]
      case Literal(t) =>
      case Placeholder(q) =>
        assert forall i :: 0 <= i < |subs| ==> subs[i].pattern != q;
    }
  }
}
