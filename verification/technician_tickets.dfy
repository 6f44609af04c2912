/**
 * The technician's ticket list: which tickets it lists, the statuses a
 * technician may choose, the status write, the badge fallback, and the
 * per-ticket comment drafts with their submit rule.
 */
module TechnicianTickets {
  import opened Wrappers
  import opened Text
  import opened StatusTables
  import opened Records

  /** The options of the status select, in order. */
  const Options: seq<string> := [
    "ticket_accepted", "pickup", "product_received", "in_progress", "delivered", "done", "on_hold"
  ]

  /** The select offers exactly the codes of the list's own status configuration, in the same order. */
  lemma OptionsAreConfigured()
    ensures Options == Codes(TechnicianConfig)
    ensures forall i :: 0 <= i < |Options| ==> Lookup(TechnicianConfig, Options[i]).Some?
  {
    TechnicianConfigShape();
  }

  /** Another technician's tickets never show. */
  lemma ListedDisjoint(rows: seq<TicketRow>, a: string, b: string, t: TicketRow)
    requires a != b && t in AssignedTo(rows, a)
    ensures t !in AssignedTo(rows, b)
  {
  }

  /** `handleStatusChange`: writes `ticket_status` and `updated_at` and nothing else, when the store accepts it. */
  function ChangeStatus(t: TicketRow, newStatus: string, now: string, ok: bool): (r: TicketRow)
    ensures r.(ticketStatus := t.ticketStatus, updatedAt := t.updatedAt) == t
    ensures ok ==> r.ticketStatus == newStatus && r.updatedAt == Some(now)
    ensures !ok ==> r == t
  {
    if ok then t.(ticketStatus := newStatus, updatedAt := Some(now)) else t
  }

  /** Choosing the previous status again restores the ticket, except that the timestamp is the later one. */
  lemma ChangeStatusUndo(t: TicketRow, newStatus: string, now: string, later: string)
    ensures var u := ChangeStatus(ChangeStatus(t, newStatus, now, true), t.ticketStatus, later, true);
      u.(updatedAt := t.updatedAt) == t && u.updatedAt == Some(later)
  {
  }

  /** The badge caption: the configured label, or "Unknown". */
  function BadgeCaption(code: string): (r: string)
    ensures code in Codes(TechnicianConfig) ==> r == Lookup(TechnicianConfig, code).value.caption
    ensures code !in Codes(TechnicianConfig) ==> r == "Unknown"
  {
    match Lookup(TechnicianConfig, code)
    case Some(e) => e.caption
    case None => "Unknown"
  }

  /** The badge colour: the configured one, or plain grey. */
  function BadgeColor(code: string): (r: string)
    ensures code in Codes(TechnicianConfig) ==> r == Lookup(TechnicianConfig, code).value.color
    ensures code !in Codes(TechnicianConfig) ==> r == "bg-gray-500"
  {
    match Lookup(TechnicianConfig, code)
    case Some(e) => e.color
    case None => "bg-gray-500"
  }

  /** Codes the admin side uses but this list does not know, such as `assigned` and `in_queue`, show "Unknown". */
  lemma UnknownForAdminCodes()
    ensures BadgeCaption("assigned") == "Unknown" && BadgeCaption("in_queue") == "Unknown"
  {
    TechnicianConfigShape();
  }

  /** A stored comment. */
  datatype Comment = Comment(ticketId: string, userId: string, text: string)

  /** Why a submit stopped, if it did. */
  datatype Refusal = EmptyComment | NoUser | InsertFailed

  /** The state after a submit: the drafts, the comment inserted, if any, and the refusal, if any. */
  datatype SubmitOutcome = SubmitOutcome(drafts: map<string, string>, inserted: Option<Comment>, refusal: Option<Refusal>)

  /**
   * `handleCommentSubmit`: a missing or blank draft is refused before
   * anything else; then the signed-in user is required; then the trimmed
   * draft is inserted and, on success, that ticket's draft is cleared.
   * `user` is the session's user id and `insertOk` the store's answer.
   */
  function SubmitComment(drafts: map<string, string>, ticketId: string, user: Option<string>, insertOk: bool): (r: SubmitOutcome)
    ensures r.inserted.Some? <==> r.refusal.None?
    ensures r.refusal == Some(EmptyComment) <==> ticketId !in drafts || IsBlank(drafts[ticketId])
    ensures r.inserted.Some? ==>
              (ticketId in drafts && user.Some? && insertOk &&
               r.inserted.value == Comment(ticketId, user.value, Trim(drafts[ticketId])) && r.inserted.value.text != [])
    ensures r.inserted.Some? ==> r.drafts == drafts[ticketId := ""]
    ensures r.inserted.None? ==> r.drafts == drafts
    ensures forall k :: k in drafts && k != ticketId ==> k in r.drafts && r.drafts[k] == drafts[k]
  {
    if ticketId !in drafts || IsBlank(drafts[ticketId]) then SubmitOutcome(drafts, None, Some(EmptyComment))
    else if user.None? then SubmitOutcome(drafts, None, Some(NoUser))
    else if !insertOk then SubmitOutcome(drafts, None, Some(InsertFailed))
    else SubmitOutcome(drafts[ticketId := ""], Some(Comment(ticketId, user.value, Trim(drafts[ticketId]))), None)
  }

  /** A successful submit leaves a draft that a second submit refuses, so a comment is never stored twice. */
  lemma SubmitTwiceRefused(drafts: map<string, string>, ticketId: string, user: Option<string>, insertOk: bool)
    requires SubmitComment(drafts, ticketId, user, insertOk).inserted.Some?
    ensures SubmitComment(SubmitComment(drafts, ticketId, user, insertOk).drafts, ticketId, user, insertOk).refusal
            == Some(EmptyComment)
  {
    assert AllSpace("");
    TrimStartEmpty("");
  }

  /** A stored comment is its draft without surrounding whitespace. */
  lemma StoredCommentTrimmed(drafts: map<string, string>, ticketId: string, user: Option<string>, insertOk: bool)
    requires SubmitComment(drafts, ticketId, user, insertOk).inserted.Some?
    ensures var c := SubmitComment(drafts, ticketId, user, insertOk).inserted.value.text;
      c == Trim(c) && !IsSpace(c[0]) && !IsSpace(c[|c| - 1])
  {
    TrimIdempotent(drafts[ticketId]);
  }

  /** The comments shown under a ticket: those whose ticket id matches, in fetched order. */
  function CommentsFor(comments: seq<Comment>, ticketId: string): (r: seq<Comment>)
    ensures forall i :: 0 <= i < |r| ==> r[i] in comments && r[i].ticketId == ticketId
    ensures forall i :: 0 <= i < |comments| && comments[i].ticketId == ticketId ==> comments[i] in r
  {
    Seqs.Filter(comments, (c: Comment) => c.ticketId == ticketId)
  }

  /** Every comment is shown under exactly the ticket it belongs to: the groups split the list. */
  lemma CommentsSplit(comments: seq<Comment>, a: string, b: string)
    requires a != b
    ensures forall c :: c in CommentsFor(comments, a) ==> c !in CommentsFor(comments, b)
  {
  }
}
