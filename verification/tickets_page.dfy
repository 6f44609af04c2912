/**
 * The Tickets page: per-status counts, the status cards that toggle a
 * selection, the main list and its generated-ticket and pending-approval
 * companions, and the assignment of a generated ticket to a technician.
 */
module TicketsPage {
  import opened Wrappers
  import Seqs
  import opened Records

  /** One entry of the counts list: a status code and how many tickets have it. */
  datatype StatusCount = StatusCount(status: string, count: nat)

  /** The first entry for the status, if any. */
  function Find(acc: seq<StatusCount>, s: string): (r: Option<nat>)
    ensures r.Some? ==> r.value < |acc| && acc[r.value].status == s &&
                        forall k :: 0 <= k < r.value ==> acc[k].status != s
    ensures r.None? ==> forall k :: 0 <= k < |acc| ==> acc[k].status != s
  {
    if |acc| == 0 then None
    else if acc[0].status == s then Some(0)
    else match Find(acc[1..], s)
      case None =>
        assert forall k :: 1 <= k < |acc| ==> acc[k] == acc[1..][k - 1];
        None
      case Some(k) =>
        assert forall i :: 1 <= i <= k ==> acc[i] == acc[1..][i - 1];
        Some(k + 1)
  }

  /** `getTicketCountByStatus`: the count of the status's entry, or 0 when there is none. */
  function CountOf(acc: seq<StatusCount>, s: string): (n: nat)
    ensures (forall k :: 0 <= k < |acc| ==> acc[k].status != s) ==> n == 0
  {
    match Find(acc, s)
    case None => 0
    case Some(k) => acc[k].count
  }

  /** Each status has at most one entry. */
  predicate UniqueStatuses(acc: seq<StatusCount>) {
    forall i, j :: 0 <= i < j < |acc| ==> acc[i].status != acc[j].status
  }

  /** The counts added up. */
  function Sum(acc: seq<StatusCount>): nat {
    if |acc| == 0 then 0 else acc[0].count + Sum(acc[1..])
  }

  /**
   * One step of the reduce: add one to the status's entry, or append an
   * entry with count 1 for a status seen for the first time (object keys
   * keep their insertion order).
   */
  function Bump(acc: seq<StatusCount>, s: string): (r: seq<StatusCount>)
    requires UniqueStatuses(acc)
    ensures UniqueStatuses(r)
    ensures CountOf(r, s) == CountOf(acc, s) + 1
    ensures forall x :: x != s ==> CountOf(r, x) == CountOf(acc, x)
    ensures Sum(r) == Sum(acc) + 1
  {
    match Find(acc, s)
    case None =>
      var r := acc + [StatusCount(s, 1)];
      SumSnoc(acc, StatusCount(s, 1));
      FindSnoc(acc, StatusCount(s, 1), s);
      assert forall x :: x != s ==> Find(r, x) == Find(acc, x) by {
        forall x | x != s ensures Find(r, x) == Find(acc, x) {
          FindSnoc(acc, StatusCount(s, 1), x);
        }
      }
      r
    case Some(k) =>
      var r := acc[k := StatusCount(s, acc[k].count + 1)];
      SumUpdate(acc, k, acc[k].count + 1);
      assert forall x :: x != s ==> Find(r, x) == Find(acc, x) by {
        forall x | x != s ensures Find(r, x) == Find(acc, x) {
          FindUpdate(acc, k, StatusCount(s, acc[k].count + 1), x);
        }
      }
      FindUpdate(acc, k, StatusCount(s, acc[k].count + 1), s);
      r
  }

  lemma {:induction false} SumSnoc(acc: seq<StatusCount>, e: StatusCount)
    ensures Sum(acc + [e]) == Sum(acc) + e.count
  {
    if |acc| > 0 {
      assert (acc + [e])[1..] == acc[1..] + [e];
      SumSnoc(acc[1..], e);
    } else {
      assert acc + [e] == [e];
    }
  }

  /** A lookup in a list grown at the end finds the old entry, or else the new one. */
  lemma {:induction false} FindSnoc(acc: seq<StatusCount>, e: StatusCount, x: string)
    ensures Find(acc + [e], x) == if Find(acc, x).Some? then Find(acc, x) else if e.status == x then Some(|acc|) else None
  {
    if |acc| > 0 {
      assert (acc + [e])[1..] == acc[1..] + [e];
      FindSnoc(acc[1..], e, x);
    } else {
      assert acc + [e] == [e];
    }
  }

  lemma {:induction false} SumUpdate(acc: seq<StatusCount>, k: nat, c: nat)
    requires k < |acc|
    ensures Sum(acc[k := acc[k].(count := c)]) == Sum(acc) - acc[k].count + c
  {
    if k > 0 {
      assert acc[k := acc[k].(count := c)][1..] == acc[1..][k - 1 := acc[1..][k - 1].(count := c)];
      SumUpdate(acc[1..], k - 1, c);
    }
  }

  /** Replacing an entry by one with the same status leaves every lookup's position alone. */
  lemma {:induction false} FindUpdate(acc: seq<StatusCount>, k: nat, e: StatusCount, x: string)
    requires k < |acc| && e.status == acc[k].status
    ensures Find(acc[k := e], x) == Find(acc, x)
  {
    if |acc| > 0 && k > 0 {
      assert acc[k := e][1..] == acc[1..][k - 1 := e];
      FindUpdate(acc[1..], k - 1, e, x);
    }
  }

  /**
   * The `ticket-counts` query: the reduce over the tickets the query returns,
   * the non-deleted ones, in list order.
   */
  function TicketCounts(rows: seq<TicketRow>): (r: seq<StatusCount>)
    ensures UniqueStatuses(r)
    decreases |rows|
  {
    if |rows| == 0 then []
    else
      var acc := TicketCounts(rows[..|rows| - 1]);
      var t := rows[|rows| - 1];
      if t.isDeleted then acc else Bump(acc, t.ticketStatus)
  }

  predicate IsLive(t: TicketRow) { !t.isDeleted }

  /** The number of non-deleted rows in status `s`. */
  function LiveCount(rows: seq<TicketRow>, s: string): nat
    decreases |rows|
  {
    if |rows| == 0 then 0
    else
      var t := rows[|rows| - 1];
      LiveCount(rows[..|rows| - 1], s) + (if !t.isDeleted && t.ticketStatus == s then 1 else 0)
  }

  /** The count shown for a status is the number of non-deleted tickets that have it. */
  lemma {:induction false} CountsAreCounts(rows: seq<TicketRow>, s: string)
    ensures CountOf(TicketCounts(rows), s) == LiveCount(rows, s)
    decreases |rows|
  {
    if |rows| > 0 {
      CountsAreCounts(rows[..|rows| - 1], s);
    }
  }

  /** The counts add up to the number of non-deleted tickets. */
  lemma {:induction false} CountsTotal(rows: seq<TicketRow>)
    ensures Sum(TicketCounts(rows)) == Seqs.Count(rows, IsLive)
    decreases |rows|
  {
    if |rows| > 0 {
      var init, t := rows[..|rows| - 1], rows[|rows| - 1];
      CountsTotal(init);
      assert rows == init + [t];
      Seqs.CountSnoc(init, t, IsLive);
      var acc := TicketCounts(init);
      assert TicketCounts(rows) == if t.isDeleted then acc else Bump(acc, t.ticketStatus);
      assert Sum(TicketCounts(rows)) == Sum(acc) + (if IsLive(t) then 1 else 0);
    }
  }

  /** `handleStatusClick`: clicking the selected status clears the selection, any other selects it. */
  function Toggle(selected: Option<string>, status: string): (r: Option<string>)
    ensures r == None <==> selected == Some(status)
    ensures r != None ==> r == Some(status)
  {
    if selected == Some(status) then None else Some(status)
  }

  /** Two clicks on a card restore the selection when it was empty or that card; from another card they clear it. */
  lemma ToggleTwice(selected: Option<string>, status: string)
    ensures selected == None || selected == Some(status) ==> Toggle(Toggle(selected, status), status) == selected
    ensures selected != None && selected != Some(status) ==> Toggle(Toggle(selected, status), status) == None
  {
  }

  /** A selection filters only when it is present and non-empty (the empty string is falsy). */
  predicate Filtering(selected: Option<string>) {
    selected.Some? && selected.value != ""
  }

  /**
   * The `tickets` query: non-deleted tickets, of the selected status if one
   * is selected, never `in_queue`.
   */
  function MainList(rows: seq<TicketRow>, selected: Option<string>): (r: seq<TicketRow>)
    ensures forall i :: 0 <= i < |r| ==> r[i] in rows && !r[i].isDeleted && r[i].ticketStatus != "in_queue" &&
                                         (Filtering(selected) ==> r[i].ticketStatus == selected.value)
    ensures forall i :: (0 <= i < |rows| && !rows[i].isDeleted && rows[i].ticketStatus != "in_queue" &&
                         (!Filtering(selected) || rows[i].ticketStatus == selected.value)) ==> rows[i] in r
  {
    Seqs.Filter(rows, (t: TicketRow) =>
      !t.isDeleted && (!Filtering(selected) || t.ticketStatus == selected.value) && t.ticketStatus != "in_queue")
  }

  /** `filteredTickets`: the main list, filtered once more by the selection on the client. */
  function Shown(rows: seq<TicketRow>, selected: Option<string>): (r: seq<TicketRow>)
    ensures Filtering(selected) ==> forall i :: 0 <= i < |r| ==> r[i].ticketStatus == selected.value
  {
    var list := MainList(rows, selected);
    if Filtering(selected) then Seqs.Filter(list, (t: TicketRow) => t.ticketStatus == selected.value)
    else list
  }

  /** The second, client-side filter changes nothing: the query already applied it. */
  lemma ShownIsMainList(rows: seq<TicketRow>, selected: Option<string>)
    ensures Shown(rows, selected) == MainList(rows, selected)
  {
    if Filtering(selected) {
      Seqs.FilterAll(MainList(rows, selected), (t: TicketRow) => t.ticketStatus == selected.value);
    }
  }

  /** Selecting the `in_queue` card always lists nothing, whatever its count says. */
  lemma InQueueSelectionEmpty(rows: seq<TicketRow>)
    ensures Shown(rows, Some("in_queue")) == []
  {
    var list := MainList(rows, Some("in_queue"));
  }

  /** The `generated-tickets` query: status `in_queue` and awaiting approval (deleted ones included). */
  function Generated(rows: seq<TicketRow>): (r: seq<TicketRow>)
    ensures forall i :: 0 <= i < |r| ==> r[i] in rows && r[i].ticketStatus == "in_queue" && r[i].needsApproval
    ensures forall i :: 0 <= i < |rows| && rows[i].ticketStatus == "in_queue" && rows[i].needsApproval ==> rows[i] in r
  {
    Seqs.Filter(rows, (t: TicketRow) => t.ticketStatus == "in_queue" && t.needsApproval)
  }

  /** The technician's pending-approval tab: the main list's tickets the user created that await approval. */
  function Pending(rows: seq<TicketRow>, selected: Option<string>, user: string): (r: seq<TicketRow>)
    ensures forall i :: 0 <= i < |r| ==> r[i] in MainList(rows, selected) && r[i].createdBy == user && r[i].needsApproval
    ensures forall i :: 0 <= i < |MainList(rows, selected)| ==>
      (MainList(rows, selected)[i].createdBy == user && MainList(rows, selected)[i].needsApproval ==> MainList(rows, selected)[i] in r)
  {
    Seqs.Filter(MainList(rows, selected), (t: TicketRow) => t.createdBy == user && t.needsApproval)
  }

  /**
   * A ticket waiting in the generated list never shows in the pending tab:
   * the main list the tab is built from leaves out every `in_queue` ticket.
   */
  lemma PendingMissesGenerated(rows: seq<TicketRow>, selected: Option<string>, user: string, t: TicketRow)
    requires t in Generated(rows)
    ensures t !in Pending(rows, selected, user)
  {
  }

  /** The columns the assignment writes, with `now` for the timestamp. */
  function Assigned(t: TicketRow, technicianId: string, now: string): (r: TicketRow)
    ensures r.technicianId == Some(technicianId) && r.ticketStatus == "assigned" && !r.needsApproval
    ensures r.updatedAt == Some(now)
    ensures r.(technicianId := t.technicianId, ticketStatus := t.ticketStatus, needsApproval := t.needsApproval,
               updatedAt := t.updatedAt) == t
  {
    t.(technicianId := Some(technicianId), ticketStatus := "assigned", needsApproval := false, updatedAt := Some(now))
  }

  /** What the assignment leaves behind: the ticket, the notification row written, and whether it reported success. */
  datatype AssignOutcome = AssignOutcome(ticket: TicketRow, notice: Option<Notice>, succeeded: bool)

  /**
   * Assigning a generated ticket: one update of technician, status,
   * approval flag and timestamp; then a notification row for the
   * technician, whose failure is logged but does not fail the assignment.
   * `updateOk` and `noticeOk` are the store's answers.
   */
  function AssignFromGenerated(t: TicketRow, technicianId: string, now: string, updateOk: bool, noticeOk: bool): (r: AssignOutcome)
    ensures r.succeeded <==> updateOk
    ensures updateOk ==> r.ticket == Assigned(t, technicianId, now)
    ensures !updateOk ==> r.ticket == t && r.notice.None?
    ensures r.notice.Some? <==> updateOk && noticeOk
    ensures r.notice.Some? ==> r.notice.value.userId == technicianId && r.notice.value.ticketId == t.ticketId &&
                               !r.notice.value.isRead
  {
    if !updateOk then AssignOutcome(t, None, false)
    else
      var n := Notice(technicianId, "New Ticket Assigned", "You have been assigned to ticket: " + t.title, t.ticketId, false);
      AssignOutcome(Assigned(t, technicianId, now), if noticeOk then Some(n) else None, true)
  }

  /** After a successful assignment the ticket has left the generated list and, if not deleted, joined the main list. */
  lemma AssignedLeavesGenerated(t: TicketRow, technicianId: string, now: string, noticeOk: bool)
    ensures var a := AssignFromGenerated(t, technicianId, now, true, noticeOk).ticket;
      a !in Generated([a]) && (!a.isDeleted ==> a in MainList([a], None))
  {
  }
}
