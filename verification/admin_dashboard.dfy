/**
 * The admin's home page statistics: every ticket not deleted, and how many
 * of them are done.
 */
module AdminDashboard {
  import Seqs
  import opened Records
  import TechnicianDashboard

  /** The page's statistics and its pie chart's slices. */
  datatype Stats = Stats(total: nat, completed: nat, statusData: seq<(string, int)>)

  predicate IsLive(t: TicketRow) { !t.isDeleted }
  predicate IsDone(t: TicketRow) { t.ticketStatus == "done" }

  /**
   * The statistics over the store's rows: the query keeps the rows not
   * deleted; `completed` counts status `done`, and the chart shows it next
   * to the rest as "Active".
   */
  function AdminStats(rows: seq<TicketRow>): (r: Stats)
    ensures var live := Seqs.Filter(rows, IsLive);
      r.total == |live| && r.completed == Seqs.Count(live, IsDone)
    ensures r.total == Seqs.Count(rows, IsLive)
    ensures r.completed <= r.total
    ensures |r.statusData| == 2 && r.statusData[0] == ("Completed", r.completed as int)
    ensures r.statusData[1].0 == "Active" && r.statusData[0].1 + r.statusData[1].1 == r.total
    ensures r.statusData[1].1 >= 0
  {
    var live := Seqs.Filter(rows, IsLive);
    var completed := Seqs.Count(live, IsDone);
    Stats(|live|, completed, [("Completed", completed), ("Active", |live| - completed)])
  }

  /** Deleted rows never count: deleting a ticket leaves the statistics as if it were absent. */
  lemma DeletedIgnored(rows: seq<TicketRow>, t: TicketRow)
    requires t.isDeleted
    ensures AdminStats(rows + [t]) == AdminStats(rows)
  {
    LiveDropsDeleted(rows, t);
  }

  lemma LiveDropsDeleted(rows: seq<TicketRow>, t: TicketRow)
    requires t.isDeleted
    ensures Seqs.Filter(rows + [t], IsLive) == Seqs.Filter(rows, IsLive)
  {
    Seqs.FilterConcat(rows, [t], IsLive);
    assert Seqs.Filter([t], IsLive) == [];
    assert Seqs.Filter(rows, IsLive) + [] == Seqs.Filter(rows, IsLive);
  }

  /**
   * The two dashboards disagree on "completed": the admin's counts `done`,
   * the technician's counts `complete`. One ticket shows it.
   */
  lemma CompletedDisagrees(t: TicketRow)
    requires t.ticketStatus == "done" && !t.isDeleted
    ensures AdminStats([t]).completed == 1
    ensures TechnicianDashboard.TicketStats([t]).completed == 0
  {
    assert Seqs.Filter([t], IsLive) == [t];
  }
}
