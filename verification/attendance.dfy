/**
 * The admin's attendance page: approving a day's record, the badge and
 * button each technician's card shows, and the monthly report's rows and
 * column widths. Date formatting and the working-hours arithmetic are
 * passed in as functions.
 */
module Attendance {
  import opened Wrappers
  import opened Records
  import Text

  /** `approveMutation`: marks the record approved by the caller at `now`; nothing else changes. */
  function Approve(rec: AttendanceRecord, user: Option<string>, now: string, updateError: Option<string>)
    : (r: Result<AttendanceRecord, string>)
    ensures user.None? ==> r == Err("Not authenticated")
    ensures user.Some? && updateError.Some? ==> r == Err(updateError.value)
    ensures r.Ok? <==> user.Some? && updateError.None?
    ensures r.Ok? ==>
              (r.value.isApproved && r.value.approvedBy == user && r.value.approvedAt == Some(now) &&
               r.value.(isApproved := rec.isApproved, approvedBy := rec.approvedBy, approvedAt := rec.approvedAt) == rec)
  {
    if user.None? then Err("Not authenticated")
    else if updateError.Some? then Err(updateError.value)
    else Ok(rec.(isApproved := true, approvedBy := user, approvedAt := Some(now)))
  }

  /** The record a technician's card shows: the first of the day's records that is theirs. */
  function RecordFor(day: seq<AttendanceRecord>, technicianId: string): (r: Option<AttendanceRecord>)
    ensures r.None? <==> forall i :: 0 <= i < |day| ==> day[i].technicianId != technicianId
    ensures r.Some? ==> r.value in day && r.value.technicianId == technicianId
    ensures r.Some? && |day| > 0 && day[0].technicianId == technicianId ==> r.value == day[0]
    ensures r.Some? ==> exists k :: (0 <= k < |day| && day[k] == r.value &&
                                     forall j :: 0 <= j < k ==> day[j].technicianId != technicianId)
  {
    if |day| == 0 then None
    else if day[0].technicianId == technicianId then Some(day[0])
    else
      var r := RecordFor(day[1..], technicianId);
      assert r.Some? ==> exists k :: (0 <= k < |day| && day[k] == r.value &&
                                      forall j :: 0 <= j < k ==> day[j].technicianId != technicianId)
      by {
        if r.Some? {
          var k :| 0 <= k < |day[1..]| && day[1..][k] == r.value &&
            forall j :: 0 <= j < k ==> day[1..][j].technicianId != technicianId;
          assert day[k + 1] == r.value && forall j :: 0 <= j < k + 1 ==> day[j].technicianId != technicianId;
        }
      }
      r
  }

  /** The badge's text: "Approved", else the record's status, else "Not Marked". */
  function BadgeLabel(rec: Option<AttendanceRecord>): (r: string)
    ensures rec.Some? && rec.value.isApproved ==> r == "Approved"
    ensures rec.Some? && !rec.value.isApproved && rec.value.status != "" ==> r == rec.value.status
    ensures rec.None? || (!rec.value.isApproved && rec.value.status == "") ==> r == "Not Marked"
  {
    if rec.Some? && rec.value.isApproved then "Approved"
    else if rec.Some? && rec.value.status != "" then rec.value.status
    else "Not Marked"
  }

  /** The badge's style: success when approved, warning when present, secondary otherwise. */
  function BadgeVariant(rec: Option<AttendanceRecord>): (r: string)
    ensures r == "success" <==> rec.Some? && rec.value.isApproved
    ensures r == "warning" <==> rec.Some? && !rec.value.isApproved && rec.value.status == "present"
    ensures r == "secondary" <==> rec.None? || (!rec.value.isApproved && rec.value.status != "present")
  {
    if rec.Some? && rec.value.isApproved then "success"
    else if rec.Some? && rec.value.status == "present" then "warning"
    else "secondary"
  }

  /** "Approve Attendance" shows for a record that exists and whose badge is not yet the approved one. */
  predicate ShowApprove(rec: Option<AttendanceRecord>): (r: bool)
    ensures r <==> rec.Some? && BadgeVariant(rec) != "success"
  {
    rec.Some? && !rec.value.isApproved
  }

  /** After a successful approval the button is gone and the badge reads "Approved". */
  lemma ApprovalSettles(rec: AttendanceRecord, user: string, now: string)
    ensures var r := Approve(rec, Some(user), now, None);
      r.Ok? && !ShowApprove(Some(r.value)) && BadgeLabel(Some(r.value)) == "Approved" &&
      BadgeVariant(Some(r.value)) == "success"
  {
  }

  /** A profile the report looks technicians up in. */
  datatype Profile = Profile(userId: string, name: Option<string>, mobile: Option<string>)

  /** The first profile with the given user id. */
  function FindProfile(profiles: seq<Profile>, userId: string): (r: Option<Profile>)
    ensures r.None? <==> forall i :: 0 <= i < |profiles| ==> profiles[i].userId != userId
    ensures r.Some? ==> r.value in profiles && r.value.userId == userId
  {
    if |profiles| == 0 then None
    else if profiles[0].userId == userId then Some(profiles[0])
    else FindProfile(profiles[1..], userId)
  }

  /** One row of the monthly report, its cells in column order. */
  datatype ReportRow = ReportRow(
    date: string, technicianName: string, mobile: string, checkIn: string, checkOut: string,
    status: string, approved: string, workingHours: string)

  /** The report's column headers, in order. */
  const ReportKeys: seq<string> := [
    "Date", "Technician Name", "Mobile", "Check In", "Check Out", "Status", "Approved", "Working Hours"
  ]

  function Cells(row: ReportRow): (r: seq<string>)
    ensures |r| == |ReportKeys|
  {
    [row.date, row.technicianName, row.mobile, row.checkIn, row.checkOut, row.status, row.approved, row.workingHours]
  }

  /**
   * The report row for a record: the technician's name or "Unknown", the
   * mobile or "N/A", times or "-", "Yes"/"No" for approval, and the working
   * hours only when both times are set. `day`, `time` and `hours` stand for
   * the date formatting and the working-hours computation.
   */
  function ReportRowFor(rec: AttendanceRecord, profiles: seq<Profile>, day: string -> string, time: string -> string,
                        hours: (string, string) -> string): (r: ReportRow)
    ensures var p := FindProfile(profiles, rec.technicianId);
      r.technicianName == (if p.Some? && Truthy(p.value.name) then p.value.name.value else "Unknown") &&
      r.mobile == (if p.Some? && Truthy(p.value.mobile) then p.value.mobile.value else "N/A")
    ensures r.checkIn == (if Truthy(rec.checkIn) then time(rec.checkIn.value) else "-")
    ensures r.checkOut == (if Truthy(rec.checkOut) then time(rec.checkOut.value) else "-")
    ensures r.approved == (if rec.isApproved then "Yes" else "No")
    ensures r.workingHours != "-" ==> Truthy(rec.checkIn) && Truthy(rec.checkOut)
    ensures Truthy(rec.checkIn) && Truthy(rec.checkOut) ==> r.workingHours == hours(rec.checkIn.value, rec.checkOut.value)
    ensures r.date == day(rec.date) && r.status == rec.status
  {
    var p := FindProfile(profiles, rec.technicianId);
    ReportRow(
      day(rec.date),
      if p.Some? && Truthy(p.value.name) then p.value.name.value else "Unknown",
      if p.Some? && Truthy(p.value.mobile) then p.value.mobile.value else "N/A",
      if Truthy(rec.checkIn) then time(rec.checkIn.value) else "-",
      if Truthy(rec.checkOut) then time(rec.checkOut.value) else "-",
      rec.status,
      if rec.isApproved then "Yes" else "No",
      if Truthy(rec.checkIn) && Truthy(rec.checkOut) then hours(rec.checkIn.value, rec.checkOut.value) else "-")
  }

  function Max(a: nat, b: nat): nat { if a >= b then a else b }

  /** `w` is the largest of `head` and the numbers in `xs`. */
  predicate IsMaxOf(head: nat, xs: seq<nat>, w: nat) {
    w >= head && (forall i :: 0 <= i < |xs| ==> w >= xs[i]) &&
    (w == head || exists i :: 0 <= i < |xs| && w == xs[i])
  }

  /** Taking one more number into account keeps the running maximum. */
  lemma MaxOfStep(head: nat, xs: seq<nat>, x: nat, w: nat)
    requires IsMaxOf(head, xs, w)
    ensures IsMaxOf(head, xs + [x], Max(w, Max(head, x)))
  {
    var ys := xs + [x];
    assert forall i :: 0 <= i < |xs| ==> ys[i] == xs[i];
    assert ys[|xs|] == x;
    if w != head && w >= x {
      var j :| 0 <= j < |xs| && w == xs[j];
      assert w == ys[j];
    }
  }

  /** The widths of column `k`'s cells in `rows`, as JavaScript's `length` in UTF-16 code units. */
  function ColumnCells(rows: seq<ReportRow>, k: nat): (r: seq<nat>)
    requires k < |ReportKeys|
    ensures |r| == |rows| && forall i :: 0 <= i < |rows| ==> r[i] == Text.Utf16Length(Cells(rows[i])[k])
  {
    seq(|rows|, i requires 0 <= i < |rows| => Text.Utf16Length(Cells(rows[i])[k]))
  }

  /** `w` is the widest of column `k`'s header and its cells in `rows`. */
  predicate IsWidest(rows: seq<ReportRow>, k: nat, w: nat)
    requires k < |ReportKeys|
  {
    IsMaxOf(Text.Utf16Length(ReportKeys[k]), ColumnCells(rows, k), w)
  }

  /** Each header's width. */
  function HeaderWidths(): (r: seq<nat>)
    ensures |r| == |ReportKeys| && forall k :: 0 <= k < |r| ==> r[k] == Text.Utf16Length(ReportKeys[k])
  {
    seq(|ReportKeys|, k requires 0 <= k < |ReportKeys| => Text.Utf16Length(ReportKeys[k]))
  }

  /** The widths after one more row: each column keeps the larger of its width, its header's and the row's cell's. */
  function Widen(widths: seq<nat>, row: ReportRow): (r: seq<nat>)
    requires |widths| == |ReportKeys|
    ensures |r| == |ReportKeys|
    ensures forall k :: 0 <= k < |r| ==>
      r[k] == Max(widths[k], Max(Text.Utf16Length(ReportKeys[k]), Text.Utf16Length(Cells(row)[k])))
  {
    seq(|ReportKeys|, k requires 0 <= k < |ReportKeys| =>
      Max(widths[k], Max(Text.Utf16Length(ReportKeys[k]), Text.Utf16Length(Cells(row)[k]))))
  }

  /** Before any row, a column is as wide as its header. */
  lemma WidestStart(rows: seq<ReportRow>, k: nat)
    requires k < |ReportKeys|
    ensures IsWidest(rows[..0], k, Text.Utf16Length(ReportKeys[k]))
  {
    assert ColumnCells(rows[..0], k) == [];
  }

  /** One more row widens column `k` to its cell's width if that is larger. */
  lemma WidestStep(rows: seq<ReportRow>, i: nat, k: nat, w: nat)
    requires i < |rows| && k < |ReportKeys| && IsWidest(rows[..i], k, w)
    ensures IsWidest(rows[..i + 1], k, Max(w, Max(Text.Utf16Length(ReportKeys[k]), Text.Utf16Length(Cells(rows[i])[k]))))
  {
    assert rows[..i + 1] == rows[..i] + [rows[i]];
    assert ColumnCells(rows[..i + 1], k) == ColumnCells(rows[..i], k) + [Text.Utf16Length(Cells(rows[i])[k])];
    MaxOfStep(Text.Utf16Length(ReportKeys[k]), ColumnCells(rows[..i], k), Text.Utf16Length(Cells(rows[i])[k]), w);
  }

  /**
   * The report's column widths: for every column, the longest of its header
   * and its cells, measured as JavaScript's `length` in UTF-16 code units.
   * An empty report has no columns.
   */
  method ColumnWidths(rows: seq<ReportRow>) returns (widths: seq<nat>)
    ensures rows == [] ==> widths == []
    ensures rows != [] ==> |widths| == |ReportKeys|
    ensures rows != [] ==> forall k :: 0 <= k < |widths| ==> IsWidest(rows, k, widths[k])
  {
    if rows == [] {
      return [];
    }
    widths := HeaderWidths();
    forall k | 0 <= k < |widths|
      ensures IsWidest(rows[..0], k, widths[k])
    {
      WidestStart(rows, k);
    }
    var i := 0;
    while i < |rows|
      invariant 0 <= i <= |rows| && |widths| == |ReportKeys|
      invariant forall k :: 0 <= k < |widths| ==> IsWidest(rows[..i], k, widths[k])
    {
      var next := Widen(widths, rows[i]);
      forall k | 0 <= k < |next|
        ensures IsWidest(rows[..i + 1], k, next[k])
      {
        WidestStep(rows, i, k, widths[k]);
      }
      widths := next;
      i := i + 1;
    }
    assert rows[..i] == rows;
  }
}
