/**
 * The ticket card: its status badge, the status menu and who sees it, the
 * status change and soft delete it performs, and the admin-only controls.
 */
module TicketCard {
  import opened Wrappers
  import Seqs
  import opened StatusTables
  import opened Records

  const UnknownCaption: string := "Unknown Status"
  const UnknownColor: string := "bg-gray-500 text-white"

  /** The badge for a status code: the configured caption and colour, or the grey "Unknown Status" badge. */
  function Badge(code: string): (r: (string, string))
    ensures code in Codes(CardConfig) ==> r == (Lookup(CardConfig, code).value.caption, Lookup(CardConfig, code).value.color)
    ensures code !in Codes(CardConfig) ==> r == (UnknownCaption, UnknownColor)
  {
    match Lookup(CardConfig, code)
    case Some(e) => (e.caption, e.color)
    case None => (UnknownCaption, UnknownColor)
  }

  /** The card's badge for a known code is the configured row's; `rejected`, stored by the database, gets the fallback. */
  lemma BadgeExamples()
    ensures Badge("in_queue") == ("Generated", "bg-blue-500 text-white")
    ensures Badge("rejected") == (UnknownCaption, UnknownColor)
  {
    LookupFirst(CardConfig, 0);
    CardConfigHoldNotRejected();
  }

  predicate IsAdmin(role: Option<string>) { role == Some("admin") }
  predicate IsTechnician(role: Option<string>) { role == Some("technician") }

  /** The "Change Status" menu is offered to admins and technicians only. */
  predicate MenuShown(role: Option<string>): (r: bool)
    ensures r <==> role.Some? && role.value in ["admin", "technician"]
  {
    IsTechnician(role) || IsAdmin(role)
  }

  /** One entry of the status menu. */
  datatype MenuItem = MenuItem(code: string, caption: string, disabled: bool)

  /** The menu built from a table: one entry per row, in table order, the current status disabled. */
  function Menu(t: seq<Entry>, current: string): (r: seq<MenuItem>)
    ensures |r| == |t|
    ensures forall i :: 0 <= i < |t| ==> r[i].code == t[i].code && r[i].caption == t[i].caption
  {
    seq(|t|, i requires 0 <= i < |t| => MenuItem(t[i].code, t[i].caption, t[i].code == current))
  }

  /** An entry is disabled exactly when it is the current status. */
  lemma MenuDisabled(t: seq<Entry>, current: string, i: nat)
    requires i < |t|
    ensures Menu(t, current)[i].disabled <==> t[i].code == current
  {
  }

  /** With distinct codes, one entry is disabled when the current status is in the table and none otherwise. */
  lemma {:induction false} MenuDisabledCount(t: seq<Entry>, current: string)
    requires Distinct(Codes(t))
    ensures Seqs.Count(Menu(t, current), (m: MenuItem) => m.disabled) == if current in Codes(t) then 1 else 0
  {
    var m := Menu(t, current);
    if |t| > 0 {
      assert m[1..] == Menu(t[1..], current);
      assert Distinct(Codes(t[1..])) by {
        assert forall i :: 0 <= i < |t| - 1 ==> Codes(t[1..])[i] == Codes(t)[i + 1];
      }
      MenuDisabledCount(t[1..], current);
      assert current in Codes(t) <==> t[0].code == current || current in Codes(t[1..]) by {
        assert forall i :: 0 <= i < |t| - 1 ==> Codes(t[1..])[i] == Codes(t)[i + 1];
        if current in Codes(t) {
          var k :| 0 <= k < |t| && Codes(t)[k] == current;
          if k > 0 { assert Codes(t[1..])[k - 1] == current; }
        }
      }
      if t[0].code == current {
        assert current !in Codes(t[1..]) by {
          forall i | 0 <= i < |t| - 1 ensures Codes(t[1..])[i] != current {
            assert Codes(t)[0] != Codes(t)[i + 1];
          }
        }
      }
    }
  }

  /** The card's menu: every configured status, the current one disabled. */
  function CardMenu(current: string): (r: seq<MenuItem>)
    ensures |r| == |CardConfig| && forall i :: 0 <= i < |r| ==> r[i].code == CardConfig[i].code
    ensures Seqs.Count(r, (m: MenuItem) => m.disabled) == if current in Codes(CardConfig) then 1 else 0
  {
    CardConfigShape();
    MenuDisabledCount(CardConfig, current);
    Menu(CardConfig, current)
  }

  /**
   * `handleStatusChange`: writes the chosen code to `ticket_status` and
   * nothing else; a failed write (`ok` false) is logged and the ticket stays
   * as it was. The caller never sees an error.
   */
  function ChangeStatus(t: TicketRow, newStatus: string, ok: bool): (r: TicketRow)
    ensures r.(ticketStatus := t.ticketStatus) == t
    ensures r.ticketStatus == (if ok then newStatus else t.ticketStatus)
  {
    if ok then t.(ticketStatus := newStatus) else t
  }

  /** Choosing the previous status again restores the ticket exactly. */
  lemma ChangeStatusUndo(t: TicketRow, newStatus: string)
    ensures ChangeStatus(ChangeStatus(t, newStatus, true), t.ticketStatus, true) == t
  {
  }

  /** `handleDelete`: a soft delete; the toast reports whether the write succeeded. */
  function Delete(t: TicketRow, ok: bool): (r: (TicketRow, bool))
    ensures r.1 == ok
    ensures ok ==> r.0.isDeleted && r.0.(isDeleted := t.isDeleted) == t
    ensures !ok ==> r.0 == t
  {
    if ok then (SoftDelete(t), true) else (t, false)
  }

  /** The controls in the card's footer. */
  datatype Controls = Controls(templates: bool, edit: bool, delete: bool)

  /** The template button for admins and technicians; edit and delete for admins only. */
  function FooterControls(role: Option<string>): (r: Controls)
    ensures r.edit <==> IsAdmin(role)
    ensures r.delete <==> IsAdmin(role)
    ensures r.templates <==> MenuShown(role)
    ensures r.edit ==> r.templates
  {
    var admin := IsAdmin(role);
    Controls(admin || IsTechnician(role), admin, admin)
  }
}
