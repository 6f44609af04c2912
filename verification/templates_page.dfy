/**
 * The Templates page: the status filter, the row written on save (an upsert
 * on `id`), the copy action, the import of the defaults and the choice
 * between spinner, import screen and template list.
 */
module TemplatesPage {
  import opened Wrappers
  import Seqs
  import opened DefaultTemplates

  /**
   * `filteredTemplates`: the selected status filters the list unless no
   * status (or the empty string, which is falsy) or `all` is selected.
   */
  function Filtered(templates: Option<seq<WhatsAppTemplate>>, selected: Option<string>): (r: Option<seq<WhatsAppTemplate>>)
    ensures r.Some? <==> templates.Some?
    ensures selected.None? || selected.value in {"", "all"} ==> r == templates
    ensures r.Some? && selected.Some? && selected.value !in {"", "all"} ==>
      (forall i :: 0 <= i < |r.value| ==> r.value[i].status == selected.value && r.value[i] in templates.value) &&
      (forall i :: 0 <= i < |templates.value| && templates.value[i].status == selected.value ==>
         templates.value[i] in r.value)
  {
    if selected.Some? && selected.value != "" && selected.value != "all" then
      match templates
      case None => None
      case Some(ts) => Some(Seqs.Filter(ts, (t: WhatsAppTemplate) => t.status == selected.value))
    else templates
  }

  /** Filtering keeps the list's order: it works piece by piece over a concatenation. */
  lemma FilteredConcat(a: seq<WhatsAppTemplate>, b: seq<WhatsAppTemplate>, selected: Option<string>)
    ensures Filtered(Some(a + b), selected).value == Filtered(Some(a), selected).value + Filtered(Some(b), selected).value
  {
    if selected.Some? && selected.value != "" && selected.value != "all" {
      Seqs.FilterConcat(a, b, (t: WhatsAppTemplate) => t.status == selected.value);
    }
  }

  /** Choosing the same status twice is choosing it once. */
  lemma FilteredIdempotent(templates: Option<seq<WhatsAppTemplate>>, selected: Option<string>)
    ensures Filtered(Filtered(templates, selected), selected) == Filtered(templates, selected)
  {
    if selected.Some? && selected.value != "" && selected.value != "all" && templates.Some? {
      Seqs.FilterIdempotent(templates.value, (t: WhatsAppTemplate) => t.status == selected.value);
    }
  }

  /** A row of `whatsapp_templates` as written; imported rows carry no id. */
  datatype Row = Row(
    id: Option<string>, title: string, subject: string, message: string,
    recipient: Recipient, status: string, isActive: bool, variables: seq<string>)

  /** The template a row shows again, when it has an id. */
  function Template(r: Row): WhatsAppTemplate
    requires r.id.Some?
  {
    WhatsAppTemplate(r.id.value, r.title, r.subject, r.message, r.recipient, r.status, r.isActive, Some(r.variables))
  }

  /**
   * The row a save writes: the template's own fields, except that it is
   * always active and missing variables become the empty list.
   */
  function SaveRow(t: WhatsAppTemplate): (r: Row)
    ensures r.id == Some(t.id) && r.isActive && r.variables == t.variables.GetOr([])
    ensures Template(r) == t.(isActive := true, variables := Some(t.variables.GetOr([])))
  {
    Row(Some(t.id), t.title, t.subject, t.message, t.recipient, t.status, true, t.variables.GetOr([]))
  }

  /** Saving what a row shows writes that very row back, once it is active. */
  lemma SaveRowRoundTrip(r: Row)
    requires r.id.Some? && r.isActive
    ensures SaveRow(Template(r)) == r
  {
  }

  /** Some row carries the id. */
  predicate HasId(table: seq<Row>, id: string) {
    exists i :: 0 <= i < |table| && table[i].id == Some(id)
  }

  /** No two rows with an id share it. */
  predicate UniqueIds(table: seq<Row>) {
    forall i, j :: 0 <= i < j < |table| && table[i].id.Some? ==> table[i].id != table[j].id
  }

  /** The index of the row with the given id, if any. */
  function IndexOf(table: seq<Row>, id: string): (r: Option<nat>)
    ensures r.Some? <==> HasId(table, id)
    ensures r.Some? ==> r.value < |table| && table[r.value].id == Some(id) &&
                        forall k :: 0 <= k < r.value ==> table[k].id != Some(id)
  {
    if |table| == 0 then None
    else if table[0].id == Some(id) then Some(0)
    else match IndexOf(table[1..], id)
      case None =>
        assert forall i :: 1 <= i < |table| ==> table[i] == table[1..][i - 1];
        None
      case Some(k) =>
        assert table[k + 1] == table[1..][k];
        assert forall i :: 1 <= i <= k ==> table[i] == table[1..][i - 1];
        Some(k + 1)
  }

  /**
   * `upsert` on `id`: the row with the same id is replaced in place; a row
   * with a new id is appended.
   */
  function Upsert(table: seq<Row>, row: Row): (r: seq<Row>)
    requires row.id.Some?
    ensures HasId(table, row.id.value) ==> |r| == |table|
    ensures !HasId(table, row.id.value) ==> r == table + [row]
    ensures exists i :: 0 <= i < |r| && r[i] == row
    ensures forall i :: 0 <= i < |table| && table[i].id != row.id ==> i < |r| && r[i] == table[i]
  {
    match IndexOf(table, row.id.value)
    case None =>
      assert (table + [row])[|table|] == row;
      table + [row]
    case Some(k) =>
      var r := table[k := row];
      assert r[k] == row;
      r
  }

  /** An upsert keeps the ids unique. */
  lemma UpsertUnique(table: seq<Row>, row: Row)
    requires row.id.Some? && UniqueIds(table)
    ensures UniqueIds(Upsert(table, row))
  {
    var r := Upsert(table, row);
    match IndexOf(table, row.id.value)
    case None =>
      forall i, j | 0 <= i < j < |r| && r[i].id.Some? ensures r[i].id != r[j].id {
        if j == |table| {
          assert r[i] == table[i];
        }
      }
    case Some(k) =>
      assert r == table[k := row];
  }

  /** Saving the same row twice leaves the table as after the first save. */
  lemma UpsertIdempotent(table: seq<Row>, row: Row)
    requires row.id.Some? && UniqueIds(table)
    ensures Upsert(Upsert(table, row), row) == Upsert(table, row)
  {
    var r := Upsert(table, row);
    UpsertUnique(table, row);
    var i :| 0 <= i < |r| && r[i] == row;
    var k := IndexOf(r, row.id.value).value;
    assert k <= i;
    assert k == i;
    assert r[i := row] == r;
  }

  /**
   * The copy button: the same template under a fresh id with ` (Copy)`
   * appended to the title; `freshId` stands for `crypto.randomUUID()`.
   */
  function Copy(t: WhatsAppTemplate, freshId: string): (r: WhatsAppTemplate)
    ensures r.(id := t.id, title := t.title) == t
    ensures |r.title| == |t.title| + 7 && r.title[..|t.title|] == t.title
  {
    t.(id := freshId, title := t.title + " (Copy)")
  }

  /** Saving a copy under an id not yet in the table adds exactly one row and leaves the rest in place. */
  lemma CopyAddsRow(table: seq<Row>, t: WhatsAppTemplate, freshId: string)
    requires !HasId(table, freshId)
    ensures Upsert(table, SaveRow(Copy(t, freshId))) == table + [SaveRow(Copy(t, freshId))]
  {
  }

  /** The row the import writes for one template: no id, always active, missing variables as the empty list. */
  function ImportRow(t: WhatsAppTemplate): (r: Row)
    ensures r == SaveRow(t).(id := None)
  {
    Row(None, t.title, t.subject, t.message, t.recipient, t.status, true, t.variables.GetOr([]))
  }

  /** `handleImportDefaults`: one row per default, in order. */
  function ImportRows(ts: seq<WhatsAppTemplate>): (r: seq<Row>)
    ensures |r| == |ts|
    ensures forall i :: 0 <= i < |r| ==> r[i].id.None? && r[i].isActive && r[i] == SaveRow(ts[i]).(id := None)
  {
    seq(|ts|, i requires 0 <= i < |ts| => ImportRow(ts[i]))
  }

  /** The import writes the defaults' headers back, apart from the id; every default's variables survive. */
  lemma ImportDefaults(prose: seq<Prose>)
    requires |prose| == |DefaultHeaders|
    ensures var rows := ImportRows(Defaults(prose));
      |rows| == 11 &&
      forall i :: 0 <= i < |rows| ==>
        rows[i].title == DefaultHeaders[i].title && rows[i].status == DefaultHeaders[i].status &&
        rows[i].recipient == DefaultHeaders[i].recipient && rows[i].subject == prose[i].subject &&
        rows[i].message == prose[i].message && Some(rows[i].variables) == DefaultHeaders[i].variables
  {
    DefaultVariables();
  }

  /** What the page shows. */
  datatype PageView = Spinner | ImportScreen | TemplateCards(templates: seq<WhatsAppTemplate>)

  /**
   * The page: a spinner while loading, then the import screen when the list
   * is missing or empty, and otherwise the cards of the filtered list.
   */
  function View(isLoading: bool, templates: Option<seq<WhatsAppTemplate>>, selected: Option<string>): (r: PageView)
    ensures isLoading <==> r == Spinner
    ensures r == ImportScreen <==> !isLoading && (templates.None? || |templates.value| == 0)
    ensures r.TemplateCards? ==> templates.Some? && r.templates == Filtered(templates, selected).value
  {
    if isLoading then Spinner
    else if templates.None? || |templates.value| == 0 then ImportScreen
    else TemplateCards(Filtered(templates, selected).value)
  }

  /** A non-empty list with a status nobody uses shows an empty card list, not the import screen. */
  lemma EmptyFilterStillCards(templates: seq<WhatsAppTemplate>, status: string)
    requires |templates| > 0 && status !in {"", "all"}
    requires forall i :: 0 <= i < |templates| ==> templates[i].status != status
    ensures View(false, Some(templates), Some(status)) == TemplateCards([])
  {
  }
}
