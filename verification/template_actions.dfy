/**
 * The WhatsApp template button on a ticket: which stored templates it
 * offers, how it fills a template's placeholders from the ticket, how it
 * normalises the customer's phone and builds the `wa.me` link, and which of
 * its four views it renders.
 */
module TemplateActions {
  import opened Wrappers
  import opened Text
  import Seqs

  /** The ticket data the button receives. */
  datatype Context = Context(
    customerName: string, technicianName: Option<string>, ticketId: string,
    issue: string, priority: string, resolution: Option<string>)

  /** A placeholder and the text that replaces it. */
  datatype Substitution = Substitution(pattern: string, value: string)

  /** The placeholders `replaceVariables` knows, in the order it replaces them. */
  const Placeholders: seq<string> := [
    "{customer_name}", "{technician_name}", "{ticket_id}", "{issue}", "{priority}", "{resolution}"
  ]

  /** The six replacements of a context; a missing technician name or resolution becomes the empty string. */
  function Substitutions(ctx: Context): (r: seq<Substitution>)
    ensures |r| == |Placeholders|
    ensures forall i :: 0 <= i < |r| ==> r[i].pattern == Placeholders[i]
  {
    [ Substitution("{customer_name}", ctx.customerName),
      Substitution("{technician_name}", ctx.technicianName.GetOr("")),
      Substitution("{ticket_id}", ctx.ticketId),
      Substitution("{issue}", ctx.issue),
      Substitution("{priority}", ctx.priority),
      Substitution("{resolution}", ctx.resolution.GetOr("")) ]
  }

  predicate AllBraced(subs: seq<Substitution>) {
    forall i :: 0 <= i < |subs| ==> IsBraced(subs[i].pattern)
  }

  /** No replacement text contains a `{`, so no replacement can create a placeholder. */
  predicate ValuesOpenFree(subs: seq<Substitution>) {
    forall i :: 0 <= i < |subs| ==> '{' !in subs[i].value
  }

  /**
   * Applies the replacements one after another, each to the result of the
   * previous one. A text in which no pattern occurs comes back unchanged.
   */
  function ApplyAll(text: string, subs: seq<Substitution>): (r: string)
    requires forall i :: 0 <= i < |subs| ==> |subs[i].pattern| > 0
    ensures (forall i :: 0 <= i < |subs| ==> !Contains(text, subs[i].pattern)) ==> r == text
    decreases |subs|
  {
    if |subs| == 0 then text
    else
      var t := ReplaceAll(text, subs[0].pattern, subs[0].value);
      assert (forall i :: 0 <= i < |subs| ==> !Contains(text, subs[i].pattern)) ==> t == text by {
        if forall i :: 0 <= i < |subs| ==> !Contains(text, subs[i].pattern) {
          ReplaceAllAbsent(text, subs[0].pattern, subs[0].value);
        }
      }
      assert forall i :: 0 <= i < |subs| - 1 ==> subs[1..][i] == subs[i + 1];
      ApplyAll(t, subs[1..])
  }

  /**
   * `replaceVariables`: the six global replacements, in their fixed order.
   * A text with none of the six placeholders is sent as it is; for a
   * context without `{` in its values, every occurrence of each placeholder
   * is replaced by its value and every other text, other placeholders
   * included, stays verbatim.
   */
  function ReplaceVariables(ctx: Context, text: string): (r: string)
    ensures (forall i :: 0 <= i < |Placeholders| ==> !Contains(text, Placeholders[i])) ==> r == text
    ensures PlainContext(ctx) ==> forall ps :: WellFormedPieces(ps) && Join(ps) == text ==>
      r == JoinSubstituted(ps, Substitutions(ctx))
  {
    PlaceholdersBraced(ctx);
    var r := ApplyAll(text, Substitutions(ctx));
    assert PlainContext(ctx) ==> forall ps :: WellFormedPieces(ps) && Join(ps) == text ==>
      r == JoinSubstituted(ps, Substitutions(ctx)) by {
      if PlainContext(ctx) {
        forall ps | WellFormedPieces(ps) && Join(ps) == text ensures r == JoinSubstituted(ps, Substitutions(ctx)) {
          ApplyAllPieces(ps, Substitutions(ctx));
        }
      }
    }
    r
  }

  lemma PlaceholdersBraced(ctx: Context)
    ensures AllBraced(Substitutions(ctx))
  {
    PlaceholderList();
  }

  /** The six placeholders are distinct and each is a braced token. */
  lemma PlaceholderList()
    ensures forall i :: 0 <= i < |Placeholders| ==> IsBraced(Placeholders[i])
    ensures forall i, j :: 0 <= i < j < |Placeholders| ==> Placeholders[i] != Placeholders[j]
  {
    PlaceholdersAreBraced();
    PlaceholdersDistinct();
  }

  lemma PlaceholdersAreBraced()
    ensures forall i :: 0 <= i < |Placeholders| ==> IsBraced(Placeholders[i])
  {
    forall i | 0 <= i < |Placeholders| ensures IsBraced(Placeholders[i]) {
      PlaceholderBraced(i);
    }
  }

  lemma PlaceholderBraced(i: nat)
    requires i < |Placeholders|
    ensures IsBraced(Placeholders[i])
  {
    BracedChars(Placeholders[i]);
  }

  lemma PlaceholdersDistinct()
    ensures forall i, j :: 0 <= i < j < |Placeholders| ==> Placeholders[i] != Placeholders[j]
  {
    forall i, j | 0 <= i < j < |Placeholders| ensures Placeholders[i] != Placeholders[j] {
      assert Placeholders[i][1] != Placeholders[j][1] || |Placeholders[i]| != |Placeholders[j]|;
    }
  }

  /** The value of the first replacement whose pattern is `q`, or `q` itself if there is none. */
  function TokenValue(q: string, subs: seq<Substitution>): (r: string)
    ensures (forall i :: 0 <= i < |subs| ==> subs[i].pattern != q) ==> r == q
    ensures forall i :: 0 <= i < |subs| && subs[i].pattern == q && (forall j :: 0 <= j < i ==> subs[j].pattern != q)
                        ==> r == subs[i].value
  {
    if |subs| == 0 then q
    else if subs[0].pattern == q then subs[0].value
    else
      assert forall i :: 1 <= i < |subs| ==> subs[i] == subs[1..][i - 1];
      TokenValue(q, subs[1..])
  }

  /** A `{`-free prefix passes through every replacement untouched. */
  lemma {:induction false} ApplyAllOpenFree(x: string, b: string, subs: seq<Substitution>)
    requires AllBraced(subs) && '{' !in x
    ensures ApplyAll(x + b, subs) == x + ApplyAll(b, subs)
    decreases |subs|
  {
    if |subs| > 0 {
      ReplaceAllOpenFreePrefix(x, b, subs[0].pattern, subs[0].value);
      ApplyAllOpenFree(x, ReplaceAll(b, subs[0].pattern, subs[0].value), subs[1..]);
    }
  }

  /**
   * A placeholder at the start of a text is replaced by its value (or kept,
   * if it is not one of the patterns) and the rest of the text is processed
   * on its own, as long as no value introduces a `{`.
   */
  lemma {:induction false} ApplyAllLeading(q: string, rest: string, subs: seq<Substitution>)
    requires IsBraced(q) && AllBraced(subs) && ValuesOpenFree(subs)
    ensures ApplyAll(q + rest, subs) == TokenValue(q, subs) + ApplyAll(rest, subs)
    decreases |subs|
  {
    if |subs| > 0 {
      var p, v := subs[0].pattern, subs[0].value;
      var rest' := ReplaceAll(rest, p, v);
      AroundEmptyPrefix(q, rest, p, v);
      if q == p {
        assert '{' !in v;
        ApplyAllOpenFree(v, rest', subs[1..]);
      } else {
        ApplyAllLeading(q, rest', subs[1..]);
      }
    }
  }

  /** A template text cut into `{`-free literal runs and placeholders. */
  datatype Piece = Literal(text: string) | Placeholder(token: string)

  predicate WellFormedPiece(p: Piece) {
    match p
    case Literal(t) => '{' !in t
    case Placeholder(q) => IsBraced(q)
  }

  predicate WellFormedPieces(ps: seq<Piece>) {
    forall i :: 0 <= i < |ps| ==> WellFormedPiece(ps[i])
  }

  function PieceText(p: Piece): string {
    match p
    case Literal(t) => t
    case Placeholder(q) => q
  }

  function PieceSubstituted(p: Piece, subs: seq<Substitution>): string {
    match p
    case Literal(t) => t
    case Placeholder(q) => TokenValue(q, subs)
  }

  /** The text the pieces spell. */
  function Join(ps: seq<Piece>): string {
    if |ps| == 0 then [] else PieceText(ps[0]) + Join(ps[1..])
  }

  /** The text the pieces spell with every placeholder replaced by its value. */
  function JoinSubstituted(ps: seq<Piece>, subs: seq<Substitution>): string {
    if |ps| == 0 then [] else PieceSubstituted(ps[0], subs) + JoinSubstituted(ps[1..], subs)
  }

  /** One piece in front of an already processed rest. */
  lemma ApplyAllPiece(p: Piece, rest: string, subs: seq<Substitution>)
    requires WellFormedPiece(p) && AllBraced(subs) && ValuesOpenFree(subs)
    ensures ApplyAll(PieceText(p) + rest, subs) == PieceSubstituted(p, subs) + ApplyAll(rest, subs)
  {
    match p
    case Literal(t) =>
      ApplyAllOpenFree(t, rest, subs);
    case Placeholder(q) =>
      ApplyAllLeading(q, rest, subs);
  }

  /** Applying the replacements replaces every placeholder of the text, wherever it stands. */
  lemma {:induction false} ApplyAllPieces(ps: seq<Piece>, subs: seq<Substitution>)
    requires WellFormedPieces(ps) && AllBraced(subs) && ValuesOpenFree(subs)
    ensures ApplyAll(Join(ps), subs) == JoinSubstituted(ps, subs)
    decreases |ps|
  {
    if |ps| > 0 {
      assert WellFormedPiece(ps[0]);
      assert WellFormedPieces(ps[1..]) by {
        forall i | 0 <= i < |ps| - 1 ensures WellFormedPiece(ps[1..][i]) {
          assert ps[1..][i] == ps[i + 1];
        }
      }
      ApplyAllPieces(ps[1..], subs);
      ApplyAllPiece(ps[0], Join(ps[1..]), subs);
    } else {
      assert forall i :: 0 <= i < |subs| ==> !Contains([], subs[i].pattern);
    }
  }

  /** The replacement texts of a context contain no `{`. */
  predicate PlainContext(ctx: Context) {
    && '{' !in ctx.customerName && '{' !in ctx.technicianName.GetOr("") && '{' !in ctx.ticketId
    && '{' !in ctx.issue && '{' !in ctx.priority && '{' !in ctx.resolution.GetOr("")
  }

  /** What each placeholder stands for; a missing technician name or resolution is empty. */
  lemma PlaceholderValues(ctx: Context)
    ensures TokenValue("{customer_name}", Substitutions(ctx)) == ctx.customerName
    ensures TokenValue("{technician_name}", Substitutions(ctx)) == ctx.technicianName.GetOr("")
    ensures TokenValue("{ticket_id}", Substitutions(ctx)) == ctx.ticketId
    ensures TokenValue("{issue}", Substitutions(ctx)) == ctx.issue
    ensures TokenValue("{priority}", Substitutions(ctx)) == ctx.priority
    ensures TokenValue("{resolution}", Substitutions(ctx)) == ctx.resolution.GetOr("")
  {
    PlaceholderList();
    var subs := Substitutions(ctx);
    assert subs[0].pattern == "{customer_name}";
    assert subs[1].pattern == "{technician_name}";
    assert subs[2].pattern == "{ticket_id}";
    assert subs[3].pattern == "{issue}";
    assert subs[4].pattern == "{priority}";
    assert subs[5].pattern == "{resolution}";
  }

  /** Running the replacements is running a first part of them, then the rest. */
  lemma {:induction false} ApplyAllSplit(text: string, subs: seq<Substitution>, k: nat)
    requires k <= |subs| && forall i :: 0 <= i < |subs| ==> |subs[i].pattern| > 0
    ensures ApplyAll(text, subs) == ApplyAll(ApplyAll(text, subs[..k]), subs[k..])
    decreases k
  {
    if k > 0 {
      var t1 := ReplaceAll(text, subs[0].pattern, subs[0].value);
      assert subs[1..][..k - 1] == subs[..k][1..];
      assert subs[1..][k - 1..] == subs[k..];
      ApplyAllSplit(t1, subs[1..], k - 1);
    }
  }

  /**
   * The replacements run in sequence, so a customer name that itself reads
   * `{ticket_id}` is expanded once more into the ticket id.
   */
  lemma LaterPlaceholderExpanded(ctx: Context)
    requires ctx.customerName == "{ticket_id}" && PlainContext(ctx.(customerName := ""))
    ensures ReplaceVariables(ctx, "{customer_name}") == ctx.ticketId
  {
    PlaceholdersBraced(ctx);
    CustomerNameRenamed(ctx);
    TicketIdReplaced(ctx);
  }

  /**
   * A placeholder inside doubled braces is still replaced and the outer
   * braces stay: `{{customer_name}}` becomes `{Ann}` for the customer Ann.
   */
  lemma StrayBracesKept(ctx: Context)
    requires ctx.customerName == "Ann"
    ensures ReplaceVariables(ctx, "{{customer_name}}") == "{Ann}"
  {
    PlaceholdersBraced(ctx);
    var subs := Substitutions(ctx);
    var s, p := "{{customer_name}}", "{customer_name}";
    assert subs[0] == Substitution(p, "Ann");
    ReplaceAllSkipStep(s, p, "Ann");
    assert s[1..] == p + "}";
    ReplaceAllMatchStep(s[1..], p, "Ann");
    assert s[1..][|p|..] == "}";
    assert ReplaceAll(s, p, "Ann") == "{Ann}";
    var rest := subs[1..];
    forall i | 0 <= i < |rest| ensures !Contains("{Ann}", rest[i].pattern) {
      assert rest[i].pattern == Placeholders[i + 1];
      assert |Placeholders[i + 1]| >= 7;
    }
    assert ApplyAll(s, subs) == ApplyAll("{Ann}", rest);
  }

  /** The first replacement turns the customer-name placeholder into the customer name. */
  lemma CustomerNameRenamed(ctx: Context)
    ensures AllBraced(Substitutions(ctx))
    ensures ApplyAll("{customer_name}", Substitutions(ctx)) == ApplyAll(ctx.customerName, Substitutions(ctx)[1..])
  {
    PlaceholdersBraced(ctx);
    var s, v := "{customer_name}", ctx.customerName;
    ReplaceAllMatchStep(s, s, v);
    assert s[|s|..] == [];
    assert ReplaceAll(s, s, v) == v;
  }

  /** The later replacements turn the ticket-id placeholder into the ticket id. */
  lemma TicketIdReplaced(ctx: Context)
    requires PlainContext(ctx.(customerName := ""))
    ensures AllBraced(Substitutions(ctx)[1..])
    ensures ApplyAll("{ticket_id}", Substitutions(ctx)[1..]) == ctx.ticketId
  {
    PlaceholdersBraced(ctx);
    var rest := Substitutions(ctx)[1..];
    assert AllBraced(rest) && ValuesOpenFree(rest);
    assert rest[0].pattern == "{technician_name}" && rest[1].pattern == "{ticket_id}";
    assert IsBraced("{ticket_id}") by { PlaceholderBraced(2); }
    ApplyAllToken("{ticket_id}", rest);
  }

  /** A lone placeholder becomes its value. */
  lemma ApplyAllToken(q: string, subs: seq<Substitution>)
    requires IsBraced(q) && AllBraced(subs) && ValuesOpenFree(subs)
    ensures ApplyAll(q, subs) == TokenValue(q, subs)
  {
    var e: string := [];
    ApplyAllLeading(q, e, subs);
    assert forall i :: 0 <= i < |subs| ==> !Contains(e, subs[i].pattern);
    assert q + e == q;
    assert TokenValue(q, subs) + e == TokenValue(q, subs);
  }

  /** `s.replace(/\s+/g, '')`: the text with every whitespace character removed. */
  function RemoveSpaces(s: string): (r: string)
    ensures |r| <= |s|
    ensures forall i :: 0 <= i < |r| ==> !IsSpace(r[i]) && r[i] in s
    ensures forall i :: 0 <= i < |s| && !IsSpace(s[i]) ==> s[i] in r
  {
    if |s| == 0 then []
    else if IsSpace(s[0]) then RemoveSpaces(s[1..])
    else [s[0]] + RemoveSpaces(s[1..])
  }

  /** Removing whitespace works piecewise, so the remaining characters keep their order. */
  lemma {:induction false} RemoveSpacesConcat(a: string, b: string)
    ensures RemoveSpaces(a + b) == RemoveSpaces(a) + RemoveSpaces(b)
  {
    if |a| > 0 {
      assert (a + b)[1..] == a[1..] + b;
      RemoveSpacesConcat(a[1..], b);
    } else {
      assert a + b == b;
    }
  }

  /** A text without whitespace is left as it is. */
  lemma {:induction false} RemoveSpacesNone(s: string)
    requires forall i :: 0 <= i < |s| ==> !IsSpace(s[i])
    ensures RemoveSpaces(s) == s
  {
    if |s| > 0 {
      RemoveSpacesNone(s[1..]);
      assert [s[0]] + s[1..] == s;
    }
  }

  /**
   * The phone number the link uses: whitespace removed (a missing mobile
   * reads as the empty string), then one leading `+` dropped.
   */
  function NormalizePhone(mobile: Option<string>): (r: string)
    ensures forall i :: 0 <= i < |r| ==> !IsSpace(r[i])
    ensures var p := RemoveSpaces(mobile.GetOr(""));
            if StartsWith(p, "+") then "+" + r == p else r == p
    ensures mobile.None? ==> r == ""
  {
    var p := RemoveSpaces(mobile.GetOr(""));
    if StartsWith(p, "+") then
      assert p == "+" + p[1..];
      p[1..]
    else p
  }

  const WaPrefix: string := "https://wa.me/"
  const TextQuery: string := "?text="

  /**
   * The `wa.me` link; `encode` stands for `encodeURIComponent`. For a phone
   * without `?`, reading the link back gives that phone and the encoded
   * message.
   */
  function WaUrl(phone: string, message: string, encode: string -> string): (r: string)
    ensures StartsWith(r, WaPrefix)
    ensures '?' !in phone ==> LinkPhone(r) == Some(phone) && LinkText(r) == Some(encode(message))
  {
    var r := WaPrefix + phone + TextQuery + encode(message);
    assert r[..|WaPrefix|] == WaPrefix;
    assert '?' !in phone ==> LinkPhone(r) == Some(phone) && LinkText(r) == Some(encode(message)) by {
      if '?' !in phone {
        LinkTextOfParts(phone, encode(message));
      }
    }
    r
  }

  /** A link assembled from a `?`-free phone reads back that phone. */
  lemma LinkPhoneOfParts(phone: string, text: string)
    requires '?' !in phone
    ensures LinkPhone(WaPrefix + phone + TextQuery + text) == Some(phone)
  {
    var r := WaPrefix + phone + TextQuery + text;
    assert r[..|WaPrefix|] == WaPrefix;
    assert r[|WaPrefix|..] == phone + ['?'] + ("text=" + text);
    SplitFirstConcat(phone, '?', "text=" + text);
  }

  /** A link assembled from a `?`-free phone reads back the text after `?text=`. */
  lemma LinkTextOfParts(phone: string, text: string)
    requires '?' !in phone
    ensures LinkPhone(WaPrefix + phone + TextQuery + text) == Some(phone)
    ensures LinkText(WaPrefix + phone + TextQuery + text) == Some(text)
  {
    LinkPhoneOfParts(phone, text);
    var r := WaPrefix + phone + TextQuery + text;
    QueryParts(r, WaPrefix + phone);
    assert r == WaPrefix + phone + "?" + ("text=" + text);
    assert r[|WaPrefix + phone + "?"|..] == "text=" + text;
  }

  /** The phone part of a `wa.me` link: the text between the prefix and the first `?`. */
  function LinkPhone(url: string): (r: Option<string>)
    ensures r.None? <==> !StartsWith(url, WaPrefix) || '?' !in url[|WaPrefix|..]
    ensures r.Some? ==> '?' !in r.value && StartsWith(url, WaPrefix + r.value + "?")
  {
    if !StartsWith(url, WaPrefix) then None
    else match SplitFirst(url[|WaPrefix|..], '?')
      case None => None
      case Some((phone, rest)) =>
        assert url == WaPrefix + url[|WaPrefix|..];
        assert url == (WaPrefix + phone + "?") + rest;
        assert url[..|WaPrefix + phone + "?"|] == WaPrefix + phone + "?";
        Some(phone)
  }

  /**
   * The message part of a `wa.me` link: the text after the phone's `?text=`.
   * A link has one exactly when it reads as prefix, phone, `?text=`, and
   * the message is what remains.
   */
  function LinkText(url: string): (r: Option<string>)
    ensures r.Some? ==> LinkPhone(url).Some? && url == WaPrefix + LinkPhone(url).value + TextQuery + r.value
    ensures r.None? <==> LinkPhone(url).None? || !StartsWith(url, WaPrefix + LinkPhone(url).value + TextQuery)
  {
    match LinkPhone(url)
    case None => None
    case Some(phone) =>
      QueryParts(url, WaPrefix + phone);
      var rest := url[|WaPrefix + phone + "?"|..];
      if StartsWith(rest, "text=") then Some(rest[5..]) else None
  }

  /** After a head and its `?`, the rest starts with `text=` exactly when the whole starts with the head and `?text=`. */
  lemma QueryParts(url: string, head: string)
    requires StartsWith(url, head + "?")
    ensures var rest := url[|head + "?"|..];
      (StartsWith(rest, "text=") <==> StartsWith(url, head + TextQuery)) &&
      (StartsWith(rest, "text=") ==> url == head + TextQuery + rest[5..])
  {
    var h := head + "?";
    var rest := url[|h|..];
    assert url == h + rest;
    assert head + TextQuery == h + "text=";
    StartsWithCommonHead(h, rest, "text=");
    if StartsWith(rest, "text=") {
      assert rest == "text=" + rest[5..];
    }
  }

  /** Every link with a message part is the one `WaUrl` builds from its phone and a message encoding to that part. */
  lemma LinkIsBuilt(url: string, message: string, encode: string -> string)
    requires LinkText(url) == Some(encode(message))
    ensures WaUrl(LinkPhone(url).value, message, encode) == url
  {
  }

  /** The link carries exactly the normalised phone, provided the phone contains no `?`. */
  lemma WaUrlPhone(phone: string, message: string, encode: string -> string)
    requires '?' !in phone
    ensures LinkPhone(WaUrl(phone, message, encode)) == Some(phone)
  {
    var url := WaUrl(phone, message, encode);
    assert url[|WaPrefix|..] == phone + ['?'] + ("text=" + encode(message));
    SplitFirstConcat(phone, '?', "text=" + encode(message));
  }

  /** A row of the template table as the button reads it. */
  datatype StoredTemplate = StoredTemplate(id: string, name: string, message: string, status: string, isActive: bool)

  /** The templates offered for a ticket: the active ones whose status is the ticket's. */
  function Offered(rows: seq<StoredTemplate>, ticketStatus: string): (r: seq<StoredTemplate>)
    ensures forall i :: 0 <= i < |r| ==> r[i].isActive && r[i].status == ticketStatus && r[i] in rows
    ensures forall i :: 0 <= i < |rows| && rows[i].isActive && rows[i].status == ticketStatus ==> rows[i] in r
  {
    Seqs.Filter(rows, (t: StoredTemplate) => t.status == ticketStatus && t.isActive)
  }

  /**
   * Each stored row is offered under one ticket status at most, so the
   * offers for two different statuses together never outnumber the rows.
   */
  lemma {:induction false} OfferedDisjoint(rows: seq<StoredTemplate>, a: string, b: string)
    requires a != b
    ensures |Offered(rows, a)| + |Offered(rows, b)| <= |rows|
  {
    if |rows| > 0 {
      OfferedDisjoint(rows[1..], a, b);
    }
  }

  /** What the dialog shows. */
  datatype View = Spinner | MobileRequired | NoTemplates | TemplateList(templates: seq<StoredTemplate>)

  /**
   * The dialog body: a spinner while loading, then the missing-mobile
   * warning, then the empty message, and the list only when all three pass.
   */
  function DialogView(isLoading: bool, customerMobile: Option<string>, templates: Option<seq<StoredTemplate>>): (r: View)
    ensures isLoading <==> r == Spinner
    ensures r.TemplateList? <==>
      !isLoading && customerMobile.GetOr("") != "" && templates.Some? && |templates.value| > 0
    ensures r.TemplateList? ==> r.templates == templates.value
    ensures !isLoading && customerMobile.GetOr("") == "" ==> r == MobileRequired
  {
    if isLoading then Spinner
    else if customerMobile.GetOr("") == "" then MobileRequired
    else if templates.None? || |templates.value| == 0 then NoTemplates
    else TemplateList(templates.value)
  }

  /** `handleSendTemplate`: the link opened for the chosen template. */
  function SendLink(ctx: Context, customerMobile: Option<string>, t: StoredTemplate, encode: string -> string): (r: string)
    ensures StartsWith(r, WaPrefix)
    ensures '?' !in NormalizePhone(customerMobile) ==> LinkPhone(r) == Some(NormalizePhone(customerMobile))
    ensures '?' !in NormalizePhone(customerMobile) ==> LinkText(r) == Some(encode(ReplaceVariables(ctx, t.message)))
  {
    WaUrl(NormalizePhone(customerMobile), ReplaceVariables(ctx, t.message), encode)
  }
}
