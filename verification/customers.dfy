/**
 * Customers: the customer schema both customer forms share, the add form's
 * duplicate-mobile check and insert, the soft delete, and the customers
 * page's name search. The e-mail format test is a parameter.
 */
module Customers {
  import opened Wrappers
  import Seqs
  import Text
  import opened Records

  /** The form's values; an optional field the form never set is `None`. */
  datatype CustomerData = CustomerData(
    name: string, mobile: string, email: Option<string>, address: Option<string>,
    company: Option<string>, gst: Option<string>)

  /** The fields the schema checks. */
  datatype CustomerField = Name | Mobile | Email | Gst

  /**
   * Whether the schema rejects field `f`; `isEmail` is the e-mail format
   * test. Lengths are JavaScript's, in UTF-16 code units; the name's
   * `min(1)` only asks for a non-empty name, which is the same in either count.
   */
  predicate Fails(d: CustomerData, isEmail: string -> bool, f: CustomerField) {
    match f
    case Name => |d.name| == 0 || Text.Upper(d.name) != d.name
    case Mobile => Text.Utf16Length(d.mobile) != 10
    case Email => d.email.Some? && d.email.value != "" && !isEmail(d.email.value)
    case Gst => d.gst.Some? && d.gst.value != "" && Text.Utf16Length(d.gst.value) != 15
  }

  /** The message shown for a rejected field. */
  function Message(d: CustomerData, f: CustomerField): string {
    match f
    case Name => if |d.name| == 0 then "Name is required" else "Name must be in capital letters"
    case Mobile => "Mobile number must be 10 digits"
    case Email => "Invalid email format"
    case Gst => "GST must be 15 digits"
  }

  /** The rejected fields, in schema order. */
  function Issues(d: CustomerData, isEmail: string -> bool): (r: seq<CustomerField>)
    ensures forall f :: f in r <==> Fails(d, isEmail, f)
  {
    (if Fails(d, isEmail, Name) then [Name] else []) +
    (if Fails(d, isEmail, Mobile) then [Mobile] else []) +
    (if Fails(d, isEmail, Email) then [Email] else []) +
    (if Fails(d, isEmail, Gst) then [Gst] else [])
  }

  /**
   * A name passes exactly when it is non-empty and has no lower-case
   * letter; the empty name gets only the "required" message.
   */
  lemma NameRule(d: CustomerData, isEmail: string -> bool)
    ensures !Fails(d, isEmail, Name) <==> |d.name| > 0 && forall i :: 0 <= i < |d.name| ==> !Text.IsLowerAscii(d.name[i])
    ensures |d.name| == 0 ==> Message(d, Name) == "Name is required"
  {
    Text.UpperFixedIffNoLower(d.name);
  }

  /**
   * The length test counts UTF-16 code units, not characters: nine digits
   * and an emoji make ten characters but eleven units, and are rejected.
   */
  lemma AstralMobileRejected(d: CustomerData, isEmail: string -> bool)
    requires d.mobile == "123456789\U{1F600}"
    ensures |d.mobile| == 10 && Mobile in Issues(d, isEmail)
  {
    var digits, emoji := "123456789", "\U{1F600}";
    assert d.mobile == digits + emoji;
    Text.Utf16LengthBmp(digits);
    assert Text.Utf16Length(emoji) == 2 by {
      assert emoji[1..] == [];
    }
    Text.Utf16LengthAppend(digits, emoji);
    assert Fails(d, isEmail, Mobile);
  }

  /** For a mobile without astral characters, as any digit string is, the test is on its ten characters. */
  lemma MobileRule(d: CustomerData, isEmail: string -> bool)
    requires forall i :: 0 <= i < |d.mobile| ==> !Text.IsAstral(d.mobile[i])
    ensures Fails(d, isEmail, Mobile) <==> |d.mobile| != 10
  {
    Text.Utf16LengthBmp(d.mobile);
  }

  /** Both forms start from empty strings, which the schema rejects on the name and the mobile only. */
  lemma DefaultsRejected(isEmail: string -> bool)
    ensures Issues(CustomerData("", "", Some(""), Some(""), Some(""), Some("")), isEmail) == [Name, Mobile]
  {
  }

  /** The ticket screen's customer form hands its values on only when the schema accepts them. */
  function Handed(d: CustomerData, isEmail: string -> bool): (r: Option<CustomerData>)
    ensures r.Some? <==> Issues(d, isEmail) == []
    ensures r.Some? ==> r.value == d
  {
    if Issues(d, isEmail) == [] then Some(d) else None
  }

  /** A row of the `customers` table. */
  datatype Customer = Customer(
    custId: string, name: string, mobile: string, email: Option<string>, address: Option<string>,
    company: Option<string>, gst: Option<string>, isDeleted: bool)

  /** The values an add inserts: empty optional fields become null. */
  datatype CustomerInsert = CustomerInsert(
    name: string, mobile: string, email: Option<string>, address: Option<string>,
    company: Option<string>, gst: Option<string>)

  function InsertFor(d: CustomerData): (r: CustomerInsert)
    ensures r.name == d.name && r.mobile == d.mobile
    ensures r.email == OrNull(d.email) && r.address == OrNull(d.address)
    ensures r.company == OrNull(d.company) && r.gst == OrNull(d.gst)
  {
    CustomerInsert(d.name, d.mobile, OrNull(d.email), OrNull(d.address), OrNull(d.company), OrNull(d.gst))
  }

  /** The live customers with a given mobile. */
  function SameMobile(store: seq<Customer>, mobile: string): (r: seq<Customer>)
    ensures forall i :: 0 <= i < |r| ==> r[i] in store && r[i].mobile == mobile && !r[i].isDeleted
    ensures forall i :: 0 <= i < |store| && store[i].mobile == mobile && !store[i].isDeleted ==> store[i] in r
  {
    Seqs.Filter(store, (c: Customer) => c.mobile == mobile && !c.isDeleted)
  }

  /** The outcome of the add form: the insert attempted, the id created, the toast shown. */
  datatype AddOutcome = AddOutcome(inserted: Option<CustomerInsert>, created: Option<string>, toast: string)

  /**
   * The add form's submit for accepted values: a failed lookup or a live
   * customer with the same mobile stops it before the insert; otherwise the
   * values are inserted and the new id handed on. `editing` is the customer
   * the form was opened for, which the submit ignores.
   */
  function Add(d: CustomerData, store: seq<Customer>, searchError: Option<string>, insert: Result<string, string>,
               editing: Option<string>): (r: AddOutcome)
    ensures r.inserted.Some? <==> searchError.None? && SameMobile(store, d.mobile) == []
    ensures r.inserted.Some? ==> r.inserted.value == InsertFor(d)
    ensures r.created.Some? <==> r.inserted.Some? && insert.Ok?
    ensures r.created.Some? ==> r.created.value == insert.value && r.toast == "Customer added successfully"
    ensures searchError.None? && SameMobile(store, d.mobile) != [] ==>
      r.toast == "A customer with this mobile number already exists"
  {
    if searchError.Some? then AddOutcome(None, None, "Failed to add customer")
    else if SameMobile(store, d.mobile) != [] then AddOutcome(None, None, "A customer with this mobile number already exists")
    else match insert
      case Err(_) => AddOutcome(Some(InsertFor(d)), None, "Failed to add customer")
      case Ok(id) => AddOutcome(Some(InsertFor(d)), Some(id), "Customer added successfully")
  }

  /** The add form always inserts; the customer it was opened for is never updated. */
  lemma AddIgnoresEditing(d: CustomerData, store: seq<Customer>, searchError: Option<string>,
                          insert: Result<string, string>, editing: string)
    ensures Add(d, store, searchError, insert, Some(editing)) == Add(d, store, searchError, insert, None)
  {
  }

  /** The stored row for an insert. */
  function Stored(id: string, c: CustomerInsert): Customer {
    Customer(id, c.name, c.mobile, c.email, c.address, c.company, c.gst, false)
  }

  /** No two live customers share a mobile. */
  predicate UniqueLiveMobiles(store: seq<Customer>) {
    forall i, j :: 0 <= i < j < |store| && !store[i].isDeleted && !store[j].isDeleted ==> store[i].mobile != store[j].mobile
  }

  /** Adding through the form keeps live mobiles unique. */
  lemma AddKeepsMobilesUnique(d: CustomerData, store: seq<Customer>, insert: Result<string, string>)
    requires UniqueLiveMobiles(store)
    ensures var r := Add(d, store, None, insert, None);
      r.created.Some? ==> UniqueLiveMobiles(store + [Stored(r.created.value, r.inserted.value)])
  {
    var r := Add(d, store, None, insert, None);
    if r.created.Some? {
      var s := store + [Stored(r.created.value, r.inserted.value)];
      forall i, j | 0 <= i < j < |s| && !s[i].isDeleted && !s[j].isDeleted
        ensures s[i].mobile != s[j].mobile
      {
        if j == |store| {
          assert s[i] == store[i] && SameMobile(store, d.mobile) == [];
          assert store[i].mobile != d.mobile;
        }
      }
    }
  }

  /**
   * The soft delete: every row with the id gets `is_deleted` and nothing
   * else changes; without an id (none, or the empty one, which JavaScript
   * reads as false), or when the store refuses, the rows stay as they were.
   */
  function Delete(store: seq<Customer>, customerId: Option<string>, ok: bool): (r: seq<Customer>)
    ensures |r| == |store|
    ensures !Truthy(customerId) || !ok ==> r == store
    ensures forall i :: 0 <= i < |store| ==>
      r[i] == (if Truthy(customerId) && ok && store[i].custId == customerId.value then store[i].(isDeleted := true) else store[i])
  {
    if !Truthy(customerId) || !ok then store
    else seq(|store|, i requires 0 <= i < |store| =>
               if store[i].custId == customerId.value then store[i].(isDeleted := true) else store[i])
  }

  /** A deleted customer no longer blocks its mobile. */
  lemma DeletedFreesMobile(store: seq<Customer>, id: string, mobile: string)
    ensures id != "" ==> forall c :: c in SameMobile(Delete(store, Some(id), true), mobile) ==> c.custId != id
  {
  }

  /** The customers page loads the live rows. */
  function Live(store: seq<Customer>): (r: seq<Customer>)
    ensures forall i :: 0 <= i < |r| ==> r[i] in store && !r[i].isDeleted
    ensures forall i :: 0 <= i < |store| && !store[i].isDeleted ==> store[i] in r
  {
    Seqs.Filter(store, (c: Customer) => !c.isDeleted)
  }

  /** `filteredCustomers`: the customers whose name contains the term, ignoring case, in loaded order. */
  function Search(customers: seq<Customer>, term: string): (r: seq<Customer>)
    ensures forall i :: 0 <= i < |r| ==> r[i] in customers && Text.ContainsIgnoreCase(r[i].name, term)
    ensures forall i :: 0 <= i < |customers| && Text.ContainsIgnoreCase(customers[i].name, term) ==> customers[i] in r
  {
    Seqs.Filter(customers, (c: Customer) => Text.ContainsIgnoreCase(c.name, term))
  }

  /** The empty search shows every loaded customer. */
  lemma EmptySearchAll(customers: seq<Customer>)
    ensures Search(customers, "") == customers
  {
    forall c: Customer ensures Text.ContainsIgnoreCase(c.name, "") {
      Text.EmptyTermMatches(c.name);
    }
    Seqs.FilterAll(customers, (c: Customer) => Text.ContainsIgnoreCase(c.name, ""));
  }
}
