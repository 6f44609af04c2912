/**
 * Technicians: the technician schema with its e-mail pattern, the signup
 * error messages, the admin-only submit that updates or creates a
 * technician, and the technicians page's admin gate and search.
 */
module Technicians {
  import opened Wrappers
  import Seqs
  import Text
  import opened Records

  predicate AsciiLetter(c: char) { 'a' <= c <= 'z' || 'A' <= c <= 'Z' }
  predicate AsciiAlnum(c: char) { AsciiLetter(c) || '0' <= c <= '9' }

  /** The characters `[a-zA-Z0-9._%+-]` of the part before the `@`. */
  predicate LocalChar(c: char) { AsciiAlnum(c) || c in "._%+-" }

  /** The characters `[a-zA-Z0-9.-]` of the domain before its last dot. */
  predicate DomainChar(c: char) { AsciiAlnum(c) || c in ".-" }

  predicate All(s: string, p: char -> bool) { forall i :: 0 <= i < |s| ==> p(s[i]) }

  /** The parts of `local@domain.tld` as the pattern `^[a-zA-Z0-9._%+-]+@[a-zA-Z0-9.-]+\.[a-zA-Z]{2,}$` reads them. */
  predicate EmailParts(local: string, domain: string, tld: string) {
    |local| >= 1 && All(local, LocalChar) && |domain| >= 1 && All(domain, DomainChar) && |tld| >= 2 && All(tld, AsciiLetter)
  }

  /**
   * The schema's e-mail pattern, decided by splitting at the first `@`
   * (the local part cannot hold one) and at the domain's last dot (the
   * top-level part cannot hold one).
   */
  predicate MatchesEmailPattern(s: string) {
    match Text.SplitFirst(s, '@')
    case None => false
    case Some((local, rest)) =>
      match Text.SplitLast(rest, '.')
      case None => false
      case Some((domain, tld)) => EmailParts(local, domain, tld)
  }

  /** Every accepted address has the pattern's shape. */
  lemma EmailPatternSound(s: string)
    requires MatchesEmailPattern(s)
    ensures exists local, domain, tld :: s == local + "@" + domain + "." + tld && EmailParts(local, domain, tld)
  {
    var (local, rest) := Text.SplitFirst(s, '@').value;
    var (domain, tld) := Text.SplitLast(rest, '.').value;
    assert s == local + "@" + domain + "." + tld;
  }

  /** Every address of the pattern's shape is accepted. */
  lemma EmailPatternComplete(local: string, domain: string, tld: string)
    requires EmailParts(local, domain, tld)
    ensures MatchesEmailPattern(local + "@" + domain + "." + tld)
  {
    assert '@' !in local by {
      forall i | 0 <= i < |local| ensures local[i] != '@' {
        assert LocalChar(local[i]);
      }
    }
    assert '.' !in tld by {
      forall i | 0 <= i < |tld| ensures tld[i] != '.' {
        assert AsciiLetter(tld[i]);
      }
    }
    var rest := domain + "." + tld;
    assert local + "@" + domain + "." + tld == local + ['@'] + rest;
    Text.SplitFirstConcat(local, '@', rest);
    assert rest == domain + ['.'] + tld;
    Text.SplitLastConcat(domain, '.', tld);
  }

  /** The form's values; the e-mail is absent when the form never set it. */
  datatype TechnicianData = TechnicianData(
    name: string, email: Option<string>, mobile: string, address: Option<string>,
    aadharNumber: Option<string>, bloodGroup: Option<string>)

  /**
   * The schema's messages, in order: name required, then for a present
   * e-mail its three checks (`isEmail` is the library's format test), then
   * the mobile's minimum length.
   */
  function Issues(d: TechnicianData, isEmail: string -> bool): (r: seq<string>)
    ensures r == [] <==>
      (|d.name| >= 1 && Text.Utf16Length(d.mobile) >= 10 &&
       (d.email.Some? ==> |d.email.value| >= 1 && isEmail(d.email.value) && MatchesEmailPattern(d.email.value)))
    ensures d.email.None? ==> "Please provide a valid email address" !in r
  {
    (if |d.name| >= 1 then [] else ["Name is required"]) +
    (match d.email
     case None => []
     case Some(e) =>
       (if |e| >= 1 then [] else ["Email is required"]) +
       (if isEmail(e) then [] else ["Invalid email format"]) +
       (if MatchesEmailPattern(e) then [] else ["Please provide a valid email address"])) +
    (if Text.Utf16Length(d.mobile) >= 10 then [] else ["Mobile number must be at least 10 digits"])
  }

  /**
   * The minimum counts UTF-16 code units: four digits and three emoji are
   * seven characters but ten units, and pass.
   */
  lemma AstralMobileAccepted(d: TechnicianData, isEmail: string -> bool)
    requires d.mobile == "1234\U{1F600}\U{1F600}\U{1F600}"
    ensures |d.mobile| == 7 && "Mobile number must be at least 10 digits" !in Issues(d, isEmail)
  {
    var digits, emoji := "1234", "\U{1F600}";
    assert d.mobile == digits + emoji + emoji + emoji;
    Text.Utf16LengthBmp(digits);
    assert Text.Utf16Length(emoji) == 2 by {
      assert emoji[1..] == [];
    }
    Text.Utf16LengthAppend(digits, emoji);
    Text.Utf16LengthAppend(digits + emoji, emoji);
    Text.Utf16LengthAppend(digits + emoji + emoji, emoji);
  }

  /** For a mobile without astral characters, as any digit string is, the minimum is on its characters. */
  lemma MobileRule(d: TechnicianData, isEmail: string -> bool)
    requires forall i :: 0 <= i < |d.mobile| ==> !Text.IsAstral(d.mobile[i])
    ensures "Mobile number must be at least 10 digits" in Issues(d, isEmail) <==> |d.mobile| < 10
  {
    Text.Utf16LengthBmp(d.mobile);
  }

  /** `getAuthErrorMessage`: two signup messages are reworded; an empty one gets a fallback. */
  function AuthErrorMessage(message: string): (r: string)
    ensures message == "Email address is invalid" ==> r == "Please enter a valid email address"
    ensures message == "User already registered" ==> r == "A user with this email already exists"
    ensures message == "" ==> r == "An error occurred during signup"
    ensures message !in ["Email address is invalid", "User already registered", ""] ==> r == message
    ensures r != ""
  {
    if message == "Email address is invalid" then "Please enter a valid email address"
    else if message == "User already registered" then "A user with this email already exists"
    else if message == "" then "An error occurred during signup"
    else message
  }

  const DefaultPassword: string := "Welcome@123"
  const TechnicianRole: string := "technician"

  /** The signup request for a new technician. */
  datatype SignUp = SignUp(email: string, password: string, name: string, role: string)

  /**
   * A write to `profiles`: the row it targets, the technician role the
   * target must also have (edits only), the fields, and the role and
   * deleted flag it sets (creation only).
   */
  datatype ProfileWrite = ProfileWrite(
    userId: string, scopeRoleId: Option<string>, name: string, mobile: string, address: Option<string>,
    aadharNumber: Option<string>, bloodGroup: Option<string>, updatedAt: Option<string>,
    roleId: Option<string>, isDeleted: Option<bool>)

  /** What a submit did: the signup sent, the profile write sent, the toast, and whether the form closed. */
  datatype SaveOutcome = SaveOutcome(signUp: Option<SignUp>, write: Option<ProfileWrite>, toast: string, success: bool)

  /** The submit reached the store only through the two writes, so a refusal has neither. */
  predicate NoWrites(r: SaveOutcome) { r.signUp.None? && r.write.None? && !r.success }

  /**
   * `onSubmit` for accepted values. `user` is the session's user,
   * `callerRole` the caller's role name or the lookup's failure, `techRole`
   * the technician role's id or its failure, `editing` the technician being
   * edited, `updateError` the edit's answer, `signUp` the signup's answer
   * (the new user's id, none, or the auth error message) and `profileError`
   * the answer to the new profile's write.
   */
  function Save(d: TechnicianData, user: Option<string>, callerRole: Result<string, string>,
                techRole: Result<string, string>, editing: Option<string>, now: string,
                updateError: Option<string>, signUp: Result<Option<string>, string>,
                profileError: Option<string>): (r: SaveOutcome)
    ensures user.None? ==> NoWrites(r) && r.toast == "You must be logged in to perform this action"
    ensures user.Some? && callerRole.Err? ==> NoWrites(r) && r.toast == "Failed to verify user role"
    ensures user.Some? && callerRole.Ok? && callerRole.value != "admin" ==>
      NoWrites(r) && r.toast == "Only admin users can modify technician details"
    ensures r.signUp.Some? || r.write.Some? ==> user.Some? && callerRole == Ok("admin") && techRole.Ok?
    ensures editing.Some? ==> r.signUp.None?
    ensures editing.Some? && r.write.Some? ==>
              (r.write.value.userId == editing.value && r.write.value.scopeRoleId == Some(techRole.value) &&
               r.write.value.address == OrNull(d.address) && r.write.value.aadharNumber == OrNull(d.aadharNumber) &&
               r.write.value.bloodGroup == OrNull(d.bloodGroup) && r.write.value.roleId.None?)
    ensures editing.None? && !Truthy(d.email) ==> NoWrites(r)
    ensures r.signUp.Some? ==> r.signUp.value == SignUp(d.email.value, DefaultPassword, d.name, TechnicianRole)
    ensures editing.None? && r.write.Some? ==>
              (r.signUp.Some? && signUp == Ok(Some(r.write.value.userId)) && r.write.value.scopeRoleId.None? &&
               r.write.value.roleId == Some(techRole.value) && r.write.value.isDeleted == Some(false))
    ensures r.success <==> r.write.Some? && (if editing.Some? then updateError.None? else profileError.None?)
    ensures r.signUp.Some? && signUp.Err? ==> r.toast == AuthErrorMessage(signUp.error)
  {
    if user.None? then SaveOutcome(None, None, "You must be logged in to perform this action", false)
    else if callerRole.Err? then SaveOutcome(None, None, "Failed to verify user role", false)
    else if callerRole.value != "admin" then SaveOutcome(None, None, "Only admin users can modify technician details", false)
    else if techRole.Err? then SaveOutcome(None, None, "Failed to save technician", false)
    else if editing.Some? then
      var w := ProfileWrite(editing.value, Some(techRole.value), d.name, d.mobile, OrNull(d.address),
                            OrNull(d.aadharNumber), OrNull(d.bloodGroup), Some(now), None, None);
      if updateError.Some? then SaveOutcome(None, Some(w), "Failed to save technician", false)
      else SaveOutcome(None, Some(w), "Technician updated successfully", true)
    else if !Truthy(d.email) then SaveOutcome(None, None, "Email is required for new technicians", false)
    else
      var req := SignUp(d.email.value, DefaultPassword, d.name, TechnicianRole);
      match signUp
      case Err(msg) => SaveOutcome(Some(req), None, AuthErrorMessage(msg), false)
      case Ok(None) => SaveOutcome(Some(req), None, "", false)
      case Ok(Some(id)) =>
        var w := ProfileWrite(id, None, d.name, d.mobile, OrNull(d.address), OrNull(d.aadharNumber),
                              OrNull(d.bloodGroup), None, Some(techRole.value), Some(false));
        if profileError.Some? then SaveOutcome(Some(req), Some(w), "Failed to save technician", false)
        else SaveOutcome(Some(req), Some(w), "Technician created successfully", true)
  }

  /**
   * For an admin with the technician role found, the save signs a new user
   * up exactly when it creates a technician with an email: an edit never
   * does, and a creation with an email always does, whatever the answers.
   */
  lemma SignUpExactlyOnCreate(d: TechnicianData, user: string, techRole: string, editing: Option<string>, now: string,
                              updateError: Option<string>, signUp: Result<Option<string>, string>,
                              profileError: Option<string>)
    ensures var r := Save(d, Some(user), Ok("admin"), Ok(techRole), editing, now, updateError, signUp, profileError);
      r.signUp.Some? <==> editing.None? && Truthy(d.email)
  {
  }

  /** A profile row as the technicians page reads it. */
  datatype Profile = Profile(
    userId: string, name: Option<string>, mobile: Option<string>, address: Option<string>,
    roleId: Option<string>, isDeleted: bool)

  /** Where the page's admin check leaves the visitor. */
  datatype Gate = Admitted | Redirected(to: string) | Blank

  /**
   * The page's admin check: without a user, off to `/login`; a failed
   * profile or role lookup leaves the page blank; a role other than admin
   * goes to `/`.
   */
  function AdminGate(user: Option<string>, role: Result<string, string>): (g: Gate)
    ensures g == Admitted <==> user.Some? && role == Ok("admin")
    ensures user.None? <==> g == Redirected("/login")
    ensures g == Redirected("/") <==> user.Some? && role.Ok? && role.value != "admin"
  {
    if user.None? then Redirected("/login")
    else if role.Err? then Blank
    else if role.value != "admin" then Redirected("/")
    else Admitted
  }

  /** The page's list: fetched only for an admin; the live profiles with the technician role. */
  function TechnicianProfiles(gate: Gate, profiles: seq<Profile>, techRoleId: string): (r: seq<Profile>)
    ensures gate != Admitted ==> r == []
    ensures forall i :: 0 <= i < |r| ==> r[i] in profiles && r[i].roleId == Some(techRoleId) && !r[i].isDeleted
    ensures gate == Admitted ==>
      forall i :: 0 <= i < |profiles| && profiles[i].roleId == Some(techRoleId) && !profiles[i].isDeleted ==>
        profiles[i] in r
  {
    if gate != Admitted then []
    else Seqs.Filter(profiles, (p: Profile) => p.roleId == Some(techRoleId) && !p.isDeleted)
  }

  /** A technician matches the search when its name, mobile or address contains the term, ignoring case. */
  predicate Matches(p: Profile, term: string) {
    Text.ContainsIgnoreCase(p.name.GetOr(""), term) ||
    Text.ContainsIgnoreCase(p.mobile.GetOr(""), term) ||
    Text.ContainsIgnoreCase(p.address.GetOr(""), term)
  }

  /** `filteredTechnicians`: the matching technicians in loaded order. */
  function Search(technicians: seq<Profile>, term: string): (r: seq<Profile>)
    ensures forall i :: 0 <= i < |r| ==> r[i] in technicians && Matches(r[i], term)
    ensures forall i :: 0 <= i < |technicians| && Matches(technicians[i], term) ==> technicians[i] in r
  {
    Seqs.Filter(technicians, (p: Profile) => Matches(p, term))
  }

  /** The empty search shows every technician, including those with no name, mobile or address. */
  lemma EmptySearchAll(technicians: seq<Profile>)
    ensures Search(technicians, "") == technicians
  {
    forall p: Profile ensures Matches(p, "") {
      Text.EmptyTermMatches(p.name.GetOr(""));
    }
    Seqs.FilterAll(technicians, (p: Profile) => Matches(p, ""));
  }
}
