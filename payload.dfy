/** The account JSON and the rules that turn it into account fields: the
    primary address, the custom-field table, the family flag, the referral
    source, the custom date fields, the birth date, and for event
    registrations the trimmed event name, the category and the attendee
    status.  Only the keys the rules read are modelled; a key the API may
    leave out is an `Option`. */
module Payload {
  import opened Wrappers
  import opened Dates
  import opened NeonTypes

  // ---------------------------------------------------------------------
  // Account JSON

  datatype StateProvince = StateProvince(code: Option<string>)

  datatype AddressJson = AddressJson(
    isPrimaryAddress: Option<bool>,
    addressLine1: Option<string>,
    city: Option<string>,
    stateProvince: Option<StateProvince>,
    zipCode: Option<string>,
    phone1: Option<string>)

  datatype GenderJson = GenderJson(name: Option<string>)

  /** The three parts of a date of birth, as strings. */
  datatype DobJson = DobJson(year: string, month: string, day: string)

  datatype PrimaryContact = PrimaryContact(
    firstName: Option<string>,
    lastName: Option<string>,
    email1: Option<string>,
    gender: Option<GenderJson>,
    dob: Option<DobJson>,
    addresses: Option<seq<AddressJson>>)

  datatype OptionValue = OptionValue(name: Option<string>)

  datatype CustomFieldJson = CustomFieldJson(
    name: Option<string>,
    value: Option<string>,
    optionValues: Option<seq<OptionValue>>)

  /** `individualAccount`. */
  datatype AccountJson = AccountJson(
    primaryContact: PrimaryContact,
    accountCustomFields: Option<seq<CustomFieldJson>>)

  // ---------------------------------------------------------------------
  // Gender and date of birth

  /** `gender.get("name")` when a gender object is present. */
  function GenderName(pc: PrimaryContact): (r: Option<string>)
    ensures pc.gender.None? ==> r.None?
    ensures pc.gender.Some? ==> r == pc.gender.value.name
  {
    match pc.gender
    case None => None
    case Some(g) => g.name
  }

  /** The birth date: year, month and day joined with '-' and parsed as
      "%Y-%m-%d"; a string that does not parse gives `None` (the one error the
      extraction catches). */
  function Birthdate(pc: PrimaryContact): (r: Option<Date>)
    ensures r.Some? ==> pc.dob.Some? && ValidDate(r.value)
  {
    match pc.dob
    case None => None
    case Some(d) => ParseIsoDate(d.year + "-" + d.month + "-" + d.day)
  }

  /** A date of birth whose parts have the %Y, %m and %d shapes gives the date
      they name when it exists, and `None` when it does not (Feb 30). */
  lemma BirthdateOfParts(pc: PrimaryContact)
    requires pc.dob.Some?
    requires InField(YearField, pc.dob.value.year) && InField(MonthField, pc.dob.value.month)
             && InField(DayField, pc.dob.value.day)
    ensures Birthdate(pc) == MakeDate(DigitsValue(pc.dob.value.year), DigitsValue(pc.dob.value.month),
                                      DigitsValue(pc.dob.value.day))
  {
    IsoDateAccepts(pc.dob.value.year, pc.dob.value.month, pc.dob.value.day);
  }

  /** Every real date, written zero-padded, comes back as itself. */
  lemma BirthdateRoundTrip(pc: PrimaryContact, d: Date)
    requires ValidDate(d) && pc.dob == Some(DobJson(Pad(d.year, 4), Pad(d.month, 2), Pad(d.day, 2)))
    ensures Birthdate(pc) == Some(d)
  {
    IsoDateRoundTrip(d);
  }

  // ---------------------------------------------------------------------
  // Primary address

  predicate IsPrimary(a: AddressJson) {
    a.isPrimaryAddress == Some(true)
  }

  /** The last address flagged primary (the selection loop never breaks). */
  function LastPrimary(addresses: seq<AddressJson>): Option<AddressJson> {
    if addresses == [] then None
    else if IsPrimary(addresses[|addresses| - 1]) then Some(addresses[|addresses| - 1])
    else LastPrimary(addresses[..|addresses| - 1])
  }

  /** `LastPrimary` picks the flagged address with the highest index, and
      gives `None` exactly when no address is flagged. */
  lemma {:induction false} LastPrimaryIsLast(addresses: seq<AddressJson>)
    ensures LastPrimary(addresses).None? <==> forall i :: 0 <= i < |addresses| ==> !IsPrimary(addresses[i])
    ensures LastPrimary(addresses).Some? ==>
              exists i :: 0 <= i < |addresses| && addresses[i] == LastPrimary(addresses).value
                          && IsPrimary(addresses[i])
                          && forall j :: i < j < |addresses| ==> !IsPrimary(addresses[j])
  {
    if addresses != [] {
      var n := |addresses| - 1;
      var init := addresses[..n];
      LastPrimaryIsLast(init);
      if !IsPrimary(addresses[n]) {
        if LastPrimary(init).Some? {
          var i :| 0 <= i < |init| && init[i] == LastPrimary(init).value && IsPrimary(init[i])
                   && forall j :: i < j < |init| ==> !IsPrimary(init[j]);
          assert addresses[i] == init[i];
        }
        assert forall i :: 0 <= i < n ==> addresses[i] == init[i];
      }
    }
  }

  /** The address selection loop. */
  method SelectPrimaryAddress(addresses: Option<seq<AddressJson>>) returns (address: Option<AddressJson>)
    ensures address == match addresses
                       case None => None
                       case Some(s) => LastPrimary(s)
  {
    address := None;
    if addresses.Some? && addresses.value != [] {
      var s := addresses.value;
      var i := 0;
      while i < |s|
        invariant 0 <= i <= |s|
        invariant address == LastPrimary(s[..i])
      {
        assert s[..i + 1][..i] == s[..i];
        if s[i].isPrimaryAddress == Some(true) {
          address := Some(s[i]);
        }
        i := i + 1;
      }
      assert s[..i] == s;
    }
  }

  /** The five address columns of an account. */
  datatype AddressFields = AddressFields(
    street: Option<string>,
    city: Option<string>,
    state: Option<string>,
    zip: Option<string>,
    phone: Option<string>)

  /** The address columns: all `None` without a primary address. */
  function AddressFieldsOf(address: Option<AddressJson>): (r: AddressFields)
    ensures address.None? ==> r == AddressFields(None, None, None, None, None)
    ensures address.Some? ==>
              r.street == address.value.addressLine1 && r.city == address.value.city
              && r.zip == address.value.zipCode && r.phone == address.value.phone1
              && r.state == (if address.value.stateProvince.Some? then address.value.stateProvince.value.code else None)
  {
    match address
    case None => AddressFields(None, None, None, None, None)
    case Some(a) =>
      AddressFields(
        a.addressLine1,
        a.city,
        match a.stateProvince case None => None case Some(sp) => sp.code,
        a.zipCode,
        a.phone1)
  }

  // ---------------------------------------------------------------------
  // Custom fields

  /** What the table keeps of each field: `[value, optionValues]`. */
  datatype CustomEntry = CustomEntry(value: Option<string>, optionValues: Option<seq<OptionValue>>)

  /** The custom-field table, keyed by field name; fields are entered in
      order, so a later field overwrites an earlier one of the same name. */
  type CustomFields = map<Option<string>, CustomEntry>

  function EntryOf(f: CustomFieldJson): CustomEntry {
    CustomEntry(f.value, f.optionValues)
  }

  function CustomFieldTable(fields: seq<CustomFieldJson>): CustomFields {
    if fields == [] then map[]
    else CustomFieldTable(fields[..|fields| - 1])[fields[|fields| - 1].name := EntryOf(fields[|fields| - 1])]
  }

  /** A name is a key of the table exactly when some field carries it, and
      its entry is that of the last such field. */
  lemma {:induction false} CustomFieldTableLastWins(fields: seq<CustomFieldJson>, key: Option<string>)
    ensures key in CustomFieldTable(fields) <==> exists i :: 0 <= i < |fields| && fields[i].name == key
    ensures key in CustomFieldTable(fields) ==>
              exists i :: 0 <= i < |fields| && fields[i].name == key
                          && CustomFieldTable(fields)[key] == EntryOf(fields[i])
                          && forall j :: i < j < |fields| ==> fields[j].name != key
  {
    if fields != [] {
      var n := |fields| - 1;
      var init := fields[..n];
      CustomFieldTableLastWins(init, key);
      assert forall i :: 0 <= i < n ==> fields[i] == init[i];
      if fields[n].name != key && key in CustomFieldTable(init) {
        var i :| 0 <= i < |init| && init[i].name == key && CustomFieldTable(init)[key] == EntryOf(init[i])
                 && forall j :: i < j < |init| ==> init[j].name != key;
        assert fields[i] == init[i];
      }
    }
  }

  /** The table of an account; iterating a missing list raises TypeError. */
  function CustomFieldsOf(acct: AccountJson): (r: Result<CustomFields>)
    ensures r.Err? <==> acct.accountCustomFields.None?
    ensures r.Err? ==> r.error == TypeError
    ensures r.Ok? ==> r.value == CustomFieldTable(acct.accountCustomFields.value)
  {
    match acct.accountCustomFields
    case None => Err(TypeError)
    case Some(fs) => Ok(CustomFieldTable(fs))
  }

  /** `OpenPathID` and `DiscourseID`: the field's value when the field exists
      (its `[value, optionValues]` pair is never empty, so always truthy). */
  function FieldValue(cf: CustomFields, name: string): (r: Option<string>)
    ensures Some(name) !in cf ==> r.None?
    ensures Some(name) in cf ==> r == cf[Some(name)].value
  {
    if Some(name) in cf then cf[Some(name)].value else None
  }

  // ---------------------------------------------------------------------
  // Family membership

  const SubMemberField := "Family Group Sub Member"
  const PrimaryMemberField := "FamilyGroupPrimaryMember"
  const PrimaryMemberOption := "Family Group Primary Member"

  /** Some option of the list is named `name`. */
  predicate HasOptionNamed(ovs: seq<OptionValue>, name: string) {
    exists i :: 0 <= i < |ovs| && ovs[i].name == Some(name)
  }

  /** The search loop over a field's options, stopping at the first match. */
  method FindOption(ovs: seq<OptionValue>, name: string) returns (found: bool)
    ensures found <==> HasOptionNamed(ovs, name)
  {
    found := false;
    var i := 0;
    while i < |ovs|
      invariant 0 <= i <= |ovs|
      invariant !found
      invariant forall j :: 0 <= j < i ==> ovs[j].name != Some(name)
    {
      if ovs[i].name == Some(name) {
        found := true;
        return;
      }
      i := i + 1;
    }
  }

  /** The family flag, or the TypeError raised when a field it looks at has
      no option list. */
  function FamilySpec(cf: CustomFields): Result<bool> {
    var subYes :=
      if Some(SubMemberField) in cf then
        match cf[Some(SubMemberField)].optionValues
        case None => Err(TypeError)
        case Some(ovs) => Ok(HasOptionNamed(ovs, "Yes"))
      else Ok(false);
    match subYes
    case Err(e) => Err(e)
    case Ok(true) => Ok(true)
    case Ok(false) =>
      if Some(PrimaryMemberField) in cf then
        match cf[Some(PrimaryMemberField)].optionValues
        case None => Err(TypeError)
        case Some(ovs) => Ok(HasOptionNamed(ovs, PrimaryMemberOption))
      else Ok(false)
  }

  /** `family_membership`: the sub-member field first, the primary-member
      field only when the first did not say "Yes". */
  method FamilyMembership(cf: CustomFields) returns (r: Result<bool>)
    ensures r == FamilySpec(cf)
  {
    var family := false;
    if Some(SubMemberField) in cf {
      var sub := cf[Some(SubMemberField)];
      if sub.optionValues.None? {
        return Err(TypeError);
      }
      family := FindOption(sub.optionValues.value, "Yes");
    }
    if !family {
      if Some(PrimaryMemberField) in cf {
        var primary := cf[Some(PrimaryMemberField)];
        if primary.optionValues.None? {
          return Err(TypeError);
        }
        family := FindOption(primary.optionValues.value, PrimaryMemberOption);
      }
    }
    return Ok(family);
  }

  /** The account is a family member exactly when the sub-member field offers
      "Yes" or the primary-member field offers "Family Group Primary Member";
      it raises TypeError exactly when the sub-member field has no option
      list, or when no "Yes" decided and the primary-member field has none;
      a "Yes" decides before the primary-member field is looked at. */
  lemma FamilyIff(cf: CustomFields)
    ensures FamilySpec(cf).Ok? ==>
              (FamilySpec(cf).value <==>
                 (Some(SubMemberField) in cf && cf[Some(SubMemberField)].optionValues.Some?
                  && HasOptionNamed(cf[Some(SubMemberField)].optionValues.value, "Yes"))
                 || (Some(PrimaryMemberField) in cf && cf[Some(PrimaryMemberField)].optionValues.Some?
                     && HasOptionNamed(cf[Some(PrimaryMemberField)].optionValues.value, PrimaryMemberOption)))
    ensures FamilySpec(cf).Err? ==> FamilySpec(cf).error == TypeError
    ensures FamilySpec(cf).Err? <==>
              (Some(SubMemberField) in cf && cf[Some(SubMemberField)].optionValues.None?)
              || (!(Some(SubMemberField) in cf && cf[Some(SubMemberField)].optionValues.Some?
                    && HasOptionNamed(cf[Some(SubMemberField)].optionValues.value, "Yes"))
                  && Some(PrimaryMemberField) in cf && cf[Some(PrimaryMemberField)].optionValues.None?)
    ensures Some(SubMemberField) in cf && cf[Some(SubMemberField)].optionValues.Some?
            && HasOptionNamed(cf[Some(SubMemberField)].optionValues.value, "Yes")
            ==> FamilySpec(cf) == Ok(true)
  {
  }

  // ---------------------------------------------------------------------
  // Referral source and the custom date fields

  /** `referral[1][0].get("name")`: the first option's name, TypeError without
      an option list, IndexError for an empty one. */
  function ReferralSource(cf: CustomFields): (r: Result<Option<string>>)
    ensures Some("Referral Source") !in cf ==> r == Ok(None)
    ensures Some("Referral Source") in cf ==>
              match cf[Some("Referral Source")].optionValues
              case None => r == Err(TypeError)
              case Some(ovs) => if ovs == [] then r == Err(IndexError) else r == Ok(ovs[0].name)
  {
    if Some("Referral Source") !in cf then Ok(None)
    else match cf[Some("Referral Source")].optionValues
      case None => Err(TypeError)
      case Some(ovs) => if ovs == [] then Err(IndexError) else Ok(ovs[0].name)
  }

  /** `WaiverDate` and `FacilityTourDate`: the field's value parsed as
      "%m/%d/%Y".  A missing value raises TypeError, a malformed one ValueError;
      neither is caught. */
  function CustomDate(cf: CustomFields, name: string): (r: Result<Option<Date>>)
    ensures Some(name) !in cf ==> r == Ok(None)
    ensures Some(name) in cf && cf[Some(name)].value.None? ==> r == Err(TypeError)
    ensures Some(name) in cf && cf[Some(name)].value.Some? && ParseUsDate(cf[Some(name)].value.value).Some? ==>
              r == Ok(ParseUsDate(cf[Some(name)].value.value))
    ensures Some(name) in cf && cf[Some(name)].value.Some? && ParseUsDate(cf[Some(name)].value.value).None? ==>
              r == Err(ValueError)
    ensures r.Ok? && r.value.Some? ==>
              Some(name) in cf && cf[Some(name)].value.Some?
              && ParseUsDate(cf[Some(name)].value.value) == r.value && ValidDate(r.value.value)
    ensures r.Err? ==>
              Some(name) in cf
              && (r.error == TypeError <==> cf[Some(name)].value.None?)
              && (r.error == ValueError <==>
                    cf[Some(name)].value.Some? && ParseUsDate(cf[Some(name)].value.value).None?)
  {
    if Some(name) !in cf then Ok(None)
    else match cf[Some(name)].value
      case None => Err(TypeError)
      case Some(s) =>
        match ParseUsDate(s)
        case None => Err(ValueError)
        case Some(d) => Ok(Some(d))
  }

  /** A date written "%m/%d/%Y" is read back as itself. */
  lemma CustomDateRoundTrip(cf: CustomFields, name: string, d: Date)
    requires ValidDate(d) && Some(name) in cf && cf[Some(name)].value == Some(FormatUsDate(d))
    ensures CustomDate(cf, name) == Ok(Some(d))
  {
    UsDateRoundTrip(d);
  }

  // ---------------------------------------------------------------------
  // Events

  const NameMarker := " w/"

  /** `s` contains `pat` starting at index `i`. */
  predicate OccursAt(s: string, pat: string, i: int) {
    0 <= i && i + |pat| <= |s| && s[i..i + |pat|] == pat
  }

  predicate Contains(s: string, pat: string) {
    exists i :: 0 <= i <= |s| - |pat| && OccursAt(s, pat, i)
  }

  /** The cut-before-marker properties of `r` as a result for `name`. */
  predicate IsTrimmed(name: string, r: string) {
    |r| <= |name| && r == name[..|r|]
    && !Contains(r, NameMarker)
    && (|r| < |name| ==> OccursAt(name, NameMarker, |r|))
    && (!Contains(name, NameMarker) ==> r == name)
  }

  /** No marker appears in a character followed by a marker-free rest,
      unless it starts there. */
  lemma NoMarkerAfterFirst(name: string, rest: string)
    requires |name| >= |NameMarker| && name[..|NameMarker|] != NameMarker
    requires |rest| + 1 <= |name| && rest == name[1..][..|rest|] && !Contains(rest, NameMarker)
    ensures !Contains([name[0]] + rest, NameMarker)
  {
    var r := [name[0]] + rest;
    forall i | 0 <= i <= |r| - |NameMarker| ensures !OccursAt(r, NameMarker, i) {
      if i == 0 {
        assert r[..3] == name[..3];
      } else {
        assert r[i..i + |NameMarker|] == rest[i - 1..i - 1 + |NameMarker|];
        assert !OccursAt(rest, NameMarker, i - 1);
      }
    }
  }

  /** An occurrence after the first character is one in the tail. */
  lemma OccursInTail(s: string, pat: string, i: nat)
    requires |s| > 0
    ensures OccursAt(s[1..], pat, i) <==> OccursAt(s, pat, i + 1)
  {
    if i + |pat| <= |s| - 1 {
      assert s[1..][i..i + |pat|] == s[i + 1..i + 1 + |pat|];
    }
  }

  /** A name without the marker has none after its first character either. */
  lemma NoMarkerInTail(name: string)
    requires |name| > 0 && !Contains(name, NameMarker)
    ensures !Contains(name[1..], NameMarker)
  {
    forall i | 0 <= i <= |name[1..]| - |NameMarker| ensures !OccursAt(name[1..], NameMarker, i) {
      OccursInTail(name, NameMarker, i);
    }
  }

  /** A name that does not start with the marker keeps its first character
      before the trimmed rest. */
  lemma TrimStep(name: string, rest: string)
    requires |name| >= |NameMarker| && name[..|NameMarker|] != NameMarker
    requires IsTrimmed(name[1..], rest)
    ensures IsTrimmed(name, [name[0]] + rest)
  {
    var r := [name[0]] + rest;
    NoMarkerAfterFirst(name, rest);
    assert r == name[..|r|];
    if |r| < |name| {
      assert name[|r|..|r| + |NameMarker|] == name[1..][|rest|..|rest| + |NameMarker|];
    }
    if !Contains(name, NameMarker) {
      NoMarkerInTail(name);
    }
  }

  /** `name.split(" w/")[0]`: everything before the first " w/", which is the
      whole name when it has no " w/". */
  function TrimEventName(name: string): (r: string)
    ensures IsTrimmed(name, r)
  {
    if |name| < |NameMarker| then
      assert forall i :: 0 <= i <= |name| - |NameMarker| ==> !OccursAt(name, NameMarker, i);
      name
    else if name[..|NameMarker|] == NameMarker then
      assert OccursAt(name, NameMarker, 0);
      []
    else
      var rest := TrimEventName(name[1..]);
      TrimStep(name, rest);
      [name[0]] + rest
  }

  /** The `category` object of an event. */
  datatype CategoryJson = CategoryJson(name: Option<string>)

  /** The event category: "None" without a category object, otherwise the
      object's name, which must be one of the known names (a missing or
      unknown name raises ValueError). */
  function EventCategoryOf(category: Option<CategoryJson>): (r: Result<EventCategory>)
    ensures category.None? ==> r == Ok(NoneCategory)
    ensures category.Some? && category.value.name.None? ==> r == Err(ValueError)
    ensures category.Some? && category.value.name.Some? ==>
              (r.Ok? <==> exists c :: CategoryCode(c) == category.value.name.value)
              && (r.Ok? ==> CategoryCode(r.value) == category.value.name.value)
    ensures r.Err? ==> r.error == ValueError
  {
    match category
    case None => ParseCategory("None")
    case Some(c) =>
      match c.name
      case None => Err(ValueError)
      case Some(s) => ParseCategory(s)
  }

  datatype AttendeeJson = AttendeeJson(registrationStatus: string)
  datatype TicketJson = TicketJson(attendees: seq<AttendeeJson>)

  /** `tickets[0].attendees[0].registrationStatus`. */
  function FirstAttendeeStatus(tickets: seq<TicketJson>): (r: Result<string>)
    ensures r.Ok? <==> tickets != [] && tickets[0].attendees != []
    ensures r.Ok? ==> r.value == tickets[0].attendees[0].registrationStatus
    ensures r.Err? ==> r.error == IndexError
  {
    if tickets == [] || tickets[0].attendees == [] then Err(IndexError)
    else Ok(tickets[0].attendees[0].registrationStatus)
  }
}
