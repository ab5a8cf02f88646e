/** The CRM's vocabulary: the string enumerations the API uses for membership
    terms, payment and registration statuses and event categories, and the
    records an account is assembled from.  Each enumeration comes with its
    wire code and with the `Enum(value)` constructor call, which raises
    ValueError for any string that is not one of the codes. */
module NeonTypes {
  import opened Wrappers
  import opened Dates

  // ---------------------------------------------------------------------
  // Membership term

  datatype MembershipType = Monthly | Annual

  function MembershipTypeCode(t: MembershipType): string {
    match t
    case Monthly => "MONTH"
    case Annual => "YEAR"
  }

  /** `NeonMembershipType(s)`. */
  function ParseMembershipType(s: string): (r: Result<MembershipType>)
    ensures r.Ok? ==> MembershipTypeCode(r.value) == s
    ensures (exists t :: MembershipTypeCode(t) == s) ==> r.Ok?
    ensures r.Err? ==> r.error == ValueError
  {
    if s == "MONTH" then Ok(Monthly)
    else if s == "YEAR" then Ok(Annual)
    else Err(ValueError)
  }

  lemma MembershipTypeRoundTrip(t: MembershipType)
    ensures ParseMembershipType(MembershipTypeCode(t)) == Ok(t)
  {
  }

  // ---------------------------------------------------------------------
  // Status (the membership and the registration enumerations have the
  // same six members and codes, so one type serves both)

  datatype Status = Succeeded | Canceled | Refunded | Failed | Deferred | Pending

  function StatusCode(st: Status): string {
    match st
    case Succeeded => "SUCCEEDED"
    case Canceled => "CANCELED"
    case Refunded => "REFUNDED"
    case Failed => "FAILED"
    case Deferred => "DEFERRED"
    case Pending => "PENDING"
  }

  /** `NeonMembershipStatus(s)` and `NeonEventRegistrationStatus(s)`. */
  function ParseStatus(s: string): (r: Result<Status>)
    ensures r.Ok? ==> StatusCode(r.value) == s
    ensures (exists st :: StatusCode(st) == s) ==> r.Ok?
    ensures r.Err? ==> r.error == ValueError
  {
    if s == "SUCCEEDED" then Ok(Succeeded)
    else if s == "CANCELED" then Ok(Canceled)
    else if s == "REFUNDED" then Ok(Refunded)
    else if s == "FAILED" then Ok(Failed)
    else if s == "DEFERRED" then Ok(Deferred)
    else if s == "PENDING" then Ok(Pending)
    else Err(ValueError)
  }

  lemma StatusRoundTrip(st: Status)
    ensures ParseStatus(StatusCode(st)) == Ok(st)
  {
  }

  // ---------------------------------------------------------------------
  // Event category

  datatype EventCategory =
    | Woodworking | WoodshopSafety | Metalworking | Machining | Printing3D | Lasers
    | Electronics | Textiles | Cnc | Misc | Private | Orientation
    | FacilityAndSafetyTour | WoodshopMentorSeries | ToolSharpening | NoneCategory

  function CategoryCode(c: EventCategory): string {
    match c
    case Woodworking => "Woodworking"
    case WoodshopSafety => "Woodshop Safety"
    case Metalworking => "Metalworking"
    case Machining => "Machining"
    case Printing3D => "_3D Printing"
    case Lasers => "Laser Cutting"
    case Electronics => "Electronics"
    case Textiles => "Textiles"
    case Cnc => "CNC Router"
    case Misc => "Miscellaneous"
    case Private => "Private"
    case Orientation => "Orientation"
    case FacilityAndSafetyTour => "Facility and Safety Tour"
    case WoodshopMentorSeries => "Woodshop Mentor Series"
    case ToolSharpening => "Tool Sharpening"
    case NoneCategory => "None"
  }

  /** `NeonEventCategory(s)`: an unknown name raises, it is not mapped to "None". */
  function ParseCategory(s: string): (r: Result<EventCategory>)
    ensures r.Ok? ==> CategoryCode(r.value) == s
    ensures (exists c :: CategoryCode(c) == s) ==> r.Ok?
    ensures r.Err? ==> r.error == ValueError
  {
    if s == "Woodworking" then Ok(Woodworking)
    else if s == "Woodshop Safety" then Ok(WoodshopSafety)
    else if s == "Metalworking" then Ok(Metalworking)
    else if s == "Machining" then Ok(Machining)
    else if s == "_3D Printing" then Ok(Printing3D)
    else if s == "Laser Cutting" then Ok(Lasers)
    else if s == "Electronics" then Ok(Electronics)
    else if s == "Textiles" then Ok(Textiles)
    else if s == "CNC Router" then Ok(Cnc)
    else if s == "Miscellaneous" then Ok(Misc)
    else if s == "Private" then Ok(Private)
    else if s == "Orientation" then Ok(Orientation)
    else if s == "Facility and Safety Tour" then Ok(FacilityAndSafetyTour)
    else if s == "Woodshop Mentor Series" then Ok(WoodshopMentorSeries)
    else if s == "Tool Sharpening" then Ok(ToolSharpening)
    else if s == "None" then Ok(NoneCategory)
    else Err(ValueError)
  }

  lemma CategoryRoundTrip(c: EventCategory)
    ensures ParseCategory(CategoryCode(c)) == Ok(c)
  {
    match c
    case Woodworking =>
    case WoodshopSafety =>
    case Metalworking =>
    case Machining =>
    case Printing3D =>
    case Lasers =>
    case Electronics =>
    case Textiles =>
    case Cnc =>
    case Misc =>
    case Private =>
    case Orientation =>
    case FacilityAndSafetyTour =>
    case WoodshopMentorSeries =>
    case ToolSharpening =>
    case NoneCategory =>
  }

  // ---------------------------------------------------------------------
  // Records (money in integer cents)

  datatype Membership = Membership(
    priceCents: int,
    startDate: Date,
    endDate: Date,
    status: Status,
    kind: MembershipType)

  datatype EventType = EventType(name: string, category: EventCategory)

  datatype EventRegistration = EventRegistration(
    eventType: EventType,
    eventId: string,
    registrationDate: Date,
    eventDate: Date,
    status: Status,
    amountCents: int)

  /** One account.  `None` and the empty list are different values for the two
      history lists: a failed or empty fetch gives `None`. */
  datatype Account = Account(
    neonId: int,
    firstName: Option<string>,
    lastName: Option<string>,
    email: Option<string>,
    address: Option<string>,
    city: Option<string>,
    state: Option<string>,
    zip: Option<string>,
    phone: Option<string>,
    birthdate: Option<Date>,
    gender: Option<string>,
    openpathId: Option<string>,
    discourseId: Option<string>,
    referralSource: Option<string>,
    familyMembership: bool,
    waiverDate: Option<Date>,
    orientationDate: Option<Date>,
    memberships: Option<seq<Membership>>,
    eventRegistrations: Option<seq<EventRegistration>>)
}
