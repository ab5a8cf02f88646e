/** The derived metrics of an account: membership months bought, events
    registered for and attended, money spent, and the first and last
    membership dates.  A missing list and an empty list both count as
    "no history" for every metric. */
module AccountMetrics {
  import opened Wrappers
  import opened Dates
  import opened NeonTypes

  // ---------------------------------------------------------------------
  // Membership months

  /** How many memberships of term `kind` were paid for (status SUCCEEDED). */
  function SucceededOfKind(ms: seq<Membership>, kind: MembershipType): (n: nat)
    ensures n <= |ms|
  {
    if ms == [] then 0
    else (if ms[0].kind == kind && ms[0].status == Succeeded then 1 else 0) + SucceededOfKind(ms[1..], kind)
  }

  lemma {:induction false} SucceededOfKindAppend(ms: seq<Membership>, m: Membership, kind: MembershipType)
    ensures SucceededOfKind(ms + [m], kind)
            == SucceededOfKind(ms, kind) + (if m.kind == kind && m.status == Succeeded then 1 else 0)
  {
    if ms != [] {
      assert (ms + [m])[1..] == ms[1..] + [m];
      SucceededOfKindAppend(ms[1..], m, kind);
    } else {
      assert [m][1..] == [];
    }
  }

  /** The membership months an account has bought: twelve per paid annual
      term, one per paid monthly term, nothing for any other status. */
  function MembershipMonths(acct: Account): (n: nat)
    ensures acct.memberships == None || acct.memberships == Some([]) ==> n == 0
    ensures acct.memberships.Some? ==> n <= 12 * |acct.memberships.value|
  {
    match acct.memberships
    case None => 0
    case Some(ms) =>
      SucceededTermsWithin(ms);
      12 * SucceededOfKind(ms, Annual) + SucceededOfKind(ms, Monthly)
  }

  /** A membership is annual or monthly, never both: the paid terms of the
      two kinds together are at most the memberships. */
  lemma {:induction false} SucceededTermsWithin(ms: seq<Membership>)
    ensures SucceededOfKind(ms, Annual) + SucceededOfKind(ms, Monthly) <= |ms|
  {
    if ms != [] {
      SucceededTermsWithin(ms[1..]);
    }
  }

  /** `membership_count`. */
  method MembershipCount(acct: Account) returns (count: int)
    ensures count == MembershipMonths(acct)
    ensures acct.memberships == None || acct.memberships == Some([]) ==> count == 0
  {
    count := 0;
    if acct.memberships.Some? && acct.memberships.value != [] {
      var ms := acct.memberships.value;
      var i := 0;
      while i < |ms|
        invariant 0 <= i <= |ms|
        invariant count == 12 * SucceededOfKind(ms[..i], Annual) + SucceededOfKind(ms[..i], Monthly)
      {
        var m := ms[i];
        SucceededOfKindAppend(ms[..i], m, Annual);
        SucceededOfKindAppend(ms[..i], m, Monthly);
        assert ms[..i + 1] == ms[..i] + [m];
        if m.kind == Annual && m.status == Succeeded {
          count := count + 12;
        } else if m.kind == Monthly && m.status == Succeeded {
          count := count + 1;
        }
        i := i + 1;
      }
      assert ms[..i] == ms;
    }
  }

  // ---------------------------------------------------------------------
  // Events

  /** How many registrations have status SUCCEEDED. */
  function SucceededRegistrations(rs: seq<EventRegistration>): (n: nat)
    ensures n <= |rs|
    ensures n == |rs| <==> forall i :: 0 <= i < |rs| ==> rs[i].status == Succeeded
  {
    if rs == [] then 0
    else (if rs[0].status == Succeeded then 1 else 0) + SucceededRegistrations(rs[1..])
  }

  /** The succeeded registrations of two lists are those of the first plus
      those of the second. */
  lemma {:induction false} SucceededRegistrationsAppend(a: seq<EventRegistration>, b: seq<EventRegistration>)
    ensures SucceededRegistrations(a + b) == SucceededRegistrations(a) + SucceededRegistrations(b)
  {
    if a != [] {
      assert (a + b)[1..] == a[1..] + b;
      SucceededRegistrationsAppend(a[1..], b);
    } else {
      assert a + b == b;
    }
  }

  /** One registration counts once exactly when it succeeded. */
  lemma SucceededRegistrationsSingle(r: EventRegistration)
    ensures SucceededRegistrations([r]) == if r.status == Succeeded then 1 else 0
  {
    assert [r][1..] == [];
  }

  /** `event_registration_count`. */
  function EventRegistrationCount(acct: Account): (n: nat)
    ensures n == 0 <==> acct.eventRegistrations == None || acct.eventRegistrations == Some([])
  {
    match acct.eventRegistrations
    case None => 0
    case Some(rs) => |rs|
  }

  /** `event_attended_count`. */
  function EventAttendedCount(acct: Account): (n: nat)
    ensures n <= EventRegistrationCount(acct)
    ensures acct.eventRegistrations == None || acct.eventRegistrations == Some([]) ==> n == 0
  {
    match acct.eventRegistrations
    case None => 0
    case Some(rs) => SucceededRegistrations(rs)
  }

  /** An account never attended more events than it registered for, and
      attended all of them exactly when every registration succeeded. */
  lemma AttendedAtMostRegistered(acct: Account)
    ensures EventAttendedCount(acct) <= EventRegistrationCount(acct)
    ensures EventAttendedCount(acct) == EventRegistrationCount(acct)
            <==> (acct.eventRegistrations.Some? ==>
                   forall i :: 0 <= i < |acct.eventRegistrations.value| ==>
                     acct.eventRegistrations.value[i].status == Succeeded)
  {
  }

  // ---------------------------------------------------------------------
  // Money

  function PaidMembershipCents(ms: seq<Membership>): int {
    if ms == [] then 0
    else (if ms[0].status == Succeeded then ms[0].priceCents else 0) + PaidMembershipCents(ms[1..])
  }

  function PaidRegistrationCents(rs: seq<EventRegistration>): int {
    if rs == [] then 0
    else (if rs[0].status == Succeeded then rs[0].amountCents else 0) + PaidRegistrationCents(rs[1..])
  }

  /** `total_dollars_spent`, in cents. */
  function TotalCentsSpent(acct: Account): (cents: int)
    ensures acct.memberships == None && acct.eventRegistrations == None ==> cents == 0
    ensures acct.memberships == Some([]) && acct.eventRegistrations == Some([]) ==> cents == 0
  {
    (match acct.memberships case None => 0 case Some(ms) => PaidMembershipCents(ms))
    + (match acct.eventRegistrations case None => 0 case Some(rs) => PaidRegistrationCents(rs))
  }

  lemma {:induction false} PaidMembershipCentsAppend(a: seq<Membership>, b: seq<Membership>)
    ensures PaidMembershipCents(a + b) == PaidMembershipCents(a) + PaidMembershipCents(b)
  {
    if a != [] {
      assert (a + b)[1..] == a[1..] + b;
      PaidMembershipCentsAppend(a[1..], b);
    } else {
      assert a + b == b;
    }
  }

  lemma {:induction false} PaidRegistrationCentsAppend(a: seq<EventRegistration>, b: seq<EventRegistration>)
    ensures PaidRegistrationCents(a + b) == PaidRegistrationCents(a) + PaidRegistrationCents(b)
  {
    if a != [] {
      assert (a + b)[1..] == a[1..] + b;
      PaidRegistrationCentsAppend(a[1..], b);
    } else {
      assert a + b == b;
    }
  }

  /** Only paid items contribute, each with its full price. */
  lemma {:induction false} PaidMembershipCentsBounds(ms: seq<Membership>)
    requires forall i :: 0 <= i < |ms| ==> ms[i].priceCents >= 0
    ensures 0 <= PaidMembershipCents(ms)
    ensures (forall i :: 0 <= i < |ms| ==> ms[i].status != Succeeded) ==> PaidMembershipCents(ms) == 0
  {
    if ms != [] {
      PaidMembershipCentsBounds(ms[1..]);
    }
  }

  lemma {:induction false} PaidRegistrationCentsBounds(rs: seq<EventRegistration>)
    requires forall i :: 0 <= i < |rs| ==> rs[i].amountCents >= 0
    ensures 0 <= PaidRegistrationCents(rs)
    ensures (forall i :: 0 <= i < |rs| ==> rs[i].status != Succeeded) ==> PaidRegistrationCents(rs) == 0
  {
    if rs != [] {
      PaidRegistrationCentsBounds(rs[1..]);
    }
  }

  /** Money spent is never negative when prices are not, and is zero for an
      account without any paid membership or registration. */
  lemma TotalCentsSpentBounds(acct: Account)
    requires acct.memberships.Some? ==>
               forall i :: 0 <= i < |acct.memberships.value| ==> acct.memberships.value[i].priceCents >= 0
    requires acct.eventRegistrations.Some? ==>
               forall i :: 0 <= i < |acct.eventRegistrations.value| ==> acct.eventRegistrations.value[i].amountCents >= 0
    ensures TotalCentsSpent(acct) >= 0
    ensures (acct.memberships.Some? ==>
               forall i :: 0 <= i < |acct.memberships.value| ==> acct.memberships.value[i].status != Succeeded)
            && (acct.eventRegistrations.Some? ==>
               forall i :: 0 <= i < |acct.eventRegistrations.value| ==> acct.eventRegistrations.value[i].status != Succeeded)
            ==> TotalCentsSpent(acct) == 0
  {
    if acct.memberships.Some? { PaidMembershipCentsBounds(acct.memberships.value); }
    if acct.eventRegistrations.Some? { PaidRegistrationCentsBounds(acct.eventRegistrations.value); }
  }

  /** One more membership adds its price to the total exactly when it was paid. */
  lemma TotalCentsSpentAddMembership(acct: Account, m: Membership)
    requires acct.memberships.Some?
    ensures TotalCentsSpent(acct.(memberships := Some(acct.memberships.value + [m])))
            == TotalCentsSpent(acct) + (if m.status == Succeeded then m.priceCents else 0)
  {
    PaidMembershipCentsAppend(acct.memberships.value, [m]);
    assert PaidMembershipCents([m]) == (if m.status == Succeeded then m.priceCents else 0) + PaidMembershipCents([]);
  }

  /** One more registration adds its amount to the total exactly when it was paid. */
  lemma TotalCentsSpentAddRegistration(acct: Account, r: EventRegistration)
    requires acct.eventRegistrations.Some?
    ensures TotalCentsSpent(acct.(eventRegistrations := Some(acct.eventRegistrations.value + [r])))
            == TotalCentsSpent(acct) + (if r.status == Succeeded then r.amountCents else 0)
  {
    PaidRegistrationCentsAppend(acct.eventRegistrations.value, [r]);
    assert PaidRegistrationCents([r]) == (if r.status == Succeeded then r.amountCents else 0) + PaidRegistrationCents([]);
  }

  // ---------------------------------------------------------------------
  // Membership dates

  /** `first_membership_start_date`: the start of the first membership in the
      order the API returned them. */
  function FirstMembershipStart(acct: Account): (r: Option<Date>)
    ensures r.Some? <==> acct.memberships.Some? && acct.memberships.value != []
    ensures r.Some? ==> r.value == acct.memberships.value[0].startDate
  {
    match acct.memberships
    case Some(ms) => if ms == [] then None else Some(ms[0].startDate)
    case None => None
  }

  /** `latest_membership_end_date`: the end of the last membership in the
      order the API returned them. */
  function LatestMembershipEnd(acct: Account): (r: Option<Date>)
    ensures r.Some? <==> acct.memberships.Some? && acct.memberships.value != []
    ensures r.Some? ==> r.value == acct.memberships.value[|acct.memberships.value| - 1].endDate
  {
    match acct.memberships
    case Some(ms) => if ms == [] then None else Some(ms[|ms| - 1].endDate)
    case None => None
  }

  /** The list is in chronological order of start dates. */
  predicate SortedByStart(ms: seq<Membership>) {
    forall i, j :: 0 <= i < j < |ms| ==> DateLe(ms[i].startDate, ms[j].startDate)
  }

  /** The list is in chronological order of end dates. */
  predicate SortedByEnd(ms: seq<Membership>) {
    forall i, j :: 0 <= i < j < |ms| ==> DateLe(ms[i].endDate, ms[j].endDate)
  }

  lemma DateLeRefl(d: Date)
    ensures DateLe(d, d)
  {
  }

  /** Only when the API returns memberships in start order is the "first"
      start date the earliest one. */
  lemma FirstStartIsEarliest(acct: Account)
    requires acct.memberships.Some? && SortedByStart(acct.memberships.value)
    ensures FirstMembershipStart(acct).Some? ==>
              forall i :: 0 <= i < |acct.memberships.value| ==>
                DateLe(FirstMembershipStart(acct).value, acct.memberships.value[i].startDate)
  {
    var ms := acct.memberships.value;
    if ms != [] {
      forall i | 0 <= i < |ms| ensures DateLe(ms[0].startDate, ms[i].startDate) {
        if i == 0 { DateLeRefl(ms[0].startDate); }
      }
    }
  }

  /** Only when the API returns memberships in end order is the "latest" end
      date the latest one. */
  lemma LatestEndIsLatest(acct: Account)
    requires acct.memberships.Some? && SortedByEnd(acct.memberships.value)
    ensures LatestMembershipEnd(acct).Some? ==>
              forall i :: 0 <= i < |acct.memberships.value| ==>
                DateLe(acct.memberships.value[i].endDate, LatestMembershipEnd(acct).value)
  {
    var ms := acct.memberships.value;
    if ms != [] {
      forall i | 0 <= i < |ms| ensures DateLe(ms[i].endDate, ms[|ms| - 1].endDate) {
        if i == |ms| - 1 { DateLeRefl(ms[i].endDate); }
      }
    }
  }

  /** An account with one paid annual membership of 600.00 and one paid laser
      class of 50.00 has bought twelve months and spent 650.00. */
  lemma AnnualMemberWithOneClass()
    ensures var acct := Account(
              1, None, None, None, None, None, None, None, None, None, None, None, None, None, false,
              None, None,
              Some([Membership(60000, Date(2023, 1, 1), Date(2023, 12, 31), Succeeded, Annual)]),
              Some([EventRegistration(EventType("Laser Basics", Lasers), "7", Date(2023, 2, 20),
                                      Date(2023, 3, 1), Succeeded, 5000)]));
            MembershipMonths(acct) == 12 && TotalCentsSpent(acct) == 65000
            && EventRegistrationCount(acct) == 1 && EventAttendedCount(acct) == 1
  {
    var m := Membership(60000, Date(2023, 1, 1), Date(2023, 12, 31), Succeeded, Annual);
    assert SucceededOfKind([m], Annual) == 1 + SucceededOfKind([], Annual);
    assert SucceededOfKind([m], Monthly) == 0 + SucceededOfKind([], Monthly);
  }
}
