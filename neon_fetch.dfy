/** The fetch coroutines: an account's memberships, its event registrations
    (with one nested fetch of the event per registration), and the account
    itself, which starts the other two and assembles the account record.

    Each fetch ends in one of three ways (`Fetch`): a value, `None`, or an
    exception that escapes.  Every conversion error the code does not catch
    (a malformed date, an unknown enumeration string, a missing list or an
    empty one indexed with `[0]`) is such an exception. */
module NeonFetch {
  import opened Wrappers
  import opened Dates
  import opened NeonTypes
  import opened Retry
  import opened Payload

  // ---------------------------------------------------------------------
  // Memberships

  /** One entry of the `memberships` list (the fee in cents). */
  datatype MembershipJson = MembershipJson(
    termStartDate: string,
    termEndDate: string,
    fee: int,
    termUnit: string,
    status: string)

  /** The body of the memberships request: `.get("memberships")`. */
  datatype MembershipsBody = MembershipsBody(memberships: Option<seq<MembershipJson>>)

  /** One membership, or the error raised while reading it, in source order:
      start date, end date, term unit, status. */
  function ConvertMembership(mj: MembershipJson): (r: Result<Membership>)
    ensures r.Ok? ==>
              ParseIsoDate(mj.termStartDate) == Some(r.value.startDate)
              && ParseIsoDate(mj.termEndDate) == Some(r.value.endDate)
              && r.value.priceCents == mj.fee
              && MembershipTypeCode(r.value.kind) == mj.termUnit
              && StatusCode(r.value.status) == mj.status
    ensures r.Ok? <==> ParseIsoDate(mj.termStartDate).Some? && ParseIsoDate(mj.termEndDate).Some?
                       && ParseMembershipType(mj.termUnit).Ok? && ParseStatus(mj.status).Ok?
    ensures r.Err? ==> r.error == ValueError
  {
    match ParseIsoDate(mj.termStartDate)
    case None => Err(ValueError)
    case Some(start) =>
      match ParseIsoDate(mj.termEndDate)
      case None => Err(ValueError)
      case Some(end) =>
        match ParseMembershipType(mj.termUnit)
        case Err(e) => Err(e)
        case Ok(kind) =>
          match ParseStatus(mj.status)
          case Err(e) => Err(e)
          case Ok(st) => Ok(Membership(mj.fee, start, end, st, kind))
  }

  /** A `for` loop that converts every entry in order and lets the first
      conversion error escape: all results, or the first error. */
  function ConvertAll<A, B>(convert: A -> Result<B>, list: seq<A>): (r: Result<seq<B>>)
    ensures r.Ok? ==> |r.value| == |list|
                      && forall i :: 0 <= i < |list| ==> convert(list[i]) == Ok(r.value[i])
    ensures r.Err? <==> exists i :: 0 <= i < |list| && convert(list[i]).Err?
    ensures r.Err? ==> exists i :: 0 <= i < |list| && convert(list[i]) == Err(r.error)
  {
    if list == [] then Ok([])
    else
      var n := |list| - 1;
      match ConvertAll(convert, list[..n])
      case Err(e) =>
        assert exists i :: 0 <= i < |list| && convert(list[i]).Err? by {
          var i :| 0 <= i < n && convert(list[..n][i]).Err?;
          assert list[i] == list[..n][i];
        }
        Err(e)
      case Ok(bs) =>
        assert forall i :: 0 <= i < n ==> list[i] == list[..n][i];
        match convert(list[n])
        case Err(e) => Err(e)
        case Ok(b) => Ok(bs + [b])
  }

  lemma ConvertAllStep<A, B>(convert: A -> Result<B>, list: seq<A>, i: nat, done: seq<B>)
    requires i < |list| && ConvertAll(convert, list[..i]) == Ok(done) && convert(list[i]).Ok?
    ensures ConvertAll(convert, list[..i + 1]) == Ok(done + [convert(list[i]).value])
  {
    assert list[..i + 1][..i] == list[..i];
  }

  /** The first failing entry's error is the error of the whole list. */
  lemma {:induction false} ConvertAllStops<A, B>(convert: A -> Result<B>, list: seq<A>, i: nat)
    requires i < |list| && ConvertAll(convert, list[..i]).Ok? && convert(list[i]).Err?
    ensures ConvertAll(convert, list) == Err(convert(list[i]).error)
    decreases |list|
  {
    var n := |list| - 1;
    if i < n {
      assert list[..n][..i] == list[..i];
      ConvertAllStops(convert, list[..n], i);
    } else {
      assert list[..n] == list[..i];
    }
  }

  /** `get_acct_membership_data`: non-transient errors are retried at once; no
      200 at all leaves the body unbound; a missing or empty list is `None`. */
  function MembershipsSpec(ex: Exchange<MembershipsBody>): Fetch<seq<Membership>> {
    if RetrySpec(RetryOnError, ex.status).outcome.Exhausted? then Raised(UnboundLocalError)
    else match ex.body.memberships
      case None => Unavailable
      case Some(list) =>
        if list == [] then Unavailable
        else match ConvertAll(ConvertMembership, list)
          case Err(e) => Raised(e)
          case Ok(ms) => Fetched(ms)
  }

  /** How the memberships fetch ends: UnboundLocalError exactly when no
      attempt answered 200, `None` exactly when the list is missing or empty,
      ValueError exactly when some entry cannot be read, and otherwise every
      entry converted, in order. */
  lemma MembershipsOutcomes(ex: Exchange<MembershipsBody>)
    ensures MembershipsSpec(ex) == Raised(UnboundLocalError)
            <==> forall j :: 0 <= j < MaxRetries ==> ex.status(j) != 200
    ensures MembershipsSpec(ex) == Unavailable
            <==> (exists j :: 0 <= j < MaxRetries && ex.status(j) == 200)
                 && (ex.body.memberships == None || ex.body.memberships == Some([]))
    ensures MembershipsSpec(ex) == Raised(ValueError)
            <==> (exists j :: 0 <= j < MaxRetries && ex.status(j) == 200)
                 && ex.body.memberships.Some?
                 && exists i :: 0 <= i < |ex.body.memberships.value|
                                && ConvertMembership(ex.body.memberships.value[i]).Err?
    ensures MembershipsSpec(ex).Fetched? ==>
              ex.body.memberships.Some?
              && |MembershipsSpec(ex).value| == |ex.body.memberships.value| > 0
              && forall i :: 0 <= i < |ex.body.memberships.value| ==>
                   ConvertMembership(ex.body.memberships.value[i]) == Ok(MembershipsSpec(ex).value[i])
  {
    RetryOnErrorNeverAbandons(ex.status);
  }

  method GetAcctMembershipData(ex: Exchange<MembershipsBody>) returns (r: Fetch<seq<Membership>>)
    ensures r == MembershipsSpec(ex)
  {
    var outcome, _, _ := RetryLoop(RetryOnError, ex.status);
    RetryOnErrorNeverAbandons(ex.status);
    if outcome.Exhausted? {
      return Raised(UnboundLocalError);
    }
    var json := ex.body.memberships;
    if json.None? || json.value == [] {
      return Unavailable;
    }
    var list := json.value;
    var all: seq<Membership> := [];
    var i := 0;
    while i < |list|
      invariant 0 <= i <= |list|
      invariant ConvertAll(ConvertMembership, list[..i]) == Ok(all)
    {
      var m := ConvertMembership(list[i]);
      if m.Err? {
        ConvertAllStops(ConvertMembership, list, i);
        return Raised(m.error);
      }
      ConvertAllStep(ConvertMembership, list, i, all);
      all := all + [m.value];
      i := i + 1;
    }
    assert list[..i] == list;
    return Fetched(all);
  }

  // ---------------------------------------------------------------------
  // Event registrations

  /** The event detail the nested request returns. */
  datatype EventJson = EventJson(name: string, startDate: string, category: Option<CategoryJson>)

  /** One entry of the `eventRegistrations` list (the amount in cents). */
  datatype RegistrationJson = RegistrationJson(
    registrationDateTime: string,
    eventId: string,
    registrationAmount: int,
    tickets: seq<TicketJson>)

  datatype RegistrationsBody = RegistrationsBody(eventRegistrations: Option<seq<RegistrationJson>>)

  /** The event server, one resource per event id. */
  type EventServer = string -> Exchange<EventJson>

  /** The event JSON the nested fetch leaves in `event_json`: the new body on
      a 200, the one from the previous registration when all ten attempts
      failed, `None` after a fatal status. */
  function NestedEvent(events: EventServer, id: string, held: Option<EventJson>): (r: Fetch<EventJson>)
    ensures r == Unavailable <==> RetrySpec(ReturnNoneOnError, events(id).status).outcome.Abandoned?
    ensures r.Raised? <==> RetrySpec(ReturnNoneOnError, events(id).status).outcome.Exhausted? && held.None?
    ensures r.Raised? ==> r.error == UnboundLocalError
    ensures r.Fetched? && r.value != events(id).body ==>
              RetrySpec(ReturnNoneOnError, events(id).status).outcome.Exhausted? && held == Some(r.value)
  {
    var o := RetrySpec(ReturnNoneOnError, events(id).status).outcome;
    if o.Success? then Fetched(events(id).body)
    else if o.Abandoned? then Unavailable
    else match held
      case Some(e) => Fetched(e)
      case None => Raised(UnboundLocalError)
  }

  /** One registration given its event JSON, or the error raised while
      reading it: event date, then category, then status. */
  function BuildRegistration(rj: RegistrationJson, regDate: Date, status: string, ej: EventJson): (r: Result<EventRegistration>)
    ensures r.Ok? ==>
              r.value.eventType.name == TrimEventName(ej.name)
              && EventCategoryOf(ej.category) == Ok(r.value.eventType.category)
              && ParseIsoDate(ej.startDate) == Some(r.value.eventDate)
              && StatusCode(r.value.status) == status
              && r.value.eventId == rj.eventId && r.value.registrationDate == regDate
              && r.value.amountCents == rj.registrationAmount
    ensures r.Ok? <==> ParseIsoDate(ej.startDate).Some? && EventCategoryOf(ej.category).Ok? && ParseStatus(status).Ok?
    ensures r.Err? ==> r.error == ValueError
  {
    match ParseIsoDate(ej.startDate)
    case None => Err(ValueError)
    case Some(eventDate) =>
      match EventCategoryOf(ej.category)
      case Err(e) => Err(e)
      case Ok(cat) =>
        match ParseStatus(status)
        case Err(e) => Err(e)
        case Ok(st) =>
          Ok(EventRegistration(EventType(TrimEventName(ej.name), cat), rj.eventId, regDate, eventDate, st,
                               rj.registrationAmount))
  }

  /** One step of the loop over registrations: the registration and the event
      JSON to hold for the next one, or how the whole fetch ends. */
  datatype Step = Next(reg: EventRegistration, held: EventJson) | Stop(end: Fetch<seq<EventRegistration>>)

  /** Where a built registration's fields come from: its entry's event id,
      amount, registration date and first attendee's status; and the trimmed
      name, category and start date of `ej`, the event JSON the nested
      request left when `held` was held from the entry before. */
  predicate RegistrationFits(events: EventServer, rj: RegistrationJson, held: Option<EventJson>,
                             reg: EventRegistration, ej: EventJson) {
    && reg.eventId == rj.eventId && reg.amountCents == rj.registrationAmount
    && ParseStampDate(rj.registrationDateTime) == Some(reg.registrationDate)
    && FirstAttendeeStatus(rj.tickets) == Ok(StatusCode(reg.status))
    && NestedEvent(events, rj.eventId, held) == Fetched(ej)
    && reg.eventType.name == TrimEventName(ej.name)
    && EventCategoryOf(ej.category) == Ok(reg.eventType.category)
    && ParseIsoDate(ej.startDate) == Some(reg.eventDate)
  }

  function RegistrationStep(rj: RegistrationJson, events: EventServer, held: Option<EventJson>): (s: Step)
    ensures s.Stop? ==> !s.end.Fetched?
    ensures s.Next? ==> RegistrationFits(events, rj, held, s.reg, s.held)
    ensures s.Next? <==>
              && ParseStampDate(rj.registrationDateTime).Some?
              && FirstAttendeeStatus(rj.tickets).Ok?
              && NestedEvent(events, rj.eventId, held).Fetched?
              && BuildRegistration(rj, ParseStampDate(rj.registrationDateTime).value, FirstAttendeeStatus(rj.tickets).value,
                                   NestedEvent(events, rj.eventId, held).value).Ok?
    ensures s == Stop(Unavailable) <==>
              && ParseStampDate(rj.registrationDateTime).Some?
              && FirstAttendeeStatus(rj.tickets).Ok?
              && NestedEvent(events, rj.eventId, held) == Unavailable
  {
    match ParseStampDate(rj.registrationDateTime)
    case None => Stop(Raised(ValueError))
    case Some(regDate) =>
      match FirstAttendeeStatus(rj.tickets)
      case Err(e) => Stop(Raised(e))
      case Ok(status) =>
        match NestedEvent(events, rj.eventId, held)
        case Unavailable => Stop(Unavailable)
        case Raised(e) => Stop(Raised(e))
        case Fetched(ej) =>
          match BuildRegistration(rj, regDate, status, ej)
          case Err(e) => Stop(Raised(e))
          case Ok(reg) => Next(reg, ej)
  }

  /** One pass of the loop over registrations, as a function of the entry and
      the event JSON held from the one before. */
  type Stepper = (RegistrationJson, Option<EventJson>) -> Step

  function EventSteps(events: EventServer): Stepper {
    (rj, held) => RegistrationStep(rj, events, held)
  }

  /** How a built registration relates to its entry, the event JSON held
      before it and the event JSON it holds after. */
  type Fits = (RegistrationJson, Option<EventJson>, EventRegistration, EventJson) -> bool

  /** Every step either stops without a list or builds a registration that
      `fits` its entry. */
  ghost predicate StepsFit(step: Stepper, fits: Fits) {
    forall rj, h :: (step(rj, h).Stop? ==> !step(rj, h).end.Fetched?)
                    && (step(rj, h).Next? ==> fits(rj, h, step(rj, h).reg, step(rj, h).held))
  }

  function EventFits(events: EventServer): Fits {
    (rj, h, reg, ej) => RegistrationFits(events, rj, h, reg, ej)
  }

  lemma EventStepsFit(events: EventServer)
    ensures StepsFit(EventSteps(events), EventFits(events))
  {
    forall rj, h
      ensures var s := EventSteps(events)(rj, h);
              (s.Stop? ==> !s.end.Fetched?) && (s.Next? ==> RegistrationFits(events, rj, h, s.reg, s.held))
    {
      var s := RegistrationStep(rj, events, h);
    }
  }

  /** The registrations from `list` on, holding `held` from the one before. */
  function ConvertRegistrations(list: seq<RegistrationJson>, step: Stepper, held: Option<EventJson>)
    : Fetch<seq<EventRegistration>>
  {
    if list == [] then Fetched([])
    else match step(list[0], held)
      case Stop(end) => end
      case Next(reg, ej) =>
        match ConvertRegistrations(list[1..], step, Some(ej))
        case Fetched(rs) => Fetched([reg] + rs)
        case other => other
  }

  /** The event JSON each step was left holding, in order, for as long as
      the steps went on. */
  function UsedEvents(list: seq<RegistrationJson>, step: Stepper, held: Option<EventJson>): seq<EventJson>
    decreases |list|
  {
    if list == [] then []
    else match step(list[0], held)
      case Stop(_) => []
      case Next(_, ej) => [ej] + UsedEvents(list[1..], step, Some(ej))
  }

  /** The event JSON held when entry `i` is read: `held` for the first entry,
      the one the entry before used for every later one. */
  function HeldBefore(held: Option<EventJson>, used: seq<EventJson>, i: nat): Option<EventJson>
    requires i <= |used|
  {
    if i == 0 then held else Some(used[i - 1])
  }

  /** A fetched list has one registration per entry, in order, each fitting
      its entry and the event JSON used for it, when every step that goes on
      builds a fitting registration. */
  lemma {:induction false} ConvertRegistrationsFields(list: seq<RegistrationJson>, step: Stepper, held: Option<EventJson>,
                                                      fits: Fits)
    requires StepsFit(step, fits)
    ensures var r := ConvertRegistrations(list, step, held);
            var used := UsedEvents(list, step, held);
            r.Fetched? ==>
              && |r.value| == |list| && |used| == |list|
              && forall i :: 0 <= i < |list| ==> fits(list[i], HeldBefore(held, used, i), r.value[i], used[i])
    decreases |list|
  {
    if list != [] {
      match step(list[0], held)
      case Stop(_) =>
      case Next(reg, ej) =>
        ConvertRegistrationsFields(list[1..], step, Some(ej), fits);
        match ConvertRegistrations(list[1..], step, Some(ej))
        case Fetched(rs) =>
          var r := [reg] + rs;
          var rest := UsedEvents(list[1..], step, Some(ej));
          var used := [ej] + rest;
          forall i | 0 <= i < |list|
            ensures fits(list[i], HeldBefore(held, used, i), r[i], used[i])
          {
            if i > 0 {
              assert list[i] == list[1..][i - 1] && r[i] == rs[i - 1] && used[i] == rest[i - 1];
              assert HeldBefore(held, used, i) == HeldBefore(Some(ej), rest, i - 1);
            }
          }
        case Unavailable =>
        case Raised(_) =>
    }
  }

  /** The conversion gives a list exactly when every entry's step went on. */
  lemma {:induction false} ConvertRegistrationsComplete(list: seq<RegistrationJson>, step: Stepper, held: Option<EventJson>)
    requires forall rj, h :: step(rj, h).Stop? ==> !step(rj, h).end.Fetched?
    ensures ConvertRegistrations(list, step, held).Fetched? <==> |UsedEvents(list, step, held)| == |list|
    decreases |list|
  {
    if list != [] {
      match step(list[0], held)
      case Stop(_) =>
      case Next(_, ej) =>
        ConvertRegistrationsComplete(list[1..], step, Some(ej));
    }
  }

  /** When every entry's step goes on, whatever event JSON is held, the
      conversion gives a list. */
  lemma {:induction false} StepsGoOnFetch(list: seq<RegistrationJson>, step: Stepper, held: Option<EventJson>)
    requires forall i, h :: 0 <= i < |list| ==> step(list[i], h).Next?
    ensures ConvertRegistrations(list, step, held).Fetched?
    ensures |ConvertRegistrations(list, step, held).value| == |list|
    decreases |list|
  {
    if list != [] {
      assert step(list[0], held).Next?;
      forall i, h | 0 <= i < |list[1..]|
        ensures step(list[1..][i], h).Next?
      {
        assert list[1..][i] == list[i + 1];
      }
      StepsGoOnFetch(list[1..], step, Some(step(list[0], held).held));
    }
  }

  /** An entry every part of which can be read, and whose event request
      answers 200 within ten attempts. */
  predicate ReadableEntry(events: EventServer, rj: RegistrationJson) {
    && ParseStampDate(rj.registrationDateTime).Some?
    && FirstAttendeeStatus(rj.tickets).Ok?
    && RetrySpec(ReturnNoneOnError, events(rj.eventId).status).outcome.Success?
    && BuildRegistration(rj, ParseStampDate(rj.registrationDateTime).value, FirstAttendeeStatus(rj.tickets).value,
                         events(rj.eventId).body).Ok?
  }

  /** `get_acct_event_registrations`: a fatal status on the list request or
      on any nested event request makes the whole result `None`. */
  function RegistrationsSpec(ex: Exchange<RegistrationsBody>, events: EventServer): Fetch<seq<EventRegistration>> {
    var o := RetrySpec(ReturnNoneOnError, ex.status).outcome;
    if o.Abandoned? then Unavailable
    else if o.Exhausted? then Raised(UnboundLocalError)
    else match ex.body.eventRegistrations
      case None => Unavailable
      case Some(list) => if list == [] then Unavailable else ConvertRegistrations(list, EventSteps(events), None)
  }

  /** How the registrations fetch ends: `None` after a fatal status on the
      list request or when the list is missing or empty, UnboundLocalError
      when no attempt answered 200, and otherwise one registration per entry,
      each built from its entry and from the event JSON its nested request
      left. */
  lemma RegistrationsOutcomes(ex: Exchange<RegistrationsBody>, events: EventServer)
    ensures RetrySpec(ReturnNoneOnError, ex.status).outcome.Abandoned? ==> RegistrationsSpec(ex, events) == Unavailable
    ensures RetrySpec(ReturnNoneOnError, ex.status).outcome.Exhausted? ==>
              RegistrationsSpec(ex, events) == Raised(UnboundLocalError)
    ensures RetrySpec(ReturnNoneOnError, ex.status).outcome.Success?
            && (ex.body.eventRegistrations == None || ex.body.eventRegistrations == Some([]))
            ==> RegistrationsSpec(ex, events) == Unavailable
    ensures RegistrationsSpec(ex, events).Fetched? ==>
              var list := ex.body.eventRegistrations.value;
              var rs := RegistrationsSpec(ex, events).value;
              var used := UsedEvents(list, EventSteps(events), None);
              && RetrySpec(ReturnNoneOnError, ex.status).outcome.Success?
              && ex.body.eventRegistrations.Some? && |rs| == |list| > 0 && |used| == |list|
              && forall i :: 0 <= i < |list| ==> RegistrationFits(events, list[i], HeldBefore(None, used, i), rs[i], used[i])
    ensures RetrySpec(ReturnNoneOnError, ex.status).outcome.Success?
            && ex.body.eventRegistrations.Some? && ex.body.eventRegistrations.value != [] ==>
              var list := ex.body.eventRegistrations.value;
              RegistrationsSpec(ex, events).Fetched? <==> |UsedEvents(list, EventSteps(events), None)| == |list|
  {
    if ex.body.eventRegistrations.Some? {
      EventStepsFit(events);
      ConvertRegistrationsFields(ex.body.eventRegistrations.value, EventSteps(events), None, EventFits(events));
      ConvertRegistrationsComplete(ex.body.eventRegistrations.value, EventSteps(events), None);
    }
  }

  /** A non-empty list of readable entries whose event requests all succeed
      gives one registration per entry. */
  lemma ReadableRegistrationsFetched(ex: Exchange<RegistrationsBody>, events: EventServer)
    requires RetrySpec(ReturnNoneOnError, ex.status).outcome.Success?
    requires ex.body.eventRegistrations.Some? && ex.body.eventRegistrations.value != []
    requires forall i :: 0 <= i < |ex.body.eventRegistrations.value| ==>
               ReadableEntry(events, ex.body.eventRegistrations.value[i])
    ensures RegistrationsSpec(ex, events).Fetched?
    ensures |RegistrationsSpec(ex, events).value| == |ex.body.eventRegistrations.value|
  {
    var list := ex.body.eventRegistrations.value;
    ReadableStepsGoOn(events, list);
    StepsGoOnFetch(list, EventSteps(events), None);
    RegistrationsSpecConverts(ex, events);
  }

  /** After a 200 with a non-empty list, the fetch is the conversion of the list. */
  lemma RegistrationsSpecConverts(ex: Exchange<RegistrationsBody>, events: EventServer)
    requires RetrySpec(ReturnNoneOnError, ex.status).outcome.Success?
    requires ex.body.eventRegistrations.Some? && ex.body.eventRegistrations.value != []
    ensures RegistrationsSpec(ex, events) == ConvertRegistrations(ex.body.eventRegistrations.value, EventSteps(events), None)
  {
  }

  /** Every step over readable entries goes on, whatever event JSON is held. */
  lemma ReadableStepsGoOn(events: EventServer, list: seq<RegistrationJson>)
    requires forall i :: 0 <= i < |list| ==> ReadableEntry(events, list[i])
    ensures forall i, h :: 0 <= i < |list| ==> EventSteps(events)(list[i], h).Next?
  {
    forall i, h | 0 <= i < |list|
      ensures EventSteps(events)(list[i], h).Next?
    {
      ReadableEntryGoesOn(events, list[i], h);
    }
  }

  /** A readable entry whose event request succeeds goes on, whatever event
      JSON is held. */
  lemma ReadableEntryGoesOn(events: EventServer, rj: RegistrationJson, held: Option<EventJson>)
    requires ReadableEntry(events, rj)
    ensures RegistrationStep(rj, events, held).Next?
  {
    assert NestedEvent(events, rj.eventId, held) == Fetched(events(rj.eventId).body);
  }

  /** The registrations done so far followed by the rest. */
  function Then(done: seq<EventRegistration>, rest: Fetch<seq<EventRegistration>>): Fetch<seq<EventRegistration>> {
    match rest
    case Fetched(rs) => Fetched(done + rs)
    case other => other
  }

  lemma ThenNothing(rest: Fetch<seq<EventRegistration>>)
    ensures Then([], rest) == rest
  {
    if rest.Fetched? { assert [] + rest.value == rest.value; }
  }

  lemma ConvertRegistrationsStep(list: seq<RegistrationJson>, i: nat, step: Stepper, held: Option<EventJson>,
                                 done: seq<EventRegistration>)
    requires i < |list| && forall h :: step(list[i], h).Stop? ==> !step(list[i], h).end.Fetched?
    ensures Then(done, ConvertRegistrations(list[i..], step, held))
            == match step(list[i], held)
               case Stop(end) => end
               case Next(reg, ej) => Then(done + [reg], ConvertRegistrations(list[i + 1..], step, Some(ej)))
  {
    assert list[i..][1..] == list[i + 1..];
    match step(list[i], held)
    case Stop(end) =>
    case Next(reg, ej) =>
      match ConvertRegistrations(list[i + 1..], step, Some(ej))
      case Fetched(rs) => assert done + ([reg] + rs) == done + [reg] + rs;
      case Unavailable =>
      case Raised(_) =>
  }

  /** One pass of the loop over registrations, nested event request included. */
  method ReadRegistration(rj: RegistrationJson, events: EventServer, held: Option<EventJson>) returns (s: Step)
    ensures s == RegistrationStep(rj, events, held)
  {
    var regDate := ParseStampDate(rj.registrationDateTime);
    if regDate.None? {
      return Stop(Raised(ValueError));
    }
    var status := FirstAttendeeStatus(rj.tickets);
    if status.Err? {
      return Stop(Raised(status.error));
    }
    var eventJson := held;
    var o, _, _ := RetryLoop(ReturnNoneOnError, events(rj.eventId).status);
    if o.Abandoned? {
      return Stop(Unavailable);
    }
    if o.Success? {
      eventJson := Some(events(rj.eventId).body);
    } else if eventJson.None? {
      return Stop(Raised(UnboundLocalError));
    }
    var reg := BuildRegistration(rj, regDate.value, status.value, eventJson.value);
    if reg.Err? {
      return Stop(Raised(reg.error));
    }
    return Next(reg.value, eventJson.value);
  }

  method GetAcctEventRegistrations(ex: Exchange<RegistrationsBody>, events: EventServer)
    returns (r: Fetch<seq<EventRegistration>>)
    ensures r == RegistrationsSpec(ex, events)
  {
    var outcome, _, _ := RetryLoop(ReturnNoneOnError, ex.status);
    if outcome.Abandoned? {
      return Unavailable;
    }
    if outcome.Exhausted? {
      return Raised(UnboundLocalError);
    }
    var json := ex.body.eventRegistrations;
    if json.None? || json.value == [] {
      return Unavailable;
    }
    var list := json.value;
    var all: seq<EventRegistration> := [];
    var eventJson: Option<EventJson> := None;
    var i := 0;
    ThenNothing(ConvertRegistrations(list, EventSteps(events), None));
    EventStepsFit(events);
    assert list[0..] == list;
    while i < |list|
      invariant 0 <= i <= |list|
      invariant RegistrationsSpec(ex, events) == Then(all, ConvertRegistrations(list[i..], EventSteps(events), eventJson))
    {
      ConvertRegistrationsStep(list, i, EventSteps(events), eventJson, all);
      var step := ReadRegistration(list[i], events, eventJson);
      assert step == EventSteps(events)(list[i], eventJson);
      if step.Stop? {
        return step.end;
      }
      eventJson := Some(step.held);
      all := all + [step.reg];
      i := i + 1;
    }
    assert list[i..] == [];
    assert all + [] == all;
    return Fetched(all);
  }

  /** A registration whose event request meets a fatal status stops the loop. */
  lemma AbandonedEventStops(rj: RegistrationJson, events: EventServer, held: Option<EventJson>)
    requires RetrySpec(ReturnNoneOnError, events(rj.eventId).status).outcome.Abandoned?
    ensures RegistrationStep(rj, events, held).Stop?
  {
  }

  /** An entry at which every step stops ends the whole conversion without
      a list. */
  lemma {:induction false} StopLosesAll(list: seq<RegistrationJson>, step: Stepper, held: Option<EventJson>, k: nat)
    requires forall rj, h :: step(rj, h).Stop? ==> !step(rj, h).end.Fetched?
    requires k < |list| && forall h :: step(list[k], h).Stop?
    ensures !ConvertRegistrations(list, step, held).Fetched?
    decreases k
  {
    match step(list[0], held)
    case Stop(_) =>
    case Next(_, ej) =>
      assert list[1..][k - 1] == list[k];
      StopLosesAll(list[1..], step, Some(ej), k - 1);
  }

  /** When the steps before entry `k` went on and every step at entry `k`
      stops with `end`, which is not a list, the whole conversion ends with
      `end`. */
  lemma {:induction false} StopEndsAll(list: seq<RegistrationJson>, step: Stepper, held: Option<EventJson>, k: nat,
                                       end: Fetch<seq<EventRegistration>>)
    requires k < |list| && |UsedEvents(list, step, held)| >= k
    requires !end.Fetched? && forall h :: step(list[k], h) == Stop(end)
    ensures ConvertRegistrations(list, step, held) == end
    decreases k
  {
    if k > 0 {
      assert step(list[0], held).Next?;
      var ej := step(list[0], held).held;
      assert list[1..][k - 1] == list[k];
      StopEndsAll(list[1..], step, Some(ej), k - 1, end);
    }
  }

  /** A fatal status on one nested event request loses every registration of
      the account, including those already built; when the entries before it
      went on and its own timestamp and attendee can be read, the whole list
      is `None`. */
  lemma NestedFailureLosesAll(list: seq<RegistrationJson>, events: EventServer, held: Option<EventJson>, k: nat)
    requires k < |list| && RetrySpec(ReturnNoneOnError, events(list[k].eventId).status).outcome.Abandoned?
    ensures !ConvertRegistrations(list, EventSteps(events), held).Fetched?
    ensures |UsedEvents(list, EventSteps(events), held)| >= k
            && ParseStampDate(list[k].registrationDateTime).Some? && FirstAttendeeStatus(list[k].tickets).Ok?
            ==> ConvertRegistrations(list, EventSteps(events), held) == Unavailable
  {
    forall h
      ensures EventSteps(events)(list[k], h).Stop?
    {
      AbandonedEventStops(list[k], events, h);
    }
    EventStepsFit(events);
    StopLosesAll(list, EventSteps(events), held, k);
    if |UsedEvents(list, EventSteps(events), held)| >= k
       && ParseStampDate(list[k].registrationDateTime).Some? && FirstAttendeeStatus(list[k].tickets).Ok? {
      forall h
        ensures EventSteps(events)(list[k], h) == Stop(Unavailable)
      {
        assert NestedEvent(events, list[k].eventId, h) == Unavailable;
      }
      StopEndsAll(list, EventSteps(events), held, k, Unavailable);
    }
  }

  /** When every attempt at a registration's event fails, the event JSON of
      the previous registration is used for it again: the same event name,
      category and date. */
  lemma ExhaustedEventIsReused(rj: RegistrationJson, events: EventServer, held: EventJson)
    requires RetrySpec(ReturnNoneOnError, events(rj.eventId).status).outcome.Exhausted?
    requires RegistrationStep(rj, events, Some(held)).Next?
    ensures var s := RegistrationStep(rj, events, Some(held));
            s.held == held && s.reg.eventType.name == TrimEventName(held.name)
            && EventCategoryOf(held.category) == Ok(s.reg.eventType.category)
            && ParseIsoDate(held.startDate) == Some(s.reg.eventDate)
  {
  }

  // ---------------------------------------------------------------------
  // The account

  /** `Fetch` as the value stored in the account: `None` unless fetched. */
  function AsOption<T>(f: Fetch<T>): (r: Option<T>)
    requires !f.Raised?
    ensures r.Some? <==> f.Fetched?
    ensures r.Some? ==> r.value == f.value
  {
    if f.Fetched? then Some(f.value) else None
  }

  /** The account fields read from the account JSON, or the error raised on
      the way (custom fields, family flag, waiver date, tour date, referral). */
  function AccountFromJson(neonId: int, aj: AccountJson): (r: Result<Account>)
    ensures aj.accountCustomFields.None? ==> r == Err(TypeError)
    ensures r.Ok? ==>
              && aj.accountCustomFields.Some?
              && r.value.neonId == neonId
              && FamilySpec(CustomFieldTable(aj.accountCustomFields.value)) == Ok(r.value.familyMembership)
              && r.value.memberships.None? && r.value.eventRegistrations.None?
              && (r.value.birthdate.Some? ==> ValidDate(r.value.birthdate.value))
    ensures r.Ok? ==>
              var pc := aj.primaryContact;
              var cf := CustomFieldTable(aj.accountCustomFields.value);
              var addr := AddressFieldsOf(match pc.addresses case None => None case Some(s) => LastPrimary(s));
              && r.value.firstName == pc.firstName && r.value.lastName == pc.lastName && r.value.email == pc.email1
              && r.value.address == addr.street && r.value.city == addr.city && r.value.state == addr.state
              && r.value.zip == addr.zip && r.value.phone == addr.phone
              && r.value.birthdate == Birthdate(pc) && r.value.gender == GenderName(pc)
              && r.value.openpathId == FieldValue(cf, "OpenPathID")
              && r.value.discourseId == FieldValue(cf, "DiscourseID")
              && ReferralSource(cf) == Ok(r.value.referralSource)
              && CustomDate(cf, "WaiverDate") == Ok(r.value.waiverDate)
              && CustomDate(cf, "FacilityTourDate") == Ok(r.value.orientationDate)
    ensures r.Err? ==> r.error in {TypeError, ValueError, IndexError}
    ensures r.Ok? <==>
              && aj.accountCustomFields.Some?
              && var cf := CustomFieldTable(aj.accountCustomFields.value);
                 && FamilySpec(cf).Ok?
                 && CustomDate(cf, "WaiverDate").Ok? && CustomDate(cf, "FacilityTourDate").Ok?
                 && ReferralSource(cf).Ok?
  {
    var pc := aj.primaryContact;
    var addr := AddressFieldsOf(match pc.addresses case None => None case Some(s) => LastPrimary(s));
    match CustomFieldsOf(aj)
    case Err(e) => Err(e)
    case Ok(cf) =>
      match FamilySpec(cf)
      case Err(e) => Err(e)
      case Ok(family) =>
        match CustomDate(cf, "WaiverDate")
        case Err(e) => Err(e)
        case Ok(waiver) =>
          match CustomDate(cf, "FacilityTourDate")
          case Err(e) => Err(e)
          case Ok(tour) =>
            match ReferralSource(cf)
            case Err(e) => Err(e)
            case Ok(referral) =>
              Ok(Account(neonId, pc.firstName, pc.lastName, pc.email1, addr.street, addr.city, addr.state,
                         addr.zip, addr.phone, Birthdate(pc), GenderName(pc),
                         FieldValue(cf, "OpenPathID"), FieldValue(cf, "DiscourseID"), referral, family,
                         waiver, tour, None, None))
  }

  /** The three requests an account needs, and the event server. */
  datatype AccountServer = AccountServer(
    account: Exchange<AccountJson>,
    memberships: Exchange<MembershipsBody>,
    registrations: Exchange<RegistrationsBody>,
    events: EventServer)

  /** `get_individual_account`.  The two history fetches run together; when
      either raises the account fetch raises (the memberships' error is
      reported when both do). */
  function IndividualAccountSpec(neonId: int, server: AccountServer): Fetch<Account> {
    var o := RetrySpec(ReturnNoneOnError, server.account.status).outcome;
    if o.Abandoned? then Unavailable
    else if o.Exhausted? then Raised(UnboundLocalError)
    else match AccountFromJson(neonId, server.account.body)
      case Err(e) => Raised(e)
      case Ok(acct) =>
        var ms := MembershipsSpec(server.memberships);
        var rs := RegistrationsSpec(server.registrations, server.events);
        if ms.Raised? then Raised(ms.error)
        else if rs.Raised? then Raised(rs.error)
        else Fetched(acct.(memberships := AsOption(ms), eventRegistrations := AsOption(rs)))
  }

  method GetIndividualAccount(neonId: int, server: AccountServer) returns (r: Fetch<Account>)
    ensures r == IndividualAccountSpec(neonId, server)
  {
    var outcome, _, _ := RetryLoop(ReturnNoneOnError, server.account.status);
    if outcome.Abandoned? {
      return Unavailable;
    }
    if outcome.Exhausted? {
      return Raised(UnboundLocalError);
    }
    var aj := server.account.body;
    var pc := aj.primaryContact;
    var address := SelectPrimaryAddress(pc.addresses);
    var addr := AddressFieldsOf(address);
    var cf := CustomFieldsOf(aj);
    if cf.Err? {
      return Raised(cf.error);
    }
    var family := FamilyMembership(cf.value);
    if family.Err? {
      return Raised(family.error);
    }
    var waiver := CustomDate(cf.value, "WaiverDate");
    if waiver.Err? {
      return Raised(waiver.error);
    }
    var tour := CustomDate(cf.value, "FacilityTourDate");
    if tour.Err? {
      return Raised(tour.error);
    }
    var referral := ReferralSource(cf.value);
    if referral.Err? {
      return Raised(referral.error);
    }
    var ms := GetAcctMembershipData(server.memberships);
    var rs := GetAcctEventRegistrations(server.registrations, server.events);
    if ms.Raised? {
      return Raised(ms.error);
    }
    if rs.Raised? {
      return Raised(rs.error);
    }
    var acct := Account(neonId, pc.firstName, pc.lastName, pc.email1, addr.street, addr.city, addr.state,
                        addr.zip, addr.phone, Birthdate(pc), GenderName(pc),
                        FieldValue(cf.value, "OpenPathID"), FieldValue(cf.value, "DiscourseID"),
                        referral.value, family.value, waiver.value, tour.value, AsOption(ms), AsOption(rs));
    return Fetched(acct);
  }

  /** An account the server does not know (404 on the first attempt) is
      reported as unavailable after exactly one request and no sleep. */
  lemma AccountNotFound(neonId: int, server: AccountServer)
    requires server.account.status(0) == 404
    ensures IndividualAccountSpec(neonId, server) == Unavailable
    ensures RetrySpec(ReturnNoneOnError, server.account.status) == Trace(Abandoned(0, 404), 1, [])
  {
    FatalStatusStops(server.account.status, 0);
    assert TransientBackoffs(server.account.status, 0, 1) == [] + TransientBackoffs(server.account.status, 1, 1);
  }

  /** A fetched account carries the history lists exactly as the two fetches
      returned them, and its family flag, address and dates are those the
      extraction rules give. */
  lemma FetchedAccountFields(neonId: int, server: AccountServer)
    requires IndividualAccountSpec(neonId, server).Fetched?
    ensures var a := IndividualAccountSpec(neonId, server).value;
            var aj := server.account.body;
            && RetrySpec(ReturnNoneOnError, server.account.status).outcome.Success?
            && aj.accountCustomFields.Some?
            && FamilySpec(CustomFieldTable(aj.accountCustomFields.value)) == Ok(a.familyMembership)
            && (a.memberships.Some? <==> MembershipsSpec(server.memberships).Fetched?)
            && (a.eventRegistrations.Some? <==> RegistrationsSpec(server.registrations, server.events).Fetched?)
            && a.memberships == AsOption(MembershipsSpec(server.memberships))
            && a.eventRegistrations == AsOption(RegistrationsSpec(server.registrations, server.events))
            && AccountFromJson(neonId, aj) == Ok(a.(memberships := None, eventRegistrations := None))
            && (a.birthdate.Some? ==> ValidDate(a.birthdate.value))
            && (a.waiverDate.Some? ==> ValidDate(a.waiverDate.value))
            && (a.orientationDate.Some? ==> ValidDate(a.orientationDate.value))
            && (aj.primaryContact.addresses.None? ==>
                  a.address.None? && a.city.None? && a.state.None? && a.zip.None? && a.phone.None?)
  {
  }
  /** The account is fetched exactly when its request answers 200 within ten
      attempts, the fields can be read from its JSON and neither history
      fetch raises; a read error is raised as it is, the memberships' before
      the registrations'. */
  lemma AccountOutcomes(neonId: int, server: AccountServer)
    ensures IndividualAccountSpec(neonId, server).Fetched? <==>
              && RetrySpec(ReturnNoneOnError, server.account.status).outcome.Success?
              && AccountFromJson(neonId, server.account.body).Ok?
              && !MembershipsSpec(server.memberships).Raised?
              && !RegistrationsSpec(server.registrations, server.events).Raised?
    ensures RetrySpec(ReturnNoneOnError, server.account.status).outcome.Success?
            && AccountFromJson(neonId, server.account.body).Err? ==>
              IndividualAccountSpec(neonId, server) == Raised(AccountFromJson(neonId, server.account.body).error)
  {
  }

  /** A readable account answered at once, with no membership list and a
      registrations request the server refuses, is fetched as the extracted
      account with both history lists `None`. */
  lemma AccountWithoutHistory(neonId: int, server: AccountServer)
    requires server.account.status(0) == 200 && AccountFromJson(neonId, server.account.body).Ok?
    requires server.memberships.status(0) == 200 && server.memberships.body.memberships.None?
    requires server.registrations.status(0) == 404
    ensures IndividualAccountSpec(neonId, server) == Fetched(AccountFromJson(neonId, server.account.body).value)
  {
    RetryFindsFirstSuccess(ReturnNoneOnError, server.account.status, 0);
    RetryFindsFirstSuccess(RetryOnError, server.memberships.status, 0);
    FatalStatusStops(server.registrations.status, 0);
  }
}
