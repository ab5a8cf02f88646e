# Asmbly member data: a verified model of the Neon fetch and row-building core

The Asmbly member-data scripts download every member account from the Neon CRM
REST API and turn each one into rows for survival analysis. This project
models the core of that pipeline in Dafny and proves properties about it:

- **Records and enumerations** (`neon_types.dfy`). These are membership types, statuses and event categories, together with their string codes and the records built from the API's JSON.
- **Date parsing** (`dates.dfy`). This is the part of `datetime.strptime` that the code uses. It covers the formats `%Y-%m-%d`, `%m/%d/%Y` and `%Y-%m-%dT%H:%M:%SZ`, with CPython's field patterns and the calendar checks of `datetime.date`.
- **Account metrics** (`account_metrics.dfy`). These are the `NeonAccount` properties: membership months, registration and attendance counts, dollars spent, and the first and last membership dates.
- **The retry discipline** (`retry.dfy`). Every request is tried up to ten times. Statuses 429 and 502 are followed by a back-off of 200·2^i ms. Any other status either ends the fetch or is retried at once, depending on the caller.
- **Account paging** (`paging.dfy`). `get_all_accounts` is an endless generator, modelled as a class with a `Next` step. `main` consumes pages until one reports itself past the end, and keeps only INDIVIDUAL accounts.
- **JSON extraction** (`payload.dfy`). This covers gender, birth date, the primary address, the custom-field table, the family-membership flag, the referral source, the waiver and tour dates, the event name and category, and the first attendee's status.
- **The fetch coroutines** (`neon_fetch.dfy`). These are the memberships fetch, the registrations fetch (with its nested per-event fetch) and `get_individual_account`.
- **The long-form rows** (`long_form.dfy`). This covers `add_row` and the steps of `main` that build one account's period rows and flag the last period cancelled.

## How the model is set up

- Each fetch ends in one of three ways (`Fetch`): a value, `None`, or an exception that escapes (`PyError`).
- An exception the code does not catch is an explicit error value. This covers strptime and enum-constructor failures (ValueError), iterating or subscripting `None` (TypeError), `[0]` of an empty list (IndexError), and a retry loop that ran out of attempts before any 200 (UnboundLocalError).
- A server resource is an `Exchange`: the status it answers to attempt `i`, and the body it sends with a 200. Sleeping is recorded as the list of waits, in milliseconds.
- Money is held in integer cents and back-off times in integer milliseconds.
- Step-by-step code keeps its shape. Loops are methods with invariants. The generator's state and `row_list` are fields of a class that the methods update. Each method is proved equal to a specification function, and the properties are proved as lemmas about that function.
- The `add_row` function and the row-building steps of `main` in `TimeInvariantSurvivalAnalysis/compress_long_form_data.py` (lines 71-126 and 245-264) are identical, character for character, to those in `TimeVaryingSurvivalAnalysis/get_asmbly_member_data_long_form.py` (lines 79-134 and 253-272). Module `LongForm` models both. The table below cites the long-form script, and every row for its lines 79-134 and 253-272 holds equally for lines 71-126 and 245-264 of the compress script.

In these places the code behaves in ways a reader might not expect; the model follows the code:

- An event category string outside the enumeration makes `NeonEventCategory(...)` raise ValueError. It is not mapped to the "None" category (`EventCategoryOf`).
- A fatal status on one nested event request makes the whole registration list `None`, discarding the registrations already read. This holds when the entries before it were read and its own timestamp and first attendee can be read; otherwise an earlier entry's stop, or the error reading this entry, decides (`NestedFailureLosesAll`).
- When all ten attempts fail, the code does not return an "unavailable" result:
  - The memberships, registrations and account fetches raise UnboundLocalError.
  - The page generator and the nested event request reuse the JSON from the previous page or registration, and raise UnboundLocalError only when there is none (`ExhaustedPageRepeats`, `ExhaustedEventIsReused`).
- Membership and registration lists are never sorted in memory. Their order is the order the server sent them in. `FirstStartIsEarliest` and `LatestEndIsLatest` therefore hold only when the server's list is sorted.

## Model

| member | source | states |
|---|---|---|
| NeonTypes.ParseMembershipType | Archived/get_all_neon_member_data.py:57-59 | `NeonMembershipType(s)` succeeds exactly on the codes "MONTH"/"YEAR", returns the type with that code, and raises ValueError otherwise |
| NeonTypes.MembershipTypeRoundTrip | Archived/get_all_neon_member_data.py:57-59 | parsing a type's code gives the type back |
| NeonTypes.ParseStatus | Archived/get_all_neon_member_data.py:62-77 | a status string parses exactly when it is one of the six codes, to the status with that code; otherwise ValueError |
| NeonTypes.StatusRoundTrip | Archived/get_all_neon_member_data.py:62-77 | parsing a status's code gives the status back |
| NeonTypes.ParseCategory | Archived/get_all_neon_member_data.py:80-96 | a category name parses exactly when it is one of the sixteen names, to the category with that name; an unknown name raises ValueError |
| NeonTypes.CategoryRoundTrip | Archived/get_all_neon_member_data.py:80-96 | parsing a category's name gives the category back, for every category |
| Dates.DaysInMonth | Archived/get_all_neon_member_data.py:389-394 | every month has 28 to 31 days |
| Dates.MakeDate | Archived/get_all_neon_member_data.py:389-394 | `.date()` of the parsed fields exists exactly when year, month and day form a calendar date, and then it is that date |
| Dates.MatchParts | Archived/get_all_neon_member_data.py:389-391 | a successful strptime match splits the string into one field per directive, each fitting that directive's pattern |
| Dates.MatchAssembled | Archived/get_all_neon_member_data.py:389-391 | fields that fit their directives, joined with the format's literals, are matched back into the same fields |
| Dates.MatchedIsAssembled | Archived/get_all_neon_member_data.py:389-391 | a matched string is exactly its fields joined with the format's literals |
| Dates.ParseIsoDate | Archived/get_all_neon_member_data.py:389-394 | `strptime(s, "%Y-%m-%d").date()` yields only valid calendar dates |
| Dates.IsoDateAccepts | Archived/get_all_neon_member_data.py:389-394 | any year, month and day strings that fit CPython's field patterns, joined by "-", parse to the date of their values (or fail if that is not a calendar date) |
| Dates.IsoDateOnlyAccepts | Archived/get_all_neon_member_data.py:389-394 | every string that parses has that year-month-day shape |
| Dates.IsoDateRoundTrip | Archived/get_all_neon_member_data.py:389-394 | a valid date written as zero-padded YYYY-MM-DD parses back to itself |
| Dates.ParseUsDate | Archived/get_all_neon_member_data.py:503-506 | `strptime(s, "%m/%d/%Y").date()` yields only valid calendar dates |
| Dates.UsDateAccepts | Archived/get_all_neon_member_data.py:503-506 | any month, day and year strings that fit CPython's field patterns, joined by "/", parse to the date of their values (or fail if that is not a calendar date) |
| Dates.UsDateOnlyAccepts | Archived/get_all_neon_member_data.py:503-506 | every string that parses has that month/day/year shape |
| Dates.UsDateRoundTrip | Archived/get_all_neon_member_data.py:503-506 | a valid date written as MM/DD/YYYY parses back to itself |
| Dates.ParseStampDate | Archived/get_all_neon_member_data.py:305-307 | the date of `strptime(s, "%Y-%m-%dT%H:%M:%SZ")` is always a valid calendar date |
| Dates.StampAccepts | Archived/get_all_neon_member_data.py:305-307 | a timestamp whose six fields fit their patterns parses to the date of its first three fields, except that seconds 60 and 61 are rejected |
| Dates.StampRoundTrip | Archived/get_all_neon_member_data.py:305-307 | a valid date and time written as YYYY-MM-DDTHH:MM:SSZ parses back to the date |
| AccountMetrics.SucceededOfKind | Archived/get_all_neon_member_data.py:151-165 | the number of succeeded memberships of a type is at most the number of memberships |
| AccountMetrics.SucceededOfKindAppend | Archived/get_all_neon_member_data.py:154-164 | one more membership adds one to its type's succeeded count exactly when it succeeded |
| AccountMetrics.MembershipMonths | Archived/get_all_neon_member_data.py:151-165 | no memberships give 0 months, and never more than 12 per membership |
| AccountMetrics.SucceededTermsWithin | Archived/get_all_neon_member_data.py:151-165 | the paid annual and paid monthly terms together are at most the memberships |
| AccountMetrics.MembershipCount | Archived/get_all_neon_member_data.py:151-165 | the loop's count is 12 per succeeded annual plus 1 per succeeded monthly membership, and 0 when the list is `None` or empty |
| AccountMetrics.SucceededRegistrations | Archived/get_all_neon_member_data.py:171-181 | the succeeded registrations are at most all of them, and all of them exactly when every one succeeded |
| AccountMetrics.SucceededRegistrationsAppend | Archived/get_all_neon_member_data.py:171-181 | the succeeded registrations of two lists add up |
| AccountMetrics.SucceededRegistrationsSingle | Archived/get_all_neon_member_data.py:171-181 | one registration counts once exactly when it succeeded, so the count is one per SUCCEEDED registration |
| AccountMetrics.EventRegistrationCount | Archived/get_all_neon_member_data.py:167-169 | `event_registration_count` is 0 exactly when the list is absent or empty |
| AccountMetrics.EventAttendedCount | Archived/get_all_neon_member_data.py:171-181 | `event_attended_count` is at most the registration count, and 0 without registrations |
| AccountMetrics.AttendedAtMostRegistered | Archived/get_all_neon_member_data.py:167-181 | `event_attended_count` ≤ `event_registration_count`, with equality exactly when every registration succeeded |
| AccountMetrics.PaidMembershipCentsAppend | Archived/get_all_neon_member_data.py:186-191 | the succeeded-membership sum over two lists is the sum of the two sums |
| AccountMetrics.PaidRegistrationCentsAppend | Archived/get_all_neon_member_data.py:192-197 | the succeeded-registration sum over two lists is the sum of the two sums |
| AccountMetrics.PaidMembershipCentsBounds | Archived/get_all_neon_member_data.py:186-191 | with non-negative prices the sum is non-negative, and 0 when nothing succeeded |
| AccountMetrics.PaidRegistrationCentsBounds | Archived/get_all_neon_member_data.py:192-197 | with non-negative amounts the sum is non-negative, and 0 when nothing succeeded |
| AccountMetrics.TotalCentsSpent | Archived/get_all_neon_member_data.py:183-198 | `total_dollars_spent` is 0 when both lists are absent or both are empty |
| AccountMetrics.TotalCentsSpentBounds | Archived/get_all_neon_member_data.py:183-198 | `total_dollars_spent` is non-negative, and 0 when no membership or registration succeeded (in particular when both lists are absent) |
| AccountMetrics.TotalCentsSpentAddMembership | Archived/get_all_neon_member_data.py:183-198 | adding a membership adds its price exactly when it succeeded |
| AccountMetrics.TotalCentsSpentAddRegistration | Archived/get_all_neon_member_data.py:183-198 | adding a registration adds its amount exactly when it succeeded |
| AccountMetrics.FirstMembershipStart | Archived/get_all_neon_member_data.py:200-204 | present exactly when there is at least one membership, and then the first one's start date |
| AccountMetrics.LatestMembershipEnd | Archived/get_all_neon_member_data.py:206-210 | present exactly when there is at least one membership, and then the last one's end date |
| AccountMetrics.FirstStartIsEarliest | Archived/get_all_neon_member_data.py:200-204 | when the list is sorted by start date, the first start is on or before every start |
| AccountMetrics.LatestEndIsLatest | Archived/get_all_neon_member_data.py:206-210 | when the list is sorted by end date, the last end is on or after every end |
| AccountMetrics.AnnualMemberWithOneClass | Archived/get_all_neon_member_data.py:151-198 | one succeeded 600.00 annual membership plus one succeeded 50.00 laser class: 12 months, 650.00 spent, one registration and one attended |
| Retry.Pow2 | Archived/get_all_neon_member_data.py:224 | 2^n is at least 1 |
| Retry.BackoffDoubles | Archived/get_all_neon_member_data.py:213-225 | the first back-off is 200 ms, and each back-off is twice the one before |
| Retry.BackoffMs | Archived/get_all_neon_member_data.py:213-225 | every back-off is at least the initial 200 ms |
| Retry.RetryFromStopsAt | Archived/get_all_neon_member_data.py:286-298 | the loop stops at the first 200, or (return-None callers only) at the first non-transient status, or runs out after attempt 9; a success is at an attempt that answered 200, and an abandonment carries the fatal status of its attempt |
| Retry.RetryFromSkips | Archived/get_all_neon_member_data.py:286-298 | every attempt before the one the loop stops at answered something other than 200 (something transient, for return-None callers) |
| Retry.RetryFromSkip | Archived/get_all_neon_member_data.py:247-255 | an attempt that neither succeeds nor ends the loop costs one request and its back-off (only if the answer was 429 or 502), then the loop goes on from the next attempt |
| Retry.RetryFromPrefix | Archived/get_all_neon_member_data.py:247-255 | a run of attempts that neither succeed nor end the loop costs one request each and the back-offs of its transient answers, in order |
| Retry.TransientBackoffsSnoc | Archived/get_all_neon_member_data.py:213-225 | the back-offs up to one more attempt are those before it plus its own, if it was transient |
| Retry.RetryLoop | Archived/get_all_neon_member_data.py:373-382 | the `for i in range(max_retries)` loop ends as the retry specification says, with the same requests and waits, and at most ten requests |
| Retry.RetryEnd | Archived/get_all_neon_member_data.py:373-382 | the first attempt that does not go on ends the loop with its own outcome, after one request per attempt so far and the back-offs of the transient answers before it |
| Retry.RetryFindsFirstSuccess | Archived/get_all_neon_member_data.py:425-429 | the first 200 (with nothing fatal before it) at attempt k ends the loop after k+1 requests, having slept only after the transient answers before k |
| Retry.FatalStatusStops | Archived/get_all_neon_member_data.py:430-434 | for return-None callers, the first non-transient failure ends the fetch at once: no further request and no further sleep |
| Retry.NoSuccessExhausts | Archived/get_all_neon_member_data.py:247-255 | ten attempts without a 200 (and, for return-None callers, without a fatal status) end unbound after ten requests and every back-off of a transient answer |
| Retry.RetryOnErrorNeverAbandons | Archived/get_all_neon_member_data.py:373-382 | with the print-and-retry loop a fetch never ends early; it runs out exactly when no attempt answers 200 |
| Retry.TransientBackoffsAllTransient | Archived/get_all_neon_member_data.py:213-225 | when attempts lo..hi-1 are all rate-limited, they sleep hi-lo times for 200·(2^hi − 2^lo) ms in all |
| Retry.AllTransientExhausts | Archived/get_all_neon_member_data.py:247-255 | ten rate-limited answers: ten requests, ten sleeps totalling 204.6 s, and no body |
| Paging.YieldOf | Archived/get_all_neon_member_data.py:247-257 | a 200 yields the new page; running out yields the JSON held from the previous page, or raises UnboundLocalError on the first page |
| Paging.AccountPager.constructor | Archived/get_all_neon_member_data.py:239-241 | the generator starts at page 0 holding no JSON |
| Paging.AccountPager.Next | Archived/get_all_neon_member_data.py:243-258 | one step fetches page `page` with the print-and-retry loop, yields it, keeps the JSON, and moves to the next page number |
| Paging.ConsumePages | Archived/get_all_neon_member_data.py:559-563 | the consumer's loop accepts exactly the pages the walk specification gives, in order, and stops at the first page past the end or at the first error |
| Paging.PromptWalk | Archived/get_all_neon_member_data.py:559-563 | with a server that answers at once, the consumer accepts pages from..total-1, each once and in order |
| Paging.ThreePages | Archived/get_all_neon_member_data.py:559-563 | a listing of three pages gives exactly pages 0, 1 and 2 |
| Paging.FirstPageExhausted | Archived/get_all_neon_member_data.py:247-257 | when every attempt at page 0 fails, the consumer gets UnboundLocalError |
| Paging.ExhaustedPageRepeats | Archived/get_all_neon_member_data.py:247-258 | when every attempt at a later page fails, the previous page is accepted again |
| Paging.IndividualIds | Archived/get_all_neon_member_data.py:568-571 | the ids kept are exactly those of INDIVIDUAL entries, and no more ids than entries |
| Paging.IndividualIdsAppend | Archived/get_all_neon_member_data.py:568-571 | the ids of a listing are those of its first part followed by those of the rest, so the ids keep the listing's order |
| Paging.IndividualIdsSingle | Archived/get_all_neon_member_data.py:568-571 | one entry gives its id exactly once when it is INDIVIDUAL, and nothing otherwise |
| Payload.GenderName | Archived/get_all_neon_member_data.py:444-446 | gender is the gender object's name when present, else `None` |
| Payload.Birthdate | Archived/get_all_neon_member_data.py:447-456 | a birth date is only ever a valid calendar date, taken from a present `dob` |
| Payload.BirthdateOfParts | Archived/get_all_neon_member_data.py:447-456 | a `dob` whose parts fit the field patterns gives the date of their values, or `None` (the caught ValueError) when that is not a date |
| Payload.BirthdateRoundTrip | Archived/get_all_neon_member_data.py:447-456 | a zero-padded `dob` of a valid date gives that date |
| Payload.LastPrimaryIsLast | Archived/get_all_neon_member_data.py:460-464 | the address chosen is absent exactly when none is primary, and otherwise it is the last primary one |
| Payload.SelectPrimaryAddress | Archived/get_all_neon_member_data.py:458-464 | the loop leaves the last primary address, or `None` when the list is absent |
| Payload.AddressFieldsOf | Archived/get_all_neon_member_data.py:466-474 | no address gives five `None` fields; otherwise street, city, zip and phone are the address's, and the state is its state's code |
| Payload.CustomFieldTableLastWins | Archived/get_all_neon_member_data.py:476-479 | a name is in the table exactly when some field has it, and then it maps to the last such field's value and options |
| Payload.CustomFieldsOf | Archived/get_all_neon_member_data.py:476-479 | a missing `accountCustomFields` raises TypeError; otherwise the result is the table of the fields |
| Payload.FieldValue | Archived/get_all_neon_member_data.py:481-486 | an OpenPath or Discourse id is the field's value when the field exists, else `None` |
| Payload.FindOption | Archived/get_all_neon_member_data.py:490-493 | the loop finds an option exactly when one has that name |
| Payload.FamilyMembership | Archived/get_all_neon_member_data.py:488-499 | the flag-setting loops compute the family specification |
| Payload.FamilyIff | Archived/get_all_neon_member_data.py:488-499 | the flag is true exactly when the sub-member field has a "Yes" option or the primary-member field has its option; TypeError exactly when the sub-member field has no option list, or when the sub-member field offers no "Yes" and the primary-member field has no option list; a "Yes" sub-member is always a family member |
| Payload.ReferralSource | Archived/get_all_neon_member_data.py:514-516 | no referral field gives `None`; otherwise TypeError for a missing option list, IndexError for an empty one, else the first option's name |
| Payload.CustomDate | Archived/get_all_neon_member_data.py:501-512 | a missing field gives `None`; a present one gives TypeError exactly when its value is missing, ValueError exactly when the value does not parse as MM/DD/YYYY (an error that is not caught, unlike the birth date's), and otherwise the date it parses to, which is valid |
| Payload.CustomDateRoundTrip | Archived/get_all_neon_member_data.py:501-512 | a field holding a valid date in MM/DD/YYYY gives that date |
| Payload.TrimEventName | Archived/get_all_neon_member_data.py:323 | `name.split(" w/")[0]`: the result is a prefix of the name, holds no " w/", and is the whole name or is followed by " w/" |
| Payload.EventCategoryOf | Archived/get_all_neon_member_data.py:327-334 | no category object gives "None"; a category without a name raises ValueError; a name parses exactly when it is a known category name, to the category with that name, and otherwise raises ValueError |
| Payload.FirstAttendeeStatus | Archived/get_all_neon_member_data.py:310 | the status is the first ticket's first attendee's, and IndexError exactly when either list is empty |
| NeonFetch.ConvertMembership | Archived/get_all_neon_member_data.py:388-403 | an entry converts exactly when both dates, the term unit and the status parse; the membership then has the parsed start and end dates, the fee, and the type and status whose codes were given; any failure is ValueError |
| NeonFetch.ConvertAll | Archived/get_all_neon_member_data.py:388-403 | converting a list gives one result per entry, in order, or fails exactly when some entry fails, with that entry's error |
| NeonFetch.ConvertAllStops | Archived/get_all_neon_member_data.py:388-403 | the first entry that fails gives the error of the whole list |
| NeonFetch.MembershipsOutcomes | Archived/get_all_neon_member_data.py:373-405 | UnboundLocalError exactly when no attempt answers 200; `None` exactly when the list is missing or empty; ValueError exactly when an entry is unreadable; otherwise every entry converted in order |
| NeonFetch.GetAcctMembershipData | Archived/get_all_neon_member_data.py:350-405 | the coroutine's retry loop and append loop give the memberships specification |
| NeonFetch.BuildRegistration | Archived/get_all_neon_member_data.py:323-345 | a registration is built exactly when the event's start date, its category and the status parse; it has the trimmed event name, the event's category and start date, the attendee's status, and the entry's id, amount and registration date; any failure is ValueError |
| NeonFetch.NestedEvent | Archived/get_all_neon_member_data.py:312-321 | the nested event request leaves `None` exactly after a fatal status; UnboundLocalError exactly when all ten attempts failed and nothing is held; any event JSON other than the new body is the one held from the previous registration, reused after ten failed attempts |
| NeonFetch.RegistrationStep | Archived/get_all_neon_member_data.py:305-345 | one entry goes on exactly when its timestamp parses, its first ticket has an attendee, the nested request leaves event JSON and the registration builds; it then gives a registration with the entry's event id, amount and registration date, the status of the first ticket's first attendee, and the trimmed name, category and start date of that event JSON, which it holds for the next entry; it ends the whole fetch with `None` exactly when the timestamp and attendee are read and the nested request met a fatal status; otherwise it ends the fetch with an exception, never with a list |
| NeonFetch.EventStepsFit | Archived/get_all_neon_member_data.py:305-345 | every pass of the loop body either ends the fetch without a list or builds a registration whose fields come from its entry and from the event JSON its nested request left (`RegistrationFits`) |
| NeonFetch.ConvertRegistrationsFields | Archived/get_all_neon_member_data.py:302-347 | a fetched list has one registration per entry, in order; each fits its entry, the event JSON held before it (the previous entry's) and the event JSON it used |
| NeonFetch.ConvertRegistrationsComplete | Archived/get_all_neon_member_data.py:302-347 | the loop gives a list exactly when every entry's pass went on |
| NeonFetch.StepsGoOnFetch | Archived/get_all_neon_member_data.py:302-347 | when every pass goes on, the loop gives a list with one registration per entry |
| NeonFetch.RegistrationsOutcomes | Archived/get_all_neon_member_data.py:286-347 | `None` after a fatal status or for a missing or empty list; UnboundLocalError after ten failed attempts; after a 200 with entries, a list exactly when every entry's step went on, and then one registration per entry, in order, with the entry's id, amount, registration date and first attendee's status and the trimmed name, category and start date of the event JSON its nested request left (the new event, or the previous entry's after ten failed attempts) |
| NeonFetch.ReadableRegistrationsFetched | Archived/get_all_neon_member_data.py:286-347 | a 200 with a non-empty list of readable entries whose event requests all answer 200 gives one registration per entry |
| NeonFetch.RegistrationsSpecConverts | Archived/get_all_neon_member_data.py:286-303 | after a 200 with a non-empty list, the fetch is the conversion of that list |
| NeonFetch.ReadableEntryGoesOn | Archived/get_all_neon_member_data.py:305-345 | a readable entry whose event request answers 200 goes on, whatever event JSON is held |
| NeonFetch.ReadableStepsGoOn | Archived/get_all_neon_member_data.py:302-347 | over a list of such entries every pass of the loop body goes on |
| NeonFetch.ReadRegistration | Archived/get_all_neon_member_data.py:305-345 | one pass of the loop body, nested fetch included, is the registration step |
| NeonFetch.GetAcctEventRegistrations | Archived/get_all_neon_member_data.py:261-347 | the coroutine's loops give the registrations specification |
| NeonFetch.AbandonedEventStops | Archived/get_all_neon_member_data.py:312-321 | a fatal status on an entry's event request ends the loop at that entry |
| NeonFetch.StopLosesAll | Archived/get_all_neon_member_data.py:302-347 | an entry at which the loop ends, whatever event JSON is held, leaves no list, whatever was built before it |
| NeonFetch.StopEndsAll | Archived/get_all_neon_member_data.py:302-347 | when the entries before one were read and that entry always ends the loop with a non-list outcome, the whole fetch ends with that outcome |
| NeonFetch.NestedFailureLosesAll | Archived/get_all_neon_member_data.py:312-321 | a fatal status on one nested event request loses the whole list, including the registrations already read; when the entries before it were read and its timestamp and attendee can be read, the result is `None` |
| NeonFetch.ExhaustedEventIsReused | Archived/get_all_neon_member_data.py:312-326 | when the nested request runs out, the registration is built from the previous registration's event |
| NeonFetch.AsOption | Archived/get_all_neon_member_data.py:542-543 | `.result()` of a finished fetch is the value when there is one, else `None` |
| NeonFetch.AccountFromJson | Archived/get_all_neon_member_data.py:436-516 | a missing custom-field list raises TypeError; an extracted account has the given id, the contact's names and email, the five columns of the last primary address, the parsed birth date and the gender name, the OpenPath and Discourse ids, the family rule's flag, the referral source, the waiver and tour dates of their fields, and no history lists yet; every failure is TypeError, ValueError or IndexError; extraction succeeds exactly when the custom-field list is present and the family flag, both custom dates and the referral source can be read |
| NeonFetch.GetIndividualAccount | Archived/get_all_neon_member_data.py:408-544 | the coroutine gives the account specification: `None` on a fatal status, UnboundLocalError after ten failed attempts, an extraction error, a history fetch's error, or the assembled account |
| NeonFetch.AccountOutcomes | Archived/get_all_neon_member_data.py:408-544 | an account is fetched exactly when its request answers 200 within ten attempts, its fields can be read and neither history fetch raises; after a 200 an extraction error is raised as it is |
| NeonFetch.AccountWithoutHistory | Archived/get_all_neon_member_data.py:408-544 | a readable account answered at once, with no membership list and a refused registrations request, is fetched as the extracted account with both history lists `None` |
| NeonFetch.AccountNotFound | Archived/get_all_neon_member_data.py:425-434 | a 404 on the first attempt gives `None` after one request and no sleep |
| NeonFetch.FetchedAccountFields | Archived/get_all_neon_member_data.py:436-544 | a fetched account came from a 200 with custom fields; it is the extracted account with the two history lists set to `.result()` of their fetches; its family flag is the family rule's; its birth, waiver and orientation dates are valid; no addresses means all five address fields are `None` |
| LongForm.AllCategoriesOnce | TimeVaryingSurvivalAnalysis/get_asmbly_member_data_long_form.py:98-100 | the categories summed by `total()` include every category, each once |
| LongForm.NewRow | TimeVaryingSurvivalAnalysis/get_asmbly_member_data_long_form.py:90-97 | the new row keeps the template's account columns and cancelled flag; it spans interval−1 to interval, so consecutive intervals' rows abut; type, dates and dollars are the membership's |
| LongForm.PeriodColumnsOf | TimeVaryingSurvivalAnalysis/get_asmbly_member_data_long_form.py:90-132 | the period columns run from interval−1 to interval and carry the membership's type, start and end dates and the period's dollars (class columns: `ClassColumnsReadCounter`) |
| LongForm.ClassColumnsReadCounter | TimeVaryingSurvivalAnalysis/get_asmbly_member_data_long_form.py:98-132 | the class total is the counter's total; woodshop = woodworking + woodshop safety + CNC; metal shop = metalworking + machining; the other four read one category each; the empty-counter guard changes none of them |
| LongForm.EmptyCounterZeroes | TimeVaryingSurvivalAnalysis/get_asmbly_member_data_long_form.py:98-132 | an empty counter gives 0 in all seven class columns |
| LongForm.BucketsWithinTotal | TimeVaryingSurvivalAnalysis/get_asmbly_member_data_long_form.py:98-132 | with non-negative counts the six shop columns add up to at most the class total |
| LongForm.PeriodRows | TimeVaryingSurvivalAnalysis/get_asmbly_member_data_long_form.py:255-261 | one row per period, in the periods' order |
| LongForm.Marked | TimeVaryingSurvivalAnalysis/get_asmbly_member_data_long_form.py:270-272 | the masked assignment gives one row per row, flagging those ending on the given date |
| LongForm.MarkedRows | TimeVaryingSurvivalAnalysis/get_asmbly_member_data_long_form.py:270-272 | only the cancelled flag of the last period's rows changes; all other rows and columns stay as they were |
| LongForm.MarkedIdempotent | TimeVaryingSurvivalAnalysis/get_asmbly_member_data_long_form.py:270-272 | marking twice is marking once |
| LongForm.MemberRowsErrors | TimeVaryingSurvivalAnalysis/get_asmbly_member_data_long_form.py:263-265 | ValueError exactly when there are no periods; otherwise TypeError for a missing membership list, IndexError for an empty one, and rows in every other case |
| LongForm.MemberRowsOrder | TimeVaryingSurvivalAnalysis/get_asmbly_member_data_long_form.py:253-263 | one row per period, all annual periods' rows before all monthly ones, each group in its own order |
| LongForm.MemberRowsCancelled | TimeVaryingSurvivalAnalysis/get_asmbly_member_data_long_form.py:265-272 | starting from `False`, a row is flagged exactly when the account is INACTIVE and the row ends on the last membership's end date |
| LongForm.RowList.constructor | TimeVaryingSurvivalAnalysis/get_asmbly_member_data_long_form.py:253 | `row_list` starts empty |
| LongForm.RowList.AddRow | TimeVaryingSurvivalAnalysis/get_asmbly_member_data_long_form.py:79-134 | appends exactly one row, the filled copy of the template, leaving earlier rows unchanged |
| LongForm.RowList.AddPeriods | TimeVaryingSurvivalAnalysis/get_asmbly_member_data_long_form.py:255-261 | a group's loop appends that group's period rows, in order, after the rows already there |
| LongForm.RowList.MarkCancelled | TimeVaryingSurvivalAnalysis/get_asmbly_member_data_long_form.py:270-272 | the rows become the marked rows |
| LongForm.BuildMemberRows | TimeVaryingSurvivalAnalysis/get_asmbly_member_data_long_form.py:253-272 | the steps of `main` for one account give the rows of the specification, or its error |

## Left out

- Network I/O, aiohttp sessions, credentials and headers are not modelled. Servers are parameters (`Exchange`, `PageServer`, `EventServer`, `AccountServer`), and sleeping is the list of waits.
- The concurrency of `asyncio.TaskGroup` is not modelled. The two history fetches are independent, so only their results matter. When a history fetch raises, the task group cancels the other fetch and re-raises the error wrapped in an ExceptionGroup, even when it is the only one. The model reports the bare error instead, and the memberships fetch's error when both fail (`IndividualAccountSpec`).
- `print`, `pprint` and the progress counters are left out, because they only log.
- Floating point is not modelled. Prices and amounts are integer cents, and back-off times are integer milliseconds.
- Google Maps geocoding, the pandas frame plumbing (`concat` across accounts, `to_csv`), and every `main` apart from the paging check, the INDIVIDUAL filter and the row-building steps are left out, because they are foreign libraries and output.
- The short-form script and the Discourse helper are not part of this model.
- The `helpers` modules are not part of this model. Their results are parameters of `LongForm`: the per-period class counter, the dollars spent in a period, the numbered membership periods and the current membership status. So are the account columns they fill into the template (age, distances, attended-class flags, teacher, steward, volunteer).
- The empty dictionary returned for a missing membership type is treated as an empty period list. The walrus `if` skips both alike.
- Missing JSON keys (KeyError), a `None` primary contact or address entry (AttributeError), and `vars(None)` in the archived `main` are left out. The JSON records have every field the code reads.
- strptime is modelled for ASCII digits only. CPython also accepts other Unicode decimal digits in numeric fields.
- `full_name` is left out, because it is string formatting only.
- The nested event request's sleeps are not reported by the registrations fetch; only its outcome is.
- The event server (`EventServer`) answers each event id with one fixed sequence of statuses. Two registrations for the same event therefore see the same answers, although each nested request is a fresh GET that a real server may answer differently. No property here depends on this.
- An empty JSON object is falsy in Python. The model treats every present object (category, gender, `dob`, address, custom-field entry) as truthy, so a `{}` where the code tests an object is not modelled.
- The long-form scripts import `NeonEventCategory` from the `helpers` package. The model uses the archived enumeration, whose `_3DPRINTING` member stands for the `PRINTING_3D` member read at line 132.
- Membership and registration statuses are one enumeration. The two source enumerations have the same six values.
- Paging.ConsumePages: requires that the server ends the listing at some page. The generator itself never ends, so a server that never reports a page past the end makes the consumer loop forever.
- Paging.PromptWalk: is stated only for a server that answers every page with 200 on the first attempt.
- AccountMetrics.FirstStartIsEarliest: holds only when the server sent the list sorted by start date. The code never sorts the list.
- AccountMetrics.LatestEndIsLatest: holds only when the server sent the list sorted by end date.
