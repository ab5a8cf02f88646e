/** The long-form table: one row per membership period of an account.

    For each account the script fills a one-row template with the account's
    own columns, then for every membership period (annual periods first, then
    monthly ones) appends a copy of that template whose period columns are
    set: the interval bounds, the membership's type and dates, the dollars
    spent, the number of classes attended and six per-shop class counts.  The
    rows are concatenated, and the rows of the last period are flagged
    cancelled when the account's current membership status is INACTIVE.

    The per-period class counter, the dollars spent in a period and the
    numbered periods themselves come from account helpers that are not part
    of this model; they are parameters here. */
module LongForm {
  import opened Wrappers
  import opened Dates
  import opened NeonTypes

  // ---------------------------------------------------------------------
  // The class counter

  /** A `Counter` of attended classes by category: a missing key counts 0. */
  type Counter = map<EventCategory, int>

  function Count(c: Counter, cat: EventCategory): int {
    if cat in c then c[cat] else 0
  }

  /** The categories the shop buckets read, then all the others. */
  const BucketCategories: seq<EventCategory> :=
    [Woodworking, WoodshopSafety, Cnc, Metalworking, Machining, Lasers, Textiles, Electronics, Printing3D]
  const OtherCategories: seq<EventCategory> :=
    [Misc, Private, Orientation, FacilityAndSafetyTour, WoodshopMentorSeries, ToolSharpening, NoneCategory]
  const AllCategories: seq<EventCategory> := BucketCategories + OtherCategories

  /** Every category appears in `AllCategories`, and only once, so summing
      over it sums every key of a counter once. */
  lemma AllCategoriesOnce(cat: EventCategory)
    ensures cat in AllCategories
    ensures forall i, j :: 0 <= i < j < |AllCategories| ==> AllCategories[i] != AllCategories[j]
  {
    assert cat in AllCategories by {
      match cat
      case Woodworking => assert AllCategories[0] == cat;
      case WoodshopSafety => assert AllCategories[1] == cat;
      case Cnc => assert AllCategories[2] == cat;
      case Metalworking => assert AllCategories[3] == cat;
      case Machining => assert AllCategories[4] == cat;
      case Lasers => assert AllCategories[5] == cat;
      case Textiles => assert AllCategories[6] == cat;
      case Electronics => assert AllCategories[7] == cat;
      case Printing3D => assert AllCategories[8] == cat;
      case Misc => assert AllCategories[9] == cat;
      case Private => assert AllCategories[10] == cat;
      case Orientation => assert AllCategories[11] == cat;
      case FacilityAndSafetyTour => assert AllCategories[12] == cat;
      case WoodshopMentorSeries => assert AllCategories[13] == cat;
      case ToolSharpening => assert AllCategories[14] == cat;
      case NoneCategory => assert AllCategories[15] == cat;
    }
  }

  function SumOver(c: Counter, cats: seq<EventCategory>): int {
    if cats == [] then 0 else Count(c, cats[0]) + SumOver(c, cats[1..])
  }

  /** `Counter.total()`: the sum of all counts. */
  function Total(c: Counter): int {
    SumOver(c, AllCategories)
  }

  lemma {:induction false} SumOverAppend(c: Counter, xs: seq<EventCategory>, ys: seq<EventCategory>)
    ensures SumOver(c, xs + ys) == SumOver(c, xs) + SumOver(c, ys)
  {
    if xs == [] {
      assert xs + ys == ys;
    } else {
      assert (xs + ys)[1..] == xs[1..] + ys;
      SumOverAppend(c, xs[1..], ys);
    }
  }

  lemma {:induction false} SumOverNonnegative(c: Counter, cats: seq<EventCategory>)
    requires forall cat :: Count(c, cat) >= 0
    ensures SumOver(c, cats) >= 0
  {
    if cats != [] {
      SumOverNonnegative(c, cats[1..]);
    }
  }

  lemma {:induction false} SumOverEmpty(cats: seq<EventCategory>)
    ensures SumOver(map[], cats) == 0
  {
    if cats != [] {
      SumOverEmpty(cats[1..]);
    }
  }

  // ---------------------------------------------------------------------
  // Rows

  /** The columns `main` copies from the account into the template before
      any period is added (the ones computed by geocoding or by helpers
      outside this model are not represented). */
  datatype AccountColumns = AccountColumns(
    neonId: int,
    email: Option<string>,
    firstName: Option<string>,
    lastName: Option<string>,
    hasOpId: bool,
    hasDiscourseId: bool,
    discourseId: Option<string>,
    gender: Option<string>,
    referralSource: Option<string>,
    familyMembership: bool,
    waiverSigned: bool,
    orientationAttended: bool)

  /** The columns `add_row` sets for one period. */
  datatype PeriodColumns = PeriodColumns(
    start: int,
    stop: int,
    kind: MembershipType,
    startDate: Date,
    endDate: Date,
    dollarsCents: int,
    numClasses: int,
    woodshop: int,
    metalShop: int,
    lasers: int,
    textiles: int,
    electronics: int,
    printing3d: int)

  /** One row of the frame: the template's period columns are all `None`
      (`period == None`) and `membership_cancelled` starts `False`. */
  datatype Row = Row(account: AccountColumns, cancelled: bool, period: Option<PeriodColumns>)

  /** The period columns, each guarded by `0 if not class_counter`. */
  function PeriodColumnsOf(counter: Counter, interval: int, m: Membership, dollarsCents: int): (p: PeriodColumns)
    ensures p.start == interval - 1 && p.stop == interval
    ensures p.kind == m.kind && p.startDate == m.startDate && p.endDate == m.endDate
    ensures p.dollarsCents == dollarsCents
  {
    var empty := counter == map[];
    PeriodColumns(
      interval - 1, interval, m.kind, m.startDate, m.endDate, dollarsCents,
      if empty then 0 else Total(counter),
      if empty then 0 else Count(counter, Woodworking) + Count(counter, WoodshopSafety) + Count(counter, Cnc),
      if empty then 0 else Count(counter, Metalworking) + Count(counter, Machining),
      if empty then 0 else Count(counter, Lasers),
      if empty then 0 else Count(counter, Textiles),
      if empty then 0 else Count(counter, Electronics),
      if empty then 0 else Count(counter, Printing3D))
  }

  /** The row `add_row` appends: a copy of the template with the period
      columns set and everything else as in the template. */
  function NewRow(template: Row, counter: Counter, interval: int, m: Membership, dollarsCents: int): (r: Row)
    ensures r.account == template.account && r.cancelled == template.cancelled
    ensures r.period.Some? && r.period.value.start == interval - 1 && r.period.value.stop == interval
    ensures r.period.value.kind == m.kind && r.period.value.startDate == m.startDate
            && r.period.value.endDate == m.endDate && r.period.value.dollarsCents == dollarsCents
  {
    template.(period := Some(PeriodColumnsOf(counter, interval, m, dollarsCents)))
  }

  /** The empty-counter guard changes nothing: every class column is exactly
      the counter's total or the sum of its categories' counts. */
  lemma ClassColumnsReadCounter(counter: Counter, interval: int, m: Membership, dollarsCents: int)
    ensures var p := PeriodColumnsOf(counter, interval, m, dollarsCents);
            && p.numClasses == Total(counter)
            && p.woodshop == Count(counter, Woodworking) + Count(counter, WoodshopSafety) + Count(counter, Cnc)
            && p.metalShop == Count(counter, Metalworking) + Count(counter, Machining)
            && p.lasers == Count(counter, Lasers)
            && p.textiles == Count(counter, Textiles)
            && p.electronics == Count(counter, Electronics)
            && p.printing3d == Count(counter, Printing3D)
  {
    if counter == map[] {
      SumOverEmpty(AllCategories);
    }
  }

  /** An empty counter gives zero in every class column. */
  lemma EmptyCounterZeroes(interval: int, m: Membership, dollarsCents: int)
    ensures var p := PeriodColumnsOf(map[], interval, m, dollarsCents);
            p.numClasses == 0 && p.woodshop == 0 && p.metalShop == 0 && p.lasers == 0
            && p.textiles == 0 && p.electronics == 0 && p.printing3d == 0
  {
  }

  /** The six buckets read disjoint categories, so with non-negative counts
      they add up to at most the number of classes attended. */
  lemma BucketsWithinTotal(counter: Counter, interval: int, m: Membership, dollarsCents: int)
    requires forall cat :: Count(counter, cat) >= 0
    ensures var p := PeriodColumnsOf(counter, interval, m, dollarsCents);
            p.woodshop + p.metalShop + p.lasers + p.textiles + p.electronics + p.printing3d <= p.numClasses
  {
    ClassColumnsReadCounter(counter, interval, m, dollarsCents);
    SumOverAppend(counter, BucketCategories, OtherCategories);
    SumOverNonnegative(counter, OtherCategories);
    BucketSum(counter);
  }

  lemma BucketSum(c: Counter)
    ensures SumOver(c, BucketCategories) ==
      Count(c, Woodworking) + Count(c, WoodshopSafety) + Count(c, Cnc)
      + Count(c, Metalworking) + Count(c, Machining) + Count(c, Lasers)
      + Count(c, Textiles) + Count(c, Electronics) + Count(c, Printing3D)
  {
    var b := BucketCategories;
    assert SumOver(c, b[9..]) == 0;
    assert SumOver(c, b[8..]) == Count(c, Printing3D);
    assert SumOver(c, b[7..]) == Count(c, Electronics) + SumOver(c, b[8..]);
    assert SumOver(c, b[6..]) == Count(c, Textiles) + SumOver(c, b[7..]);
    assert SumOver(c, b[5..]) == Count(c, Lasers) + SumOver(c, b[6..]);
    assert SumOver(c, b[4..]) == Count(c, Machining) + SumOver(c, b[5..]);
    assert SumOver(c, b[3..]) == Count(c, Metalworking) + SumOver(c, b[4..]);
    assert SumOver(c, b[2..]) == Count(c, Cnc) + SumOver(c, b[3..]);
    assert SumOver(c, b[1..]) == Count(c, WoodshopSafety) + SumOver(c, b[2..]);
    assert b[0..] == b;
  }

  // ---------------------------------------------------------------------
  // Building an account's rows

  /** The source of a period's class counter (`classes_by_category_in_period`
      on the membership's start and end dates) and of its dollars spent
      (`dollars_spent_in_period`). */
  datatype Helpers = Helpers(classes: (Date, Date) -> Counter, dollarsCents: Membership -> int)

  /** The row for the numbered period `p` = (interval, membership). */
  function PeriodRow(template: Row, h: Helpers, p: (int, Membership)): Row {
    NewRow(template, h.classes(p.1.startDate, p.1.endDate), p.0, p.1, h.dollarsCents(p.1))
  }

  /** One row per period, in the order of the periods. */
  function PeriodRows(template: Row, h: Helpers, periods: seq<(int, Membership)>): (rows: seq<Row>)
    ensures |rows| == |periods|
    ensures forall k :: 0 <= k < |periods| ==> rows[k] == PeriodRow(template, h, periods[k])
  {
    seq(|periods|, k requires 0 <= k < |periods| => PeriodRow(template, h, periods[k]))
  }

  /** A row belongs to the period ending on `last`. */
  predicate EndsOn(row: Row, last: Date) {
    row.period.Some? && row.period.value.endDate == last
  }

  /** `member_df.loc[member_df["end_date"] == last, "membership_cancelled"] = cancelled` */
  function MarkOne(row: Row, last: Date, cancelled: bool): Row {
    if EndsOn(row, last) then row.(cancelled := cancelled) else row
  }

  function Marked(rows: seq<Row>, last: Date, cancelled: bool): (r: seq<Row>)
    ensures |r| == |rows|
    ensures forall k :: 0 <= k < |rows| ==> r[k] == MarkOne(rows[k], last, cancelled)
  {
    seq(|rows|, k requires 0 <= k < |rows| => MarkOne(rows[k], last, cancelled))
  }

  /** Marking sets the flag on exactly the rows of the last period and leaves
      every other column, and every other row, as it was. */
  lemma MarkedRows(rows: seq<Row>, last: Date, cancelled: bool)
    ensures forall k :: 0 <= k < |rows| ==>
              var r := Marked(rows, last, cancelled)[k];
              && r.account == rows[k].account && r.period == rows[k].period
              && (EndsOn(rows[k], last) ==> r.cancelled == cancelled)
              && (!EndsOn(rows[k], last) ==> r == rows[k])
  {
  }

  /** Marking twice is marking once. */
  lemma MarkedIdempotent(rows: seq<Row>, last: Date, cancelled: bool)
    ensures Marked(Marked(rows, last, cancelled), last, cancelled) == Marked(rows, last, cancelled)
  {
  }

  /** The steps of `main` for one account: the annual periods' rows, then the
      monthly ones; `pd.concat` of no rows raises ValueError; the last
      membership's end date is read from `memberships[-1]` (TypeError when
      the list is `None`, IndexError when it is empty); then the rows of that
      period are flagged. */
  function MemberRowsSpec(template: Row, h: Helpers, annuals: seq<(int, Membership)>, monthlies: seq<(int, Membership)>,
                          memberships: Option<seq<Membership>>, inactive: bool): Result<seq<Row>>
  {
    var rows := PeriodRows(template, h, annuals) + PeriodRows(template, h, monthlies);
    if rows == [] then Err(ValueError)
    else match memberships
      case None => Err(TypeError)
      case Some(ms) =>
        if ms == [] then Err(IndexError)
        else Ok(Marked(rows, ms[|ms| - 1].endDate, inactive))
  }

  /** The errors, in the order the code meets them. */
  lemma MemberRowsErrors(template: Row, h: Helpers, annuals: seq<(int, Membership)>, monthlies: seq<(int, Membership)>,
                         memberships: Option<seq<Membership>>, inactive: bool)
    ensures var r := MemberRowsSpec(template, h, annuals, monthlies, memberships, inactive);
            && (r == Err(ValueError) <==> annuals == [] && monthlies == [])
            && (r == Err(TypeError) <==> (annuals != [] || monthlies != []) && memberships == None)
            && (r == Err(IndexError) <==> (annuals != [] || monthlies != []) && memberships == Some([]))
            && (r.Ok? <==> (annuals != [] || monthlies != []) && memberships.Some? && memberships.value != [])
  {
  }

  /** One row per period, all annual periods before all monthly ones, each
      group in its own order. */
  lemma MemberRowsOrder(template: Row, h: Helpers, annuals: seq<(int, Membership)>, monthlies: seq<(int, Membership)>,
                        memberships: Option<seq<Membership>>, inactive: bool)
    requires MemberRowsSpec(template, h, annuals, monthlies, memberships, inactive).Ok?
    ensures var rows := MemberRowsSpec(template, h, annuals, monthlies, memberships, inactive).value;
            && |rows| == |annuals| + |monthlies|
            && (forall k :: 0 <= k < |annuals| ==>
                  rows[k].period == PeriodRow(template, h, annuals[k]).period)
            && (forall k :: 0 <= k < |monthlies| ==>
                  rows[|annuals| + k].period == PeriodRow(template, h, monthlies[k]).period)
  {
    var first, second := PeriodRows(template, h, annuals), PeriodRows(template, h, monthlies);
    var ms := memberships.value;
    var rows := Marked(first + second, ms[|ms| - 1].endDate, inactive);
    assert MemberRowsSpec(template, h, annuals, monthlies, memberships, inactive).value == rows;
    forall k | 0 <= k < |annuals|
      ensures rows[k].period == PeriodRow(template, h, annuals[k]).period
    {
      assert (first + second)[k] == first[k];
    }
    forall k | 0 <= k < |monthlies|
      ensures rows[|annuals| + k].period == PeriodRow(template, h, monthlies[k]).period
    {
      assert (first + second)[|annuals| + k] == second[k];
    }
  }

  /** Starting from the template's `False`, a row ends up flagged exactly when
      the account is INACTIVE and the row's period ends on the last
      membership's end date. */
  lemma MemberRowsCancelled(template: Row, h: Helpers, annuals: seq<(int, Membership)>, monthlies: seq<(int, Membership)>,
                            memberships: Option<seq<Membership>>, inactive: bool)
    requires !template.cancelled
    requires MemberRowsSpec(template, h, annuals, monthlies, memberships, inactive).Ok?
    ensures var rows := MemberRowsSpec(template, h, annuals, monthlies, memberships, inactive).value;
            var ms := memberships.value;
            forall k :: 0 <= k < |rows| ==>
              (rows[k].cancelled <==> inactive && rows[k].period.value.endDate == ms[|ms| - 1].endDate)
  {
  }

  /** The growing `row_list`. */
  class RowList {
    var rows: seq<Row>

    constructor ()
      ensures rows == []
    {
      rows := [];
    }

    /** `add_row`: fill a copy of the template cell by cell and append it. */
    method AddRow(template: Row, h: Helpers, interval: int, m: Membership)
      modifies this
      ensures rows == old(rows) + [PeriodRow(template, h, (interval, m))]
    {
      var counter := h.classes(m.startDate, m.endDate);
      var p := PeriodColumns(interval - 1, interval, m.kind, m.startDate, m.endDate, h.dollarsCents(m), 0, 0, 0, 0, 0, 0, 0);
      if counter != map[] {
        p := p.(numClasses := Total(counter));
        p := p.(woodshop := Count(counter, Woodworking) + Count(counter, WoodshopSafety) + Count(counter, Cnc));
        p := p.(metalShop := Count(counter, Metalworking) + Count(counter, Machining));
        p := p.(lasers := Count(counter, Lasers));
        p := p.(textiles := Count(counter, Textiles));
        p := p.(electronics := Count(counter, Electronics));
        p := p.(printing3d := Count(counter, Printing3D));
      }
      rows := rows + [template.(period := Some(p))];
    }

    /** `for interval, membership in periods.items(): add_row(...)` */
    method AddPeriods(template: Row, h: Helpers, periods: seq<(int, Membership)>)
      modifies this
      ensures rows == old(rows) + PeriodRows(template, h, periods)
    {
      ghost var before := rows;
      for i := 0 to |periods|
        invariant rows == before + PeriodRows(template, h, periods[..i])
      {
        AddRow(template, h, periods[i].0, periods[i].1);
        assert periods[..i + 1] == periods[..i] + [periods[i]];
        assert PeriodRows(template, h, periods[..i + 1]) == PeriodRows(template, h, periods[..i]) + [PeriodRow(template, h, periods[i])];
      }
      assert periods[..|periods|] == periods;
    }

    /** The masked assignment, one row at a time. */
    method MarkCancelled(last: Date, cancelled: bool)
      modifies this
      ensures rows == Marked(old(rows), last, cancelled)
    {
      ghost var before := rows;
      for i := 0 to |rows|
        invariant |rows| == |before|
        invariant forall k :: 0 <= k < i ==> rows[k] == MarkOne(before[k], last, cancelled)
        invariant forall k :: i <= k < |rows| ==> rows[k] == before[k]
      {
        if EndsOn(rows[i], last) {
          rows := rows[i := rows[i].(cancelled := cancelled)];
        }
      }
    }
  }

  /** `main`'s steps for one account, from the filled template to the rows
      appended to `frames`. */
  method BuildMemberRows(template: Row, h: Helpers, annuals: seq<(int, Membership)>, monthlies: seq<(int, Membership)>,
                         memberships: Option<seq<Membership>>, inactive: bool) returns (r: Result<seq<Row>>)
    ensures r == MemberRowsSpec(template, h, annuals, monthlies, memberships, inactive)
  {
    var list := new RowList();
    list.AddPeriods(template, h, annuals);
    list.AddPeriods(template, h, monthlies);
    assert list.rows == PeriodRows(template, h, annuals) + PeriodRows(template, h, monthlies);
    if list.rows == [] {
      return Err(ValueError);
    }
    if memberships.None? {
      return Err(TypeError);
    }
    var ms := memberships.value;
    if ms == [] {
      return Err(IndexError);
    }
    list.MarkCancelled(ms[|ms| - 1].endDate, inactive);
    return Ok(list.rows);
  }
}
