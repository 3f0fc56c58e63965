/** Waste records and their totals per period: the record the entry form
    builds, and the weekly, monthly and annual sums (with the bag counts
    derived from the weekly sums) that are stored with it. */
module Ledger {
  import opened Wrappers
  import opened Calendar
  import opened DateText

  /** The six kinds of waste the form weighs. */
  datatype Material = Organic | Plastic | Paper | Glass | Metal | NonRecyclable

  /** The kinds in the order the totals are accumulated and stored. */
  const Kinds: seq<Material> := [Organic, Plastic, Paper, Glass, Metal, NonRecyclable]

  /** The dictionary key of each kind. */
  function Key(m: Material): string {
    match m
    case Organic => "organico"
    case Plastic => "plastico"
    case Paper => "papel"
    case Glass => "vidrio"
    case Metal => "metal"
    case NonRecyclable => "no_reciclable"
  }

  /** Where a kind sits in `Kinds`. */
  function Index(m: Material): (i: nat)
    ensures i < |Kinds| && Kinds[i] == m
  {
    match m
    case Organic => 0
    case Plastic => 1
    case Paper => 2
    case Glass => 3
    case Metal => 4
    case NonRecyclable => 5
  }

  /** `Kinds` lists each kind once. */
  lemma KindsDistinct(k: int)
    requires 0 <= k < |Kinds|
    ensures Index(Kinds[k]) == k
  {
  }

  /** Distinct kinds have distinct keys. */
  lemma KeyInjective(m: Material, n: Material)
    ensures Key(m) == Key(n) <==> m == n
  {
    if m != n {
      assert Key(m)[0] != Key(n)[0] || Key(m)[1] != Key(n)[1];
    }
  }

  /** One stored record: user, date text as `YYYY-MM-DD`, and kilograms per
      kind.  A kind missing from `amounts` counts as zero. */
  datatype WasteRecord = WasteRecord(user: string, date: string, amounts: map<Material, real>)

  function Amount(r: WasteRecord, m: Material): real {
    if m in r.amounts then r.amounts[m] else 0.0
  }

  /** The entry form's record: a one-element list holding the name, the
      date as text and the six weights. */
  function FormRecord(name: string, date: Date, organic: real, plastic: real, paper: real,
                      glass: real, metal: real, nonRecyclable: real): (rs: seq<WasteRecord>)
    ensures |rs| == 1 && rs[0].user == name
    ensures ParseDate(rs[0].date) == Some(date)
    ensures Amount(rs[0], Organic) == organic && Amount(rs[0], Plastic) == plastic
    ensures Amount(rs[0], Paper) == paper && Amount(rs[0], Glass) == glass
    ensures Amount(rs[0], Metal) == metal && Amount(rs[0], NonRecyclable) == nonRecyclable
  {
    ParseFormat(date);
    [WasteRecord(name, FormatDate(date),
      map[Organic := organic, Plastic := plastic, Paper := paper,
          Glass := glass, Metal := metal, NonRecyclable := nonRecyclable])]
  }

  // ----------------------------------------------------------------------
  // Periods and their totals.

  /** The record's date text parses. */
  predicate Dated(r: WasteRecord) {
    ParseDate(r.date).Some?
  }

  predicate AllDated(datos: seq<WasteRecord>) {
    forall i :: 0 <= i < |datos| ==> Dated(datos[i])
  }

  function DateOf(r: WasteRecord): Date
    requires Dated(r)
  {
    ParseDate(r.date).value
  }

  datatype Period = Weekly | Monthly | Annual

  /** Whether a date falls in the period of the reference date: the same ISO
      week of the same ISO week-numbering year; the same calendar month of
      the same year; the same calendar year. */
  predicate InPeriod(p: Period, d: Date, ref: Date) {
    match p
    case Weekly => SameIsoWeek(d, ref)
    case Monthly => d.year == ref.year && d.month == ref.month
    case Annual => d.year == ref.year
  }

  /** The record's contribution to a period total. */
  function Share(r: WasteRecord, m: Material, p: Period, ref: Date): real
    requires Dated(r)
  {
    if InPeriod(p, DateOf(r), ref) then Amount(r, m) else 0.0
  }

  /** Total of kind `m` over the records in period `p` of `ref`. */
  function PeriodSum(datos: seq<WasteRecord>, m: Material, p: Period, ref: Date): real
    requires AllDated(datos)
  {
    if datos == [] then 0.0
    else PeriodSum(datos[..|datos| - 1], m, p, ref) + Share(datos[|datos| - 1], m, p, ref)
  }

  /** `acc` holds, for every kind, its total over `datos` in period `p`. */
  predicate Totals(acc: map<Material, real>, datos: seq<WasteRecord>, p: Period, ref: Date)
    requires AllDated(datos)
  {
    forall m: Material :: m in acc && acc[m] == PeriodSum(datos, m, p, ref)
  }

  /** `bags` holds, for every kind, its weekly total over the bag weight. */
  predicate BagCounts(bags: map<Material, real>, weekly: map<Material, real>, kgPerBag: real)
    requires kgPerBag != 0.0
  {
    forall m: Material :: m in bags && m in weekly && bags[m] == weekly[m] / kgPerBag
  }

  // ----------------------------------------------------------------------
  // The aggregation, with zero-initialised accumulators.

  /** Adds one record's weights into an accumulator, kind by kind. */
  method AddRecord(acc: map<Material, real>, r: WasteRecord) returns (sum: map<Material, real>)
    requires forall m: Material :: m in acc
    ensures forall m: Material :: m in sum && sum[m] == acc[m] + Amount(r, m)
  {
    sum := acc;
    for k := 0 to |Kinds|
      invariant forall m: Material :: m in sum && sum[m] == acc[m] + (if Index(m) < k then Amount(r, m) else 0.0)
    {
      var m := Kinds[k];
      KindsDistinct(k);
      sum := sum[m := sum[m] + Amount(r, m)];
    }
  }

  /** Weekly, monthly and annual totals of `datos` around `ref`, and the
      bag counts of the weekly totals. */
  method ProcessWasteData(datos: seq<WasteRecord>, kgPerBag: real, ref: Date)
    returns (bags: map<Material, real>, weekly: map<Material, real>,
             monthly: map<Material, real>, annual: map<Material, real>)
    requires AllDated(datos)
    requires kgPerBag != 0.0
    ensures Totals(weekly, datos, Weekly, ref)
    ensures Totals(monthly, datos, Monthly, ref)
    ensures Totals(annual, datos, Annual, ref)
    ensures BagCounts(bags, weekly, kgPerBag)
  {
    weekly := map m: Material | m in Kinds :: 0.0;
    forall m: Material ensures m in weekly && weekly[m] == 0.0 {
      assert Kinds[Index(m)] == m;
    }
    assert datos[..0] == [];
    monthly := weekly;
    annual := weekly;
    var refWeek := IsoCalendar(ref);
    for i := 0 to |datos|
      invariant Totals(weekly, datos[..i], Weekly, ref)
      invariant Totals(monthly, datos[..i], Monthly, ref)
      invariant Totals(annual, datos[..i], Annual, ref)
    {
      ghost var weekly0, monthly0, annual0 := weekly, monthly, annual;
      var r := datos[i];
      var d := ParseDate(r.date).value;
      if d.year == ref.year {
        annual := AddRecord(annual, r);
      }
      if d.year == ref.year && d.month == ref.month {
        monthly := AddRecord(monthly, r);
      }
      var week := IsoCalendar(d);
      if week.year == refWeek.year && week.week == refWeek.week {
        weekly := AddRecord(weekly, r);
      }
      TotalsStep(weekly0, weekly, datos, i, Weekly, ref);
      TotalsStep(monthly0, monthly, datos, i, Monthly, ref);
      TotalsStep(annual0, annual, datos, i, Annual, ref);
    }
    assert datos[..|datos|] == datos;
    bags := BagsFor(weekly, kgPerBag);
  }

  /** The second pass: each kind's weekly total over the bag weight. */
  method BagsFor(weekly: map<Material, real>, kgPerBag: real) returns (bags: map<Material, real>)
    requires forall m: Material :: m in weekly
    requires kgPerBag != 0.0
    ensures BagCounts(bags, weekly, kgPerBag)
  {
    bags := map[];
    for k := 0 to |Kinds|
      invariant forall m: Material :: Index(m) < k ==> m in bags && bags[m] == weekly[m] / kgPerBag
    {
      var m := Kinds[k];
      KindsDistinct(k);
      bags := bags[m := weekly[m] / kgPerBag];
    }
  }

  /** One more record: the totals grow by its weights when it is in the
      period and stay put otherwise. */
  lemma TotalsStep(acc: map<Material, real>, next: map<Material, real>, datos: seq<WasteRecord>,
                   i: int, p: Period, ref: Date)
    requires AllDated(datos) && 0 <= i < |datos|
    requires Totals(acc, datos[..i], p, ref)
    requires InPeriod(p, DateOf(datos[i]), ref) ==>
      forall m: Material :: m in next && next[m] == acc[m] + Amount(datos[i], m)
    requires !InPeriod(p, DateOf(datos[i]), ref) ==> next == acc
    ensures Totals(next, datos[..i + 1], p, ref)
  {
    assert datos[..i + 1][..i] == datos[..i];
  }

  // ----------------------------------------------------------------------
  // Properties of the period totals.

  /** A single record counts in a total exactly when its date is in the
      period, and then with its whole weight. */
  lemma SingleRecordSum(r: WasteRecord, m: Material, p: Period, ref: Date)
    requires Dated(r)
    ensures PeriodSum([r], m, p, ref) == (if InPeriod(p, DateOf(r), ref) then Amount(r, m) else 0.0)
  {
    assert [r][..0] == [];
  }

  /** Totals add up over concatenated record lists. */
  lemma {:induction false} PeriodSumAppend(xs: seq<WasteRecord>, ys: seq<WasteRecord>, m: Material, p: Period, ref: Date)
    requires AllDated(xs) && AllDated(ys)
    ensures AllDated(xs + ys)
    ensures PeriodSum(xs + ys, m, p, ref) == PeriodSum(xs, m, p, ref) + PeriodSum(ys, m, p, ref)
    decreases |ys|
  {
    if ys != [] {
      var init := ys[..|ys| - 1];
      assert (xs + ys)[..|xs + ys| - 1] == xs + init;
      PeriodSumAppend(xs, init, m, p, ref);
    } else {
      assert xs + ys == xs;
    }
  }

  predicate NonNegative(datos: seq<WasteRecord>) {
    forall i, m :: 0 <= i < |datos| ==> Amount(datos[i], m) >= 0.0
  }

  /** With non-negative weights every total is non-negative. */
  lemma {:induction false} PeriodSumNonNegative(datos: seq<WasteRecord>, m: Material, p: Period, ref: Date)
    requires AllDated(datos) && NonNegative(datos)
    ensures PeriodSum(datos, m, p, ref) >= 0.0
  {
    if datos != [] {
      PeriodSumNonNegative(datos[..|datos| - 1], m, p, ref);
      assert Amount(datos[|datos| - 1], m) >= 0.0;
    }
  }

  /** A kind no record weighs totals zero in every period. */
  lemma {:induction false} AbsentKindSumsToZero(datos: seq<WasteRecord>, m: Material, p: Period, ref: Date)
    requires AllDated(datos)
    requires forall i :: 0 <= i < |datos| ==> m !in datos[i].amounts
    ensures PeriodSum(datos, m, p, ref) == 0.0
  {
    if datos != [] {
      AbsentKindSumsToZero(datos[..|datos| - 1], m, p, ref);
      assert m !in datos[|datos| - 1].amounts;
    }
  }

  /** With non-negative weights the monthly total never exceeds the annual
      one: every record of the month is a record of the year. */
  lemma {:induction false} MonthlyAtMostAnnual(datos: seq<WasteRecord>, m: Material, ref: Date)
    requires AllDated(datos) && NonNegative(datos)
    ensures PeriodSum(datos, m, Monthly, ref) <= PeriodSum(datos, m, Annual, ref)
  {
    if datos != [] {
      MonthlyAtMostAnnual(datos[..|datos| - 1], m, ref);
      assert Amount(datos[|datos| - 1], m) >= 0.0;
    }
  }

  /** A record counted weekly lies within six days of the reference date. */
  lemma WeeklyIsNear(d: Date, ref: Date)
    requires InPeriod(Weekly, d, ref)
    ensures -6 <= Ordinal(d) - Ordinal(ref) <= 6
  {
    SameIsoWeekIsClose(d, ref);
  }

  /** A date is in every period of itself. */
  lemma OwnPeriods(d: Date, p: Period)
    ensures InPeriod(p, d, d)
  {
  }

  /** The week test does not follow the calendar year: 2024-12-30 is in the
      first ISO week of 2025, so with 2025-01-01 as reference it counts in
      the weekly total but in neither the monthly nor the annual one. */
  lemma WeekCrossesNewYear(d: Date, ref: Date)
    requires d == CivilDate(2024, 12, 30) && ref == CivilDate(2025, 1, 1)
    ensures InPeriod(Weekly, d, ref)
    ensures !InPeriod(Monthly, d, ref) && !InPeriod(Annual, d, ref)
  {
    LastMondayOf2024(d);
    NewYearsDay2025(ref);
  }

  /** The first Monday of June 2025 is in the week of Tuesday 3 June, so a
      Monday record counts weekly, monthly and annually. */
  lemma JuneWeekExample(mon: Date, tue: Date)
    requires mon == CivilDate(2025, 6, 2) && tue == CivilDate(2025, 6, 3)
    ensures InPeriod(Weekly, mon, tue) && InPeriod(Monthly, mon, tue) && InPeriod(Annual, mon, tue)
  {
    FirstMondayOfJune2025(mon);
    FirstTuesdayOfJune2025(tue);
  }

  /** Seen from 3 June 2025, a 1 January record counts annually only. */
  lemma NewYearCountsAnnually(newYear: Date, tue: Date)
    requires newYear == CivilDate(2025, 1, 1) && tue == CivilDate(2025, 6, 3)
    ensures !InPeriod(Weekly, newYear, tue) && !InPeriod(Monthly, newYear, tue)
    ensures InPeriod(Annual, newYear, tue)
  {
    NewYearsDay2025(newYear);
    FirstTuesdayOfJune2025(tue);
  }
}
