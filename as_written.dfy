/** The aggregation as the program writes it: string-keyed
    dictionaries, one pass over the records and a second pass over the
    kinds, with each Python exception as a failure.  The accumulators start
    as empty dictionaries, so the first `+=` (or the first read of the
    weekly total) raises `KeyError('organico')`; started from dictionaries
    holding zero for every kind, the same code computes the period totals. */
module LedgerAsWritten {
  import opened Wrappers
  import opened Calendar
  import opened DateText
  import opened Ledger

  /** The exceptions the aggregation can raise. */
  datatype Raised = KeyError(key: string) | ValueError | ZeroDivisionError

  type Dict = map<string, real>

  /** The three accumulators of the first pass. */
  datatype Buckets = Buckets(weekly: Dict, monthly: Dict, annual: Dict)

  /** `acc[key] += amount` for each kind of `ks` in turn. */
  function AddAll(acc: Dict, r: WasteRecord, ks: seq<Material>): Result<Dict, Raised>
    decreases |ks|
  {
    if ks == [] then Success(acc)
    else if Key(ks[0]) !in acc then Failure(KeyError(Key(ks[0])))
    else AddAll(acc[Key(ks[0]) := acc[Key(ks[0])] + Amount(r, ks[0])], r, ks[1..])
  }

  /** `AddAll` over all kinds when the record is in the period, else
      nothing. */
  function AddIf(cond: bool, acc: Dict, r: WasteRecord): Result<Dict, Raised> {
    if cond then AddAll(acc, r, Kinds) else Success(acc)
  }

  /** The first pass: parse each record's date, then add it to the annual,
      monthly and weekly accumulators in that order. */
  function Loop(datos: seq<WasteRecord>, ref: Date, acc: Buckets): Result<Buckets, Raised>
    decreases |datos|
  {
    if datos == [] then Success(acc)
    else
      match ParseDate(datos[0].date)
      case None => Failure(ValueError)
      case Some(d) =>
        match AddIf(InPeriod(Annual, d, ref), acc.annual, datos[0])
        case Failure(e) => Failure(e)
        case Success(annual) =>
          match AddIf(InPeriod(Monthly, d, ref), acc.monthly, datos[0])
          case Failure(e) => Failure(e)
          case Success(monthly) =>
            match AddIf(InPeriod(Weekly, d, ref), acc.weekly, datos[0])
            case Failure(e) => Failure(e)
            case Success(weekly) => Loop(datos[1..], ref, Buckets(weekly, monthly, annual))
  }

  /** The first pass succeeds only when every date parses, and raises
      nothing but `ValueError` and `KeyError`. */
  lemma {:induction false} LoopOutcome(datos: seq<WasteRecord>, ref: Date, acc: Buckets)
    ensures Loop(datos, ref, acc).Success? ==> AllDated(datos)
    ensures Loop(datos, ref, acc).Failure? ==>
      Loop(datos, ref, acc).error == ValueError || Loop(datos, ref, acc).error.KeyError?
    decreases |datos|
  {
    if datos != [] {
      var r := datos[0];
      match ParseDate(r.date)
      case None =>
      case Some(d) =>
        var annual := AddIf(InPeriod(Annual, d, ref), acc.annual, r);
        var monthly := AddIf(InPeriod(Monthly, d, ref), acc.monthly, r);
        var weekly := AddIf(InPeriod(Weekly, d, ref), acc.weekly, r);
        AddIfRaises(InPeriod(Annual, d, ref), acc.annual, r);
        AddIfRaises(InPeriod(Monthly, d, ref), acc.monthly, r);
        AddIfRaises(InPeriod(Weekly, d, ref), acc.weekly, r);
        if annual.Success? && monthly.Success? && weekly.Success? {
          var next := Buckets(weekly.value, monthly.value, annual.value);
          assert Loop(datos, ref, acc) == Loop(datos[1..], ref, next);
          LoopOutcome(datos[1..], ref, next);
          if Loop(datos, ref, acc).Success? {
            forall i | 0 <= i < |datos| ensures Dated(datos[i]) {
              if i > 0 {
                assert datos[i] == datos[1..][i - 1];
              }
            }
          }
        }
    }
  }

  /** Adding a record raises nothing but `KeyError`. */
  lemma AddIfRaises(cond: bool, acc: Dict, r: WasteRecord)
    ensures AddIf(cond, acc, r).Failure? ==> AddIf(cond, acc, r).error.KeyError?
  {
    if cond {
      AddAllRaises(acc, r, Kinds);
    }
  }

  lemma {:induction false} AddAllRaises(acc: Dict, r: WasteRecord, ks: seq<Material>)
    ensures AddAll(acc, r, ks).Failure? ==> AddAll(acc, r, ks).error.KeyError?
    decreases |ks|
  {
    if ks != [] && Key(ks[0]) in acc {
      AddAllRaises(acc[Key(ks[0]) := acc[Key(ks[0])] + Amount(r, ks[0])], r, ks[1..]);
    }
  }

  /** The second pass over the kinds: read the weekly total and divide it by
      the bag weight, then read the monthly and annual totals. */
  function Finish(ks: seq<Material>, kgPerBag: real, bags: Dict, acc: Buckets): (r: Result<Dict, Raised>)
    ensures r.Success? ==> bags.Keys <= r.value.Keys
    ensures r.Failure? ==> r.error.KeyError? || (r.error == ZeroDivisionError && kgPerBag == 0.0)
    decreases |ks|
  {
    if ks == [] then Success(bags)
    else
      var k := Key(ks[0]);
      if k !in acc.weekly then Failure(KeyError(k))
      else if kgPerBag == 0.0 then Failure(ZeroDivisionError)
      else if k !in acc.monthly then Failure(KeyError(k))
      else if k !in acc.annual then Failure(KeyError(k))
      else Finish(ks[1..], kgPerBag, bags[k := acc.weekly[k] / kgPerBag], acc)
  }

  /** The whole function, with each accumulator starting as `start`; the
      result is the bag counts and the three totals. */
  function Process(datos: seq<WasteRecord>, kgPerBag: real, ref: Date, start: Dict): Result<(Dict, Buckets), Raised> {
    match Loop(datos, ref, Buckets(start, start, start))
    case Failure(e) => Failure(e)
    case Success(acc) =>
      match Finish(Kinds, kgPerBag, map[], acc)
      case Failure(e) => Failure(e)
      case Success(bags) => Success((bags, acc))
  }

  /** As written: the accumulators start empty. */
  function ProcessAsWritten(datos: seq<WasteRecord>, kgPerBag: real, ref: Date): Result<(Dict, Buckets), Raised> {
    Process(datos, kgPerBag, ref, map[])
  }

  /** As intended: every kind starts at zero. */
  function ZeroDict(): Dict {
    map[Key(Organic) := 0.0, Key(Plastic) := 0.0, Key(Paper) := 0.0,
        Key(Glass) := 0.0, Key(Metal) := 0.0, Key(NonRecyclable) := 0.0]
  }

  function ProcessIntended(datos: seq<WasteRecord>, kgPerBag: real, ref: Date): Result<(Dict, Buckets), Raised> {
    Process(datos, kgPerBag, ref, ZeroDict())
  }

  /** The reference date: the clock's `today` when none is given, otherwise
      the given text read as `YYYY-MM-DD`, raising `ValueError` when it is
      not a date. */
  function ReferenceDate(fecha: Option<string>, today: Date): (r: Result<Date, Raised>)
    ensures fecha.None? ==> r == Success(today)
    ensures fecha.Some? ==> (r.Success? <==> ParseDate(fecha.value).Some?)
    ensures fecha.Some? && r.Success? ==> FormatDate(r.value) == fecha.value
    ensures r.Failure? ==> r.error == ValueError
  {
    match fecha
    case None => Success(today)
    case Some(s) =>
      match ParseDate(s)
      case None => Failure(ValueError)
      case Some(d) => FormatParse(s); Success(d)
  }

  /** The whole call as written, reference date included. */
  function ProcessCall(datos: seq<WasteRecord>, kgPerBag: real, fecha: Option<string>, today: Date): Result<(Dict, Buckets), Raised> {
    match ReferenceDate(fecha, today)
    case Failure(e) => Failure(e)
    case Success(ref) => ProcessAsWritten(datos, kgPerBag, ref)
  }

  // ----------------------------------------------------------------------
  // As written, it never returns.

  /** Adding into an accumulator without the first kind's key fails on that
      key. */
  lemma AddAllMissingFirst(acc: Dict, r: WasteRecord)
    requires Key(Organic) !in acc
    ensures AddAll(acc, r, Kinds) == Failure(KeyError("organico"))
  {
  }

  /** The first pass leaves empty accumulators empty, unless it fails on a
      date that does not parse or on the first kind's key. */
  lemma {:induction false} LoopFromEmpty(datos: seq<WasteRecord>, ref: Date)
    ensures var out := Loop(datos, ref, Buckets(map[], map[], map[]));
      out == Success(Buckets(map[], map[], map[]))
      || out == Failure(KeyError("organico"))
      || (out == Failure(ValueError) && !AllDated(datos))
    decreases |datos|
  {
    if datos != [] {
      match ParseDate(datos[0].date)
      case None =>
        assert !Dated(datos[0]);
      case Some(d) =>
        var e: Dict := map[];
        if InPeriod(Annual, d, ref) || InPeriod(Monthly, d, ref) || InPeriod(Weekly, d, ref) {
          AddAllMissingFirst(e, datos[0]);
        } else {
          LoopFromEmpty(datos[1..], ref);
          if !AllDated(datos[1..]) {
            var i :| 0 <= i < |datos[1..]| && !Dated(datos[1..][i]);
            assert !Dated(datos[i + 1]);
          }
        }
    }
  }

  /** As written, the function raises on every input: `KeyError('organico')`
      whenever the dates parse. */
  lemma NeverReturns(datos: seq<WasteRecord>, kgPerBag: real, ref: Date)
    ensures ProcessAsWritten(datos, kgPerBag, ref).Failure?
    ensures AllDated(datos) ==> ProcessAsWritten(datos, kgPerBag, ref) == Failure(KeyError("organico"))
  {
    LoopFromEmpty(datos, ref);
  }

  /** The whole call raises too: `ValueError` for a reference text that is
      not a date, and otherwise whatever the aggregation raises. */
  lemma CallNeverReturns(datos: seq<WasteRecord>, kgPerBag: real, fecha: Option<string>, today: Date)
    ensures ProcessCall(datos, kgPerBag, fecha, today).Failure?
    ensures fecha.Some? && ParseDate(fecha.value).None? ==>
      ProcessCall(datos, kgPerBag, fecha, today) == Failure(ValueError)
    ensures fecha.None? && AllDated(datos) ==>
      ProcessCall(datos, kgPerBag, fecha, today) == Failure(KeyError("organico"))
  {
    match ReferenceDate(fecha, today)
    case Failure(_) =>
    case Success(ref) => NeverReturns(datos, kgPerBag, ref);
  }

  /** The save button's call, as written: the form's one dated record
      always makes the aggregation raise, so nothing is ever saved. */
  lemma SaveAsWrittenRaises(nombre: string, fecha: Date, organic: real, plastic: real, paper: real,
                            glass: real, metal: real, nonRecyclable: real, today: Date)
    ensures var datos := FormRecord(nombre, fecha, organic, plastic, paper, glass, metal, nonRecyclable);
      ProcessAsWritten(datos, 3.0, today) == Failure(KeyError("organico"))
  {
    var datos := FormRecord(nombre, fecha, organic, plastic, paper, glass, metal, nonRecyclable);
    assert Dated(datos[0]);
    NeverReturns(datos, 3.0, today);
  }

  /** The smallest input: no records at all still raises. */
  lemma EmptyInputRaises(ref: Date)
    ensures ProcessAsWritten([], 3.0, ref) == Failure(KeyError("organico"))
  {
  }

  // ----------------------------------------------------------------------
  // Started from zeros, the same code computes the period totals.

  /** The accumulator has a key for every kind. */
  predicate HasKinds(acc: Dict) {
    forall m: Material :: Key(m) in acc
  }

  lemma ZeroDictHasKinds()
    ensures HasKinds(ZeroDict())
    ensures forall m: Material :: ZeroDict()[Key(m)] == 0.0
  {
    forall m: Material ensures Key(m) in ZeroDict() && ZeroDict()[Key(m)] == 0.0 {
      match m
      case Organic =>
      case Plastic =>
      case Paper =>
      case Glass =>
      case Metal =>
      case NonRecyclable =>
    }
  }

  /** Adding the kinds from position `j` on adds each of those kinds' weight
      once and leaves the other kinds alone. */
  lemma {:induction false} AddAllSums(acc: Dict, r: WasteRecord, j: nat)
    requires j <= |Kinds| && HasKinds(acc)
    ensures AddAll(acc, r, Kinds[j..]).Success?
    ensures var out := AddAll(acc, r, Kinds[j..]).value;
      HasKinds(out) &&
      forall m: Material :: out[Key(m)] == acc[Key(m)] + (if Index(m) >= j then Amount(r, m) else 0.0)
    decreases |Kinds| - j
  {
    if j < |Kinds| {
      var k := Kinds[j];
      var next := acc[Key(k) := acc[Key(k)] + Amount(r, k)];
      AddAllUnfold(acc, r, Kinds[j..]);
      assert Kinds[j..][1..] == Kinds[j + 1..];
      AddAllSums(next, r, j + 1);
      AddOne(acc, r, k);
      KindsDistinct(j);
      var out := AddAll(next, r, Kinds[j + 1..]).value;
      forall m: Material
        ensures out[Key(m)] == acc[Key(m)] + (if Index(m) >= j then Amount(r, m) else 0.0)
      {
        if m != k {
          assert Index(m) != j;
        }
      }
    }
  }

  /** One turn of `AddAll` when the key of the first kind is present. */
  lemma AddAllUnfold(acc: Dict, r: WasteRecord, ks: seq<Material>)
    requires ks != [] && Key(ks[0]) in acc
    ensures AddAll(acc, r, ks) == AddAll(acc[Key(ks[0]) := acc[Key(ks[0])] + Amount(r, ks[0])], r, ks[1..])
  {
  }

  /** `acc[Key(k)] += Amount(r, k)` changes the entry of kind `k` only. */
  lemma AddOne(acc: Dict, r: WasteRecord, k: Material)
    requires HasKinds(acc)
    ensures var next := acc[Key(k) := acc[Key(k)] + Amount(r, k)];
      HasKinds(next) &&
      forall m: Material :: next[Key(m)] == acc[Key(m)] + (if m == k then Amount(r, m) else 0.0)
  {
    forall m: Material {
      KeyInjective(m, k);
    }
  }

  /** One record, through `AddIf`: its share of the period is added. */
  lemma AddIfShare(cond: bool, acc: Dict, r: WasteRecord)
    requires HasKinds(acc)
    ensures AddIf(cond, acc, r).Success?
    ensures HasKinds(AddIf(cond, acc, r).value)
    ensures forall m: Material :: AddIf(cond, acc, r).value[Key(m)] == acc[Key(m)] + (if cond then Amount(r, m) else 0.0)
  {
    if cond {
      assert Kinds[0..] == Kinds;
      AddAllSums(acc, r, 0);
    }
  }

  /** The period total of a list headed by one record. */
  lemma PeriodSumCons(r: WasteRecord, rest: seq<WasteRecord>, m: Material, p: Period, ref: Date)
    requires Dated(r) && AllDated(rest)
    ensures AllDated([r] + rest)
    ensures PeriodSum([r] + rest, m, p, ref) == Share(r, m, p, ref) + PeriodSum(rest, m, p, ref)
  {
    PeriodSumAppend([r], rest, m, p, ref);
    SingleRecordSum(r, m, p, ref);
  }

  /** `Sums(acc, out, datos, p)`: `out` is `acc` plus each kind's total over
      `datos` in period `p`. */
  predicate Sums(acc: Dict, out: Dict, datos: seq<WasteRecord>, p: Period, ref: Date)
    requires AllDated(datos)
  {
    HasKinds(out) && HasKinds(acc) &&
    forall m: Material :: out[Key(m)] == acc[Key(m)] + PeriodSum(datos, m, p, ref)
  }

  /** The accumulator of period `p`. */
  function Pick(b: Buckets, p: Period): Dict {
    match p
    case Weekly => b.weekly
    case Monthly => b.monthly
    case Annual => b.annual
  }

  /** With a key for every kind, the first pass succeeds and adds each
      period total to its accumulator. */
  lemma {:induction false} LoopSums(datos: seq<WasteRecord>, ref: Date, acc: Buckets, p: Period)
    requires AllDated(datos)
    requires HasKinds(acc.weekly) && HasKinds(acc.monthly) && HasKinds(acc.annual)
    ensures Loop(datos, ref, acc).Success?
    ensures Sums(Pick(acc, p), Pick(Loop(datos, ref, acc).value, p), datos, p, ref)
    decreases |datos|
  {
    if datos != [] {
      var r, rest := datos[0], datos[1..];
      assert AllDated(rest) by {
        forall i | 0 <= i < |rest| ensures Dated(rest[i]) {
          assert rest[i] == datos[i + 1];
        }
      }
      var next := LoopStep(datos, ref, acc);
      LoopSums(rest, ref, next, p);
      assert datos == [r] + rest;
      SumsCons(Pick(acc, p), Pick(next, p), Pick(Loop(rest, ref, next).value, p), r, rest, p, ref);
    }
  }

  /** Totals that grew by one record's share and then by the rest's sums
      grew by the sums over the record and the rest. */
  lemma SumsCons(before: Dict, after: Dict, out: Dict, r: WasteRecord, rest: seq<WasteRecord>, p: Period, ref: Date)
    requires Dated(r) && AllDated(rest) && HasKinds(before)
    requires Sums(after, out, rest, p, ref)
    requires forall m: Material :: after[Key(m)] == before[Key(m)] + Share(r, m, p, ref)
    ensures AllDated([r] + rest) && Sums(before, out, [r] + rest, p, ref)
  {
    forall m: Material
      ensures out[Key(m)] == before[Key(m)] + PeriodSum([r] + rest, m, p, ref)
    {
      PeriodSumCons(r, rest, m, p, ref);
    }
  }

  /** One turn of the first pass with every key present: it goes on from
      accumulators that have grown by the record's share of each period. */
  lemma LoopStep(datos: seq<WasteRecord>, ref: Date, acc: Buckets) returns (next: Buckets)
    requires AllDated(datos) && datos != []
    requires HasKinds(acc.weekly) && HasKinds(acc.monthly) && HasKinds(acc.annual)
    ensures Loop(datos, ref, acc) == Loop(datos[1..], ref, next)
    ensures HasKinds(next.weekly) && HasKinds(next.monthly) && HasKinds(next.annual)
    ensures forall m: Material, p: Period ::
      Pick(next, p)[Key(m)] == Pick(acc, p)[Key(m)] + Share(datos[0], m, p, ref)
  {
    var r := datos[0];
    assert Dated(r);
    var d := DateOf(r);
    AddIfShare(InPeriod(Annual, d, ref), acc.annual, r);
    AddIfShare(InPeriod(Monthly, d, ref), acc.monthly, r);
    AddIfShare(InPeriod(Weekly, d, ref), acc.weekly, r);
    next := Buckets(AddIf(InPeriod(Weekly, d, ref), acc.weekly, r).value,
                    AddIf(InPeriod(Monthly, d, ref), acc.monthly, r).value,
                    AddIf(InPeriod(Annual, d, ref), acc.annual, r).value);
    LoopUnfold(datos, ref, acc, d, next);
    PickShares(r, ref, d, acc, next);
  }

  /** Accumulators grown by the record's amounts in the periods its date
      falls in have grown by its share of each period. */
  lemma PickShares(r: WasteRecord, ref: Date, d: Date, acc: Buckets, next: Buckets)
    requires ParseDate(r.date) == Some(d)
    requires HasKinds(acc.weekly) && HasKinds(acc.monthly) && HasKinds(acc.annual)
    requires HasKinds(next.weekly) && HasKinds(next.monthly) && HasKinds(next.annual)
    requires forall m: Material :: next.weekly[Key(m)] == acc.weekly[Key(m)] + (if InPeriod(Weekly, d, ref) then Amount(r, m) else 0.0)
    requires forall m: Material :: next.monthly[Key(m)] == acc.monthly[Key(m)] + (if InPeriod(Monthly, d, ref) then Amount(r, m) else 0.0)
    requires forall m: Material :: next.annual[Key(m)] == acc.annual[Key(m)] + (if InPeriod(Annual, d, ref) then Amount(r, m) else 0.0)
    ensures forall m: Material, p: Period ::
      Pick(next, p)[Key(m)] == Pick(acc, p)[Key(m)] + Share(r, m, p, ref)
  {
    forall m: Material, p: Period
      ensures Pick(next, p)[Key(m)] == Pick(acc, p)[Key(m)] + Share(r, m, p, ref)
    {
      match p
      case Weekly =>
      case Monthly =>
      case Annual =>
    }
  }

  /** When the head's date parses and all three additions succeed, the
      first pass goes on from their results. */
  lemma LoopUnfold(datos: seq<WasteRecord>, ref: Date, acc: Buckets, d: Date, next: Buckets)
    requires datos != [] && ParseDate(datos[0].date) == Some(d)
    requires AddIf(InPeriod(Annual, d, ref), acc.annual, datos[0]) == Success(next.annual)
    requires AddIf(InPeriod(Monthly, d, ref), acc.monthly, datos[0]) == Success(next.monthly)
    requires AddIf(InPeriod(Weekly, d, ref), acc.weekly, datos[0]) == Success(next.weekly)
    ensures Loop(datos, ref, acc) == Loop(datos[1..], ref, next)
  {
  }

  /** The second pass with every key present and a non-zero bag weight
      yields a bag count for every kind. */
  lemma {:induction false} FinishBags(j: nat, kgPerBag: real, bags: Dict, acc: Buckets)
    requires j <= |Kinds| && kgPerBag != 0.0
    requires HasKinds(acc.weekly) && HasKinds(acc.monthly) && HasKinds(acc.annual)
    requires forall m: Material :: Index(m) < j ==> Key(m) in bags && bags[Key(m)] == acc.weekly[Key(m)] / kgPerBag
    ensures Finish(Kinds[j..], kgPerBag, bags, acc).Success?
    ensures var out := Finish(Kinds[j..], kgPerBag, bags, acc).value;
      forall m: Material :: Key(m) in out && out[Key(m)] == acc.weekly[Key(m)] / kgPerBag
    decreases |Kinds| - j
  {
    if j < |Kinds| {
      var k := Kinds[j];
      KindsDistinct(j);
      assert Kinds[j..][1..] == Kinds[j + 1..];
      var next := bags[Key(k) := acc.weekly[Key(k)] / kgPerBag];
      forall m: Material | Index(m) < j + 1
        ensures Key(m) in next && next[Key(m)] == acc.weekly[Key(m)] / kgPerBag
      {
        KeyInjective(m, k);
      }
      FinishBags(j + 1, kgPerBag, next, acc);
    }
  }

  /** Started from zeros, the function returns, with every kind's weekly,
      monthly and annual total and its bag count. */
  lemma IntendedTotals(datos: seq<WasteRecord>, kgPerBag: real, ref: Date)
    requires AllDated(datos) && kgPerBag != 0.0
    ensures ProcessIntended(datos, kgPerBag, ref).Success?
    ensures var (bags, acc) := ProcessIntended(datos, kgPerBag, ref).value;
      forall m: Material ::
        && Key(m) in acc.weekly && acc.weekly[Key(m)] == PeriodSum(datos, m, Weekly, ref)
        && Key(m) in acc.monthly && acc.monthly[Key(m)] == PeriodSum(datos, m, Monthly, ref)
        && Key(m) in acc.annual && acc.annual[Key(m)] == PeriodSum(datos, m, Annual, ref)
        && Key(m) in bags && bags[Key(m)] == PeriodSum(datos, m, Weekly, ref) / kgPerBag
  {
    var z := ZeroDict();
    ZeroDictHasKinds();
    var start := Buckets(z, z, z);
    LoopSums(datos, ref, start, Weekly);
    LoopSums(datos, ref, start, Monthly);
    LoopSums(datos, ref, start, Annual);
    var acc := Loop(datos, ref, start).value;
    assert Kinds[0..] == Kinds;
    FinishBags(0, kgPerBag, map[], acc);
    var bags := Finish(Kinds, kgPerBag, map[], acc).value;
    assert ProcessIntended(datos, kgPerBag, ref) == Success((bags, acc));
    forall m: Material
      ensures acc.weekly[Key(m)] == PeriodSum(datos, m, Weekly, ref)
      ensures acc.monthly[Key(m)] == PeriodSum(datos, m, Monthly, ref)
      ensures acc.annual[Key(m)] == PeriodSum(datos, m, Annual, ref)
    {
      assert z[Key(m)] == 0.0;
    }
  }
}
