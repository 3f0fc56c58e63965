/** The data-entry page: the save button checks the name, builds the record,
    aggregates it around today's date and appends the resulting row to the
    stored table. */
module Intake {
  import opened Wrappers
  import opened Calendar
  import opened DateText
  import opened Text
  import opened Ledger
  import opened Table

  /** The bag weight the page uses (the aggregation's default). */
  const KgPerBag: real := 3.0

  /** The stored table, one row per save. */
  class Store {
    var rows: seq<Row>

    constructor ()
      ensures rows == []
    {
      rows := [];
    }

    /** Adds a row after the existing ones. */
    method Append(row: Row)
      modifies this
      ensures rows == old(rows) + [row]
    {
      rows := rows + [row];
    }
  }

  /** The period a column group reports. */
  function PeriodOf(t: Tag): Period {
    match t
    case Bolsas => Weekly
    case Semanal => Weekly
    case Mensual => Monthly
    case Anual => Annual
  }

  /** What column `c` of the row saved for `rec` on `today` holds: the
      record's total in the column's period, over the bag weight for the
      bag columns. */
  function Expected(c: Column, rec: WasteRecord, today: Date): real
    requires Dated(rec)
  {
    var total := PeriodSum([rec], c.kind, PeriodOf(c.tag), today);
    if c.tag == Bolsas then total / KgPerBag else total
  }

  /** `row` is the row saved for `rec` on `today`. */
  ghost predicate SavedRowFor(row: Row, rec: WasteRecord, today: Date)
    requires Dated(rec)
  {
    && row.user == rec.user && row.date == rec.date
    && forall c: Column :: c in row.totals && row.totals[c] == Expected(c, rec, today)
  }

  /** The save button.  A name that is empty or all whitespace saves
      nothing; otherwise the form's record is aggregated on its own around
      `today` and its row is appended. */
  method Submit(store: Store, nombre: string, fecha: Date,
                organic: real, plastic: real, paper: real, glass: real, metal: real, nonRecyclable: real,
                today: Date) returns (saved: bool)
    modifies store
    ensures saved <==> Strip(nombre) != ""
    ensures !saved ==> store.rows == old(store.rows)
    ensures saved ==> |store.rows| == |old(store.rows)| + 1 && store.rows[..|old(store.rows)|] == old(store.rows)
    ensures saved ==>
      var rec := FormRecord(nombre, fecha, organic, plastic, paper, glass, metal, nonRecyclable)[0];
      Dated(rec) && SavedRowFor(store.rows[|store.rows| - 1], rec, today)
  {
    if Strip(nombre) == "" {
      saved := false;
      return;
    }
    var datos := FormRecord(nombre, fecha, organic, plastic, paper, glass, metal, nonRecyclable);
    var row := SnapshotRow(datos, today);
    store.Append(row);
    saved := true;
  }

  /** Aggregates the one-record list around `today` and shapes the row. */
  method SnapshotRow(datos: seq<WasteRecord>, today: Date) returns (row: Row)
    requires |datos| == 1 && Dated(datos[0])
    ensures SavedRowFor(row, datos[0], today)
  {
    var bags, weekly, monthly, annual := ProcessWasteData(datos, KgPerBag, today);
    row := Fila(datos[0], bags, weekly, monthly, annual);
    FilaIsSaved(datos, bags, weekly, monthly, annual, today);
  }

  /** The shaped row of the four buckets of a one-record list is the row
      saved for that record. */
  lemma FilaIsSaved(datos: seq<WasteRecord>, bags: map<Material, real>, weekly: map<Material, real>,
                    monthly: map<Material, real>, annual: map<Material, real>, today: Date)
    requires |datos| == 1 && AllDated(datos)
    requires Totals(weekly, datos, Weekly, today) && Totals(monthly, datos, Monthly, today)
    requires Totals(annual, datos, Annual, today) && BagCounts(bags, weekly, KgPerBag)
    ensures SavedRowFor(Fila(datos[0], bags, weekly, monthly, annual), datos[0], today)
  {
    var row := Fila(datos[0], bags, weekly, monthly, annual);
    assert [datos[0]] == datos;
    forall c: Column ensures c in row.totals && row.totals[c] == Expected(c, datos[0], today) {
      FilaColumns(datos[0], bags, weekly, monthly, annual, c);
      var s := PeriodSum(datos, c.kind, PeriodOf(c.tag), today);
      assert Expected(c, datos[0], today) == if c.tag == Bolsas then s / KgPerBag else s;
      match c.tag
      case Bolsas => assert row.totals[c] == bags[c.kind] == weekly[c.kind] / KgPerBag;
      case Semanal => assert row.totals[c] == weekly[c.kind];
      case Mensual => assert row.totals[c] == monthly[c.kind];
      case Anual => assert row.totals[c] == annual[c.kind];
    }
  }

  /** A row saved for a record dated `today` reports the record's own
      weights: each weekly, monthly and annual column is the kind's weight
      and each bag column that weight over the bag weight. */
  lemma SavedSameDay(row: Row, rec: WasteRecord, today: Date, c: Column)
    requires Dated(rec) && DateOf(rec) == today
    requires SavedRowFor(row, rec, today)
    ensures row.totals[c] == if c.tag == Bolsas then Amount(rec, c.kind) / KgPerBag else Amount(rec, c.kind)
  {
    SingleRecordSum(rec, c.kind, PeriodOf(c.tag), today);
    OwnPeriods(today, PeriodOf(c.tag));
  }

  /** Worked example: 6 kg of plastic entered for Monday 2025-06-02 and
      saved on Tuesday 2025-06-03 is stored as 6.0 in the weekly, monthly
      and annual plastic columns and as 2.0 bags. */
  lemma JuneSaveExample(name: string, row: Row, mon: Date, tue: Date)
    requires mon == CivilDate(2025, 6, 2) && tue == CivilDate(2025, 6, 3)
    requires SavedRowFor(row, FormRecord(name, mon, 0.0, 6.0, 0.0, 0.0, 0.0, 0.0)[0], tue)
    ensures row.totals[Column(Bolsas, Plastic)] == 2.0 && row.totals[Column(Semanal, Plastic)] == 6.0
    ensures row.totals[Column(Mensual, Plastic)] == 6.0 && row.totals[Column(Anual, Plastic)] == 6.0
  {
    var rec := FormRecord(name, mon, 0.0, 6.0, 0.0, 0.0, 0.0, 0.0)[0];
    JuneWeekExample(mon, tue);
    SavedInEveryPeriod(row, rec, mon, tue, Plastic);
  }

  /** A row saved for a record whose date is in every period of `today`
      reports the record's weight in each period column. */
  lemma SavedInEveryPeriod(row: Row, rec: WasteRecord, d: Date, today: Date, m: Material)
    requires ParseDate(rec.date) == Some(d)
    requires InPeriod(Weekly, d, today) && InPeriod(Monthly, d, today) && InPeriod(Annual, d, today)
    requires SavedRowFor(row, rec, today)
    ensures row.totals[Column(Bolsas, m)] == Amount(rec, m) / KgPerBag
    ensures row.totals[Column(Semanal, m)] == Amount(rec, m)
    ensures row.totals[Column(Mensual, m)] == Amount(rec, m)
    ensures row.totals[Column(Anual, m)] == Amount(rec, m)
  {
    SingleRecordSum(rec, m, Weekly, today);
    SingleRecordSum(rec, m, Monthly, today);
    SingleRecordSum(rec, m, Annual, today);
  }

  /** A row saved for a record of another year reports zero in every
      monthly and annual column. */
  lemma SavedOtherYear(row: Row, rec: WasteRecord, today: Date, m: Material)
    requires Dated(rec) && DateOf(rec).year != today.year
    requires SavedRowFor(row, rec, today)
    ensures row.totals[Column(Mensual, m)] == 0.0 && row.totals[Column(Anual, m)] == 0.0
  {
    SingleRecordSum(rec, m, Monthly, today);
    SingleRecordSum(rec, m, Annual, today);
  }
}
