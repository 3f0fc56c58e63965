/** The stored table: one row per save, holding the user, the date text and
    twenty-four tagged totals, and the filter the statistics page applies
    to it. */
module Table {
  import opened Wrappers
  import opened Calendar
  import opened DateText
  import opened Text
  import opened Ledger

  /** The four groups of stored totals, named by their column prefixes. */
  datatype Tag = Bolsas | Semanal | Mensual | Anual

  function TagName(t: Tag): string {
    match t
    case Bolsas => "Bolsas"
    case Semanal => "Semanal"
    case Mensual => "Mensual"
    case Anual => "Anual"
  }

  /** The column holding kind `m` of group `t`, as `<Tag>_<key>`.  The
      name reads back as the column it names. */
  function ColumnName(t: Tag, m: Material): (name: string)
    ensures ParseColumn(name) == Some(Column(t, m))
  {
    var name := TagName(t) + "_" + Key(m);
    NameSplitsAtTag(t, m, name);
    name
  }

  /** The group whose prefix is `s`, if any. */
  function TagOf(s: string): (r: Option<Tag>)
    ensures r.Some? ==> TagName(r.value) == s
  {
    if s == "Bolsas" then Some(Bolsas)
    else if s == "Semanal" then Some(Semanal)
    else if s == "Mensual" then Some(Mensual)
    else if s == "Anual" then Some(Anual)
    else None
  }

  /** The kind whose key is `s`, if any. */
  function KindOf(s: string): (r: Option<Material>)
    ensures r.Some? ==> Key(r.value) == s
  {
    if s == "organico" then Some(Organic)
    else if s == "plastico" then Some(Plastic)
    else if s == "papel" then Some(Paper)
    else if s == "vidrio" then Some(Glass)
    else if s == "metal" then Some(Metal)
    else if s == "no_reciclable" then Some(NonRecyclable)
    else None
  }

  /** Where the first `_` of `s` is, or `|s|` when it has none. */
  function FirstUnderscore(s: string): (i: nat)
    ensures i <= |s| && (i < |s| ==> s[i] == '_')
    ensures forall j :: 0 <= j < i ==> s[j] != '_'
  {
    if s == [] || s[0] == '_' then 0 else 1 + FirstUnderscore(s[1..])
  }

  /** Reads a column name: the group prefix up to the first `_` (no prefix
      holds one), then the kind's key (which may). */
  function ParseColumn(name: string): Option<Column> {
    var i := FirstUnderscore(name);
    if i == |name| then None
    else
      match (TagOf(name[..i]), KindOf(name[i + 1..]))
      case (Some(t), Some(m)) => Some(Column(t, m))
      case _ => None
  }

  /** No group prefix holds an underscore, so a column name splits right
      after its prefix. */
  lemma NameSplitsAtTag(t: Tag, m: Material, name: string)
    requires name == TagName(t) + "_" + Key(m)
    ensures ParseColumn(name) == Some(Column(t, m))
  {
    var k := |TagName(t)|;
    PrefixHasNoUnderscore(t);
    assert forall j :: 0 <= j < k ==> name[j] == TagName(t)[j];
    assert FirstUnderscore(name) == k by {
      assert name[k] == '_';
    }
    assert name[..k] == TagName(t);
    assert name[k + 1..] == Key(m);
    TagOfName(t);
    KindOfKey(m);
  }

  lemma PrefixHasNoUnderscore(t: Tag)
    ensures forall j :: 0 <= j < |TagName(t)| ==> TagName(t)[j] != '_'
  {
    match t
    case Bolsas =>
    case Semanal =>
    case Mensual =>
    case Anual =>
  }

  lemma TagOfName(t: Tag)
    ensures TagOf(TagName(t)) == Some(t)
  {
    match t
    case Bolsas =>
    case Semanal =>
    case Mensual =>
    case Anual =>
  }

  lemma KindOfKey(m: Material)
    ensures KindOf(Key(m)) == Some(m)
  {
    match m
    case Organic =>
    case Plastic =>
    case Paper =>
    case Glass =>
    case Metal =>
    case NonRecyclable =>
  }

  /** Every name that reads as a column is that column's name. */
  lemma ParseColumnName(name: string)
    requires ParseColumn(name).Some?
    ensures ColumnName(ParseColumn(name).value.tag, ParseColumn(name).value.kind) == name
  {
    var i := FirstUnderscore(name);
    assert name == name[..i] + "_" + name[i + 1..];
  }

  /** Every column has its own name. */
  lemma ColumnNameInjective(t: Tag, m: Material, u: Tag, n: Material)
    ensures ColumnName(t, m) == ColumnName(u, n) <==> t == u && m == n
  {
  }

  /** A numeric column, named by `ColumnName`; since distinct columns have
      distinct names, rows key their totals by column. */
  datatype Column = Column(tag: Tag, kind: Material)

  /** One saved row: the user and date texts and the numeric columns. */
  datatype Row = Row(user: string, date: string, totals: map<Column, real>)

  /** The columns of group `t`, from a bucket holding every kind. */
  function Group(t: Tag, acc: map<Material, real>): map<Column, real>
    requires forall m: Material :: m in acc
  {
    map m: Material | m in Kinds :: Column(t, m) := acc[m]
  }

  /** The row saved for a record and its four buckets. */
  function Fila(r: WasteRecord, bags: map<Material, real>, weekly: map<Material, real>,
                monthly: map<Material, real>, annual: map<Material, real>): Row
    requires forall m: Material :: m in bags && m in weekly && m in monthly && m in annual
  {
    Row(r.user, r.date, Group(Bolsas, bags) + Group(Semanal, weekly) + Group(Mensual, monthly) + Group(Anual, annual))
  }

  /** The bucket a group is taken from. */
  function Source(t: Tag, bags: map<Material, real>, weekly: map<Material, real>,
                  monthly: map<Material, real>, annual: map<Material, real>): map<Material, real>
  {
    match t
    case Bolsas => bags
    case Semanal => weekly
    case Mensual => monthly
    case Anual => annual
  }

  lemma GroupAt(t: Tag, acc: map<Material, real>, c: Column)
    requires forall k: Material :: k in acc
    ensures c in Group(t, acc) <==> c.tag == t
    ensures c.tag == t ==> Group(t, acc)[c] == acc[c.kind]
  {
    assert Kinds[Index(c.kind)] == c.kind;
  }

  /** The row keeps the record's user and date text, its columns are the
      twenty-four tagged ones, and column `(t, m)` holds kind `m`'s value in
      the bucket of group `t`. */
  lemma FilaColumns(r: WasteRecord, bags: map<Material, real>, weekly: map<Material, real>,
                    monthly: map<Material, real>, annual: map<Material, real>, c: Column)
    requires forall k: Material :: k in bags && k in weekly && k in monthly && k in annual
    ensures var row := Fila(r, bags, weekly, monthly, annual);
      row.user == r.user && row.date == r.date &&
      c in row.totals &&
      row.totals[c] == Source(c.tag, bags, weekly, monthly, annual)[c.kind]
  {
    GroupAt(Bolsas, bags, c);
    GroupAt(Semanal, weekly, c);
    GroupAt(Mensual, monthly, c);
    GroupAt(Anual, annual, c);
  }

  // ----------------------------------------------------------------------
  // Filtering.

  /** Rows whose user contains `usuario`, ignoring case. */
  function ByUser(rows: seq<Row>, usuario: string): seq<Row> {
    if rows == [] then []
    else (if ContainsIgnoringCase(rows[0].user, usuario) then [rows[0]] else []) + ByUser(rows[1..], usuario)
  }

  /** Rows whose date text is exactly `fecha`. */
  function ByDate(rows: seq<Row>, fecha: string): seq<Row> {
    if rows == [] then []
    else (if rows[0].date == fecha then [rows[0]] else []) + ByDate(rows[1..], fecha)
  }

  /** The page's filter: by user when a user is given, then by date when a
      date is given. */
  function FilterData(rows: seq<Row>, usuario: string, fecha: string): seq<Row> {
    var byUser := if usuario != "" then ByUser(rows, usuario) else rows;
    if fecha != "" then ByDate(byUser, fecha) else byUser
  }

  /** A row passes the filter: each criterion that is given holds. */
  predicate Selected(r: Row, usuario: string, fecha: string) {
    (usuario == "" || ContainsIgnoringCase(r.user, usuario)) && (fecha == "" || r.date == fecha)
  }

  /** Reference definition: the selected rows, in order. */
  function SelectedRows(rows: seq<Row>, usuario: string, fecha: string): seq<Row> {
    if rows == [] then []
    else (if Selected(rows[0], usuario, fecha) then [rows[0]] else []) + SelectedRows(rows[1..], usuario, fecha)
  }

  /** The two-stage filter keeps exactly the selected rows, in order. */
  lemma {:induction false} FilterDataIsSelected(rows: seq<Row>, usuario: string, fecha: string)
    ensures FilterData(rows, usuario, fecha) == SelectedRows(rows, usuario, fecha)
  {
    if rows != [] {
      var r, rest := rows[0], rows[1..];
      FilterDataIsSelected(rest, usuario, fecha);
      var tail := if usuario != "" then ByUser(rest, usuario) else rest;
      var head := if usuario != "" && !ContainsIgnoringCase(r.user, usuario) then [] else [r];
      var byUser := if usuario != "" then ByUser(rows, usuario) else rows;
      assert byUser == head + tail;
      if fecha != "" {
        if head == [] {
          assert byUser == tail;
        } else {
          assert byUser[0] == r && byUser[1..] == tail;
        }
      }
    }
  }

  /** Order is kept: the output is a subsequence of the input. */
  predicate IsSubsequence(xs: seq<Row>, ys: seq<Row>)
    decreases |ys|
  {
    xs == [] || (ys != [] && (if xs[0] == ys[0] then IsSubsequence(xs[1..], ys[1..]) else IsSubsequence(xs, ys[1..])))
  }

  lemma {:induction false} SelectedIsSubsequence(rows: seq<Row>, usuario: string, fecha: string)
    ensures IsSubsequence(SelectedRows(rows, usuario, fecha), rows)
  {
    if rows != [] {
      var out := SelectedRows(rows, usuario, fecha);
      var rest := SelectedRows(rows[1..], usuario, fecha);
      SelectedIsSubsequence(rows[1..], usuario, fecha);
      if Selected(rows[0], usuario, fecha) {
        assert out[0] == rows[0] && out[1..] == rest;
      } else {
        assert out == rest;
        SkipFirst(rest, rows);
      }
    }
  }

  /** Dropping the first row of the longer sequence keeps the relation. */
  lemma {:induction false} SkipFirst(xs: seq<Row>, ys: seq<Row>)
    requires ys != [] && IsSubsequence(xs, ys[1..])
    ensures IsSubsequence(xs, ys)
    decreases |ys|, 0
  {
    if xs != [] && xs[0] == ys[0] {
      DropHead(xs, ys[1..]);
    }
  }

  /** Dropping the first row of the shorter sequence keeps the relation. */
  lemma {:induction false} DropHead(xs: seq<Row>, zs: seq<Row>)
    requires xs != [] && IsSubsequence(xs, zs)
    ensures IsSubsequence(xs[1..], zs)
    decreases |zs|, 1
  {
    if xs[0] == zs[0] {
      if xs[1..] != [] {
        SkipFirst(xs[1..], zs);
      }
    } else {
      DropHead(xs, zs[1..]);
      if xs[1..] != [] {
        SkipFirst(xs[1..], zs);
      }
    }
  }

  /** Each row comes out as many times as it went in if it is selected, and
      never otherwise. */
  lemma {:induction false} SelectedCounts(rows: seq<Row>, usuario: string, fecha: string, r: Row)
    ensures multiset(SelectedRows(rows, usuario, fecha))[r] ==
      if Selected(r, usuario, fecha) then multiset(rows)[r] else 0
  {
    if rows != [] {
      SelectedCounts(rows[1..], usuario, fecha, r);
      assert rows == [rows[0]] + rows[1..];
    }
  }

  /** Filtering twice with the same criteria is filtering once. */
  lemma {:induction false} SelectedIdempotent(rows: seq<Row>, usuario: string, fecha: string)
    ensures SelectedRows(SelectedRows(rows, usuario, fecha), usuario, fecha) == SelectedRows(rows, usuario, fecha)
  {
    if rows != [] {
      SelectedIdempotent(rows[1..], usuario, fecha);
      var rest := SelectedRows(rows[1..], usuario, fecha);
      if Selected(rows[0], usuario, fecha) {
        var out := [rows[0]] + rest;
        assert SelectedRows(rows, usuario, fecha) == out;
        assert out[0] == rows[0] && out[1..] == rest;
      } else {
        assert SelectedRows(rows, usuario, fecha) == rest;
      }
    }
  }

  /** The filter's properties in its own terms: no criteria leaves the
      table alone; otherwise it keeps exactly the selected rows, each as
      often as before, in order; and it is idempotent. */
  lemma FilterDataSpec(rows: seq<Row>, usuario: string, fecha: string, r: Row)
    ensures usuario == "" && fecha == "" ==> FilterData(rows, usuario, fecha) == rows
    ensures IsSubsequence(FilterData(rows, usuario, fecha), rows)
    ensures multiset(FilterData(rows, usuario, fecha))[r] ==
      if Selected(r, usuario, fecha) then multiset(rows)[r] else 0
    ensures FilterData(FilterData(rows, usuario, fecha), usuario, fecha) == FilterData(rows, usuario, fecha)
  {
    FilterDataIsSelected(rows, usuario, fecha);
    FilterDataIsSelected(FilterData(rows, usuario, fecha), usuario, fecha);
    SelectedIsSubsequence(rows, usuario, fecha);
    SelectedCounts(rows, usuario, fecha, r);
    SelectedIdempotent(rows, usuario, fecha);
  }

  /** Filtering by the date text of `e` keeps a row saved for a record of
      date `d` exactly when `d` is `e`. */
  lemma DateFilterSelectsDay(r: WasteRecord, d: Date, e: Date, row: Row)
    requires row.date == r.date && r.date == FormatDate(d)
    ensures Selected(row, "", FormatDate(e)) <==> d == e
  {
    FormatInjective(d, e);
  }
}
