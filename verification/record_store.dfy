/**
 * `src/rag/lancedb_database.py`: the record store behind retrieval. A database is a map from
 * table names to tables, and a table is its column names and its rows in insertion order. The
 * three searches read the open table as a data frame and return the matching rows in table
 * order; every failure inside them surfaces as a `ValueError`, modelled as `Err` with its
 * message. The date parser, the date printer and Python's `str.upper` are parameters.
 */
module RecordStore {
  import opened Wrappers
  import opened Text
  import Seqs

  /** A data-frame cell: missing (`None` / `NaN`), a string, or any other value (a vector, a number, a dict). */
  datatype Cell = Null | Str(s: string) | Other

  /** One record, as `to_dict('records')` returns it. */
  type Row = map<string, Cell>

  datatype Table = Table(columns: seq<string>, rows: seq<Row>)

  /** `VectorStoreItem`; no search looks at the vector or the attributes, so they are not kept. */
  datatype Item = Item(id: Cell, timestamp: Option<string>, contentType: string, content: Option<string>)

  /** The record layout `load_data` writes. */
  const COLUMNS: seq<string> := ["id", "timestamp", "content_type", "content", "vector", "attributes"]

  function OptCell(v: Option<string>): Cell {
    if v.Some? then Str(v.value) else Null
  }

  /** The record `load_data` writes for an item: exactly the six columns of the layout. */
  function ItemRow(item: Item): (r: Row)
    ensures forall c :: c in r <==> c in COLUMNS
    ensures r["content_type"] == Str(item.contentType) && r["content"] == OptCell(item.content)
    ensures r["timestamp"] == OptCell(item.timestamp)
  {
    map["id" := item.id, "timestamp" := OptCell(item.timestamp), "content_type" := Str(item.contentType),
        "content" := OptCell(item.content), "vector" := Other, "attributes" := Other]
  }

  /** The value of `column` in `row`; a column the record lacks reads as missing. */
  function CellOf(row: Row, column: string): Cell {
    if column in row then row[column] else Null
  }

  // ---------------------------------------------------------------- connection and loading

  /**
   * A `LanceDBDatabase` after `connect`: its collection name, the database's tables, and
   * whether `self.collection` has been set.
   */
  datatype Store = Store(name: string, tables: map<string, Table>, open: bool)

  /** The table `self.collection` refers to, or `None` while the attribute is unset. */
  function Collection(s: Store): Option<Table> {
    if s.open && s.name in s.tables then Some(s.tables[s.name]) else None
  }

  /** `connect`: the collection is opened only when its name is non-empty and names an existing table. */
  function Connect(name: string, tables: map<string, Table>): (s: Store)
    ensures s.name == name && s.tables == tables
    ensures Collection(s).Some? <==> name != "" && name in tables
    ensures Collection(s).Some? ==> Collection(s).value == tables[name]
  {
    Store(name, tables, name != "" && name in tables)
  }

  /**
   * `load_data`: with `overwrite`, or when the table does not exist, the table is (re)created
   * holding exactly the new records (an empty list creates it from the schema alone);
   * otherwise the existing table is opened and the records are appended after its rows.
   * Either way the collection is open afterwards and no other table changes.
   */
  function LoadData(s: Store, items: seq<Item>, overwrite: bool): (s': Store)
    ensures s'.name == s.name && s.name in s'.tables && Collection(s') == Some(s'.tables[s.name])
    ensures s'.tables.Keys == s.tables.Keys + {s.name}
    ensures forall n :: n in s.tables && n != s.name ==> s'.tables[n] == s.tables[n]
    ensures overwrite || s.name !in s.tables ==>
      s'.tables[s.name] == Table(COLUMNS, Seqs.Map(items, ItemRow))
    ensures !overwrite && s.name in s.tables ==>
      && s'.tables[s.name].columns == s.tables[s.name].columns
      && s'.tables[s.name].rows == s.tables[s.name].rows + Seqs.Map(items, ItemRow)
  {
    var rows := Seqs.Map(items, ItemRow);
    var table :=
      if overwrite || s.name !in s.tables then Table(COLUMNS, rows)
      else if |rows| > 0 then Table(s.tables[s.name].columns, s.tables[s.name].rows + rows)
      else s.tables[s.name];
    assert !overwrite && s.name in s.tables && |rows| == 0 ==> s.tables[s.name].rows + rows == s.tables[s.name].rows;
    s.(tables := s.tables[s.name := table], open := true)
  }

  /** Two loads without `overwrite` keep the earlier records and append both batches, in order. */
  lemma LoadsAccumulate(s: Store, a: seq<Item>, b: seq<Item>)
    ensures var before := if s.name in s.tables then s.tables[s.name].rows else [];
      LoadData(LoadData(s, a, false), b, false).tables[s.name].rows
        == before + Seqs.Map(a, ItemRow) + Seqs.Map(b, ItemRow)
  {
    if s.name !in s.tables {
      assert [] + Seqs.Map(a, ItemRow) == Seqs.Map(a, ItemRow);
    }
  }

  /** A later `connect` to the same database opens the table the load wrote. */
  lemma ReconnectSeesLoad(s: Store, items: seq<Item>, overwrite: bool)
    requires s.name != ""
    ensures var s' := LoadData(s, items, overwrite);
      Collection(Connect(s.name, s'.tables)) == Collection(s')
  {
  }

  // ---------------------------------------------------------------- error messages

  /** `str(e)` for the `AttributeError` raised while `self.collection` is unset. */
  const NO_COLLECTION: string := "'LanceDBDatabase' object has no attribute 'collection'"
  const READ_FAILED: string := "Failed to read data from database. Please check if the table exists and contains data."
  const INVALID_TIMESTAMP: string := "Invalid timestamp format. Please use ISO format (e.g., '2024-01-01 12:00:00')"

  function SearchFailed(e: string): string {
    "Search failed: " + e
  }

  /** Python's `repr` of a list of column names. */
  function ListRepr(columns: seq<string>): string {
    "[" + Join(Seqs.Map(columns, (c: string) => "'" + c + "'"), ", ") + "]"
  }

  /** The message of the `ValueError` raised for an unknown search column. */
  function MissingColumn(column: string, columns: seq<string>): string {
    "Column '" + column + "' not found in table. Available columns: " + ListRepr(columns)
  }

  /** `search_by_content`'s handler: the text of the caught exception picks the message. */
  function ContentError(e: string, column: string): string {
    if Contains(e, "to_pandas") then READ_FAILED
    else if Contains(e, "str.contains") then
      "Failed to search in column '" + column + "'. The column may not contain text data."
    else SearchFailed(e)
  }

  /** `search_by_timestamp_range`'s handler. */
  function TimestampError(e: string): string {
    if Contains(e, "to_datetime") then INVALID_TIMESTAMP else SearchFailed(e)
  }

  // ---------------------------------------------------------------- search by content

  /** Whether `query` is falsy or only whitespace, so the search returns `[]` at once. */
  predicate Blank(query: string) {
    Trim(query, IsPySpace) == ""
  }

  /**
   * `str.contains(needle, case=caseSensitive, na=False, regex=False)` on one cell: a missing or
   * non-string cell never matches; without case sensitivity both sides are upper-cased first.
   */
  predicate ContentMatches(cell: Cell, needle: string, caseSensitive: bool, upper: string -> string) {
    cell.Str? && if caseSensitive then Contains(cell.s, needle) else Contains(upper(cell.s), upper(needle))
  }

  predicate RowMatches(row: Row, column: string, needle: string, caseSensitive: bool, upper: string -> string) {
    ContentMatches(CellOf(row, column), needle, caseSensitive, upper)
  }

  /** The mask `search_by_content` filters the table with. */
  function ContentMask(column: string, needle: string, caseSensitive: bool, upper: string -> string): Row -> bool {
    row => RowMatches(row, column, needle, caseSensitive, upper)
  }

  /**
   * `search_by_content`: a blank query gives `[]` before anything is read. Otherwise the
   * records whose `column` contains the stripped query, in table order; an unset collection
   * or an unknown column is an error.
   */
  function SearchByContent(s: Store, query: string, column: string, caseSensitive: bool,
                           upper: string -> string): (r: Result<seq<Row>, string>)
    ensures Blank(query) ==> r == Ok([])
    ensures !Blank(query) && Collection(s).None? ==> r == Err(ContentError(NO_COLLECTION, column))
    ensures !Blank(query) && Collection(s).Some? && column !in Collection(s).value.columns ==>
      r == Err(ContentError(MissingColumn(column, Collection(s).value.columns), column))
    ensures r.Ok? <==> Blank(query) || (Collection(s).Some? && column in Collection(s).value.columns)
    ensures r.Ok? && !Blank(query) ==>
      var rows := Collection(s).value.rows;
      var needle := Trim(query, IsPySpace);
      && |r.value| <= |rows|
      && (forall i :: 0 <= i < |r.value| ==>
            r.value[i] in rows && RowMatches(r.value[i], column, needle, caseSensitive, upper))
      && (forall i :: 0 <= i < |rows| && RowMatches(rows[i], column, needle, caseSensitive, upper) ==>
            rows[i] in r.value)
      && r.value == Seqs.Filter(rows, ContentMask(column, needle, caseSensitive, upper))
  {
    if Blank(query) then Ok([])
    else match Collection(s)
      case None => Err(ContentError(NO_COLLECTION, column))
      case Some(t) =>
        if column !in t.columns then Err(ContentError(MissingColumn(column, t.columns), column))
        else
          var needle := Trim(query, IsPySpace);
          Ok(Seqs.Filter(t.rows, ContentMask(column, needle, caseSensitive, upper)))
  }

  /** Upper-casing character by character, as `str.upper` does, commutes with concatenation. */
  ghost predicate Homomorphic(upper: string -> string) {
    forall a: string, b: string {:trigger upper(a + b)} :: upper(a + b) == upper(a) + upper(b)
  }

  /** An occurrence survives upper-casing both sides. */
  lemma UpperKeepsOccurrence(s: string, q: string, upper: string -> string)
    requires Homomorphic(upper)
    requires Contains(s, q)
    ensures Contains(upper(s), upper(q))
  {
    var i :| 0 <= i <= |s| && OccursAt(s, q, i);
    var x, y := s[..i], s[i + |q|..];
    assert s == x + q + y;
    assert upper(s) == upper(x + q) + upper(y) == upper(x) + upper(q) + upper(y);
    var u := upper(s);
    assert u[|upper(x)|..|upper(x)| + |upper(q)|] == upper(q);
    assert OccursAt(u, upper(q), |upper(x)|);
  }

  /**
   * A case-insensitive search finds every record a case-sensitive search finds, provided the
   * upper-casing works character by character.
   */
  lemma CaseInsensitiveFindsMore(s: Store, query: string, column: string, upper: string -> string)
    requires Homomorphic(upper)
    ensures var strict := SearchByContent(s, query, column, true, upper);
      var loose := SearchByContent(s, query, column, false, upper);
      && (strict.Ok? <==> loose.Ok?)
      && (strict.Ok? ==> forall i :: 0 <= i < |strict.value| ==> strict.value[i] in loose.value)
  {
    var strict := SearchByContent(s, query, column, true, upper);
    var loose := SearchByContent(s, query, column, false, upper);
    if strict.Ok? && !Blank(query) {
      var rows := Collection(s).value.rows;
      var needle := Trim(query, IsPySpace);
      forall i | 0 <= i < |strict.value|
        ensures strict.value[i] in loose.value
      {
        var row := strict.value[i];
        assert row in rows && RowMatches(row, column, needle, true, upper);
        UpperKeepsOccurrence(CellOf(row, column).s, needle, upper);
        var k :| 0 <= k < |rows| && rows[k] == row;
        assert RowMatches(rows[k], column, needle, false, upper);
      }
    }
  }

  /**
   * Searching after records were appended finds the earlier matches followed by the matches
   * among the new records.
   */
  lemma {:induction false} SearchAfterAppend(s: Store, items: seq<Item>, query: string, column: string,
                                             caseSensitive: bool, upper: string -> string)
    requires Collection(s).Some? && column in Collection(s).value.columns
    ensures var r := SearchByContent(LoadData(s, items, false), query, column, caseSensitive, upper);
      var needle := Trim(query, IsPySpace);
      && r.Ok? && SearchByContent(s, query, column, caseSensitive, upper).Ok?
      && r.value == SearchByContent(s, query, column, caseSensitive, upper).value
         + (if Blank(query) then []
            else Seqs.Filter(Seqs.Map(items, ItemRow), ContentMask(column, needle, caseSensitive, upper)))
  {
    if !Blank(query) {
      var needle := Trim(query, IsPySpace);
      var p := ContentMask(column, needle, caseSensitive, upper);
      Seqs.FilterAppend(Collection(s).value.rows, Seqs.Map(items, ItemRow), p);
    }
  }

  // ---------------------------------------------------------------- search by timestamp

  /** Python truthiness of an optional string argument (`if start_timestamp:`). */
  predicate Truthy(b: Option<string>) {
    b.Some? && b.value != ""
  }

  /** A cell as `pd.to_datetime(..., errors='coerce')` reads it; `None` is `NaT`. */
  function ParseCell(cell: Cell, parse: string -> Result<int, string>): Option<int> {
    if cell.Str? && parse(cell.s).Ok? then Some(parse(cell.s).value) else None
  }

  /** The record keeps a timestamp after coercion, so `dropna` keeps it. */
  predicate Dated(row: Row, column: string, parse: string -> Result<int, string>) {
    ParseCell(CellOf(row, column), parse).Some?
  }

  /** The coerced timestamp of a dated record. */
  function Time(row: Row, column: string, parse: string -> Result<int, string>): int {
    ParseCell(CellOf(row, column), parse).GetOr(0)
  }

  /** Both bounds inclusive; an absent bound is no bound. */
  predicate InRange(t: int, lo: Option<int>, hi: Option<int>) {
    (lo.None? || lo.value <= t) && (hi.None? || t <= hi.value)
  }

  predicate Within(row: Row, column: string, parse: string -> Result<int, string>, lo: Option<int>, hi: Option<int>) {
    Dated(row, column, parse) && InRange(Time(row, column, parse), lo, hi)
  }

  /** A bound as compared: a falsy bound imposes none. */
  function Bound(b: Option<string>, parse: string -> Result<int, string>): Option<int> {
    if Truthy(b) && parse(b.value).Ok? then Some(parse(b.value).value) else None
  }

  /** A truthy bound that the parser rejects. */
  predicate BadBound(b: Option<string>, parse: string -> Result<int, string>) {
    Truthy(b) && parse(b.value).Err?
  }

  /** The returned record: the timestamp column printed back as text. */
  function Reformat(row: Row, column: string, parse: string -> Result<int, string>, format: int -> string): Row {
    row[column := Str(format(Time(row, column, parse)))]
  }

  /** `x` is a record of `rows` within the bounds, printed back. */
  predicate PrintedFrom(x: Row, rows: seq<Row>, column: string, parse: string -> Result<int, string>,
                        lo: Option<int>, hi: Option<int>, format: int -> string) {
    exists row :: row in rows && Within(row, column, parse, lo, hi) && x == Reformat(row, column, parse, format)
  }

  /** The masks `search_by_timestamp_range` applies: `dropna` after coercion, then the bounds. */
  function DatedMask(column: string, parse: string -> Result<int, string>): Row -> bool {
    row => Dated(row, column, parse)
  }

  function RangeMask(column: string, parse: string -> Result<int, string>, lo: Option<int>, hi: Option<int>): Row -> bool {
    row => InRange(Time(row, column, parse), lo, hi)
  }

  /** Both masks at once: the record is dated and within the bounds. */
  function WithinMask(column: string, parse: string -> Result<int, string>, lo: Option<int>, hi: Option<int>): Row -> bool {
    row => Within(row, column, parse, lo, hi)
  }

  /**
   * `out` is the window of `rows`: the table filtered by `Within`, in table order and with
   * repeats kept, each record printed back. So every returned record is a record of the
   * table within the bounds, printed back, and every record within the bounds is returned.
   */
  predicate IsWindow(out: seq<Row>, rows: seq<Row>, column: string, parse: string -> Result<int, string>,
                     lo: Option<int>, hi: Option<int>, format: int -> string) {
    && out == Printed(Seqs.Filter(rows, WithinMask(column, parse, lo, hi)), column, parse, format)
    && WindowMembers(out, rows, column, parse, lo, hi, format)
  }

  /** The membership half of `IsWindow`. */
  predicate WindowMembers(out: seq<Row>, rows: seq<Row>, column: string, parse: string -> Result<int, string>,
                          lo: Option<int>, hi: Option<int>, format: int -> string) {
    && |out| <= |rows|
    && (forall i :: 0 <= i < |out| ==> PrintedFrom(out[i], rows, column, parse, lo, hi, format))
    && (forall i :: 0 <= i < |rows| && Within(rows[i], column, parse, lo, hi) ==>
          Reformat(rows[i], column, parse, format) in out)
  }

  /** The records left after `dropna`, masked by the bounds and printed back. */
  function Window(rows: seq<Row>, column: string, parse: string -> Result<int, string>,
                  lo: Option<int>, hi: Option<int>, format: int -> string): (out: seq<Row>)
    ensures IsWindow(out, rows, column, parse, lo, hi, format)
  {
    var kept := Seqs.Filter(Seqs.Filter(rows, DatedMask(column, parse)), RangeMask(column, parse, lo, hi));
    Seqs.FilterTwice(rows, DatedMask(column, parse), RangeMask(column, parse, lo, hi), WithinMask(column, parse, lo, hi));
    PrintedBack(rows, column, parse, lo, hi, format);
    Printed(kept, column, parse, format)
  }

  /** The records with their timestamps printed back as text. */
  function Printed(kept: seq<Row>, column: string, parse: string -> Result<int, string>, format: int -> string): (out: seq<Row>)
    ensures |out| == |kept| && forall i :: 0 <= i < |kept| ==> out[i] == Reformat(kept[i], column, parse, format)
  {
    Seqs.Map(kept, row => Reformat(row, column, parse, format))
  }

  /** Printing back the records within the bounds gives the window. */
  lemma PrintedBack(rows: seq<Row>, column: string, parse: string -> Result<int, string>,
                    lo: Option<int>, hi: Option<int>, format: int -> string)
    ensures IsWindow(Printed(Seqs.Filter(rows, WithinMask(column, parse, lo, hi)), column, parse, format),
                     rows, column, parse, lo, hi, format)
  {
    var kept := Seqs.Filter(rows, WithinMask(column, parse, lo, hi));
    var out := Printed(kept, column, parse, format);
    forall i | 0 <= i < |out|
      ensures PrintedFrom(out[i], rows, column, parse, lo, hi, format)
    {
      assert out[i] == Reformat(kept[i], column, parse, format) && kept[i] in rows;
      assert WithinMask(column, parse, lo, hi)(kept[i]);
    }
    forall i | 0 <= i < |rows| && Within(rows[i], column, parse, lo, hi)
      ensures Reformat(rows[i], column, parse, format) in out
    {
      assert WithinMask(column, parse, lo, hi)(rows[i]);
      var k :| 0 <= k < |kept| && kept[k] == rows[i];
      assert out[k] == Reformat(kept[k], column, parse, format);
    }
  }

  /** With no dated record nothing is within any bounds, so `[]` is the window. */
  lemma EmptyWindow(rows: seq<Row>, column: string, parse: string -> Result<int, string>,
                    lo: Option<int>, hi: Option<int>, format: int -> string)
    requires |Seqs.Filter(rows, DatedMask(column, parse))| == 0
    ensures IsWindow([], rows, column, parse, lo, hi, format)
    ensures forall i :: 0 <= i < |rows| ==> !Dated(rows[i], column, parse)
  {
  }

  /**
   * `search_by_timestamp_range`: records whose timestamp does not parse are dropped; if none
   * is left the answer is `[]` before the bounds are read. A truthy bound that does not parse
   * is an error; otherwise the records within the inclusive bounds are returned in table
   * order, the timestamp printed with `format`.
   */
  function SearchByTimestampRange(s: Store, start: Option<string>, end: Option<string>, column: string,
                                  parse: string -> Result<int, string>, format: int -> string): (r: Result<seq<Row>, string>)
    ensures Collection(s).None? ==> r == Err(TimestampError(NO_COLLECTION))
    ensures Collection(s).Some? && column !in Collection(s).value.columns ==>
      r == Err(TimestampError(MissingColumn(column, Collection(s).value.columns)))
    ensures r.Ok? && (forall i :: 0 <= i < |Collection(s).value.rows| ==> !Dated(Collection(s).value.rows[i], column, parse)) ==>
      r.value == []
    ensures r.Err? && Collection(s).Some? && column in Collection(s).value.columns ==>
      && (BadBound(start, parse) || BadBound(end, parse))
      && (exists row :: row in Collection(s).value.rows && Dated(row, column, parse))
    ensures r.Ok? ==>
      IsWindow(r.value, Collection(s).value.rows, column, parse, Bound(start, parse), Bound(end, parse), format)
  {
    match Collection(s)
    case None => Err(TimestampError(NO_COLLECTION))
    case Some(t) =>
      if column !in t.columns then Err(TimestampError(MissingColumn(column, t.columns)))
      else
        var dated := Seqs.Filter(t.rows, DatedMask(column, parse));
        if |dated| == 0 then
          EmptyWindow(t.rows, column, parse, Bound(start, parse), Bound(end, parse), format);
          Ok([])
        else if assert dated[0] in t.rows && Dated(dated[0], column, parse); BadBound(start, parse) then
          Err(TimestampError(parse(start.value).error))
        else if BadBound(end, parse) then Err(TimestampError(parse(end.value).error))
        else
          var out := Window(t.rows, column, parse, Bound(start, parse), Bound(end, parse), format);
          assert exists row :: row in t.rows && Dated(row, column, parse);
          Ok(out)
  }

  /** A missing bound and an empty bound are the same: no bound. */
  lemma AbsentBoundIsEmptyBound(s: Store, start: Option<string>, end: Option<string>, column: string,
                                parse: string -> Result<int, string>, format: int -> string)
    ensures SearchByTimestampRange(s, None, end, column, parse, format)
         == SearchByTimestampRange(s, Some(""), end, column, parse, format)
    ensures SearchByTimestampRange(s, start, None, column, parse, format)
         == SearchByTimestampRange(s, start, Some(""), column, parse, format)
  {
  }

  /** The bounds `lo'`, `hi'` lie within `lo`, `hi`: each present outer bound is met by a tighter inner one. */
  predicate Inside(lo': Option<int>, hi': Option<int>, lo: Option<int>, hi: Option<int>) {
    && (lo.Some? ==> lo'.Some? && lo.value <= lo'.value)
    && (hi.Some? ==> hi'.Some? && hi'.value <= hi.value)
  }

  /** The window of inner bounds lies within the window of outer bounds. */
  lemma WindowsNest(rows: seq<Row>, column: string, parse: string -> Result<int, string>,
                    lo: Option<int>, hi: Option<int>, lo': Option<int>, hi': Option<int>,
                    format: int -> string, wide: seq<Row>, narrow: seq<Row>)
    requires Inside(lo', hi', lo, hi)
    requires WindowMembers(wide, rows, column, parse, lo, hi, format)
    requires WindowMembers(narrow, rows, column, parse, lo', hi', format)
    ensures forall i :: 0 <= i < |narrow| ==> narrow[i] in wide
  {
    forall i | 0 <= i < |narrow|
      ensures narrow[i] in wide
    {
      var row :| row in rows && Within(row, column, parse, lo', hi') && narrow[i] == Reformat(row, column, parse, format);
      var k :| 0 <= k < |rows| && rows[k] == row;
      assert Within(rows[k], column, parse, lo, hi);
    }
  }

  /** A narrower window finds a subset of the records a wider window finds. */
  lemma NarrowerWindowFindsLess(s: Store, start: Option<string>, end: Option<string>,
                                start': Option<string>, end': Option<string>, column: string,
                                parse: string -> Result<int, string>, format: int -> string)
    requires Inside(Bound(start', parse), Bound(end', parse), Bound(start, parse), Bound(end, parse))
    ensures var wide := SearchByTimestampRange(s, start, end, column, parse, format);
      var narrow := SearchByTimestampRange(s, start', end', column, parse, format);
      wide.Ok? && narrow.Ok? ==> forall i :: 0 <= i < |narrow.value| ==> narrow.value[i] in wide.value
  {
    var wideR := SearchByTimestampRange(s, start, end, column, parse, format);
    var narrowR := SearchByTimestampRange(s, start', end', column, parse, format);
    if !(wideR.Ok? && narrowR.Ok?) {
      return;
    }
    WindowsNest(Collection(s).value.rows, column, parse, Bound(start, parse), Bound(end, parse),
                Bound(start', parse), Bound(end', parse), format, wideR.value, narrowR.value);
  }

  // ---------------------------------------------------------------- search by content type

  /** The mask `search_by_content_type` filters the table with. */
  function TypeMask(column: string, contentType: string): Row -> bool {
    row => CellOf(row, column) == Str(contentType)
  }

  /**
   * `search_by_content_type`: exactly the records whose `column` equals the type, in table
   * order. An unknown column raises `KeyError`, whose text is the quoted column name.
   */
  function SearchByContentType(s: Store, contentType: string, column: string): (r: Result<seq<Row>, string>)
    ensures Collection(s).None? ==> r == Err(SearchFailed(NO_COLLECTION))
    ensures Collection(s).Some? && column !in Collection(s).value.columns ==> r == Err(SearchFailed("'" + column + "'"))
    ensures r.Ok? <==> Collection(s).Some? && column in Collection(s).value.columns
    ensures r.Ok? ==>
      var rows := Collection(s).value.rows;
      && (forall i :: 0 <= i < |r.value| ==> r.value[i] in rows && CellOf(r.value[i], column) == Str(contentType))
      && (forall i :: 0 <= i < |rows| && CellOf(rows[i], column) == Str(contentType) ==> rows[i] in r.value)
      && r.value == Seqs.Filter(rows, TypeMask(column, contentType))
  {
    match Collection(s)
    case None => Err(SearchFailed(NO_COLLECTION))
    case Some(t) =>
      if column !in t.columns then Err(SearchFailed("'" + column + "'"))
      else Ok(Seqs.Filter(t.rows, TypeMask(column, contentType)))
  }

  /**
   * After a load that (re)creates the table, searching by content type returns the records
   * of exactly the loaded items of that type, in load order.
   */
  lemma LoadThenSearchByType(s: Store, items: seq<Item>, contentType: string)
    ensures var r := SearchByContentType(LoadData(s, items, true), contentType, "content_type");
      && r.Ok?
      && r.value == Seqs.Map(Seqs.Filter(items, (it: Item) => it.contentType == contentType), ItemRow)
  {
    var s' := LoadData(s, items, true);
    var rows := Seqs.Map(items, ItemRow);
    assert Collection(s') == Some(Table(COLUMNS, rows));
    assert "content_type" in COLUMNS;
    var p := TypeMask("content_type", contentType);
    assert SearchByContentType(s', contentType, "content_type") == Ok(Seqs.Filter(rows, p));
    TypeFilterOfLoaded(items, contentType);
  }

  lemma TypeFilterOfLoaded(items: seq<Item>, contentType: string)
    ensures Seqs.Filter(Seqs.Map(items, ItemRow), TypeMask("content_type", contentType))
         == Seqs.Map(Seqs.Filter(items, (it: Item) => it.contentType == contentType), ItemRow)
  {
    var p := TypeMask("content_type", contentType);
    var q := (it: Item) => it.contentType == contentType;
    forall i | 0 <= i < |items|
      ensures q(items[i]) == p(ItemRow(items[i]))
    {
      assert "content_type" in ItemRow(items[i]);
    }
    Seqs.FilterMap(items, ItemRow, p, q);
  }

}
