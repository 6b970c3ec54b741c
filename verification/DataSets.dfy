/**
 Typed datasets: rows of a fixed list of columns against the loosely typed payload that carries them.
 A row type may have skipped fields, which do not travel and come back as their defaults.
 */
module DataSets {
  import opened Bounded
  import opened Options
  import opened Values

  datatype Column = Column(name: string, ty: DataType, optional: bool)

  datatype Schema = Schema(columns: seq<Column>, skippedDefaults: seq<Scalar>)

  datatype Row = Row(cells: seq<Option<Scalar>>, skipped: seq<Scalar>)

  type WireRow = seq<Option<Wire>>

  datatype Payload = Payload(numOfColumns: Option<U64>, columns: seq<string>, types: seq<nat>, rows: seq<WireRow>)

  datatype DataSetError =
    | ColumnCountMismatch(expected: nat, actual: nat)
    | TypesCountMismatch(expected: nat, actual: nat)
    | ColumnNameMismatch(index: nat, expectedName: string, actualName: string)
    | ColumnTypeMismatch(index: nat, expectedType: DataType, actualType: nat)
    | RowLengthMismatch(expected: nat, actual: nat)
    | ElementTypeMismatch(index: nat, expectedType: DataType)
    | ElementValueMissing(index: nat)

  datatype Result<+T> = Ok(value: T) | Err(error: DataSetError)

  /** `as u8` or `as u16`, then back. */
  predicate Fits(narrow: DataType, wide: U32)
    requires narrow.Int8? || narrow.Int16?
  {
    wide == wide % narrow.Range() || wide == Narrowed(narrow, wide) % TWO_TO_THE_32
  }

  predicate DatatypeMatches(ty: DataType, w: Wire) {
    match ty
    case Int8 => w.IntValue? && Fits(Int8, w.int32)
    case Int16 => w.IntValue? && Fits(Int16, w.int32)
    case Int32 => w.IntValue?
    case UInt8 => w.IntValue? && w.int32 <= 0xFF
    case UInt16 => w.IntValue? && w.int32 <= 0xFFFF
    case UInt32 => w.IntValue?
    case Int64 => w.LongValue?
    case UInt64 => w.LongValue?
    case DateTime => w.LongValue?
    case Float => w.FloatValue?
    case Double => w.DoubleValue?
    case Boolean => w.BooleanValue?
    case _ => w.StringValue?
  }

  /** The size of the field an integer type travels in. */
  function FieldTurn(ty: DataType): int {
    if ty.IsLong() then TWO_TO_THE_64 else TWO_TO_THE_32
  }

  /** Which contents of a field are a type's own encodings: sign-extended values, or the values themselves. */
  lemma CanonicalExactly(ty: DataType, field: nat)
    requires ty.IsInteger() && field < FieldTurn(ty)
    ensures Narrowed(ty, field) % FieldTurn(ty) == field <==>
              if ty.IsSigned() then field < ty.Range() / 2 || field >= FieldTurn(ty) - ty.Range() / 2
              else field < ty.Range()
  {
    var m := ty.Range();
    var t := FieldTurn(ty);
    assert t == m * (t / m) && t >= m;
    hide DataType.Range, FieldTurn;
    var low := field % m;
    if field < m {
      ModUnique(field, m, 0, field);
    }
    if field >= t - m {
      assert m * (t / m - 1) == t - m;
      ModUnique(field, m, t / m - 1, field - (t - m));
    }
    if ty.IsSigned() && low >= m / 2 {
      ModUnique(low - m, t, -1, low - m + t);
    } else {
      ModUnique(low, t, 0, low);
    }
  }

  /** A narrow signed column takes what is zero-extended and what is sign-extended, and nothing in between. */
  lemma FitsExactly(wide: U32)
    ensures Fits(Int8, wide) <==> wide < 0x100 || wide >= TWO_TO_THE_32 - 0x80
    ensures Fits(Int16, wide) <==> wide < 0x1_0000 || wide >= TWO_TO_THE_32 - 0x8000
  {
    CanonicalExactly(Int8, wide);
    CanonicalExactly(Int16, wide);
  }

  function CanonicalOf(ty: DataType, w: Wire): Wire
    requires Decode(ty, w).Some?
  {
    DecodedHasType(ty, w);
    Encode(ty, Decode(ty, w).value)
  }

  lemma CanonicalOfInteger(ty: DataType, w: Wire)
    requires ty.IsInteger() && Decode(ty, w).Some?
    ensures w.IntValue? || w.LongValue?
    ensures var field := if w.IntValue? then w.int32 else w.int64;
            CanonicalOf(ty, w) == w <==> Narrowed(ty, field) % FieldTurn(ty) == field
  {
    hide DataType.Range, Narrowed;
  }

  /**
   What matches a type is one of its encodings: the canonical one, or for a narrow signed type the
   zero-extended one.
   */
  lemma MatchesExactly(ty: DataType, w: Wire)
    ensures DatatypeMatches(ty, w) <==>
              && Decode(ty, w).Some?
              && (w == CanonicalOf(ty, w) || ((ty.Int8? || ty.Int16?) && w.int32 < ty.Range()))
  {
    if Decode(ty, w).Some? {
      if ty.IsInteger() {
        CanonicalOfInteger(ty, w);
        CanonicalExactly(ty, if w.IntValue? then w.int32 else w.int64);
        if w.IntValue? {
          FitsExactly(w.int32);
        }
        hide Fits, Narrowed, Decode;
      } else {
        hide Narrowed;
      }
    }
  }

  // Rows

  predicate CellOk(c: Column, cell: Option<Scalar>) {
    if cell.None? then c.optional else Has(c.ty, cell.value)
  }

  predicate RowOk(schema: Schema, row: Row) {
    && |row.cells| == |schema.columns|
    && forall i :: 0 <= i < |row.cells| ==> CellOk(schema.columns[i], row.cells[i])
  }

  function CellEncoded(c: Column, cell: Option<Scalar>): Option<Wire>
    requires CellOk(c, cell)
  {
    if cell.Some? then Some(Encode(c.ty, cell.value)) else None
  }

  function RowEncoded(schema: Schema, row: Row): WireRow
    requires RowOk(schema, row)
  {
    seq(|row.cells|, i requires 0 <= i < |row.cells| => CellEncoded(schema.columns[i], row.cells[i]))
  }

  function CellDecoded(c: Column, element: Option<Wire>, index: nat): (r: Result<Option<Scalar>>)
    ensures r.Ok? ==> CellOk(c, r.value)
  {
    match element
    case None => if c.optional then Ok(None) else Err(ElementValueMissing(index))
    case Some(w) =>
      if !DatatypeMatches(c.ty, w) then Err(ElementTypeMismatch(index, c.ty))
      else
        DecodedHasType(c.ty, w);
        Ok(Decode(c.ty, w))
  }

  /** The first column that cannot be decoded decides. */
  function CellsDecoded(schema: Schema, row: WireRow, index: nat): Result<seq<Option<Scalar>>>
    requires index <= |schema.columns| == |row|
    decreases |row| - index
  {
    if index == |row| then Ok([])
    else
      var cell := CellDecoded(schema.columns[index], row[index], index);
      if cell.Err? then Err(cell.error)
      else
        var others := CellsDecoded(schema, row, index + 1);
        if others.Err? then others else Ok([cell.value] + others.value)
  }

  function RowDecoded(schema: Schema, row: WireRow): Result<Row> {
    if |row| != |schema.columns| then Err(RowLengthMismatch(|schema.columns|, |row|))
    else
      var cells := CellsDecoded(schema, row, 0);
      if cells.Err? then Err(cells.error) else Ok(Row(cells.value, schema.skippedDefaults))
  }

  /** Which elements a column takes. */
  predicate ElementOk(c: Column, element: Option<Wire>) {
    if element.None? then c.optional else DatatypeMatches(c.ty, element.value)
  }

  predicate WireRowOk(schema: Schema, row: WireRow) {
    && |row| == |schema.columns|
    && forall i :: 0 <= i < |row| ==> ElementOk(schema.columns[i], row[i])
  }

  lemma ElementDecodes(c: Column, element: Option<Wire>, index: nat)
    ensures CellDecoded(c, element, index).Ok? <==> ElementOk(c, element)
  {
  }

  lemma CellRoundTrips(c: Column, cell: Option<Scalar>, index: nat)
    requires CellOk(c, cell)
    ensures ElementOk(c, CellEncoded(c, cell)) && CellDecoded(c, CellEncoded(c, cell), index) == Ok(cell)
  {
    if cell.Some? {
      DecodeEncode(c.ty, cell.value);
      MatchesExactly(c.ty, Encode(c.ty, cell.value));
      hide DatatypeMatches, Encode, Decode;
    }
  }

  /** A row decodes exactly when every element fits its column, and then to the cells one by one. */
  lemma {:induction false} CellsDecode(schema: Schema, row: WireRow, index: nat)
    requires index <= |schema.columns| == |row|
    ensures var r := CellsDecoded(schema, row, index);
            && (r.Ok? <==> forall i :: index <= i < |row| ==> ElementOk(schema.columns[i], row[i]))
            && (r.Ok? ==> |r.value| == |row| - index)
    ensures var r := CellsDecoded(schema, row, index);
            r.Ok? ==> forall i :: index <= i < |row| ==>
              CellDecoded(schema.columns[i], row[i], i) == Ok(r.value[i - index])
    decreases |row| - index
  {
    hide CellDecoded, ElementOk;
    if index < |row| {
      ElementDecodes(schema.columns[index], row[index], index);
      CellsDecode(schema, row, index + 1);
    }
  }

  lemma RowDecodes(schema: Schema, row: WireRow)
    ensures RowDecoded(schema, row).Ok? <==> WireRowOk(schema, row)
    ensures RowDecoded(schema, row).Ok? ==> RowOk(schema, RowDecoded(schema, row).value)
  {
    if |row| == |schema.columns| {
      CellsDecode(schema, row, 0);
      hide CellsDecoded, CellOk;
      var r := CellsDecoded(schema, row, 0);
      if r.Ok? {
        forall i | 0 <= i < |row| ensures CellOk(schema.columns[i], r.value[i]) {
          assert CellDecoded(schema.columns[i], row[i], i) == Ok(r.value[i]);
        }
      }
    }
  }

  lemma RowRoundTrips(schema: Schema, row: Row)
    requires RowOk(schema, row)
    ensures RowDecoded(schema, RowEncoded(schema, row)) == Ok(Row(row.cells, schema.skippedDefaults))
  {
    var w := RowEncoded(schema, row);
    forall i | 0 <= i < |w|
      ensures ElementOk(schema.columns[i], w[i]) && CellDecoded(schema.columns[i], w[i], i) == Ok(row.cells[i])
    {
      CellRoundTrips(schema.columns[i], row.cells[i], i);
    }
    CellsDecode(schema, w, 0);
    var r := CellsDecoded(schema, w, 0);
    hide CellsDecoded, CellDecoded, ElementOk, RowEncoded;
    assert r.value == row.cells;
  }

  // Datasets

  function NamesOf(schema: Schema): seq<string> {
    seq(|schema.columns|, i requires 0 <= i < |schema.columns| => schema.columns[i].name)
  }

  function TypesOf(schema: Schema): seq<nat> {
    seq(|schema.columns|, i requires 0 <= i < |schema.columns| => schema.columns[i].ty.Code())
  }

  predicate RowsOk(schema: Schema, rows: seq<Row>) {
    forall i :: 0 <= i < |rows| ==> RowOk(schema, rows[i])
  }

  function RowsEncoded(schema: Schema, rows: seq<Row>): seq<WireRow>
    requires RowsOk(schema, rows)
  {
    seq(|rows|, i requires 0 <= i < |rows| => RowEncoded(schema, rows[i]))
  }

  function IntoDataSet(schema: Schema, rows: seq<Row>): Payload
    requires RowsOk(schema, rows) && |schema.columns| < TWO_TO_THE_64
  {
    Payload(Some(|schema.columns|), NamesOf(schema), TypesOf(schema), RowsEncoded(schema, rows))
  }

  function NameMismatch(schema: Schema, names: seq<string>, index: nat): Option<DataSetError>
    requires |names| == |schema.columns| && index <= |names|
    decreases |names| - index
  {
    if index == |names| then None
    else if names[index] != schema.columns[index].name
    then Some(ColumnNameMismatch(index, schema.columns[index].name, names[index]))
    else NameMismatch(schema, names, index + 1)
  }

  function TypeMismatch(schema: Schema, types: seq<nat>, index: nat): Option<DataSetError>
    requires |types| == |schema.columns| && index <= |types|
    decreases |types| - index
  {
    if index == |types| then None
    else if types[index] != schema.columns[index].ty.Code()
    then Some(ColumnTypeMismatch(index, schema.columns[index].ty, types[index]))
    else TypeMismatch(schema, types, index + 1)
  }

  function RowsDecoded(schema: Schema, rows: seq<WireRow>): Result<seq<Row>> {
    if rows == [] then Ok([])
    else
      var row := RowDecoded(schema, rows[0]);
      if row.Err? then Err(row.error)
      else
        var others := RowsDecoded(schema, rows[1..]);
        if others.Err? then others else Ok([row.value] + others.value)
  }

  function HeaderError(schema: Schema, p: Payload): Option<DataSetError> {
    var n := |schema.columns|;
    var counted := if p.numOfColumns.Some? then p.numOfColumns.value else 0;
    if counted != n then Some(ColumnCountMismatch(n, counted))
    else if |p.columns| != n then Some(ColumnCountMismatch(n, |p.columns|))
    else if |p.types| != n then Some(TypesCountMismatch(n, |p.types|))
    else
      var wrongName := NameMismatch(schema, p.columns, 0);
      if wrongName.Some? then wrongName else TypeMismatch(schema, p.types, 0)
  }

  function FromDataSet(schema: Schema, p: Payload): Result<seq<Row>> {
    var wrong := HeaderError(schema, p);
    if wrong.Some? then Err(wrong.value) else RowsDecoded(schema, p.rows)
  }

  lemma {:induction false} NoNameMismatch(schema: Schema, names: seq<string>, index: nat)
    requires |names| == |schema.columns| && index <= |names|
    ensures NameMismatch(schema, names, index).None? <==>
              forall i :: index <= i < |names| ==> names[i] == schema.columns[i].name
    decreases |names| - index
  {
    if index < |names| {
      NoNameMismatch(schema, names, index + 1);
    }
  }

  lemma {:induction false} NoTypeMismatch(schema: Schema, types: seq<nat>, index: nat)
    requires |types| == |schema.columns| && index <= |types|
    ensures TypeMismatch(schema, types, index).None? <==>
              forall i :: index <= i < |types| ==> types[i] == schema.columns[i].ty.Code()
    decreases |types| - index
  {
    if index < |types| {
      NoTypeMismatch(schema, types, index + 1);
    }
  }

  /** What the header of an acceptable dataset says: nothing but the schema. */
  lemma HeaderAccepted(schema: Schema, p: Payload)
    ensures HeaderError(schema, p).None? <==>
              && (if p.numOfColumns.Some? then p.numOfColumns.value == |schema.columns| else schema.columns == [])
              && p.columns == NamesOf(schema) && p.types == TypesOf(schema)
  {
    if |p.columns| == |schema.columns| == |p.types| {
      NoNameMismatch(schema, p.columns, 0);
      NoTypeMismatch(schema, p.types, 0);
    }
    hide DataType.Code;
  }

  lemma {:induction false} RowsDecode(schema: Schema, rows: seq<WireRow>)
    ensures var r := RowsDecoded(schema, rows);
            && (r.Ok? <==> forall i :: 0 <= i < |rows| ==> WireRowOk(schema, rows[i]))
            && (r.Ok? ==> |r.value| == |rows| && RowsOk(schema, r.value))
    ensures var r := RowsDecoded(schema, rows);
            r.Ok? ==> forall i :: 0 <= i < |rows| ==> RowDecoded(schema, rows[i]) == Ok(r.value[i])
  {
    hide RowDecoded, WireRowOk, RowOk;
    if rows != [] {
      RowDecodes(schema, rows[0]);
      RowsDecode(schema, rows[1..]);
      assert forall i :: 0 < i < |rows| ==> rows[i] == rows[1..][i - 1];
    }
  }

  /** The decoder accepts exactly the datasets whose counts, names, types, row lengths and element encodings fit. */
  lemma AcceptsExactly(schema: Schema, p: Payload)
    ensures FromDataSet(schema, p).Ok? <==>
              && (if p.numOfColumns.Some? then p.numOfColumns.value == |schema.columns| else schema.columns == [])
              && p.columns == NamesOf(schema) && p.types == TypesOf(schema)
              && forall i :: 0 <= i < |p.rows| ==> WireRowOk(schema, p.rows[i])
    ensures FromDataSet(schema, p).Ok? ==> RowsOk(schema, FromDataSet(schema, p).value)
  {
    HeaderAccepted(schema, p);
    RowsDecode(schema, p.rows);
    hide HeaderError, RowsDecoded, WireRowOk, RowOk;
  }

  // What is refused, and why

  predicate CountsFit(schema: Schema, p: Payload) {
    var n := |schema.columns|;
    (if p.numOfColumns.Some? then p.numOfColumns.value else 0) == n && |p.columns| == n && |p.types| == n
  }

  /** Counts come first: the stated number of columns, that of names, and that of types. */
  lemma WrongCountsDecide(schema: Schema, p: Payload)
    requires !CountsFit(schema, p)
    ensures var n := |schema.columns|;
            var stated := if p.numOfColumns.Some? then p.numOfColumns.value else 0;
            FromDataSet(schema, p) == Err(
              if stated != n then ColumnCountMismatch(n, stated)
              else if |p.columns| != n then ColumnCountMismatch(n, |p.columns|)
              else TypesCountMismatch(n, |p.types|))
  {
  }

  lemma {:induction false} FirstNameMismatch(schema: Schema, names: seq<string>, index: nat, i: nat)
    requires |names| == |schema.columns| && index <= i < |names|
    requires names[i] != schema.columns[i].name && forall j :: index <= j < i ==> names[j] == schema.columns[j].name
    ensures NameMismatch(schema, names, index) == Some(ColumnNameMismatch(i, schema.columns[i].name, names[i]))
    decreases |names| - index
  {
    if index < i {
      FirstNameMismatch(schema, names, index + 1, i);
    }
  }

  lemma {:induction false} FirstTypeMismatch(schema: Schema, types: seq<nat>, index: nat, i: nat)
    requires |types| == |schema.columns| && index <= i < |types|
    requires types[i] != schema.columns[i].ty.Code()
    requires forall j :: index <= j < i ==> types[j] == schema.columns[j].ty.Code()
    ensures TypeMismatch(schema, types, index) == Some(ColumnTypeMismatch(i, schema.columns[i].ty, types[i]))
    decreases |types| - index
  {
    if index < i {
      FirstTypeMismatch(schema, types, index + 1, i);
    }
  }

  /** Then the first wrong name decides, and then the first wrong type. */
  lemma FirstWrongColumnDecides(schema: Schema, p: Payload, i: nat)
    requires CountsFit(schema, p) && i < |schema.columns|
    ensures && p.columns[i] != schema.columns[i].name
            && (forall j :: 0 <= j < i ==> p.columns[j] == schema.columns[j].name) ==>
              FromDataSet(schema, p) == Err(ColumnNameMismatch(i, schema.columns[i].name, p.columns[i]))
    ensures && p.columns == NamesOf(schema) && p.types[i] != schema.columns[i].ty.Code()
            && (forall j :: 0 <= j < i ==> p.types[j] == schema.columns[j].ty.Code()) ==>
              FromDataSet(schema, p) == Err(ColumnTypeMismatch(i, schema.columns[i].ty, p.types[i]))
  {
    hide DataType.Code, NameMismatch, TypeMismatch;
    if p.columns[i] != schema.columns[i].name && forall j :: 0 <= j < i ==> p.columns[j] == schema.columns[j].name {
      FirstNameMismatch(schema, p.columns, 0, i);
    }
    NoNameMismatch(schema, p.columns, 0);
    if && p.types[i] != schema.columns[i].ty.Code()
       && forall j :: 0 <= j < i ==> p.types[j] == schema.columns[j].ty.Code()
    {
      FirstTypeMismatch(schema, p.types, 0, i);
    }
  }

  lemma {:induction false} FirstWrongElement(schema: Schema, row: WireRow, index: nat, i: nat)
    requires index <= i < |schema.columns| == |row| && !ElementOk(schema.columns[i], row[i])
    requires forall j :: index <= j < i ==> ElementOk(schema.columns[j], row[j])
    ensures CellsDecoded(schema, row, index) ==
              Err(if row[i].None? then ElementValueMissing(i) else ElementTypeMismatch(i, schema.columns[i].ty))
    decreases |row| - index
  {
    hide DatatypeMatches;
    if index < i {
      ElementDecodes(schema.columns[index], row[index], index);
      hide ElementOk, CellDecoded;
      FirstWrongElement(schema, row, index + 1, i);
    }
  }

  /** A row is refused for its length, or else for its first element that does not fit. */
  lemma RowsAreRefusedExactly(schema: Schema, row: WireRow, i: nat)
    ensures |row| != |schema.columns| ==> RowDecoded(schema, row) == Err(RowLengthMismatch(|schema.columns|, |row|))
    ensures && |row| == |schema.columns| && i < |row| && !ElementOk(schema.columns[i], row[i])
            && (forall j :: 0 <= j < i ==> ElementOk(schema.columns[j], row[j])) ==>
              RowDecoded(schema, row) ==
                Err(if row[i].None? then ElementValueMissing(i) else ElementTypeMismatch(i, schema.columns[i].ty))
  {
    hide ElementOk, CellsDecoded;
    if && |row| == |schema.columns| && i < |row| && !ElementOk(schema.columns[i], row[i])
       && forall j :: 0 <= j < i ==> ElementOk(schema.columns[j], row[j]) {
      FirstWrongElement(schema, row, 0, i);
    }
  }

  lemma {:induction false} FirstWrongRow(schema: Schema, rows: seq<WireRow>, i: nat)
    requires i < |rows| && !WireRowOk(schema, rows[i]) && forall j :: 0 <= j < i ==> WireRowOk(schema, rows[j])
    ensures RowDecoded(schema, rows[i]).Err? && RowsDecoded(schema, rows) == Err(RowDecoded(schema, rows[i]).error)
  {
    RowDecodes(schema, rows[0]);
    RowDecodes(schema, rows[i]);
    hide WireRowOk, RowDecoded, RowOk;
    if i > 0 {
      assert forall j :: 0 <= j < i - 1 ==> rows[1..][j] == rows[j + 1];
      FirstWrongRow(schema, rows[1..], i - 1);
    }
  }

  /** With the header right, the first row that does not fit decides. */
  lemma FirstWrongRowDecides(schema: Schema, p: Payload, i: nat)
    requires HeaderError(schema, p).None? && i < |p.rows| && !WireRowOk(schema, p.rows[i])
    requires forall j :: 0 <= j < i ==> WireRowOk(schema, p.rows[j])
    ensures RowDecoded(schema, p.rows[i]).Err? && FromDataSet(schema, p) == Err(RowDecoded(schema, p.rows[i]).error)
  {
    hide HeaderError, WireRowOk, RowDecoded, RowsDecoded;
    FirstWrongRow(schema, p.rows, i);
  }

  function Reset(schema: Schema, rows: seq<Row>): seq<Row> {
    seq(|rows|, i requires 0 <= i < |rows| => Row(rows[i].cells, schema.skippedDefaults))
  }

  /** Rows survive, for every schema, but for skipped fields, which are at their defaults. */
  lemma RowsRoundTrip(schema: Schema, rows: seq<Row>)
    requires RowsOk(schema, rows) && |schema.columns| < TWO_TO_THE_64
    ensures FromDataSet(schema, IntoDataSet(schema, rows)) == Ok(Reset(schema, rows))
  {
    var p := IntoDataSet(schema, rows);
    HeaderAccepted(schema, p);
    RowsDecode(schema, p.rows);
    hide RowDecoded, RowEncoded, WireRowOk, RowOk, HeaderError, RowsDecoded;
    forall i | 0 <= i < |rows|
      ensures WireRowOk(schema, p.rows[i]) && RowDecoded(schema, p.rows[i]) == Ok(Reset(schema, rows)[i])
    {
      RowRoundTrips(schema, rows[i]);
      RowDecodes(schema, p.rows[i]);
    }
    assert RowsDecoded(schema, p.rows).value == Reset(schema, rows);
  }

  /** Decoding, encoding and decoding again is decoding once, although narrow integers have two accepted encodings. */
  lemma DecodeEncodeDecode(schema: Schema, p: Payload)
    requires |schema.columns| < TWO_TO_THE_64 && FromDataSet(schema, p).Ok?
    ensures RowsOk(schema, FromDataSet(schema, p).value)
    ensures FromDataSet(schema, IntoDataSet(schema, FromDataSet(schema, p).value)) == FromDataSet(schema, p)
  {
    AcceptsExactly(schema, p);
    RowsDecode(schema, p.rows);
    var rows := FromDataSet(schema, p).value;
    RowsRoundTrip(schema, rows);
    forall i | 0 <= i < |rows| ensures rows[i].skipped == schema.skippedDefaults {
      assert RowDecoded(schema, p.rows[i]) == Ok(rows[i]);
    }
    hide RowsDecoded, RowDecoded, HeaderError, IntoDataSet, RowOk;
    assert Reset(schema, rows) == rows;
  }
}
