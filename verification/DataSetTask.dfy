/** Datasets as they are built and taken apart, row by row. */
module DataSetTask {
  import opened Bounded
  import opened Options
  import opened Values
  import opened DataSets

  /** The untyped wrapper: neither columns nor rows are checked. */
  class DataSet {
    var payload: Payload

    constructor ()
      ensures payload == Payload(None, [], [], [])
    {
      payload := Payload(None, [], [], []);
    }

    method Init(columns: seq<string>, types: seq<nat>)
      requires |columns| < TWO_TO_THE_64
      modifies this
      ensures payload == Payload(Some(|columns|), columns, types, old(payload.rows))
    {
      payload := payload.(numOfColumns := Some(|columns|), columns := columns, types := types);
    }

    method AddRow(row: WireRow)
      modifies this
      ensures payload == old(payload).(rows := old(payload.rows) + [row])
    {
      payload := payload.(rows := payload.rows + [row]);
    }
  }

  class TypedDataSet {
    const schema: Schema
    var rows: seq<Row>

    ghost predicate Valid()
      reads this
    {
      RowsOk(schema, rows) && |schema.columns| < TWO_TO_THE_64
    }

    constructor (schema: Schema)
      requires |schema.columns| < TWO_TO_THE_64
      ensures Valid() && this.schema == schema && rows == []
    {
      this.schema, rows := schema, [];
    }

    method AddRow(row: Row)
      requires Valid() && RowOk(schema, row)
      modifies this`rows
      ensures Valid() && rows == old(rows) + [row]
    {
      rows := rows + [row];
    }

    /** A row that does not fit leaves the dataset as it was. */
    method TryAddRow(row: WireRow) returns (error: Option<DataSetError>)
      requires Valid()
      modifies this`rows
      ensures Valid() && (error.None? <==> WireRowOk(schema, row))
      ensures match RowDecoded(schema, row)
              case Ok(decoded) => error == None && rows == old(rows) + [decoded]
              case Err(e) => error == Some(e) && rows == old(rows)
    {
      RowDecodes(schema, row);
      var r := TryFromRow(schema, row);
      if r.Err? { return Some(r.error); }
      rows := rows + [r.value];
      return None;
    }

    method ToDataSet() returns (d: DataSet)
      requires Valid()
      ensures fresh(d) && d.payload == IntoDataSet(schema, rows)
    {
      d := new DataSet();
      d.Init(NamesOf(schema), TypesOf(schema));
      for i := 0 to |rows|
        invariant fresh(d)
        invariant d.payload ==
                    Payload(Some(|schema.columns|), NamesOf(schema), TypesOf(schema), RowsEncoded(schema, rows)[..i])
      {
        d.AddRow(RowEncoded(schema, rows[i]));
      }
      assert RowsEncoded(schema, rows)[..|rows|] == RowsEncoded(schema, rows);
    }
  }

  method TryFromRow(schema: Schema, row: WireRow) returns (r: Result<Row>)
    ensures r == RowDecoded(schema, row)
  {
    if |row| != |schema.columns| { return Err(RowLengthMismatch(|schema.columns|, |row|)); }
    var cells: seq<Option<Scalar>> := [];
    ghost var all := CellsDecoded(schema, row, 0);
    assert all.Ok? ==> cells + all.value == all.value;
    for i := 0 to |row|
      invariant var rest := CellsDecoded(schema, row, i);
                CellsDecoded(schema, row, 0) == if rest.Ok? then Ok(cells + rest.value) else rest
    {
      var cell := CellDecoded(schema.columns[i], row[i], i);
      if cell.Err? { return Err(cell.error); }
      ghost var before := cells;
      cells := cells + [cell.value];
      ghost var rest := CellsDecoded(schema, row, i + 1);
      if rest.Ok? {
        assert cells + rest.value == before + ([cell.value] + rest.value);
      }
    }
    assert cells + [] == cells;
    return Ok(Row(cells, schema.skippedDefaults));
  }

  method TryFromDataSet(schema: Schema, p: Payload) returns (r: Result<seq<Row>>)
    ensures r == FromDataSet(schema, p)
  {
    var n := |schema.columns|;
    var counted := if p.numOfColumns.Some? then p.numOfColumns.value else 0;
    if counted != n { return Err(ColumnCountMismatch(n, counted)); }
    if |p.columns| != n { return Err(ColumnCountMismatch(n, |p.columns|)); }
    if |p.types| != n { return Err(TypesCountMismatch(n, |p.types|)); }
    for i := 0 to n
      invariant NameMismatch(schema, p.columns, 0) == NameMismatch(schema, p.columns, i)
    {
      if p.columns[i] != schema.columns[i].name {
        return Err(ColumnNameMismatch(i, schema.columns[i].name, p.columns[i]));
      }
    }
    for i := 0 to n
      invariant TypeMismatch(schema, p.types, 0) == TypeMismatch(schema, p.types, i)
    {
      if p.types[i] != schema.columns[i].ty.Code() {
        return Err(ColumnTypeMismatch(i, schema.columns[i].ty, p.types[i]));
      }
    }
    var rows: seq<Row> := [];
    ghost var all := RowsDecoded(schema, p.rows);
    assert p.rows[0..] == p.rows && (all.Ok? ==> rows + all.value == all.value);
    for i := 0 to |p.rows|
      invariant var rest := RowsDecoded(schema, p.rows[i..]);
                RowsDecoded(schema, p.rows) == if rest.Ok? then Ok(rows + rest.value) else rest
    {
      assert p.rows[i..][0] == p.rows[i] && p.rows[i..][1..] == p.rows[i + 1..];
      var row := TryFromRow(schema, p.rows[i]);
      if row.Err? { return Err(row.error); }
      ghost var before := rows;
      rows := rows + [row.value];
      ghost var rest := RowsDecoded(schema, p.rows[i + 1..]);
      if rest.Ok? {
        assert rows + rest.value == before + ([row.value] + rest.value);
      }
    }
    assert rows + [] == rows;
    return Ok(rows);
  }
}
