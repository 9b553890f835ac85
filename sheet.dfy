/** The worksheet clean-up `read_excel_to_json` does before grouping
    (app.py:91-106): header names, dropping blank rows, and turning empty
    cells into empty strings. Reading the workbook itself is done by
    openpyxl and is outside the model: a sheet arrives here as its header
    row and its data rows. */
module Sheet {
  import opened Text
  import opened Seqs

  /** One issue as a dictionary from column name to cell text. */
  type Record = map<string, string>

  /** A cell as openpyxl gives it: `None`, or a value (shown as its text). */
  datatype Cell = Blank | Filled(text: string)

  const UnnamedPrefix: string := "Unnamed_"

  /** The column name for header cell number `i` (counting from 0). */
  function HeaderName(cell: Cell, i: nat): string
  {
    match cell
    case Filled(t) => t
    case Blank => UnnamedPrefix + NatToString(i)
  }

  /** The column names, one per header cell: a filled cell gives its own
      text, an empty one `Unnamed_<i>`, from which its position can be read
      back. */
  function Headers(headerRow: seq<Cell>): (hs: seq<string>)
    ensures |hs| == |headerRow|
    ensures forall i :: 0 <= i < |hs| && headerRow[i].Filled? ==> hs[i] == headerRow[i].text
    ensures forall i :: 0 <= i < |hs| && headerRow[i].Blank? ==>
      UnnamedPrefix <= hs[i] && AllDigits(hs[i][|UnnamedPrefix|..]) &&
      DigitsValue(hs[i][|UnnamedPrefix|..]) == i
    ensures forall i, j :: 0 <= i < j < |hs| && headerRow[i].Blank? && headerRow[j].Blank? ==>
      hs[i] != hs[j]
  {
    var hs := seq(|headerRow|, i requires 0 <= i < |headerRow| => HeaderName(headerRow[i], i));
    assert forall i :: 0 <= i < |hs| && headerRow[i].Blank? ==>
      hs[i][|UnnamedPrefix|..] == NatToString(i) by {
      forall i | 0 <= i < |hs| && headerRow[i].Blank?
        ensures hs[i][|UnnamedPrefix|..] == NatToString(i)
      {
        assert hs[i] == UnnamedPrefix + NatToString(i);
      }
    }
    forall i | 0 <= i < |hs| && headerRow[i].Blank?
      ensures AllDigits(NatToString(i)) && DigitsValue(NatToString(i)) == i
    {
      NatToStringRoundTrip(i);
    }
    hs
  }

  /** `any(cell is not None for cell in row)`. */
  predicate HasValue(row: seq<Cell>)
  {
    exists j | 0 <= j < |row| :: row[j].Filled?
  }

  /** The data rows that are kept: those with at least one cell that is not
      `None`, in their original order. */
  function NonBlankRows(rows: seq<seq<Cell>>): (kept: seq<seq<Cell>>)
    ensures |kept| <= |rows|
  {
    if rows == [] then []
    else NonBlankRows(rows[..|rows| - 1]) + (if HasValue(rows[|rows| - 1]) then [rows[|rows| - 1]] else [])
  }

  /** The append loop of app.py:94-96. */
  method KeepNonBlankRows(rows: seq<seq<Cell>>) returns (dataRows: seq<seq<Cell>>)
    ensures dataRows == NonBlankRows(rows)
  {
    dataRows := [];
    for i := 0 to |rows|
      invariant dataRows == NonBlankRows(rows[..i])
    {
      assert rows[..i + 1][..i] == rows[..i];
      if HasValue(rows[i]) {
        dataRows := dataRows + [rows[i]];
      }
    }
    assert rows[..|rows|] == rows;
  }

  /** A row is kept exactly when it has a value; every kept row comes from
      the input. */
  lemma {:induction false} NonBlankRowsMembers(rows: seq<seq<Cell>>)
    ensures forall row :: row in NonBlankRows(rows) <==> row in rows && HasValue(row)
  {
    if rows != [] {
      var pre, last := rows[..|rows| - 1], rows[|rows| - 1];
      NonBlankRowsMembers(pre);
      assert rows == pre + [last];
    }
  }

  /** `df.dropna(how='all')` (app.py:102) drops the rows whose cells are all
      missing; after the loop above none is left, so it changes nothing. */
  lemma {:induction false} DropAllBlankIsNoOp(rows: seq<seq<Cell>>)
    ensures NonBlankRows(NonBlankRows(rows)) == NonBlankRows(rows)
  {
    if rows != [] {
      var pre, last := rows[..|rows| - 1], rows[|rows| - 1];
      DropAllBlankIsNoOp(pre);
      var kept := NonBlankRows(pre);
      assert rows[..|rows| - 1] == pre;
      if HasValue(last) {
        assert NonBlankRows(rows) == kept + [last];
        assert (kept + [last])[..|kept|] == kept;
        assert (kept + [last])[|kept|] == last;
      } else {
        assert NonBlankRows(rows) == kept;
      }
    }
  }

  /** `fillna('')` and `replace({None: ''})`: a missing cell becomes "". */
  function CellText(c: Cell): string
  {
    match c
    case Blank => ""
    case Filled(t) => t
  }

  predicate LastOccurrence(headers: seq<string>, i: nat)
    requires i < |headers|
  {
    forall j :: i < j < |headers| ==> headers[j] != headers[i]
  }

  /** One row as a record (`to_dict('records')`): a key per column name,
      later columns overriding earlier ones of the same name. */
  function RowToRecord(headers: seq<string>, row: seq<Cell>): (r: Record)
    requires |row| == |headers|
    ensures r.Keys == set h | h in headers
  {
    if headers == [] then map[]
    else
      var n := |headers| - 1;
      assert headers == headers[..n] + [headers[n]];
      RowToRecord(headers[..n], row[..n])[headers[n] := CellText(row[n])]
  }

  /** When a column name is repeated, the record keeps the rightmost
      column's cell; every other column's cell is kept as its text. */
  lemma {:induction false} RowToRecordValues(headers: seq<string>, row: seq<Cell>, i: nat)
    requires |row| == |headers| && i < |headers|
    requires LastOccurrence(headers, i)
    ensures RowToRecord(headers, row)[headers[i]] == CellText(row[i])
  {
    var n := |headers| - 1;
    if i < n {
      var hs, cells := headers[..n], row[..n];
      assert hs[i] == headers[i] && cells[i] == row[i];
      assert headers[n] != headers[i];
      assert LastOccurrence(hs, i) by {
        forall j | i < j < n
          ensures hs[j] != hs[i]
        {
          assert hs[j] == headers[j];
        }
      }
      RowToRecordValues(hs, cells, i);
    }
  }

  /** Every data row has one cell per header: openpyxl pads each row to the
      sheet's width. */
  predicate Rectangular(headerRow: seq<Cell>, rows: seq<seq<Cell>>)
  {
    forall i :: 0 <= i < |rows| ==> |rows[i]| == |headerRow|
  }

  /** The cleaned table: column names and one record per kept row. */
  datatype Table = Table(columns: seq<string>, records: seq<Record>)

  function Records(headers: seq<string>, rows: seq<seq<Cell>>): (rs: seq<Record>)
    requires forall i :: 0 <= i < |rows| ==> |rows[i]| == |headers|
    ensures |rs| == |rows|
  {
    seq(|rows|, i requires 0 <= i < |rows| => RowToRecord(headers, rows[i]))
  }

  lemma {:induction false} NonBlankRowsRectangular(headerRow: seq<Cell>, rows: seq<seq<Cell>>)
    requires Rectangular(headerRow, rows)
    ensures Rectangular(headerRow, NonBlankRows(rows))
  {
    NonBlankRowsMembers(rows);
    var kept := NonBlankRows(rows);
    forall i | 0 <= i < |kept|
      ensures |kept[i]| == |headerRow|
    {
      assert kept[i] in rows;
    }
  }

  /** app.py:91-106: the table pandas holds before grouping. */
  function Normalise(headerRow: seq<Cell>, rows: seq<seq<Cell>>): (t: Table)
    requires Rectangular(headerRow, rows)
    ensures t.columns == Headers(headerRow)
    ensures |t.records| == |NonBlankRows(rows)| <= |rows|
    ensures forall i :: 0 <= i < |t.records| ==> t.records[i].Keys == set h | h in t.columns
  {
    NonBlankRowsRectangular(headerRow, rows);
    Table(Headers(headerRow), Records(Headers(headerRow), NonBlankRows(rows)))
  }
}
