/** The layout `write_to_csv` gives its output: a header row of the record's
    field names, then one row per record holding `astuple(record)`. Cells keep
    the Python value they hold; their rendering as text is not modelled. */
module Csv {
  import opened Wrappers
  import opened Veterinarians

  /** A value in a row: a string, `None`, an integer or a float (kept as the
      token it was parsed from). */
  datatype Cell = StrCell(text: string) | NoneCell | IntCell(number: int) | FloatCell(token: string)

  /** `VETERINARIAN_FIELDS`: the record's field names in declaration order. */
  const FieldNames: seq<string> :=
    ["name", "clinic", "reception_time", "address", "rating", "num_reviews"]

  /** The value of the field called `field`, looked up by name. */
  function FieldByName(v: Veterinarian, field: string): Option<Cell> {
    match field
    case "name" => Some(StrCell(v.name))
    case "clinic" => Some(if v.clinic.Some? then StrCell(v.clinic.value) else NoneCell)
    case "reception_time" => Some(StrCell(v.receptionTime))
    case "address" => Some(StrCell(v.address))
    case "rating" => Some(IntCell(v.rating))
    case "num_reviews" => Some(FloatCell(v.numReviews))
    case _ => None
  }

  /** The header row: column `i` names the field that column `i` of every
      record's row holds. */
  function HeaderRow(): (row: seq<Cell>)
    ensures |row| == |FieldNames|
    ensures forall v: Veterinarian, i :: 0 <= i < |row| ==>
      row[i].StrCell? && FieldByName(v, row[i].text) == Some(AsTuple(v)[i])
  {
    var header := seq(|FieldNames|, i requires 0 <= i < |FieldNames| => StrCell(FieldNames[i]));
    assert forall v: Veterinarian, i :: 0 <= i < |header| ==>
      header[i].StrCell? && FieldByName(v, header[i].text) == Some(AsTuple(v)[i])
    by {
      forall v: Veterinarian {
        ColumnsFollowHeader(v);
      }
    }
    header
  }

  /** `astuple(v)`: the record's values in field declaration order. */
  function AsTuple(v: Veterinarian): (row: seq<Cell>)
    ensures |row| == |FieldNames|
  {
    [ StrCell(v.name),
      if v.clinic.Some? then StrCell(v.clinic.value) else NoneCell,
      StrCell(v.receptionTime),
      StrCell(v.address),
      IntCell(v.rating),
      FloatCell(v.numReviews) ]
  }

  /** Column `i` of a record's row holds the field the header names in
      column `i`: the header and the rows agree on the field order. */
  lemma ColumnsFollowHeader(v: Veterinarian)
    ensures forall i :: 0 <= i < |FieldNames| ==> FieldByName(v, FieldNames[i]) == Some(AsTuple(v)[i])
  {
  }

  /** The rows `write_to_csv` emits: the header, then one row per record in
      the order given; every row is as wide as the header. */
  function WriteRows(vs: seq<Veterinarian>): (table: seq<seq<Cell>>)
    ensures |table| == |vs| + 1
    ensures table[0] == HeaderRow()
    ensures forall i :: 0 <= i < |table| ==> |table[i]| == |FieldNames|
    ensures forall i :: 0 <= i < |vs| ==> table[i + 1] == AsTuple(vs[i])
  {
    [HeaderRow()] + DataRows(vs)
  }

  /** One `astuple` row per record, in order. */
  function DataRows(vs: seq<Veterinarian>): (rows: seq<seq<Cell>>)
    ensures |rows| == |vs|
    ensures forall i :: 0 <= i < |vs| ==> rows[i] == AsTuple(vs[i])
  {
    if vs == [] then [] else [AsTuple(vs[0])] + DataRows(vs[1..])
  }

  /** Reads one data row back into a record, if it has the record's shape. */
  function FromTuple(row: seq<Cell>): Option<Veterinarian> {
    if |row| == |FieldNames|
       && row[0].StrCell? && (row[1].StrCell? || row[1].NoneCell?)
       && row[2].StrCell? && row[3].StrCell?
       && row[4].IntCell? && row[4].number >= 0 && row[5].FloatCell?
    then
      Some(Veterinarian(
        row[0].text,
        if row[1].StrCell? then Some(row[1].text) else None,
        row[2].text,
        row[3].text,
        row[4].number,
        row[5].token))
    else None
  }

  function ReadBody(rows: seq<seq<Cell>>): Option<seq<Veterinarian>> {
    if rows == [] then Some([])
    else
      var head := FromTuple(rows[0]);
      var tail := ReadBody(rows[1..]);
      if head.Some? && tail.Some? then Some([head.value] + tail.value) else None
  }

  /** Reads a written table back: the header must be the field names. */
  function ReadRows(table: seq<seq<Cell>>): Option<seq<Veterinarian>> {
    if table == [] || table[0] != HeaderRow() then None else ReadBody(table[1..])
  }

  /** Every record survives being laid out as a row. */
  lemma TupleRoundTrip(v: Veterinarian)
    ensures FromTuple(AsTuple(v)) == Some(v)
  {
  }

  /** Reading back what `write_to_csv` lays out yields the records written,
      in order. */
  lemma {:induction false} TableRoundTrip(vs: seq<Veterinarian>)
    ensures ReadRows(WriteRows(vs)) == Some(vs)
  {
    BodyRoundTrip(vs);
    assert WriteRows(vs)[1..] == DataRows(vs);
  }

  lemma {:induction false} BodyRoundTrip(vs: seq<Veterinarian>)
    ensures ReadBody(DataRows(vs)) == Some(vs)
  {
    if vs != [] {
      var rest := DataRows(vs[1..]);
      assert DataRows(vs) == [AsTuple(vs[0])] + rest;
      TupleRoundTrip(vs[0]);
      BodyRoundTrip(vs[1..]);
      ReadBodyCons(AsTuple(vs[0]), rest);
      assert [vs[0]] + vs[1..] == vs;
    }
  }

  /** Reading a row in front of further rows reads the row, then the rest. */
  lemma ReadBodyCons(row: seq<Cell>, rows: seq<seq<Cell>>)
    ensures ReadBody([row] + rows) ==
      if FromTuple(row).Some? && ReadBody(rows).Some?
      then Some([FromTuple(row).value] + ReadBody(rows).value) else None
  {
  }
}
