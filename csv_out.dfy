/**
 * The CSV file the drivers write through csv.DictWriter: created lazily, so
 * the header goes out just before the first row, and never for a run that
 * produces no rows. Quoting and encoding are not modelled: a line is the
 * list of its cells.
 */
module CsvOut {
  import opened Rows
  import opened Seqs

  /** One line of the file: the writeheader() line, or one writerow() line. */
  datatype Line = HeaderLine(names: seq<string>) | DataLine(cells: seq<string>)

  /** The data lines of some rows, in order. */
  function DataLines(rows: seq<Row>): seq<Line> {
    if rows == [] then [] else [DataLine(Cells(rows[0]))] + DataLines(rows[1..])
  }

  /** The whole file after some rows went through the lazily created writer. */
  function Csv(rows: seq<Row>): seq<Line> {
    if rows == [] then [] else [HeaderLine(Header())] + DataLines(rows)
  }

  /** There is one data line per row, holding that row's cells. */
  lemma {:induction false} DataLinesShape(rows: seq<Row>)
    ensures |DataLines(rows)| == |rows|
    ensures forall i :: 0 <= i < |rows| ==> DataLines(rows)[i] == DataLine(Cells(rows[i]))
  {
    if rows != [] {
      DataLinesShape(rows[1..]);
    }
  }

  lemma {:induction false} DataLinesAppend(a: seq<Row>, b: seq<Row>)
    ensures DataLines(a + b) == DataLines(a) + DataLines(b)
  {
    if a == [] {
      AppendNothing(b);
    } else {
      ConsAppend(a, b);
      DataLinesAppend(a[1..], b);
      AppendAssoc([DataLine(Cells(a[0]))], DataLines(a[1..]), DataLines(b));
    }
  }

  /** The header is written exactly once, as the first line, when and only when
      there is a row; every other line is a data line of the header's width. */
  lemma CsvShape(rows: seq<Row>)
    ensures |Csv(rows)| == (if rows == [] then 0 else |rows| + 1)
    ensures forall i :: 0 <= i < |Csv(rows)| ==> (Csv(rows)[i].HeaderLine? <==> i == 0)
    ensures rows != [] ==> Csv(rows)[0] == HeaderLine(Header())
    ensures forall i :: 0 <= i < |rows| ==> Csv(rows)[i + 1] == DataLine(Cells(rows[i]))
    ensures forall i :: 0 <= i < |Csv(rows)| && Csv(rows)[i].DataLine? ==> |Csv(rows)[i].cells| == |Header()|
  {
    DataLinesShape(rows);
  }

  /** Writing more rows: the header is added only if none was written before
      and the new batch is not empty; the earlier lines are kept. */
  lemma CsvAppend(a: seq<Row>, b: seq<Row>)
    ensures Csv(a + b) == Csv(a) + (if a == [] && b != [] then [HeaderLine(Header())] else []) + DataLines(b)
  {
    if a == [] {
      AppendNothing(b);
      if b == [] {
        assert DataLines(b) == [];
      } else {
        AppendNothing([HeaderLine(Header())]);
      }
    } else if b == [] {
      AppendNothing(a);
      AppendNothing(Csv(a));
      assert DataLines(b) == [];
    } else {
      DataLinesAppend(a, b);
      AppendAssoc([HeaderLine(Header())], DataLines(a), DataLines(b));
      AppendNothing(Csv(a));
    }
  }

}
