/**
 * The earlier, question-only converter: a generator over the end events of
 * `<debate>` elements in no namespace that yields the question rows of every
 * such element, and a writer that creates the CSV lazily from the first row's
 * keys. Nothing here catches the xpath error: it ends the generator, and with
 * it the writer, after the rows already written.
 */
module IterCsv {
  import opened Wrappers
  import opened Tree
  import opened Rows
  import opened Flatten
  import opened CsvOut
  import opened Seqs
  import Stream

  /** The rows the generator yields for one fired element: the question rows
      of its legal document, whatever its type. */
  function QuestionBatch(debate: Element): Result<seq<Row>, FlattenError> {
    QuestionRows(DebateBase(debate), Get(debate, "type", ""), FindAkn(debate))
  }

  /** What the generator has produced: the rows yielded, in order, and the
      error that ended it, if one did. */
  datatype Yield = Yield(rows: seq<Row>, error: Option<FlattenError>)

  /** The generator over some events, with `batch` giving each event's rows. */
  function Generated(events: seq<Element>, batch: Stream.Flattener): Yield
  {
    if events == [] then Yield([], None)
    else
      var before := Generated(events[..|events| - 1], batch);
      if before.error.Some? then before
      else
        var r := batch(events[|events| - 1]);
        if r.Failure? then Yield(before.rows, Some(r.error))
        else Yield(before.rows + r.value, None)
  }

  // ---------------------------------------------------------------- the generator and main

  /** The body of parse_file for one event: the base row, the legal document,
      and the zip_longest loop for a `questions` record. */
  method ParseDebate(debate: Element) returns (r: Result<seq<Row>, FlattenError>)
    ensures r == QuestionBatch(debate)
  {
    var akn := FindAkn(debate);
    var base := DebateBase(debate);
    if Get(debate, "type", "") == "questions" && akn.Some? {
      if PrefixUnbound(akn.value) {
        return Failure(UndefinedNamespacePrefix);
      }
      var rows := AppendQuestions([], base, akn.value);
      AppendNothing(QuestionRows(base, "questions", akn).value);
      return Success(rows);
    }
    return Success([]);
  }

  /** main: every yielded row goes to the writer, which is created, and the
      header written, just before the first row. */
  method WriteQuestions(events: seq<Element>) returns (lines: seq<Line>, error: Option<FlattenError>)
    ensures lines == Csv(Generated(events, QuestionBatch).rows)
    ensures error == Generated(events, QuestionBatch).error
  {
    lines := [];
    var ready := false;
    ghost var written: seq<Row> := [];
    for k := 0 to |events|
      invariant Generated(events[..k], QuestionBatch) == Yield(written, None)
      invariant lines == Csv(written) && (ready <==> written != [])
    {
      var r := ParseDebate(events[k]);
      GeneratedSnoc(events, k, QuestionBatch);
      if r.Failure? {
        GeneratedStops(events, k + 1, QuestionBatch);
        return lines, Some(r.error);
      }
      lines, ready := WriteRows(lines, ready, written, r.value);
      written := written + r.value;
    }
    TakeAll(events);
    return lines, None;
  }

  /** The inner `for row in parse_file(...)` passes for the rows of one event. */
  method WriteRows(lines0: seq<Line>, ready0: bool, ghost written: seq<Row>, rows: seq<Row>)
    returns (lines: seq<Line>, ready: bool)
    requires lines0 == Csv(written) && (ready0 <==> written != [])
    ensures lines == Csv(written + rows) && (ready <==> written + rows != [])
  {
    lines, ready := lines0, ready0;
    AppendNothing(written);
    for j := 0 to |rows|
      invariant lines == Csv(written + rows[..j]) && (ready <==> written + rows[..j] != [])
    {
      lines, ready := WriteRow(lines, ready, written + rows[..j], rows[j]);
      TakeOneMore(rows, j);
      AppendAssoc(written, rows[..j], [rows[j]]);
    }
    TakeAll(rows);
  }

  /** One pass of main's loop: the header first if no writer exists yet, then the row. */
  method WriteRow(lines0: seq<Line>, ready0: bool, ghost written: seq<Row>, row: Row)
    returns (lines: seq<Line>, ready: bool)
    requires lines0 == Csv(written) && (ready0 <==> written != [])
    ensures lines == Csv(written + [row]) && ready
  {
    CsvAppend(written, [row]);
    assert DataLines([row]) == [DataLine(Cells(row))];
    lines := lines0;
    if !ready0 {
      lines := lines + [HeaderLine(Header())];
    }
    lines := lines + [DataLine(Cells(row))];
    ready := true;
  }

  // ---------------------------------------------------------------- properties

  /** One more event: its rows are appended, or its error ends the generator. */
  lemma GeneratedSnoc(events: seq<Element>, k: nat, batch: Stream.Flattener)
    requires k < |events| && Generated(events[..k], batch).error.None?
    ensures batch(events[k]).Failure? ==>
      Generated(events[..k + 1], batch) == Yield(Generated(events[..k], batch).rows, Some(batch(events[k]).error))
    ensures batch(events[k]).Success? ==>
      Generated(events[..k + 1], batch) == Yield(Generated(events[..k], batch).rows + batch(events[k]).value, None)
  {
    assert events[..k + 1][..k] == events[..k];
  }

  /** After an error the generator yields nothing more. */
  lemma {:induction false} GeneratedStops(events: seq<Element>, k: nat, batch: Stream.Flattener)
    requires k <= |events| && Generated(events[..k], batch).error.Some?
    ensures Generated(events, batch) == Generated(events[..k], batch)
    decreases |events| - k
  {
    if k < |events| {
      assert events[..k + 1][..k] == events[..k];
      GeneratedStops(events, k + 1, batch);
    } else {
      TakeAll(events);
    }
  }

  /** The generator yields question rows only, each from a `questions` record. */
  lemma {:induction false} GeneratedQuestionsOnly(events: seq<Element>)
    ensures forall i :: 0 <= i < |Generated(events, QuestionBatch).rows| ==>
      Kind(Generated(events, QuestionBatch).rows[i]) == "question" &&
      Generated(events, QuestionBatch).rows[i].doc.sourceType == "questions"
  {
    if events != [] {
      var init := events[..|events| - 1];
      var e := events[|events| - 1];
      GeneratedQuestionsOnly(init);
      var before := Generated(init, QuestionBatch);
      var r := QuestionBatch(e);
      if before.error.None? && r.Success? {
        BatchQuestionsOnly(e);
        forall i | 0 <= i < |before.rows + r.value|
          ensures Kind((before.rows + r.value)[i]) == "question"
          ensures (before.rows + r.value)[i].doc.sourceType == "questions"
        {
          if i >= |before.rows| {
            assert (before.rows + r.value)[i] == r.value[i - |before.rows|];
          }
        }
      }
    }
  }

  /** One element's rows: none unless it is a `questions` record with a legal
      document, and then question rows of that record. */
  lemma BatchQuestionsOnly(e: Element)
    requires QuestionBatch(e).Success?
    ensures Get(e, "type", "") != "questions" || FindAkn(e).None? ==> QuestionBatch(e).value == []
    ensures forall i :: 0 <= i < |QuestionBatch(e).value| ==>
      Kind(QuestionBatch(e).value[i]) == "question" && QuestionBatch(e).value[i].doc.sourceType == "questions"
      && QuestionBatch(e).value[i].doc == DebateBase(e).doc
  {
    if Get(e, "type", "") == "questions" && FindAkn(e).Some? {
      QuestionRowsShape(DebateBase(e), FindAkn(e).value);
    }
  }

  /** The generator's rows for an element are exactly the question block that
      extract_debate_rows puts last, and both fail on the same elements. */
  lemma QuestionBatchIsTail(e: Element)
    ensures QuestionBatch(e).Failure? <==> DebateRows(e).Failure?
    ensures DebateRows(e).Success? ==>
      exists head: seq<Row> :: DebateRows(e).value == head + QuestionBatch(e).value
  {
    if DebateRows(e).Success? {
      var base := DebateBase(e);
      var head := AttendanceRows(base, FindAkn(e)) + SectionsRows(base, Sections(e));
      assert DebateRows(e).value == head + QuestionBatch(e).value;
    }
  }

  /** The CSV holds the header once, first, exactly when some question row was
      yielded, and then one line per yielded row. */
  lemma WrittenFile(events: seq<Element>)
    ensures var rows := Generated(events, QuestionBatch).rows;
      && |Csv(rows)| == (if rows == [] then 0 else |rows| + 1)
      && (rows != [] ==> Csv(rows)[0] == HeaderLine(Header()))
      && forall i :: 0 <= i < |rows| ==> Csv(rows)[i + 1] == DataLine(Cells(rows[i])) && Kind(rows[i]) == "question"
  {
    CsvShape(Generated(events, QuestionBatch).rows);
    GeneratedQuestionsOnly(events);
  }

  /** With `tag='debate'` only elements in no namespace fire: the legal
      document's own `<debate>` element never does, so a corpus of records
      holding no other plain `<debate>` reaches the generator record by record,
      each intact. */
  lemma PlainTagSeesRecords(root: Element)
    requires !Stream.Fires(root, Stream.NoNamespace) && Stream.Records(root.children, Stream.NoNamespace)
    ensures Stream.Events(root, Stream.NoNamespace) == root.children
  {
    Stream.IntactRecords(root, Stream.NoNamespace, QuestionBatch);
  }

  /** The demo record, whose legal document is an AKN `<debate>`, is seen whole. */
  lemma PlainTagKeepsDemo()
    ensures Stream.Events(Stream.DemoRoot, Stream.NoNamespace) == [Stream.DemoRecord]
  {
    Stream.DemoDescendants();
    assert Stream.Records(Stream.DemoRoot.children, Stream.NoNamespace);
    PlainTagSeesRecords(Stream.DemoRoot);
  }
}
