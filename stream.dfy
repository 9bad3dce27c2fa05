/**
 * stream_and_write (extract_text.py): iterparse hands the driver an end event
 * for every element its tag filter selects; the driver flattens each typed
 * record, writes the rows through a lazily created CSV writer, and after every
 * event clears the element and deletes its preceding siblings. The clearing
 * and purging change what later events -- those of the element's ancestors --
 * see, so the parse is modelled as a post-order walk that applies the
 * driver's clear/purge policy as it goes.
 */
module Stream {
  import opened Wrappers
  import opened Tree
  import opened Rows
  import opened Flatten
  import opened CsvOut
  import opened Seqs

  // ---------------------------------------------------------------- events

  /** What an iterparse driver does: which elements fire an event (`tag='{*}debate'`
      matches a debate in any namespace, `tag='debate'` only one without a
      namespace), and whether a skipped (untyped) element is also cleared and purged. */
  datatype Driver = Driver(anyNamespace: bool, releaseSkipped: bool)

  /** stream_and_write, and test_first_debates. */
  const AsWritten: Driver := Driver(true, true)
  /** parse_file in XML_to_CSV_iterative_parsing.py. */
  const NoNamespace: Driver := Driver(false, true)
  /** stream_and_write with untyped elements left alone. */
  const Corrected: Driver := Driver(true, false)

  predicate Fires(e: Element, d: Driver) {
    e.tag == "debate" && (d.anyNamespace || e.ns == "")
  }

  /** `debate.get('type') is not None`: a record of the combined corpus. */
  predicate Typed(e: Element) {
    "type" in e.attrs
  }

  /** The event of e is followed by e.clear() and the purge of its preceding siblings. */
  predicate Releases(e: Element, d: Driver) {
    Fires(e, d) && (d.releaseSkipped || Typed(e))
  }

  /** None of the elements is released by the driver. */
  predicate Quiet(xs: seq<Element>, d: Driver) {
    forall x :: x in xs ==> !Releases(x, d)
  }

  /** The parse of e under driver d: the tree the driver leaves behind, and the
      end events, each carrying the element as it stands when its event fires. */
  function Walk(e: Element, d: Driver): (Element, seq<Element>)
    decreases e, 1
  {
    var (cs, evs) := WalkChildren(e.children, d);
    var seen := e.(children := cs);
    if !Fires(e, d) then (seen, evs)
    else if Releases(e, d) then (Clear(seen), evs + [seen])
    else (seen, evs + [seen])
  }

  /** The children in document order. A released child deletes every sibling
      before it, so a child survives only when no later sibling is released. */
  function WalkChildren(cs: seq<Element>, d: Driver): (seq<Element>, seq<Element>)
    decreases cs, 0
  {
    if cs == [] then ([], [])
    else
      var (c, evs) := Walk(cs[0], d);
      var (rest, later) := WalkChildren(cs[1..], d);
      (if Quiet(cs[1..], d) then [c] + rest else rest, evs + later)
  }

  /** The end events of a whole document. */
  function Events(root: Element, d: Driver): seq<Element> {
    Walk(root, d).1
  }

  // ---------------------------------------------------------------- the purge

  /** The child list of the element whose children an event purges. */
  class Siblings {
    var children: seq<Element>

    constructor(cs: seq<Element>)
      ensures children == cs
    {
      children := cs;
    }

    /** `debate.clear()` followed by `while debate.getprevious() is not None:
        del debate.getparent()[0]`, for the child at index i: the cleared child
        becomes the first one and the later siblings are untouched. */
    method Release(i: nat)
      requires i < |children|
      modifies this
      ensures children == [Clear(old(children)[i])] + old(children)[i + 1..]
      ensures |children| == |old(children)| - i
    {
      children := children[i := Clear(children[i])];
      ghost var cleared := children;
      var before := i;
      while before > 0
        invariant 0 <= before <= i
        invariant children == cleared[i - before..]
      {
        children := children[1..];
        before := before - 1;
      }
    }
  }

  // ---------------------------------------------------------------- the driver

  /** A flattener: extract_debate_rows, or one of its variants. */
  type Flattener = Element -> Result<seq<Row>, FlattenError>

  /** The rows stream_and_write writes for one event: none for an untyped
      element, none when the flattener raises, all of them otherwise. */
  function Batch(e: Element, flatten: Flattener): seq<Row> {
    if Typed(e) && flatten(e).Success? then flatten(e).value else []
  }

  /** The error reported for one event, if any. */
  function Report(e: Element, flatten: Flattener): seq<FlattenError> {
    if Typed(e) && flatten(e).Failure? then [flatten(e).error] else []
  }

  /** The rows written for a sequence of events, in event order. */
  function StreamRows(events: seq<Element>, flatten: Flattener): seq<Row> {
    if events == [] then [] else Batch(events[0], flatten) + StreamRows(events[1..], flatten)
  }

  /** The errors reported (and swallowed) for a sequence of events. */
  function StreamErrors(events: seq<Element>, flatten: Flattener): seq<FlattenError> {
    if events == [] then [] else Report(events[0], flatten) + StreamErrors(events[1..], flatten)
  }

  /** stream_and_write's loop: the writer is created, and the header written,
      just before the first non-empty batch; an exception is reported and only
      that event's rows are lost. */
  method StreamAndWrite(events: seq<Element>) returns (lines: seq<Line>, errors: seq<FlattenError>)
    ensures lines == Csv(StreamRows(events, DebateRows))
    ensures errors == StreamErrors(events, DebateRows)
  {
    lines := [];
    errors := [];
    var writerReady := false;
    for k := 0 to |events|
      invariant lines == Csv(StreamRows(events[..k], DebateRows))
      invariant writerReady <==> StreamRows(events[..k], DebateRows) != []
      invariant errors == StreamErrors(events[..k], DebateRows)
    {
      var debate := events[k];
      if !Typed(debate) {
        NextEvent(events, k, DebateRows, Success([]));
        AppendNothing(StreamRows(events[..k], DebateRows));
        AppendNothing(errors);
        continue;
      }
      var r := ExtractDebateRows(debate);
      NextEvent(events, k, DebateRows, r);
      if r.Success? {
        lines, writerReady := WriteRows(lines, writerReady, StreamRows(events[..k], DebateRows), r.value);
        AppendNothing(errors);
      } else {
        errors := errors + [r.error];
        AppendNothing(StreamRows(events[..k], DebateRows));
      }
    }
    TakeAll(events);
  }

  /** `if rows:` create the writer and write the header if there is none yet,
      then `writer.writerows(rows)`. */
  method WriteRows(lines0: seq<Line>, ready0: bool, ghost written: seq<Row>, rows: seq<Row>)
    returns (lines: seq<Line>, ready: bool)
    requires lines0 == Csv(written) && (ready0 <==> written != [])
    ensures lines == Csv(written + rows) && (ready <==> written + rows != [])
  {
    CsvAppend(written, rows);
    if rows == [] {
      AppendNothing(written);
      return lines0, ready0;
    }
    lines := lines0;
    if !ready0 {
      lines := lines + [HeaderLine(Header())];
    }
    lines := lines + DataLines(rows);
    ready := true;
  }

  /** One more event, whose flattening gives r when it is a record. */
  lemma NextEvent(events: seq<Element>, k: nat, flatten: Flattener, r: Result<seq<Row>, FlattenError>)
    requires k < |events| && (Typed(events[k]) ==> r == flatten(events[k]))
    ensures StreamRows(events[..k + 1], flatten) ==
      StreamRows(events[..k], flatten) + (if Typed(events[k]) && r.Success? then r.value else [])
    ensures StreamErrors(events[..k + 1], flatten) ==
      StreamErrors(events[..k], flatten) + (if Typed(events[k]) && r.Failure? then [r.error] else [])
  {
    StreamSnoc(events, k, flatten);
  }

  /** One more event adds its batch and its error, if any, at the end. */
  lemma StreamSnoc(events: seq<Element>, k: nat, flatten: Flattener)
    requires k < |events|
    ensures StreamRows(events[..k + 1], flatten) == StreamRows(events[..k], flatten) + Batch(events[k], flatten)
    ensures StreamErrors(events[..k + 1], flatten) == StreamErrors(events[..k], flatten) + Report(events[k], flatten)
  {
    TakeOneMore(events, k);
    StreamAppend(events[..k], [events[k]], flatten);
    OneEvent(events[k], flatten);
  }

  lemma OneEvent(e: Element, flatten: Flattener)
    ensures StreamRows([e], flatten) == Batch(e, flatten)
    ensures StreamErrors([e], flatten) == Report(e, flatten)
  {
    SingleTail(e);
    AppendNothing(Batch(e, flatten));
    AppendNothing(Report(e, flatten));
  }

  /** The rows and errors of consecutive runs of events are concatenated. */
  lemma {:induction false} StreamAppend(a: seq<Element>, b: seq<Element>, flatten: Flattener)
    ensures StreamRows(a + b, flatten) == StreamRows(a, flatten) + StreamRows(b, flatten)
    ensures StreamErrors(a + b, flatten) == StreamErrors(a, flatten) + StreamErrors(b, flatten)
  {
    if a == [] {
      AppendNothing(b);
    } else {
      ConsAppend(a, b);
      StreamAppend(a[1..], b, flatten);
      AppendAssoc(Batch(a[0], flatten), StreamRows(a[1..], flatten), StreamRows(b, flatten));
    }
  }

  /** The rows and errors of the events around one event are written
      unchanged, with that event's batch and report in between. */
  lemma EventInPlace(events: seq<Element>, i: nat, flatten: Flattener)
    requires i < |events|
    ensures StreamRows(events, flatten) ==
      StreamRows(events[..i], flatten) + Batch(events[i], flatten) + StreamRows(events[i + 1..], flatten)
    ensures StreamErrors(events, flatten) ==
      StreamErrors(events[..i], flatten) + Report(events[i], flatten) + StreamErrors(events[i + 1..], flatten)
  {
    SplitAt(events, i);
    StreamAppend(events[..i], [events[i]] + events[i + 1..], flatten);
    StreamAppend([events[i]], events[i + 1..], flatten);
    OneEvent(events[i], flatten);
    AppendAssoc(StreamRows(events[..i], flatten), Batch(events[i], flatten), StreamRows(events[i + 1..], flatten));
    AppendAssoc(StreamErrors(events[..i], flatten), Report(events[i], flatten), StreamErrors(events[i + 1..], flatten));
  }

  /** An untyped element, or a record whose flattening raises, contributes
      no rows; a record that flattens contributes exactly its rows, in place. */
  lemma EventIsolated(events: seq<Element>, i: nat, flatten: Flattener)
    requires i < |events|
    ensures !Typed(events[i]) || flatten(events[i]).Failure? ==>
      StreamRows(events, flatten) == StreamRows(events[..i], flatten) + StreamRows(events[i + 1..], flatten)
    ensures Typed(events[i]) && flatten(events[i]).Success? ==>
      StreamRows(events, flatten) ==
        StreamRows(events[..i], flatten) + flatten(events[i]).value + StreamRows(events[i + 1..], flatten)
  {
    EventInPlace(events, i, flatten);
    AppendNothing(StreamRows(events[..i], flatten));
  }

  /** Every row stream_and_write writes belongs to a flattened record: one of
      the four kinds, with the record-level values of a typed event. */
  lemma {:induction false} StreamRowsKinds(events: seq<Element>)
    ensures forall r :: r in StreamRows(events, DebateRows) ==> Kind(r) in Kinds
    ensures forall r :: r in StreamRows(events, DebateRows) ==>
      exists e :: e in events && Typed(e) && r.doc == DebateBase(e).doc
  {
    if events != [] {
      StreamRowsKinds(events[1..]);
      var e := events[0];
      DebateRowsShape(e);
      forall r | r in Batch(e, DebateRows)
        ensures Kind(r) in Kinds && Typed(e) && r.doc == DebateBase(e).doc
      {
        var rows := DebateRows(e).value;
        var i :| 0 <= i < |rows| && rows[i] == r;
      }
    }
  }

  /** Every line stream_and_write writes leaves "" in the columns its row's
      kind does not set. */
  lemma {:induction false} StreamRowsOwnColumns(events: seq<Element>)
    ensures AllOwnColumns(StreamRows(events, DebateRows))
  {
    if events != [] {
      StreamRowsOwnColumns(events[1..]);
      DebateRowsOwnColumns(events[0]);
      AllOwnColumnsConcat(Batch(events[0], DebateRows), StreamRows(events[1..], DebateRows));
    }
  }

  /** Events of untyped elements write and report nothing. */
  lemma {:induction false} UntypedWriteNothing(events: seq<Element>, flatten: Flattener)
    requires forall e :: e in events ==> !Typed(e)
    ensures StreamRows(events, flatten) == [] && StreamErrors(events, flatten) == []
  {
    if events != [] {
      UntypedWriteNothing(events[1..], flatten);
    }
  }

  // ---------------------------------------------------------------- records left intact

  /** A subtree whose elements the driver never releases comes out of the walk
      unchanged; its events are of untyped elements, and there are none when
      the driver releases every element it fires on. */
  lemma {:induction false} WalkQuiet(e: Element, d: Driver)
    requires !Releases(e, d) && Quiet(Descendants(e), d)
    ensures Walk(e, d).0 == e
    ensures forall x :: x in Walk(e, d).1 ==> !Typed(x)
    ensures d.releaseSkipped ==> Walk(e, d).1 == []
    decreases e, 1
  {
    WalkChildrenQuiet(e.children, d);
  }

  /** A released element with nothing released inside it fires once, as it
      was parsed, and is cleared. */
  lemma WalkQuietInside(e: Element, d: Driver)
    requires Releases(e, d) && d.releaseSkipped && Quiet(Descendants(e), d)
    ensures Walk(e, d) == (Clear(e), [e])
  {
    WalkChildrenQuiet(e.children, d);
    assert e.(children := e.children) == e;
    AppendNothing([e]);
  }

  lemma {:induction false} WalkChildrenQuiet(cs: seq<Element>, d: Driver)
    requires Quiet(DescendantsOf(cs), d)
    ensures WalkChildren(cs, d).0 == cs
    ensures forall x :: x in WalkChildren(cs, d).1 ==> !Typed(x)
    ensures d.releaseSkipped ==> WalkChildren(cs, d).1 == []
    decreases cs, 0
  {
    if cs != [] {
      assert DescendantsOf(cs) == [cs[0]] + Descendants(cs[0]) + DescendantsOf(cs[1..]);
      WalkQuiet(cs[0], d);
      WalkChildrenQuiet(cs[1..], d);
      assert Quiet(cs[1..], d) by {
        forall x | x in cs[1..] ensures !Releases(x, d) {
          ListedAreDescendants(cs[1..], x);
        }
      }
      HeadTail(cs);
    }
  }

  /** Children that are records: each fires an event and nothing inside it is released. */
  predicate Records(cs: seq<Element>, d: Driver) {
    forall c :: c in cs ==> Fires(c, d) && Quiet(Descendants(c), d)
  }

  /** A record's events: the untyped ones inside it, then its own, on the intact record. */
  lemma WalkRecord(c: Element, d: Driver)
    requires Fires(c, d) && Quiet(Descendants(c), d)
    ensures Walk(c, d).1 == WalkChildren(c.children, d).1 + [c]
    ensures forall x :: x in WalkChildren(c.children, d).1 ==> !Typed(x)
    ensures d.releaseSkipped ==> WalkChildren(c.children, d).1 == []
  {
    WalkChildrenQuiet(c.children, d);
    assert c.(children := c.children) == c;
  }

  lemma {:induction false} WalkRecords(cs: seq<Element>, d: Driver, flatten: Flattener)
    requires Records(cs, d)
    ensures StreamRows(WalkChildren(cs, d).1, flatten) == StreamRows(cs, flatten)
    ensures d.releaseSkipped ==> WalkChildren(cs, d).1 == cs
    decreases cs
  {
    if cs != [] {
      var c := cs[0];
      assert c in cs;
      WalkRecord(c, d);
      var evs := WalkChildren(c.children, d).1;
      WalkRecords(cs[1..], d, flatten);
      var later := WalkChildren(cs[1..], d).1;
      assert WalkChildren(cs, d).1 == evs + [c] + later;
      StreamAppend(evs + [c], later, flatten);
      StreamAppend(evs, [c], flatten);
      UntypedWriteNothing(evs, flatten);
      AppendNothing(StreamRows([c], flatten));
      StreamAppend([c], cs[1..], flatten);
      HeadTail(cs);
      if d.releaseSkipped {
        AppendNothing([c]);
      }
    }
  }

  /** When the corpus root holds records and nothing inside a record is
      released, every record reaches the driver intact: the driver writes the
      rows of the records themselves, and a driver that releases every element
      it fires on sees exactly the records. */
  lemma IntactRecords(root: Element, d: Driver, flatten: Flattener)
    requires !Fires(root, d) && Records(root.children, d)
    ensures StreamRows(Events(root, d), flatten) == StreamRows(root.children, flatten)
    ensures d.releaseSkipped ==> Events(root, d) == root.children
  {
    WalkRecords(root.children, d, flatten);
  }

  /** With untyped elements left alone, a corpus of typed records without typed
      debates inside them is written exactly as the records' own rows. */
  lemma CorrectedWritesRecords(root: Element, flatten: Flattener)
    requires root.tag != "debate"
    requires forall c :: c in root.children ==>
      c.tag == "debate" && Typed(c) && forall x :: x in Descendants(c) ==> !(x.tag == "debate" && Typed(x))
    ensures StreamRows(Events(root, Corrected), flatten) == StreamRows(root.children, flatten)
  {
    IntactRecords(root, Corrected, flatten);
  }

  // ---------------------------------------------------------------- the wiped record

  const DemoSummary: Element :=
    Element(AknNs, "summary", map["eId" := "sum_1"], Some("Prayers"), [], None, Some(AknNs))
  const DemoSection: Element :=
    Element(AknNs, "debateSection", map["name" := "prayers", "eId" := "dbsect_1"], None, [DemoSummary], None, Some(AknNs))
  const DemoBody: Element :=
    Element(AknNs, "debateBody", map[], None, [DemoSection], None, Some(AknNs))
  /** The Akoma Ntoso document-type element, `<debate name="...">`, in the AKN namespace. */
  const DemoInner: Element :=
    Element(AknNs, "debate", map["name" := "debateRecord"], None, [DemoBody], None, Some(AknNs))
  const DemoAkn: Element :=
    Element(AknNs, "akomaNtoso", map[], None, [DemoInner], None, Some(AknNs))
  const DemoData: Element :=
    Element("", "data", map[], None, [DemoAkn], None, None)
  /** One record of the combined corpus, as combine_to_single_xml writes it. */
  const DemoRecord: Element :=
    Element("", "debate", map["type" := "dail", "date" := "2020-01-01"], None, [DemoData], None, None)
  const DemoRoot: Element :=
    Element("", "all_debates", map[], None, [DemoRecord], None, None)

  /** The demo record as its own event finds it under the as-written driver. */
  const WipedAkn: Element := DemoAkn.(children := [Clear(DemoInner)])
  const WipedData: Element := DemoData.(children := [WipedAkn])
  const WipedRecord: Element := DemoRecord.(children := [WipedData])

  lemma DescendantsSingle(e: Element)
    requires |e.children| == 1
    ensures Descendants(e) == [e.children[0]] + Descendants(e.children[0])
  {
    var cs := e.children;
    SingleTail(cs[0]);
    assert cs[1..] == [];
    assert DescendantsOf(cs[1..]) == [];
    assert DescendantsOf(cs) == [cs[0]] + Descendants(cs[0]) + DescendantsOf(cs[1..]);
    AppendNothing([cs[0]] + Descendants(cs[0]));
  }

  lemma DemoDescendants()
    ensures Descendants(DemoBody) == [DemoSection, DemoSummary]
    ensures Descendants(DemoAkn) == [DemoInner, DemoBody, DemoSection, DemoSummary]
    ensures Descendants(DemoRecord) == [DemoData, DemoAkn, DemoInner, DemoBody, DemoSection, DemoSummary]
  {
    DescendantsSingle(DemoSection);
    DescendantsSingle(DemoBody);
    DescendantsSingle(DemoInner);
    DescendantsSingle(DemoAkn);
    DescendantsSingle(DemoData);
    DescendantsSingle(DemoRecord);
  }

  /** The demo record holds one section with one summary. */
  lemma DemoSections()
    ensures Sections(DemoRecord) == [DemoSection]
    ensures Summaries(DemoSection) == [DemoSummary]
  {
    DemoDescendants();
    var st := AnyStep("debateSection");
    SelectNone([DemoSummary], st);
    SelectCons(DemoSection, [DemoSummary], st);
    SelectCons(DemoBody, [DemoSection, DemoSummary], st);
    SelectCons(DemoInner, [DemoBody, DemoSection, DemoSummary], st);
    SelectCons(DemoAkn, [DemoInner, DemoBody, DemoSection, DemoSummary], st);
    SelectCons(DemoData, [DemoAkn, DemoInner, DemoBody, DemoSection, DemoSummary], st);
    SelectNone([], AnyStep("summary"));
    SelectCons(DemoSummary, [], AnyStep("summary"));
  }

  /** Flattened on its own, the demo record yields its summary row. */
  lemma DemoRecordRows()
    ensures DebateRows(DemoRecord).Success? && DebateRows(DemoRecord).value != []
  {
    DemoSections();
    var base := DebateBase(DemoRecord);
    assert Get(DemoRecord, "type", "") == "dail";
    var q := QuestionRows(base, "dail", FindAkn(DemoRecord));
    var secs := SectionsRows(base, [DemoSection]);
    assert secs == SectionsRows(base, []) + SectionRows(base, DemoSection);
    assert |SummaryRows(base, SectionOf(DemoSection), [DemoSummary])| == 1;
    assert |secs| >= 1;
    assert DebateRows(DemoRecord) == Success(AttendanceRows(base, FindAkn(DemoRecord)) + secs + q.value);
  }

  /** The inner legal-document element fires first and is cleared. */
  lemma DemoInnerWalk()
    ensures Walk(DemoInner, AsWritten) == (Clear(DemoInner), [DemoInner])
  {
    DemoDescendants();
    assert Descendants(DemoInner) == [DemoBody] + Descendants(DemoBody) by {
      DescendantsSingle(DemoInner);
    }
    WalkQuietInside(DemoInner, AsWritten);
  }

  /** The record then fires with its legal document already wiped. */
  lemma DemoRecordWalk()
    ensures Walk(DemoRecord, AsWritten) == (Clear(WipedRecord), [DemoInner, WipedRecord])
  {
    DemoInnerWalk();
    WalkOnly(DemoAkn, (Clear(DemoInner), [DemoInner]));
    assert DemoAkn.(children := [Clear(DemoInner)]) == WipedAkn;
    WalkOnly(DemoData, (WipedAkn, [DemoInner]));
    assert DemoData.(children := [WipedAkn]) == WipedData;
    WalkOnly(DemoRecord, (WipedData, [DemoInner]));
    assert DemoRecord.(children := [WipedData]) == WipedRecord;
    assert [DemoInner] + [WipedRecord] == [DemoInner, WipedRecord];
  }

  lemma DemoWalk()
    ensures Events(DemoRoot, AsWritten) == [DemoInner, WipedRecord]
  {
    DemoRecordWalk();
    WalkOnly(DemoRoot, (Clear(WipedRecord), [DemoInner, WipedRecord]));
  }

  /** The walk of an element with one child, given the walk of that child. */
  lemma WalkOnly(e: Element, child: (Element, seq<Element>))
    requires |e.children| == 1 && Walk(e.children[0], AsWritten) == child
    ensures WalkChildren(e.children, AsWritten) == ([child.0], child.1)
    ensures !Fires(e, AsWritten) ==> Walk(e, AsWritten) == (e.(children := [child.0]), child.1)
    ensures Releases(e, AsWritten) ==>
      Walk(e, AsWritten) == (Clear(e.(children := [child.0])), child.1 + [e.(children := [child.0])])
  {
    SingleTail(e.children[0]);
    assert e.children[1..] == [];
    AppendNothing([child.0]);
    AppendNothing(child.1);
  }

  lemma WipedDescendants()
    ensures Descendants(WipedAkn) == [Clear(DemoInner)]
    ensures Descendants(WipedRecord) == [WipedData, WipedAkn, Clear(DemoInner)]
  {
    assert Descendants(Clear(DemoInner)) == [];
    DescendantsSingle(WipedAkn);
    DescendantsSingle(WipedData);
    DescendantsSingle(WipedRecord);
  }

  /** In the wiped record the legal document is still found, but it has no
      roll call and the record has no sections. */
  lemma WipedLookups()
    ensures Sections(WipedRecord) == []
    ensures FindAkn(WipedRecord) == Some(WipedAkn)
    ensures RollCall(Some(WipedAkn)).None?
  {
    WipedDescendants();
    SelectNone(Descendants(WipedRecord), AnyStep("debateSection"));
    SelectNone(Descendants(WipedAkn), AknStep("rollCall"));
    var all := Descendants(WipedRecord);
    assert all[1..] == [WipedAkn, Clear(DemoInner)];
    assert Select(all, AknStep("akomaNtoso")) == Select(all[1..], AknStep("akomaNtoso"));
  }

  /** The wiped record has a legal document but no roll call, sections or questions left. */
  lemma WipedRecordRows()
    ensures DebateRows(WipedRecord) == Success([])
  {
    WipedLookups();
    var base := DebateBase(WipedRecord);
    assert AttendanceRows(base, Some(WipedAkn)) == [];
    assert SectionsRows(base, []) == [];
  }

  /** An untyped event, then a record that yields no rows: nothing is written. */
  lemma NothingWritten(a: Element, b: Element, flatten: Flattener)
    requires !Typed(a) && flatten(b) == Success([])
    ensures StreamRows([a, b], flatten) == []
  {
    assert [a, b][1..] == [b];
    OneEvent(b, flatten);
  }

  /** As written, nothing at all is written for the demo corpus, although its
      one record flattens to a row. */
  lemma AsWrittenWipesRecord()
    ensures StreamRows(Events(DemoRoot, AsWritten), DebateRows) == []
    ensures StreamRows(DemoRoot.children, DebateRows) != []
  {
    DemoWalk();
    WipedRecordRows();
    NothingWritten(DemoInner, WipedRecord, DebateRows);
    DemoRecordRows();
    OneEvent(DemoRecord, DebateRows);
  }

  /** The demo corpus is one typed record with no typed debate inside it. */
  lemma DemoCorpus()
    ensures DemoRoot.tag != "debate"
    ensures forall c :: c in DemoRoot.children ==>
      c.tag == "debate" && Typed(c) && forall x :: x in Descendants(c) ==> !(x.tag == "debate" && Typed(x))
  {
    DemoDescendants();
    assert DemoRoot.children == [DemoRecord];
  }

  /** The corrected driver writes the demo record's rows. */
  lemma CorrectedKeepsDemo()
    ensures StreamRows(Events(DemoRoot, Corrected), DebateRows) == DebateRows(DemoRecord).value
    ensures StreamRows(Events(DemoRoot, Corrected), DebateRows) != []
  {
    DemoCorpus();
    CorrectedWritesRecords(DemoRoot, DebateRows);
    DemoRecordRows();
    OneEvent(DemoRecord, DebateRows);
  }
}
