/**
 * extract_debate_rows (extract_text.py): one <debate> record of the corpus,
 * wrapping an Akoma Ntoso 3.0 (CSD13) debate document, becomes a list of flat
 * rows that all share one 30-column schema: attendance rows, then section rows
 * (summaries and one row per speech paragraph), then question/answer rows.
 */
module Flatten {
  import opened Wrappers
  import opened Text
  import opened Tree
  import opened Rows
  import opened Seqs

  const AknNs: string := "http://docs.oasis-open.org/legaldocml/ns/akn/3.0/CSD13"

  datatype FlattenError =
    | UndefinedNamespacePrefix   // xpath('.//ns:question') with no 'ns' prefix bound
    | ZipLongestUndefined        // NameError: zip_longest was never imported

  function AknStep(local: string): Step {
    Step(InNs(AknNs), local, None)
  }

  function AnyStep(local: string): Step {
    Step(AnyNs, local, None)
  }

  /** `.//akn:akomaNtoso`, and when that finds nothing, `.//akn:data/akn:akomaNtoso`. */
  function FindAkn(debate: Element): Option<Element> {
    var direct := FindDescendant(debate, AknStep("akomaNtoso"));
    if direct.Some? then direct
    else FindChildOfDescendant(debate, AknStep("data"), AknStep("akomaNtoso"))
  }

  /** The fallback lookup never changes which legal document is found. */
  lemma FallbackNeverUsed(debate: Element)
    ensures FindAkn(debate) == FindDescendant(debate, AknStep("akomaNtoso"))
  {
    if FindDescendant(debate, AknStep("akomaNtoso")).None? {
      NestedFindNeedsDirect(debate, AknStep("data"), AknStep("akomaNtoso"));
    }
  }

  /** `node.text.strip() if node is not None and node.text else ""`. */
  function NodeText(n: Option<Element>): (r: string)
    ensures Trimmed(r)
    ensures n.None? ==> r == ""
  {
    if n.Some? then StrippedText(n.value.text) else ""
  }

  datatype Metadata = Metadata(
    docId: string, titleGa: string, titleEn: string,
    proponentGa: string, proponentEn: string, statusGa: string, statusEn: string,
    documentDate: string, volume: string, number: string)

  const NoMetadata := Metadata("", "", "", "", "", "", "", "", "", "")

  /** blk(name, tag): the stripped text of `.//{*}block[@name=name]/{*}tag` in the preface. */
  function Block(pre: Option<Element>, name: string, tag: string): (r: string)
    ensures Trimmed(r)
    ensures pre.None? ==> r == ""
  {
    if pre.None? then ""
    else NodeText(FindChildOfDescendant(pre.value, Step(AnyNs, "block", Some(("name", name))), AnyStep(tag)))
  }

  /** `pre.find(".//{*}docNumber[@refersTo=key]")`, or None without a preface. */
  function DocNumber(pre: Option<Element>, key: string): Option<Element> {
    if pre.None? then None
    else FindDescendant(pre.value, Step(AnyNs, "docNumber", Some(("refersTo", key))))
  }

  /** The record-level metadata read from the legal document; all empty without one. */
  function DocumentMetadata(akn: Option<Element>): (m: Metadata)
    ensures akn.None? ==> m == NoMetadata
    ensures Trimmed(m.titleGa) && Trimmed(m.titleEn) && Trimmed(m.proponentGa) && Trimmed(m.proponentEn)
    ensures Trimmed(m.statusGa) && Trimmed(m.statusEn) && Trimmed(m.volume) && Trimmed(m.number)
  {
    if akn.None? then NoMetadata
    else
      var a := akn.value;
      var pre := FindDescendant(a, AnyStep("preface"));
      var dateBlock :=
        if pre.Some? then FindChildOfDescendant(pre.value, Step(AnyNs, "block", Some(("name", "date_en"))), AnyStep("docDate"))
        else None;
      Metadata(
        AttrOf(FindChildOfDescendant(a, AnyStep("FRBRWork"), AnyStep("FRBRthis")), "value"),
        Block(pre, "title_ga", "docTitle"), Block(pre, "title_en", "docTitle"),
        Block(pre, "proponent_ga", "docProponent"), Block(pre, "proponent_en", "docProponent"),
        Block(pre, "status_ga", "docStatus"), Block(pre, "status_en", "docStatus"),
        AttrOf(dateBlock, "date"),
        NodeText(DocNumber(pre, "#vol_1062")), NodeText(DocNumber(pre, "#no_2")))
  }

  /** The `base` template dictionary: the record's attributes and metadata, "" elsewhere. */
  function Base(debate: Element, m: Metadata): Row {
    Blank(Document(
      m.docId, Get(debate, "type", ""), Get(debate, "date", ""),
      m.titleGa, m.titleEn, m.proponentGa, m.proponentEn, m.statusGa, m.statusEn,
      m.documentDate, m.volume, m.number,
      Get(debate, "slug", ""), Get(debate, "question_type", ""), Get(debate, "number", "")))
  }

  /** The base row of a record, as extract_debate_rows computes it. */
  function DebateBase(debate: Element): Row {
    Base(debate, DocumentMetadata(FindAkn(debate)))
  }

  // ---------------------------------------------------------------- attendance

  /** `akn.xpath('.//akn:rollCall')[0]`: the first roll call of the document. */
  function RollCall(akn: Option<Element>): Option<Element> {
    if akn.None? then None else FindDescendant(akn.value, AknStep("rollCall"))
  }

  /** `roll.xpath('./akn:summary[1]/text()')[0].strip()`, or "" without such a text node. */
  function RollHeader(roll: Element): string {
    var sums := Select(roll.children, AknStep("summary"));
    if sums == [] then ""
    else
      var texts := DirectTexts(sums[0]);
      if texts == [] then "" else Strip(texts[0])
  }

  /** `roll.xpath('.//akn:table//akn:person')`: persons below some table below the
      roll call, in document order and each once. */
  function Persons(roll: Element): seq<Element> {
    PersonsIn(roll.children, false)
  }

  function PersonsIn(cs: seq<Element>, inTable: bool): seq<Element>
    decreases cs
  {
    if cs == [] then []
    else
      var c := cs[0];
      (if inTable && Matches(c, AknStep("person")) then [c] else [])
      + PersonsIn(c.children, inTable || Matches(c, AknStep("table")))
      + PersonsIn(cs[1..], inTable)
  }

  /** `p.get('refersTo', '').lstrip('#')`. */
  function PersonId(p: Element): (id: string)
    ensures id == [] || id[0] != '#'
  {
    LStripChar(Get(p, "refersTo", ""), '#')
  }

  /** One row per person of the first roll call, all sharing the roll call's header. */
  function AttendanceRows(base: Row, akn: Option<Element>): seq<Row>
  {
    var roll := RollCall(akn);
    if roll.None? then []
    else
      var header := RollHeader(roll.value);
      var persons := Persons(roll.value);
      seq(|persons|, i requires 0 <= i < |persons| =>
        AttendanceRow(base, header, StrippedText(persons[i].text), PersonId(persons[i])))
  }

  /** No roll call, no attendance rows; otherwise one row per listed person, all
      carrying the roll call's header as text, each the person's name and id. */
  lemma AttendanceRowsShape(base: Row, akn: Option<Element>)
    ensures RollCall(akn).None? ==> AttendanceRows(base, akn) == []
    ensures RollCall(akn).Some? ==> |AttendanceRows(base, akn)| == |Persons(RollCall(akn).value)|
    ensures forall i :: 0 <= i < |AttendanceRows(base, akn)| ==>
      var row := AttendanceRows(base, akn)[i];
      && row.doc == base.doc && Kind(row) == "attendance"
      && row.text == RollHeader(RollCall(akn).value)
      && row.attendance == row.speakerName
      && row.speakerName == StrippedText(Persons(RollCall(akn).value)[i].text)
      && row.speakerId == PersonId(Persons(RollCall(akn).value)[i])
  {
  }

  // ---------------------------------------------------------------- sections

  /** `debate.findall('.//{*}debateSection')`: searched from the record itself. */
  function Sections(debate: Element): seq<Element> {
    Select(Descendants(debate), AnyStep("debateSection"))
  }

  function SectionOf(sec: Element): SectionInfo {
    var hd := FindChild(sec, AnyStep("heading"));
    SectionInfo(Get(sec, "name", ""), Get(sec, "eId", ""), NodeText(hd),
                AttrOf(FindChildOf(hd, AnyStep("recordedTime")), "time"))
  }

  function SpeakerOf(spk: Element): Speaker {
    var fr := FindChild(spk, AnyStep("from"));
    Speaker(Get(spk, "eId", ""), Get(spk, "by", ""), Get(spk, "as", ""), NodeText(fr),
            AttrOf(FindChildOf(fr, AnyStep("recordedTime")), "time"))
  }

  function Summaries(sec: Element): seq<Element> {
    Select(sec.children, AnyStep("summary"))
  }

  function Speeches(sec: Element): seq<Element> {
    Select(sec.children, AnyStep("speech"))
  }

  function Paragraphs(e: Element): seq<Element> {
    Select(e.children, AnyStep("p"))
  }

  /** One summary row per direct summary child, in order. */
  function SummaryRows(base: Row, info: SectionInfo, sums: seq<Element>): seq<Row>
  {
    seq(|sums|, k requires 0 <= k < |sums| =>
      SummaryRow(base, info, Get(sums[k], "eId", ""), StrippedText(sums[k].text)))
  }

  /** One row per direct paragraph of a speech; they all share the speech's
      element_id and speaker columns and differ in text. */
  function SpeechRows(base: Row, info: SectionInfo, spk: Element): seq<Row>
  {
    var who := SpeakerOf(spk);
    var ps := Paragraphs(spk);
    seq(|ps|, k requires 0 <= k < |ps| => ParagraphRow(base, info, who, Strip(InnerText(ps[k]))))
  }

  /** One row per paragraph of the speech, each with the speech's speaker
      columns and the paragraph's stripped inner text. */
  lemma SpeechRowsShape(base: Row, info: SectionInfo, spk: Element)
    ensures |SpeechRows(base, info, spk)| == |Paragraphs(spk)|
    ensures forall i :: 0 <= i < |SpeechRows(base, info, spk)| ==>
      var row := SpeechRows(base, info, spk)[i];
      && row.doc == base.doc && Kind(row) == "speech" && InSection(row, info)
      && BySpeaker(row, SpeakerOf(spk))
      && row.text == Strip(InnerText(Paragraphs(spk)[i]))
  {
    var rows := SpeechRows(base, info, spk);
    var ps := Paragraphs(spk);
    forall i | 0 <= i < |rows|
      ensures rows[i] == ParagraphRow(base, info, SpeakerOf(spk), Strip(InnerText(ps[i])))
    {
    }
  }

  /** The paragraph rows of the speeches, speech after speech. */
  function SpeechesRows(base: Row, info: SectionInfo, spks: seq<Element>): seq<Row>
    decreases |spks|
  {
    if spks == [] then []
    else SpeechesRows(base, info, spks[..|spks| - 1]) + SpeechRows(base, info, spks[|spks| - 1])
  }

  /** Every row of a section's speeches is a speech row of that section. */
  lemma {:induction false} SpeechesRowsShape(base: Row, info: SectionInfo, spks: seq<Element>)
    ensures forall i :: 0 <= i < |SpeechesRows(base, info, spks)| ==>
      var row := SpeechesRows(base, info, spks)[i];
      row.doc == base.doc && Kind(row) == "speech" && InSection(row, info)
    decreases |spks|
  {
    if spks != [] {
      var init := spks[..|spks| - 1];
      var last := spks[|spks| - 1];
      SpeechesRowsShape(base, info, init);
      SpeechRowsShape(base, info, last);
      AllPieces(SpeechesRows(base, info, init), SpeechRows(base, info, last), base, info);
    }
  }

  /** Two lists of speech rows of one section concatenate to one. */
  lemma AllPieces(xs: seq<Row>, ys: seq<Row>, base: Row, info: SectionInfo)
    requires forall i :: 0 <= i < |xs| ==> xs[i].doc == base.doc && Kind(xs[i]) == "speech" && InSection(xs[i], info)
    requires forall i :: 0 <= i < |ys| ==> ys[i].doc == base.doc && Kind(ys[i]) == "speech" && InSection(ys[i], info)
    ensures forall i :: 0 <= i < |xs + ys| ==>
      (xs + ys)[i].doc == base.doc && Kind((xs + ys)[i]) == "speech" && InSection((xs + ys)[i], info)
  {
    forall i | 0 <= i < |xs + ys|
      ensures (xs + ys)[i].doc == base.doc && Kind((xs + ys)[i]) == "speech" && InSection((xs + ys)[i], info)
    {
      if i >= |xs| {
        assert (xs + ys)[i] == ys[i - |xs|];
      }
    }
  }

  /** A section's rows: all its summaries first, then its speeches' paragraphs. */
  function SectionRows(base: Row, sec: Element): seq<Row>
  {
    var info := SectionOf(sec);
    SummaryRows(base, info, Summaries(sec)) + SpeechesRows(base, info, Speeches(sec))
  }

  /** Every row of a section carries the section's columns, and exactly the
      first |summaries| of them are summary rows, one per summary with its
      eId and stripped text; the rest are speech rows. */
  lemma SectionRowsShape(base: Row, sec: Element)
    ensures |SectionRows(base, sec)| >= |Summaries(sec)|
    ensures forall i :: 0 <= i < |Summaries(sec)| ==>
      && SectionRows(base, sec)[i].elementId == Get(Summaries(sec)[i], "eId", "")
      && SectionRows(base, sec)[i].text == StrippedText(Summaries(sec)[i].text)
    ensures forall i :: 0 <= i < |SectionRows(base, sec)| ==>
      var row := SectionRows(base, sec)[i];
      && row.doc == base.doc && InSection(row, SectionOf(sec))
      && (Kind(row) == "summary" <==> i < |Summaries(sec)|)
      && Rank(Kind(row)) == 1
  {
    var info := SectionOf(sec);
    var sums: seq<Row> := SummaryRows(base, info, Summaries(sec));
    var spks: seq<Row> := SpeechesRows(base, info, Speeches(sec));
    SpeechesRowsShape(base, info, Speeches(sec));
    forall i | 0 <= i < |Summaries(sec)|
      ensures (sums + spks)[i] == sums[i]
    {
    }
    forall i | 0 <= i < |sums + spks|
      ensures (sums + spks)[i].doc == base.doc && InSection((sums + spks)[i], info)
      ensures Kind((sums + spks)[i]) == "summary" <==> i < |Summaries(sec)|
      ensures Rank(Kind((sums + spks)[i])) == 1
    {
      if i >= |sums| {
        assert (sums + spks)[i] == spks[i - |sums|];
      }
    }
  }

  /** The sections' rows, section after section in document order. */
  function SectionsRows(base: Row, secs: seq<Element>): seq<Row>
    decreases |secs|
  {
    if secs == [] then []
    else SectionsRows(base, secs[..|secs| - 1]) + SectionRows(base, secs[|secs| - 1])
  }

  /** Every section row fits the record and is a summary or a speech row. */
  lemma {:induction false} SectionsRowsShape(base: Row, secs: seq<Element>)
    ensures forall i :: 0 <= i < |SectionsRows(base, secs)| ==>
      SectionsRows(base, secs)[i].doc == base.doc && Rank(Kind(SectionsRows(base, secs)[i])) == 1
    decreases |secs|
  {
    if secs != [] {
      var init: seq<Row> := SectionsRows(base, secs[..|secs| - 1]);
      var last: seq<Row> := SectionRows(base, secs[|secs| - 1]);
      SectionsRowsShape(base, secs[..|secs| - 1]);
      SectionRowsShape(base, secs[|secs| - 1]);
      SectionPieces(init, last, base);
    }
  }

  /** Two lists of section rows of one record concatenate to one. */
  lemma SectionPieces(xs: seq<Row>, ys: seq<Row>, base: Row)
    requires forall i :: 0 <= i < |xs| ==> xs[i].doc == base.doc && Rank(Kind(xs[i])) == 1
    requires forall i :: 0 <= i < |ys| ==> ys[i].doc == base.doc && Rank(Kind(ys[i])) == 1
    ensures forall i :: 0 <= i < |xs + ys| ==> (xs + ys)[i].doc == base.doc && Rank(Kind((xs + ys)[i])) == 1
  {
    forall i | 0 <= i < |xs + ys|
      ensures (xs + ys)[i].doc == base.doc && Rank(Kind((xs + ys)[i])) == 1
    {
      if i >= |xs| {
        assert (xs + ys)[i] == ys[i - |xs|];
      }
    }
  }

  // ---------------------------------------------------------------- questions

  /** `' '.join(''.join(p.itertext()).strip() for p in x.findall('{*}p'))`, "" without x. */
  function ParagraphsText(x: Option<Element>): string {
    if x.None? then ""
    else
      var ps := Paragraphs(x.value);
      Join(" ", seq(|ps|, k requires 0 <= k < |ps| => Strip(InnerText(ps[k]))))
  }

  /** zip_longest's fill: the i-th element, or None past the end. */
  function Nth(xs: seq<Element>, i: nat): Option<Element> {
    if i < |xs| then Some(xs[i]) else None
  }

  /** The i-th row of zip_longest(questions, answers). */
  function PairRow(base: Row, qs: seq<Element>, ans: seq<Element>, i: nat): (r: Row)
  {
    var q := Nth(qs, i);
    var qt := ParagraphsText(q);
    var at := ParagraphsText(Nth(ans, i));
    QuestionRow(base, AttrOf(q, "eId"), AttrOf(q, "to"), qt, at, Strip(qt + " " + at))
  }

  /** `.//ns:question` (or `.//ns:speech`) with ns bound to the document's default namespace. */
  function InDefaultNs(a: Element, local: string): seq<Element>
    requires a.defaultNs.Some?
  {
    Select(Descendants(a), Step(InNs(a.defaultNs.value), local, None))
  }

  /** The xpath calls raise when the document has no default namespace. */
  predicate PrefixUnbound(akn: Element) {
    TextOr(akn.defaultNs) == ""
  }

  /** Question rows: for a `questions` record with a legal document, questions
      and answers paired by position; the xpath raises when no prefix is bound. */
  function QuestionRows(base: Row, sourceType: string, akn: Option<Element>): (r: Result<seq<Row>, FlattenError>)
    ensures r.Failure? <==> sourceType == "questions" && akn.Some? && PrefixUnbound(akn.value)
    ensures r.Failure? ==> r.error == UndefinedNamespacePrefix
    ensures r.Success? && (sourceType != "questions" || akn.None?) ==> r.value == []
  {
    if sourceType != "questions" || akn.None? then Success([])
    else if PrefixUnbound(akn.value) then Failure(UndefinedNamespacePrefix)
    else
      var qs := InDefaultNs(akn.value, "question");
      var ans := InDefaultNs(akn.value, "speech");
      var n := if |qs| >= |ans| then |qs| else |ans|;
      Success(seq(n, i requires 0 <= i < n => PairRow(base, qs, ans, i)))
  }

  /** zip_longest pairs the i-th question with the i-th answer for
      max(|questions|, |answers|) rows, filling the shorter side with "". */
  lemma QuestionRowsShape(base: Row, akn: Element)
    requires !PrefixUnbound(akn)
    ensures QuestionRows(base, "questions", Some(akn)).Success?
    ensures
      var rows := QuestionRows(base, "questions", Some(akn)).value;
      var qs := InDefaultNs(akn, "question");
      var ans := InDefaultNs(akn, "speech");
      && |rows| == (if |qs| >= |ans| then |qs| else |ans|)
      && forall i :: 0 <= i < |rows| ==>
        && rows[i].doc == base.doc && Kind(rows[i]) == "question"
        && rows[i].elementId == AttrOf(Nth(qs, i), "eId")
        && rows[i].topic == AttrOf(Nth(qs, i), "to")
        && rows[i].question == ParagraphsText(Nth(qs, i))
        && rows[i].writtenAnswer == ParagraphsText(Nth(ans, i))
        && (i >= |qs| ==> rows[i].question == "" && rows[i].elementId == "" && rows[i].topic == "")
        && (i >= |ans| ==> rows[i].writtenAnswer == "")
        && rows[i].text == Strip(rows[i].question + " " + rows[i].writtenAnswer)
  {
  }

  // ---------------------------------------------------------------- the record

  /** The rows of one record: attendance, then sections, then questions. */
  function DebateRows(debate: Element): Result<seq<Row>, FlattenError> {
    var akn := FindAkn(debate);
    var base := DebateBase(debate);
    var q := QuestionRows(base, Get(debate, "type", ""), akn);
    if q.Failure? then Failure(q.error)
    else Success(AttendanceRows(base, akn) + SectionsRows(base, Sections(debate)) + q.value)
  }

  /** Every row of a record fits the record's base row and has one of the four
      kinds, and the kinds come in order: attendance, sections, questions. */
  lemma DebateRowsShape(debate: Element)
    ensures DebateRows(debate).Success? ==>
      var rows := DebateRows(debate).value;
      && (forall i :: 0 <= i < |rows| ==> rows[i].doc == DebateBase(debate).doc && Kind(rows[i]) in Kinds)
      && (forall i, j :: 0 <= i < j < |rows| ==> Rank(Kind(rows[i])) <= Rank(Kind(rows[j])))
  {
    var akn := FindAkn(debate);
    var base := DebateBase(debate);
    var sourceType := Get(debate, "type", "");
    var q := QuestionRows(base, sourceType, akn);
    if q.Success? {
      AttendanceRowsShape(base, akn);
      SectionsRowsShape(base, Sections(debate));
      if sourceType == "questions" && akn.Some? {
        QuestionRowsShape(base, akn.value);
      }
      BlocksInOrder(base, AttendanceRows(base, akn), SectionsRows(base, Sections(debate)), q.value);
    }
  }

  // ---------------------------------------------------------------- untouched columns

  /** Every row of a record is its base row updated with its own kind's
      columns only: whatever it does not set is still "" (see OnlyOwnColumns). */
  lemma DebateRowsOwnColumns(debate: Element)
    ensures DebateRows(debate).Success? ==> AllOwnColumns(DebateRows(debate).value)
  {
    var akn := FindAkn(debate);
    var base := DebateBase(debate);
    var q := QuestionRows(base, Get(debate, "type", ""), akn);
    if q.Success? {
      assert base == Blank(base.doc);
      AttendanceOwnColumns(base.doc, akn);
      SectionsOwnColumns(base.doc, Sections(debate));
      QuestionsOwnColumns(base.doc, Get(debate, "type", ""), akn);
      AllOwnColumnsConcat(AttendanceRows(base, akn), SectionsRows(base, Sections(debate)));
      AllOwnColumnsConcat(AttendanceRows(base, akn) + SectionsRows(base, Sections(debate)), q.value);
    }
  }

  lemma AttendanceOwnColumns(doc: Document, akn: Option<Element>)
    ensures AllOwnColumns(AttendanceRows(Blank(doc), akn))
  {
    BuiltRowsOwnColumns(doc);
  }

  lemma QuestionsOwnColumns(doc: Document, sourceType: string, akn: Option<Element>)
    ensures QuestionRows(Blank(doc), sourceType, akn).Success? ==>
      AllOwnColumns(QuestionRows(Blank(doc), sourceType, akn).value)
  {
    BuiltRowsOwnColumns(doc);
  }

  lemma {:induction false} SpeechesOwnColumns(doc: Document, info: SectionInfo, spks: seq<Element>)
    ensures AllOwnColumns(SpeechesRows(Blank(doc), info, spks))
    decreases |spks|
  {
    if spks != [] {
      BuiltRowsOwnColumns(doc);
      SpeechesOwnColumns(doc, info, spks[..|spks| - 1]);
      AllOwnColumnsConcat(SpeechesRows(Blank(doc), info, spks[..|spks| - 1]), SpeechRows(Blank(doc), info, spks[|spks| - 1]));
    }
  }

  lemma {:induction false} SectionsOwnColumns(doc: Document, secs: seq<Element>)
    ensures AllOwnColumns(SectionsRows(Blank(doc), secs))
    decreases |secs|
  {
    if secs != [] {
      var sec := secs[|secs| - 1];
      var info := SectionOf(sec);
      BuiltRowsOwnColumns(doc);
      SectionsOwnColumns(doc, secs[..|secs| - 1]);
      SpeechesOwnColumns(doc, info, Speeches(sec));
      assert AllOwnColumns(SummaryRows(Blank(doc), info, Summaries(sec)));
      AllOwnColumnsConcat(SummaryRows(Blank(doc), info, Summaries(sec)), SpeechesRows(Blank(doc), info, Speeches(sec)));
      AllOwnColumnsConcat(SectionsRows(Blank(doc), secs[..|secs| - 1]), SectionRows(Blank(doc), sec));
    }
  }

  /** A record without a legal document still yields its section rows, and
      only those, under a base row with empty document metadata. */
  lemma NoLegalDocument(debate: Element)
    requires FindAkn(debate).None?
    ensures DebateRows(debate) == Success(SectionsRows(DebateBase(debate), Sections(debate)))
    ensures DebateBase(debate).doc.docId == "" && DebateBase(debate).doc.titleEn == ""
    ensures DebateBase(debate).doc.volume == "" && DebateBase(debate).doc.number == ""
  {
    var base := DebateBase(debate);
    var secs := SectionsRows(base, Sections(debate));
    assert AttendanceRows(base, None) == [];
    AppendNothing(secs);
    assert [] + secs + [] == secs;
  }

  /** Attendance rows, then section rows, then question rows: ranks never decrease. */
  lemma {:induction false} BlocksInOrder(base: Row, att: seq<Row>, secs: seq<Row>, qs: seq<Row>)
    requires forall i :: 0 <= i < |att| ==> att[i].doc == base.doc && Kind(att[i]) == "attendance"
    requires forall i :: 0 <= i < |secs| ==> secs[i].doc == base.doc && Rank(Kind(secs[i])) == 1
    requires forall i :: 0 <= i < |qs| ==> qs[i].doc == base.doc && Kind(qs[i]) == "question"
    ensures forall i :: 0 <= i < |att + secs + qs| ==> (att + secs + qs)[i].doc == base.doc && Kind((att + secs + qs)[i]) in Kinds
    ensures forall i, j :: 0 <= i < j < |att + secs + qs| ==>
      Rank(Kind((att + secs + qs)[i])) <= Rank(Kind((att + secs + qs)[j]))
  {
    var rows := att + secs + qs;
    forall i | 0 <= i < |rows|
      ensures rows[i].doc == base.doc && Kind(rows[i]) in Kinds
      ensures Rank(Kind(rows[i])) == (if i < |att| then 0 else if i < |att| + |secs| then 1 else 2)
    {
      if i < |att| {
        assert rows[i] == att[i];
      } else if i < |att| + |secs| {
        assert rows[i] == secs[i - |att|];
      } else {
        assert rows[i] == qs[i - |att| - |secs|];
      }
    }
  }

  // ---------------------------------------------------------------- the loops

  /** extract_debate_rows itself: the loops append row after row to one list;
      the xpath error escapes and no rows are returned. */
  method ExtractDebateRows(debate: Element) returns (r: Result<seq<Row>, FlattenError>)
    ensures r == DebateRows(debate)
  {
    var akn := FindAkn(debate);
    var base := DebateBase(debate);
    var rows := AppendAttendance([], base, akn);
    AppendNothing(AttendanceRows(base, akn));
    rows := AppendSections(rows, base, Sections(debate));
    var sourceType := Get(debate, "type", "");
    if sourceType == "questions" && akn.Some? {
      if PrefixUnbound(akn.value) {
        return Failure(UndefinedNamespacePrefix);
      }
      rows := AppendQuestions(rows, base, akn.value);
    } else {
      AppendNothing(rows);
    }
    return Success(rows);
  }

  /** The attendance loop: one row per person of the first roll call. */
  method AppendAttendance(rows0: seq<Row>, base: Row, akn: Option<Element>) returns (rows: seq<Row>)
    ensures rows == rows0 + AttendanceRows(base, akn)
  {
    rows := rows0;
    var roll := RollCall(akn);
    if roll.Some? {
      var header := RollHeader(roll.value);
      var persons := Persons(roll.value);
      ghost var all := AttendanceRows(base, akn);
      for i := 0 to |persons|
        invariant rows == rows0 + all[..i]
      {
        var p := persons[i];
        var name := StrippedText(p.text);
        var row := AttendanceRow(base, header, name, PersonId(p));
        TakeOneMore(all, i);
        assert all[i] == row;
        AppendAssoc(rows0, all[..i], [row]);
        rows := rows + [row];
      }
      assert all[..|persons|] == all;
    }
  }

  /** The section loop, section after section in document order. */
  method AppendSections(rows0: seq<Row>, base: Row, secs: seq<Element>) returns (rows: seq<Row>)
    ensures rows == rows0 + SectionsRows(base, secs)
  {
    rows := rows0;
    for k := 0 to |secs|
      invariant rows == rows0 + SectionsRows(base, secs[..k])
    {
      rows := AppendSection(rows, base, secs[k]);
      SectionsRowsSnoc(base, secs, k);
      AppendAssoc(rows0, SectionsRows(base, secs[..k]), SectionRows(base, secs[k]));
    }
    assert secs[..|secs|] == secs;
  }

  /** The sections' rows grow by one section's rows per section. */
  lemma SectionsRowsSnoc(base: Row, secs: seq<Element>, k: nat)
    requires k < |secs|
    ensures SectionsRows(base, secs[..k + 1]) == SectionsRows(base, secs[..k]) + SectionRows(base, secs[k])
  {
    assert secs[..k + 1][..k] == secs[..k];
  }

  /** The question loop over zip_longest(questions, answers). */
  method AppendQuestions(rows0: seq<Row>, base: Row, akn: Element) returns (rows: seq<Row>)
    requires !PrefixUnbound(akn)
    ensures rows == rows0 + QuestionRows(base, "questions", Some(akn)).value
  {
    var qs := InDefaultNs(akn, "question");
    var ans := InDefaultNs(akn, "speech");
    var n := if |qs| >= |ans| then |qs| else |ans|;
    ghost var all := QuestionRows(base, "questions", Some(akn)).value;
    rows := rows0;
    for i := 0 to n
      invariant rows == rows0 + all[..i]
    {
      var q := Nth(qs, i);
      var qt := ParagraphsText(q);
      var at := ParagraphsText(Nth(ans, i));
      var row := QuestionRow(base, AttrOf(q, "eId"), AttrOf(q, "to"), qt, at, Strip(qt + " " + at));
      TakeOneMore(all, i);
      assert all[i] == row;
      AppendAssoc(rows0, all[..i], [row]);
      rows := rows + [row];
    }
    assert all[..n] == all;
  }

  /** One iteration of the section loop: the summaries, then each speech's paragraphs. */
  method AppendSection(rows0: seq<Row>, base: Row, sec: Element) returns (rows: seq<Row>)
    ensures rows == rows0 + SectionRows(base, sec)
  {
    var info := SectionOf(sec);
    var mid := AppendSummaries(rows0, base, info, Summaries(sec));
    rows := AppendSpeeches(mid, base, info, Speeches(sec));
  }

  /** The summary loop of one section. */
  method AppendSummaries(rows0: seq<Row>, base: Row, info: SectionInfo, sums: seq<Element>) returns (rows: seq<Row>)
    ensures rows == rows0 + SummaryRows(base, info, sums)
  {
    ghost var all := SummaryRows(base, info, sums);
    rows := rows0;
    var j := 0;
    while j < |sums|
      invariant 0 <= j <= |sums|
      invariant rows == rows0 + all[..j]
    {
      var summ := sums[j];
      var row := SummaryRow(base, info, Get(summ, "eId", ""), StrippedText(summ.text));
      TakeOneMore(all, j);
      assert all[j] == row;
      AppendAssoc(rows0, all[..j], [row]);
      rows := rows + [row];
      j := j + 1;
    }
    assert all[..j] == all;
  }

  /** The speech loop of one section. */
  method AppendSpeeches(rows0: seq<Row>, base: Row, info: SectionInfo, spks: seq<Element>) returns (rows: seq<Row>)
    ensures rows == rows0 + SpeechesRows(base, info, spks)
  {
    rows := rows0;
    for m := 0 to |spks|
      invariant rows == rows0 + SpeechesRows(base, info, spks[..m])
    {
      rows := AppendSpeech(rows, base, info, spks[m]);
      SpeechesRowsSnoc(base, info, spks, m);
      AppendAssoc(rows0, SpeechesRows(base, info, spks[..m]), SpeechRows(base, info, spks[m]));
    }
    assert spks[..|spks|] == spks;
  }

  /** The speeches' rows grow by one speech's rows per speech. */
  lemma SpeechesRowsSnoc(base: Row, info: SectionInfo, spks: seq<Element>, m: nat)
    requires m < |spks|
    ensures SpeechesRows(base, info, spks[..m + 1]) == SpeechesRows(base, info, spks[..m]) + SpeechRows(base, info, spks[m])
  {
    assert spks[..m + 1][..m] == spks[..m];
  }

  /** The paragraph loop of one speech. */
  method AppendSpeech(rows0: seq<Row>, base: Row, info: SectionInfo, spk: Element) returns (rows: seq<Row>)
    ensures rows == rows0 + SpeechRows(base, info, spk)
  {
    var who := SpeakerOf(spk);
    var ps := Paragraphs(spk);
    ghost var all := SpeechRows(base, info, spk);
    rows := rows0;
    var t := 0;
    while t < |ps|
      invariant 0 <= t <= |ps|
      invariant rows == rows0 + all[..t]
    {
      var txt := Strip(InnerText(ps[t]));
      var row := ParagraphRow(base, info, who, txt);
      TakeOneMore(all, t);
      assert all[t] == row;
      AppendAssoc(rows0, all[..t], [row]);
      rows := rows + [row];
      t := t + 1;
    }
    assert all[..t] == all;
  }
}
