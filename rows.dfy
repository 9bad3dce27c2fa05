/**
 * The flat rows of the corpus CSV. extract_debate_rows builds every row of a
 * record as a copy of one `base` dictionary updated with some per-row columns,
 * so every row has the same thirty keys in the same order: the fifteen
 * record-level columns (doc_id .. question_number), then the fifteen per-row
 * columns (section_name .. attendance). A row is modelled as a record with
 * exactly those fields, the record-level ones grouped in `doc`.
 */
module Rows {
  import opened Wrappers

  /** doc_id .. question_number: the values every row of a record repeats. */
  datatype Document = Document(
    docId: string, sourceType: string, date: string,
    titleGa: string, titleEn: string,
    proponentGa: string, proponentEn: string,
    statusGa: string, statusEn: string,
    documentDate: string, volume: string, number: string,
    committeeName: string, questionType: string, questionNumber: string)

  /** One CSV row. */
  datatype Row = Row(
    doc: Document,
    sectionName: string, sectionId: string, elementType: string, elementId: string,
    speakerId: string, speakerName: string, speakerRole: string, recordedTime: string,
    topic: string, question: string, writtenAnswer: string, text: string,
    headingText: string, headingTime: string, attendance: string)

  /** `list(rows[0].keys())`: the CSV header, in the key order of `base`. */
  function Header(): (h: seq<string>)
    ensures |h| == 30
  {
    ["doc_id", "source_type", "date", "title_ga", "title_en",
     "proponent_ga", "proponent_en", "status_ga", "status_en",
     "document_date", "volume", "number",
     "committee_name", "question_type", "question_number",
     "section_name", "section_id", "element_type", "element_id",
     "speaker_id", "speaker_name", "speaker_role", "recorded_time",
     "topic", "question", "written_answer", "text",
     "heading_text", "heading_time", "attendance"]
  }

  /** The record-level cells, in header order. */
  function DocCells(d: Document): seq<string> {
    [d.docId, d.sourceType, d.date, d.titleGa, d.titleEn,
     d.proponentGa, d.proponentEn, d.statusGa, d.statusEn,
     d.documentDate, d.volume, d.number,
     d.committeeName, d.questionType, d.questionNumber]
  }

  /** DictWriter's line for a row: its values under the header's keys, in order. */
  function Cells(r: Row): (cells: seq<string>)
    ensures |cells| == |Header()|
    ensures cells[..15] == DocCells(r.doc)
    ensures cells[17] == r.elementType && cells[26] == r.text
  {
    DocCells(r.doc) +
    [r.sectionName, r.sectionId, r.elementType, r.elementId,
     r.speakerId, r.speakerName, r.speakerRole, r.recordedTime,
     r.topic, r.question, r.writtenAnswer, r.text,
     r.headingText, r.headingTime, r.attendance]
  }

  /** The `base` dictionary: the record's values and "" in every per-row column. */
  function Blank(doc: Document): (r: Row)
    ensures r.doc == doc
    ensures Cells(r)[15..] == seq(15, _ => "")
  {
    Row(doc, "", "", "", "", "", "", "", "", "", "", "", "", "", "", "")
  }

  /** `row[name]`: the value a row dictionary holds under a key, looked up by
      the key names base is written with. */
  function Column(r: Row, name: string): Option<string> {
    match name
    case "doc_id" => Some(r.doc.docId)
    case "source_type" => Some(r.doc.sourceType)
    case "date" => Some(r.doc.date)
    case "title_ga" => Some(r.doc.titleGa)
    case "title_en" => Some(r.doc.titleEn)
    case "proponent_ga" => Some(r.doc.proponentGa)
    case "proponent_en" => Some(r.doc.proponentEn)
    case "status_ga" => Some(r.doc.statusGa)
    case "status_en" => Some(r.doc.statusEn)
    case "document_date" => Some(r.doc.documentDate)
    case "volume" => Some(r.doc.volume)
    case "number" => Some(r.doc.number)
    case "committee_name" => Some(r.doc.committeeName)
    case "question_type" => Some(r.doc.questionType)
    case "question_number" => Some(r.doc.questionNumber)
    case "section_name" => Some(r.sectionName)
    case "section_id" => Some(r.sectionId)
    case "element_type" => Some(r.elementType)
    case "element_id" => Some(r.elementId)
    case "speaker_id" => Some(r.speakerId)
    case "speaker_name" => Some(r.speakerName)
    case "speaker_role" => Some(r.speakerRole)
    case "recorded_time" => Some(r.recordedTime)
    case "topic" => Some(r.topic)
    case "question" => Some(r.question)
    case "written_answer" => Some(r.writtenAnswer)
    case "text" => Some(r.text)
    case "heading_text" => Some(r.headingText)
    case "heading_time" => Some(r.headingTime)
    case "attendance" => Some(r.attendance)
    case _ => None
  }

  /** DictWriter writes every cell under its own key: the i-th cell of a row's
      line is the value the row holds under the i-th header name. */
  lemma CellsUnderHeader(r: Row)
    ensures forall i :: 0 <= i < |Header()| ==> Column(r, Header()[i]) == Some(Cells(r)[i])
  {
    var h := Header();
    var c := Cells(r);
    forall i | 0 <= i < |h|
      ensures Column(r, h[i]) == Some(c[i])
    {
      if i < 15 {
        assert c[i] == DocCells(r.doc)[i];
      }
    }
  }

  /** The value of element_type. */
  function Kind(r: Row): string {
    r.elementType
  }

  /** The four values of element_type. */
  const Kinds: set<string> := {"attendance", "summary", "speech", "question"}

  /** Position of a kind in the order the rows are produced. */
  function Rank(kind: string): nat {
    if kind == "attendance" then 0
    else if kind == "summary" || kind == "speech" then 1
    else 2
  }

  /** The section columns of a debateSection: name, eId, heading text and time. */
  datatype SectionInfo = SectionInfo(name: string, id: string, headingText: string, headingTime: string)

  /** The section columns a row carries. */
  predicate InSection(r: Row, info: SectionInfo) {
    && r.sectionName == info.name && r.sectionId == info.id
    && r.headingText == info.headingText && r.headingTime == info.headingTime
  }

  /** The speech columns of a speech: eId, by, as, the from text and its time. */
  datatype Speaker = Speaker(speechId: string, speakerId: string, role: string, name: string, recordedTime: string)

  /** The speech columns a paragraph row carries. */
  predicate BySpeaker(r: Row, who: Speaker) {
    && r.elementId == who.speechId && r.speakerId == who.speakerId
    && r.speakerName == who.name && r.speakerRole == who.role
    && r.recordedTime == who.recordedTime
  }

  /** The row of one attendee: `name` is the person's stripped text, `id` its
      refersTo without the leading '#'. */
  function AttendanceRow(base: Row, header: string, name: string, id: string): Row {
    base.(elementType := "attendance", text := header, attendance := name,
          speakerId := id, speakerName := name)
  }

  /** A summary row of a section. */
  function SummaryRow(base: Row, info: SectionInfo, id: string, text: string): Row {
    base.(sectionName := info.name, sectionId := info.id,
          elementType := "summary", elementId := id, text := text,
          headingText := info.headingText, headingTime := info.headingTime)
  }

  /** The row of one paragraph of a speech, with the paragraph's text. */
  function ParagraphRow(base: Row, info: SectionInfo, who: Speaker, text: string): Row {
    base.(sectionName := info.name, sectionId := info.id,
          elementType := "speech", elementId := who.speechId,
          speakerId := who.speakerId, speakerName := who.name,
          speakerRole := who.role, recordedTime := who.recordedTime,
          text := text, headingText := info.headingText, headingTime := info.headingTime)
  }

  /** The row pairing a question (id, topic, text `qt`) with an answer text `at`. */
  function QuestionRow(base: Row, id: string, topic: string, qt: string, at: string, text: string): Row {
    base.(elementType := "question", elementId := id, topic := topic,
          question := qt, writtenAnswer := at, text := text)
  }

  /** The per-row columns a row of its kind never sets are still the "" of
      base: attendance rows carry no section, speech or question columns,
      summary rows no speaker or question columns, speech rows no question
      columns, and question rows no section or speaker columns. */
  predicate OnlyOwnColumns(r: Row) {
    && (Kind(r) == "attendance" ==>
          && r.sectionName == "" && r.sectionId == "" && r.elementId == ""
          && r.speakerRole == "" && r.recordedTime == ""
          && r.topic == "" && r.question == "" && r.writtenAnswer == ""
          && r.headingText == "" && r.headingTime == "")
    && (Kind(r) == "summary" ==>
          && r.speakerId == "" && r.speakerName == "" && r.speakerRole == "" && r.recordedTime == ""
          && r.topic == "" && r.question == "" && r.writtenAnswer == "" && r.attendance == "")
    && (Kind(r) == "speech" ==>
          r.topic == "" && r.question == "" && r.writtenAnswer == "" && r.attendance == "")
    && (Kind(r) == "question" ==>
          && r.sectionName == "" && r.sectionId == "" && r.speakerId == "" && r.speakerName == ""
          && r.speakerRole == "" && r.recordedTime == "" && r.headingText == "" && r.headingTime == ""
          && r.attendance == "")
  }

  /** Each row is `base.copy()` updated with its own kind's columns, so a row
      built from the blank base keeps "" everywhere else. */
  lemma BuiltRowsOwnColumns(doc: Document)
    ensures forall header, name, id :: OnlyOwnColumns(AttendanceRow(Blank(doc), header, name, id))
    ensures forall info, id, text :: OnlyOwnColumns(SummaryRow(Blank(doc), info, id, text))
    ensures forall info, who, text :: OnlyOwnColumns(ParagraphRow(Blank(doc), info, who, text))
    ensures forall id, topic, qt, at, text :: OnlyOwnColumns(QuestionRow(Blank(doc), id, topic, qt, at, text))
  {
  }

  /** Every row of a list keeps to its own kind's columns. */
  predicate AllOwnColumns(rows: seq<Row>) {
    forall i :: 0 <= i < |rows| ==> OnlyOwnColumns(rows[i])
  }

  lemma AllOwnColumnsConcat(xs: seq<Row>, ys: seq<Row>)
    requires AllOwnColumns(xs) && AllOwnColumns(ys)
    ensures AllOwnColumns(xs + ys)
  {
    forall i | 0 <= i < |xs + ys|
      ensures OnlyOwnColumns((xs + ys)[i])
    {
      if i >= |xs| {
        assert (xs + ys)[i] == ys[i - |xs|];
      }
    }
  }
}
