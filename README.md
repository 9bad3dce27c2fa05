# Oireachtas debate corpus: collection, combination and flattening

This project models the data pipeline of the Oireachtas debate collector in Dafny.

- **Collect.py** pages through the Oireachtas API for Dáil and Seanad debates, committee debates and written parliamentary questions. It downloads each record's Akoma Ntoso XML, at most N per source. It then combines all of them into one `<all_debates>` file. Each record becomes a `<debate>` element, tagged with its type, date, committee slug or question number.
- **agg_from_hub.py** joins several such slices into one corpus by stripping each slice's declaration and `<all_debates>` wrapper.
- **extract_text.py** streams the corpus with `iterparse`. It flattens every typed `<debate>` record into CSV rows: attendance, then section summaries and speech paragraphs, then written questions and answers. It writes the rows through a lazily created CSV writer. It clears and purges each element after its event.
- **debate_stream_test.py** is a trial run of the flattener on the first few records.
- **XML_to_CSV_iterative_parsing.py** is an earlier converter. It yields question rows only.

The modules follow the source files:

| module | file | models |
|---|---|---|
| `Text` | `text.dfy` | the Python string operations the code uses: `strip`/`lstrip`, `replace`, `split`, `join` |
| `Seqs` | `seqs.dfy` | small sequence facts used by the proofs |
| `Tree` | `tree.dfy` | an lxml element, and the subset of ElementPath/XPath lookups the flatteners use |
| `Rows` | `rows.dfy` | the 30-column row dictionary, as a record |
| `Flatten` | `flatten.dfy` | `extract_debate_rows`: specification functions, the imperative method, and the properties |
| `CsvOut` | `csv_out.dfy` | the CSV file a lazily created `DictWriter` produces |
| `Stream` | `stream.dfy` | `iterparse` with clear and purge, and `stream_and_write` |
| `StreamTest` | `stream_test.dfy` | `debate_stream_test.py` |
| `IterCsv` | `iterparse_csv.dfy` | `parse_file` and `main` of `XML_to_CSV_iterative_parsing.py` |
| `Collect` | `collect.dfy` | `Collect.py` |
| `Aggregate` | `aggregate.dfy` | `agg_from_hub.py` |

Two drivers are shown to lose data:

- The streaming driver as written loses every record whose legal document is itself an Akoma Ntoso `<debate>`.
- The trial run cannot flatten a questions record.

Both appear under "## Findings". The rest of the model uses the corrected behaviour, and the as-written behaviour is kept beside it.

## Model

| member | source | states |
|---|---|---|
| `Text.TrimLeft` | extract_text.py:62 | the result is a suffix of the input, only whitespace was removed, and it does not start with whitespace |
| `Text.TrimRight` | extract_text.py:62 | the result is a prefix of the input, only whitespace was removed, and it does not end with whitespace |
| `Text.Strip` | extract_text.py:62 | `str.strip()`: the result has no whitespace at either end and is never longer |
| `Text.StripTrimmed` | extract_text.py:62 | an already trimmed text is left unchanged |
| `Text.StripIdempotent` | agg_from_hub.py:31 | stripping twice is the same as stripping once |
| `Text.LStripChar` | agg_from_hub.py:26 | `lstrip(c)` removes exactly the leading run of `c` |
| `Text.ReplaceAllAbsent` | Collect.py:176 | `replace` leaves a text without the pattern unchanged |
| `Text.ReplaceAllShrinks` | Collect.py:176 | replacing a pattern with nothing never lengthens the text |
| `Text.ReplaceAll` | Collect.py:176 | definition: `str.replace`, left to right over non-overlapping occurrences |
| `Text.Split` | Collect.py:111-112 | `split('/')` yields at least one part, and no part holds the separator |
| `Text.JoinSplit` | Collect.py:111-112 | joining the parts of a split gives back the text |
| `Text.SplitJoin` | Collect.py:111-112 | splitting a join of separator-free parts gives back the parts |
| `Text.Join` | extract_text.py:168 | definition: `sep.join(parts)` |
| `Rows.Header` | extract_text.py:80-94 | the row dictionary has 30 columns |
| `Rows.Cells` | extract_text.py:80-94 | one cell per header column, the record-level values first |
| `Rows.Column` | extract_text.py:80-92 | definition: the value a row dictionary holds under each of the 30 key names of base |
| `Rows.CellsUnderHeader` | extract_text.py:80-92 | the i-th cell of a written line is the row's value under the i-th header name |
| `Rows.Blank` | extract_text.py:80-94 | the base row carries the record's fields and leaves every per-row column empty |
| `Rows.BuiltRowsOwnColumns` | extract_text.py:108-115 | an attendance, summary, speech or question row built from the blank base keeps "" in every column its kind does not set |
| `Tree.SelectMembers` | extract_text.py:119 | an element selected by a path step is exactly a candidate that matches the step |
| `Tree.Descendants` | extract_text.py:47 | definition: every element below an element, in document order (`.//`) |
| `Tree.Select` | extract_text.py:119 | definition: the candidates matching a path step, in order |
| `Tree.FindDescendant` | extract_text.py:47 | definition: the first descendant matching a step (`find('.//…')`) |
| `Tree.InnerText` | extract_text.py:150 | definition: `''.join(e.itertext())`, the text and descendants' texts and tails in document order |
| `Tree.DirectTexts` | extract_text.py:101 | definition: the non-empty direct text nodes (`text()`) |
| `Tree.Clear` | extract_text.py:198 | after `clear()` nothing lies below the element, it adds no text, every attribute read gives the default, and it matches the same attribute-free path steps |
| `Tree.ChildrenOfAllFrom` | extract_text.py:49 | a `parent/child` match is a matching child of one of the parents |
| `Tree.NestedFindNeedsDirect` | extract_text.py:47-49 | `.//data/akomaNtoso` finds nothing when `.//akomaNtoso` finds nothing |
| `Flatten.FallbackNeverUsed` | extract_text.py:47-49 | the fallback lookup of the legal document never changes the result |
| `Flatten.FindAkn` | extract_text.py:46-49 | definition: the first Akoma Ntoso element below the record, with the `data/akomaNtoso` fallback |
| `Flatten.NodeText` | extract_text.py:62 | a node's text is stripped, and empty when there is no node |
| `Flatten.Block` | extract_text.py:58-62 | a preface block value is stripped, and empty without a preface |
| `Flatten.DocumentMetadata` | extract_text.py:51-77 | without a legal document every metadata field is empty; otherwise the titles, proponents, statuses, volume and number are stripped, while the doc id and date are attribute values taken as they are |
| `Flatten.PersonId` | extract_text.py:106 | a speaker id never starts with `#` |
| `Flatten.RollHeader` | extract_text.py:101-102 | definition: the first direct text of the roll call's first summary, stripped, or "" |
| `Flatten.Persons` | extract_text.py:103 | definition: the persons below some table below the roll call, in document order, each once |
| `Flatten.AttendanceRows` | extract_text.py:96-116 | definition: one attendance row per person of the first roll call |
| `Flatten.AttendanceRowsShape` | extract_text.py:96-116 | no roll call gives no rows; otherwise one attendance row per listed person, in order, with the roll header as text, that person's id, and the person's stripped text as both attendance and speaker name |
| `Flatten.SpeechRowsShape` | extract_text.py:141-159 | one speech row per paragraph of a speech, carrying its speaker and stripped text |
| `Flatten.SpeechRows` | extract_text.py:141-159 | definition: one row per direct paragraph of a speech, with the speech's speaker columns |
| `Flatten.SpeechesRowsShape` | extract_text.py:141-159 | the speech rows of a section all belong to that section and record |
| `Flatten.SectionRowsShape` | extract_text.py:119-159 | a section yields one row per summary first, each with the summary's eId and stripped text, then its speech rows, all under the section's name and id |
| `Flatten.Sections` | extract_text.py:119 | definition: the `{*}debateSection` elements below the record, in document order |
| `Flatten.SectionsRows` | extract_text.py:119-159 | definition: the rows of each section, section after section |
| `Flatten.SectionsRowsShape` | extract_text.py:119-159 | every section row belongs to the record and is a summary or a speech |
| `Flatten.QuestionRows` | extract_text.py:161-183 | the question block fails exactly when the questions xpath has an unbound prefix; it is empty unless the record is `questions` with a legal document |
| `Flatten.QuestionRowsShape` | extract_text.py:162-183 | zip_longest: as many rows as the longer of the question and answer lists, each pairing the i-th question with the i-th answer and carrying the question's eId and `to` attribute as element id and topic |
| `Flatten.DebateRowsShape` | extract_text.py:40-185 | every row belongs to the record, and attendance rows precede section rows, which precede question rows |
| `Flatten.DebateRows` | extract_text.py:40-185 | definition: attendance rows, then section rows, then question rows, or the escaping xpath error |
| `Flatten.DebateRowsOwnColumns` | extract_text.py:80-183 | every row of a record leaves "" in the columns its kind does not set: no section or question columns on attendance rows, no speaker or question columns on summaries, no question columns on speeches, no section or speaker columns on questions |
| `Flatten.NoLegalDocument` | extract_text.py:47-94 | a record without a legal document still yields its section rows, with empty document metadata |
| `Flatten.BlocksInOrder` | extract_text.py:96-183 | concatenating the three blocks keeps their order of kinds |
| `Flatten.ExtractDebateRows` | extract_text.py:40-185 | the imperative flattener yields exactly the specified rows, or the same error |
| `Flatten.AppendAttendance` | extract_text.py:97-116 | the attendance loop appends the attendance rows |
| `Flatten.AppendSections` | extract_text.py:119-159 | the section loop appends each section's rows in order |
| `Flatten.SectionsRowsSnoc` | extract_text.py:119 | one more section adds its rows at the end |
| `Flatten.AppendSection` | extract_text.py:120-159 | one section's body appends its summary rows and then its speech rows |
| `Flatten.AppendSummaries` | extract_text.py:130-138 | the summary loop appends one row per summary |
| `Flatten.AppendSpeeches` | extract_text.py:141-159 | the speech loop appends each speech's rows in order |
| `Flatten.SpeechesRowsSnoc` | extract_text.py:141 | one more speech adds its rows at the end |
| `Flatten.AppendSpeech` | extract_text.py:149-159 | the paragraph loop appends one row per paragraph |
| `Flatten.AppendQuestions` | extract_text.py:167-183 | the zip_longest loop appends the question rows |
| `CsvOut.DataLinesShape` | extract_text.py:211 | one data line per row, holding that row's cells |
| `CsvOut.DataLinesAppend` | extract_text.py:211 | the data lines of two batches are the lines of each, in order |
| `CsvOut.Csv` | extract_text.py:207-211 | definition: nothing for no rows; otherwise the header line and one line per row |
| `CsvOut.CsvShape` | extract_text.py:207-211 | the header is written once, first, exactly when there is a row; every data line is as wide as the header |
| `CsvOut.CsvAppend` | extract_text.py:207-211 | writing a batch adds the header only before the first non-empty batch and keeps earlier lines |
| `Stream.Siblings.constructor` | extract_text.py:200-201 | holds the given child list |
| `Stream.Siblings.Release` | extract_text.py:216-218 | after `clear()` and the purge, the list starts with the cleared element and keeps only its later siblings |
| `Stream.StreamAndWrite` | extract_text.py:187-218 | the file holds the CSV of the rows of every typed event in order; errors are reported once per failing event |
| `Stream.Walk` | extract_text.py:193-218 | definition: the end events of an element's subtree in post-order, with the driver's clear and purge applied as they happen |
| `Stream.WalkChildren` | extract_text.py:200-201 | definition: a child survives only when no later sibling is released |
| `Stream.Batch` | extract_text.py:197-213 | definition: no rows for an untyped event or a failing flattener, all rows otherwise |
| `Stream.StreamRows` | extract_text.py:194-213 | definition: the batches of the events, in event order |
| `Stream.WriteRows` | extract_text.py:207-211 | writing one batch extends the CSV, creating the writer at the first row |
| `Stream.NextEvent` | extract_text.py:194-213 | an untyped event adds nothing; a typed event adds its rows or its one error |
| `Stream.StreamSnoc` | extract_text.py:194 | one more event appends its rows and errors |
| `Stream.StreamAppend` | extract_text.py:194-213 | the stream over two parts is the concatenation of each part's rows and errors |
| `Stream.EventInPlace` | extract_text.py:205-213 | every event's rows sit between the rows of the events before it and those after it |
| `Stream.EventIsolated` | extract_text.py:205-213 | an untyped or failing event contributes no row, so one failing record does not stop the others |
| `Stream.StreamRowsKinds` | extract_text.py:204-211 | every row written comes from a typed record and carries that record's fields and a known kind |
| `Stream.StreamRowsOwnColumns` | extract_text.py:204-211 | every row written leaves "" in the columns its kind does not set |
| `Stream.UntypedWriteNothing` | extract_text.py:196-202 | a stream of untyped events writes nothing and reports nothing |
| `Stream.WalkQuiet` | extract_text.py:193 | an element whose subtree is never released comes through the parse unchanged |
| `Stream.WalkQuietInside` | extract_text.py:196-202 | a released element with no released descendant fires once and is cleared |
| `Stream.WalkChildrenQuiet` | extract_text.py:193 | children with no released descendant come through unchanged |
| `Stream.WalkRecord` | extract_text.py:193-218 | a firing record fires after its descendants' events |
| `Stream.WalkRecords` | extract_text.py:193-218 | a list of records yields the same rows as the records themselves |
| `Stream.IntactRecords` | extract_text.py:193-218 | when only the top-level records fire, each is seen whole and the stream writes exactly their rows |
| `Stream.CorrectedWritesRecords` | extract_text.py:196-202 | if untyped elements are left alone, every record is seen whole even when an inner `<debate>` fires |
| `Stream.DescendantsSingle` | extract_text.py:47 | the descendants of a one-child element are that child and its descendants |
| `Stream.DemoDescendants` | extract_text.py:47 | the descendants of the example record, in document order |
| `Stream.DemoSections` | extract_text.py:119-130 | the example record has one section with one summary |
| `Stream.DemoRecordRows` | extract_text.py:119-138 | the example record, seen whole, yields rows |
| `Stream.DemoInnerWalk` | extract_text.py:196-202 | the inner Akoma Ntoso `<debate>` fires under `{*}debate` and is cleared |
| `Stream.DemoRecordWalk` | extract_text.py:193-202 | the record's event comes after the inner `<debate>` was cleared |
| `Stream.DemoWalk` | extract_text.py:193 | the corpus's events are the inner `<debate>` and then the wiped record |
| `Stream.WalkOnly` | extract_text.py:193-218 | the walk of a one-child element in terms of its child's walk |
| `Stream.WipedDescendants` | extract_text.py:197-198 | what remains of the record after the inner clear |
| `Stream.WipedLookups` | extract_text.py:47-119 | the wiped record has a legal document but no sections and no roll call |
| `Stream.WipedRecordRows` | extract_text.py:40-185 | the wiped record yields no rows |
| `Stream.NothingWritten` | extract_text.py:196-211 | an untyped event followed by a rowless record writes nothing |
| `Stream.AsWrittenWipesRecord` | extract_text.py:193-202 | as written, the example corpus yields no row although its record has rows |
| `Stream.DemoCorpus` | extract_text.py:193 | the example corpus meets the corrected driver's premise |
| `Stream.CorrectedKeepsDemo` | extract_text.py:196-202 | with untyped elements left alone, the example corpus yields exactly its record's rows |
| `StreamTest.DstAgrees` | debate_stream_test.py:7-152 | the test's copy of the flattener agrees with extract_debate_rows wherever it does not fail |
| `StreamTest.DstDebateRows` | debate_stream_test.py:7-152 | definition: extract_debate_rows with the NameError at line 134 on every questions record whose prefix is bound |
| `StreamTest.ZipLongestMissing` | debate_stream_test.py:1-2 | a questions record whose legal document binds its question prefix makes the copy fail on the undefined name, while the original succeeds |
| `StreamTest.DstExtractDebateRows` | debate_stream_test.py:7-152 | the imperative copy computes the copy's specification |
| `StreamTest.TestFirstDebates` | debate_stream_test.py:154-177 | the loop takes exactly the actions of the specified run |
| `StreamTest.Run` | debate_stream_test.py:157-177 | definition: release untyped events, stop on an exception, print each record, stop at the n-th, release the others |
| `StreamTest.RunCount` | debate_stream_test.py:170-172 | at most n records (at least one) are printed, and the count is the number of printings |
| `StreamTest.RunReleases` | debate_stream_test.py:175-177 | every printed record except the last is released right after it is printed |
| `StreamTest.RunEndsPrinted` | debate_stream_test.py:170-172 | a run stopped by the limit ends with a printing, so the n-th record is never cleared |
| `StreamTest.RunPrints` | debate_stream_test.py:166-168 | every printing is of a typed event, with that event's type |
| `IterCsv.ParseDebate` | XML_to_CSV_iterative_parsing.py:24-106 | one event's yielded rows are its question block |
| `IterCsv.QuestionBatch` | XML_to_CSV_iterative_parsing.py:24-106 | definition: the question block of any fired element, typed or not |
| `IterCsv.Generated` | XML_to_CSV_iterative_parsing.py:20-113 | definition: the rows yielded event by event until an exception ends the generator |
| `IterCsv.WriteQuestions` | XML_to_CSV_iterative_parsing.py:116-129 | the file is the CSV of everything yielded, and the generator's error is the run's error |
| `IterCsv.WriteRows` | XML_to_CSV_iterative_parsing.py:125-129 | one event's rows extend the CSV |
| `IterCsv.WriteRow` | XML_to_CSV_iterative_parsing.py:126-129 | the header goes out just before the first row |
| `IterCsv.GeneratedSnoc` | XML_to_CSV_iterative_parsing.py:24-106 | one more event adds its rows, or its error ends the generator |
| `IterCsv.GeneratedStops` | XML_to_CSV_iterative_parsing.py:24-106 | after an error nothing more is yielded |
| `IterCsv.GeneratedQuestionsOnly` | XML_to_CSV_iterative_parsing.py:72-106 | the generator yields question rows only, each from a `questions` record |
| `IterCsv.BatchQuestionsOnly` | XML_to_CSV_iterative_parsing.py:72-106 | a record that is not `questions`, or has no legal document, yields nothing |
| `IterCsv.QuestionBatchIsTail` | XML_to_CSV_iterative_parsing.py:72-106 | the yielded rows are exactly the last block of extract_debate_rows, and both fail on the same records |
| `IterCsv.WrittenFile` | XML_to_CSV_iterative_parsing.py:123-129 | the header comes once, first, exactly when a row was yielded, followed by one line per row |
| `IterCsv.PlainTagSeesRecords` | XML_to_CSV_iterative_parsing.py:22 | with `tag='debate'` the namespaced inner `<debate>` never fires, so each record is seen whole |
| `IterCsv.PlainTagKeepsDemo` | XML_to_CSV_iterative_parsing.py:22 | the example record that the other driver wipes is seen whole here |
| `Collect.DateRange` | Collect.py:33-35 | `end - start + 1` consecutive days from `start`, none when `end` precedes `start` |
| `Collect.XmlUrl` | Collect.py:62-65 | definition: the `uri` of an xml object, or for committees and questions (Collect.py:108-109, 154-155) also a bare value |
| `Collect.XmlUrlSources` | Collect.py:65 | the committee and question loops accept the same URLs; the house loop accepts a subset, missing exactly the bare string values |
| `Collect.Entry` | Collect.py:66-68 | naming fails exactly for a committee URL with fewer than eight `/`-parts (IndexError) |
| `Collect.HouseDate` | Collect.py:66 | definition: the record's date, or the item's contextDate when that is falsy |
| `Collect.Harvest` | Collect.py:37-80 | the download loop returns the specified crawl's files, or its IndexError |
| `Collect.Harvested` | Collect.py:45-79 | definition: page after page, stopping on a status other than 200, an empty page or N files |
| `Collect.PageItems` | Collect.py:61-78 | definition: item after item, downloading each new URL and recording it on a 200 |
| `Collect.TakePage` | Collect.py:61-78 | one page's items extend the crawl as specified |
| `Collect.KeptRecord` | Collect.py:67-76 | recording one download, named by its item's file entry, keeps the crawl invariant |
| `Collect.PageItemsKept` | Collect.py:61-78 | one page keeps the crawl invariant |
| `Collect.HarvestedKept` | Collect.py:45-79 | the crawl keeps its invariant over every page |
| `Collect.HarvestGuarantees` | Collect.py:45-79 | at most N files, each the entry named for a listed item with a distinct URL whose download returned 200, and `seen_xmls` is exactly those URLs |
| `Collect.HarvestedExtends` | Collect.py:45-79 | the crawl only ever appends to its file list |
| `Collect.PageItemsExtends` | Collect.py:61-78 | one page only appends to the file list |
| `Collect.FirstPageStops` | Collect.py:55-60 | a failing or empty first page gives no files |
| `Collect.HouseNamesCollide` | Collect.py:66-68 | two chamber debates of one date get the same file name |
| `Collect.CommitteeName` | Collect.py:111-113 | a committee file is named `date__slug.xml` from URL parts 7 and 6 |
| `Collect.QuestionNumberDefault` | Collect.py:159-160 | a question without a number is filed under `NA` |
| `Collect.StripXmlHeader` | Collect.py:175-176 | the result is stripped |
| `Collect.StripXmlHeaderBare` | Collect.py:175-176 | a trimmed text without BOM or declaration is unchanged |
| `Collect.StripXmlHeaderSaved` | Collect.py:175-176 | a BOM, the declaration and a newline are removed from in front of a trimmed body, leaving that body |
| `Collect.DedentIndent` | Collect.py:185 | the indentation of a record's lines can be undone |
| `Collect.CombineToSingleXml` | Collect.py:174-209 | the output is the opening tag, each group's fragments in order, and the closing tag |
| `Collect.Fragment` | Collect.py:184-186 | definition: the group's opening element, the record with its lines indented, the closing lines |
| `Collect.Combined` | Collect.py:179-208 | definition: the opening tag, the four groups in order, the closing tag |
| `Collect.WriteGroup` | Collect.py:181-186 | one group's loop appends a fragment per file, in order |
| `Collect.FragmentsSnoc` | Collect.py:181 | one more file adds its fragment at the end |
| `Collect.FragmentRecoverable` | Collect.py:184-186 | a fragment is the opening element, the indented record and the closing lines, so the record can be recovered |
| `Collect.CombinedWrapped` | Collect.py:179-208 | the combined file starts with `<all_debates>` and ends with `</all_debates>` |
| `Aggregate.FirstGt` | agg_from_hub.py:27 | the position of the first `>` from a given index, or the end |
| `Aggregate.DeclLength` | agg_from_hub.py:27 | a declaration match is at least 8 long and runs from `<?xml` to `?>` |
| `Aggregate.DropDecls` | agg_from_hub.py:27 | removing declarations never lengthens the text |
| `Aggregate.DropDeclsAbsent` | agg_from_hub.py:27 | a text without `<?xml` is unchanged |
| `Aggregate.DeclDropped` | agg_from_hub.py:27 | a leading declaration is removed whole |
| `Aggregate.HarvesterDeclarationMatched` | agg_from_hub.py:27 | the regex removes the declaration the harvester writes |
| `Aggregate.StripOuterWrapper` | agg_from_hub.py:24-31 | the result is stripped |
| `Aggregate.StripOuterWrapperBare` | agg_from_hub.py:24-31 | an unwrapped trimmed text without declaration is unchanged |
| `Aggregate.WrappedHasNoDecl` | agg_from_hub.py:29-30 | wrapping adds no declaration |
| `Aggregate.OpenDropped` | agg_from_hub.py:29 | the opening tag and the whitespace after it are removed |
| `Aggregate.DropOpen` | agg_from_hub.py:29 | definition: `^\s*<all_debates>\s*` removed once |
| `Aggregate.CloseDropped` | agg_from_hub.py:30 | the closing tag and the whitespace around it are removed |
| `Aggregate.DropClose` | agg_from_hub.py:30 | definition: `\s*</all_debates>\s*$` removed once |
| `Aggregate.Unwrap` | agg_from_hub.py:24-31 | unwrapping a wrapped body gives the stripped body |
| `Aggregate.CombinedUnwraps` | agg_from_hub.py:24-31 | unwrapping a combined file gives its stripped groups |
| `Aggregate.Aggregate` | agg_from_hub.py:35-45 | the aggregate is the wrapper around each non-empty unwrapped slice, one per line |
| `Aggregate.Inners` | agg_from_hub.py:37-42 | definition: the non-empty unwrapped slices, in order |
| `Aggregate.Aggregated` | agg_from_hub.py:35-45 | definition: the opening tag, one line per non-empty inner text, the closing tag |
| `Aggregate.AggregateStep` | agg_from_hub.py:41-44 | an empty slice writes nothing; otherwise it writes its inner text and a newline |
| `Aggregate.LinesSnoc` | agg_from_hub.py:43-44 | one more inner text adds its line at the end |
| `Aggregate.LinesJoin` | agg_from_hub.py:42-45 | the written lines are the inner texts joined by newlines, plus a final newline |
| `Aggregate.StripLines` | agg_from_hub.py:42-45 | stripping the written lines gives the joined inner texts |
| `Aggregate.AggregateUnwraps` | agg_from_hub.py:24-45 | unwrapping the aggregate gives back the unwrapped slices joined by newlines |
| `Aggregate.InnersShape` | agg_from_hub.py:41-42 | every written inner text is non-empty and stripped |

## Left out

- HTTP, file reading and writing, the progress bars, the `print` messages and the Hugging Face downloads and uploads are not modelled. The API pages, the download statuses and the file contents are parameters: a listing of pages (an empty page with status 200 past its end), a status function indexed by download attempt, and a contents function from path to text.
- The query parameters of the API requests (chamber, dates, question type) are not modelled; the listing is given per source.
- The lxml parser is not modelled. The tree is given as an `Element` value, and `recover=True` has no counterpart. Only the ElementPath/XPath subset the flatteners use is modelled.
- `iterparse` is modelled as a post-order walk that applies the driver's clear and purge as it goes. Memory use is not modelled.
- `Stream.Siblings.Release` models the purge on one child list. `Stream.StreamAndWrite` takes the events the walk produces, so the walk, not the class, is what shapes the events.
- `StreamTest.TestFirstDebates` takes its events as given. Its own release policy differs from the walk's on empty `type` values and on the last record, and is stated by `StreamTest.RunReleases` and `StreamTest.RunEndsPrinted` rather than fed back into the events.
- CSV quoting, escaping and encoding are not modelled: a line is the list of its cells.
- A row dictionary is a record with one field per column. Python's key order is the order of `Rows.Header`.
- `Collect.DateRange` works on day numbers. Calendar dates are not modelled.
- `Collect.XmlUrl`: a JSON value for `xml` or `uri` that is neither a string nor null (a number, a list) is not modelled. Only its truthiness would matter.
- `Collect.Harvest`: exceptions other than the committee IndexError are not modelled. A JSON null `debateRecord`, `formats`, `question` or `debateSection` makes `.get` raise AttributeError (Collect.py:62-63, 106-107, 151-153). A `requests.get` failure or a `resp.json()` decode error (Collect.py:54, 58, 69) would also abort the downloader. The listing, as a sequence of pages, and the status function cannot express these cases.
- `Collect.Harvest`: the `downloaded` counter is the length of the file list, which it always equals.
- `Aggregate.DropDecls`: its own contract only bounds the length. What it removes is stated by `Aggregate.DropDeclsAbsent`, `Aggregate.DeclDropped` and `Aggregate.HarvesterDeclarationMatched`.
- `Text.IsSpace` is the set of characters Python's `str.isspace` and the regex `\s` accept for `str` patterns. Other Unicode semantics (normalisation, case) do not arise.
- Analyse.py, 1957.py, push_csv_to_hub.py, gpu_check.py, debate_debug.py and the `__main__` bodies are not part of this model.

## Findings

| source | as written | input that shows it | evidently intended | confidence | as-written member | corrected member |
|---|---|---|---|---|---|---|
| extract_text.py:193-202 | `iterparse(tag='{*}debate')` also fires for the Akoma Ntoso `<debate>` element inside each record's legal document. That element has no `type` attribute, so it is cleared before the record's own end event. The record then has no preface, sections or roll call left. | `Stream.DemoRoot`: one `<debate type="dail">` record whose legal document is an Akoma Ntoso `<debate>` holding a section with a summary | every typed record yields its rows | high (proved about the model; not executed) | `Stream.AsWrittenWipesRecord` | `Stream.CorrectedWritesRecords`, `Stream.CorrectedKeepsDemo` |
| debate_stream_test.py:1-2, 134 | The copy of `extract_debate_rows` calls `zip_longest` without importing it. Every `questions` record with a legal document raises NameError. | any `questions` record with an Akoma Ntoso document whose question prefix is bound | the question rows, as extract_text.py:167 produces them | high (proved about the model; not executed) | `StreamTest.ZipLongestMissing` | `Flatten.QuestionRowsShape`, `Flatten.ExtractDebateRows` |
