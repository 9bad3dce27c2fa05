/**
 * The harvester: the calendar helper, the paging and de-duplication loop
 * shared by the three downloaders (house debates, committee debates, written
 * questions), the names given to the downloaded files, and the assembly of
 * all files into one `<all_debates>` document.
 *
 * The Oireachtas API and the file system are oracles here: `pages[k]` is the
 * API's answer to the listing request with `skip == 50 * k` (past the end of
 * `pages` the API answers with an empty result list), `status(a)` is the HTTP
 * status of the a-th XML download of the run, and `contents(path)` is the text
 * of a downloaded file.
 */
module Collect {
  import opened Wrappers
  import opened Text
  import opened Seqs

  // ---------------------------------------------------------------- daterange

  /** daterange(start, end) over day numbers: every day from start to end, in
      order, one apart; none when end is before start. */
  method DateRange(start: int, end: int) returns (days: seq<int>)
    ensures |days| == (if end >= start then end - start + 1 else 0)
    ensures forall i :: 0 <= i < |days| ==> days[i] == start + i
  {
    days := [];
    var count := end - start + 1;
    var n := 0;
    while n < count
      invariant 0 <= n <= (if count > 0 then count else 0)
      invariant |days| == n
      invariant forall i :: 0 <= i < n ==> days[i] == start + i
    {
      days := days + [start + n];
      n := n + 1;
    }
  }

  // ---------------------------------------------------------------- the API's answers

  /** A JSON entry read with `.get`: absent, null, or a string. */
  datatype Field = Missing | Null | Str(s: string)

  /** `formats.get("xml")`: absent, an object (read for its "uri"), or a bare value. */
  datatype XmlFormat = NoXml | XmlObject(uri: Field) | XmlBare(value: Field)

  /** One result item, reduced to the entries the loops read: the record's (or
      question's) date, the item's contextDate, the xml format, and a
      question's questionNumber. */
  datatype Listing = Listing(date: Field, contextDate: Field, xml: XmlFormat, questionNumber: Field)

  /** One answer of the listing endpoint: its status and its "results". */
  datatype Page = Page(status: int, results: seq<Listing>)

  /** Which downloader runs the loop. */
  datatype Source = House | Committee | WrittenQuestions

  /** An entry of the returned `files` list: the path written, the date, and
      the committee slug or question number (absent for house debates). */
  datatype FileEntry = FileEntry(path: string, date: Option<string>, tag: Option<string>)

  /** The exception that escapes a downloader: a committee URL with fewer than
      eight '/'-separated segments. */
  datatype HarvestError = IndexError

  const Limit: nat := 50

  /** `x.get(key, default)` on a JSON object. */
  function Lookup(f: Field, default: Option<string>): Option<string> {
    match f
    case Missing => default
    case Null => None
    case Str(s) => Some(s)
  }

  /** Python truthiness of a str-or-None value. */
  predicate Truthy(v: Option<string>) {
    v.Some? && v.value != ""
  }

  /** A str-or-None value inside an f-string. */
  function Show(v: Option<string>): string {
    if v.Some? then v.value else "None"
  }

  /** The XML URL of an item. The house loop reads `.get("uri")` of an object
      only; the other two also take a bare value as the URL. */
  function XmlUrl(src: Source, item: Listing): Option<string>
  {
    match item.xml
    case NoXml => None
    case XmlObject(uri) => Lookup(uri, None)
    case XmlBare(v) => if src == House then None else Lookup(v, None)
  }

  /** The committee and question loops accept the same URLs; the house loop
      accepts a subset of them, and misses exactly the bare string values. */
  lemma XmlUrlSources(item: Listing)
    ensures XmlUrl(Committee, item) == XmlUrl(WrittenQuestions, item)
    ensures XmlUrl(House, item).Some? ==> XmlUrl(Committee, item) == XmlUrl(House, item)
    ensures XmlUrl(House, item) != XmlUrl(Committee, item) <==> item.xml.XmlBare? && item.xml.value.Str?
  {
  }

  /** `debate_record.get("date") or item.get("contextDate")`. */
  function HouseDate(item: Listing): Option<string> {
    var d := Lookup(item.date, None);
    if Truthy(d) then d else Lookup(item.contextDate, None)
  }

  /** The file a new URL is saved to and the entry recorded for it. */
  function Entry(src: Source, dir: string, item: Listing, url: string): (r: Result<FileEntry, HarvestError>)
    ensures r.Failure? <==> src == Committee && |Split(url, '/')| < 8
  {
    match src
    case House =>
      var d := HouseDate(item);
      Success(FileEntry(dir + "/" + Show(d) + ".xml", d, None))
    case Committee =>
      var parts := Split(url, '/');
      if |parts| < 8 then Failure(IndexError)
      else Success(FileEntry(dir + "/" + parts[7] + "__" + parts[6] + ".xml", Some(parts[7]), Some(parts[6])))
    case WrittenQuestions =>
      var d := Lookup(item.date, None);
      var q := Lookup(item.questionNumber, Some("NA"));
      Success(FileEntry(dir + "/" + Show(d) + "__pq_" + Show(q) + ".xml", d, q))
  }

  // ---------------------------------------------------------------- the paging loop

  /** The loop's state: `files`, `seen_xmls`, the number of downloads tried so
      far, and, for the proofs, the URL and the download number behind each file. */
  datatype Crawl = Crawl(files: seq<FileEntry>, seen: set<string>, attempts: nat, urls: seq<string>, tickets: seq<nat>)

  const Start := Crawl([], {}, 0, [], [])

  /** The answer to the k-th listing request. */
  function PageAt(pages: seq<Page>, k: nat): Page {
    if k < |pages| then pages[k] else Page(200, [])
  }

  /** The loop over one page's items from index j on: a new, truthy URL is
      named, downloaded, and on a 200 recorded; the loop breaks as soon as the
      cap n is reached. A naming error escapes. */
  function PageItems(src: Source, dir: string, pages: seq<Page>, k: nat, j: nat, n: int,
                     status: nat -> int, c: Crawl): Result<Crawl, HarvestError>
    decreases |PageAt(pages, k).results| - j
  {
    var items := PageAt(pages, k).results;
    if j >= |items| then Success(c)
    else
      var url := XmlUrl(src, items[j]);
      if !Truthy(url) || url.value in c.seen then PageItems(src, dir, pages, k, j + 1, n, status, c)
      else
        var e := Entry(src, dir, items[j], url.value);
        if e.Failure? then Failure(e.error)
        else if status(c.attempts) != 200 then PageItems(src, dir, pages, k, j + 1, n, status, c.(attempts := c.attempts + 1))
        else
          var next := Crawl(c.files + [e.value], c.seen + {url.value}, c.attempts + 1, c.urls + [url.value], c.tickets + [c.attempts]);
          if |next.files| >= n then Success(next)
          else PageItems(src, dir, pages, k, j + 1, n, status, next)
  }

  /** The `while downloaded < N` loop from the k-th request on: it stops on a
      non-200 answer or an empty result list. */
  function Harvested(src: Source, dir: string, pages: seq<Page>, k: nat, n: int,
                     status: nat -> int, c: Crawl): Result<Crawl, HarvestError>
    decreases |pages| - k
  {
    if |c.files| >= n then Success(c)
    else
      var page := PageAt(pages, k);
      if page.status != 200 || page.results == [] then Success(c)
      else
        var r := PageItems(src, dir, pages, k, 0, n, status, c);
        if r.Failure? then r
        else Harvested(src, dir, pages, k + 1, n, status, r.value)
  }

  /** download_debate_xmls, download_committee_xmls and
      download_written_questions_xmls: the same loop, with the source choosing
      how an item gives its URL and its file name. */
  method Harvest(src: Source, dir: string, pages: seq<Page>, status: nat -> int, n: int)
    returns (r: Result<seq<FileEntry>, HarvestError>)
    ensures var h := Harvested(src, dir, pages, 0, n, status, Start);
      && (r.Failure? <==> h.Failure?)
      && (r.Failure? ==> r.error == h.error)
      && (r.Success? ==> r.value == h.value.files)
  {
    var skip := 0;
    var seen: set<string> := {};
    var files: seq<FileEntry> := [];
    var attempts := 0;
    ghost var urls: seq<string> := [];
    ghost var tickets: seq<nat> := [];
    ghost var k := 0;
    while |files| < n
      invariant skip == Limit * k && k <= |pages| + 1
      invariant Harvested(src, dir, pages, 0, n, status, Start) ==
        Harvested(src, dir, pages, k, n, status, Crawl(files, seen, attempts, urls, tickets))
      decreases |pages| + 1 - k
    {
      assert skip / Limit == k;
      var page := PageAt(pages, skip / Limit);
      if page.status != 200 || page.results == [] {
        break;
      }
      var failure;
      files, seen, attempts, urls, tickets, failure :=
        TakePage(src, dir, pages, k, page.results, n, status, files, seen, attempts, urls, tickets);
      if failure.Some? {
        return Failure(failure.value);
      }
      skip := skip + Limit;
      k := k + 1;
    }
    return Success(files);
  }

  /** The `for item in results` loop over one page: a new, truthy URL is named
      and downloaded, and on a 200 the file is recorded, its URL marked seen
      and the count checked against the cap. */
  method TakePage(src: Source, dir: string, ghost pages: seq<Page>, ghost k: nat, items: seq<Listing>,
                  n: int, status: nat -> int, files0: seq<FileEntry>, seen0: set<string>, attempts0: nat,
                  ghost urls0: seq<string>, ghost tickets0: seq<nat>)
    returns (files: seq<FileEntry>, seen: set<string>, attempts: nat,
             ghost urls: seq<string>, ghost tickets: seq<nat>, failure: Option<HarvestError>)
    requires items == PageAt(pages, k).results && |files0| < n
    ensures var r := PageItems(src, dir, pages, k, 0, n, status, Crawl(files0, seen0, attempts0, urls0, tickets0));
      && (failure.Some? <==> r.Failure?)
      && (r.Failure? ==> failure.value == r.error)
      && (r.Success? ==> r.value == Crawl(files, seen, attempts, urls, tickets))
  {
    files, seen, attempts, urls, tickets := files0, seen0, attempts0, urls0, tickets0;
    for j := 0 to |items|
      invariant |files| < n
      invariant PageItems(src, dir, pages, k, 0, n, status, Crawl(files0, seen0, attempts0, urls0, tickets0)) ==
        PageItems(src, dir, pages, k, j, n, status, Crawl(files, seen, attempts, urls, tickets))
    {
      var url := XmlUrl(src, items[j]);
      if Truthy(url) && url.value !in seen {
        var e := Entry(src, dir, items[j], url.value);
        if e.Failure? {
          return files, seen, attempts, urls, tickets, Some(e.error);
        }
        var ok := status(attempts) == 200;
        attempts := attempts + 1;
        if ok {
          files := files + [e.value];
          seen := seen + {url.value};
          urls := urls + [url.value];
          tickets := tickets + [attempts - 1];
          if |files| >= n {
            return files, seen, attempts, urls, tickets, None;
          }
        }
      }
    }
    return files, seen, attempts, urls, tickets, None;
  }

  // ---------------------------------------------------------------- what the loop guarantees

  /** The bookkeeping the loop keeps: one URL and one successful download per
      file, no URL twice, `seen_xmls` holding exactly the recorded URLs, every
      file named from a listed item with that URL, and no more files than the cap. */
  ghost predicate Kept(src: Source, dir: string, pages: seq<Page>, n: int, status: nat -> int, c: Crawl) {
    && |c.urls| == |c.files| && |c.tickets| == |c.files|
    && (forall i, j :: 0 <= i < j < |c.urls| ==> c.urls[i] != c.urls[j])
    && (forall u :: u in c.seen <==> u in c.urls)
    && (forall i :: 0 <= i < |c.tickets| ==> c.tickets[i] < c.attempts && status(c.tickets[i]) == 200)
    && (forall i :: 0 <= i < |c.urls| ==> Listed(src, dir, pages, c.urls[i], c.files[i]))
    && (|c.files| <= n || c.files == [])
  }

  /** Some item of some page has this XML URL and is saved as this file. */
  ghost predicate Listed(src: Source, dir: string, pages: seq<Page>, url: string, f: FileEntry) {
    exists k, j :: 0 <= k < |pages| && 0 <= j < |pages[k].results|
      && XmlUrl(src, pages[k].results[j]) == Some(url) && Entry(src, dir, pages[k].results[j], url) == Success(f)
  }

  /** Recording one more file keeps the bookkeeping. */
  lemma KeptRecord(src: Source, dir: string, pages: seq<Page>, k: nat, j: nat, n: int, status: nat -> int, c: Crawl, e: FileEntry)
    requires Kept(src, dir, pages, n, status, c) && |c.files| < n
    requires k < |pages| && j < |pages[k].results|
    requires XmlUrl(src, pages[k].results[j]).Some?
    requires Entry(src, dir, pages[k].results[j], XmlUrl(src, pages[k].results[j]).value) == Success(e)
    requires XmlUrl(src, pages[k].results[j]).value !in c.seen && status(c.attempts) == 200
    ensures var url := XmlUrl(src, pages[k].results[j]).value;
      Kept(src, dir, pages, n, status, Crawl(c.files + [e], c.seen + {url}, c.attempts + 1, c.urls + [url], c.tickets + [c.attempts]))
  {
    var url := XmlUrl(src, pages[k].results[j]).value;
    var urls := c.urls + [url];
    var files := c.files + [e];
    assert Listed(src, dir, pages, url, e);
    forall i | 0 <= i < |urls| ensures Listed(src, dir, pages, urls[i], files[i]) {
      if i < |c.urls| {
        assert urls[i] == c.urls[i] && files[i] == c.files[i];
      }
    }
  }

  /** One page's loop keeps the bookkeeping. */
  lemma {:induction false} PageItemsKept(src: Source, dir: string, pages: seq<Page>, k: nat, j: nat, n: int,
                                         status: nat -> int, c: Crawl)
    requires Kept(src, dir, pages, n, status, c) && |c.files| < n
    ensures PageItems(src, dir, pages, k, j, n, status, c).Success? ==>
      Kept(src, dir, pages, n, status, PageItems(src, dir, pages, k, j, n, status, c).value)
    decreases |PageAt(pages, k).results| - j
  {
    var items := PageAt(pages, k).results;
    if j < |items| {
      assert k < |pages|;
      var url := XmlUrl(src, items[j]);
      if !Truthy(url) || url.value in c.seen {
        PageItemsKept(src, dir, pages, k, j + 1, n, status, c);
      } else {
        var e := Entry(src, dir, items[j], url.value);
        if e.Success? {
          if status(c.attempts) != 200 {
            PageItemsKept(src, dir, pages, k, j + 1, n, status, c.(attempts := c.attempts + 1));
          } else {
            KeptRecord(src, dir, pages, k, j, n, status, c, e.value);
            var next := Crawl(c.files + [e.value], c.seen + {url.value}, c.attempts + 1, c.urls + [url.value], c.tickets + [c.attempts]);
            if |next.files| < n {
              PageItemsKept(src, dir, pages, k, j + 1, n, status, next);
            }
          }
        }
      }
    }
  }

  /** The whole loop keeps the bookkeeping. */
  lemma {:induction false} HarvestedKept(src: Source, dir: string, pages: seq<Page>, k: nat, n: int,
                                         status: nat -> int, c: Crawl)
    requires Kept(src, dir, pages, n, status, c)
    ensures Harvested(src, dir, pages, k, n, status, c).Success? ==>
      Kept(src, dir, pages, n, status, Harvested(src, dir, pages, k, n, status, c).value)
    decreases |pages| - k
  {
    if |c.files| < n {
      var page := PageAt(pages, k);
      if page.status == 200 && page.results != [] {
        PageItemsKept(src, dir, pages, k, 0, n, status, c);
        var r := PageItems(src, dir, pages, k, 0, n, status, c);
        if r.Success? {
          HarvestedKept(src, dir, pages, k + 1, n, status, r.value);
        }
      }
    }
  }

  /** What a downloader returns: at most N files (none when N <= 0), the i-th
      being the entry named for a listed item whose URL is the i-th of distinct
      URLs whose downloads answered 200, and `seen_xmls` holds exactly those
      URLs, so a failed URL is neither recorded nor marked seen. */
  lemma HarvestGuarantees(src: Source, dir: string, pages: seq<Page>, n: int, status: nat -> int)
    ensures var h := Harvested(src, dir, pages, 0, n, status, Start);
      h.Success? ==>
        && |h.value.files| <= (if n > 0 then n else 0)
        && Kept(src, dir, pages, n, status, h.value)
  {
    HarvestedKept(src, dir, pages, 0, n, status, Start);
  }

  /** The files recorded before a page are kept whatever later pages bring,
      unless a naming error escapes. */
  lemma {:induction false} HarvestedExtends(src: Source, dir: string, pages: seq<Page>, k: nat, n: int,
                                            status: nat -> int, c: Crawl)
    ensures var h := Harvested(src, dir, pages, k, n, status, c);
      h.Success? ==> |c.files| <= |h.value.files| && h.value.files[..|c.files|] == c.files
    decreases |pages| - k
  {
    if |c.files| < n {
      var page := PageAt(pages, k);
      if page.status == 200 && page.results != [] {
        PageItemsExtends(src, dir, pages, k, 0, n, status, c);
        var r := PageItems(src, dir, pages, k, 0, n, status, c);
        if r.Success? {
          HarvestedExtends(src, dir, pages, k + 1, n, status, r.value);
          var h := Harvested(src, dir, pages, k + 1, n, status, r.value);
          if h.Success? {
            assert h.value.files[..|c.files|] == h.value.files[..|r.value.files|][..|c.files|];
          }
        }
      }
    }
  }

  lemma {:induction false} PageItemsExtends(src: Source, dir: string, pages: seq<Page>, k: nat, j: nat, n: int,
                                            status: nat -> int, c: Crawl)
    ensures var r := PageItems(src, dir, pages, k, j, n, status, c);
      r.Success? ==> |c.files| <= |r.value.files| && r.value.files[..|c.files|] == c.files
    decreases |PageAt(pages, k).results| - j
  {
    var items := PageAt(pages, k).results;
    if j < |items| {
      var url := XmlUrl(src, items[j]);
      if !Truthy(url) || url.value in c.seen {
        PageItemsExtends(src, dir, pages, k, j + 1, n, status, c);
      } else {
        var e := Entry(src, dir, items[j], url.value);
        if e.Success? {
          if status(c.attempts) != 200 {
            PageItemsExtends(src, dir, pages, k, j + 1, n, status, c.(attempts := c.attempts + 1));
          } else {
            var next := Crawl(c.files + [e.value], c.seen + {url.value}, c.attempts + 1, c.urls + [url.value], c.tickets + [c.attempts]);
            assert next.files[..|c.files|] == c.files;
            if |next.files| < n {
              PageItemsExtends(src, dir, pages, k, j + 1, n, status, next);
              var r := PageItems(src, dir, pages, k, j + 1, n, status, next);
              if r.Success? {
                assert r.value.files[..|c.files|] == r.value.files[..|next.files|][..|c.files|];
              }
            } else {
              TakeAll(next.files);
            }
          }
        }
      }
    } else {
      TakeAll(c.files);
    }
  }

  /** A first answer that is not a 200, or has no results, ends the loop with nothing. */
  lemma FirstPageStops(src: Source, dir: string, pages: seq<Page>, n: int, status: nat -> int)
    requires pages == [] || pages[0].status != 200 || pages[0].results == []
    ensures Harvested(src, dir, pages, 0, n, status, Start) == Success(Start)
  {
  }

  // ---------------------------------------------------------------- file names

  /** House files are named by date alone: two different URLs of the same day
      are written to the same path, and the later download overwrites the earlier. */
  lemma HouseNamesCollide(dir: string, a: Listing, b: Listing, urlA: string, urlB: string)
    requires HouseDate(a) == HouseDate(b)
    ensures Entry(House, dir, a, urlA).value.path == Entry(House, dir, b, urlB).value.path
  {
  }

  /** A committee URL built from at least eight slash-free segments names its
      file `{segment 7}__{segment 6}.xml` and records segment 7 as the date and
      segment 6 as the slug. */
  lemma CommitteeName(dir: string, item: Listing, parts: seq<string>)
    requires |parts| >= 8 && forall i :: 0 <= i < |parts| ==> '/' !in parts[i]
    ensures Entry(Committee, dir, item, Join("/", parts)) ==
      Success(FileEntry(dir + "/" + parts[7] + "__" + parts[6] + ".xml", Some(parts[7]), Some(parts[6])))
  {
    SplitJoin(parts, '/');
  }

  /** A written question without a questionNumber is saved as `{date}__pq_NA.xml`. */
  lemma QuestionNumberDefault(dir: string, item: Listing, url: string)
    requires item.questionNumber.Missing?
    ensures Entry(WrittenQuestions, dir, item, url).value.tag == Some("NA")
    ensures Entry(WrittenQuestions, dir, item, url).value.path ==
      dir + "/" + Show(Lookup(item.date, None)) + "__pq_NA.xml"
  {
  }

  // ---------------------------------------------------------------- combine_to_single_xml

  /** The declaration strip_xml_header removes: `<?xml version="1.0" encoding="UTF-8"?>`. */
  const Declaration: string := "<?xml" + DeclarationAttributes + "?>"
  const DeclarationAttributes: string := " version=\"1.0\" encoding=\"UTF-8\""

  /** strip_xml_header: leading byte-order marks, then every exact UTF-8
      declaration, then the surrounding whitespace. */
  function StripXmlHeader(text: string): (r: string)
    ensures Trimmed(r)
  {
    Strip(ReplaceAll(LStripChar(text, '\U{FEFF}'), Declaration, ""))
  }

  /** Text with nothing to strip is returned unchanged. */
  lemma StripXmlHeaderBare(text: string)
    requires (text == [] || text[0] != '\U{FEFF}') && !Occurs(text, Declaration) && Trimmed(text)
    ensures StripXmlHeader(text) == text
  {
    ReplaceAllAbsent(text, Declaration, "");
    StripTrimmed(text);
  }

  /** A file saved as a byte-order mark, the declaration, a newline and a
      trimmed body without declarations comes back as the body. */
  lemma StripXmlHeaderSaved(body: string)
    requires Trimmed(body) && !Occurs(body, Declaration)
    ensures StripXmlHeader("\U{FEFF}" + Declaration + "\n" + body) == body
  {
    assert Declaration[0] == '<';
    StripSaved(Declaration, body);
  }

  /** The same for any declaration text that starts with neither a mark nor a newline. */
  lemma StripSaved(decl: string, body: string)
    requires decl != [] && decl[0] != '\U{FEFF}' && decl[0] != '\n'
    requires Trimmed(body) && !Occurs(body, decl)
    ensures Strip(ReplaceAll(LStripChar("\U{FEFF}" + decl + "\n" + body, '\U{FEFF}'), decl, "")) == body
  {
    var rest := "\n" + body;
    assert "\U{FEFF}" + decl + "\n" + body == ['\U{FEFF}'] + (decl + rest);
    LStripCharHead('\U{FEFF}', decl + rest);
    DeclarationDropped(decl, body);
    TrimLeftSpace('\n', body);
    StripTrimmed(body);
  }

  lemma DeclarationDropped(decl: string, body: string)
    requires decl != [] && decl[0] != '\n' && !Occurs(body, decl)
    ensures ReplaceAll(decl + ("\n" + body), decl, "") == "\n" + body
  {
    var rest := "\n" + body;
    ReplaceAllHead(decl, rest, "");
    ReplaceAllSkip(rest, decl, "");
    assert rest[1..] == body;
    ReplaceAllAbsent(body, decl, "");
  }

  /** `xml.replace('\n', '\n      ')`. */
  function Indent(s: string): string {
    ReplaceAll(s, "\n", "\n      ")
  }

  /** The inverse of Indent. */
  function Dedent(s: string): string {
    ReplaceAll(s, "\n      ", "\n")
  }

  /** Indenting loses nothing: removing the six spaces after every newline
      gives the text back. */
  lemma {:induction false} DedentIndent(s: string)
    ensures Dedent(Indent(s)) == s
  {
    if s != [] {
      DedentIndent(s[1..]);
      var rest := Indent(s[1..]);
      if s[0] == '\n' {
        assert s[..1] == "\n";
        assert Indent(s) == "\n      " + rest;
        assert ("\n      " + rest)[..7] == "\n      ";
        assert ("\n      " + rest)[7..] == rest;
        assert [s[0]] + s[1..] == s;
      } else {
        ReplaceAllSkip(s, "\n", "\n      ");
        assert Indent(s) == [s[0]] + rest;
        ReplaceAllSkip([s[0]] + rest, "\n      ", "\n");
        assert ([s[0]] + rest)[1..] == rest;
        assert [s[0]] + s[1..] == s;
      }
    }
  }

  /** The four groups of the combined file, in the order they are written. */
  datatype Group = Dail | Seanad | CommitteeGroup | Questions

  /** The opening lines of one `<debate>` fragment, attributes taken from the tuple. */
  function Opening(g: Group, f: FileEntry): string {
    match g
    case Dail => "  <debate type=\"dail\" date=\"" + Show(f.date) + "\">\n    <data>\n"
    case Seanad => "  <debate type=\"seanad\" date=\"" + Show(f.date) + "\">\n    <data>\n"
    case CommitteeGroup =>
      "  <debate type=\"committee\" date=\"" + Show(f.date) + "\" slug=\"" + Show(f.tag) + "\">\n    <data>\n"
    case Questions =>
      "  <debate type=\"questions\" question_type=\"written\" date=\"" + Show(f.date) + "\" number=\"" + Show(f.tag) + "\">\n    <data>\n"
  }

  /** The first and the last line of a combined file. */
  const OpenLine: string := "<all_debates>\n"
  const CloseLine: string := "</all_debates>\n"

  const Closing: string := "\n    </data>\n  </debate>\n"

  /** One file's fragment. */
  function Fragment(g: Group, f: FileEntry, contents: string -> string): string {
    Opening(g, f) + Indent(StripXmlHeader(contents(f.path))) + Closing
  }

  /** The fragments of one group, in list order. */
  function Fragments(g: Group, files: seq<FileEntry>, contents: string -> string): string {
    if files == [] then ""
    else Fragments(g, files[..|files| - 1], contents) + Fragment(g, files[|files| - 1], contents)
  }

  /** The whole output document. */
  function Combined(dail: seq<FileEntry>, seanad: seq<FileEntry>, committee: seq<FileEntry>,
                    questions: seq<FileEntry>, contents: string -> string): string {
    OpenLine + Groups(dail, seanad, committee, questions, contents) + CloseLine
  }

  /** The four groups' fragments, Dáil first, written questions last. */
  function Groups(dail: seq<FileEntry>, seanad: seq<FileEntry>, committee: seq<FileEntry>,
                  questions: seq<FileEntry>, contents: string -> string): string {
    Fragments(Dail, dail, contents) + Fragments(Seanad, seanad, contents)
      + Fragments(CommitteeGroup, committee, contents) + Fragments(Questions, questions, contents)
  }

  /** combine_to_single_xml: the wrapper's opening line, the four loops, the closing line. */
  method CombineToSingleXml(dail: seq<FileEntry>, seanad: seq<FileEntry>, committee: seq<FileEntry>,
                            questions: seq<FileEntry>, contents: string -> string) returns (out: string)
    ensures out == Combined(dail, seanad, committee, questions, contents)
  {
    var open := OpenLine;
    out := open;
    out := WriteGroup(out, Dail, dail, contents);
    out := WriteGroup(out, Seanad, seanad, contents);
    out := WriteGroup(out, CommitteeGroup, committee, contents);
    out := WriteGroup(out, Questions, questions, contents);
    var d, s, c, q := Fragments(Dail, dail, contents), Fragments(Seanad, seanad, contents),
      Fragments(CommitteeGroup, committee, contents), Fragments(Questions, questions, contents);
    Regroup(open, d, s, c, q);
    out := out + CloseLine;
  }

  lemma Regroup(open: string, d: string, s: string, c: string, q: string)
    ensures open + (d + s + c + q) == open + d + s + c + q
  {
    AppendAssoc(open + d + s, c, q);
    AppendAssoc(open + d, s, c + q);
    AppendAssoc(open, d, s + (c + q));
    AppendAssoc(d, s, c + q);
    AppendAssoc(d + s, c, q);
  }

  /** One of the four loops: each file is read, stripped, indented and wrapped. */
  method WriteGroup(out0: string, g: Group, files: seq<FileEntry>, contents: string -> string) returns (out: string)
    ensures out == out0 + Fragments(g, files, contents)
  {
    out := out0;
    for i := 0 to |files|
      invariant out == out0 + Fragments(g, files[..i], contents)
    {
      var xml := contents(files[i].path);
      xml := StripXmlHeader(xml);
      var piece := Opening(g, files[i]) + Indent(xml) + Closing;
      FragmentsSnoc(g, files, i, contents);
      AppendAssoc(out0, Fragments(g, files[..i], contents), piece);
      out := out + piece;
    }
    TakeAll(files);
  }

  lemma FragmentsSnoc(g: Group, files: seq<FileEntry>, i: nat, contents: string -> string)
    requires i < |files|
    ensures Fragments(g, files[..i + 1], contents) == Fragments(g, files[..i], contents) + Fragment(g, files[i], contents)
  {
    assert files[..i + 1][..i] == files[..i];
  }

  /** Every fragment gives back its file's stripped text: it sits between the
      opening lines and the closing lines, and un-indenting it restores it. */
  lemma FragmentRecoverable(g: Group, f: FileEntry, contents: string -> string)
    ensures var frag := Fragment(g, f, contents);
      var o := |Opening(g, f)|;
      && |frag| == o + |Indent(StripXmlHeader(contents(f.path)))| + |Closing|
      && Dedent(frag[o..|frag| - |Closing|]) == StripXmlHeader(contents(f.path))
      && EndsWith(frag, Closing)
  {
    var body := Indent(StripXmlHeader(contents(f.path)));
    var frag := Fragment(g, f, contents);
    assert frag[|Opening(g, f)|..|frag| - |Closing|] == body;
    DedentIndent(StripXmlHeader(contents(f.path)));
  }

  /** The combined file is one `<all_debates>` element: its first line opens
      the wrapper, its last line closes it, and nothing precedes the wrapper. */
  lemma CombinedWrapped(dail: seq<FileEntry>, seanad: seq<FileEntry>, committee: seq<FileEntry>,
                        questions: seq<FileEntry>, contents: string -> string)
    ensures StartsWith(Combined(dail, seanad, committee, questions, contents), OpenLine)
    ensures EndsWith(Combined(dail, seanad, committee, questions, contents), CloseLine)
  {
    Framed(OpenLine, Groups(dail, seanad, committee, questions, contents), CloseLine);
  }
}
