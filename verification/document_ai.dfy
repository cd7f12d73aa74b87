/** The document-extraction helpers (app/backend/ai/document_intelligence.py):
    splitting a `gs://bucket/blob` URI, assembling a table cell's text from
    its text anchors, flattening a processed document's tables and entities,
    and the fixed result returned when no client could be created.

    The download from object storage and the Document AI call are one opaque
    function parameter, `fetch(bucket, blob)`, that yields the processed
    document or the text of the exception raised. */
module DocumentAI {
  import opened Wrappers
  import opened PyStr

  const GcsScheme: string := "gs://"

  /** A text anchor segment; an index the service left unset is `None`. */
  datatype TextSegment = TextSegment(startIndex: Option<int>, endIndex: Option<int>)

  datatype Cell = Cell(segments: seq<TextSegment>)
  datatype Row = Row(cells: seq<Cell>)
  datatype Table = Table(headerRows: seq<Row>, bodyRows: seq<Row>)
  datatype Page = Page(pageNumber: int, confidence: real, tables: seq<Table>)

  /** A detected entity; `normalizedValue` is `None` when the service sent none. */
  datatype Entity = Entity(kind: string, mentionText: string, confidence: real,
                           normalizedValue: Option<string>)

  datatype Document = Document(text: string, pages: seq<Page>, entities: seq<Entity>)

  datatype ExtractedTable = ExtractedTable(headers: seq<string>, rows: seq<seq<string>>, page: int)

  datatype ExtractedEntity = ExtractedEntity(kind: string, value: string, confidence: real,
                                             normalizedValue: Option<string>)

  /** The dictionary `process_document` returns. */
  datatype Extraction = Extraction(text: string, pages: nat, tables: seq<ExtractedTable>,
                                   entities: seq<ExtractedEntity>, confidence: real)

  /** The result when no client could be created: no text, no pages, no
      tables, no entities, confidence 0.0. */
  const EmptyExtraction: Extraction := Extraction("", 0, [], [], 0.0)

  // ---------------------------------------------------------------------
  // GCS URIs

  /** `s.split(c, 1)`: the text before the first `c` and the rest, or the
      whole text alone when `c` does not occur. */
  function SplitOnce(s: string, c: char): (parts: seq<string>)
    ensures 1 <= |parts| <= 2
    ensures |parts| == 1 <==> c !in s
    ensures |parts| == 1 ==> parts[0] == s
    ensures |parts| == 2 ==> s == parts[0] + [c] + parts[1] && c !in parts[0]
  {
    var k := Find(s, c);
    if k < 0 then [s]
    else
      assert s == s[..k] + [c] + s[k + 1..];
      [s[..k], s[k + 1..]]
  }

  /** Why a URI was refused: it does not start with `gs://`
      (`ValueError`), or nothing follows the bucket name (`IndexError`). */
  datatype UriError = NotGcs(uri: string) | NoObjectPath

  /** The text of each refusal as `str(e)` renders it. */
  function UriErrorText(e: UriError): string {
    match e
    case NotGcs(uri) => "Invalid GCS URI: " + uri
    case NoObjectPath => "list index out of range"
  }

  /** `process_document`'s URI split: the bucket is the text after `gs://` up
      to the first slash, the blob everything after that slash. */
  function ParseGcsUri(uri: string): (r: Result<(string, string), UriError>)
    ensures !StartsWith(uri, GcsScheme) ==> r == Failure(NotGcs(uri))
    ensures StartsWith(uri, GcsScheme) && '/' !in uri[|GcsScheme|..] ==> r == Failure(NoObjectPath)
    ensures r.Success? ==> uri == GcsScheme + r.value.0 + "/" + r.value.1 && '/' !in r.value.0
  {
    if !StartsWith(uri, GcsScheme) then Failure(NotGcs(uri))
    else
      var parts := SplitOnce(uri[|GcsScheme|..], '/');
      assert uri == GcsScheme + uri[|GcsScheme|..];
      if |parts| < 2 then Failure(NoObjectPath)
      else Success((parts[0], parts[1]))
  }

  /** Round trip: a URI built from a slash-free bucket and any blob path splits
      back into that bucket and that blob. */
  lemma GcsUriRoundTrip(bucket: string, blob: string)
    requires '/' !in bucket
    ensures ParseGcsUri(GcsScheme + bucket + "/" + blob) == Success((bucket, blob))
  {
    var uri := GcsScheme + bucket + "/" + blob;
    assert StartsWith(uri, GcsScheme);
    var rest := uri[|GcsScheme|..];
    assert rest == bucket + "/" + blob;
    assert rest[|bucket|] == '/';
    var parts := SplitOnce(rest, '/');
    assert |parts| == 2;
    var k := Find(rest, '/');
    assert forall i :: 0 <= i < |bucket| ==> rest[i] == bucket[i] && rest[i] != '/';
    assert k == |bucket|;
    assert rest[..k] == bucket && rest[k + 1..] == blob;
    assert parts == [bucket, blob];
  }

  // ---------------------------------------------------------------------
  // cell text

  /** `int(x) if x else default`: an unset or zero anchor index takes the default. */
  function AnchorIndex(x: Option<int>, default: int): (r: int)
    ensures x.None? || x == Some(0) ==> r == default
    ensures x.Some? && x.value != 0 ==> r == x.value
  {
    match x
    case None => default
    case Some(v) => if v == 0 then default else v
  }

  /** The text one segment contributes: `document_text[start:end]`, where an
      unset or zero start means 0 and an unset or zero end means the end of
      the text. */
  function SegmentText(seg: TextSegment, text: string): (r: string)
    ensures var a := SliceBound(AnchorIndex(seg.startIndex, 0), |text|);
            a + |r| <= |text| && r == text[a..a + |r|]
    ensures (seg.endIndex.None? || seg.endIndex == Some(0)) ==>
            r == text[SliceBound(AnchorIndex(seg.startIndex, 0), |text|)..]
  {
    Slice(text, AnchorIndex(seg.startIndex, 0), AnchorIndex(seg.endIndex, |text|))
  }

  /** An anchor inside the text selects exactly `text[start..end]`; a missing
      start reads as 0 and a missing end as the text's length. */
  lemma SegmentInRange(seg: TextSegment, text: string, s: nat, e: nat)
    requires seg.startIndex == Some(s) || (s == 0 && seg.startIndex.None?)
    requires (seg.endIndex == Some(e) && 0 < e) || (e == |text| && seg.endIndex.None?)
    requires s <= e <= |text|
    ensures SegmentText(seg, text) == text[s..e]
  {
  }

  /** `_get_cell_text`: the segments' texts joined by single spaces, stripped. */
  function CellText(cell: Cell, text: string): (r: string)
    ensures |cell.segments| == 0 ==> r == ""
    ensures |cell.segments| == 1 ==> r == Strip(SegmentText(cell.segments[0], text))
    ensures |r| <= |Join(SegmentTexts(cell, text), " ")|
  {
    Strip(Join(SegmentTexts(cell, text), " "))
  }

  /** The text of each segment of a cell, in order. */
  function SegmentTexts(cell: Cell, text: string): (ts: seq<string>)
    ensures |ts| == |cell.segments|
    ensures forall i :: 0 <= i < |ts| ==> ts[i] == SegmentText(cell.segments[i], text)
  {
    seq(|cell.segments|, i requires 0 <= i < |cell.segments| => SegmentText(cell.segments[i], text))
  }

  /** A cell's text has exactly the words of its segments, in segment order:
      joining with spaces never merges two segments' words and stripping
      drops none. */
  lemma CellWords(cell: Cell, text: string)
    ensures Words(CellText(cell, text)) == AllWords(SegmentTexts(cell, text))
  {
    WordsStrip(Join(SegmentTexts(cell, text), " "));
    WordsOfJoin(SegmentTexts(cell, text));
  }

  /** When the first segment's text does not start with whitespace and the
      last one's does not end with it, the cell's text is exactly the
      segments' texts joined by single spaces: stripping removes nothing. */
  lemma FramedCell(cell: Cell, text: string)
    requires |cell.segments| > 0
    requires var first := SegmentText(cell.segments[0], text);
      |first| > 0 && !IsSpace(first[0])
    requires var last := SegmentText(cell.segments[|cell.segments| - 1], text);
      |last| > 0 && !IsSpace(last[|last| - 1])
    ensures CellText(cell, text) == Join(SegmentTexts(cell, text), " ")
  {
    var ts := SegmentTexts(cell, text);
    JoinOuterChars(ts, " ");
    StripFixed(Join(ts, " "));
  }

  /** A cell whose single segment has no anchors holds the whole text, stripped. */
  lemma UnanchoredCell(text: string)
    ensures CellText(Cell([TextSegment(None, None)]), text) == Strip(text)
  {
  }

  // ---------------------------------------------------------------------
  // tables and entities

  /** One table as `_extract_tables` renders it: headers from the first header
      row only (none without a header row), one row of cell texts per body row. */
  function ExtractTable(t: Table, pageNumber: int, text: string): (r: ExtractedTable)
    ensures r.page == pageNumber
    ensures |t.headerRows| == 0 ==> r.headers == []
    ensures |t.headerRows| > 0 ==>
      |r.headers| == |t.headerRows[0].cells| &&
      forall k :: 0 <= k < |r.headers| ==> r.headers[k] == CellText(t.headerRows[0].cells[k], text)
    ensures |r.rows| == |t.bodyRows|
    ensures forall i :: 0 <= i < |r.rows| ==>
      |r.rows[i]| == |t.bodyRows[i].cells| &&
      forall k :: 0 <= k < |r.rows[i]| ==> r.rows[i][k] == CellText(t.bodyRows[i].cells[k], text)
  {
    var headers := if |t.headerRows| == 0 then [] else RowTexts(t.headerRows[0], text);
    var rows := seq(|t.bodyRows|, i requires 0 <= i < |t.bodyRows| => RowTexts(t.bodyRows[i], text));
    ExtractedTable(headers, rows, pageNumber)
  }

  /** The cell texts of one row, in order. */
  function RowTexts(row: Row, text: string): (cells: seq<string>)
    ensures |cells| == |row.cells|
    ensures forall k :: 0 <= k < |cells| ==> cells[k] == CellText(row.cells[k], text)
  {
    seq(|row.cells|, k requires 0 <= k < |row.cells| => CellText(row.cells[k], text))
  }

  /** Every table of the document with its page number, pages in order and
      tables in order within a page. */
  function AllTables(pages: seq<Page>): (all: seq<(int, Table)>)
    decreases |pages|
  {
    if |pages| == 0 then []
    else AllTables(pages[..|pages| - 1]) + PageTables(pages[|pages| - 1])
  }

  /** The tables of one page, tagged with its page number. */
  function PageTables(p: Page): (ts: seq<(int, Table)>)
    ensures |ts| == |p.tables|
    ensures forall k :: 0 <= k < |ts| ==> ts[k] == (p.pageNumber, p.tables[k])
  {
    seq(|p.tables|, k requires 0 <= k < |p.tables| => (p.pageNumber, p.tables[k]))
  }

  /** Each tagged table rendered by `ExtractTable`, in order. */
  function RenderTables(all: seq<(int, Table)>, text: string): (r: seq<ExtractedTable>)
    ensures |r| == |all|
    ensures forall i :: 0 <= i < |all| ==> r[i] == ExtractTable(all[i].1, all[i].0, text)
  {
    seq(|all|, i requires 0 <= i < |all| => ExtractTable(all[i].1, all[i].0, text))
  }

  /** `_extract_tables`: one entry per table of the document, in page order. */
  method ExtractTables(doc: Document) returns (tables: seq<ExtractedTable>)
    ensures var all := AllTables(doc.pages);
      |tables| == |all| &&
      forall i :: 0 <= i < |all| ==> tables[i] == ExtractTable(all[i].1, all[i].0, doc.text)
  {
    tables := [];
    var p := 0;
    while p < |doc.pages|
      invariant 0 <= p <= |doc.pages|
      invariant tables == RenderTables(AllTables(doc.pages[..p]), doc.text)
    {
      var page := doc.pages[p];
      ghost var before := AllTables(doc.pages[..p]);
      var t := 0;
      while t < |page.tables|
        invariant 0 <= t <= |page.tables|
        invariant tables == RenderTables(before + PageTables(page)[..t], doc.text)
      {
        assert before + PageTables(page)[..t + 1] == (before + PageTables(page)[..t]) + [(page.pageNumber, page.tables[t])];
        tables := tables + [ExtractTable(page.tables[t], page.pageNumber, doc.text)];
        t := t + 1;
      }
      assert PageTables(page)[..t] == PageTables(page);
      assert doc.pages[..p + 1][..p] == doc.pages[..p];
      p := p + 1;
    }
    assert doc.pages[..|doc.pages|] == doc.pages;
  }

  /** `_extract_entities`: one entry per entity, in order, copying type,
      mention text and confidence; the normalized value stays absent when absent. */
  function ExtractEntities(doc: Document): (r: seq<ExtractedEntity>)
    ensures |r| == |doc.entities|
    ensures forall i :: 0 <= i < |r| ==>
      var e := doc.entities[i];
      r[i] == ExtractedEntity(e.kind, e.mentionText, e.confidence, e.normalizedValue)
  {
    seq(|doc.entities|, i requires 0 <= i < |doc.entities| =>
      var e := doc.entities[i];
      ExtractedEntity(e.kind, e.mentionText, e.confidence, e.normalizedValue))
  }

  /** `process_document`: the fixed empty result without a client; otherwise
      the URI is split, the document fetched and processed, and its text, page
      count, tables, entities and first-page confidence returned. Every
      exception propagates to the caller. */
  method ProcessDocument(clientReady: bool, uri: string,
                         fetch: (string, string) -> Result<Document, string>)
    returns (r: Result<Extraction, string>)
    ensures !clientReady ==> r == Success(EmptyExtraction)
    ensures clientReady && ParseGcsUri(uri).Failure? ==>
      r == Failure(UriErrorText(ParseGcsUri(uri).error))
    ensures clientReady && ParseGcsUri(uri).Success? ==>
      var loc := ParseGcsUri(uri).value;
      match fetch(loc.0, loc.1)
      case Failure(e) => r == Failure(e)
      case Success(doc) =>
        && r.Success?
        && r.value.text == doc.text
        && r.value.pages == |doc.pages|
        && |r.value.tables| == |AllTables(doc.pages)|
        && (forall i :: 0 <= i < |AllTables(doc.pages)| ==>
              r.value.tables[i] == ExtractTable(AllTables(doc.pages)[i].1, AllTables(doc.pages)[i].0, doc.text))
        && r.value.entities == ExtractEntities(doc)
        && r.value.confidence == (if |doc.pages| > 0 then doc.pages[0].confidence else 0.0)
  {
    if !clientReady {
      return Success(EmptyExtraction);
    }
    match ParseGcsUri(uri)
    case Failure(e) =>
      return Failure(UriErrorText(e));
    case Success(loc) =>
      match fetch(loc.0, loc.1)
      case Failure(e) =>
        return Failure(e);
      case Success(doc) =>
        var tables := ExtractTables(doc);
        var confidence := if |doc.pages| > 0 then doc.pages[0].confidence else 0.0;
        return Success(Extraction(doc.text, |doc.pages|, tables, ExtractEntities(doc), confidence));
  }
}
