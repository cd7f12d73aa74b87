/** The workbook endpoints (app/backend/api/v1/workbook.py): where a
    generated workbook is stored, how it is downloaded and listed, and how a
    listed blob name is turned back into a workbook id.

    The artifacts bucket is a `Storage` bucket. The workbook generator is
    opaque: its output (or the text of the exception it raised) is a
    parameter, as are the fresh workbook id (a UUID in the source), the
    upload time and URL signing. */
module Workbook {
  import opened Wrappers
  import opened PyStr
  import opened Storage

  const XlsxSuffix: string := ".xlsx"

  /** The media type of a stored and of a downloaded workbook. */
  const XlsxMediaType: string := "application/vnd.openxmlformats-officedocument.spreadsheetml.sheet"

  /** `engagements/{engagement_id}/workbooks/` */
  function WorkbooksPrefix(engagementId: string): string {
    "engagements/" + engagementId + "/workbooks/"
  }

  /** The blob a workbook is stored in. */
  function WorkbookBlobName(engagementId: string, workbookId: string): (name: string)
    ensures StartsWith(name, WorkbooksPrefix(engagementId))
  {
    assert WorkbooksPrefix(engagementId) + workbookId + XlsxSuffix
        == WorkbooksPrefix(engagementId) + (workbookId + XlsxSuffix);
    WorkbooksPrefix(engagementId) + workbookId + XlsxSuffix
  }

  /** What `generate_workbook` returns (no Google Sheets URL is ever set). */
  datatype WorkbookResponse = WorkbookResponse(workbookId: string, downloadUrl: string, status: string)

  /** `generate_workbook`: the generated bytes are written to the workbook's
      blob and the id is returned with a signed URL for that blob; a failing
      generator becomes a 500 carrying its message and writes nothing. */
  function GenerateWorkbook(bucket: seq<Blob>, engagementId: string, workbookId: string,
                            generated: Result<Bytes, string>, created: string,
                            sign: string -> string): (r: Result<(seq<Blob>, WorkbookResponse), HttpError>)
    ensures r.Failure? <==> generated.Failure?
    ensures r.Failure? ==> r.error == HttpError(500, generated.error)
    ensures r.Success? ==>
      var name := WorkbookBlobName(engagementId, workbookId);
      && Lookup(r.value.0, name) == Some(Blob(name, generated.value, created, Some(XlsxMediaType)))
      && r.value.1 == WorkbookResponse(workbookId, sign(name), "completed")
  {
    match generated
    case Failure(e) => Failure(HttpError(500, e))
    case Success(bytes) =>
      var name := WorkbookBlobName(engagementId, workbookId);
      var blob := Blob(name, bytes, created, Some(XlsxMediaType));
      PutLookup(bucket, blob, name);
      Success((Put(bucket, blob), WorkbookResponse(workbookId, sign(name), "completed")))
  }

  /** Generating a workbook touches no other blob. */
  lemma GenerateKeepsOthers(bucket: seq<Blob>, engagementId: string, workbookId: string,
                            bytes: Bytes, created: string, sign: string -> string, other: string)
    requires other != WorkbookBlobName(engagementId, workbookId)
    ensures var r := GenerateWorkbook(bucket, engagementId, workbookId, Success(bytes), created, sign);
      r.Success? && Lookup(r.value.0, other) == Lookup(bucket, other)
  {
    var name := WorkbookBlobName(engagementId, workbookId);
    PutLookup(bucket, Blob(name, bytes, created, Some(XlsxMediaType)), other);
  }

  // ---------------------------------------------------------------------
  // download

  /** The streamed download: contents, media type and the
      `Content-Disposition` header. */
  datatype Download = Download(content: Bytes, mediaType: string, disposition: string)

  /** The attachment header names the file after the engagement, whatever the workbook. */
  function Disposition(engagementId: string): string {
    "attachment; filename=valuation_" + engagementId + XlsxSuffix
  }

  /** `str()` of an `HTTPException`: status code, colon, detail. */
  function HttpExceptionText(e: HttpError): string
    requires e.status >= 0
  {
    IntText(e.status) + ": " + e.detail
  }

  /** Decimal rendering of a non-negative status code. */
  function IntText(n: nat): (s: string)
    ensures |s| > 0
  {
    if n < 10 then [DigitChar(n)]
    else IntText(n / 10) + [DigitChar(n % 10)]
  }

  function DigitChar(d: int): char
    requires 0 <= d < 10
  {
    ('0' as int + d) as char
  }

  /** The error the endpoint means to raise for a missing workbook. */
  const NotFound: HttpError := HttpError(404, "Workbook not found")

  /** `download_workbook` as written: the 404 raised for a missing blob is
      raised inside the `try`, so the catch-all handler turns it into a 500
      whose detail is the 404's text. */
  function DownloadWorkbookAsWritten(bucket: seq<Blob>, engagementId: string, workbookId: string): (r: Result<Download, HttpError>)
    ensures r.Failure? <==> Lookup(bucket, WorkbookBlobName(engagementId, workbookId)).None?
    ensures r.Failure? ==> r.error.status == 500
  {
    match Lookup(bucket, WorkbookBlobName(engagementId, workbookId))
    case None => Failure(HttpError(500, HttpExceptionText(NotFound)))
    case Some(blob) => Success(Download(blob.data, XlsxMediaType, Disposition(engagementId)))
  }

  /** A download of a workbook that was never generated answers 500 with
      detail "404: Workbook not found" instead of 404. */
  lemma MissingWorkbookIs500()
    ensures DownloadWorkbookAsWritten([], "e1", "w1") == Failure(HttpError(500, "404: Workbook not found"))
  {
    NotFoundText();
    assert Lookup([], WorkbookBlobName("e1", "w1")).None?;
  }

  /** The text of the not-found exception. */
  lemma NotFoundText()
    ensures HttpExceptionText(NotFound) == "404: Workbook not found"
  {
    StatusText404();
    assert HttpExceptionText(NotFound) == "404" + ": " + "Workbook not found";
  }

  lemma StatusText404()
    ensures IntText(404) == "404"
  {
    assert DigitChar(4) == '4' && DigitChar(0) == '0';
    assert IntText(4) == "4";
    assert IntText(40) == "4" + "0";
    assert IntText(404) == "40" + "4";
  }

  /** `download_workbook` with the 404 propagated as intended: a missing blob
      is a 404, an existing one is streamed with the engagement's file name. */
  function DownloadWorkbook(bucket: seq<Blob>, engagementId: string, workbookId: string): (r: Result<Download, HttpError>)
    ensures r.Failure? <==> Lookup(bucket, WorkbookBlobName(engagementId, workbookId)).None?
    ensures r.Failure? ==> r.error == NotFound
    ensures r.Success? ==>
      && r.value.content == Lookup(bucket, WorkbookBlobName(engagementId, workbookId)).value.data
      && r.value.mediaType == XlsxMediaType
  {
    match Lookup(bucket, WorkbookBlobName(engagementId, workbookId))
    case None => Failure(NotFound)
    case Some(blob) => Success(Download(blob.data, XlsxMediaType, Disposition(engagementId)))
  }

  /** The two versions differ only in the status of a missing workbook. */
  lemma DownloadVersionsAgree(bucket: seq<Blob>, engagementId: string, workbookId: string)
    ensures DownloadWorkbook(bucket, engagementId, workbookId).Success? ==>
      DownloadWorkbookAsWritten(bucket, engagementId, workbookId) == DownloadWorkbook(bucket, engagementId, workbookId)
    ensures DownloadWorkbook(bucket, engagementId, workbookId).Failure? ==>
      DownloadWorkbookAsWritten(bucket, engagementId, workbookId).Failure?
  {
  }

  /** Round trip: a generated workbook downloads as exactly the generated bytes. */
  lemma GenerateThenDownload(bucket: seq<Blob>, engagementId: string, workbookId: string,
                             bytes: Bytes, created: string, sign: string -> string)
    ensures var r := GenerateWorkbook(bucket, engagementId, workbookId, Success(bytes), created, sign);
      r.Success? &&
      DownloadWorkbook(r.value.0, engagementId, workbookId)
        == Success(Download(bytes, XlsxMediaType, Disposition(engagementId)))
  {
  }

  // ---------------------------------------------------------------------
  // listing

  /** One entry of `list_workbooks`. */
  datatype WorkbookEntry = WorkbookEntry(workbookId: string, createdAt: string, sizeBytes: nat, downloadUrl: string)

  /** What `list_workbooks` returns. */
  datatype WorkbookList = WorkbookList(workbooks: seq<WorkbookEntry>, total: nat)

  /** The id shown for a listed blob: its last path segment with every
      `.xlsx` removed. */
  function RecoverWorkbookId(blobName: string): (id: string)
    ensures |id| <= |LastSegment(blobName)|
  {
    RemoveAll(LastSegment(blobName), XlsxSuffix)
  }

  /** Round trip: the id recovered from a workbook's blob name is the id it was
      stored under, for ids with no slash and no `.xlsx` inside (UUIDs). */
  lemma WorkbookIdRoundTrip(engagementId: string, workbookId: string)
    requires '/' !in workbookId && !Contains(workbookId, XlsxSuffix)
    ensures RecoverWorkbookId(WorkbookBlobName(engagementId, workbookId)) == workbookId
  {
    var file := workbookId + XlsxSuffix;
    assert '/' !in file;
    assert WorkbookBlobName(engagementId, workbookId) == ("engagements/" + engagementId + "/workbooks") + "/" + file;
    LastSegmentOf("engagements/" + engagementId + "/workbooks", file);
    RemoveAllTrailing(workbookId, XlsxSuffix);
  }

  /** `list_workbooks`: one entry per blob under the engagement's workbooks
      prefix, in listing order, with `total` their number. */
  function ListWorkbooks(bucket: seq<Blob>, engagementId: string, sign: string -> string): (r: WorkbookList)
    ensures var listed := Listing(bucket, WorkbooksPrefix(engagementId));
      && r.total == |r.workbooks| == |listed|
      && forall i :: 0 <= i < |listed| ==>
           && r.workbooks[i].workbookId == RecoverWorkbookId(listed[i].name)
           && r.workbooks[i].createdAt == listed[i].timeCreated
           && r.workbooks[i].sizeBytes == |listed[i].data|
           && r.workbooks[i].downloadUrl == sign(listed[i].name)
  {
    var listed := Listing(bucket, WorkbooksPrefix(engagementId));
    var entries := seq(|listed|, i requires 0 <= i < |listed| =>
      WorkbookEntry(RecoverWorkbookId(listed[i].name), listed[i].timeCreated, |listed[i].data|, sign(listed[i].name)));
    WorkbookList(entries, |entries|)
  }

  /** A generated workbook shows up in the listing under its own id. */
  lemma GeneratedIsListed(bucket: seq<Blob>, engagementId: string, workbookId: string,
                          bytes: Bytes, created: string, sign: string -> string)
    requires '/' !in workbookId && !Contains(workbookId, XlsxSuffix)
    ensures var r := GenerateWorkbook(bucket, engagementId, workbookId, Success(bytes), created, sign);
      r.Success? &&
      exists i :: 0 <= i < |ListWorkbooks(r.value.0, engagementId, sign).workbooks| &&
        ListWorkbooks(r.value.0, engagementId, sign).workbooks[i].workbookId == workbookId
  {
    var name := WorkbookBlobName(engagementId, workbookId);
    var blob := Blob(name, bytes, created, Some(XlsxMediaType));
    var after := Put(bucket, blob);
    var listed := Listing(after, WorkbooksPrefix(engagementId));
    ListingAppend(Without(bucket, name), [blob], WorkbooksPrefix(engagementId));
    assert Listing([blob], WorkbooksPrefix(engagementId)) == [blob];
    var k := |listed| - 1;
    assert listed[k] == blob;
    WorkbookIdRoundTrip(engagementId, workbookId);
    assert ListWorkbooks(after, engagementId, sign).workbooks[k].workbookId == workbookId;
  }
}
