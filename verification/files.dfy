/** The file endpoints (app/backend/api/v1/files.py): where an upload goes,
    the signed-upload entries handed to the client, the listing of an
    engagement's uploads and the deletion of one file's blobs.

    The uploads bucket is a `Storage` bucket; fresh file ids (UUIDs in the
    source) and URL signing are parameters. */
module Files {
  import opened Wrappers
  import opened PyStr
  import opened Storage

  /** The content type signed into an upload URL when the request names none. */
  const DefaultContentType: string := "application/octet-stream"

  /** `engagements/{engagement_id}/uploads/`: everything uploaded for an engagement. */
  function UploadsPrefix(engagementId: string): string {
    "engagements/" + engagementId + "/uploads/"
  }

  /** `engagements/{engagement_id}/uploads/{file_id}/`: everything of one file. */
  function FilePrefix(engagementId: string, fileId: string): string {
    UploadsPrefix(engagementId) + fileId + "/"
  }

  /** The blob an upload is written to. */
  function UploadBlobName(engagementId: string, fileId: string, fileName: string): (name: string)
    ensures StartsWith(name, FilePrefix(engagementId, fileId))
    ensures StartsWith(name, UploadsPrefix(engagementId))
  {
    assert FilePrefix(engagementId, fileId) + fileName
        == UploadsPrefix(engagementId) + (fileId + "/" + fileName);
    FilePrefix(engagementId, fileId) + fileName
  }

  /** One requested upload: its `name` and `type` keys. */
  datatype FileRequest = FileRequest(name: Field, contentType: Field)

  /** One entry of the response: the fresh id, the signed URL, the requested
      name (`None` when the request gave `null`) and the blob the client must
      write. */
  datatype SignedUpload = SignedUpload(fileId: string, signedUrl: string, name: Option<string>, blobName: string)

  /** `get_upload_urls`: one entry per requested file, in order, each under its
      own fresh id; the URL is signed for the blob with the requested content
      type, the default when the `type` key is absent, and none when it is
      `null`. A request without a `name` key raises `KeyError`, which the
      endpoint reports as a 500 with detail `'name'`; a `null` name is shown
      as `None` in the blob name. */
  function UploadUrls(engagementId: string, files: seq<FileRequest>, fileIds: seq<string>,
                      sign: (string, Option<string>) -> string): (r: Result<seq<SignedUpload>, HttpError>)
    requires |fileIds| == |files|
    ensures r.Success? <==> forall i :: 0 <= i < |files| ==> !files[i].name.Missing?
    ensures r.Failure? ==> r.error == HttpError(500, KeyErrorText("name"))
    ensures r.Success? ==>
      && |r.value| == |files|
      && forall i :: 0 <= i < |files| ==>
           && r.value[i].fileId == fileIds[i]
           && r.value[i].name == files[i].name.GetValue("")
           && r.value[i].blobName == UploadBlobName(engagementId, fileIds[i], files[i].name.GetText(""))
           && StartsWith(r.value[i].blobName, FilePrefix(engagementId, fileIds[i]))
           && r.value[i].signedUrl == sign(r.value[i].blobName, files[i].contentType.GetValue(DefaultContentType))
  {
    if forall i :: 0 <= i < |files| ==> !files[i].name.Missing? then
      Success(seq(|files|, i requires 0 <= i < |files| && !files[i].name.Missing? =>
                    SignedUploadFor(engagementId, files[i], fileIds[i], sign)))
    else
      Failure(HttpError(500, KeyErrorText("name")))
  }

  /** The response entry for one file with a `name` key under its fresh id. */
  function SignedUploadFor(engagementId: string, file: FileRequest, fileId: string,
                           sign: (string, Option<string>) -> string): (u: SignedUpload)
    requires !file.name.Missing?
    ensures u.fileId == fileId && u.name == file.name.GetValue("")
    ensures u.blobName == UploadBlobName(engagementId, fileId, file.name.GetText(""))
    ensures StartsWith(u.blobName, FilePrefix(engagementId, fileId))
    ensures u.signedUrl == sign(u.blobName, file.contentType.GetValue(DefaultContentType))
  {
    var blobName := UploadBlobName(engagementId, fileId, file.name.GetText(""));
    SignedUpload(fileId, sign(blobName, file.contentType.GetValue(DefaultContentType)), file.name.GetValue(""), blobName)
  }

  /** A `null` name still gets an upload URL: its blob is named `None`. */
  lemma NullNameUpload(engagementId: string, fileId: string, contentType: Field,
                       sign: (string, Option<string>) -> string)
    ensures var r := UploadUrls(engagementId, [FileRequest(Null, contentType)], [fileId], sign);
      && r.Success?
      && r.value[0].name.None?
      && r.value[0].blobName == FilePrefix(engagementId, fileId) + "None"
  {
  }

  // ---------------------------------------------------------------------
  // listing

  /** One entry of `list_files`. */
  datatype FileEntry = FileEntry(name: string, size: nat, uploadedAt: string, contentType: Option<string>)

  /** A blob as listed: its name is the last path segment of the blob name. */
  function EntryOf(b: Blob): (e: FileEntry)
    ensures e.name == LastSegment(b.name) && '/' !in e.name
    ensures e.size == |b.data| && e.uploadedAt == b.timeCreated && e.contentType == b.contentType
  {
    FileEntry(LastSegment(b.name), |b.data|, b.timeCreated, b.contentType)
  }

  /** `list_files`: one entry per blob under the engagement's uploads prefix,
      in listing order. */
  function ListFiles(bucket: seq<Blob>, engagementId: string): (r: seq<FileEntry>)
    ensures var listed := Listing(bucket, UploadsPrefix(engagementId));
      |r| == |listed| && forall i :: 0 <= i < |r| ==> r[i] == EntryOf(listed[i])
  {
    var listed := Listing(bucket, UploadsPrefix(engagementId));
    seq(|listed|, i requires 0 <= i < |listed| => EntryOf(listed[i]))
  }

  /** Listing a bucket that grew by one blob: the old entries, then the new
      blob's entry if it lies under the engagement's prefix. */
  lemma ListFilesAppend(bucket: seq<Blob>, engagementId: string, b: Blob)
    ensures ListFiles(bucket + [b], engagementId) ==
      ListFiles(bucket, engagementId) + (if StartsWith(b.name, UploadsPrefix(engagementId)) then [EntryOf(b)] else [])
  {
    ListingAppend(bucket, [b], UploadsPrefix(engagementId));
    assert Listing([b], UploadsPrefix(engagementId)) ==
      (if StartsWith(b.name, UploadsPrefix(engagementId)) then [b] else []);
  }

  /** A file the client uploads to the blob it was handed is listed under the
      name it was requested with, when that name has no slash. */
  lemma UploadIsListed(bucket: seq<Blob>, engagementId: string, fileId: string, fileName: string,
                       data: Bytes, created: string, contentType: Option<string>)
    requires '/' !in fileName
    ensures ListFiles(bucket + [Blob(UploadBlobName(engagementId, fileId, fileName), data, created, contentType)], engagementId)
         == ListFiles(bucket, engagementId) + [FileEntry(fileName, |data|, created, contentType)]
  {
    var b := Blob(UploadBlobName(engagementId, fileId, fileName), data, created, contentType);
    ListFilesAppend(bucket, engagementId, b);
    LastSegmentOf(UploadsPrefix(engagementId) + fileId, fileName);
    assert b.name == UploadsPrefix(engagementId) + fileId + "/" + fileName;
  }

  /** A blob written where an issued upload URL points is listed under the
      requested name, when that name has no slash. */
  lemma IssuedUploadIsListed(bucket: seq<Blob>, engagementId: string, files: seq<FileRequest>,
                             fileIds: seq<string>, sign: (string, Option<string>) -> string, i: int,
                             data: Bytes, created: string, contentType: Option<string>)
    requires |fileIds| == |files|
    requires UploadUrls(engagementId, files, fileIds, sign).Success?
    requires 0 <= i < |files| && '/' !in files[i].name.GetText("")
    ensures var u := UploadUrls(engagementId, files, fileIds, sign).value[i];
      ListFiles(bucket + [Blob(u.blobName, data, created, contentType)], engagementId)
        == ListFiles(bucket, engagementId) + [FileEntry(files[i].name.GetText(""), |data|, created, contentType)]
  {
    UploadIsListed(bucket, engagementId, fileIds[i], files[i].name.GetText(""), data, created, contentType);
  }

  /** An upload of another engagement never shows up in this engagement's
      listing (engagement ids have no slash). */
  lemma OtherEngagementNotListed(bucket: seq<Blob>, engagementId: string, other: string, b: Blob)
    requires engagementId != other && '/' !in engagementId && '/' !in other
    requires StartsWith(b.name, UploadsPrefix(other))
    ensures ListFiles(bucket + [b], engagementId) == ListFiles(bucket, engagementId)
  {
    ListFilesAppend(bucket, engagementId, b);
    EngagementDirs(engagementId, b.name);
    EngagementDirs(other, b.name);
    SeparatedPrefixes("engagements/", other, engagementId, b.name);
  }

  /** A name under an engagement's uploads lies under the engagement's directory. */
  lemma EngagementDirs(engagementId: string, name: string)
    ensures StartsWith(name, UploadsPrefix(engagementId)) ==> StartsWith(name, "engagements/" + engagementId + "/")
  {
    var d := "engagements/" + engagementId + "/";
    assert UploadsPrefix(engagementId) == d + "uploads/";
    assert UploadsPrefix(engagementId)[..|d|] == d;
  }

  // ---------------------------------------------------------------------
  // deletion

  /** What `delete_file` returns. */
  datatype DeleteResult = DeleteResult(status: string, filesDeleted: nat)

  /** `delete_file`: every blob under the file's prefix is deleted and
      counted; every other blob stays, in order. */
  method DeleteFile(bucket: seq<Blob>, engagementId: string, fileId: string)
    returns (remaining: seq<Blob>, result: DeleteResult)
    ensures result == DeleteResult("deleted", |Listing(bucket, FilePrefix(engagementId, fileId))|)
    ensures remaining == Unlisted(bucket, FilePrefix(engagementId, fileId))
  {
    var prefix := FilePrefix(engagementId, fileId);
    var count := 0;
    remaining := [];
    var i := 0;
    while i < |bucket|
      invariant 0 <= i <= |bucket|
      invariant count == |Listing(bucket[..i], prefix)|
      invariant remaining == Unlisted(bucket[..i], prefix)
    {
      assert bucket[..i + 1] == bucket[..i] + [bucket[i]];
      ListingAppend(bucket[..i], [bucket[i]], prefix);
      UnlistedAppend(bucket[..i], bucket[i], prefix);
      if StartsWith(bucket[i].name, prefix) {
        count := count + 1;
      } else {
        remaining := remaining + [bucket[i]];
      }
      i := i + 1;
    }
    assert bucket[..i] == bucket;
    result := DeleteResult("deleted", count);
  }

  /** `Unlisted` of a bucket grown by one blob. */
  lemma {:induction false} UnlistedAppend(a: seq<Blob>, b: Blob, prefix: string)
    ensures Unlisted(a + [b], prefix) == Unlisted(a, prefix) + (if StartsWith(b.name, prefix) then [] else [b])
    decreases |a|
  {
    if |a| == 0 {
      assert a + [b] == [b];
    } else {
      assert (a + [b])[1..] == a[1..] + [b];
      UnlistedAppend(a[1..], b, prefix);
    }
  }

  /** Deleting one file leaves nothing under its prefix and every other file of
      the engagement exactly as it was (file ids have no slash). */
  lemma DeleteLeavesOtherFiles(bucket: seq<Blob>, engagementId: string, fileId: string, otherId: string)
    requires fileId != otherId && '/' !in fileId && '/' !in otherId
    ensures Listing(Unlisted(bucket, FilePrefix(engagementId, fileId)), FilePrefix(engagementId, fileId)) == []
    ensures Listing(Unlisted(bucket, FilePrefix(engagementId, fileId)), FilePrefix(engagementId, otherId))
         == Listing(bucket, FilePrefix(engagementId, otherId))
  {
    forall i | 0 <= i < |bucket|
      ensures !(StartsWith(bucket[i].name, FilePrefix(engagementId, fileId)) &&
                StartsWith(bucket[i].name, FilePrefix(engagementId, otherId)))
    {
      SeparatedPrefixes(UploadsPrefix(engagementId), fileId, otherId, bucket[i].name);
    }
    UnlistedKeepsOthers(bucket, FilePrefix(engagementId, fileId), FilePrefix(engagementId, otherId));
  }
}
