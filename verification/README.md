# Valuation Workbench backend — a Dafny model of its deterministic rules

The Valuation Workbench backend is a FastAPI service that ingests financial
documents, asks language models to map source line items onto a chart of
accounts, lets an analyst chat about the valuation, and stores uploaded files
and generated Excel workbooks in object storage. Most of the code is request
plumbing around cloud services. This project models the small deterministic
rules between those calls and proves their properties:

- **Confidence triage of mapping suggestions** (`Mappings`). Each model
  suggestion becomes a `Mapping` that is auto-approved exactly when its
  confidence exceeds 0.9. The summary buckets the mappings into high, medium
  and low confidence and counts the auto-approvals. The module also covers the
  approval echo and the built-in chart of accounts.
- **Tolerant parsing of model output**:
  - `Gemini` covers the markdown-fence clean-up shared by the three
    JSON-returning calls and the chat history window.
  - `VertexMapper` covers the bracket slice, its "unmapped" fallbacks and the
    50-entry chart-of-accounts sample.
- **Document extraction** (`DocumentAI`): the `gs://bucket/blob` split,
  cell text assembled from text anchors, table flattening, entities, and the
  empty result returned without a client.
- **Storage paths and streaming** (`Files`, `Workbook`, `Storage`, `Chat`):
  - blob names for uploads and workbooks, their list and delete prefixes, and
    the recovery of file names and workbook ids;
  - workbook generation and download against a bucket model;
  - the word-by-word server-sent-event stream of the chat endpoint, the
    conversation id and the fixed suggestions.

`PyStr` gives the Python string operations these rules rely on their CPython
meaning: `strip`, `find`, `rfind`, `split(sep)`, `split()`, `join`, clamped
slicing, `replace(pat, "")` and ASCII `upper`. `Wrappers` holds `Option`,
`Result`, the HTTP error record, and the text of a `KeyError`.

Cloud calls are never executed in the model; each becomes a parameter:
- a model reply is `Success(response.text)` or `Failure(text of the exception)`;
- JSON decoding is a function yielding a value or a decode error;
- the document fetch-and-process step yields the processed document or an error;
- fresh UUIDs, timestamps and URL signing are plain inputs.

The approve, list and update endpoints for mappings are stubs: nothing is
stored, there is no approval state machine and no bulk approval, and
auto-approval uses a strict `> 0.9`.

## Model

| member | source | states |
|---|---|---|
| Mappings.StatusFor | app/backend/api/v1/mappings.py:99 | a suggestion is approved iff its confidence is above 0.9, otherwise pending; never rejected |
| Mappings.ToMapping | app/backend/api/v1/mappings.py:92-100 | one suggestion becomes a mapping iff it has all six keys; the mapping copies each field unchanged; a missing key fails with the `KeyError` text of the first missing key in argument order |
| Mappings.ToMappings | app/backend/api/v1/mappings.py:91-102 | the list succeeds iff every suggestion is complete, giving one mapping per suggestion in order; otherwise it fails with the error of the first incomplete suggestion and no partial list |
| Mappings.SummaryPartition | app/backend/api/v1/mappings.py:106-109 | high + medium + low equals the total, because the three buckets are disjoint and exhaustive |
| Mappings.AutoApprovedIsHigh | app/backend/api/v1/mappings.py:99-110 | when statuses come from the auto-approval rule, the auto-approved count equals the high-confidence count |
| Mappings.Boundaries | app/backend/api/v1/mappings.py:99-108 | confidence exactly 0.9 or exactly 0.7 is medium, neither high nor low, and stays pending |
| Mappings.SuggestMappings | app/backend/api/v1/mappings.py:84-121 | success iff the model call decodes and every suggestion is complete; then one copied mapping per suggestion, none rejected, buckets summing to the total and auto-approved equal to high; every failure is HTTP 500, whose detail is the model-call error text or else the KeyError text of an incomplete suggestion |
| Mappings.ApproveMappings | app/backend/api/v1/mappings.py:141-147 | reports "success", echoes the action, and counts every requested id as updated |
| Mappings.ApprovalIgnoresState | app/backend/api/v1/mappings.py:136-147 | the echo depends only on the action and the number of ids, not on the engagement, the ids or the overrides |
| Mappings.TopAccount | app/backend/api/v1/mappings.py:206-215 | a top-level account has no parent, and each child id is the parent id, a dot, and a non-empty dot-free suffix |
| Mappings.LoadCanonicalCoa | app/backend/api/v1/mappings.py:200-239 | whatever the template, three top-level accounts with distinct ids and no parent, each with three children whose ids extend the parent id by one dotted component |
| VertexMapper.DefaultMappings | app/backend/parsers/vertex_ai_mapper.py:131-142 | one entry per line item, in order, labelled with the item, with no code or label, confidence 0.0 and the "Automatic mapping failed" reasoning |
| VertexMapper.ErrorMappings | app/backend/parsers/vertex_ai_mapper.py:58-69 | one entry per line item, in order, with no code or label, confidence 0.0 and the exception text |
| VertexMapper.CoaSample | app/backend/parsers/vertex_ai_mapper.py:78 | the first min(50, n) chart entries, in their original order |
| VertexMapper.CoaLine | app/backend/parsers/vertex_ai_mapper.py:79 | a prompt line fails iff the `code` or `label` key is missing, with the `KeyError` text of `code` first; a missing or `null` `aliases` never fails |
| VertexMapper.AliasesShown | app/backend/parsers/vertex_ai_mapper.py:79 | a line shows the three values in the template; a missing `aliases` shows "N/A", and a `null` in any key shows "None" |
| VertexMapper.CoaLines | app/backend/parsers/vertex_ai_mapper.py:79 | all lines succeed iff every entry's line does, giving one line per entry in order |
| VertexMapper.CoaTextIgnoresTail | app/backend/parsers/vertex_ai_mapper.py:78-79 | entries after the fiftieth neither reach the prompt nor make it fail |
| VertexMapper.ArraySlice | app/backend/parsers/vertex_ai_mapper.py:116-120 | a slice exists iff some `[` precedes some `]`; it is exactly the text from the first `[` through the last `]`, inclusive |
| VertexMapper.BracketPair | app/backend/parsers/vertex_ai_mapper.py:119 | the guard "find('[') >= 0 and rfind(']') + 1 > find('[')" holds iff some `[` precedes some `]` |
| VertexMapper.ParseMappingResponse | app/backend/parsers/vertex_ai_mapper.py:112-129 | the decoded array exactly when a bracket slice exists and decodes; otherwise the default entries, so a decode error never escapes |
| VertexMapper.MapLineItems | app/backend/parsers/vertex_ai_mapper.py:30-69 | without a model, the default entries; when the prompt or the call raises, one error entry per item; otherwise the parsed reply; every fallback has one entry per item, in order, with confidence 0.0 |
| VertexMapper.DetectMissingFields | app/backend/parsers/vertex_ai_mapper.py:144-196 | `[]` without a model, when the call raises, without a bracket slice, or when the slice does not decode; otherwise the decoded array |
| Gemini.CleanReply | app/backend/ai/gemini_service.py:80-86 | a stripped reply that does not open with a fence reaches the decoder unchanged; a fenced one yields a fence-free segment strictly shorter than the reply, so index 1 of the split always exists |
| Gemini.FencedRoundTrip | app/backend/ai/gemini_service.py:83-86 | "```" + ("json" or no tag) + body + "```" + rest cleans to exactly body, when body holds no fence and does not end with a backtick; the tag is removed once |
| Gemini.StripFenced | app/backend/ai/gemini_service.py:80 | stripping a fenced reply removes only trailing whitespace after the closing fence |
| Gemini.FirstSegment | app/backend/ai/gemini_service.py:84 | the piece at index 1 of the fence split is the text up to the first fence after the opening one |
| Gemini.JsonCall | app/backend/ai/gemini_service.py:78-98 | the result succeeds iff the reply exists and its cleaned text decodes; a call failure is re-raised unchanged; a decode failure is wrapped or re-raised as configured |
| Gemini.MapToCoa | app/backend/ai/gemini_service.py:78-98 | succeeds iff the reply exists, its cleaned text decodes and the value has a length; a decode failure surfaces as "Invalid JSON response from Gemini"; a number, boolean or null makes the logging `len()` raise a `TypeError` that is re-raised |
| Gemini.ValidateFinancials | app/backend/ai/gemini_service.py:150-170 | succeeds iff the reply exists, its cleaned text decodes and the value is a JSON object; a decode failure surfaces as "Invalid JSON response from Gemini"; any other decoded value makes the logging `.get` raise an `AttributeError` that is re-raised |
| Gemini.GenerateForecastAssumptions | app/backend/ai/gemini_service.py:243-258 | succeeds iff the reply exists and its cleaned text decodes, whatever the value; every failure, including a decode failure, is re-raised unchanged |
| Gemini.SameCleanupEverywhere | app/backend/ai/gemini_service.py:83-86 | the three calls (whose clean-up lines recur at 156-159 and 247-250) hand the decoder the same text: what the stricter calls accept the forecast call returns too, the mapping call accepts a decoded value iff it has a length, and where the forecast call fails the other two fail with the same text behind the "Invalid JSON" prefix |
| Gemini.HistoryWindow | app/backend/ai/gemini_service.py:279 | the last min(5, n) messages, in order |
| Gemini.HistoryLine | app/backend/ai/gemini_service.py:278 | a line is the upper-cased role, ": ", then the content |
| Gemini.HistoryTextLines | app/backend/ai/gemini_service.py:277-280 | for a non-empty history, splitting the history block at newlines gives back one line per windowed message, in order, when no message holds a newline |
| Gemini.ChatResponse | app/backend/ai/gemini_service.py:303-309 | the stripped reply, or the raised exception |
| DocumentAI.SplitOnce | app/backend/ai/document_intelligence.py:59 | `split("/", 1)` yields one piece iff the separator is absent, else the text before the first separator and the rest, which rejoin to the input |
| DocumentAI.ParseGcsUri | app/backend/ai/document_intelligence.py:56-61 | a URI not starting with "gs://" is refused with "Invalid GCS URI"; one with no slash after the bucket fails with the index error; a success rejoins to the URI with a slash-free bucket |
| DocumentAI.GcsUriRoundTrip | app/backend/ai/document_intelligence.py:56-61 | "gs://" + bucket + "/" + blob with a slash-free bucket splits back to (bucket, blob) |
| DocumentAI.AnchorIndex | app/backend/ai/document_intelligence.py:174-175 | a missing or zero index takes the default; any other index is kept |
| DocumentAI.SegmentText | app/backend/ai/document_intelligence.py:174-176 | a segment contributes a contiguous piece of the text at its clamped start; a missing or zero end means "to the end" |
| DocumentAI.SegmentInRange | app/backend/ai/document_intelligence.py:174-176 | an anchor inside the text selects exactly `text[start..end]`, a missing start reading as 0 and a missing end as the text's length |
| DocumentAI.CellText | app/backend/ai/document_intelligence.py:172-178 | no segments give ""; one segment gives its text stripped; the result is never longer than the joined segments |
| DocumentAI.CellWords | app/backend/ai/document_intelligence.py:172-178 | the cell text has exactly the words of its segments, in segment order, for any number of segments |
| DocumentAI.FramedCell | app/backend/ai/document_intelligence.py:172-178 | when the first segment does not start and the last does not end with whitespace, the cell text is the segments joined by single spaces, nothing stripped |
| DocumentAI.UnanchoredCell | app/backend/ai/document_intelligence.py:174-178 | a segment with neither index set covers the whole text |
| DocumentAI.ExtractTable | app/backend/ai/document_intelligence.py:114-134 | headers come only from the first header row (none without one); one row per body row and one string per cell, each the cell's text; the page number is kept |
| DocumentAI.ExtractTables | app/backend/ai/document_intelligence.py:100-136 | one entry per table of the document, pages in order and tables in order within a page |
| DocumentAI.ExtractEntities | app/backend/ai/document_intelligence.py:138-158 | one entry per entity, in order, copying type, mention text and confidence; an absent normalized value stays absent |
| DocumentAI.ProcessDocument | app/backend/ai/document_intelligence.py:35-98 | without a client, the fixed empty record; otherwise URI errors and fetch errors propagate, and a processed document yields its text, page count, flattened tables, entities and first-page confidence (0.0 without pages) |
| Chat.SelectConversationId | app/backend/api/v1/chat.py:59 | the supplied id unless it is missing or empty, in which case the fresh one (the streaming call repeats the rule at line 102) |
| Chat.GenerateSuggestions | app/backend/api/v1/chat.py:232-244 | exactly the first three of the four fixed suggestions, in order |
| Chat.SuggestionsIgnoreInput | app/backend/api/v1/chat.py:232-244 | the suggestions depend on neither the message nor the context |
| Chat.ChatCall | app/backend/api/v1/chat.py:54-84 | succeeds iff the model call does, returning the stripped reply, the selected conversation id and the suggestions; a failure is HTTP 500 with the exception text |
| Chat.WordChunks | app/backend/api/v1/chat.py:114-121 | one content event per word, in order, each carrying the conversation id; its text is the word followed by one space, except for the last word, which has none |
| Chat.WordChunksJoin | app/backend/api/v1/chat.py:118 | concatenating the chunks gives the words joined by single spaces |
| Chat.ChatStream | app/backend/api/v1/chat.py:98-137 | on success, one content event per whitespace-separated word of the reply, then exactly one `Done`; on failure, a single error event with the exception text |
| Chat.StreamReassembles | app/backend/api/v1/chat.py:114-125 | a client concatenating the stream gets the reply with its whitespace normalised: the same words as the reply, joined by single spaces |
| Chat.BlankReplyOnlyDone | app/backend/api/v1/chat.py:114-125 | an empty or all-whitespace reply streams only `Done` |
| Files.UploadBlobName | app/backend/api/v1/files.py:55 | an upload's blob name lies under both the engagement's list prefix and the file's delete prefix |
| Files.UploadUrls | app/backend/api/v1/files.py:45-79 | succeeds iff every request has a `name` key; one entry per request, in order, echoing the fresh id and the name (`None` for a `null` one), with blob name exactly `engagements/{e}/uploads/{id}/{name}`, signed with the requested content type, "application/octet-stream" when the `type` key is absent, and none when it is `null`; a missing name is HTTP 500 with detail `'name'` |
| Files.NullNameUpload | app/backend/api/v1/files.py:55-71 | a `null` name is not an error: the entry echoes `None` and the blob is named `.../{id}/None` |
| Files.IssuedUploadIsListed | app/backend/api/v1/files.py:55-72 | a blob written where an issued URL points is listed under the requested name, when that name has no slash |
| Files.EntryOf | app/backend/api/v1/files.py:168-173 | a listed entry's name is the blob name's last `/`-segment (so slash-free), its size is the blob's size, and its upload time and content type are the blob's |
| Files.ListFiles | app/backend/api/v1/files.py:158-175 | one entry per blob under the engagement's uploads prefix, in listing order |
| Files.ListFilesAppend | app/backend/api/v1/files.py:163-173 | a blob placed last in the bucket's order is listed last, and adds an entry exactly when it lies under the engagement's prefix |
| Files.UploadIsListed | app/backend/api/v1/files.py:163-169 | a file uploaded to its blob name is listed under the requested name when that name has no slash |
| Files.OtherEngagementNotListed | app/backend/api/v1/files.py:163-164 | an upload of another engagement never appears in this engagement's listing |
| Files.DeleteFile | app/backend/api/v1/files.py:189-204 | every blob under the file's prefix is deleted and counted, every other blob stays in order, and the reply is "deleted" with that count |
| Files.DeleteLeavesOtherFiles | app/backend/api/v1/files.py:194-200 | after deleting a file, nothing is left under its prefix and the blobs of every other file id are exactly as before |
| Workbook.WorkbookBlobName | app/backend/api/v1/workbook.py:67 | a workbook's blob name lies under the engagement's workbook list prefix |
| Workbook.GenerateWorkbook | app/backend/api/v1/workbook.py:52-94 | the generated bytes are stored under the workbook's blob name with the spreadsheet media type, and the id and a signed URL for that blob are returned as "completed"; a generator failure is HTTP 500 |
| Workbook.GenerateKeepsOthers | app/backend/api/v1/workbook.py:67-73 | generating a workbook leaves every other blob as it was |
| Workbook.GenerateThenDownload | app/backend/api/v1/workbook.py:67-123 | a generated workbook downloads as exactly the generated bytes, with the spreadsheet media type and the file name "valuation_{engagement_id}.xlsx" |
| Workbook.DownloadWorkbook | app/backend/api/v1/workbook.py:104-123 | a missing workbook is a 404 "Workbook not found"; an existing one is streamed unchanged with the spreadsheet media type |
| Workbook.DownloadWorkbookAsWritten | app/backend/api/v1/workbook.py:104-127 | as written, a missing workbook ends as HTTP 500, because the 404 is raised inside the `try` |
| Workbook.MissingWorkbookIs500 | app/backend/api/v1/workbook.py:111-127 | downloading from an empty bucket answers 500 with detail "404: Workbook not found" |
| Workbook.DownloadVersionsAgree | app/backend/api/v1/workbook.py:104-127 | the as-written and the corrected download agree on every existing workbook and both fail on a missing one |
| Workbook.RecoverWorkbookId | app/backend/api/v1/workbook.py:145 | the recovered id is no longer than the blob name's last segment |
| Workbook.WorkbookIdRoundTrip | app/backend/api/v1/workbook.py:145 | the id recovered from a workbook's blob name is the id it was stored under, when the id has no "/" and no ".xlsx" |
| Workbook.ListWorkbooks | app/backend/api/v1/workbook.py:140-157 | one entry per blob under the workbook prefix, with the recovered id, the blob's creation time, the blob size and a signed URL; `total` equals the number of entries |
| Workbook.GeneratedIsListed | app/backend/api/v1/workbook.py:140-157 | a freshly generated workbook appears in the listing under its own id |
| Storage.Listing | app/backend/api/v1/files.py:163-164 | listing by prefix returns exactly the blobs whose name starts with the prefix |
| Storage.Unlisted | app/backend/api/v1/files.py:194-200 | what a prefix deletion keeps: exactly the blobs whose name does not start with the prefix |
| Storage.ListingPartition | app/backend/api/v1/files.py:194-204 | the blobs under a prefix and the rest together account for the whole bucket |
| Storage.ListingAppend | app/backend/api/v1/files.py:163-164 | listing a concatenation lists each part in turn |
| Storage.UnlistedKeepsOthers | app/backend/api/v1/files.py:194-200 | removing the blobs under one prefix empties that prefix and leaves the listing under a disjoint prefix unchanged |
| Storage.Lookup | app/backend/api/v1/workbook.py:109-111 | a found blob has the requested name and is in the bucket; nothing is found iff no blob has that name |
| Storage.PutLookup | app/backend/api/v1/workbook.py:68-73 | after a write, the written name yields the new blob and every other name what it yielded before |
| PyStr.LStrip | app/backend/ai/gemini_service.py:80 | `lstrip` drops exactly the leading whitespace |
| PyStr.RStrip | app/backend/ai/gemini_service.py:80 | `rstrip` drops exactly the trailing whitespace |
| PyStr.StripIdempotent | app/backend/ai/gemini_service.py:80 | stripping twice is stripping once |
| PyStr.Find | app/backend/parsers/vertex_ai_mapper.py:116 | `find` is the first index of the character, or -1 iff it is absent |
| PyStr.RFind | app/backend/parsers/vertex_ai_mapper.py:117 | `rfind` is the last index of the character, or -1 iff it is absent |
| PyStr.FindSub | app/backend/ai/gemini_service.py:84 | the first occurrence of a substring, or -1 when there is none |
| PyStr.Split | app/backend/ai/gemini_service.py:84 | `split(sep)` yields at least one piece and no piece contains the separator |
| PyStr.JoinSplit | app/backend/ai/gemini_service.py:84 | joining the pieces of a split with the separator gives back the text |
| PyStr.SplitJoin | app/backend/ai/gemini_service.py:277-280 | splitting pieces free of a one-character separator, joined by it, gives back the pieces |
| PyStr.LastSegment | app/backend/api/v1/files.py:169 | the last "/"-segment holds no slash |
| PyStr.LastSegmentOf | app/backend/api/v1/files.py:169 | the last segment of dir + "/" + name is name when name has no slash |
| PyStr.Words | app/backend/api/v1/chat.py:114 | `split()` yields only non-empty, whitespace-free words |
| PyStr.WordsJoin | app/backend/api/v1/chat.py:114-118 | the words of words joined by single spaces are the same words |
| PyStr.WordsStrip | app/backend/api/v1/chat.py:114 | stripping does not change the words |
| PyStr.WordsOfJoin | app/backend/ai/document_intelligence.py:178 | the words of texts joined by single spaces are each text's words in turn, so a join never merges two words |
| PyStr.Upper | app/backend/ai/gemini_service.py:278 | `upper` keeps the length and maps each ASCII letter to its capital |
| PyStr.Slice | app/backend/ai/document_intelligence.py:176 | a slice with in-range bounds is the sub-sequence; any bounds are clamped and never fail |
| PyStr.RemoveAllAbsent | app/backend/api/v1/workbook.py:145 | removing a pattern from a text that lacks it changes nothing |
| PyStr.RemoveAllTrailing | app/backend/api/v1/workbook.py:145 | removing ".xlsx" from an id plus ".xlsx" gives back the id when the id holds no ".xlsx" |
| PyStr.SeparatedPrefixes | app/backend/api/v1/files.py:194 | two directory prefixes with different slash-free segments never both start the same path |
| Wrappers.KeyErrorText | app/backend/api/v1/files.py:77-79 | the text of a `KeyError` is the key in single quotes |

## Left out

- Cloud calls: Vertex AI and Gemini generation, Document AI processing, GCS reads, writes and signing, and the Pub/Sub publish in `process_files`. These are inputs or opaque functions: the services are external.
- `process_files`, `get_file_status`, `get_mappings`, `update_mapping`, `get_conversation`, `list_conversations` and `export_to_google_sheets`: they either only publish a message or return constant stub data.
- `batch_process_documents` and `_get_processor_name`: pure cloud orchestration with no local rule.
- JSON decoding and encoding: decoding is a parameter, and so is the Python type of a decoded value where a log line depends on it; the model does not decide which texts are valid JSON.
- `Mappings.SuggestMappings`: takes a decoder that yields suggestion lists whose present keys hold values of the right type. An empty object or empty string has a length and iterates zero times, so the endpoint answers with no mappings, as a decoder yielding `[]` reproduces. Four kinds of reply fail in ways the model does not produce. A non-empty object, a non-empty string, or a list with a non-object entry raises a `TypeError` at the first key read. A number, boolean or null fails earlier, at `len()`; `Gemini.MapToCoa` models this, but this endpoint's decoder only yields lists. A null or non-numeric `confidence` raises a `TypeError` at `> 0.9`. A null or non-string id, name or reasoning fails `Mapping` validation. Each is a 500 carrying that exception's text, and a decoder mapping null to a missing key would wrongly give the `KeyError` detail.
- Prompt wording, logging (except the two success log lines whose own evaluation can raise), the `json.dumps` of the context, and the prompt parts other than the chart sample and the history block: free text with no behaviour.
- UUID generation and timestamps: taken as parameters.
- The SSE wire format (`data: ...\n\n`), `asyncio.sleep` pacing and the message saving after the stream: transport and stubs.
- `WorkbookGenerator` is not part of this model; its output is a parameter.
- A signing or upload failure after a workbook or upload URL has been partly produced is not modelled: signing is a total function of the blob name.
- `VertexMapper.CoaLine`: entry values are strings or `null`; a value of another JSON type (a number, a list) would be shown with Python's `str`, which the model does not render.
- `Files.UploadUrls`: `name` and `type` values are strings or `null`; a value of another JSON type would be shown in the blob name with Python's `str` and passed to signing as is, which the model does not render.
- `Storage.Listing`: the object store lists in lexicographic order; the model keeps the bucket's own order and does not assume sortedness.
- `Mappings.SummaryPartition`: holds for real-valued confidences; a NaN confidence (which Python's JSON decoder accepts) would fall in no bucket and break the sum, and is not modelled.
- `PyStr.Upper`: maps only the ASCII letters; Python's full Unicode case mapping (including length-changing cases such as "ß") is not modelled.
- `VertexMapper.ParseMappingResponse`: a decoder exception other than a decode error (such as a recursion error on deeply nested input) would reach `map_line_items`' handler; it is not modelled.
- `Gemini.FencedRoundTrip`: requires that the body does not end with a backtick, because the fence search would then match across the end of the body.
- `Workbook.WorkbookIdRoundTrip`: requires an id with no "/" and no ".xlsx", which UUIDs satisfy; other ids do not round-trip.

## Findings

| source | as written | input that shows it | evidently intended | confidence | as-written member | corrected member |
|---|---|---|---|---|---|---|
| app/backend/api/v1/workbook.py:111-127 | the `HTTPException(404)` for a missing workbook is raised inside the `try`, whose `except Exception` turns it into a 500 with detail "404: Workbook not found" | `GET /e1/workbook/w1/download` against a bucket with no `engagements/e1/workbooks/w1.xlsx` | a 404 "Workbook not found" | medium, not executed | Workbook.DownloadWorkbookAsWritten, Workbook.MissingWorkbookIs500 | Workbook.DownloadWorkbook, Workbook.GenerateThenDownload |
