/** The line-item mapper (app/backend/parsers/vertex_ai_mapper.py): how a
    model reply is cut down to its JSON array, the "unmapped" entries it falls
    back to, the chart-of-accounts sample put in the prompt, and the
    missing-field detector's fallbacks.

    The model call is opaque: `modelAvailable` says whether a model object
    exists, and a reply is `Success(response.text)` or `Failure(exception
    text)`. JSON decoding of a bracketed slice is a function parameter that
    yields the decoded array or `None` for a `JSONDecodeError` (a slice that
    starts with `[` and decodes is necessarily an array). */
module VertexMapper {
  import opened Wrappers
  import opened PyStr

  /** The prompt shows at most this many chart-of-accounts entries. */
  const CoaSampleSize: nat := 50

  /** The reasoning text of a default entry. */
  const FailedReasoning: string := "Automatic mapping failed"

  /** The last key of a fallback entry: `reasoning` for a default entry,
      `error` (the exception text) when the mapping call raised. */
  datatype Note = Reasoning(text: string) | ErrorText(message: string)

  /** A fallback entry: the line item left unmapped. */
  datatype UnmappedEntry = UnmappedEntry(
    sourceLabel: string,
    canonicalCode: Option<string>,
    canonicalLabel: Option<string>,
    confidence: real,
    note: Note)

  /** What `map_line_items` returns: the decoded model array, or one
      fallback entry per line item. */
  datatype MapperOutput<J> = Decoded(values: seq<J>) | Unmapped(entries: seq<UnmappedEntry>)

  /** A chart-of-accounts entry as the prompt reads it. */
  datatype CoaEntry = CoaEntry(code: Field, labelText: Field, aliases: Field)

  /** One entry per line item, in order, labelled with the item, with no code,
      no label, confidence 0.0 and the given note. */
  predicate UnmappedFor(entries: seq<UnmappedEntry>, items: seq<string>, note: Note) {
    && |entries| == |items|
    && forall i :: 0 <= i < |items| ==>
         entries[i] == UnmappedEntry(items[i], None, None, 0.0, note)
  }

  /** `_create_default_mappings` */
  function DefaultMappings(items: seq<string>): (r: seq<UnmappedEntry>)
    ensures UnmappedFor(r, items, Reasoning(FailedReasoning))
  {
    seq(|items|, i requires 0 <= i < |items| => UnmappedEntry(items[i], None, None, 0.0, Reasoning(FailedReasoning)))
  }

  /** The entries `map_line_items` returns when the mapping call raised `err`. */
  function ErrorMappings(items: seq<string>, err: string): (r: seq<UnmappedEntry>)
    ensures UnmappedFor(r, items, ErrorText(err))
  {
    seq(|items|, i requires 0 <= i < |items| => UnmappedEntry(items[i], None, None, 0.0, ErrorText(err)))
  }

  // ---------------------------------------------------------------------
  // prompt

  /** `canonical_coa[:50] if len(canonical_coa) > 50 else canonical_coa` */
  function CoaSample(coa: seq<CoaEntry>): (r: seq<CoaEntry>)
    ensures |r| == if |coa| < CoaSampleSize then |coa| else CoaSampleSize
    ensures r == coa[..|r|]
  {
    if |coa| > CoaSampleSize then coa[..CoaSampleSize] else coa
  }

  /** One prompt line for an entry: `code` and `label` are required (a
      missing one raises `KeyError`), `aliases` defaults to "N/A"; a present
      `null` in any of them is shown as `None`. */
  function CoaLine(e: CoaEntry): (r: Result<string, string>)
    ensures r.Failure? <==> e.code.Missing? || e.labelText.Missing?
    ensures e.code.Missing? ==> r == Failure(KeyErrorText("code"))
    ensures !e.code.Missing? && e.labelText.Missing? ==> r == Failure(KeyErrorText("label"))
  {
    match (e.code, e.labelText)
    case (Missing, _) => Failure(KeyErrorText("code"))
    case (_, Missing) => Failure(KeyErrorText("label"))
    case (code, labelText) =>
      Success("- " + code.GetText("") + ": " + labelText.GetText("") + " (aliases: " + e.aliases.GetText("N/A") + ")")
  }

  /** What a prompt line shows for each state of a key: a missing `aliases`
      shows as "N/A", and a `null` in any key shows as "None". */
  lemma AliasesShown(code: string, labelText: string, aliases: string)
    ensures CoaLine(CoaEntry(Present(code), Present(labelText), Present(aliases)))
         == Success("- " + code + ": " + labelText + " (aliases: " + aliases + ")")
    ensures CoaLine(CoaEntry(Present(code), Present(labelText), Missing))
         == Success("- " + code + ": " + labelText + " (aliases: N/A)")
    ensures CoaLine(CoaEntry(Present(code), Present(labelText), Null))
         == Success("- " + code + ": " + labelText + " (aliases: None)")
    ensures CoaLine(CoaEntry(Null, Null, Present(aliases)))
         == Success("- None: None (aliases: " + aliases + ")")
  {
    var p := "- " + code + ": " + labelText;
    assert p + " (aliases: " + "N/A" + ")" == p + " (aliases: N/A)";
    assert p + " (aliases: " + "None" + ")" == p + " (aliases: None)";
    assert "- " + "None" + ": " + "None" + " (aliases: " == "- None: None (aliases: ";
  }

  /** All lines for a list of entries, or the error of the first bad entry. */
  function CoaLines(entries: seq<CoaEntry>): (r: Result<seq<string>, string>)
    ensures r.Success? <==> forall i :: 0 <= i < |entries| ==> CoaLine(entries[i]).Success?
    ensures r.Success? ==>
      (|r.value| == |entries| && forall i :: 0 <= i < |entries| ==> CoaLine(entries[i]) == Success(r.value[i]))
  {
    if |entries| == 0 then Success([])
    else
      match CoaLine(entries[0])
      case Failure(e) => Failure(e)
      case Success(line) =>
        var tail := entries[1..];
        assert forall i :: 1 <= i < |entries| ==> entries[i] == tail[i - 1];
        match CoaLines(tail)
        case Failure(e) => Failure(e)
        case Success(lines) =>
          var r := [line] + lines;
          assert forall i :: 1 <= i < |entries| ==> r[i] == lines[i - 1];
          Success(r)
  }

  /** The chart-of-accounts block of the prompt. */
  function CoaText(coa: seq<CoaEntry>): Result<string, string> {
    match CoaLines(CoaSample(coa))
    case Failure(e) => Failure(e)
    case Success(lines) => Success(Join(lines, "\n"))
  }

  /** Entries after the fiftieth never reach the prompt and never raise. */
  lemma CoaTextIgnoresTail(coa: seq<CoaEntry>, extra: seq<CoaEntry>)
    requires |coa| >= CoaSampleSize
    ensures CoaText(coa + extra) == CoaText(coa)
  {
    assert CoaSample(coa + extra) == CoaSample(coa);
  }

  // ---------------------------------------------------------------------
  // parsing the reply

  /** The text from the first `[` through the last `]` of the stripped reply,
      when a `]` follows the first `[`. */
  function BracketSlice(text: string): (r: Option<string>)
    ensures r == ArraySlice(Strip(text))
  {
    ArraySlice(Strip(text))
  }

  /** `t[t.find('['):t.rfind(']') + 1]` when that is a non-empty bracketed
      slice: exactly the text from the first `[` through the last `]`. */
  function ArraySlice(t: string): (r: Option<string>)
    ensures r.Some? <==> HasBracketPair(t)
    ensures r.Some? ==>
      var i := Find(t, '[');
      var j := RFind(t, ']');
      && 0 <= i < j < |t|
      && r.value == t[i..j + 1]
      && '[' !in t[..i] && ']' !in t[j + 1..]
  {
    var start := Find(t, '[');
    var end := RFind(t, ']') + 1;
    BracketPair(t);
    if start >= 0 && end > start then
      assert '[' !in t[..start] && ']' !in t[end..];
      Some(t[start..end])
    else
      None
  }

  /** Some `[` precedes some `]` in `t`. */
  ghost predicate HasBracketPair(t: string) {
    exists i, j :: 0 <= i < j < |t| && t[i] == '[' && t[j] == ']'
  }

  /** A `]` lies after the first `[` exactly when some `[` precedes some `]`. */
  lemma BracketPair(t: string)
    ensures (Find(t, '[') >= 0 && RFind(t, ']') > Find(t, '[')) <==> HasBracketPair(t)
  {
    if exists i, j :: 0 <= i < j < |t| && t[i] == '[' && t[j] == ']' {
      var i, j :| 0 <= i < j < |t| && t[i] == '[' && t[j] == ']';
      assert '[' in t;
      var f := Find(t, '[');
      assert f <= i;
      var l := RFind(t, ']');
      assert l >= j;
    }
  }

  /** `_parse_mapping_response`: the decoded slice, or the default entries when
      there is no slice or it does not decode; a decode error never escapes. */
  function ParseMappingResponse<J>(text: string, items: seq<string>,
                                   decode: string -> Option<seq<J>>): (r: MapperOutput<J>)
    ensures r.Decoded? <==> BracketSlice(text).Some? && decode(BracketSlice(text).value).Some?
    ensures r.Decoded? ==> Some(r.values) == decode(BracketSlice(text).value)
    ensures r.Unmapped? ==> UnmappedFor(r.entries, items, Reasoning(FailedReasoning))
  {
    match BracketSlice(text)
    case None => Unmapped(DefaultMappings(items))
    case Some(json) =>
      match decode(json)
      case None => Unmapped(DefaultMappings(items))
      case Some(v) => Decoded(v)
  }

  /** `map_line_items`: without a model, the default entries; when building the
      prompt or calling the model raises, one error entry per item; otherwise
      the parsed reply. A fallback always has one entry per item, in order. */
  function MapLineItems<J>(modelAvailable: bool, items: seq<string>, coa: seq<CoaEntry>,
                           reply: Result<string, string>,
                           decode: string -> Option<seq<J>>): (r: MapperOutput<J>)
    ensures !modelAvailable ==> r == Unmapped(DefaultMappings(items))
    ensures modelAvailable && CoaText(coa).Failure? ==>
      r.Unmapped? && UnmappedFor(r.entries, items, ErrorText(CoaText(coa).error))
    ensures modelAvailable && CoaText(coa).Success? && reply.Failure? ==>
      r.Unmapped? && UnmappedFor(r.entries, items, ErrorText(reply.error))
    ensures modelAvailable && CoaText(coa).Success? && reply.Success? ==>
      r == ParseMappingResponse(reply.value, items, decode)
    ensures r.Unmapped? ==>
      && |r.entries| == |items|
      && forall i :: 0 <= i < |items| ==>
           && r.entries[i].sourceLabel == items[i]
           && r.entries[i].canonicalCode.None?
           && r.entries[i].canonicalLabel.None?
           && r.entries[i].confidence == 0.0
  {
    if !modelAvailable then Unmapped(DefaultMappings(items))
    else
      match CoaText(coa)
      case Failure(e) => Unmapped(ErrorMappings(items, e))
      case Success(_) =>
        match reply
        case Failure(e) => Unmapped(ErrorMappings(items, e))
        case Success(text) => ParseMappingResponse(text, items, decode)
  }

  /** `detect_missing_fields`: the decoded issue array, or `[]` without a
      model, when the call raises, when no bracketed slice exists, or when the
      slice does not decode. */
  function DetectMissingFields<J>(modelAvailable: bool, reply: Result<string, string>,
                                  decode: string -> Option<seq<J>>): (r: seq<J>)
    ensures !modelAvailable || reply.Failure? ==> r == []
    ensures modelAvailable && reply.Success? && BracketSlice(reply.value).None? ==> r == []
    ensures modelAvailable && reply.Success? && BracketSlice(reply.value).Some? ==>
      r == decode(BracketSlice(reply.value).value).GetOr([])
  {
    if !modelAvailable then []
    else
      match reply
      case Failure(_) => []
      case Success(text) =>
        match BracketSlice(text)
        case None => []
        case Some(json) => decode(json).GetOr([])
  }
}
