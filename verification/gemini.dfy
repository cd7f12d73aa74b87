/** The deterministic part of the language-model service
    (app/backend/ai/gemini_service.py): the markdown clean-up applied to
    every JSON reply, how a decode failure is reported by each of the three
    JSON-returning calls, and the chat prompt's history window.

    The model call itself is opaque: a reply is `Success(response.text)` or
    `Failure(text of the exception raised)`, and JSON decoding is a function
    parameter that either yields a value or the decoder's error message. */
module Gemini {
  import opened Wrappers
  import opened PyStr

  /** The markdown code fence. */
  const Fence: string := "```"

  /** The language tag a fenced reply may carry. */
  const JsonTag: string := "json"

  /** How a failing call surfaces: `InvalidJson` is the `ValueError` the
      mapping and validation calls raise when decoding fails; `Raised` is any
      exception re-raised unchanged. */
  datatype GeminiError = InvalidJson(reason: string) | Raised(message: string)

  /** `str(e)` for each kind of failure. */
  function ErrorText(e: GeminiError): string {
    match e
    case InvalidJson(reason) => "Invalid JSON response from Gemini: " + reason
    case Raised(message) => message
  }

  /** The text handed to the JSON decoder: the stripped reply, or, when it
      starts with a fence, the segment between the first and second fence with
      one leading `json` tag removed. The `split` piece at index 1 always exists. */
  function CleanReply(text: string): (r: string)
    ensures !StartsWith(Strip(text), Fence) ==> r == Strip(text)
    ensures StartsWith(Strip(text), Fence) ==> !Contains(r, Fence) && |r| < |text|
  {
    var t := Strip(text);
    if StartsWith(t, Fence) then
      assert t == Fence + t[|Fence|..];
      SplitLeadingSep(t[|Fence|..], Fence);
      var parts := Split(t, Fence);
      JoinSplit(t, Fence);
      var seg := parts[1];
      assert |seg| <= |t| - |Fence| by {
        assert parts == [""] + Split(t[|Fence|..], Fence);
        JoinSplit(t[|Fence|..], Fence);
        JoinFirstLength(Split(t[|Fence|..], Fence), Fence);
      }
      if StartsWith(seg, JsonTag) then
        SuffixAbsent(seg, Fence, |JsonTag|);
        seg[|JsonTag|..]
      else seg
    else t
  }

  /** The first part never outgrows the joined text. */
  lemma JoinFirstLength(parts: seq<string>, sep: string)
    requires |parts| >= 1
    ensures |parts[0]| <= |Join(parts, sep)|
  {
  }

  /** No occurrence of the fence starts inside `u` when `u` is fence-free, has
      no backtick among its first characters that could start one, and does
      not end with a backtick. */
  lemma NoFenceBefore(u: string, tail: string)
    requires !Contains(u, Fence)
    requires u == [] || u[|u| - 1] != '`'
    ensures forall i :: 0 <= i < |u| ==> !OccursAt(u + tail, Fence, i)
  {
    var y := u + tail;
    forall i | 0 <= i < |u|
      ensures !OccursAt(y, Fence, i)
    {
      if i + 3 <= |u| {
        assert y[i..i + 3] == u[i..i + 3];
        assert !OccursAt(u, Fence, i);
      } else if i + 3 <= |y| {
        var j := |u| - 1;
        assert y[j] == u[j];
        assert y[i..i + 3][j - i] == y[j];
      }
    }
  }

  /** Round trip: a reply fenced as "```" + tag + body + "```" + trailing text
      cleans to exactly `body`, for the `json` tag or no tag, provided the body
      holds no fence and does not end with a backtick (otherwise the fence
      search would match inside the body). A body that itself starts with
      `json` keeps it when tagged: the tag is removed once. */
  lemma {:induction false} FencedRoundTrip(tag: string, body: string, rest: string)
    requires tag == JsonTag || (tag == "" && !StartsWith(body, JsonTag))
    requires !Contains(body, Fence)
    requires body == [] || body[|body| - 1] != '`'
    ensures CleanReply(Fence + tag + body + Fence + rest) == body
  {
    var u := tag + body;
    assert Fence + tag + body + Fence + rest == Fence + u + Fence + rest;
    StripFenced(u, rest);
    UFenceFree(tag, body);
    FirstSegment(u, RStrip(rest));
    if tag == JsonTag {
      assert StartsWith(u, JsonTag);
      assert u[|JsonTag|..] == body;
    } else {
      assert u == body;
    }
  }

  /** Stripping a text that opens with a fence and has a fence after `u`
      touches only the trailing text. */
  lemma StripFenced(u: string, rest: string)
    ensures Strip(Fence + u + Fence + rest) == Fence + u + Fence + RStrip(rest)
  {
    var a := Fence + u + Fence;
    var x := a + rest;
    assert Fence + u + Fence + rest == x;
    assert !IsSpace(x[0]);
    assert LStrip(x) == x;
    assert a[|a| - 1] == '`';
    RStripAppend(a, rest);
  }

  /** The piece at index 1 of a fenced text is everything up to the first
      fence after the opening one. */
  lemma FirstSegment(u: string, tail: string)
    requires !Contains(u, Fence)
    requires u == [] || u[|u| - 1] != '`'
    ensures Split(Fence + u + Fence + tail, Fence)[1] == u
  {
    var y := u + Fence + tail;
    assert Fence + u + Fence + tail == Fence + y;
    NoFenceBefore(u, Fence + tail);
    assert y == u + (Fence + tail);
    assert y[|u|..|u| + 3] == Fence;
    assert OccursAt(y, Fence, |u|);
    assert FindSub(y, Fence) == |u|;
    SplitAtFirst(u, Fence, tail);
    SplitLeadingSep(y, Fence);
  }

  /** `tag + body` is fence-free and ends in something other than a backtick. */
  lemma UFenceFree(tag: string, body: string)
    requires tag == JsonTag || tag == ""
    requires !Contains(body, Fence)
    requires body == [] || body[|body| - 1] != '`'
    ensures !Contains(tag + body, Fence)
    ensures tag + body == [] || (tag + body)[|tag + body| - 1] != '`'
  {
    var u := tag + body;
    forall i | 0 <= i && i + 3 <= |u|
      ensures !OccursAt(u, Fence, i)
    {
      if i >= |tag| {
        assert u[i..i + 3] == body[i - |tag|..i - |tag| + 3];
        assert !OccursAt(body, Fence, i - |tag|);
      } else {
        assert u[i] == tag[i];
        assert u[i..i + 3][0] == u[i];
      }
    }
  }

  /** One JSON-returning call: the reply is cleaned and decoded. When
      `wrapDecodeError` holds, a decode failure becomes `InvalidJson`;
      otherwise the decoder's exception is re-raised as is. */
  function JsonCall<J>(reply: Result<string, string>, decode: string -> Result<J, string>,
                       wrapDecodeError: bool): (r: Result<J, GeminiError>)
    ensures r.Success? <==> reply.Success? && decode(CleanReply(reply.value)).Success?
    ensures reply.Failure? ==> r == Failure(Raised(reply.error))
    ensures r.Success? ==> r.value == decode(CleanReply(reply.value)).value
    ensures r.Failure? && reply.Success? ==>
      r.error == (if wrapDecodeError then InvalidJson(decode(CleanReply(reply.value)).error)
                  else Raised(decode(CleanReply(reply.value)).error))
  {
    match reply
    case Failure(e) => Failure(Raised(e))
    case Success(text) =>
      match decode(CleanReply(text))
      case Success(v) => Success(v)
      case Failure(m) => if wrapDecodeError then Failure(InvalidJson(m)) else Failure(Raised(m))
  }

  /** The Python type of a decoded JSON value. */
  datatype JsonKind = JsonObject | JsonArray | JsonString | JsonInt | JsonFloat | JsonBool | JsonNull

  /** `type(v).__name__` for a decoded value of each kind. */
  function PyTypeName(k: JsonKind): string {
    match k
    case JsonObject => "dict"
    case JsonArray => "list"
    case JsonString => "str"
    case JsonInt => "int"
    case JsonFloat => "float"
    case JsonBool => "bool"
    case JsonNull => "NoneType"
  }

  /** Values `len()` accepts. */
  predicate HasLen(k: JsonKind) {
    k.JsonObject? || k.JsonArray? || k.JsonString?
  }

  /** The `TypeError` of `len(v)` on a value without a length. */
  function NoLenText(k: JsonKind): string {
    "object of type '" + PyTypeName(k) + "' has no len()"
  }

  /** The `AttributeError` of `v.get(...)` on a value that is not a dict. */
  function NoGetText(k: JsonKind): string {
    "'" + PyTypeName(k) + "' object has no attribute 'get'"
  }

  /** `map_to_coa`: a decode failure is reported as `InvalidJson`; the success
      log line takes `len()` of the decoded value, so a number, boolean or
      null raises a `TypeError` that is re-raised unchanged. */
  function MapToCoa<J>(reply: Result<string, string>, decode: string -> Result<J, string>,
                       kind: J -> JsonKind): (r: Result<J, GeminiError>)
    ensures r.Success? <==>
      reply.Success? && decode(CleanReply(reply.value)).Success? && HasLen(kind(decode(CleanReply(reply.value)).value))
    ensures r.Success? ==> decode(CleanReply(reply.value)) == Success(r.value)
    ensures r.Failure? ==> (r.error.InvalidJson? <==> reply.Success? && decode(CleanReply(reply.value)).Failure?)
    ensures r.Failure? && reply.Success? && decode(CleanReply(reply.value)).Success? ==>
      r.error == Raised(NoLenText(kind(decode(CleanReply(reply.value)).value)))
  {
    match JsonCall(reply, decode, true)
    case Failure(e) => Failure(e)
    case Success(v) => if HasLen(kind(v)) then Success(v) else Failure(Raised(NoLenText(kind(v))))
  }

  /** `validate_financials`: a decode failure is reported as `InvalidJson`;
      the success log line calls `.get` on the decoded value, so anything
      but an object raises an `AttributeError` that is re-raised unchanged. */
  function ValidateFinancials<J>(reply: Result<string, string>, decode: string -> Result<J, string>,
                                 kind: J -> JsonKind): (r: Result<J, GeminiError>)
    ensures r.Success? <==>
      reply.Success? && decode(CleanReply(reply.value)).Success? && kind(decode(CleanReply(reply.value)).value) == JsonObject
    ensures r.Success? ==> decode(CleanReply(reply.value)) == Success(r.value)
    ensures r.Failure? ==> (r.error.InvalidJson? <==> reply.Success? && decode(CleanReply(reply.value)).Failure?)
    ensures r.Failure? && reply.Success? && decode(CleanReply(reply.value)).Success? ==>
      r.error == Raised(NoGetText(kind(decode(CleanReply(reply.value)).value)))
  {
    match JsonCall(reply, decode, true)
    case Failure(e) => Failure(e)
    case Success(v) => if kind(v).JsonObject? then Success(v) else Failure(Raised(NoGetText(kind(v))))
  }

  /** `generate_forecast_assumptions`: every failure is re-raised unchanged,
      and any decoded value is returned. */
  function GenerateForecastAssumptions<J>(reply: Result<string, string>, decode: string -> Result<J, string>): (r: Result<J, GeminiError>)
    ensures r.Success? <==> reply.Success? && decode(CleanReply(reply.value)).Success?
    ensures r.Failure? ==> r.error.Raised?
    ensures r.Success? ==> decode(CleanReply(reply.value)) == Success(r.value)
  {
    JsonCall(reply, decode, false)
  }

  /** The three JSON calls hand the decoder the same text: whatever the
      stricter calls accept, the forecast call returns too, an object passes
      all three, and where the forecast call fails the other two fail with
      the same text behind the "Invalid JSON" prefix. */
  lemma SameCleanupEverywhere<J>(reply: Result<string, string>, decode: string -> Result<J, string>,
                                 kind: J -> JsonKind)
    ensures ValidateFinancials(reply, decode, kind).Success? ==>
      MapToCoa(reply, decode, kind) == ValidateFinancials(reply, decode, kind)
    ensures MapToCoa(reply, decode, kind).Success? ==>
      MapToCoa(reply, decode, kind) == GenerateForecastAssumptions(reply, decode)
    ensures GenerateForecastAssumptions(reply, decode).Success? ==>
      (MapToCoa(reply, decode, kind).Success? <==> HasLen(kind(GenerateForecastAssumptions(reply, decode).value)))
    ensures GenerateForecastAssumptions(reply, decode).Failure? ==>
      && MapToCoa(reply, decode, kind) == ValidateFinancials(reply, decode, kind)
      && ErrorText(MapToCoa(reply, decode, kind).error) ==
           (if reply.Success? then "Invalid JSON response from Gemini: " else "")
           + ErrorText(GenerateForecastAssumptions(reply, decode).error)
  {
  }

  // ---------------------------------------------------------------------
  // chat

  /** One message of a conversation history. */
  datatype ChatMessage = ChatMessage(role: string, content: string)

  /** `conversation_history[-5:]`: the last five messages, or all when fewer. */
  function HistoryWindow(history: seq<ChatMessage>): (w: seq<ChatMessage>)
    ensures |w| == if |history| < 5 then |history| else 5
    ensures w == history[|history| - |w|..]
  {
    if |history| <= 5 then history else history[|history| - 5..]
  }

  /** One history line: the upper-cased role, a colon and a space, the content. */
  function HistoryLine(m: ChatMessage): (line: string)
    ensures |line| == |m.role| + 2 + |m.content|
    ensures line[..|m.role|] == Upper(m.role)
    ensures line[|m.role|..|m.role| + 2] == ": "
    ensures line[|m.role| + 2..] == m.content
  {
    Upper(m.role) + ": " + m.content
  }

  /** The history block of the chat prompt: the window's lines joined by newlines. */
  function HistoryText(history: seq<ChatMessage>): string {
    var w := HistoryWindow(history);
    Join(seq(|w|, i requires 0 <= i < |w| => HistoryLine(w[i])), "\n")
  }

  /** Splitting the history block at newlines gives one line per message of the
      window, in order, when no role or content holds a newline. */
  lemma HistoryTextLines(history: seq<ChatMessage>)
    requires |history| > 0
    requires forall i :: 0 <= i < |history| ==> '\n' !in history[i].role && '\n' !in history[i].content
    ensures var w := HistoryWindow(history);
            var lines := Split(HistoryText(history), "\n");
            |lines| == |w| && forall i :: 0 <= i < |w| ==> lines[i] == HistoryLine(w[i])
  {
    var w := HistoryWindow(history);
    var lines := seq(|w|, i requires 0 <= i < |w| => HistoryLine(w[i]));
    forall i | 0 <= i < |w|
      ensures '\n' !in lines[i]
    {
      assert w[i] == history[|history| - |w| + i];
      HistoryLineSingle(w[i]);
    }
    SplitJoin(lines, '\n');
  }

  /** A message whose role and content hold no newline renders as one line. */
  lemma HistoryLineSingle(m: ChatMessage)
    requires '\n' !in m.role && '\n' !in m.content
    ensures '\n' !in HistoryLine(m)
  {
    var up := Upper(m.role);
    assert forall k :: 0 <= k < |up| ==> up[k] == UpperChar(m.role[k]);
    assert '\n' !in up;
    assert HistoryLine(m) == up + ": " + m.content;
  }

  /** `chat_response`: the stripped reply text, or the raised exception. */
  function ChatResponse(reply: Result<string, string>): (r: Result<string, GeminiError>)
    ensures r.Success? <==> reply.Success?
    ensures r.Success? ==> r.value == Strip(reply.value)
    ensures r.Failure? ==> r.error == Raised(reply.error)
  {
    match reply
    case Success(text) => Success(Strip(text))
    case Failure(e) => Failure(Raised(e))
  }
}
