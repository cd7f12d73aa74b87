/** The chat endpoints (app/backend/api/v1/chat.py): the conversation id
    chosen for a request, the reply of the plain chat call, the fixed
    follow-up suggestions, and the event sequence of the streaming call.

    The model reply comes through `Gemini.ChatResponse`; a fresh conversation
    id (a UUID in the source) is a parameter. The engagement context and the
    conversation history are stubs in the source (a constant dictionary and
    an empty list) and do not influence anything modelled here. */
module Chat {
  import opened Wrappers
  import opened PyStr
  import Gemini

  /** One server-sent event of the streaming call. */
  datatype Event =
    | ContentChunk(content: string, conversationId: string)
    | Done
    | StreamError(error: string)

  /** What the plain chat call returns. */
  datatype ChatReply = ChatReply(message: string, conversationId: string, suggestions: seq<string>)

  /** The rule-based follow-up suggestions, of which the first three are offered. */
  const SuggestionPool: seq<string> := [
    "What happens if revenue growth is 20% instead?",
    "Show me sensitivity analysis on WACC",
    "Explain the DCF calculation",
    "What are the key value drivers?"
  ]

  /** The requested conversation id unless it is missing or empty (Python's
      `or` treats "" as false), in which case `newId`. */
  function SelectConversationId(requested: Option<string>, newId: string): (id: string)
    ensures requested.Some? && requested.value != "" ==> id == requested.value
    ensures requested.None? || requested.value == "" ==> id == newId
  {
    match requested
    case Some(id) => if id != "" then id else newId
    case None => newId
  }

  /** `_generate_suggestions`: three suggestions from the pool, in pool order,
      whatever the message and context. */
  function GenerateSuggestions<C>(message: string, context: C): (r: seq<string>)
    ensures |r| == 3
    ensures forall i :: 0 <= i < |r| ==> r[i] == SuggestionPool[i]
    ensures SuggestionPool[3] !in r
  {
    SuggestionPool[..3]
  }

  /** The suggestions depend on neither the message nor the context. */
  lemma SuggestionsIgnoreInput<C>(m1: string, c1: C, m2: string, c2: C)
    ensures GenerateSuggestions(m1, c1) == GenerateSuggestions(m2, c2)
  {
  }

  /** `chat`: the stripped model reply with the selected conversation id and
      the suggestions; any failure becomes a 500 carrying the exception text. */
  function ChatCall<C>(message: string, context: C, requested: Option<string>, newId: string,
                       reply: Result<string, string>): (r: Result<ChatReply, HttpError>)
    ensures r.Success? <==> reply.Success?
    ensures r.Failure? ==> r.error == HttpError(500, reply.error)
    ensures r.Success? ==>
      && r.value.message == Strip(reply.value)
      && r.value.conversationId == SelectConversationId(requested, newId)
      && r.value.suggestions == GenerateSuggestions(message, context)
  {
    var id := SelectConversationId(requested, newId);
    match Gemini.ChatResponse(reply)
    case Failure(e) => Failure(HttpError(500, Gemini.ErrorText(e)))
    case Success(text) => Success(ChatReply(text, id, GenerateSuggestions(message, context)))
  }

  // ---------------------------------------------------------------------
  // streaming

  /** One content event per word, all carrying `id`; every word but the last
      is followed by a single space. */
  function WordChunks(words: seq<string>, id: string): (r: seq<Event>)
    ensures |r| == |words|
    ensures forall i :: 0 <= i < |r| ==> r[i].ContentChunk? && r[i].conversationId == id
    ensures forall i :: 0 <= i < |r| - 1 ==> r[i].content == words[i] + " "
    ensures |r| > 0 ==> r[|r| - 1].content == words[|words| - 1]
  {
    seq(|words|, i requires 0 <= i < |words| =>
      ContentChunk(words[i] + (if i < |words| - 1 then " " else ""), id))
  }

  /** The text a client reassembles from a stream: its content events'
      texts, concatenated in order. */
  function StreamedText(events: seq<Event>): string {
    if |events| == 0 then ""
    else (if events[0].ContentChunk? then events[0].content else "") + StreamedText(events[1..])
  }

  /** The word chunks concatenate to the words joined by single spaces. */
  lemma {:induction false} WordChunksJoin(words: seq<string>, id: string)
    ensures StreamedText(WordChunks(words, id)) == Join(words, " ")
    decreases |words|
  {
    var r := WordChunks(words, id);
    if |words| == 1 {
      assert r[0] == ContentChunk(words[0] + "", id);
      assert words[0] + "" == words[0];
      assert r[1..] == [];
    } else if |words| > 1 {
      assert r[0] == ContentChunk(words[0] + " ", id);
      assert r[1..] == WordChunks(words[1..], id);
      WordChunksJoin(words[1..], id);
    }
  }

  /** Content events followed by anything without content reassemble to the
      content events' text. */
  lemma {:induction false} StreamedTextAppend(a: seq<Event>, b: seq<Event>)
    requires forall i :: 0 <= i < |b| ==> !b[i].ContentChunk?
    ensures StreamedText(a + b) == StreamedText(a)
    decreases |a| + |b|
  {
    if |a| == 0 {
      if |b| > 0 {
        assert (a + b)[1..] == [] + b[1..];
        StreamedTextAppend([], b[1..]);
      }
    } else {
      assert (a + b)[1..] == a[1..] + b;
      StreamedTextAppend(a[1..], b);
    }
  }

  /** `chat_stream`'s event generator: one content event per whitespace-
      separated word of the stripped reply, then `Done`; when the call
      raises, a single error event carrying the exception text. */
  function ChatStream(requested: Option<string>, newId: string,
                      reply: Result<string, string>): (events: seq<Event>)
    ensures reply.Failure? ==> events == [StreamError(reply.error)]
    ensures reply.Success? ==>
      && |events| == |Words(reply.value)| + 1
      && events[|events| - 1] == Done
      && forall i :: 0 <= i < |events| - 1 ==>
           events[i].ContentChunk? && events[i].conversationId == SelectConversationId(requested, newId)
  {
    var id := SelectConversationId(requested, newId);
    match Gemini.ChatResponse(reply)
    case Failure(e) => [StreamError(Gemini.ErrorText(e))]
    case Success(text) =>
      WordsStrip(reply.value);
      WordChunks(Words(text), id) + [Done]
  }

  /** What a client reassembles from a successful stream is the reply with its
      whitespace normalised: its words joined by single spaces, so it has the
      same words as the plain chat call's message. */
  lemma StreamReassembles(requested: Option<string>, newId: string, reply: string)
    ensures StreamedText(ChatStream(requested, newId, Success(reply))) == Join(Words(reply), " ")
    ensures Words(StreamedText(ChatStream(requested, newId, Success(reply)))) == Words(reply)
  {
    StreamIsChunks(requested, newId, reply);
    var chunks := WordChunks(Words(reply), SelectConversationId(requested, newId));
    StreamedTextAppend(chunks, [Done]);
    WordChunksJoin(Words(reply), SelectConversationId(requested, newId));
    WordsJoin(Words(reply));
  }

  /** A successful stream is the word chunks of the reply, then `Done`. */
  lemma StreamIsChunks(requested: Option<string>, newId: string, reply: string)
    ensures ChatStream(requested, newId, Success(reply))
         == WordChunks(Words(reply), SelectConversationId(requested, newId)) + [Done]
  {
    assert Gemini.ChatResponse(Success(reply)) == Success(Strip(reply));
    WordsStrip(reply);
  }

  /** An empty or all-whitespace reply streams nothing but `Done`. */
  lemma BlankReplyOnlyDone(requested: Option<string>, newId: string, reply: string)
    requires forall i :: 0 <= i < |reply| ==> IsSpace(reply[i])
    ensures ChatStream(requested, newId, Success(reply)) == [Done]
  {
    WordsSkipSpace(reply, "");
    assert reply + "" == reply;
    WordsStrip(reply);
  }
}
