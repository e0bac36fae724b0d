/** The state updates `processStream` makes while a reply streams in: each
    chunk rewrites the placeholder with everything received so far, the end
    of the stream finalizes it, and a failure writes a classified error
    text into it. Every update leaves the chats alone when the chat being
    answered has disappeared. */
module Stream {
  import opened Types
  import Timeline

  /** One chunk of the provider's answer: optional text and optional
      citations. */
  datatype Chunk = Chunk(text: Option<string>, groundingChunks: Option<seq<GroundingChunk>>)

  /** How the stream ended: completed at a clock reading, or failed with an
      error message. */
  datatype StreamEnd = Completed(at: int) | Failed(error: string)

  // ---------------------------------------------------------------------
  // Accumulation

  /** The text a chunk contributes (`if (chunkText) fullText += chunkText`). */
  function TextOf(c: Chunk): string {
    if c.text.Some? && c.text.value != "" then c.text.value else ""
  }

  /** The citations a chunk contributes. */
  function SourcesOf(c: Chunk): seq<GroundingChunk> {
    if c.groundingChunks.Some? then c.groundingChunks.value else []
  }

  /** The text received after the given chunks: their texts in order. */
  function AccumulatedText(chunks: seq<Chunk>): string {
    if chunks == [] then "" else AccumulatedText(chunks[..|chunks| - 1]) + TextOf(chunks[|chunks| - 1])
  }

  /** The citations received after the given chunks, in order. */
  function AccumulatedSources(chunks: seq<Chunk>): seq<GroundingChunk> {
    if chunks == [] then [] else AccumulatedSources(chunks[..|chunks| - 1]) + SourcesOf(chunks[|chunks| - 1])
  }

  /** The text of consecutive runs of chunks is the text of each run. */
  lemma {:induction false} AccumulatedTextAppend(a: seq<Chunk>, b: seq<Chunk>)
    ensures AccumulatedText(a + b) == AccumulatedText(a) + AccumulatedText(b)
    decreases |b|
  {
    if b == [] {
      assert a + b == a;
    } else {
      var b0 := b[..|b| - 1];
      assert (a + b)[..|a + b| - 1] == a + b0;
      assert (a + b)[|a + b| - 1] == b[|b| - 1];
      AccumulatedTextAppend(a, b0);
    }
  }

  /** A chunk without text leaves the text unchanged, one with text appends it. */
  lemma AccumulatedTextStep(chunks: seq<Chunk>, c: Chunk)
    ensures AccumulatedText(chunks + [c]) ==
            AccumulatedText(chunks) + (if c.text.Some? then c.text.value else "")
  {
  }

  /** `groundingSources.length > 0 ? groundingSources : undefined`. */
  function SourcesField(sources: seq<GroundingChunk>): Option<seq<GroundingChunk>> {
    if |sources| > 0 then Some(sources) else None
  }

  // ---------------------------------------------------------------------
  // The updaters

  /** `messages.map(msg => msg.id === botId ? f(msg) : msg)`. */
  function MapBot(messages: seq<Message>, botId: string, f: Message -> Message): (r: seq<Message>)
    ensures |r| == |messages|
    ensures forall j :: 0 <= j < |messages| ==>
              r[j] == if messages[j].id == botId then f(messages[j]) else messages[j]
  {
    if messages == [] then []
    else [if messages[0].id == botId then f(messages[0]) else messages[0]] + MapBot(messages[1..], botId, f)
  }

  /** The placeholder showing the partial answer. */
  function Partial(m: Message, text: string, sources: seq<GroundingChunk>): Message {
    m.(text := text, groundingSources := SourcesField(sources))
  }

  /** The placeholder once the answer is complete. */
  function Final(m: Message, at: int): Message {
    m.(isStreaming := false, timestamp := at)
  }

  /** The placeholder replaced by an error text. */
  function Broken(m: Message, error: string): Message {
    m.(text := ErrorText(Classify(error)), isStreaming := false)
  }

  /** The update after a chunk: the chat's messages with id `botId` show the
      text and citations received so far; all else is unchanged. */
  function ChunkChats(chats: seq<Chat>, chatId: string, botId: string, text: string,
                      sources: seq<GroundingChunk>): (r: seq<Chat>)
    ensures |r| == |chats|
    ensures Timeline.ChatIndex(chats, chatId).None? ==> r == chats
    ensures Timeline.ChatIndex(chats, chatId).Some? ==>
      var ci := Timeline.ChatIndex(chats, chatId).value;
      && (forall j :: 0 <= j < |chats| && j != ci ==> r[j] == chats[j])
      && r[ci] == chats[ci].(messages := r[ci].messages)
      && |r[ci].messages| == |chats[ci].messages|
      && forall j :: 0 <= j < |chats[ci].messages| ==>
           r[ci].messages[j] == if chats[ci].messages[j].id == botId
                                then chats[ci].messages[j].(text := text, groundingSources := SourcesField(sources))
                                else chats[ci].messages[j]
  {
    Timeline.UpdateChatById(chats, chatId,
      (c: Chat) => c.(messages := MapBot(c.messages, botId, (m: Message) => Partial(m, text, sources))))
  }

  /** The update when the stream completes: the placeholder stops streaming
      and is stamped, and so is the chat. */
  function FinalizeChats(chats: seq<Chat>, chatId: string, botId: string, at: int): (r: seq<Chat>)
    ensures |r| == |chats|
    ensures Timeline.ChatIndex(chats, chatId).None? ==> r == chats
    ensures Timeline.ChatIndex(chats, chatId).Some? ==>
      var ci := Timeline.ChatIndex(chats, chatId).value;
      && (forall j :: 0 <= j < |chats| && j != ci ==> r[j] == chats[j])
      && r[ci] == chats[ci].(messages := r[ci].messages, updatedAt := at)
      && |r[ci].messages| == |chats[ci].messages|
      && forall j :: 0 <= j < |chats[ci].messages| ==>
           r[ci].messages[j] == if chats[ci].messages[j].id == botId
                                then chats[ci].messages[j].(isStreaming := false, timestamp := at)
                                else chats[ci].messages[j]
  {
    Timeline.UpdateChatById(chats, chatId,
      (c: Chat) => c.(messages := MapBot(c.messages, botId, (m: Message) => Final(m, at)), updatedAt := at))
  }

  /** The update when the stream fails: the placeholder shows the error
      text and stops streaming; it stays in the timeline. */
  function FailChats(chats: seq<Chat>, chatId: string, botId: string, error: string): (r: seq<Chat>)
    ensures |r| == |chats|
    ensures Timeline.ChatIndex(chats, chatId).None? ==> r == chats
    ensures Timeline.ChatIndex(chats, chatId).Some? ==>
      var ci := Timeline.ChatIndex(chats, chatId).value;
      && (forall j :: 0 <= j < |chats| && j != ci ==> r[j] == chats[j])
      && r[ci] == chats[ci].(messages := r[ci].messages)
      && |r[ci].messages| == |chats[ci].messages|
      && forall j :: 0 <= j < |chats[ci].messages| ==>
           r[ci].messages[j] == if chats[ci].messages[j].id == botId
                                then chats[ci].messages[j].(text := ErrorText(Classify(error)), isStreaming := false)
                                else chats[ci].messages[j]
  {
    Timeline.UpdateChatById(chats, chatId,
      (c: Chat) => c.(messages := MapBot(c.messages, botId, (m: Message) => Broken(m, error))))
  }

  /** The chats after the updates of the given chunks. */
  function Consumed(chats: seq<Chat>, chatId: string, botId: string, chunks: seq<Chunk>): seq<Chat> {
    if chunks == [] then chats
    else ChunkChats(chats, chatId, botId, AccumulatedText(chunks), AccumulatedSources(chunks))
  }

  /** The chats after a stream delivered `chunks` and ended with `end`. */
  function Streamed(chats: seq<Chat>, chatId: string, botId: string, chunks: seq<Chunk>, end: StreamEnd)
    : (r: seq<Chat>)
    ensures |r| == |chats|
    ensures Timeline.ChatIndex(chats, chatId).None? ==> r == chats
  {
    var partial := Consumed(chats, chatId, botId, chunks);
    match end
    case Completed(at) => FinalizeChats(partial, chatId, botId, at)
    case Failed(error) => FailChats(partial, chatId, botId, error)
  }

  /** A later chunk update overwrites an earlier one: only the text and
      citations received so far matter. */
  lemma ChunkOverwrite(chats: seq<Chat>, chatId: string, botId: string,
                       text1: string, sources1: seq<GroundingChunk>, text2: string, sources2: seq<GroundingChunk>)
    ensures ChunkChats(ChunkChats(chats, chatId, botId, text1, sources1), chatId, botId, text2, sources2)
         == ChunkChats(chats, chatId, botId, text2, sources2)
  {
    var once := ChunkChats(chats, chatId, botId, text1, sources1);
    Timeline.SameIdsSameIndex(chats, once, chatId);
    if Timeline.ChatIndex(chats, chatId).Some? {
      var ci := Timeline.ChatIndex(chats, chatId).value;
      var ms := chats[ci].messages;
      var twice := MapBot(once[ci].messages, botId, (m: Message) => Partial(m, text2, sources2));
      var direct := MapBot(ms, botId, (m: Message) => Partial(m, text2, sources2));
      assert twice == direct by {
        forall j | 0 <= j < |ms| ensures twice[j] == direct[j] {
          assert once[ci].messages[j].id == ms[j].id;
        }
      }
    }
  }

  /** Every update returns the chats unchanged when the chat is gone. */
  lemma StreamIgnoresMissingChat(chats: seq<Chat>, chatId: string, botId: string, chunks: seq<Chunk>, end: StreamEnd)
    requires Timeline.ChatIndex(chats, chatId).None?
    ensures Streamed(chats, chatId, botId, chunks, end) == chats
  {
  }

  /** A message of the chat after the chunk updates. */
  function ShownMessage(m: Message, botId: string, chunks: seq<Chunk>): Message {
    if m.id != botId || chunks == [] then m else Partial(m, AccumulatedText(chunks), AccumulatedSources(chunks))
  }

  /** The message `Streamed` leaves in place of a message of the chat. */
  function StreamedMessage(m: Message, botId: string, chunks: seq<Chunk>, end: StreamEnd): Message {
    if m.id != botId then m
    else
      var shown := ShownMessage(m, botId, chunks);
      match end
      case Completed(at) => Final(shown, at)
      case Failed(error) => Broken(shown, error)
  }

  /** The stream changes only the answered chat, and in it only the
      messages whose id is `botId`: after completion they hold all the text
      and citations received and have stopped streaming; after a failure
      they hold the error text, have stopped streaming and stay in place. */
  lemma StreamOutcome(chats: seq<Chat>, chatId: string, botId: string, chunks: seq<Chunk>, end: StreamEnd)
    requires Timeline.ChatIndex(chats, chatId).Some?
    ensures var r := Streamed(chats, chatId, botId, chunks, end);
            var ci := Timeline.ChatIndex(chats, chatId).value;
            && |r| == |chats|
            && (forall j :: 0 <= j < |chats| && j != ci ==> r[j] == chats[j])
            && r[ci].id == chats[ci].id && r[ci].title == chats[ci].title
            && r[ci].createdAt == chats[ci].createdAt
            && r[ci].updatedAt == (if end.Completed? then end.at else chats[ci].updatedAt)
            && |r[ci].messages| == |chats[ci].messages|
            && forall j :: 0 <= j < |chats[ci].messages| ==>
                 r[ci].messages[j] == StreamedMessage(chats[ci].messages[j], botId, chunks, end)
  {
    ConsumedShape(chats, chatId, botId, chunks);
  }

  /** The chunk updates change only the messages with id `botId` of the
      answered chat, and keep every id. */
  lemma ConsumedShape(chats: seq<Chat>, chatId: string, botId: string, chunks: seq<Chunk>)
    requires Timeline.ChatIndex(chats, chatId).Some?
    ensures var partial := Consumed(chats, chatId, botId, chunks);
            var ci := Timeline.ChatIndex(chats, chatId).value;
            && |partial| == |chats|
            && Timeline.ChatIndex(partial, chatId) == Timeline.ChatIndex(chats, chatId)
            && (forall j :: 0 <= j < |chats| && j != ci ==> partial[j] == chats[j])
            && partial[ci].id == chats[ci].id && partial[ci].title == chats[ci].title
            && partial[ci].createdAt == chats[ci].createdAt && partial[ci].updatedAt == chats[ci].updatedAt
            && |partial[ci].messages| == |chats[ci].messages|
            && forall j :: 0 <= j < |chats[ci].messages| ==>
                 partial[ci].messages[j] == ShownMessage(chats[ci].messages[j], botId, chunks)
  {
  }

  /** In particular a completed stream leaves the placeholder holding the
      concatenated chunk texts and no longer streaming. */
  lemma StreamCompletes(chats: seq<Chat>, chatId: string, botId: string, created: int, chunks: seq<Chunk>,
                        at: int, j: nat)
    requires Timeline.ChatIndex(chats, chatId).Some?
    requires var ci := Timeline.ChatIndex(chats, chatId).value;
             j < |chats[ci].messages| && chats[ci].messages[j] == Timeline.Placeholder(botId, created)
    ensures var r := Streamed(chats, chatId, botId, chunks, Completed(at));
            var ci := Timeline.ChatIndex(chats, chatId).value;
            && r[ci].messages[j].text == AccumulatedText(chunks)
            && r[ci].messages[j].groundingSources == SourcesField(AccumulatedSources(chunks))
            && !r[ci].messages[j].isStreaming && r[ci].messages[j].timestamp == at
  {
    StreamOutcome(chats, chatId, botId, chunks, Completed(at));
  }

  /** A failed stream leaves the error text where the answer was. */
  lemma StreamErrorRecovered(chats: seq<Chat>, chatId: string, botId: string, chunks: seq<Chunk>,
                             error: string, j: nat)
    requires Timeline.ChatIndex(chats, chatId).Some?
    requires var ci := Timeline.ChatIndex(chats, chatId).value;
             j < |chats[ci].messages| && chats[ci].messages[j].id == botId
    ensures var r := Streamed(chats, chatId, botId, chunks, Failed(error));
            var ci := Timeline.ChatIndex(chats, chatId).value;
            && |r[ci].messages| == |chats[ci].messages|
            && r[ci].messages[j].id == botId
            && r[ci].messages[j].text == ErrorText(Classify(error))
            && !r[ci].messages[j].isStreaming
  {
    StreamOutcome(chats, chatId, botId, chunks, Failed(error));
  }

  /** Every message carrying the id has no version ledger. */
  predicate UnversionedWhereId(chats: seq<Chat>, id: string) {
    forall c, m :: c in chats && m in c.messages && m.id == id ==> m.versions.Unversioned?
  }

  /** The stream keeps the ledger invariant when the answered message has
      no versions, as every placeholder does. */
  lemma StreamKeepsWellFormed(chats: seq<Chat>, chatId: string, botId: string, chunks: seq<Chunk>, end: StreamEnd)
    requires Timeline.ChatsWellFormed(chats)
    requires UnversionedWhereId(chats, botId)
    ensures Timeline.ChatsWellFormed(Streamed(chats, chatId, botId, chunks, end))
  {
    if Timeline.ChatIndex(chats, chatId).Some? {
      StreamOutcome(chats, chatId, botId, chunks, end);
      var ci := Timeline.ChatIndex(chats, chatId).value;
      var r := Streamed(chats, chatId, botId, chunks, end);
      forall j | 0 <= j < |r[ci].messages| ensures Timeline.WellFormed(r[ci].messages[j]) {
        var m := chats[ci].messages[j];
        assert Timeline.WellFormed(m);
        assert m in chats[ci].messages;
      }
    }
  }

  // ---------------------------------------------------------------------
  // Error classification

  /** `sub` occurs in `s` at position `i`. */
  predicate OccursAt(s: string, sub: string, i: int) {
    0 <= i && i + |sub| <= |s| && s[i..i + |sub|] == sub
  }

  /** Whether `sub` occurs in `s` (`String.prototype.includes`). */
  function Contains(s: string, sub: string): (r: bool)
    ensures r <==> exists i :: OccursAt(s, sub, i)
    decreases |s|
  {
    if |sub| > |s| then false
    else if s[..|sub|] == sub then assert OccursAt(s, sub, 0); true
    else
      OccursShift(s, sub);
      Contains(s[1..], sub)
  }

  /** Past the first position, occurrences in `s` are those in `s[1..]`. */
  lemma OccursShift(s: string, sub: string)
    requires |sub| <= |s| && s[..|sub|] != sub
    ensures (exists i :: OccursAt(s, sub, i)) <==> (exists i :: OccursAt(s[1..], sub, i))
  {
    assert s[0..|sub|] == s[..|sub|];
    forall i | OccursAt(s, sub, i) ensures OccursAt(s[1..], sub, i - 1) {
      assert s[1..][i - 1..i - 1 + |sub|] == s[i..i + |sub|];
    }
    forall i | OccursAt(s[1..], sub, i) ensures OccursAt(s, sub, i + 1) {
      assert s[1..][i..i + |sub|] == s[i + 1..i + 1 + |sub|];
    }
  }

  /** A text mentions what it is built around. */
  lemma ContainsInfix(a: string, sub: string, b: string)
    ensures Contains(a + sub + b, sub)
  {
    assert (a + sub + b)[|a|..|a| + |sub|] == sub;
    assert OccursAt(a + sub + b, sub, |a|);
  }

  /** The kinds of failure the chat tells apart. */
  datatype ErrorCategory = Forbidden | InvalidKey | RateLimited | ModelUnavailable | NetworkFailure | Unknown

  /** The fragments of an error message that identify a category. */
  function Patterns(c: ErrorCategory): seq<string> {
    match c
    case Forbidden => ["403"]
    case InvalidKey => ["401", "API key not valid"]
    case RateLimited => ["429"]
    case ModelUnavailable => ["404", "not found"]
    case NetworkFailure => ["fetch failed"]
    case Unknown => []
  }

  /** The order in which the categories are tried. */
  function Rank(c: ErrorCategory): nat {
    match c
    case Forbidden => 0
    case InvalidKey => 1
    case RateLimited => 2
    case ModelUnavailable => 3
    case NetworkFailure => 4
    case Unknown => 5
  }

  predicate Matches(error: string, c: ErrorCategory) {
    exists k :: 0 <= k < |Patterns(c)| && Contains(error, Patterns(c)[k])
  }

  /** The category of an error message: the first, in rank order, one of
      whose fragments the message contains, and Unknown when none does. */
  function Classify(error: string): (r: ErrorCategory)
    ensures r == Unknown || Matches(error, r)
    ensures forall c :: Rank(c) < Rank(r) ==> !Matches(error, c)
  {
    assert Patterns(Forbidden)[0] == "403" && Patterns(RateLimited)[0] == "429" && Patterns(NetworkFailure)[0] == "fetch failed";
    assert Patterns(InvalidKey)[0] == "401" && Patterns(InvalidKey)[1] == "API key not valid";
    assert Patterns(ModelUnavailable)[0] == "404" && Patterns(ModelUnavailable)[1] == "not found";
    if Contains(error, "403") then Forbidden
    else if Contains(error, "401") || Contains(error, "API key not valid") then InvalidKey
    else if Contains(error, "429") then RateLimited
    else if Contains(error, "404") || Contains(error, "not found") then ModelUnavailable
    else if Contains(error, "fetch failed") then NetworkFailure
    else Unknown
  }

  /** The text shown in place of the answer for each category. */
  function ErrorText(c: ErrorCategory): string {
    match c
    case Forbidden => "Access Denied. If you are using a key from Google AI Studio, please ensure it has NO HTTP referrer restrictions (or allows *.netlify.app)."
    case InvalidKey => "Invalid API Key. Please update your key."
    case RateLimited => "Rate limit reached. Try again later, use a different key, or enable pay-as-you-go billing."
    case ModelUnavailable => "The requested model is not available for this API key. Please check your project settings."
    case NetworkFailure => "Network error. Please check your internet connection and try again."
    case Unknown => "I'm sorry, something went wrong. Please check your network connection."
  }

  /** A 403 wins over everything else the message mentions. */
  lemma ClassifyForbiddenFirst(a: string, b: string)
    ensures Classify(a + "403" + b) == Forbidden
  {
    ContainsInfix(a, "403", b);
  }
}
