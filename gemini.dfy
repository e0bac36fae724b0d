/** The boundary to the model provider: converting app messages into the
    provider's history records, shaping an outgoing message, and the
    one-slot cache of the provider chat session. The provider's SDK is
    abstracted: a session is represented by the key and history it was
    created from. */
module Gemini {
  import opened Types
  import Seqs

  const ImageMimeType := "image/jpeg"
  const ClientNotInitialized := "Gemini client not initialized"

  /** A part of a provider record: an inline image (its data is absent when
      the data URL has no comma) or a text. */
  datatype Part = InlineData(mimeType: string, data: Option<string>) | TextPart(text: string)

  /** A provider history record. */
  datatype Content = Content(role: Role, parts: seq<Part>)

  /** What is sent for one turn: the plain text, or a list of parts. */
  datatype MessageInput = PlainText(text: string) | PartList(parts: seq<Part>)

  // ---------------------------------------------------------------------
  // String.prototype.trim

  /** The characters JavaScript's `trim` removes: white space and line terminators. */
  predicate IsWhitespace(c: char) {
    c == '\t' || c == '\n' || c == '\U{000B}' || c == '\U{000C}' || c == '\r' || c == ' '
    || c == '\U{00A0}' || c == '\U{1680}' || ('\U{2000}' <= c <= '\U{200A}')
    || c == '\U{2028}' || c == '\U{2029}' || c == '\U{202F}' || c == '\U{205F}'
    || c == '\U{3000}' || c == '\U{FEFF}'
  }

  predicate IsBlank(s: string) {
    forall i :: 0 <= i < |s| ==> IsWhitespace(s[i])
  }

  function TrimStart(s: string): (r: string)
    ensures |r| <= |s| && r == s[|s| - |r|..]
    ensures IsBlank(s[..|s| - |r|])
    ensures r != "" ==> !IsWhitespace(r[0])
  {
    if s != "" && IsWhitespace(s[0]) then TrimStart(s[1..]) else s
  }

  function TrimEnd(s: string): (r: string)
    ensures |r| <= |s| && r == s[..|r|]
    ensures IsBlank(s[|r|..])
    ensures r != "" ==> !IsWhitespace(r[|r| - 1])
  {
    if s != "" && IsWhitespace(s[|s| - 1]) then TrimEnd(s[..|s| - 1]) else s
  }

  /** `s.trim()`: empty exactly when `s` is blank; otherwise it starts and
      ends with a character that is not white space. */
  function Trim(s: string): (r: string)
    ensures r == "" <==> IsBlank(s)
    ensures r != "" ==> !IsWhitespace(r[0]) && !IsWhitespace(r[|r| - 1])
  {
    var t := TrimStart(s);
    var r := TrimEnd(t);
    assert t != "" ==> !IsWhitespace(s[|s| - |t|]);
    assert r == "" ==> t[|r|..] == t;
    assert r == "" ==> t == "" && s[..|s| - |t|] == s;
    r
  }

  // ---------------------------------------------------------------------
  // img.split(',')[1]

  function IndexOfComma(s: string): (r: Option<nat>)
    ensures r.None? <==> ',' !in s
    ensures r.Some? ==> r.value < |s| && s[r.value] == ',' && ',' !in s[..r.value]
  {
    if s == "" then None
    else if s[0] == ',' then Some(0)
    else
      match IndexOfComma(s[1..])
      case None => None
      case Some(k) =>
        assert s[..k + 1] == [s[0]] + s[1..][..k];
        Some(k + 1)
  }

  /** The piece of `s` before its first comma, or all of `s`. */
  function UpToComma(s: string): (r: string)
    ensures |r| <= |s| && r == s[..|r|] && ',' !in r
    ensures |r| < |s| ==> s[|r|] == ','
  {
    match IndexOfComma(s)
    case None => s
    case Some(j) => s[..j]
  }

  /** `img.split(',')[1]`: the piece between the first and the second comma
      (or the end), absent when there is no comma at all. */
  function ImageData(img: string): (r: Option<string>)
    ensures r.None? <==> ',' !in img
  {
    match IndexOfComma(img)
    case None => None
    case Some(k) => Some(UpToComma(img[k + 1..]))
  }

  /** For a data URL, `header,payload`, with no comma in the payload, the
      data is exactly the payload. */
  lemma ImageDataOfDataUrl(header: string, payload: string)
    requires ',' !in header && ',' !in payload
    ensures ImageData(header + "," + payload) == Some(payload)
  {
  }

  /** In general the data is the comma-free piece right after the first
      comma, ending at the next comma or at the end of the string. */
  lemma ImageDataSplits(img: string) returns (head: string, rest: string)
    requires ',' in img
    ensures img == head + "," + ImageData(img).value + rest
    ensures ',' !in head && ',' !in ImageData(img).value
    ensures rest == "" || rest[0] == ','
  {
    var k := IndexOfComma(img).value;
    var data := UpToComma(img[k + 1..]);
    head := img[..k];
    rest := img[k + 1..][|data|..];
    assert ImageData(img) == Some(data);
    Rejoin(img, k, |data|);
  }

  lemma Rejoin<T>(s: seq<T>, k: nat, m: nat)
    requires k < |s| && k + 1 + m <= |s|
    ensures s == s[..k] + [s[k]] + s[k + 1..][..m] + s[k + 1..][m..]
  {
  }

  // ---------------------------------------------------------------------
  // convertToHistory

  function ImagePart(img: string): Part {
    InlineData(ImageMimeType, ImageData(img))
  }

  /** `images.map(img => inline image part)`. */
  function ImageParts(images: seq<string>): (r: seq<Part>)
    ensures |r| == |images|
    ensures forall k :: 0 <= k < |images| ==> r[k] == ImagePart(images[k])
  {
    if images == [] then [] else [ImagePart(images[0])] + ImageParts(images[1..])
  }

  /** The parts of one history record: one image part per attached image,
      then the text part when the text is not empty. */
  function EntryParts(m: Message): seq<Part> {
    (if m.images.Some? && |m.images.value| > 0 then ImageParts(m.images.value) else [])
    + (if m.text != "" then [TextPart(m.text)] else [])
  }

  /** A message goes into the history unless it is still streaming or its
      text is blank. */
  predicate Kept(m: Message) {
    !m.isStreaming && Trim(m.text) != ""
  }

  function Entry(m: Message): Content {
    Content(m.role, EntryParts(m))
  }

  /** `messages.filter(Kept).map(Entry)`. */
  function History(messages: seq<Message>): seq<Content> {
    Seqs.FilterMap(messages, Kept, Entry)
  }

  /** The history holds one record per kept message, in the original order,
      each with the role and parts of its message: the selected indices are
      exactly those of the messages that are not streaming and not blank. */
  lemma HistorySelectsKept(messages: seq<Message>)
    ensures |History(messages)| == |Seqs.Indices(messages, Kept)| <= |messages|
    ensures forall k :: 0 <= k < |History(messages)| ==>
      var j := Seqs.Indices(messages, Kept)[k];
      j < |messages| && Kept(messages[j]) && History(messages)[k] == Entry(messages[j])
      && History(messages)[k].role == messages[j].role
    ensures forall k, l :: 0 <= k < l < |History(messages)| ==>
      Seqs.Indices(messages, Kept)[k] < Seqs.Indices(messages, Kept)[l]
    ensures forall j :: 0 <= j < |messages| && Kept(messages[j]) ==> j in Seqs.Indices(messages, Kept)
  {
    Seqs.FilterMapSelects(messages, Kept, Entry);
    Seqs.IndicesExact(messages, Kept);
  }

  /** A record has one inline image part per image, in image order, followed
      by exactly one text part, and keeps its message's role. */
  lemma EntryShape(m: Message)
    requires Kept(m)
    ensures Entry(m).role == m.role
    ensures |Entry(m).parts| == |ImagesOf(m.images)| + 1
    ensures forall k :: 0 <= k < |ImagesOf(m.images)| ==>
      Entry(m).parts[k] == InlineData(ImageMimeType, ImageData(ImagesOf(m.images)[k]))
    ensures Entry(m).parts[|ImagesOf(m.images)|] == TextPart(m.text)
  {
  }

  /** The forEach/push loop that builds the parts of one record. */
  method BuildParts(m: Message) returns (parts: seq<Part>)
    ensures parts == EntryParts(m)
  {
    parts := [];
    if m.images.Some? && |m.images.value| > 0 {
      var images := m.images.value;
      for k := 0 to |images|
        invariant |parts| == k
        invariant forall l :: 0 <= l < k ==> parts[l] == ImagePart(images[l])
      {
        parts := parts + [ImagePart(images[k])];
      }
    }
    if m.text != "" {
      parts := parts + [TextPart(m.text)];
    }
  }

  /** One more message adds its record exactly when it is kept. */
  lemma HistoryStep(prefix: seq<Message>, m: Message)
    ensures History(prefix + [m]) == History(prefix) + (if Kept(m) then [Entry(m)] else [])
  {
    Seqs.FilterMapAppend(prefix, [m], Kept, Entry);
    assert Seqs.FilterMap([m], Kept, Entry) == if Kept(m) then [Entry(m)] else [];
  }

  /** `convertToHistory`. */
  method ConvertToHistory(messages: seq<Message>) returns (history: seq<Content>)
    ensures history == History(messages)
  {
    history := [];
    for i := 0 to |messages|
      invariant history == History(messages[..i])
    {
      var m := messages[i];
      assert messages[..i + 1] == messages[..i] + [m];
      HistoryStep(messages[..i], m);
      if Kept(m) {
        var parts := BuildParts(m);
        history := history + [Content(m.role, parts)];
      }
    }
    assert messages[..|messages|] == messages;
  }

  // ---------------------------------------------------------------------
  // sendMessageStream: the outgoing message

  /** Plain text when there are no images, otherwise the image parts
      followed by a single text part (present even for an empty text). */
  function MessageInputOf(text: string, images: seq<string>): (r: MessageInput)
    ensures images == [] ==> r == PlainText(text)
    ensures images != [] ==>
      r.PartList? && |r.parts| == |images| + 1 && r.parts[|images|] == TextPart(text)
      && forall k :: 0 <= k < |images| ==> r.parts[k] == InlineData(ImageMimeType, ImageData(images[k]))
  {
    if |images| > 0 then PartList(ImageParts(images) + [TextPart(text)]) else PlainText(text)
  }

  /** A prompt with images is shaped exactly like the history record that the
      same message will become once it has a text. */
  lemma InputMatchesEntry(m: Message)
    requires m.text != "" && m.images.Some? && m.images.value != []
    ensures MessageInputOf(m.text, m.images.value) == PartList(Entry(m).parts)
  {
  }

  // ---------------------------------------------------------------------
  // The one-slot session cache

  /** A provider chat session, known by the key and history it was created from. */
  datatype Session = Session(apiKey: string, history: seq<Content>)

  /** The module-level state: the client (known by its key), the cached
      session and the id of the chat it belongs to. */
  datatype SessionState = SessionState(client: Option<string>, chat: Option<Session>, chatId: Option<string>)

  /** A send for `chatId`: the session it goes to and what it sends. */
  datatype Request = Request(session: Session, input: MessageInput)

  /** The session must be (re)created when there is none or it belongs to
      another chat. */
  predicate NeedsSession(st: SessionState, chatId: string) {
    st.chat.None? || st.chatId != Some(chatId)
  }

  /** The state after `sendMessageStream(chatId, previous, ...)`. */
  function AfterSend(st: SessionState, chatId: string, previous: seq<Message>): SessionState {
    if !NeedsSession(st, chatId) || st.client.None? then st
    else SessionState(st.client, Some(Session(st.client.value, History(previous))), Some(chatId))
  }

  /** What `sendMessageStream(chatId, previous, text, images)` sends, or the
      error it throws. */
  function SendResult(st: SessionState, chatId: string, previous: seq<Message>,
                      text: string, images: seq<string>): Result<Request> {
    if NeedsSession(st, chatId) && st.client.None? then Failure(ClientNotInitialized)
    else Success(Request(AfterSend(st, chatId, previous).chat.value, MessageInputOf(text, images)))
  }

  /** A send succeeds unless a session is needed and there is no client; after
      a successful send the cache holds the session it used, bound to `chatId`. */
  lemma SendBindsSession(st: SessionState, chatId: string, previous: seq<Message>,
                         text: string, images: seq<string>)
    ensures SendResult(st, chatId, previous, text, images).Failure? <==> NeedsSession(st, chatId) && st.client.None?
    ensures SendResult(st, chatId, previous, text, images).Success? ==>
      var after := AfterSend(st, chatId, previous);
      after.chatId == Some(chatId) && after.chat == Some(SendResult(st, chatId, previous, text, images).value.session)
  {
  }

  /** A cached session for the same chat is reused as it is: the history
      passed in is ignored, and a new session is created, from exactly the
      converted history, only when one is needed. */
  lemma SessionReuse(st: SessionState, chatId: string, previous: seq<Message>)
    ensures !NeedsSession(st, chatId) ==> AfterSend(st, chatId, previous) == st
    ensures NeedsSession(st, chatId) && st.client.Some? ==>
      AfterSend(st, chatId, previous).chat == Some(Session(st.client.value, History(previous)))
  {
  }

  /** Two sends in a row to the same chat use one session. */
  lemma SecondSendReuses(st: SessionState, chatId: string, first: seq<Message>, second: seq<Message>)
    requires st.client.Some?
    ensures !NeedsSession(AfterSend(st, chatId, first), chatId)
    ensures AfterSend(AfterSend(st, chatId, first), chatId, second) == AfterSend(st, chatId, first)
  {
  }

  /** The state after `resetChat`: the next send always creates a session. */
  function Reset(st: SessionState): (r: SessionState)
    ensures forall chatId :: NeedsSession(r, chatId)
    ensures r.client == st.client
  {
    st.(chat := None, chatId := None)
  }

  /** The module-level mutable state of the provider boundary. */
  class GeminiService {
    var client: Option<string>
    var currentChat: Option<Session>
    var currentChatId: Option<string>

    function State(): SessionState
      reads this
    {
      SessionState(client, currentChat, currentChatId)
    }

    constructor ()
      ensures State() == SessionState(None, None, None)
    {
      client, currentChat, currentChatId := None, None, None;
    }

    /** `initializeGemini`: a new client for the key; the cache stays. */
    method InitializeGemini(apiKey: string)
      modifies this
      ensures State() == old(State()).(client := Some(apiKey))
    {
      client := Some(apiKey);
    }

    /** `createChatSession`: throws without a client; otherwise the cache
        holds a new session created from the converted history. */
    method CreateChatSession(chatId: string, previousMessages: seq<Message>) returns (r: Result<Session>)
      modifies this
      ensures old(client).None? ==> r == Failure(ClientNotInitialized) && State() == old(State())
      ensures old(client).Some? ==>
        r == Success(Session(old(client).value, History(previousMessages)))
        && State() == SessionState(old(client), Some(r.value), Some(chatId))
    {
      if client.None? {
        return Failure(ClientNotInitialized);
      }
      var history := ConvertToHistory(previousMessages);
      var session := Session(client.value, history);
      currentChat := Some(session);
      currentChatId := Some(chatId);
      r := Success(session);
    }

    /** `resetChat`. */
    method ResetChat()
      modifies this
      ensures State() == Reset(old(State()))
    {
      currentChat := None;
      currentChatId := None;
    }

    /** `sendMessageStream` up to the provider call: reuse or recreate the
        session, then shape the message. */
    method SendMessageStream(chatId: string, historyMessages: seq<Message>, text: string, images: seq<string>)
      returns (r: Result<Request>)
      modifies this
      ensures r == SendResult(old(State()), chatId, historyMessages, text, images)
      ensures State() == AfterSend(old(State()), chatId, historyMessages)
    {
      if currentChat.None? || currentChatId != Some(chatId) {
        var created := CreateChatSession(chatId, historyMessages);
        if created.Failure? {
          return Failure(created.error);
        }
      }
      r := Success(Request(currentChat.value, MessageInputOf(text, images)));
    }
  }
}
