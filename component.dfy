/** The chat screen's state and its handlers: the list of chats, the
    selected chat and the loading flag, updated by sending, editing,
    switching versions, creating, selecting and deleting chats. The stream
    the provider would deliver for a send is a parameter. */
module Component {
  import opened Types
  import Storage
  import Gemini
  import Timeline
  import Stream
  import Seqs

  // ---------------------------------------------------------------------
  // Recency order (the stable `sort((a, b) => b.updatedAt - a.updatedAt)`)

  /** The chats from most to least recently updated, ties in their
      original order. */
  function SortByRecency(chats: seq<Chat>): seq<Chat> {
    Seqs.SortDesc(chats, (c: Chat) => c.updatedAt)
  }

  /** The recency order is a permutation sorted from most to least recent,
      and its first chat is the first, in the original order, of the most
      recently updated ones. */
  lemma SortByRecencyOrders(chats: seq<Chat>) returns (k: nat)
    requires chats != []
    ensures multiset(SortByRecency(chats)) == multiset(chats)
    ensures forall i, j :: 0 <= i < j < |chats| ==> SortByRecency(chats)[i].updatedAt >= SortByRecency(chats)[j].updatedAt
    ensures k < |chats| && SortByRecency(chats)[0] == chats[k]
    ensures forall j :: 0 <= j < |chats| ==> chats[j].updatedAt <= chats[k].updatedAt
    ensures forall j :: 0 <= j < k ==> chats[j].updatedAt < chats[k].updatedAt
  {
    Seqs.SortIsDescending(chats, (c: Chat) => c.updatedAt);
    Seqs.SortIsPermutation(chats, (c: Chat) => c.updatedAt);
    k := Seqs.SortHeadIsFirstMaximum(chats, (c: Chat) => c.updatedAt);
  }

  // ---------------------------------------------------------------------
  // Freshness of generated ids

  /** No message on the timeline of any chat has the id. */
  predicate FreshId(chats: seq<Chat>, id: string) {
    forall c, m :: c in chats && m in c.messages ==> m.id != id
  }

  /** Chats taken from well-formed chats are well formed. */
  lemma SubsetKeepsWellFormed(chats: seq<Chat>, kept: seq<Chat>)
    requires Timeline.ChatsWellFormed(chats)
    requires forall c :: c in kept ==> c in chats
    ensures Timeline.ChatsWellFormed(kept)
  {
    forall j | 0 <= j < |kept| ensures Timeline.TimelineWellFormed(kept[j].messages) {
      assert kept[j] in chats;
    }
  }

  /** What a send's stream does to the chats: a send that throws leaves the
      error text in the placeholder exactly as a stream that fails at once. */
  function Answered(chats: seq<Chat>, chatId: string, botId: string, sent: Result<Gemini.Request>,
                    reply: seq<Stream.Chunk>, end: Stream.StreamEnd): seq<Chat>
  {
    if sent.Failure? then Stream.Streamed(chats, chatId, botId, [], Stream.Failed(sent.error))
    else Stream.Streamed(chats, chatId, botId, reply, end)
  }

  /** A failed send is the error update alone. */
  lemma FailedSendIsErrorUpdate(chats: seq<Chat>, chatId: string, botId: string, error: string,
                                reply: seq<Stream.Chunk>, end: Stream.StreamEnd)
    ensures Answered(chats, chatId, botId, Failure(error), reply, end) == Stream.FailChats(chats, chatId, botId, error)
  {
  }

  /** After an edit with a fresh placeholder id, the placeholder is the
      only message carrying that id. */
  lemma EditPlaceholderIdFresh(chats: seq<Chat>, currentChatId: Option<string>, isLoading: bool,
                               messageId: string, newText: string, newImages: seq<string>, ids: Timeline.ForkIds)
    requires FreshId(chats, ids.botMessageId)
    requires Timeline.EditAllowed(chats, currentChatId, isLoading, messageId)
    ensures Stream.UnversionedWhereId(
              Timeline.EditChats(chats, currentChatId, isLoading, messageId, newText, newImages, ids), ids.botMessageId)
  {
  }

  /** An edit followed by its stream keeps every ledger consistent, provided
      the new placeholder's id was fresh. */
  lemma EditStreamKeepsWellFormed(chats: seq<Chat>, currentChatId: Option<string>, isLoading: bool,
                                  messageId: string, newText: string, newImages: seq<string>,
                                  ids: Timeline.ForkIds, sent: Result<Gemini.Request>,
                                  reply: seq<Stream.Chunk>, end: Stream.StreamEnd)
    requires Timeline.ChatsWellFormed(chats) && FreshId(chats, ids.botMessageId)
    requires Timeline.EditAllowed(chats, currentChatId, isLoading, messageId)
    ensures Timeline.ChatsWellFormed(
              Answered(Timeline.EditChats(chats, currentChatId, isLoading, messageId, newText, newImages, ids),
                       currentChatId.value, ids.botMessageId, sent, reply, end))
  {
    var edited := Timeline.EditChats(chats, currentChatId, isLoading, messageId, newText, newImages, ids);
    Timeline.HandlersKeepWellFormed(chats, currentChatId, isLoading, messageId, newText, newImages, ids, 1);
    EditPlaceholderIdFresh(chats, currentChatId, isLoading, messageId, newText, newImages, ids);
    if sent.Failure? {
      Stream.StreamKeepsWellFormed(edited, currentChatId.value, ids.botMessageId, [], Stream.Failed(sent.error));
    } else {
      Stream.StreamKeepsWellFormed(edited, currentChatId.value, ids.botMessageId, reply, end);
    }
  }

  /** After a send with a fresh placeholder id, the placeholder is the only
      message carrying that id. */
  lemma SendPlaceholderIdFresh(chats: seq<Chat>, chatId: string, text: string, images: seq<string>,
                               ids: Timeline.SendIds)
    requires FreshId(chats, ids.botMessageId) && ids.botMessageId != ids.userMessageId
    ensures Stream.UnversionedWhereId(Timeline.SendChats(chats, chatId, text, images, ids), ids.botMessageId)
  {
  }

  /** A send followed by its stream keeps every ledger consistent, provided
      the placeholder's id was fresh and differs from the user message's. */
  lemma SendStreamKeepsWellFormed(chats: seq<Chat>, chatId: string, text: string, images: seq<string>,
                                  ids: Timeline.SendIds, sent: Result<Gemini.Request>,
                                  reply: seq<Stream.Chunk>, end: Stream.StreamEnd)
    requires Timeline.ChatsWellFormed(chats) && FreshId(chats, ids.botMessageId)
    requires ids.botMessageId != ids.userMessageId
    ensures Timeline.ChatsWellFormed(
              Answered(Timeline.SendChats(chats, chatId, text, images, ids), chatId, ids.botMessageId, sent, reply, end))
  {
    var sentChats := Timeline.SendChats(chats, chatId, text, images, ids);
    Timeline.SendKeepsWellFormed(chats, chatId, text, images, ids);
    SendPlaceholderIdFresh(chats, chatId, text, images, ids);
    if sent.Failure? {
      Stream.StreamKeepsWellFormed(sentChats, chatId, ids.botMessageId, [], Stream.Failed(sent.error));
    } else {
      Stream.StreamKeepsWellFormed(sentChats, chatId, ids.botMessageId, reply, end);
    }
  }

  /** Deleting, and then putting the rest in recency order, keeps every
      ledger consistent. */
  lemma DeleteKeepsWellFormed(chats: seq<Chat>, id: string)
    requires Timeline.ChatsWellFormed(chats)
    ensures Timeline.ChatsWellFormed(Storage.DeleteChatById(chats, id))
    ensures Timeline.ChatsWellFormed(SortByRecency(Storage.DeleteChatById(chats, id)))
  {
    var remaining := Storage.DeleteChatById(chats, id);
    SubsetKeepsWellFormed(chats, remaining);
    Seqs.SortIsPermutation(remaining, (c: Chat) => c.updatedAt);
    assert forall c :: c in SortByRecency(remaining) ==> c in multiset(remaining);
    SubsetKeepsWellFormed(remaining, SortByRecency(remaining));
  }

  // ---------------------------------------------------------------------
  // The component

  /** What the delete confirmation was opened for. */
  datatype DeleteRequest = DeleteOne(chatId: Option<string>) | ClearAll

  class ChatInterface {
    var chats: seq<Chat>
    var currentChatId: Option<string>
    var isLoading: bool
    /** The provider boundary the component talks to. */
    const gemini: Gemini.GeminiService

    constructor (gemini: Gemini.GeminiService)
      ensures chats == [] && currentChatId == None && !isLoading && this.gemini == gemini
    {
      chats, currentChatId, isLoading := [], None, false;
      this.gemini := gemini;
    }

    /** Every ledger of every chat is consistent. */
    predicate Valid()
      reads this
    {
      Timeline.ChatsWellFormed(chats)
    }

    /** `processStream`: sends the prompt, applies each chunk the provider
        delivers, then finalizes the answer, or writes the error text into
        it when the send or the stream fails; loading ends either way. */
    method ProcessStream(chatId: string, history: seq<Message>, prompt: string, images: seq<string>,
                         botId: string, reply: seq<Stream.Chunk>, end: Stream.StreamEnd)
      modifies this, gemini
      ensures chats == Answered(old(chats), chatId, botId,
                                Gemini.SendResult(old(gemini.State()), chatId, history, prompt, images), reply, end)
      ensures !isLoading && currentChatId == old(currentChatId)
      ensures gemini.State() == Gemini.AfterSend(old(gemini.State()), chatId, history)
    {
      var sent := gemini.SendMessageStream(chatId, history, prompt, images);
      if sent.Failure? {
        chats := Stream.FailChats(chats, chatId, botId, sent.error);
        isLoading := false;
        return;
      }
      var start := chats;
      ghost var session := gemini.State();
      var fullText := "";
      var sources := [];
      for i := 0 to |reply|
        invariant gemini.State() == session
        invariant fullText == Stream.AccumulatedText(reply[..i])
        invariant sources == Stream.AccumulatedSources(reply[..i])
        invariant chats == Stream.Consumed(start, chatId, botId, reply[..i])
        invariant currentChatId == old(currentChatId)
      {
        var chunk := reply[i];
        assert reply[..i + 1][..i] == reply[..i];
        if chunk.text.Some? && chunk.text.value != "" {
          fullText := fullText + chunk.text.value;
        }
        if chunk.groundingChunks.Some? {
          sources := sources + chunk.groundingChunks.value;
        }
        if i > 0 {
          Stream.ChunkOverwrite(start, chatId, botId, Stream.AccumulatedText(reply[..i]),
                                Stream.AccumulatedSources(reply[..i]), fullText, sources);
        }
        chats := Stream.ChunkChats(chats, chatId, botId, fullText, sources);
      }
      assert reply[..|reply|] == reply;
      match end {
        case Completed(at) =>
          chats := Stream.FinalizeChats(chats, chatId, botId, at);
        case Failed(error) =>
          chats := Stream.FailChats(chats, chatId, botId, error);
      }
      isLoading := false;
    }

    /** `handleSend`: nothing without a selected chat; otherwise the user
        message and a placeholder are appended, and the stream is answered
        with the chat's earlier messages plus the new one as history. */
    method Send(text: string, images: seq<string>, ids: Timeline.SendIds,
                reply: seq<Stream.Chunk>, end: Stream.StreamEnd)
      modifies this, gemini
      ensures !Present(old(currentChatId)) ==>
                chats == old(chats) && isLoading == old(isLoading) && gemini.State() == old(gemini.State())
      ensures Present(old(currentChatId)) ==>
        var chatId := old(currentChatId).value;
        var history := Timeline.SendHistory(old(chats), chatId, Timeline.UserMessage(text, images, ids));
        && chats == Answered(Timeline.SendChats(old(chats), chatId, text, images, ids), chatId, ids.botMessageId,
                             Gemini.SendResult(old(gemini.State()), chatId, history, text, images), reply, end)
        && !isLoading
        && gemini.State() == Gemini.AfterSend(old(gemini.State()), chatId, history)
      ensures currentChatId == old(currentChatId)
      ensures old(Valid()) && FreshId(old(chats), ids.botMessageId) && ids.botMessageId != ids.userMessageId ==> Valid()
    {
      if !Present(currentChatId) {
        return;
      }
      var chatId := currentChatId.value;
      var userMessage := Timeline.UserMessage(text, images, ids);
      var history := Timeline.SendHistory(chats, chatId, userMessage);
      isLoading := true;
      ghost var before := chats;
      ghost var state := gemini.State();
      chats := Timeline.SendChats(chats, chatId, text, images, ids);
      ProcessStream(chatId, history, text, images, ids.botMessageId, reply, end);
      if Timeline.ChatsWellFormed(before) && FreshId(before, ids.botMessageId) && ids.botMessageId != ids.userMessageId {
        SendStreamKeepsWellFormed(before, chatId, text, images, ids,
                                  Gemini.SendResult(state, chatId, history, text, images), reply, end);
      }
    }

    /** `handleEditMessage`: nothing when a guard refuses; otherwise the
        timeline is forked at the message and the stream is answered with
        the messages before it as history. */
    method EditMessage(messageId: string, newText: string, newImages: seq<string>, ids: Timeline.ForkIds,
                       reply: seq<Stream.Chunk>, end: Stream.StreamEnd)
      modifies this, gemini
      ensures !Timeline.EditAllowed(old(chats), old(currentChatId), old(isLoading), messageId) ==>
                chats == old(chats) && isLoading == old(isLoading) && gemini.State() == old(gemini.State())
      ensures Timeline.EditAllowed(old(chats), old(currentChatId), old(isLoading), messageId) ==>
        var chatId := old(currentChatId).value;
        var ci := Timeline.ChatIndex(old(chats), chatId).value;
        var mi := Timeline.MessageIndex(old(chats)[ci].messages, messageId).value;
        var history := old(chats)[ci].messages[..mi];
        && chats == Answered(Timeline.EditChats(old(chats), old(currentChatId), old(isLoading), messageId,
                                                newText, newImages, ids),
                             chatId, ids.botMessageId,
                             Gemini.SendResult(old(gemini.State()), chatId, history, newText, newImages), reply, end)
        && !isLoading
        && gemini.State() == Gemini.AfterSend(old(gemini.State()), chatId, history)
      ensures currentChatId == old(currentChatId)
      ensures old(Valid()) && FreshId(old(chats), ids.botMessageId) ==> Valid()
    {
      if !Timeline.EditAllowed(chats, currentChatId, isLoading, messageId) {
        return;
      }
      var chatId := currentChatId.value;
      var ci := Timeline.ChatIndex(chats, chatId).value;
      var mi := Timeline.MessageIndex(chats[ci].messages, messageId).value;
      var history := chats[ci].messages[..mi];
      ghost var before := chats;
      var loading := isLoading;
      ghost var state := gemini.State();
      isLoading := true;
      chats := Timeline.EditChats(chats, currentChatId, loading, messageId, newText, newImages, ids);
      ProcessStream(chatId, history, newText, newImages, ids.botMessageId, reply, end);
      if Timeline.ChatsWellFormed(before) && FreshId(before, ids.botMessageId) {
        EditStreamKeepsWellFormed(before, currentChatId, loading, messageId, newText, newImages, ids,
                                  Gemini.SendResult(state, chatId, history, newText, newImages), reply, end);
      }
    }

    /** `handleVersionChange`. */
    method ChangeVersion(messageId: string, direction: Timeline.Direction)
      modifies this
      ensures chats == Timeline.ChangeVersionChats(old(chats), old(currentChatId), old(isLoading), messageId, direction)
      ensures currentChatId == old(currentChatId) && isLoading == old(isLoading)
      ensures old(Valid()) ==> Valid()
    {
      if Valid() {
        Timeline.HandlersKeepWellFormed(chats, currentChatId, isLoading, messageId, "", [],
                                        Timeline.ForkIds("", "", "", 0), direction);
      }
      chats := Timeline.ChangeVersionChats(chats, currentChatId, isLoading, messageId, direction);
    }

    /** `handleNewChat`: an empty chat goes first and is selected, and the
        provider session is dropped. */
    method NewChat(id: string, now: int)
      modifies this, gemini
      ensures chats == [Storage.CreateNewChat(id, now, None)] + old(chats)
      ensures currentChatId == Some(id) && isLoading == old(isLoading)
      ensures gemini.State() == Gemini.Reset(old(gemini.State()))
      ensures old(Valid()) ==> Valid()
    {
      var created := Storage.CreateNewChat(id, now, None);
      chats := [created] + chats;
      currentChatId := Some(id);
      gemini.ResetChat();
      assert forall j :: 1 <= j < |chats| ==> chats[j] == old(chats)[j - 1];
    }

    /** `handleSelectChat`. */
    method SelectChat(id: string)
      modifies this
      ensures chats == old(chats) && isLoading == old(isLoading) && currentChatId == Some(id)
    {
      currentChatId := Some(id);
    }

    /** `handleConfirmDelete`: deletes one chat (when the confirmation names
        one) or all of them. When the selected chat is gone, the remaining
        chats are put in recency order (the sort works on the state's own
        array) and the most recent is selected, or a new chat is created
        when none remain. */
    method ConfirmDelete(request: DeleteRequest, newId: string, now: int)
      modifies this, gemini
      ensures isLoading == old(isLoading)
      ensures request.DeleteOne? && !Present(request.chatId) ==>
                chats == old(chats) && currentChatId == old(currentChatId) && gemini.State() == old(gemini.State())
      ensures request.DeleteOne? && Present(request.chatId) ==>
        var id := request.chatId.value;
        var remaining := Storage.DeleteChatById(old(chats), id);
        if old(currentChatId) != Some(id) then
          chats == remaining && currentChatId == old(currentChatId) && gemini.State() == old(gemini.State())
        else if remaining != [] then
          && chats == SortByRecency(remaining) && currentChatId == Some(chats[0].id)
          && gemini.State() == Gemini.Reset(old(gemini.State()))
        else
          && chats == [Storage.CreateNewChat(newId, now, None)] && currentChatId == Some(newId)
          && gemini.State() == Gemini.Reset(old(gemini.State()))
      ensures request.ClearAll? ==>
        && chats == [Storage.CreateNewChat(newId, now, None)] && currentChatId == Some(newId)
        && gemini.State() == Gemini.Reset(old(gemini.State()))
      ensures old(Valid()) ==> Valid()
    {
      match request {
        case DeleteOne(chatId) =>
          if Present(chatId) {
            DeleteChat(chatId.value, newId, now);
          }
        case ClearAll =>
          ClearAllChats(newId, now);
      }
    }

    /** The `delete-one` confirmation for a named chat. */
    method DeleteChat(id: string, newId: string, now: int)
      modifies this, gemini
      ensures isLoading == old(isLoading)
      ensures var remaining := Storage.DeleteChatById(old(chats), id);
        if old(currentChatId) != Some(id) then
          chats == remaining && currentChatId == old(currentChatId) && gemini.State() == old(gemini.State())
        else if remaining != [] then
          && chats == SortByRecency(remaining) && currentChatId == Some(chats[0].id)
          && gemini.State() == Gemini.Reset(old(gemini.State()))
        else
          && chats == [Storage.CreateNewChat(newId, now, None)] && currentChatId == Some(newId)
          && gemini.State() == Gemini.Reset(old(gemini.State()))
      ensures old(Valid()) ==> Valid()
    {
      var remaining := Storage.DeleteChatById(chats, id);
      if Valid() {
        DeleteKeepsWellFormed(chats, id);
      }
      chats := remaining;
      if currentChatId == Some(id) {
        if |remaining| > 0 {
          chats := SortByRecency(remaining);
          currentChatId := Some(chats[0].id);
          gemini.ResetChat();
        } else {
          NewChat(newId, now);
        }
      }
    }

    /** The `clear-all` confirmation: one new, empty chat remains. */
    method ClearAllChats(newId: string, now: int)
      modifies this, gemini
      ensures isLoading == old(isLoading)
      ensures chats == [Storage.CreateNewChat(newId, now, None)] && currentChatId == Some(newId)
      ensures gemini.State() == Gemini.Reset(old(gemini.State()))
      ensures Valid()
    {
      chats := [];
      NewChat(newId, now);
    }
  }
}
