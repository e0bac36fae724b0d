/** The pure list operations over the stored conversations. Reading and
    writing the browser's local storage is not part of this model. */
module Storage {
  import opened Types
  import Utils

  const NewChatTitle := "New Chat"
  /** How many characters of its first message a chat title keeps. */
  const TitleLength := 40

  /** True when some chat of `chats` has the id `id` (`chats.some(...)`). */
  predicate HasId(chats: seq<Chat>, id: string) {
    exists j :: 0 <= j < |chats| && chats[j].id == id
  }

  /** A fresh conversation, optionally seeded with its first message; the
      title is the first 40 characters of that message, or "New Chat". */
  function CreateNewChat(id: string, now: int, firstMessage: Option<Message>): (r: Chat)
    ensures r.id == id && r.createdAt == now && r.updatedAt == now
    ensures firstMessage.None? ==> r.messages == [] && r.title == NewChatTitle
    ensures firstMessage.Some? ==> r.messages == [firstMessage.value]
    ensures firstMessage.Some? && firstMessage.value.text == "" ==> r.title == NewChatTitle
    ensures firstMessage.Some? && firstMessage.value.text != "" ==>
      var text := firstMessage.value.text;
      |r.title| == Utils.Min(|text|, TitleLength) && r.title == text[..|r.title|]
  {
    var title :=
      if firstMessage.Some? then
        var head := Utils.Substring(firstMessage.value.text, TitleLength);
        if head == "" then NewChatTitle else head
      else NewChatTitle;
    Chat(id, title, if firstMessage.Some? then [firstMessage.value] else [], now, now)
  }

  /** `chats.map(c => c.id === updated.id ? updated : c)`. */
  function ReplaceById(chats: seq<Chat>, updated: Chat): (r: seq<Chat>)
    ensures |r| == |chats|
    ensures forall j :: 0 <= j < |r| ==> r[j] == if chats[j].id == updated.id then updated else chats[j]
  {
    if chats == [] then []
    else [if chats[0].id == updated.id then updated else chats[0]] + ReplaceById(chats[1..], updated)
  }

  /** Replaces the chat that has the same id in place, or puts a new chat
      in front of the list. */
  function UpdateChat(chats: seq<Chat>, updated: Chat): (r: seq<Chat>)
    ensures HasId(chats, updated.id) ==>
      |r| == |chats| &&
      forall j :: 0 <= j < |r| ==> r[j] == if chats[j].id == updated.id then updated else chats[j]
    ensures !HasId(chats, updated.id) ==> r == [updated] + chats
  {
    if HasId(chats, updated.id) then ReplaceById(chats, updated) else [updated] + chats
  }

  /** The chats whose id is not `id`, in their original order (`filter`). */
  function DeleteChatById(chats: seq<Chat>, id: string): (r: seq<Chat>)
    ensures |r| <= |chats|
    ensures forall c :: c in r <==> c in chats && c.id != id
  {
    if chats == [] then []
    else (if chats[0].id != id then [chats[0]] else []) + DeleteChatById(chats[1..], id)
  }

  /** Deleting distributes over concatenation: the survivors keep their order. */
  lemma {:induction false} DeleteConcat(a: seq<Chat>, b: seq<Chat>, id: string)
    ensures DeleteChatById(a + b, id) == DeleteChatById(a, id) + DeleteChatById(b, id)
  {
    if a != [] {
      assert (a + b)[0] == a[0] && (a + b)[1..] == a[1..] + b;
      DeleteConcat(a[1..], b, id);
      var head := if a[0].id != id then [a[0]] else [];
      assert DeleteChatById(a + b, id) == head + DeleteChatById(a[1..] + b, id);
      assert DeleteChatById(a, id) == head + DeleteChatById(a[1..], id);
    } else {
      assert a + b == b;
    }
  }

  /** Deleting an id that no chat has leaves the list as it is. */
  lemma {:induction false} DeleteAbsent(chats: seq<Chat>, id: string)
    requires !HasId(chats, id)
    ensures DeleteChatById(chats, id) == chats
  {
    if chats != [] {
      assert !HasId(chats[1..], id) by {
        forall j | 0 <= j < |chats[1..]| ensures chats[1..][j].id != id {
          assert chats[1..][j] == chats[j + 1];
        }
      }
      DeleteAbsent(chats[1..], id);
    }
  }

  /** The result never holds the deleted id, so deleting again changes nothing. */
  lemma DeleteIdempotent(chats: seq<Chat>, id: string)
    ensures !HasId(DeleteChatById(chats, id), id)
    ensures DeleteChatById(DeleteChatById(chats, id), id) == DeleteChatById(chats, id)
  {
    var once := DeleteChatById(chats, id);
    assert !HasId(once, id) by {
      forall j | 0 <= j < |once| ensures once[j].id != id {
        assert once[j] in once;
      }
    }
    DeleteAbsent(once, id);
  }

  /** After `UpdateChat(chats, c)`, `c` is in the list, replacing every
      chat with its id, and updating again with `c` changes nothing. */
  lemma UpdateIdempotent(chats: seq<Chat>, updated: Chat)
    ensures updated in UpdateChat(chats, updated)
    ensures UpdateChat(UpdateChat(chats, updated), updated) == UpdateChat(chats, updated)
  {
  }

  /** Updating and then deleting the same id is the same as deleting it. */
  lemma UpdateThenDelete(chats: seq<Chat>, updated: Chat)
    ensures DeleteChatById(UpdateChat(chats, updated), updated.id) == DeleteChatById(chats, updated.id)
  {
    if HasId(chats, updated.id) {
      ReplaceThenDelete(chats, updated);
    } else {
      DeleteConcat([updated], chats, updated.id);
    }
  }

  lemma {:induction false} ReplaceThenDelete(chats: seq<Chat>, updated: Chat)
    ensures DeleteChatById(ReplaceById(chats, updated), updated.id) == DeleteChatById(chats, updated.id)
  {
    if chats != [] {
      var head := if chats[0].id == updated.id then updated else chats[0];
      DeleteConcat([head], ReplaceById(chats[1..], updated), updated.id);
      ReplaceThenDelete(chats[1..], updated);
    }
  }
}
