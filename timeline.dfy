/** The branching timeline engine of the chat screen: forking an earlier
    user message into a new version (which stashes the continuation that
    followed it), and switching between the versions of a message (which
    swaps the stashed continuations in and out of the flat timeline).
    Each state updater is an atomic function over the list of chats. */
module Timeline {
  import opened Types
  import Seqs
  import Utils
  import Storage

  /** The two ways the version arrows move. */
  type Direction = d: int | d == -1 || d == 1 witness 1

  /** The arrow pointing the other way. */
  function Opposite(d: Direction): (r: Direction)
    ensures r + d == 0
  {
    if d == 1 then -1 else 1
  }

  /** `chats.findIndex(c => c.id === id)`. */
  function ChatIndex(chats: seq<Chat>, id: string): Option<nat> {
    Seqs.FindIndex(chats, (c: Chat) => c.id == id)
  }

  /** `messages.findIndex(m => m.id === id)`. */
  function MessageIndex(messages: seq<Message>, id: string): Option<nat> {
    Seqs.FindIndex(messages, (m: Message) => m.id == id)
  }

  /** The chat lookup depends on the ids only. */
  lemma SameIdsSameIndex(a: seq<Chat>, b: seq<Chat>, id: string)
    requires |a| == |b| && forall j :: 0 <= j < |a| ==> a[j].id == b[j].id
    ensures ChatIndex(a, id) == ChatIndex(b, id)
  {
  }

  /** Applies `f` to the first chat with the given id, if there is one; the
      shape shared by every `setChats(prev => ...)` updater. */
  function UpdateChatById(chats: seq<Chat>, chatId: string, f: Chat -> Chat): (r: seq<Chat>)
    ensures |r| == |chats|
    ensures ChatIndex(chats, chatId).None? ==> r == chats
    ensures ChatIndex(chats, chatId).Some? ==>
      var ci := ChatIndex(chats, chatId).value;
      r[ci] == f(chats[ci]) && forall j :: 0 <= j < |chats| && j != ci ==> r[j] == chats[j]
  {
    match ChatIndex(chats, chatId)
    case None => chats
    case Some(i) => chats[i := f(chats[i])]
  }

  // ---------------------------------------------------------------------
  // The version ledger of one message

  /** `msg.currentVersionIndex ?? 0`. */
  function ActiveIndex(m: Message): int {
    m.currentVersionIndex.GetOr(0)
  }

  /** `images.length > 0 ? images : undefined`. */
  function AttachedImages(images: seq<string>): Option<seq<string>> {
    if |images| > 0 then Some(images) else None
  }

  /** The message's versions, or a single seed version holding its current
      content when it has never been edited. */
  function SeedVersions(m: Message, seedId: string): seq<Version> {
    if m.versions.Versions? then m.versions.value
    else [Version(seedId, m.text, m.images, m.timestamp, [])]
  }

  /** Stores `continuation` as the stash of version `k`, when there is one. */
  function StashAt(vs: seq<Version>, k: int, continuation: seq<Message>): (r: seq<Version>)
    ensures |r| == |vs|
    ensures forall j :: 0 <= j < |vs| && j != k ==> r[j] == vs[j]
    ensures 0 <= k < |vs| ==> r[k] == vs[k].(subsequentMessages := continuation)
  {
    if 0 <= k < |vs| then vs[k := vs[k].(subsequentMessages := continuation)] else vs
  }

  /** The empty model message that a streaming answer is written into. */
  function Placeholder(id: string, now: int): Message {
    Message(id, Model, "", None, true, None, now, Unversioned, None)
  }

  /** The ids and the clock reading that one edit draws. */
  datatype ForkIds = ForkIds(versionId: string, seedVersionId: string, botMessageId: string, now: int)

  /** What a message bubble displays: the message without its ledger, with
      an absent image list read as empty. */
  datatype MessageView = MessageView(
    id: string, role: Role, text: string, images: seq<string>,
    isStreaming: bool, groundingSources: Option<seq<GroundingChunk>>, timestamp: int)

  function View(m: Message): MessageView {
    MessageView(m.id, m.role, m.text, ImagesOf(m.images), m.isStreaming, m.groundingSources, m.timestamp)
  }

  // ---------------------------------------------------------------------
  // Fork (handleEditMessage) and switch (handleVersionChange)

  /** The timeline after editing message `i` to `newText`/`newImages`: the
      messages before it, the edited message, and a streaming placeholder.
      The version that was active keeps the old continuation as its stash;
      a new, empty-stash version is appended and becomes active. */
  function ForkTimeline(msgs: seq<Message>, i: nat, newText: string, newImages: seq<string>, ids: ForkIds)
    : (r: seq<Message>)
    requires i < |msgs|
    ensures |r| == i + 2 && r[..i] == msgs[..i]
    ensures r[i].id == msgs[i].id && r[i].role == msgs[i].role && r[i].timestamp == msgs[i].timestamp
    ensures r[i].text == newText && ImagesOf(r[i].images) == newImages
    ensures r[i + 1] == Placeholder(ids.botMessageId, ids.now)
    ensures r[i + 1].role == Model && r[i + 1].text == "" && r[i + 1].isStreaming
    ensures r[i].versions.Versions?
    ensures r[i] == msgs[i].(text := newText, images := AttachedImages(newImages), versions := r[i].versions,
                             currentVersionIndex := Some(|r[i].versions.value| - 1))
    ensures var old_ := SeedVersions(msgs[i], ids.seedVersionId);
            var vs := r[i].versions.value;
            && |vs| == |old_| + 1
            && ActiveIndex(r[i]) == |vs| - 1
            && vs[|vs| - 1] == Version(ids.versionId, newText, Some(newImages), ids.now, [])
            && (0 <= ActiveIndex(msgs[i]) < |old_| ==>
                  vs[ActiveIndex(msgs[i])] == old_[ActiveIndex(msgs[i])].(subsequentMessages := msgs[i + 1..]))
            && forall j :: 0 <= j < |old_| && j != ActiveIndex(msgs[i]) ==> vs[j] == old_[j]
    ensures msgs[i].versions.Unversioned? ==> |r[i].versions.value| == 2
  {
    var m := msgs[i];
    var versions := StashAt(SeedVersions(m, ids.seedVersionId), ActiveIndex(m), msgs[i + 1..])
                    + [Version(ids.versionId, newText, Some(newImages), ids.now, [])];
    var edited := m.(versions := Versions(versions), currentVersionIndex := Some(|versions| - 1),
                     text := newText, images := AttachedImages(newImages));
    msgs[..i] + [edited] + [Placeholder(ids.botMessageId, ids.now)]
  }

  /** Whether the arrow in `direction` leads to an existing version. */
  predicate CanSwitch(m: Message, direction: Direction) {
    m.versions.Versions? && 0 <= ActiveIndex(m) + direction < |m.versions.value|
  }

  /** The timeline after moving message `i` one version in `direction`, or
      None when it has no versions or the move leaves the version list. The
      current continuation is stashed into the version being left, the
      message shows the target version's content, and the target's stash
      becomes the continuation. */
  function SwitchTimeline(msgs: seq<Message>, i: nat, direction: Direction): (r: Option<seq<Message>>)
    requires i < |msgs|
    ensures r.Some? <==> CanSwitch(msgs[i], direction)
    ensures r.Some? ==>
      var m := msgs[i];
      var k := ActiveIndex(m);
      var target := m.versions.value[k + direction];
      var t := r.value;
      && |t| == i + 1 + |target.subsequentMessages|
      && t[..i] == msgs[..i] && t[i + 1..] == target.subsequentMessages
      && t[i].id == m.id && t[i].role == m.role && t[i].timestamp == m.timestamp
      && t[i].isStreaming == m.isStreaming && t[i].groundingSources == m.groundingSources
      && t[i].text == target.text && t[i].images == target.images
      && t[i].currentVersionIndex == Some(k + direction)
      && t[i].versions == Versions(StashAt(m.versions.value, k, msgs[i + 1..]))
  {
    var m := msgs[i];
    if m.versions.Unversioned? then None
    else
      var k := ActiveIndex(m);
      var next := k + direction;
      if next < 0 || next >= |m.versions.value| then None
      else
        var versions := StashAt(m.versions.value, k, msgs[i + 1..]);
        var target := versions[next];
        var shown := m.(text := target.text, images := target.images,
                        currentVersionIndex := Some(next), versions := Versions(versions));
        Some(msgs[..i] + [shown] + target.subsequentMessages)
  }

  // ---------------------------------------------------------------------
  // The ledger invariant

  /** A ledger and its index exist together, the index is in range, and the
      message displays the active version's content. */
  predicate LedgerConsistent(m: Message) {
    match m.versions
    case Unversioned => m.currentVersionIndex.None?
    case Versions(vs) =>
      && m.currentVersionIndex.Some?
      && 0 <= m.currentVersionIndex.value < |vs|
      && vs[m.currentVersionIndex.value].text == m.text
      && ImagesOf(vs[m.currentVersionIndex.value].images) == ImagesOf(m.images)
  }

  /** The ledger invariant holds for the message and, recursively, for every
      message in every stash. */
  predicate WellFormed(m: Message) {
    && LedgerConsistent(m)
    && match m.versions
       case Unversioned => true
       case Versions(vs) => forall v :: v in vs ==> StashWellFormed(v)
  }

  predicate StashWellFormed(v: Version) {
    forall x :: x in v.subsequentMessages ==> WellFormed(x)
  }

  predicate TimelineWellFormed(msgs: seq<Message>) {
    forall j :: 0 <= j < |msgs| ==> WellFormed(msgs[j])
  }

  /** A fork keeps every ledger consistent, the new ones included. */
  lemma ForkKeepsWellFormed(msgs: seq<Message>, i: nat, newText: string, newImages: seq<string>, ids: ForkIds)
    requires i < |msgs| && TimelineWellFormed(msgs)
    ensures TimelineWellFormed(ForkTimeline(msgs, i, newText, newImages, ids))
  {
  }

  /** A switch keeps every ledger consistent. */
  lemma SwitchKeepsWellFormed(msgs: seq<Message>, i: nat, direction: Direction)
    requires i < |msgs| && TimelineWellFormed(msgs) && CanSwitch(msgs[i], direction)
    ensures TimelineWellFormed(SwitchTimeline(msgs, i, direction).value)
  {
    var r := SwitchTimeline(msgs, i, direction).value;
    var m := msgs[i];
    var k := ActiveIndex(m);
    var vs := m.versions.value;
    var target := vs[k + direction];
    var nvs := r[i].versions.value;
    assert WellFormed(m);
    forall a | 0 <= a < |nvs| ensures StashWellFormed(nvs[a]) {
      if a == k {
        forall j | 0 <= j < |nvs[a].subsequentMessages| ensures WellFormed(nvs[a].subsequentMessages[j]) {
          assert nvs[a].subsequentMessages[j] == msgs[i + 1 + j];
        }
      } else {
        assert nvs[a] == vs[a];
      }
    }
    assert WellFormed(r[i]);
    forall j | 0 <= j < |r| ensures WellFormed(r[j]) {
      if j < i {
        assert r[j] == msgs[..i][j] == msgs[j];
      } else if j > i {
        assert r[j] == target.subsequentMessages[j - i - 1];
      }
    }
  }

  /** The active version of message `i` stashes exactly the continuation,
      and the message shows exactly that version's content. */
  predicate Settled(msgs: seq<Message>, i: nat)
    requires i < |msgs|
  {
    var m := msgs[i];
    && m.versions.Versions? && m.currentVersionIndex.Some?
    && 0 <= ActiveIndex(m) < |m.versions.value|
    && m.versions.value[ActiveIndex(m)].subsequentMessages == msgs[i + 1..]
    && m.versions.value[ActiveIndex(m)].text == m.text
    && m.versions.value[ActiveIndex(m)].images == m.images
  }

  /** Right after a switch the timeline is settled at the switched message. */
  lemma SwitchSettles(msgs: seq<Message>, i: nat, direction: Direction)
    requires i < |msgs| && CanSwitch(msgs[i], direction)
    ensures Settled(SwitchTimeline(msgs, i, direction).value, i)
  {
  }

  /** Going one version away and straight back restores the timeline: the
      messages around the switched one are identical and the message shows
      what it showed before. */
  lemma SwitchRoundTrip(msgs: seq<Message>, i: nat, direction: Direction)
    requires i < |msgs| && LedgerConsistent(msgs[i]) && CanSwitch(msgs[i], direction)
    ensures var there := SwitchTimeline(msgs, i, direction).value;
            && CanSwitch(there[i], Opposite(direction))
            && var back := SwitchTimeline(there, i, Opposite(direction)).value;
            && |back| == |msgs| && back[..i] == msgs[..i] && back[i + 1..] == msgs[i + 1..]
            && View(back[i]) == View(msgs[i])
            && ActiveIndex(back[i]) == ActiveIndex(msgs[i])
  {
  }

  /** From a settled timeline the round trip restores it exactly. */
  lemma SwitchRoundTripExact(msgs: seq<Message>, i: nat, direction: Direction)
    requires i < |msgs| && Settled(msgs, i) && CanSwitch(msgs[i], direction)
    ensures var there := SwitchTimeline(msgs, i, direction).value;
            CanSwitch(there[i], Opposite(direction)) && SwitchTimeline(there, i, Opposite(direction)) == Some(msgs)
  {
    var m := msgs[i];
    var k := ActiveIndex(m);
    var vs := m.versions.value;
    var there := SwitchTimeline(msgs, i, direction).value;
    assert ActiveIndex(there[i]) == k + direction;
    var vs1 := there[i].versions.value;
    assert vs1 == vs[k := vs[k]];
    assert vs1 == vs;
    var back := SwitchTimeline(there, i, Opposite(direction)).value;
    var vs2 := back[i].versions.value;
    assert vs2 == vs1[k + direction := vs1[k + direction].(subsequentMessages := there[i + 1..])];
    assert there[i + 1..] == vs[k + direction].subsequentMessages;
    assert vs2 == vs;
    assert back[i] == m;
    assert back == back[..i] + [back[i]] + back[i + 1..];
    assert msgs == msgs[..i] + [msgs[i]] + msgs[i + 1..];
  }

  /** Going back one version right after an edit restores the timeline from
      before the edit, provided the edited version was the last one (or the
      message had never been edited): the new version is appended at the
      end, so the arrow leads to the previously last version. */
  lemma ForkThenBack(msgs: seq<Message>, i: nat, newText: string, newImages: seq<string>, ids: ForkIds)
    requires i < |msgs| && LedgerConsistent(msgs[i])
    requires msgs[i].versions.Versions? ==> ActiveIndex(msgs[i]) == |msgs[i].versions.value| - 1
    ensures var forked := ForkTimeline(msgs, i, newText, newImages, ids);
            && CanSwitch(forked[i], -1)
            && var back := SwitchTimeline(forked, i, -1).value;
            && |back| == |msgs| && back[..i] == msgs[..i] && back[i + 1..] == msgs[i + 1..]
            && View(back[i]) == View(msgs[i])
            && (msgs[i].versions.Unversioned? ==> back[i].images == msgs[i].images)
  {
  }

  /** In general the arrow back after an edit leads to the version that was
      last before the edit, whichever version the edit was made from; that
      version's stash becomes the continuation. */
  lemma ForkBackTarget(msgs: seq<Message>, i: nat, newText: string, newImages: seq<string>, ids: ForkIds)
    requires i < |msgs| && msgs[i].versions != Versions([])
    ensures var forked := ForkTimeline(msgs, i, newText, newImages, ids);
            var seed := SeedVersions(msgs[i], ids.seedVersionId);
            var last := forked[i].versions.value[|seed| - 1];
            && CanSwitch(forked[i], -1)
            && var back := SwitchTimeline(forked, i, -1).value;
            && ActiveIndex(back[i]) == |seed| - 1
            && back[i].text == last.text && back[i].images == last.images
            && back[i + 1..] == last.subsequentMessages
            && (ActiveIndex(msgs[i]) != |seed| - 1 ==> last == seed[|seed| - 1])
  {
  }

  /** After an edit, going back and forward again restores what the edit
      displayed: the edited message with its placeholder. */
  lemma ForkBackForward(msgs: seq<Message>, i: nat, newText: string, newImages: seq<string>, ids: ForkIds)
    requires i < |msgs| && LedgerConsistent(msgs[i])
    ensures var forked := ForkTimeline(msgs, i, newText, newImages, ids);
            && CanSwitch(forked[i], -1)
            && var back := SwitchTimeline(forked, i, -1).value;
            && CanSwitch(back[i], 1)
            && var forth := SwitchTimeline(back, i, 1).value;
            && forth[..i] == msgs[..i]
            && forth[i + 1..] == [Placeholder(ids.botMessageId, ids.now)]
            && View(forth[i]) == View(forked[i])
  {
  }

  // ---------------------------------------------------------------------
  // The handlers' state updates over the list of chats

  /** The guards of `handleEditMessage`: a chat is selected, nothing is
      being generated, the chat and the message exist, and the message was
      written by the user. */
  predicate EditAllowed(chats: seq<Chat>, currentChatId: Option<string>, isLoading: bool, messageId: string) {
    && Present(currentChatId) && !isLoading
    && ChatIndex(chats, currentChatId.value).Some?
    && var c := chats[ChatIndex(chats, currentChatId.value).value];
    && MessageIndex(c.messages, messageId).Some?
    && c.messages[MessageIndex(c.messages, messageId).value].role == User
  }

  /** The chats after `handleEditMessage`'s update: unchanged when a guard
      refuses, otherwise the chat's timeline is forked at the message. */
  function EditChats(chats: seq<Chat>, currentChatId: Option<string>, isLoading: bool, messageId: string,
                     newText: string, newImages: seq<string>, ids: ForkIds): (r: seq<Chat>)
    ensures |r| == |chats|
    ensures r == chats <==> !EditAllowed(chats, currentChatId, isLoading, messageId)
    ensures EditAllowed(chats, currentChatId, isLoading, messageId) ==>
      var ci := ChatIndex(chats, currentChatId.value).value;
      var mi := MessageIndex(chats[ci].messages, messageId).value;
      && r[ci].messages == ForkTimeline(chats[ci].messages, mi, newText, newImages, ids)
      && r[ci].updatedAt == ids.now
      && r[ci].id == chats[ci].id && r[ci].title == chats[ci].title && r[ci].createdAt == chats[ci].createdAt
      && forall j :: 0 <= j < |chats| && j != ci ==> r[j] == chats[j]
  {
    if !EditAllowed(chats, currentChatId, isLoading, messageId) then chats
    else
      var ci := ChatIndex(chats, currentChatId.value).value;
      var c := chats[ci];
      var mi := MessageIndex(c.messages, messageId).value;
      var forked := ForkTimeline(c.messages, mi, newText, newImages, ids);
      var old_ := SeedVersions(c.messages[mi], ids.seedVersionId);
      assert |forked[mi].versions.value| == |old_| + 1;
      assert c.messages[mi].versions.Versions? ==> |old_| == |c.messages[mi].versions.value|;
      assert forked[mi] != c.messages[mi];
      chats[ci := c.(messages := forked, updatedAt := ids.now)]
  }

  /** The guards of `handleVersionChange` and of its update. */
  predicate SwitchAllowed(chats: seq<Chat>, currentChatId: Option<string>, isLoading: bool,
                          messageId: string, direction: Direction) {
    && Present(currentChatId) && !isLoading
    && ChatIndex(chats, currentChatId.value).Some?
    && var c := chats[ChatIndex(chats, currentChatId.value).value];
    && MessageIndex(c.messages, messageId).Some?
    && CanSwitch(c.messages[MessageIndex(c.messages, messageId).value], direction)
  }

  /** The chats after `handleVersionChange`: unchanged exactly when a guard
      refuses, otherwise the chat's timeline is switched at the message. */
  function ChangeVersionChats(chats: seq<Chat>, currentChatId: Option<string>, isLoading: bool,
                              messageId: string, direction: Direction): (r: seq<Chat>)
    ensures |r| == |chats|
    ensures r == chats <==> !SwitchAllowed(chats, currentChatId, isLoading, messageId, direction)
    ensures SwitchAllowed(chats, currentChatId, isLoading, messageId, direction) ==>
      var ci := ChatIndex(chats, currentChatId.value).value;
      var mi := MessageIndex(chats[ci].messages, messageId).value;
      && r[ci] == chats[ci].(messages := SwitchTimeline(chats[ci].messages, mi, direction).value)
      && forall j :: 0 <= j < |chats| && j != ci ==> r[j] == chats[j]
  {
    if !SwitchAllowed(chats, currentChatId, isLoading, messageId, direction) then chats
    else
      var ci := ChatIndex(chats, currentChatId.value).value;
      var c := chats[ci];
      var mi := MessageIndex(c.messages, messageId).value;
      var switched := SwitchTimeline(c.messages, mi, direction).value;
      assert switched[mi].currentVersionIndex != c.messages[mi].currentVersionIndex;
      chats[ci := c.(messages := switched)]
  }

  /** Every chat's timeline satisfies the ledger invariant. */
  predicate ChatsWellFormed(chats: seq<Chat>) {
    forall j :: 0 <= j < |chats| ==> TimelineWellFormed(chats[j].messages)
  }

  /** Editing and switching keep the ledger invariant of every chat. */
  lemma HandlersKeepWellFormed(chats: seq<Chat>, currentChatId: Option<string>, isLoading: bool,
                               messageId: string, newText: string, newImages: seq<string>, ids: ForkIds,
                               direction: Direction)
    requires ChatsWellFormed(chats)
    ensures ChatsWellFormed(EditChats(chats, currentChatId, isLoading, messageId, newText, newImages, ids))
    ensures ChatsWellFormed(ChangeVersionChats(chats, currentChatId, isLoading, messageId, direction))
  {
    if EditAllowed(chats, currentChatId, isLoading, messageId) {
      var ci := ChatIndex(chats, currentChatId.value).value;
      var mi := MessageIndex(chats[ci].messages, messageId).value;
      ForkKeepsWellFormed(chats[ci].messages, mi, newText, newImages, ids);
    }
    if SwitchAllowed(chats, currentChatId, isLoading, messageId, direction) {
      var ci := ChatIndex(chats, currentChatId.value).value;
      var mi := MessageIndex(chats[ci].messages, messageId).value;
      SwitchKeepsWellFormed(chats[ci].messages, mi, direction);
    }
  }

  // ---------------------------------------------------------------------
  // handleSend

  /** The ids and the clock reading that one send draws. */
  datatype SendIds = SendIds(versionId: string, userMessageId: string, botMessageId: string, now: int)

  /** The user's new message, with a one-version ledger. */
  function UserMessage(text: string, images: seq<string>, ids: SendIds): (r: Message)
    ensures WellFormed(r) && r.role == User && r.text == text && ImagesOf(r.images) == images
    ensures r.id == ids.userMessageId && r.timestamp == ids.now && !r.isStreaming && r.groundingSources.None?
    ensures r.images == AttachedImages(images)
    ensures r.versions == Versions([Version(ids.versionId, text, Some(images), ids.now, [])])
    ensures r.currentVersionIndex == Some(0)
  {
    Message(ids.userMessageId, User, text, AttachedImages(images), false, None, ids.now,
            Versions([Version(ids.versionId, text, Some(images), ids.now, [])]), Some(0))
  }

  /** The title a chat gets from its first message, as `handleSend` writes it. */
  function FirstMessageTitle(text: string): string {
    Utils.Substring(text, Storage.TitleLength) + (if |text| > Storage.TitleLength then "..." else "")
  }

  /** That title is the message truncated to 40 characters. */
  lemma FirstMessageTitleTruncates(text: string)
    ensures FirstMessageTitle(text) == Utils.TruncateText(text, Storage.TitleLength)
    ensures |FirstMessageTitle(text)| <= Storage.TitleLength + 3
  {
  }

  function WithUserMessage(c: Chat, userMessage: Message, text: string, now: int): Chat {
    c.(messages := c.messages + [userMessage], updatedAt := now,
       title := if |c.messages| == 0 then FirstMessageTitle(text) else c.title)
  }

  /** The chats after `handleSend`'s two updates: the user message and then a
      placeholder are appended to the chat, which is retitled if it was
      empty; other chats, and a missing chat, are left alone. */
  function SendChats(chats: seq<Chat>, chatId: string, text: string, images: seq<string>, ids: SendIds)
    : (r: seq<Chat>)
    ensures |r| == |chats|
    ensures ChatIndex(chats, chatId).None? ==> r == chats
    ensures ChatIndex(chats, chatId).Some? ==>
      var ci := ChatIndex(chats, chatId).value;
      && r[ci].messages == chats[ci].messages + [UserMessage(text, images, ids), Placeholder(ids.botMessageId, ids.now)]
      && r[ci].title == (if chats[ci].messages == [] then Utils.TruncateText(text, Storage.TitleLength) else chats[ci].title)
      && r[ci].updatedAt == ids.now
      && r[ci].id == chats[ci].id && r[ci].createdAt == chats[ci].createdAt
      && forall j :: 0 <= j < |chats| && j != ci ==> r[j] == chats[j]
  {
    var userMessage := UserMessage(text, images, ids);
    var withUser := UpdateChatById(chats, chatId, (c: Chat) => WithUserMessage(c, userMessage, text, ids.now));
    SameIdsSameIndex(chats, withUser, chatId);
    FirstMessageTitleTruncates(text);
    UpdateChatById(withUser, chatId, (c: Chat) => c.(messages := c.messages + [Placeholder(ids.botMessageId, ids.now)]))
  }

  /** The history `handleSend` hands to the stream: the selected chat's
      messages as they were before the send, then the new user message. */
  function SendHistory(chats: seq<Chat>, chatId: string, userMessage: Message): seq<Message> {
    match ChatIndex(chats, chatId)
    case None => [userMessage]
    case Some(ci) => chats[ci].messages + [userMessage]
  }

  /** Sending keeps the ledger invariant of every chat. */
  lemma SendKeepsWellFormed(chats: seq<Chat>, chatId: string, text: string, images: seq<string>, ids: SendIds)
    requires ChatsWellFormed(chats)
    ensures ChatsWellFormed(SendChats(chats, chatId, text, images, ids))
  {
  }
}
