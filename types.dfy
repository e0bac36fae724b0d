/** The entities of the conversation store: messages, the versions of an
    edited message, and chats (conversations). */
module Types {

  datatype Option<+T> = None | Some(value: T) {
    /** The value, or `default` when absent (JavaScript's `x ?? default`). */
    function GetOr(default: T): T {
      match this
      case Some(v) => v
      case None => default
    }
  }

  /** An operation that either yields a value or throws an error with a message. */
  datatype Result<+T> = Success(value: T) | Failure(error: string)

  /** The author of a message. */
  datatype Role = User | Model

  datatype WebSource = WebSource(uri: string, title: string)

  /** A citation that the provider attaches to a generated answer. */
  datatype GroundingChunk = GroundingChunk(web: Option<WebSource>)

  /** One alternative content of an edited user message, with the messages
      that followed it the last time it was the active version. */
  datatype Version = Version(
    id: string,
    text: string,
    images: Option<seq<string>>,
    timestamp: int,
    subsequentMessages: seq<Message>)

  /** A message of the active timeline. `isStreaming` stands for the optional
      flag, absent being read as false; `versions` and `currentVersionIndex`
      are the optional version ledger of a user message. */
  datatype Message = Message(
    id: string,
    role: Role,
    text: string,
    images: Option<seq<string>>,
    isStreaming: bool,
    groundingSources: Option<seq<GroundingChunk>>,
    timestamp: int,
    versions: Ledger,
    currentVersionIndex: Option<int>)

  /** The optional list of versions of a message (absent and empty are
      different: an empty list is still present). */
  datatype Ledger = Unversioned | Versions(value: seq<Version>)

  /** A conversation: its active timeline and bookkeeping times. */
  datatype Chat = Chat(
    id: string,
    title: string,
    messages: seq<Message>,
    createdAt: int,
    updatedAt: int)

  /** The images of a message or version, an absent list read as empty. */
  function ImagesOf(images: Option<seq<string>>): seq<string> {
    if images.Some? then images.value else []
  }

  /** JavaScript truthiness of an optional id: present and not empty. */
  predicate Present(id: Option<string>) {
    id.Some? && id.value != ""
  }
}
