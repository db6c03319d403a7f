/**
 * The `Chat` message document: schema defaults, the `trim` on `content`, the
 * required-field validators and the two hooks that fill `conversation_key`.
 * Object ids are strings; the empty string stands for a missing value.
 */
module ChatModel {
  import opened Wrappers
  import opened Strings
  import opened ConversationKey

  /** A persisted chat message. `conversationKey` is "" when missing. */
  datatype Message = Message(
    messageId: string,
    senderId: string,
    receiverId: string,
    listingId: Option<string>,
    content: string,
    timestamp: int,
    readStatus: bool,
    conversationKey: string)

  /** The fields handed to `Chat.create`; `None` and "" are the omitted ones. */
  datatype ChatFields = ChatFields(
    senderId: string,
    receiverId: string,
    content: string,
    listingId: Option<string>,
    readStatus: Option<bool>,
    conversationKey: string)

  /** A message document between construction and insertion. */
  class ChatDoc {
    var messageId: string
    var senderId: string
    var receiverId: string
    var listingId: Option<string>
    var content: string
    var timestamp: int
    var readStatus: bool
    var conversationKey: string

    /**
     * `new Chat(fields)`: a fresh `message_id`, `timestamp` now, `read_status`
     * false and `listing_id` null unless given, `content` trimmed.
     */
    constructor (f: ChatFields, freshId: string, now: int)
      ensures messageId == freshId && senderId == f.senderId && receiverId == f.receiverId
      ensures listingId == f.listingId && content == Trim(f.content) && timestamp == now
      ensures readStatus == f.readStatus.GetOr(false) && conversationKey == f.conversationKey
    {
      messageId, senderId, receiverId := freshId, f.senderId, f.receiverId;
      listingId, content, timestamp := f.listingId, Trim(f.content), now;
      readStatus, conversationKey := f.readStatus.GetOr(false), f.conversationKey;
    }

    /** Everything but the key, so the hooks can say that nothing else changes. */
    function Body(): (string, string, string, Option<string>, string, int, bool)
      reads this
    {
      (messageId, senderId, receiverId, listingId, content, timestamp, readStatus)
    }

    /** `pre('validate')`: keeps a present key, otherwise fills it when both ids are present. */
    method PreValidate()
      modifies this
      ensures old(conversationKey) != "" ==> conversationKey == old(conversationKey)
      ensures old(conversationKey) == "" ==>
                conversationKey == BuildConversationId(senderId, receiverId).GetOr("")
      ensures Body() == old(Body())
    {
      if conversationKey != "" {
        return;
      }
      var key := BuildConversationId(senderId, receiverId);
      if key.Some? {
        conversationKey := key.value;
      }
    }

    /** `pre('save')`: a still-missing key is set from the two ids (to null when one is missing). */
    method PreSave()
      modifies this
      ensures old(conversationKey) != "" ==> conversationKey == old(conversationKey)
      ensures old(conversationKey) == "" ==>
                conversationKey == BuildConversationId(senderId, receiverId).GetOr("")
      ensures Body() == old(Body())
    {
      if conversationKey == "" {
        conversationKey := BuildConversationId(senderId, receiverId).GetOr("");
      }
    }

    /** The schema's `required` validators (an empty string fails `required`). */
    predicate PassesValidation()
      reads this
    {
      messageId != "" && senderId != "" && receiverId != "" && content != ""
    }

    function Snapshot(): Message
      reads this
    {
      Message(messageId, senderId, receiverId, listingId, content, timestamp, readStatus,
              conversationKey)
    }
  }

  /** The key a created message ends up with: the supplied one, else the one built from its ids. */
  function FilledKey(f: ChatFields): string {
    if f.conversationKey != "" then f.conversationKey
    else BuildConversationId(f.senderId, f.receiverId).GetOr("")
  }

  /**
   * `Chat.create(fields)`: construct with defaults, run the validate hook,
   * the validators, then the save hook; `None` is the validation error.
   */
  method Create(f: ChatFields, freshId: string, now: int) returns (r: Option<Message>)
    ensures r.None? <==>
              (freshId == "" || f.senderId == "" || f.receiverId == "" || Trim(f.content) == "")
    ensures r.Some? ==>
              r.value == Message(freshId, f.senderId, f.receiverId, f.listingId, Trim(f.content),
                                 now, f.readStatus.GetOr(false), FilledKey(f))
    ensures r.Some? ==> r.value.conversationKey != ""
  {
    var doc := new ChatDoc(f, freshId, now);
    doc.PreValidate();
    if !doc.PassesValidation() {
      return None;
    }
    doc.PreSave();
    r := Some(doc.Snapshot());
  }

  /** Messages with no supplied key are keyed by the unordered pair of participants. */
  lemma FilledKeyIgnoresDirection(f: ChatFields, g: ChatFields)
    requires f.conversationKey == "" && g.conversationKey == ""
    requires f.senderId == g.receiverId && f.receiverId == g.senderId
    ensures FilledKey(f) == FilledKey(g)
  {
    Symmetric(f.senderId, f.receiverId);
  }
}
