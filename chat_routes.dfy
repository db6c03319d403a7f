/**
 * The chat HTTP handlers over the message store. Each handler is one atomic
 * step; the authenticated user, the user and item directories, the fresh id
 * and the clock are inputs. `mongoose.Types.ObjectId.isValid` is the store's
 * uninterpreted `isValidId`.
 */
module ChatRoutes {
  import opened Wrappers
  import opened Strings
  import opened Sorting
  import opened Json
  import opened ConversationKey
  import opened ChatModel
  import opened ChatQueries
  import opened ChatStream

  /** An account as the user directory returns it (the fields the chat reads). */
  datatype User = User(id: string, name: string, email: string)

  /** A listing as the item directory returns it (`select('title imageUrl slug')`). */
  datatype Listing = Listing(id: string, title: string, imageUrl: string, slug: string)

  /** `formatMessage`: the wire form of a message; the conversation key is not part of it. */
  function MessageJson(m: Message): Json {
    JObj([("message_id", JStr(m.messageId)),
          ("sender_id", JStr(m.senderId)),
          ("receiver_id", JStr(m.receiverId)),
          ("listing_id", StrOrNull(m.listingId)),
          ("content", JStr(m.content)),
          ("timestamp", JTime(m.timestamp)),
          ("read_status", JBool(m.readStatus))])
  }

  function StrAt(j: Json, key: string): Option<string>
    requires IsObject(j)
  {
    match Get(j, key)
    case Some(JStr(v)) => Some(v)
    case _ => None
  }

  /** Reads a formatted message back, given the key it was stored under. */
  function MessageFromJson(j: Json, key: string): Option<Message>
    requires IsObject(j)
  {
    var id := StrAt(j, "message_id");
    var sender := StrAt(j, "sender_id");
    var receiver := StrAt(j, "receiver_id");
    var content := StrAt(j, "content");
    var listing := Get(j, "listing_id");
    var time := Get(j, "timestamp");
    var read := Get(j, "read_status");
    if id.Some? && sender.Some? && receiver.Some? && content.Some? &&
       listing.Some? && (listing.value.JStr? || listing.value.JNull?) &&
       time.Some? && time.value.JTime? && read.Some? && read.value.JBool?
    then
      Some(Message(id.value, sender.value, receiver.value,
                   if listing.value.JStr? then Some(listing.value.s) else None,
                   content.value, time.value.ms, read.value.b, key))
    else None
  }

  /** Each field of the wire form holds the message's value. */
  lemma MessageJsonFields(m: Message)
    ensures var j := MessageJson(m);
      Get(j, "message_id") == Some(JStr(m.messageId)) &&
      Get(j, "sender_id") == Some(JStr(m.senderId)) &&
      Get(j, "receiver_id") == Some(JStr(m.receiverId)) &&
      Get(j, "listing_id") == Some(StrOrNull(m.listingId)) &&
      Get(j, "content") == Some(JStr(m.content)) &&
      Get(j, "timestamp") == Some(JTime(m.timestamp)) &&
      Get(j, "read_status") == Some(JBool(m.readStatus))
  {
    var f := MessageJson(m).fields;
    assert Field(f, "message_id") == Some(JStr(m.messageId)) by {
      FieldAt(f, 0);
    }
    assert Field(f, "sender_id") == Some(JStr(m.senderId)) by {
      FieldAt(f, 1);
    }
    assert Field(f, "receiver_id") == Some(JStr(m.receiverId)) by {
      FieldAt(f, 2);
    }
    assert Field(f, "listing_id") == Some(StrOrNull(m.listingId)) by {
      FieldAt(f, 3);
    }
    assert Field(f, "content") == Some(JStr(m.content)) by {
      FieldAt(f, 4);
    }
    assert Field(f, "timestamp") == Some(JTime(m.timestamp)) by {
      FieldAt(f, 5);
    }
    assert Field(f, "read_status") == Some(JBool(m.readStatus)) by {
      FieldAt(f, 6);
    }
  }

  /** Formatting loses nothing but the conversation key. */
  lemma MessageJsonRoundTrip(m: Message)
    ensures MessageFromJson(MessageJson(m), m.conversationKey) == Some(m)
  {
    MessageJsonFields(m);
  }

  /** `sanitizePartner`: id, name and email, each "" when absent. */
  function PartnerJson(u: Option<User>): (j: Json)
    ensures IsObject(j) && Get(j, "_id") == Some(JStr(if u.Some? then u.value.id else ""))
  {
    var id := if u.Some? then u.value.id else "";
    var fields := [("_id", JStr(id)),
                   ("name", JStr(if u.Some? then u.value.name else "")),
                   ("email", JStr(if u.Some? then u.value.email else ""))];
    FieldAt(fields, 0);
    JObj(fields)
  }

  /** `buildListingSummary`: `null` without a listing. */
  function ListingJson(l: Option<Listing>): (j: Json)
    ensures j == JNull <==> l.None?
    ensures l.Some? ==> IsObject(j) && Get(j, "id") == Some(JStr(l.value.id))
  {
    match l
    case None => JNull
    case Some(v) =>
      var fields := [("id", JStr(v.id)), ("title", JStr(v.title)), ("imageUrl", JStr(v.imageUrl)),
                     ("slug", JStr(v.slug))];
      FieldAt(fields, 0);
      JObj(fields)
  }

  /** The listing document for an optional id. */
  function Lookup(id: Option<string>, items: map<string, Listing>): Option<Listing> {
    if id.Some? && id.value in items then Some(items[id.value]) else None
  }

  /** The other participant of a message, seen from `user`. */
  function PartnerOf(m: Message, user: string): string {
    if m.senderId == user then m.receiverId else m.senderId
  }

  /** One row of the conversation list, before rendering. */
  datatype Row = Row(
    conversationId: string,
    partner: User,
    lastMessage: Message,
    unreadCount: nat,
    listing: Option<Listing>,
    lastActivity: int)

  function RowUnread(r: Row): int { r.unreadCount }
  function NegActivity(r: Row): int { -r.lastActivity }

  predicate PartnerKnown(g: Group, user: string, users: map<string, User>) {
    PartnerOf(g.lastMessage, user) in users
  }

  function RowOf(g: Group, log: seq<Message>, user: string, users: map<string, User>,
                 items: map<string, Listing>): Row
    requires PartnerKnown(g, user, users)
  {
    Row(g.key, users[PartnerOf(g.lastMessage, user)], g.lastMessage, g.unreadCount,
        Lookup(LatestListing(log, g.key), items), g.lastMessage.timestamp)
  }

  /** `rows.map(...)` with the rows whose partner was not found dropped. */
  function BuildRows(groups: seq<Group>, log: seq<Message>, user: string, users: map<string, User>,
                     items: map<string, Listing>): (rows: seq<Row>)
    ensures forall g :: g in groups && PartnerKnown(g, user, users) ==> RowOf(g, log, user, users, items) in rows
    ensures forall r :: r in rows ==>
              exists g :: g in groups && PartnerKnown(g, user, users) && r == RowOf(g, log, user, users, items)
  {
    if groups == [] then []
    else
      var rest := BuildRows(groups[1..], log, user, users, items);
      assert groups == [groups[0]] + groups[1..];
      if PartnerKnown(groups[0], user, users) then [RowOf(groups[0], log, user, users, items)] + rest
      else rest
  }

  /** Dropping rows never raises the total, and drops nothing when every partner is known. */
  lemma {:induction false} BuildRowsTotal(groups: seq<Group>, log: seq<Message>, user: string,
                                          users: map<string, User>, items: map<string, Listing>)
    ensures Sum(BuildRows(groups, log, user, users, items), RowUnread) <= Sum(groups, GroupUnread)
    ensures (forall i :: 0 <= i < |groups| ==> PartnerKnown(groups[i], user, users)) ==>
              Sum(BuildRows(groups, log, user, users, items), RowUnread) == Sum(groups, GroupUnread)
  {
    if groups != [] {
      BuildRowsTotal(groups[1..], log, user, users, items);
      assert forall i :: 1 <= i < |groups| ==> groups[i] == groups[1..][i - 1];
    }
  }

  /** The `/conversations` list: rows sorted by `lastActivity`, most recent first. */
  function ConversationList(log: seq<Message>, user: string, users: map<string, User>,
                            items: map<string, Listing>): seq<Row> {
    SortBy(BuildRows(Groups(log, user), log, user, users, items), NegActivity)
  }

  /** The list comes most recent first. */
  lemma ConversationListSorted(log: seq<Message>, user: string, users: map<string, User>,
                               items: map<string, Listing>)
    ensures SortedBy(ConversationList(log, user, users, items), NegActivity)
  {
  }

  /**
   * A row is a conversation of the user with a known partner: its latest
   * message, the user's unread count in it and the other participant.
   */
  lemma ConversationRowSound(log: seq<Message>, user: string, users: map<string, User>,
                             items: map<string, Listing>, r: Row)
    requires r in ConversationList(log, user, users, items)
    ensures r.lastMessage in log && Involves(user)(r.lastMessage)
    ensures r.lastMessage.conversationKey == r.conversationId && r.lastActivity == r.lastMessage.timestamp
    ensures r.unreadCount == Count(log, UnreadInKey(r.conversationId, user))
    ensures PartnerOf(r.lastMessage, user) in users && r.partner == users[PartnerOf(r.lastMessage, user)]
    ensures forall i :: 0 <= i < |log| && Involves(user)(log[i]) && log[i].conversationKey == r.conversationId ==>
              log[i].timestamp <= r.lastActivity
    ensures r.listing == Lookup(LatestListing(log, r.conversationId), items)
  {
    var groups := Groups(log, user);
    var built := BuildRows(groups, log, user, users, items);
    SortByMembers(built, NegActivity);
    assert r in built;
    var g :| g in groups && PartnerKnown(g, user, users) && r == RowOf(g, log, user, users, items);
    GroupsRows(log, user);
    GroupsLatest(log, user);
    var j :| 0 <= j < |groups| && groups[j] == g;
  }

  /** A conversation of the user without a row is one whose partner is unknown. */
  lemma ConversationRowComplete(log: seq<Message>, user: string, users: map<string, User>,
                                items: map<string, Listing>, k: nat)
    requires k < |log| && Involves(user)(log[k])
    ensures (exists r :: r in ConversationList(log, user, users, items) && r.conversationId == log[k].conversationKey) ||
            (exists g :: g in Groups(log, user) && g.key == log[k].conversationKey && !PartnerKnown(g, user, users))
  {
    var groups := Groups(log, user);
    GroupsCover(log, user);
    var j :| 0 <= j < |groups| && groups[j].key == log[k].conversationKey;
    var g := groups[j];
    if PartnerKnown(g, user, users) {
      var r := RowOf(g, log, user, users, items);
      var built := BuildRows(groups, log, user, users, items);
      assert r in built;
      SortByMembers(built, NegActivity);
      assert r in ConversationList(log, user, users, items);
    }
  }

  function RowId(r: Row): string { r.conversationId }

  /** No two rows share a conversation. */
  lemma ConversationRowsDistinct(log: seq<Message>, user: string, users: map<string, User>,
                                 items: map<string, Listing>)
    ensures DistinctBy(ConversationList(log, user, users, items), RowId)
  {
    var groups := Groups(log, user);
    GroupsCover(log, user);
    BuildRowsDistinct(groups, log, user, users, items);
    SortByDistinctBy(BuildRows(groups, log, user, users, items), NegActivity, RowId);
  }

  lemma {:induction false} BuildRowsDistinct(groups: seq<Group>, log: seq<Message>, user: string,
                                             users: map<string, User>, items: map<string, Listing>)
    requires forall i, j :: 0 <= i < j < |groups| ==> groups[i].key != groups[j].key
    ensures DistinctBy(BuildRows(groups, log, user, users, items), RowId)
  {
    if groups != [] {
      BuildRowsDistinct(groups[1..], log, user, users, items);
      var rest := BuildRows(groups[1..], log, user, users, items);
      forall r | r in rest
        ensures r.conversationId != groups[0].key
      {
        var g :| g in groups[1..] && PartnerKnown(g, user, users) && r == RowOf(g, log, user, users, items);
        var j :| 0 <= j < |groups[1..]| && groups[1..][j] == g;
        assert groups[j + 1] == g;
      }
    }
  }

  /** The total unread count of the list never exceeds the global one and equals it when no partner is missing. */
  lemma ConversationTotal(log: seq<Message>, user: string, users: map<string, User>,
                          items: map<string, Listing>)
    ensures Sum(ConversationList(log, user, users, items), RowUnread) <= UnreadTotal(log, user)
    ensures (forall g :: g in Groups(log, user) ==> PartnerKnown(g, user, users)) ==>
              Sum(ConversationList(log, user, users, items), RowUnread) == UnreadTotal(log, user)
  {
    var groups := Groups(log, user);
    SumSortBy(BuildRows(groups, log, user, users, items), NegActivity, RowUnread);
    BuildRowsTotal(groups, log, user, users, items);
    GroupsTotal(log, user);
  }

  /** One `chat:conversation_update` to `target`, sent only when `partnerId` is a known user. */
  function ConversationUpdate(log: seq<Message>, target: string, partnerId: string, key: string,
                              lastMessage: Json, listing: Option<Listing>,
                              users: map<string, User>): seq<Outbound> {
    if partnerId !in users then []
    else
      [Outbound(target, "chat:conversation_update",
                JObj([("conversationId", JStr(key)),
                      ("lastMessage", lastMessage),
                      ("unreadCount", JNum(Count(log, UnreadInKey(key, target)))),
                      ("partner", PartnerJson(Some(users[partnerId]))),
                      ("listing", ListingJson(listing))]))]
  }

  /** The events of a successful send, in the order the handler issues them. */
  function SendEvents(log: seq<Message>, sender: User, m: Message, users: map<string, User>,
                      items: map<string, Listing>): seq<Outbound> {
    var key := m.conversationKey;
    var listing := Lookup(m.listingId, items);
    [Outbound(m.receiverId, "chat:new_message",
              JObj([("conversationId", JStr(key)),
                    ("message", MessageJson(m)),
                    ("partner", PartnerJson(Some(sender))),
                    ("listing", ListingJson(listing)),
                    ("unreadCount", JNum(Count(log, UnreadInKey(key, m.receiverId))))]))] +
    ConversationUpdate(log, m.receiverId, m.senderId, key, MessageJson(m), listing, users) +
    ConversationUpdate(log, m.senderId, m.receiverId, key, MessageJson(m), listing, users)
  }

  /**
   * A conversation update goes to its target, exactly when the partner is
   * known, carrying the key, the last message, the target's count, the
   * partner's public fields and the listing summary.
   */
  lemma ConversationUpdateSpec(log: seq<Message>, target: string, partnerId: string, key: string,
                               lastMessage: Json, listing: Option<Listing>, users: map<string, User>)
    ensures var u := ConversationUpdate(log, target, partnerId, key, lastMessage, listing, users);
      |u| == (if partnerId in users then 1 else 0) &&
      forall i :: 0 <= i < |u| ==>
        u[i].target == target && u[i].event == "chat:conversation_update" && IsObject(u[i].data) &&
        Get(u[i].data, "conversationId") == Some(JStr(key)) &&
        Get(u[i].data, "lastMessage") == Some(lastMessage) &&
        Get(u[i].data, "unreadCount") == Some(JNum(Count(log, UnreadInKey(key, target)))) &&
        Get(u[i].data, "partner") == Some(PartnerJson(Some(users[partnerId]))) &&
        Get(u[i].data, "listing") == Some(ListingJson(listing))
  {
    if partnerId in users {
      var data := ConversationUpdate(log, target, partnerId, key, lastMessage, listing, users)[0].data;
      FieldAt(data.fields, 0);
      FieldAt(data.fields, 1);
      FieldAt(data.fields, 2);
      FieldAt(data.fields, 3);
      FieldAt(data.fields, 4);
    }
  }

  /**
   * The receiver gets exactly one `chat:new_message`; each party gets a
   * `chat:conversation_update` exactly when its partner is a known user; and
   * every event carries its own target's unread count in the conversation.
   */
  lemma SendEventsSpec(log: seq<Message>, sender: User, m: Message, users: map<string, User>,
                       items: map<string, Listing>)
    ensures var sent := SendEvents(log, sender, m, users, items);
      |sent| >= 1 && sent[0].target == m.receiverId && sent[0].event == "chat:new_message" &&
      (forall i :: 1 <= i < |sent| ==> sent[i].event == "chat:conversation_update") &&
      ((exists i :: 1 <= i < |sent| && sent[i].target == m.receiverId) <==> m.senderId in users) &&
      ((exists i :: 1 <= i < |sent| && sent[i].target == m.senderId) <==> m.receiverId in users) &&
      (forall i :: 0 <= i < |sent| ==>
         IsObject(sent[i].data) &&
         Get(sent[i].data, "unreadCount") == Some(JNum(Count(log, UnreadInKey(m.conversationKey, sent[i].target)))))
  {
    var key := m.conversationKey;
    var listing := Lookup(m.listingId, items);
    var sent := SendEvents(log, sender, m, users, items);
    var a := ConversationUpdate(log, m.receiverId, m.senderId, key, MessageJson(m), listing, users);
    var b := ConversationUpdate(log, m.senderId, m.receiverId, key, MessageJson(m), listing, users);
    ConversationUpdateSpec(log, m.receiverId, m.senderId, key, MessageJson(m), listing, users);
    ConversationUpdateSpec(log, m.senderId, m.receiverId, key, MessageJson(m), listing, users);
    assert sent == [sent[0]] + a + b;
    assert forall i :: 1 <= i < |sent| ==> sent[i] == (a + b)[i - 1];
    FieldAt(sent[0].data.fields, 4);
    if m.senderId in users {
      assert sent[1] == a[0];
    }
    if m.receiverId in users {
      assert sent[|sent| - 1] == b[0];
    }
  }

  /**
   * The payloads of a send: the receiver's `chat:new_message` carries the key,
   * the formatted message, the sender's public fields and the listing summary;
   * each conversation update carries the key, the formatted message as the last
   * message, the target's partner and the same listing summary.
   */
  lemma SendEventsPayload(log: seq<Message>, sender: User, m: Message, users: map<string, User>,
                          items: map<string, Listing>)
    ensures var sent := SendEvents(log, sender, m, users, items);
      var listing := ListingJson(Lookup(m.listingId, items));
      IsObject(sent[0].data) &&
      Get(sent[0].data, "conversationId") == Some(JStr(m.conversationKey)) &&
      Get(sent[0].data, "message") == Some(MessageJson(m)) &&
      Get(sent[0].data, "partner") == Some(PartnerJson(Some(sender))) &&
      Get(sent[0].data, "listing") == Some(listing) &&
      forall i :: 1 <= i < |sent| ==>
        IsObject(sent[i].data) &&
        Get(sent[i].data, "conversationId") == Some(JStr(m.conversationKey)) &&
        Get(sent[i].data, "lastMessage") == Some(MessageJson(m)) &&
        Get(sent[i].data, "listing") == Some(listing) &&
        (sent[i].target == m.receiverId && m.senderId in users ==>
           Get(sent[i].data, "partner") == Some(PartnerJson(Some(users[m.senderId])))) &&
        (sent[i].target == m.senderId && m.receiverId in users ==>
           Get(sent[i].data, "partner") == Some(PartnerJson(Some(users[m.receiverId]))))
  {
    var key := m.conversationKey;
    var listing := Lookup(m.listingId, items);
    var sent := SendEvents(log, sender, m, users, items);
    var a := ConversationUpdate(log, m.receiverId, m.senderId, key, MessageJson(m), listing, users);
    var b := ConversationUpdate(log, m.senderId, m.receiverId, key, MessageJson(m), listing, users);
    ConversationUpdateSpec(log, m.receiverId, m.senderId, key, MessageJson(m), listing, users);
    ConversationUpdateSpec(log, m.senderId, m.receiverId, key, MessageJson(m), listing, users);
    assert sent == [sent[0]] + a + b;
    FieldAt(sent[0].data.fields, 0);
    FieldAt(sent[0].data.fields, 1);
    FieldAt(sent[0].data.fields, 2);
    FieldAt(sent[0].data.fields, 3);
    forall i | 1 <= i < |sent|
      ensures sent[i] == (if i - 1 < |a| then a[i - 1] else b[i - 1 - |a|])
    {
    }
  }

  /** The message has both participants and is keyed by their unordered pair. */
  predicate Keyed(m: Message) {
    m.senderId != "" && m.receiverId != "" &&
    Some(m.conversationKey) == BuildConversationId(m.senderId, m.receiverId)
  }

  /** Every stored message is keyed by its participants. */
  ghost predicate WellKeyed(log: seq<Message>) {
    forall i :: 0 <= i < |log| ==> Keyed(log[i])
  }

  lemma WellKeyedAppend(log: seq<Message>, m: Message)
    requires WellKeyed(log) && Keyed(m)
    ensures WellKeyed(log + [m])
  {
    assert forall i :: 0 <= i < |log| ==> (log + [m])[i] == log[i];
  }

  lemma {:induction false} WellKeyedMarkedRead(log: seq<Message>, key: string, user: string)
    requires WellKeyed(log)
    ensures WellKeyed(MarkedRead(log, key, user))
  {
    forall i | 0 <= i < |log|
      ensures Keyed(MarkedRead(log, key, user)[i])
    {
      MarkedReadAt(log, key, user, i);
    }
  }

  /** A log that agrees with `MarkOne` at every position is the marked log. */
  lemma MarkedReadPointwise(before: seq<Message>, after: seq<Message>, key: string, user: string)
    requires |after| == |before|
    requires forall k :: 0 <= k < |after| ==> after[k] == MarkOne(key, user, before[k])
    ensures after == MarkedRead(before, key, user)
  {
    forall k | 0 <= k < |after|
      ensures after[k] == MarkedRead(before, key, user)[k]
    {
      MarkedReadAt(before, key, user, k);
    }
  }

  /** Two stored messages between the same two people, in either direction, share one key. */
  lemma SameKeyEitherDirection(log: seq<Message>, i: nat, j: nat)
    requires WellKeyed(log) && i < |log| && j < |log|
    requires {log[i].senderId, log[i].receiverId} == {log[j].senderId, log[j].receiverId}
    ensures log[i].conversationKey == log[j].conversationKey
  {
    var a, b := log[i], log[j];
    assert Keyed(a) && Keyed(b);
    if a.senderId != b.senderId {
      assert a.senderId == b.receiverId && a.receiverId == b.senderId;
      Symmetric(a.senderId, a.receiverId);
    } else {
      assert a.receiverId == b.receiverId;
    }
  }

  /** The pass `updateMany` makes over the collection: marks each matching document and counts the matches. */
  method MarkAll(before: seq<Message>, key: string, user: string) returns (docs: seq<Message>, updated: nat)
    ensures docs == MarkedRead(before, key, user)
    ensures updated == Count(before, UnreadInKey(key, user))
  {
    var p := UnreadInKey(key, user);
    docs := before;
    updated := 0;
    var i := 0;
    while i < |docs|
      invariant 0 <= i <= |docs| == |before|
      invariant forall k :: 0 <= k < i ==> docs[k] == MarkOne(key, user, before[k])
      invariant forall k :: i <= k < |docs| ==> docs[k] == before[k]
      invariant updated == CountTo(before, i, p)
    {
      if p(before[i]) {
        docs := docs[i := before[i].(readStatus := true)];
        updated := updated + 1;
      }
      i := i + 1;
    }
    CountToPrefix(before, i, p);
    assert before[..i] == before;
    MarkedReadPointwise(before, docs, key, user);
  }

  /** The message log behind the chat routes. */
  class MessageStore {
    var log: seq<Message>
    const isValidId: string -> bool

    constructor (isValidId: string -> bool)
      ensures log == [] && this.isValidId == isValidId
    {
      log := [];
      this.isValidId := isValidId;
    }

    ghost predicate Valid()
      reads this
    {
      WellKeyed(log)
    }

    /** `GET /unread-count`. */
    method UnreadCount(user: User) returns (n: nat)
      ensures n == UnreadTotal(log, user.id)
    {
      n := Count(log, UnreadTo(user.id));
    }

    /** `GET /conversations`: the rows and the sum of their unread counts. */
    method Conversations(user: User, users: map<string, User>, items: map<string, Listing>)
      returns (rows: seq<Row>, total: int)
      ensures rows == ConversationList(log, user.id, users, items)
      ensures total == Sum(rows, RowUnread)
      ensures total <= UnreadTotal(log, user.id)
    {
      rows := ConversationList(log, user.id, users, items);
      total := Sum(rows, RowUnread);
      ConversationTotal(log, user.id, users, items);
    }

    /** `GET /messages?partnerId=`: the thread oldest first and the latest listing named in it. */
    method FetchThread(user: User, partnerId: string, items: map<string, Listing>)
      returns (status: int, conversationId: Option<string>, messages: seq<Message>, listing: Option<Listing>)
      requires user.id != ""
      ensures (partnerId == "" || !isValidId(partnerId)) <==> status == 400
      ensures status == 400 ==> messages == [] && listing.None?
      ensures status != 400 ==>
                status == 200 && conversationId == BuildConversationId(user.id, partnerId) &&
                conversationId.Some? &&
                messages == Thread(log, conversationId.value) &&
                listing == Lookup(LatestListing(log, conversationId.value), items)
    {
      if partnerId == "" || !isValidId(partnerId) {
        return 400, None, [], None;
      }
      conversationId := BuildConversationId(user.id, partnerId);
      var key := conversationId.value;
      messages := Thread(log, key);
      listing := Lookup(LatestListing(log, key), items);
      status := 200;
    }

    /** `POST /typing`: one `chat:typing` event to the partner; the store is not touched. */
    method Typing(user: User, partnerId: string, isTyping: Option<Json>, reg: Registry)
      returns (status: int, sent: seq<Outbound>)
      requires user.id != "" && reg.Valid()
      modifies reg.Channels()
      ensures (partnerId == "" || !isValidId(partnerId)) <==> status == 400
      ensures status == 400 ==> sent == []
      ensures status != 400 ==>
                status == 200 &&
                sent == [Outbound(partnerId, "chat:typing",
                                  JObj([("conversationId", JStr(BuildConversationId(user.id, partnerId).value)),
                                        ("from", PartnerJson(Some(user))),
                                        ("isTyping", JBool(Truthy(isTyping)))]))]
      ensures forall u, i :: u in reg.clients && 0 <= i < |reg.clients[u]| ==>
                reg.clients[u][i].res.log ==
                old(reg.clients[u][i].res.log) +
                (if reg.clients[u][i].res.broken then [] else reg.FramesFor(sent, u))
    {
      if partnerId == "" || !isValidId(partnerId) {
        return 400, [];
      }
      var o := Outbound(partnerId, "chat:typing",
                        JObj([("conversationId", JStr(BuildConversationId(user.id, partnerId).value)),
                              ("from", PartnerJson(Some(user))),
                              ("isTyping", JBool(Truthy(isTyping)))]));
      reg.SendEvent(o.target, o.event, o.data);
      sent := [o];
      assert sent[..0] == [];
      assert forall u :: reg.FramesFor(sent, u) == if o.target == u then Frames(o.event, reg.stringify(o.data)) else [];
      status := 200;
    }

    /** `POST /mark-read`: marks the caller's unread messages of the conversation and counts them. */
    method MarkRead(user: User, partnerId: string) returns (status: int, updated: nat)
      requires Valid() && user.id != ""
      modifies this
      ensures Valid()
      ensures (partnerId == "" || !isValidId(partnerId)) <==> status == 400
      ensures status == 400 ==> updated == 0 && log == old(log)
      ensures status != 400 ==>
                var key := BuildConversationId(user.id, partnerId).value;
                status == 200 &&
                log == MarkedRead(old(log), key, user.id) &&
                updated == Count(old(log), UnreadInKey(key, user.id))
    {
      if partnerId == "" || !isValidId(partnerId) {
        return 400, 0;
      }
      var key := BuildConversationId(user.id, partnerId).value;
      updated := UpdateMany(key, user.id);
      status := 200;
    }

    /** `updateMany(UnreadInKey(key, user), { read_status: true })`, returning `modifiedCount`. */
    method UpdateMany(key: string, user: string) returns (updated: nat)
      requires Valid()
      modifies this
      ensures Valid()
      ensures log == MarkedRead(old(log), key, user)
      ensures updated == Count(old(log), UnreadInKey(key, user))
    {
      var docs;
      docs, updated := MarkAll(log, key, user);
      WellKeyedMarkedRead(log, key, user);
      log := docs;
    }

    /**
     * The validating and storing half of `POST /messages`: 400 for a missing
     * receiver or blank content, 400 for a malformed receiver id, 404 for an
     * unknown receiver, 500 when the new document fails validation; otherwise
     * the message is appended, keyed by the two participants.
     */
    method Persist(user: User, receiverId: string, content: string, listingId: string,
                   users: map<string, User>, freshId: string, now: int)
      returns (status: int, created: Option<Message>)
      requires Valid() && user.id != ""
      modifies this
      ensures Valid()
      ensures (receiverId == "" || Trim(content) == "") ==> status == 400
      ensures receiverId != "" && Trim(content) != "" && !isValidId(receiverId) ==> status == 400
      ensures receiverId != "" && Trim(content) != "" && isValidId(receiverId) && receiverId !in users ==>
                status == 404
      ensures status != 201 ==> log == old(log) && created.None?
      ensures status == 201 <==>
                receiverId != "" && Trim(content) != "" && isValidId(receiverId) && receiverId in users &&
                freshId != ""
      ensures status == 201 ==>
                created.Some? && log == old(log) + [created.value] &&
                var m := created.value;
                m.messageId == freshId && m.senderId == user.id && m.receiverId == receiverId &&
                m.content == Trim(content) && !m.readStatus && m.timestamp == now &&
                Some(m.conversationKey) == BuildConversationId(user.id, receiverId) &&
                m.listingId == (if listingId != "" && isValidId(listingId) then Some(listingId) else None)
    {
      created := None;
      if receiverId == "" || Trim(content) == "" {
        return 400, created;
      }
      if !isValidId(receiverId) {
        return 400, created;
      }
      if receiverId !in users {
        return 404, created;
      }
      var key := BuildConversationId(user.id, receiverId);
      var listing := if listingId != "" && isValidId(listingId) then Some(listingId) else None;
      TrimIdempotent(content);
      var r := Create(ChatFields(user.id, receiverId, Trim(content), listing, Some(false), key.value),
                      freshId, now);
      if r.None? {
        return 500, created;
      }
      var m := r.value;
      assert Keyed(m);
      WellKeyedAppend(log, m);
      log := log + [m];
      created := r;
      status := 201;
    }

    /**
     * `POST /messages`: stores the message, then emits the receiver's
     * `chat:new_message` and the two `chat:conversation_update` events.
     */
    method PostMessage(user: User, receiverId: string, content: string, listingId: string,
                       users: map<string, User>, items: map<string, Listing>,
                       freshId: string, now: int, reg: Registry)
      returns (status: int, created: Option<Message>, sent: seq<Outbound>)
      requires Valid() && reg.Valid() && user.id != ""
      modifies this, reg.Channels()
      ensures Valid()
      ensures status != 201 ==> log == old(log) && created.None? && sent == []
      ensures status == 201 ==>
                created.Some? && log == old(log) + [created.value] &&
                sent == SendEvents(log, user, created.value, users, items)
      ensures forall u, i :: u in reg.clients && 0 <= i < |reg.clients[u]| ==>
                reg.clients[u][i].res.log ==
                old(reg.clients[u][i].res.log) +
                (if reg.clients[u][i].res.broken then [] else reg.FramesFor(sent, u))
    {
      status, created := Persist(user, receiverId, content, listingId, users, freshId, now);
      if status != 201 {
        return status, created, [];
      }
      sent := SendEvents(log, user, created.value, users, items);
      reg.SendBatch(sent);
    }
  }
}
