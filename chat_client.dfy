/**
 * The browser side of the chat: the conversation list the chat context keeps,
 * the updates that requests and stream events apply to it, the total unread
 * badge, and the typing indicator with its expiry timers. Values that arrive
 * from the server are `Json`; inside `Option`, `None` is `undefined`/`null`.
 */
module ChatClient {
  import opened Wrappers
  import opened Strings
  import opened Sorting
  import opened Json
  import opened ConversationKey
  import opened ChatModel
  import ChatQueries
  import ChatRoutes

  /** One entry of the conversation list; `None` is `null`. `lastActivity` is an instant in ms. */
  datatype Conv = Conv(
    conversationId: string,
    partner: Json,
    lastMessage: Option<Json>,
    unreadCount: int,
    listing: Option<Json>,
    lastActivity: int)

  /** The argument of `upsertConversation`; `None` is a property left undefined. */
  datatype Payload = Payload(
    conversationId: string,
    partner: Option<Json>,
    lastMessage: Option<Json>,
    unreadCount: Option<Json>,
    listing: Option<Json>)

  function ConvId(c: Conv): string { c.conversationId }
  function Unread(c: Conv): int { c.unreadCount }

  /** The sort key of `new Date(b.lastActivity) - new Date(a.lastActivity)`: most recent first. */
  function Recency(c: Conv): int { -c.lastActivity }

  /** `v == null`: what `??` skips. */
  predicate Nullish(v: Option<Json>) {
    v.None? || v == Some(JNull)
  }

  /** The placeholder partner `{ _id, name }` of an entry nobody has described yet. */
  function DefaultPartner(id: string, name: string): Json {
    JObj([("_id", JStr(id)), ("name", JStr(name))])
  }

  /** `lastMessage?.timestamp` when it is an instant. */
  function TimestampOf(v: Option<Json>): Option<int> {
    if v.Some? && IsObject(v.value) then
      match Get(v.value, "timestamp")
      case Some(JTime(t)) => Some(t)
      case _ => None
    else None
  }

  /** `prev.find(conv => conv.conversationId === id)`. */
  function Find(convs: seq<Conv>, id: string): (r: Option<Conv>)
    ensures r.Some? ==> r.value in convs && r.value.conversationId == id
    ensures r.None? <==> forall i :: 0 <= i < |convs| ==> convs[i].conversationId != id
  {
    if convs == [] then None
    else if convs[0].conversationId == id then Some(convs[0])
    else Find(convs[1..], id)
  }

  /** The entry `upsertConversation` builds from a payload and the existing entry. */
  function Updated(p: Payload, existing: Option<Conv>, now: int): Conv {
    var id := p.conversationId;
    Conv(id,
         if Truthy(p.partner) then p.partner.value
         else if existing.Some? && Truthy(Some(existing.value.partner)) then existing.value.partner
         else DefaultPartner(id, "Chat"),
         if Truthy(p.lastMessage) then p.lastMessage
         else if existing.Some? && Truthy(existing.value.lastMessage) then existing.value.lastMessage
         else None,
         match p.unreadCount
         case Some(JNum(n)) => n
         case _ => if existing.Some? then existing.value.unreadCount else 0,
         if !Nullish(p.listing) then p.listing
         else if existing.Some? && !Nullish(existing.value.listing) then existing.value.listing
         else None,
         match TimestampOf(p.lastMessage)
         case Some(t) => t
         case None => if existing.Some? then existing.value.lastActivity else now)
  }

  /** `prev.map(conv => conv.conversationId === id ? u : conv)`. */
  function Replace(convs: seq<Conv>, id: string, u: Conv): (r: seq<Conv>)
    ensures |r| == |convs|
    ensures forall i :: 0 <= i < |r| ==> r[i] == if convs[i].conversationId == id then u else convs[i]
  {
    if convs == [] then []
    else [if convs[0].conversationId == id then u else convs[0]] + Replace(convs[1..], id, u)
  }

  /** Replaces the entry with `u`'s id, or puts `u` in front when there is none. */
  function Place(convs: seq<Conv>, u: Conv): seq<Conv> {
    if Find(convs, u.conversationId).Some? then Replace(convs, u.conversationId, u) else [u] + convs
  }

  /** Place, then the stable re-sort by recency both list updaters end with. */
  function Merge(convs: seq<Conv>, u: Conv): seq<Conv> {
    SortBy(Place(convs, u), Recency)
  }

  /** `upsertConversation`: nothing without a conversation id. */
  function Upsert(convs: seq<Conv>, p: Payload, now: int): seq<Conv> {
    if p.conversationId == "" then convs
    else Merge(convs, Updated(p, Find(convs, p.conversationId), now))
  }

  /** The number of entries equal to `c`, outside the id being replaced, does not change. */
  lemma ReplaceCounts(convs: seq<Conv>, u: Conv, c: Conv)
    requires c.conversationId != u.conversationId
    ensures multiset(Replace(convs, u.conversationId, u))[c] == multiset(convs)[c]
  {
    var r := Replace(convs, u.conversationId, u);
    forall i | 0 <= i < |r| ensures r[i] == c <==> convs[i] == c {
    }
    SamePositionsCount(r, convs, c);
  }

  /** Replacing by an entry with the same id keeps every position's id. */
  lemma ReplaceIds(convs: seq<Conv>, u: Conv)
    ensures forall i :: 0 <= i < |convs| ==> ConvId(Replace(convs, u.conversationId, u)[i]) == ConvId(convs[i])
  {
  }

  /** Replacing by an entry with the same id keeps the ids distinct. */
  lemma ReplaceKeepsDistinct(convs: seq<Conv>, u: Conv)
    requires DistinctBy(convs, ConvId)
    ensures DistinctBy(Replace(convs, u.conversationId, u), ConvId)
  {
    var q := Replace(convs, u.conversationId, u);
    ReplaceIds(convs, u);
    forall i, j | 0 <= i < j < |q| ensures ConvId(q[i]) != ConvId(q[j]) {
      assert ConvId(convs[i]) != ConvId(convs[j]);
    }
  }

  /** Replacing an id the list holds puts `u` in its place and keeps the ids distinct. */
  lemma ReplaceShape(convs: seq<Conv>, u: Conv)
    requires Find(convs, u.conversationId).Some?
    ensures var q := Replace(convs, u.conversationId, u);
      u in q && (DistinctBy(convs, ConvId) ==> DistinctBy(q, ConvId))
  {
    var c := Find(convs, u.conversationId).value;
    var k :| 0 <= k < |convs| && convs[k] == c;
    assert Replace(convs, u.conversationId, u)[k] == u;
    if DistinctBy(convs, ConvId) {
      ReplaceKeepsDistinct(convs, u);
    }
  }

  /** Putting `u` in front of a list without its id keeps the ids distinct. */
  lemma PrependShape(convs: seq<Conv>, u: Conv)
    requires Find(convs, u.conversationId).None?
    ensures var q := [u] + convs;
      (forall i :: 0 <= i < |q| && q[i].conversationId == u.conversationId ==> i == 0) &&
      (DistinctBy(convs, ConvId) ==> DistinctBy(q, ConvId))
  {
    var q := [u] + convs;
    forall i | 0 < i < |q| ensures q[i].conversationId != u.conversationId {
      assert q[i] == convs[i - 1];
    }
    if DistinctBy(convs, ConvId) {
      forall i, j | 0 <= i < j < |q| ensures ConvId(q[i]) != ConvId(q[j]) {
        assert q[j] == convs[j - 1];
        if i > 0 {
          assert q[i] == convs[i - 1];
        }
      }
    }
  }

  /** Placing `u` keeps the number of every entry with another id. */
  lemma PlaceCounts(convs: seq<Conv>, u: Conv, c: Conv)
    requires c.conversationId != u.conversationId
    ensures multiset(Place(convs, u))[c] == multiset(convs)[c]
  {
    if Find(convs, u.conversationId).Some? {
      ReplaceCounts(convs, u, c);
    } else {
      assert Place(convs, u) == [u] + convs;
    }
  }

  lemma PlaceShape(convs: seq<Conv>, u: Conv)
    ensures var q := Place(convs, u);
      u in q &&
      (forall i :: 0 <= i < |q| && q[i].conversationId == u.conversationId ==> q[i] == u) &&
      |q| == |convs| + (if Find(convs, u.conversationId).None? then 1 else 0) &&
      (DistinctBy(convs, ConvId) ==> DistinctBy(q, ConvId))
  {
    if Find(convs, u.conversationId).Some? {
      ReplaceShape(convs, u);
    } else {
      PrependShape(convs, u);
    }
  }

  /**
   * A merged list is sorted most recent first, holds `u`, holds nothing else
   * with `u`'s id, keeps every other entry as often as before, grows only when
   * the id is new, and keeps the ids distinct.
   */
  lemma MergeSpec(convs: seq<Conv>, u: Conv)
    ensures var r := Merge(convs, u);
      SortedBy(r, Recency) &&
      u in r &&
      (forall i :: 0 <= i < |r| && r[i].conversationId == u.conversationId ==> r[i] == u) &&
      (forall c: Conv :: c.conversationId != u.conversationId ==> multiset(r)[c] == multiset(convs)[c]) &&
      |r| == |convs| + (if Find(convs, u.conversationId).None? then 1 else 0) &&
      (DistinctBy(convs, ConvId) ==> DistinctBy(r, ConvId))
  {
    var id := u.conversationId;
    var q := Place(convs, u);
    var r := Merge(convs, u);
    PlaceShape(convs, u);
    assert multiset(r) == multiset(q);
    assert u in multiset(q);
    forall i | 0 <= i < |r| && r[i].conversationId == id ensures r[i] == u {
      assert r[i] in multiset(q);
    }
    forall c: Conv | c.conversationId != id ensures multiset(r)[c] == multiset(convs)[c] {
      PlaceCounts(convs, u, c);
    }
    assert |r| == |multiset(r)| == |q|;
    if DistinctBy(convs, ConvId) {
      SortByDistinctBy(q, Recency, ConvId);
    }
  }

  /** A merged list holds `u`, and every entry with `u`'s id is `u`. */
  lemma MergeEntry(convs: seq<Conv>, u: Conv)
    ensures var r := Merge(convs, u);
      (exists i :: 0 <= i < |r| && r[i].conversationId == u.conversationId) &&
      forall i :: 0 <= i < |r| && r[i].conversationId == u.conversationId ==> r[i] == u
  {
    MergeSpec(convs, u);
    var r := Merge(convs, u);
    var k :| 0 <= k < |r| && r[k] == u;
  }

  /** Sorting an already sorted list changes nothing (the sort is stable). */
  lemma {:induction false} SortBySorted(s: seq<Conv>)
    requires SortedBy(s, Recency)
    ensures SortBy(s, Recency) == s
  {
    if s != [] {
      SortBySorted(s[1..]);
      assert s == [s[0]] + s[1..];
    }
  }

  /** Replacing entries by what they already are changes nothing. */
  lemma ReplaceSame(convs: seq<Conv>, u: Conv)
    requires forall i :: 0 <= i < |convs| && convs[i].conversationId == u.conversationId ==> convs[i] == u
    ensures Replace(convs, u.conversationId, u) == convs
  {
  }

  /**
   * `upsertConversation` leaves the list alone without an id; otherwise the
   * list is sorted, holds the merged entry and nothing else with that id,
   * keeps every other entry, and grows by one exactly for a new id.
   */
  lemma UpsertSpec(convs: seq<Conv>, p: Payload, now: int)
    ensures p.conversationId == "" ==> Upsert(convs, p, now) == convs
    ensures p.conversationId != "" ==>
      var id := p.conversationId;
      var u := Updated(p, Find(convs, id), now);
      var r := Upsert(convs, p, now);
      SortedBy(r, Recency) &&
      Find(r, id) == Some(u) &&
      (forall i :: 0 <= i < |r| && r[i].conversationId == id ==> r[i] == u) &&
      (forall c: Conv :: c.conversationId != id ==> multiset(r)[c] == multiset(convs)[c]) &&
      |r| == |convs| + (if Find(convs, id).None? then 1 else 0) &&
      (DistinctBy(convs, ConvId) ==> DistinctBy(r, ConvId))
  {
    if p.conversationId != "" {
      var u := Updated(p, Find(convs, p.conversationId), now);
      assert Upsert(convs, p, now) == Merge(convs, u);
      MergeSpec(convs, u);
      FindOnly(Merge(convs, u), u);
    }
  }

  /** In a list holding `u` and nothing else with its id, finding the id gives `u`. */
  lemma FindOnly(r: seq<Conv>, u: Conv)
    requires u in r
    requires forall i :: 0 <= i < |r| && r[i].conversationId == u.conversationId ==> r[i] == u
    ensures Find(r, u.conversationId) == Some(u)
  {
    var k :| 0 <= k < |r| && r[k] == u;
    var f := Find(r, u.conversationId);
    var j :| 0 <= j < |r| && r[j] == f.value;
  }

  /** Upserting the same payload twice is the same as once. */
  lemma UpsertIdempotent(convs: seq<Conv>, p: Payload, now: int)
    ensures Upsert(Upsert(convs, p, now), p, now) == Upsert(convs, p, now)
  {
    var id := p.conversationId;
    if id != "" {
      var u := Updated(p, Find(convs, id), now);
      var r := Upsert(convs, p, now);
      UpsertSpec(convs, p, now);
      assert Updated(p, Some(u), now) == u;
      assert Upsert(r, p, now) == SortBy(Replace(r, id, u), Recency);
      ReplaceSame(r, u);
      SortBySorted(r);
    }
  }

  /**
   * The upsert `fetchMessages` issues, with only an id and a listing, sets the
   * listing of an existing entry and keeps its partner, last message, count
   * and activity.
   */
  lemma UpsertListingOnly(convs: seq<Conv>, id: string, listing: Json, now: int)
    requires id != "" && listing != JNull
    requires Find(convs, id).Some?
    ensures var e := Find(convs, id).value;
      Find(Upsert(convs, Payload(id, None, None, None, Some(listing)), now), id) ==
        Some(e.(listing := Some(listing),
                partner := if Truthy(Some(e.partner)) then e.partner else DefaultPartner(id, "Chat"),
                lastMessage := if Truthy(e.lastMessage) then e.lastMessage else None))
  {
    UpsertSpec(convs, Payload(id, None, None, None, Some(listing)), now);
  }

  /**
   * `conversations.reduce((sum, conv) => sum + (conv.unreadCount || 0), 0)`; an
   * entry's count is always a number here, so `|| 0` changes nothing.
   */
  function TotalUnread(convs: seq<Conv>): int {
    Sum(convs, Unread)
  }

  /** Replacing the only entry with an id is a point update. */
  lemma ReplaceDistinct(convs: seq<Conv>, u: Conv, k: nat)
    requires DistinctBy(convs, ConvId) && k < |convs| && convs[k].conversationId == u.conversationId
    ensures Replace(convs, u.conversationId, u) == convs[k := u]
  {
    var r := Replace(convs, u.conversationId, u);
    forall i | 0 <= i < |r| ensures r[i] == convs[k := u][i] {
      if i != k {
        assert ConvId(convs[i]) != ConvId(convs[k]);
      }
    }
  }

  /** An upsert changes the badge by the difference between the new and the old count of that entry. */
  lemma UpsertTotal(convs: seq<Conv>, p: Payload, now: int)
    requires DistinctBy(convs, ConvId) && p.conversationId != ""
    ensures var e := Find(convs, p.conversationId);
      TotalUnread(Upsert(convs, p, now)) ==
        TotalUnread(convs) - (if e.Some? then e.value.unreadCount else 0) +
        Updated(p, e, now).unreadCount
  {
    var id := p.conversationId;
    var e := Find(convs, id);
    var u := Updated(p, e, now);
    var q := Place(convs, u);
    SumSortBy(q, Recency, Unread);
    if e.Some? {
      var k :| 0 <= k < |convs| && convs[k] == e.value;
      ReplaceDistinct(convs, u, k);
      SumUpdate(convs, k, u, Unread);
    } else {
      assert q == [u] + convs;
      assert q[1..] == convs;
    }
  }

  /** `conv.partner._id === partnerId`. */
  predicate HasPartner(c: Conv, partnerId: string) {
    IsObject(c.partner) && Get(c.partner, "_id") == Some(JStr(partnerId))
  }

  function OfPartner(partnerId: string): Conv -> bool {
    (c: Conv) => HasPartner(c, partnerId)
  }

  /** Zeroes the count of every entry with that partner. */
  function ClearUnread(convs: seq<Conv>, partnerId: string): (r: seq<Conv>)
    ensures |r| == |convs|
  {
    if convs == [] then []
    else
      [if HasPartner(convs[0], partnerId) then convs[0].(unreadCount := 0) else convs[0]] +
      ClearUnread(convs[1..], partnerId)
  }

  /** `markAsRead`: after a successful request (`ok`), the matching entries read 0; without an id nothing happens. */
  function MarkAsRead(convs: seq<Conv>, partnerId: string, ok: bool): seq<Conv> {
    if partnerId == "" || !ok then convs else ClearUnread(convs, partnerId)
  }

  lemma {:induction false} ClearUnreadAt(convs: seq<Conv>, partnerId: string, i: nat)
    requires i < |convs|
    ensures ClearUnread(convs, partnerId)[i] ==
      if HasPartner(convs[i], partnerId) then convs[i].(unreadCount := 0) else convs[i]
  {
    if i > 0 {
      ClearUnreadAt(convs[1..], partnerId, i - 1);
    }
  }

  /**
   * Only the counts of the partner's entries change, and they become 0; every
   * other field, and every other entry, is as before.
   */
  lemma MarkAsReadSpec(convs: seq<Conv>, partnerId: string, ok: bool)
    ensures var r := MarkAsRead(convs, partnerId, ok);
      |r| == |convs| &&
      forall i :: 0 <= i < |r| ==>
        r[i].(unreadCount := convs[i].unreadCount) == convs[i] &&
        (partnerId != "" && ok && HasPartner(convs[i], partnerId) ==> r[i].unreadCount == 0) &&
        (!(partnerId != "" && ok && HasPartner(convs[i], partnerId)) ==> r[i] == convs[i])
  {
    if partnerId != "" && ok {
      forall i | 0 <= i < |convs| {
        ClearUnreadAt(convs, partnerId, i);
      }
    }
  }

  /** The order of the list and its ids are untouched. */
  lemma MarkAsReadKeepsOrder(convs: seq<Conv>, partnerId: string, ok: bool)
    ensures SortedBy(convs, Recency) ==> SortedBy(MarkAsRead(convs, partnerId, ok), Recency)
    ensures DistinctBy(convs, ConvId) ==> DistinctBy(MarkAsRead(convs, partnerId, ok), ConvId)
  {
    MarkAsReadSpec(convs, partnerId, ok);
    var r := MarkAsRead(convs, partnerId, ok);
    assert forall i :: 0 <= i < |r| ==>
      r[i].lastActivity == convs[i].lastActivity && r[i].conversationId == convs[i].conversationId;
  }

  lemma MarkAsReadIdempotent(convs: seq<Conv>, partnerId: string, ok: bool)
    ensures MarkAsRead(MarkAsRead(convs, partnerId, ok), partnerId, ok) == MarkAsRead(convs, partnerId, ok)
  {
    var r := MarkAsRead(convs, partnerId, ok);
    MarkAsReadSpec(convs, partnerId, ok);
    MarkAsReadSpec(r, partnerId, ok);
    var r2 := MarkAsRead(r, partnerId, ok);
    forall i | 0 <= i < |r| ensures r2[i] == r[i] {
      assert HasPartner(r[i], partnerId) == HasPartner(convs[i], partnerId);
    }
  }

  lemma {:induction false} ClearUnreadTotal(convs: seq<Conv>, partnerId: string)
    ensures TotalUnread(ClearUnread(convs, partnerId)) ==
      TotalUnread(convs) - Sum(Filter(convs, OfPartner(partnerId)), Unread)
  {
    if convs != [] {
      ClearUnreadTotal(convs[1..], partnerId);
    }
  }

  /** The badge drops by exactly the partner's unread counts. */
  lemma MarkAsReadTotal(convs: seq<Conv>, partnerId: string, ok: bool)
    ensures TotalUnread(MarkAsRead(convs, partnerId, ok)) ==
      TotalUnread(convs) - (if partnerId != "" && ok then Sum(Filter(convs, OfPartner(partnerId)), Unread) else 0)
  {
    if partnerId != "" && ok {
      ClearUnreadTotal(convs, partnerId);
    }
  }

  /** The client's state: the list, the open thread and the selected partner ("" for none). */
  datatype ClientState = ClientState(conversations: seq<Conv>, messages: seq<Json>, activePartnerId: string)

  /** The body `sendMessage` posts. */
  datatype SendRequest = SendRequest(receiverId: string, content: string, listingId: Option<string>)

  /** What a call of `sendMessage` did: the new state, the request it made and its return value. */
  datatype SendOutcome = SendOutcome(state: ClientState, request: Option<SendRequest>, result: Option<Json>)

  /** Nothing is posted without a partner or with blank content. */
  function SendRequestFor(partnerId: string, content: string, listingId: string): Option<SendRequest> {
    if partnerId == "" || Trim(content) == "" then None
    else Some(SendRequest(partnerId, Trim(content), if listingId == "" then None else Some(listingId)))
  }

  /** The entry `sendMessage` places: the conversation keeps its partner, count and listing. */
  function SentEntry(convs: seq<Conv>, key: string, partnerId: string, payload: Json, time: int): Conv {
    var e := Find(convs, key);
    Conv(key,
         if e.Some? && Truthy(Some(e.value.partner)) then e.value.partner
         else DefaultPartner(partnerId, "Conversation"),
         Some(payload),
         if e.Some? then e.value.unreadCount else 0,
         if e.Some? && Truthy(e.value.listing) then e.value.listing else None,
         time)
  }

  /**
   * `sendMessage`: `response` is the message the server created, `None` when
   * the request failed. On success the message is appended and the list merged.
   */
  function SendMessage(st: ClientState, userId: string, partnerId: string, content: string,
                       listingId: string, response: Option<Message>): SendOutcome {
    var req := SendRequestFor(partnerId, content, listingId);
    if req.None? || response.None? then SendOutcome(st, req, None)
    else
      var m := response.value;
      var payload := ChatRoutes.MessageJson(m);
      var key := BuildConversationId(userId, partnerId).GetOr("");
      SendOutcome(ClientState(Merge(st.conversations, SentEntry(st.conversations, key, partnerId, payload, m.timestamp)),
                              st.messages + [payload], st.activePartnerId),
                  req, Some(payload))
  }

  /** A request that is made passes the server's own content check. */
  lemma SendRequestPassesServerCheck(partnerId: string, content: string, listingId: string)
    ensures var req := SendRequestFor(partnerId, content, listingId);
      (req.Some? <==> partnerId != "" && !AllSpace(content)) &&
      (req.Some? ==> req.value.receiverId == partnerId && Trim(req.value.content) == req.value.content != "")
  {
    TrimEmptyIffBlank(content);
    TrimIdempotent(content);
  }

  /** `sendMessage` changes nothing, and returns null, when it makes no request or the request fails. */
  lemma SendMessageUnchanged(st: ClientState, userId: string, partnerId: string, content: string,
                             listingId: string, response: Option<Message>)
    ensures var o := SendMessage(st, userId, partnerId, content, listingId, response);
      o.request == SendRequestFor(partnerId, content, listingId) &&
      (o.request.None? || response.None? <==> o.result.None?) &&
      (o.result.None? ==> o.state == st)
  {
  }

  /** The entry `sendMessage` merges in is in the list, with the message, its time and the prior count. */
  lemma SentMergeEntry(convs: seq<Conv>, key: string, partnerId: string, payload: Json, time: int)
    ensures var r := Merge(convs, SentEntry(convs, key, partnerId, payload, time));
      var prior := Find(convs, key);
      (exists i :: 0 <= i < |r| && r[i].conversationId == key) &&
      (forall i :: 0 <= i < |r| && r[i].conversationId == key ==>
         r[i].lastMessage == Some(payload) && r[i].lastActivity == time &&
         r[i].unreadCount == (if prior.Some? then prior.value.unreadCount else 0))
  {
    var u := SentEntry(convs, key, partnerId, payload, time);
    var prior := Find(convs, key);
    assert u.conversationId == key && u.lastMessage == Some(payload) && u.lastActivity == time &&
      u.unreadCount == (if prior.Some? then prior.value.unreadCount else 0);
    MergeEntry(convs, u);
  }

  /**
   * On success `sendMessage` appends the message and returns it, and the
   * conversation gets that message as its last one and its time as its
   * activity while keeping its count; the rest of the list is kept.
   */
  lemma SendMessageSuccess(st: ClientState, userId: string, partnerId: string, content: string,
                           listingId: string, m: Message)
    requires SendRequestFor(partnerId, content, listingId).Some?
    ensures var o := SendMessage(st, userId, partnerId, content, listingId, Some(m));
      var key := BuildConversationId(userId, partnerId).GetOr("");
      var prior := Find(st.conversations, key);
      var r := o.state.conversations;
      o.result == Some(ChatRoutes.MessageJson(m)) &&
      o.state.messages == st.messages + [ChatRoutes.MessageJson(m)] &&
      SortedBy(r, Recency) &&
      (exists i :: 0 <= i < |r| && r[i].conversationId == key) &&
      (forall i :: 0 <= i < |r| && r[i].conversationId == key ==>
         r[i].lastMessage == Some(ChatRoutes.MessageJson(m)) && r[i].lastActivity == m.timestamp &&
         r[i].unreadCount == (if prior.Some? then prior.value.unreadCount else 0)) &&
      (forall c: Conv :: c.conversationId != key ==> multiset(r)[c] == multiset(st.conversations)[c]) &&
      |r| <= |st.conversations| + 1 &&
      (DistinctBy(st.conversations, ConvId) ==> DistinctBy(r, ConvId))
  {
    var key := BuildConversationId(userId, partnerId).GetOr("");
    var u := SentEntry(st.conversations, key, partnerId, ChatRoutes.MessageJson(m), m.timestamp);
    assert SendMessage(st, userId, partnerId, content, listingId, Some(m)).state.conversations == Merge(st.conversations, u);
    SentMergeEntry(st.conversations, key, partnerId, ChatRoutes.MessageJson(m), m.timestamp);
    assert u.conversationId == key;
    MergeSpec(st.conversations, u);
  }

  /** The id of the conversation whose partner is selected, "" (null) when there is none. */
  function ActiveConversationId(st: ClientState): string {
    if st.activePartnerId == "" then ""
    else
      match FindByPartner(st.conversations, st.activePartnerId)
      case Some(c) => c.conversationId
      case None => ""
  }

  /** `conversations.find(conv => conv.partner._id === partnerId)`. */
  function FindByPartner(convs: seq<Conv>, partnerId: string): Option<Conv> {
    if convs == [] then None
    else if HasPartner(convs[0], partnerId) then Some(convs[0])
    else FindByPartner(convs[1..], partnerId)
  }

  /** What a stream event did: the new state and the partner a mark-read request is sent for. */
  datatype EventOutcome = EventOutcome(state: ClientState, markRead: Option<string>)

  function StrField(j: Json, key: string): string
    requires IsObject(j)
  {
    match Get(j, key)
    case Some(JStr(s)) => s
    case _ => ""
  }

  /** The upsert payload of a stream event; `messageField` names the property holding the message. */
  function EventPayload(j: Json, messageField: string): Payload
    requires IsObject(j)
  {
    Payload(StrField(j, "conversationId"), Get(j, "partner"), Get(j, messageField),
            Get(j, "unreadCount"), Get(j, "listing"))
  }

  /**
   * `handleNewMessage`: `data` is the parsed event data, `None` when it is
   * missing or does not parse. The list is upserted; the message is appended,
   * and the partner marked read, only for the open conversation.
   */
  function OnNewMessage(st: ClientState, data: Option<Json>, now: int): EventOutcome {
    if data.None? || !IsObject(data.value) then EventOutcome(st, None)
    else
      var p := EventPayload(data.value, "message");
      var active := ActiveConversationId(st);
      var convs := Upsert(st.conversations, p, now);
      if p.conversationId != "" && p.conversationId == active then
        EventOutcome(ClientState(convs, st.messages + [Get(data.value, "message").GetOr(JNull)], st.activePartnerId),
                     Some(st.activePartnerId))
      else EventOutcome(ClientState(convs, st.messages, st.activePartnerId), None)
  }

  /** `handleConversationUpdate`: like a new message, without appending to the thread. */
  function OnConversationUpdate(st: ClientState, data: Option<Json>, now: int): EventOutcome {
    if data.None? || !IsObject(data.value) then EventOutcome(st, None)
    else
      var p := EventPayload(data.value, "lastMessage");
      var convs := Upsert(st.conversations, p, now);
      var active := ActiveConversationId(st);
      EventOutcome(ClientState(convs, st.messages, st.activePartnerId),
                   if p.conversationId != "" && p.conversationId == active then Some(st.activePartnerId) else None)
  }

  /**
   * The thread grows by one message exactly when the event is for the open
   * conversation, and then the selected partner is marked read; the selection
   * never changes.
   */
  lemma OnNewMessageAppend(st: ClientState, data: Option<Json>, now: int)
    ensures var o := OnNewMessage(st, data, now);
      var forActive := data.Some? && IsObject(data.value) &&
                       StrField(data.value, "conversationId") != "" &&
                       StrField(data.value, "conversationId") == ActiveConversationId(st);
      o.state.activePartnerId == st.activePartnerId &&
      (forActive ==> o.state.messages == st.messages + [Get(data.value, "message").GetOr(JNull)] &&
                     o.markRead == Some(st.activePartnerId)) &&
      (!forActive ==> o.state.messages == st.messages && o.markRead.None?)
  {
  }

  /**
   * A conversation update never touches the thread or the selection: the list
   * becomes the upsert of the event's summary (its `lastMessage` as the
   * message), and the partner is marked read exactly when the update is for the
   * open conversation. Missing or unparsable data changes nothing.
   */
  lemma OnConversationUpdateSpec(st: ClientState, data: Option<Json>, now: int)
    ensures var o := OnConversationUpdate(st, data, now);
      o.state.messages == st.messages && o.state.activePartnerId == st.activePartnerId &&
      (data.None? || !IsObject(data.value) ==> o == EventOutcome(st, None)) &&
      (data.Some? && IsObject(data.value) ==>
         o.state.conversations == Upsert(st.conversations, EventPayload(data.value, "lastMessage"), now) &&
         (o.markRead.Some? <==> StrField(data.value, "conversationId") != "" &&
                                StrField(data.value, "conversationId") == ActiveConversationId(st)) &&
         (o.markRead.Some? ==> o.markRead.value == st.activePartnerId))
  {
  }

  /** The fields of the server's `chat:new_message` data. */
  lemma NewMessageFields(log: seq<Message>, sender: ChatRoutes.User, m: Message, users: map<string, ChatRoutes.User>,
                         items: map<string, ChatRoutes.Listing>)
    ensures var d := ChatRoutes.SendEvents(log, sender, m, users, items)[0].data;
      IsObject(d) &&
      Get(d, "conversationId") == Some(JStr(m.conversationKey)) &&
      Get(d, "message") == Some(ChatRoutes.MessageJson(m)) &&
      Get(d, "unreadCount") == Some(JNum(Count(log, ChatQueries.UnreadInKey(m.conversationKey, m.receiverId))))
  {
    var f := ChatRoutes.SendEvents(log, sender, m, users, items)[0].data.fields;
    assert Field(f, "conversationId") == Some(JStr(m.conversationKey)) by {
      FieldAt(f, 0);
    }
    assert Field(f, "message") == Some(ChatRoutes.MessageJson(m)) by {
      FieldAt(f, 1);
    }
    assert Field(f, "unreadCount") == Some(JNum(Count(log, ChatQueries.UnreadInKey(m.conversationKey, m.receiverId)))) by {
      FieldAt(f, 4);
    }
  }

  /** A payload with a message and a numeric count gives its entry that count, message and time. */
  lemma UpsertSetsEntry(convs: seq<Conv>, p: Payload, now: int, message: Json, time: int, n: int)
    requires p.conversationId != "" && p.lastMessage == Some(message) && p.unreadCount == Some(JNum(n))
    requires IsObject(message) && Get(message, "timestamp") == Some(JTime(time))
    ensures var r := Upsert(convs, p, now);
      (exists i :: 0 <= i < |r| && r[i].conversationId == p.conversationId) &&
      forall i :: 0 <= i < |r| && r[i].conversationId == p.conversationId ==>
        r[i].unreadCount == n && r[i].lastMessage == Some(message) && r[i].lastActivity == time
  {
    var u := Updated(p, Find(convs, p.conversationId), now);
    assert Upsert(convs, p, now) == Merge(convs, u);
    assert TimestampOf(p.lastMessage) == Some(time);
    assert u.unreadCount == n && u.lastMessage == Some(message) && u.lastActivity == time;
    MergeEntry(convs, u);
  }

  /** The list a new-message event leaves is the upsert of its payload. */
  lemma OnNewMessageUpserts(st: ClientState, d: Json, now: int)
    requires IsObject(d)
    ensures OnNewMessage(st, Some(d), now).state.conversations == Upsert(st.conversations, EventPayload(d, "message"), now)
  {
  }

  /**
   * Receiving the server's `chat:new_message` puts the conversation in the
   * receiver's list with the server's unread count, the message as its last
   * one and the message's time as its activity.
   */
  lemma ReceiverSeesServerCount(st: ClientState, now: int, log: seq<Message>, sender: ChatRoutes.User, m: Message,
                                users: map<string, ChatRoutes.User>, items: map<string, ChatRoutes.Listing>)
    requires m.conversationKey != ""
    ensures var o := OnNewMessage(st, Some(ChatRoutes.SendEvents(log, sender, m, users, items)[0].data), now);
      var r := o.state.conversations;
      (exists i :: 0 <= i < |r| && r[i].conversationId == m.conversationKey) &&
      forall i :: 0 <= i < |r| && r[i].conversationId == m.conversationKey ==>
        r[i].unreadCount == Count(log, ChatQueries.UnreadInKey(m.conversationKey, m.receiverId)) &&
        r[i].lastMessage == Some(ChatRoutes.MessageJson(m)) &&
        r[i].lastActivity == m.timestamp
  {
    var d := ChatRoutes.SendEvents(log, sender, m, users, items)[0].data;
    NewMessageFields(log, sender, m, users, items);
    ChatRoutes.MessageJsonFields(m);
    var p := EventPayload(d, "message");
    assert p.conversationId == m.conversationKey;
    OnNewMessageUpserts(st, d, now);
    UpsertSetsEntry(st.conversations, p, now, ChatRoutes.MessageJson(m), m.timestamp,
                    Count(log, ChatQueries.UnreadInKey(m.conversationKey, m.receiverId)));
  }

  /** Every pending timer is the one stored for its key; handles are issued in increasing order. */
  ghost predicate TimersValid(pending: map<nat, string>, refs: map<string, nat>, nextTimer: nat) {
    nextTimer >= 1 &&
    (forall t :: t in pending ==> 1 <= t < nextTimer && pending[t] in refs && refs[pending[t]] == t) &&
    (forall k :: k in refs ==> 1 <= refs[k] < nextTimer) &&
    (forall k, k' :: k in refs && k' in refs && k != k' ==> refs[k] != refs[k'])
  }

  /** The pending timers that expire `key`. */
  function PendingOf(pending: map<nat, string>, key: string): set<nat> {
    set t | t in pending && pending[t] == key
  }

  /** The stored timer of `key`, if any, is the one a typing event clears. */
  function Cleared(refs: map<string, nat>, key: string): set<nat> {
    if key in refs then {refs[key]} else {}
  }

  /** Clearing `key`'s timer removes only timers of `key`. */
  lemma ClearedOthers(pending: map<nat, string>, refs: map<string, nat>, nextTimer: nat, key: string)
    requires TimersValid(pending, refs, nextTimer)
    ensures forall k :: k != key ==> PendingOf(pending - Cleared(refs, key), k) == PendingOf(pending, k)
    ensures PendingOf(pending - Cleared(refs, key), key) == {}
  {
    forall k | k != key ensures PendingOf(pending - Cleared(refs, key), k) == PendingOf(pending, k) {
      forall t | t in pending && pending[t] == k ensures t !in Cleared(refs, key) {
        assert refs[k] == t;
      }
    }
  }

  /** A true event: the key's old timer is cleared and a fresh one is stored and pending. */
  lemma TypingOnStep(pending: map<nat, string>, refs: map<string, nat>, nextTimer: nat, key: string)
    requires TimersValid(pending, refs, nextTimer)
    ensures var p := (pending - Cleared(refs, key))[nextTimer := key];
      TimersValid(p, refs[key := nextTimer], nextTimer + 1) &&
      PendingOf(p, key) == {nextTimer} &&
      forall k :: k != key ==> PendingOf(p, k) == PendingOf(pending, k)
  {
    ClearedOthers(pending, refs, nextTimer, key);
    var p0 := pending - Cleared(refs, key);
    var p := p0[nextTimer := key];
    forall k | k != key ensures PendingOf(p, k) == PendingOf(p0, k) {
    }
    assert PendingOf(p, key) == {nextTimer};
  }

  /** A false event: the key's old timer is cleared and forgotten. */
  lemma TypingOffStep(pending: map<nat, string>, refs: map<string, nat>, nextTimer: nat, key: string)
    requires TimersValid(pending, refs, nextTimer)
    ensures var p := pending - Cleared(refs, key);
      TimersValid(p, refs - {key}, nextTimer) &&
      PendingOf(p, key) == {} &&
      forall k :: k != key ==> PendingOf(p, k) == PendingOf(pending, k)
  {
    ClearedOthers(pending, refs, nextTimer, key);
  }

  /**
   * `handleTypingEvent` with its timers. `refs` is `typingTimeoutRef.current`
   * (the last handle stored per key, kept after its timer fired); `pending`
   * holds the timers neither fired nor cleared, with the key each deletes.
   * Handles are positive, so a stored handle is always truthy.
   */
  class TypingTracker {
    var typing: map<string, bool>
    var refs: map<string, nat>
    var pending: map<nat, string>
    var nextTimer: nat

    /** The expiry time of every timer. */
    static const ExpiryMs := 3200

    /** Every pending timer is the one stored for its key; handles are issued in increasing order. */
    ghost predicate Valid()
      reads this
    {
      TimersValid(pending, refs, nextTimer)
    }

    /** The key's pending expiry, when it has one. */
    function PendingFor(key: string): set<nat>
      reads this
    {
      PendingOf(pending, key)
    }

    constructor ()
      ensures Valid() && typing == map[] && refs == map[] && pending == map[]
    {
      typing := map[];
      refs := map[];
      pending := map[];
      nextTimer := 1;
    }

    /**
     * A typing event sets `typing[key]` to `Boolean(isTyping)`. A true event
     * clears the stored timer and starts a fresh one; a false event clears the
     * stored timer and forgets it.
     */
    method HandleTyping(key: string, isTyping: Option<Json>) returns (timer: Option<nat>)
      requires Valid()
      modifies this
      ensures Valid()
      ensures typing == old(typing)[key := Truthy(isTyping)]
      ensures var cleared := if key in old(refs) then {old(refs)[key]} else {};
        if Truthy(isTyping) then
          timer == Some(old(nextTimer)) &&
          refs == old(refs)[key := old(nextTimer)] &&
          pending == (old(pending) - cleared)[old(nextTimer) := key] &&
          nextTimer == old(nextTimer) + 1
        else
          timer.None? && refs == old(refs) - {key} && pending == old(pending) - cleared &&
          nextTimer == old(nextTimer)
      ensures Truthy(isTyping) ==> PendingFor(key) == {timer.value}
      ensures !Truthy(isTyping) ==> PendingFor(key) == {}
      ensures forall k :: k != key ==> PendingFor(k) == old(PendingFor(k))
    {
      typing := typing[key := Truthy(isTyping)];
      var cleared := Cleared(refs, key);
      if Truthy(isTyping) {
        TypingOnStep(pending, refs, nextTimer, key);
        var t := nextTimer;
        pending := (pending - cleared)[t := key];
        refs := refs[key := t];
        nextTimer := nextTimer + 1;
        timer := Some(t);
      } else {
        TypingOffStep(pending, refs, nextTimer, key);
        pending := pending - cleared;
        refs := refs - {key};
        timer := None;
      }
    }

    /**
     * Timer `t` is due: if it is still pending its callback deletes the key
     * from `typing`; a cleared timer never runs. The stored handle stays.
     */
    method Fire(t: nat)
      requires Valid()
      modifies this
      ensures Valid()
      ensures t in old(pending) ==> typing == old(typing) - {old(pending)[t]} && pending == old(pending) - {t}
      ensures t !in old(pending) ==> typing == old(typing) && pending == old(pending)
      ensures refs == old(refs) && nextTimer == old(nextTimer)
    {
      if t in pending {
        typing := typing - {pending[t]};
        pending := pending - {t};
      }
    }

    /** `resetState`: clearing every stored handle cancels every pending timer. */
    method Reset()
      requires Valid()
      modifies this
      ensures Valid()
      ensures typing == map[] && refs == map[] && pending == map[]
      ensures old(pending.Keys) <= set k | k in old(refs) :: old(refs)[k]
    {
      assert forall t :: t in pending ==> t in set k | k in refs :: refs[k] by {
        forall t | t in pending ensures t in set k | k in refs :: refs[k] {
          assert refs[pending[t]] == t;
        }
      }
      typing := map[];
      refs := map[];
      pending := map[];
    }
  }
}
