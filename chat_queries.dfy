/**
 * The message-store queries of the chat routes, as filters, counts and sorts
 * over the log of persisted messages (in insertion order). Where Mongo leaves
 * ties unordered the model keeps insertion order.
 */
module ChatQueries {
  import opened Wrappers
  import opened Sorting
  import opened ChatModel

  function Timestamp(m: Message): int { m.timestamp }

  /** `{ conversation_key: key }` */
  function HasKey(key: string): Message -> bool {
    (m: Message) => m.conversationKey == key
  }

  /** `{ $or: [{ sender_id: user }, { receiver_id: user }] }` */
  function Involves(user: string): Message -> bool {
    (m: Message) => m.senderId == user || m.receiverId == user
  }

  /** `{ receiver_id: user, read_status: false }` */
  function UnreadTo(user: string): Message -> bool {
    (m: Message) => m.receiverId == user && !m.readStatus
  }

  /** `{ conversation_key: key, receiver_id: user, read_status: false }` */
  function UnreadInKey(key: string, user: string): Message -> bool {
    (m: Message) => m.conversationKey == key && m.receiverId == user && !m.readStatus
  }

  /** `{ conversation_key: key, listing_id: { $ne: null } }` */
  function ListedInKey(key: string): Message -> bool {
    (m: Message) => m.conversationKey == key && m.listingId.Some?
  }

  /** `Chat.find({ conversation_key: key }).sort({ timestamp: 1 })`: the thread, oldest first. */
  function Thread(log: seq<Message>, key: string): (r: seq<Message>)
    ensures forall i :: 0 <= i < |r| ==> r[i] in log && r[i].conversationKey == key
    ensures forall i :: 0 <= i < |log| && log[i].conversationKey == key ==> log[i] in r
    ensures multiset(r) == multiset(Filter(log, HasKey(key)))
    ensures SortedBy(r, Timestamp)
  {
    var r := SortBy(Filter(log, HasKey(key)), Timestamp);
    ThreadSound(log, key);
    ThreadComplete(log, key);
    r
  }

  /** Every message of the sorted thread is a stored message with the key. */
  lemma ThreadSound(log: seq<Message>, key: string)
    ensures forall i :: 0 <= i < |SortBy(Filter(log, HasKey(key)), Timestamp)| ==>
      SortBy(Filter(log, HasKey(key)), Timestamp)[i] in log &&
      SortBy(Filter(log, HasKey(key)), Timestamp)[i].conversationKey == key
  {
    var hits := Filter(log, HasKey(key));
    var r := SortBy(hits, Timestamp);
    FilterSpec(log, HasKey(key));
    SortByMembers(hits, Timestamp);
    forall i | 0 <= i < |r|
      ensures r[i] in log && r[i].conversationKey == key
    {
      assert r[i] in hits;
      var j :| 0 <= j < |hits| && hits[j] == r[i];
      assert HasKey(key)(hits[j]);
    }
  }

  /** Every stored message with the key is in the sorted thread. */
  lemma ThreadComplete(log: seq<Message>, key: string)
    ensures var r := SortBy(Filter(log, HasKey(key)), Timestamp);
      forall i :: 0 <= i < |log| && log[i].conversationKey == key ==> log[i] in r
  {
    var hits := Filter(log, HasKey(key));
    FilterSpec(log, HasKey(key));
    SortByMembers(hits, Timestamp);
    forall i | 0 <= i < |log| && log[i].conversationKey == key
      ensures log[i] in hits
    {
      assert HasKey(key)(log[i]);
    }
  }

  /**
   * `findOne(filter).sort({ timestamp: -1 })`: a message satisfying `p` with the
   * greatest timestamp (the earliest stored one among equals), if any.
   */
  function LatestWhere(s: seq<Message>, p: Message -> bool): (r: Option<Message>)
    ensures r.None? <==> forall i :: 0 <= i < |s| ==> !p(s[i])
    ensures r.Some? ==> r.value in s && p(r.value)
    ensures r.Some? ==> forall i :: 0 <= i < |s| && p(s[i]) ==> s[i].timestamp <= r.value.timestamp
  {
    if s == [] then None
    else
      var rest := LatestWhere(s[1..], p);
      assert forall i :: 1 <= i < |s| ==> s[i] == s[1..][i - 1];
      if p(s[0]) && (rest.None? || rest.value.timestamp <= s[0].timestamp) then Some(s[0])
      else rest
  }

  /** The listing of the most recent message in the conversation that names one. */
  function LatestListing(log: seq<Message>, key: string): (r: Option<string>)
    ensures r.Some? <==> exists i :: 0 <= i < |log| && log[i].conversationKey == key && log[i].listingId.Some?
    ensures r.Some? ==>
              exists i :: 0 <= i < |log| && log[i].conversationKey == key && log[i].listingId == r &&
                (forall k :: 0 <= k < |log| && log[k].conversationKey == key && log[k].listingId.Some? ==>
                   log[k].timestamp <= log[i].timestamp)
  {
    match LatestWhere(log, ListedInKey(key))
    case None => None
    case Some(m) => m.listingId
  }

  /** `Chat.countDocuments({ receiver_id: user, read_status: false })` */
  function UnreadTotal(log: seq<Message>, user: string): nat {
    Count(log, UnreadTo(user))
  }

  /** The effect of `updateMany(UnreadInKey(key, user), { read_status: true })` on one message. */
  function MarkOne(key: string, user: string, m: Message): Message {
    if UnreadInKey(key, user)(m) then m.(readStatus := true) else m
  }

  /** The log after that `updateMany`. */
  function MarkedRead(log: seq<Message>, key: string, user: string): (r: seq<Message>)
    ensures |r| == |log|
  {
    if log == [] then [] else [MarkOne(key, user, log[0])] + MarkedRead(log[1..], key, user)
  }

  lemma {:induction false} MarkedReadAt(log: seq<Message>, key: string, user: string, i: nat)
    requires i < |log|
    ensures MarkedRead(log, key, user)[i] == MarkOne(key, user, log[i])
  {
    if i > 0 {
      MarkedReadAt(log[1..], key, user, i - 1);
    }
  }

  lemma {:induction false} MarkedReadAppend(a: seq<Message>, b: seq<Message>, key: string, user: string)
    ensures MarkedRead(a + b, key, user) == MarkedRead(a, key, user) + MarkedRead(b, key, user)
  {
    if a == [] {
      assert a + b == b;
    } else {
      assert (a + b)[1..] == a[1..] + b;
      MarkedReadAppend(a[1..], b, key, user);
    }
  }

  /** After marking, nothing in the conversation is unread for the caller: a second call updates 0. */
  lemma {:induction false} MarkedReadClears(log: seq<Message>, key: string, user: string)
    ensures Count(MarkedRead(log, key, user), UnreadInKey(key, user)) == 0
  {
    if log != [] {
      MarkedReadClears(log[1..], key, user);
    }
  }

  /** Marking twice is marking once. */
  lemma {:induction false} MarkedReadIdempotent(log: seq<Message>, key: string, user: string)
    ensures MarkedRead(MarkedRead(log, key, user), key, user) == MarkedRead(log, key, user)
  {
    if log != [] {
      MarkedReadIdempotent(log[1..], key, user);
    }
  }

  /** The caller's global unread count drops by exactly the number of messages marked. */
  lemma {:induction false} MarkedReadUnreadTotal(log: seq<Message>, key: string, user: string)
    ensures UnreadTotal(MarkedRead(log, key, user), user) ==
            UnreadTotal(log, user) - Count(log, UnreadInKey(key, user))
  {
    if log != [] {
      MarkedReadUnreadTotal(log[1..], key, user);
    }
  }

  /** Nobody else's unread count changes. */
  lemma {:induction false} MarkedReadOthers(log: seq<Message>, key: string, user: string, other: string)
    requires other != user
    ensures UnreadTotal(MarkedRead(log, key, user), other) == UnreadTotal(log, other)
  {
    if log != [] {
      MarkedReadOthers(log[1..], key, user, other);
    }
  }

  /** One `$group` row: the conversation key, its `$first` message after `$sort: -1`, its unread `$sum`. */
  datatype Group = Group(key: string, lastMessage: Message, unreadCount: nat)

  function GroupUnread(g: Group): int { g.unreadCount }

  function UnreadBit(m: Message, user: string): nat {
    if m.receiverId == user && !m.readStatus then 1 else 0
  }

  /** The index of the group for `key`, or `|groups|` when there is none. */
  function FindGroup(groups: seq<Group>, key: string): (j: nat)
    ensures j <= |groups|
    ensures j < |groups| ==> groups[j].key == key
    ensures forall i :: 0 <= i < j ==> groups[i].key != key
  {
    if groups == [] then 0
    else if groups[0].key == key then 0
    else 1 + FindGroup(groups[1..], key)
  }

  /** The later of two messages; the first one on a tie. */
  function Later(a: Message, b: Message): (r: Message)
    ensures r == a || r == b
    ensures a.timestamp <= r.timestamp && b.timestamp <= r.timestamp
  {
    if a.timestamp < b.timestamp then b else a
  }

  /** Folds one more message into the groups; a new key opens a group at the end. */
  function Fold(groups: seq<Group>, m: Message, user: string): seq<Group> {
    var j := FindGroup(groups, m.conversationKey);
    if j < |groups| then
      var g := groups[j];
      groups[j := Group(g.key, Later(g.lastMessage, m), g.unreadCount + UnreadBit(m, user))]
    else groups + [Group(m.conversationKey, m, UnreadBit(m, user))]
  }

  /** The `$group` stage over `s`, keys in order of first occurrence. */
  function Aggregate(s: seq<Message>, user: string): seq<Group> {
    if s == [] then [] else Fold(Aggregate(s[..|s| - 1], user), s[|s| - 1], user)
  }

  predicate DistinctKeys(groups: seq<Group>) {
    forall i, j :: 0 <= i < j < |groups| ==> groups[i].key != groups[j].key
  }

  /** Each group's message belongs to it and its count is the user's unread messages under its key. */
  ghost predicate Sound(groups: seq<Group>, s: seq<Message>, user: string) {
    forall i :: 0 <= i < |groups| ==>
      groups[i].lastMessage in s && groups[i].lastMessage.conversationKey == groups[i].key &&
      groups[i].unreadCount == Count(s, UnreadInKey(groups[i].key, user))
  }

  /** No message under a group's key is later than the group's message. */
  ghost predicate Latest(groups: seq<Group>, s: seq<Message>) {
    forall i, k :: 0 <= i < |groups| && 0 <= k < |s| && s[k].conversationKey == groups[i].key ==>
      s[k].timestamp <= groups[i].lastMessage.timestamp
  }

  /** Every message's key has a group. */
  ghost predicate Covers(groups: seq<Group>, s: seq<Message>) {
    forall k :: 0 <= k < |s| ==> exists i :: 0 <= i < |groups| && groups[i].key == s[k].conversationKey
  }

  /** `groups` has one row per key of `s`, each with its latest message and its unread count. */
  ghost predicate Summarises(groups: seq<Group>, s: seq<Message>, user: string) {
    DistinctKeys(groups) && Sound(groups, s, user) && Latest(groups, s) && Covers(groups, s)
  }

  /** Folding keeps every group's key where it was and gives `m`'s key a group. */
  lemma FoldKeys(groups: seq<Group>, m: Message, user: string)
    ensures var r := Fold(groups, m, user);
      |groups| <= |r| <= |groups| + 1 &&
      (forall i :: 0 <= i < |groups| ==> r[i].key == groups[i].key) &&
      (|r| == |groups| + 1 ==> r[|groups|].key == m.conversationKey &&
                               forall i :: 0 <= i < |groups| ==> groups[i].key != m.conversationKey) &&
      exists i :: 0 <= i < |r| && r[i].key == m.conversationKey
  {
    var j := FindGroup(groups, m.conversationKey);
    if j == |groups| {
      assert Fold(groups, m, user)[|groups|].key == m.conversationKey;
    } else {
      assert Fold(groups, m, user)[j].key == m.conversationKey;
    }
  }

  lemma FoldDistinct(groups: seq<Group>, m: Message, user: string)
    requires DistinctKeys(groups)
    ensures DistinctKeys(Fold(groups, m, user))
  {
    FoldKeys(groups, m, user);
  }

  lemma FoldCovers(groups: seq<Group>, s: seq<Message>, m: Message, user: string)
    requires Covers(groups, s)
    ensures Covers(Fold(groups, m, user), s + [m])
  {
    FoldKeys(groups, m, user);
    var r := Fold(groups, m, user);
    forall k | 0 <= k < |s| + 1
      ensures exists i :: 0 <= i < |r| && r[i].key == (s + [m])[k].conversationKey
    {
      if k < |s| {
        assert (s + [m])[k] == s[k];
        var i :| 0 <= i < |groups| && groups[i].key == s[k].conversationKey;
        assert r[i].key == s[k].conversationKey;
      } else {
        assert (s + [m])[k] == m;
      }
    }
  }

  /** Appending `m` adds its unread bit to its own key's count and nothing to any other. */
  lemma CountUnreadAppend(s: seq<Message>, m: Message, user: string, key: string)
    ensures Count(s + [m], UnreadInKey(key, user)) ==
            Count(s, UnreadInKey(key, user)) + (if key == m.conversationKey then UnreadBit(m, user) else 0)
  {
    CountAppend(s, [m], UnreadInKey(key, user));
    CountSingleton(m, UnreadInKey(key, user));
  }

  /** A key without a group is the key of no message. */
  lemma AbsentKey(groups: seq<Group>, s: seq<Message>, key: string)
    requires Covers(groups, s)
    requires forall i :: 0 <= i < |groups| ==> groups[i].key != key
    ensures forall k :: 0 <= k < |s| ==> s[k].conversationKey != key
  {
    forall k | 0 <= k < |s|
      ensures s[k].conversationKey != key
    {
      var i :| 0 <= i < |groups| && groups[i].key == s[k].conversationKey;
    }
  }

  /** Where each group of the folded list comes from. */
  lemma FoldAt(groups: seq<Group>, m: Message, user: string, i: nat)
    requires DistinctKeys(groups)
    requires i < |Fold(groups, m, user)|
    ensures var r := Fold(groups, m, user);
      if i < |groups| && groups[i].key != m.conversationKey then r[i] == groups[i]
      else if i < |groups| then
        r[i] == Group(groups[i].key, Later(groups[i].lastMessage, m), groups[i].unreadCount + UnreadBit(m, user))
      else
        r[i] == Group(m.conversationKey, m, UnreadBit(m, user)) &&
        forall i' :: 0 <= i' < |groups| ==> groups[i'].key != m.conversationKey
  {
  }

  /** A group that was already there stays sound after the fold. */
  lemma FoldSoundOld(groups: seq<Group>, s: seq<Message>, m: Message, user: string, i: nat)
    requires DistinctKeys(groups) && i < |groups|
    requires groups[i].lastMessage in s && groups[i].lastMessage.conversationKey == groups[i].key
    requires groups[i].unreadCount == Count(s, UnreadInKey(groups[i].key, user))
    ensures var g := Fold(groups, m, user)[i];
      g.lastMessage in s + [m] && g.lastMessage.conversationKey == g.key &&
      g.unreadCount == Count(s + [m], UnreadInKey(g.key, user))
  {
    FoldAt(groups, m, user, i);
    var was := groups[i];
    var g := Fold(groups, m, user)[i];
    CountUnreadAppend(s, m, user, was.key);
    if was.key == m.conversationKey {
      assert g == Group(was.key, Later(was.lastMessage, m), was.unreadCount + UnreadBit(m, user));
    } else {
      assert g == was;
    }
  }

  lemma FoldSoundAt(groups: seq<Group>, s: seq<Message>, m: Message, user: string, i: nat)
    requires DistinctKeys(groups) && Sound(groups, s, user) && Covers(groups, s)
    requires i < |Fold(groups, m, user)|
    ensures var g := Fold(groups, m, user)[i];
      g.lastMessage in s + [m] && g.lastMessage.conversationKey == g.key &&
      g.unreadCount == Count(s + [m], UnreadInKey(g.key, user))
  {
    if i < |groups| {
      FoldSoundOld(groups, s, m, user, i);
    } else {
      FoldAt(groups, m, user, i);
      var g := Fold(groups, m, user)[i];
      assert g == Group(m.conversationKey, m, UnreadBit(m, user));
      CountUnreadAppend(s, m, user, g.key);
      AbsentKey(groups, s, m.conversationKey);
      CountNone(s, UnreadInKey(m.conversationKey, user));
    }
  }

  lemma FoldSound(groups: seq<Group>, s: seq<Message>, m: Message, user: string)
    requires DistinctKeys(groups) && Sound(groups, s, user) && Covers(groups, s)
    ensures Sound(Fold(groups, m, user), s + [m], user)
  {
    forall i | 0 <= i < |Fold(groups, m, user)|
      ensures var g := Fold(groups, m, user)[i];
        g.lastMessage in s + [m] && g.lastMessage.conversationKey == g.key &&
        g.unreadCount == Count(s + [m], UnreadInKey(g.key, user))
    {
      FoldSoundAt(groups, s, m, user, i);
    }
  }

  lemma FoldLatest(groups: seq<Group>, s: seq<Message>, m: Message, user: string)
    requires DistinctKeys(groups) && Latest(groups, s) && Covers(groups, s)
    ensures Latest(Fold(groups, m, user), s + [m])
  {
    var r := Fold(groups, m, user);
    var s' := s + [m];
    forall i, k | 0 <= i < |r| && 0 <= k < |s'| && s'[k].conversationKey == r[i].key
      ensures s'[k].timestamp <= r[i].lastMessage.timestamp
    {
      FoldAt(groups, m, user, i);
      if i == |groups| {
        AbsentKey(groups, s, m.conversationKey);
      }
      if k < |s| {
        assert s'[k] == s[k];
      }
    }
  }

  lemma {:induction false} AggregateShape(s: seq<Message>, user: string)
    ensures DistinctKeys(Aggregate(s, user)) && Covers(Aggregate(s, user), s)
  {
    if s != [] {
      var init := s[..|s| - 1];
      var m := s[|s| - 1];
      InitLast(s);
      AggregateShape(init, user);
      FoldDistinct(Aggregate(init, user), m, user);
      FoldCovers(Aggregate(init, user), init, m, user);
    }
  }

  lemma {:induction false} AggregateSound(s: seq<Message>, user: string)
    ensures Sound(Aggregate(s, user), s, user)
  {
    if s != [] {
      var init := s[..|s| - 1];
      var m := s[|s| - 1];
      InitLast(s);
      var g := Aggregate(init, user);
      AggregateShape(init, user);
      AggregateSound(init, user);
      FoldSound(g, init, m, user);
    }
  }

  lemma {:induction false} AggregateLatest(s: seq<Message>, user: string)
    ensures Latest(Aggregate(s, user), s)
  {
    if s != [] {
      var init := s[..|s| - 1];
      var m := s[|s| - 1];
      InitLast(s);
      AggregateShape(init, user);
      AggregateLatest(init, user);
      FoldLatest(Aggregate(init, user), init, m, user);
    }
  }

  lemma AggregateSummarises(s: seq<Message>, user: string)
    ensures Summarises(Aggregate(s, user), s, user)
  {
    AggregateShape(s, user);
    AggregateSound(s, user);
    AggregateLatest(s, user);
  }

  lemma FoldSum(groups: seq<Group>, m: Message, user: string)
    ensures Sum(Fold(groups, m, user), GroupUnread) == Sum(groups, GroupUnread) + UnreadBit(m, user)
  {
    var j := FindGroup(groups, m.conversationKey);
    if j < |groups| {
      var g := groups[j];
      SumUpdate(groups, j, Group(g.key, if g.lastMessage.timestamp < m.timestamp then m else g.lastMessage,
                                 g.unreadCount + UnreadBit(m, user)), GroupUnread);
    } else {
      SumAppend(groups, [Group(m.conversationKey, m, UnreadBit(m, user))], GroupUnread);
    }
  }

  /** The groups' unread counts add up to the user's unread messages among `s`. */
  lemma {:induction false} AggregateTotal(s: seq<Message>, user: string)
    ensures Sum(Aggregate(s, user), GroupUnread) == Count(s, UnreadTo(user))
  {
    if s != [] {
      var init := s[..|s| - 1];
      var m := s[|s| - 1];
      AggregateTotal(init, user);
      FoldSum(Aggregate(init, user), m, user);
      assert init + [m] == s;
      CountAppend(init, [m], UnreadTo(user));
      CountSingleton(m, UnreadTo(user));
    }
  }

  /** The `$match` + `$sort` + `$group` pipeline of the conversation list. */
  function Groups(log: seq<Message>, user: string): seq<Group> {
    Aggregate(Filter(log, Involves(user)), user)
  }

  /** Restricting to the user's own messages loses none of the messages addressed to them. */
  lemma UnreadAmongMine(log: seq<Message>, user: string, key: string)
    ensures Count(Filter(log, Involves(user)), UnreadInKey(key, user)) == Count(log, UnreadInKey(key, user))
    ensures Count(Filter(log, Involves(user)), UnreadTo(user)) == UnreadTotal(log, user)
  {
    FilterFilter(log, Involves(user), UnreadInKey(key, user));
    FilterFilter(log, Involves(user), UnreadTo(user));
  }

  /** Each row's message is one of the user's messages under its key; its count is the user's unread there. */
  lemma GroupsRows(log: seq<Message>, user: string)
    ensures var g := Groups(log, user);
      forall i :: 0 <= i < |g| ==>
         g[i].lastMessage in log && Involves(user)(g[i].lastMessage) &&
         g[i].lastMessage.conversationKey == g[i].key &&
         g[i].unreadCount == Count(log, UnreadInKey(g[i].key, user))
  {
    var mine := Filter(log, Involves(user));
    var g := Aggregate(mine, user);
    AggregateSound(mine, user);
    FilterSpec(log, Involves(user));
    forall i | 0 <= i < |g|
      ensures g[i].lastMessage in log && Involves(user)(g[i].lastMessage)
      ensures g[i].unreadCount == Count(log, UnreadInKey(g[i].key, user))
    {
      assert g[i].lastMessage in mine;
      var k :| 0 <= k < |mine| && mine[k] == g[i].lastMessage;
      UnreadAmongMine(log, user, g[i].key);
    }
  }

  /** No message of the user under a row's key is later than the row's message. */
  lemma GroupsLatest(log: seq<Message>, user: string)
    ensures var g := Groups(log, user);
      forall i, k ::
         (0 <= i < |g| && 0 <= k < |log| && Involves(user)(log[k]) && log[k].conversationKey == g[i].key) ==>
         log[k].timestamp <= g[i].lastMessage.timestamp
  {
    var mine := Filter(log, Involves(user));
    var g := Aggregate(mine, user);
    AggregateLatest(mine, user);
    FilterSpec(log, Involves(user));
    forall i, k | 0 <= i < |g| && 0 <= k < |log| && Involves(user)(log[k]) && log[k].conversationKey == g[i].key
      ensures log[k].timestamp <= g[i].lastMessage.timestamp
    {
      assert log[k] in mine;
      var k' :| 0 <= k' < |mine| && mine[k'] == log[k];
    }
  }

  /** Every conversation of the user has a row, and no two rows share a key. */
  lemma GroupsCover(log: seq<Message>, user: string)
    ensures var g := Groups(log, user);
      (forall i, j :: 0 <= i < j < |g| ==> g[i].key != g[j].key) &&
      (forall k :: 0 <= k < |log| && Involves(user)(log[k]) ==>
         exists i :: 0 <= i < |g| && g[i].key == log[k].conversationKey)
  {
    var mine := Filter(log, Involves(user));
    var g := Aggregate(mine, user);
    AggregateShape(mine, user);
    FilterSpec(log, Involves(user));
    forall k | 0 <= k < |log| && Involves(user)(log[k])
      ensures exists i :: 0 <= i < |g| && g[i].key == log[k].conversationKey
    {
      assert log[k] in mine;
      var k' :| 0 <= k' < |mine| && mine[k'] == log[k];
    }
  }

  /**
   * One row per conversation key the user takes part in: its latest message
   * (greatest timestamp) and the number of its messages still unread by the user.
   */
  lemma GroupsSpec(log: seq<Message>, user: string)
    ensures var g := Groups(log, user);
      (forall i, j :: 0 <= i < j < |g| ==> g[i].key != g[j].key) &&
      (forall i :: 0 <= i < |g| ==>
         g[i].lastMessage in log && Involves(user)(g[i].lastMessage) &&
         g[i].lastMessage.conversationKey == g[i].key &&
         g[i].unreadCount == Count(log, UnreadInKey(g[i].key, user))) &&
      (forall i, k ::
         (0 <= i < |g| && 0 <= k < |log| && Involves(user)(log[k]) && log[k].conversationKey == g[i].key) ==>
         log[k].timestamp <= g[i].lastMessage.timestamp) &&
      (forall k :: 0 <= k < |log| && Involves(user)(log[k]) ==>
         exists i :: 0 <= i < |g| && g[i].key == log[k].conversationKey)
  {
    GroupsRows(log, user);
    GroupsLatest(log, user);
    GroupsCover(log, user);
  }

  /** The groups' unread counts add up to the user's global unread count. */
  lemma GroupsTotal(log: seq<Message>, user: string)
    ensures Sum(Groups(log, user), GroupUnread) == UnreadTotal(log, user)
  {
    AggregateTotal(Filter(log, Involves(user)), user);
    UnreadAmongMine(log, user, "");
  }
}
