/**
 * The server-sent-events connection registry: for every user id the list of
 * open response streams, in registration order. Frames follow the
 * `text/event-stream` format of section 9.2 of the WHATWG HTML Living
 * Standard: `retry:`, `event:` and `data:` fields, a blank line ending an
 * event, and `:` comment lines as heartbeats.
 */
module ChatStream {
  import opened Json

  /** A response stream. A write on a broken stream throws and appends nothing. */
  class Channel {
    var log: seq<string>
    var broken: bool

    constructor (broken: bool)
      ensures log == [] && this.broken == broken
    {
      log := [];
      this.broken := broken;
    }

    method Write(s: string) returns (ok: bool)
      modifies this
      ensures ok == !broken && broken == old(broken)
      ensures log == if ok then old(log) + [s] else old(log)
    {
      ok := !broken;
      if ok {
        log := log + [s];
      }
    }
  }

  /** One registration: its stream and whether its 25000 ms heartbeat interval is scheduled. */
  class Entry {
    const res: Channel
    var heartbeat: bool

    constructor (res: Channel)
      ensures this.res == res && !heartbeat
    {
      this.res := res;
      heartbeat := false;
    }
  }

  /**
   * What registration hands back: the no-op closure, the unregister closure for
   * `entry` under `key`, or nothing because the first write threw (the entry
   * then stays registered without heartbeat or close listener).
   */
  datatype Handle = NoOp | Unregister(key: string, entry: Entry) | Threw(key: string, entry: Entry)

  /** One `sendEvent` call, recorded by the route handlers that make it. */
  datatype Outbound = Outbound(target: string, event: string, data: Json)

  const HeartbeatMs: nat := 25000
  const RetryFrame: string := "retry: 10000\n"
  const HeartbeatFrame: string := ":ok\n\n"

  /** The three writes that open a stream. */
  function InitialFrames(): seq<string> {
    [RetryFrame, "event: connected\n", "data: {}\n\n"]
  }

  /** The two writes of one event. */
  function Frames(event: string, payload: string): seq<string> {
    ["event: " + event + "\n", "data: " + payload + "\n\n"]
  }

  /** `n` copies of `frames`, one after the other. */
  function Repeat(frames: seq<string>, n: nat): seq<string> {
    if n == 0 then [] else Repeat(frames, n - 1) + frames
  }

  /** How many times `u` occurs in `ids`. */
  function Occurrences(ids: seq<string>, u: string): nat {
    if ids == [] then 0
    else Occurrences(ids[..|ids| - 1], u) + (if ids[|ids| - 1] == u then 1 else 0)
  }

  /** One more id adds one more copy of the frames for that id's user and none for the others. */
  lemma RepeatStep(ids: seq<string>, n: nat, frames: seq<string>)
    requires n < |ids|
    ensures forall u ::
              Repeat(frames, Occurrences(ids[..n + 1], u)) ==
              Repeat(frames, Occurrences(ids[..n], u)) + (if ids[n] == u then frames else [])
  {
    assert ids[..n + 1][..n] == ids[..n];
  }

  /** No two entries of the list write to the same stream. */
  predicate DistinctStreams(s: seq<Entry>) {
    forall i, j :: 0 <= i < j < |s| ==> s[i].res != s[j].res
  }

  /** `list.filter((item) => item !== e)`. */
  function Without(s: seq<Entry>, e: Entry): (r: seq<Entry>)
    ensures e !in r
    ensures forall i :: 0 <= i < |r| ==> r[i] in s && r[i] != e
    ensures forall i :: 0 <= i < |s| && s[i] != e ==> s[i] in r
    ensures e !in s ==> r == s
    ensures |r| <= |s|
    ensures DistinctStreams(s) ==> DistinctStreams(r)
  {
    if s == [] then []
    else if s[0] == e then Without(s[1..], e)
    else
      assert s == [s[0]] + s[1..];
      [s[0]] + Without(s[1..], e)
  }

  /** The map after unregistering `e` under `key`: filtered, and the key deleted once empty. */
  function Removed(m: map<string, seq<Entry>>, key: string, e: Entry): map<string, seq<Entry>> {
    var rest := Without(if key in m then m[key] else [], e);
    if rest == [] then m - {key} else m[key := rest]
  }

  /** Every key present maps to a non-empty list. */
  predicate NoEmptyLists(m: map<string, seq<Entry>>) {
    forall u :: u in m ==> m[u] != []
  }

  /** Unregistering removes exactly `e`, keeps every other user's list and never leaves an empty list. */
  lemma RemovedEffect(m: map<string, seq<Entry>>, key: string, e: Entry)
    requires NoEmptyLists(m)
    ensures NoEmptyLists(Removed(m, key, e))
    ensures forall u :: u != key ==> (u in Removed(m, key, e) <==> u in m)
    ensures forall u :: u != key && u in m ==> Removed(m, key, e)[u] == m[u]
    ensures key in Removed(m, key, e) ==> forall x :: x in Removed(m, key, e)[key] <==> x in m[key] && x != e
    ensures key !in Removed(m, key, e) ==> forall x :: key in m && x in m[key] ==> x == e
  {
  }

  /** A second unregistration of the same entry changes nothing. */
  lemma RemovedIdempotent(m: map<string, seq<Entry>>, key: string, e: Entry)
    ensures Removed(Removed(m, key, e), key, e) == Removed(m, key, e)
  {
    var rest := Without(if key in m then m[key] else [], e);
    if rest == [] {
      var once := m - {key};
      assert Without([], e) == [];
      assert once - {key} == once;
    } else {
      var once := m[key := rest];
      assert Without(rest, e) == rest;
      assert once[key := rest] == once;
    }
  }

  /** Where an entry of the filtered map sat in the map it came from. */
  lemma OldIndex(before: map<string, seq<Entry>>, after: map<string, seq<Entry>>, u: string, i: int)
      returns (k: int)
    requires u in after && 0 <= i < |after[u]|
    requires u in before
    requires forall x :: x in after[u] ==> x in before[u]
    ensures 0 <= k < |before[u]| && after[u][i] == before[u][k]
  {
    assert after[u][i] in before[u];
    k :| 0 <= k < |before[u]| && after[u][i] == before[u][k];
  }

  /** No stream is registered twice, under one user or two (responses are distinct objects). */
  ghost predicate UniqueStreams(m: map<string, seq<Entry>>) {
    forall u, i, v, j ::
      (u in m && v in m && 0 <= i < |m[u]| && 0 <= j < |m[v]| && m[u][i].res == m[v][j].res) ==> u == v && i == j
  }

  ghost function StreamsOf(m: map<string, seq<Entry>>): set<Channel> {
    set u, i | u in m && 0 <= i < |m[u]| :: m[u][i].res
  }

  /** Registering an entry whose stream is new, at the end of its user's list, keeps the registry valid. */
  lemma AppendKeepsValid(m: map<string, seq<Entry>>, key: string, e: Entry)
    requires NoEmptyLists(m) && UniqueStreams(m) && e.res !in StreamsOf(m)
    ensures var m' := m[key := (if key in m then m[key] else []) + [e]];
      NoEmptyLists(m') && UniqueStreams(m')
  {
    var list: seq<Entry> := if key in m then m[key] else [];
    var m': map<string, seq<Entry>> := m[key := list + [e]];
    forall v, j | v in m' && 0 <= j < |m'[v]| && !(v == key && j == |list|)
      ensures v in m && j < |m[v]| && m'[v][j] == m[v][j] && m'[v][j].res != e.res
    {
      assert m[v][j].res in StreamsOf(m);
    }
  }

  class Registry {
    var clients: map<string, seq<Entry>>
    /** `JSON.stringify`, left uninterpreted. */
    const stringify: Json -> string

    constructor (stringify: Json -> string)
      ensures clients == map[] && this.stringify == stringify
    {
      clients := map[];
      this.stringify := stringify;
    }

    /** No empty list, and no stream registered twice (responses are distinct objects). */
    ghost predicate Valid()
      reads this
    {
      NoEmptyLists(clients) && UniqueStreams(clients)
    }

    ghost function Channels(): set<Channel>
      reads this
    {
      StreamsOf(clients)
    }

    /** The frames a batch of `sendEvent` calls delivers to one stream of `u`. */
    function FramesFor(batch: seq<Outbound>, u: string): seq<string> {
      if batch == [] then []
      else
        var o := batch[|batch| - 1];
        FramesFor(batch[..|batch| - 1], u) +
        (if o.target == u then Frames(o.event, stringify(o.data)) else [])
    }

    /**
     * `registerClient(userId, res)`. With a missing user id or response nothing
     * is registered. Otherwise the entry goes at the end of the user's list and
     * the opening frames are written; a throwing first write leaves the entry
     * registered with no heartbeat and no handle.
     */
    method Register(userId: string, res: Channel?) returns (h: Handle)
      requires Valid()
      requires res == null || res !in Channels()
      modifies this, res
      ensures Valid()
      ensures (userId == "" || res == null) ==> h == NoOp && clients == old(clients)
      ensures res != null && userId == "" ==> res.log == old(res.log)
      ensures userId != "" && res != null ==>
                !h.NoOp? && h.key == userId && fresh(h.entry) && h.entry.res == res &&
                clients == old(clients)[userId := old(if userId in clients then clients[userId] else []) + [h.entry]] &&
                (h.Unregister? <==> !res.broken) && h.entry.heartbeat == !res.broken &&
                res.log == old(res.log) + (if res.broken then [] else InitialFrames())
      ensures res != null ==> res.broken == old(res.broken)
    {
      if userId == "" || res == null {
        return NoOp;
      }
      var entry := new Entry(res);
      var list := if userId in clients then clients[userId] else [];
      AppendKeepsValid(clients, userId, entry);
      clients := clients[userId := list + [entry]];
      assert Valid();
      var ok := res.Write(RetryFrame);
      if !ok {
        return Threw(userId, entry);
      }
      ok := res.Write("event: connected\n");
      ok := res.Write("data: {}\n\n");
      entry.heartbeat := true;
      h := Unregister(userId, entry);
    }

    /**
     * The returned closure and the `close` listener, which do the same: stop the
     * heartbeat, filter the entry out of its user's list, delete the key when empty.
     */
    method Release(h: Handle)
      requires Valid()
      modifies this, if h.Unregister? then {h.entry} else {}
      ensures Valid()
      ensures h.Unregister? ==> !h.entry.heartbeat && clients == Removed(old(clients), h.key, h.entry)
      ensures !h.Unregister? ==> clients == old(clients)
    {
      if !h.Unregister? {
        return;
      }
      h.entry.heartbeat := false;
      var list := if h.key in clients then clients[h.key] else [];
      clients := clients[h.key := Without(list, h.entry)];
      if clients[h.key] == [] {
        clients := clients - {h.key};
      }
      RemovedEffect(old(clients), h.key, h.entry);
      assert Valid() by {
        forall u, i, v, j |
          u in clients && v in clients && 0 <= i < |clients[u]| && 0 <= j < |clients[v]| &&
          clients[u][i].res == clients[v][j].res
          ensures u == v && i == j
        {
          var k := OldIndex(old(clients), clients, u, i);
          var l := OldIndex(old(clients), clients, v, j);
          if u == v && u == h.key {
            assert DistinctStreams(old(clients)[u]);
            assert DistinctStreams(clients[u]);
          }
        }
      }
    }

    /**
     * One firing of an entry's heartbeat interval: the `:ok` comment line
     * (`keepAlive`). The write is not guarded, so on a broken stream it throws
     * out of the interval callback; `threw` reports that.
     */
    method Tick(e: Entry) returns (threw: bool)
      modifies e.res
      ensures threw == (e.heartbeat && e.res.broken)
      ensures e.res.broken == old(e.res.broken)
      ensures e.res.log == old(e.res.log) + (if e.heartbeat && !e.res.broken then [HeartbeatFrame] else [])
    {
      threw := false;
      if e.heartbeat {
        var ok := e.res.Write(HeartbeatFrame);
        threw := !ok;
      }
    }

    /**
     * The `try` block of `sendEvent` for the `k`-th stream of `userId`: the
     * `event:` line, then the `data:` line unless the first write threw.
     */
    method Deliver(userId: string, k: int, event: string, payload: string)
      requires Valid() && userId in clients && 0 <= k < |clients[userId]|
      modifies clients[userId][k].res
      ensures clients[userId][k].res.broken == old(clients[userId][k].res.broken)
      ensures forall u, j :: u in clients && 0 <= j < |clients[u]| ==>
                clients[u][j].res.log ==
                old(clients[u][j].res.log) +
                (if u == userId && j == k && !clients[u][j].res.broken then Frames(event, payload) else [])
    {
      var res := clients[userId][k].res;
      var ok := res.Write("event: " + event + "\n");
      if ok {
        ok := res.Write("data: " + payload + "\n\n");
      }
      forall u, j | u in clients && 0 <= j < |clients[u]| && clients[u][j].res == res
        ensures u == userId && j == k
      {
      }
    }

    /**
     * `sendEvent(userId, event, data)`: the payload is serialised once and each
     * of the user's streams, in registration order, gets the `event:` and
     * `data:` lines; a throwing stream is skipped and the rest still receive it.
     */
    method SendEvent(userId: string, event: string, data: Json)
      requires Valid()
      modifies Channels()
      ensures forall c :: c in old(Channels()) ==> c.broken == old(c.broken)
      ensures forall u, i :: u in clients && 0 <= i < |clients[u]| ==>
                clients[u][i].res.log ==
                old(clients[u][i].res.log) +
                (if u == userId && !clients[u][i].res.broken then Frames(event, stringify(data)) else [])
    {
      if userId !in clients || |clients[userId]| == 0 {
        return;
      }
      var entries := clients[userId];
      var payload := stringify(data);
      var i := 0;
      while i < |entries|
        invariant 0 <= i <= |entries|
        invariant forall c :: c in old(Channels()) ==> c.broken == old(c.broken)
        invariant forall u, k :: u in clients && 0 <= k < |clients[u]| ==>
                    clients[u][k].res.log ==
                    old(clients[u][k].res.log) +
                    (if u == userId && k < i && !clients[u][k].res.broken then Frames(event, payload) else [])
      {
        Deliver(userId, i, event, payload);
        i := i + 1;
      }
    }

    /** `SendEvent` for each recorded call of `batch`, in order. */
    method SendBatch(batch: seq<Outbound>)
      requires Valid()
      modifies Channels()
      ensures forall c :: c in old(Channels()) ==> c.broken == old(c.broken)
      ensures forall u, i :: u in clients && 0 <= i < |clients[u]| ==>
                clients[u][i].res.log ==
                old(clients[u][i].res.log) + (if clients[u][i].res.broken then [] else FramesFor(batch, u))
    {
      var n := 0;
      while n < |batch|
        invariant 0 <= n <= |batch|
        invariant forall c :: c in old(Channels()) ==> c.broken == old(c.broken)
        invariant forall u, i :: u in clients && 0 <= i < |clients[u]| ==>
                    clients[u][i].res.log ==
                    old(clients[u][i].res.log) + (if clients[u][i].res.broken then [] else FramesFor(batch[..n], u))
      {
        SendEvent(batch[n].target, batch[n].event, batch[n].data);
        assert batch[..n + 1][..n] == batch[..n];
        assert forall u ::
                 FramesFor(batch[..n + 1], u) ==
                 FramesFor(batch[..n], u) + (if batch[n].target == u then Frames(batch[n].event, stringify(batch[n].data)) else []);
        n := n + 1;
      }
      assert batch[..n] == batch;
    }

    /** `broadcastToUsers(ids, event, data)`: `SendEvent` for each id in turn. */
    method BroadcastToUsers(ids: seq<string>, event: string, data: Json)
      requires Valid()
      modifies Channels()
      ensures forall c :: c in old(Channels()) ==> c.broken == old(c.broken)
      ensures forall u, i :: u in clients && 0 <= i < |clients[u]| ==>
                clients[u][i].res.log ==
                old(clients[u][i].res.log) +
                (if clients[u][i].res.broken then [] else Repeat(Frames(event, stringify(data)), Occurrences(ids, u)))
    {
      var n := 0;
      while n < |ids|
        invariant 0 <= n <= |ids|
        invariant forall c :: c in old(Channels()) ==> c.broken == old(c.broken)
        invariant forall u, i :: u in clients && 0 <= i < |clients[u]| ==>
                    clients[u][i].res.log ==
                    old(clients[u][i].res.log) +
                    (if clients[u][i].res.broken then [] else Repeat(Frames(event, stringify(data)), Occurrences(ids[..n], u)))
      {
        SendEvent(ids[n], event, data);
        RepeatStep(ids, n, Frames(event, stringify(data)));
        n := n + 1;
      }
      assert ids[..n] == ids;
    }
  }
}
