/** What one `chatEvents.emitMessage(m)` does to the open chat connections:
    `emit` calls the registered listeners in order, and each listener is the
    closure of one stream, which pushes `m` onto that stream's queue. */
module Fanout {
  import opened Common
  import opened Domain
  import opened Text
  import opened ChatEvents
  import opened ChatSubscription

  /** The listener ids of the given streams, in order (no heap reads:
      `listener` is a constant). */
  function ListenerIds(streams: seq<ChatStream>): (ids: seq<ListenerId>)
    ensures |ids| == |streams|
    ensures forall k :: 0 <= k < |streams| ==> ids[k] == streams[k].listener
  {
    seq(|streams|, k requires 0 <= k < |streams| => streams[k].listener)
  }

  /** The bus and the connections agree: each connection has its own
      listener, the bus holds each registration once, and a listener is
      registered exactly when its connection's loop is running. */
  ghost predicate Wired(bus: ChatEventEmitter, streams: seq<ChatStream>)
    reads bus, streams
  {
    && NoDuplicates(ListenerIds(streams))
    && NoDuplicates(bus.listeners)
    && (forall l :: l in bus.listeners ==> l in ListenerIds(streams))
    && AllValid(streams)
    && (forall k :: 0 <= k < |streams| ==> (streams[k].subscribed <==> streams[k].listener in bus.listeners))
  }

  ghost predicate AllValid(streams: seq<ChatStream>)
    reads streams
  {
    forall k :: 0 <= k < |streams| ==> streams[k].Valid()
  }

  /** Publishing `m`: every registered connection receives exactly one copy
      of `m` at the end of its queue, connections that are not registered
      receive nothing, and no connection's state is otherwise touched. */
  method Publish(bus: ChatEventEmitter, streams: seq<ChatStream>, m: ChatMessage) returns (calls: seq<Call>)
    requires Wired(bus, streams)
    modifies streams
    ensures Wired(bus, streams)
    ensures calls == Calls(bus.listeners, m)
    ensures forall k :: 0 <= k < |streams| ==>
              streams[k].queue == old(streams[k].queue) + (if old(streams[k].subscribed) then [m] else [])
    ensures forall k :: 0 <= k < |streams| ==>
              && streams[k].emitted == old(streams[k].emitted)
              && streams[k].phase == old(streams[k].phase)
              && streams[k].subscribed == old(streams[k].subscribed)
  {
    calls := bus.EmitMessage(m);
    RunListeners(streams, ListenerIds(streams), bus.listeners, m);
  }

  /** `emit` calling the listeners `ls` in order: each one pushes `m` onto
      the queue of the connection it belongs to. */
  method RunListeners(streams: seq<ChatStream>, ids: seq<ListenerId>, ls: seq<ListenerId>, m: ChatMessage)
    requires ids == ListenerIds(streams) && NoDuplicates(ids) && NoDuplicates(ls)
    requires forall l :: l in ls ==> l in ids
    requires AllValid(streams)
    requires forall k :: 0 <= k < |streams| ==> (streams[k].subscribed <==> ids[k] in ls)
    modifies streams
    ensures AllValid(streams)
    ensures forall k :: 0 <= k < |streams| ==>
              streams[k].queue == old(streams[k].queue) + (if ids[k] in ls then [m] else [])
    ensures forall k :: 0 <= k < |streams| ==>
              && streams[k].emitted == old(streams[k].emitted)
              && streams[k].phase == old(streams[k].phase)
              && streams[k].subscribed == old(streams[k].subscribed)
  {
    ghost var queues := seq(|streams|, k requires 0 <= k < |streams| reads streams => streams[k].queue);
    for i := 0 to |ls|
      invariant AllValid(streams)
      invariant forall k :: 0 <= k < |streams| ==>
                  streams[k].queue == queues[k] + (if ids[k] in ls[..i] then [m] else [])
      invariant forall k :: 0 <= k < |streams| ==>
                  && streams[k].emitted == old(streams[k].emitted)
                  && streams[k].phase == old(streams[k].phase)
                  && streams[k].subscribed == old(streams[k].subscribed)
    {
      var j := IndexOf(ids, ls[i]);
      PrefixStep(ls, i);
      DistinctAt(ids, j);
      DeliverAt(streams, j, m);
    }
    assert ls[..|ls|] == ls;
  }

  /** The listener of connection `j` runs: it pushes `m` onto that
      connection's queue, and on no other, since distinct listeners belong
      to distinct connections. */
  method DeliverAt(streams: seq<ChatStream>, j: int, m: ChatMessage)
    requires 0 <= j < |streams| && AllValid(streams) && streams[j].subscribed
    requires forall k :: 0 <= k < |streams| && k != j ==> streams[k].listener != streams[j].listener
    modifies streams[j]
    ensures AllValid(streams)
    ensures forall k :: 0 <= k < |streams| ==>
              streams[k].queue == old(streams[k].queue) + (if k == j then [m] else [])
    ensures forall k :: 0 <= k < |streams| ==>
              && streams[k].emitted == old(streams[k].emitted)
              && streams[k].phase == old(streams[k].phase)
              && streams[k].subscribed == old(streams[k].subscribed)
  {
    streams[j].Deliver(m);
    forall k | 0 <= k < |streams| && k != j ensures streams[k] != streams[j] {
    }
  }

  /** Extending the prefix of a duplicate-free list by one element adds
      exactly that element. */
  lemma PrefixStep(ls: seq<ListenerId>, i: nat)
    requires NoDuplicates(ls) && i < |ls|
    ensures forall x :: x in ls[..i + 1] <==> x in ls[..i] || x == ls[i]
    ensures ls[i] !in ls[..i]
  {
    assert ls[..i + 1] == ls[..i] + [ls[i]];
  }

  lemma DistinctAt(ids: seq<ListenerId>, j: int)
    requires NoDuplicates(ids) && 0 <= j < |ids|
    ensures forall k :: 0 <= k < |ids| && k != j ==> ids[k] != ids[j]
  {
    forall k | 0 <= k < |ids| && k != j ensures ids[k] != ids[j] {
      if k < j { } else { }
    }
  }

  /** A single open connection, alone on the bus, is wired. */
  lemma SingleWired(bus: ChatEventEmitter, conn: ChatStream)
    requires conn.Valid() && conn.subscribed && bus.listeners == [conn.listener]
    ensures Wired(bus, [conn])
  {
    assert ListenerIds([conn]) == [conn.listener];
  }

  /** Publishing to a bus whose only listener is `conn`. */
  method PublishToOne(bus: ChatEventEmitter, conn: ChatStream, m: ChatMessage)
    requires conn.Valid() && conn.subscribed && bus.listeners == [conn.listener]
    modifies conn
    ensures conn.Valid() && conn.subscribed && conn.phase == old(conn.phase)
    ensures conn.queue == old(conn.queue) + [m] && conn.emitted == old(conn.emitted)
  {
    SingleWired(bus, conn);
    var streams := [conn];
    var _ := Publish(bus, streams, m);
    assert streams[0] == conn;
  }

  /** A fresh bus and one connection on it that has yielded its snapshot
      and is waiting for messages. */
  method OpenConnection(snapshot: seq<ChatMessage>) returns (bus: ChatEventEmitter, conn: ChatStream)
    ensures fresh(bus) && fresh(conn)
    ensures conn.Valid() && conn.subscribed && conn.phase == Polling
    ensures conn.queue == [] && conn.eventId == 1 && conn.emitted == [Init("0", snapshot)]
    ensures bus.listeners == [conn.listener]
  {
    bus := new ChatEventEmitter();
    conn := new ChatStream(0);
    conn.Start(Some(snapshot));
    conn.Listen(bus);
  }

  /** The scenario of a chat connection that is open before two messages are
      published: it yields the snapshot, then the first and then the second
      message, with ids "0", "1" and "2". */
  method TwoMessagesScenario(snapshot: seq<ChatMessage>, a: ChatMessage, b: ChatMessage)
    returns (items: seq<ChatItem>)
    ensures items == [Init("0", snapshot), Message("1", a), Message("2", b)]
  {
    var bus, conn := OpenConnection(snapshot);
    PublishToOne(bus, conn, a);
    PublishToOne(bus, conn, b);
    assert conn.queue == [a, b];
    conn.Tick(bus, false);
    items := conn.emitted;
    assert items == [Init("0", snapshot)] + Numbered(1, [a, b]);
    assert Decimal.NatToString(1) == "1" && Decimal.NatToString(2) == "2";
  }

  /** The scenario of a connection that is cancelled before anything is
      published: exactly one item is yielded and the bus is left with the
      listeners it had before the connection opened. */
  method CancelScenario(bus: ChatEventEmitter, snapshot: seq<ChatMessage>, id: ListenerId)
    returns (items: seq<ChatItem>)
    requires NoDuplicates(bus.listeners) && id !in bus.listeners
    modifies bus
    ensures items == [Init("0", snapshot)]
    ensures bus.listeners == old(bus.listeners)
  {
    var conn := new ChatStream(id);
    conn.Start(Some(snapshot));
    conn.Listen(bus);
    conn.Tick(bus, true);
    items := conn.emitted;
    SubscribeThenUnsubscribe(old(bus.listeners), id);
  }
}
