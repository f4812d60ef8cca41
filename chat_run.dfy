/** A whole chat connection against the shared bus: the snapshot, then an
    interleaving of publications (`sendMessage` calling `emitMessage`) and
    passes of the polling loop, then the end of the generator. `ChatRun`
    says what the connection yields; `RunChatStream` drives the bus and
    stream objects through the same events and yields exactly that. */
module ChatRun {
  import opened Common
  import opened Domain
  import opened ChatEvents
  import opened ChatSubscription
  import opened Fanout

  /** What happens while the connection is open: a message published on the
      bus, or one pass of the polling loop with the abort flag it sees. */
  datatype Event = Published(message: ChatMessage) | Pass(aborted: bool)

  /** The messages published by `events`, in order. */
  function PublishedMessages(events: seq<Event>): (ms: seq<ChatMessage>)
    ensures |ms| <= |events|
  {
    if |events| == 0 then []
    else (if events[0].Published? then [events[0].message] else []) + PublishedMessages(events[1..])
  }

  /** The `message` items yielded while `events` happen, with `queue` the
      messages already queued and `next` the next id: a publication is
      queued, a pass that sees the abort ends the stream, any other pass
      drains the whole queue in order. Whatever is still queued when the
      events run out is never yielded. */
  function Drains(next: nat, queue: seq<ChatMessage>, events: seq<Event>): seq<ChatItem>
    decreases |events|
  {
    if |events| == 0 then []
    else match events[0]
      case Published(m) => Drains(next, queue + [m], events[1..])
      case Pass(aborted) =>
        if aborted then []
        else Numbered(next, queue) + Drains(next + |queue|, [], events[1..])
  }

  /** One event at a time: a publication joins the queue, a pass that sees
      the abort ends the drains, any other pass drains the queue first. */
  lemma DrainsStep(next: nat, queue: seq<ChatMessage>, events: seq<Event>)
    requires |events| > 0
    ensures events[0].Published? ==> Drains(next, queue, events) == Drains(next, queue + [events[0].message], events[1..])
    ensures events[0] == Pass(true) ==> Drains(next, queue, events) == []
    ensures events[0] == Pass(false) ==>
              Drains(next, queue, events) == Numbered(next, queue) + Drains(next + |queue|, [], events[1..])
  {
  }

  /** Everything a connection yields: nothing when the snapshot fetch threw,
      otherwise `init` with id "0" and then the drains. */
  function ChatRun(snapshot: Option<seq<ChatMessage>>, events: seq<Event>): (items: seq<ChatItem>)
    ensures snapshot.None? ==> items == []
    ensures snapshot.Some? ==> |items| >= 1 && items[0] == Init("0", snapshot.value)
  {
    match snapshot
    case None => []
    case Some(ms) => [Init(Decimal.NatToString(0), ms)] + Drains(1, [], events)
  }

  /** `xs` is an initial segment of `ys`. */
  predicate IsPrefix(xs: seq<ChatMessage>, ys: seq<ChatMessage>) {
    |xs| <= |ys| && ys[..|xs|] == xs
  }

  /** The drained messages are, in order, an initial segment of what was
      queued followed by what was published: nothing is reordered, yielded
      twice, or invented. */
  lemma {:induction false} DrainsArePrefix(next: nat, queue: seq<ChatMessage>, events: seq<Event>)
    ensures IsPrefix(MessagesOf(Drains(next, queue, events)), queue + PublishedMessages(events))
    decreases |events|, 1
  {
    if |events| == 0 || events[0] == Pass(true) {
      assert Drains(next, queue, events) == [];
      assert (queue + PublishedMessages(events))[..0] == [];
    } else if events[0].Published? {
      PrefixAfterPublish(next, queue, events);
    } else {
      PrefixAfterDrain(next, queue, events);
    }
  }

  lemma {:induction false} PrefixAfterPublish(next: nat, queue: seq<ChatMessage>, events: seq<Event>)
    requires |events| > 0 && events[0].Published?
    ensures IsPrefix(MessagesOf(Drains(next, queue, events)), queue + PublishedMessages(events))
    decreases |events|, 0
  {
    var m := events[0].message;
    var rest := events[1..];
    DrainsStep(next, queue, events);
    DrainsArePrefix(next, queue + [m], rest);
    assert PublishedMessages(events) == [m] + PublishedMessages(rest);
    assert queue + PublishedMessages(events) == queue + [m] + PublishedMessages(rest);
  }

  lemma {:induction false} PrefixAfterDrain(next: nat, queue: seq<ChatMessage>, events: seq<Event>)
    requires |events| > 0 && events[0] == Pass(false)
    ensures IsPrefix(MessagesOf(Drains(next, queue, events)), queue + PublishedMessages(events))
    decreases |events|, 0
  {
    var rest := events[1..];
    DrainsStep(next, queue, events);
    assert PublishedMessages(events) == PublishedMessages(rest);
    var d := Drains(next + |queue|, [], rest);
    DrainsArePrefix(next + |queue|, [], rest);
    assert [] + PublishedMessages(rest) == PublishedMessages(rest);
    MessagesOfAppend(Numbered(next, queue), d);
    MessagesOfNumbered(next, queue);
    PrefixExtend(queue, MessagesOf(d), PublishedMessages(rest));
  }

  lemma PrefixExtend(q: seq<ChatMessage>, xs: seq<ChatMessage>, ys: seq<ChatMessage>)
    requires IsPrefix(xs, ys)
    ensures IsPrefix(q + xs, q + ys)
  {
    assert (q + ys)[..|q + xs|] == q + ys[..|xs|];
  }

  /** `items` are `message` items numbered `next`, `next + 1`, ... */
  ghost predicate MessagesFrom(next: nat, items: seq<ChatItem>) {
    forall k :: 0 <= k < |items| ==> items[k].Message? && items[k].id == Decimal.NatToString(next + k)
  }

  /** The drained items are `message` items numbered `next`, `next + 1`,
      ... without gaps. */
  lemma {:induction false} DrainsNumbered(next: nat, queue: seq<ChatMessage>, events: seq<Event>)
    ensures MessagesFrom(next, Drains(next, queue, events))
    decreases |events|
  {
    if |events| > 0 {
      var rest := events[1..];
      match events[0]
      case Published(m) =>
        assert Drains(next, queue, events) == Drains(next, queue + [m], rest);
        DrainsNumbered(next, queue + [m], rest);
      case Pass(aborted) =>
        if !aborted {
          var head := Numbered(next, queue);
          var tail := Drains(next + |queue|, [], rest);
          var items: seq<ChatItem> := head + tail;
          assert Drains(next, queue, events) == items;
          DrainsNumbered(next + |queue|, [], rest);
          forall k | |head| <= k < |items|
            ensures items[k].Message? && items[k].id == Decimal.NatToString(next + k)
          {
            assert items[k] == tail[k - |queue|];
          }
        }
    }
  }

  /** Once a pass sees the abort, nothing that happens afterwards changes
      what the connection yields. */
  lemma {:induction false} DrainsStopAtAbort(next: nat, queue: seq<ChatMessage>, before: seq<Event>, after: seq<Event>)
    ensures Drains(next, queue, before + [Pass(true)] + after) == Drains(next, queue, before + [Pass(true)])
    decreases |before|
  {
    var all := before + [Pass(true)] + after;
    var cut := before + [Pass(true)];
    if |before| == 0 {
      assert all[0] == Pass(true) && cut[0] == Pass(true);
    } else {
      assert all[0] == before[0] && cut[0] == before[0];
      assert all[1..] == before[1..] + [Pass(true)] + after;
      assert cut[1..] == before[1..] + [Pass(true)];
      match before[0]
      case Published(m) =>
        DrainsStopAtAbort(next, queue + [m], before[1..], after);
      case Pass(aborted) =>
        if !aborted {
          DrainsStopAtAbort(next + |queue|, [], before[1..], after);
        }
    }
  }

  /** The properties of a whole connection: ids are "0", "1", "2", ...;
      the snapshot comes first and only messages follow; the messages are
      an initial segment of those published after the listener was
      registered, in publication order. */
  lemma ChatRunShape(snapshot: Option<seq<ChatMessage>>, events: seq<Event>)
    ensures var items := ChatRun(snapshot, events);
            && ConsecutiveIds(items)
            && (forall k :: 0 < k < |items| ==> items[k].Message?)
            && IsPrefix(MessagesOf(items), PublishedMessages(events))
  {
    if snapshot.Some? {
      var items := ChatRun(snapshot, events);
      var drains := Drains(1, [], events);
      DrainsNumbered(1, [], events);
      DrainsArePrefix(1, [], events);
      assert items == [items[0]] + drains;
      MessagesOfAppend([items[0]], drains);
      assert MessagesOf([items[0]]) == [] by {
        assert [items[0]][1..] == [];
      }
      assert [] + PublishedMessages(events) == PublishedMessages(events);
      forall k | 0 < k < |items| ensures items[k].id == Decimal.NatToString(k) && items[k].Message? {
        assert items[k] == drains[k - 1];
        assert drains[k - 1].Message? && drains[k - 1].id == Decimal.NatToString(1 + (k - 1));
      }
    }
  }

  /** One event against an open connection: a publication goes through the
      bus to the connection's listener, a pass is a `Tick`. What has been
      yielded plus what the later events will drain stays the same. */
  method Step(bus: ChatEventEmitter, conn: ChatStream, e: Event, ghost later: seq<Event>)
    requires conn.Valid() && conn.phase == Polling && bus.listeners == [conn.listener]
    modifies bus, conn
    ensures conn.Valid() && (conn.phase == Polling || conn.phase == Done)
    ensures bus.listeners == if conn.subscribed then [conn.listener] else []
    ensures conn.phase == Polling ==>
              conn.emitted + Drains(conn.eventId, conn.queue, later)
              == old(conn.emitted) + Drains(old(conn.eventId), old(conn.queue), [e] + later)
    ensures conn.phase == Done ==>
              conn.emitted == old(conn.emitted) + Drains(old(conn.eventId), old(conn.queue), [e] + later)
  {
    ghost var before := conn.emitted;
    ghost var q := conn.queue;
    assert ([e] + later)[0] == e && ([e] + later)[1..] == later;
    DrainsStep(conn.eventId, q, [e] + later);
    match e {
      case Published(m) =>
        PublishToOne(bus, conn, m);
      case Pass(aborted) =>
        conn.Tick(bus, aborted);
        if !aborted {
          assert conn.emitted + Drains(conn.eventId, [], later)
              == before + (Numbered(|before|, q) + Drains(|before| + |q|, [], later));
        } else {
          assert before + [] == before;
        }
    }
  }

  /** The polling loop of an open connection run through `events`, and the
      generator closed if it is still polling when they run out: the
      connection yields the drains, and its listener is gone. */
  method Drive(bus: ChatEventEmitter, conn: ChatStream, events: seq<Event>)
    requires conn.Valid() && conn.phase == Polling && bus.listeners == [conn.listener]
    modifies bus, conn
    ensures conn.emitted == old(conn.emitted) + Drains(old(conn.eventId), old(conn.queue), events)
    ensures bus.listeners == []
  {
    ghost var target := conn.emitted + Drains(conn.eventId, conn.queue, events);
    assert events[0..] == events;
    var i := 0;
    while i < |events| && conn.phase == Polling
      invariant 0 <= i <= |events|
      invariant conn.Valid() && (conn.phase == Polling || conn.phase == Done)
      invariant bus.listeners == if conn.subscribed then [conn.listener] else []
      invariant conn.phase == Polling ==> conn.emitted + Drains(conn.eventId, conn.queue, events[i..]) == target
      invariant conn.phase == Done ==> conn.emitted == target
      decreases |events| - i
    {
      assert events[i..] == [events[i]] + events[i + 1..];
      Step(bus, conn, events[i], events[i + 1..]);
      i := i + 1;
    }
    if conn.phase == Polling {
      assert i == |events| && events[i..] == [];
      assert conn.emitted + [] == conn.emitted;
      conn.Close(bus);
    }
  }

  /** The connection driven through `events` on a fresh bus: `Start` with
      the snapshot, `Listen`, then each publication goes through the bus and
      each pass is a `Tick`, until the stream ends; if it is still polling
      when the events run out it is closed. It yields `ChatRun`, and the
      bus is left without listeners: the `finally` always unsubscribes. */
  method RunChatStream(snapshot: Option<seq<ChatMessage>>, events: seq<Event>)
    returns (items: seq<ChatItem>, remaining: seq<ListenerId>)
    ensures items == ChatRun(snapshot, events)
    ensures remaining == []
  {
    var bus := new ChatEventEmitter();
    var conn := new ChatStream(0);
    conn.Start(snapshot);
    if conn.phase == AtInit {
      conn.Listen(bus);
      Drive(bus, conn, events);
    }
    items := conn.emitted;
    remaining := bus.listeners;
  }
}
