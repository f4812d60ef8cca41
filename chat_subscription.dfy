/** The `onMessage` chat subscription, one object per connection. The async
    generator becomes a state machine whose steps are its suspension points:
    `Start` fetches the snapshot and yields `init` with id "0"; `Listen`
    resumes after that yield and registers the queueing listener; `Deliver`
    is the listener (`messageQueue.push`); each `Tick` is one pass of the
    polling loop: the abort check after the 100 ms sleep, then the inner
    loop that shifts and yields every queued message with the next id;
    `Close` is the generator being ended from outside, which runs the
    `finally` that unsubscribes. The studio and minato copies of this
    generator are the same code and share this model. */
module ChatSubscription {
  import opened Common
  import opened Domain
  import opened Decimal
  import opened ChatEvents

  /** An item the stream yields: `{ id, type: 'init', messages }` or
      `{ id, type: 'message', message }`. */
  datatype ChatItem = Init(id: string, messages: seq<ChatMessage>) | Message(id: string, message: ChatMessage)

  /** Where the generator is: not started, suspended at the `init` yield,
      inside the polling loop with its listener registered, or finished. */
  datatype Phase = NotStarted | AtInit | Polling | Done

  /** The messages carried by the `message` items, in yield order. */
  function MessagesOf(items: seq<ChatItem>): (ms: seq<ChatMessage>)
    ensures |ms| <= |items|
  {
    if |items| == 0 then []
    else (if items[0].Message? then [items[0].message] else []) + MessagesOf(items[1..])
  }

  lemma MessagesOfAppend(a: seq<ChatItem>, b: seq<ChatItem>)
    ensures MessagesOf(a + b) == MessagesOf(a) + MessagesOf(b)
  {
    if |a| > 0 {
      assert (a + b)[1..] == a[1..] + b;
      MessagesOfAppend(a[1..], b);
    } else {
      assert a + b == b;
    }
  }

  /** The `message` items one drain yields for the queued `msgs`, numbered
      from the counter value `from`. */
  function Numbered(from: nat, msgs: seq<ChatMessage>): (items: seq<ChatItem>)
    ensures |items| == |msgs|
  {
    seq(|msgs|, i requires 0 <= i < |msgs| => Message(NatToString(from + i), msgs[i]))
  }

  lemma {:induction false} MessagesOfNumbered(from: nat, msgs: seq<ChatMessage>)
    ensures MessagesOf(Numbered(from, msgs)) == msgs
    decreases |msgs|
  {
    if |msgs| > 0 {
      assert Numbered(from, msgs)[1..] == Numbered(from + 1, msgs[1..]);
      MessagesOfNumbered(from + 1, msgs[1..]);
    }
  }

  /** Item `k` of a stream carries the id `String(k)`. */
  ghost predicate ConsecutiveIds(items: seq<ChatItem>) {
    forall k :: 0 <= k < |items| ==> items[k].id == NatToString(k)
  }

  class ChatStream {
    /** The identity of the closure this connection registers. */
    const listener: ListenerId
    var phase: Phase
    /** `eventId`: the id the next yielded item gets. */
    var eventId: nat
    /** `messageQueue` */
    var queue: seq<ChatMessage>
    /** Whether this stream's listener is registered on the bus. */
    var subscribed: bool
    /** Everything the generator has yielded, in order. */
    var emitted: seq<ChatItem>
    /** Every message the bus has handed to this stream's listener. */
    ghost var delivered: seq<ChatMessage>

    /** The per-connection invariant: ids are 0, 1, 2, ... as strings; the
        first item is the snapshot and every later one a message; every
        delivered message is either yielded or still queued, in delivery
        order, so nothing is reordered, lost or yielded twice; the listener
        is registered exactly while the loop runs. */
    ghost predicate Valid()
      reads this
    {
      && eventId == |emitted|
      && ConsecutiveIds(emitted)
      && (|emitted| > 0 ==> emitted[0].Init?)
      && (forall k :: 0 < k < |emitted| ==> emitted[k].Message?)
      && MessagesOf(emitted) + queue == delivered
      && (subscribed <==> phase == Polling)
      && (phase == NotStarted ==> emitted == [] && delivered == [])
      && (phase == AtInit || phase == Polling ==> |emitted| > 0)
      && (phase == AtInit ==> queue == [] && delivered == [])
    }

    constructor (listener: ListenerId)
      ensures Valid() && this.listener == listener
      ensures phase == NotStarted && !subscribed && emitted == [] && queue == []
    {
      this.listener := listener;
      phase := NotStarted;
      eventId := 0;
      queue := [];
      subscribed := false;
      emitted := [];
      delivered := [];
    }

    /** The snapshot fetch and the first yield. `snapshot` is what
        `getChatMessages()` returned, or `None` when it threw: the error
        ends the stream before anything is yielded or registered. */
    method Start(snapshot: Option<seq<ChatMessage>>)
      requires Valid() && phase == NotStarted
      modifies this
      ensures Valid() && queue == [] && !subscribed
      ensures snapshot.Some? ==> phase == AtInit && emitted == [Init("0", snapshot.value)]
      ensures snapshot.None? ==> phase == Done && emitted == []
    {
      if snapshot.Some? {
        emitted := [Init(NatToString(eventId), snapshot.value)];
        eventId := eventId + 1;
        phase := AtInit;
      } else {
        phase := Done;
      }
    }

    /** Resuming after the `init` yield: the listener that pushes onto the
        queue is registered, after the snapshot, so nothing published before
        this point is ever queued. */
    method Listen(bus: ChatEventEmitter)
      requires Valid() && phase == AtInit
      modifies this, bus
      ensures Valid() && phase == Polling && subscribed
      ensures emitted == old(emitted) && queue == [] && delivered == []
      ensures bus.listeners == old(bus.listeners) + [listener]
    {
      var _ := bus.SubscribeToMessages(listener);
      subscribed := true;
      phase := Polling;
    }

    /** The listener: `messageQueue.push(msg)`. The bus calls it only while
        it is registered. */
    method Deliver(msg: ChatMessage)
      requires Valid() && subscribed
      modifies this
      ensures Valid()
      ensures queue == old(queue) + [msg] && delivered == old(delivered) + [msg]
      ensures emitted == old(emitted) && phase == old(phase) && subscribed == old(subscribed)
      ensures eventId == old(eventId)
    {
      queue := queue + [msg];
      delivered := delivered + [msg];
    }

    /** One pass of the polling loop, with `abortedNow` the state of the
        abort signal at the check. When it is set, the loop is left and the
        `finally` unsubscribes; otherwise every queued message is shifted
        off and yielded with the next id, in queue order. */
    method Tick(bus: ChatEventEmitter, abortedNow: bool)
      requires Valid() && phase == Polling
      modifies this, bus
      ensures Valid() && delivered == old(delivered)
      ensures abortedNow ==> phase == Done && !subscribed && emitted == old(emitted)
      ensures abortedNow ==> bus.listeners == RemoveLast(old(bus.listeners), listener)
      ensures !abortedNow ==> phase == Polling && queue == []
      ensures !abortedNow ==> emitted == old(emitted) + Numbered(old(eventId), old(queue))
      ensures !abortedNow ==> bus.listeners == old(bus.listeners)
    {
      if abortedNow {
        bus.Release(Unsubscribe(listener));
        subscribed := false;
        phase := Done;
        return;
      }
      ghost var before := emitted;
      ghost var pending := queue;
      ghost var k := 0;
      while |queue| > 0
        modifies this
        invariant 0 <= k <= |pending| && queue == pending[k..]
        invariant eventId == |before| + k
        invariant emitted == before + Numbered(|before|, pending[..k])
        invariant phase == old(phase) && subscribed == old(subscribed) && delivered == old(delivered)
        decreases |queue|
      {
        var message := queue[0];
        queue := queue[1..];
        emitted := emitted + [Message(NatToString(eventId), message)];
        eventId := eventId + 1;
        assert pending[..k + 1] == pending[..k] + [message];
        k := k + 1;
      }
      assert pending[..k] == pending;
      DrainKeepsInvariant(before, pending);
    }

    /** The generator being ended from outside (the client disconnected at
        a yield, or an error propagated): the `finally` unsubscribes if the
        listener was registered, and nothing is yielded afterwards. */
    method Close(bus: ChatEventEmitter)
      requires Valid() && phase != NotStarted
      modifies this, bus
      ensures Valid() && phase == Done && !subscribed
      ensures emitted == old(emitted)
      ensures old(subscribed) ==> bus.listeners == RemoveLast(old(bus.listeners), listener)
      ensures !old(subscribed) ==> bus.listeners == old(bus.listeners)
    {
      if subscribed {
        bus.Release(Unsubscribe(listener));
        subscribed := false;
      }
      phase := Done;
    }
  }

  /** Appending a drain to a stream that starts with its snapshot keeps the
      ids consecutive and the later items messages, and adds exactly the
      drained messages, in order. */
  lemma DrainKeepsInvariant(before: seq<ChatItem>, msgs: seq<ChatMessage>)
    requires ConsecutiveIds(before) && |before| > 0
    requires forall k :: 0 < k < |before| ==> before[k].Message?
    ensures var after := before + Numbered(|before|, msgs);
            && ConsecutiveIds(after)
            && (forall k :: 0 < k < |after| ==> after[k].Message?)
            && MessagesOf(after) == MessagesOf(before) + msgs
  {
    MessagesOfAppend(before, Numbered(|before|, msgs));
    MessagesOfNumbered(|before|, msgs);
  }

  /** Ids of a stream are never reused: distinct positions carry distinct
      ids. */
  lemma IdsDistinct(items: seq<ChatItem>, i: nat, j: nat)
    requires ConsecutiveIds(items) && i < j < |items|
    ensures items[i].id != items[j].id
  {
    if items[i].id == items[j].id {
      NatToStringInjective(i, j);
    }
  }
}
