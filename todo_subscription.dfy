/** The `onUpdate` todo subscription, one object per connection. It yields
    `sync` with id "0" and the list `getTodos()` returned, then, once per
    pass of the polling loop (3000 ms sleep, abort check, fresh
    `getTodos()`), an `update` with the next id. The sleep and the abort
    signal are inputs to `Tick`, the result of each `getTodos()` call is an
    input (`None` when it threw), and so is the `Date.now()` reading. */
module TodoSubscription {
  import opened Common
  import opened Domain
  import opened Decimal

  /** `{ id, type: 'sync' | 'update', todos, timestamp }` */
  datatype TodoItem =
    | Sync(id: string, todos: seq<Todo>, timestamp: int)
    | Update(id: string, todos: seq<Todo>, timestamp: int)

  datatype Phase = NotStarted | Polling | Done

  /** What one pass of the polling loop sees: the abort flag after the
      sleep, what `getTodos()` returned (`None`: it threw), and the clock. */
  datatype Poll = Poll(aborted: bool, fetched: Option<seq<Todo>>, now: int)

  /** A pass that leaves the loop: an abort, or a fetch error rethrown. */
  predicate Stops(p: Poll) {
    p.aborted || p.fetched.None?
  }

  /** The `update` items the loop yields for `polls`, numbered from `from`:
      one per pass, up to the first pass that stops. */
  function Updates(from: nat, polls: seq<Poll>): (items: seq<TodoItem>)
    ensures |items| <= |polls|
    decreases |polls|
  {
    if |polls| == 0 || Stops(polls[0]) then []
    else [Update(NatToString(from), polls[0].fetched.value, polls[0].now)] + Updates(from + 1, polls[1..])
  }

  /** Everything the generator yields, given the first fetch, the clock at
      the first yield, and the passes of the loop. */
  function TodoRun(initial: Option<seq<Todo>>, startedAt: int, polls: seq<Poll>): (items: seq<TodoItem>)
    ensures initial.None? ==> items == []
    ensures initial.Some? ==> |items| >= 1 && items[0] == Sync("0", initial.value, startedAt)
  {
    match initial
    case None => []
    case Some(todos) => [Sync(NatToString(0), todos, startedAt)] + Updates(1, polls)
  }

  /** Item `k` carries the id `String(k)`. */
  ghost predicate ConsecutiveIds(items: seq<TodoItem>) {
    forall k :: 0 <= k < |items| ==> items[k].id == NatToString(k)
  }

  /** The `update` items from `from` on carry ids `from`, `from + 1`, ...,
      and item `k` carries the complete list fetched by pass `k`, which
      did not stop. */
  lemma {:induction false} UpdatesShape(from: nat, polls: seq<Poll>)
    ensures var items := Updates(from, polls);
            forall k :: 0 <= k < |items| ==>
              && items[k].Update?
              && items[k].id == NatToString(from + k)
              && !Stops(polls[k])
              && items[k].todos == polls[k].fetched.value
              && items[k].timestamp == polls[k].now
    decreases |polls|
  {
    if |polls| > 0 && !Stops(polls[0]) {
      UpdatesShape(from + 1, polls[1..]);
    }
  }

  /** One pass at a time: a stopping pass yields nothing more, and any
      other pass yields its `update` ahead of the later ones. */
  lemma UpdatesStep(from: nat, polls: seq<Poll>)
    requires |polls| > 0
    ensures Stops(polls[0]) ==> Updates(from, polls) == []
    ensures !Stops(polls[0]) ==>
              Updates(from, polls) == [Update(NatToString(from), polls[0].fetched.value, polls[0].now)] + Updates(from + 1, polls[1..])
  {
  }

  /** Once a pass stops, nothing after it is yielded: the `update` items
      number exactly the passes before the first stopping one. */
  lemma {:induction false} UpdatesStopAt(from: nat, polls: seq<Poll>, i: nat)
    requires i < |polls| && Stops(polls[i])
    requires forall k :: 0 <= k < i ==> !Stops(polls[k])
    ensures |Updates(from, polls)| == i
    decreases i
  {
    if i > 0 {
      UpdatesStopAt(from + 1, polls[1..], i - 1);
    }
  }

  /** Without a stopping pass, every pass yields one `update`. */
  lemma {:induction false} UpdatesAll(from: nat, polls: seq<Poll>)
    requires forall k :: 0 <= k < |polls| ==> !Stops(polls[k])
    ensures |Updates(from, polls)| == |polls|
    decreases |polls|
  {
    if |polls| > 0 {
      UpdatesAll(from + 1, polls[1..]);
    }
  }

  /** The whole stream: ids 0, 1, 2, ... as strings; `sync` first and
      `update` afterwards; every item a full list from its own fetch. */
  lemma TodoRunShape(initial: Option<seq<Todo>>, startedAt: int, polls: seq<Poll>)
    ensures var items := TodoRun(initial, startedAt, polls);
            && ConsecutiveIds(items)
            && (forall k :: 1 <= k < |items| ==>
                  && items[k].Update? && !Stops(polls[k - 1])
                  && items[k].todos == polls[k - 1].fetched.value)
  {
    if initial.Some? {
      var items := TodoRun(initial, startedAt, polls);
      var u := Updates(1, polls);
      UpdatesShape(1, polls);
      assert items == [Sync(NatToString(0), initial.value, startedAt)] + u;
      forall k | 1 <= k < |items|
        ensures items[k].id == NatToString(k) && items[k].Update?
        ensures !Stops(polls[k - 1]) && items[k].todos == polls[k - 1].fetched.value
      {
        assert items[k] == u[k - 1];
      }
    }
  }

  class TodoStream {
    var phase: Phase
    /** `eventId`: the id the next yielded item gets. */
    var eventId: nat
    /** Everything the generator has yielded, in order. */
    var emitted: seq<TodoItem>
    /** Whether the stream ended with a rethrown fetch error. */
    var failed: bool

    ghost predicate Valid()
      reads this
    {
      && eventId == |emitted|
      && ConsecutiveIds(emitted)
      && (|emitted| > 0 ==> emitted[0].Sync?)
      && (forall k :: 0 < k < |emitted| ==> emitted[k].Update?)
      && (phase == NotStarted ==> emitted == [] && !failed)
      && (phase == Polling ==> |emitted| > 0 && !failed)
    }

    constructor ()
      ensures Valid() && phase == NotStarted && emitted == []
    {
      phase := NotStarted;
      eventId := 0;
      emitted := [];
      failed := false;
    }

    /** The first `getTodos()` and the `sync` yield; a fetch error is
        rethrown before anything is yielded. */
    method Start(fetched: Option<seq<Todo>>, now: int)
      requires Valid() && phase == NotStarted
      modifies this
      ensures Valid()
      ensures fetched.Some? ==> phase == Polling && emitted == [Sync("0", fetched.value, now)]
      ensures fetched.None? ==> phase == Done && failed && emitted == []
    {
      if fetched.Some? {
        emitted := [Sync(NatToString(eventId), fetched.value, now)];
        eventId := eventId + 1;
        phase := Polling;
      } else {
        failed := true;
        phase := Done;
      }
    }

    /** One pass of the polling loop. An abort observed after the sleep
        leaves the loop before fetching; a fetch error is rethrown; otherwise
        the fresh list is yielded as an `update` with the next id. */
    method Tick(p: Poll)
      requires Valid() && phase == Polling
      modifies this
      ensures Valid()
      ensures Stops(p) ==> phase == Done && emitted == old(emitted)
      ensures failed <==> !p.aborted && p.fetched.None?
      ensures !Stops(p) ==> phase == Polling && eventId == old(eventId) + 1
      ensures !Stops(p) ==> emitted == old(emitted) + [Update(NatToString(old(eventId)), p.fetched.value, p.now)]
    {
      if p.aborted {
        phase := Done;
        return;
      }
      match p.fetched
      case None =>
        failed := true;
        phase := Done;
      case Some(todos) =>
        emitted := emitted + [Update(NatToString(eventId), todos, p.now)];
        eventId := eventId + 1;
    }
  }

  /** The polling loop of a started stream, run over `polls`: the stream
      yields exactly the `update` items of `Updates`. */
  method Drive(s: TodoStream, polls: seq<Poll>)
    requires s.Valid() && s.phase == Polling
    modifies s
    ensures s.Valid() && s.phase != NotStarted
    ensures s.emitted == old(s.emitted) + Updates(old(s.eventId), polls)
  {
    ghost var target := s.emitted + Updates(s.eventId, polls);
    assert polls[0..] == polls;
    var i := 0;
    while i < |polls| && s.phase == Polling
      invariant 0 <= i <= |polls|
      invariant s.Valid() && s.phase != NotStarted
      invariant s.phase == Polling ==> s.emitted + Updates(s.eventId, polls[i..]) == target
      invariant s.phase == Done ==> s.emitted == target
      decreases |polls| - i
    {
      ghost var rest := polls[i..];
      ghost var before := s.emitted;
      ghost var e := s.eventId;
      assert rest[0] == polls[i] && rest[1..] == polls[i + 1..];
      UpdatesStep(e, rest);
      s.Tick(polls[i]);
      if !Stops(polls[i]) {
        assert s.emitted == before + [Update(NatToString(e), polls[i].fetched.value, polls[i].now)];
      } else {
        assert before + [] == before;
      }
      i := i + 1;
    }
    if s.phase == Polling {
      assert i == |polls| && polls[i..] == [];
      assert s.emitted + [] == s.emitted;
    }
  }

  /** The generator run to its end: the stream is started and ticked once
      per pass until it finishes or the passes run out, and what it yields
      is exactly `TodoRun`. */
  method RunTodoStream(initial: Option<seq<Todo>>, startedAt: int, polls: seq<Poll>)
    returns (items: seq<TodoItem>)
    ensures items == TodoRun(initial, startedAt, polls)
  {
    var s := new TodoStream();
    s.Start(initial, startedAt);
    if s.phase == Polling {
      Drive(s, polls);
    }
    items := s.emitted;
  }
}
