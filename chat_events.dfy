/** The chat event bus: a Node `EventEmitter` subclass whose `'message'`
    listeners are kept in registration order; `emitMessage` calls each of
    them synchronously with the message, and `subscribeToMessages` returns a
    handle that calls `off` for the listener it added. The module-level
    singleton `chatEvents` is the one `ChatEventEmitter` object that every
    publisher and stream is given. */
module ChatEvents {
  import opened Domain
  import opened Text

  /** A registered callback, by identity. Every stream registers its own
      fresh closure, so distinct streams have distinct listener ids. */
  type ListenerId = nat

  /** One synchronous invocation made by `emit`: which listener, with what. */
  datatype Call = Call(listener: ListenerId, message: ChatMessage)

  /** The handle `subscribeToMessages` returns. */
  datatype Unsubscribe = Unsubscribe(listener: ListenerId)

  /** `off(l)`: Node removes the most recently added registration of `l`,
      and does nothing when `l` is not registered. */
  function RemoveLast(ls: seq<ListenerId>, l: ListenerId): (r: seq<ListenerId>)
    ensures l !in ls ==> r == ls
    ensures l in ls ==> |r| == |ls| - 1
  {
    if |ls| == 0 then []
    else if ls[|ls| - 1] == l then ls[..|ls| - 1]
    else
      assert l in ls ==> l in ls[..|ls| - 1] by {
        if l in ls {
          var i :| 0 <= i < |ls| && ls[i] == l;
          assert ls[..|ls| - 1][i] == l;
        }
      }
      RemoveLast(ls[..|ls| - 1], l) + [ls[|ls| - 1]]
  }

  /** Calling a handle removes one registration of its listener, if there is
      one, and leaves the registrations of every other listener as they
      were. */
  lemma {:induction false} RemoveLastMultiset(ls: seq<ListenerId>, l: ListenerId)
    ensures multiset(RemoveLast(ls, l)) == multiset(ls) - multiset{l}
    decreases |ls|
  {
    if |ls| > 0 {
      var n := |ls| - 1;
      assert ls == ls[..n] + [ls[n]];
      if ls[n] != l {
        RemoveLastMultiset(ls[..n], l);
      }
    }
  }

  /** The invocations `emit('message', m)` makes over the listener list. */
  function Calls(ls: seq<ListenerId>, m: ChatMessage): seq<Call> {
    seq(|ls|, i requires 0 <= i < |ls| => Call(ls[i], m))
  }

  predicate NoDuplicates(ls: seq<ListenerId>) {
    forall i, j :: 0 <= i < j < |ls| ==> ls[i] != ls[j]
  }

  /** When a listener is registered once, its handle removes exactly that
      registration and keeps every other listener in its order. */
  lemma RemoveRegisteredOnce(ls: seq<ListenerId>, l: ListenerId)
    requires NoDuplicates(ls) && l in ls
    ensures var i := IndexOf(ls, l);
            RemoveLast(ls, l) == ls[..i] + ls[i + 1..]
    ensures l !in RemoveLast(ls, l)
    ensures NoDuplicates(RemoveLast(ls, l))
  {
    var i := IndexOf(ls, l);
    assert l !in ls[i + 1..] by {
      forall j | i + 1 <= j < |ls| ensures ls[j] != l { }
    }
    RemoveLastAt(ls, l, i);
    var r := ls[..i] + ls[i + 1..];
    forall a, b | 0 <= a < b < |r| ensures r[a] != r[b] {
      var a' := if a < i then a else a + 1;
      var b' := if b < i then b else b + 1;
      assert r[a] == ls[a'] && r[b] == ls[b'];
    }
  }

  /** Subscribing and then calling the handle restores the listener list. */
  lemma SubscribeThenUnsubscribe(ls: seq<ListenerId>, l: ListenerId)
    ensures RemoveLast(ls + [l], l) == ls
  {
    assert (ls + [l])[..|ls|] == ls;
  }

  /** A second call of a handle whose listener was registered once changes
      nothing. */
  lemma UnsubscribeTwice(ls: seq<ListenerId>, l: ListenerId)
    requires NoDuplicates(ls) && l in ls
    ensures RemoveLast(RemoveLast(ls, l), l) == RemoveLast(ls, l)
  {
    RemoveRegisteredOnce(ls, l);
  }

  class ChatEventEmitter {
    /** The `'message'` listeners, in registration order. */
    var listeners: seq<ListenerId>

    constructor ()
      ensures listeners == []
    {
      listeners := [];
    }

    /** `subscribeToMessages(cb)`: `on('message', cb)` and a handle for it. */
    method SubscribeToMessages(cb: ListenerId) returns (handle: Unsubscribe)
      modifies this
      ensures listeners == old(listeners) + [cb]
      ensures handle == Unsubscribe(cb)
    {
      listeners := listeners + [cb];
      handle := Unsubscribe(cb);
    }

    /** Calling the handle: `off('message', cb)`. */
    method Release(handle: Unsubscribe)
      modifies this
      ensures listeners == RemoveLast(old(listeners), handle.listener)
    {
      var i := |listeners|;
      while i > 0 && listeners[i - 1] != handle.listener
        invariant 0 <= i <= |listeners|
        invariant handle.listener !in listeners[i..]
      {
        i := i - 1;
      }
      if i > 0 {
        RemoveLastAt(listeners, handle.listener, i - 1);
        listeners := listeners[..i - 1] + listeners[i..];
      } else {
        assert listeners[0..] == listeners;
      }
    }

    /** `emitMessage(m)`: calls every registered listener with `m`,
        synchronously and in registration order, and changes no
        registration. */
    method EmitMessage(m: ChatMessage) returns (calls: seq<Call>)
      ensures |calls| == |listeners|
      ensures forall i :: 0 <= i < |calls| ==> calls[i].listener == listeners[i] && calls[i].message == m
    {
      calls := [];
      for i := 0 to |listeners|
        invariant |calls| == i
        invariant forall k :: 0 <= k < i ==> calls[k] == Call(listeners[k], m)
      {
        calls := calls + [Call(listeners[i], m)];
      }
    }
  }

  /** `off` removes the registration at the last index holding `l`. */
  lemma {:induction false} RemoveLastAt(ls: seq<ListenerId>, l: ListenerId, i: nat)
    requires i < |ls| && ls[i] == l && l !in ls[i + 1..]
    ensures RemoveLast(ls, l) == ls[..i] + ls[i + 1..]
    decreases |ls|
  {
    var n := |ls| - 1;
    if i == n {
      assert ls[i + 1..] == [];
    } else {
      var init := ls[..n];
      assert ls[n] != l by { assert ls[n] == ls[i + 1..][n - i - 1]; }
      assert init[i + 1..] == ls[i + 1..n];
      RemoveLastAt(init, l, i);
      calc {
        RemoveLast(ls, l);
        RemoveLast(init, l) + [ls[n]];
        init[..i] + init[i + 1..] + [ls[n]];
        { assert init[..i] == ls[..i]; assert ls[i + 1..n] + [ls[n]] == ls[i + 1..]; }
        ls[..i] + ls[i + 1..];
      }
    }
  }
}
