/** The chat page's side of the subscription: the cached message list that
    `onData` updates (an `init` item replaces it, a `message` item appends
    the message unless one with the same id is cached), the connection
    status shown on the page, and the guard in front of `sendMessage`. */
module ChatClient {
  import opened Common
  import opened Domain
  import opened Text
  import opened ChatSubscription

  /** Some cached message has id `id`: `old.some(m => m.id === id)`. */
  predicate HasId(msgs: seq<ChatMessage>, id: string) {
    exists i :: 0 <= i < |msgs| && msgs[i].id == id
  }

  /** No two cached messages share an id. */
  predicate DistinctIds(msgs: seq<ChatMessage>) {
    forall i, j :: 0 <= i < j < |msgs| ==> msgs[i].id != msgs[j].id
  }

  /** The `message` updater; an absent cache counts as `[]`. */
  function AddMessage(cached: Option<seq<ChatMessage>>, m: ChatMessage): (r: seq<ChatMessage>)
    ensures HasId(cached.OrElse([]), m.id) ==> r == cached.OrElse([])
    ensures !HasId(cached.OrElse([]), m.id) ==> r == cached.OrElse([]) + [m]
  {
    var current := cached.OrElse([]);
    if HasId(current, m.id) then current else current + [m]
  }

  /** What `onData` does to the cache for one item. */
  function ApplyItem(cached: Option<seq<ChatMessage>>, item: ChatItem): (r: seq<ChatMessage>)
    ensures item.Init? ==> r == item.messages
    ensures item.Message? ==> HasId(r, item.message.id) && |cached.OrElse([])| <= |r| && r[..|cached.OrElse([])|] == cached.OrElse([])
  {
    assert item.Message? ==> var r := AddMessage(cached, item.message);
                             HasId(r, item.message.id) && r[..|cached.OrElse([])|] == cached.OrElse([]) by {
      if item.Message? {
        AddMessageKeeps(cached, item.message);
      }
    }
    match item
    case Init(_, messages) => messages
    case Message(_, m) => AddMessage(cached, m)
  }

  /** Receiving the same message twice leaves the list as receiving it once. */
  lemma AddMessageIdempotent(cached: Option<seq<ChatMessage>>, m: ChatMessage)
    ensures AddMessage(Some(AddMessage(cached, m)), m) == AddMessage(cached, m)
  {
    var once := AddMessage(cached, m);
    if !HasId(cached.OrElse([]), m.id) {
      assert once[|once| - 1] == m;
    }
  }

  /** A message always ends up cached, and the messages cached before are
      kept, in their order. */
  lemma AddMessageKeeps(cached: Option<seq<ChatMessage>>, m: ChatMessage)
    ensures var r := AddMessage(cached, m);
            HasId(r, m.id) && r[..|cached.OrElse([])|] == cached.OrElse([])
  {
    var r := AddMessage(cached, m);
    if !HasId(cached.OrElse([]), m.id) {
      assert r[|r| - 1] == m;
    }
  }

  /** Adding a message keeps the cached ids distinct. */
  lemma AddMessageDistinct(cached: Option<seq<ChatMessage>>, m: ChatMessage)
    requires DistinctIds(cached.OrElse([]))
    ensures DistinctIds(AddMessage(cached, m))
  {
  }

  /** The cache after a whole sequence of items, starting from `cached`. */
  function ApplyAll(cached: Option<seq<ChatMessage>>, items: seq<ChatItem>): (r: Option<seq<ChatMessage>>)
    ensures |items| > 0 ==> r.Some?
    ensures |items| == 0 ==> r == cached
    ensures |items| > 0 && items[|items| - 1].Init? ==> r == Some(items[|items| - 1].messages)
    decreases |items|
  {
    if |items| == 0 then cached
    else ApplyAll(Some(ApplyItem(cached, items[0])), items[1..])
  }

  /** After any sequence of items whose snapshots have distinct ids, the
      cached ids are distinct: the id check keeps a message that arrives
      twice, or that was already in the snapshot, from being shown twice. */
  lemma {:induction false} ApplyAllDistinct(cached: Option<seq<ChatMessage>>, items: seq<ChatItem>)
    requires DistinctIds(cached.OrElse([]))
    requires forall k :: 0 <= k < |items| && items[k].Init? ==> DistinctIds(items[k].messages)
    ensures DistinctIds(ApplyAll(cached, items).OrElse([]))
    decreases |items|
  {
    if |items| > 0 {
      var next := ApplyItem(cached, items[0]);
      if items[0].Message? {
        AddMessageDistinct(cached, items[0].message);
      }
      ApplyAllDistinct(Some(next), items[1..]);
    }
  }

  /** What the page shows about the connection. */
  datatype Status = Connecting | Connected | Disconnected

  /** The page state that the subscription touches. */
  class ChatView {
    /** The `chat.messages` query cache; `None` before anything is cached. */
    var cached: Option<seq<ChatMessage>>
    var status: Status

    constructor ()
      ensures cached == None && status == Connecting
    {
      cached := None;
      status := Connecting;
    }

    /** The effect runs: the status goes to `connecting`. */
    method Mount()
      modifies this
      ensures status == Connecting && cached == old(cached)
    {
      status := Connecting;
    }

    /** `onData`: the cache is updated, and an `init` item also moves the
        status to `connected`. */
    method OnData(item: ChatItem)
      modifies this
      ensures cached == Some(ApplyItem(old(cached), item))
      ensures item.Init? ==> status == Connected
      ensures item.Message? ==> status == old(status)
    {
      cached := Some(ApplyItem(cached, item));
      if item.Init? {
        status := Connected;
      }
    }

    /** `onError`, and the effect's cleanup: the status goes to
        `disconnected` and the cache is kept. */
    method Disconnect()
      modifies this
      ensures status == Disconnected && cached == old(cached)
    {
      status := Disconnected;
    }
  }

  /** A stream of items, as the page receives it: the page ends up
      `connected` exactly when some item was an `init`, and the cache is
      what the items build. */
  method Receive(items: seq<ChatItem>) returns (cached: Option<seq<ChatMessage>>, status: Status)
    ensures cached == ApplyAll(None, items)
    ensures status == Connected <==> exists k :: 0 <= k < |items| && items[k].Init?
    ensures status != Connected ==> status == Connecting
  {
    var view := new ChatView();
    view.Mount();
    for i := 0 to |items|
      invariant ApplyAll(view.cached, items[i..]) == ApplyAll(None, items)
      invariant view.status == Connected <==> exists k :: 0 <= k < i && items[k].Init?
      invariant view.status != Connected ==> view.status == Connecting
    {
      assert items[i..][1..] == items[i + 1..];
      view.OnData(items[i]);
    }
    assert items[|items|..] == [];
    cached := view.cached;
    status := view.status;
  }

  /** `handleSendMessage`: nothing is sent when the input is blank after
      trimming or nobody is signed in; otherwise the input as typed. */
  function SendGuard(input: string, currentUser: Option<User>): (content: Option<string>)
    ensures content.Some? <==> currentUser.Some? && exists i :: 0 <= i < |input| && !IsSpace(input[i])
    ensures content.Some? ==> content.value == input
  {
    TrimEmptyIff(input);
    if Trim(input) == "" || currentUser.None? then None else Some(input)
  }
}
