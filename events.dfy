/**
 * The event publisher: a fixed ring buffer of messages that drops the
 * oldest message when it overflows, and a dispatch step that hands the
 * oldest pending message to every ready subscriber whose filter matches,
 * then forgets the subscribers that have ended.
 */
module Events {
  import opened Common

  /** `Events`, the top-level event kinds. */
  datatype EventKind = Invalid | Status | Render | Input | Audio | Object | Reserved

  /** `RenderEventBits`: subtype bits of render events. */
  const MOVEMENT: bv32 := 1
  const LIGHTS: bv32 := 2
  const VISIBILITY: bv32 := 4
  const RESIZE: bv32 := 8
  const FRAME_PERF: bv32 := 16
  const RENDER_DEBUG: bv32 := 0x8000_0000

  /** `Message`: a kind and a subtype bit mask. */
  datatype Message = Message(eventType: EventKind, subType: bv32)

  /** An `Event` carrying `count` messages; the type only exists for `count <= 32`. */
  datatype Event = Event(eventType: EventKind, messages: seq<Message>)

  /** `Event<T, count>` for the given contents, when the `count <= 32` constraint admits it. */
  function MakeEvent(eventType: EventKind, contents: seq<Message>): (r: Option<Event>)
    ensures r.Some? <==> |contents| <= 32
    ensures r.Some? ==> r.value.eventType == eventType && r.value.messages == contents
  {
    if |contents| <= 32 then Some(Event(eventType, contents)) else None
  }

  /** `IsMultipart`: more than one message. */
  function IsMultipart(e: Event): (r: bool)
    ensures r <==> |e.messages| >= 2
    ensures |e.messages| == 1 ==> !r
  {
    |e.messages| > 1
  }

  /**
   * A subscriber: whether it still wants messages, its subtype filter, and
   * the identity of its callback (the callback itself is not modelled).
   */
  datatype Subscriber = Subscriber(ready: bool, filter: bv32, callback: nat)

  /** A filter of 0 takes every message; otherwise the subtype must share a bit with it. */
  predicate Accepts(filter: bv32, m: Message)
  {
    filter == 0 || m.subType & filter != 0
  }

  /** A callback invocation: which callback got which message. */
  datatype Delivery = Delivery(callback: nat, message: Message)

  /** The invocations of one dispatch of `m` over `subs`, in subscriber order. */
  function Deliveries(subs: seq<Subscriber>, m: Message): (r: seq<Delivery>)
    ensures |r| <= |subs|
    ensures forall d :: d in r ==> d.message == m
  {
    if subs == [] then []
    else
      var last := subs[|subs| - 1];
      Deliveries(subs[..|subs| - 1], m) + if last.ready && Accepts(last.filter, m) then [Delivery(last.callback, m)] else []
  }

  /** A callback is invoked iff some ready subscriber with that callback accepts the message. */
  lemma {:induction false} DeliveriesExactly(subs: seq<Subscriber>, m: Message, callback: nat)
    ensures Delivery(callback, m) in Deliveries(subs, m) <==>
      exists i :: 0 <= i < |subs| && subs[i].callback == callback && subs[i].ready && Accepts(subs[i].filter, m)
  {
    if subs != [] {
      var init := subs[..|subs| - 1];
      DeliveriesExactly(init, m, callback);
      if exists i :: 0 <= i < |init| && init[i].callback == callback && init[i].ready && Accepts(init[i].filter, m) {
        var i :| 0 <= i < |init| && init[i].callback == callback && init[i].ready && Accepts(init[i].filter, m);
        assert subs[i] == init[i];
      }
      if exists i :: 0 <= i < |subs| && subs[i].callback == callback && subs[i].ready && Accepts(subs[i].filter, m) {
        var i :| 0 <= i < |subs| && subs[i].callback == callback && subs[i].ready && Accepts(subs[i].filter, m);
        if i < |init| {
          assert init[i] == subs[i];
        }
      }
    }
  }

  /** The subscribers still ready, in their original order (`remove_if` of the ended ones). */
  function ReadyOnly(subs: seq<Subscriber>): (r: seq<Subscriber>)
    ensures |r| <= |subs|
  {
    if subs == [] then []
    else ReadyOnly(subs[..|subs| - 1]) + if subs[|subs| - 1].ready then [subs[|subs| - 1]] else []
  }

  /** Filtering a sequence extended by one subscriber. */
  lemma ReadyOnlySnoc(subs: seq<Subscriber>, x: Subscriber)
    ensures ReadyOnly(subs + [x]) == ReadyOnly(subs) + if x.ready then [x] else []
  {
    assert (subs + [x])[..|subs|] == subs;
  }

  /** Exactly the ready subscribers survive. */
  lemma {:induction false} ReadyOnlyMembers(subs: seq<Subscriber>)
    ensures forall s :: s in ReadyOnly(subs) <==> s in subs && s.ready
  {
    if subs != [] {
      var init, x := subs[..|subs| - 1], subs[|subs| - 1];
      ReadyOnlyMembers(init);
      assert subs == init + [x];
      ReadyOnlySnoc(init, x);
    }
  }

  /** Removal keeps relative order: it distributes over concatenation. */
  lemma {:induction false} ReadyOnlyAppend(a: seq<Subscriber>, b: seq<Subscriber>)
    ensures ReadyOnly(a + b) == ReadyOnly(a) + ReadyOnly(b)
    decreases |b|
  {
    if b == [] {
      assert a + b == a;
    } else {
      var b', x := b[..|b| - 1], b[|b| - 1];
      assert a + b == (a + b') + [x] && b == b' + [x];
      ReadyOnlySnoc(a + b', x);
      ReadyOnlySnoc(b', x);
      ReadyOnlyAppend(a, b');
    }
  }

  /** With every subscriber ready, nothing is removed. */
  lemma {:induction false} ReadyOnlyKeepsAllReady(subs: seq<Subscriber>)
    requires forall i :: 0 <= i < |subs| ==> subs[i].ready
    ensures ReadyOnly(subs) == subs
  {
    if subs != [] {
      var init, x := subs[..|subs| - 1], subs[|subs| - 1];
      ReadyOnlyKeepsAllReady(init);
      assert subs == init + [x];
      ReadyOnlySnoc(init, x);
    }
  }

  /** The slot after `i` in a ring of `len` slots. */
  function Next(i: nat, len: nat): (r: nat)
    requires i < len
    ensures r < len
    ensures r == (i + 1) % len
  {
    if i + 1 == len then 0 else i + 1
  }

  /** Number of messages pending between `start` (exclusive) and `end` (inclusive). */
  function RingCount(start: nat, end: nat, len: nat): (n: nat)
    requires start < len && end < len
    ensures n < len
  {
    if start <= end then end - start else end + len - start
  }

  /** The slot `k + 1` places after `start`. */
  function RingSlot(start: nat, k: nat, len: nat): (slot: nat)
    requires start < len && k < len - 1
    ensures slot < len
  {
    if start + 1 + k < len then start + 1 + k else start + 1 + k - len
  }

  /** The pending messages of a ring, oldest first. */
  function RingContents(slots: seq<Message>, start: nat, end: nat): (q: seq<Message>)
    requires start < |slots| && end < |slots|
    ensures |q| == RingCount(start, end, |slots|)
  {
    seq(RingCount(start, end, |slots|), k requires 0 <= k < RingCount(start, end, |slots|) =>
      slots[RingSlot(start, k, |slots|)])
  }

  /** The last `n` elements of `s` (all of them when there are fewer). */
  function KeepLast(s: seq<Message>, n: nat): (r: seq<Message>)
    ensures |r| == if |s| <= n then |s| else n
    ensures |s| <= n ==> r == s
    ensures forall k :: 0 <= k < |r| ==> r[k] == s[|s| - |r| + k]
  {
    if |s| <= n then s else s[|s| - n..]
  }

  /**
   * Storing a message: the end advances, the start advances too when it
   * is caught up, and the message lands in the new end slot. The ring then
   * holds the newest `len - 1` of the old messages followed by `m`.
   */
  lemma PushRing(slots: seq<Message>, start: nat, end: nat, m: Message)
    requires start < |slots| && end < |slots|
    ensures var end' := Next(end, |slots|);
            var start' := if end' == start then Next(start, |slots|) else start;
            RingContents(slots[end' := m], start', end') == KeepLast(RingContents(slots, start, end) + [m], |slots| - 1)
  {
    if |slots| == 1 {
      assert KeepLast(RingContents(slots, start, end) + [m], 0) == [];
    } else if Next(end, |slots|) == start {
      PushRingFull(slots, start, end, m);
    } else {
      PushRingRoom(slots, start, end, m);
    }
  }

  /** A full ring drops its oldest message to make room. */
  lemma PushRingFull(slots: seq<Message>, start: nat, end: nat, m: Message)
    requires 2 <= |slots| && start < |slots| && end < |slots| && Next(end, |slots|) == start
    ensures RingContents(slots[start := m], Next(start, |slots|), start)
            == RingContents(slots, start, end)[1..] + [m]
    ensures KeepLast(RingContents(slots, start, end) + [m], |slots| - 1) == RingContents(slots, start, end)[1..] + [m]
  {
    var len := |slots|;
    var before := RingContents(slots, start, end);
    var after := RingContents(slots[start := m], Next(start, len), start);
    var want := before[1..] + [m];
    assert |before| == len - 1;
    assert |after| == len - 1 == |want|;
    forall k | 0 <= k < |after|
      ensures after[k] == want[k]
    {
      if k < len - 2 {
        var slot := RingSlot(start, k + 1, len);
        assert RingSlot(Next(start, len), k, len) == slot && slot != start;
        assert after[k] == slots[slot] == before[k + 1];
      } else {
        assert RingSlot(Next(start, len), k, len) == start;
      }
    }
    assert (before + [m])[|before + [m]| - (len - 1)..] == want;
  }

  /** A ring with room keeps every message and appends the new one. */
  lemma PushRingRoom(slots: seq<Message>, start: nat, end: nat, m: Message)
    requires start < |slots| && end < |slots| && Next(end, |slots|) != start
    ensures RingContents(slots[Next(end, |slots|) := m], start, Next(end, |slots|)) == RingContents(slots, start, end) + [m]
    ensures KeepLast(RingContents(slots, start, end) + [m], |slots| - 1) == RingContents(slots, start, end) + [m]
  {
    var len := |slots|;
    var end' := Next(end, len);
    var before := RingContents(slots, start, end);
    var after := RingContents(slots[end' := m], start, end');
    assert |after| == |before| + 1;
    forall k | 0 <= k < |after|
      ensures after[k] == (before + [m])[k]
    {
      if k < |before| {
        assert RingSlot(start, k, len) != end';
      } else {
        assert RingSlot(start, k, len) == end';
      }
    }
  }

  /** Taking a message: the start advances onto the oldest message, which leaves the ring. */
  lemma PopRing(slots: seq<Message>, start: nat, end: nat)
    requires start < |slots| && end < |slots| && start != end
    ensures RingContents(slots, start, end) != []
    ensures RingContents(slots, start, end)[0] == slots[Next(start, |slots|)]
    ensures RingContents(slots, Next(start, |slots|), end) == RingContents(slots, start, end)[1..]
  {
    var len := |slots|;
    var before := RingContents(slots, start, end);
    var after := RingContents(slots, Next(start, len), end);
    assert RingSlot(start, 0, len) == Next(start, len);
    forall k | 0 <= k < |after|
      ensures after[k] == before[k + 1]
    {
      assert RingSlot(Next(start, len), k, len) == RingSlot(start, k + 1, len);
    }
  }

  /**
   * The subscriber loop of one dispatch: the invocations it makes and
   * whether it met a subscriber that has ended.
   */
  method NotifySubscribers(subs: seq<Subscriber>, message: Message) returns (out: seq<Delivery>, cleanup: bool)
    ensures out == Deliveries(subs, message)
    ensures cleanup <==> exists j :: 0 <= j < |subs| && !subs[j].ready
  {
    out, cleanup := [], false;
    var i := 0;
    while i < |subs|
      invariant 0 <= i <= |subs|
      invariant out == Deliveries(subs[..i], message)
      invariant cleanup <==> exists j :: 0 <= j < i && !subs[j].ready
    {
      assert subs[..i + 1][..i] == subs[..i];
      var s := subs[i];
      if s.ready {
        if Accepts(s.filter, message) {
          out := out + [Delivery(s.callback, message)];
        }
      } else {
        cleanup := true;
      }
      i := i + 1;
    }
    assert subs[..i] == subs;
  }

  /** `Publisher<BaseEvent, EventTypes, buffer_length>`. */
  class Publisher {
    const bufferLength: nat
    const storedMessages: array<Message>
    var queueStart: nat
    var queueEnd: nat
    var subs: seq<Subscriber>
    /** Callback invocations so far, in order. */
    var delivered: seq<Delivery>

    predicate Valid()
      reads this
    {
      storedMessages.Length == bufferLength && 0 < bufferLength
      && queueStart < bufferLength && queueEnd < bufferLength
    }

    /** The pending messages, oldest first; never more than `bufferLength - 1`. */
    function Pending(): (q: seq<Message>)
      reads this, storedMessages
      requires Valid()
      ensures |q| < bufferLength
    {
      RingContents(storedMessages[..], queueStart, queueEnd)
    }

    /** An empty publisher with a ring of `len` slots, initially holding `filler`. */
    constructor(len: nat, filler: Message)
      requires 0 < len
      ensures Valid() && bufferLength == len
      ensures Pending() == [] && subs == [] && delivered == []
      ensures fresh(storedMessages)
    {
      bufferLength := len;
      storedMessages := new Message[len](_ => filler);
      queueStart, queueEnd := 0, 0;
      subs, delivered := [], [];
    }

    /** A new ready subscriber; without a filter (`filter == 0`) it takes every message. */
    method CreateNewSub(filter: bv32, callback: nat)
      modifies this`subs
      ensures subs == old(subs) + [Subscriber(true, filter, callback)]
    {
      subs := subs + [Subscriber(true, filter, callback)];
    }

    /** `Subscriber::End`: the subscriber stops taking messages. */
    method End(i: nat)
      requires i < |subs|
      modifies this`subs
      ensures |subs| == |old(subs)| && subs[i] == old(subs)[i].(ready := false)
      ensures forall j :: 0 <= j < |subs| && j != i ==> subs[j] == old(subs)[j]
    {
      subs := subs[i := subs[i].(ready := false)];
    }

    /**
     * `NewEvent`: advances the end slot and stores the message there; when
     * the ring is full the start slot advances too, dropping the oldest
     * pending message.
     */
    method NewEvent(m: Message)
      requires Valid()
      modifies this`queueStart, this`queueEnd, storedMessages
      ensures Valid()
      ensures Pending() == KeepLast(old(Pending()) + [m], bufferLength - 1)
    {
      PushRing(storedMessages[..], queueStart, queueEnd, m);
      var end := Next(queueEnd, bufferLength);
      var start := queueStart;
      if end == start {
        start := Next(start, bufferLength);
      }
      storedMessages[end] := m;
      queueStart, queueEnd := start, end;
    }

    /**
     * One pass of the processing loop: with a message pending, advance the
     * start slot, hand that message to every ready subscriber whose filter
     * accepts it, and drop the subscribers that have ended.
     */
    method DispatchStep()
      requires Valid()
      modifies this`queueStart, this`subs, this`delivered
      ensures Valid()
      ensures old(Pending()) == [] ==>
        queueStart == old(queueStart) && subs == old(subs) && delivered == old(delivered)
      ensures old(Pending()) != [] ==>
        Pending() == old(Pending())[1..]
        && delivered == old(delivered) + Deliveries(old(subs), old(Pending())[0])
        && subs == ReadyOnly(old(subs))
    {
      if queueEnd != queueStart {
        PopRing(storedMessages[..], queueStart, queueEnd);
        queueStart := Next(queueStart, bufferLength);
        var message := storedMessages[queueStart];
        var out, cleanup := NotifySubscribers(subs, message);
        delivered := delivered + out;
        if cleanup {
          subs := ReadyOnly(subs);
        } else {
          ReadyOnlyKeepsAllReady(subs);
        }
      }
    }
  }
}
