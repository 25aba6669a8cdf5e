/**
 * The typed event channels of Command/EventSO.cs: BaseEventSO, EventSO<T> and EventSO<T1,T2>.
 *
 * EventSO<T> and EventSO<T1,T2> each declare their own subscriber list with `new`, hiding
 * the list that BaseEventSO declares, while BaseEventSO.RemoveNullSubscribers compacts the
 * base list only. The model keeps both lists: the base list lives in a BaseEventSO object
 * that each channel holds as `base` (the base-class part of the same asset), the derived
 * list in the channel itself. Null slots written by Unsubscribe and UnsubscribeAll therefore
 * stay, and the next loop over the derived list that dereferences one throws a
 * NullReferenceException; the methods report that as `ok == false`.
 *
 * Responses are not run: each invocation is appended to the channel's `invoked` trace.
 */
module EventChannel {
  import opened Engine

  /** A subscriber's callback: a UnityAction<T> (Typed), or a UnityAction wrapped as `(value) => response()` (Untyped). */
  datatype Response = Typed(id: nat) | Untyped(id: nat)

  datatype Subscriber = Subscriber(origin: Obj, methodName: string, response: Response)

  /** One slot of a subscriber list; None is a null slot. */
  type Slot = Option<Subscriber>

  /** One call of a subscriber's response, with the argument the channel passed to it. */
  datatype Invocation<A> = Invocation(response: Response, arg: A)

  predicate NullFree(s: seq<Slot>)
  {
    forall j :: 0 <= j < |s| ==> s[j].Some?
  }

  /** The highest index of a null slot, or -1 when there is none. */
  function LastNull(s: seq<Slot>): (r: int)
    ensures -1 <= r < |s|
    ensures r >= 0 ==> s[r].None?
    ensures forall j :: r < j < |s| ==> s[j].Some?
    ensures r == -1 <==> NullFree(s)
  {
    if |s| == 0 then -1
    else if s[|s| - 1].None? then |s| - 1
    else LastNull(s[..|s| - 1])
  }

  /** A list after RemoveNullSubscribers: its non-null slots, in their order. */
  function Compacted(s: seq<Slot>): (r: seq<Slot>)
    ensures |r| <= |s|
  {
    if |s| == 0 then []
    else (if s[0].None? then [] else [s[0]]) + Compacted(s[1..])
  }

  /** Compacting leaves no null slot. */
  lemma {:induction false} CompactedNullFree(s: seq<Slot>)
    ensures NullFree(Compacted(s))
  {
    if |s| > 0 {
      CompactedNullFree(s[1..]);
      var head: seq<Slot> := if s[0].None? then [] else [s[0]];
      var r := Compacted(s[1..]);
      forall j | 0 <= j < |head + r| ensures (head + r)[j].Some? {
        if j >= |head| {
          assert (head + r)[j] == r[j - |head|];
        }
      }
    }
  }

  /** Compacting keeps every subscriber slot as often as it occurs. */
  lemma {:induction false} CompactedCount(s: seq<Slot>, x: Slot)
    ensures multiset(Compacted(s))[x] == if x.None? then 0 else multiset(s)[x]
  {
    if |s| > 0 {
      CompactedCount(s[1..], x);
      var head: seq<Slot> := if s[0].None? then [] else [s[0]];
      assert s == [s[0]] + s[1..];
      assert multiset(s) == multiset{s[0]} + multiset(s[1..]);
      assert multiset(head + Compacted(s[1..])) == multiset(head) + multiset(Compacted(s[1..]));
    }
  }

  /** A list without null slots is left as it is. */
  lemma {:induction false} CompactedNullFreeUnchanged(s: seq<Slot>)
    requires NullFree(s)
    ensures Compacted(s) == s
  {
    if |s| > 0 {
      assert s[0].Some?;
      assert NullFree(s[1..]) by {
        forall j | 0 <= j < |s| - 1 ensures s[1..][j].Some? {
          assert s[1..][j] == s[j + 1];
        }
      }
      CompactedNullFreeUnchanged(s[1..]);
      assert s == [s[0]] + s[1..];
    }
  }

  /** One step of RemoveNullSubscribers' loop at index `i`, when the slots above `i` are already compacted. */
  lemma CompactedStep(s: seq<Slot>, i: nat, list: seq<Slot>)
    requires i < |s| && list == s[..i + 1] + Compacted(s[i + 1..])
    ensures list[i] == s[i]
    ensures (if list[i].None? then list[..i] + list[i + 1..] else list) == s[..i] + Compacted(s[i..])
  {
    var t := s[i..];
    assert t[0] == s[i] && t[1..] == s[i + 1..];
    var rest := Compacted(s[i + 1..]);
    assert Compacted(t) == (if s[i].None? then [] else [s[i]]) + rest;
    assert s[..i + 1] == s[..i] + [s[i]];
    assert list == s[..i] + [s[i]] + rest;
    if s[i].None? {
      assert list[..i] == s[..i];
      assert list[i + 1..] == rest;
      assert Compacted(t) == rest;
    } else {
      assert list == s[..i] + ([s[i]] + rest);
    }
  }

  /**
   * Which subscribers an unsubscribe call nulls. UnsubscribeAll(origin) matches on the origin;
   * Unsubscribe(origin, methodName) compares methodName with the origin's own name, never with
   * the method name stored at subscription.
   */
  datatype Removal = AllOf(origin: Obj) | Named(origin: Obj, methodName: string)

  predicate Matches(r: Removal, sub: Subscriber)
  {
    match r
    case AllOf(o) => sub.origin == o
    case Named(o, m) => sub.origin == o && sub.origin.name == m
  }

  /** The slots after an unsubscribe loop, and whether it ran to index 0 without dereferencing a null slot. */
  datatype Nulling = Nulling(slots: seq<Slot>, completed: bool)

  /**
   * The unsubscribe loop, from the highest index down: a matching subscriber is replaced by
   * null; at the first null slot met the loop throws, and the slots below it are left as they were.
   */
  function NullOut(s: seq<Slot>, r: Removal): (n: Nulling)
    ensures |n.slots| == |s|
    ensures n.completed <==> NullFree(s)
    ensures forall j :: 0 <= j < |s| ==>
              n.slots[j] == if j > LastNull(s) && Matches(r, s[j].value) then None else s[j]
  {
    if |s| == 0 then Nulling([], true)
    else if s[|s| - 1].None? then Nulling(s, false)
    else
      var rest := NullOut(s[..|s| - 1], r);
      Nulling(rest.slots + [if Matches(r, s[|s| - 1].value) then None else s[|s| - 1]], rest.completed)
  }

  /** The invocations of a raise loop, and whether it ran to index 0 without dereferencing a null slot. */
  datatype Raising<A> = Raising(calls: seq<Invocation<A>>, completed: bool)

  /** The raise loop, from the highest index down: each response is invoked with `arg`; at the first null slot met the loop throws. */
  function RaiseCalls<A>(s: seq<Slot>, arg: A): (r: Raising<A>)
    ensures r.completed <==> NullFree(s)
    ensures |r.calls| == |s| - 1 - LastNull(s)
    ensures forall k :: 0 <= k < |r.calls| ==> r.calls[k] == Invocation(s[|s| - 1 - k].value.response, arg)
  {
    if |s| == 0 then Raising([], true)
    else if s[|s| - 1].None? then Raising([], false)
    else
      var rest := RaiseCalls(s[..|s| - 1], arg);
      Raising([Invocation(s[|s| - 1].value.response, arg)] + rest.calls, rest.completed)
  }

  /** The loop every Raise runs over the derived list: `for (index = Count - 1; index >= 0; index--) _subscribers[index].response?.Invoke(arg)`. */
  method InvokeAll<A>(s: seq<Slot>, arg: A) returns (calls: seq<Invocation<A>>, ok: bool)
    ensures Raising(calls, ok) == RaiseCalls(s, arg)
  {
    calls := [];
    var index := |s| - 1;
    while index >= 0
      invariant -1 <= index < |s|
      invariant forall j :: index < j < |s| ==> s[j].Some?
      invariant |calls| == |s| - 1 - index
      invariant forall k :: 0 <= k < |calls| ==> calls[k] == Invocation(s[|s| - 1 - k].value.response, arg)
    {
      if s[index].None? {
        assert LastNull(s) == index;
        ok := false;
        return;
      }
      calls := calls + [Invocation(s[index].value.response, arg)];
      index := index - 1;
    }
    ok := true;
  }

  /** The loop of Unsubscribe and UnsubscribeAll: `for (index = Count - 1; index >= 0; index--) if (matches) _subscribers[index] = null`. */
  method NullMatching(s: seq<Slot>, r: Removal) returns (slots: seq<Slot>, ok: bool)
    ensures Nulling(slots, ok) == NullOut(s, r)
  {
    slots := s;
    var index := |s| - 1;
    while index >= 0
      invariant -1 <= index < |s| && |slots| == |s|
      invariant forall j :: index < j < |s| ==> s[j].Some?
      invariant forall j :: 0 <= j <= index ==> slots[j] == s[j]
      invariant forall j :: index < j < |s| ==> slots[j] == if Matches(r, s[j].value) then None else s[j]
    {
      if slots[index].None? {
        assert LastNull(s) == index;
        ok := false;
        return;
      }
      if Matches(r, slots[index].value) {
        slots := slots[index := None];
      }
      index := index - 1;
    }
    ok := true;
  }

  /** The BaseEventSO part of a channel asset: the base subscriber list, the persistence flag and HasRaised. */
  class BaseEventSO {
    var subscribers: seq<Slot>
    const persistThroughSceneChanges: bool
    var HasRaised: bool

    /** All three are serialized, so a loaded asset may carry any values. */
    constructor (subscribers: seq<Slot>, persist: bool, hasRaised: bool)
      ensures this.subscribers == subscribers && persistThroughSceneChanges == persist && HasRaised == hasRaised
    {
      this.subscribers := subscribers;
      persistThroughSceneChanges := persist;
      HasRaised := hasRaised;
    }

    /** Removes the null slots of the BASE list, from the highest index down. */
    method RemoveNullSubscribers()
      modifies this`subscribers
      ensures subscribers == Compacted(old(subscribers))
    {
      subscribers := RemoveNulls(subscribers);
    }
  }

  /** RemoveNullSubscribers' loop: from the last index down, `RemoveAt(i)` for each null slot. */
  method RemoveNulls(s: seq<Slot>) returns (list: seq<Slot>)
    ensures list == Compacted(s)
  {
    list := s;
    var loop := |list| - 1;
    while loop >= 0
      invariant -1 <= loop < |s|
      invariant list == s[..loop + 1] + Compacted(s[loop + 1..])
    {
      CompactedStep(s, loop, list);
      if list[loop].None? {
        list := list[..loop] + list[loop + 1..];
      }
      loop := loop - 1;
    }
    assert s[0..] == s;
  }

  /** An EventSO<T> asset. `subscribers` is the derived list that hides `base.subscribers`. */
  class EventSO<T> {
    const base: BaseEventSO
    var subscribers: seq<Slot>
    const defaultValue: T
    var LastValueRaised: T
    var invoked: seq<Invocation<T>>

    /**
     * `initialLastValue` is default(T), the value LastValueRaised holds before the first Raise;
     * `baseSubscribers` and `subscribers` are the serialized base and derived lists.
     */
    constructor (defaultValue: T, initialLastValue: T, baseSubscribers: seq<Slot>, subscribers: seq<Slot>,
                 persist: bool, hasRaised: bool)
      ensures fresh(base) && base.subscribers == baseSubscribers
      ensures base.persistThroughSceneChanges == persist && base.HasRaised == hasRaised
      ensures this.subscribers == subscribers && this.defaultValue == defaultValue
      ensures LastValueRaised == initialLastValue && invoked == []
    {
      base := new BaseEventSO(baseSubscribers, persist, hasRaised);
      this.subscribers := subscribers;
      this.defaultValue := defaultValue;
      LastValueRaised := initialLastValue;
      invoked := [];
    }

    /** IEvent.HasRaised: the property BaseEventSO declares. */
    function HasRaised(): bool
      reads this, base
    {
      base.HasRaised
    }

    /**
     * Raise(value): compacts the base list, invokes the derived list from the highest index
     * down, and only when no null slot was met sets HasRaised and LastValueRaised.
     */
    method Raise(value: T) returns (ok: bool)
      modifies this`LastValueRaised, this`invoked, base`subscribers, base`HasRaised
      ensures base.subscribers == Compacted(old(base.subscribers))
      ensures subscribers == old(subscribers)
      ensures ok == NullFree(subscribers)
      ensures invoked == old(invoked) + RaiseCalls(subscribers, value).calls
      ensures ok ==> base.HasRaised && LastValueRaised == value
      ensures !ok ==> base.HasRaised == old(base.HasRaised) && LastValueRaised == old(LastValueRaised)
    {
      base.RemoveNullSubscribers();
      var calls;
      calls, ok := InvokeAll(subscribers, value);
      invoked := invoked + calls;
      if ok {
        base.HasRaised := true;
        LastValueRaised := value;
      }
    }

    /** Raise(): the same loop with `_defaultValue`, leaving LastValueRaised == `_defaultValue`. */
    method RaiseDefault() returns (ok: bool)
      modifies this`LastValueRaised, this`invoked, base`subscribers, base`HasRaised
      ensures base.subscribers == Compacted(old(base.subscribers))
      ensures subscribers == old(subscribers)
      ensures ok == NullFree(subscribers)
      ensures invoked == old(invoked) + RaiseCalls(subscribers, defaultValue).calls
      ensures ok ==> base.HasRaised && LastValueRaised == defaultValue
      ensures !ok ==> base.HasRaised == old(base.HasRaised) && LastValueRaised == old(LastValueRaised)
    {
      ok := Raise(defaultValue);
    }

    /** Both Subscribe overloads: append one subscriber at the end of the derived list. */
    method Subscribe(origin: Obj, methodName: string, response: Response)
      modifies this`subscribers
      ensures subscribers == old(subscribers) + [Some(Subscriber(origin, methodName, response))]
    {
      subscribers := subscribers + [Some(Subscriber(origin, methodName, response))];
    }

    /** UnsubscribeAll(origin): nulls, in place, every subscriber whose origin is `origin`. */
    method UnsubscribeAll(origin: Obj) returns (ok: bool)
      modifies this`subscribers
      ensures Nulling(subscribers, ok) == NullOut(old(subscribers), AllOf(origin))
    {
      subscribers, ok := NullMatching(subscribers, AllOf(origin));
    }

    /** Unsubscribe(origin, methodName): nulls, in place, every subscriber of `origin` when `origin.name == methodName`. */
    method Unsubscribe(origin: Obj, methodName: string) returns (ok: bool)
      modifies this`subscribers
      ensures Nulling(subscribers, ok) == NullOut(old(subscribers), Named(origin, methodName))
    {
      subscribers, ok := NullMatching(subscribers, Named(origin, methodName));
    }

    /** OnSceneUnload: compacts the base list; unless the channel persists, resets HasRaised, LastValueRaised and the derived list. */
    method OnSceneUnload(scene: Scene)
      modifies this`subscribers, this`LastValueRaised, base`subscribers, base`HasRaised
      ensures base.subscribers == Compacted(old(base.subscribers))
      ensures base.persistThroughSceneChanges ==>
                subscribers == old(subscribers) && LastValueRaised == old(LastValueRaised) && base.HasRaised == old(base.HasRaised)
      ensures !base.persistThroughSceneChanges ==>
                subscribers == [] && LastValueRaised == defaultValue && !base.HasRaised
    {
      base.RemoveNullSubscribers();
      if base.persistThroughSceneChanges {
        return;
      }
      base.HasRaised := false;
      LastValueRaised := defaultValue;
      subscribers := [];
    }
  }

  /**
   * An EventSO<T1,T2> asset. It records raises in its own private `hasRaised`, `lastValue1`
   * and `lastValue2`, and never assigns `base.HasRaised`, the flag IEvent.HasRaised exposes.
   */
  class EventSO2<T1, T2> {
    const base: BaseEventSO
    var subscribers: seq<Slot>
    const defaultValue1: T1
    const defaultValue2: T2
    var lastValue1: T1
    var lastValue2: T2
    var hasRaised: bool
    var invoked: seq<Invocation<(T1, T2)>>

    /**
     * `initialValue1`, `initialValue2` and `raised` are the serialized `_lastValue1`, `_lastValue2`
     * and `hasRaised`; `baseRaised` is the base HasRaised property; `baseSubscribers` and
     * `subscribers` are the serialized base and derived lists.
     */
    constructor (default1: T1, default2: T2, initialValue1: T1, initialValue2: T2,
                 baseSubscribers: seq<Slot>, subscribers: seq<Slot>, persist: bool, raised: bool, baseRaised: bool)
      ensures fresh(base) && base.subscribers == baseSubscribers
      ensures base.persistThroughSceneChanges == persist && base.HasRaised == baseRaised
      ensures this.subscribers == subscribers && defaultValue1 == default1 && defaultValue2 == default2
      ensures lastValue1 == initialValue1 && lastValue2 == initialValue2 && hasRaised == raised && invoked == []
    {
      base := new BaseEventSO(baseSubscribers, persist, baseRaised);
      this.subscribers := subscribers;
      defaultValue1, defaultValue2 := default1, default2;
      lastValue1, lastValue2 := initialValue1, initialValue2;
      hasRaised := raised;
      invoked := [];
    }

    /** IEvent.HasRaised: the base property, which this class never sets. */
    function HasRaised(): bool
      reads this, base
    {
      base.HasRaised
    }

    /** Raise(value1, value2): like EventSO<T>.Raise, recording the values in the private fields only. */
    method Raise(value1: T1, value2: T2) returns (ok: bool)
      modifies this`lastValue1, this`lastValue2, this`hasRaised, this`invoked, base`subscribers
      ensures base.subscribers == Compacted(old(base.subscribers))
      ensures base.HasRaised == old(base.HasRaised)
      ensures subscribers == old(subscribers)
      ensures ok == NullFree(subscribers)
      ensures invoked == old(invoked) + RaiseCalls(subscribers, (value1, value2)).calls
      ensures ok ==> hasRaised && lastValue1 == value1 && lastValue2 == value2
      ensures !ok ==> hasRaised == old(hasRaised) && lastValue1 == old(lastValue1) && lastValue2 == old(lastValue2)
    {
      base.RemoveNullSubscribers();
      var calls;
      calls, ok := InvokeAll(subscribers, (value1, value2));
      invoked := invoked + calls;
      if ok {
        lastValue1 := value1;
        lastValue2 := value2;
        hasRaised := true;
      }
    }

    /** Raise(): the same loop with the two default values. */
    method RaiseDefault() returns (ok: bool)
      modifies this`lastValue1, this`lastValue2, this`hasRaised, this`invoked, base`subscribers
      ensures base.subscribers == Compacted(old(base.subscribers))
      ensures base.HasRaised == old(base.HasRaised)
      ensures subscribers == old(subscribers)
      ensures ok == NullFree(subscribers)
      ensures invoked == old(invoked) + RaiseCalls(subscribers, (defaultValue1, defaultValue2)).calls
      ensures ok ==> hasRaised && lastValue1 == defaultValue1 && lastValue2 == defaultValue2
      ensures !ok ==> hasRaised == old(hasRaised) && lastValue1 == old(lastValue1) && lastValue2 == old(lastValue2)
    {
      ok := Raise(defaultValue1, defaultValue2);
    }

    /** Both Subscribe overloads: append one subscriber at the end of the derived list. */
    method Subscribe(origin: Obj, methodName: string, response: Response)
      modifies this`subscribers
      ensures subscribers == old(subscribers) + [Some(Subscriber(origin, methodName, response))]
    {
      subscribers := subscribers + [Some(Subscriber(origin, methodName, response))];
    }

    /** UnsubscribeAll(origin): nulls the matching slots, then compacts the base list (the derived list keeps its nulls). */
    method UnsubscribeAll(origin: Obj) returns (ok: bool)
      modifies this`subscribers, base`subscribers
      ensures Nulling(subscribers, ok) == NullOut(old(subscribers), AllOf(origin))
      ensures base.subscribers == if ok then Compacted(old(base.subscribers)) else old(base.subscribers)
    {
      subscribers, ok := NullMatching(subscribers, AllOf(origin));
      if ok {
        base.RemoveNullSubscribers();
      }
    }

    /** Unsubscribe(origin, methodName): nulls the matching slots, then compacts the base list. */
    method Unsubscribe(origin: Obj, methodName: string) returns (ok: bool)
      modifies this`subscribers, base`subscribers
      ensures Nulling(subscribers, ok) == NullOut(old(subscribers), Named(origin, methodName))
      ensures base.subscribers == if ok then Compacted(old(base.subscribers)) else old(base.subscribers)
    {
      subscribers, ok := NullMatching(subscribers, Named(origin, methodName));
      if ok {
        base.RemoveNullSubscribers();
      }
    }

    /** OnSceneUnload: compacts the base list; unless the channel persists, clears the derived list and resets the private state. */
    method OnSceneUnload(scene: Scene)
      modifies this`subscribers, this`lastValue1, this`lastValue2, this`hasRaised, base`subscribers
      ensures base.subscribers == Compacted(old(base.subscribers))
      ensures base.HasRaised == old(base.HasRaised)
      ensures base.persistThroughSceneChanges ==>
                subscribers == old(subscribers) && hasRaised == old(hasRaised)
                && lastValue1 == old(lastValue1) && lastValue2 == old(lastValue2)
      ensures !base.persistThroughSceneChanges ==>
                subscribers == [] && !hasRaised && lastValue1 == defaultValue1 && lastValue2 == defaultValue2
    {
      base.RemoveNullSubscribers();
      if base.persistThroughSceneChanges {
        return;
      }
      subscribers := [];
      hasRaised := false;
      lastValue1 := defaultValue1;
      lastValue2 := defaultValue2;
    }
  }

  /** On a null-free list, a raise invokes every subscriber's response exactly once, from the last slot to the first. */
  lemma RaiseReachesEverySubscriber<A>(s: seq<Slot>, arg: A)
    requires NullFree(s)
    ensures RaiseCalls(s, arg).completed
    ensures |RaiseCalls(s, arg).calls| == |s|
    ensures forall k :: 0 <= k < |s| ==> RaiseCalls(s, arg).calls[k] == Invocation(s[|s| - 1 - k].value.response, arg)
  {
  }

  /**
   * Unsubscribe never consults the stored method name: with `methodName == origin.name` it is
   * UnsubscribeAll(origin), and with any other name it nulls nothing.
   */
  lemma NamedRemovalUsesOriginName(s: seq<Slot>, origin: Obj, methodName: string)
    ensures NullOut(s, Named(origin, methodName)) ==
              if methodName == origin.name then NullOut(s, AllOf(origin)) else Nulling(s, NullFree(s))
  {
    var named := NullOut(s, Named(origin, methodName));
    if methodName == origin.name {
      var all := NullOut(s, AllOf(origin));
      assert named.slots == all.slots;
    } else {
      assert named.slots == s;
    }
  }

  /**
   * Once a removal has nulled a subscriber of a null-free list, the null slot stays in the
   * derived list, so the next raise and the next unsubscribe loop both throw.
   */
  lemma RemovalBreaksLaterLoops<A>(s: seq<Slot>, r: Removal, later: Removal, j: nat, arg: A)
    requires NullFree(s) && j < |s| && Matches(r, s[j].value)
    ensures NullOut(s, r).completed
    ensures !RaiseCalls(NullOut(s, r).slots, arg).completed
    ensures !NullOut(NullOut(s, r).slots, later).completed
  {
    assert NullOut(s, r).slots[j] == None;
  }

  /** Subscribe, UnsubscribeAll, then Raise on a fresh EventSO<T>: the raise throws and HasRaised stays false. */
  method UnsubscribedSlotBreaksRaise<T>(origin: Obj, methodName: string, response: Response, defaultValue: T, value: T)
    returns (unsubscribed: bool, raised: bool, hasRaised: bool)
    ensures unsubscribed && !raised && !hasRaised
  {
    var channel := new EventSO<T>(defaultValue, defaultValue, [], [], false, false);
    channel.Subscribe(origin, methodName, response);
    unsubscribed := channel.UnsubscribeAll(origin);
    assert channel.subscribers == [None];
    raised := channel.Raise(value);
    hasRaised := channel.HasRaised();
  }
}
