/** The publish/subscribe bus: an ordered subscriber list, `subscribe` with the
    unsubscribe function it returns, and `dispatch`, which normalizes through
    `BlunderError.from` and calls every subscriber of a snapshot taken first. */
module Bus {
  import opened Wrappers
  import opened ErrorModel
  import BlunderErrors

  /** A subscriber function, by identity. */
  type Callback = nat

  /** What a running callback can do to the bus: the list is private to the module, so
      a callback reaches it only through `subscribe` and the unsubscribe functions. */
  datatype Action = Subscribe(callback: Callback) | Unsubscribe(callback: Callback)

  /** The function `subscribe` returns, with the callback it closes over. */
  datatype Unsubscriber = Unsubscriber(callback: Callback)

  /** `list.indexOf(x)`: the first position of `x`, or -1. */
  function IndexOf(list: seq<Callback>, x: Callback): (i: int)
    ensures -1 <= i < |list|
    ensures i == -1 <==> x !in list
    ensures 0 <= i ==> list[i] == x && x !in list[..i]
  {
    if list == [] then -1
    else if list[0] == x then 0
    else
      var j := IndexOf(list[1..], x);
      if j == -1 then -1 else j + 1
  }

  /** What the unsubscribe function leaves: the list without the first occurrence of
      `x`, or the list itself when `x` is absent. */
  function RemoveFirst(list: seq<Callback>, x: Callback): (rest: seq<Callback>)
    ensures x !in list ==> rest == list
    ensures x in list ==> |rest| == |list| - 1
  {
    var index := IndexOf(list, x);
    if index == -1 then list else list[..index] + list[index + 1..]
  }

  /** Unsubscribing an absent callback changes nothing; otherwise exactly one
      registration of it goes and every other stays, in order. */
  lemma RemoveFirstRemovesOne(list: seq<Callback>, x: Callback)
    ensures x !in list ==> RemoveFirst(list, x) == list
    ensures x in list ==> |RemoveFirst(list, x)| == |list| - 1
    ensures multiset(RemoveFirst(list, x)) == multiset(list) - multiset{x}
    ensures x in list ==> exists i :: 0 <= i < |list| && list[i] == x && x !in list[..i]
                                      && RemoveFirst(list, x) == list[..i] + list[i + 1..]
  {
    var index := IndexOf(list, x);
    if index != -1 {
      assert list == list[..index] + [x] + list[index + 1..];
      assert multiset(list) == multiset(list[..index]) + multiset{x} + multiset(list[index + 1..]);
    } else {
      assert multiset(list)[x] == 0;
    }
  }

  /** The earliest registration is the one an unsubscribe removes: subscribing a
      callback and then unsubscribing it gives back the list when it was not already
      subscribed, and otherwise removes its earlier registration. */
  lemma {:induction false} SubscribeThenUnsubscribe(list: seq<Callback>, x: Callback)
    ensures RemoveFirst(list + [x], x) == if x in list then RemoveFirst(list, x) + [x] else list
  {
    var index := IndexOf(list, x);
    var index' := IndexOf(list + [x], x);
    if x in list {
      assert (list + [x])[..index] == list[..index];
      assert index' == index;
      assert (list + [x])[index + 1..] == list[index + 1..] + [x];
    } else {
      assert (list + [x])[..|list|] == list;
      assert index' == |list|;
    }
  }

  /** The effect of one action on the list. */
  function Apply(list: seq<Callback>, action: Action): seq<Callback>
  {
    match action
    case Subscribe(c) => list + [c]
    case Unsubscribe(c) => RemoveFirst(list, c)
  }

  /** The effect of several actions, in order. */
  function ApplyAll(list: seq<Callback>, actions: seq<Action>): seq<Callback>
  {
    if actions == [] then list
    else Apply(ApplyAll(list, actions[..|actions| - 1]), actions[|actions| - 1])
  }

  /** Performing one more action extends the effect of those before it. */
  lemma ApplyAllStep(list: seq<Callback>, actions: seq<Action>, j: nat)
    requires j < |actions|
    ensures ApplyAll(list, actions[..j + 1]) == Apply(ApplyAll(list, actions[..j]), actions[j])
  {
    assert actions[..j + 1][..j] == actions[..j];
  }

  /** What a callback does when called (nothing unless the map says otherwise). */
  function Reaction(reactions: map<Callback, seq<Action>>, c: Callback): seq<Action>
  {
    if c in reactions then reactions[c] else []
  }

  /** The list after calling `invoked` in order, each doing what `reactions` says. */
  function AfterCalls(list: seq<Callback>, invoked: seq<Callback>, reactions: map<Callback, seq<Action>>): seq<Callback>
  {
    if invoked == [] then list
    else ApplyAll(AfterCalls(list, invoked[..|invoked| - 1], reactions), Reaction(reactions, invoked[|invoked| - 1]))
  }

  /** The calls a dispatch makes: each callback of `invoked`, in order, with `e`. */
  function Deliveries(invoked: seq<Callback>, e: ErrorObject): (calls: seq<(Callback, ErrorObject)>)
    ensures |calls| == |invoked|
    ensures forall i :: 0 <= i < |invoked| ==> calls[i] == (invoked[i], e)
  {
    if invoked == [] then [] else Deliveries(invoked[..|invoked| - 1], e) + [(invoked[|invoked| - 1], e)]
  }

  /** Calling one more callback of the snapshot extends both the list's history and
      the call log by that callback. */
  lemma DispatchStep(invoked: seq<Callback>, reactions: map<Callback, seq<Action>>, e: ErrorObject, i: nat)
    requires i < |invoked|
    ensures forall list :: AfterCalls(list, invoked[..i + 1], reactions)
                           == ApplyAll(AfterCalls(list, invoked[..i], reactions), Reaction(reactions, invoked[i]))
    ensures Deliveries(invoked[..i + 1], e) == Deliveries(invoked[..i], e) + [(invoked[i], e)]
  {
    assert invoked[..i + 1][..i] == invoked[..i];
  }

  /** The first occurrence of a callback that occurs once is where it stands. */
  lemma {:induction false} IndexOfSingle(before: seq<Callback>, c: Callback, after: seq<Callback>)
    requires c !in before
    ensures IndexOf(before + [c] + after, c) == |before|
  {
    if before != [] {
      IndexOfSingle(before[1..], c, after);
      assert (before + [c] + after)[1..] == before[1..] + [c] + after;
    }
  }

  /** Callbacks that do nothing to the bus leave the subscriber list as it was. */
  lemma {:induction false} QuietCallsKeepList(list: seq<Callback>, invoked: seq<Callback>)
    ensures AfterCalls(list, invoked, map[]) == list
  {
    if invoked != [] {
      QuietCallsKeepList(list, invoked[..|invoked| - 1]);
    }
  }

  /** A subscriber that unsubscribes itself while being called, the others doing
      nothing, leaves the others registered, in order. */
  lemma {:induction false} SelfRemovalKeepsOthers(before: seq<Callback>, c: Callback, after: seq<Callback>, n: nat)
    requires c !in before && c !in after
    requires n <= |before| + 1 + |after|
    ensures var list := before + [c] + after;
      AfterCalls(list, list[..n], map[c := [Unsubscribe(c)]]) == if n <= |before| then list else before + after
  {
    var list := before + [c] + after;
    var reactions := map[c := [Unsubscribe(c)]];
    if n > 0 {
      SelfRemovalKeepsOthers(before, c, after, n - 1);
      assert list[..n][..n - 1] == list[..n - 1];
      if n - 1 == |before| {
        assert list[n - 1] == c;
        assert Reaction(reactions, c) == [Unsubscribe(c)];
        assert ApplyAll(list, [Unsubscribe(c)]) == RemoveFirst(list, c) by {
          assert [Unsubscribe(c)][..0] == [];
        }
        IndexOfSingle(before, c, after);
        assert list[..|before|] == before && list[|before| + 1..] == after;
      } else {
        if n - 1 < |before| {
          assert list[n - 1] == before[n - 1];
        } else {
          assert list[n - 1] == after[n - 2 - |before|];
        }
        assert Reaction(reactions, list[n - 1]) == [];
      }
    }
  }

  /** The registry of subscribers; `calls` records every call a dispatch makes. */
  class Registry {
    var subscribers: seq<Callback>
    ghost var calls: seq<(Callback, ErrorObject)>

    constructor ()
      ensures subscribers == [] && calls == []
    {
      subscribers := [];
      calls := [];
    }

    /** `subscribe(callback)`: appends the callback and changes nothing else. */
    method Subscribe(callback: Callback) returns (unsubscribe: Unsubscriber)
      modifies this
      ensures subscribers == old(subscribers) + [callback]
      ensures calls == old(calls)
      ensures unsubscribe == Unsubscriber(callback)
    {
      subscribers := subscribers + [callback];
      unsubscribe := Unsubscriber(callback);
    }

    /** Calling the unsubscribe function: removes the first occurrence of its callback,
        or does nothing when it is no longer registered. */
    method Unsubscribe(unsubscribe: Unsubscriber)
      modifies this
      ensures subscribers == RemoveFirst(old(subscribers), unsubscribe.callback)
      ensures calls == old(calls)
    {
      var index := IndexOf(subscribers, unsubscribe.callback);
      if index != -1 {
        subscribers := subscribers[..index] + subscribers[index + 1..];
      }
    }

    /** A subscriber being called with `e`: the call is recorded, then the callback
        does to the bus what `reactions` says it does. */
    method Call(callback: Callback, e: ErrorObject, reactions: map<Callback, seq<Action>>)
      modifies this
      ensures calls == old(calls) + [(callback, e)]
      ensures subscribers == ApplyAll(old(subscribers), Reaction(reactions, callback))
    {
      calls := calls + [(callback, e)];
      var actions := Reaction(reactions, callback);
      for j := 0 to |actions|
        invariant calls == old(calls) + [(callback, e)]
        invariant subscribers == ApplyAll(old(subscribers), actions[..j])
      {
        ApplyAllStep(old(subscribers), actions, j);
        match actions[j]
        case Subscribe(c) =>
          var _ := Subscribe(c);
        case Unsubscribe(c) =>
          Unsubscribe(Unsubscriber(c));
      }
      assert actions[..|actions|] == actions;
    }

    /** `dispatch(error)`: every callback registered when it starts is called exactly
        once, in registration order, with the same `BlunderError.from(error)`, whatever
        the callbacks do to the list meanwhile; callbacks they add are not called. The
        delivered error is returned so that the contract can name it. */
    method Dispatch(error: Thrown, reactions: map<Callback, seq<Action>>, capturedStack: string)
      returns (delivered: ErrorObject)
      modifies this, Objects(error)
      ensures calls == old(calls) + Deliveries(old(subscribers), delivered)
      ensures subscribers == AfterCalls(old(subscribers), old(subscribers), reactions)
      ensures InstanceOf(delivered, BlunderErrorClass)
      ensures error.ErrorValue? && InstanceOf(error.error, BlunderErrorClass) ==> delivered == error.error
      ensures !(error.ErrorValue? && InstanceOf(error.error, BlunderErrorClass)) ==> fresh(delivered)
      ensures error.ErrorValue? && !InstanceOf(error.error, BlunderErrorClass) ==>
        && delivered.cls == BlunderErrorClass && delivered.name == "BlunderError"
        && delivered.message == error.error.message && delivered.stack == error.error.stack
        && delivered.originalError == error.error && delivered.details == map[]
      ensures error.OtherValue? ==>
        && delivered.cls == BlunderErrorClass && delivered.name == "BlunderError"
        && delivered.message == MessageOf(error.text) && delivered.stack == capturedStack
        && delivered.originalError == null && delivered.details == map[]
      ensures unchanged(Objects(error))
    {
      delivered := BlunderErrors.From(error, None, capturedStack);
      var snapshot := subscribers;
      label Delivered:
      for i := 0 to |snapshot|
        invariant calls == old(calls) + Deliveries(snapshot[..i], delivered)
        invariant unchanged@Delivered(delivered)
        invariant subscribers == AfterCalls(snapshot, snapshot[..i], reactions)
        invariant unchanged(Objects(error))
      {
        DispatchStep(snapshot, reactions, delivered, i);
        Call(snapshot[i], delivered, reactions);
      }
      assert snapshot[..|snapshot|] == snapshot;
    }
  }

  /** Two subscribers, the same BlunderError dispatched twice: each subscriber is
      called twice with that very error, there is no de-duplication. */
  method RedispatchNotifiesAgain() returns (error: ErrorObject, final: seq<Callback>, ghost calls: seq<(Callback, ErrorObject)>)
    ensures final == []
    ensures |calls| == 4
    ensures calls[0].0 == 1 && calls[1].0 == 2 && calls[2].0 == 1 && calls[3].0 == 2
    ensures calls[0].1 == error && calls[1].1 == error && calls[2].1 == error && calls[3].1 == error
  {
    var bus := new Registry();
    error := new ErrorObject.Create(BlunderErrorClass, None, None, "");
    var unsubscribe1 := bus.Subscribe(1);
    var unsubscribe2 := bus.Subscribe(2);
    assert bus.subscribers == [1, 2];
    var d1 := bus.Dispatch(ErrorValue(error), map[], "");
    QuietCallsKeepList([1, 2], [1, 2]);
    assert bus.subscribers == [1, 2];
    var d2 := bus.Dispatch(ErrorValue(error), map[], "");
    assert bus.subscribers == [1, 2];
    assert d1 == d2 == error;
    assert bus.calls == Deliveries([1, 2], error) + Deliveries([1, 2], error);
    bus.Unsubscribe(unsubscribe1);
    IndexOfSingle([], 1, [2]);
    assert bus.subscribers == [2];
    bus.Unsubscribe(unsubscribe2);
    IndexOfSingle([], 2, []);
    final := bus.subscribers;
    calls := bus.calls;
  }

  /** The list after the dispatch in which the second of three subscribers removes itself. */
  lemma SecondRemovesItself()
    ensures AfterCalls([1, 2, 3], [1, 2, 3], map[2 := [Unsubscribe(2)]]) == [1, 3]
  {
    SelfRemovalKeepsOthers([1], 2, [3], 3);
    assert [1] + [2] + [3] == [1, 2, 3];
    assert [1, 2, 3][..3] == [1, 2, 3];
  }

  /** The call log of a dispatch to three subscribers followed by one to the first and third. */
  lemma ThreeThenTwo(d1: ErrorObject, d2: ErrorObject)
    ensures var calls := Deliveries([1, 2, 3], d1) + Deliveries([1, 3], d2);
      && |calls| == 5
      && calls[0].0 == 1 && calls[1].0 == 2 && calls[2].0 == 3
      && calls[3].0 == 1 && calls[4].0 == 3
  {
    var c1 := Deliveries([1, 2, 3], d1);
    var c2 := Deliveries([1, 3], d2);
    assert |c1| == 3 && c1[0].0 == 1 && c1[1].0 == 2 && c1[2].0 == 3;
    assert |c2| == 2 && c2[0].0 == 1 && c2[1].0 == 3;
  }

  /** Three subscribers, the second unsubscribing itself when called: that dispatch
      still calls all three, the next one only the first and third. */
  method SelfUnsubscribeDuringDispatch() returns (final: seq<Callback>, ghost calls: seq<(Callback, ErrorObject)>)
    ensures final == [1, 3]
    ensures |calls| == 5
    ensures calls[0].0 == 1 && calls[1].0 == 2 && calls[2].0 == 3
    ensures calls[3].0 == 1 && calls[4].0 == 3
  {
    var bus := new Registry();
    var _ := bus.Subscribe(1);
    var _ := bus.Subscribe(2);
    var _ := bus.Subscribe(3);
    assert bus.subscribers == [1, 2, 3];
    var d1 := bus.Dispatch(OtherValue(Some("error")), map[2 := [Unsubscribe(2)]], "");
    SecondRemovesItself();
    assert bus.subscribers == [1, 3];
    assert bus.calls == Deliveries([1, 2, 3], d1);
    var d2 := bus.Dispatch(OtherValue(Some("error")), map[], "");
    QuietCallsKeepList([1, 3], [1, 3]);
    assert bus.calls == Deliveries([1, 2, 3], d1) + Deliveries([1, 3], d2);
    ThreeThenTwo(d1, d2);
    final := bus.subscribers;
    calls := bus.calls;
  }
}
