/**
 * One group of segments: per-key state entries, per-key subscriber callbacks
 * keyed by a minted id, and the update sequencing that writes a resolved value
 * and notifies the key's subscribers.
 *
 * The ghost functions UpdateStep, SequenceStep and DispatchStep say what one
 * update, one sequence and one dispatch do to a whole group; the methods of
 * class Group are proved to do exactly that.
 */
module Groups {
  import opened Wrappers
  import opened JsValues
  import opened Resolution

  /** A configured segment: its `state` field (possibly absent) and its `actions`. */
  datatype Segment = Segment(state: Option<JsValue>, actions: JsValue)

  /** Subscriber callbacks of one key, by subscriber id. */
  type Subscribers = map<nat, JsValue>

  /** The `stack` field: subscribers by segment key. */
  type Stack = map<string, Subscribers>

  /** One invocation of a subscriber callback with a new state value. */
  datatype Notification = Notification(key: string, id: nat, callback: JsValue, value: JsValue)

  /** The `restore`/`unregister` pair `register` returns, bound to one subscription. */
  datatype Handle = Handle(key: string, id: nat, callback: JsValue)

  /**
   * What `useSegment` returns: copies of the stored state and actions; the
   * `dispatch` and `register` it also returns are bound to `key`.
   */
  datatype View = View(state: JsValue, actions: JsValue, key: string)

  datatype Error =
    | DuplicateKey(key: string)       // `add` of a key the group already has
    | MissingSegment(key: string)     // `useSegment` of an entry without a `state` field
    | UndefinedSegment(key: string)   // `useSegment` of a key the group does not have
    | UnknownGroup(name: string)      // any registry operation on a group never `init`-ed
    | InvalidCallback                 // `register` of something that is not a function

  /** How a promise returned by `updateState` or `runSequence` ends. */
  datatype Settled =
    | Resolved(value: JsValue)  // it resolves with `value`
    | Stalled                   // a step threw inside the promise: it never resolves

  /** The whole content of a group, plus the record of callbacks invoked so far. */
  datatype Snapshot = Snapshot(state: map<string, Segment>, stack: Stack, registeredCount: nat, delivered: seq<Notification>)

  /** What one step ends with and the group it leaves. */
  datatype Step = Step(outcome: Settled, after: Snapshot)

  /** `this.state[key].state`: undefined when the entry has no `state` field. */
  function Previous(seg: Segment): JsValue
  {
    match seg.state
    case Some(v) => v
    case None => Undefined
  }

  /** Every stored subscriber has an id already minted, and is a function. */
  ghost predicate WellFormed(stack: Stack, registeredCount: nat)
  {
    forall k, id :: k in stack && id in stack[k] ==> id < registeredCount && stack[k][id].Func?
  }

  /** `stack[h.key][h.id] = h.callback`, creating `stack[h.key]` when missing. */
  function Subscribe(stack: Stack, h: Handle): (r: Stack)
    ensures r.Keys == stack.Keys + {h.key}
    ensures h.id in r[h.key] && r[h.key][h.id] == h.callback
    ensures h.key in stack ==> r[h.key].Keys == stack[h.key].Keys + {h.id}
    ensures forall k, id :: k in stack && id in stack[k] && (k, id) != (h.key, h.id) ==> id in r[k] && r[k][id] == stack[k][id]
    ensures forall k, id :: k in r && id in r[k] && (k, id) != (h.key, h.id) ==> k in stack && id in stack[k]
  {
    var subs := if h.key in stack then stack[h.key] else map[];
    stack[h.key := subs[h.id := h.callback]]
  }

  /** `delete stack[h.key][h.id]`. */
  function Unsubscribe(stack: Stack, h: Handle): (r: Stack)
    requires h.key in stack
    ensures r.Keys == stack.Keys
    ensures r[h.key].Keys == stack[h.key].Keys - {h.id}
    ensures forall k, id :: k in r && id in r[k] ==> id in stack[k] && r[k][id] == stack[k][id]
    ensures forall k, id :: k in stack && id in stack[k] && (k, id) != (h.key, h.id) ==> id in r[k]
  {
    stack[h.key := stack[h.key] - {h.id}]
  }

  /**
   * The callbacks `Object.values(subs).forEach` invokes with `v`, restricted to
   * ids below `n`. Integer-like keys are enumerated in ascending numeric order.
   */
  function Deliveries(key: string, subs: Subscribers, v: JsValue, n: nat): (d: seq<Notification>)
    ensures OnlySubscribers(d, key, subs, v, n)
  {
    if n == 0 then []
    else Deliveries(key, subs, v, n - 1) + (if n - 1 in subs then [Notification(key, n - 1, subs[n - 1], v)] else [])
  }

  /** Every invocation in `d` is of a subscriber in `subs` below `n`, with its own callback and `v`. */
  ghost predicate OnlySubscribers(d: seq<Notification>, key: string, subs: Subscribers, v: JsValue, n: nat)
  {
    forall i :: 0 <= i < |d| ==>
      d[i].key == key && d[i].value == v && d[i].id < n && d[i].id in subs && d[i].callback == subs[d[i].id]
  }

  /** The ids in `d` strictly increase. */
  ghost predicate Ascending(d: seq<Notification>)
  {
    forall i, j :: 0 <= i < j < |d| ==> d[i].id < d[j].id
  }

  /**
   * `d` invokes, with `v`, every subscriber in `subs` whose id is below `n`,
   * each exactly once, in ascending id order, and nothing else.
   */
  ghost predicate InvokesInOrder(d: seq<Notification>, key: string, subs: Subscribers, v: JsValue, n: nat)
  {
    && OnlySubscribers(d, key, subs, v, n)
    && Ascending(d)
    && (forall id :: id in subs && id < n ==> exists i :: 0 <= i < |d| && d[i].id == id)
  }

  /** Notifications are made in strictly ascending id order. */
  lemma {:induction false} DeliveriesAscending(key: string, subs: Subscribers, v: JsValue, n: nat)
    ensures Ascending(Deliveries(key, subs, v, n))
  {
    if n > 0 {
      DeliveriesAscending(key, subs, v, n - 1);
      var d := Deliveries(key, subs, v, n - 1);
      var extra: seq<Notification> := if n - 1 in subs then [Notification(key, n - 1, subs[n - 1], v)] else [];
      var all := d + extra;
      assert Deliveries(key, subs, v, n) == all;
      assert OnlySubscribers(d, key, subs, v, n - 1) && Ascending(d);
      forall i, j | 0 <= i < j < |all|
        ensures all[i].id < all[j].id
      {
        assert all[i] == d[i];
        if j < |d| {
          assert all[j] == d[j];
          assert d[i].id < d[j].id;
        } else {
          assert d[i].id < n - 1;
          assert all[j] == extra[0];
        }
      }
    }
  }

  /** Every subscriber below the bound is notified. */
  lemma {:induction false} DeliveriesComplete(key: string, subs: Subscribers, v: JsValue, n: nat)
    ensures var d := Deliveries(key, subs, v, n);
      forall id :: id in subs && id < n ==> exists i :: 0 <= i < |d| && d[i].id == id
  {
    if n > 0 {
      DeliveriesComplete(key, subs, v, n - 1);
      var d := Deliveries(key, subs, v, n - 1);
      var extra: seq<Notification> := if n - 1 in subs then [Notification(key, n - 1, subs[n - 1], v)] else [];
      var all := d + extra;
      assert Deliveries(key, subs, v, n) == all;
      forall id | id in subs && id < n
        ensures exists i :: 0 <= i < |all| && all[i].id == id
      {
        if id < n - 1 {
          var i :| 0 <= i < |d| && d[i].id == id;
          assert all[i] == d[i];
        } else {
          assert all[|d|] == extra[0];
        }
      }
    }
  }

  lemma DeliveriesInOrder(key: string, subs: Subscribers, v: JsValue, n: nat)
    ensures InvokesInOrder(Deliveries(key, subs, v, n), key, subs, v, n)
  {
    DeliveriesAscending(key, subs, v, n);
    DeliveriesComplete(key, subs, v, n);
  }

  /** The group's `updateState(key, value)` settles. */
  ghost predicate UpdateTerminates(call: Behaviour, g: Snapshot, key: string, value: JsValue)
  {
    key in g.state ==> Terminates(call, value, Previous(g.state[key]))
  }

  /**
   * One `updateState(key, value)`, run to its end. A missing entry makes the
   * chain throw before anything is written. Otherwise the resolved value is
   * stored as the entry's `state`; a key nobody ever registered for then throws
   * while reading its subscribers, after the write; else each subscriber is
   * invoked and the step resolves with the value. A chain that never settles
   * writes nothing.
   */
  ghost function UpdateStep(call: Behaviour, g: Snapshot, key: string, value: JsValue): (s: Step)
    ensures s.after.stack == g.stack && s.after.registeredCount == g.registeredCount
    ensures s.after.state.Keys == g.state.Keys
    ensures forall k :: k in g.state && k != key ==> s.after.state[k] == g.state[k]
    ensures key in g.state ==> s.after.state[key].actions == g.state[key].actions
    ensures g.delivered <= s.after.delivered
    ensures s.outcome.Resolved? ==>
      && key in g.state && key in g.stack
      && IsConcrete(s.outcome.value)
      && s.after.state[key].state == Some(s.outcome.value)
    ensures s.outcome.Stalled? ==> s.after.delivered == g.delivered
    ensures key in g.state && Terminates(call, value, Previous(g.state[key])) ==>
      s.after.state[key].state == Some(FinalValue(call, value, Previous(g.state[key])))
    ensures key !in g.state || !UpdateTerminates(call, g, key, value) ==> s == Step(Stalled, g)
  {
    if key !in g.state || !Terminates(call, value, Previous(g.state[key])) then Step(Stalled, g)
    else
      var v := FinalValue(call, value, Previous(g.state[key]));
      var written := g.(state := g.state[key := g.state[key].(state := Some(v))]);
      if key !in g.stack then Step(Stalled, written)
      else Step(Resolved(v), written.(delivered := g.delivered + Deliveries(key, g.stack[key], v, g.registeredCount)))
  }

  /** Every step of `runSequence(key, items)` that gets to run settles. */
  ghost predicate SequenceTerminates(call: Behaviour, g: Snapshot, key: string, items: seq<JsValue>)
    decreases |items|
  {
    items == [] ||
    (UpdateTerminates(call, g, key, items[0]) &&
     var s := UpdateStep(call, g, key, items[0]);
     s.outcome.Resolved? ==> SequenceTerminates(call, s.after, key, items[1..]))
  }

  /**
   * `runSequence(key, items)`: each element is awaited before the next starts;
   * an element whose promise never resolves stops the sequence there. When all
   * elements resolve, the sequence resolves with undefined.
   */
  ghost function SequenceStep(call: Behaviour, g: Snapshot, key: string, items: seq<JsValue>): (s: Step)
    ensures s.after.stack == g.stack && s.after.registeredCount == g.registeredCount
    ensures s.after.state.Keys == g.state.Keys
    ensures forall k :: k in g.state && k != key ==> s.after.state[k] == g.state[k]
    ensures key in g.state ==> s.after.state[key].actions == g.state[key].actions
    ensures g.delivered <= s.after.delivered
    ensures s.outcome.Resolved? ==> s.outcome.value == Undefined
    decreases |items|
  {
    if items == [] then Step(Resolved(Undefined), g)
    else
      var s := UpdateStep(call, g, key, items[0]);
      if s.outcome.Stalled? then s else SequenceStep(call, s.after, key, items[1..])
  }

  /** `dispatch(key, value)` runs to its end. */
  ghost predicate DispatchTerminates(call: Behaviour, g: Snapshot, key: string, value: JsValue)
  {
    if IsArray(value) then SequenceTerminates(call, g, key, value.items) else UpdateTerminates(call, g, key, value)
  }

  /** `dispatch(key, value)`: an array is run as a sequence, anything else as one update. */
  ghost function DispatchStep(call: Behaviour, g: Snapshot, key: string, value: JsValue): (s: Step)
    ensures s.after.stack == g.stack && s.after.registeredCount == g.registeredCount
    ensures s.after.state.Keys == g.state.Keys
    ensures forall k :: k in g.state && k != key ==> s.after.state[k] == g.state[k]
    ensures key in g.state ==> s.after.state[key].actions == g.state[key].actions
    ensures g.delivered <= s.after.delivered
    ensures IsArray(value) && s.outcome.Resolved? ==> s.outcome.value == Undefined
    ensures !IsArray(value) && s.outcome.Resolved? ==>
      key in g.state && IsConcrete(s.outcome.value) && s.after.state[key].state == Some(s.outcome.value)
    ensures !IsArray(value) && key in g.state && Terminates(call, value, Previous(g.state[key])) ==>
      s.after.state[key].state == Some(FinalValue(call, value, Previous(g.state[key])))
  {
    if IsArray(value) then SequenceStep(call, g, key, value.items) else UpdateStep(call, g, key, value)
  }

  /**
   * Every stored subscriber sits under the key and id `register` minted for it,
   * holding its own callback; every minted id is below the counter. So an id
   * is held under at most one key.
   */
  ghost predicate Consistent(stack: Stack, issued: map<nat, Handle>, registeredCount: nat)
  {
    && WellFormed(stack, registeredCount)
    && (forall k, id :: k in stack && id in stack[k] ==> id in issued && issued[id] == Handle(k, id, stack[k][id]))
    && (forall id :: id in issued ==>
          id < registeredCount && issued[id].id == id && issued[id].key in stack && issued[id].callback.Func?)
  }

  /** Minting the next id for a function keeps the bookkeeping consistent. */
  lemma MintKeepsConsistent(stack: Stack, issued: map<nat, Handle>, count: nat, h: Handle)
    requires Consistent(stack, issued, count) && h.id == count && h.callback.Func?
    ensures Consistent(Subscribe(stack, h), issued[h.id := h], count + 1)
  {
  }

  /** Storing an issued subscription again keeps the bookkeeping consistent. */
  lemma RestoreKeepsConsistent(stack: Stack, issued: map<nat, Handle>, count: nat, h: Handle)
    requires Consistent(stack, issued, count) && h.id in issued && issued[h.id] == h
    ensures Consistent(Subscribe(stack, h), issued, count)
  {
  }

  /** Removing an issued subscription keeps the bookkeeping consistent. */
  lemma UnsubscribeKeepsConsistent(stack: Stack, issued: map<nat, Handle>, count: nat, h: Handle)
    requires Consistent(stack, issued, count) && h.id in issued && issued[h.id] == h
    ensures h.key in stack && Consistent(Unsubscribe(stack, h), issued, count)
  {
  }

  class Group {
    var isInitialized: bool
    var group: string  // declared with '' and never assigned: the constructor sets `name`
    var name: string
    var stack: Stack
    var state: map<string, Segment>
    var registeredCount: nat
    /** The callback invocations made so far, in order. */
    var delivered: seq<Notification>
    /** The subscription each id minted by `register` was bound to. */
    ghost var issued: map<nat, Handle>

    /**
     * Every stored subscriber sits under the key and id it was registered
     * with, holding its own callback; so an id is held under at most one key.
     */
    ghost predicate Valid()
      reads this
    {
      Consistent(stack, issued, registeredCount)
    }

    /** No subscriber id is held under two keys. */
    lemma IdsUnique()
      requires Valid()
      ensures forall k1, k2, id :: k1 in stack && k2 in stack && id in stack[k1] && id in stack[k2] ==> k1 == k2
    {
      forall k1, k2, id | k1 in stack && k2 in stack && id in stack[k1] && id in stack[k2]
        ensures k1 == k2
      {
        assert issued[id] == Handle(k1, id, stack[k1][id]) == Handle(k2, id, stack[k2][id]);
      }
    }

    function Current(): Snapshot
      reads this
    {
      Snapshot(state, stack, registeredCount, delivered)
    }

    /** `h` was returned by this group's `register`. */
    ghost predicate Issued(h: Handle)
      reads this
    {
      h.id in issued && issued[h.id] == h
    }

    constructor (config: map<string, Segment>, groupName: string)
      ensures Valid()
      ensures isInitialized && group == "" && name == groupName
      ensures state == config && stack == map[] && registeredCount == 0 && delivered == []
      ensures issued == map[]
    {
      isInitialized := true;
      group := "";
      name := groupName;
      stack := map[];
      state := config;
      registeredCount := 0;
      delivered := [];
      issued := map[];
    }

    /**
     * Stores a function under a freshly minted id, never used before in this
     * group; anything else is refused with an error value.
     */
    method Register(key: string, callback: JsValue) returns (r: Result<Handle, Error>)
      requires Valid()
      modifies this`stack, this`registeredCount, this`issued
      ensures Valid()
      ensures r.Failure? <==> TypeOf(callback) != "function"
      ensures r.Failure? ==>
        r.error == InvalidCallback && stack == old(stack) && registeredCount == old(registeredCount) && issued == old(issued)
      ensures r.Success? ==>
        && r.value == Handle(key, old(registeredCount), callback)
        && Issued(r.value)
        && (forall k :: k in old(stack) ==> r.value.id !in old(stack)[k])
        && stack == Subscribe(old(stack), r.value)
        && registeredCount == old(registeredCount) + 1
        && issued == old(issued)[r.value.id := r.value]
    {
      if TypeOf(callback) != "function" {
        return Failure(InvalidCallback);
      }
      // `Subscribe` creates `stack[key]` when it is missing.
      var h := Handle(key, registeredCount, callback);
      MintKeepsConsistent(stack, issued, registeredCount, h);
      stack := Subscribe(stack, h);
      issued := issued[h.id := h];
      registeredCount := registeredCount + 1;
      r := Success(h);
    }

    /** The `unregister` closure: removes only this subscription; the id stays spent. */
    method Unregister(h: Handle)
      requires Valid() && Issued(h)
      modifies this`stack
      ensures Valid() && Issued(h)
      ensures stack == Unsubscribe(old(stack), h)
    {
      UnsubscribeKeepsConsistent(stack, issued, registeredCount, h);
      stack := Unsubscribe(stack, h);
    }

    /** The `restore` closure: stores the original callback again under the original id. */
    method Restore(h: Handle)
      requires Valid() && Issued(h)
      modifies this`stack
      ensures Valid() && Issued(h)
      ensures stack == Subscribe(old(stack), h)
    {
      RestoreKeepsConsistent(stack, issued, registeredCount, h);
      stack := Subscribe(stack, h);
    }

    /** `updateState(key, value)`, awaited to its end. */
    method UpdateState(key: string, value: JsValue, call: Behaviour) returns (outcome: Settled)
      requires Valid() && UpdateTerminates(call, Current(), key, value)
      modifies this`state, this`delivered
      ensures Valid()
      ensures Step(outcome, Current()) == UpdateStep(call, old(Current()), key, value)
    {
      var v := value;
      ghost var fuel: nat := 0;
      if key in state {
        fuel :| Unwind(call, value, Previous(state[key]), fuel).Some?;
      }
      while v.Func? || v.Promise?
        invariant key in state ==>
          Unwind(call, v, Previous(state[key]), fuel) == Some(FinalValue(call, value, Previous(state[key])))
        decreases fuel, v
      {
        match v
        case Func(ref) =>
          if key !in state {
            return Stalled;  // reading `state` of an undefined entry throws
          }
          v := call(ref, CopyIfObject(Previous(state[key])));
          fuel := fuel - 1;
        case Promise(inner) =>
          v := inner;
      }
      if key !in state {
        return Stalled;  // assigning `state` on an undefined entry throws
      }
      assert v == FinalValue(call, value, Previous(state[key]));
      state := state[key := state[key].(state := Some(v))];
      if key !in stack {
        return Stalled;  // `Object.values(undefined)` throws after the write
      }
      var subs := stack[key];
      var log := delivered;
      for id := 0 to registeredCount
        invariant log == delivered + Deliveries(key, subs, v, id)
      {
        if id in subs {
          log := log + [Notification(key, id, subs[id], v)];
        }
      }
      delivered := log;
      outcome := Resolved(v);
      assert Current() == old(Current()).(state := state, delivered := old(delivered) + Deliveries(key, subs, v, registeredCount));
    }

    /** `runSequence(key, items)`, awaited to its end. */
    method RunSequence(key: string, items: seq<JsValue>, call: Behaviour) returns (outcome: Settled)
      requires Valid() && SequenceTerminates(call, Current(), key, items)
      modifies this`state, this`delivered
      ensures Valid()
      ensures Step(outcome, Current()) == SequenceStep(call, old(Current()), key, items)
    {
      for i := 0 to |items|
        invariant Valid()
        invariant SequenceTerminates(call, Current(), key, items[i..])
        invariant SequenceStep(call, old(Current()), key, items) == SequenceStep(call, Current(), key, items[i..])
      {
        assert items[i..][0] == items[i] && items[i..][1..] == items[i + 1..];
        var r := UpdateState(key, items[i], call);
        if r.Stalled? {
          return Stalled;  // awaiting a promise that never resolves: later elements never run
        }
      }
      outcome := Resolved(Undefined);
    }

    /** `dispatch(key, value)`: fire-and-forget, observable only through the state and the callbacks. */
    method Dispatch(key: string, value: JsValue, call: Behaviour)
      requires Valid() && DispatchTerminates(call, Current(), key, value)
      modifies this`state, this`delivered
      ensures Valid()
      ensures Current() == DispatchStep(call, old(Current()), key, value).after
    {
      if IsArray(value) {
        var _ := RunSequence(key, value.items, call);
      } else {
        var _ := UpdateState(key, value, call);
      }
    }

    /** `useSegment(key)`: a copy of the entry plus `dispatch`/`register` bound to `key`; changes nothing. */
    function UseSegment(key: string): (r: Result<View, Error>)
      reads this
      ensures r.Success? <==> key in state && state[key].state.Some?
      ensures key !in state ==> r == Failure(UndefinedSegment(key))
      ensures key in state && state[key].state.None? ==> r == Failure(MissingSegment(key))
      ensures r.Success? ==>
        && r.value.key == key
        && r.value.state == CopyIfObject(state[key].state.value)
        && r.value.actions == CopyIfObject(state[key].actions)
    {
      if key !in state then Failure(UndefinedSegment(key))
      else
        var prop := state[key];
        if prop.state.None? then Failure(MissingSegment(key))
        else Success(View(CopyIfObject(prop.state.value), CopyIfObject(prop.actions), key))
    }
  }
}
