/**
 * Properties of the group engine stated over UpdateStep, SequenceStep and
 * DispatchStep, which the methods of Groups.Group are proved to implement.
 */
module GroupProperties {
  import opened Wrappers
  import opened JsValues
  import opened Resolution
  import opened Groups

  /**
   * When an update resolves with `v`, what it appends to the record is one
   * invocation of every subscriber the key has, with `v`, in ascending id order.
   */
  lemma UpdateNotifiesEverySubscriber(call: Behaviour, g: Snapshot, key: string, value: JsValue)
    requires WellFormed(g.stack, g.registeredCount)
    ensures var s := UpdateStep(call, g, key, value);
      s.outcome.Resolved? ==>
        var d := s.after.delivered[|g.delivered|..];
        && InvokesInOrder(d, key, g.stack[key], s.outcome.value, g.registeredCount)
        && (forall id :: id in g.stack[key] ==> exists i :: 0 <= i < |d| && d[i].id == id)
  {
    var s := UpdateStep(call, g, key, value);
    if s.outcome.Resolved? {
      var v := s.outcome.value;
      var d := Deliveries(key, g.stack[key], v, g.registeredCount);
      assert s.after.delivered == g.delivered + d;
      assert s.after.delivered[|g.delivered|..] == d;
      DeliveriesInOrder(key, g.stack[key], v, g.registeredCount);
    }
  }

  /** Dispatching a concrete value stores it, and resolves with it exactly when the key has a stack. */
  lemma ConcreteUpdate(call: Behaviour, g: Snapshot, key: string, v: JsValue)
    requires IsConcrete(v) && key in g.state
    ensures var s := UpdateStep(call, g, key, v);
      && s.after.state[key].state == Some(v)
      && (s.outcome == Resolved(v) <==> key in g.stack)
      && (key in g.stack ==> s.after.delivered == g.delivered + Deliveries(key, g.stack[key], v, g.registeredCount))
  {
    ResolveConcrete(call, v, Previous(g.state[key]));
  }

  /** Dispatching a function is dispatching its result on (a copy of) the previous state. */
  lemma TransformEquivalence(call: Behaviour, g: Snapshot, key: string, ref: FnRef)
    requires key in g.state
    ensures UpdateStep(call, g, key, Func(ref)) ==
            UpdateStep(call, g, key, call(ref, CopyIfObject(Previous(g.state[key]))))
  {
    ResolveTransform(call, ref, Previous(g.state[key]));
  }

  /** Dispatching a promise is dispatching the value it settled with. */
  lemma DeferredEquivalence(call: Behaviour, g: Snapshot, key: string, inner: JsValue)
    ensures UpdateStep(call, g, key, Promise(inner)) == UpdateStep(call, g, key, inner)
  {
    if key in g.state {
      ResolveDeferred(call, inner, Previous(g.state[key]));
    }
  }

  /**
   * Running `xs + ys` runs `xs` and then, only if every step of `xs` resolved,
   * runs `ys` from where `xs` left the group: states follow in list order and
   * the notification record is the concatenation of the per-step records.
   */
  lemma {:induction false} SequenceAppend(call: Behaviour, g: Snapshot, key: string, xs: seq<JsValue>, ys: seq<JsValue>)
    ensures SequenceStep(call, g, key, xs + ys) ==
      var s := SequenceStep(call, g, key, xs);
      if s.outcome.Stalled? then s else SequenceStep(call, s.after, key, ys)
    decreases |xs|
  {
    if xs == [] {
      assert xs + ys == ys;
    } else {
      assert (xs + ys)[0] == xs[0];
      assert (xs + ys)[1..] == xs[1..] + ys;
      var s := UpdateStep(call, g, key, xs[0]);
      if s.outcome.Resolved? {
        SequenceAppend(call, s.after, key, xs[1..], ys);
      }
    }
  }

  /** A one-element sequence has the effect of a single update. */
  lemma SequenceSingle(call: Behaviour, g: Snapshot, key: string, x: JsValue)
    ensures SequenceStep(call, g, key, [x]).after == UpdateStep(call, g, key, x).after
    ensures SequenceStep(call, g, key, [x]).outcome.Resolved? <==> UpdateStep(call, g, key, x).outcome.Resolved?
  {
  }

  /**
   * When a whole sequence resolves, the key ends with the resolution of the
   * last element, taken against the state the earlier elements left.
   */
  lemma SequenceEndsWithLast(call: Behaviour, g: Snapshot, key: string, items: seq<JsValue>)
    requires items != []
    ensures var s := SequenceStep(call, g, key, items);
      var before := SequenceStep(call, g, key, items[..|items| - 1]).after;
      var last := items[|items| - 1];
      s.outcome.Resolved? ==>
        && key in before.state
        && Terminates(call, last, Previous(before.state[key]))
        && s.after.state[key].state == Some(FinalValue(call, last, Previous(before.state[key])))
  {
    var init, last := items[..|items| - 1], items[|items| - 1];
    assert items == init + [last];
    SequenceAppend(call, g, key, init, [last]);
    var p := SequenceStep(call, g, key, init);
    if p.outcome.Resolved? {
      SequenceSingle(call, p.after, key, last);
    }
  }

  /**
   * On a key nobody ever registered for, the first element of a sequence is
   * resolved and written, and then the step throws: the sequence stops there.
   */
  lemma UnsubscribedKeyStallsSequence(call: Behaviour, g: Snapshot, key: string, items: seq<JsValue>)
    requires key in g.state && key !in g.stack && items != []
    requires Terminates(call, items[0], Previous(g.state[key]))
    ensures SequenceStep(call, g, key, items) ==
      Step(Stalled, g.(state := g.state[key := g.state[key].(state := Some(FinalValue(call, items[0], Previous(g.state[key]))))]))
  {
  }

  /** A dispatch of anything but an array is exactly one update. */
  lemma DispatchSingle(call: Behaviour, g: Snapshot, key: string, value: JsValue)
    requires !IsArray(value)
    ensures DispatchStep(call, g, key, value) == UpdateStep(call, g, key, value)
  {
  }

  /** Unregistering twice is unregistering once. */
  lemma UnsubscribeIdempotent(stack: Stack, h: Handle)
    requires h.key in stack
    ensures Unsubscribe(Unsubscribe(stack, h), h) == Unsubscribe(stack, h)
  {
    var once := Unsubscribe(stack, h);
    assert (once[h.key] - {h.id}) == once[h.key];
  }

  /** Restoring twice is restoring once. */
  lemma SubscribeIdempotent(stack: Stack, h: Handle)
    ensures Subscribe(Subscribe(stack, h), h) == Subscribe(stack, h)
  {
    var once := Subscribe(stack, h);
    var subs: Subscribers := once[h.key];
    assert subs[h.id := h.callback] == subs;
  }

  /** Unregistering and then restoring a live subscription gives back the stack as it was. */
  lemma RestoreUndoesUnregister(stack: Stack, h: Handle)
    requires h.key in stack && h.id in stack[h.key] && stack[h.key][h.id] == h.callback
    ensures Subscribe(Unsubscribe(stack, h), h) == stack
  {
    var r := Subscribe(Unsubscribe(stack, h), h);
    assert r[h.key] == stack[h.key];
  }

  /** After `unregister`, an update of the key invokes nothing under that id. */
  lemma UnregisteredNotNotified(stack: Stack, h: Handle, v: JsValue, n: nat)
    requires h.key in stack
    ensures var d := Deliveries(h.key, Unsubscribe(stack, h)[h.key], v, n);
      forall i :: 0 <= i < |d| ==> d[i].id != h.id
  {
  }

  /** After `restore`, an update of the key invokes the original callback under the original id exactly once. */
  lemma RestoredNotifiedOnce(stack: Stack, h: Handle, v: JsValue, n: nat)
    requires h.id < n
    ensures var d := Deliveries(h.key, Subscribe(stack, h)[h.key], v, n);
      && (exists i :: 0 <= i < |d| && d[i] == Notification(h.key, h.id, h.callback, v))
      && (forall i, j :: 0 <= i < |d| && 0 <= j < |d| && d[i].id == h.id && d[j].id == h.id ==> i == j)
  {
    var subs := Subscribe(stack, h)[h.key];
    var d := Deliveries(h.key, subs, v, n);
    DeliveriesInOrder(h.key, subs, v, n);
    assert h.id in subs;
    var k :| 0 <= k < |d| && d[k].id == h.id;
    assert d[k] == Notification(h.key, h.id, h.callback, v);
    assert Deliveries(h.key, Subscribe(stack, h)[h.key], v, n) == d;
  }

  /**
   * What `useSegment` hands out is already a plain copy: copying it again
   * changes nothing. A stored value that is not a promise (every value a
   * resolved update writes is concrete) is handed out as it is.
   */
  lemma SnapshotOfStoredValue(g: Group, key: string)
    ensures var r := g.UseSegment(key);
      r.Success? ==> CopyIfObject(r.value.state) == r.value.state && CopyIfObject(r.value.actions) == r.value.actions
    ensures key in g.state && g.state[key].state.Some? && !g.state[key].state.value.Promise? ==>
      g.UseSegment(key).Success? && g.UseSegment(key).value.state == g.state[key].state.value
  {
    if key in g.state && g.state[key].state.Some? {
      CopyIfObjectStable(g.state[key].state.value);
      CopyIfObjectStable(g.state[key].actions);
    }
  }

  /** The status example: `dispatch('status', ['loading', 'done'])` with one subscriber. */
  lemma StatusSequenceExample(call: Behaviour, cb: FnRef)
    ensures
      var g := Snapshot(map["status" := Segment(Some(Str("idle")), Obj(map[]))], map["status" := map[0 := Func(cb)]], 1, []);
      DispatchStep(call, g, "status", Arr([Str("loading"), Str("done")])) ==
        Step(Resolved(Undefined), g.(
          state := map["status" := Segment(Some(Str("done")), Obj(map[]))],
          delivered := [Notification("status", 0, Func(cb), Str("loading")), Notification("status", 0, Func(cb), Str("done"))]))
  {
    var g := Snapshot(map["status" := Segment(Some(Str("idle")), Obj(map[]))], map["status" := map[0 := Func(cb)]], 1, []);
    ConcreteUpdate(call, g, "status", Str("loading"));
    var s1 := UpdateStep(call, g, "status", Str("loading"));
    assert Deliveries("status", map[0 := Func(cb)], Str("loading"), 1) == [Notification("status", 0, Func(cb), Str("loading"))];
    ConcreteUpdate(call, s1.after, "status", Str("done"));
    assert Deliveries("status", map[0 := Func(cb)], Str("done"), 1) == [Notification("status", 0, Func(cb), Str("done"))];
    var items := [Str("loading"), Str("done")];
    assert items[1..] == [Str("done")] && items[1..][1..] == [];
  }

  /** The counter group holding `m`, with one subscriber and notification record `d`. */
  function CounterGroup(cb: FnRef, m: int, d: seq<Notification>): Snapshot
  {
    Snapshot(map["counter" := Segment(Some(Num(m)), Obj(map[]))], map["counter" := map[0 := Func(cb)]], 1, d)
  }

  /** One dispatch of `n => n + 1` on the counter group stores and notifies `m + 1`. */
  lemma CounterIncrement(call: Behaviour, inc: FnRef, cb: FnRef, m: int, d: seq<Notification>)
    requires forall n :: call(inc, Num(n)) == Num(n + 1)
    ensures DispatchStep(call, CounterGroup(cb, m, d), "counter", Func(inc)).after ==
      CounterGroup(cb, m + 1, d + [Notification("counter", 0, Func(cb), Num(m + 1))])
  {
    var g := CounterGroup(cb, m, d);
    TransformEquivalence(call, g, "counter", inc);
    ConcreteUpdate(call, g, "counter", Num(m + 1));
    assert Deliveries("counter", map[0 := Func(cb)], Num(m + 1), 1) == [Notification("counter", 0, Func(cb), Num(m + 1))];
  }

  /** The counter example: three dispatches of `n => n + 1` from 0 notify 1, 2, 3 and leave 3. */
  lemma CounterExample(call: Behaviour, inc: FnRef, cb: FnRef)
    requires forall n :: call(inc, Num(n)) == Num(n + 1)
    ensures
      var g0 := Snapshot(map["counter" := Segment(Some(Num(0)), Obj(map[]))], map["counter" := map[0 := Func(cb)]], 1, []);
      var g1 := DispatchStep(call, g0, "counter", Func(inc)).after;
      var g2 := DispatchStep(call, g1, "counter", Func(inc)).after;
      var g3 := DispatchStep(call, g2, "counter", Func(inc)).after;
      && g3.state["counter"].state == Some(Num(3))
      && g3.delivered == [Notification("counter", 0, Func(cb), Num(1)),
                          Notification("counter", 0, Func(cb), Num(2)),
                          Notification("counter", 0, Func(cb), Num(3))]
  {
    var n1 := Notification("counter", 0, Func(cb), Num(1));
    var n2 := Notification("counter", 0, Func(cb), Num(2));
    var n3 := Notification("counter", 0, Func(cb), Num(3));
    var g1 := DispatchStep(call, CounterGroup(cb, 0, []), "counter", Func(inc)).after;
    assert g1 == CounterGroup(cb, 1, [n1]) by { CounterIncrement(call, inc, cb, 0, []); }
    var g2 := DispatchStep(call, g1, "counter", Func(inc)).after;
    assert g2 == CounterGroup(cb, 2, [n1, n2]) by { CounterIncrement(call, inc, cb, 1, [n1]); }
    var g3 := DispatchStep(call, g2, "counter", Func(inc)).after;
    assert g3 == CounterGroup(cb, 3, [n1, n2, n3]) by { CounterIncrement(call, inc, cb, 2, [n1, n2]); }
  }
}
