/**
 * The resolution chain of `Group.updateState`: a dispatched function is applied
 * to the previous state, a promise is replaced by the value it settled with, and
 * this repeats until a concrete value is reached.
 */
module Resolution {
  import opened Wrappers
  import opened JsValues

  /** What each JavaScript function returns when called with one argument. */
  type Behaviour = (FnRef, JsValue) -> JsValue

  /**
   * Unwinds `v` against the previous state `prev`, applying at most `fuel`
   * functions. None means the chain did not reach a concrete value in time.
   * Each function receives a shallow copy of `prev` when `prev` is an object.
   */
  function Unwind(call: Behaviour, v: JsValue, prev: JsValue, fuel: nat): (r: Option<JsValue>)
    ensures r.Some? ==> IsConcrete(r.value)
    ensures r.Some? && IsConcrete(v) ==> r.value == v
    decreases fuel, v
  {
    match v
    case Func(ref) =>
      if fuel == 0 then None else Unwind(call, call(ref, CopyIfObject(prev)), prev, fuel - 1)
    case Promise(inner) => Unwind(call, inner, prev, fuel)
    case _ => Some(v)
  }

  /** More fuel never changes a chain that already reached a value. */
  lemma {:induction false} UnwindMonotone(call: Behaviour, v: JsValue, prev: JsValue, n: nat, m: nat)
    requires n <= m && Unwind(call, v, prev, n).Some?
    ensures Unwind(call, v, prev, m) == Unwind(call, v, prev, n)
    decreases n, v
  {
    match v
    case Func(ref) => UnwindMonotone(call, call(ref, CopyIfObject(prev)), prev, n - 1, m - 1);
    case Promise(inner) => UnwindMonotone(call, inner, prev, n, m);
    case _ =>
  }

  /** Any two fuel amounts that reach a value reach the same one. */
  lemma UnwindUnique(call: Behaviour, v: JsValue, prev: JsValue, n: nat)
    requires Unwind(call, v, prev, n).Some?
    ensures forall m: nat :: Unwind(call, v, prev, m).Some? ==> Unwind(call, v, prev, m) == Unwind(call, v, prev, n)
  {
    forall m: nat | Unwind(call, v, prev, m).Some?
      ensures Unwind(call, v, prev, m) == Unwind(call, v, prev, n)
    {
      if n <= m {
        UnwindMonotone(call, v, prev, n, m);
      } else {
        UnwindMonotone(call, v, prev, m, n);
      }
    }
  }

  /** The chain reaches a concrete value after finitely many applications. */
  ghost predicate Terminates(call: Behaviour, v: JsValue, prev: JsValue)
  {
    exists n: nat :: Unwind(call, v, prev, n).Some?
  }

  /** The concrete value a terminating chain reaches, whatever fuel is used. */
  ghost function FinalValue(call: Behaviour, v: JsValue, prev: JsValue): (r: JsValue)
    requires Terminates(call, v, prev)
    ensures IsConcrete(r)
    ensures forall n: nat :: Unwind(call, v, prev, n).Some? ==> Unwind(call, v, prev, n).value == r
  {
    var n: nat :| Unwind(call, v, prev, n).Some?;
    UnwindUnique(call, v, prev, n);
    Unwind(call, v, prev, n).value
  }

  /** A concrete value resolves to itself. */
  lemma ResolveConcrete(call: Behaviour, v: JsValue, prev: JsValue)
    requires IsConcrete(v)
    ensures Terminates(call, v, prev) && FinalValue(call, v, prev) == v
  {
    assert Unwind(call, v, prev, 0).Some?;
  }

  /** A function resolves exactly as its result on (a copy of) the previous state does. */
  lemma ResolveTransform(call: Behaviour, ref: FnRef, prev: JsValue)
    ensures Terminates(call, Func(ref), prev) <==> Terminates(call, call(ref, CopyIfObject(prev)), prev)
    ensures Terminates(call, Func(ref), prev) ==>
      FinalValue(call, Func(ref), prev) == FinalValue(call, call(ref, CopyIfObject(prev)), prev)
  {
    var next := call(ref, CopyIfObject(prev));
    if Terminates(call, Func(ref), prev) {
      var n: nat :| Unwind(call, Func(ref), prev, n).Some?;
      assert Unwind(call, next, prev, n - 1).Some?;
    }
    if Terminates(call, next, prev) {
      var n: nat :| Unwind(call, next, prev, n).Some?;
      assert Unwind(call, Func(ref), prev, n + 1).Some?;
    }
  }

  /** A promise resolves exactly as the value it settled with does. */
  lemma ResolveDeferred(call: Behaviour, inner: JsValue, prev: JsValue)
    ensures Terminates(call, Promise(inner), prev) <==> Terminates(call, inner, prev)
    ensures Terminates(call, inner, prev) ==>
      FinalValue(call, Promise(inner), prev) == FinalValue(call, inner, prev)
  {
    if Terminates(call, Promise(inner), prev) {
      var n: nat :| Unwind(call, Promise(inner), prev, n).Some?;
      assert Unwind(call, inner, prev, n).Some?;
    }
    if Terminates(call, inner, prev) {
      var n: nat :| Unwind(call, inner, prev, n).Some?;
      assert Unwind(call, Promise(inner), prev, n).Some?;
    }
  }
}
