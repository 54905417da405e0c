/**
 * The coroutine frame that the compiler builds for a producer routine, modelled
 * abstractly: the routine's body is a step function from the routine's local state
 * to "yield a value and continue from a new state" or "return", and the frame holds
 * the promise object's fields (the current element and the reference count) next to
 * the routine's suspension state.
 */
module Coroutine {

  datatype Option<T> = None | Some(value: T)

  /** What the producer body does when it runs from one suspension point to the next. */
  datatype Step<E> = Yield(value: E, next: int) | Return

  /**
   * The three externally visible states of a frame: suspended at `initial_suspend`
   * (no statement of the body has run), suspended at a `co_yield`, and suspended at
   * `final_suspend` (where `done()` is true).
   */
  datatype Phase = NotStarted | Suspended | Finished

  /** The observable state of a frame: the routine's locals, its phase, the promise's
    * element slot and, as history, every value yielded so far. */
  datatype Snapshot<E> = Snapshot(locals: int, phase: Phase, current: E, yielded: seq<E>)

  /** The ownership side of a frame: the promise's reference count, the handles that own
    * the frame, and whether the frame has been destroyed. */
  datatype Lifetime = Lifetime(refCount: int, owners: set<object>, destroyed: bool)

  /** A frame freshly created by calling the producer: its body has not run. */
  function Fresh<E>(start: int, blank: E): (s: Snapshot<E>)
  {
    Snapshot(start, NotStarted, blank, [])
  }

  /**
   * One `resume()`: the body runs from its suspension point until the next `co_yield`,
   * whose `yield_value` stores the element and suspends, or until it falls off its end
   * and suspends at `final_suspend`. Resuming a finished frame is undefined behaviour.
   */
  function Resumed<E>(step: int -> Step<E>, s: Snapshot<E>): (r: Snapshot<E>)
    requires s.phase != Finished
    ensures r.phase != NotStarted
    ensures r.phase == Suspended <==> step(s.locals).Yield?
    ensures r.phase == Suspended ==> r.current == step(s.locals).value && r.yielded == s.yielded + [r.current]
    ensures r.phase == Finished ==> r.current == s.current && r.yielded == s.yielded
  {
    match step(s.locals)
    case Yield(v, next) => Snapshot(next, Suspended, v, s.yielded + [v])
    case Return => s.(phase := Finished)
  }

  /** A driver that resumes a frame `k` times, stopping early once the frame is finished. */
  function ResumeN<E>(step: int -> Step<E>, s: Snapshot<E>, k: nat): (r: Snapshot<E>)
    ensures s.yielded <= r.yielded && |r.yielded| <= |s.yielded| + k
    ensures s.phase == Finished ==> r == s
    ensures s.phase != Finished && k > 0 ==> r.phase != NotStarted
    decreases k
  {
    if k == 0 || s.phase == Finished then s else ResumeN(step, Resumed(step, s), k - 1)
  }

  /** Resuming once more after `k` resumes that left the frame suspended is the same as `k + 1` resumes. */
  lemma {:induction false} ResumeNSnoc<E>(step: int -> Step<E>, s: Snapshot<E>, k: nat)
    requires ResumeN(step, s, k).phase != Finished
    ensures ResumeN(step, s, k + 1) == Resumed(step, ResumeN(step, s, k))
    decreases k
  {
    if k > 0 {
      ResumeNSnoc(step, Resumed(step, s), k - 1);
    }
  }

  /** `f` gained the owner `h` and one reference; nothing else about it changed. */
  twostate predicate Acquired<E>(f: Frame<E>, new h: object)
    reads f
  {
    f.Valid() && f.Counted() &&
    f.refCount == old(f.refCount) + 1 && f.owners == old(f.owners) + {h} &&
    f.destroyed == old(f.destroyed) && f.Snap() == old(f.Snap())
  }

  /** `f` lost the owner `h` and one reference, and was destroyed exactly if that was the last one. */
  twostate predicate Released<E>(f: Frame<E>, h: object)
    reads f
  {
    f.Valid() && f.Counted() &&
    f.refCount == old(f.refCount) - 1 && f.owners == old(f.owners) - {h} &&
    f.destroyed == (old(f.refCount) == 1) && f.Snap() == old(f.Snap())
  }

  /** Ownership of `f` moved from `from` to `to`; the count did not change. */
  twostate predicate Transferred<E>(f: Frame<E>, from: object, new to: object)
    reads f
  {
    f.Valid() && f.Counted() &&
    f.refCount == old(f.refCount) && f.owners == old(f.owners) - {from} + {to} &&
    f.destroyed == old(f.destroyed) && f.Snap() == old(f.Snap())
  }

  class Frame<E> {
    /** The producer body. */
    const step: int -> Step<E>
    /** What a moved-from element looks like: unchanged for `int`, null for `unique_ptr`. */
    const residue: E -> E

    var locals: int
    var phase: Phase
    /** `promise_type::currentElement` */
    var currentElement: E
    /** `promise_type::ref_count` */
    var refCount: int

    ghost var yielded: seq<E>
    ghost var owners: set<object>
    ghost var destroyed: bool

    ghost predicate Valid()
      reads this
    {
      0 <= refCount && (destroyed ==> owners == {})
    }

    /** The reference count is the number of handles that own the frame. */
    ghost predicate Counted()
      reads this
    {
      refCount == |owners|
    }

    ghost function Snap(): Snapshot<E>
      reads this
    {
      Snapshot(locals, phase, currentElement, yielded)
    }

    ghost function Life(): Lifetime
      reads this
    {
      Lifetime(refCount, owners, destroyed)
    }

    /** `coroutine_handle::done()` */
    predicate Done()
      reads this
      ensures Done() <==> Snap().phase == Finished
    {
      phase == Finished
    }

    /**
     * Calling the producer: the frame is allocated, the promise is constructed with
     * `ref_count{0}`, and `initial_suspend` is `suspend_always`, so nothing of the body runs.
     */
    constructor (step: int -> Step<E>, start: int, blank: E, residue: E -> E)
      ensures this.step == step && this.residue == residue
      ensures Valid() && Counted()
      ensures Snap() == Fresh(start, blank)
      ensures Life() == Lifetime(0, {}, false)
    {
      this.step := step;
      this.residue := residue;
      locals := start;
      phase := NotStarted;
      currentElement := blank;
      refCount := 0;
      yielded := [];
      owners := {};
      destroyed := false;
    }

    /** `coroutine_handle::resume()` */
    method Resume()
      requires Valid() && !destroyed && phase != Finished
      modifies this
      ensures Valid()
      ensures Snap() == Resumed(step, old(Snap()))
      ensures Life() == old(Life())
    {
      match step(locals)
      case Yield(v, next) =>
        locals := next;
        YieldValue(v);
      case Return =>
        phase := Finished;
    }

    /** `promise_type::yield_value`: the element is moved into the slot and the body suspends. */
    method YieldValue(element: E)
      modifies this
      ensures currentElement == element && phase == Suspended
      ensures yielded == old(yielded) + [element]
      ensures locals == old(locals) && Life() == old(Life())
    {
      currentElement := element;
      phase := Suspended;
      yielded := yielded + [element];
    }

    /** `promise_type::add_ref`, on behalf of the handle `owner` that now shares the frame. */
    method AddRef(ghost owner: object)
      requires Valid() && Counted() && owner !in owners && !destroyed
      modifies this
      ensures Valid() && Counted()
      ensures refCount == old(refCount) + 1 && owners == old(owners) + {owner}
      ensures destroyed == old(destroyed) && Snap() == old(Snap())
    {
      refCount := refCount + 1;
      owners := owners + {owner};
    }

    /** `promise_type::del_ref`, on behalf of the handle `owner` that lets go of the frame;
      * returns the new count. */
    method DelRef(ghost owner: object) returns (count: int)
      requires Valid() && Counted() && owner in owners
      modifies this
      ensures Valid() && Counted()
      ensures count == refCount == old(refCount) - 1 && owners == old(owners) - {owner}
      ensures destroyed == old(destroyed) && Snap() == old(Snap())
    {
      refCount := refCount - 1;
      owners := owners - {owner};
      count := refCount;
    }

    /** Moves ownership from one handle object to another; nothing in the frame changes. */
    ghost method Transfer(from: object, to: object)
      requires Valid() && from in owners && to !in owners
      modifies this
      ensures Valid() && Counted() == old(Counted())
      ensures owners == old(owners) - {from} + {to}
      ensures refCount == old(refCount) && destroyed == old(destroyed) && Snap() == old(Snap())
    {
      owners := owners - {from} + {to};
    }

    /** A single owner takes the frame (no reference count involved). */
    ghost method Claim(owner: object)
      requires Valid() && !destroyed
      modifies this
      ensures Valid() && owners == old(owners) + {owner}
      ensures refCount == old(refCount) && destroyed == old(destroyed) && Snap() == old(Snap())
    {
      owners := owners + {owner};
    }

    /** `coroutine_handle::destroy()`: destroying a frame twice is undefined behaviour. */
    method Destroy()
      requires Valid() && !destroyed
      modifies this
      ensures Valid() && destroyed && owners == {}
      ensures refCount == old(refCount) && Snap() == old(Snap())
    {
      destroyed := true;
      owners := {};
    }

    /** Move-constructing a value out of the element slot, as `std::move(*it)` does: the
      * value is returned and the slot is left in its moved-from state. */
    method MoveOutCurrent() returns (element: E)
      requires Valid() && !destroyed
      modifies this
      ensures element == old(currentElement) && currentElement == residue(element)
      ensures locals == old(locals) && phase == old(phase) && yielded == old(yielded)
      ensures Life() == old(Life())
    {
      element := currentElement;
      currentElement := residue(currentElement);
    }
  }
}
