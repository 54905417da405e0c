/**
 * `gor::generator`, the baseline of the benchmarks: a single owner of the frame that can
 * only be moved, and an iterator that carries the raw coroutine handle together with a
 * copy of its `done()` state.
 */
module GorGenerator {
  import opened Coroutine
  import opened Producers

  class Generator<E> {
    var p: Frame?<E>

    /** The generator is the only owner of its frame, which is alive. */
    ghost predicate Valid()
      reads this, p
    {
      p != null ==> p.Valid() && !p.destroyed && p.owners == {this}
    }

    /** `get_return_object`, through the private constructor from the promise. */
    constructor FromPromise(f: Frame<E>)
      requires f.Valid() && !f.destroyed && f.owners == {}
      modifies f
      ensures p == f && Valid()
      ensures f.refCount == old(f.refCount) && f.Snap() == old(f.Snap())
    {
      p := f;
      new;
      f.Claim(this);
    }

    /** The move constructor: take the frame and null the source. */
    constructor Move(rhs: Generator<E>)
      requires rhs.Valid()
      modifies rhs, rhs.p
      ensures p == old(rhs.p) && rhs.p == null && Valid() && rhs.Valid()
      ensures p != null ==> p.owners == {this} && p.refCount == old(rhs.p.refCount) && p.Snap() == old(rhs.p.Snap())
    {
      p := rhs.p;
      new;
      rhs.p := null;
      if p != null {
        p.Transfer(rhs, this);
      }
    }

    /** The destructor: destroy the frame if there is one. The model leaves the generator null. */
    method Dispose()
      requires Valid()
      modifies this, p
      ensures p == null
      ensures old(p) != null ==> old(p).destroyed && old(p).owners == {} && old(p).Snap() == old(p.Snap())
    {
      if p != null {
        p.Destroy();
      }
      p := null;
    }

    ghost predicate Iterable()
      reads this, p
    {
      Valid() && p != null && !p.Done()
    }

    /** `begin()`: resume once and record whether the frame is done. */
    method Begin() returns (it: Iterator<E>)
      requires Iterable()
      modifies p
      ensures Valid()
      ensures p.Snap() == Resumed(p.step, old(p.Snap())) && p.Life() == old(p.Life())
      ensures it == Iterator(p, p.Done())
    {
      p.Resume();
      it := Iterator(p, p.Done());
    }

    /** `end()`: an iterator marked done. */
    function End(): (r: Iterator<E>)
      reads this
      ensures r.coro == p && r.Equals(Iterator(p, true)) && r.NotEquals(Iterator(p, false))
    {
      Iterator(p, true)
    }
  }

  datatype Iterator<E> = Iterator(coro: Frame?<E>, done: bool) {
    /** Iterators compare only their `_Done` flags. */
    predicate Equals(other: Iterator<E>)
    {
      done == other.done
    }

    predicate NotEquals(other: Iterator<E>)
    {
      !Equals(other)
    }

    /** `++it`: resume once, then refresh the `_Done` flag from the frame. */
    method Increment() returns (next: Iterator<E>)
      requires coro != null && coro.Valid() && !coro.destroyed && !coro.Done()
      modifies coro
      ensures coro.Valid()
      ensures coro.Snap() == Resumed(coro.step, old(coro.Snap())) && coro.Life() == old(coro.Life())
      ensures next == Iterator(coro, coro.Done())
    {
      coro.Resume();
      next := this.(done := coro.Done());
    }

    /** `*it`: the promise's `current_value`. */
    function Deref(): (r: E)
      requires coro != null && !coro.destroyed && !coro.Done()
      reads coro
      ensures r == coro.Snap().current
    {
      coro.currentElement
    }
  }

  /** Any two iterators that are not done are equal, and none of them equals `end()`. */
  lemma IteratorEquality<E>(a: Iterator<E>, b: Iterator<E>, g: Generator<E>)
    requires !a.done && !b.done
    ensures a.Equals(b) && !a.NotEquals(b)
    ensures !a.Equals(g.End()) && a.NotEquals(g.End())
  {
  }

  /** Calling a producer: frame, promise, `get_return_object`, and `initial_suspend`. */
  method Invoke<E>(step: int -> Step<E>, start: int, blank: E) returns (g: Generator<E>)
    ensures fresh(g) && g.Iterable() && fresh(g.p)
    ensures g.p.step == step && g.p.Snap() == Fresh(start, blank)
    ensures g.p.owners == {g}
  {
    var f := new Frame(step, start, blank, x => x);
    g := new Generator.FromPromise(f);
  }

  /**
   * Ownership is single: after a move only the new generator owns the frame, disposing
   * of the moved-from generator leaves the frame alone, and disposing of the new one
   * destroys it.
   */
  method MoveThenDispose() returns (sourceNull: bool, ghost aliveAfterSource: bool, ghost destroyedAtEnd: bool)
    ensures sourceNull && aliveAfterSource && destroyedAtEnd
  {
    var g := Invoke(UptoBody(3), 0, 0);
    var f := g.p;
    var h := new Generator.Move(g);
    sourceNull := g.p == null;
    g.Dispose();
    aliveAfterSource := !f.destroyed;
    h.Dispose();
    destroyedAtEnd := f.destroyed;
  }

  /** A range-for loop over `upto(n)`: `begin()`, then `++it` until `it == end()`,
    * reads 0, 1, ..., n - 1. */
  method DrainUpto(n: int) returns (values: seq<int>)
    ensures values == Range(Max0(n))
  {
    var g := Invoke(UptoBody(n), 0, 0);
    var f := g.p;
    var it := g.Begin();
    UptoResumed(n, 0, 0);
    values := [];
    while it.NotEquals(g.End())
      invariant g.p == f && g.Valid() && f.step == UptoBody(n)
      invariant |values| <= Max0(n) && f.Snap() == UptoAfter(n, 0, |values| + 1)
      invariant it == Iterator(f, f.Done())
      invariant values == Range(|values|)
      modifies f
      decreases Max0(n) - |values|
    {
      values := values + [it.Deref()];
      UptoResumed(n, 0, |values|);
      it := it.Increment();
    }
  }
}
