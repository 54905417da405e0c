/**
 * `toby::generator`: a generator whose frame is shared through the reference-counted
 * `intrusive_coroutine_handle`, with an iterator that holds the raw coroutine handle and
 * a stateless sentinel as its end.
 */
module IntrusiveGenerator {
  import opened Coroutine
  import opened Producers

  /** `intrusive_coroutine_handle`: a handle that owns one reference to its frame, if any. */
  class IntrusiveHandle<E> {
    var coro: Frame?<E>

    ghost predicate Valid()
      reads this, coro
    {
      coro != null ==> coro.Valid() && coro.Counted() && this in coro.owners
    }

    /** Ghost bookkeeping: a handle is listed as an owner of no frame but its own. */
    ghost predicate OwnsNoOther(f: Frame?<E>)
      reads this, f
    {
      f != null && f != coro ==> this !in f.owners
    }

    /** The default constructor: a null handle. */
    constructor Null()
      ensures coro == null && Valid()
    {
      coro := null;
    }

    /** The constructor from a coroutine handle: `add_ref` unless it is null. */
    constructor FromFrame(f: Frame?<E>)
      requires f != null ==> f.Valid() && f.Counted() && !f.destroyed
      modifies f
      ensures coro == f && Valid()
      ensures f != null ==> Acquired(f, this)
    {
      coro := null;
      new;
      Bind(f);
    }

    /** The copy constructor: one more reference to the same frame. */
    constructor Copy(other: IntrusiveHandle<E>)
      requires other.Valid()
      modifies other.coro
      ensures coro == other.coro && Valid() && other.Valid()
      ensures other.coro != null ==> Acquired(other.coro, this)
    {
      coro := null;
      new;
      Bind(other.coro);
    }

    /** The move constructor: start null and swap with `other`; the count is untouched. */
    constructor Move(other: IntrusiveHandle<E>)
      requires other.Valid()
      modifies other, other.coro
      ensures coro == old(other.coro) && other.coro == null && Valid() && other.Valid()
      ensures old(other.coro) != null ==> Transferred(old(other.coro), other, this)
    {
      coro := null;
      new;
      TakeFrom(other);
    }

    /** What the constructor from a coroutine handle does to a handle that holds nothing. */
    method Bind(f: Frame?<E>)
      requires coro == null
      requires f != null ==> f.Valid() && f.Counted() && !f.destroyed && this !in f.owners
      modifies this, f
      ensures coro == f && Valid()
      ensures f != null ==> Acquired(f, this)
    {
      coro := f;
      if coro != null {
        coro.AddRef(this);
      }
    }

    /** What the move constructor does to a handle that holds nothing: `std::swap` with `other`. */
    method TakeFrom(other: IntrusiveHandle<E>)
      requires coro == null && other.Valid()
      requires other != this ==> OwnsNoOther(other.coro)
      modifies this, other, other.coro
      ensures other != this ==> coro == old(other.coro) && other.coro == null
      ensures other == this ==> coro == null
      ensures Valid() && other.Valid()
      ensures other != this && old(other.coro) != null ==> Transferred(old(other.coro), other, this)
    {
      var c := other.coro;
      other.coro := coro;
      coro := c;
      if coro != null && other != this {
        coro.Transfer(other, this);
      }
    }

    /**
     * The destructor: `del_ref` unless null, and `destroy` when the count reaches 0. The
     * handle's lifetime ends here; the model leaves it null.
     */
    method Release()
      requires Valid()
      modifies this, coro
      ensures coro == null
      ensures old(coro) != null ==> Released(old(coro), this)
    {
      if coro != null {
        var count := coro.DelRef(this);
        if count == 0 {
          coro.Destroy();
        }
      }
      coro := null;
    }

    /** Copy assignment: the destructor, then the copy constructor in place. */
    method CopyAssign(other: IntrusiveHandle<E>)
      requires this != other && Valid() && other.Valid() && OwnsNoOther(other.coro)
      modifies this, coro, other.coro
      ensures coro == other.coro == old(other.coro) && Valid() && other.Valid()
      ensures old(coro) != null && old(coro) != coro ==> Released(old(coro), this)
      ensures coro != null && coro != old(coro) ==> Acquired(old(other.coro), this)
      ensures coro != null && coro == old(coro) ==>
        coro.Life() == old(coro.Life()) && coro.Snap() == old(coro.Snap())
    {
      Release();
      Bind(other.coro);
    }

    /** Move assignment: the destructor, then the move constructor in place. Moving a
      * handle into itself leaves it null. */
    method MoveAssign(other: IntrusiveHandle<E>)
      requires Valid() && other.Valid() && OwnsNoOther(other.coro)
      modifies this, coro, other, other.coro
      ensures Valid() && other.Valid()
      ensures other == this ==> coro == null && (old(coro) != null ==> Released(old(coro), this))
      ensures other != this ==> coro == old(other.coro) && other.coro == null
      ensures other != this && old(coro) != null && old(coro) != coro ==> Released(old(coro), this)
      ensures other != this && coro != null && coro != old(coro) ==> Transferred(old(other.coro), other, this)
      ensures other != this && coro != null && coro == old(coro) ==> Released(old(coro), other)
    {
      Release();
      TakeFrom(other);
    }
  }

  /** `generator_sentinel`: every sentinel equals every other. */
  datatype Sentinel = Sentinel {
    predicate Equals(other: Sentinel)
    {
      true
    }

    predicate NotEquals(other: Sentinel)
    {
      false
    }

    /** `sentinel == iterator`, defined as `iterator == sentinel`. */
    predicate EqualsIterator<E>(it: Iterator<E>)
      requires it.coro != null && !it.coro.destroyed
      reads it.coro
      ensures EqualsIterator(it) <==> it.coro.Done()
    {
      it.EqualsSentinel(this)
    }

    predicate NotEqualsIterator<E>(it: Iterator<E>)
      requires it.coro != null && !it.coro.destroyed
      reads it.coro
    {
      it.NotEqualsSentinel(this)
    }
  }

  /** `generator_iterator`: a raw, non-owning coroutine handle. */
  datatype Iterator<E> = Iterator(coro: Frame?<E>) {
    /** `iterator == sentinel` is `done()`. */
    predicate EqualsSentinel(s: Sentinel)
      requires coro != null && !coro.destroyed
      reads coro
      ensures EqualsSentinel(s) <==> coro.Snap().phase == Finished
    {
      coro.Done()
    }

    predicate NotEqualsSentinel(s: Sentinel)
      requires coro != null && !coro.destroyed
      reads coro
    {
      !EqualsSentinel(s)
    }

    /** Every iterator equals every other, whatever their positions. */
    predicate EqualsIterator(other: Iterator<E>)
    {
      true
    }

    predicate NotEqualsIterator(other: Iterator<E>)
    {
      false
    }

    /** `++it`: resume once and return the same iterator. */
    method Increment() returns (self: Iterator<E>)
      requires coro != null && coro.Valid() && !coro.destroyed && !coro.Done()
      modifies coro
      ensures self == this && coro.Valid()
      ensures coro.Snap() == Resumed(coro.step, old(coro.Snap()))
      ensures coro.Life() == old(coro.Life())
    {
      coro.Resume();
      self := this;
    }

    /** `it++`: the same resume, returning nothing. */
    method PostIncrement()
      requires coro != null && coro.Valid() && !coro.destroyed && !coro.Done()
      modifies coro
      ensures coro.Valid()
      ensures coro.Snap() == Resumed(coro.step, old(coro.Snap()))
      ensures coro.Life() == old(coro.Life())
    {
      var _ := Increment();
    }

    /** `*it`: the promise's current element. */
    function Deref(): (r: E)
      requires coro != null && !coro.destroyed && !coro.Done()
      reads coro
      ensures r == coro.Snap().current
    {
      coro.currentElement
    }
  }

  /** Comparing against the sentinel is `done()` in either argument order, `!=` is the
    * negation of `==`, and any two iterators, or any two sentinels, compare equal. */
  lemma Comparisons<E>(it: Iterator<E>, other: Iterator<E>, s: Sentinel, t: Sentinel)
    requires it.coro != null && !it.coro.destroyed
    ensures it.EqualsSentinel(s) == s.EqualsIterator(it) == it.coro.Done()
    ensures it.NotEqualsSentinel(s) == s.NotEqualsIterator(it) == !it.coro.Done()
    ensures it.EqualsIterator(other) && !it.NotEqualsIterator(other)
    ensures s.Equals(t) && !s.NotEquals(t)
  {
  }

  /** `toby::generator`, holding its frame through an `intrusive_coroutine_handle`. */
  class Generator<E> {
    var handle: IntrusiveHandle<E>

    ghost predicate Valid()
      reads this, handle, handle.coro
    {
      handle.Valid()
    }

    /** The default constructor: no frame. */
    constructor Default()
      ensures fresh(handle) && handle.coro == null && Valid()
    {
      handle := new IntrusiveHandle.Null();
    }

    /** `get_return_object`: the generator's handle takes the first reference to the frame. */
    constructor FromPromise(f: Frame<E>)
      requires f.Valid() && f.Counted() && !f.destroyed
      modifies f
      ensures fresh(handle) && handle.coro == f && Valid()
      ensures Acquired(f, handle)
    {
      handle := new IntrusiveHandle.FromFrame(f);
    }

    /** `begin()`: resume once, then wrap the coroutine handle in an iterator. */
    method Begin() returns (it: Iterator<E>)
      requires Valid() && handle.coro != null && !handle.coro.Done()
      modifies handle.coro
      ensures Valid() && it == Iterator(handle.coro)
      ensures handle.coro.Snap() == Resumed(handle.coro.step, old(handle.coro.Snap()))
      ensures handle.coro.Life() == old(handle.coro.Life())
    {
      handle.coro.Resume();
      it := Iterator(handle.coro);
    }

    /** `end()` */
    function End(): Sentinel
    {
      Sentinel
    }
  }

  /**
   * Calling a producer: its frame is allocated, the promise starts with `ref_count{0}`,
   * `get_return_object` builds the generator, and `initial_suspend` suspends before the
   * body runs.
   */
  method Invoke<E>(step: int -> Step<E>, start: int, blank: E, residue: E -> E) returns (g: Generator<E>)
    ensures fresh(g) && fresh(g.handle) && g.Valid() && g.handle.coro != null && fresh(g.handle.coro)
    ensures g.handle.coro.step == step && g.handle.coro.residue == residue
    ensures g.handle.coro.Snap() == Fresh(start, blank)
    ensures g.handle.coro.Life() == Lifetime(1, {g.handle}, false)
  {
    var f := new Frame(step, start, blank, residue);
    g := new Generator.FromPromise(f);
  }

  /**
   * A new generator holds one reference and has run none of its body; each `begin()`
   * resumes once, so a second `begin()` continues the sequence the first one started.
   */
  method BeginTwice() returns (count: int, lazy: bool, first: int, second: int)
    ensures count == 1 && lazy
    ensures first == 0 && second == 1
  {
    var g := Invoke(UptoBody(3), 0, 0, MoveLeavesValue());
    count := g.handle.coro.refCount;
    lazy := g.handle.coro.phase == NotStarted;
    var it := g.Begin();
    first := it.Deref();
    var again := g.Begin();
    second := again.Deref();
  }

  /**
   * Copies share the frame and add a reference, moves keep the count, and the frame is
   * destroyed when the last reference goes and not before.
   */
  method Lifecycle() returns (counts: seq<int>, ghost destroyed: seq<bool>)
    ensures counts == [1, 2, 2, 1, 0]
    ensures destroyed == [false, false, false, false, true]
  {
    var g := Invoke(UptoBody(3), 0, 0, MoveLeavesValue());
    var f := g.handle.coro;
    counts, destroyed := [f.refCount], [f.destroyed];
    var copy := new IntrusiveHandle.Copy(g.handle);
    counts, destroyed := counts + [f.refCount], destroyed + [f.destroyed];
    var moved := new IntrusiveHandle.Move(copy);
    assert copy.coro == null && moved.coro == f;
    counts, destroyed := counts + [f.refCount], destroyed + [f.destroyed];
    moved.Release();
    counts, destroyed := counts + [f.refCount], destroyed + [f.destroyed];
    g.handle.Release();
    counts, destroyed := counts + [f.refCount], destroyed + [f.destroyed];
  }

  /**
   * Copy assignment releases the frame the handle held and then shares the other
   * handle's: a copy of the first generator's handle, copy-assigned from the second
   * generator's, moves one reference from the first frame to the second.
   */
  method CopyAssignment() returns (first: seq<int>, second: seq<int>, ghost firstAlive: bool)
    ensures first == [2, 1] && second == [1, 2] && firstAlive
  {
    var g1 := Invoke(UptoBody(1), 0, 0, MoveLeavesValue());
    var g2 := Invoke(UptoBody(2), 0, 0, MoveLeavesValue());
    var f1, f2 := g1.handle.coro, g2.handle.coro;
    var h := new IntrusiveHandle.Copy(g1.handle);
    first, second := [f1.refCount], [f2.refCount];
    h.CopyAssign(g2.handle);
    first, second := first + [f1.refCount], second + [f2.refCount];
    firstAlive := !f1.destroyed;
  }

  /**
   * Move assignment releases the frame the handle held and takes the other handle's,
   * leaving that one null; each frame is then destroyed when, and only when, its last
   * handle is released.
   */
  method MoveAssignment() returns (counts: (int, int), sourceNull: bool, ghost secondGone: (bool, bool), ghost firstGone: (bool, bool))
    ensures counts == (1, 1) && sourceNull
    ensures secondGone == (false, true) && firstGone == (true, true)
  {
    var g1 := Invoke(UptoBody(1), 0, 0, MoveLeavesValue());
    var g2 := Invoke(UptoBody(2), 0, 0, MoveLeavesValue());
    var f1, f2 := g1.handle.coro, g2.handle.coro;
    var h := new IntrusiveHandle.Copy(g2.handle);
    h.MoveAssign(g1.handle);
    counts, sourceNull := (f1.refCount, f2.refCount), g1.handle.coro == null;
    g2.handle.Release();
    secondGone := (f1.destroyed, f2.destroyed);
    h.Release();
    firstGone := (f1.destroyed, f2.destroyed);
  }



  /** Iterating `upto(n)` from `begin()` until the iterator equals the sentinel reads
    * 0, 1, ..., n - 1. */
  method DrainUpto(n: int) returns (values: seq<int>)
    ensures values == Range(Max0(n))
  {
    var g := Invoke(UptoBody(n), 0, 0, MoveLeavesValue());
    var f := g.handle.coro;
    var it := g.Begin();
    UptoResumed(n, 0, 0);
    values := [];
    while it.NotEqualsSentinel(g.End())
      invariant it.coro == f && f.Valid() && !f.destroyed && f.step == UptoBody(n)
      invariant |values| <= Max0(n) && f.Snap() == UptoAfter(n, 0, |values| + 1)
      invariant values == Range(|values|)
      modifies f
      decreases Max0(n) - |values|
    {
      values := values + [it.Deref()];
      UptoResumed(n, 0, |values|);
      it := it.Increment();
    }
  }
}
