/**
 * The `generator` of the RangesCoroutines project: the frame is shared through the
 * reference-counted `shared_coroutine_handle`; its iterator points at the generator
 * and is null at the end, and its post-increment returns a proxy that carries the
 * element moved out of the frame before the frame is resumed.
 */
module SharedGenerator {
  import opened Coroutine
  import opened Producers

  /** `shared_coroutine_handle`: a handle that owns one reference to its frame, if any. */
  class SharedHandle<E> {
    var coro: Frame?<E>

    ghost predicate Valid()
      reads this, coro
    {
      coro != null ==> coro.Valid() && coro.Counted() && this in coro.owners
    }

    /** Ghost bookkeeping: a handle is listed as an owner of no frame but its own. */
    ghost predicate OwnsNoOther(f: Frame?<E>)
      reads this, f
    {
      f != null && f != coro ==> this !in f.owners
    }

    /** The default constructor: a null handle. */
    constructor Null()
      ensures coro == null && Valid()
    {
      coro := null;
    }

    /** The constructor from a coroutine handle: `add_ref` unless it is null. */
    constructor FromFrame(f: Frame?<E>)
      requires f != null ==> f.Valid() && f.Counted() && !f.destroyed
      modifies f
      ensures coro == f && Valid()
      ensures f != null ==> Acquired(f, this)
    {
      coro := null;
      new;
      Bind(f);
    }

    /** The copy constructor: one more reference to the same frame. */
    constructor Copy(other: SharedHandle<E>)
      requires other.Valid()
      modifies other.coro
      ensures coro == other.coro && Valid() && other.Valid()
      ensures other.coro != null ==> Acquired(other.coro, this)
    {
      coro := null;
      new;
      Bind(other.coro);
    }

    /** The move constructor: start null and swap with `other`; the count is untouched. */
    constructor Move(other: SharedHandle<E>)
      requires other.Valid()
      modifies other, other.coro
      ensures coro == old(other.coro) && other.coro == null && Valid() && other.Valid()
      ensures old(other.coro) != null ==> Transferred(old(other.coro), other, this)
    {
      coro := null;
      new;
      TakeFrom(other);
    }

    /** What the constructor from a coroutine handle does to a handle that holds nothing. */
    method Bind(f: Frame?<E>)
      requires coro == null
      requires f != null ==> f.Valid() && f.Counted() && !f.destroyed && this !in f.owners
      modifies this, f
      ensures coro == f && Valid()
      ensures f != null ==> Acquired(f, this)
    {
      coro := f;
      if coro != null {
        coro.AddRef(this);
      }
    }

    /** What the move constructor does to a handle that holds nothing: `std::swap` with `other`. */
    method TakeFrom(other: SharedHandle<E>)
      requires coro == null && other.Valid()
      requires other != this ==> OwnsNoOther(other.coro)
      modifies this, other, other.coro
      ensures other != this ==> coro == old(other.coro) && other.coro == null
      ensures other == this ==> coro == null
      ensures Valid() && other.Valid()
      ensures other != this && old(other.coro) != null ==> Transferred(old(other.coro), other, this)
    {
      var c := other.coro;
      other.coro := coro;
      coro := c;
      if coro != null && other != this {
        coro.Transfer(other, this);
      }
    }

    /**
     * The destructor: `del_ref` unless null, and `destroy` when the count reaches 0. The
     * handle's lifetime ends here; the model leaves it null.
     */
    method Release()
      requires Valid()
      modifies this, coro
      ensures coro == null
      ensures old(coro) != null ==> Released(old(coro), this)
    {
      if coro != null {
        var count := coro.DelRef(this);
        if count == 0 {
          coro.Destroy();
        }
      }
      coro := null;
    }

    /** Copy assignment: the destructor, then the copy constructor in place. */
    method CopyAssign(other: SharedHandle<E>)
      requires this != other && Valid() && other.Valid() && OwnsNoOther(other.coro)
      modifies this, coro, other.coro
      ensures coro == other.coro == old(other.coro) && Valid() && other.Valid()
      ensures old(coro) != null && old(coro) != coro ==> Released(old(coro), this)
      ensures coro != null && coro != old(coro) ==> Acquired(old(other.coro), this)
      ensures coro != null && coro == old(coro) ==>
        coro.Life() == old(coro.Life()) && coro.Snap() == old(coro.Snap())
    {
      Release();
      Bind(other.coro);
    }

    /** Move assignment: the destructor, then the move constructor in place. Moving a
      * handle into itself leaves it null. */
    method MoveAssign(other: SharedHandle<E>)
      requires Valid() && other.Valid() && OwnsNoOther(other.coro)
      modifies this, coro, other, other.coro
      ensures Valid() && other.Valid()
      ensures other == this ==> coro == null && (old(coro) != null ==> Released(old(coro), this))
      ensures other != this ==> coro == old(other.coro) && other.coro == null
      ensures other != this && old(coro) != null && old(coro) != coro ==> Released(old(coro), this)
      ensures other != this && coro != null && coro != old(coro) ==> Transferred(old(other.coro), other, this)
      ensures other != this && coro != null && coro == old(coro) ==> Released(old(coro), other)
    {
      Release();
      TakeFrom(other);
    }
  }

  /** `generator<ElementType>`, holding its frame through a `shared_coroutine_handle`. */
  class Generator<E> {
    var handle: SharedHandle<E>

    ghost predicate Valid()
      reads this, handle, handle.coro
    {
      handle.Valid()
    }

    /** The default constructor: no frame. */
    constructor Default()
      ensures fresh(handle) && handle.coro == null && Valid()
    {
      handle := new SharedHandle.Null();
    }

    /** `get_return_object`: the generator's handle takes the first reference to the frame. */
    constructor FromPromise(f: Frame<E>)
      requires f.Valid() && f.Counted() && !f.destroyed
      modifies f
      ensures fresh(handle) && handle.coro == f && Valid()
      ensures Acquired(f, handle)
    {
      handle := new SharedHandle.FromFrame(f);
    }

    /** The generator can be iterated: it has a frame, alive and not yet finished. */
    ghost predicate Iterable()
      reads this, handle, handle.coro
    {
      Valid() && handle.coro != null && !handle.coro.destroyed && !handle.coro.Done()
    }

    /** `begin()`: resume once; the end iterator if the body finished, else one bound to
      * this generator. */
    method Begin() returns (it: Iterator<E>)
      requires Iterable()
      modifies handle.coro
      ensures Valid() && handle.coro.Valid()
      ensures handle.coro.Snap() == Resumed(handle.coro.step, old(handle.coro.Snap()))
      ensures handle.coro.Life() == old(handle.coro.Life())
      ensures it == if handle.coro.Done() then End() else Iterator(this)
    {
      handle.coro.Resume();
      it := if handle.coro.Done() then End() else Iterator(this);
    }

    /** `end()`: the null iterator. */
    function End(): (r: Iterator<E>)
      ensures r.Equals(Iterator(null)) && r.NotEquals(Iterator(this))
    {
      Iterator(null)
    }
  }

  /** The value returned by `it++`: it owns the element that `it` referred to. */
  datatype Proxy<E> = Proxy(element: E) {
    /** `*proxy` */
    function Deref(): E
    {
      element
    }
  }

  /** `generator::iterator`: a pointer to the generator, null at the end. */
  datatype Iterator<E> = Iterator(gen: Generator?<E>) {
    /** Two iterators are equal when they point at the same generator. */
    predicate Equals(other: Iterator<E>)
    {
      gen == other.gen
    }

    predicate NotEquals(other: Iterator<E>)
    {
      !Equals(other)
    }

    /** `++it`: resume the generator's frame, and become the end iterator if it finished. */
    method Increment() returns (next: Iterator<E>)
      requires gen != null && gen.Iterable()
      modifies gen.handle.coro
      ensures gen.Valid() && gen.handle.coro.Valid()
      ensures gen.handle.coro.Snap() == Resumed(gen.handle.coro.step, old(gen.handle.coro.Snap()))
      ensures gen.handle.coro.Life() == old(gen.handle.coro.Life())
      ensures next == if gen.handle.coro.Done() then Iterator(null) else this
    {
      gen.handle.coro.Resume();
      next := if gen.handle.coro.Done() then Iterator(null) else this;
    }

    /**
     * `it++`: move the current element into a proxy, then `++it`; the frame's slot is
     * left moved-from until the resume overwrites it.
     */
    method PostIncrement() returns (proxy: Proxy<E>, next: Iterator<E>)
      requires gen != null && gen.Iterable()
      modifies gen.handle.coro
      ensures proxy.element == old(gen.handle.coro.currentElement)
      ensures gen.Valid() && gen.handle.coro.Valid()
      ensures var f := gen.handle.coro;
        f.Snap() == Resumed(f.step, old(f.Snap()).(current := f.residue(old(f.currentElement))))
      ensures gen.handle.coro.Life() == old(gen.handle.coro.Life())
      ensures next == if gen.handle.coro.Done() then Iterator(null) else this
    {
      var element := gen.handle.coro.MoveOutCurrent();
      proxy := Proxy(element);
      next := Increment();
    }

    /** `*it`: the promise's current element. */
    function Deref(): (r: E)
      requires gen != null && gen.Iterable()
      reads gen, gen.handle, gen.handle.coro
      ensures r == gen.handle.coro.Snap().current
    {
      gen.handle.coro.currentElement
    }

    /** `std::move(*it)`: move-construct a value from the element `*it` refers to. */
    method MoveFromDeref() returns (element: E)
      requires gen != null && gen.Iterable()
      modifies gen.handle.coro
      ensures element == old(Deref())
      ensures var f := gen.handle.coro; f.currentElement == f.residue(element) && f.Valid()
      ensures var f := gen.handle.coro;
        f.locals == old(f.locals) && f.phase == old(f.phase) && f.yielded == old(f.yielded) &&
        f.Life() == old(f.Life())
    {
      element := gen.handle.coro.MoveOutCurrent();
    }
  }

  /** Iterators are equal exactly when they point at the same generator, so an iterator
    * bound to a generator never equals `end()`. */
  lemma IteratorEquality<E>(a: Iterator<E>, b: Iterator<E>, g: Generator<E>)
    ensures a.Equals(b) <==> a.gen == b.gen
    ensures a.NotEquals(b) <==> !a.Equals(b)
    ensures Iterator(g).NotEquals(g.End()) && g.End().Equals(Iterator(null))
  {
  }

  /**
   * Calling a producer: its frame is allocated, the promise starts with `ref_count{0}`,
   * `get_return_object` builds the generator, and `initial_suspend` suspends before the
   * body runs.
   */
  method Invoke<E>(step: int -> Step<E>, start: int, blank: E, residue: E -> E) returns (g: Generator<E>)
    ensures fresh(g) && fresh(g.handle) && g.Iterable() && fresh(g.handle.coro)
    ensures g.handle.coro.step == step && g.handle.coro.residue == residue
    ensures g.handle.coro.Snap() == Fresh(start, blank)
    ensures g.handle.coro.Life() == Lifetime(1, {g.handle}, false)
  {
    var f := new Frame(step, start, blank, residue);
    g := new Generator.FromPromise(f);
  }

  /**
   * Copy assignment releases the frame the handle held and then shares the other
   * handle's: a copy of the first generator's handle, copy-assigned from the second
   * generator's, moves one reference from the first frame to the second.
   */
  method CopyAssignment() returns (first: seq<int>, second: seq<int>, ghost firstAlive: bool)
    ensures first == [2, 1] && second == [1, 2] && firstAlive
  {
    var g1 := Invoke(UptoBody(1), 0, 0, MoveLeavesValue());
    var g2 := Invoke(UptoBody(2), 0, 0, MoveLeavesValue());
    var f1, f2 := g1.handle.coro, g2.handle.coro;
    var h := new SharedHandle.Copy(g1.handle);
    first, second := [f1.refCount], [f2.refCount];
    h.CopyAssign(g2.handle);
    first, second := first + [f1.refCount], second + [f2.refCount];
    firstAlive := !f1.destroyed;
  }

  /**
   * Move assignment releases the frame the handle held and takes the other handle's,
   * leaving that one null; each frame is then destroyed when, and only when, its last
   * handle is released.
   */
  method MoveAssignment() returns (counts: (int, int), sourceNull: bool, ghost secondGone: (bool, bool), ghost firstGone: (bool, bool))
    ensures counts == (1, 1) && sourceNull
    ensures secondGone == (false, true) && firstGone == (true, true)
  {
    var g1 := Invoke(UptoBody(1), 0, 0, MoveLeavesValue());
    var g2 := Invoke(UptoBody(2), 0, 0, MoveLeavesValue());
    var f1, f2 := g1.handle.coro, g2.handle.coro;
    var h := new SharedHandle.Copy(g2.handle);
    h.MoveAssign(g1.handle);
    counts, sourceNull := (f1.refCount, f2.refCount), g1.handle.coro == null;
    g2.handle.Release();
    secondGone := (f1.destroyed, f2.destroyed);
    h.Release();
    firstGone := (f1.destroyed, f2.destroyed);
  }


}
