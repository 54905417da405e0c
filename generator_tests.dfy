/**
 * The producers `upto`, `move_only` and `infinite` as generators of the RangesCoroutines
 * project, and the test cases that drive their iterators, each stated as the values the
 * test checks.
 */
module GeneratorTests {
  import opened Coroutine
  import opened Producers
  import opened SharedGenerator

  /** `upto(n)`; the slot of an `int` element starts out as 0. */
  method Upto(n: int) returns (g: Generator<int>)
    ensures fresh(g) && fresh(g.handle) && g.Iterable() && fresh(g.handle.coro)
    ensures g.handle.coro.step == UptoBody(n) && g.handle.coro.residue == MoveLeavesValue()
    ensures g.handle.coro.Snap() == UptoAfter(n, 0, 0)
    ensures g.handle.coro.Life() == Lifetime(1, {g.handle}, false)
  {
    g := Invoke(UptoBody(n), 0, 0, MoveLeavesValue());
  }

  /** `move_only()`; the slot of a `unique_ptr` starts out null. */
  method MoveOnly() returns (g: Generator<Option<int>>)
    ensures fresh(g) && fresh(g.handle) && g.Iterable() && fresh(g.handle.coro)
    ensures g.handle.coro.step == MoveOnlyBody() && g.handle.coro.residue == MoveLeavesNull()
    ensures g.handle.coro.Snap() == Fresh(0, None)
    ensures g.handle.coro.Life() == Lifetime(1, {g.handle}, false)
  {
    g := Invoke(MoveOnlyBody(), 0, None, MoveLeavesNull());
  }

  /** `infinite()` */
  method Infinite() returns (g: Generator<int>)
    ensures fresh(g) && fresh(g.handle) && g.Iterable() && fresh(g.handle.coro)
    ensures g.handle.coro.step == InfiniteBody() && g.handle.coro.residue == MoveLeavesValue()
    ensures g.handle.coro.Snap() == InfiniteAfter(0, 0)
    ensures g.handle.coro.Life() == Lifetime(1, {g.handle}, false)
  {
    g := Invoke(InfiniteBody(), 0, 0, MoveLeavesValue());
  }

  /** "empty sequence": `begin()` of `upto(0)` is `end()`. */
  method EmptySequence() returns (beginIsEnd: bool)
    ensures beginIsEnd
  {
    var g := Upto(0);
    var b := g.Begin();
    beginIsEnd := b.Equals(g.End());
  }

  /**
   * "one element": `*b` reads 0 as often as it is asked, one `++b` reaches `end()`, and
   * `v`, a reference to the frame's slot taken before the advance, still reads 0.
   */
  method OneElement() returns (live: bool, first: int, again: int, v: int, atEnd: bool, vAfter: int)
    ensures live && first == 0 && again == 0 && v == 0
    ensures atEnd && vAfter == 0
  {
    var g := Upto(1);
    var f := g.handle.coro;
    var b := g.Begin();
    live := b.NotEquals(g.End());
    first := b.Deref();
    again := b.Deref();
    v := f.currentElement;
    b := b.Increment();
    atEnd := b.Equals(g.End());
    vAfter := f.currentElement;
  }

  /**
   * "three elements": the first element is 0, a copy taken before `++i` keeps its value,
   * `*i++` gives 1, and one more `i++` reaches `end()`.
   */
  method ThreeElements() returns (v: int, liveAfterOne: bool, vAfter: int, v2: int, atEnd: bool)
    ensures v == 0 && liveAfterOne && vAfter == 0 && v2 == 1 && atEnd
  {
    var g := Upto(3);
    var i := g.Begin();
    v := i.Deref();
    i := i.Increment();
    liveAfterOne := i.NotEquals(g.End());
    vAfter := v;
    var proxy;
    proxy, i := i.PostIncrement();
    v2 := proxy.Deref();
    proxy, i := i.PostIncrement();
    atEnd := i.Equals(g.End());
  }

  /**
   * "move-only type": `std::move(*i++)` takes the 7 out intact, the next element is a
   * non-null pointer to 42, and after it is moved out too the slot is null and `i++`
   * reaches `end()`.
   */
  method MoveOnlyType() returns (first: int, v: Option<int>, nonNull: bool, second: int, v2: Option<int>, slot: Option<int>, atEnd: bool)
    ensures first == 7 && v == Some(7)
    ensures nonNull && second == 42 && v2 == Some(42) && slot == None
    ensures atEnd
  {
    var g := MoveOnly();
    var f := g.handle.coro;
    var i := g.Begin();
    first := i.Deref().value;
    var proxy;
    proxy, i := i.PostIncrement();
    v := proxy.Deref();
    nonNull := i.Deref().Some?;
    second := i.Deref().value;
    v2 := i.MoveFromDeref();
    slot := f.currentElement;
    proxy, i := i.PostIncrement();
    atEnd := i.Equals(g.End());
  }

  /** "infinite generator", first subcase: `*i` is 0 and, after `++i`, `*i++` is 1. */
  method InfiniteFirstElements() returns (first: int, second: int)
    ensures first == 0 && second == 1
  {
    var g := Infinite();
    var i := g.Begin();
    first := i.Deref();
    i := i.Increment();
    var proxy;
    proxy, i := i.PostIncrement();
    second := proxy.Deref();
  }

  /**
   * The first `k` elements of `infinite()`, read by a consumer that dereferences and then
   * advances `k` times; the "take 5" subcase is `k == 5`.
   */
  method InfiniteTake(k: nat) returns (values: seq<int>)
    ensures values == Range(k)
  {
    var g := Infinite();
    var f := g.handle.coro;
    var i := g.Begin();
    InfiniteResumed(0, 0);
    values := [];
    while |values| < k
      invariant i == Iterator(g) && g.handle.coro == f && g.Iterable() && f.step == InfiniteBody()
      invariant |values| <= k && f.Snap() == InfiniteAfter(0, |values| + 1)
      invariant values == Range(|values|)
      modifies f
    {
      values := values + [i.Deref()];
      InfiniteResumed(0, |values|);
      i := i.Increment();
    }
  }

  /** "take 5" */
  method TakeFive() returns (values: seq<int>)
    ensures values == [0, 1, 2, 3, 4]
  {
    values := InfiniteTake(5);
  }

  /** Iterating `upto(n)` from `begin()` to `end()` reads 0, 1, ..., n - 1. */
  method DrainUpto(n: int) returns (values: seq<int>)
    ensures values == Range(Max0(n))
  {
    var g := Upto(n);
    var f := g.handle.coro;
    var i := g.Begin();
    UptoResumed(n, 0, 0);
    values := [];
    while i.NotEquals(g.End())
      invariant g.handle.coro == f && g.Valid() && f.Valid() && !f.destroyed && f.step == UptoBody(n)
      invariant |values| <= Max0(n) && f.Snap() == UptoAfter(n, 0, |values| + 1)
      invariant i == if f.Done() then g.End() else Iterator(g)
      invariant values == Range(|values|)
      modifies f
      decreases Max0(n) - |values|
    {
      values := values + [i.Deref()];
      UptoResumed(n, 0, |values|);
      i := i.Increment();
    }
  }

  /**
   * Iterating `upto(n)` with `auto x = *i++` until `end()` reads 0, 1, ..., n - 1: the
   * proxy of each post-increment holds the element that `*i` held before the advance.
   */
  method DrainUptoByPostIncrement(n: int) returns (values: seq<int>)
    ensures values == Range(Max0(n))
  {
    var g := Upto(n);
    var f := g.handle.coro;
    var i := g.Begin();
    UptoResumed(n, 0, 0);
    values := [];
    while i.NotEquals(g.End())
      invariant g.handle.coro == f && g.Valid() && f.Valid() && !f.destroyed
      invariant f.step == UptoBody(n) && f.residue == MoveLeavesValue()
      invariant |values| <= Max0(n) && f.Snap() == UptoAfter(n, 0, |values| + 1)
      invariant i == if f.Done() then g.End() else Iterator(g)
      invariant values == Range(|values|)
      modifies f
      decreases Max0(n) - |values|
    {
      var proxy;
      proxy, i := i.PostIncrement();
      values := values + [proxy.Deref()];
      UptoResumed(n, 0, |values|);
    }
  }
}
