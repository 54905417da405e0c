# ranges-coroutines generators in Dafny

This project models three C++ coroutine generators, each with its iterators:

- `toby::generator` (`src/generator/include/generator.h`) shares its coroutine frame through `intrusive_coroutine_handle`. That handle is a reference-counted wrapper whose count lives in the promise object. Its iterator is a raw coroutine handle compared against an empty `generator_sentinel`.
- The `generator` of the RangesCoroutines project (`RangesCoroutines/RangesCoroutines/generator.h`) shares its frame through the twin `shared_coroutine_handle`. Its iterator points at the generator and becomes null at the end. Its post-increment returns a proxy that owns the element moved out of the frame. The producers and test cases of `RangesCoroutines/RangesCoroutines/generator.cpp` drive this generator.
- `gor::generator` (`src/generator/bench/gor_generator.h`) is the single-owner, move-only baseline of the benchmarks. Its iterator carries the handle together with a cached `done()` flag.

Modules:

- `Coroutine` models the frame the compiler builds for a producer.
  - The body is a step function from the routine's local state to either "yield a value and continue from a new state" or "return".
  - `Resumed` is one `resume()`. It runs the body to the next `co_yield`, whose `yield_value` stores the element, or to `final_suspend`.
  - `ResumeN` is `k` resumes.
  - The class `Frame` holds the promise's element slot and reference count, next to the routine's phase: not started, suspended at a `co_yield`, or finished.
  - `Frame` also keeps three ghost records: the handles that own it, whether it has been destroyed, and the history of yielded values.
  - Its methods are `resume`, `yield_value`, `add_ref`, `del_ref`, `destroy` and moving the element out of the slot.
- `RefCount` is a pure model of everything the handles do to one frame's count, over any sequence of constructions, destructions and assignments. It proves that the frame is destroyed exactly once, provided that copy-assigning a handle to itself is harmless. As written, it is not harmless (see Findings).
- `IntrusiveGenerator`, `SharedGenerator` and `GorGenerator` model the three generators.
  - Handles and generators are classes whose methods update the shared frame in place.
  - Iterators and sentinels are datatypes, as in the source they are small values. `++it` returns the updated iterator.
  - A destructor is the method `Release` (for `gor::generator`, `Dispose`), which also leaves the handle null.
- `Producers` holds the producer routines `upto(n)`, `infinite()` and `move_only()` as step functions. Its lemmas prove, for all inputs, what each one yields.
- `GeneratorTests` models the test cases of `generator.cpp` as methods. Each returns the values its test checks, and its `ensures` states the expected values.

Calling a producer is `Invoke`. It allocates the frame and lets `get_return_object` build the generator. It suspends at `initial_suspend` before any of the body runs.

Two behaviours of the code are kept as they are:

- Resuming a finished frame is undefined behaviour in the code. The model makes it a precondition: `Coroutine.Resumed`, `Frame.Resume` and every `++`.
- The iterator-to-iterator and sentinel-to-sentinel comparisons of `toby::generator` always answer "equal", whatever the positions. The model keeps this as written in `IntrusiveGenerator.Comparisons`.

The handle classes and `RefCount` describe the same reference-counting discipline at two levels. The contracts of the class methods `Copy`, `Move`, `Release`, `CopyAssign` and `MoveAssign` are the per-step form of `RefCount.Apply`'s `CopyConstruct`, `MoveConstruct`, `Destruct`, `CopyAssign` and `MoveAssign`. Each frame's `Counted` invariant (count equals the number of owners) corresponds to `RefCount.Inv`. `RefCount.DestroyedExactlyOnce` is the whole-run consequence. No lemma connects the two levels formally: the classes use owner objects, the pool uses numbered handles.

## Model

| member | source | states |
|---|---|---|
| `Coroutine.Resumed` | src/generator/include/generator.h:101-107 | One resume never returns the frame to "not started". The frame is suspended exactly when the body reached a `co_yield`. Then the slot holds the yielded value and the history grows by exactly that value. Otherwise the frame is finished and the slot and history are unchanged. |
| `Coroutine.ResumeN` | src/generator/include/generator.h:140-143 | Repeated resumes only extend the history, by at most one value per resume. A finished frame stays as it is. A frame resumed at least once is no longer "not started". |
| `Coroutine.ResumeNSnoc` | src/generator/include/generator.h:140-143 | One more resume after `k` resumes that left the frame suspended is the same as `k + 1` resumes. |
| `Coroutine.Frame.constructor` | src/generator/include/generator.h:89-101 | A new frame has count 0, no owners, is not destroyed, and has run none of its body (`initial_suspend`). |
| `Coroutine.Frame.Resume` | src/generator/include/generator.h:102-107 | The frame's new state is `Resumed` of its old state. Its count, owners and liveness do not change. |
| `Coroutine.Frame.YieldValue` | src/generator/include/generator.h:102-105 | The element moves into the slot and the body suspends. The value joins the history. |
| `Coroutine.Frame.AddRef` | src/generator/include/generator.h:94 | The count goes up by one, together with one new owner. The count still equals the number of owners. |
| `Coroutine.Frame.DelRef` | src/generator/include/generator.h:95 | The count goes down by one, the owner leaves, and the new count is returned. |
| `Coroutine.Frame.Done` | src/generator/include/generator.h:133 | `done()` holds exactly when the frame's snapshot is finished, that is, suspended at `final_suspend`. |
| `Coroutine.Frame.Destroy` | src/generator/include/generator.h:52 | The live frame becomes destroyed and no handle owns it any more. |
| `Coroutine.Frame.MoveOutCurrent` | RangesCoroutines/RangesCoroutines/generator.h:113 | Returns the slot's element and leaves the slot in its moved-from state. Nothing else changes. |
| `RefCount.ApplyKeepsInv` | src/generator/include/generator.h:27-53 | Each constructor, destructor or assignment of a handle keeps the count equal to the number of holders. The frame stays destroyed once if nobody holds it, and never otherwise. Self copy-assignment is taken as harmless here. |
| `RefCount.RunKeepsInv` | src/generator/include/generator.h:27-53 | The same holds for any sequence of those operations. |
| `RefCount.DestroyedExactlyOnce` | src/generator/include/generator.h:50-53 | From `get_return_object` on, whatever the program does with the handles, the frame is destroyed at most once. It is destroyed exactly when no handle holds it any more. |
| `RefCount.AsWrittenAgreesOffSelfCopy` | src/generator/include/generator.h:39-48 | The handles as written and the corrected model differ only on copy-assigning a handle to itself. |
| `RefCount.ApplyAsWritten` | src/generator/include/generator.h:39-53 | The handle operations as written. Copy-assigning a held handle to itself leaves the holders and the count as they were, but destroys the frame when the count was 1. |
| `RefCount.SelfCopyAssignDestroysTwice` | src/generator/include/generator.h:39-43 | As written, copy-assigning the last handle to itself destroys the frame and then counts a reference to the destroyed frame. Destroying that handle later destroys the frame a second time. |
| `Producers.UptoResumed` | RangesCoroutines/RangesCoroutines/generator.cpp:7-9 | Each resume of `upto(n)` yields `j` while `j < n` and finishes at `j == n`. |
| `Producers.UptoResumeN` | RangesCoroutines/RangesCoroutines/generator.cpp:7-9 | `k` resumes of `upto(n)` lead to the closed-form state after `min(j + k, n + 1)` resumes. |
| `Producers.UptoYieldsRange` | RangesCoroutines/RangesCoroutines/generator.cpp:7-9 | `upto(n)` yields exactly 0, 1, ..., n - 1, in order. After `k <= n` resumes it is suspended with `k - 1` in the slot. It is finished exactly after more than `n` resumes. |
| `Producers.InfiniteResumed` | RangesCoroutines/RangesCoroutines/generator.cpp:83-87 | Each resume of `infinite()` yields the next integer and never finishes. |
| `Producers.InfiniteFrom` | RangesCoroutines/RangesCoroutines/generator.cpp:83-87 | `k` resumes from any point of `infinite()` advance it by exactly `k` values. |
| `Producers.InfiniteYieldsRange` | RangesCoroutines/RangesCoroutines/generator.cpp:83-87 | After `k` resumes, `infinite()` has yielded 0, 1, ..., k - 1, is suspended and holds `k - 1`. |
| `Producers.MoveOnlyYields` | RangesCoroutines/RangesCoroutines/generator.cpp:11-14 | `move_only()` yields a pointer to 7, then one to 42, and finishes on the third resume. |
| `IntrusiveGenerator.IntrusiveHandle.Null` | src/generator/include/generator.h:27 | The default handle is null. |
| `IntrusiveGenerator.IntrusiveHandle.FromFrame` | src/generator/include/generator.h:28-30 | Wrapping a frame adds one reference, unless the frame is null. |
| `IntrusiveGenerator.IntrusiveHandle.Copy` | src/generator/include/generator.h:32-33 | A copy shares the frame and adds one reference. |
| `IntrusiveGenerator.IntrusiveHandle.Move` | src/generator/include/generator.h:34-37 | A move takes the frame and leaves the source null. The count does not change. |
| `IntrusiveGenerator.IntrusiveHandle.Release` | src/generator/include/generator.h:50-53 | The destructor drops one reference and destroys the frame exactly when that was the last one. |
| `IntrusiveGenerator.IntrusiveHandle.CopyAssign` | src/generator/include/generator.h:39-43 | Copy assignment from another handle releases the old frame and then shares `other`'s frame. Assigning a handle of the same frame leaves count and frame as they were. |
| `IntrusiveGenerator.IntrusiveHandle.MoveAssign` | src/generator/include/generator.h:44-48 | Move assignment releases the old frame and takes `other`'s, leaving `other` null. Moving a handle into itself releases its frame and leaves it null. |
| `IntrusiveGenerator.Iterator.Increment` | src/generator/include/generator.h:140-143 | `++it` resumes the frame once and returns the same iterator. |
| `IntrusiveGenerator.Iterator.PostIncrement` | src/generator/include/generator.h:145 | `it++` is the same resume. |
| `IntrusiveGenerator.Iterator.EqualsSentinel` | src/generator/include/generator.h:133-134 | `it == end()` requires a live frame and holds exactly when the frame's snapshot is finished. |
| `IntrusiveGenerator.Sentinel.EqualsIterator` | src/generator/include/generator.h:152-161 | `end() == it` requires a live frame and holds exactly when that frame is `done()`, the same answer as `it == end()`. |
| `IntrusiveGenerator.Iterator.Deref` | src/generator/include/generator.h:147 | `*it` requires a live, unfinished frame and returns the element of its current snapshot, the value the last resume yielded unless it was moved out. |
| `IntrusiveGenerator.Generator.End` | src/generator/include/generator.h:83 | `end()` is an empty `generator_sentinel`. Comparing against it is `done()` (see `IntrusiveGenerator.Comparisons`). |
| `IntrusiveGenerator.Comparisons` | src/generator/include/generator.h:133-161 | Iterator-against-sentinel comparisons are `done()` in either order, and `!=` negates `==`. Any two iterators, or any two sentinels, compare equal. |
| `IntrusiveGenerator.Generator.Default` | src/generator/include/generator.h:76 | A default generator holds no frame. |
| `IntrusiveGenerator.Generator.FromPromise` | src/generator/include/generator.h:77 | The generator's handle takes a reference to the frame. |
| `IntrusiveGenerator.Generator.Begin` | src/generator/include/generator.h:79-82 | `begin()` resumes the frame once and returns an iterator on that frame. |
| `IntrusiveGenerator.Invoke` | src/generator/include/generator.h:97-101 | Calling a producer gives a generator that holds the only reference to a fresh frame that has run none of its body. |
| `IntrusiveGenerator.BeginTwice` | src/generator/include/generator.h:79-82 | A new generator has count 1 and is lazy. A second `begin()` continues where the first one stopped (0, then 1). |
| `IntrusiveGenerator.Lifecycle` | src/generator/include/generator.h:27-53 | Copy, move and destruction of handles give counts 1, 2, 2, 1, 0. The frame is destroyed only at the last step. |
| `IntrusiveGenerator.CopyAssignment` | src/generator/include/generator.h:39-43 | Copy-assigning a copy of one generator's handle from another generator's handle moves one reference from the first frame to the second: counts (2, 1) become (1, 2). The first frame stays alive. |
| `IntrusiveGenerator.MoveAssignment` | src/generator/include/generator.h:44-53 | Move-assigning a handle of the second frame from the first generator's handle leaves counts (1, 1) and the source null. Releasing the second frame's last handle destroys it alone. Releasing the assigned handle then destroys the first frame. |
| `IntrusiveGenerator.DrainUpto` | src/generator/include/generator.h:133-147 | Iterating `upto(n)` from `begin()` until the iterator equals the sentinel reads 0, 1, ..., n - 1. |
| `SharedGenerator.SharedHandle.Null` | RangesCoroutines/RangesCoroutines/generator.h:13 | The default handle is null. |
| `SharedGenerator.SharedHandle.FromFrame` | RangesCoroutines/RangesCoroutines/generator.h:14-19 | Wrapping a frame adds one reference, unless the frame is null. |
| `SharedGenerator.SharedHandle.Copy` | RangesCoroutines/RangesCoroutines/generator.h:21-22 | A copy shares the frame and adds one reference. |
| `SharedGenerator.SharedHandle.Move` | RangesCoroutines/RangesCoroutines/generator.h:23-25 | A move takes the frame and leaves the source null. The count does not change. |
| `SharedGenerator.SharedHandle.Release` | RangesCoroutines/RangesCoroutines/generator.h:38-42 | The destructor drops one reference and destroys the frame exactly when that was the last one. |
| `SharedGenerator.SharedHandle.CopyAssign` | RangesCoroutines/RangesCoroutines/generator.h:27-31 | Copy assignment from another handle releases the old frame and then shares `other`'s frame. |
| `SharedGenerator.SharedHandle.MoveAssign` | RangesCoroutines/RangesCoroutines/generator.h:32-36 | Move assignment releases the old frame and takes `other`'s, leaving `other` null. |
| `SharedGenerator.Generator.Default` | RangesCoroutines/RangesCoroutines/generator.h:73 | A default generator holds no frame. |
| `SharedGenerator.Generator.FromPromise` | RangesCoroutines/RangesCoroutines/generator.h:61-64 | `get_return_object`: the generator's handle takes a reference to the frame. |
| `SharedGenerator.Generator.Begin` | RangesCoroutines/RangesCoroutines/generator.h:76-79 | `begin()` resumes once. It returns `end()` if the body finished, and otherwise an iterator bound to this generator. |
| `SharedGenerator.Generator.End` | RangesCoroutines/RangesCoroutines/generator.h:80 | `end()` equals the null iterator and never equals an iterator bound to this generator. |
| `SharedGenerator.Iterator.Deref` | RangesCoroutines/RangesCoroutines/generator.h:117-119 | `*it` requires an iterator bound to a generator whose live frame is unfinished. It returns the element of the frame's current snapshot. |
| `SharedGenerator.Proxy.Deref` | RangesCoroutines/RangesCoroutines/generator.h:110-111 | `*proxy` gives the element the proxy owns, which `PostIncrement` moved out of the frame before the advance. |
| `SharedGenerator.Iterator.Increment` | RangesCoroutines/RangesCoroutines/generator.h:98-104 | `++it` resumes once and becomes the null end iterator exactly when the frame finished. |
| `SharedGenerator.Iterator.PostIncrement` | RangesCoroutines/RangesCoroutines/generator.h:105-116 | `it++` returns a proxy that owns the element `it` referred to. The slot is left moved-from, then `++it` runs. |
| `SharedGenerator.Iterator.MoveFromDeref` | RangesCoroutines/RangesCoroutines/generator.h:117-119 | `std::move(*it)` returns the current element and leaves the slot moved-from. Nothing else changes. |
| `SharedGenerator.IteratorEquality` | RangesCoroutines/RangesCoroutines/generator.h:93-96 | Iterators are equal exactly when they point at the same generator. A bound iterator never equals `end()`. |
| `SharedGenerator.Invoke` | RangesCoroutines/RangesCoroutines/generator.h:61-65 | Calling a producer gives a generator that holds the only reference to a fresh frame that has run none of its body. |
| `SharedGenerator.CopyAssignment` | RangesCoroutines/RangesCoroutines/generator.h:27-31 | Copy-assigning a copy of one generator's handle from another generator's handle moves one reference from the first frame to the second: counts (2, 1) become (1, 2). The first frame stays alive. |
| `SharedGenerator.MoveAssignment` | RangesCoroutines/RangesCoroutines/generator.h:32-42 | Move-assigning a handle of the second frame from the first generator's handle leaves counts (1, 1) and the source null. Releasing the second frame's last handle destroys it alone. Releasing the assigned handle then destroys the first frame. |
| `GeneratorTests.DrainUptoByPostIncrement` | RangesCoroutines/RangesCoroutines/generator.h:105-116 | Reading `upto(n)` only through `auto x = *i++` until `end()` gives 0, 1, ..., n - 1 for every `n`. This is the same sequence as `*i; ++i`, as the comment on `operator++(int)` promises. |
| `GeneratorTests.Upto` | RangesCoroutines/RangesCoroutines/generator.cpp:7-9 | `upto(n)` is a fresh, lazy generator with one reference. |
| `GeneratorTests.MoveOnly` | RangesCoroutines/RangesCoroutines/generator.cpp:11-14 | `move_only()` is a fresh, lazy generator whose slot starts null. |
| `GeneratorTests.Infinite` | RangesCoroutines/RangesCoroutines/generator.cpp:83-87 | `infinite()` is a fresh, lazy generator with one reference. |
| `GeneratorTests.EmptySequence` | RangesCoroutines/RangesCoroutines/generator.cpp:16-19 | `begin()` of `upto(0)` equals `end()`. |
| `GeneratorTests.OneElement` | RangesCoroutines/RangesCoroutines/generator.cpp:21-32 | `*b` reads 0 twice. A reference to the slot still reads 0 after `++b`, and `++b` reaches `end()`. |
| `GeneratorTests.ThreeElements` | RangesCoroutines/RangesCoroutines/generator.cpp:34-49 | The first element is 0, and a copy of it survives `++i`. `*i++` is 1, and one more `i++` reaches `end()`. |
| `GeneratorTests.MoveOnlyType` | RangesCoroutines/RangesCoroutines/generator.cpp:51-63 | Moving out through `*i++` gives 7. The next element is non-null and 42, and moving it out leaves the slot null. `i++` then reaches `end()`. |
| `GeneratorTests.InfiniteFirstElements` | RangesCoroutines/RangesCoroutines/generator.cpp:91-96 | `*i` is 0 and, after `++i`, `*i++` is 1. |
| `GeneratorTests.InfiniteTake` | RangesCoroutines/RangesCoroutines/generator.cpp:97-107 | The first `k` elements read from `infinite()` are 0, 1, ..., k - 1, for every `k`. |
| `GeneratorTests.TakeFive` | RangesCoroutines/RangesCoroutines/generator.cpp:105-106 | Taking 5 elements gives `{0, 1, 2, 3, 4}`. |
| `GeneratorTests.DrainUpto` | RangesCoroutines/RangesCoroutines/generator.cpp:7-9 | Iterating `upto(n)` from `begin()` to `end()` reads 0, 1, ..., n - 1. |
| `GorGenerator.Generator.FromPromise` | src/generator/bench/gor_generator.h:56-57 | The generator becomes the only owner of the frame. |
| `GorGenerator.Generator.Move` | src/generator/bench/gor_generator.h:49 | The move constructor takes the frame, leaves the source null, and keeps the frame's state. |
| `GorGenerator.Generator.Dispose` | src/generator/bench/gor_generator.h:51-53 | The destructor destroys the frame if there is one. |
| `GorGenerator.Generator.Begin` | src/generator/bench/gor_generator.h:42-45 | `begin()` resumes once and records `done()` in the iterator. |
| `GorGenerator.Generator.End` | src/generator/bench/gor_generator.h:47 | `end()` carries the generator's handle and equals every done iterator, and no live one. |
| `GorGenerator.Iterator.Deref` | src/generator/bench/gor_generator.h:37 | `*it` requires a live, unfinished frame and returns the `current_value` of its current snapshot. |
| `GorGenerator.Iterator.Increment` | src/generator/bench/gor_generator.h:27-31 | `++it` resumes once and refreshes the cached `done()` flag. |
| `GorGenerator.IteratorEquality` | src/generator/bench/gor_generator.h:33-35 | Iterators compare only their `done()` flags, so any two live iterators are equal and none equals `end()`. |
| `GorGenerator.Invoke` | src/generator/bench/gor_generator.h:14-16 | Calling a producer gives the only owner of a fresh frame that has run none of its body. |
| `GorGenerator.MoveThenDispose` | src/generator/bench/gor_generator.h:49-53 | After a move, disposing of the source leaves the frame alive, and disposing of the new owner destroys it. |
| `GorGenerator.DrainUpto` | src/generator/bench/gor_generator.h:27-47 | A range-for over `upto(n)` reads 0, 1, ..., n - 1. |

## Left out

- The compiler's coroutine transformation, `coroutine_handle` and the awaitables are not modelled. A producer's body is a step function over one integer local. `suspend_always` at the initial and final suspension points is the phase change of `Resumed`.
- `unhandled_exception` and exceptions are left out, because no producer here throws. In `toby::generator` and `gor::generator`, `return_void` does nothing. The model's `Return` step is that path to `final_suspend`.
- `SharedGenerator` and `GeneratorTests` assume `co_return;` semantics for a body that falls off its end. The RangesCoroutines `promise_type` declares no `return_void`, so when `upto(n)` and `move_only()` run off their ends the behaviour is undefined under the Coroutines TS. The model sends those frames to `final_suspend` instead. `GeneratorTests.EmptySequence`, `OneElement`, `ThreeElements`, `MoveOnlyType`, `DrainUpto` and `DrainUptoByPostIncrement` rely on that assumption.
- `RefCountType` may be `std::atomic<int>` in `toby::generator`. The model's count is an unbounded integer and concurrency is not modelled.
- `infinite()` counts with an `int`, which overflows after `INT_MAX`. The model's counter is unbounded.
- The element slot of an `int` producer is default-initialised (indeterminate) before the first `co_yield`. The model starts it at 0.
- `operator*` and `operator->` of both handle classes return the wrapped coroutine handle. The model reads the handle's `coro` field directly.
- `operator->` of the `gor::generator` iterator is `&operator*()`. It reads what `Deref` reads.
- The default-constructed `generator_iterator` of `toby::generator` is not modelled; nothing in the core uses it.
- The range-v3 `common_type` specialisations, the `static_assert`/`CONCEPT_ASSERT` concept checks, the benchmark harness and the demo drivers are left out.
- The "move iterator" test case is compiled out in the source and is left out.
- `GeneratorTests.InfiniteTake` models `ranges::view::take(5) | ranges::to_vector` as five dereference-and-advance steps. range-v3's internals are not part of this model.
- `GeneratorTests.ThreeElements` models `auto&& v2 = *i++` by reading the proxy's element. The lifetime of the temporary proxy that the reference extends is not modelled.
- A destroyed handle or generator object no longer exists in C++. In the model, `Release` and `Dispose` leave it null.
- Dangling pointers are excluded by preconditions instead of modelled. These are an iterator that outlives its generator, and a generator that is copied while an iterator points at the original.
- `IntrusiveGenerator.IntrusiveHandle.CopyAssign` requires that a handle is not assigned to itself. See Findings.
- `SharedGenerator.SharedHandle.CopyAssign` has the same requirement, for the same reason.
- `IntrusiveGenerator.IntrusiveHandle.MoveAssign` carries a ghost precondition that a handle is listed as owner of no frame but its own. The same goes for its shared twin. This is bookkeeping of the model's owner sets, not a demand on C++ callers.
- `IntrusiveGenerator.Generator.Begin` requires a frame that is not finished. This is stricter than the code, which resumes a finished frame with undefined behaviour. The same holds for `SharedGenerator.Generator.Begin` and `GorGenerator.Generator.Begin`, and for every `++` on an end iterator.

## Findings

| source | as written | input that shows it | evidently intended | confidence | as-written member | corrected member |
|---|---|---|---|---|---|---|
| src/generator/include/generator.h:39-43 | Copy assignment runs the destructor on `this`, then copy-constructs from `other`, with no check that `other` is `this`. | `h = h;` where `h` is the only handle of its frame. The destructor brings the count to 0 and destroys the frame. The copy constructor then calls `add_ref` on the destroyed frame, and `h`'s destructor later destroys it a second time. | Self-assignment leaves the handle and the count as they were. | high (proved in the model; not executed) | `RefCount.SelfCopyAssignDestroysTwice` | `RefCount.DestroyedExactlyOnce` |
| RangesCoroutines/RangesCoroutines/generator.h:27-31 | The same destroy-then-construct copy assignment in `shared_coroutine_handle`. | `h = h;` where `h` is the only handle of its frame. | Self-assignment leaves the handle and the count as they were. | high (proved in the model; not executed) | `RefCount.SelfCopyAssignDestroysTwice` | `RefCount.DestroyedExactlyOnce` |

The corrected pure model `RefCount.Apply` makes self copy-assignment a no-op. Every other operation agrees with the code as written (`RefCount.AsWrittenAgreesOffSelfCopy`). In the class models, the copy-assignment methods require `this != other`.
