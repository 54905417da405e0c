/**
 * The producer routines of the generator tests, as step functions over their one
 * local (the loop counter, or for `move_only` the position of the next `co_yield`),
 * and what running their frames yields.
 */
module Producers {
  import opened Coroutine

  /** The values 0, 1, ..., n - 1. */
  function Range(n: nat): (r: seq<int>)
    ensures |r| == n
    ensures forall i :: 0 <= i < n ==> r[i] == i
  {
    if n == 0 then [] else Range(n - 1) + [n - 1]
  }

  function Max0(n: int): nat
  {
    if n < 0 then 0 else n
  }

  /** `for (int i = 0; i < n; ++i) co_yield i;` — the local is the value `i` will have
    * when the loop condition is next tested. */
  function UptoBody(n: int): int -> Step<int>
  {
    i => if i < n then Yield(i, i + 1) else Return
  }

  /** `for (int i = 0;; ++i) co_yield i;` */
  function InfiniteBody(): int -> Step<int>
  {
    i => Yield(i, i + 1)
  }

  /** `co_yield make_unique<int>(7); co_yield make_unique<int>(42);` with a
    * `unique_ptr<int>` as an `Option<int>`. */
  function MoveOnlyBody(): int -> Step<Option<int>>
  {
    pc => if pc == 0 then Yield(Some(7), 1) else if pc == 1 then Yield(Some(42), 2) else Return
  }

  /** Moving an `int` leaves it unchanged. */
  function MoveLeavesValue(): int -> int
  {
    x => x
  }

  /** Moving a `unique_ptr` leaves it null. */
  function MoveLeavesNull(): Option<int> -> Option<int>
  {
    x => None
  }

  /** The frame of `upto(n)` after `j` resumes (the element slot starts out as `blank`). */
  function UptoAfter(n: int, blank: int, j: nat): Snapshot<int>
    requires j <= Max0(n) + 1
  {
    if j == 0 then Fresh(0, blank)
    else if j <= n then Snapshot(j, Suspended, j - 1, Range(j))
    else Snapshot(Max0(n), Finished, if n <= 0 then blank else n - 1, Range(Max0(n)))
  }

  /** Each resume of `upto(n)` moves it from one closed form to the next: it yields `j`
    * while `j < n` and finishes at `j == n`. */
  lemma UptoResumed(n: int, blank: int, j: nat)
    requires j <= Max0(n)
    ensures UptoAfter(n, blank, j).phase != Finished
    ensures Resumed(UptoBody(n), UptoAfter(n, blank, j)) == UptoAfter(n, blank, j + 1)
  {
    if 0 < j < n {
      assert Range(j + 1) == Range(j) + [j];
    } else if j == 0 && 0 < n {
      assert Range(1) == [0];
    }
  }

  lemma {:induction false} UptoResumeN(n: int, blank: int, j: nat, k: nat)
    requires j <= Max0(n) + 1
    ensures ResumeN(UptoBody(n), UptoAfter(n, blank, j), k) == UptoAfter(n, blank, if j + k <= Max0(n) + 1 then j + k else Max0(n) + 1)
    decreases k
  {
    if k > 0 && j <= Max0(n) {
      UptoResumed(n, blank, j);
      UptoResumeN(n, blank, j + 1, k - 1);
    }
  }

  /**
   * `upto(n)` yields exactly 0, 1, ..., n - 1 in that order: after `k <= n` resumes it
   * has yielded the first `k` of them and is suspended, and the resume after the last
   * value finishes it.
   */
  lemma UptoYieldsRange(n: int, blank: int, k: nat)
    ensures var s := ResumeN(UptoBody(n), Fresh(0, blank), k);
      s.yielded == Range(if k <= Max0(n) then k else Max0(n)) &&
      (s.phase == Finished <==> k > Max0(n)) &&
      (0 < k <= Max0(n) ==> s.phase == Suspended && s.current == k - 1)
  {
    UptoResumeN(n, blank, 0, k);
  }

  /** The frame of `infinite()` after `j` resumes. */
  function InfiniteAfter(blank: int, j: nat): Snapshot<int>
  {
    if j == 0 then Fresh(0, blank) else Snapshot(j, Suspended, j - 1, Range(j))
  }

  lemma InfiniteResumed(blank: int, j: nat)
    ensures InfiniteAfter(blank, j).phase != Finished
    ensures Resumed(InfiniteBody(), InfiniteAfter(blank, j)) == InfiniteAfter(blank, j + 1)
  {
    assert Range(j + 1) == Range(j) + [j];
  }

  /** `infinite()` never finishes: after `k` resumes it has yielded 0, 1, ..., k - 1. */
  lemma {:induction false} InfiniteYieldsRange(blank: int, k: nat)
    ensures ResumeN(InfiniteBody(), Fresh(0, blank), k) == InfiniteAfter(blank, k)
  {
    InfiniteFrom(blank, 0, k);
  }

  lemma {:induction false} InfiniteFrom(blank: int, j: nat, k: nat)
    ensures ResumeN(InfiniteBody(), InfiniteAfter(blank, j), k) == InfiniteAfter(blank, j + k)
    decreases k
  {
    if k > 0 {
      InfiniteResumed(blank, j);
      InfiniteFrom(blank, j + 1, k - 1);
    }
  }

  /** `move_only()` yields a pointer to 7, then one to 42, and finishes on the third resume. */
  lemma MoveOnlyYields()
    ensures var s := ResumeN(MoveOnlyBody(), Fresh(0, None), 2);
      s.yielded == [Some(7), Some(42)] && s.phase == Suspended && s.current == Some(42)
    ensures var s := ResumeN(MoveOnlyBody(), Fresh(0, None), 3);
      s.yielded == [Some(7), Some(42)] && s.phase == Finished
  {
    var s1 := Resumed(MoveOnlyBody(), Fresh(0, None));
    var s2 := Resumed(MoveOnlyBody(), s1);
    assert s2 == Snapshot(2, Suspended, Some(42), [Some(7), Some(42)]);
    ResumeNSnoc(MoveOnlyBody(), Fresh(0, None), 2);
  }
}
