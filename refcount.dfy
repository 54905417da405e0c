/**
 * The reference-counting discipline of `intrusive_coroutine_handle` and its twin
 * `shared_coroutine_handle`, as a pure model of everything that can happen to one
 * frame after `get_return_object` has wrapped it in its first handle. Handles are
 * named by numbers; the pool records which of them hold the frame, the count kept in
 * the promise, and how many times the frame has been destroyed.
 *
 * Every sequence of constructions, destructions and assignments keeps the count equal
 * to the number of holders, destroys the frame exactly once when the last holder lets
 * go, and never while one is left, provided that copy assignment of a handle to itself
 * is harmless. The handles as written do not make it harmless: `ApplyAsWritten` and
 * `SelfCopyAssignDestroysTwice` show the frame destroyed twice.
 */
module RefCount {

  type Handle = nat

  datatype Pool = Pool(holders: set<Handle>, count: int, destructions: nat)

  datatype Op =
    | CopyConstruct(h: Handle, src: Handle)
    | MoveConstruct(h: Handle, src: Handle)
    | Destruct(h: Handle)
    | CopyAssign(h: Handle, src: Handle)
    | MoveAssign(h: Handle, src: Handle)

  /** After `get_return_object`: the generator's handle holds the one reference. */
  function Start(h: Handle): Pool
  {
    Pool({h}, 1, 0)
  }

  /** The count is the number of holders, and the frame has been destroyed once if no
    * handle holds it and never otherwise. */
  predicate Inv(p: Pool)
  {
    p.count == |p.holders| && p.destructions == (if p.holders == {} then 1 else 0)
  }

  /** The destructor of handle `h`: `del_ref` if it is not null, and `destroy` if that
    * brought the count to zero. */
  function Release(p: Pool, h: Handle): Pool
  {
    if h in p.holders then
      var c := p.count - 1;
      Pool(p.holders - {h}, c, if c == 0 then p.destructions + 1 else p.destructions)
    else
      p
  }

  /** Constructing the handle `h` from a coroutine handle that is null or not: `add_ref` if not. */
  function Acquire(p: Pool, h: Handle, nonNull: bool): Pool
  {
    if nonNull then Pool(p.holders + {h}, p.count + 1, p.destructions) else p
  }

  /** Move construction: `h` starts null and swaps pointers with `src`; the count is untouched. */
  function Take(p: Pool, h: Handle, src: Handle): Pool
  {
    if src in p.holders then Pool(p.holders - {src} + {h}, p.count, p.destructions) else p
  }

  /** A construction creates a handle object that does not exist yet. */
  predicate Legal(p: Pool, op: Op)
  {
    match op
    case CopyConstruct(h, src) => h !in p.holders && h != src
    case MoveConstruct(h, src) => h !in p.holders && h != src
    case _ => true
  }

  /**
   * The handle operations as the source writes them. Assignment runs the destructor on
   * `this` and then the copy or move constructor in place, reading `other`'s pointer
   * after that destructor has run: a handle copy-assigned to itself still holds its old
   * pointer, so it re-acquires the frame it has just released.
   */
  function ApplyAsWritten(p: Pool, op: Op): (r: Pool)
    requires Legal(p, op)
    ensures op.CopyAssign? && op.h == op.src && op.h in p.holders ==>
      r.holders == p.holders && r.count == p.count &&
      r.destructions == (if p.count == 1 then p.destructions + 1 else p.destructions)
  {
    match op
    case CopyConstruct(h, src) => Acquire(p, h, src in p.holders)
    case MoveConstruct(h, src) => Take(p, h, src)
    case Destruct(h) => Release(p, h)
    case CopyAssign(h, src) => Acquire(Release(p, h), h, src in p.holders)
    case MoveAssign(h, src) => Take(Release(p, h), h, src)
  }

  /** The handle operations with copy assignment of a handle to itself doing nothing. */
  function Apply(p: Pool, op: Op): Pool
    requires Legal(p, op)
  {
    match op
    case CopyAssign(h, src) =>
      if h == src then p else Acquire(Release(p, h), h, src in p.holders)
    case _ => ApplyAsWritten(p, op)
  }

  predicate LegalRun(p: Pool, ops: seq<Op>)
    decreases |ops|
  {
    ops == [] || (Legal(p, ops[0]) && LegalRun(Apply(p, ops[0]), ops[1..]))
  }

  function Run(p: Pool, ops: seq<Op>): Pool
    requires LegalRun(p, ops)
    decreases |ops|
  {
    if ops == [] then p else Run(Apply(p, ops[0]), ops[1..])
  }

  /** The two definitions differ only on copy assignment of a handle to itself. */
  lemma AsWrittenAgreesOffSelfCopy(p: Pool, op: Op)
    requires Legal(p, op) && !(op.CopyAssign? && op.h == op.src)
    ensures ApplyAsWritten(p, op) == Apply(p, op)
  {
  }

  /** Every operation keeps the invariant. */
  lemma ApplyKeepsInv(p: Pool, op: Op)
    requires Inv(p) && Legal(p, op)
    ensures Inv(Apply(p, op))
  {
    match op
    case CopyConstruct(h, src) =>
    case MoveConstruct(h, src) =>
      if src in p.holders {
        assert p.holders - {src} + {h} != {};
      }
    case Destruct(h) =>
    case CopyAssign(h, src) =>
      if h != src {
        var q := Release(p, h);
        assert src in p.holders ==> src in q.holders;
      }
    case MoveAssign(h, src) =>
      var q := Release(p, h);
      if h != src && src in q.holders {
        assert q.holders - {src} + {h} != {};
      }
  }

  /** Any sequence of operations keeps the invariant. */
  lemma {:induction false} RunKeepsInv(p: Pool, ops: seq<Op>)
    requires Inv(p) && LegalRun(p, ops)
    ensures Inv(Run(p, ops))
    decreases |ops|
  {
    if ops != [] {
      ApplyKeepsInv(p, ops[0]);
      RunKeepsInv(Apply(p, ops[0]), ops[1..]);
    }
  }

  /**
   * Whatever the program does with the handles after `get_return_object`, the count
   * is the number of handles holding the frame, the frame is destroyed at most once,
   * and it is destroyed exactly when no handle holds it any more.
   */
  lemma DestroyedExactlyOnce(h: Handle, ops: seq<Op>)
    requires LegalRun(Start(h), ops)
    ensures var q := Run(Start(h), ops);
      q.count == |q.holders| && q.destructions <= 1 && (q.destructions == 1 <==> q.holders == {})
  {
    RunKeepsInv(Start(h), ops);
  }

  /**
   * Copy-assigning the last handle to itself, as written, destroys the frame and then
   * adds a reference to the destroyed frame; destroying the handle later destroys the
   * frame a second time.
   */
  lemma SelfCopyAssignDestroysTwice(h: Handle)
    ensures var p := ApplyAsWritten(Start(h), CopyAssign(h, h));
      p.destructions == 1 && p.holders == {h} && !Inv(p) &&
      ApplyAsWritten(p, Destruct(h)).destructions == 2
  {
  }
}
