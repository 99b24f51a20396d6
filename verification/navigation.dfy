/**
  Moving the selection through the menu. Button Y moves one entry down and
  button X one entry up; both wrap around at the ends of the list. The source
  uses Python's `%`, which floors; for the positive divisor used here it
  agrees with Dafny's Euclidean `%`.
 */
module Navigation {

  import opened Menu

  /** Selection after "next": the following entry, or the first after the last. */
  function Next(i: int): (r: int)
    ensures 0 <= r < ItemCount
    ensures 0 <= i < ItemCount ==> r == if i == ItemCount - 1 then 0 else i + 1
  {
    (i + 1) % ItemCount
  }

  /** Selection after "previous": the preceding entry, or the last before the first. */
  function Previous(i: int): (r: int)
    ensures 0 <= r < ItemCount
    ensures 0 <= i < ItemCount ==> r == if i == 0 then ItemCount - 1 else i - 1
  {
    (i - 1) % ItemCount
  }

  /** "Previous" and "next" undo each other, from any starting index. */
  lemma PreviousUndoesNext(i: int)
    ensures Previous(Next(i)) == i % ItemCount
    ensures Next(Previous(i)) == i % ItemCount
  {
    ModSuccessor(i);
    ModSuccessor(i - 1);
  }

  lemma ModSuccessor(a: int)
    ensures (a % ItemCount + 1) % ItemCount == (a + 1) % ItemCount
    ensures (a % ItemCount - 1) % ItemCount == (a - 1) % ItemCount
  {
  }

  /** The selection after `k` presses of "next". */
  function Advance(i: int, k: nat): int
    decreases k
  {
    if k == 0 then i else Next(Advance(i, k - 1))
  }

  /** The selection after `k` presses of "previous". */
  function Retreat(i: int, k: nat): int
    decreases k
  {
    if k == 0 then i else Previous(Retreat(i, k - 1))
  }

  /** `k` presses of "next" move the selection `k` entries on, modulo the menu length. */
  lemma {:induction false} AdvanceMovesBy(i: int, k: nat)
    requires 0 <= i < ItemCount
    ensures Advance(i, k) == (i + k) % ItemCount
  {
    if k > 0 {
      AdvanceMovesBy(i, k - 1);
      ModSuccessor(i + k - 1);
    }
  }

  /** `k` presses of "previous" move the selection `k` entries back, modulo the menu length. */
  lemma {:induction false} RetreatMovesBy(i: int, k: nat)
    requires 0 <= i < ItemCount
    ensures Retreat(i, k) == (i - k) % ItemCount
  {
    if k > 0 {
      RetreatMovesBy(i, k - 1);
      ModSuccessor(i - k);
    }
  }

  /** Pressing "next" once per menu entry returns to the starting entry, and so does "previous". */
  lemma FullCycleReturns(i: int)
    requires 0 <= i < ItemCount
    ensures Advance(i, ItemCount) == i
    ensures Retreat(i, ItemCount) == i
    ensures forall k :: 0 < k < ItemCount ==> Advance(i, k) != i
  {
    AdvanceMovesBy(i, ItemCount);
    RetreatMovesBy(i, ItemCount);
    forall k | 0 < k < ItemCount
      ensures Advance(i, k) != i
    {
      AdvanceMovesBy(i, k);
    }
  }

}
