/** Concrete runs of the model on small bit sets: a sequence of calls on a
    capacity-10 set, and inputs on which the source's defects show. */
module Scenarios {
  import opened Outcomes
  import opened Chain
  import opened Construction
  import opened Queries
  import opened Mutators
  import opened Locator
  import Splice
  import Drivers

  /** Capacity 10: `putAllBits(2, 5)` then `flipBit(3)` leave bits 2 and 4
      set; `flipAllBits(0, 9)` then unlinks its receiver, the head, and next
      calls `flip` on it while it is detached. */
  lemma PutFlipThenFlipAllDetaches()
    ensures PutAllBits(New(10).value, 2, 5, 0) == Done(BitSet(10, [Run(0, false), Run(2, true), Run(5, false)]))
    ensures FlipBit(BitSet(10, [Run(0, false), Run(2, true), Run(5, false)]), 3)
              == Done(BitSet(10, [Run(0, false), Run(2, true), Run(3, false), Run(4, true), Run(5, false)]))
    ensures EnabledLength(BitSet(10, [Run(0, false), Run(2, true), Run(3, false), Run(4, true), Run(5, false)]), 5) == 2
    ensures FlipAllBits(BitSet(10, [Run(0, false), Run(2, true), Run(3, false), Run(4, true), Run(5, false)]), 0, 9, 5)
              == Threw(DetachedReceiver, BitSet(10, [Run(2, true), Run(3, false), Run(4, true), Run(5, false)]))
  {
    var initial := New(10).value;
    assert initial == BitSet(10, [Run(0, false)]);
    var two := BitSet(10, [Run(0, false), Run(2, true), Run(5, false)]);
    assert GetSegment(initial, 2) == Ok(0);
    assert initial.runs[..1] + [Run(2, true), Run(5, false)] + initial.runs[1..] == two.runs;
    assert Splice.Flip(initial, 0, 2, 5) == Done(Splice.Splice(two, 1, Some(0)));
    assert Drivers.SetAll(initial, 0, 2, 5, true, 0) == Done(two);
    var five := BitSet(10, [Run(0, false), Run(2, true), Run(3, false), Run(4, true), Run(5, false)]);
    assert GetSegment(two, 3) == Ok(1);
    assert two.runs[..2] + [Run(3, false), Run(4, true)] + two.runs[2..] == five.runs;
    assert Splice.Flip(two, 1, 3, 4) == Done(Splice.Splice(five, 2, Some(1)));
  }

  /** A range over two runs: `flipAllBits(2, 8)` on bits 5..9 set flips only
      [2, 5), because the run `flip` returns already reaches the capacity and
      the loop guard stops; bits 5..7 stay set. */
  lemma FlipAllStopsAfterFirstRun()
    ensures FlipAllBits(BitSet(10, [Run(0, false), Run(5, true)]), 2, 8, 0) == Done(BitSet(10, [Run(0, false), Run(2, true)]))
    ensures Bit(BitSet(10, [Run(0, false), Run(2, true)]), 6)
  {
    var bs := BitSet(10, [Run(0, false), Run(5, true)]);
    assert GetSegment(bs, 2) == Ok(0);
    assert bs.runs[1 := Run(2, true)] == [Run(0, false), Run(2, true)];
    assert Splice.Flip(bs, 0, 2, 8) == Done(Splice.Splice(BitSet(10, [Run(0, false), Run(2, true)]), 1, Some(0)));
  }

  /** Flipping an interior bit of a fresh set splits its run in three; flipping
      the same bit again reaches the before-last branch of `flipSegment` and
      throws. */
  lemma FlipInteriorBitTwiceThrows()
    ensures FlipBit(BitSet(10, [Run(0, false)]), 5) == Done(BitSet(10, [Run(0, false), Run(5, true), Run(6, false)]))
    ensures FlipBit(BitSet(10, [Run(0, false), Run(5, true), Run(6, false)]), 5) == Threw(NullPointer, BitSet(10, [Run(0, false)]))
  {
    var one := BitSet(10, [Run(0, false)]);
    var three := BitSet(10, [Run(0, false), Run(5, true), Run(6, false)]);
    assert GetSegment(one, 5) == Ok(0);
    assert one.runs[..1] + [Run(5, true), Run(6, false)] + one.runs[1..] == three.runs;
    assert Splice.Flip(one, 0, 5, 6) == Done(Splice.Splice(three, 1, Some(0)));
    assert GetSegment(three, 5) == Ok(1);
    assert three.runs[..1] == one.runs;
  }

  /** Clearing a bit of a fresh set throws: the run already holds false and
      `setAll` then steps to a `next` that does not exist. The chain is left
      as it was. */
  lemma RemoveBitOnFreshSetFails()
    ensures RemoveBit(New(10).value, 3, 0) == Threw(NullPointer, New(10).value)
  {
    assert New(10).value == BitSet(10, [Run(0, false)]);
  }

  /** Setting the last bit of a fresh set throws, but only after `flipRight`
      has appended the run [9, 10): the exception escapes with bit 9 set. */
  lemma PutLastBitSetsThenThrows()
    ensures PutBit(New(10).value, 9, 0) == Threw(NullPointer, BitSet(10, [Run(0, false), Run(9, true)]))
    ensures Bit(BitSet(10, [Run(0, false), Run(9, true)]), 9)
  {
    var initial := New(10).value;
    assert initial == BitSet(10, [Run(0, false)]);
    assert GetSegment(initial, 9) == Ok(0);
    assert initial.runs + [Run(9, true)] == [Run(0, false), Run(9, true)];
    assert Splice.Flip(initial, 0, 9, 10) == Done(Splice.Splice(BitSet(10, [Run(0, false), Run(9, true)]), 1, Some(0)));
  }

  /** On a one-bit set, `putBit(0)` toggles the only run in place and then
      throws on the missing `next`: the bit stays set. */
  lemma PutOnlyBitSetsThenThrows()
    ensures PutBit(New(1).value, 0, 0) == Threw(NullPointer, BitSet(1, [Run(0, true)]))
  {
    var initial := New(1).value;
    assert initial == BitSet(1, [Run(0, false)]);
    assert GetSegment(initial, 0) == Ok(0);
    assert Splice.Flip(initial, 0, 0, 1) == Done(Splice.Splice(BitSet(1, [Run(0, true)]), 0, Some(0)));
  }

  /** `hasAllBits` reports true on a range of cleared bits. */
  lemma HasAllBitsOfClearedRange()
    ensures HasAllBits(New(10).value, 0, 5) == Ok(true)
    ensures forall i :: 0 <= i < 10 ==> !Bit(New(10).value, i)
  {
    assert New(10).value == BitSet(10, [Run(0, false)]);
  }

  /** Flipping the whole head run [0, 4) promotes [4, 10) to head without
      moving its start: the run sum then misses the four bits that became set,
      and `hasBit(3)` walks backward past the head. */
  lemma HeadSpliceLosesBits()
    ensures FlipAllBits(BitSet(10, [Run(0, false), Run(4, true)]), 0, 4, 0) == Done(BitSet(10, [Run(4, true)]))
    ensures EnabledLength(BitSet(10, [Run(4, true)]), 1) == 6
    ensures HasBit(BitSet(10, [Run(4, true)]), 3) == Err(NullPointer)
  {
  }
}
