/** The public mutators: argument check, locate the run holding the start,
    then one of the `Segment` drivers. */
module Mutators {
  import opened Outcomes
  import opened Chain
  import opened Splice
  import opened SpliceLemmas
  import opened Drivers
  import opened Locator
  import opened Construction

  /** `setBit(i, v)`: `setAll(i, i + 1, v)` on the run holding i. The end
      i + 1 is not range-checked, so it may equal the capacity. */
  function SetBit(bs: BitSet, i: int, v: bool, fuel: nat): (r: Outcome<BitSet>)
    requires WellFormed(bs)
    ensures !(0 <= i < bs.capacity) ==> r == Threw(IndexOutOfBounds, bs)
    ensures WellFormed(After(r)) && After(r).capacity == bs.capacity
  {
    match CheckIndex(bs, i)
    case Fail(error) => Threw(error, bs)
    case Pass =>
      match GetSegment(bs, i)
      case Err(error) => Threw(error, bs)
      case Ok(k) => SetAll(bs, k, i, i + 1, v, fuel)
  }

  /** `setAllBits(s, e, v)`: `setAll(s, e, v)` on the run holding s. */
  function SetAllBits(bs: BitSet, s: int, e: int, v: bool, fuel: nat): (r: Outcome<BitSet>)
    requires WellFormed(bs)
    ensures !(0 <= s < e < bs.capacity) ==> r == Threw(IndexOutOfBounds, bs)
    ensures WellFormed(After(r)) && After(r).capacity == bs.capacity
  {
    match CheckRange(bs, s, e)
    case Fail(error) => Threw(error, bs)
    case Pass =>
      match GetSegment(bs, s)
      case Err(error) => Threw(error, bs)
      case Ok(k) => SetAll(bs, k, s, e, v, fuel)
  }

  /** `putBit(i)`: sets bit i. */
  function PutBit(bs: BitSet, i: int, fuel: nat): (r: Outcome<BitSet>)
    requires WellFormed(bs)
    ensures !(0 <= i < bs.capacity) ==> r == Threw(IndexOutOfBounds, bs)
  {
    SetBit(bs, i, true, fuel)
  }

  /** `putAllBits(s, e)`: sets the bits of [s, e). */
  function PutAllBits(bs: BitSet, s: int, e: int, fuel: nat): (r: Outcome<BitSet>)
    requires WellFormed(bs)
    ensures !(0 <= s < e < bs.capacity) ==> r == Threw(IndexOutOfBounds, bs)
  {
    SetAllBits(bs, s, e, true, fuel)
  }

  /** `removeBit(i)`: clears bit i. */
  function RemoveBit(bs: BitSet, i: int, fuel: nat): (r: Outcome<BitSet>)
    requires WellFormed(bs)
    ensures !(0 <= i < bs.capacity) ==> r == Threw(IndexOutOfBounds, bs)
  {
    SetBit(bs, i, false, fuel)
  }

  /** `removeAllBits(s, e)`: clears the bits of [s, e). */
  function RemoveAllBits(bs: BitSet, s: int, e: int, fuel: nat): (r: Outcome<BitSet>)
    requires WellFormed(bs)
    ensures !(0 <= s < e < bs.capacity) ==> r == Threw(IndexOutOfBounds, bs)
  {
    SetAllBits(bs, s, e, false, fuel)
  }

  /** `flipBit(i)`: `flip(i, i + 1)` on the run holding i. */
  function FlipBit(bs: BitSet, i: int): (r: Outcome<BitSet>)
    requires WellFormed(bs)
    ensures !(0 <= i < bs.capacity) ==> r == Threw(IndexOutOfBounds, bs)
    ensures WellFormed(After(r)) && After(r).capacity == bs.capacity
  {
    match CheckIndex(bs, i)
    case Fail(error) => Threw(error, bs)
    case Pass =>
      match GetSegment(bs, i)
      case Err(error) => Threw(error, bs)
      case Ok(k) =>
        var step :- Flip(bs, k, i, i + 1);
        Done(step.bs)
  }

  /** `flipAllBits(s, e)`: `flipAll(s, e)` on the run holding s. */
  function FlipAllBits(bs: BitSet, s: int, e: int, fuel: nat): (r: Outcome<BitSet>)
    requires WellFormed(bs)
    ensures !(0 <= s < e < bs.capacity) ==> r == Threw(IndexOutOfBounds, bs)
    ensures WellFormed(After(r)) && After(r).capacity == bs.capacity
  {
    match CheckRange(bs, s, e)
    case Fail(error) => Threw(error, bs)
    case Pass =>
      match GetSegment(bs, s)
      case Err(error) => Threw(error, bs)
      case Ok(k) => FlipAll(bs, k, s, e, fuel)
  }

  /** An index that passes `checkIndex` is located at its owning run. */
  lemma Located(bs: BitSet, i: int)
    requires Valid(bs) && 0 <= i < bs.capacity
    ensures CheckIndex(bs, i) == Pass
    ensures GetSegment(bs, i) == Ok(Owner(bs.runs, i))
  {
  }

  /** The flips of single bits the source performs correctly: the bit is not
      a run of its own that `flipSegment` splices defectively. */
  predicate FlipBitSound(bs: BitSet, i: int) {
    Valid(bs) && 0 <= i < bs.capacity && FlipSound(bs, Owner(bs.runs, i), i, i + 1)
  }

  /** On a valid chain, `flipBit(i)` inverts bit i alone, unless the bit is a
      run of its own that `flipSegment` splices defectively. */
  lemma FlipBitCorrect(bs: BitSet, i: int)
    requires FlipBitSound(bs, i)
    ensures FlipBit(bs, i).Done?
    ensures FlippedOn(bs, FlipBit(bs, i).value, i, i + 1)
  {
    var k := Owner(bs.runs, i);
    OwnerContains(bs, i);
    assert bs.runs[k].start <= i < i + 1 <= EndsAt(bs, k);
    assert FlipSound(bs, k, i, i + 1);
    assert Valid(bs) && k < |bs.runs|;
    FlipCorrect(bs, k, i, i + 1);
    FlipBitUnfolds(bs, i);
    var after := Flip(bs, k, i, i + 1).value.bs;
    assert FlipBit(bs, i).value == after;
    assert FlippedOn(bs, after, i, i + 1);
  }

  lemma FlipBitUnfolds(bs: BitSet, i: int)
    requires Valid(bs) && 0 <= i < bs.capacity
    requires Flip(bs, Owner(bs.runs, i), i, i + 1).Done?
    ensures FlipBit(bs, i) == Done(Flip(bs, Owner(bs.runs, i), i, i + 1).value.bs)
  {
    Located(bs, i);
  }

  /** Flipping the same bit twice restores every bit, whenever neither flip
      meets a defective `flipSegment` branch. */
  lemma FlipBitTwice(bs: BitSet, i: int)
    requires FlipBitSound(bs, i)
    ensures FlipBit(bs, i).Done?
    ensures FlipBitSound(FlipBit(bs, i).value, i) ==>
              && FlipBit(FlipBit(bs, i).value, i).Done?
              && SameBits(bs, FlipBit(FlipBit(bs, i).value, i).value)
  {
    FlipBitCorrect(bs, i);
    var once := FlipBit(bs, i).value;
    if FlipBitSound(once, i) {
      FlipBitCorrect(once, i);
      FlippedTwice(bs, once, FlipBit(once, i).value, i, i + 1);
    }
  }

  /** On a valid chain, `setBit(i, v)` leaves bit i reading v and every other
      bit unchanged, whether it returns or throws on the trailing `seg.next`
      step, unless bit i must be flipped and is a run of its own that
      `flipSegment` splices defectively. */
  lemma SetBitCorrect(bs: BitSet, i: int, v: bool, fuel: nat)
    requires Valid(bs) && 0 <= i < bs.capacity
    requires Bit(bs, i) != v ==> FlipSound(bs, Owner(bs.runs, i), i, i + 1)
    ensures AssignsOrFails(bs, SetBit(bs, i, v, fuel), i, i + 1, v)
  {
    var k := Owner(bs.runs, i);
    var r := SetBit(bs, i, v, fuel);
    OwnerContains(bs, i);
    SetBitUnfolds(bs, i, v, fuel);
    assert bs.runs[k].start <= i < i + 1 <= EndsAt(bs, k);
    assert bs.runs[k].enabled != v ==> FlipSound(bs, k, i, i + 1);
    assert r == SetAll(bs, k, i, i + 1, v, fuel);
    assert Valid(bs) && k < |bs.runs|;
    SetAllInsideRun(bs, k, i, i + 1, v, fuel, r);
  }

  lemma SetAllBitsUnfolds(bs: BitSet, s: int, e: int, v: bool, fuel: nat)
    requires Valid(bs) && 0 <= s < e < bs.capacity
    ensures SetAllBits(bs, s, e, v, fuel) == SetAll(bs, Owner(bs.runs, s), s, e, v, fuel)
  {
    Located(bs, s);
  }

  lemma SetBitUnfolds(bs: BitSet, i: int, v: bool, fuel: nat)
    requires Valid(bs) && 0 <= i < bs.capacity
    ensures SetBit(bs, i, v, fuel) == SetAll(bs, Owner(bs.runs, i), i, i + 1, v, fuel)
  {
    Located(bs, i);
  }

  /** On a valid chain and a range inside the run holding s, `setAllBits`
      leaves [s, e) reading v and every other bit unchanged, whether it returns
      or throws on the trailing `seg.next` step, unless the range must be
      flipped and is a whole run that `flipSegment` splices defectively. */
  lemma SetAllBitsWithinRun(bs: BitSet, s: int, e: int, v: bool, fuel: nat)
    requires Valid(bs) && 0 <= s < e < bs.capacity
    requires e <= EndsAt(bs, Owner(bs.runs, s))
    requires Bit(bs, s) != v ==> FlipSound(bs, Owner(bs.runs, s), s, e)
    ensures AssignsOrFails(bs, SetAllBits(bs, s, e, v, fuel), s, e, v)
  {
    var k := Owner(bs.runs, s);
    SetAllBitsUnfolds(bs, s, e, v, fuel);
    OwnerContains(bs, s);
    assert bs.runs[k].start <= s < e <= EndsAt(bs, k);
    assert bs.runs[k].enabled != v ==> FlipSound(bs, k, s, e);
    assert Valid(bs) && k < |bs.runs|;
    SetAllInsideRun(bs, k, s, e, v, fuel, SetAllBits(bs, s, e, v, fuel));
  }

  /** `putBit(i)` sets bit i and changes nothing else, whether it returns or
      throws on the trailing `seg.next` step. */
  lemma PutBitCorrect(bs: BitSet, i: int, fuel: nat)
    requires Valid(bs) && 0 <= i < bs.capacity
    requires !Bit(bs, i) ==> FlipSound(bs, Owner(bs.runs, i), i, i + 1)
    ensures AssignsOrFails(bs, PutBit(bs, i, fuel), i, i + 1, true)
  {
    SetBitCorrect(bs, i, true, fuel);
  }

  /** `removeBit(i)` clears bit i and changes nothing else, whether it returns
      or throws on the trailing `seg.next` step. */
  lemma RemoveBitCorrect(bs: BitSet, i: int, fuel: nat)
    requires Valid(bs) && 0 <= i < bs.capacity
    requires Bit(bs, i) ==> FlipSound(bs, Owner(bs.runs, i), i, i + 1)
    ensures AssignsOrFails(bs, RemoveBit(bs, i, fuel), i, i + 1, false)
  {
    SetBitCorrect(bs, i, false, fuel);
  }

  /** `putAllBits(s, e)` sets [s, e) and changes nothing else, whether it
      returns or throws on the trailing `seg.next` step. */
  lemma PutAllBitsWithinRun(bs: BitSet, s: int, e: int, fuel: nat)
    requires Valid(bs) && 0 <= s < e < bs.capacity
    requires e <= EndsAt(bs, Owner(bs.runs, s))
    requires !Bit(bs, s) ==> FlipSound(bs, Owner(bs.runs, s), s, e)
    ensures AssignsOrFails(bs, PutAllBits(bs, s, e, fuel), s, e, true)
  {
    SetAllBitsWithinRun(bs, s, e, true, fuel);
  }

  /** `removeAllBits(s, e)` clears [s, e) and changes nothing else, whether
      it returns or throws on the trailing `seg.next` step. */
  lemma RemoveAllBitsWithinRun(bs: BitSet, s: int, e: int, fuel: nat)
    requires Valid(bs) && 0 <= s < e < bs.capacity
    requires e <= EndsAt(bs, Owner(bs.runs, s))
    requires Bit(bs, s) ==> FlipSound(bs, Owner(bs.runs, s), s, e)
    ensures AssignsOrFails(bs, RemoveAllBits(bs, s, e, fuel), s, e, false)
  {
    SetAllBitsWithinRun(bs, s, e, false, fuel);
  }

  /** On a valid chain and a range inside the run holding s, `flipAllBits`
      inverts exactly [s, e). */
  lemma FlipAllBitsWithinRun(bs: BitSet, s: int, e: int, fuel: nat)
    requires Valid(bs) && 0 <= s < e < bs.capacity
    requires e <= EndsAt(bs, Owner(bs.runs, s))
    requires FlipSound(bs, Owner(bs.runs, s), s, e)
    ensures FlipAllBits(bs, s, e, fuel).Done?
    ensures FlippedOn(bs, FlipAllBits(bs, s, e, fuel).value, s, e)
  {
    var k := Owner(bs.runs, s);
    Located(bs, s);
    assert FlipAllBits(bs, s, e, fuel) == FlipAll(bs, k, s, e, fuel);
    FlipAllWithinRun(bs, k, s, e, fuel);
  }

  /** Two valid chains of the same capacity read the same bits. */
  predicate SameBits(a: BitSet, b: BitSet) {
    && Valid(a) && Valid(b) && a.capacity == b.capacity
    && forall j :: 0 <= j < a.capacity ==> Bit(a, j) == Bit(b, j)
  }

  /** Two inversions of the same range cancel out. */
  lemma FlippedTwice(a: BitSet, b: BitSet, c: BitSet, s: int, e: int)
    requires FlippedOn(a, b, s, e) && FlippedOn(b, c, s, e)
    ensures SameBits(a, c)
  {
    forall j | 0 <= j < a.capacity
      ensures Bit(c, j) == Bit(a, j)
    {
      assert Bit(b, j) == (if s <= j < e then !Bit(a, j) else Bit(a, j));
    }
  }
}
