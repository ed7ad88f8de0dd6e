/** Construction of a bit set and the argument checks every public operation
    runs before it reaches the chain. */
module Construction {
  import opened Outcomes
  import opened Chain

  /** `Long.MAX_VALUE`, the capacity of the no-argument constructor. */
  const LongMax: int := 0x7FFF_FFFF_FFFF_FFFF

  /** `new CompressedBitSet(capacity)`: refuses a capacity of 0 or less,
      otherwise one false run starting at 0. */
  function New(capacity: int): (r: Result<BitSet>)
    ensures capacity <= 0 <==> r == Err(IllegalArgument)
    ensures r.Ok? ==> Valid(r.value) && r.value.capacity == capacity && |r.value.runs| == 1
    ensures r.Ok? ==> forall i :: 0 <= i < capacity ==> !Bit(r.value, i)
  {
    if capacity <= 0 then Err(IllegalArgument)
    else Ok(BitSet(capacity, [Run(0, false)]))
  }

  /** `new CompressedBitSet()`: all `Long.MAX_VALUE` bits cleared. */
  function NewDefault(): (bs: BitSet)
    ensures Valid(bs) && bs.capacity == LongMax
    ensures forall i :: 0 <= i < LongMax ==> !Bit(bs, i)
  {
    New(LongMax).value
  }

  /** `checkIndex(i)`: i must lie in [0, capacity). */
  function CheckIndex(bs: BitSet, i: int): (r: Check)
    ensures r.Pass? <==> 0 <= i < bs.capacity
    ensures r.Fail? ==> r.error == IndexOutOfBounds
  {
    if i < 0 || i >= bs.capacity then Fail(IndexOutOfBounds) else Pass
  }

  /** `checkRange(s, e)`: 0 <= s < e and e strictly below the capacity, so a
      range can never end at the capacity itself. */
  function CheckRange(bs: BitSet, s: int, e: int): (r: Check)
    ensures r.Pass? <==> 0 <= s < e < bs.capacity
    ensures r.Fail? ==> r.error == IndexOutOfBounds
  {
    if s < 0 then Fail(IndexOutOfBounds)
    else if e <= s then Fail(IndexOutOfBounds)
    else if e >= bs.capacity then Fail(IndexOutOfBounds)
    else Pass
  }
}
