/** The read-only operations of the bit set, each specified against the
    abstraction `Bit`. */
module Queries {
  import opened Outcomes
  import opened Chain
  import opened Locator
  import opened Construction

  /** Sum of the lengths of the enabled runs among the first k. */
  function EnabledLength(bs: BitSet, k: nat): (total: int)
    requires k <= |bs.runs|
  {
    if k == 0 then 0
    else EnabledLength(bs, k - 1) + (if bs.runs[k - 1].enabled then EndsAt(bs, k - 1) - bs.runs[k - 1].start else 0)
  }

  /** Number of set bits below n, counted bit by bit. */
  function Population(bs: BitSet, n: int): (count: nat)
    requires Valid(bs) && 0 <= n <= bs.capacity
  {
    if n == 0 then 0 else Population(bs, n - 1) + (if Bit(bs, n - 1) then 1 else 0)
  }

  /** `bitCount()`: walks the chain from the head, adding the length of every
      enabled run. On a valid chain that is the number of set bits. */
  method BitCount(bs: BitSet) returns (count: int)
    requires WellFormed(bs)
    ensures count == EnabledLength(bs, |bs.runs|)
    ensures Valid(bs) ==> count == Population(bs, bs.capacity)
  {
    count := 0;
    var k := 0;
    while k < |bs.runs|
      invariant 0 <= k <= |bs.runs|
      invariant count == EnabledLength(bs, k)
    {
      if bs.runs[k].enabled {
        count := count + (EndsAt(bs, k) - bs.runs[k].start);
      }
      k := k + 1;
    }
    if Valid(bs) {
      EnabledLengthIsPopulation(bs, |bs.runs|);
    }
  }

  /** Counting bit by bit across part of one run adds the run's value for each
      bit. */
  lemma {:induction false} PopulationAcrossRun(bs: BitSet, k: nat, m: int)
    requires Valid(bs) && k < |bs.runs|
    requires bs.runs[k].start <= m <= EndsAt(bs, k)
    ensures Population(bs, m) == Population(bs, bs.runs[k].start) +
              (if bs.runs[k].enabled then m - bs.runs[k].start else 0)
    decreases m - bs.runs[k].start
  {
    RunWithin(bs, k);
    if m > bs.runs[k].start {
      PopulationAcrossRun(bs, k, m - 1);
      BitsOfRun(bs, k, m - 1);
    }
  }

  /** The run sum over the first k runs counts the set bits below the start of
      run k (below the capacity when k is the run count). */
  lemma {:induction false} EnabledLengthIsPopulation(bs: BitSet, k: nat)
    requires Valid(bs) && k <= |bs.runs|
    ensures EnabledLength(bs, k) == Population(bs, if k < |bs.runs| then bs.runs[k].start else bs.capacity)
  {
    if k > 0 {
      var end := EndsAt(bs, k - 1);
      RunWithin(bs, k - 1);
      EnabledLengthIsPopulation(bs, k - 1);
      PopulationAcrossRun(bs, k - 1, end);
    }
  }

  /** `hasBit(i)`: the value of the run holding i. */
  function HasBit(bs: BitSet, i: int): (r: Result<bool>)
    requires WellFormed(bs)
    ensures !(0 <= i < bs.capacity) ==> r == Err(IndexOutOfBounds)
    ensures Valid(bs) && 0 <= i < bs.capacity ==> r == Ok(Bit(bs, i))
  {
    match CheckIndex(bs, i)
    case Fail(error) => Err(error)
    case Pass =>
      var k :- GetSegment(bs, i);
      Ok(bs.runs[k].enabled)
  }

  /** `hasAllBits(s, e)`: whether the run holding s also holds e - 1. */
  function HasAllBits(bs: BitSet, s: int, e: int): (r: Result<bool>)
    requires WellFormed(bs)
    ensures !(0 <= s < e < bs.capacity) ==> r == Err(IndexOutOfBounds)
  {
    match CheckRange(bs, s, e)
    case Fail(error) => Err(error)
    case Pass =>
      var s1 :- GetSegment(bs, s);
      var s2 :- GetNextSegment(bs, s1, e - 1);
      Ok(s1 == s2)
  }

  /** `hasAnyBits(s, e)`: true when [s, e) touches two runs, otherwise the
      value of the one run holding it. */
  function HasAnyBits(bs: BitSet, s: int, e: int): (r: Result<bool>)
    requires WellFormed(bs)
    ensures !(0 <= s < e < bs.capacity) ==> r == Err(IndexOutOfBounds)
  {
    match CheckRange(bs, s, e)
    case Fail(error) => Err(error)
    case Pass =>
      var s1 :- GetSegment(bs, s);
      var s2 :- GetNextSegment(bs, s1, e - 1);
      if s1 != s2 then Ok(true) else Ok(bs.runs[s1].enabled)
  }

  /** `nextBit(from, v)`: from itself when its run holds v, else the start of
      the next run, or -1 when there is none. */
  function NextBit(bs: BitSet, from: int, v: bool): (r: Result<int>)
    requires WellFormed(bs)
    ensures !(0 <= from < bs.capacity) ==> r == Err(IndexOutOfBounds)
  {
    match CheckIndex(bs, from)
    case Fail(error) => Err(error)
    case Pass =>
      var k :- GetSegment(bs, from);
      if bs.runs[k].enabled == v then Ok(from)
      else if k + 1 == |bs.runs| then Ok(-1)
      else Ok(bs.runs[k + 1].start)
  }

  /** `previousBit(from, v)`: from itself when its run holds v, else the index
      just before the run's start, or -1 when the run is the head. */
  function PreviousBit(bs: BitSet, from: int, v: bool): (r: Result<int>)
    requires WellFormed(bs)
    ensures !(0 <= from < bs.capacity) ==> r == Err(IndexOutOfBounds)
  {
    match CheckIndex(bs, from)
    case Fail(error) => Err(error)
    case Pass =>
      var k :- GetSegment(bs, from);
      if bs.runs[k].enabled == v then Ok(from)
      else if k == 0 then Ok(-1)
      else Ok(bs.runs[k].start - 1)
  }

  /** On a valid chain and a valid range, `hasAllBits(s, e)` holds exactly
      when every bit of [s, e) equals bit s, whatever that value is: the run's
      value is never read. */
  lemma HasAllBitsCorrect(bs: BitSet, s: int, e: int)
    requires Valid(bs) && 0 <= s < e < bs.capacity
    ensures HasAllBits(bs, s, e).Ok?
    ensures HasAllBits(bs, s, e).value <==> forall i :: s <= i < e ==> Bit(bs, i) == Bit(bs, s)
  {
    var s1 := Owner(bs.runs, s);
    var s2 := Owner(bs.runs, e - 1);
    if s1 == s2 {
      forall i | s <= i < e
        ensures Bit(bs, i) == Bit(bs, s)
      {
        OwnerIs(bs, s1, i);
      }
    } else {
      var b := bs.runs[s1 + 1].start;
      OwnerIs(bs, s1 + 1, b);
      assert Bit(bs, b) != Bit(bs, s);
    }
  }

  /** On a valid chain and a valid range, `hasAnyBits(s, e)` holds exactly
      when some bit of [s, e) is set: a range touching two runs contains a
      set bit because neighbouring runs alternate. */
  lemma HasAnyBitsCorrect(bs: BitSet, s: int, e: int)
    requires Valid(bs) && 0 <= s < e < bs.capacity
    ensures HasAnyBits(bs, s, e).Ok?
    ensures HasAnyBits(bs, s, e).value <==> exists i :: s <= i < e && Bit(bs, i)
  {
    var s1 := Owner(bs.runs, s);
    var s2 := Owner(bs.runs, e - 1);
    if s1 == s2 {
      forall i | s <= i < e
        ensures Bit(bs, i) == Bit(bs, s)
      {
        OwnerIs(bs, s1, i);
      }
      assert Bit(bs, s) == bs.runs[s1].enabled;
    } else {
      var b := bs.runs[s1 + 1].start;
      OwnerIs(bs, s1 + 1, b);
      assert Bit(bs, b) || Bit(bs, s);
    }
  }

  /** On a valid chain, `nextBit(from, v)` returns the smallest index at or
      after `from` whose bit is v, or -1 when no bit below the capacity is v. */
  lemma NextBitCorrect(bs: BitSet, from: int, v: bool)
    requires Valid(bs) && 0 <= from < bs.capacity
    ensures NextBit(bs, from, v).Ok?
    ensures NextBit(bs, from, v).value == -1 ==> forall i :: from <= i < bs.capacity ==> Bit(bs, i) != v
    ensures NextBit(bs, from, v).value != -1 ==>
              && from <= NextBit(bs, from, v).value < bs.capacity
              && Bit(bs, NextBit(bs, from, v).value) == v
              && forall i :: from <= i < NextBit(bs, from, v).value ==> Bit(bs, i) != v
  {
    var k := Owner(bs.runs, from);
    forall i | from <= i < EndsAt(bs, k)
      ensures Bit(bs, i) == bs.runs[k].enabled
    {
      OwnerIs(bs, k, i);
    }
    if k + 1 < |bs.runs| {
      OwnerIs(bs, k + 1, bs.runs[k + 1].start);
    }
  }

  /** On a valid chain, `previousBit(from, v)` returns the largest index at or
      before `from` whose bit is v, or -1 when no bit from 0 to `from` is v. */
  lemma PreviousBitCorrect(bs: BitSet, from: int, v: bool)
    requires Valid(bs) && 0 <= from < bs.capacity
    ensures PreviousBit(bs, from, v).Ok?
    ensures PreviousBit(bs, from, v).value == -1 ==> forall i :: 0 <= i <= from ==> Bit(bs, i) != v
    ensures PreviousBit(bs, from, v).value != -1 ==>
              && 0 <= PreviousBit(bs, from, v).value <= from
              && Bit(bs, PreviousBit(bs, from, v).value) == v
              && forall i :: PreviousBit(bs, from, v).value < i <= from ==> Bit(bs, i) != v
  {
    var k := Owner(bs.runs, from);
    forall i | bs.runs[k].start <= i <= from
      ensures Bit(bs, i) == bs.runs[k].enabled
    {
      OwnerIs(bs, k, i);
    }
    if k > 0 {
      OwnerIs(bs, k - 1, bs.runs[k].start - 1);
    }
  }
}
