/** The run-length-encoded bit vector as a chain of runs. The Java class links
    `Segment` objects through `previous`/`next`; here the chain is a sequence,
    position 0 is `first`, position |runs|-1 is `last`, and a run's neighbours
    are the adjacent positions. */
module Chain {
  import opened Outcomes

  /** One run of equal bits. It starts at `start` (inclusive) and ends where
      the next run starts, or at the capacity for the last run. */
  datatype Run = Run(start: int, enabled: bool)

  /** The whole bit set: its fixed capacity (exclusive bound on bit indices)
      and its chain of runs. */
  datatype BitSet = BitSet(capacity: int, runs: seq<Run>)

  /** What a call that writes to the chain leaves behind. Java does not undo
      the writes made before an exception, so a call that throws still
      carries the chain as it stood at the throw. */
  datatype Outcome<+T> = Done(value: T) | Threw(error: Error, state: BitSet) {

    predicate IsFailure() {
      Threw?
    }

    function PropagateFailure<U>(): Outcome<U>
      requires Threw?
    {
      Threw(error, state)
    }

    function Extract(): T
      requires Done?
    {
      value
    }
  }

  /** The chain a call leaves behind, whether it returned or threw. */
  function After(r: Outcome<BitSet>): (bs: BitSet)
  {
    if r.Done? then r.value else r.state
  }

  /** `first` and `last` are never null: every reachable chain, even one left
      malformed by a defective splice, holds at least one run. */
  predicate WellFormed(bs: BitSet) {
    |bs.runs| > 0
  }

  /** Exclusive end of run k: the next run's start, or the capacity. */
  function EndsAt(bs: BitSet, k: nat): (end: int)
    requires k < |bs.runs|
  {
    if k + 1 < |bs.runs| then bs.runs[k + 1].start else bs.capacity
  }

  /** Run starts strictly increase along the chain. */
  predicate Increasing(runs: seq<Run>) {
    forall j, l :: 0 <= j < l < |runs| ==> runs[j].start < runs[l].start
  }

  /** No two neighbouring runs hold the same value (every run is maximal). */
  predicate Alternating(runs: seq<Run>) {
    forall j :: 0 < j < |runs| ==> runs[j - 1].enabled != runs[j].enabled
  }

  /** The representation invariant of a compressed bit set. */
  predicate Valid(bs: BitSet) {
    && bs.capacity > 0
    && WellFormed(bs)
    && bs.runs[0].start == 0
    && Increasing(bs.runs)
    && bs.runs[|bs.runs| - 1].start < bs.capacity
    && Alternating(bs.runs)
  }

  /** The position of the run that owns index i: the last run starting at or
      before i. */
  function Owner(runs: seq<Run>, i: int): (k: nat)
    requires |runs| > 0 && runs[0].start <= i
    ensures k < |runs| && runs[k].start <= i
    ensures forall j :: k < j < |runs| ==> i < runs[j].start
  {
    OwnerBelow(runs, i, |runs|)
  }

  /** The last of the first n runs that starts at or before i. */
  function OwnerBelow(runs: seq<Run>, i: int, n: nat): (k: nat)
    requires 0 < n <= |runs| && runs[0].start <= i
    ensures k < n && runs[k].start <= i
    ensures forall j :: k < j < n ==> i < runs[j].start
  {
    if runs[n - 1].start <= i then n - 1 else OwnerBelow(runs, i, n - 1)
  }

  /** The abstraction function: the value of bit i is the value of its run. */
  function Bit(bs: BitSet, i: int): (b: bool)
    requires WellFormed(bs) && bs.runs[0].start <= i
  {
    bs.runs[Owner(bs.runs, i)].enabled
  }

  /** Run k owns index i when i lies in [start, end) of that run. */
  lemma OwnerIs(bs: BitSet, k: nat, i: int)
    requires Increasing(bs.runs) && k < |bs.runs|
    requires bs.runs[k].start <= i
    requires k + 1 < |bs.runs| ==> i < bs.runs[k + 1].start
    ensures bs.runs[0].start <= i
    ensures Owner(bs.runs, i) == k
    ensures Bit(bs, i) == bs.runs[k].enabled
  {
  }

  /** In a valid chain every index below the capacity lies inside its owner. */
  lemma OwnerContains(bs: BitSet, i: int)
    requires Valid(bs) && 0 <= i < bs.capacity
    ensures bs.runs[Owner(bs.runs, i)].start <= i < EndsAt(bs, Owner(bs.runs, i))
  {
  }

  /** `after` reads like `before` except that the bits of [s, e) are inverted. */
  predicate FlippedOn(before: BitSet, after: BitSet, s: int, e: int) {
    && Valid(before)
    && Valid(after)
    && after.capacity == before.capacity
    && forall i :: 0 <= i < before.capacity ==>
         Bit(after, i) == (if s <= i < e then !Bit(before, i) else Bit(before, i))
  }

  /** `after` reads like `before` except that the bits of [s, e) read v. */
  predicate AssignedOn(before: BitSet, after: BitSet, s: int, e: int, v: bool) {
    && Valid(before)
    && Valid(after)
    && after.capacity == before.capacity
    && forall i :: 0 <= i < before.capacity ==>
         Bit(after, i) == (if s <= i < e then v else Bit(before, i))
  }

  /** Run k covers the whole of [s, e). */
  predicate Covers(bs: BitSet, k: nat, s: int, e: int)
    requires k < |bs.runs|
  {
    bs.runs[k].start <= s && e <= EndsAt(bs, k)
  }

  /** In a valid chain every run is non-empty and ends within the capacity. */
  lemma RunWithin(bs: BitSet, k: nat)
    requires Valid(bs) && k < |bs.runs|
    ensures 0 <= bs.runs[k].start < EndsAt(bs, k) <= bs.capacity
  {
    if k + 1 < |bs.runs| {
      assert bs.runs[k + 1].start <= bs.runs[|bs.runs| - 1].start;
    }
  }

  /** Every bit of a run reads the run's value. */
  lemma BitsOfRun(bs: BitSet, k: nat, i: int)
    requires Valid(bs) && k < |bs.runs|
    requires bs.runs[k].start <= i < EndsAt(bs, k)
    ensures Bit(bs, i) == bs.runs[k].enabled
  {
    OwnerIs(bs, k, i);
  }
}
