/** Mapping a bit index to its run: `getNextSegment` walks forward from a
    given run, and `getSegment` picks a walk from the head or from the tail. */
module Locator {
  import opened Outcomes
  import opened Chain

  /** `getNextSegment(i)` from run k: step to `next` while i is at or past the
      current run's end; stepping off the last run dereferences null. */
  function GetNextSegment(bs: BitSet, k: nat, i: int): (r: Result<nat>)
    requires k < |bs.runs|
    ensures r.Ok? ==> k <= r.value < |bs.runs| && i < EndsAt(bs, r.value)
    ensures r.Ok? ==> forall j :: k <= j < r.value ==> EndsAt(bs, j) <= i
    ensures Increasing(bs.runs) && bs.runs[k].start <= i < bs.capacity ==>
              bs.runs[0].start <= i && r == Ok(Owner(bs.runs, i))
    decreases |bs.runs| - k
  {
    if i >= EndsAt(bs, k) then
      if k + 1 < |bs.runs| then GetNextSegment(bs, k + 1, i) else Err(NullPointer)
    else Ok(k)
  }

  /** The backward walk of `getSegment` from run k: step to `previous` while i
      lies before the current run's start; stepping off the head dereferences
      null. */
  function ScanBackward(bs: BitSet, k: nat, i: int): (r: Result<nat>)
    requires k < |bs.runs|
    ensures r.Ok? ==> r.value <= k && bs.runs[r.value].start <= i
    ensures r.Ok? ==> forall j :: r.value < j <= k ==> i < bs.runs[j].start
    ensures Increasing(bs.runs) && (k + 1 < |bs.runs| ==> i < bs.runs[k + 1].start) ==>
              if bs.runs[0].start <= i then r == Ok(Owner(bs.runs, i)) else r == Err(NullPointer)
    decreases k
  {
    if i < bs.runs[k].start then
      if k > 0 then ScanBackward(bs, k - 1, i) else Err(NullPointer)
    else Ok(k)
  }

  /** `getSegment(i)`: walk forward from the head when 2*i is at most the last
      run's start, otherwise backward from the tail. On a valid chain both
      walks find the run that owns i, so the choice only affects cost. */
  function GetSegment(bs: BitSet, i: int): (r: Result<nat>)
    requires WellFormed(bs)
    ensures r.Ok? ==> r.value < |bs.runs|
    ensures Valid(bs) && 0 <= i < bs.capacity ==> r == Ok(Owner(bs.runs, i))
  {
    var last := |bs.runs| - 1;
    if 2 * i <= bs.runs[last].start then GetNextSegment(bs, 0, i)
    else ScanBackward(bs, last, i)
  }

  /** Both walks agree on a valid chain: from the head and from the tail they
      reach the same run. */
  lemma WalksAgree(bs: BitSet, i: int)
    requires Valid(bs) && 0 <= i < bs.capacity
    ensures GetNextSegment(bs, 0, i) == ScanBackward(bs, |bs.runs| - 1, i)
    ensures GetNextSegment(bs, 0, i).Ok?
  {
  }
}
