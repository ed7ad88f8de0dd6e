/** The chain surgery of the inner `Segment` class: the four local splices and
    the `flip` dispatcher that picks one of them. Each splice takes the
    position k of the receiving run (`this`). */
module Splice {
  import opened Outcomes
  import opened Chain

  /** What a splice leaves behind: the new chain, the position of the run it
      returns, and the position of the receiving run afterwards (None once the
      receiver has been unlinked from the chain). */
  datatype Splice = Splice(bs: BitSet, at: nat, receiver: Option<nat>)

  /** A splice result whose positions point into its chain. */
  predicate InRange(r: Splice) {
    && r.at < |r.bs.runs|
    && (r.receiver.Some? ==> r.receiver.value < |r.bs.runs|)
  }

  /** `flipLeft(e)`: the range starts at this run's start. The predecessor
      (created as the new first run when there is none) takes over the head of
      this run up to e, and this run now starts at e. Returns the predecessor. */
  function FlipLeft(bs: BitSet, k: nat, e: int): (r: Splice)
    requires k < |bs.runs|
    ensures InRange(r) && r.bs.capacity == bs.capacity
    ensures |r.bs.runs| == |bs.runs| + (if k == 0 then 1 else 0)
    ensures r.receiver == Some(r.at + 1)
    ensures r.bs.runs[r.at + 1] == Run(e, bs.runs[k].enabled)
  {
    var run := bs.runs[k];
    if k == 0 then
      Splice(BitSet(bs.capacity, [Run(run.start, !run.enabled), Run(e, run.enabled)] + bs.runs[1..]), 0, Some(1))
    else
      Splice(BitSet(bs.capacity, bs.runs[k := Run(e, run.enabled)]), k - 1, Some(k))
  }

  /** `flipRight(s)`: the range runs from s to this run's end. The successor
      (appended as the new last run when there is none) now starts at s.
      Returns the successor. */
  function FlipRight(bs: BitSet, k: nat, s: int): (r: Splice)
    requires k < |bs.runs|
    ensures InRange(r) && r.bs.capacity == bs.capacity
    ensures |r.bs.runs| == |bs.runs| + (if k + 1 == |bs.runs| then 1 else 0)
    ensures r.at == k + 1 && r.receiver == Some(k)
    ensures r.bs.runs[..k + 1] == bs.runs[..k + 1]
    ensures r.bs.runs[k + 1].start == s
  {
    if k + 1 == |bs.runs| then
      Splice(BitSet(bs.capacity, bs.runs + [Run(s, !bs.runs[k].enabled)]), k + 1, Some(k))
    else
      Splice(BitSet(bs.capacity, bs.runs[k + 1 := Run(s, bs.runs[k + 1].enabled)]), k + 1, Some(k))
  }

  /** `flipSegment()`: the range is exactly this run. An isolated run toggles;
      otherwise the run is unlinked so that its neighbours absorb its bits.
      As written, the head branch leaves the promoted run's start untouched and
      the two-neighbour branch unlinks `next` as well and dereferences
      `next.next`, which is null when `next` is the last run. By then
      `previous.next` has already been set to that null, so the chain read
      forward from `first` ends at the receiver's predecessor. */
  function FlipSegment(bs: BitSet, k: nat): (r: Outcome<Splice>)
    requires k < |bs.runs|
    ensures r.Done? ==> InRange(r.value) && r.value.bs.capacity == bs.capacity
    ensures r.Done? ==> WellFormed(r.value.bs)
    ensures r.Done? && |bs.runs| > 1 ==> r.value.receiver.None?
    ensures r.Threw? <==> 0 < k && k + 2 == |bs.runs|
    ensures r.Threw? ==> r.error == NullPointer && r.state.capacity == bs.capacity
    ensures r.Threw? ==> r.state.runs == bs.runs[..k]
  {
    var n := |bs.runs|;
    if n == 1 then
      Done(Splice(BitSet(bs.capacity, [Run(bs.runs[0].start, !bs.runs[0].enabled)]), 0, Some(0)))
    else if k == n - 1 then
      Done(Splice(BitSet(bs.capacity, bs.runs[..k]), k - 1, None))
    else if k == 0 then
      Done(Splice(BitSet(bs.capacity, bs.runs[1..]), 0, None))
    else if k + 2 < n then
      Done(Splice(BitSet(bs.capacity, bs.runs[..k] + bs.runs[k + 2..]), k - 1, None))
    else
      Threw(NullPointer, BitSet(bs.capacity, bs.runs[..k]))
  }

  /** `flipMiddle(s, e)`: the range is strictly inside this run. Two runs are
      inserted after it: the inverted middle [s, e) and a suffix from e that
      restores this run's value. Returns the middle run. */
  function FlipMiddle(bs: BitSet, k: nat, s: int, e: int): (r: Splice)
    requires k < |bs.runs|
    ensures InRange(r) && r.bs.capacity == bs.capacity
    ensures |r.bs.runs| == |bs.runs| + 2
    ensures r.at == k + 1 && r.receiver == Some(k)
    ensures r.bs.runs[r.at] == Run(s, !bs.runs[k].enabled)
    ensures r.bs.runs[r.at + 1] == Run(e, bs.runs[k].enabled)
    ensures forall j :: 0 <= j <= k ==> r.bs.runs[j] == bs.runs[j]
    ensures forall j :: k < j < |bs.runs| ==> r.bs.runs[j + 2] == bs.runs[j]
  {
    var run := bs.runs[k];
    Splice(BitSet(bs.capacity, bs.runs[..k + 1] + [Run(s, !run.enabled), Run(e, run.enabled)] + bs.runs[k + 1..]), k + 1, Some(k))
  }

  /** `flip(s, e)` on run k: dispatch on whether s is this run's start and
      whether e falls before this run's end. */
  function Flip(bs: BitSet, k: nat, s: int, e: int): (r: Outcome<Splice>)
    requires k < |bs.runs|
    ensures r.Done? ==> InRange(r.value) && r.value.bs.capacity == bs.capacity
    ensures r.Done? ==> WellFormed(r.value.bs)
    ensures r.Threw? <==> !FlipSound(bs, k, s, e) && 0 < k
    ensures r.Threw? ==> r.error == NullPointer && WellFormed(r.state) && r.state.capacity == bs.capacity
  {
    if s == bs.runs[k].start then
      if e < EndsAt(bs, k) then Done(FlipLeft(bs, k, e)) else FlipSegment(bs, k)
    else
      if e < EndsAt(bs, k) then Done(FlipMiddle(bs, k, s, e)) else Done(FlipRight(bs, k, s))
  }

  /** The flips the source performs correctly: every case but the head and the
      second-to-last branches of `flipSegment`. */
  predicate FlipSound(bs: BitSet, k: nat, s: int, e: int)
    requires k < |bs.runs|
  {
    var n := |bs.runs|;
    s != bs.runs[k].start || e < EndsAt(bs, k) || n == 1 || k == n - 1 || (0 < k && k + 2 < n)
  }
}
