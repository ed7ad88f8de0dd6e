/** The range drivers `flipAll` and `setAll` of the inner `Segment` class.
    Both are do-while loops that call `flip` on the receiver (`this`) rather
    than on the run the loop has reached. The receiver is tracked by position;
    once a splice unlinks it, the next call would act on a detached object and
    the model stops with `DetachedReceiver`. The Java loops need not terminate,
    so each repetition after the first consumes one unit of `fuel`. Every
    outcome carries the chain as the loop left it, also when it throws. */
module Drivers {
  import opened Outcomes
  import opened Chain
  import opened Splice
  import opened SpliceLemmas

  /** One repetition of the `flipAll` loop followed by its guard. The end of
      the run reached is remembered before the receiver flips [s, e); the run
      `flip` returns becomes the run reached, the remembered end becomes the
      next start, and the loop repeats while that run ends before e. */
  function FlipAllFrom(bs: BitSet, receiver: Option<nat>, seg: nat, s: int, e: int, fuel: nat): (r: Outcome<BitSet>)
    requires seg < |bs.runs| && (receiver.Some? ==> receiver.value < |bs.runs|)
    ensures WellFormed(After(r)) && After(r).capacity == bs.capacity
    ensures r.Threw? ==> r.error in {NullPointer, DetachedReceiver, OutOfFuel}
    ensures receiver.None? ==> r == Threw(DetachedReceiver, bs)
    decreases fuel
  {
    if receiver.None? then Threw(DetachedReceiver, bs)
    else
      var tmp := EndsAt(bs, seg);
      var step :- Flip(bs, receiver.value, s, e);
      if EndsAt(step.bs, step.at) < e then
        if fuel == 0 then Threw(OutOfFuel, step.bs)
        else FlipAllFrom(step.bs, step.receiver, step.at, tmp, e, fuel - 1)
      else Done(step.bs)
  }

  /** `flipAll(s, e)` invoked on run k. */
  function FlipAll(bs: BitSet, k: nat, s: int, e: int, fuel: nat): (r: Outcome<BitSet>)
    requires k < |bs.runs|
    ensures WellFormed(After(r)) && After(r).capacity == bs.capacity
    ensures r.Threw? ==> r.error in {NullPointer, DetachedReceiver, OutOfFuel}
  {
    FlipAllFrom(bs, Some(k), k, s, e, fuel)
  }

  /** One repetition of the `setAll` loop followed by its guard. When the run
      reached does not hold v, the receiver flips [s, e) and the run it returns
      becomes the run reached. The loop then moves to the following run, which
      fails past the last run, takes that run's start as the next start, and
      repeats while that run ends before e. */
  function SetAllFrom(bs: BitSet, receiver: Option<nat>, seg: nat, s: int, e: int, v: bool, fuel: nat): (r: Outcome<BitSet>)
    requires seg < |bs.runs| && (receiver.Some? ==> receiver.value < |bs.runs|)
    ensures WellFormed(After(r)) && After(r).capacity == bs.capacity
    ensures r.Threw? ==> r.error in {NullPointer, DetachedReceiver, OutOfFuel}
    ensures bs.runs[seg].enabled == v && seg + 1 == |bs.runs| ==> r == Threw(NullPointer, bs)
    decreases fuel
  {
    var step :-
      if bs.runs[seg].enabled == v then Done(Splice(bs, seg, receiver))
      else if receiver.None? then Threw(DetachedReceiver, bs)
      else Flip(bs, receiver.value, s, e);
    if step.at + 1 == |step.bs.runs| then Threw(NullPointer, step.bs)
    else
      var next := step.at + 1;
      if EndsAt(step.bs, next) < e then
        if fuel == 0 then Threw(OutOfFuel, step.bs)
        else SetAllFrom(step.bs, step.receiver, next, step.bs.runs[next].start, e, v, fuel - 1)
      else Done(step.bs)
  }

  /** `setAll(s, e, v)` invoked on run k. */
  function SetAll(bs: BitSet, k: nat, s: int, e: int, v: bool, fuel: nat): (r: Outcome<BitSet>)
    requires k < |bs.runs|
    ensures WellFormed(After(r)) && After(r).capacity == bs.capacity
    ensures r.Threw? ==> r.error in {NullPointer, DetachedReceiver, OutOfFuel}
  {
    SetAllFrom(bs, Some(k), k, s, e, v, fuel)
  }

  /** When [s, e) lies inside the receiving run, `flipAll` performs exactly one
      `flip`: it inverts [s, e) and nothing else. */
  lemma FlipAllWithinRun(bs: BitSet, k: nat, s: int, e: int, fuel: nat)
    requires Valid(bs) && k < |bs.runs|
    requires bs.runs[k].start <= s < e <= EndsAt(bs, k)
    requires FlipSound(bs, k, s, e)
    ensures FlipAll(bs, k, s, e, fuel) == Done(Flip(bs, k, s, e).value.bs)
    ensures FlippedOn(bs, FlipAll(bs, k, s, e, fuel).value, s, e)
  {
    FlipCorrect(bs, k, s, e);
  }

  /** When [s, e) lies inside the receiving run and that run already holds v,
      `setAll` changes no run; it then steps to the next run, which throws,
      leaving the chain unchanged, when the receiver is the last run. */
  lemma SetAllAlreadyHeld(bs: BitSet, k: nat, s: int, e: int, v: bool, fuel: nat)
    requires Valid(bs) && k < |bs.runs|
    requires bs.runs[k].start <= s < e <= EndsAt(bs, k)
    requires bs.runs[k].enabled == v
    ensures SetAll(bs, k, s, e, v, fuel) == if k + 1 == |bs.runs| then Threw(NullPointer, bs) else Done(bs)
  {
    if k + 1 < |bs.runs| {
      assert bs.runs[k + 1].start < EndsAt(bs, k + 1);
    }
  }

  /** When [s, e) lies inside the receiving run and that run holds !v,
      `setAll` applies exactly one `flip(s, e)`, after which [s, e) reads v and
      every other bit is unchanged; the trailing `seg.next` step then throws
      exactly when the run `flip` returned is the last one, and the flip
      stays in place. */
  lemma SetAllWithinRun(bs: BitSet, k: nat, s: int, e: int, v: bool, fuel: nat)
    requires Valid(bs) && k < |bs.runs|
    requires bs.runs[k].start <= s < e <= EndsAt(bs, k)
    requires bs.runs[k].enabled != v
    requires FlipSound(bs, k, s, e)
    ensures Flip(bs, k, s, e).Done?
    ensures AssignedOn(bs, Flip(bs, k, s, e).value.bs, s, e, v)
    ensures SetAll(bs, k, s, e, v, fuel) ==
      if Flip(bs, k, s, e).value.at + 1 == |Flip(bs, k, s, e).value.bs.runs| then Threw(NullPointer, Flip(bs, k, s, e).value.bs)
      else Done(Flip(bs, k, s, e).value.bs)
  {
    FlipCorrect(bs, k, s, e);
    var step := Flip(bs, k, s, e).value;
    FlipOfOppositeAssigns(bs, k, step.bs, s, e, v);
    SetAllAfterOneFlip(bs, k, s, e, v, fuel, step);
  }

  /** Inverting a range of bits that all read !v makes them read v. */
  lemma FlipOfOppositeAssigns(bs: BitSet, k: nat, after: BitSet, s: int, e: int, v: bool)
    requires Valid(bs) && k < |bs.runs|
    requires bs.runs[k].start <= s < e <= EndsAt(bs, k)
    requires bs.runs[k].enabled != v
    requires FlippedOn(bs, after, s, e)
    ensures AssignedOn(bs, after, s, e, v)
  {
    forall i | 0 <= i < bs.capacity
      ensures Bit(after, i) == (if s <= i < e then v else Bit(bs, i))
    {
      if s <= i < e {
        OwnerIs(bs, k, i);
      }
    }
  }

  /** After a flip that leaves a valid chain and returns a run covering
      [s, e), the `setAll` loop stops at its guard or fails on `seg.next`. */
  lemma SetAllAfterOneFlip(bs: BitSet, k: nat, s: int, e: int, v: bool, fuel: nat, step: Splice)
    requires k < |bs.runs| && bs.runs[k].enabled != v
    requires Flip(bs, k, s, e) == Done(step)
    requires Valid(step.bs) && step.at < |step.bs.runs| && e <= EndsAt(step.bs, step.at)
    ensures SetAll(bs, k, s, e, v, fuel) ==
      if step.at + 1 == |step.bs.runs| then Threw(NullPointer, step.bs) else Done(step.bs)
  {
    if step.at + 1 < |step.bs.runs| {
      assert step.bs.runs[step.at + 1].start < EndsAt(step.bs, step.at + 1);
    }
  }

  /** Inside one run, `setAll` leaves [s, e) reading v and every other bit
      unchanged, whether it returns or throws on its trailing `seg.next` step.
      A flip is needed only when the run holds !v, and only then must it avoid
      the defective `flipSegment` branches. */
  lemma SetAllInsideRun(bs: BitSet, k: nat, s: int, e: int, v: bool, fuel: nat, r: Outcome<BitSet>)
    requires Valid(bs) && k < |bs.runs|
    requires bs.runs[k].start <= s < e <= EndsAt(bs, k)
    requires bs.runs[k].enabled != v ==> FlipSound(bs, k, s, e)
    requires r == SetAll(bs, k, s, e, v, fuel)
    ensures AssignsOrFails(bs, r, s, e, v)
  {
    if bs.runs[k].enabled == v {
      SetAllAlreadyHeld(bs, k, s, e, v, fuel);
      forall j | s <= j < e
        ensures Bit(bs, j) == v
      {
        OwnerIs(bs, k, j);
      }
    } else {
      SetAllWithinRun(bs, k, s, e, v, fuel);
    }
  }

  /** The outcome of a set operation that leaves [s, e) reading v and
      nothing else changed, and that throws, if at all, only on a null
      `next`. */
  predicate AssignsOrFails(bs: BitSet, r: Outcome<BitSet>, s: int, e: int, v: bool) {
    && AssignedOn(bs, After(r), s, e, v)
    && (r.Threw? ==> r.error == NullPointer)
  }
}
