/** What each splice does to the bits: under the representation invariant,
    the three splitting splices and the sound branches of `flipSegment` invert
    exactly the requested range and keep the chain valid. */
module SpliceLemmas {
  import opened Outcomes
  import opened Chain
  import opened Splice

  /** `flipLeft` on run [a, b) with a < e < b inverts [a, e), keeps the
      invariant and returns the run now holding [a, e). */
  lemma FlipLeftCorrect(bs: BitSet, k: nat, e: int)
    requires Valid(bs) && k < |bs.runs|
    requires bs.runs[k].start < e < EndsAt(bs, k)
    ensures FlippedOn(bs, FlipLeft(bs, k, e).bs, bs.runs[k].start, e)
    ensures Covers(FlipLeft(bs, k, e).bs, FlipLeft(bs, k, e).at, bs.runs[k].start, e)
  {
    if k == 0 {
      FlipLeftHead(bs, e);
    } else {
      FlipLeftInner(bs, k, e);
    }
  }

  lemma FlipLeftHead(bs: BitSet, e: int)
    requires Valid(bs)
    requires 0 < e < EndsAt(bs, 0)
    ensures FlippedOn(bs, FlipLeft(bs, 0, e).bs, 0, e)
    ensures Covers(FlipLeft(bs, 0, e).bs, 0, 0, e)
  {
    var r := FlipLeft(bs, 0, e).bs;
    FlipLeftHeadValid(bs, e);
    forall i | 0 <= i < bs.capacity
      ensures Bit(r, i) == (if 0 <= i < e then !Bit(bs, i) else Bit(bs, i))
    {
      var o := Owner(bs.runs, i);
      OwnerContains(bs, i);
      if o == 0 && i < e {
        OwnerIs(r, 0, i);
      } else if o == 0 {
        OwnerIs(r, 1, i);
      } else {
        OwnerIs(r, o + 1, i);
      }
    }
  }

  lemma FlipLeftHeadValid(bs: BitSet, e: int)
    requires Valid(bs)
    requires 0 < e < EndsAt(bs, 0)
    ensures Valid(FlipLeft(bs, 0, e).bs)
    ensures forall j :: 1 <= j < |bs.runs| ==> FlipLeft(bs, 0, e).bs.runs[j + 1] == bs.runs[j]
  {
    var r := FlipLeft(bs, 0, e).bs.runs;
    var v := bs.runs[0].enabled;
    assert r == [Run(0, !v), Run(e, v)] + bs.runs[1..];
    assert forall j :: 2 <= j < |r| ==> r[j] == bs.runs[j - 1];
    assert Increasing(r) by {
      forall j, l | 0 <= j < l < |r|
        ensures r[j].start < r[l].start
      {
        if l >= 2 {
          assert r[l] == bs.runs[l - 1];
          if j >= 2 {
            assert r[j] == bs.runs[j - 1];
          }
        }
      }
    }
    assert Alternating(r) by {
      forall j | 0 < j < |r|
        ensures r[j - 1].enabled != r[j].enabled
      {
        if j >= 2 {
          assert r[j] == bs.runs[j - 1];
          if j >= 3 {
            assert r[j - 1] == bs.runs[j - 2];
          }
        }
      }
    }
  }

  lemma FlipLeftInner(bs: BitSet, k: nat, e: int)
    requires Valid(bs) && 0 < k < |bs.runs|
    requires bs.runs[k].start < e < EndsAt(bs, k)
    ensures FlippedOn(bs, FlipLeft(bs, k, e).bs, bs.runs[k].start, e)
    ensures Covers(FlipLeft(bs, k, e).bs, k - 1, bs.runs[k].start, e)
  {
    var r := FlipLeft(bs, k, e).bs;
    var a := bs.runs[k].start;
    assert r.runs == bs.runs[k := Run(e, bs.runs[k].enabled)];
    assert Increasing(r.runs);
    assert Valid(r);
    forall i | 0 <= i < bs.capacity
      ensures Bit(r, i) == (if a <= i < e then !Bit(bs, i) else Bit(bs, i))
    {
      MovedStartBit(bs, r, k, e, i);
    }
  }

  /** `flipRight` on run [a, b) with a < s < b inverts [s, b), keeps the
      invariant and returns the run now starting at s. */
  lemma FlipRightCorrect(bs: BitSet, k: nat, s: int)
    requires Valid(bs) && k < |bs.runs|
    requires bs.runs[k].start < s < EndsAt(bs, k)
    ensures FlippedOn(bs, FlipRight(bs, k, s).bs, s, EndsAt(bs, k))
    ensures Covers(FlipRight(bs, k, s).bs, k + 1, s, EndsAt(bs, k))
  {
    if k + 1 == |bs.runs| {
      FlipRightTail(bs, s);
    } else {
      FlipRightInner(bs, k, s);
    }
  }

  lemma FlipRightTail(bs: BitSet, s: int)
    requires Valid(bs)
    requires bs.runs[|bs.runs| - 1].start < s < bs.capacity
    ensures FlippedOn(bs, FlipRight(bs, |bs.runs| - 1, s).bs, s, bs.capacity)
    ensures Covers(FlipRight(bs, |bs.runs| - 1, s).bs, |bs.runs|, s, bs.capacity)
  {
    var k := |bs.runs| - 1;
    var r := FlipRight(bs, k, s).bs;
    assert r.runs == bs.runs + [Run(s, !bs.runs[k].enabled)];
    assert Valid(r);
    forall i | 0 <= i < bs.capacity
      ensures Bit(r, i) == (if s <= i < bs.capacity then !Bit(bs, i) else Bit(bs, i))
    {
      AppendedBit(bs, r, s, i);
    }
  }

  lemma AppendedBit(bs: BitSet, r: BitSet, s: int, i: int)
    requires Valid(bs) && Valid(r) && r.capacity == bs.capacity
    requires r.runs == bs.runs + [Run(s, !bs.runs[|bs.runs| - 1].enabled)]
    requires 0 <= i < bs.capacity
    ensures Bit(r, i) == (if s <= i < bs.capacity then !Bit(bs, i) else Bit(bs, i))
  {
    var k := |bs.runs| - 1;
    var o := Owner(bs.runs, i);
    OwnerContains(bs, i);
    if o == k && s <= i {
      OwnerIs(r, k + 1, i);
    } else {
      assert r.runs[o] == bs.runs[o];
      OwnerIs(r, o, i);
    }
  }

  lemma FlipRightInner(bs: BitSet, k: nat, s: int)
    requires Valid(bs) && k + 1 < |bs.runs|
    requires bs.runs[k].start < s < bs.runs[k + 1].start
    ensures FlippedOn(bs, FlipRight(bs, k, s).bs, s, EndsAt(bs, k))
    ensures Covers(FlipRight(bs, k, s).bs, k + 1, s, EndsAt(bs, k))
  {
    var r := FlipRight(bs, k, s).bs;
    var b := EndsAt(bs, k);
    assert r.runs == bs.runs[k + 1 := Run(s, bs.runs[k + 1].enabled)];
    assert Valid(r);
    forall i | 0 <= i < bs.capacity
      ensures Bit(r, i) == (if s <= i < b then !Bit(bs, i) else Bit(bs, i))
    {
      MovedStartBit(bs, r, k + 1, s, i);
    }
  }

  /** Moving the start of run m to s, strictly between the neighbouring
      starts, hands [s, old start) to run m when it moves left and
      [old start, s) to run m - 1 when it moves right. */
  lemma MovedStartBit(bs: BitSet, r: BitSet, m: nat, s: int, i: int)
    requires Valid(bs) && Valid(r) && r.capacity == bs.capacity
    requires 0 < m < |bs.runs|
    requires r.runs == bs.runs[m := Run(s, bs.runs[m].enabled)]
    requires 0 <= i < bs.capacity
    ensures Bit(r, i) == (if s <= i < bs.runs[m].start || bs.runs[m].start <= i < s then !Bit(bs, i) else Bit(bs, i))
  {
    var o := Owner(bs.runs, i);
    var a := bs.runs[m].start;
    OwnerContains(bs, i);
    assert r.runs[m].start == s;
    assert r.runs[m - 1] == bs.runs[m - 1] && r.runs[m - 1].start < s;
    if m + 1 < |bs.runs| {
      assert r.runs[m + 1] == bs.runs[m + 1] && s < r.runs[m + 1].start;
    }
    if s <= i < a {
      assert o == m - 1;
      OwnerIs(r, m, i);
    } else if a <= i < s {
      assert o == m;
      OwnerIs(r, m - 1, i);
    } else if o == m {
      OwnerIs(r, m, i);
    } else if o == m - 1 {
      OwnerIs(r, m - 1, i);
    } else {
      assert r.runs[o] == bs.runs[o];
      OwnerIs(r, o, i);
    }
  }

  /** `flipMiddle` on run [a, b) with a < s < e < b inverts [s, e), keeps the
      invariant and returns the new middle run [s, e). */
  lemma FlipMiddleCorrect(bs: BitSet, k: nat, s: int, e: int)
    requires Valid(bs) && k < |bs.runs|
    requires bs.runs[k].start < s < e < EndsAt(bs, k)
    ensures FlippedOn(bs, FlipMiddle(bs, k, s, e).bs, s, e)
    ensures Covers(FlipMiddle(bs, k, s, e).bs, k + 1, s, e)
  {
    FlipMiddleValid(bs, k, s, e);
    InsertedTwoBits(bs, FlipMiddle(bs, k, s, e).bs, k);
  }

  lemma InsertedTwoBits(bs: BitSet, r: BitSet, k: nat)
    requires Valid(bs) && Valid(r) && k < |bs.runs|
    requires r.capacity == bs.capacity && |r.runs| == |bs.runs| + 2
    requires forall j :: 0 <= j <= k ==> r.runs[j] == bs.runs[j]
    requires forall j :: k < j < |bs.runs| ==> r.runs[j + 2] == bs.runs[j]
    requires r.runs[k + 1].enabled != bs.runs[k].enabled
    ensures FlippedOn(bs, r, r.runs[k + 1].start, r.runs[k + 2].start)
  {
    forall i | 0 <= i < bs.capacity
      ensures Bit(r, i) == (if r.runs[k + 1].start <= i < r.runs[k + 2].start then !Bit(bs, i) else Bit(bs, i))
    {
      InsertedTwoBit(bs, r, k, i);
    }
  }

  lemma InsertedTwoBit(bs: BitSet, r: BitSet, k: nat, i: int)
    requires Valid(bs) && Valid(r) && k < |bs.runs|
    requires r.capacity == bs.capacity && |r.runs| == |bs.runs| + 2
    requires forall j :: 0 <= j <= k ==> r.runs[j] == bs.runs[j]
    requires forall j :: k < j < |bs.runs| ==> r.runs[j + 2] == bs.runs[j]
    requires r.runs[k + 1].enabled != bs.runs[k].enabled
    requires 0 <= i < bs.capacity
    ensures Bit(r, i) == (if r.runs[k + 1].start <= i < r.runs[k + 2].start then !Bit(bs, i) else Bit(bs, i))
  {
    var s := r.runs[k + 1].start;
    var e := r.runs[k + 2].start;
    var o := Owner(bs.runs, i);
    OwnerContains(bs, i);
    if o < k || (o == k && i < s) {
      OwnerIs(r, o, i);
    } else if o == k && i < e {
      OwnerIs(r, k + 1, i);
    } else if o == k {
      OwnerIs(r, k + 2, i);
    } else {
      assert r.runs[o + 2] == bs.runs[o];
      OwnerIs(r, o + 2, i);
    }
  }

  lemma FlipMiddleValid(bs: BitSet, k: nat, s: int, e: int)
    requires Valid(bs) && k < |bs.runs|
    requires bs.runs[k].start < s < e < EndsAt(bs, k)
    ensures Valid(FlipMiddle(bs, k, s, e).bs)
  {
    InsertedTwoValid(bs.runs, FlipMiddle(bs, k, s, e).bs.runs, k);
  }

  /** A chain with two runs inserted after position k, described only by
      where its runs come from, keeps both halves of the invariant. */
  lemma InsertedTwoValid(runs: seq<Run>, r: seq<Run>, k: nat)
    requires Increasing(runs) && Alternating(runs) && k < |runs|
    requires |r| == |runs| + 2
    requires forall j :: 0 <= j <= k ==> r[j] == runs[j]
    requires forall j :: k < j < |runs| ==> r[j + 2] == runs[j]
    requires runs[k].start < r[k + 1].start < r[k + 2].start
    requires k + 1 < |runs| ==> r[k + 2].start < runs[k + 1].start
    requires r[k + 1].enabled != runs[k].enabled && r[k + 2].enabled == runs[k].enabled
    ensures Increasing(r) && Alternating(r)
  {
    assert Increasing(r) by {
      forall j, l | 0 <= j < l < |r|
        ensures r[j].start < r[l].start
      {
        if l >= k + 3 {
          assert r[l] == runs[l - 2];
          if j >= k + 3 {
            assert r[j] == runs[j - 2];
          } else if j <= k {
            assert r[j] == runs[j];
          } else {
            assert runs[k + 1].start <= runs[l - 2].start;
          }
        } else if j <= k {
          assert r[j] == runs[j];
          if l <= k {
            assert r[l] == runs[l];
          }
        }
      }
    }
    assert Alternating(r) by {
      forall j | 0 < j < |r|
        ensures r[j - 1].enabled != r[j].enabled
      {
        if j >= k + 4 {
          assert r[j] == runs[j - 2] && r[j - 1] == runs[j - 3];
        } else if j == k + 3 {
          assert r[j] == runs[k + 1];
        } else if j <= k {
          assert r[j] == runs[j] && r[j - 1] == runs[j - 1];
        }
      }
    }
  }

  /** The sound branches of `flipSegment` on run [a, b): the isolated run
      toggles, the last run is absorbed by its predecessor, and a run whose
      successor is not last is absorbed together with that successor. Each
      inverts exactly [a, b) and returns a run covering it. */
  lemma FlipSegmentCorrect(bs: BitSet, k: nat)
    requires Valid(bs) && k < |bs.runs|
    requires |bs.runs| == 1 || k == |bs.runs| - 1 || (0 < k && k + 2 < |bs.runs|)
    ensures FlipSegment(bs, k).Done?
    ensures FlippedOn(bs, FlipSegment(bs, k).value.bs, bs.runs[k].start, EndsAt(bs, k))
    ensures Covers(FlipSegment(bs, k).value.bs, FlipSegment(bs, k).value.at, bs.runs[k].start, EndsAt(bs, k))
  {
    var n := |bs.runs|;
    if n == 1 {
      var r := FlipSegment(bs, k).value.bs;
      forall i | 0 <= i < bs.capacity
        ensures Bit(r, i) == !Bit(bs, i)
      {
        OwnerIs(r, 0, i);
        OwnerIs(bs, 0, i);
      }
    } else if k == n - 1 {
      FlipSegmentTail(bs);
    } else {
      FlipSegmentInner(bs, k);
    }
  }

  lemma FlipSegmentTail(bs: BitSet)
    requires Valid(bs) && |bs.runs| > 1
    ensures FlipSegment(bs, |bs.runs| - 1).Done?
    ensures FlippedOn(bs, FlipSegment(bs, |bs.runs| - 1).value.bs, bs.runs[|bs.runs| - 1].start, bs.capacity)
    ensures Covers(FlipSegment(bs, |bs.runs| - 1).value.bs, |bs.runs| - 2, bs.runs[|bs.runs| - 1].start, bs.capacity)
  {
    var k := |bs.runs| - 1;
    var r := FlipSegment(bs, k).value.bs;
    var a := bs.runs[k].start;
    assert r.runs == bs.runs[..k];
    assert Valid(r);
    forall i | 0 <= i < bs.capacity
      ensures Bit(r, i) == (if a <= i < bs.capacity then !Bit(bs, i) else Bit(bs, i))
    {
      var o := Owner(bs.runs, i);
      OwnerContains(bs, i);
      if o == k {
        OwnerIs(r, k - 1, i);
      } else {
        OwnerIs(r, o, i);
      }
    }
  }

  lemma FlipSegmentInner(bs: BitSet, k: nat)
    requires Valid(bs) && 0 < k && k + 2 < |bs.runs|
    ensures FlipSegment(bs, k).Done?
    ensures FlippedOn(bs, FlipSegment(bs, k).value.bs, bs.runs[k].start, EndsAt(bs, k))
    ensures Covers(FlipSegment(bs, k).value.bs, k - 1, bs.runs[k].start, EndsAt(bs, k))
  {
    var r := FlipSegment(bs, k).value.bs;
    FlipSegmentInnerValid(bs, k);
    forall i | 0 <= i < bs.capacity
      ensures Bit(r, i) == (if bs.runs[k].start <= i < EndsAt(bs, k) then !Bit(bs, i) else Bit(bs, i))
    {
      RemovedTwoBit(bs, r, k, i);
    }
  }

  lemma RemovedTwoBit(bs: BitSet, r: BitSet, k: nat, i: int)
    requires Valid(bs) && Valid(r) && 0 < k && k + 2 < |bs.runs|
    requires r.capacity == bs.capacity && |r.runs| == |bs.runs| - 2
    requires forall j :: 0 <= j < k ==> r.runs[j] == bs.runs[j]
    requires forall j :: k <= j < |bs.runs| - 2 ==> r.runs[j] == bs.runs[j + 2]
    requires 0 <= i < bs.capacity
    ensures Bit(r, i) == (if bs.runs[k].start <= i < EndsAt(bs, k) then !Bit(bs, i) else Bit(bs, i))
  {
    var o := Owner(bs.runs, i);
    OwnerContains(bs, i);
    if o < k {
      RemovedTwoBefore(bs, r, k, o, i);
    } else if o <= k + 1 {
      OwnerIs(r, k - 1, i);
    } else {
      RemovedTwoAfter(bs, r, k, o, i);
    }
  }

  lemma RemovedTwoBefore(bs: BitSet, r: BitSet, k: nat, o: nat, i: int)
    requires Increasing(r.runs) && 0 < k && k + 2 < |bs.runs| && |r.runs| == |bs.runs| - 2
    requires forall j :: 0 <= j < k ==> r.runs[j] == bs.runs[j]
    requires r.runs[k] == bs.runs[k + 2]
    requires o < k && bs.runs[o].start <= i < bs.runs[o + 1].start
    requires bs.runs[o + 1].start <= bs.runs[k + 2].start
    ensures r.runs[0].start <= i && Bit(r, i) == bs.runs[o].enabled
  {
    assert r.runs[o] == bs.runs[o];
    if o + 1 < k {
      assert r.runs[o + 1] == bs.runs[o + 1];
    }
    OwnerIs(r, o, i);
  }

  lemma RemovedTwoAfter(bs: BitSet, r: BitSet, k: nat, o: nat, i: int)
    requires Increasing(r.runs) && 0 < k && k + 2 <= o < |bs.runs| && |r.runs| == |bs.runs| - 2
    requires forall j :: k <= j < |bs.runs| - 2 ==> r.runs[j] == bs.runs[j + 2]
    requires bs.runs[o].start <= i
    requires o + 1 < |bs.runs| ==> i < bs.runs[o + 1].start
    ensures r.runs[0].start <= i && Bit(r, i) == bs.runs[o].enabled
  {
    assert r.runs[o - 2] == bs.runs[o];
    if o + 1 < |bs.runs| {
      assert r.runs[o - 1] == bs.runs[o + 1];
    }
    OwnerIs(r, o - 2, i);
  }

  lemma FlipSegmentInnerValid(bs: BitSet, k: nat)
    requires Valid(bs) && 0 < k && k + 2 < |bs.runs|
    ensures FlipSegment(bs, k).Done?
    ensures Valid(FlipSegment(bs, k).value.bs)
    ensures forall j :: 0 <= j < k ==> FlipSegment(bs, k).value.bs.runs[j] == bs.runs[j]
    ensures forall j :: k <= j < |bs.runs| - 2 ==> FlipSegment(bs, k).value.bs.runs[j] == bs.runs[j + 2]
  {
    var r := FlipSegment(bs, k).value.bs.runs;
    assert r == bs.runs[..k] + bs.runs[k + 2..];
    assert forall j :: 0 <= j < k ==> r[j] == bs.runs[j];
    assert forall j :: k <= j < |r| ==> r[j] == bs.runs[j + 2];
    assert Increasing(r) by {
      forall j, l | 0 <= j < l < |r|
        ensures r[j].start < r[l].start
      {
        if l >= k {
          assert r[l] == bs.runs[l + 2];
          if j >= k {
            assert r[j] == bs.runs[j + 2];
          } else {
            assert r[j] == bs.runs[j];
          }
        } else {
          assert r[j] == bs.runs[j] && r[l] == bs.runs[l];
        }
      }
    }
    assert Alternating(r) by {
      forall j | 0 < j < |r|
        ensures r[j - 1].enabled != r[j].enabled
      {
        if j > k {
          assert r[j] == bs.runs[j + 2] && r[j - 1] == bs.runs[j + 1];
        } else if j == k {
          assert r[j] == bs.runs[k + 2] && r[j - 1] == bs.runs[k - 1];
          assert bs.runs[k - 1].enabled != bs.runs[k].enabled;
          assert bs.runs[k + 1].enabled != bs.runs[k + 2].enabled;
        } else {
          assert r[j] == bs.runs[j] && r[j - 1] == bs.runs[j - 1];
        }
      }
    }
  }

  /** `flip(s, e)` on the run [a, b) holding s, with s < e <= b: in every case
      but the two defective `flipSegment` branches it inverts exactly [s, e),
      keeps the invariant and returns a run covering [s, e). */
  lemma FlipCorrect(bs: BitSet, k: nat, s: int, e: int)
    requires Valid(bs) && k < |bs.runs|
    requires bs.runs[k].start <= s < e <= EndsAt(bs, k)
    requires FlipSound(bs, k, s, e)
    ensures Flip(bs, k, s, e).Done?
    ensures FlippedOn(bs, Flip(bs, k, s, e).value.bs, s, e)
    ensures Covers(Flip(bs, k, s, e).value.bs, Flip(bs, k, s, e).value.at, s, e)
  {
    if s == bs.runs[k].start {
      if e < EndsAt(bs, k) {
        FlipLeftCorrect(bs, k, e);
      } else {
        FlipSegmentCorrect(bs, k);
      }
    } else if e < EndsAt(bs, k) {
      FlipMiddleCorrect(bs, k, s, e);
    } else {
      FlipRightCorrect(bs, k, s);
    }
  }

  /** The head branch of `flipSegment` promotes the second run to head without
      moving its start to 0, so the chain it leaves is never valid. */
  lemma FlipSegmentHeadLeavesGap(bs: BitSet)
    requires Valid(bs) && |bs.runs| > 1
    ensures FlipSegment(bs, 0).Done?
    ensures FlipSegment(bs, 0).value.bs.runs[0] == bs.runs[1]
    ensures FlipSegment(bs, 0).value.bs.runs[0].start > 0
    ensures !Valid(FlipSegment(bs, 0).value.bs)
  {
    assert bs.runs[0].start < bs.runs[1].start;
  }

  /** The two-neighbour branch of `flipSegment` dereferences `next.next`, which
      is null when `next` is the last run. It throws after `previous.next` has
      been set to that null, so the chain read forward from `first` ends at the
      predecessor, which now reaches the capacity. Because the last run held
      the predecessor's value, that chain is valid and already reads as the
      receiver's run inverted. */
  lemma FlipSegmentBeforeLastFails(bs: BitSet, k: nat)
    requires Valid(bs) && 0 < k && k + 2 == |bs.runs|
    ensures Flip(bs, k, bs.runs[k].start, EndsAt(bs, k)) == Threw(NullPointer, BitSet(bs.capacity, bs.runs[..k]))
    ensures FlippedOn(bs, BitSet(bs.capacity, bs.runs[..k]), bs.runs[k].start, EndsAt(bs, k))
  {
    var cut := BitSet(bs.capacity, bs.runs[..k]);
    assert Valid(cut);
    forall i | 0 <= i < bs.capacity
      ensures Bit(cut, i) == (if bs.runs[k].start <= i < EndsAt(bs, k) then !Bit(bs, i) else Bit(bs, i))
    {
      var o := Owner(bs.runs, i);
      OwnerContains(bs, i);
      if o < k {
        OwnerIs(cut, o, i);
      } else {
        OwnerIs(cut, k - 1, i);
        assert bs.runs[k - 1].enabled != bs.runs[k].enabled;
        assert bs.runs[k].enabled != bs.runs[k + 1].enabled;
      }
    }
  }
}
