/** `writeExternal`/`readExternal`. The byte stream is abstracted to its
    records: the capacity, the first run's value, and the run starts that
    follow it, each announced by a `true` marker and closed by `false`. */
module Codec {
  import opened Outcomes
  import opened Chain
  import opened Splice

  /** The records of one serialized bit set. */
  datatype Encoded = Encoded(capacity: int, initial: bool, boundaries: seq<int>)

  /** The `writeExternal` loop from seg = run k. Its condition advances
      `seg = seg.next` and its body advances again, so it emits the start of
      every other run, and the condition dereferences null when the body
      stepped past the last run. */
  function EmitFrom(runs: seq<Run>, k: nat): (r: Result<seq<int>>)
    requires k < |runs|
    ensures r.Ok? <==> (|runs| - k) % 2 == 1
    ensures r.Err? ==> r.error == NullPointer
    ensures r.Ok? ==> |r.value| == (|runs| - 1 - k) / 2
    ensures r.Ok? ==> forall j :: 0 <= j < |r.value| ==> r.value[j] == runs[k + 2 * j + 1].start
    decreases |runs| - k
  {
    if k + 1 == |runs| then Ok([])
    else if k + 2 == |runs| then Err(NullPointer)
    else
      var rest :- EmitFrom(runs, k + 2);
      Ok([runs[k + 1].start] + rest)
  }

  /** `writeExternal`: the capacity, the head's value, then the boundaries. */
  function WriteExternal(bs: BitSet): (r: Result<Encoded>)
    requires WellFormed(bs)
    ensures r.Ok? <==> |bs.runs| % 2 == 1
    ensures r.Ok? ==> r.value.capacity == bs.capacity && r.value.initial == bs.runs[0].enabled
    ensures r.Ok? ==> |r.value.boundaries| == |bs.runs| / 2
    ensures r.Ok? ==> forall j :: 0 <= j < |r.value.boundaries| ==> r.value.boundaries[j] == bs.runs[2 * j + 1].start
  {
    var boundaries :- EmitFrom(bs.runs, 0);
    Ok(Encoded(bs.capacity, bs.runs[0].enabled, boundaries))
  }

  /** The `readExternal` loop: each boundary is appended by `flipRight` on the
      current tail, so it starts a run of the opposite value. */
  function AppendRuns(bs: BitSet, boundaries: seq<int>): (r: BitSet)
    requires WellFormed(bs)
    ensures r.capacity == bs.capacity
    ensures |r.runs| == |bs.runs| + |boundaries|
    ensures r.runs[..|bs.runs|] == bs.runs
    ensures forall j :: 0 <= j < |boundaries| ==>
              r.runs[|bs.runs| + j] ==
                Run(boundaries[j], if j % 2 == 0 then !bs.runs[|bs.runs| - 1].enabled else bs.runs[|bs.runs| - 1].enabled)
    decreases |boundaries|
  {
    if |boundaries| == 0 then bs
    else AppendRuns(FlipRight(bs, |bs.runs| - 1, boundaries[0]).bs, boundaries[1..])
  }

  /** `readExternal`: one run at 0 holding the initial value, then one run per
      boundary with alternating values. The stream is not validated. */
  function ReadExternal(enc: Encoded): (bs: BitSet)
    ensures bs.capacity == enc.capacity
    ensures |bs.runs| == |enc.boundaries| + 1
    ensures bs.runs[0] == Run(0, enc.initial)
    ensures forall j :: 1 <= j < |bs.runs| ==>
              bs.runs[j] == Run(enc.boundaries[j - 1], if j % 2 == 1 then !enc.initial else enc.initial)
  {
    AppendRuns(BitSet(enc.capacity, [Run(0, enc.initial)]), enc.boundaries)
  }

  /** A positive capacity and boundaries strictly increasing inside
      (0, capacity). */
  predicate WellOrdered(enc: Encoded) {
    && enc.capacity > 0
    && (forall j :: 0 <= j < |enc.boundaries| ==> 0 < enc.boundaries[j] < enc.capacity)
    && (forall j, l :: 0 <= j < l < |enc.boundaries| ==> enc.boundaries[j] < enc.boundaries[l])
  }

  /** Decoding builds a valid chain exactly when the records are well
      ordered. */
  lemma ReadExternalValid(enc: Encoded)
    ensures Valid(ReadExternal(enc)) <==> WellOrdered(enc)
  {
    var bs := ReadExternal(enc);
    if WellOrdered(enc) {
      DecodedShapeValid(enc, bs);
    }
    if Valid(bs) {
      ValidShapeOrdered(enc, bs);
    }
  }

  /** The shape `readExternal` produces, stated on its own. */
  predicate DecodedShape(enc: Encoded, bs: BitSet) {
    && bs.capacity == enc.capacity
    && |bs.runs| == |enc.boundaries| + 1
    && bs.runs[0] == Run(0, enc.initial)
    && forall j :: 1 <= j < |bs.runs| ==>
         bs.runs[j] == Run(enc.boundaries[j - 1], if j % 2 == 1 then !enc.initial else enc.initial)
  }

  lemma DecodedShapeValid(enc: Encoded, bs: BitSet)
    requires DecodedShape(enc, bs) && WellOrdered(enc)
    ensures Valid(bs)
  {
    var b := enc.boundaries;
    assert Increasing(bs.runs) by {
      forall j, l | 0 <= j < l < |bs.runs|
        ensures bs.runs[j].start < bs.runs[l].start
      {
        assert bs.runs[l].start == b[l - 1];
        if j > 0 {
          assert bs.runs[j].start == b[j - 1];
        }
      }
    }
    assert Alternating(bs.runs) by {
      forall j | 0 < j < |bs.runs|
        ensures bs.runs[j - 1].enabled != bs.runs[j].enabled
      {
        if j > 1 {
          assert bs.runs[j - 1] == Run(b[j - 2], if (j - 1) % 2 == 1 then !enc.initial else enc.initial);
        }
      }
    }
    if |b| > 0 {
      assert bs.runs[|bs.runs| - 1].start == b[|b| - 1];
    }
  }

  lemma ValidShapeOrdered(enc: Encoded, bs: BitSet)
    requires DecodedShape(enc, bs) && Valid(bs)
    ensures WellOrdered(enc)
  {
    var b := enc.boundaries;
    forall j | 0 <= j < |b|
      ensures 0 < b[j] < enc.capacity
    {
      assert bs.runs[j + 1].start == b[j];
      assert bs.runs[0].start < bs.runs[j + 1].start <= bs.runs[|bs.runs| - 1].start;
    }
    forall j, l | 0 <= j < l < |b|
      ensures b[j] < b[l]
    {
      assert bs.runs[j + 1].start == b[j] && bs.runs[l + 1].start == b[l];
    }
  }

  /** A chain of one run is written and read back unchanged. */
  lemma RoundTripSingleRun(bs: BitSet)
    requires Valid(bs) && |bs.runs| == 1
    ensures WriteExternal(bs).Ok?
    ensures ReadExternal(WriteExternal(bs).value) == bs
  {
    var r := ReadExternal(WriteExternal(bs).value);
    assert r.runs == bs.runs;
  }

  /** Reading back what was written keeps only every other boundary: a valid
      chain of n >= 3 runs (n odd) comes back as a valid chain of (n + 1) / 2
      runs, so it is never the original. */
  lemma RoundTripDropsRuns(bs: BitSet)
    requires Valid(bs) && |bs.runs| >= 3 && |bs.runs| % 2 == 1
    ensures WriteExternal(bs).Ok?
    ensures Valid(ReadExternal(WriteExternal(bs).value))
    ensures |ReadExternal(WriteExternal(bs).value).runs| == (|bs.runs| + 1) / 2
    ensures ReadExternal(WriteExternal(bs).value) != bs
  {
    var enc := WriteExternal(bs).value;
    var b := enc.boundaries;
    assert WellOrdered(enc) by {
      forall j | 0 <= j < |b|
        ensures 0 < b[j] < enc.capacity
      {
        assert b[j] == bs.runs[2 * j + 1].start;
        assert bs.runs[0].start < bs.runs[2 * j + 1].start <= bs.runs[|bs.runs| - 1].start;
      }
      forall j, l | 0 <= j < l < |b|
        ensures b[j] < b[l]
      {
        assert b[j] == bs.runs[2 * j + 1].start && b[l] == bs.runs[2 * l + 1].start;
      }
    }
    ReadExternalValid(enc);
  }

  /** A chain with an even number of runs cannot be written: the loop
      dereferences null after the last boundary. */
  lemma WriteExternalEvenFails(bs: BitSet)
    requires WellFormed(bs) && |bs.runs| % 2 == 0
    ensures WriteExternal(bs) == Err(NullPointer)
  {
  }
}
