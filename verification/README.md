# CompressedBitSet, modelled in Dafny

A model of `CompressedBitSet` from Bits4J: a fixed-capacity bit vector stored as
a doubly linked chain of runs (`Segment`s). Each run has an inclusive start and
a value, and it ends where the next run starts (or at the capacity).

The model replaces the linked chain by an immutable sequence of
`Run(start, enabled)`. Position 0 is `first` and the last position is `last`. A
`Segment` reference becomes a position, and the `this` of an inner-class call
becomes the position of the receiving run. A Java exception thrown by a query or
a constructor becomes an `Err` of a `Result`, for example `Err(NullPointer)` for
a null dereference. A call that writes to the chain returns a `Chain.Outcome`:
`Done(value)` when it returns, or `Threw(error, state)`, where `state` is the
chain as it stood when the exception escaped. Java does not undo the writes made
before a throw, so `setAll` can throw with its flip already in place.

The meaning of the chain is given by `Chain.Owner` and `Chain.Bit`: bit i is the
value of the last run whose start is at most i. `Chain.Valid` is the
representation invariant:
- the capacity is positive;
- the first run starts at 0;
- starts strictly increase and stay below the capacity;
- neighbouring runs alternate in value.

The model follows the code as written, including its defects. The correctness
lemmas hold on every input that avoids the defects. Their preconditions name the
inputs they exclude, and further lemmas show what happens on those inputs:
- `flipSegment`, head branch: the new head keeps its non-zero start, so the
  chain is no longer valid.
- `flipSegment`, two-neighbour branch: it dereferences `next.next`, which is
  null when `next` is the last run. By then it has already cut the chain after
  the receiver's predecessor.
- `flipAll` and `setAll` call `flip` on `this` instead of on the run the loop
  reached.
- `setAll` steps to `seg.next` even when there is none, after any flip it made.
  For example, `putBit(9)` on a fresh set of capacity 10 throws with bit 9
  already set.
- `hasAllBits` never reads a run's value.
- `writeExternal` advances twice per loop iteration. It fails on an even run
  count and writes every other boundary otherwise.

Modules, in dependency order:
- `Outcomes`: errors, `Option`, `Result` and `Check`.
- `Chain`: runs, the `Outcome` of a call that writes to the chain, the
  abstraction `Bit`, the invariant, and the relations
  `FlippedOn`/`AssignedOn` between two chains.
- `Splice`: `flipLeft`, `flipRight`, `flipSegment`, `flipMiddle`, `flip`.
- `SpliceLemmas`: what each splice does to the bits.
- `Drivers`: the `flipAll` and `setAll` loops.
- `Locator`: `getNextSegment` and `getSegment`.
- `Construction`: constructors, `checkIndex`, `checkRange`.
- `Queries`: `bitCount`, `hasBit`, `hasAllBits`, `hasAnyBits`, `nextBit`,
  `previousBit`.
- `Mutators`: the public set, put, remove and flip operations.
- `Codec`: `writeExternal`/`readExternal` over abstract records.
- `Scenarios`: concrete inputs.

Three behaviours of the code deserve a note:
- `hasAllBits` only compares the run holding s with the run holding e - 1. It
  never reads `enabled`, so it also answers true on a range of cleared bits; see
  `Queries.HasAllBitsCorrect`.
- `flipAllBits(0, 9)` on the runs [0, 2) clear, [2, 3) set, [3, 4) clear,
  [4, 5) set, [5, 10) clear does not invert [0, 9). The first `flip` unlinks the
  receiving run, and the next iteration calls `flip` on it again; see
  `Scenarios.PutFlipThenFlipAllDetaches`.
- `writeExternal` writes only the start of every other run after the first; see
  `Codec.RoundTripDropsRuns`.

## Model

All source cells refer to `src/main/java/fr/rowlaxx/util/bits4j/CompressedBitSet.java`.

| member | source | states |
|---|---|---|
| Chain.Owner | src/main/java/fr/rowlaxx/util/bits4j/CompressedBitSet.java:123-126 | the run owning index i is the last run starting at or before i: it starts at or before i and every later run starts after i |
| Chain.OwnerIs | src/main/java/fr/rowlaxx/util/bits4j/CompressedBitSet.java:123-126 | on increasing starts, the run with start <= i < endsAt() is the owner of i and gives bit i its value |
| Chain.OwnerContains | src/main/java/fr/rowlaxx/util/bits4j/CompressedBitSet.java:123-126 | on a valid chain every index below the capacity lies in [start, endsAt()) of its owner |
| Chain.RunWithin | src/main/java/fr/rowlaxx/util/bits4j/CompressedBitSet.java:123-130 | on a valid chain every run has positive length and ends at or before the capacity |
| Splice.FlipLeft | src/main/java/fr/rowlaxx/util/bits4j/CompressedBitSet.java:34-42 | the chain grows by one run exactly when the receiver was the head; the returned run is the predecessor and the receiver now starts at e with its old value |
| Splice.FlipRight | src/main/java/fr/rowlaxx/util/bits4j/CompressedBitSet.java:45-54 | the chain grows by one run exactly when the receiver was the tail; runs up to the receiver are untouched and the returned successor starts at s |
| Splice.FlipSegment | src/main/java/fr/rowlaxx/util/bits4j/CompressedBitSet.java:56-76 | throws a null dereference exactly when the receiver has a predecessor and its successor is the last run, and the chain it leaves is then cut after the predecessor; whenever the chain has more than one run and no exception escapes, the receiver ends up unlinked |
| Splice.FlipMiddle | src/main/java/fr/rowlaxx/util/bits4j/CompressedBitSet.java:79-90 | two runs [s, e) with the inverted value and [e, …) with the old value are inserted right after the receiver; every other run keeps its position or moves up by two |
| Splice.Flip | src/main/java/fr/rowlaxx/util/bits4j/CompressedBitSet.java:93-109 | throws exactly when the range is the whole receiving run, which has a predecessor and is not one of the branches `FlipSound` admits; every outcome keeps the capacity and a non-empty chain, and a returned run lies in the chain |
| SpliceLemmas.FlipLeftCorrect | src/main/java/fr/rowlaxx/util/bits4j/CompressedBitSet.java:34-42 | on a valid chain with start < e < end, the result is valid, inverts exactly [start, e) and the returned run covers [start, e) |
| SpliceLemmas.FlipRightCorrect | src/main/java/fr/rowlaxx/util/bits4j/CompressedBitSet.java:45-54 | on a valid chain with start < s < end, the result is valid, inverts exactly [s, end) and the returned run covers [s, end) |
| SpliceLemmas.FlipMiddleCorrect | src/main/java/fr/rowlaxx/util/bits4j/CompressedBitSet.java:79-90 | on a valid chain with start < s < e < end, the result is valid, inverts exactly [s, e) and the returned run covers [s, e) |
| SpliceLemmas.FlipSegmentCorrect | src/main/java/fr/rowlaxx/util/bits4j/CompressedBitSet.java:56-76 | in the isolated, tail and safe two-neighbour branches the result is valid, inverts exactly the receiver's run and the returned run covers it |
| SpliceLemmas.FlipSegmentHeadLeavesGap | src/main/java/fr/rowlaxx/util/bits4j/CompressedBitSet.java:66-70 | the head branch promotes the second run with its start above 0, so the chain it leaves is never valid |
| SpliceLemmas.FlipSegmentBeforeLastFails | src/main/java/fr/rowlaxx/util/bits4j/CompressedBitSet.java:71-75 | flipping a whole run that has a predecessor and whose successor is the last run throws a null dereference after cutting the chain after the predecessor; that cut chain is valid and already reads as the flipped run inverted |
| SpliceLemmas.FlipCorrect | src/main/java/fr/rowlaxx/util/bits4j/CompressedBitSet.java:93-109 | for [s, e) inside the receiver's run, outside the two defective `flipSegment` branches, `flip` succeeds, keeps the chain valid, inverts exactly [s, e) and returns a run covering [s, e) |
| Drivers.FlipAllFrom | src/main/java/fr/rowlaxx/util/bits4j/CompressedBitSet.java:112-121 | one loop step from the run reached: a detached receiver stops the model; otherwise the outcome, returned or thrown, is a non-empty chain of the same capacity and the only exceptions are a null dereference, a detached receiver and running out of fuel |
| Drivers.FlipAll | src/main/java/fr/rowlaxx/util/bits4j/CompressedBitSet.java:112-121 | `flipAll` on run k: whatever the outcome, the chain left behind is non-empty and keeps the capacity, and the only exceptions are a null dereference, a detached receiver and running out of fuel |
| Drivers.FlipAllWithinRun | src/main/java/fr/rowlaxx/util/bits4j/CompressedBitSet.java:112-121 | for [s, e) inside the receiver's run that avoids the defective `flipSegment` branches, the loop runs once: the result is that one `flip`, and it inverts exactly [s, e) |
| Drivers.SetAllFrom | src/main/java/fr/rowlaxx/util/bits4j/CompressedBitSet.java:133-143 | one loop step from the run reached: when that run already holds v and is the last, the call throws a null dereference with the chain unchanged; every outcome leaves a non-empty chain of the same capacity |
| Drivers.SetAll | src/main/java/fr/rowlaxx/util/bits4j/CompressedBitSet.java:133-143 | `setAll` on run k: whatever the outcome, the chain left behind is non-empty and keeps the capacity, and the only exceptions are a null dereference, a detached receiver and running out of fuel |
| Drivers.SetAllAlreadyHeld | src/main/java/fr/rowlaxx/util/bits4j/CompressedBitSet.java:133-143 | for [s, e) inside a run already holding v, no run changes, and the call throws, leaving the chain as it was, exactly when that run is the last |
| Drivers.SetAllWithinRun | src/main/java/fr/rowlaxx/util/bits4j/CompressedBitSet.java:133-143 | for [s, e) inside a run holding !v whose flip avoids the defective `flipSegment` branches, exactly one `flip(s, e)` is applied; afterwards [s, e) reads v and nothing else changes, and the call throws, with that flip in place, exactly when the run `flip` returned is the last |
| Drivers.SetAllInsideRun | src/main/java/fr/rowlaxx/util/bits4j/CompressedBitSet.java:133-143 | for [s, e) inside the receiving run, whenever that run already holds v or its flip avoids the defective `flipSegment` branches, the chain left behind reads v on [s, e) and is otherwise unchanged, whether `setAll` returns or throws a null dereference |
| Locator.GetNextSegment | src/main/java/fr/rowlaxx/util/bits4j/CompressedBitSet.java:146-151 | a result lies at or after the start run, contains i, and every run skipped ends at or before i; on increasing starts with the start run at or before i < capacity, the walk reaches the owner of i |
| Locator.ScanBackward | src/main/java/fr/rowlaxx/util/bits4j/CompressedBitSet.java:178-183 | a result starts at or before i and every run skipped starts after i; on increasing starts it reaches the owner of i, or throws a null dereference when i lies before the head's start |
| Locator.GetSegment | src/main/java/fr/rowlaxx/util/bits4j/CompressedBitSet.java:171-184 | on a valid chain and an index below the capacity, the run found is the owner of the index |
| Locator.WalksAgree | src/main/java/fr/rowlaxx/util/bits4j/CompressedBitSet.java:171-184 | on a valid chain the forward walk from the head and the backward walk from the tail find the same run, so the `2*index` test only decides the cost |
| Construction.New | src/main/java/fr/rowlaxx/util/bits4j/CompressedBitSet.java:162-168 | refuses exactly the capacities <= 0; otherwise the chain is valid, has one run, and every bit is cleared |
| Construction.NewDefault | src/main/java/fr/rowlaxx/util/bits4j/CompressedBitSet.java:158-160 | a valid set of `Long.MAX_VALUE` bits, all cleared |
| Construction.CheckIndex | src/main/java/fr/rowlaxx/util/bits4j/CompressedBitSet.java:186-189 | passes exactly when 0 <= i < capacity, and otherwise fails with an index error |
| Construction.CheckRange | src/main/java/fr/rowlaxx/util/bits4j/CompressedBitSet.java:191-198 | passes exactly when 0 <= s < e < capacity, so a range may not end at the capacity, and otherwise fails with an index error |
| Queries.BitCount | src/main/java/fr/rowlaxx/util/bits4j/CompressedBitSet.java:200-210 | returns the summed length of the enabled runs, which on a valid chain is the number of set bits below the capacity |
| Queries.EnabledLengthIsPopulation | src/main/java/fr/rowlaxx/util/bits4j/CompressedBitSet.java:200-210 | on a valid chain, the run sum over the first k runs equals the bit-by-bit count below the start of run k |
| Queries.HasBit | src/main/java/fr/rowlaxx/util/bits4j/CompressedBitSet.java:212-216 | refuses an index outside [0, capacity); on a valid chain returns bit i |
| Queries.HasAllBits | src/main/java/fr/rowlaxx/util/bits4j/CompressedBitSet.java:218-224 | refuses a range that fails `checkRange` |
| Queries.HasAllBitsCorrect | src/main/java/fr/rowlaxx/util/bits4j/CompressedBitSet.java:218-224 | on a valid chain, true exactly when every bit of [s, e) equals bit s, whatever that value is |
| Queries.HasAnyBits | src/main/java/fr/rowlaxx/util/bits4j/CompressedBitSet.java:226-234 | refuses a range that fails `checkRange` |
| Queries.HasAnyBitsCorrect | src/main/java/fr/rowlaxx/util/bits4j/CompressedBitSet.java:226-234 | on a valid chain, true exactly when some bit of [s, e) is set |
| Queries.NextBit | src/main/java/fr/rowlaxx/util/bits4j/CompressedBitSet.java:236-243 | refuses an index outside [0, capacity) |
| Queries.NextBitCorrect | src/main/java/fr/rowlaxx/util/bits4j/CompressedBitSet.java:236-243 | on a valid chain, returns the smallest index at or after `from` whose bit is v, or -1 exactly when there is none below the capacity |
| Queries.PreviousBit | src/main/java/fr/rowlaxx/util/bits4j/CompressedBitSet.java:245-252 | refuses an index outside [0, capacity) |
| Queries.PreviousBitCorrect | src/main/java/fr/rowlaxx/util/bits4j/CompressedBitSet.java:245-252 | on a valid chain, returns the largest index at or before `from` whose bit is v, or -1 exactly when there is none from 0 |
| Mutators.SetBit | src/main/java/fr/rowlaxx/util/bits4j/CompressedBitSet.java:254-258 | refuses an index outside [0, capacity) and leaves the chain untouched; every outcome leaves a non-empty chain of the same capacity |
| Mutators.SetBitCorrect | src/main/java/fr/rowlaxx/util/bits4j/CompressedBitSet.java:254-258 | on a valid chain, unless bit i must be flipped and is a run that the defective `flipSegment` branches splice, the chain left behind reads v at bit i and is otherwise unchanged, whether the call returns or throws a null dereference |
| Mutators.SetAllBits | src/main/java/fr/rowlaxx/util/bits4j/CompressedBitSet.java:260-264 | refuses a range that fails `checkRange` and leaves the chain untouched; every outcome leaves a non-empty chain of the same capacity |
| Mutators.SetAllBitsWithinRun | src/main/java/fr/rowlaxx/util/bits4j/CompressedBitSet.java:260-264 | for a range inside the run holding s, unless the range must be flipped and is a whole run that the defective `flipSegment` branches splice, the chain left behind reads v on [s, e) and is otherwise unchanged, whether the call returns or throws a null dereference |
| Mutators.PutBit | src/main/java/fr/rowlaxx/util/bits4j/CompressedBitSet.java:266-269 | refuses an index outside [0, capacity) and leaves the chain untouched |
| Mutators.RemoveBit | src/main/java/fr/rowlaxx/util/bits4j/CompressedBitSet.java:276-279 | refuses an index outside [0, capacity) and leaves the chain untouched |
| Mutators.PutBitCorrect | src/main/java/fr/rowlaxx/util/bits4j/CompressedBitSet.java:266-269 | unless bit i is clear and is a run that the defective `flipSegment` branches splice, `putBit` leaves bit i set and every other bit unchanged, whether it returns or throws a null dereference |
| Mutators.RemoveBitCorrect | src/main/java/fr/rowlaxx/util/bits4j/CompressedBitSet.java:276-279 | unless bit i is set and is a run that the defective `flipSegment` branches splice, `removeBit` leaves bit i clear and every other bit unchanged, whether it returns or throws a null dereference |
| Mutators.PutAllBits | src/main/java/fr/rowlaxx/util/bits4j/CompressedBitSet.java:271-274 | refuses a range that fails `checkRange` and leaves the chain untouched |
| Mutators.RemoveAllBits | src/main/java/fr/rowlaxx/util/bits4j/CompressedBitSet.java:281-284 | refuses a range that fails `checkRange` and leaves the chain untouched |
| Mutators.PutAllBitsWithinRun | src/main/java/fr/rowlaxx/util/bits4j/CompressedBitSet.java:271-274 | for a range inside the run holding s, unless that run is clear and the range is a whole run that the defective `flipSegment` branches splice, `putAllBits` leaves [s, e) set and every other bit unchanged, whether it returns or throws a null dereference |
| Mutators.RemoveAllBitsWithinRun | src/main/java/fr/rowlaxx/util/bits4j/CompressedBitSet.java:281-284 | for a range inside the run holding s, unless that run is set and the range is a whole run that the defective `flipSegment` branches splice, `removeAllBits` leaves [s, e) clear and every other bit unchanged, whether it returns or throws a null dereference |
| Mutators.FlipBit | src/main/java/fr/rowlaxx/util/bits4j/CompressedBitSet.java:286-290 | refuses an index outside [0, capacity) and leaves the chain untouched; every outcome leaves a non-empty chain of the same capacity |
| Mutators.FlipBitCorrect | src/main/java/fr/rowlaxx/util/bits4j/CompressedBitSet.java:286-290 | on a valid chain, outside the defective `flipSegment` branches, bit i alone is inverted and the chain stays valid |
| Mutators.FlipBitTwice | src/main/java/fr/rowlaxx/util/bits4j/CompressedBitSet.java:286-290 | on a valid chain where the first flip avoids the defective `flipSegment` branches, it returns; if the second flip avoids them too, it returns and every bit reads as before. The second flip often does not: flipping an interior bit of the last run twice throws (`Scenarios.FlipInteriorBitTwiceThrows`) |
| Mutators.FlipAllBits | src/main/java/fr/rowlaxx/util/bits4j/CompressedBitSet.java:292-296 | refuses a range that fails `checkRange` and leaves the chain untouched; every outcome leaves a non-empty chain of the same capacity |
| Mutators.FlipAllBitsWithinRun | src/main/java/fr/rowlaxx/util/bits4j/CompressedBitSet.java:292-296 | for a range inside the run holding s that avoids the defective `flipSegment` branches, exactly [s, e) is inverted |
| Codec.EmitFrom | src/main/java/fr/rowlaxx/util/bits4j/CompressedBitSet.java:305-310 | from run k the loop succeeds exactly when an odd number of runs remain, and it then emits the starts of runs k+1, k+3, …; otherwise it throws a null dereference |
| Codec.WriteExternal | src/main/java/fr/rowlaxx/util/bits4j/CompressedBitSet.java:298-311 | succeeds exactly on an odd run count, writing the capacity, the head's value and the starts of runs 1, 3, 5, … |
| Codec.AppendRuns | src/main/java/fr/rowlaxx/util/bits4j/CompressedBitSet.java:320-322 | each boundary read appends one run at the end of the chain, starting at that boundary; the runs already there are kept, and the appended runs alternate, the first taking the opposite of the value of the old tail |
| Codec.ReadExternal | src/main/java/fr/rowlaxx/util/bits4j/CompressedBitSet.java:313-323 | builds one run at 0 with the initial value, then one run per boundary with alternating values, keeping the capacity read |
| Codec.ReadExternalValid | src/main/java/fr/rowlaxx/util/bits4j/CompressedBitSet.java:313-323 | the chain read back is valid exactly when the capacity is positive and the boundaries strictly increase inside (0, capacity) |
| Codec.RoundTripSingleRun | src/main/java/fr/rowlaxx/util/bits4j/CompressedBitSet.java:298-323 | a valid single-run chain is written and read back unchanged |
| Codec.RoundTripDropsRuns | src/main/java/fr/rowlaxx/util/bits4j/CompressedBitSet.java:298-323 | a valid chain of an odd number n >= 3 of runs comes back valid but with (n + 1) / 2 runs, so never equal to the original |
| Codec.WriteExternalEvenFails | src/main/java/fr/rowlaxx/util/bits4j/CompressedBitSet.java:305-310 | a chain with an even run count cannot be written |
| Scenarios.PutFlipThenFlipAllDetaches | src/main/java/fr/rowlaxx/util/bits4j/CompressedBitSet.java:271-296 | on capacity 10, `putAllBits(2, 5)` then `flipBit(3)` leave bits 2 and 4 set with a run sum of 2; `flipAllBits(0, 9)` then acts on an unlinked receiver |
| Scenarios.FlipAllStopsAfterFirstRun | src/main/java/fr/rowlaxx/util/bits4j/CompressedBitSet.java:112-121 | with bits 5..9 set, `flipAllBits(2, 8)` inverts only [2, 5): the run `flip` returns reaches the capacity, so the guard ends the loop and bits 5..7 stay set |
| Scenarios.FlipInteriorBitTwiceThrows | src/main/java/fr/rowlaxx/util/bits4j/CompressedBitSet.java:71-75 | `flipBit(5)` on a fresh set of capacity 10 splits its run into [0, 5), [5, 6), [6, 10); `flipBit(5)` again takes the before-last branch of `flipSegment` and throws, leaving only the head run in the chain read from `first` |
| Scenarios.RemoveBitOnFreshSetFails | src/main/java/fr/rowlaxx/util/bits4j/CompressedBitSet.java:136-142 | clearing a bit of a fresh set throws, because `setAll` steps to a `next` that does not exist; the chain is left as it was |
| Scenarios.PutLastBitSetsThenThrows | src/main/java/fr/rowlaxx/util/bits4j/CompressedBitSet.java:45-48 | `putBit(9)` on a fresh set of capacity 10 appends the run [9, 10) holding true and then throws, so the exception escapes with bit 9 set |
| Scenarios.PutOnlyBitSetsThenThrows | src/main/java/fr/rowlaxx/util/bits4j/CompressedBitSet.java:57-59 | `putBit(0)` on a fresh set of capacity 1 toggles the only run to true and then throws on the missing `next` |
| Scenarios.HasAllBitsOfClearedRange | src/main/java/fr/rowlaxx/util/bits4j/CompressedBitSet.java:218-224 | `hasAllBits` answers true on a range whose bits are all cleared |
| Scenarios.HeadSpliceLosesBits | src/main/java/fr/rowlaxx/util/bits4j/CompressedBitSet.java:66-70 | after the head branch of `flipSegment` the run sum misses the bits that became set, and `hasBit` walks backward past the head |

## Left out

- `ImmutableBitSetView`, `BitSet` and `ImmutableBitSet`: interfaces and plain forwarding, with no logic of their own.
- Byte-level `ObjectInput`/`ObjectOutput` and the `Externalizable` plumbing. The stream is modelled as its records: capacity, initial value, boundaries. The records written before `writeExternal` throws are not modelled.
- Object identity and back pointers. They are abstracted to positions in the sequence. The missing `last` update in the two-neighbour branch of `flipSegment` has no effect on any input where that branch succeeds.
- Splice.FlipSegment: when the two-neighbour branch throws, the state it carries is the chain read forward from `first`, which ends at the predecessor. In Java, `last` and the `previous` links still reach the receiver and its successor, and `getSegment` would follow them; a single sequence cannot hold both views. The same applies to every `Threw` that passes this state on, for example from `Drivers.FlipAll` or `Mutators.FlipBit`.
- Calling `flip` on a receiver that an earlier splice has unlinked. The Java object keeps stale `previous`/`next` pointers and mutates its old neighbours. The model stops with `DetachedReceiver` instead.
- Non-termination of the `flipAll`/`setAll` loops. Each repetition consumes one unit of `fuel`, and running out gives `OutOfFuel`.
- 64-bit arithmetic. Integers are unbounded, so the overflow of `2*index` in `getSegment` is not modelled. Capacities are at most `Long.MAX_VALUE` in the source.
- The marker annotations `@Inclusive`, `@Exclusive` and `@Verified`, which carry no semantics.
- SpliceLemmas.FlipCorrect: excludes the head and second-to-last branches of `flipSegment`, which are characterised separately by `FlipSegmentHeadLeavesGap` and `FlipSegmentBeforeLastFails`.
- Drivers.FlipAllWithinRun: covers only ranges inside the receiver's run that avoid the head and before-last branches of `flipSegment`; on the whole head run of [0, 4) clear, [4, 10) set the loop leaves the invalid chain of `Scenarios.HeadSpliceLosesBits`. Longer ranges call `flip` on the receiver again or stop early; `Scenarios.PutFlipThenFlipAllDetaches` and `Scenarios.FlipAllStopsAfterFirstRun` exhibit both.
- Drivers.SetAllInsideRun: covers only ranges inside the receiver's run, for the same reason.
- Mutators.SetAllBitsWithinRun: covers only ranges inside the run holding s, because it rests on `Drivers.SetAllInsideRun`.
- Mutators.PutAllBitsWithinRun: covers only ranges inside the run holding s, because it rests on `Drivers.SetAllInsideRun`.
- Mutators.RemoveAllBitsWithinRun: covers only ranges inside the run holding s, because it rests on `Drivers.SetAllInsideRun`.
- Mutators.FlipAllBitsWithinRun: covers only ranges inside the run holding s that avoid the defective `flipSegment` branches, because it rests on `Drivers.FlipAllWithinRun`.
- Mutators.SetBit: its own contract states only the index check, that a refused call leaves the chain untouched, and that the capacity is kept; what it does to the bits is in `Mutators.SetBitCorrect`.
- Mutators.SetAllBits: its own contract states only the range check, that a refused call leaves the chain untouched, and that the capacity is kept; what it does to the bits is in `Mutators.SetAllBitsWithinRun`.
- Mutators.FlipBit: its own contract states only the index check, that a refused call leaves the chain untouched, and that the capacity is kept; what it does to the bits is in `Mutators.FlipBitCorrect`.
- Mutators.FlipAllBits: its own contract states only the range check, that a refused call leaves the chain untouched, and that the capacity is kept; what it does to the bits is in `Mutators.FlipAllBitsWithinRun`.
