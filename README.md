# Branch-prediction unit: a verified model

This project models the branch-prediction unit (BPU) of a branch target
buffer simulator. The simulator is fed every retiring instruction. For each
one it predicts a direction and a target, scores the predictions against
the resolved outcome, and updates the predictor for control-flow
instructions only. The predictor holds two structures:

- **A set-associative Branch Target Buffer (BTB).** It has `sets x ways`
  entries, each with a tag, a valid bit, a return marker `R` and a target.
  Each set also has a round-robin replacement cursor. The set index of an
  address is its low `log2(sets)` bits. The tag is the address shifted
  right by `48 + log2(sets) - tagSize`. An update is a three-tier insert:
  rewrite the target on a hit; otherwise fill the first invalid way;
  otherwise evict the way under the cursor and advance the cursor.
- **A bounded Return Address Stack (RAS).** It is a deque plus a separate
  length counter. A call pushes the fall-through address at the front, and
  drops the back entry first when the stack is full. A return pops the
  front only when the stack is not empty.

The direction "predictor" returns the actual direction, flipped for
control-flow instructions when a random draw lands in a band set by the
misprediction-rate knob.

Layout:

- `addressing.dfy` (module `Addressing`): 64-bit addresses, exact `log2`,
  set index, tag, and the wrapping fall-through address. `PC & (sets-1)`
  is written `pc % sets` and `PC >> s` is written `pc / 2^s`. For unsigned
  operands and a power-of-two set count these are the same values.
  `LineAndTagDecompose` proves that, with the default shift, the two are
  the low and high bits of the address.
- `return_stack.dfy` (module `ReturnStack`): the RAS as a sequence, front
  first, with its call and return steps.
- `target_buffer.dfy` (module `TargetBuffer`): one BTB set as a value, the
  three-tier `Upsert`, the lookup `SelectTarget`, the set invariant, and
  the lemmas about them.
- `direction.dfy` (module `Direction`): the direction decision and the
  threshold finding below.
- `predictor.dfy` (module `Predictor`): `class BPU`. The BTB is an
  `array2<Entry>`, the cursors are an `array<int>`, and the RAS is a
  `seq` plus `elementsOfStack`. A ghost `Sets` gives the abstract view that
  `Valid()` ties to the arrays. The knobs become an immutable `Config`.
- `scoring.dfy` (module `Scoring`): `class Simulator`, which holds the
  predictor and the six global counters, and `ProcessBranch`.

The source validates no configuration. These assumptions are stated as
`ConfigOk`, the precondition of the constructors:

- at least one way;
- `btbSize / associativity` is a power of two;
- at least one RAS entry (a full stack is popped at the back);
- the tag shift lies in 0..63 (a C++ shift by a negative amount or by 64
  or more is undefined).

`btbSize` need not be a multiple of the associativity: the code truncates
the division. Dafny's `/` rounds differently for negative operands, but the
two agree on the positive sizes that `ConfigOk` admits.

## Model

| member | source | states |
|---|---|---|
| `Addressing.Log2` | bpu.cpp:176 | exact log2 of a power of two: `Pow2(Log2(n)) == n` |
| `Addressing.SetIndex` | bpu.cpp:175 | the set index of an address is below the number of sets |
| `Addressing.Tag` | bpu.cpp:177 | the tag is the address with `shift` low bits dropped: `t * 2^shift <= pc < (t+1) * 2^shift` |
| `Addressing.LineAndTagDecompose` | bpu.cpp:175-177 | with the tag shift equal to log2(sets), `tag * sets + line == pc`: the set index holds the low bits and the tag the high bits of the address |
| `Addressing.FullTagsDoNotAlias` | bpu.cpp:217 | with the tag shift equal to log2(sets) (the default 48-bit tag), two addresses with the same set index and tag are equal |
| `Addressing.FallThrough` | bpu.cpp:330 | `PC + size` is the plain sum below 2^64 and wraps around past it |
| `ReturnStack.CallPush` | bpu.cpp:218-226 | a call puts the return address at the front, the length grows by one up to the capacity, and the rest is the old stack with its back entry dropped when it was full |
| `ReturnStack.ReturnPop` | bpu.cpp:228-231 | a return removes the front entry of a non-empty stack and leaves an empty one empty |
| `ReturnStack.RasStep` | bpu.cpp:218-231 | the RAS step of an update never exceeds the capacity |
| `ReturnStack.CallThenReturn` | bpu.cpp:218-231 | a call followed by a return restores the stack, except that a full stack has lost its oldest entry |
| `ReturnStack.PushAllKeepsMostRecent` | bpu.cpp:218-226 | after any run of calls the stack is the calls, most recent first, followed by the old contents, cut to the capacity: it holds the `rasSize` most recent return addresses |
| `TargetBuffer.EmptySet` | bpu.cpp:151-158 | a fresh set has every way at tag -1, invalid, `R` 0, target -1, and its cursor at 0 |
| `TargetBuffer.FirstHit` | bpu.cpp:233-238 | the scan finds the first valid way holding the tag: no earlier way matches, and the way found does, or there is none |
| `TargetBuffer.FirstInvalid` | bpu.cpp:239-246 | the scan finds the first invalid way: every earlier way is valid |
| `TargetBuffer.Upsert` | bpu.cpp:233-254 | the insert keeps the number of ways and leaves the cursor in range |
| `TargetBuffer.EmptySetInv` | bpu.cpp:151-158 | a fresh set satisfies the set invariant |
| `TargetBuffer.OnlyHit` | bpu.cpp:178-180 | under the invariant, a valid way holding a tag is the one the scan finds |
| `TargetBuffer.UpsertKeepsInv` | bpu.cpp:233-254 | every insert preserves the invariant: tags unique among valid ways, valid ways a prefix, `R` always 0, cursor in range, cursor 0 until the set is full |
| `TargetBuffer.UpsertThenSelect` | bpu.cpp:233-254 | round trip: after inserting `(tag, target)`, looking up the tag yields `target`, on a hit, a cold fill or an eviction alike |
| `TargetBuffer.UpsertIdempotent` | bpu.cpp:233-238 | repeating an identical insert leaves the set unchanged |
| `TargetBuffer.UpsertHit` | bpu.cpp:233-238 | on a hit the ways become the old ways with the first matching way's target set to the new one; the cursor and every tag, valid bit and `R` stay, and no other way changes |
| `TargetBuffer.UpsertColdFill` | bpu.cpp:239-246 | a miss on a set with room writes the way just past the valid prefix and leaves the cursor at 0; every other way is unchanged |
| `TargetBuffer.UpsertEvict` | bpu.cpp:247-254 | a miss on a full set overwrites the way under the cursor and advances the cursor by one modulo `ways`; every other way is unchanged |
| `TargetBuffer.UpsertKeepsOthers` | bpu.cpp:239-254 | every other branch resident in the set keeps its predicted target, except the one evicted, which falls back to the fall-through address |
| `Direction.Decide` | bpu.cpp:105-131 | a non-control-flow instruction gets its actual direction; a control-flow one gets the opposite exactly when the draw flips |
| `Direction.CountAsWrittenIs` | bpu.cpp:129 | number of draws below `n` that the source's comparison flips, in closed form |
| `Direction.CountIntendedIs` | bpu.cpp:129 | number of draws below `n` that the intended comparison flips, in closed form |
| `Direction.AsWrittenRate` | bpu.cpp:129-131 | as written, a rate of `p` (1..100) flips `p - 1` of the 100 residues, a rate of 0 or above 100 flips none, and at rate 100 a draw of 0 is not flipped |
| `Direction.IntendedRate` | bpu.cpp:129-131 | the intended comparison flips exactly `min(rate, 100)` of the 100 residues |
| `Direction.ZeroRateNeverMispredicts` | bpu.cpp:129-131 | with rate 0 no draw flips, under either comparison |
| `Predictor.BPU.constructor` | bpu.cpp:141-160 | the predictor starts with every way invalid with `R` 0, every cursor at 0, an empty RAS with `elementsOfStack` 0, and the invariant established |
| `Predictor.BPU.PredictDirection` | bpu.cpp:101-132 | non-control-flow: the actual direction; control-flow: flipped exactly when `draw % 100 >= 100 - rate` (the corrected band); never flipped at rate 0 |
| `Predictor.BPU.PredictTarget` | bpu.cpp:169-188 | reads only; returns the fall-through when the direction is not-taken or no valid way of the set holds the tag, and otherwise the target of the matching way |
| `Predictor.BPU.UpdatePredictor` | bpu.cpp:205-255 | keeps the invariant; the RAS becomes the call/return step of the old one; only the set of `pc` changes, by the three-tier insert; afterwards a taken prediction for `pc` yields `targetPC` |
| `Predictor.BPU.UpsertLine` | bpu.cpp:233-254 | the in-place hit / cold-fill / eviction writes on the arrays produce exactly the abstract insert on the set of `pc`, and change no other set |
| `Scoring.Tally` | bpu.cpp:345-375 | `cnt_instr` grows by one; the other counters grow by at most one, never decrease, and change only for control-flow instructions; the counter orderings are preserved |
| `Scoring.TallyAllOrdered` | bpu.cpp:345-375 | over any run of instructions the orderings hold, no counter decreases, and `cnt_instr` counts every instruction |
| `Scoring.Simulator.constructor` | bpu.cpp:270-275 | all six counters start at 0, beside a freshly built predictor |
| `Scoring.Simulator.ProcessBranch` | bpu.cpp:312-394 | the counters become the tally of the predictions made on the old state; a non-control-flow instruction leaves the predictor untouched; a control-flow one applies the update |

## Left out

- PIN instrumentation (`Instruction`, `main`, the `INS_*` and `PIN_*` calls) is foreign code. The per-instruction flags and addresses are parameters of `ProcessBranch`.
- Command-line knob parsing and `Usage` are not modelled. The knob values are the fields of `Config`, fixed at construction.
- The `Fini` report is file output with floating-point percentages, and is not modelled.
- The `rand()` rejection-sampling loop is not modelled. The draw it produces is the `draw` parameter. The model does not capture that the loop makes `draw % 100` uniform.
- Floating-point `log2` is replaced by the exact integer `Log2`. The two agree on the powers of two that `ConfigOk` admits.
- `ReportCounters` always returns an empty string, and is not modelled.
- `UpdatePredictor` does not use its `brTaken`, `correctDir` and `correctTarg` parameters. They are accepted and ignored.
- `Predictor.BPU.PredictTarget`: the branch for a matching way with `R == 1`, which returns the RAS front, is dead. `R` is written only by the constructor, so `Valid()` rules the branch out and it is an `assert false`. `TargetBuffer.SelectTarget` keeps that branch, guarded by a non-empty RAS.
- `Scoring.Tally`: the counters are unbounded. Their 64-bit wrap-around after 2^64 instructions is not modelled.
- `Predictor.BPU.PredictDirection`: it uses the corrected band (see Findings), not the comparison as written.

## Findings

| source | as written | input that shows it | evidently intended | confidence | as-written member | corrected member |
|---|---|---|---|---|---|---|
| bpu.cpp:129 | `r % 100 > (100 - rate)`, with the subtraction on UINT32. It flips `rate - 1` of the 100 residues, so a rate of 20 mispredicts 19%. A rate above 100 wraps the subtraction and never flips. | rate 100 with `r % 100 == 0`: not flipped, although a 100% rate should always mispredict | `rate >= 100 \|\| r % 100 >= 100 - rate`, which flips exactly `rate` of the 100 residues, and all of them from a rate of 100 on; the model states it on unbounded integers as `r % 100 >= 100 - rate` | high; not executed | `Direction.AsWrittenRate` | `Direction.IntendedRate` |
