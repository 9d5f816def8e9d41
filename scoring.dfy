/**
  The per-instruction scoring step: predict direction and target, compare
  them with the resolved outcome, bump the six global counters, and update
  the predictor for control-flow instructions only. The process-wide
  predictor and counters become the fields of a `Simulator`.
 */
module Scoring {
  import opened Addressing
  import opened TargetBuffer
  import opened ReturnStack
  import opened Predictor

  datatype Counters = Counters(instr: nat, branches: nat, branchesTaken: nat,
                               correctPredDir: nat, correctPredTarg: nat, correctPred: nat)

  /** The orderings the counters keep: both-correct within each single-correct count, each within branches, branches within instructions. */
  predicate Ordered(c: Counters) {
    && c.correctPred <= c.correctPredDir <= c.branches
    && c.correctPred <= c.correctPredTarg <= c.branches
    && c.branchesTaken <= c.branches <= c.instr
  }

  /** Every counter is at least where it was. */
  predicate NoneDecreased(c: Counters, c': Counters) {
    && c.instr <= c'.instr && c.branches <= c'.branches && c.branchesTaken <= c'.branchesTaken
    && c.correctPredDir <= c'.correctPredDir && c.correctPredTarg <= c'.correctPredTarg
    && c.correctPred <= c'.correctPred
  }

  function Bit(b: bool): nat {
    if b then 1 else 0
  }

  /** The target guess is right when it is the taken target of a taken branch or the fall-through of a not-taken one. */
  predicate TargetCorrect(brTaken: bool, predictPC: Addr, targetPC: Addr, ft: Addr) {
    if brTaken then predictPC == targetPC else predictPC == ft
  }

  /** The counters after scoring one instruction, as per-counter increments. */
  function Tally(c: Counters, isControlFlow: bool, brTaken: bool, predictDir: bool,
                 predictPC: Addr, targetPC: Addr, ft: Addr): (c': Counters)
    ensures c'.instr == c.instr + 1
    ensures !isControlFlow ==> c' == c.(instr := c.instr + 1)
    ensures NoneDecreased(c, c')
    ensures c'.branches <= c.branches + 1 && c'.branchesTaken <= c.branchesTaken + 1
    ensures c'.correctPredDir <= c.correctPredDir + 1 && c'.correctPredTarg <= c.correctPredTarg + 1
    ensures c'.correctPred <= c.correctPred + 1
    ensures Ordered(c) ==> Ordered(c')
  {
    var correctDir := predictDir == brTaken;
    var correctTarg := TargetCorrect(brTaken, predictPC, targetPC, ft);
    Counters(c.instr + 1,
             c.branches + Bit(isControlFlow),
             c.branchesTaken + Bit(isControlFlow && brTaken),
             c.correctPredDir + Bit(isControlFlow && correctDir),
             c.correctPredTarg + Bit(isControlFlow && correctTarg),
             c.correctPred + Bit(isControlFlow && correctDir && correctTarg))
  }

  class Simulator {
    const bpu: BPU
    var cntInstr: nat
    var cntBranches: nat
    var cntBranchesTaken: nat
    var cntCorrectPredDir: nat
    var cntCorrectPredTarg: nat
    var cntCorrectPred: nat

    ghost function Counts(): Counters
      reads this
    {
      Counters(cntInstr, cntBranches, cntBranchesTaken, cntCorrectPredDir, cntCorrectPredTarg, cntCorrectPred)
    }

    ghost predicate Valid()
      reads this, bpu, bpu.btb, bpu.priorityTable
    {
      bpu.Valid() && Ordered(Counts())
    }

    /** A fresh predictor and all six counters at 0. */
    constructor (cfg: Config)
      requires ConfigOk(cfg)
      ensures Valid() && fresh(bpu) && fresh(bpu.btb) && fresh(bpu.priorityTable)
      ensures Counts() == Counters(0, 0, 0, 0, 0, 0)
      ensures forall i :: 0 <= i < bpu.sets ==> bpu.Sets[i] == EmptySet(bpu.ways)
      ensures bpu.ras == []
    {
      bpu := new BPU(cfg);
      cntInstr, cntBranches, cntBranchesTaken := 0, 0, 0;
      cntCorrectPredDir, cntCorrectPredTarg, cntCorrectPred := 0, 0, 0;
    }

    /**
      Scores one retiring instruction. `draw` stands for the random value the
      direction predictor consumes.
     */
    method ProcessBranch(pc: Addr, targetPC: Addr, brTaken: bool, size: U32,
                         isCall: bool, isReturn: bool, isControlFlow: bool, draw: U32)
      requires Valid()
      modifies this, bpu, bpu.btb, bpu.priorityTable
      ensures Valid()
      ensures var ft := FallThrough(pc, size);
              var dir := bpu.PredictDirection(pc, isControlFlow, brTaken, draw);
              Counts() == Tally(old(Counts()), isControlFlow, brTaken, dir, old(bpu.Predicted(pc, ft, dir)), targetPC, ft)
      ensures !isControlFlow ==> unchanged(bpu) && bpu.Sets == old(bpu.Sets)
      ensures isControlFlow ==>
        && bpu.ras == RasStep(old(bpu.ras), bpu.rasSize, FallThrough(pc, size), isCall, isReturn)
        && bpu.Sets == old(bpu.Sets)[bpu.Line(pc) := Upsert(old(bpu.Sets)[bpu.Line(pc)], bpu.TagOf(pc), targetPC)]
        && forall ft :: bpu.Predicted(pc, ft, true) == targetPC
    {
      var fallThroughAddr := FallThrough(pc, size);
      var correctDir := false;
      var correctTarg := false;
      var predictDir := bpu.PredictDirection(pc, isControlFlow, brTaken, draw);
      var predictPC := bpu.PredictTarget(pc, fallThroughAddr, predictDir);
      ghost var before := Counts();

      cntInstr := cntInstr + 1;
      if isControlFlow {
        cntBranches := cntBranches + 1;
        if brTaken {
          cntBranchesTaken := cntBranchesTaken + 1;
        }
      }
      if predictDir == brTaken {
        correctDir := true;
        if isControlFlow {
          cntCorrectPredDir := cntCorrectPredDir + 1;
        }
      }
      if brTaken {
        if predictPC == targetPC {
          correctTarg := true;
          if isControlFlow {
            cntCorrectPredTarg := cntCorrectPredTarg + 1;
          }
        }
      } else {
        if predictPC == fallThroughAddr {
          correctTarg := true;
          if isControlFlow {
            cntCorrectPredTarg := cntCorrectPredTarg + 1;
          }
        }
      }
      if correctTarg && correctDir && isControlFlow {
        cntCorrectPred := cntCorrectPred + 1;
      }
      ghost var after := Tally(before, isControlFlow, brTaken, predictDir, predictPC, targetPC, fallThroughAddr);
      assert Counts() == after;

      if isControlFlow {
        bpu.UpdatePredictor(pc, brTaken, targetPC, fallThroughAddr, isCall, isReturn, correctDir, correctTarg);
      }
    }
  }

  /**
    A counter trace: the counters after scoring a run of instructions, each
    given by its flags and the predictions made for it.
   */
  datatype Scored = Scored(isControlFlow: bool, brTaken: bool, predictDir: bool,
                           predictPC: Addr, targetPC: Addr, ft: Addr)

  function TallyAll(c: Counters, run: seq<Scored>): (c': Counters)
    decreases |run|
  {
    if run == [] then c
    else
      var e := run[0];
      TallyAll(Tally(c, e.isControlFlow, e.brTaken, e.predictDir, e.predictPC, e.targetPC, e.ft), run[1..])
  }

  /** Over any run from the initial counters: the orderings hold, and instructions are counted one each. */
  lemma {:induction false} TallyAllOrdered(c: Counters, run: seq<Scored>)
    requires Ordered(c)
    ensures Ordered(TallyAll(c, run))
    ensures NoneDecreased(c, TallyAll(c, run))
    ensures TallyAll(c, run).instr == c.instr + |run|
    decreases |run|
  {
    if run != [] {
      var e := run[0];
      TallyAllOrdered(Tally(c, e.isControlFlow, e.brTaken, e.predictDir, e.predictPC, e.targetPC, e.ft), run[1..]);
    }
  }
}
