/**
  The branch-prediction unit: a set-associative BTB stored as a sets x ways
  array with one replacement cursor per set, and a bounded Return Address
  Stack kept as a sequence (front at index 0) with its separate length
  counter. The command-line knobs become an immutable `Config`.
 */
module Predictor {
  import opened Addressing
  import opened TargetBuffer
  import opened ReturnStack
  import opened Direction

  /** The knob values: BTB entries, associativity, RAS entries, tag size, misprediction rate. */
  datatype Config = Config(btbSize: int, associativity: int, rasSize: int, tagSize: int, mispredRate: U32)

  /**
    What the source silently assumes of its knobs: at least one way, a
    power-of-two number of sets, a non-empty RAS (a full stack is popped at
    the back), and a tag shift `48 + log2(sets) - tagSize` in 0..63.
   */
  predicate ConfigOk(cfg: Config) {
    && cfg.associativity >= 1
    && IsPowerOfTwo(cfg.btbSize / cfg.associativity)
    && cfg.rasSize >= 1
    && 0 <= VA_BITS + Log2(cfg.btbSize / cfg.associativity) - cfg.tagSize < 64
  }

  class BPU {
    const sets: int
    const ways: int
    const tagShift: int
    const rasSize: int
    const mispredRate: U32

    /** `info** BTB`, indexed by set and way. */
    const btb: array2<Entry>
    /** One replacement cursor per set. */
    const priorityTable: array<int>
    /** The deque, front first. */
    var ras: seq<Addr>
    var elementsOfStack: int

    /** Abstract view of the BTB: set i is `Sets[i]`. */
    ghost var Sets: seq<BtbSet>

    ghost predicate Valid()
      reads this, btb, priorityTable
    {
      && ways >= 1 && IsPowerOfTwo(sets) && 0 <= tagShift < 64 && rasSize >= 1
      && btb.Length0 == sets && btb.Length1 == ways && priorityTable.Length == sets
      && |Sets| == sets
      && (forall i :: 0 <= i < sets ==> SetInv(Sets[i], ways))
      && (forall i, j :: 0 <= i < sets && 0 <= j < ways ==> btb[i, j] == Sets[i].ways[j])
      && (forall i :: 0 <= i < sets ==> priorityTable[i] == Sets[i].cursor)
      && elementsOfStack == |ras| <= rasSize
    }

    function Line(pc: Addr): (line: nat)
      requires IsPowerOfTwo(sets)
      ensures line < sets
    {
      SetIndex(pc, sets)
    }

    function TagOf(pc: Addr): Addr
      requires 0 <= tagShift < 64
    {
      Tag(pc, tagShift)
    }

    constructor (cfg: Config)
      requires ConfigOk(cfg)
      ensures Valid()
      ensures sets == cfg.btbSize / cfg.associativity && ways == cfg.associativity
      ensures rasSize == cfg.rasSize && mispredRate == cfg.mispredRate
      ensures tagShift == VA_BITS + Log2(sets) - cfg.tagSize
      ensures forall i :: 0 <= i < sets ==> Sets[i] == EmptySet(ways)
      ensures ras == [] && elementsOfStack == 0
      ensures fresh(btb) && fresh(priorityTable)
    {
      var n := cfg.btbSize / cfg.associativity;
      var w := cfg.associativity;
      var b := new Entry[n, w];
      var p := new int[n];
      for i := 0 to n
        invariant forall i', j :: 0 <= i' < i && 0 <= j < w ==> b[i', j] == EmptyEntry
        invariant forall i' :: 0 <= i' < i ==> p[i'] == 0
      {
        p[i] := 0;
        for j := 0 to w
          invariant forall i', j' :: 0 <= i' < i && 0 <= j' < w ==> b[i', j'] == EmptyEntry
          invariant forall j' :: 0 <= j' < j ==> b[i, j'] == EmptyEntry
          invariant forall i' :: 0 <= i' <= i ==> p[i'] == 0
        {
          b[i, j] := EmptyEntry;
        }
      }
      sets, ways, rasSize, mispredRate := n, w, cfg.rasSize, cfg.mispredRate;
      tagShift := VA_BITS + Log2(n) - cfg.tagSize;
      btb, priorityTable := b, p;
      elementsOfStack, ras := 0, [];
      Sets := seq(n, _ => EmptySet(w));
      EmptySetInv(w);
    }

    /**
      The direction prediction. The draw stands for the rejection-sampled
      `rand()` value; the band is the intended one (see `Direction`).
     */
    function PredictDirection(pc: Addr, isControlFlow: bool, brTaken: bool, draw: U32): (predicted: bool)
      ensures !isControlFlow ==> predicted == brTaken
      ensures isControlFlow ==> (predicted != brTaken <==> draw % 100 >= 100 - mispredRate)
      ensures mispredRate == 0 ==> predicted == brTaken
    {
      Decide(isControlFlow, brTaken, Flips(draw, mispredRate))
    }

    /** The target prediction as a function of the abstract state. */
    ghost function Predicted(pc: Addr, ft: Addr, predictDir: bool): Addr
      reads this, btb, priorityTable
      requires Valid()
    {
      if !predictDir then ft
      else
        var s := Sets[Line(pc)];
        assert RasCovers(s, ras);
        SelectTarget(s, TagOf(pc), ras, ft)
    }

    /**
      Scans the ways of the set of `pc` for a valid way with its tag. A way
      with the return marker would yield the RAS front; under `Valid()` no way
      has it, so that branch is dead.
     */
    method PredictTarget(pc: Addr, fallThroughAddr: Addr, predictDir: bool) returns (target: Addr)
      requires Valid()
      ensures target == Predicted(pc, fallThroughAddr, predictDir)
      ensures !predictDir ==> target == fallThroughAddr
      ensures predictDir && !Resident(Sets[Line(pc)], TagOf(pc)) ==> target == fallThroughAddr
      ensures predictDir && Resident(Sets[Line(pc)], TagOf(pc)) ==>
        target == Sets[Line(pc)].ways[FirstHit(Sets[Line(pc)].ways, TagOf(pc), 0)].nextAddr
    {
      if predictDir {
        var line := Line(pc);
        var tag := TagOf(pc);
        for j := 0 to ways
          invariant forall k :: 0 <= k < j ==> !IsHit(Sets[line].ways[k], tag)
        {
          var way := btb[line, j];
          if tag == way.tag && way.valid && !way.r {
            return way.nextAddr;
          } else if tag == way.tag && way.valid && way.r {
            assert false;
          }
        }
      }
      return fallThroughAddr;
    }

    /**
      The update for a control-flow instruction: the RAS push on a call and
      pop on a return, then the three-tier insert of `targetPC` into the set
      of `pc`, whether the branch was taken or not.
     */
    method UpdatePredictor(pc: Addr, brTaken: bool, targetPC: Addr, returnAddr: Addr,
                           isCall: bool, isReturn: bool, correctDir: bool, correctTarg: bool)
      requires Valid()
      modifies this, btb, priorityTable
      ensures Valid()
      ensures ras == RasStep(old(ras), rasSize, returnAddr, isCall, isReturn)
      ensures Sets == old(Sets)[Line(pc) := Upsert(old(Sets)[Line(pc)], TagOf(pc), targetPC)]
      ensures forall ft :: Predicted(pc, ft, true) == targetPC
    {
      var line := Line(pc);
      var tag := TagOf(pc);
      if isCall {
        if elementsOfStack < rasSize {
          ras := [returnAddr] + ras;
          elementsOfStack := elementsOfStack + 1;
        } else {
          ras := ras[..|ras| - 1];
          ras := [returnAddr] + ras;
        }
      }
      if isReturn && ras != [] {
        ras := ras[1..];
        elementsOfStack := elementsOfStack - 1;
      }
      ghost var s := Sets[line];
      UpsertLine(line, tag, targetPC);
      forall ft
        ensures Predicted(pc, ft, true) == targetPC
      {
        UpsertThenSelect(s, ways, tag, targetPC, ras, ft);
      }
    }

    /** The BTB half of the update: hit, else first invalid way, else round-robin eviction. */
    method UpsertLine(line: nat, tag: Addr, targetPC: Addr)
      requires Valid() && line < sets
      modifies this`Sets, btb, priorityTable
      ensures Valid()
      ensures Sets == old(Sets)[line := Upsert(old(Sets)[line], tag, targetPC)]
    {
      ghost var s := Sets[line];
      UpsertKeepsInv(s, ways, tag, targetPC);
      for j := 0 to ways
        invariant Valid() && Sets == old(Sets)
        invariant forall k :: 0 <= k < j ==> !IsHit(s.ways[k], tag)
      {
        if btb[line, j].tag == tag && btb[line, j].valid {
          btb[line, j] := btb[line, j].(nextAddr := targetPC);
          Sets := Sets[line := Upsert(s, tag, targetPC)];
          return;
        }
      }
      for j := 0 to ways
        invariant Valid() && Sets == old(Sets)
        invariant forall k :: 0 <= k < j ==> s.ways[k].valid
      {
        if !btb[line, j].valid {
          btb[line, j] := btb[line, j].(tag := tag, valid := true, nextAddr := targetPC);
          Sets := Sets[line := Upsert(s, tag, targetPC)];
          return;
        }
      }
      var c := priorityTable[line];
      btb[line, c] := btb[line, c].(tag := tag, nextAddr := targetPC, valid := true);
      if c == ways - 1 {
        priorityTable[line] := 0;
      } else {
        priorityTable[line] := c + 1;
      }
      Sets := Sets[line := Upsert(s, tag, targetPC)];
    }
  }
}
