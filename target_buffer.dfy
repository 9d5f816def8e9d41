/**
  One set (line) of the set-associative Branch Target Buffer, as a value:
  its ways, scanned in order 0..ways-1, and its round-robin replacement cursor
  (the set's `priority_table` entry). `Upsert` is the three-tier insert of the
  predictor update and `SelectTarget` the lookup of the target prediction.
 */
module TargetBuffer {
  import opened Addressing

  /**
    One way: the source's `info` record. `valid` and `r` are 0/1 integers
    there; `r` (a return marker) is written only by the constructor.
   */
  datatype Entry = Entry(tag: Addr, valid: bool, r: bool, nextAddr: Addr)

  /** The constructor writes tag = -1, valid = 0, R = 0, next_addr = -1 into every way. */
  const EmptyEntry: Entry := Entry(0xFFFF_FFFF_FFFF_FFFF, false, false, 0xFFFF_FFFF_FFFF_FFFF)

  datatype BtbSet = BtbSet(ways: seq<Entry>, cursor: int)

  function EmptySet(n: nat): (s: BtbSet)
    ensures |s.ways| == n && s.cursor == 0
    ensures forall j :: 0 <= j < n ==> s.ways[j] == EmptyEntry
  {
    BtbSet(seq(n, _ => EmptyEntry), 0)
  }

  predicate IsHit(e: Entry, tag: Addr) {
    e.valid && e.tag == tag
  }

  /** Index of the first valid way at or after `from` holding `tag`, or |ways| if there is none. */
  function FirstHit(ways: seq<Entry>, tag: Addr, from: nat): (k: nat)
    requires from <= |ways|
    ensures from <= k <= |ways|
    ensures forall j :: from <= j < k ==> !IsHit(ways[j], tag)
    ensures k < |ways| ==> IsHit(ways[k], tag)
    decreases |ways| - from
  {
    if from == |ways| || IsHit(ways[from], tag) then from else FirstHit(ways, tag, from + 1)
  }

  /** Index of the first invalid way at or after `from`, or |ways| if the set is full. */
  function FirstInvalid(ways: seq<Entry>, from: nat): (k: nat)
    requires from <= |ways|
    ensures from <= k <= |ways|
    ensures forall j :: from <= j < k ==> ways[j].valid
    ensures k < |ways| ==> !ways[k].valid
    decreases |ways| - from
  {
    if from == |ways| || !ways[from].valid then from else FirstInvalid(ways, from + 1)
  }

  predicate Resident(s: BtbSet, tag: Addr) {
    FirstHit(s.ways, tag, 0) < |s.ways|
  }

  predicate Full(s: BtbSet) {
    forall j :: 0 <= j < |s.ways| ==> s.ways[j].valid
  }

  /**
    The invariant every set keeps from construction on: `n` ways, the cursor
    in range, no return marker set, the valid ways a prefix, no tag held by
    two valid ways, and the cursor still at 0 until the set has filled up.
   */
  predicate SetInv(s: BtbSet, n: nat) {
    && |s.ways| == n
    && 0 <= s.cursor < n
    && (forall j :: 0 <= j < n ==> !s.ways[j].r)
    && (forall i, j :: 0 <= i < j < n && s.ways[j].valid ==> s.ways[i].valid)
    && (forall i, j :: 0 <= i < j < n && s.ways[i].valid && s.ways[j].valid ==> s.ways[i].tag != s.ways[j].tag)
    && (s.cursor != 0 ==> Full(s))
  }

  /**
    The three-tier insert: on a hit only the target of the matching way is
    rewritten; otherwise the first invalid way is filled; otherwise the way
    under the cursor is evicted and the cursor moves on, wrapping to 0.
   */
  function Upsert(s: BtbSet, tag: Addr, target: Addr): (s': BtbSet)
    requires 0 <= s.cursor < |s.ways|
    ensures |s'.ways| == |s.ways| && 0 <= s'.cursor < |s'.ways|
  {
    var h := FirstHit(s.ways, tag, 0);
    if h < |s.ways| then
      s.(ways := s.ways[h := s.ways[h].(nextAddr := target)])
    else
      var f := FirstInvalid(s.ways, 0);
      if f < |s.ways| then
        s.(ways := s.ways[f := s.ways[f].(tag := tag, valid := true, nextAddr := target)])
      else
        Evict(s, tag, target)
  }

  /** The third tier: the way under the cursor takes the new tag and target, and the cursor moves on, wrapping to 0. */
  function Evict(s: BtbSet, tag: Addr, target: Addr): (s': BtbSet)
    requires 0 <= s.cursor < |s.ways|
    ensures s'.ways == s.ways[s.cursor := Entry(tag, true, s.ways[s.cursor].r, target)]
    ensures s'.cursor == (s.cursor + 1) % |s.ways|
  {
    var c := s.cursor;
    NextWraps(c, |s.ways|);
    BtbSet(s.ways[c := s.ways[c].(tag := tag, valid := true, nextAddr := target)],
           if c == |s.ways| - 1 then 0 else c + 1)
  }

  lemma NextWraps(c: int, n: int)
    requires 0 <= c < n
    ensures (if c == n - 1 then 0 else c + 1) == (c + 1) % n
  {
  }

  /** The RAS front is needed only when a way carries the return marker. */
  predicate RasCovers(s: BtbSet, ras: seq<Addr>) {
    forall j :: 0 <= j < |s.ways| && s.ways[j].r ==> |ras| > 0
  }

  /** The target predicted for a taken branch: the first matching way decides, a miss gives the fall-through. */
  function SelectTarget(s: BtbSet, tag: Addr, ras: seq<Addr>, ft: Addr): Addr
    requires RasCovers(s, ras)
  {
    var k := FirstHit(s.ways, tag, 0);
    if k == |s.ways| then ft
    else if !s.ways[k].r then s.ways[k].nextAddr
    else ras[0]
  }

  lemma EmptySetInv(n: nat)
    requires n >= 1
    ensures SetInv(EmptySet(n), n)
  {
  }

  /** Under the invariant a set has at most one way per tag: the one `FirstHit` finds. */
  lemma OnlyHit(s: BtbSet, n: nat, tag: Addr, j: nat)
    requires SetInv(s, n) && j < n && IsHit(s.ways[j], tag)
    ensures FirstHit(s.ways, tag, 0) == j
  {
  }

  lemma {:induction false} UpsertKeepsInv(s: BtbSet, n: nat, tag: Addr, target: Addr)
    requires SetInv(s, n)
    ensures SetInv(Upsert(s, tag, target), n)
  {
    var s' := Upsert(s, tag, target);
    var h := FirstHit(s.ways, tag, 0);
    if h == n {
      var f := FirstInvalid(s.ways, 0);
      if f < n {
        assert s.cursor == 0;
        forall i, j | 0 <= i < j < n && s'.ways[j].valid
          ensures s'.ways[i].valid
        {
          if j != f && i != f {
            assert s.ways[j].valid;
          }
        }
      } else {
        assert Full(s);
      }
    }
  }

  /** Round trip: right after an update, the lookup of the same tag yields the new target. */
  lemma UpsertThenSelect(s: BtbSet, n: nat, tag: Addr, target: Addr, ras: seq<Addr>, ft: Addr)
    requires SetInv(s, n)
    ensures RasCovers(Upsert(s, tag, target), ras)
    ensures SelectTarget(Upsert(s, tag, target), tag, ras, ft) == target
  {
    var s' := Upsert(s, tag, target);
    UpsertKeepsInv(s, n, tag, target);
    var h := FirstHit(s.ways, tag, 0);
    if h < n {
      OnlyHit(s', n, tag, h);
    } else {
      var f := FirstInvalid(s.ways, 0);
      var k := if f < n then f else s.cursor;
      OnlyHit(s', n, tag, k);
    }
  }

  /** Repeating an identical update changes nothing: the second one is a hit that rewrites the same target. */
  lemma UpsertIdempotent(s: BtbSet, n: nat, tag: Addr, target: Addr)
    requires SetInv(s, n)
    ensures Upsert(Upsert(s, tag, target), tag, target) == Upsert(s, tag, target)
  {
    var s' := Upsert(s, tag, target);
    UpsertKeepsInv(s, n, tag, target);
    var h := FirstHit(s.ways, tag, 0);
    var k := if h < n then h else if FirstInvalid(s.ways, 0) < n then FirstInvalid(s.ways, 0) else s.cursor;
    OnlyHit(s', n, tag, k);
    assert s'.ways[k := s'.ways[k].(nextAddr := target)] == s'.ways;
  }

  /** On a hit only the target of the matching way is rewritten; the cursor and every tag, valid bit and marker stay. */
  lemma UpsertHit(s: BtbSet, n: nat, tag: Addr, target: Addr)
    requires SetInv(s, n) && Resident(s, tag)
    ensures var s', h := Upsert(s, tag, target), FirstHit(s.ways, tag, 0);
      && s'.ways == s.ways[h := s.ways[h].(nextAddr := target)]
      && s'.cursor == s.cursor
      && (forall j :: 0 <= j < n ==> s'.ways[j].valid == s.ways[j].valid && s'.ways[j].tag == s.ways[j].tag && s'.ways[j].r == s.ways[j].r)
      && (forall j :: 0 <= j < n && s'.ways[j] != s.ways[j] ==> IsHit(s.ways[j], tag) && s'.ways[j].nextAddr == target)
  {
  }

  /**
    A miss on a set with room fills the way just past the valid prefix and
    leaves the cursor where it was; every other way is untouched.
   */
  lemma UpsertColdFill(s: BtbSet, n: nat, tag: Addr, target: Addr)
    requires SetInv(s, n) && !Resident(s, tag) && !Full(s)
    ensures var s', k := Upsert(s, tag, target), FirstInvalid(s.ways, 0);
      && k < n
      && (forall j :: 0 <= j < n ==> (s.ways[j].valid <==> j < k))
      && s'.ways == s.ways[k := Entry(tag, true, false, target)]
      && s'.cursor == s.cursor == 0
  {
  }

  /**
    A miss on a full set evicts the way under the cursor, whatever it held,
    and advances the cursor by one modulo the number of ways.
   */
  lemma UpsertEvict(s: BtbSet, n: nat, tag: Addr, target: Addr)
    requires SetInv(s, n) && !Resident(s, tag) && Full(s)
    ensures var s' := Upsert(s, tag, target);
      && s'.ways == s.ways[s.cursor := Entry(tag, true, false, target)]
      && s'.cursor == (s.cursor + 1) % n
  {
    assert FirstInvalid(s.ways, 0) == n;
    EvictStep(s, tag, target);
  }

  /** The eviction tier on its own: the way under the cursor is overwritten and the cursor wraps. */
  lemma EvictStep(s: BtbSet, tag: Addr, target: Addr)
    requires 0 <= s.cursor < |s.ways| && !s.ways[s.cursor].r
    requires FirstHit(s.ways, tag, 0) == |s.ways| && FirstInvalid(s.ways, 0) == |s.ways|
    ensures Upsert(s, tag, target) == BtbSet(s.ways[s.cursor := Entry(tag, true, false, target)], (s.cursor + 1) % |s.ways|)
  {
    assert Upsert(s, tag, target) == Evict(s, tag, target);
  }

  /**
    Any other branch resident in the set keeps its predicted target, unless
    it was the one evicted, in which case it falls back to the fall-through.
   */
  lemma UpsertKeepsOthers(s: BtbSet, n: nat, tag: Addr, target: Addr, other: Addr, ras: seq<Addr>, ft: Addr)
    requires SetInv(s, n) && other != tag
    ensures RasCovers(s, ras) && RasCovers(Upsert(s, tag, target), ras)
    ensures SelectTarget(Upsert(s, tag, target), other, ras, ft) ==
      if !Resident(s, tag) && Full(s) && FirstHit(s.ways, other, 0) == s.cursor then ft
      else SelectTarget(s, other, ras, ft)
  {
    var s' := Upsert(s, tag, target);
    UpsertKeepsInv(s, n, tag, target);
    var o := FirstHit(s.ways, other, 0);
    var o' := FirstHit(s'.ways, other, 0);
    var h := FirstHit(s.ways, tag, 0);
    var f := FirstInvalid(s.ways, 0);
    var k := if h < n then h else if f < n then f else s.cursor;
    assert forall j :: 0 <= j < n && j != k ==> s'.ways[j] == s.ways[j];
    if o < n && !(h == n && f == n && o == s.cursor) {
      assert o != k;
      OnlyHit(s', n, other, o);
    } else if o < n {
      assert forall j :: 0 <= j < n ==> !IsHit(s'.ways[j], other);
    } else {
      assert forall j :: 0 <= j < n ==> !IsHit(s'.ways[j], other);
    }
  }
}
