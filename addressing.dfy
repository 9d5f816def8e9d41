/**
  Address arithmetic of the branch-prediction unit: 64-bit addresses, the
  power-of-two geometry of the BTB, the set index and tag of an address, and
  the wrapping fall-through address.

  The source computes the set index as `PC & (sets - 1)` and the tag as
  `PC >> shift`. On unsigned values with `sets` a power of two these are
  exactly `PC mod sets` and `PC div 2^shift`, which is how they are written
  here.
 */
module Addressing {

  /** ADDRINT on a 64-bit host. */
  type Addr = x: int | 0 <= x < 0x1_0000_0000_0000_0000

  /** UINT32, the type of the instruction size, the random draw and the rate knob. */
  type U32 = x: int | 0 <= x < 0x1_0000_0000

  const ADDR_MOD: int := 0x1_0000_0000_0000_0000
  const U32_MOD: int := 0x1_0000_0000

  /** Assumed width of a virtual address, the `48` of the tag computation. */
  const VA_BITS: nat := 48

  function Pow2(k: nat): (p: nat)
    ensures p >= 1
  {
    if k == 0 then 1 else 2 * Pow2(k - 1)
  }

  predicate IsPowerOfTwo(n: int)
    decreases if n > 0 then n else 0
  {
    n == 1 || (n > 1 && n % 2 == 0 && IsPowerOfTwo(n / 2))
  }

  /** Exact integer log2 of a power of two (the source calls floating-point `log2`). */
  function Log2(n: int): (k: nat)
    requires IsPowerOfTwo(n)
    ensures Pow2(k) == n
    decreases if n > 0 then n else 0
  {
    if n == 1 then 0 else 1 + Log2(n / 2)
  }

  /** The BTB line of `pc`: its low log2(sets) bits. */
  function SetIndex(pc: Addr, sets: int): (line: nat)
    requires IsPowerOfTwo(sets)
    ensures line < sets && line <= pc
  {
    ModBounds(pc, sets);
    pc % sets
  }

  /** The tag of `pc`: the address with its `shift` low bits dropped. */
  function Tag(pc: Addr, shift: nat): (t: Addr)
    requires shift < 64
    ensures t <= pc
    ensures 0 <= pc - t * Pow2(shift) < Pow2(shift)
  {
    Quotient(pc, Pow2(shift))
  }

  /** Floor division of naturals, with the bounds that characterise it. */
  function Quotient(x: nat, d: nat): (q: nat)
    requires d >= 1
    ensures q <= x
    ensures 0 <= x - q * d < d
  {
    DivBounds(x, d);
    x / d
  }

  lemma ModBounds(x: nat, d: nat)
    requires d >= 1
    ensures x % d < d && x % d <= x
  {
  }

  lemma DivMod(x: nat, d: nat)
    requires d >= 1
    ensures x - (x / d) * d == x % d
  {
  }

  lemma DivBounds(x: nat, d: nat)
    requires d >= 1
    ensures x / d <= x
    ensures 0 <= x - (x / d) * d < d
  {
    var q := x / d;
    assert 0 <= q;
    assert q * d == q + q * (d - 1);
    assert q * (d - 1) >= 0;
  }

  /**
    With the shift equal to log2(sets) the set index and the tag are the low
    and the high bits of the address: together they rebuild it exactly.
   */
  lemma LineAndTagDecompose(pc: Addr, sets: int)
    requires IsPowerOfTwo(sets) && Log2(sets) < 64
    ensures Tag(pc, Log2(sets)) * sets + SetIndex(pc, sets) == pc
  {
    var k := Log2(sets);
    assert Pow2(k) == sets;
    assert Tag(pc, k) == pc / sets;
    DivMod(pc, sets);
  }

  /**
    With the default tag width (48 bits, so the shift is log2(sets)) the pair
    (set index, tag) determines the address: two distinct branches never
    share a BTB entry.
   */
  lemma FullTagsDoNotAlias(a: Addr, b: Addr, sets: int)
    requires IsPowerOfTwo(sets) && Log2(sets) < 64
    requires SetIndex(a, sets) == SetIndex(b, sets)
    requires Tag(a, Log2(sets)) == Tag(b, Log2(sets))
    ensures a == b
  {
    LineAndTagDecompose(a, sets);
    LineAndTagDecompose(b, sets);
  }

  /** `PC + size` computed on 64-bit ADDRINT, so it wraps past the top of the address space. */
  function FallThrough(pc: Addr, size: U32): (ft: Addr)
    ensures pc + size < ADDR_MOD ==> ft == pc + size
    ensures pc + size >= ADDR_MOD ==> ft == pc + size - ADDR_MOD && ft < size
  {
    (pc + size) % ADDR_MOD
  }
}
