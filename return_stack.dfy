/**
  The Return Address Stack as a value: a sequence whose index 0 is the front
  of the source's deque (the most recent call). A call pushes at the front and,
  when the stack is at capacity, drops the back (oldest) entry; a return pops
  the front only when there is one.
 */
module ReturnStack {
  import opened Addressing

  /** A call: `push_front(a)`, preceded by `pop_back()` when the stack is full. */
  function CallPush(ras: seq<Addr>, cap: nat, a: Addr): (ras': seq<Addr>)
    requires 1 <= cap && |ras| <= cap
    ensures |ras'| == if |ras| < cap then |ras| + 1 else cap
    ensures ras'[0] == a
    ensures ras'[1..] == ras[..|ras'| - 1]
  {
    if |ras| < cap then [a] + ras else [a] + ras[..|ras| - 1]
  }

  /** A return: `pop_front()` when the stack is non-empty, nothing otherwise. */
  function ReturnPop(ras: seq<Addr>): (ras': seq<Addr>)
    ensures ras == [] ==> ras' == []
    ensures ras != [] ==> [ras[0]] + ras' == ras
  {
    if |ras| > 0 then ras[1..] else ras
  }

  /** The RAS part of one predictor update: the call push, then the return pop. */
  function RasStep(ras: seq<Addr>, cap: nat, returnAddr: Addr, isCall: bool, isReturn: bool): (ras': seq<Addr>)
    requires 1 <= cap && |ras| <= cap
    ensures |ras'| <= cap
  {
    var pushed := if isCall then CallPush(ras, cap, returnAddr) else ras;
    if isReturn then ReturnPop(pushed) else pushed
  }

  /** A call followed by its return restores the stack, except that a full stack has lost its oldest entry. */
  lemma CallThenReturn(ras: seq<Addr>, cap: nat, a: Addr)
    requires 1 <= cap && |ras| <= cap
    ensures ReturnPop(CallPush(ras, cap, a)) == if |ras| < cap then ras else ras[..|ras| - 1]
  {
  }

  function Reversed(xs: seq<Addr>): (r: seq<Addr>)
    ensures |r| == |xs|
  {
    if xs == [] then [] else Reversed(xs[1..]) + [xs[0]]
  }

  /** A run of calls with no returns in between, oldest call first. */
  function PushAll(ras: seq<Addr>, cap: nat, calls: seq<Addr>): (ras': seq<Addr>)
    requires 1 <= cap && |ras| <= cap
    ensures |ras'| <= cap
    decreases |calls|
  {
    if calls == [] then ras else PushAll(CallPush(ras, cap, calls[0]), cap, calls[1..])
  }

  function Min(a: int, b: int): int { if a <= b then a else b }

  /**
    The stack always holds the `cap` most recent un-popped return addresses,
    most recent first: after a run of calls it is the calls in reverse order
    followed by the old contents, cut to the capacity.
   */
  lemma {:induction false} PushAllKeepsMostRecent(ras: seq<Addr>, cap: nat, calls: seq<Addr>)
    requires 1 <= cap && |ras| <= cap
    ensures PushAll(ras, cap, calls) == (Reversed(calls) + ras)[..Min(cap, |calls| + |ras|)]
    decreases |calls|
  {
    if calls != [] {
      var x, rest := calls[0], calls[1..];
      var p := CallPush(ras, cap, x);
      PushAllKeepsMostRecent(p, cap, rest);
      CallPushIsPrefix(ras, cap, x);
      ReversedCons(calls, ras);
      PrefixOfAppend(Reversed(rest), p, [x] + ras, Min(cap, |calls| + |ras|));
    }
  }

  /** A call keeps a prefix of the new address followed by the old stack. */
  lemma CallPushIsPrefix(ras: seq<Addr>, cap: nat, a: Addr)
    requires 1 <= cap && |ras| <= cap
    ensures var p := CallPush(ras, cap, a);
      |p| == Min(cap, |ras| + 1) && p == ([a] + ras)[..|p|]
  {
    var p := CallPush(ras, cap, a);
    assert p == [p[0]] + p[1..];
  }

  lemma ReversedCons(calls: seq<Addr>, ras: seq<Addr>)
    requires calls != []
    ensures Reversed(calls) + ras == Reversed(calls[1..]) + ([calls[0]] + ras)
  {
    var r := Reversed(calls[1..]);
    assert Reversed(calls) == r + [calls[0]];
    AppendAssoc(r, [calls[0]], ras);
  }

  lemma AppendAssoc(a: seq<Addr>, b: seq<Addr>, c: seq<Addr>)
    ensures (a + b) + c == a + (b + c)
  {
    forall i | 0 <= i < |a| + |b| + |c|
      ensures ((a + b) + c)[i] == (a + (b + c))[i]
    {
      if i >= |a| + |b| {
        assert ((a + b) + c)[i] == c[i - |a| - |b|];
      } else if i >= |a| {
        assert ((a + b) + c)[i] == b[i - |a|];
      }
    }
  }

  /** Cutting `r + q` within `r` and a prefix `p` of `q` sees only `r + p`. */
  lemma PrefixOfAppend(r: seq<Addr>, p: seq<Addr>, q: seq<Addr>, m: nat)
    requires |p| <= |q| && p == q[..|p|] && m <= |r| + |p|
    ensures (r + p)[..m] == (r + q)[..m]
  {
    forall i | 0 <= i < m
      ensures (r + p)[i] == (r + q)[i]
    {
      if i >= |r| {
        assert (r + p)[i] == p[i - |r|];
      }
    }
  }
}
