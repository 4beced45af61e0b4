/**
 * The conversion engine of `convertDenomination`, shared by both machines: pass 1 propagates a
 * shortfall at one denomination up towards the 20s, pass 2 breaks larger units down level by level.
 * Both work on the scratch ledger `tempCash`.
 */
module Conversion {
  import opened Cash

  /**
   * Pass 1 from position i: `needed` holds the count still required at DENOMS[i]. When the next
   * larger denomination holds enough money the walk stops; otherwise the missing money, rounded up
   * to whole units, is recorded for the larger denomination and the walk moves up. Walking past the
   * 20s fails. The scratch ledger is only read.
   */
  function Propagate(m: map<int, int>, i: nat, needed: map<int, int>): Option<map<int, int>>
    requires i < |DENOMS|
    decreases i
  {
    if i == 0 then None
    else
      var larger := DENOMS[i - 1];
      var current := DENOMS[i];
      var currentAmountNeeded := Get(needed, current) * current;
      var totalAmount := larger * Get(m, larger);
      if totalAmount >= currentAmountNeeded then Some(needed)
      else Propagate(m, i - 1, needed[larger := CeilDiv(currentAmountNeeded - totalAmount, larger)])
  }

  /** One pass-2 step at position i: break enough DENOMS[i] units to make the needs of DENOMS[i + 1]. */
  function BreakStep(t: map<int, int>, needed: map<int, int>, i: nat): map<int, int>
    requires i + 1 < |DENOMS|
  {
    var current := DENOMS[i];
    var next := DENOMS[i + 1];
    var nextAmountNeeded := Get(needed, next) * next;
    if nextAmountNeeded >= 1 then
      var quantityNeeded := CeilDiv(nextAmountNeeded, current);
      var t1 := t[current := Get(t, current) - quantityNeeded];
      t1[next := Get(t1, next) + (current / next) * quantityNeeded]
    else t
  }

  /** Pass 2 from position i down to the second-smallest denomination. */
  function Cascade(t: map<int, int>, needed: map<int, int>, i: nat): map<int, int>
    requires i < |DENOMS|
    decreases |DENOMS| - i
  {
    if i + 1 == |DENOMS| then t else Cascade(BreakStep(t, needed, i), needed, i + 1)
  }

  /**
   * The needs map pass 1 leaves when it stops at position s (1 <= s <= k): a positive count for
   * each position from s to k and nothing elsewhere, `units` at the target k, each level's count the
   * rounded-up money the level below lacks after its own stock, and DENOMS[s - 1] rich enough.
   */
  ghost predicate NeedsChain(m: map<int, int>, needed: map<int, int>, s: nat, k: nat, units: int)
  {
    && 1 <= s <= k < |DENOMS|
    && Get(needed, DENOMS[k]) == units
    && (forall j :: 0 <= j < |DENOMS| ==>
          if s <= j <= k then Get(needed, DENOMS[j]) > 0 else Get(needed, DENOMS[j]) == 0)
    && (forall j :: s <= j < k ==> ChainStep(m, needed, j))
    && DENOMS[s - 1] * Get(m, DENOMS[s - 1]) >= Get(needed, DENOMS[s]) * DENOMS[s]
  }

  /** The shape of the needs map while pass 1 stands at position i, on its way up from k. */
  ghost predicate WalkAt(m: map<int, int>, k: nat, units: int, i: nat, needed: map<int, int>)
  {
    WalkShape(k, units, i, needed) && WalkChain(m, k, i, needed) && WalkReach(m, k, units, i, needed)
  }

  /** Positive needs exactly on the positions from i to k, `units` at k. */
  ghost predicate WalkShape(k: nat, units: int, i: nat, needed: map<int, int>)
  {
    && i <= k < |DENOMS| && units > 0
    && Get(needed, DENOMS[k]) == units
    && (forall j :: 0 <= j < |DENOMS| ==>
          if i <= j <= k then Get(needed, DENOMS[j]) > 0 else Get(needed, DENOMS[j]) == 0)
  }

  /** Each recorded need is the rounded-up money the level below lacks after its own stock. */
  ghost predicate WalkChain(m: map<int, int>, k: nat, i: nat, needed: map<int, int>)
  {
    forall j :: i <= j < k && k < |DENOMS| ==> ChainStep(m, needed, j)
  }

  /** The need at position j is the money still lacking at j + 1 after j's own stock, in whole units of DENOMS[j]. */
  ghost predicate ChainStep(m: map<int, int>, needed: map<int, int>, j: nat)
    requires j + 1 < |DENOMS|
  {
    Get(needed, DENOMS[j])
    == CeilDiv(Get(needed, DENOMS[j + 1]) * DENOMS[j + 1] - DENOMS[j] * Get(m, DENOMS[j]), DENOMS[j])
  }

  /** The need at i exceeds the money of any run of larger levels exactly when the original shortfall does. */
  ghost predicate WalkReach(m: map<int, int>, k: nat, units: int, i: nat, needed: map<int, int>)
  {
    i <= k < |DENOMS| &&
    forall l :: 0 <= l <= i ==> Reaches(m, k, units, i, Get(needed, DENOMS[i]), l)
  }

  /** v units of DENOMS[i] exceed the money from position l up to i exactly when the shortfall exceeds it up to k. */
  ghost predicate Reaches(m: map<int, int>, k: nat, units: int, i: nat, v: int, l: nat)
    requires l <= i <= k < |DENOMS|
  {
    v * DENOMS[i] > PrefixValue(m, i) - PrefixValue(m, l)
    <==> units * DENOMS[k] > PrefixValue(m, k) - PrefixValue(m, l)
  }

  /**
   * The walk of pass 1 from position i, with `needed` built as pass 1 builds it, fails exactly
   * when the shortfall's money exceeds what the larger denominations hold. Rounding up to whole
   * units never loses: the money held above a level is a whole number of that level's units.
   */
  lemma {:induction false} PropagateFrom(m: map<int, int>, k: nat, units: int, i: nat, needed: map<int, int>)
    returns (s: nat)
    requires NonNegative(m) && WalkAt(m, k, units, i, needed)
    ensures Propagate(m, i, needed).None? <==> units * DENOMS[k] > PrefixValue(m, k)
    ensures Propagate(m, i, needed).Some? ==>
              NeedsChain(m, Propagate(m, i, needed).value, s, k, units)
              && units * DENOMS[k] > PrefixValue(m, k) - PrefixValue(m, s)
    decreases i
  {
    var ni := Get(needed, DENOMS[i]);
    if i == 0 {
      s := 0;
      MulMonotone(DENOMS[0], 1, ni);
      assert Reaches(m, k, units, 0, ni, 0);
    } else if DENOMS[i - 1] * Get(m, DENOMS[i - 1]) >= ni * DENOMS[i] {
      s := i;
      PropagateStops(m, k, units, i, needed);
    } else {
      var needed' := PropagateRaises(m, k, units, i, needed);
      s := PropagateFrom(m, k, units, i - 1, needed');
    }
  }

  /** Pass 1 stops at position i when DENOMS[i - 1] holds enough: the shortfall is then covered. */
  lemma PropagateStops(m: map<int, int>, k: nat, units: int, i: nat, needed: map<int, int>)
    requires NonNegative(m) && WalkAt(m, k, units, i, needed) && i >= 1
    requires DENOMS[i - 1] * Get(m, DENOMS[i - 1]) >= Get(needed, DENOMS[i]) * DENOMS[i]
    ensures Propagate(m, i, needed) == Some(needed)
    ensures units * DENOMS[k] <= PrefixValue(m, k)
    ensures NeedsChain(m, needed, i, k, units)
    ensures units * DENOMS[k] > PrefixValue(m, k) - PrefixValue(m, i)
  {
    var ni := Get(needed, DENOMS[i]);
    DenomDivides(i, i);
    MulMonotone(DENOMS[i], 1, ni);
    assert Reaches(m, k, units, i, ni, i);
    assert Reaches(m, k, units, i, ni, i - 1);
    PrefixValueMonotone(m, 0, i - 1);
    PrefixValueMonotone(m, i - 1, k);
  }

  /** Pass 1 moves up from position i to i - 1 recording the rounded-up need of DENOMS[i - 1]. */
  lemma PropagateRaises(m: map<int, int>, k: nat, units: int, i: nat, needed: map<int, int>)
    returns (needed': map<int, int>)
    requires NonNegative(m) && WalkAt(m, k, units, i, needed) && i >= 1
    requires DENOMS[i - 1] * Get(m, DENOMS[i - 1]) < Get(needed, DENOMS[i]) * DENOMS[i]
    ensures Propagate(m, i, needed) == Propagate(m, i - 1, needed')
    ensures WalkAt(m, k, units, i - 1, needed')
  {
    var ni := Get(needed, DENOMS[i]);
    var larger := DENOMS[i - 1];
    var n' := CeilDiv(ni * DENOMS[i] - larger * Get(m, larger), larger);
    needed' := needed[larger := n'];
    RaiseShape(k, units, i, needed, n');
    RaiseChain(m, k, i, needed, n');
    RaiseReach(m, k, units, i, needed);
  }

  /** Recording a positive need one level up extends the positive run by that level. */
  lemma RaiseShape(k: nat, units: int, i: nat, needed: map<int, int>, n': int)
    requires WalkShape(k, units, i, needed) && i >= 1 && n' > 0
    ensures WalkShape(k, units, i - 1, needed[DENOMS[i - 1] := n'])
  {
    var needed' := needed[DENOMS[i - 1] := n'];
    forall j | 0 <= j < |DENOMS| && j != i - 1
      ensures Get(needed', DENOMS[j]) == Get(needed, DENOMS[j])
    {
      DenomsDistinct(j, i - 1);
    }
  }

  /** The need recorded at i - 1 continues the chain of rounded-up shortfalls. */
  lemma RaiseChain(m: map<int, int>, k: nat, i: nat, needed: map<int, int>, n': int)
    requires WalkChain(m, k, i, needed) && 1 <= i <= k < |DENOMS|
    requires n' == CeilDiv(Get(needed, DENOMS[i]) * DENOMS[i] - DENOMS[i - 1] * Get(m, DENOMS[i - 1]), DENOMS[i - 1])
    ensures WalkChain(m, k, i - 1, needed[DENOMS[i - 1] := n'])
  {
    var needed' := needed[DENOMS[i - 1] := n'];
    forall j | i - 1 <= j < k
      ensures ChainStep(m, needed', j)
    {
      DenomsDistinct(j + 1, i - 1);
      if j >= i {
        DenomsDistinct(j, i - 1);
        assert ChainStep(m, needed, j);
      }
    }
  }

  /** The rounded-up need at i - 1 reaches as far as the need at i did. */
  lemma RaiseReach(m: map<int, int>, k: nat, units: int, i: nat, needed: map<int, int>)
    requires WalkReach(m, k, units, i, needed) && i >= 1
    ensures var larger := DENOMS[i - 1];
            var n' := CeilDiv(Get(needed, DENOMS[i]) * DENOMS[i] - larger * Get(m, larger), larger);
            WalkReach(m, k, units, i - 1, needed[larger := n'])
  {
    var ni := Get(needed, DENOMS[i]);
    var larger := DENOMS[i - 1];
    var n' := CeilDiv(ni * DENOMS[i] - larger * Get(m, larger), larger);
    var needed' := needed[larger := n'];
    assert Get(needed', larger) == n';
    var up := i - 1;
    forall l | 0 <= l <= up
      ensures Reaches(m, k, units, up, n', l)
    {
      assert Reaches(m, k, units, i, ni, l);
      RoundedShortfall(m, i, ni, l);
    }
  }

  /**
   * Rounding the money a level still lacks up to whole units of the next larger denomination does
   * not change whether it exceeds the money held from any position l up to that denomination.
   */
  lemma RoundedShortfall(m: map<int, int>, i: nat, ni: int, l: nat)
    requires 1 <= i < |DENOMS| && l <= i - 1
    ensures var larger := DENOMS[i - 1];
            var x := ni * DENOMS[i] - larger * Get(m, larger);
            CeilDiv(x, larger) * larger > PrefixValue(m, i - 1) - PrefixValue(m, l)
            <==> ni * DENOMS[i] > PrefixValue(m, i) - PrefixValue(m, l)
  {
    var larger := DENOMS[i - 1];
    var x := ni * DENOMS[i] - larger * Get(m, larger);
    var c := CeilDiv(x, larger);
    DenomDivides(i - 1, i - 1);
    var u1 := Units(m, i - 1, i - 1);
    var u2 := Units(m, l, i - 1);
    PrefixValueUnits(m, i - 1, i - 1);
    PrefixValueUnits(m, l, i - 1);
    CeilDivExceeds(x, larger, u1 - u2);
    UnitsDifference(larger, u1, u2, c);
  }

  lemma UnitsDifference(b: int, u1: int, u2: int, c: int)
    ensures b * u1 - b * u2 == b * (u1 - u2)
    ensures c * b == b * c
  {
  }

  /** Pass 1 started as `convertDenomination` starts it: `units` needed at DENOMS[k] and nothing else. */
  lemma PropagateOutcome(m: map<int, int>, k: nat, units: int) returns (s: nat)
    requires NonNegative(m) && k < |DENOMS| && units > 0
    ensures Propagate(m, k, map[DENOMS[k] := units]).None? <==> units * DENOMS[k] > PrefixValue(m, k)
    ensures Propagate(m, k, map[DENOMS[k] := units]).Some? ==>
              NeedsChain(m, Propagate(m, k, map[DENOMS[k] := units]).value, s, k, units)
              && units * DENOMS[k] > PrefixValue(m, k) - PrefixValue(m, s)
  {
    var needed := map[DENOMS[k] := units];
    forall j | 0 <= j < |DENOMS| && j != k ensures Get(needed, DENOMS[j]) == 0 {
      DenomsDistinct(j, k);
    }
    assert WalkAt(m, k, units, k, needed);
    s := PropagateFrom(m, k, units, k, needed);
  }

  /** Pass 2 loses no money: each step takes q units of DENOMS[i] and adds exactly their worth below. */
  lemma BreakStepConserves(t: map<int, int>, needed: map<int, int>, i: nat)
    requires i + 1 < |DENOMS|
    ensures Value(BreakStep(t, needed, i)) == Value(t)
    ensures HasAllKeys(t) ==> HasAllKeys(BreakStep(t, needed, i))
  {
    BreakStepKeepsPrefix(t, needed, i, |DENOMS|);
  }

  /** The money in any prefix that holds both levels a step touches is unchanged by it. */
  lemma BreakStepKeepsPrefix(t: map<int, int>, needed: map<int, int>, i: nat, n: nat)
    requires i + 1 < n <= |DENOMS|
    ensures PrefixValue(BreakStep(t, needed, i), n) == PrefixValue(t, n)
  {
    var current := DENOMS[i];
    var next := DENOMS[i + 1];
    var nextAmountNeeded := Get(needed, next) * next;
    if nextAmountNeeded >= 1 {
      var q := CeilDiv(nextAmountNeeded, current);
      var t1 := t[current := Get(t, current) - q];
      var made := (current / next) * q;
      assert BreakStep(t, needed, i) == t1[next := Get(t1, next) + made];
      PrefixValueTake(t, i, q, n);
      PrefixValueAdd(t1, i + 1, made, n);
      BreakArithmetic(i, q);
    }
  }

  /** Breaking q units of DENOMS[i] makes exactly their worth in DENOMS[i + 1]. */
  lemma BreakArithmetic(i: nat, q: int)
    requires i + 1 < |DENOMS|
    ensures DENOMS[i + 1] * ((DENOMS[i] / DENOMS[i + 1]) * q) == DENOMS[i] * q
  {
    DenomDivides(i, i + 1);
    assert DENOMS[i + 1] * ((DENOMS[i] / DENOMS[i + 1]) * q) == (DENOMS[i + 1] * (DENOMS[i] / DENOMS[i + 1])) * q;
  }

  lemma {:induction false} CascadeConserves(t: map<int, int>, needed: map<int, int>, i: nat)
    requires i < |DENOMS|
    ensures Value(Cascade(t, needed, i)) == Value(t)
    ensures HasAllKeys(t) ==> HasAllKeys(Cascade(t, needed, i))
    decreases |DENOMS| - i
  {
    if i + 1 < |DENOMS| {
      BreakStepConserves(t, needed, i);
      CascadeConserves(BreakStep(t, needed, i), needed, i + 1);
    }
  }

  /** What pass 2 guarantees of position j once it has moved past it. */
  ghost predicate Settled(m: map<int, int>, t: map<int, int>, s: nat, k: nat, units: int, j: nat)
    requires j < |DENOMS|
  {
    && Get(t, DENOMS[j]) >= 0
    && (j == k ==> Get(t, DENOMS[j]) >= Get(m, DENOMS[j]) + units)
    && (j + 1 < s || k < j ==> Get(t, DENOMS[j]) == Get(m, DENOMS[j]))
  }

  /**
   * Pass 2 over the needs of a completed pass 1 leaves no count negative, supplies at least `units`
   * more of the target, and touches only the positions from s - 1 (the level broken) to k.
   * `t` is the scratch ledger after the steps before position i.
   */
  lemma {:induction false} CascadeSupplies(m: map<int, int>, needed: map<int, int>, s: nat, k: nat, units: int,
                                           i: nat, t: map<int, int>)
    requires NonNegative(m) && NeedsChain(m, needed, s, k, units)
    requires i < |DENOMS|
    requires forall j :: i < j < |DENOMS| ==> Get(t, DENOMS[j]) == Get(m, DENOMS[j])
    requires forall j :: 0 <= j < i ==> Settled(m, t, s, k, units, j)
    requires Get(t, DENOMS[i]) >= Get(m, DENOMS[i]) + Get(needed, DENOMS[i])
    requires i < s || k < i ==> Get(t, DENOMS[i]) == Get(m, DENOMS[i])
    ensures forall j :: 0 <= j < |DENOMS| ==> Settled(m, Cascade(t, needed, i), s, k, units, j)
    decreases |DENOMS| - i
  {
    if i + 1 < |DENOMS| {
      var t' := BreakStep(t, needed, i);
      BreakStepSupplies(m, needed, s, k, units, i, t);
      forall j | 0 <= j < i ensures Settled(m, t', s, k, units, j) {
        assert Settled(m, t, s, k, units, j);
      }
      CascadeSupplies(m, needed, s, k, units, i + 1, t');
    } else {
      assert Get(needed, DENOMS[i]) >= 0;
      assert Settled(m, t, s, k, units, i);
    }
  }

  /** One pass-2 step settles position i and hands position i + 1 at least its need on top of its stock. */
  lemma BreakStepSupplies(m: map<int, int>, needed: map<int, int>, s: nat, k: nat, units: int,
                          i: nat, t: map<int, int>)
    requires NonNegative(m) && NeedsChain(m, needed, s, k, units)
    requires i + 1 < |DENOMS|
    requires Get(t, DENOMS[i + 1]) == Get(m, DENOMS[i + 1])
    requires Get(t, DENOMS[i]) >= Get(m, DENOMS[i]) + Get(needed, DENOMS[i])
    requires i < s || k < i ==> Get(t, DENOMS[i]) == Get(m, DENOMS[i])
    ensures forall j :: 0 <= j < |DENOMS| && j != i && j != i + 1 ==>
              Get(BreakStep(t, needed, i), DENOMS[j]) == Get(t, DENOMS[j])
    ensures Settled(m, BreakStep(t, needed, i), s, k, units, i)
    ensures Get(BreakStep(t, needed, i), DENOMS[i + 1]) >= Get(m, DENOMS[i + 1]) + Get(needed, DENOMS[i + 1])
    ensures i + 1 < s || k < i + 1 ==> Get(BreakStep(t, needed, i), DENOMS[i + 1]) == Get(m, DENOMS[i + 1])
  {
    var current := DENOMS[i];
    var next := DENOMS[i + 1];
    var n := Get(needed, next);
    var t' := BreakStep(t, needed, i);
    forall j | 0 <= j < |DENOMS| && j != i && j != i + 1
      ensures Get(t', DENOMS[j]) == Get(t, DENOMS[j])
    {
      DenomsDistinct(j, i);
      DenomsDistinct(j, i + 1);
    }
    DenomsDistinct(i, i + 1);
    if s <= i + 1 <= k {
      StepArithmetic(m, needed, s, k, units, i, Get(t, current));
    } else {
      assert n == 0;
      assert t' == t;
    }
  }

  /** The counts one pass-2 step leaves at positions i and i + 1 when i + 1 carries a need. */
  lemma StepArithmetic(m: map<int, int>, needed: map<int, int>, s: nat, k: nat, units: int, i: nat, a: int)
    requires NonNegative(m) && NeedsChain(m, needed, s, k, units)
    requires s <= i + 1 <= k
    requires a >= Get(m, DENOMS[i]) + Get(needed, DENOMS[i])
    requires i < s ==> a == Get(m, DENOMS[i])
    ensures var q := CeilDiv(Get(needed, DENOMS[i + 1]) * DENOMS[i + 1], DENOMS[i]);
            && a - q >= 0
            && (DENOMS[i] / DENOMS[i + 1]) * q >= Get(needed, DENOMS[i + 1])
  {
    var current := DENOMS[i];
    var next := DENOMS[i + 1];
    var n := Get(needed, next);
    var have := Get(m, current);
    DenomDivides(i, i + 1);
    var q := CeilDiv(n * next, current);
    if i + 1 == s {
      CeilDivExceeds(n * next, current, have);
    } else {
      assert ChainStep(m, needed, i);
      CeilDivShift(n * next, current, have);
    }
    BreakCovers(current, next, current / next, n, q);
  }

  /** q units worth at least n units of a denomination nx that divides c break into at least n of them. */
  lemma BreakCovers(c: int, nx: int, r: int, n: int, q: int)
    requires nx > 0 && nx * r == c && c * q >= n * nx
    ensures r * q >= n
  {
    assert nx * (r * q) == (nx * r) * q;
    MulCancel(nx, r * q, n);
  }

  /**
   * The whole conversion engine on a ledger with no negative count, for a shortfall of `units`
   * units of DENOMS[k]: it fails exactly when the larger denominations hold less money than the
   * shortfall; otherwise it keeps every count non-negative, yields at least `units` more of the
   * target, keeps the total money, leaves the smaller denominations alone, and leaves alone every
   * larger denomination above a run of levels that already covers the shortfall.
   */
  lemma ConversionOutcome(m: map<int, int>, k: nat, units: int)
    requires NonNegative(m) && k < |DENOMS| && units > 0
    ensures Propagate(m, k, map[DENOMS[k] := units]).None? <==> units * DENOMS[k] > PrefixValue(m, k)
    ensures Propagate(m, k, map[DENOMS[k] := units]).Some? ==>
              var t := Cascade(m, Propagate(m, k, map[DENOMS[k] := units]).value, 0);
              && NonNegative(t)
              && Get(t, DENOMS[k]) >= Get(m, DENOMS[k]) + units
              && Value(t) == Value(m)
              && (HasAllKeys(m) ==> HasAllKeys(t))
              && (forall j :: k < j < |DENOMS| ==> Get(t, DENOMS[j]) == Get(m, DENOMS[j]))
              && (forall j :: 0 <= j < k && PrefixValue(m, k) - PrefixValue(m, j + 1) >= units * DENOMS[k] ==>
                    Get(t, DENOMS[j]) == Get(m, DENOMS[j]))
  {
    var s := PropagateOutcome(m, k, units);
    var r := Propagate(m, k, map[DENOMS[k] := units]);
    if r.Some? {
      var needed := r.value;
      CascadeSupplies(m, needed, s, k, units, 0, m);
      CascadeConserves(m, needed, 0);
      var t := Cascade(m, needed, 0);
      forall j | 0 <= j < k && PrefixValue(m, k) - PrefixValue(m, j + 1) >= units * DENOMS[k]
        ensures Get(t, DENOMS[j]) == Get(m, DENOMS[j])
      {
        if j + 1 >= s {
          PrefixValueMonotone(m, s, j + 1);
        }
        assert Settled(m, t, s, k, units, j);
      }
      forall j | k < j < |DENOMS| ensures Get(t, DENOMS[j]) == Get(m, DENOMS[j]) {
        assert Settled(m, t, s, k, units, j);
      }
      forall j | 0 <= j < |DENOMS| ensures Get(t, DENOMS[j]) >= 0 {
        assert Settled(m, t, s, k, units, j);
      }
      assert Settled(m, t, s, k, units, k);
    }
  }

  /** Pass 1 (teller/LimitedTellerMachine.java lines 56-81): walks from the target towards the 20s and builds the needs map. */
  method PropagateNeeds(k: nat, numberNeeded: int, tempCash: map<int, int>) returns (ok: bool, needed: map<int, int>)
    requires k < |DENOMS|
    ensures Propagate(tempCash, k, map[DENOMS[k] := numberNeeded]) == if ok then Some(needed) else None
    ensures NonNegative(tempCash) && numberNeeded > 0 ==>
              (ok <==> numberNeeded * DENOMS[k] <= PrefixValue(tempCash, k))
  {
    if NonNegative(tempCash) && numberNeeded > 0 {
      ghost var s := PropagateOutcome(tempCash, k, numberNeeded);
    }
    needed := map[DENOMS[k] := numberNeeded];
    var i := k;
    while i > 0
      invariant i <= k
      invariant Propagate(tempCash, i, needed) == Propagate(tempCash, k, map[DENOMS[k] := numberNeeded])
      decreases i
    {
      var largerDenomination := DENOMS[i - 1];
      var currentDenomination := DENOMS[i];
      var currentAmountNeeded := Get(needed, currentDenomination) * currentDenomination;
      var totalAmount := largerDenomination * Get(tempCash, largerDenomination);
      if totalAmount >= currentAmountNeeded {
        return true, needed;
      }
      var neededQuantity := CeilDiv(currentAmountNeeded - totalAmount, largerDenomination);
      needed := needed[largerDenomination := neededQuantity];
      i := i - 1;
    }
    ok := false;
  }

  /** Pass 2 (teller/LimitedTellerMachine.java lines 82-96): cascades the breakdowns from the 20s down, keeping the total money. */
  method CascadeBreakdowns(needed: map<int, int>, tempCash: map<int, int>) returns (result: map<int, int>)
    ensures result == Cascade(tempCash, needed, 0)
    ensures Value(result) == Value(tempCash)
    ensures HasAllKeys(tempCash) ==> HasAllKeys(result)
  {
    CascadeConserves(tempCash, needed, 0);
    result := tempCash;
    var i := 0;
    while i < |DENOMS| - 1
      invariant 0 <= i < |DENOMS|
      invariant Cascade(result, needed, i) == Cascade(tempCash, needed, 0)
    {
      ghost var before := result;
      DenomDivides(i, i);
      DenomDivides(i + 1, i + 1);
      var currentDenomination := DENOMS[i];
      var nextDenomination := DENOMS[i + 1];
      var nextAmountNeeded := Get(needed, nextDenomination) * nextDenomination;
      if nextAmountNeeded >= 1 {
        var quantityNeeded := CeilDiv(nextAmountNeeded, currentDenomination);
        result := result[currentDenomination := Get(result, currentDenomination) - quantityNeeded];
        var totalNextMade := (currentDenomination / nextDenomination) * quantityNeeded;
        result := result[nextDenomination := Get(result, nextDenomination) + totalNextMade];
        assert result == BreakStep(before, needed, i);
      }
      assert Cascade(before, needed, i) == Cascade(result, needed, i + 1);
      i := i + 1;
    }
  }
}
