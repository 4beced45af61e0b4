/** Denominations, the ledger and the value arithmetic both teller machines share. */
module Cash {

  datatype Option<T> = None | Some(value: T)

  /** The supported denominations, largest first (DENOMINATIONS_DESC). */
  const DENOMS: seq<int> := [20, 10, 5, 1]

  /** `getOrDefault(d, 0)` on a Java map of counts. */
  function Get(m: map<int, int>, d: int): int
  {
    if d in m then m[d] else 0
  }

  /** Position of a supported denomination in DENOMS (`indexOf` on the descending list). */
  function IndexOf(d: int): (i: nat)
    requires d in DENOMS
    ensures i < |DENOMS| && DENOMS[i] == d
  {
    if d == 20 then 0 else if d == 10 then 1 else if d == 5 then 2 else 3
  }

  /** Distinct positions hold distinct denominations. */
  lemma DenomsDistinct(a: nat, b: nat)
    requires a < |DENOMS| && b < |DENOMS| && a != b
    ensures DENOMS[a] != DENOMS[b]
  {
  }

  /** Every supported denomination is positive and a multiple of each smaller one. */
  lemma DenomDivides(j: nat, i: nat)
    requires j <= i < |DENOMS|
    ensures DENOMS[i] > 0
    ensures DENOMS[i] * (DENOMS[j] / DENOMS[i]) == DENOMS[j]
  {
  }

  /** The map has exactly the supported denominations as keys. */
  ghost predicate HasAllKeys(m: map<int, int>)
  {
    forall d :: d in m <==> d in DENOMS
  }

  /** No supported denomination has a negative count. */
  ghost predicate NonNegative(m: map<int, int>)
  {
    forall j :: 0 <= j < |DENOMS| ==> Get(m, DENOMS[j]) >= 0
  }

  /** A committed ledger: an entry per supported denomination, none negative. */
  ghost predicate IsLedger(m: map<int, int>)
  {
    HasAllKeys(m) && NonNegative(m)
  }

  /** The ledger the constructor builds: every denomination mapped to 0. */
  function EmptyLedger(): (m: map<int, int>)
    ensures IsLedger(m)
    ensures forall d :: d in DENOMS ==> Get(m, d) == 0
  {
    map[20 := 0, 10 := 0, 5 := 0, 1 := 0]
  }

  /** Money held in the `n` largest denominations: the sum of DENOMS[j] * count for j < n. */
  function PrefixValue(m: map<int, int>, n: nat): (v: int)
    requires n <= |DENOMS|
    ensures NonNegative(m) ==> v >= 0
  {
    if n == 0 then 0 else PrefixValue(m, n - 1) + DENOMS[n - 1] * Get(m, DENOMS[n - 1])
  }

  /** Total money held: the sum of denomination * count. */
  function Value(m: map<int, int>): int
  {
    PrefixValue(m, |DENOMS|)
  }

  /** `Math.ceil((double) a / b)` on integers. */
  function CeilDiv(a: int, b: int): (r: int)
    requires b > 0
    ensures b * r >= a && b * (r - 1) < a
  {
    (a + b - 1) / b
  }

  /** The ceiling exceeds t exactly when a exceeds t units of b. */
  lemma CeilDivExceeds(a: int, b: int, t: int)
    requires b > 0
    ensures CeilDiv(a, b) > t <==> a > b * t
    ensures b * CeilDiv(a, b) > b * t <==> a > b * t
  {
    var r := CeilDiv(a, b);
    if r > t {
      MulMonotone(b, t, r - 1);
    } else {
      MulMonotone(b, r, t);
    }
  }

  /** Subtracting whole units of b lowers the ceiling by exactly those units. */
  lemma CeilDivShift(a: int, b: int, c: int)
    requires b > 0
    ensures CeilDiv(a - b * c, b) == CeilDiv(a, b) - c
  {
    var r := CeilDiv(a, b);
    var s := CeilDiv(a - b * c, b);
    CeilDivExceeds(a - b * c, b, r - c - 1);
    CeilDivExceeds(a - b * c, b, r - c);
    assert b * (r - c - 1) == b * (r - 1) - b * c;
    assert b * (r - c) == b * r - b * c;
  }

  lemma MulMonotone(b: int, x: int, y: int)
    requires b > 0 && x <= y
    ensures b * x <= b * y
  {
    assert b * y - b * x == b * (y - x);
  }

  lemma MulCancel(b: int, x: int, y: int)
    requires b > 0 && b * x >= b * y
    ensures x >= y
  {
    if x < y {
      MulMonotone(b, x + 1, y);
    }
  }

  /** Setting the count of DENOMS[j] changes the money in any prefix containing it by the difference. */
  lemma {:induction false} PrefixValueUpdate(m: map<int, int>, j: nat, v: int, n: nat)
    requires j < n <= |DENOMS|
    ensures PrefixValue(m[DENOMS[j] := v], n) == PrefixValue(m, n) + DENOMS[j] * (v - Get(m, DENOMS[j]))
  {
    var m' := m[DENOMS[j] := v];
    if n - 1 == j {
      forall l | 0 <= l < j ensures Get(m', DENOMS[l]) == Get(m, DENOMS[l]) {
        DenomsDistinct(l, j);
      }
      PrefixValueAgree(m', m, j);
    } else {
      PrefixValueUpdate(m, j, v, n - 1);
      DenomsDistinct(n - 1, j);
    }
  }

  /** Adding q to the count of DENOMS[j] adds q times DENOMS[j] to any prefix containing it. */
  lemma PrefixValueAdd(m: map<int, int>, j: nat, q: int, n: nat)
    requires j < n <= |DENOMS|
    ensures PrefixValue(m[DENOMS[j] := Get(m, DENOMS[j]) + q], n) == PrefixValue(m, n) + DENOMS[j] * q
  {
    PrefixValueUpdate(m, j, Get(m, DENOMS[j]) + q, n);
  }

  /** Taking q from the count of DENOMS[j] takes q times DENOMS[j] from any prefix containing it. */
  lemma PrefixValueTake(m: map<int, int>, j: nat, q: int, n: nat)
    requires j < n <= |DENOMS|
    ensures PrefixValue(m[DENOMS[j] := Get(m, DENOMS[j]) - q], n) == PrefixValue(m, n) - DENOMS[j] * q
  {
    PrefixValueUpdate(m, j, Get(m, DENOMS[j]) - q, n);
    assert DENOMS[j] * ((Get(m, DENOMS[j]) - q) - Get(m, DENOMS[j])) == -(DENOMS[j] * q);
  }

  /** Counts the `n` largest denominations hold, measured in units of DENOMS[i]. */
  function Units(m: map<int, int>, n: nat, i: nat): int
    requires n <= i + 1 && i < |DENOMS|
  {
    if n == 0 then 0 else Units(m, n - 1, i) + (DENOMS[n - 1] / DENOMS[i]) * Get(m, DENOMS[n - 1])
  }

  /** Money held in denominations no smaller than DENOMS[i] is a whole number of DENOMS[i]. */
  lemma {:induction false} PrefixValueUnits(m: map<int, int>, n: nat, i: nat)
    requires n <= i + 1 && i < |DENOMS|
    ensures PrefixValue(m, n) == DENOMS[i] * Units(m, n, i)
  {
    if n > 0 {
      PrefixValueUnits(m, n - 1, i);
      DenomDivides(n - 1, i);
      var q := DENOMS[n - 1] / DENOMS[i];
      var c := Get(m, DENOMS[n - 1]);
      UnitsStep(DENOMS[i], Units(m, n - 1, i), q, c);
    }
  }

  lemma UnitsStep(d: int, u: int, q: int, c: int)
    ensures d * u + (d * q) * c == d * (u + q * c)
  {
  }

  /** Maps agreeing on the `n` largest denominations hold the same money there. */
  lemma {:induction false} PrefixValueAgree(a: map<int, int>, b: map<int, int>, n: nat)
    requires n <= |DENOMS|
    requires forall j :: 0 <= j < n ==> Get(a, DENOMS[j]) == Get(b, DENOMS[j])
    ensures PrefixValue(a, n) == PrefixValue(b, n)
  {
    if n > 0 {
      PrefixValueAgree(a, b, n - 1);
    }
  }

  /** Maps agreeing on every denomination from position `n` on differ in value only in the prefix. */
  lemma {:induction false} SuffixValueAgree(a: map<int, int>, b: map<int, int>, n: nat, hi: nat)
    requires n <= hi <= |DENOMS|
    requires forall j :: n <= j < hi ==> Get(a, DENOMS[j]) == Get(b, DENOMS[j])
    ensures PrefixValue(a, hi) - PrefixValue(a, n) == PrefixValue(b, hi) - PrefixValue(b, n)
  {
    if hi > n {
      SuffixValueAgree(a, b, n, hi - 1);
    }
  }

  /** With no negative count, a longer prefix never holds less money. */
  lemma {:induction false} PrefixValueMonotone(m: map<int, int>, l: nat, n: nat)
    requires l <= n <= |DENOMS|
    requires NonNegative(m)
    ensures PrefixValue(m, l) <= PrefixValue(m, n)
  {
    if n > l {
      PrefixValueMonotone(m, l, n - 1);
    }
  }
}
