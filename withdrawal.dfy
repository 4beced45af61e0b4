/**
 * What `withdraw` computes, as functions of the committed ledger and the flat request, for both
 * machines: the canonical one (package `teller`) and the default-package variant, which share
 * validation, aggregation and both conversion passes and differ in how the converted
 * denomination is finally deducted. A result of None is a withdraw that returns false.
 */
module Withdrawal {
  import opened Cash
  import opened Requests
  import opened Conversion

  /** Which of the two implementations a definition follows. */
  datatype Variant = Canonical | DefaultPackage

  /**
   * `convertDenomination(denomination, amountNeeded, tempCash)`: None when it returns false,
   * otherwise the scratch ledger it leaves. The canonical engine refuses a zero amount; the
   * variant has no such guard and finally deducts the converted units itself.
   */
  function Convert(v: Variant, m: map<int, int>, d: int, amountNeeded: int): Option<map<int, int>>
    requires d in DENOMS
  {
    if v == Canonical && amountNeeded == 0 then None
    else
      var numberNeeded := amountNeeded / d;
      match Propagate(m, IndexOf(d), map[d := numberNeeded])
      case None => None
      case Some(needed) =>
        var t := Cascade(m, needed, 0);
        if v == Canonical then Some(t) else Some(t[d := Get(t, d) - numberNeeded])
  }

  /**
   * `withdrawDenomination(denomination, quantity, tempCash)`: take the bills directly when enough
   * are on hand, otherwise convert the shortfall first. After a conversion the canonical machine
   * deducts the full quantity; the variant deducts nothing further.
   */
  function WithdrawDenomination(v: Variant, m: map<int, int>, d: int, q: int): Option<map<int, int>>
    requires d in DENOMS
  {
    var availableAmount := Get(m, d);
    if availableAmount >= q then Some(m[d := availableAmount - q])
    else
      match Convert(v, m, d, d * (q - availableAmount))
      case None => None
      case Some(t) => if v == Canonical then Some(t[d := Get(t, d) - q]) else Some(t)
  }

  /** One iteration of the loop of `withdraw`: a denomination requested at least once is withdrawn, any other skipped. */
  function Step(v: Variant, m: map<int, int>, requestMap: map<int, int>, i: nat): Option<map<int, int>>
    requires i < |DENOMS|
  {
    var quantity := Get(requestMap, DENOMS[i]);
    if quantity >= 1 then WithdrawDenomination(v, m, DENOMS[i], quantity) else Some(m)
  }

  /** The per-denomination loop of `withdraw` from position i on: 20s, then 10s, 5s and 1s. */
  function ProcessFrom(v: Variant, m: map<int, int>, requestMap: map<int, int>, i: nat): Option<map<int, int>>
    requires i <= |DENOMS|
    decreases |DENOMS| - i
  {
    if i == |DENOMS| then Some(m)
    else
      match Step(v, m, requestMap, i)
      case None => None
      case Some(t) => ProcessFrom(v, t, requestMap, i + 1)
  }

  /**
   * `withdraw(request...)` on the committed ledger `cash`: Some(new ledger) when it returns true,
   * None when it returns false (the ledger is then left as it was). The canonical commit is
   * `putAll` onto the old ledger; the variant clears the ledger first.
   */
  function Withdraw(v: Variant, cash: map<int, int>, request: seq<int>): Option<map<int, int>>
  {
    if |request| == 0 then Some(cash)
    else if |request| % 2 != 0 then None
    else if !AllValid(Pairs(request)) then None
    else
      match ProcessFrom(v, cash, Requested(Pairs(request)), 0)
      case None => None
      case Some(t) => if v == Canonical then Some(cash + t) else Some(map[] + t)
  }

  /**
   * The request can be served by breaking only larger bills: for every n, the money requested in
   * the n largest denominations is at most the money the ledger holds in them.
   */
  ghost predicate Feasible(m: map<int, int>, requestMap: map<int, int>)
  {
    forall n :: 1 <= n <= |DENOMS| ==> PrefixValue(requestMap, n) <= PrefixValue(m, n)
  }

  /** The money a list of pairs asks for: the sum of denomination times quantity. */
  function Amount(ps: seq<Pair>): int
    decreases |ps|
  {
    if ps == [] then 0 else ps[0].denomination * ps[0].quantity + Amount(ps[1..])
  }

  /** A shortfall of `units` bills of DENOMS[k] is an amount the division in the engine recovers exactly. */
  lemma ShortfallUnits(k: nat, units: int)
    requires k < |DENOMS| && units > 0
    ensures DENOMS[k] * units > 0
    ensures (DENOMS[k] * units) / DENOMS[k] == units
  {
    DenomDivides(k, k);
    MulMonotone(DENOMS[k], 1, units);
  }

  /**
   * The amount `withdrawDenomination` hands to the engine when fewer than q bills of d are on
   * hand is positive, so the engine's zero guard never fires from there, and the engine's division
   * gives back the number of bills missing.
   */
  lemma ShortfallAmount(m: map<int, int>, d: int, q: int)
    requires d in DENOMS && Get(m, d) < q
    ensures d * (q - Get(m, d)) > 0
    ensures (d * (q - Get(m, d))) / d == q - Get(m, d)
  {
    ShortfallUnits(IndexOf(d), q - Get(m, d));
  }

  /**
   * What the canonical engine guarantees for a shortfall of `units` bills of DENOMS[k]: it fails
   * exactly when the larger bills hold less money than the shortfall; otherwise it supplies the
   * shortfall, keeps every count non-negative, keeps the total money and leaves the smaller
   * denominations alone.
   */
  ghost predicate Supplies(m: map<int, int>, k: nat, units: int, c: Option<map<int, int>>)
    requires k < |DENOMS|
  {
    && (c.None? <==> DENOMS[k] * units > PrefixValue(m, k))
    && (c.Some? ==>
          && NonNegative(c.value)
          && Get(c.value, DENOMS[k]) >= Get(m, DENOMS[k]) + units
          && Value(c.value) == Value(m)
          && (HasAllKeys(m) ==> HasAllKeys(c.value))
          && (forall j :: k < j < |DENOMS| ==> Get(c.value, DENOMS[j]) == Get(m, DENOMS[j])))
  }

  /**
   * What one denomination of a canonical withdraw guarantees: it fails exactly when q bills of
   * DENOMS[k] are worth more than the ledger holds in DENOMS[k] and the larger denominations;
   * otherwise no count becomes negative, the smaller denominations are untouched, and every prefix
   * reaching DENOMS[k] loses exactly the money taken.
   */
  ghost predicate TakesExactly(m: map<int, int>, k: nat, q: int, r: Option<map<int, int>>)
    requires k < |DENOMS|
  {
    && (r.None? <==> DENOMS[k] * q > PrefixValue(m, k + 1))
    && (r.Some? ==>
          && NonNegative(r.value)
          && (HasAllKeys(m) ==> HasAllKeys(r.value))
          && (forall j :: k < j < |DENOMS| ==> Get(r.value, DENOMS[j]) == Get(m, DENOMS[j]))
          && (forall n :: k < n <= |DENOMS| ==> PrefixValue(r.value, n) == PrefixValue(m, n) - DENOMS[k] * q))
  }

  /** The canonical engine entered, as `withdrawDenomination` enters it, for a shortfall of `units` bills of DENOMS[k]. */
  lemma ConvertOutcome(m: map<int, int>, k: nat, units: int)
    requires NonNegative(m) && k < |DENOMS| && units > 0
    ensures Supplies(m, k, units, Convert(Canonical, m, DENOMS[k], DENOMS[k] * units))
  {
    ShortfallUnits(k, units);
    assert IndexOf(DENOMS[k]) == k;
    ConversionOutcome(m, k, units);
    assert units * DENOMS[k] == DENOMS[k] * units;
  }

  /** The variant's engine differs from the canonical one only by deducting the shortfall at the end. */
  lemma ConvertVariant(m: map<int, int>, k: nat, units: int)
    requires k < |DENOMS| && units > 0
    ensures var c := Convert(Canonical, m, DENOMS[k], DENOMS[k] * units);
            var r := Convert(DefaultPackage, m, DENOMS[k], DENOMS[k] * units);
            && (r.None? <==> c.None?)
            && (r.Some? ==> r.value == c.value[DENOMS[k] := Get(c.value, DENOMS[k]) - units])
  {
    ShortfallUnits(k, units);
  }

  /** One denomination of a canonical withdraw on a scratch ledger with no negative count. */
  lemma WithdrawDenominationOutcome(m: map<int, int>, k: nat, q: int)
    requires NonNegative(m) && k < |DENOMS| && q >= 0
    ensures TakesExactly(m, k, q, WithdrawDenomination(Canonical, m, DENOMS[k], q))
  {
    var d := DENOMS[k];
    var avail := Get(m, d);
    if avail >= q {
      DirectPath(m, k, q);
      DenomDivides(k, k);
      MulMonotone(d, q, avail);
    } else {
      ConvertedPath(m, k, q);
    }
  }

  /** The conversion path of one denomination of a canonical withdraw. */
  lemma ConvertedPath(m: map<int, int>, k: nat, q: int)
    requires NonNegative(m) && k < |DENOMS| && Get(m, DENOMS[k]) < q
    ensures TakesExactly(m, k, q, WithdrawDenomination(Canonical, m, DENOMS[k], q))
  {
    var d := DENOMS[k];
    var c := Convert(Canonical, m, d, d * (q - Get(m, d)));
    ConvertOutcome(m, k, q - Get(m, d));
    ConvertThenTake(m, d, q);
    TakenAfterConversion(m, k, q, c, WithdrawDenomination(Canonical, m, d, q));
  }

  /** Direct path: with q bills on hand exactly q are taken and no other count changes. */
  lemma DirectPath(m: map<int, int>, k: nat, q: int)
    requires NonNegative(m) && k < |DENOMS| && 0 <= q <= Get(m, DENOMS[k])
    ensures var r := WithdrawDenomination(Canonical, m, DENOMS[k], q);
            && r.Some?
            && r == WithdrawDenomination(DefaultPackage, m, DENOMS[k], q)
            && Get(r.value, DENOMS[k]) == Get(m, DENOMS[k]) - q
            && (forall d :: d != DENOMS[k] ==> Get(r.value, d) == Get(m, d))
            && NonNegative(r.value)
            && (HasAllKeys(m) ==> HasAllKeys(r.value))
            && (forall n :: k < n <= |DENOMS| ==> PrefixValue(r.value, n) == PrefixValue(m, n) - DENOMS[k] * q)
  {
    var t := m[DENOMS[k] := Get(m, DENOMS[k]) - q];
    forall n | k < n <= |DENOMS| ensures PrefixValue(t, n) == PrefixValue(m, n) - DENOMS[k] * q {
      PrefixValueTake(m, k, q, n);
    }
    forall j | 0 <= j < |DENOMS| ensures Get(t, DENOMS[j]) >= 0 {
      if j != k {
        DenomsDistinct(j, k);
      }
    }
  }

  /** Taking the full quantity q from what a successful conversion of the shortfall left. */
  lemma TakenAfterConversion(m: map<int, int>, k: nat, q: int, c: Option<map<int, int>>, r: Option<map<int, int>>)
    requires NonNegative(m) && k < |DENOMS| && Get(m, DENOMS[k]) < q
    requires Supplies(m, k, q - Get(m, DENOMS[k]), c)
    requires r == if c.None? then None else Some(c.value[DENOMS[k] := Get(c.value, DENOMS[k]) - q])
    ensures TakesExactly(m, k, q, r)
  {
    var d := DENOMS[k];
    ShortfallArithmetic(d, q, Get(m, d), PrefixValue(m, k));
    if c.Some? {
      var t := c.value;
      var t' := t[d := Get(t, d) - q];
      forall n | k < n <= |DENOMS| ensures PrefixValue(t', n) == PrefixValue(m, n) - d * q {
        PrefixValueTake(t, k, q, n);
        SuffixValueAgree(t, m, n, |DENOMS|);
      }
      forall j | 0 <= j < |DENOMS| ensures Get(t', DENOMS[j]) >= 0 && (k < j ==> Get(t', DENOMS[j]) == Get(m, DENOMS[j])) {
        if j != k {
          DenomsDistinct(j, k);
        }
      }
    }
  }

  /** After a conversion the canonical machine takes the full quantity from what the engine left. */
  lemma ConvertThenTake(m: map<int, int>, d: int, q: int)
    requires d in DENOMS && Get(m, d) < q
    ensures var c := Convert(Canonical, m, d, d * (q - Get(m, d)));
            WithdrawDenomination(Canonical, m, d, q)
            == if c.None? then None else Some(c.value[d := Get(c.value, d) - q])
  {
  }

  /** d * (q - avail) > P exactly when d * q > P + d * avail. */
  lemma ShortfallArithmetic(d: int, q: int, avail: int, p: int)
    ensures d * (q - avail) > p <==> d * q > p + d * avail
  {
    assert d * (q - avail) == d * q - d * avail;
  }

  /**
   * How one denomination of the variant's withdraw relates to the canonical one: it fails exactly
   * when the canonical one does; on the direct path it does the same; when it converts, it leaves
   * the bills that were already on hand in the ledger, so its result is the canonical result with
   * those bills added back.
   */
  ghost predicate KeepsOnHand(m: map<int, int>, d: int, q: int, c: Option<map<int, int>>, r: Option<map<int, int>>)
  {
    && (r.None? <==> c.None?)
    && (r.Some? && Get(m, d) >= q ==> r == c)
    && (r.Some? && Get(m, d) < q ==> r.value == c.value[d := Get(c.value, d) + Get(m, d)])
  }

  /** One denomination of the variant's withdraw against the canonical one. */
  lemma VariantWithdrawDenomination(m: map<int, int>, k: nat, q: int)
    requires k < |DENOMS|
    ensures KeepsOnHand(m, DENOMS[k], q, WithdrawDenomination(Canonical, m, DENOMS[k], q),
                        WithdrawDenomination(DefaultPackage, m, DENOMS[k], q))
  {
    var d := DENOMS[k];
    if Get(m, d) >= q {
      DirectAlike(m, d, q);
    } else {
      VariantConvertedPath(m, k, q);
    }
  }

  /** On the direct path both machines take the same q bills. */
  lemma DirectAlike(m: map<int, int>, d: int, q: int)
    requires d in DENOMS && Get(m, d) >= q
    ensures WithdrawDenomination(Canonical, m, d, q) == WithdrawDenomination(DefaultPackage, m, d, q) == Some(m[d := Get(m, d) - q])
  {
  }

  /** The conversion path of one denomination of the variant against the canonical one. */
  lemma VariantConvertedPath(m: map<int, int>, k: nat, q: int)
    requires k < |DENOMS| && Get(m, DENOMS[k]) < q
    ensures KeepsOnHand(m, DENOMS[k], q, WithdrawDenomination(Canonical, m, DENOMS[k], q),
                        WithdrawDenomination(DefaultPackage, m, DENOMS[k], q))
  {
    var d := DENOMS[k];
    var avail := Get(m, d);
    ConvertVariant(m, k, q - avail);
    ConvertThenTake(m, d, q);
    ConvertThenKeep(m, d, q);
    KeptAfterConversion(m, d, q, Convert(Canonical, m, d, d * (q - avail)),
                        Convert(DefaultPackage, m, d, d * (q - avail)),
                        WithdrawDenomination(Canonical, m, d, q), WithdrawDenomination(DefaultPackage, m, d, q));
  }

  /** After a conversion the variant returns what its engine left. */
  lemma ConvertThenKeep(m: map<int, int>, d: int, q: int)
    requires d in DENOMS && Get(m, d) < q
    ensures WithdrawDenomination(DefaultPackage, m, d, q) == Convert(DefaultPackage, m, d, d * (q - Get(m, d)))
  {
  }

  lemma KeptAfterConversion(m: map<int, int>, d: int, q: int, cc: Option<map<int, int>>, cv: Option<map<int, int>>,
                            c: Option<map<int, int>>, r: Option<map<int, int>>)
    requires Get(m, d) < q
    requires cv.None? <==> cc.None?
    requires cv.Some? ==> cv.value == cc.value[d := Get(cc.value, d) - (q - Get(m, d))]
    requires c == if cc.None? then None else Some(cc.value[d := Get(cc.value, d) - q])
    requires r == cv
    ensures KeepsOnHand(m, d, q, c, r)
  {
    if r.Some? {
      var t := cc.value;
      var ct := t[d := Get(t, d) - q];
      assert r.value == ct[d := Get(ct, d) + Get(m, d)];
    }
  }

  /**
   * What the canonical loop from position i guarantees: it succeeds exactly when, for every n past
   * i, the money requested from position i up to n is at most the money held in the n largest
   * denominations; it then keeps every count non-negative, keeps the keys and takes exactly the
   * money requested from i on.
   */
  ghost predicate ProcessesFrom(m: map<int, int>, requestMap: map<int, int>, i: nat, r: Option<map<int, int>>)
    requires i <= |DENOMS|
  {
    && (r.Some? <==> forall n :: i < n <= |DENOMS| ==>
          PrefixValue(requestMap, n) - PrefixValue(requestMap, i) <= PrefixValue(m, n))
    && (r.Some? ==>
          && NonNegative(r.value)
          && (HasAllKeys(m) ==> HasAllKeys(r.value))
          && Value(r.value) == Value(m) - (Value(requestMap) - PrefixValue(requestMap, i)))
  }

  /** One iteration of the canonical loop takes exactly the quantity requested of its denomination. */
  lemma StepOutcome(m: map<int, int>, requestMap: map<int, int>, i: nat)
    requires NonNegative(m) && NonNegative(requestMap) && i < |DENOMS|
    ensures TakesExactly(m, i, Get(requestMap, DENOMS[i]), Step(Canonical, m, requestMap, i))
  {
    var q := Get(requestMap, DENOMS[i]);
    if q >= 1 {
      WithdrawDenominationOutcome(m, i, q);
    } else {
      assert q == 0;
      assert DENOMS[i] * q == 0;
      PrefixValueMonotone(m, 0, i + 1);
    }
  }

  /** The loop from position i is its first iteration followed by the loop from i + 1. */
  lemma ProcessUnfolds(v: Variant, m: map<int, int>, requestMap: map<int, int>, i: nat)
    requires i < |DENOMS|
    ensures var step := Step(v, m, requestMap, i);
            ProcessFrom(v, m, requestMap, i) == if step.None? then None else ProcessFrom(v, step.value, requestMap, i + 1)
  {
  }

  /** The loop from position i on a ledger with no negative count, for a request with no negative quantity. */
  lemma {:induction false} ProcessOutcome(m: map<int, int>, requestMap: map<int, int>, i: nat)
    requires NonNegative(m) && NonNegative(requestMap) && i <= |DENOMS|
    ensures ProcessesFrom(m, requestMap, i, ProcessFrom(Canonical, m, requestMap, i))
    decreases |DENOMS| - i
  {
    if i < |DENOMS| {
      StepOutcome(m, requestMap, i);
      ProcessUnfolds(Canonical, m, requestMap, i);
      var step := Step(Canonical, m, requestMap, i);
      var rest := if step.None? then None else ProcessFrom(Canonical, step.value, requestMap, i + 1);
      if step.Some? {
        ProcessOutcome(step.value, requestMap, i + 1);
      }
      ProcessCombines(m, requestMap, i, step, rest);
    }
  }

  /** An exact take at position i followed by the loop from i + 1 is the loop from i. */
  lemma ProcessCombines(m: map<int, int>, requestMap: map<int, int>, i: nat,
                        step: Option<map<int, int>>, rest: Option<map<int, int>>)
    requires NonNegative(m) && NonNegative(requestMap) && i < |DENOMS|
    requires TakesExactly(m, i, Get(requestMap, DENOMS[i]), step)
    requires step.None? ==> rest.None?
    requires step.Some? ==> ProcessesFrom(step.value, requestMap, i + 1, rest)
    ensures ProcessesFrom(m, requestMap, i, rest)
  {
    var q := Get(requestMap, DENOMS[i]);
    assert PrefixValue(requestMap, i + 1) == PrefixValue(requestMap, i) + DENOMS[i] * q;
    if step.Some? {
      var t := step.value;
      forall n | i + 1 < n <= |DENOMS|
        ensures (PrefixValue(requestMap, n) - PrefixValue(requestMap, i + 1) <= PrefixValue(t, n))
                <==> (PrefixValue(requestMap, n) - PrefixValue(requestMap, i) <= PrefixValue(m, n))
      {
      }
    } else {
      assert !(PrefixValue(requestMap, i + 1) - PrefixValue(requestMap, i) <= PrefixValue(m, i + 1));
    }
  }

  /** A valid request aggregates to a requestMap with no negative entry. */
  lemma RequestedNonNegative(ps: seq<Pair>)
    requires AllValid(ps)
    ensures NonNegative(Requested(ps))
  {
    forall j | 0 <= j < |DENOMS| ensures Get(Requested(ps), DENOMS[j]) >= 0 {
      RequestedSums(ps, DENOMS[j]);
    }
  }

  lemma AllValidTail(ps: seq<Pair>)
    requires ps != [] && AllValid(ps)
    ensures ValidPair(ps[0]) && AllValid(ps[1..])
  {
    forall j | 0 <= j < |ps| - 1 ensures ValidPair(ps[1..][j]) {
      assert ps[1..][j] == ps[j + 1];
    }
  }

  /** Aggregating valid pairs adds exactly the money they ask for. */
  lemma {:induction false} AggregateValue(ps: seq<Pair>, acc: map<int, int>)
    requires AllValid(ps)
    ensures Value(Aggregate(ps, acc)) == Value(acc) + Amount(ps)
    decreases |ps|
  {
    if ps != [] {
      var p := ps[0];
      AllValidTail(ps);
      PrefixValueAdd(acc, IndexOf(p.denomination), p.quantity, |DENOMS|);
      AggregateValue(ps[1..], acc[p.denomination := Get(acc, p.denomination) + p.quantity]);
    }
  }

  /** The requestMap of a valid request is worth exactly the money the request asks for. */
  lemma RequestedValue(ps: seq<Pair>)
    requires AllValid(ps)
    ensures Value(Requested(ps)) == Amount(ps)
  {
    AggregateValue(ps, map[]);
    NothingIsWorthless(map[], |DENOMS|);
  }

  lemma {:induction false} NothingIsWorthless(m: map<int, int>, n: nat)
    requires n <= |DENOMS| && m == map[]
    ensures PrefixValue(m, n) == 0
  {
    if n > 0 {
      NothingIsWorthless(m, n - 1);
    }
  }

  /** `putAll` of a scratch ledger with every key replaces the ledger; so does clear + putAll. */
  lemma CommitReplaces(cash: map<int, int>, t: map<int, int>)
    requires HasAllKeys(cash) && HasAllKeys(t)
    ensures cash + t == t && map[] + t == t
  {
    forall d | d in cash ensures d in t {
    }
    assert (cash + t).Keys == t.Keys;
  }

  /**
   * What the whole canonical loop guarantees: it succeeds exactly when the request is feasible,
   * and then leaves no count negative, keeps the keys and holds exactly the money requested less.
   */
  ghost predicate ProcessesExactly(m: map<int, int>, requestMap: map<int, int>, p: Option<map<int, int>>)
  {
    && (p.Some? <==> Feasible(m, requestMap))
    && (p.Some? ==>
          && NonNegative(p.value)
          && (HasAllKeys(m) ==> HasAllKeys(p.value))
          && Value(p.value) == Value(m) - Value(requestMap))
  }

  /** The canonical loop over all four denominations. */
  lemma ProcessAll(m: map<int, int>, requestMap: map<int, int>)
    requires NonNegative(m) && NonNegative(requestMap)
    ensures ProcessesExactly(m, requestMap, ProcessFrom(Canonical, m, requestMap, 0))
  {
    ProcessOutcome(m, requestMap, 0);
    var p := ProcessFrom(Canonical, m, requestMap, 0);
    if p.Some? {
      forall n | 1 <= n <= |DENOMS| ensures PrefixValue(requestMap, n) <= PrefixValue(m, n) {
        assert PrefixValue(requestMap, n) - PrefixValue(requestMap, 0) <= PrefixValue(m, n);
      }
    } else {
      var n :| 0 < n <= |DENOMS| && PrefixValue(requestMap, n) - PrefixValue(requestMap, 0) > PrefixValue(m, n);
      assert !(PrefixValue(requestMap, n) <= PrefixValue(m, n));
    }
  }

  /** A valid request of even, non-zero length reaches the loop and commits what it leaves. */
  lemma WithdrawCommits(v: Variant, cash: map<int, int>, request: seq<int>)
    requires |request| > 0 && |request| % 2 == 0 && AllValid(Pairs(request))
    ensures var p := ProcessFrom(v, cash, Requested(Pairs(request)), 0);
            Withdraw(v, cash, request)
            == if p.None? then None else Some(if v == Canonical then cash + p.value else map[] + p.value)
  {
  }

  /** A request of even, non-zero length with a bad pair is refused before the loop. */
  lemma WithdrawRejects(v: Variant, cash: map<int, int>, request: seq<int>)
    requires |request| > 0 && |request| % 2 == 0 && !AllValid(Pairs(request))
    ensures Withdraw(v, cash, request) == None
  {
  }

  lemma CommitOutcome(cash: map<int, int>, requestMap: map<int, int>, amount: int,
                      p: Option<map<int, int>>, r: Option<map<int, int>>)
    requires IsLedger(cash) && ProcessesExactly(cash, requestMap, p) && Value(requestMap) == amount
    requires r == if p.None? then None else Some(cash + p.value)
    ensures r.Some? <==> Feasible(cash, requestMap)
    ensures r.Some? ==> IsLedger(r.value) && Value(r.value) == Value(cash) - amount
  {
    if p.Some? {
      CommitReplaces(cash, p.value);
    }
  }

  /**
   * A canonical withdraw on a committed ledger: an empty request succeeds with the ledger as it
   * was; an odd-length request, an unsupported denomination or a negative quantity fails; a valid
   * request succeeds exactly when it is feasible, and then the new ledger is a committed ledger
   * holding exactly the money requested less. A failure leaves the ledger as it was (the model
   * returns None and nothing else).
   */
  lemma WithdrawOutcome(cash: map<int, int>, request: seq<int>)
    requires IsLedger(cash)
    ensures var r := Withdraw(Canonical, cash, request);
            && (|request| == 0 ==> r == Some(cash))
            && (|request| % 2 != 0 ==> r.None?)
            && (!AllValid(Pairs(request)) ==> r.None?)
            && (|request| > 0 && |request| % 2 == 0 && AllValid(Pairs(request)) ==>
                  (r.Some? <==> Feasible(cash, Requested(Pairs(request)))))
            && (r.Some? ==> IsLedger(r.value) && Value(r.value) == Value(cash) - Amount(Pairs(request)))
  {
    var ps := Pairs(request);
    if |request| > 0 && |request| % 2 == 0 && AllValid(ps) {
      var requestMap := Requested(ps);
      RequestedNonNegative(ps);
      RequestedValue(ps);
      ProcessAll(cash, requestMap);
      WithdrawCommits(Canonical, cash, request);
      CommitOutcome(cash, requestMap, Amount(ps), ProcessFrom(Canonical, cash, requestMap, 0),
                    Withdraw(Canonical, cash, request));
    }
  }

  /** The per-denomination loop reads the requestMap only at the supported denominations. */
  lemma {:induction false} ProcessFromSameCounts(v: Variant, m: map<int, int>, a: map<int, int>, b: map<int, int>, i: nat)
    requires i <= |DENOMS|
    requires forall j :: 0 <= j < |DENOMS| ==> Get(a, DENOMS[j]) == Get(b, DENOMS[j])
    ensures ProcessFrom(v, m, a, i) == ProcessFrom(v, m, b, i)
    decreases |DENOMS| - i
  {
    if i < |DENOMS| {
      var q := Get(a, DENOMS[i]);
      if q >= 1 {
        var w := WithdrawDenomination(v, m, DENOMS[i], q);
        if w.Some? {
          ProcessFromSameCounts(v, w.value, a, b, i + 1);
        }
      } else {
        ProcessFromSameCounts(v, m, a, b, i + 1);
      }
    }
  }

  /**
   * The outcome of a withdraw of either machine depends only on the length of the request, its
   * validity and the total quantity it asks for per denomination.
   */
  lemma WithdrawSameSums(v: Variant, cash: map<int, int>, a: seq<int>, b: seq<int>)
    requires |a| == |b|
    requires AllValid(Pairs(a)) <==> AllValid(Pairs(b))
    requires forall d :: Sum(Pairs(a), d) == Sum(Pairs(b), d)
    ensures Withdraw(v, cash, a) == Withdraw(v, cash, b)
  {
    forall j | 0 <= j < |DENOMS| ensures Get(Requested(Pairs(a)), DENOMS[j]) == Get(Requested(Pairs(b)), DENOMS[j]) {
      RequestedSums(Pairs(a), DENOMS[j]);
      RequestedSums(Pairs(b), DENOMS[j]);
    }
    ProcessFromSameCounts(v, cash, Requested(Pairs(a)), Requested(Pairs(b)), 0);
  }

  /** Pair order is irrelevant: a request and any rearrangement of its pairs withdraw alike. */
  lemma WithdrawPermutation(v: Variant, cash: map<int, int>, a: seq<int>, b: seq<int>)
    requires |a| == |b|
    requires multiset(Pairs(a)) == multiset(Pairs(b))
    ensures Withdraw(v, cash, a) == Withdraw(v, cash, b)
  {
    AllValidPermutation(Pairs(a), Pairs(b));
    forall d ensures Sum(Pairs(a), d) == Sum(Pairs(b), d) {
      SumPermutation(Pairs(a), Pairs(b), d);
    }
    WithdrawSameSums(v, cash, a, b);
  }

  /** Denominations requested fewer than once are skipped. */
  lemma {:induction false} ProcessFromIdle(v: Variant, m: map<int, int>, requestMap: map<int, int>, i: nat)
    requires i <= |DENOMS|
    requires forall j :: i <= j < |DENOMS| ==> Get(requestMap, DENOMS[j]) < 1
    ensures ProcessFrom(v, m, requestMap, i) == Some(m)
    decreases |DENOMS| - i
  {
    if i < |DENOMS| {
      ProcessFromIdle(v, m, requestMap, i + 1);
    }
  }

  /** A valid request whose aggregated quantities are all 0 succeeds on either machine and changes nothing. */
  lemma WithdrawZero(v: Variant, cash: map<int, int>, request: seq<int>)
    requires HasAllKeys(cash)
    requires |request| % 2 == 0 && AllValid(Pairs(request))
    requires forall j :: 0 <= j < |DENOMS| ==> Sum(Pairs(request), DENOMS[j]) == 0
    ensures Withdraw(v, cash, request) == Some(cash)
  {
    forall j | 0 <= j < |DENOMS| ensures Get(Requested(Pairs(request)), DENOMS[j]) < 1 {
      RequestedSums(Pairs(request), DENOMS[j]);
    }
    ProcessFromIdle(v, cash, Requested(Pairs(request)), 0);
    CommitReplaces(cash, cash);
  }

  /**
   * What one denomination of the variant's withdraw guarantees: it fails exactly when the
   * canonical one does; otherwise no count becomes negative, the smaller denominations are
   * untouched, and every prefix reaching DENOMS[k] loses at most the money taken.
   */
  ghost predicate TakesAtMost(m: map<int, int>, k: nat, q: int, r: Option<map<int, int>>)
    requires k < |DENOMS|
  {
    && (r.None? <==> DENOMS[k] * q > PrefixValue(m, k + 1))
    && (r.Some? ==>
          && NonNegative(r.value)
          && (HasAllKeys(m) ==> HasAllKeys(r.value))
          && (forall j :: k < j < |DENOMS| ==> Get(r.value, DENOMS[j]) == Get(m, DENOMS[j]))
          && (forall n :: k < n <= |DENOMS| ==> PrefixValue(r.value, n) >= PrefixValue(m, n) - DENOMS[k] * q))
  }

  /** One denomination of the variant's withdraw on a scratch ledger with no negative count. */
  lemma VariantWithdrawDenominationOutcome(m: map<int, int>, k: nat, q: int)
    requires NonNegative(m) && k < |DENOMS| && q >= 0
    ensures TakesAtMost(m, k, q, WithdrawDenomination(DefaultPackage, m, DENOMS[k], q))
  {
    WithdrawDenominationOutcome(m, k, q);
    VariantWithdrawDenomination(m, k, q);
    KeptIsAtMost(m, k, q, WithdrawDenomination(Canonical, m, DENOMS[k], q),
                 WithdrawDenomination(DefaultPackage, m, DENOMS[k], q));
  }

  /** Keeping the bills on hand on top of an exact take is a take of at most the money requested. */
  lemma KeptIsAtMost(m: map<int, int>, k: nat, q: int, c: Option<map<int, int>>, r: Option<map<int, int>>)
    requires NonNegative(m) && k < |DENOMS|
    requires TakesExactly(m, k, q, c) && KeepsOnHand(m, DENOMS[k], q, c, r)
    ensures TakesAtMost(m, k, q, r)
  {
    var d := DENOMS[k];
    if r.Some? && Get(m, d) < q {
      var t := c.value;
      var a := Get(m, d);
      assert a >= 0;
      DenomDivides(k, k);
      MulMonotone(d, 0, a);
      forall n | k < n <= |DENOMS| ensures PrefixValue(r.value, n) >= PrefixValue(m, n) - d * q {
        PrefixValueAdd(t, k, a, n);
      }
      forall j | 0 <= j < |DENOMS| ensures Get(r.value, DENOMS[j]) >= 0 && (k < j ==> Get(r.value, DENOMS[j]) == Get(m, DENOMS[j])) {
        if j != k {
          DenomsDistinct(j, k);
        }
      }
    }
  }

  /**
   * What the variant's loop from position i guarantees: whatever the request, a success keeps
   * every count non-negative and keeps the keys; and whenever the canonical loop would succeed,
   * the variant succeeds too and takes at most the money requested from i on (it keeps the bills
   * already on hand wherever it converted).
   */
  ghost predicate VariantProcessesFrom(m: map<int, int>, requestMap: map<int, int>, i: nat, r: Option<map<int, int>>)
    requires i <= |DENOMS|
  {
    && (r.Some? ==> NonNegative(r.value) && (HasAllKeys(m) ==> HasAllKeys(r.value)))
    && ((forall n :: i < n <= |DENOMS| ==>
           PrefixValue(requestMap, n) - PrefixValue(requestMap, i) <= PrefixValue(m, n)) ==>
          r.Some? && Value(r.value) >= Value(m) - (Value(requestMap) - PrefixValue(requestMap, i)))
  }

  /** One iteration of the variant's loop takes at most the quantity requested of its denomination. */
  lemma VariantStepOutcome(m: map<int, int>, requestMap: map<int, int>, i: nat)
    requires NonNegative(m) && NonNegative(requestMap) && i < |DENOMS|
    ensures TakesAtMost(m, i, Get(requestMap, DENOMS[i]), Step(DefaultPackage, m, requestMap, i))
  {
    var q := Get(requestMap, DENOMS[i]);
    if q >= 1 {
      VariantWithdrawDenominationOutcome(m, i, q);
    } else {
      assert q == 0;
      assert DENOMS[i] * q == 0;
      PrefixValueMonotone(m, 0, i + 1);
    }
  }

  /** The variant's loop from position i on a ledger with no negative count, for a request with no negative quantity. */
  lemma {:induction false} VariantProcessOutcome(m: map<int, int>, requestMap: map<int, int>, i: nat)
    requires NonNegative(m) && NonNegative(requestMap) && i <= |DENOMS|
    ensures VariantProcessesFrom(m, requestMap, i, ProcessFrom(DefaultPackage, m, requestMap, i))
    decreases |DENOMS| - i
  {
    if i < |DENOMS| {
      VariantStepOutcome(m, requestMap, i);
      ProcessUnfolds(DefaultPackage, m, requestMap, i);
      var step := Step(DefaultPackage, m, requestMap, i);
      var rest := if step.None? then None else ProcessFrom(DefaultPackage, step.value, requestMap, i + 1);
      if step.Some? {
        VariantProcessOutcome(step.value, requestMap, i + 1);
      }
      VariantCombines(m, requestMap, i, step, rest);
    }
  }

  /** A take of at most the request at position i followed by the variant's loop from i + 1 is its loop from i. */
  lemma VariantCombines(m: map<int, int>, requestMap: map<int, int>, i: nat,
                        step: Option<map<int, int>>, rest: Option<map<int, int>>)
    requires NonNegative(m) && NonNegative(requestMap) && i < |DENOMS|
    requires TakesAtMost(m, i, Get(requestMap, DENOMS[i]), step)
    requires step.None? ==> rest.None?
    requires step.Some? ==> VariantProcessesFrom(step.value, requestMap, i + 1, rest)
    ensures VariantProcessesFrom(m, requestMap, i, rest)
  {
    var q := Get(requestMap, DENOMS[i]);
    assert PrefixValue(requestMap, i + 1) == PrefixValue(requestMap, i) + DENOMS[i] * q;
    if forall n :: i < n <= |DENOMS| ==> PrefixValue(requestMap, n) - PrefixValue(requestMap, i) <= PrefixValue(m, n) {
      assert PrefixValue(requestMap, i + 1) - PrefixValue(requestMap, i) <= PrefixValue(m, i + 1);
      var t := step.value;
      forall n | i + 1 < n <= |DENOMS|
        ensures PrefixValue(requestMap, n) - PrefixValue(requestMap, i + 1) <= PrefixValue(t, n)
      {
        assert PrefixValue(requestMap, n) - PrefixValue(requestMap, i) <= PrefixValue(m, n);
      }
    }
  }

  /**
   * A withdraw of the variant on a committed ledger: an empty request succeeds with the ledger as
   * it was; an odd-length request, an unsupported denomination or a negative quantity fails; any
   * success leaves a committed ledger; a feasible valid request succeeds, and the new ledger holds
   * at least the original money less the money requested.
   */
  lemma VariantWithdrawOutcome(cash: map<int, int>, request: seq<int>)
    requires IsLedger(cash)
    ensures var r := Withdraw(DefaultPackage, cash, request);
            && (|request| == 0 ==> r == Some(cash))
            && (|request| % 2 != 0 ==> r.None?)
            && (!AllValid(Pairs(request)) ==> r.None?)
            && (r.Some? ==> IsLedger(r.value))
            && (|request| % 2 == 0 && AllValid(Pairs(request)) && Feasible(cash, Requested(Pairs(request))) ==>
                  r.Some? && Value(r.value) >= Value(cash) - Amount(Pairs(request)))
  {
    var ps := Pairs(request);
    if |request| > 0 && |request| % 2 == 0 && AllValid(ps) {
      var requestMap := Requested(ps);
      RequestedNonNegative(ps);
      RequestedValue(ps);
      VariantProcessAll(cash, requestMap);
      WithdrawCommits(DefaultPackage, cash, request);
      VariantCommitOutcome(cash, requestMap, Amount(ps), ProcessFrom(DefaultPackage, cash, requestMap, 0),
                           Withdraw(DefaultPackage, cash, request));
    }
  }

  /** What the whole loop of the variant guarantees. */
  ghost predicate ProcessesAtMost(m: map<int, int>, requestMap: map<int, int>, p: Option<map<int, int>>)
  {
    && (p.Some? ==> NonNegative(p.value) && (HasAllKeys(m) ==> HasAllKeys(p.value)))
    && (Feasible(m, requestMap) ==> p.Some? && Value(p.value) >= Value(m) - Value(requestMap))
  }

  /** The variant's loop over all four denominations. */
  lemma VariantProcessAll(m: map<int, int>, requestMap: map<int, int>)
    requires NonNegative(m) && NonNegative(requestMap)
    ensures ProcessesAtMost(m, requestMap, ProcessFrom(DefaultPackage, m, requestMap, 0))
  {
    VariantProcessOutcome(m, requestMap, 0);
    if Feasible(m, requestMap) {
      forall n | 0 < n <= |DENOMS| ensures PrefixValue(requestMap, n) - PrefixValue(requestMap, 0) <= PrefixValue(m, n) {
        assert PrefixValue(requestMap, n) <= PrefixValue(m, n);
      }
    }
  }

  lemma VariantCommitOutcome(cash: map<int, int>, requestMap: map<int, int>, amount: int,
                             p: Option<map<int, int>>, r: Option<map<int, int>>)
    requires IsLedger(cash) && ProcessesAtMost(cash, requestMap, p) && Value(requestMap) == amount
    requires r == if p.None? then None else Some(map[] + p.value)
    ensures r.Some? ==> IsLedger(r.value)
    ensures Feasible(cash, requestMap) ==> r.Some? && Value(r.value) >= Value(cash) - amount
  {
    if p.Some? {
      CommitReplaces(cash, p.value);
    }
  }
}
