/**
 * Concrete runs of the specification functions on the vectors of the repository's tests, and the
 * inputs on which the default-package machine departs from the canonical one. Each withdraw is
 * traced denomination by denomination: the needs pass 1 records, the scratch ledger pass 2
 * leaves, and the ledger after each denomination.
 */
module Scenarios {
  import opened Cash
  import opened Requests
  import opened Conversion
  import opened Withdrawal
  import opened Deposits

  /** A ledger given by its counts of 1s, 5s, 10s and 20s. */
  function Ledger(ones: int, fives: int, tens: int, twenties: int): (m: map<int, int>)
    ensures HasAllKeys(m)
    ensures Get(m, 1) == ones && Get(m, 5) == fives && Get(m, 10) == tens && Get(m, 20) == twenties
  {
    map[1 := ones, 5 := fives, 10 := tens, 20 := twenties]
  }

  /** The money a ledger built by Ledger holds. */
  lemma LedgerValue(ones: int, fives: int, tens: int, twenties: int)
    ensures Value(Ledger(ones, fives, tens, twenties)) == ones + 5 * fives + 10 * tens + 20 * twenties
  {
    var m := Ledger(ones, fives, tens, twenties);
    assert PrefixValue(m, 1) == 20 * twenties;
    assert PrefixValue(m, 2) == 20 * twenties + 10 * tens;
    assert PrefixValue(m, 3) == 20 * twenties + 10 * tens + 5 * fives;
  }

  /** The constructor's ledger holds no bills. */
  lemma EmptyIsZero()
    ensures EmptyLedger() == Ledger(0, 0, 0, 0)
  {
  }

  /**
   * One pair of each denomination, 1s first, on a new machine: each count becomes the quantity
   * deposited (the set-up of most withdraw tests).
   */
  lemma DepositEachOnce(ones: nat, fives: nat, tens: nat, twenties: nat)
    ensures Deposit(Ledger(0, 0, 0, 0), [1, ones, 5, fives, 10, tens, 20, twenties])
            == DepositOutcome(Ledger(ones, fives, tens, twenties), None)
  {
    var ps := [Pair(1, ones), Pair(5, fives), Pair(10, tens), Pair(20, twenties)];
    assert Pairs([1, ones, 5, fives, 10, tens, 20, twenties]) == ps;
    var final := DepositOutcome(Ledger(ones, fives, tens, twenties), None);
    assert Ledger(0, 0, 0, 0)[1 := ones] == Ledger(ones, 0, 0, 0);
    assert Ledger(ones, 0, 0, 0)[5 := fives] == Ledger(ones, fives, 0, 0);
    assert Ledger(ones, fives, 0, 0)[10 := tens] == Ledger(ones, fives, tens, 0);
    assert Ledger(ones, fives, tens, 0)[20 := twenties] == Ledger(ones, fives, tens, twenties);
    assert ps[1..] == [Pair(5, fives), Pair(10, tens), Pair(20, twenties)];
    assert ps[1..][1..] == [Pair(10, tens), Pair(20, twenties)];
    assert ps[1..][1..][1..] == [Pair(20, twenties)];
    assert DepositPairs(Ledger(ones, fives, tens, 0), [Pair(20, twenties)]) == final;
    assert DepositPairs(Ledger(ones, fives, 0, 0), [Pair(10, tens), Pair(20, twenties)]) == final;
    assert DepositPairs(Ledger(ones, 0, 0, 0), ps[1..]) == final;
  }

  /** The shorter deposits that set up the perfect-change and complex withdraw tests. */
  lemma ShortSetups()
    ensures Deposit(Ledger(0, 0, 0, 0), [5, 10]) == DepositOutcome(Ledger(0, 10, 0, 0), None)
    ensures Deposit(Ledger(0, 0, 0, 0), [10, 1, 20, 2]) == DepositOutcome(Ledger(0, 0, 1, 2), None)
  {
  }

  /** The set-up of the worked example. */
  lemma ExampleSetup()
    ensures Deposit(Ledger(0, 0, 0, 0), [1, 3, 10, 1, 20, 2]) == DepositOutcome(Ledger(3, 0, 1, 2), None)
  {
  }

  /** Repeated denominations in one deposit accumulate. */
  lemma DepositSameDenomination()
    ensures Deposit(Ledger(0, 0, 0, 0), [10, 2, 10, 5, 10, 3]) == DepositOutcome(Ledger(0, 0, 10, 0), None)
  {
  }

  /** The pair before a bad one stays added; a denomination of -1 is refused as a denomination. */
  lemma DepositKeepsEarlierPairs()
    ensures Deposit(Ledger(0, 0, 0, 0), [10, 1, -1, 2]) == DepositOutcome(Ledger(0, 0, 1, 0), Some(InvalidDenomination(-1)))
  {
  }

  /** The first bad pair decides the error; the denomination is checked before the quantity. */
  lemma DepositFirstErrorWins()
    ensures Deposit(Ledger(0, 0, 0, 0), [2, 1, 3, 1, 7, 3, 21, -4])
            == DepositOutcome(Ledger(0, 0, 0, 0), Some(InvalidDenomination(2)))
    ensures Deposit(Ledger(0, 0, 0, 0), [1, -5, 11, 8, 19, -4, 0, 0, 100, 100])
            == DepositOutcome(Ledger(0, 0, 0, 0), Some(NegativeQuantity(-5)))
  {
    assert Pairs([2, 1, 3, 1, 7, 3, 21, -4])[0] == Pair(2, 1);
    assert Pairs([1, -5, 11, 8, 19, -4, 0, 0, 100, 100])[0] == Pair(1, -5);
  }

  /** An odd-length list throws before any change. */
  lemma DepositOddLength()
    ensures Deposit(Ledger(0, 0, 0, 0), [10, 1, 10]) == DepositOutcome(Ledger(0, 0, 0, 0), Some(OddLength))
  {
  }

  /**
   * The single-pair deposit vectors: an unsupported or zero denomination throws for it, no
   * arguments and a zero quantity change nothing, and a good pair adds its quantity.
   */
  lemma SmallDeposits()
    ensures Deposit(Ledger(0, 0, 0, 0), [2, 0]) == DepositOutcome(Ledger(0, 0, 0, 0), Some(InvalidDenomination(2)))
    ensures Deposit(Ledger(0, 0, 0, 0), [0, 1]) == DepositOutcome(Ledger(0, 0, 0, 0), Some(InvalidDenomination(0)))
    ensures Deposit(Ledger(0, 0, 0, 0), []) == DepositOutcome(Ledger(0, 0, 0, 0), None)
    ensures Deposit(Ledger(0, 0, 0, 0), [10, 0]) == DepositOutcome(Ledger(0, 0, 0, 0), None)
    ensures Deposit(Ledger(0, 0, 0, 0), [1, 1]) == DepositOutcome(Ledger(1, 0, 0, 0), None)
  {
    assert Ledger(0, 0, 0, 0)[10 := 0] == Ledger(0, 0, 0, 0);
    assert Ledger(0, 0, 0, 0)[1 := 1] == Ledger(1, 0, 0, 0);
    assert Pairs([2, 0]) == [Pair(2, 0)];
    assert Pairs([0, 1]) == [Pair(0, 1)];
    assert Pairs([10, 0]) == [Pair(10, 0)];
    assert Pairs([1, 1]) == [Pair(1, 1)];
  }

  /** Two deposits in a row: the second adds to what the first left. */
  lemma DepositChain()
    ensures Deposit(Ledger(0, 0, 1, 2), [1, 3, 5, 2, 20, 3]) == DepositOutcome(Ledger(3, 2, 1, 5), None)
  {
  }

  /** Pairs in no particular order: each count is still the quantity deposited of it. */
  lemma DepositWeirdOrder()
    ensures Deposit(Ledger(0, 0, 0, 0), [20, 1, 5, 2, 1, 7, 10, 2]) == DepositOutcome(Ledger(7, 2, 2, 1), None)
  {
    var ps := [Pair(20, 1), Pair(5, 2), Pair(1, 7), Pair(10, 2)];
    assert Pairs([20, 1, 5, 2, 1, 7, 10, 2]) == ps;
    var final := DepositOutcome(Ledger(7, 2, 2, 1), None);
    assert Ledger(0, 0, 0, 0)[20 := 1] == Ledger(0, 0, 0, 1);
    assert Ledger(0, 0, 0, 1)[5 := 2] == Ledger(0, 2, 0, 1);
    assert Ledger(0, 2, 0, 1)[1 := 7] == Ledger(7, 2, 0, 1);
    assert Ledger(7, 2, 0, 1)[10 := 2] == Ledger(7, 2, 2, 1);
    assert ps[1..] == [Pair(5, 2), Pair(1, 7), Pair(10, 2)];
    assert ps[1..][1..] == [Pair(1, 7), Pair(10, 2)];
    assert ps[1..][1..][1..] == [Pair(10, 2)];
    assert DepositPairs(Ledger(7, 2, 0, 1), [Pair(10, 2)]) == final;
    assert DepositPairs(Ledger(0, 2, 0, 1), [Pair(1, 7), Pair(10, 2)]) == final;
    assert DepositPairs(Ledger(0, 0, 0, 1), ps[1..]) == final;
  }

  /**
   * `getQuantity` on a new machine is 0 for the supported denominations and for unsupported ones
   * alike; after two deposits it reports their sums.
   */
  lemma GetQuantityVector()
    ensures forall d :: d !in DENOMS ==> Get(Ledger(0, 0, 0, 0), d) == 0
    ensures Deposit(Ledger(0, 0, 0, 0), [10, 1, 20, 2]) == DepositOutcome(Ledger(0, 0, 1, 2), None)
    ensures Deposit(Ledger(0, 0, 1, 2), [5, 2, 20, 10]) == DepositOutcome(Ledger(0, 2, 1, 12), None)
  {
    ShortSetups();
  }

  /**
   * One pair of each denomination, 1s first, with every quantity on hand: the loop takes each
   * directly, 20s first, and leaves the differences.
   */
  lemma WithdrawEachOnce(o: nat, f: nat, t: nat, w: nat, ones: nat, fives: nat, tens: nat, twenties: nat)
    requires ones <= o && fives <= f && tens <= t && twenties <= w
    ensures Withdraw(Canonical, Ledger(o, f, t, w), [1, ones, 5, fives, 10, tens, 20, twenties])
            == Some(Ledger(o - ones, f - fives, t - tens, w - twenties))
  {
    var ps := [Pair(1, ones), Pair(5, fives), Pair(10, tens), Pair(20, twenties)];
    assert Pairs([1, ones, 5, fives, 10, tens, 20, twenties]) == ps;
    assert AllValid(ps);
    var rm := map[1 := ones, 5 := fives, 10 := tens, 20 := twenties];
    assert ps[1..] == [Pair(5, fives), Pair(10, tens), Pair(20, twenties)];
    assert ps[1..][1..] == [Pair(10, tens), Pair(20, twenties)];
    assert ps[1..][1..][1..] == [Pair(20, twenties)];
    assert Aggregate([Pair(20, twenties)], map[1 := ones, 5 := fives, 10 := tens]) == rm;
    assert Aggregate([Pair(10, tens), Pair(20, twenties)], map[1 := ones, 5 := fives]) == rm;
    assert Aggregate(ps[1..], map[1 := ones]) == rm;
    assert Requested(ps) == rm;
    var r := Ledger(o - ones, f - fives, t - tens, w - twenties);
    assert Ledger(o, f, t, w) + r == r;
    EachOnceTrace(o, f, t, w, ones, fives, tens, twenties);
  }

  /** The loop of `withdraw` in WithdrawEachOnce, one denomination at a time. */
  lemma EachOnceTrace(o: nat, f: nat, t: nat, w: nat, ones: nat, fives: nat, tens: nat, twenties: nat)
    requires ones <= o && fives <= f && tens <= t && twenties <= w
    ensures ProcessFrom(Canonical, Ledger(o, f, t, w), map[1 := ones, 5 := fives, 10 := tens, 20 := twenties], 0)
            == Some(Ledger(o - ones, f - fives, t - tens, w - twenties))
  {
    var rm := map[1 := ones, 5 := fives, 10 := tens, 20 := twenties];
    var m0 := Ledger(o, f, t, w);
    var m1 := Ledger(o, f, t, w - twenties);
    var m2 := Ledger(o, f, t - tens, w - twenties);
    var m3 := Ledger(o, f - fives, t - tens, w - twenties);
    var m4 := Ledger(o - ones, f - fives, t - tens, w - twenties);
    assert m0[20 := w - twenties] == m1;
    assert m1[10 := t - tens] == m2;
    assert m2[5 := f - fives] == m3;
    assert m3[1 := o - ones] == m4;
    assert Step(Canonical, m0, rm, 0) == Some(m1);
    assert Step(Canonical, m1, rm, 1) == Some(m2);
    assert Step(Canonical, m2, rm, 2) == Some(m3);
    assert Step(Canonical, m3, rm, 3) == Some(m4);
  }

  /** Every denomination on hand: each is taken directly, 20s first. */
  lemma NoConvertedDenominations()
    ensures Withdraw(Canonical, Ledger(5, 5, 5, 5), [1, 3, 5, 5, 10, 2, 20, 4]) == Some(Ledger(2, 0, 3, 1))
  {
    WithdrawEachOnce(5, 5, 5, 5, 3, 5, 2, 4);
  }

  /** Ten 5s break into exactly fifty 1s. */
  lemma PerfectChange()
    ensures Withdraw(Canonical, Ledger(0, 10, 0, 0), [1, 50]) == Some(Ledger(0, 0, 0, 0))
  {
    var t := Ledger(50, 0, 0, 0);
    assert t[1 := 0] == Ledger(0, 0, 0, 0);
    var m := Ledger(0, 10, 0, 0);
    assert m + Ledger(0, 0, 0, 0) == Ledger(0, 0, 0, 0);
    assert Pairs([1, 50]) == [Pair(1, 50)];
    assert AllValid([Pair(1, 50)]);
    var rm := map[1 := 50];
    assert Requested([Pair(1, 50)]) == rm;
    assert Propagate(m, 3, rm) == Some(rm);
    assert Cascade(m, rm, 0) == t;
    assert Convert(Canonical, m, 1, 50) == Some(t);
    assert WithdrawDenomination(Canonical, m, 1, 50) == Some(Ledger(0, 0, 0, 0));
    assert ProcessFrom(Canonical, m, rm, 0) == Some(Ledger(0, 0, 0, 0));
  }

  /** Eleven 1s from one 10 and two 20s: a 20 breaks into 10s, a 10 into 5s, a 5 into 1s. */
  lemma ComplexSingleWithdraw()
    ensures Withdraw(Canonical, Ledger(0, 0, 1, 2), [1, 11]) == Some(Ledger(4, 1, 1, 1))
  {
    assert Pairs([1, 11]) == [Pair(1, 11)];
    assert AllValid([Pair(1, 11)]);
    assert Requested([Pair(1, 11)]) == map[1 := 11];
    ComplexTrace();
    assert Ledger(0, 0, 1, 2) + Ledger(4, 1, 1, 1) == Ledger(4, 1, 1, 1);
  }

  /** Pass 1 needs eleven 1s, three 5s and one 10; pass 2 leaves fifteen 1s, of which eleven are taken. */
  lemma ComplexTrace()
    ensures ProcessFrom(Canonical, Ledger(0, 0, 1, 2), map[1 := 11], 0) == Some(Ledger(4, 1, 1, 1))
  {
    var t := Ledger(15, 1, 1, 1);
    assert t[1 := 4] == Ledger(4, 1, 1, 1);
    var m := Ledger(0, 0, 1, 2);
    var needed := map[1 := 11, 5 := 3, 10 := 1];
    assert Propagate(m, 3, map[1 := 11]) == Some(needed);
    assert Cascade(m, needed, 0) == t;
    assert Convert(Canonical, m, 1, 11) == Some(t);
    assert WithdrawDenomination(Canonical, m, 1, 11) == Some(Ledger(4, 1, 1, 1));
  }

  /**
   * A withdraw with no arguments succeeds and changes nothing, before and after a single 10 is
   * taken directly.
   */
  lemma EmptyAndSingleWithdraw()
    ensures Deposit(Ledger(0, 0, 0, 0), [10, 1]) == DepositOutcome(Ledger(0, 0, 1, 0), None)
    ensures Withdraw(Canonical, Ledger(0, 0, 1, 0), []) == Some(Ledger(0, 0, 1, 0))
    ensures Withdraw(Canonical, Ledger(0, 0, 1, 0), [10, 1]) == Some(Ledger(0, 0, 0, 0))
    ensures Withdraw(Canonical, Ledger(0, 0, 0, 0), []) == Some(Ledger(0, 0, 0, 0))
  {
    var m := Ledger(0, 0, 1, 0);
    assert m[10 := 0] == Ledger(0, 0, 0, 0);
    assert m + Ledger(0, 0, 0, 0) == Ledger(0, 0, 0, 0);
    assert Pairs([10, 1]) == [Pair(10, 1)];
    assert AllValid([Pair(10, 1)]);
    var rm := map[10 := 1];
    assert Requested([Pair(10, 1)]) == rm;
    assert ProcessFrom(Canonical, m, rm, 0) == Some(Ledger(0, 0, 0, 0));
  }

  /** A zero quantity of a supported denomination succeeds and changes nothing. */
  lemma ZeroQuantityWithdraw()
    ensures Withdraw(Canonical, Ledger(100, 100, 100, 100), [20, 0]) == Some(Ledger(100, 100, 100, 100))
  {
    var m := Ledger(100, 100, 100, 100);
    assert m + m == m;
    assert Pairs([20, 0]) == [Pair(20, 0)];
    assert AllValid([Pair(20, 0)]);
    var rm := map[20 := 0];
    assert Requested([Pair(20, 0)]) == rm;
    assert ProcessFrom(Canonical, m, rm, 0) == Some(m);
  }

  /** Two withdraws in a row, every denomination on hand: the second starts from what the first left. */
  lemma MultipleWithdraw()
    ensures Withdraw(Canonical, Ledger(100, 100, 100, 100), [1, 50, 5, 20, 10, 10, 20, 10]) == Some(Ledger(50, 80, 90, 90))
    ensures Withdraw(Canonical, Ledger(50, 80, 90, 90), [1, 20, 5, 17]) == Some(Ledger(30, 63, 90, 90))
  {
    WithdrawEachOnce(100, 100, 100, 100, 50, 20, 10, 10);
    SecondBatch();
  }

  /** The second withdraw of MultipleWithdraw: the 20s and 10s are not asked for and are skipped. */
  lemma SecondBatch()
    ensures Withdraw(Canonical, Ledger(50, 80, 90, 90), [1, 20, 5, 17]) == Some(Ledger(30, 63, 90, 90))
  {
    var m := Ledger(50, 80, 90, 90);
    assert m + Ledger(30, 63, 90, 90) == Ledger(30, 63, 90, 90);
    assert m[5 := 63] == Ledger(50, 63, 90, 90);
    assert Ledger(50, 63, 90, 90)[1 := 30] == Ledger(30, 63, 90, 90);
    var ps := [Pair(1, 20), Pair(5, 17)];
    assert Pairs([1, 20, 5, 17]) == ps;
    assert AllValid(ps);
    var rm := map[1 := 20, 5 := 17];
    assert Requested(ps) == rm;
    assert Step(Canonical, m, rm, 0) == Some(m);
    assert Step(Canonical, m, rm, 1) == Some(m);
    assert Step(Canonical, m, rm, 2) == Some(Ledger(50, 63, 90, 90));
    assert Step(Canonical, Ledger(50, 63, 90, 90), rm, 3) == Some(Ledger(30, 63, 90, 90));
    assert ProcessFrom(Canonical, m, rm, 0) == Some(Ledger(30, 63, 90, 90));
  }

  /**
   * The withdraw validation vectors: an unsupported denomination, an odd length and a negative
   * quantity each return false before any bill is touched.
   */
  lemma WithdrawValidation()
    ensures Withdraw(Canonical, Ledger(100, 100, 100, 100), [11, 2]) == None
    ensures Withdraw(Canonical, Ledger(100, 100, 100, 100), [1]) == None
    ensures Withdraw(Canonical, Ledger(100, 100, 100, 100), [1, 100, 5]) == None
    ensures Withdraw(Canonical, Ledger(100, 100, 100, 100), [1, -10]) == None
    ensures Withdraw(Canonical, Ledger(100, 100, 100, 100), [1, 100, 5, -10]) == None
  {
    assert Pairs([11, 2])[0] == Pair(11, 2);
    assert Pairs([1, -10])[0] == Pair(1, -10);
    assert Pairs([1, 100, 5, -10])[1] == Pair(5, -10);
  }

  /** Thirty-one 1s cannot be made from three 10s: pass 1 walks past the 20s. */
  lemma InsufficientFunds()
    ensures Deposit(Ledger(0, 0, 0, 0), [10, 3]) == DepositOutcome(Ledger(0, 0, 3, 0), None)
    ensures Withdraw(Canonical, Ledger(0, 0, 3, 0), [1, 31]) == None
  {
    assert Ledger(0, 0, 0, 0)[10 := 3] == Ledger(0, 0, 3, 0);
    assert Pairs([10, 3]) == [Pair(10, 3)];
    var m := Ledger(0, 0, 3, 0);
    assert Pairs([1, 31]) == [Pair(1, 31)];
    assert AllValid([Pair(1, 31)]);
    var rm := map[1 := 31];
    assert Requested([Pair(1, 31)]) == rm;
    assert Propagate(m, 3, rm) == None;
    assert ProcessFrom(Canonical, m, rm, 0) == None;
  }

  /** A fourth 20 cannot be made from smaller bills, although the ledger holds more than 80. */
  lemma InsufficientTwenties()
    ensures Value(Ledger(8, 2, 5, 3)) >= 80
    ensures Withdraw(Canonical, Ledger(8, 2, 5, 3), [20, 4]) == None
  {
    var m := Ledger(8, 2, 5, 3);
    assert Pairs([20, 4]) == [Pair(20, 4)];
    assert AllValid([Pair(20, 4)]);
    var rm := map[20 := 4];
    assert Requested([Pair(20, 4)]) == rm;
    assert Convert(Canonical, m, 20, 20) == None;
    assert ProcessFrom(Canonical, m, rm, 0) == None;
  }

  /** A request fails as a whole when one denomination cannot be served, whatever the others. */
  lemma InsufficientFunds2()
    ensures Withdraw(Canonical, Ledger(8, 2, 1, 3), [1, 1, 20, 4, 5, 1]) == None
  {
    var m := Ledger(8, 2, 1, 3);
    var ps := [Pair(1, 1), Pair(20, 4), Pair(5, 1)];
    assert Pairs([1, 1, 20, 4, 5, 1]) == ps;
    assert AllValid(ps);
    var rm := map[1 := 1, 20 := 4, 5 := 1];
    assert Requested(ps) == rm;
    assert Convert(Canonical, m, 20, 20) == None;
    assert ProcessFrom(Canonical, m, rm, 0) == None;
  }

  /** The worked example, in either order of the pairs: the 10 is taken directly, two 1s are converted. */
  lemma AssignmentExample()
    ensures Withdraw(Canonical, Ledger(3, 0, 1, 2), [1, 5, 10, 1]) == Some(Ledger(3, 1, 1, 1))
    ensures Withdraw(Canonical, Ledger(3, 0, 1, 2), [10, 1, 1, 5]) == Some(Ledger(3, 1, 1, 1))
  {
    var m := Ledger(3, 0, 1, 2);
    var rm := map[1 := 5, 10 := 1];
    assert Pairs([1, 5, 10, 1]) == [Pair(1, 5), Pair(10, 1)];
    assert Pairs([10, 1, 1, 5]) == [Pair(10, 1), Pair(1, 5)];
    assert AllValid([Pair(1, 5), Pair(10, 1)]);
    assert AllValid([Pair(10, 1), Pair(1, 5)]);
    assert Requested([Pair(1, 5), Pair(10, 1)]) == rm;
    assert Requested([Pair(10, 1), Pair(1, 5)]) == rm;
    assert ProcessFrom(Canonical, m, rm, 0) == Some(Ledger(3, 1, 1, 1)) by {
      ExampleTrace(Canonical);
    }
    assert m + Ledger(3, 1, 1, 1) == Ledger(3, 1, 1, 1);
  }

  /**
   * The worked example in either machine: after the 10 is taken, pass 1 needs two 1s, one 5 and
   * one 10, and pass 2 breaks a 20 into 10s, a 10 into 5s and a 5 into 1s, leaving eight 1s
   * beside the three already on hand. The canonical machine then takes all five 1s requested,
   * the variant only the two it converted.
   */
  lemma ExampleTrace(v: Variant)
    ensures ProcessFrom(v, Ledger(3, 0, 1, 2), map[1 := 5, 10 := 1], 0)
            == if v == Canonical then Some(Ledger(3, 1, 1, 1)) else Some(Ledger(6, 1, 1, 1))
  {
    var t := Ledger(8, 1, 1, 1);
    assert t[1 := 3] == Ledger(3, 1, 1, 1);
    assert t[1 := 6] == Ledger(6, 1, 1, 1);
    var m := Ledger(3, 0, 1, 2);
    var rm := map[1 := 5, 10 := 1];
    var m1 := Ledger(3, 0, 0, 2);
    assert m[10 := 0] == m1;
    assert Step(v, m, rm, 0) == Some(m);
    assert Step(v, m, rm, 1) == Some(m1);
    assert Step(v, m1, rm, 2) == Some(m1);
    var needed := map[1 := 2, 5 := 1, 10 := 1];
    assert Propagate(m1, 3, map[1 := 2]) == Some(needed);
    assert Cascade(m1, needed, 0) == t;
    var r := if v == Canonical then Ledger(3, 1, 1, 1) else Ledger(6, 1, 1, 1);
    assert Convert(v, m1, 1, 2) == if v == Canonical then Some(t) else Some(r);
    assert WithdrawDenomination(v, m1, 1, 5) == Some(r);
    assert ProcessFrom(v, m1, rm, 3) == Some(r);
  }

  /**
   * The default-package machine on the worked example: it keeps the three 1s it had on hand when
   * converting, so six 1s remain instead of three.
   */
  lemma VariantAssignmentExample()
    ensures Withdraw(DefaultPackage, Ledger(3, 0, 1, 2), [1, 5, 10, 1]) == Some(Ledger(6, 1, 1, 1))
  {
    var rm := map[1 := 5, 10 := 1];
    assert Pairs([1, 5, 10, 1]) == [Pair(1, 5), Pair(10, 1)];
    assert AllValid([Pair(1, 5), Pair(10, 1)]);
    assert Requested([Pair(1, 5), Pair(10, 1)]) == rm;
    ExampleTrace(DefaultPackage);
    assert map[] + Ledger(6, 1, 1, 1) == Ledger(6, 1, 1, 1);
  }

  /** In money: the canonical machine pays out exactly the 15 requested, the variant only 12. */
  lemma ExampleValues()
    ensures Amount(Pairs([1, 5, 10, 1])) == 15
    ensures Value(Ledger(3, 0, 1, 2)) == 53
    ensures Value(Ledger(3, 1, 1, 1)) == 53 - 15
    ensures Value(Ledger(6, 1, 1, 1)) == 53 - 12
  {
    assert Pairs([1, 5, 10, 1]) == [Pair(1, 5), Pair(10, 1)];
    LedgerValue(3, 0, 1, 2);
    LedgerValue(3, 1, 1, 1);
    LedgerValue(6, 1, 1, 1);
  }

  /**
   * The default-package machine pays out 35 from a ledger holding 30 and is left holding a 5;
   * the canonical machine refuses. Converting the 10s, the variant deducts only the one 10 it
   * made and keeps a second it had on hand; that extra 10 later covers the fifteen 1s.
   */
  lemma VariantOverdraws()
    ensures Value(Ledger(0, 0, 1, 1)) == 30 && Amount(Pairs([10, 2, 1, 15])) == 35
    ensures Withdraw(Canonical, Ledger(0, 0, 1, 1), [10, 2, 1, 15]) == None
    ensures Withdraw(DefaultPackage, Ledger(0, 0, 1, 1), [10, 2, 1, 15]) == Some(Ledger(0, 1, 0, 0))
  {
    LedgerValue(0, 0, 1, 1);
    var ps := [Pair(10, 2), Pair(1, 15)];
    assert Pairs([10, 2, 1, 15]) == ps;
    assert Amount(ps) == 35;
    assert AllValid(ps);
    assert Requested(ps) == map[10 := 2, 1 := 15];
    OverdrawTrace();
    assert map[] + Ledger(0, 1, 0, 0) == Ledger(0, 1, 0, 0);
  }

  /** The loop of `withdraw` on the overdraw input, in both machines. */
  lemma OverdrawTrace()
    ensures ProcessFrom(Canonical, Ledger(0, 0, 1, 1), map[10 := 2, 1 := 15], 0) == None
    ensures ProcessFrom(DefaultPackage, Ledger(0, 0, 1, 1), map[10 := 2, 1 := 15], 0) == Some(Ledger(0, 1, 0, 0))
  {
    var m := Ledger(0, 0, 1, 1);
    var rm := map[10 := 2, 1 := 15];
    var canonical := Ledger(0, 0, 1, 0);
    var variant := Ledger(0, 0, 2, 0);
    TensTrace(m, rm);
    CanonicalOnesTrace(canonical, rm);
    VariantOnesTrace(variant, rm);
  }

  /** The 10s: one short, so one 20 is broken into two 10s; the variant keeps one of the two. */
  lemma TensTrace(m: map<int, int>, rm: map<int, int>)
    requires m == Ledger(0, 0, 1, 1) && rm == map[10 := 2, 1 := 15]
    ensures Step(Canonical, m, rm, 1) == Some(Ledger(0, 0, 1, 0))
    ensures Step(DefaultPackage, m, rm, 1) == Some(Ledger(0, 0, 2, 0))
    ensures Step(Canonical, m, rm, 0) == Some(m) && Step(DefaultPackage, m, rm, 0) == Some(m)
  {
    var t := Ledger(0, 0, 3, 0);
    assert t[10 := 1] == Ledger(0, 0, 1, 0) && t[10 := 2] == Ledger(0, 0, 2, 0);
    assert Propagate(m, 1, map[10 := 1]) == Some(map[10 := 1]);
    assert Cascade(m, map[10 := 1], 0) == t;
  }

  /** The 1s, canonical: one 10 is not enough and there is no 20 left. */
  lemma CanonicalOnesTrace(m: map<int, int>, rm: map<int, int>)
    requires m == Ledger(0, 0, 1, 0) && rm == map[10 := 2, 1 := 15]
    ensures ProcessFrom(Canonical, m, rm, 2) == None
  {
    assert Propagate(m, 3, map[1 := 15]) == None;
  }

  /** The 1s, variant: the kept 10s break into 5s and the 5s into fifteen 1s. */
  lemma VariantOnesTrace(m: map<int, int>, rm: map<int, int>)
    requires m == Ledger(0, 0, 2, 0) && rm == map[10 := 2, 1 := 15]
    ensures ProcessFrom(DefaultPackage, m, rm, 2) == Some(Ledger(0, 1, 0, 0))
  {
    var u := Ledger(15, 1, 0, 0);
    assert u[1 := 0] == Ledger(0, 1, 0, 0);
    var needed := map[1 := 15, 5 := 3];
    assert Propagate(m, 3, map[1 := 15]) == Some(needed);
    assert Cascade(m, needed, 0) == u;
  }
}
