/**
 * What `deposit` does to the ledger, identical in both machines: an odd-length argument list is
 * refused before any change; otherwise the pairs are added left to right, each checked first for
 * an unsupported denomination and then for a negative quantity, and the first bad pair throws
 * with the pairs before it already added.
 */
module Deposits {
  import opened Cash
  import opened Requests

  /** The `IllegalArgumentException`s `deposit` throws, without their message strings. */
  datatype DepositError = OddLength | InvalidDenomination(denomination: int) | NegativeQuantity(quantity: int)

  /** The ledger a deposit leaves behind, and the exception it threw, if any. */
  datatype DepositOutcome = DepositOutcome(ledger: map<int, int>, error: Option<DepositError>)

  /** The error a pair that fails validation is refused with: the denomination is checked first. */
  function PairError(p: Pair): (e: DepositError)
    requires !ValidPair(p)
    ensures e.InvalidDenomination? <==> p.denomination !in DENOMS
    ensures e.InvalidDenomination? ==> e.denomination == p.denomination
    ensures e.NegativeQuantity? ==> e.quantity == p.quantity < 0
  {
    if p.denomination !in DENOMS then InvalidDenomination(p.denomination) else NegativeQuantity(p.quantity)
  }

  /** The loop of `deposit` over the pairs, adding each valid one to the ledger as it goes. */
  function DepositPairs(m: map<int, int>, ps: seq<Pair>): DepositOutcome
    decreases |ps|
  {
    if ps == [] then DepositOutcome(m, None)
    else if !ValidPair(ps[0]) then DepositOutcome(m, Some(PairError(ps[0])))
    else DepositPairs(m[ps[0].denomination := Get(m, ps[0].denomination) + ps[0].quantity], ps[1..])
  }

  /** A valid first pair is added before the rest are deposited. */
  lemma DepositPairsStep(m: map<int, int>, ps: seq<Pair>)
    requires ps != [] && ValidPair(ps[0])
    ensures DepositPairs(m, ps) == DepositPairs(m[ps[0].denomination := Get(m, ps[0].denomination) + ps[0].quantity], ps[1..])
  {
  }

  /** `deposit(deposit...)` on the ledger m. */
  function Deposit(m: map<int, int>, deposit: seq<int>): DepositOutcome
  {
    if |deposit| % 2 != 0 then DepositOutcome(m, Some(OddLength)) else DepositPairs(m, Pairs(deposit))
  }

  /** The pairs before position j are all valid and the pair at j is not: j is the first bad pair. */
  predicate FirstBad(ps: seq<Pair>, j: nat)
  {
    j < |ps| && AllValid(ps[..j]) && !ValidPair(ps[j])
  }

  /** Valid pairs are all added: each denomination grows by the total quantity deposited of it. */
  lemma {:induction false} DepositAdds(m: map<int, int>, ps: seq<Pair>)
    requires AllValid(ps)
    ensures DepositPairs(m, ps).error == None
    ensures forall d :: Get(DepositPairs(m, ps).ledger, d) == Get(m, d) + Sum(ps, d)
    decreases |ps|
  {
    if ps != [] {
      var p := ps[0];
      var m' := m[p.denomination := Get(m, p.denomination) + p.quantity];
      assert ValidPair(ps[0]);
      assert AllValid(ps[1..]) by {
        forall j | 0 <= j < |ps| - 1 ensures ValidPair(ps[1..][j]) {
          assert ps[1..][j] == ps[j + 1];
        }
      }
      DepositAdds(m', ps[1..]);
    }
  }

  /**
   * No rollback: when j is the first bad pair, the deposit throws that pair's error and leaves the
   * ledger exactly as depositing the pairs before it would.
   */
  lemma {:induction false} DepositStopsAtFirstBad(m: map<int, int>, ps: seq<Pair>, j: nat)
    requires FirstBad(ps, j)
    ensures DepositPairs(m, ps) == DepositOutcome(DepositPairs(m, ps[..j]).ledger, Some(PairError(ps[j])))
    decreases j
  {
    if j > 0 {
      var p := ps[0];
      assert ps[..j][0] == p;
      assert ValidPair(p);
      var tail := ps[1..];
      assert tail[..j - 1] == ps[..j][1..];
      var k := j - 1;
      assert FirstBad(tail, k) by {
        forall i | 0 <= i < k ensures ValidPair(tail[..k][i]) {
          assert tail[..k][i] == ps[..j][i + 1];
        }
      }
      DepositStopsAtFirstBad(m[p.denomination := Get(m, p.denomination) + p.quantity], tail, k);
    }
  }

  /** A deposit fails exactly when the list has odd length or some pair fails validation. */
  lemma {:induction false} DepositFails(m: map<int, int>, ps: seq<Pair>)
    ensures DepositPairs(m, ps).error == None <==> AllValid(ps)
    decreases |ps|
  {
    if ps != [] {
      var p := ps[0];
      if ValidPair(p) {
        DepositFails(m[p.denomination := Get(m, p.denomination) + p.quantity], ps[1..]);
        if AllValid(ps[1..]) {
          forall j | 0 <= j < |ps| ensures ValidPair(ps[j]) {
            if j > 0 {
              assert ps[j] == ps[1..][j - 1];
            }
          }
        } else {
          var j :| 0 <= j < |ps| - 1 && !ValidPair(ps[1..][j]);
          assert ps[j + 1] == ps[1..][j];
        }
      }
    }
  }

  /** A deposit on a committed ledger leaves a committed ledger, whether or not it throws. */
  lemma {:induction false} DepositKeepsLedger(m: map<int, int>, ps: seq<Pair>)
    requires IsLedger(m)
    ensures IsLedger(DepositPairs(m, ps).ledger)
    decreases |ps|
  {
    if ps != [] && ValidPair(ps[0]) {
      var p := ps[0];
      var m' := m[p.denomination := Get(m, p.denomination) + p.quantity];
      forall j | 0 <= j < |DENOMS| ensures Get(m', DENOMS[j]) >= 0 {
        assert Get(m, DENOMS[j]) >= 0;
      }
      DepositKeepsLedger(m', ps[1..]);
    }
  }

  /**
   * The order of valid pairs does not matter: any rearrangement deposits without an error and
   * leaves the same ledger. With a bad pair the order does matter, since it decides which error is
   * thrown and which pairs stay added.
   */
  lemma DepositOrderIrrelevant(m: map<int, int>, ps: seq<Pair>, qs: seq<Pair>)
    requires IsLedger(m) && AllValid(ps) && multiset(ps) == multiset(qs)
    ensures DepositPairs(m, ps).error == None && DepositPairs(m, qs).error == None
    ensures DepositPairs(m, ps).ledger == DepositPairs(m, qs).ledger
  {
    AllValidPermutation(ps, qs);
    DepositAdds(m, ps);
    DepositAdds(m, qs);
    DepositKeepsLedger(m, ps);
    DepositKeepsLedger(m, qs);
    var a := DepositPairs(m, ps).ledger;
    var b := DepositPairs(m, qs).ledger;
    forall d ensures Get(a, d) == Get(b, d) {
      SumPermutation(ps, qs, d);
    }
    SameLedger(a, b);
  }

  /** Two maps with the supported denominations as keys and the same counts are the same map. */
  lemma SameLedger(a: map<int, int>, b: map<int, int>)
    requires HasAllKeys(a) && HasAllKeys(b)
    requires forall d :: Get(a, d) == Get(b, d)
    ensures a == b
  {
    forall d | d in a ensures d in b && a[d] == b[d] {
      assert Get(a, d) == Get(b, d);
    }
    forall d | d in b ensures d in a {
      assert d in DENOMS;
    }
  }

  /**
   * What the loop of `deposit` guarantees on a committed ledger: it throws exactly when some pair
   * is bad, the error names the first bad pair and the pairs before it stay added; without an
   * error every denomination grows by the total deposited of it. The ledger stays a committed
   * ledger throughout.
   */
  ghost predicate DepositsInOrder(m: map<int, int>, ps: seq<Pair>, o: DepositOutcome)
  {
    && (o.error == None <==> AllValid(ps))
    && (forall j: nat :: FirstBad(ps, j) ==>
          && o.error == Some(PairError(ps[j]))
          && forall d :: Get(o.ledger, d) == Get(m, d) + Sum(ps[..j], d))
    && (o.error == None ==> forall d :: Get(o.ledger, d) == Get(m, d) + Sum(ps, d))
    && IsLedger(o.ledger)
  }

  /** The loop of `deposit` over any list of pairs, on a committed ledger. */
  lemma DepositPairsOutcome(m: map<int, int>, ps: seq<Pair>)
    requires IsLedger(m)
    ensures DepositsInOrder(m, ps, DepositPairs(m, ps))
  {
    DepositFails(m, ps);
    DepositKeepsLedger(m, ps);
    if AllValid(ps) {
      DepositAdds(m, ps);
    }
    forall j: nat | FirstBad(ps, j)
      ensures DepositPairs(m, ps).error == Some(PairError(ps[j]))
      ensures forall d :: Get(DepositPairs(m, ps).ledger, d) == Get(m, d) + Sum(ps[..j], d)
    {
      DepositStopsAtFirstBad(m, ps, j);
      DepositAdds(m, ps[..j]);
    }
  }

  /**
   * `deposit` on a committed ledger: an odd-length list throws with the ledger unchanged, an empty
   * one changes nothing, and an even-length one behaves as the loop over its pairs.
   */
  lemma DepositOutcomeFacts(m: map<int, int>, deposit: seq<int>)
    requires IsLedger(m)
    ensures |deposit| % 2 != 0 ==> Deposit(m, deposit) == DepositOutcome(m, Some(OddLength))
    ensures |deposit| == 0 ==> Deposit(m, deposit) == DepositOutcome(m, None)
    ensures |deposit| % 2 == 0 ==> DepositsInOrder(m, Pairs(deposit), Deposit(m, deposit))
  {
    if |deposit| % 2 == 0 {
      DepositPairsOutcome(m, Pairs(deposit));
    }
  }
}
