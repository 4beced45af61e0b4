/**
 * The default-package machine: the same ledger, validation, aggregation and conversion passes as
 * the canonical machine, except that its engine deducts only the converted shortfall and its
 * `withdrawDenomination` deducts nothing further after a conversion, and that a successful
 * `withdraw` clears the ledger before copying the scratch ledger in. It lists its denominations
 * ascending (AVAILABLE_DENOMINATIONS) for the constructor and the validity check.
 */
module DefaultTeller {
  import opened Cash
  import opened Requests
  import opened Conversion
  import opened Withdrawal
  import opened Deposits

  /** AVAILABLE_DENOMINATIONS: the supported denominations, smallest first. */
  const AVAILABLE: seq<int> := [1, 5, 10, 20]

  lemma AvailableAreSupported()
    ensures forall d :: d in AVAILABLE <==> d in DENOMS
  {
  }

  class LimitedTellerMachine {
    /** Bill count per denomination (`cash`). */
    var cash: map<int, int>

    /** Every supported denomination has an entry and none is negative. */
    ghost predicate Valid()
      reads this
    {
      IsLedger(cash)
    }

    /** Sets every denomination to quantity 0. */
    constructor ()
      ensures Valid()
      ensures forall d :: d in cash <==> d in DENOMS
      ensures forall d :: GetQuantity(d) == 0
      ensures cash == EmptyLedger()
    {
      AvailableAreSupported();
      var m: map<int, int> := map[];
      var i := 0;
      while i < |AVAILABLE|
        invariant 0 <= i <= |AVAILABLE|
        invariant forall d :: d in m <==> d in AVAILABLE[..i]
        invariant forall d :: d in m ==> m[d] == 0
      {
        m := m[AVAILABLE[i] := 0];
        i := i + 1;
      }
      assert AVAILABLE[..i] == AVAILABLE;
      assert forall d :: d in m ==> m[d] == EmptyLedger()[d];
      cash := m;
    }

    /** `isInvalidDenomination`: a linear search of the supported denominations. */
    method IsInvalidDenomination(denomination: int) returns (invalid: bool)
      ensures invalid <==> denomination !in DENOMS
    {
      AvailableAreSupported();
      var i := 0;
      while i < |AVAILABLE|
        invariant 0 <= i <= |AVAILABLE|
        invariant denomination !in AVAILABLE[..i]
      {
        if AVAILABLE[i] == denomination {
          return false;
        }
        i := i + 1;
      }
      assert AVAILABLE[..i] == AVAILABLE;
      return true;
    }

    /**
     * `convertDenomination` on the scratch ledger, with no guard against a zero amount: runs
     * pass 1 and, when it succeeds, pass 2, and then deducts the converted units of the target
     * denomination itself. Returns whether it succeeded and the scratch ledger it leaves, which is
     * the scratch ledger it was given when it fails.
     */
    method ConvertDenomination(denomination: int, amountNeeded: int, tempCash: map<int, int>)
      returns (ok: bool, result: map<int, int>)
      requires denomination in DENOMS
      ensures Convert(DefaultPackage, tempCash, denomination, amountNeeded) == if ok then Some(result) else None
      ensures !ok ==> result == tempCash
    {
      var numberNeeded := amountNeeded / denomination;
      var currentIndex := IndexOf(denomination);
      var found, needed := PropagateNeeds(currentIndex, numberNeeded, tempCash);
      if !found {
        return false, tempCash;
      }
      result := CascadeBreakdowns(needed, tempCash);
      result := result[denomination := Get(result, denomination) - numberNeeded];
      ok := true;
    }

    /**
     * `withdrawDenomination` on the scratch ledger: takes the bills directly when enough are on
     * hand, otherwise returns what the conversion of the shortfall leaves.
     */
    method WithdrawDenomination(denomination: int, quantity: int, tempCash: map<int, int>)
      returns (ok: bool, result: map<int, int>)
      requires denomination in DENOMS
      ensures Withdrawal.WithdrawDenomination(DefaultPackage, tempCash, denomination, quantity)
              == if ok then Some(result) else None
    {
      var availableAmount := Get(tempCash, denomination);
      if availableAmount >= quantity {
        DirectAlike(tempCash, denomination, quantity);
        return true, tempCash[denomination := availableAmount - quantity];
      }
      var amountNeeded := denomination * (quantity - availableAmount);
      ok, result := ConvertDenomination(denomination, amountNeeded, tempCash);
      ConvertThenKeep(tempCash, denomination, quantity);
    }

    /**
     * `withdraw`: validates and aggregates the request, processes 20s, 10s, 5s and 1s on a
     * scratch copy of the ledger, and replaces the ledger by the copy (clear, then putAll) only
     * when every denomination succeeded; on failure the ledger is left as it was.
     */
    method Withdraw(request: seq<int>) returns (success: bool)
      requires Valid()
      modifies this
      ensures Valid()
      ensures var r := Withdrawal.Withdraw(DefaultPackage, old(cash), request);
              && (success <==> r.Some?)
              && cash == if success then r.value else old(cash)
    {
      if |request| == 0 {
        return true;
      }
      if |request| % 2 != 0 {
        return false;
      }
      var tempCash := cash;
      var valid, requestMap := AggregateRequest(request);
      if !valid {
        WithdrawRejects(DefaultPackage, cash, request);
        return false;
      }
      WithdrawCommits(DefaultPackage, cash, request);
      var processed, t := ProcessDenominations(requestMap, tempCash);
      if !processed {
        return false;
      }
      VariantWithdrawOutcome(cash, request);
      cash := map[] + t;
      success := true;
    }

    /**
     * The first loop of `withdraw`: checks each pair of an even-length request and sums the
     * quantities per denomination into the requestMap; stops at the first bad pair.
     */
    method AggregateRequest(request: seq<int>) returns (valid: bool, requestMap: map<int, int>)
      requires |request| % 2 == 0
      ensures valid <==> AllValid(Pairs(request))
      ensures valid ==> requestMap == Requested(Pairs(request))
    {
      requestMap := map[];
      var i := 0;
      while i < |request|
        invariant 0 <= i <= |request| && i % 2 == 0
        invariant AllValid(Pairs(request)) <==> AllValid(Pairs(request[i..]))
        invariant Aggregate(Pairs(request[i..]), requestMap) == Requested(Pairs(request))
      {
        EvenStep(i, |request|);
        var denomination := request[i];
        var quantity := request[i + 1];
        PairsFrom(request, i);
        AllValidCons(Pairs(request[i..]));
        var invalid := IsInvalidDenomination(denomination);
        if invalid || quantity < 0 {
          return false, requestMap;
        }
        requestMap := requestMap[denomination := Get(requestMap, denomination) + quantity];
        i := i + 2;
      }
      assert request[i..] == [];
      valid := true;
    }

    /**
     * The second loop of `withdraw`: withdraws every denomination requested at least once,
     * largest first, on the scratch ledger; stops at the first that cannot be served.
     */
    method ProcessDenominations(requestMap: map<int, int>, tempCash: map<int, int>)
      returns (ok: bool, result: map<int, int>)
      ensures ProcessFrom(DefaultPackage, tempCash, requestMap, 0) == if ok then Some(result) else None
    {
      result := tempCash;
      var idx := 0;
      while idx < |DENOMS|
        invariant 0 <= idx <= |DENOMS|
        invariant ProcessFrom(DefaultPackage, result, requestMap, idx) == ProcessFrom(DefaultPackage, tempCash, requestMap, 0)
      {
        ProcessUnfolds(DefaultPackage, result, requestMap, idx);
        var denomination := DENOMS[idx];
        var quantity := Get(requestMap, denomination);
        if quantity > 0 {
          var withdrawn, t := WithdrawDenomination(denomination, quantity, result);
          if !withdrawn {
            return false, result;
          }
          result := t;
        }
        idx := idx + 1;
      }
      ok := true;
    }

    /**
     * `deposit`: refuses an odd-length list before any change; otherwise adds the pairs left to
     * right and stops at the first bad one with its error, keeping the pairs already added.
     */
    method Deposit(deposit: seq<int>) returns (error: Option<DepositError>)
      requires Valid()
      modifies this
      ensures Valid()
      ensures Deposits.Deposit(old(cash), deposit) == DepositOutcome(cash, error)
    {
      if |deposit| % 2 != 0 {
        return Some(OddLength);
      }
      DepositKeepsLedger(cash, Pairs(deposit));
      var i := 0;
      while i < |deposit|
        invariant 0 <= i <= |deposit| && i % 2 == 0
        invariant HasAllKeys(cash)
        invariant DepositPairs(cash, Pairs(deposit[i..])) == Deposits.Deposit(old(cash), deposit)
      {
        EvenStep(i, |deposit|);
        var denomination := deposit[i];
        var quantity := deposit[i + 1];
        PairsFrom(deposit, i);
        var invalid := IsInvalidDenomination(denomination);
        if invalid {
          return Some(InvalidDenomination(denomination));
        }
        if quantity < 0 {
          return Some(NegativeQuantity(quantity));
        }
        DepositPairsStep(cash, Pairs(deposit[i..]));
        cash := cash[denomination := cash[denomination] + quantity];
        i := i + 2;
      }
      assert deposit[i..] == [];
      error := None;
    }

    /** `getQuantity`: the count of a denomination, 0 for an unsupported one. */
    function GetQuantity(denomination: int): (quantity: int)
      reads this
      ensures Valid() && denomination !in DENOMS ==> quantity == 0
      ensures Valid() ==> quantity >= 0
      ensures denomination in cash ==> quantity == cash[denomination]
    {
      Get(cash, denomination)
    }
  }
}
