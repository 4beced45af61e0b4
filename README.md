# Limited teller machine — a Dafny model

The repository implements a teller machine that holds bills of four denominations (1, 5, 10 and
20). The machine supports three operations:

- `deposit(int...)`, which adds (denomination, quantity) pairs;
- `withdraw(int...)`, which pays out (denomination, quantity) pairs and makes change by breaking
  larger bills when a denomination runs short;
- `getQuantity(int)`.

Two implementations exist. This model covers both:

- **canonical**: `teller.LimitedTellerMachine`, in `src/main/java/teller/LimitedTellerMachine.java`;
- **default-package variant**: `LimitedTellerMachine` in the default package, in
  `src/main/java/LimitedTellerMachine.java`.

The variant shares validation, aggregation and both conversion passes with the canonical machine.
It differs in three places:

- After converting, it deducts only the converted shortfall, not the full quantity requested.
- It has no guard against a zero amount to convert.
- It commits by clearing the ledger and copying the scratch ledger back.

The modules are:

- `Cash` (`cash.dfy`): the denominations (largest first), the ledger `map<int, int>` and
  `getOrDefault`. It also holds the money held in the n largest denominations (`PrefixValue`),
  the total money (`Value`), and `Math.ceil` of a quotient as integer arithmetic (`CeilDiv`).
- `Requests` (`requests.dfy`): reading the flat `int...` arguments as pairs, validating the pairs,
  and aggregating a request into the `requestMap`.
- `Conversion` (`conversion.dfy`): the conversion engine.
  - Pass 1 walks the shortfall up towards the 20s and records a needs map (`Propagate`, and the
    loop `PropagateNeeds`).
  - Pass 2 breaks bills down level by level (`Cascade`, and the loop `CascadeBreakdowns`).
  - Its main theorem: conversion fails exactly when the larger denominations hold less money
    than the shortfall. When it succeeds, the money total is kept, no count goes negative, and
    the target denomination gains at least the shortfall.
- `Withdrawal` (`withdrawal.dfy`): `convertDenomination`, `withdrawDenomination`, the loop of
  `withdraw` and the whole `withdraw`, as functions of the ledger. Each takes a `Variant`
  parameter that selects the canonical or the default-package behaviour.
  - The central theorem: a canonical withdraw of a valid request succeeds exactly when, for
    every n, the money requested in the n largest denominations is at most the money held in
    them. On success the ledger holds exactly the money requested less.
- `Deposits` (`deposit.dfy`): `deposit` as a function. It is the same in both machines.
- `Teller` (`teller.dfy`) and `DefaultTeller` (`default_teller.dfy`): the two classes, each with
  its ledger field `cash`. Their methods carry the source's loops and are proved against the
  functions above.
- `Scenarios` (`scenarios.dfy`): the vectors of the repository's test class, computed on the
  model: each deposit, withdraw and `getQuantity` test, including the validation tests. The
  set-ups of 100 bills of each denomination are instances of `Scenarios.DepositEachOnce`. The
  module also holds the inputs on which the variant departs from the canonical machine.

A withdraw result of `None` stands for `withdraw` returning false. A `DepositOutcome` with an
error stands for `deposit` throwing `IllegalArgumentException`.

## Model

| member | source | states |
|---|---|---|
| Cash.Get | src/main/java/teller/LimitedTellerMachine.java:69-71 | the definition of `getOrDefault(d, 0)` on a count map; `Teller.LimitedTellerMachine.GetQuantity` states what it returns |
| Cash.IndexOf | src/main/java/teller/LimitedTellerMachine.java:59-60 | the position of a supported denomination in the descending list, which holds it there |
| Cash.EmptyLedger | src/main/java/teller/LimitedTellerMachine.java:21-26 | the new ledger is a committed ledger in which every supported denomination has count 0 |
| Cash.CeilDiv | src/main/java/teller/LimitedTellerMachine.java:77-78 | the rounded-up quotient: the least r with b * r >= a |
| Requests.Pairs | src/main/java/teller/LimitedTellerMachine.java:138-140 | pair j of the argument list is (request[2j], request[2j+1]), and there are half as many pairs as arguments |
| Requests.Aggregate | src/main/java/teller/LimitedTellerMachine.java:138-147 | the definition of the aggregation loop onto a given map; `Requests.AggregateSums` and `Requests.RequestedSums` state what it computes |
| Requests.Requested | src/main/java/teller/LimitedTellerMachine.java:136-147 | the definition of `requestMap`: aggregation from an empty map; its entries are proved by `Requests.RequestedSums` and its worth by `Withdrawal.RequestedValue` |
| Requests.RequestedSums | src/main/java/teller/LimitedTellerMachine.java:145 | the requestMap entry of each denomination is the total quantity asked of it across all pairs |
| Requests.SumPermutation | src/main/java/teller/TellerMachine.java:33-36 | pairs in any order ask for the same total quantity of every denomination |
| Requests.AllValidPermutation | src/main/java/teller/TellerMachine.java:33-36 | whether some pair is unsupported or negative does not depend on the order of the pairs |
| Conversion.Propagate | src/main/java/teller/LimitedTellerMachine.java:62-81 | the definition of pass 1; `Conversion.PropagateOutcome` proves when it fails and what needs map it leaves, and `Conversion.PropagateNeeds` is the loop proved equal to it |
| Conversion.PropagateNeeds | src/main/java/teller/LimitedTellerMachine.java:56-81 | pass 1 as a loop computes Propagate; for a positive shortfall on a non-negative ledger it succeeds exactly when the shortfall's money is at most the money held in the larger denominations |
| Conversion.PropagateOutcome | src/main/java/teller/LimitedTellerMachine.java:62-81 | pass 1 fails exactly when the shortfall is worth more than the larger denominations hold; on success its needs map is a chain that ends under a denomination rich enough to cover it |
| Conversion.BreakStep | src/main/java/teller/LimitedTellerMachine.java:86-95 | the definition of one pass-2 step; `Conversion.BreakStepConserves` proves it keeps the money total |
| Conversion.Cascade | src/main/java/teller/LimitedTellerMachine.java:82-96 | the definition of pass 2; `Conversion.CascadeConserves` and `Conversion.ConversionOutcome` state its properties, and `Conversion.CascadeBreakdowns` is the loop proved equal to it |
| Conversion.CascadeBreakdowns | src/main/java/teller/LimitedTellerMachine.java:82-96 | pass 2 as a loop computes Cascade, keeps the total money, and keeps the ledger's keys |
| Conversion.BreakStepConserves | src/main/java/teller/LimitedTellerMachine.java:88-95 | breaking q larger bills adds exactly their worth in the next smaller denomination, so the total money is unchanged |
| Conversion.CascadeConserves | src/main/java/teller/LimitedTellerMachine.java:82-96 | the whole of pass 2 keeps the total money and the keys |
| Conversion.ConversionOutcome | src/main/java/teller/LimitedTellerMachine.java:56-96 | both passes together fail exactly when the larger denominations hold less money than the shortfall. On success no count is negative and the target gains at least the shortfall. The total is kept, smaller denominations are untouched, and larger ones above a level that already covers the shortfall are untouched too |
| Withdrawal.Convert | src/main/java/teller/LimitedTellerMachine.java:50-98 | the definition of `convertDenomination` in both machines: the canonical zero guard (line 52) and, in the variant only, the final deduction of src/main/java/LimitedTellerMachine.java:96; `Withdrawal.ConvertOutcome` and `Withdrawal.ConvertVariant` state its properties |
| Withdrawal.ShortfallAmount | src/main/java/teller/LimitedTellerMachine.java:117-118 | when fewer than q bills are on hand, the amount `withdrawDenomination` hands to `convertDenomination` is positive, so the zero guard at line 52 never fires from there, and the engine's division at line 57 gives back the number of bills missing |
| Withdrawal.ConvertOutcome | src/main/java/teller/LimitedTellerMachine.java:50-98 | `convertDenomination` as `withdrawDenomination` calls it fails exactly when the shortfall exceeds the money in larger bills; otherwise it supplies the shortfall, keeps the money total and no count goes negative |
| Withdrawal.ConvertVariant | src/main/java/LimitedTellerMachine.java:42-99 | the variant's conversion fails exactly when the canonical one does, and otherwise returns the canonical result less the converted units at the target |
| Withdrawal.WithdrawDenomination | src/main/java/teller/LimitedTellerMachine.java:108-124 | the definition of `withdrawDenomination` in both machines (the variant's is src/main/java/LimitedTellerMachine.java:101-115); `Withdrawal.WithdrawDenominationOutcome` and `Withdrawal.VariantWithdrawDenominationOutcome` state its properties |
| Withdrawal.DirectPath | src/main/java/teller/LimitedTellerMachine.java:110-115 | with enough bills on hand both machines take exactly q of them and change nothing else |
| Withdrawal.WithdrawDenominationOutcome | src/main/java/teller/LimitedTellerMachine.java:108-124 | one denomination fails exactly when q bills are worth more than that and the larger denominations hold. Otherwise no count is negative, smaller denominations are untouched, and exactly q bills' worth leaves the ledger |
| Withdrawal.VariantWithdrawDenomination | src/main/java/LimitedTellerMachine.java:101-115 | the variant's per-denomination withdraw fails exactly when the canonical one does; on the direct path the two agree; after a conversion the variant's ledger is the canonical one plus the bills that were on hand |
| Withdrawal.VariantWithdrawDenominationOutcome | src/main/java/LimitedTellerMachine.java:101-115 | the variant's per-denomination withdraw fails exactly when the canonical one does; on success no count is negative and at most q bills' worth leaves the ledger |
| Withdrawal.Step | src/main/java/teller/LimitedTellerMachine.java:149-155 | the definition of one iteration of the per-denomination loop; `Withdrawal.StepOutcome` and `Withdrawal.VariantStepOutcome` state its properties |
| Withdrawal.ProcessFrom | src/main/java/teller/LimitedTellerMachine.java:148-156 | the definition of the per-denomination loop from a given position; `Withdrawal.ProcessOutcome`, `Withdrawal.ProcessAll` and `Withdrawal.VariantProcessOutcome` state its properties |
| Withdrawal.StepOutcome | src/main/java/teller/LimitedTellerMachine.java:148-156 | one iteration of the canonical loop takes exactly the quantity requested of its denomination, or fails when that is not possible |
| Withdrawal.ProcessOutcome | src/main/java/teller/LimitedTellerMachine.java:148-156 | the loop from any position succeeds exactly when every prefix of the remaining request is covered by the ledger, and then takes exactly the money requested |
| Withdrawal.ProcessAll | src/main/java/teller/LimitedTellerMachine.java:148-156 | the whole canonical loop succeeds exactly when the request is feasible; then no count is negative and exactly the money requested is gone |
| Withdrawal.RequestedValue | src/main/java/teller/LimitedTellerMachine.java:138-147 | the aggregated requestMap is worth exactly the money the pairs ask for |
| Withdrawal.CommitReplaces | src/main/java/LimitedTellerMachine.java:140-141 | on ledgers with all four keys, `putAll` onto the old ledger and clear-then-`putAll` commit the same map |
| Withdrawal.Withdraw | src/main/java/teller/LimitedTellerMachine.java:127-159 | the definition of `withdraw` in both machines (the variant's is src/main/java/LimitedTellerMachine.java:118-143); `Withdrawal.WithdrawOutcome` and `Withdrawal.VariantWithdrawOutcome` state its properties |
| Withdrawal.WithdrawOutcome | src/main/java/teller/LimitedTellerMachine.java:127-159 | canonical `withdraw`: an empty request succeeds without change. An odd length, an unsupported denomination or a negative quantity fails. A valid request succeeds exactly when feasible, and then the ledger stays a ledger holding exactly the money requested less |
| Withdrawal.WithdrawPermutation | src/main/java/teller/TellerMachine.java:33-36 | reordering the pairs of a request does not change the outcome of a withdraw, in either machine |
| Withdrawal.WithdrawZero | src/main/java/teller/LimitedTellerMachine.java:148-150 | a valid request whose quantities all sum to 0 succeeds and leaves the ledger unchanged, in either machine |
| Withdrawal.VariantStepOutcome | src/main/java/LimitedTellerMachine.java:133-139 | one iteration of the variant's loop takes at most the quantity requested, and fails exactly when the canonical iteration does |
| Withdrawal.VariantProcessOutcome | src/main/java/LimitedTellerMachine.java:133-139 | the variant's loop keeps counts non-negative on success, and succeeds wherever the canonical loop would, taking at most the money requested |
| Withdrawal.VariantWithdrawOutcome | src/main/java/LimitedTellerMachine.java:118-143 | variant `withdraw`: the same empty, odd-length and invalid cases as the canonical one. A success leaves a ledger, and a feasible request succeeds with at least the money requested less left |
| Deposits.DepositPairs | src/main/java/teller/LimitedTellerMachine.java:167-177 | the definition of the pair loop of `deposit`; `Deposits.DepositPairsOutcome` states its properties |
| Deposits.Deposit | src/main/java/teller/LimitedTellerMachine.java:162-178 | the definition of `deposit`, the same in both machines; `Deposits.DepositOutcomeFacts` states its properties |
| Deposits.PairError | src/main/java/teller/LimitedTellerMachine.java:170-175 | a bad pair is refused for its denomination when that is unsupported, and otherwise for its negative quantity |
| Deposits.DepositAdds | src/main/java/teller/LimitedTellerMachine.java:167-177 | depositing valid pairs raises no error and adds to each denomination the total quantity deposited of it |
| Deposits.DepositStopsAtFirstBad | src/main/java/teller/LimitedTellerMachine.java:167-177 | at the first bad pair the deposit throws its error, and the ledger is as depositing the pairs before it would leave it (no rollback) |
| Deposits.DepositFails | src/main/java/teller/LimitedTellerMachine.java:167-175 | the loop of `deposit` throws exactly when some pair is bad |
| Deposits.DepositKeepsLedger | src/main/java/teller/LimitedTellerMachine.java:176 | a deposit, whether or not it throws, leaves a committed ledger a committed ledger |
| Deposits.DepositOrderIrrelevant | src/main/java/teller/TellerMachine.java:11-12 | pairs in no specific order: any rearrangement of valid deposit pairs raises no error and leaves the same ledger |
| Deposits.DepositPairsOutcome | src/main/java/teller/LimitedTellerMachine.java:167-177 | the loop of `deposit` in full: it errs exactly when some pair is bad, the error names the first bad pair, and the earlier pairs stay added. Without an error every denomination grows by its total |
| Deposits.DepositOutcomeFacts | src/main/java/teller/LimitedTellerMachine.java:162-178 | `deposit`: an odd length throws with the ledger unchanged, an empty list changes nothing, and an even length behaves as the loop over its pairs |
| Teller.LimitedTellerMachine.constructor | src/main/java/teller/LimitedTellerMachine.java:21-26 | the new machine's ledger has exactly the four denominations as keys, each with quantity 0: it is `Cash.EmptyLedger` |
| Teller.LimitedTellerMachine.IsInvalidDenomination | src/main/java/teller/LimitedTellerMachine.java:33-40 | the linear search reports invalid exactly when the denomination is not one of 20, 10, 5, 1 |
| Teller.LimitedTellerMachine.ConvertDenomination | src/main/java/teller/LimitedTellerMachine.java:50-98 | the zero guard and both passes compute the canonical Convert, leaving the scratch ledger unchanged on failure |
| Teller.LimitedTellerMachine.WithdrawDenomination | src/main/java/teller/LimitedTellerMachine.java:108-124 | the method computes the canonical WithdrawDenomination |
| Teller.LimitedTellerMachine.AggregateRequest | src/main/java/teller/LimitedTellerMachine.java:138-147 | the validation loop accepts exactly when every pair is valid, and then yields the aggregated requestMap |
| Teller.LimitedTellerMachine.ProcessDenominations | src/main/java/teller/LimitedTellerMachine.java:148-156 | the per-denomination loop computes the canonical ProcessFrom on the scratch ledger |
| Teller.LimitedTellerMachine.Withdraw | src/main/java/teller/LimitedTellerMachine.java:127-159 | returns true exactly when the canonical Withdraw succeeds. The ledger becomes its result then, and stays as it was otherwise |
| Teller.LimitedTellerMachine.Deposit | src/main/java/teller/LimitedTellerMachine.java:162-178 | the ledger and the exception thrown are exactly those of Deposit, and the ledger stays a committed ledger |
| Teller.LimitedTellerMachine.GetQuantity | src/main/java/teller/LimitedTellerMachine.java:181-183 | the count held, 0 for an unsupported denomination, never negative on a committed ledger |
| DefaultTeller.AvailableAreSupported | src/main/java/LimitedTellerMachine.java:10-11 | the ascending list holds exactly the denominations of the descending one |
| DefaultTeller.LimitedTellerMachine.constructor | src/main/java/LimitedTellerMachine.java:13-18 | the new machine's ledger has exactly the four denominations as keys, each with quantity 0: it is `Cash.EmptyLedger` |
| DefaultTeller.LimitedTellerMachine.IsInvalidDenomination | src/main/java/LimitedTellerMachine.java:25-32 | the search over the ascending list reports invalid exactly when the denomination is unsupported |
| DefaultTeller.LimitedTellerMachine.ConvertDenomination | src/main/java/LimitedTellerMachine.java:42-99 | with no zero guard, both passes and the final deduction of the converted units compute the variant's Convert |
| DefaultTeller.LimitedTellerMachine.WithdrawDenomination | src/main/java/LimitedTellerMachine.java:101-115 | the method computes the variant's WithdrawDenomination, which returns the conversion's result as is |
| DefaultTeller.LimitedTellerMachine.AggregateRequest | src/main/java/LimitedTellerMachine.java:125-132 | the validation loop accepts exactly when every pair is valid, and then yields the aggregated requestMap |
| DefaultTeller.LimitedTellerMachine.ProcessDenominations | src/main/java/LimitedTellerMachine.java:133-139 | the per-denomination loop computes the variant's ProcessFrom |
| DefaultTeller.LimitedTellerMachine.Withdraw | src/main/java/LimitedTellerMachine.java:118-143 | returns true exactly when the variant's Withdraw succeeds. The ledger becomes its result then, and stays as it was otherwise |
| DefaultTeller.LimitedTellerMachine.Deposit | src/main/java/LimitedTellerMachine.java:146-162 | the ledger and the exception thrown are exactly those of Deposit |
| DefaultTeller.LimitedTellerMachine.GetQuantity | src/main/java/LimitedTellerMachine.java:166-170 | the count held, 0 for an unsupported denomination, never negative on a committed ledger |
| Scenarios.EmptyIsZero | src/test/java/LimitedTellerMachineTest.java:26-34 | the ledger both constructors build is `Ledger(0, 0, 0, 0)`, the start of every scenario: a new machine holds 0 of every denomination |
| Scenarios.DepositEachOnce | src/test/java/LimitedTellerMachineTest.java:198-205 | one pair per denomination on a new machine sets each count to the quantity deposited |
| Scenarios.ShortSetups | src/test/java/LimitedTellerMachineTest.java:251-266 | the deposits (5,10) and (10,1,20,2) on a new machine give the ledgers the perfect-change and complex withdraw tests start from |
| Scenarios.ExampleSetup | src/test/java/LimitedTellerMachineTest.java:399-403 | the deposit (1,3,10,1,20,2) gives three 1s, no 5, one 10 and two 20s |
| Scenarios.SmallDeposits | src/test/java/LimitedTellerMachineTest.java:45-125 | an unsupported denomination (2) and a zero denomination throw for that denomination with nothing added; no arguments and a zero quantity change nothing; one 1 deposited gives one 1 |
| Scenarios.DepositChain | src/test/java/LimitedTellerMachineTest.java:156-168 | a second deposit (1,3,5,2,20,3) on the ledger the first left gives three 1s, two 5s, one 10 and five 20s |
| Scenarios.DepositWeirdOrder | src/test/java/LimitedTellerMachineTest.java:174-180 | the deposit (20,1,5,2,1,7,10,2) gives seven 1s, two 5s, two 10s and one 20; that any order of these pairs gives the same ledger is `Deposits.DepositOrderIrrelevant` |
| Scenarios.DepositSameDenomination | src/test/java/LimitedTellerMachineTest.java:186-193 | 10x2, 10x5 and 10x3 deposited together give ten 10s |
| Scenarios.DepositKeepsEarlierPairs | src/test/java/LimitedTellerMachineTest.java:40-43 | (10,1,-1,2) throws for denomination -1, with the one 10 already added |
| Scenarios.DepositFirstErrorWins | src/test/java/LimitedTellerMachineTest.java:76-88 | the first bad pair decides which exception is thrown |
| Scenarios.DepositOddLength | src/test/java/LimitedTellerMachineTest.java:67-70 | an odd-length deposit throws and changes nothing |
| Scenarios.GetQuantityVector | src/test/java/LimitedTellerMachineTest.java:437-465 | a new machine reports 0 for every unsupported denomination; the deposits (10,1,20,2) and then (5,2,20,10) leave two 5s, one 10 and twelve 20s |
| Scenarios.EmptyAndSingleWithdraw | src/test/java/LimitedTellerMachineTest.java:210-231 | an empty withdraw changes nothing, before and after one 10 is deposited and taken directly |
| Scenarios.WithdrawEachOnce | src/test/java/LimitedTellerMachineTest.java:236-244 | for any quantities, a request of one pair per denomination, each quantity on hand, succeeds and leaves each count less its quantity |
| Scenarios.NoConvertedDenominations | src/test/java/LimitedTellerMachineTest.java:236-244 | with every denomination on hand the withdraw takes each directly: 2, 0, 3 and 1 remain |
| Scenarios.PerfectChange | src/test/java/LimitedTellerMachineTest.java:249-258 | ten 5s become exactly fifty 1s and are all paid out |
| Scenarios.ComplexSingleWithdraw | src/test/java/LimitedTellerMachineTest.java:264-276 | eleven 1s from one 10 and two 20s leave four 1s, one 5, one 10 and one 20 |
| Scenarios.MultipleWithdraw | src/test/java/LimitedTellerMachineTest.java:281-300 | from 100 of each, (1,50,5,20,10,10,20,10) leaves 50, 80, 90 and 90, and then (1,20,5,17) leaves 30, 63, 90 and 90 |
| Scenarios.SecondBatch | src/test/java/LimitedTellerMachineTest.java:295-299 | the second withdraw of that test skips the unrequested 20s and 10s and takes the 5s and 1s directly |
| Scenarios.ZeroQuantityWithdraw | src/test/java/LimitedTellerMachineTest.java:351-356 | a withdraw of zero 20s succeeds and leaves the ledger as it was |
| Scenarios.WithdrawValidation | src/test/java/LimitedTellerMachineTest.java:302-345 | an unsupported denomination, an odd length and a negative quantity each make the withdraw return false on a machine holding 100 of each |
| Scenarios.InsufficientFunds | src/test/java/LimitedTellerMachineTest.java:361-366 | the deposit (10,3) gives three 10s, and thirty-one 1s cannot be had from them |
| Scenarios.InsufficientFunds2 | src/test/java/LimitedTellerMachineTest.java:371-379 | a request fails as a whole when four 20s cannot be served, although the 1s and the 5 could be |
| Scenarios.InsufficientTwenties | src/test/java/LimitedTellerMachineTest.java:385-390 | four 20s cannot be had from three 20s and smaller bills, although the total money suffices |
| Scenarios.AssignmentExample | src/test/java/LimitedTellerMachineTest.java:397-428 | the worked example leaves three 1s, one 5, one 10 and one 20, in either order of the pairs |
| Scenarios.VariantAssignmentExample | src/main/java/LimitedTellerMachine.java:96 | the default-package machine on the worked example leaves six 1s instead of three |
| Scenarios.ExampleValues | src/main/java/LimitedTellerMachine.java:96 | on the worked example the canonical machine pays out exactly 15 and the variant only 12 |
| Scenarios.VariantOverdraws | src/main/java/LimitedTellerMachine.java:96 | from a ledger holding 30, the variant pays out a request worth 35 and is left holding a 5; the canonical machine refuses |

## Left out

- Java `int` overflow is not modelled: counts, quantities and amounts are unbounded integers. A
  product such as `denomination * quantity` that would wrap in Java does not wrap here.
- `Math.ceil` on a `double` quotient is modelled as exact integer ceiling division (`CeilDiv`).
  The amounts involved are far below the precision limit of a double.
- `HashMap`, `Arrays.stream(...).indexOf` and `getOrDefault` are modelled as `map<int, int>`,
  `IndexOf` and `Get`. The scratch `tempCash` that Java passes by reference is a map value that
  the helper methods return.
- The two loops of `withdraw` are written as the helper methods `AggregateRequest` and
  `ProcessDenominations` of each class. They run exactly the statements of the loops.
- `tempCash.get(denomination)` at teller/LimitedTellerMachine.java:119 would throw on a missing
  key. The model reads it as `getOrDefault`. On a committed ledger the key is always present.
- The `System.out.println` tracing of the variant (LimitedTellerMachine.java:44-97, 104, 108) is
  output only and is left out.
- Exception messages are left out; only which exception is thrown is modelled.
- TellerMachine.java:25-26 says a request can be fulfilled when the total money suffices. The
  code does not do that: it requires every prefix of denominations to be covered (see
  `Withdrawal.WithdrawOutcome` and `Scenarios.InsufficientTwenties`). The model follows the code.
- `deposit` is not atomic in either machine: the pairs before a bad pair stay added. The model
  follows the code (`Deposits.DepositStopsAtFirstBad`).
- Withdrawal.VariantWithdrawOutcome: states only that a success leaves a committed ledger, and
  that a feasible request succeeds holding at least the money requested less. The variant can
  also succeed on requests that are not feasible (`Scenarios.VariantOverdraws`), so no exact
  characterisation is claimed.
- Withdrawal.VariantProcessOutcome: the same lower-bound form as `VariantWithdrawOutcome`, for
  the same reason.

## Findings

| source | as written | input that shows it | evidently intended | confidence | as-written member | corrected member |
|---|---|---|---|---|---|---|
| src/main/java/LimitedTellerMachine.java:96 | after converting, `convertDenomination` deducts only the converted shortfall, and `withdrawDenomination` (line 114) deducts nothing more, so the bills of that denomination already on hand are never paid out | ledger 1:3, 10:1, 20:2 and `withdraw(1, 5, 10, 1)` leave six 1s; the test at src/test/java/LimitedTellerMachineTest.java:397-410 expects three. Ledger 10:1, 20:1 and `withdraw(10, 2, 1, 15)` succeed, paying out 35 from 30 | deduct the full quantity requested after converting, as teller/LimitedTellerMachine.java:119 does, so that exactly the money requested leaves the ledger | high (not executed) | Scenarios.VariantOverdraws | Withdrawal.WithdrawOutcome |
