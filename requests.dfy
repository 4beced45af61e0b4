/** The flat `int...` argument lists of deposit and withdraw, read as (denomination, quantity) pairs. */
module Requests {
  import opened Cash

  datatype Pair = Pair(denomination: int, quantity: int)

  /** The argument list read two at a time (`request[i]`, `request[i + 1]` for even i). */
  function Pairs(r: seq<int>): (ps: seq<Pair>)
    ensures |ps| == |r| / 2
    ensures forall j :: 0 <= j < |ps| ==> ps[j] == Pair(r[2 * j], r[2 * j + 1])
    decreases |r|
  {
    if |r| < 2 then [] else [Pair(r[0], r[1])] + Pairs(r[2..])
  }

  /** Reading the list from an even position on: the pair there, then the pairs after it. */
  lemma PairsFrom(r: seq<int>, i: nat)
    requires i + 2 <= |r|
    ensures var ps := Pairs(r[i..]);
            ps != [] && ps[0] == Pair(r[i], r[i + 1]) && ps[1..] == Pairs(r[i + 2..])
  {
    assert r[i..][2..] == r[i + 2..];
  }

  /** A pair passes validation: a supported denomination and a quantity that is not negative. */
  predicate ValidPair(p: Pair)
  {
    p.denomination in DENOMS && p.quantity >= 0
  }

  predicate AllValid(ps: seq<Pair>)
  {
    forall j :: 0 <= j < |ps| ==> ValidPair(ps[j])
  }

  /** An even position before the end of an even-length list has a whole pair after it. */
  lemma EvenStep(i: nat, n: nat)
    requires i % 2 == 0 && n % 2 == 0 && i < n
    ensures i + 2 <= n && (i + 2) % 2 == 0
  {
  }

  /** A list of pairs is valid exactly when its first pair and the rest are. */
  lemma AllValidCons(ps: seq<Pair>)
    requires ps != []
    ensures AllValid(ps) <==> ValidPair(ps[0]) && AllValid(ps[1..])
  {
    if ValidPair(ps[0]) && AllValid(ps[1..]) {
      forall j | 0 <= j < |ps| ensures ValidPair(ps[j]) {
        if j > 0 {
          assert ps[j] == ps[1..][j - 1];
        }
      }
    }
  }

  /** `requestMap.put(d, requestMap.getOrDefault(d, 0) + q)` for each pair, left to right, onto `acc`. */
  function Aggregate(ps: seq<Pair>, acc: map<int, int>): map<int, int>
    decreases |ps|
  {
    if ps == [] then acc
    else Aggregate(ps[1..], acc[ps[0].denomination := Get(acc, ps[0].denomination) + ps[0].quantity])
  }

  /** The requestMap a withdraw request aggregates to. */
  function Requested(ps: seq<Pair>): map<int, int>
  {
    Aggregate(ps, map[])
  }

  /** The total quantity of denomination d the pairs ask for. */
  function Sum(ps: seq<Pair>, d: int): (s: int)
    ensures AllValid(ps) ==> s >= 0
    decreases |ps|
  {
    if ps == [] then 0
    else (if ps[0].denomination == d then ps[0].quantity else 0) + Sum(ps[1..], d)
  }

  /** Aggregation adds, per denomination, the sum of the quantities asked for. */
  lemma {:induction false} AggregateSums(ps: seq<Pair>, acc: map<int, int>, d: int)
    ensures Get(Aggregate(ps, acc), d) == Get(acc, d) + Sum(ps, d)
    decreases |ps|
  {
    if ps != [] {
      var p := ps[0];
      AggregateSums(ps[1..], acc[p.denomination := Get(acc, p.denomination) + p.quantity], d);
    }
  }

  /** Each denomination's entry in the requestMap is the sum of its quantities in the request. */
  lemma RequestedSums(ps: seq<Pair>, d: int)
    ensures Get(Requested(ps), d) == Sum(ps, d)
  {
    AggregateSums(ps, map[], d);
  }

  lemma {:induction false} SumAppend(a: seq<Pair>, b: seq<Pair>, d: int)
    ensures Sum(a + b, d) == Sum(a, d) + Sum(b, d)
    decreases |a|
  {
    if a != [] {
      assert (a + b)[1..] == a[1..] + b;
      SumAppend(a[1..], b, d);
    } else {
      assert a + b == b;
    }
  }

  /** Pair order is irrelevant to the sums: any rearrangement asks for the same quantities. */
  lemma {:induction false} SumPermutation(ps: seq<Pair>, qs: seq<Pair>, d: int)
    requires multiset(ps) == multiset(qs)
    ensures Sum(ps, d) == Sum(qs, d)
    decreases |ps|
  {
    if ps == [] {
      assert |qs| == |multiset(qs)| == 0;
    } else {
      var x := ps[0];
      assert x in multiset(qs);
      var j :| 0 <= j < |qs| && qs[j] == x;
      var rest := qs[..j] + qs[j + 1..];
      assert qs == qs[..j] + [x] + qs[j + 1..];
      assert ps == [x] + ps[1..];
      assert multiset(qs) == multiset(qs[..j]) + multiset{x} + multiset(qs[j + 1..]);
      assert multiset(ps) == multiset{x} + multiset(ps[1..]);
      assert multiset(rest) == multiset(qs[..j]) + multiset(qs[j + 1..]);
      assert multiset(ps[1..]) == multiset(ps) - multiset{x};
      assert multiset(rest) == multiset(qs) - multiset{x};
      SumPermutation(ps[1..], rest, d);
      SumAppend(qs[..j] + [x], qs[j + 1..], d);
      SumAppend(qs[..j], [x], d);
      SumAppend(qs[..j], qs[j + 1..], d);
    }
  }

  /** Validity does not depend on pair order either. */
  lemma AllValidPermutation(ps: seq<Pair>, qs: seq<Pair>)
    requires multiset(ps) == multiset(qs)
    ensures AllValid(ps) <==> AllValid(qs)
  {
    forall j | 0 <= j < |ps| ensures ps[j] in qs {
      assert ps[j] in multiset(qs);
    }
    forall j | 0 <= j < |qs| ensures qs[j] in ps {
      assert qs[j] in multiset(ps);
    }
  }
}
