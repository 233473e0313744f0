/**
 The order of the bids in one buy-and-burn execution (twap/src/surplus.rs): COIN offered per USDC,
 compared exactly by continued fractions, and the insertion ranking built on that comparison.
 */
module BidRanking {
  import opened Machine
  import opened Division

  const MAX_BIDS: nat := 64

  datatype Bid = Bid(bidder: Pubkey, coin: u128, usdc: u128, filled: u128, burned: u128)

  datatype Order = Less | Equal | Greater {
    function Reversed(reversed: bool): Order {
      if !reversed then this
      else match this
        case Less => Greater
        case Equal => Equal
        case Greater => Less
    }
  }

  function Compare(a: int, b: int): Order {
    if a < b then Less else if a == b then Equal else Greater
  }

  // ------------------------------------------------------------------------------------------
  // Exact comparison
  // ------------------------------------------------------------------------------------------

  /** The order of `a / b` and `c / d`, by cross multiplication. */
  function FractionOrder(a: nat, b: nat, c: nat, d: nat): Order {
    Compare(a * d, c * b)
  }

  /** Different whole parts decide the order. */
  lemma WholePartsDecide(a: nat, b: nat, c: nat, d: nat)
    requires b > 0 && d > 0 && a / b < c / d
    ensures a * d < c * b
  {
    FloorIsLargest(a, b, a / b + 1);
    FloorIsLargest(c, d, c / d);
    MulMonotone(a / b + 1, c / d, d);
    MulMonotone(a + 1, (a / b + 1) * b, d);
    MulMonotone((a / b + 1) * d, c, b);
    assert (a + 1) * d == a * d + d;
    assert (a / b + 1) * b * d == (a / b + 1) * d * b;
  }

  /** With equal whole parts the fractional parts decide, and inverting them reverses the order. */
  lemma RemaindersDecide(a: nat, b: nat, c: nat, d: nat)
    requires b > 0 && d > 0 && a / b == c / d
    ensures a * d - c * b == a % b * d - c % d * b
    ensures FractionOrder(a, b, c, d) == FractionOrder(b, a % b, d, c % d).Reversed(true)
  {
    var q := a / b;
    assert a == q * b + a % b && c == q * d + c % d;
    assert a * d == q * b * d + a % b * d;
    assert c * b == q * d * b + c % d * b;
    assert q * b * d == q * d * b;
  }

  /** Euclid's algorithm on both fractions at once. */
  ghost function EuclidOrder(a: u128, b: u128, c: u128, d: u128): Order
    requires b > 0 && d > 0
    decreases b
  {
    if WholePart(a, b) != WholePart(c, d) then Compare(WholePart(a, b), WholePart(c, d))
    else if Remainder(a, b) == 0 && Remainder(c, d) == 0 then Equal
    else if Remainder(a, b) == 0 then Less
    else if Remainder(c, d) == 0 then Greater
    else EuclidOrder(b, Remainder(a, b), d, Remainder(c, d)).Reversed(true)
  }

  function WholePart(n: u128, d: u128): u128
    requires d > 0
  {
    DivShrinks(n, d);
    n / d
  }

  function Remainder(n: u128, d: u128): (r: u128)
    requires d > 0
    ensures r < d
  {
    n % d
  }

  lemma {:induction false} EuclidIsExact(a: u128, b: u128, c: u128, d: u128)
    requires b > 0 && d > 0
    ensures EuclidOrder(a, b, c, d) == FractionOrder(a, b, c, d)
    decreases b
  {
    if a / b < c / d {
      WholePartsDecide(a, b, c, d);
    } else if a / b > c / d {
      WholePartsDecide(c, d, a, b);
    } else {
      RemaindersDecide(a, b, c, d);
      MulMonotone(0, a % b, d);
      MulMonotone(0, c % d, b);
      if a % b > 0 && c % d > 0 {
        EuclidIsExact(b, a % b, d, c % d);
      } else {
        PositiveProducts(a % b, b, c % d, d);
      }
    }
  }

  lemma PositiveProducts(x: nat, b: nat, y: nat, d: nat)
    requires b > 0 && d > 0 && (x == 0 || y == 0)
    ensures Compare(x * d, y * b) == Compare(x, y)
  {
    assert x > 0 ==> x * d > 0;
    assert y > 0 ==> y * b > 0;
  }

  /** The comparison of two bids' prices: no product is formed, every value is a remainder of the inputs. */
  method CompareFraction(a: u128, b: u128, c: u128, d: u128) returns (r: Result<Order>)
    ensures r.Ok? <==> b != 0 && d != 0
    ensures r.Ok? ==> r.value == FractionOrder(a, b, c, d)
  {
    if b == 0 || d == 0 {
      return Err(InvalidArgument);
    }
    EuclidIsExact(a, b, c, d);
    var order := CompareQuotients(a, b, c, d);
    r := Ok(order);
  }

  method CompareQuotients(a: u128, b: u128, c: u128, d: u128) returns (order: Order)
    requires b > 0 && d > 0
    ensures order == EuclidOrder(a, b, c, d)
  {
    var (leftNum, leftDen, rightNum, rightDen) := (a, b, c, d);
    var reversed := false;
    while true
      invariant leftDen > 0 && rightDen > 0
      invariant EuclidOrder(leftNum, leftDen, rightNum, rightDen).Reversed(reversed) == EuclidOrder(a, b, c, d)
      decreases leftDen
    {
      var (leftQuotient, rightQuotient) := (WholePart(leftNum, leftDen), WholePart(rightNum, rightDen));
      if leftQuotient != rightQuotient {
        return Compare(leftQuotient, rightQuotient).Reversed(reversed);
      }
      var (leftRemainder, rightRemainder) := (Remainder(leftNum, leftDen), Remainder(rightNum, rightDen));
      if leftRemainder == 0 && rightRemainder == 0 {
        return Equal;
      }
      if leftRemainder == 0 {
        return Less.Reversed(reversed);
      }
      if rightRemainder == 0 {
        return Greater.Reversed(reversed);
      }
      leftNum, leftDen, rightNum, rightDen := leftDen, leftRemainder, rightDen, rightRemainder;
      reversed := !reversed;
    }
  }

  // ------------------------------------------------------------------------------------------
  // Ranking
  // ------------------------------------------------------------------------------------------

  /** The unfilled part of a bid, absent when there is nothing to rank. */
  datatype Remaining = Remaining(coin: u128, usdc: u128)

  function RankableBid(bid: Bid): Option<Remaining> {
    if bid.bidder == DEFAULT_KEY || bid.coin == 0 || bid.usdc == 0 then None
    else if bid.burned >= bid.coin || bid.filled >= bid.usdc then None
    else if (bid.coin - bid.burned) * (bid.usdc - bid.filled) > U128_MAX then None
    else Some(Remaining(bid.coin - bid.burned, bid.usdc - bid.filled))
  }

  predicate Rankable(bids: seq<Bid>, i: nat) {
    i < |bids| && RankableBid(bids[i]).Some?
  }

  /** The remainder of the ranked bid `i`. */
  function Rest(bids: seq<Bid>, i: nat): (r: Remaining)
    requires Rankable(bids, i)
    ensures r.usdc > 0 && r.coin > 0
  {
    RankableBid(bids[i]).value
  }

  /** Bid `i` offers strictly more COIN per USDC than bid `j`. */
  predicate Beats(bids: seq<Bid>, i: nat, j: nat)
    requires Rankable(bids, i) && Rankable(bids, j)
  {
    Rest(bids, i).coin * Rest(bids, j).usdc > Rest(bids, j).coin * Rest(bids, i).usdc
  }

  /** The ranking order: the better price first, and at the same price the older bid. */
  predicate Before(bids: seq<Bid>, i: nat, j: nat) {
    Rankable(bids, i) && Rankable(bids, j) && (Beats(bids, i, j) || (!Beats(bids, j, i) && i < j))
  }

  lemma RatioTransitive(a: nat, b: nat, c: nat, d: nat, e: nat, f: nat)
    requires b > 0 && d > 0 && f > 0
    requires a * d >= c * b && c * f >= e * d
    ensures a * f >= e * b
    ensures a * d > c * b || c * f > e * d ==> a * f > e * b
  {
    Chain(a, b, c, d, e, f);
    if a * d > c * b {
      MulMonotone(c * b + 1, a * d, f);
      StrictChain(a, b, c, d, e, f);
    } else if c * f > e * d {
      MulMonotone(e * d + 1, c * f, b);
      StrictChain(a, b, c, d, e, f);
    }
  }

  /** Both comparisons on the common denominator. */
  lemma Chain(a: nat, b: nat, c: nat, d: nat, e: nat, f: nat)
    requires d > 0 && a * d >= c * b && c * f >= e * d
    ensures a * d * f >= c * b * f && c * f * b >= e * d * b
    ensures a * f >= e * b
  {
    MulMonotone(c * b, a * d, f);
    MulMonotone(e * d, c * f, b);
    Rearrange(a, b, c, d, e, f);
    CancelFactor(e * b, a * f, d);
  }

  lemma Rearrange(a: nat, b: nat, c: nat, d: nat, e: nat, f: nat)
    ensures a * d * f == a * f * d && c * b * f == c * f * b && e * d * b == e * b * d
  {
  }

  lemma StrictChain(a: nat, b: nat, c: nat, d: nat, e: nat, f: nat)
    requires a * f >= e * b
    requires a * d * f >= c * b * f && c * f * b >= e * d * b
    requires a * d * f > c * b * f || c * f * b > e * d * b
    ensures a * f > e * b
  {
    Rearrange(a, b, c, d, e, f);
  }

  lemma BeforeTransitive(bids: seq<Bid>, i: nat, j: nat, k: nat)
    requires Before(bids, i, j) && Before(bids, j, k)
    ensures Before(bids, i, k)
  {
    var (x, y, z) := (Rest(bids, i), Rest(bids, j), Rest(bids, k));
    RatioTransitive(x.coin, x.usdc, y.coin, y.usdc, z.coin, z.usdc);
  }

  /** A strict order: any two different rankable bids are ordered one way. */
  lemma BeforeTotal(bids: seq<Bid>, i: nat, j: nat)
    requires Rankable(bids, i) && Rankable(bids, j)
    ensures Before(bids, i, j) || Before(bids, j, i) || i == j
    ensures !(Before(bids, i, j) && Before(bids, j, i))
  {
  }

  predicate Sorted(bids: seq<Bid>, top: seq<nat>) {
    && (forall p :: 0 <= p < |top| ==> Rankable(bids, top[p]))
    && (forall p, q :: 0 <= p < q < |top| ==> Before(bids, top[p], top[q]))
  }

  lemma RankedEarlier(bids: seq<Bid>, top: seq<nat>, p: nat, q: nat)
    requires Sorted(bids, top) && p < |top| && q < |top| && Before(bids, top[p], top[q])
    ensures p < q
  {
    BeforeTotal(bids, top[p], top[q]);
  }

  /** Exactly the rankable bids among the first `n`, best first. */
  ghost predicate Ranked(bids: seq<Bid>, n: nat, top: seq<nat>) {
    Sorted(bids, top) && forall i: nat :: i in top <==> i < n && Rankable(bids, i)
  }

  lemma FirstIsMember(s: seq<nat>)
    ensures s == [] || s[0] in s
  {
  }

  /** The ranking is determined: sorted sequences of the same bids are equal, and repeat no bid. */
  lemma {:induction false} SortedUnique(bids: seq<Bid>, a: seq<nat>, b: seq<nat>)
    requires Sorted(bids, a) && Sorted(bids, b) && forall i :: i in a <==> i in b
    ensures a == b
    ensures forall p, q :: 0 <= p < q < |a| ==> a[p] != a[q]
    decreases |a|
  {
    FirstIsMember(b);
    if a != [] {
      assert a[0] in b && b[0] in a;
      var p, q :| 0 <= p < |b| && 0 <= q < |a| && b[p] == a[0] && a[q] == b[0];
      assert Before(bids, a[0], a[0]) ==> false;
      assert a[0] == b[0];
      forall i | i in a[1..] ensures i in b[1..] {
        assert i in b && Before(bids, a[0], i);
      }
      forall i | i in b[1..] ensures i in a[1..] {
        assert i in a && Before(bids, b[0], i);
      }
      SortedUnique(bids, a[1..], b[1..]);
    }
  }

  /** Insert a candidate before the first ranked bid that it strictly beats. */
  function Insert(bids: seq<Bid>, top: seq<nat>, candidate: nat): seq<nat>
    requires Rankable(bids, candidate) && forall p :: 0 <= p < |top| ==> Rankable(bids, top[p])
  {
    if top == [] then [candidate]
    else if Beats(bids, candidate, top[0]) then [candidate] + top
    else [top[0]] + Insert(bids, top[1..], candidate)
  }

  /** Inserting the newest bid keeps the ranking sorted and adds just that bid. */
  lemma {:induction false} InsertKeeps(bids: seq<Bid>, top: seq<nat>, candidate: nat)
    requires Rankable(bids, candidate) && Sorted(bids, top) && forall i :: i in top ==> i < candidate
    ensures Sorted(bids, Insert(bids, top, candidate))
    ensures forall i :: i in Insert(bids, top, candidate) <==> i in top || i == candidate
    ensures |Insert(bids, top, candidate)| == |top| + 1
    decreases |top|
  {
    if top != [] {
      if Beats(bids, candidate, top[0]) {
        forall q | 0 < q < |top| ensures Before(bids, candidate, top[q]) {
          BeforeTransitive(bids, candidate, top[0], top[q]);
        }
        Prepend(bids, candidate, top);
      } else {
        assert top[0] in top && forall i :: i in top[1..] ==> i in top;
        InsertKeeps(bids, top[1..], candidate);
        var rest := Insert(bids, top[1..], candidate);
        forall q | 0 <= q < |rest| ensures Before(bids, top[0], rest[q]) {
          assert rest[q] in rest;
        }
        Prepend(bids, top[0], rest);
      }
    }
  }

  lemma Prepend(bids: seq<Bid>, first: nat, rest: seq<nat>)
    requires Rankable(bids, first) && Sorted(bids, rest)
    requires forall q :: 0 <= q < |rest| ==> Before(bids, first, rest[q])
    ensures Sorted(bids, [first] + rest)
  {
  }

  /** The ranking of the first `n` bids. */
  function RankFirst(bids: seq<Bid>, n: nat): (top: seq<nat>)
    requires n <= |bids|
    ensures Ranked(bids, n, top) && |top| <= n
  {
    if n == 0 then []
    else
      var before := RankFirst(bids, n - 1);
      if Rankable(bids, n - 1) then
        InsertKeeps(bids, before, n - 1);
        Insert(bids, before, n - 1)
      else before
  }

  function Ranking(bids: seq<Bid>): (top: seq<nat>)
    ensures Ranked(bids, |bids|, top)
  {
    RankFirst(bids, |bids|)
  }

  /**
   Insertion ranking: every rankable bid exactly once, by descending price, ties in book order. The ranking
   never outgrows its 64 places, so no ranked bid is ever dropped.
   */
  method TopBidIndices(bids: array<Bid>) returns (r: Result<seq<nat>>)
    ensures r.Ok? <==> bids.Length <= MAX_BIDS
    ensures r.Ok? ==> Ranked(bids[..], bids.Length, r.value) && r.value == Ranking(bids[..])
  {
    if bids.Length > MAX_BIDS {
      return Err(InvalidArgument);
    }
    var top: seq<nat> := [];
    for index := 0 to bids.Length
      invariant Ranked(bids[..], index, top) && |top| <= index
    {
      var candidate := RankableBid(bids[index]);
      if candidate.None? {
        continue;
      }
      var insertAt := |top|;
      for rank := 0 to |top|
        invariant insertAt == |top|
        invariant forall p :: 0 <= p < rank ==> !Beats(bids[..], index, top[p])
      {
        var selected := RankableBid(bids[top[rank]]).value;
        var quality := CompareFraction(candidate.value.coin, candidate.value.usdc, selected.coin, selected.usdc);
        if quality == Ok(Greater) {
          insertAt := rank;
          break;
        }
      }
      InsertedKeeps(bids[..], index, top, insertAt);
      if insertAt < |top| {
        top := top[..insertAt] + [index] + top[insertAt..];
      } else {
        top := top + [index];
      }
    }
    SortedUnique(bids[..], top, Ranking(bids[..]));
    r := Ok(top);
  }

  lemma InsertedKeeps(bids: seq<Bid>, index: nat, top: seq<nat>, at: nat)
    requires Ranked(bids, index, top) && Rankable(bids, index) && at <= |top|
    requires forall p :: 0 <= p < at ==> !Beats(bids, index, top[p])
    requires at < |top| ==> Beats(bids, index, top[at])
    ensures Ranked(bids, index + 1, top[..at] + [index] + top[at..])
  {
    InsertAt(bids, top, index, at);
    InsertKeeps(bids, top, index);
  }

  lemma {:induction false} InsertAt(bids: seq<Bid>, top: seq<nat>, candidate: nat, at: nat)
    requires Rankable(bids, candidate) && at <= |top| && forall p :: 0 <= p < |top| ==> Rankable(bids, top[p])
    requires forall p :: 0 <= p < at ==> !Beats(bids, candidate, top[p])
    requires at < |top| ==> Beats(bids, candidate, top[at])
    ensures Insert(bids, top, candidate) == top[..at] + [candidate] + top[at..]
    decreases |top|
  {
    if at > 0 {
      InsertAt(bids, top[1..], candidate, at - 1);
    }
  }
}
