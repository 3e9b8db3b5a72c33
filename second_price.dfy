/** The second-price rule that the comment above the clearing loop of
    ssp/main.go announces, kept apart from the model of that loop: the
    winner should pay the highest price strictly below the top one (or the
    top price when no lower price was bid). The loop, as modelled in Ssp,
    charges the top price instead; the lemmas here say by how much the two
    can differ. */
module SecondPriceRule {
  import opened Ssp

  /** The bids priced strictly below `t`, in auction order. */
  function Below(bids: seq<BitResponse>, t: int): (r: seq<BitResponse>)
    ensures forall k :: 0 <= k < |r| ==> r[k].price < t && r[k] in bids
    ensures forall i :: 0 <= i < |bids| && bids[i].price < t ==> bids[i] in r
  {
    if bids == [] then []
    else
      var rest := Below(bids[..|bids| - 1], t);
      var last := bids[|bids| - 1];
      assert forall b :: b in bids[..|bids| - 1] ==> b in bids;
      if last.price < t then rest + [last] else rest
  }

  /** The intended clearing price: the largest price below the top one, or
      the top price when there is none. */
  function IntendedClearingPrice(bids: seq<BitResponse>): int
  {
    var lower := Below(bids, MaxPrice(bids));
    if lower == [] then MaxPrice(bids) else MaxPrice(lower)
  }

  /** The intended price never exceeds the top price. */
  lemma IntendedPriceNotAboveTop(bids: seq<BitResponse>)
    ensures IntendedClearingPrice(bids) <= MaxPrice(bids)
  {
  }

  /** Once a bid of at least 0 lies below the top, the intended price is the
      next price level: a price some bid offered, below the top, and at least
      every other price below the top. */
  lemma IntendedPriceIsNextLevel(bids: seq<BitResponse>)
    requires exists i :: 0 <= i < |bids| && 0 <= bids[i].price < MaxPrice(bids)
    ensures IntendedClearingPrice(bids) < MaxPrice(bids)
    ensures exists i :: 0 <= i < |bids| && bids[i].price == IntendedClearingPrice(bids)
    ensures forall i :: 0 <= i < |bids| && bids[i].price < MaxPrice(bids) ==>
              bids[i].price <= IntendedClearingPrice(bids)
  {
  }

  /** Whenever some bid of at least 0 lies below the top price, the price
      the code sends to the winner is strictly above the intended second
      price. */
  lemma CodeChargesAboveSecondPrice(bids: seq<BitResponse>)
    requires exists i :: 0 <= i < |bids| && 0 <= bids[i].price < MaxPrice(bids)
    ensures IntendedClearingPrice(bids) < Cleared(bids).secondPrice
  {
    ClearingPriceIsWinningPrice(bids);
    TopPriceIsMax(bids);
    IntendedPriceIsNextLevel(bids);
  }

  /** With a single price level the two rules agree. */
  lemma SingleLevelAgrees(bids: seq<BitResponse>)
    requires forall i :: 0 <= i < |bids| ==> bids[i].price == MaxPrice(bids)
    ensures IntendedClearingPrice(bids) == Cleared(bids).secondPrice
  {
  }

  /** Bids A:100, B:80, C:80: A wins and is sent 100, where the second-price
      rule would charge 80. */
  lemma ThreeBidExample()
    ensures Cleared([BitResponse("A", 100), BitResponse("B", 80), BitResponse("C", 80)])
            == Clearing(100, 100, BitResponse("A", 100))
    ensures IntendedClearingPrice([BitResponse("A", 100), BitResponse("B", 80), BitResponse("C", 80)]) == 80
  {
    var bids := [BitResponse("A", 100), BitResponse("B", 80), BitResponse("C", 80)];
    assert bids[..2] == [BitResponse("A", 100), BitResponse("B", 80)];
    assert bids[..2][..1] == [BitResponse("A", 100)];
    assert Cleared(bids[..2][..1]) == Clearing(100, 100, BitResponse("A", 100));
    assert Cleared(bids[..2]) == Clearing(100, 100, BitResponse("A", 100));
  }

  /** Bids A:50, B:50: the later bid, B, wins at 50. */
  lemma TieExample()
    ensures Cleared([BitResponse("A", 50), BitResponse("B", 50)]) == Clearing(50, 50, BitResponse("B", 50))
  {
    var bids := [BitResponse("A", 50), BitResponse("B", 50)];
    assert bids[..1] == [BitResponse("A", 50)];
  }
}
