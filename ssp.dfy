/** The supply-side platform of ssp/main.go: the bidder registry, the
    aggregation of one bid round, the clearing loop and the win notice.

    The remote calls (sendBit, sendWin through sendReq) are not modelled as
    I/O: each is a function parameter from (url, request) to the outcome of
    the call, and the order in which the concurrent bid calls settle is a
    parameter too. */
module Ssp {

  datatype Option<T> = None | Some(value: T)

  /** What a remote call gave back: a decoded reply, or some failure
      (timeout, transport error, undecodable body: the caller does not
      tell them apart). */
  datatype Outcome<T> = Succeeded(value: T) | Failed

  datatype AdRequest = AdRequest(appId: string)
  datatype AdResponse = AdResponse(url: string)
  datatype BitRequest = BitRequest(appId: string, dspId: string)
  datatype BitResponse = BitResponse(dspId: string, price: int)
  datatype WinRequest = WinRequest(dspId: string, price: int)
  datatype WinResponse = WinResponse(url: string)
  datatype DspInfo = DspInfo(bitUrl: string, winUrl: string)

  /** Go's zero values of the structs above. */
  const ZeroBid := BitResponse("", 0)
  const ZeroWinResponse := WinResponse("")
  const ZeroDspInfo := DspInfo("", "")

  const BaseUrl := "http://localhost:8080"

  /** The static registry installed by loadHosts. */
  function Registry(): (m: map<string, DspInfo>)
    ensures m.Keys == {"1", "2", "3"}
    ensures forall id :: id in m ==>
              m[id] == DspInfo("http://localhost:8080/", "http://localhost:8080/win")
  {
    var dsp := DspInfo(BaseUrl + "/", BaseUrl + "/win");
    map["1" := dsp, "2" := dsp, "3" := dsp]
  }

  /** A Go map index: a missing key reads as the zero value. */
  function Lookup(hosts: map<string, DspInfo>, id: string): DspInfo
  {
    if id in hosts then hosts[id] else ZeroDspInfo
  }

  function WinUrl(hosts: map<string, DspInfo>, id: string): string
  {
    Lookup(hosts, id).winUrl
  }

  /** Looking the winner up in the static registry: its win endpoint when the
      id is one of the registry's keys, the empty URL otherwise. */
  lemma RegistryWinUrl(id: string)
    ensures WinUrl(Registry(), id) ==
            if id in {"1", "2", "3"} then "http://localhost:8080/win" else ""
  {
  }

  // ---------------------------------------------------------------------
  // The bid round (runBit)
  // ---------------------------------------------------------------------

  /** `arrival` lists every registered bidder exactly once, in the order its
      bid call settled. */
  predicate IsArrivalOrder(arrival: seq<string>, hosts: map<string, DspInfo>)
  {
    multiset(arrival) == multiset(hosts.Keys)
  }

  /** The outcome of the bid call to the bidder registered under `id`: the
      request {appId, id} sent to that bidder's bid URL. */
  function BidOutcome(hosts: map<string, DspInfo>, appId: string,
                      call: (string, BitRequest) -> Outcome<BitResponse>, id: string): Outcome<BitResponse>
  {
    call(Lookup(hosts, id).bitUrl, BitRequest(appId, id))
  }

  /** The bids a round collects when the calls settle in the order `arrival`:
      the successful replies in that order, nothing for a failed call. */
  function Collected(hosts: map<string, DspInfo>, appId: string,
                     call: (string, BitRequest) -> Outcome<BitResponse>,
                     arrival: seq<string>): (r: seq<BitResponse>)
    ensures |r| <= |arrival|
    ensures forall k :: 0 <= k < |r| ==>
              exists i :: 0 <= i < |arrival| && BidOutcome(hosts, appId, call, arrival[i]) == Succeeded(r[k])
    ensures forall i :: 0 <= i < |arrival| && BidOutcome(hosts, appId, call, arrival[i]).Succeeded? ==>
              BidOutcome(hosts, appId, call, arrival[i]).value in r
  {
    if arrival == [] then []
    else
      var earlier := Collected(hosts, appId, call, arrival[..|arrival| - 1]);
      match BidOutcome(hosts, appId, call, arrival[|arrival| - 1])
      case Succeeded(b) => earlier + [b]
      case Failed => earlier
  }

  /** The registered bidders whose bid call succeeds. */
  function SuccessfulBidders(hosts: map<string, DspInfo>, appId: string,
                             call: (string, BitRequest) -> Outcome<BitResponse>): set<string>
  {
    set id | id in hosts && BidOutcome(hosts, appId, call, id).Succeeded?
  }

  /** In a sequence without repeats, the last element is not in the rest,
      and the rest has no repeats either. */
  lemma LastNotRepeated(front: seq<string>, x: string)
    requires forall y :: multiset(front + [x])[y] <= 1
    ensures x !in front
    ensures forall y :: multiset(front)[y] <= 1
  {
    assert multiset(front + [x]) == multiset(front) + multiset{x};
    assert multiset(front + [x])[x] == multiset(front)[x] + 1;
    forall y ensures multiset(front)[y] <= 1 {
      assert multiset(front)[y] <= multiset(front + [x])[y];
    }
  }

  /** The successful bidders among `front + [x]`. */
  lemma SuccessfulSplit(hosts: map<string, DspInfo>, appId: string,
                        call: (string, BitRequest) -> Outcome<BitResponse>, front: seq<string>, x: string)
    ensures (set id | id in front + [x] && BidOutcome(hosts, appId, call, id).Succeeded?) ==
            (set id | id in front && BidOutcome(hosts, appId, call, id).Succeeded?) +
            (if BidOutcome(hosts, appId, call, x).Succeeded? then {x} else {})
  {
  }

  /** When no bidder is listed twice, each successful call adds exactly one
      bid and each failed call none. */
  lemma {:induction false} CollectedCount(hosts: map<string, DspInfo>, appId: string,
                                          call: (string, BitRequest) -> Outcome<BitResponse>, arrival: seq<string>)
    requires forall x :: multiset(arrival)[x] <= 1
    ensures |Collected(hosts, appId, call, arrival)| ==
            |set id | id in arrival && BidOutcome(hosts, appId, call, id).Succeeded?|
  {
    var ok := set id | id in arrival && BidOutcome(hosts, appId, call, id).Succeeded?;
    if arrival == [] {
      assert ok == {};
    } else {
      var front := arrival[..|arrival| - 1];
      var x := arrival[|arrival| - 1];
      assert arrival == front + [x];
      LastNotRepeated(front, x);
      CollectedCount(hosts, appId, call, front);
      SuccessfulSplit(hosts, appId, call, front, x);
    }
  }

  /** Over a whole round, the auction holds exactly one bid per registered
      bidder whose call succeeded (so at most one per registered bidder),
      and a bid is in it exactly when some registered bidder's call
      returned it. */
  lemma CollectedFromRegistry(hosts: map<string, DspInfo>, appId: string,
                              call: (string, BitRequest) -> Outcome<BitResponse>, arrival: seq<string>)
    requires IsArrivalOrder(arrival, hosts)
    ensures forall i :: 0 <= i < |arrival| ==> arrival[i] in hosts
    ensures |Collected(hosts, appId, call, arrival)| == |SuccessfulBidders(hosts, appId, call)|
    ensures |Collected(hosts, appId, call, arrival)| <= |hosts|
    ensures forall b :: b in Collected(hosts, appId, call, arrival) <==>
              exists id :: id in hosts && BidOutcome(hosts, appId, call, id) == Succeeded(b)
  {
    forall i | 0 <= i < |arrival| ensures arrival[i] in hosts {
      assert arrival[i] in multiset(arrival);
    }
    forall x ensures multiset(arrival)[x] <= 1 {
      assert multiset(arrival)[x] == multiset(hosts.Keys)[x];
    }
    CollectedCount(hosts, appId, call, arrival);
    var ok := set id | id in arrival && BidOutcome(hosts, appId, call, id).Succeeded?;
    forall id ensures id in ok <==> id in SuccessfulBidders(hosts, appId, call) {
      assert id in multiset(arrival) <==> id in multiset(hosts.Keys);
    }
    assert ok == SuccessfulBidders(hosts, appId, call);
    assert SuccessfulBidders(hosts, appId, call) <= hosts.Keys;
    assert |SuccessfulBidders(hosts, appId, call)| <= |hosts.Keys| == |hosts|;
    var r := Collected(hosts, appId, call, arrival);
    forall b | exists id :: id in hosts && BidOutcome(hosts, appId, call, id) == Succeeded(b)
      ensures b in r
    {
      var id :| id in hosts && BidOutcome(hosts, appId, call, id) == Succeeded(b);
      assert id in multiset(hosts.Keys);
      assert id in multiset(arrival);
      var i :| 0 <= i < |arrival| && arrival[i] == id;
    }
  }

  /** When every bidder echoes the requested id in its reply (as the DSP's
      bit handler does), every collected bid carries a registered id. */
  lemma EchoedBidsAreRegistered(hosts: map<string, DspInfo>, appId: string,
                                call: (string, BitRequest) -> Outcome<BitResponse>, arrival: seq<string>)
    requires IsArrivalOrder(arrival, hosts)
    requires forall url, req :: call(url, req).Succeeded? ==> call(url, req).value.dspId == req.dspId
    ensures forall b :: b in Collected(hosts, appId, call, arrival) ==> b.dspId in hosts
  {
    CollectedFromRegistry(hosts, appId, call, arrival);
  }

  // ---------------------------------------------------------------------
  // The clearing loop of run
  // ---------------------------------------------------------------------

  /** The loop variables firstPrice, secondPrice and winner. */
  datatype Clearing = Clearing(firstPrice: int, secondPrice: int, winner: BitResponse)

  /** Their zero values before the first iteration. */
  const Unopened := Clearing(0, 0, ZeroBid)

  /** One iteration of the loop body. The second test reads the firstPrice
      the first test may just have changed. */
  function Step(c: Clearing, bid: BitResponse): (r: Clearing)
    ensures r.firstPrice == Max(c.firstPrice, bid.price)
    ensures c.secondPrice == c.firstPrice ==> r.secondPrice == r.firstPrice
  {
    var winner := if c.firstPrice <= bid.price then bid else c.winner;
    var first := if c.firstPrice <= bid.price then bid.price else c.firstPrice;
    var second := if c.secondPrice <= bid.price && first != c.secondPrice then bid.price else c.secondPrice;
    Clearing(first, second, winner)
  }

  /** The loop variables after the loop has run over `bids`. */
  function Cleared(bids: seq<BitResponse>): Clearing
  {
    if bids == [] then Unopened else Step(Cleared(bids[..|bids| - 1]), bids[|bids| - 1])
  }

  function Max(a: int, b: int): int
  {
    if a < b then b else a
  }

  /** The larger of 0 and every bid's price: a reference for the top price. */
  function MaxPrice(bids: seq<BitResponse>): (r: int)
    ensures 0 <= r
    ensures forall i :: 0 <= i < |bids| ==> bids[i].price <= r
    ensures r == 0 || exists i :: 0 <= i < |bids| && bids[i].price == r
  {
    if bids == [] then 0 else Max(MaxPrice(bids[..|bids| - 1]), bids[|bids| - 1].price)
  }

  /** The price the loop sends to the winner is always the winning price:
      `secondPrice` only moves while it differs from `firstPrice`, and the
      two start equal. */
  lemma {:induction false} ClearingPriceIsWinningPrice(bids: seq<BitResponse>)
    ensures Cleared(bids).secondPrice == Cleared(bids).firstPrice
  {
    if bids != [] {
      ClearingPriceIsWinningPrice(bids[..|bids| - 1]);
    }
  }

  /** The top price the loop finds is the larger of 0 and every price. */
  lemma {:induction false} TopPriceIsMax(bids: seq<BitResponse>)
    ensures Cleared(bids).firstPrice == MaxPrice(bids)
  {
    if bids != [] {
      TopPriceIsMax(bids[..|bids| - 1]);
    }
  }

  /** An empty auction, or one where every price is negative, leaves the
      zero-value winner with both prices 0. */
  lemma {:induction false} NoNonNegativeBidLeavesZeroWinner(bids: seq<BitResponse>)
    requires forall i :: 0 <= i < |bids| ==> bids[i].price < 0
    ensures Cleared(bids) == Unopened
  {
    if bids != [] {
      NoNonNegativeBidLeavesZeroWinner(bids[..|bids| - 1]);
    }
  }

  /** Once some price is at least 0, the winner is a bid of the auction at the
      top price, and no later bid reaches that price: among bids tied at the
      top, the last one wins. */
  lemma {:induction false} WinnerIsLastTopBid(bids: seq<BitResponse>)
    requires exists i :: 0 <= i < |bids| && 0 <= bids[i].price
    ensures exists k :: 0 <= k < |bids| && bids[k] == Cleared(bids).winner
              && bids[k].price == Cleared(bids).firstPrice
              && forall j :: k < j < |bids| ==> bids[j].price < Cleared(bids).firstPrice
  {
    var n := |bids|;
    var front := bids[..n - 1];
    var last := bids[n - 1];
    TopPriceIsMax(front);
    if Cleared(front).firstPrice <= last.price {
      assert bids[n - 1] == Cleared(bids).winner;
    } else {
      var i :| 0 <= i < n && 0 <= bids[i].price;
      if i < n - 1 {
        assert front[i] == bids[i];
      } else {
        assert 0 < MaxPrice(front);
      }
      WinnerIsLastTopBid(front);
      var k :| 0 <= k < |front| && front[k] == Cleared(front).winner
        && front[k].price == Cleared(front).firstPrice
        && forall j :: k < j < |front| ==> front[j].price < Cleared(front).firstPrice;
      assert bids[k] == front[k];
      forall j | k < j < n ensures bids[j].price < Cleared(bids).firstPrice {
        if j < n - 1 {
          assert bids[j] == front[j];
        }
      }
    }
  }

  /** The request sent to the winner: its id and the loop's secondPrice. It
      always carries the top price, and, once some price is at least 0, the
      id of a bid that offered exactly that price. */
  function WinNotice(bids: seq<BitResponse>): (r: WinRequest)
    ensures r.price == MaxPrice(bids)
    ensures (forall i :: 0 <= i < |bids| ==> bids[i].price < 0) ==> r == WinRequest("", 0)
    ensures (exists i :: 0 <= i < |bids| && 0 <= bids[i].price) ==>
              exists k :: 0 <= k < |bids| && bids[k].dspId == r.dspId && bids[k].price == r.price
  {
    ClearingPriceIsWinningPrice(bids);
    TopPriceIsMax(bids);
    var r := WinRequest(Cleared(bids).winner.dspId, Cleared(bids).secondPrice);
    if forall i :: 0 <= i < |bids| ==> bids[i].price < 0 then
      NoNonNegativeBidLeavesZeroWinner(bids); r
    else
      WinnerIsLastTopBid(bids); r
  }

  /** sendWin: the win reply, or the zero winResponse when the call fails. */
  function SendWin(call: (string, WinRequest) -> Outcome<WinResponse>, url: string, req: WinRequest): (r: WinResponse)
    ensures call(url, req).Failed? ==> r == ZeroWinResponse && r.url == ""
    ensures call(url, req).Succeeded? ==> r == call(url, req).value
  {
    match call(url, req)
    case Succeeded(w) => w
    case Failed => ZeroWinResponse
  }

  /** A round in which no bid was collected still sends a win request, for
      the empty id at price 0, to the empty URL: nothing short-circuits. */
  lemma EmptyAuctionStillNotifies()
    ensures WinNotice([]) == WinRequest("", 0)
    ensures WinUrl(Registry(), WinNotice([]).dspId) == ""
  {
  }

  // ---------------------------------------------------------------------
  // The SSP object
  // ---------------------------------------------------------------------

  class Ssp {
    var hosts: map<string, DspInfo>
    var auction: seq<BitResponse>

    /** `&SSP{}`: nothing loaded and no auction yet. */
    constructor ()
      ensures hosts == map[] && auction == []
    {
      hosts := map[];
      auction := [];
    }

    /** loadHosts: replaces the registry with the static one; never fails. */
    method LoadHosts() returns (err: Option<string>)
      modifies this`hosts
      ensures hosts == Registry()
      ensures err == None
    {
      hosts := Registry();
      err := None;
    }

    /** runBit: one bid call per registered bidder, the successful replies
        appended in the order the calls settle, and the new auction stored.
        A failed bidder never fails the round. */
    method RunBit(appId: string, call: (string, BitRequest) -> Outcome<BitResponse>, arrival: seq<string>)
      returns (err: Option<string>)
      requires IsArrivalOrder(arrival, hosts)
      modifies this`auction
      ensures auction == Collected(hosts, appId, call, arrival)
      ensures |auction| == |SuccessfulBidders(hosts, appId, call)| <= |hosts|
      ensures forall b :: b in auction <==>
                exists id :: id in hosts && BidOutcome(hosts, appId, call, id) == Succeeded(b)
      ensures err == None
    {
      var collected: seq<BitResponse> := [];
      var i := 0;
      while i < |arrival|
        invariant 0 <= i <= |arrival|
        invariant collected == Collected(hosts, appId, call, arrival[..i])
      {
        var id := arrival[i];
        assert id in multiset(hosts.Keys) by {
          assert id in multiset(arrival);
        }
        var outcome := call(hosts[id].bitUrl, BitRequest(appId, id));
        assert outcome == BidOutcome(hosts, appId, call, id);
        if outcome.Succeeded? {
          collected := collected + [outcome.value];
        }
        assert arrival[..i + 1][..i] == arrival[..i];
        i := i + 1;
      }
      assert arrival[..i] == arrival;
      CollectedFromRegistry(hosts, appId, call, arrival);
      auction := collected;
      err := None;
    }

    /** The clearing loop of run over the stored auction. */
    method ClearAuction() returns (firstPrice: int, secondPrice: int, winner: BitResponse)
      ensures Clearing(firstPrice, secondPrice, winner) == Cleared(auction)
      ensures secondPrice == firstPrice
      ensures firstPrice == MaxPrice(auction)
    {
      firstPrice, secondPrice, winner := 0, 0, ZeroBid;
      var i := 0;
      while i < |auction|
        invariant 0 <= i <= |auction|
        invariant Clearing(firstPrice, secondPrice, winner) == Cleared(auction[..i])
        invariant secondPrice == firstPrice
        invariant firstPrice == MaxPrice(auction[..i])
      {
        var bid := auction[i];
        if firstPrice <= bid.price {
          winner := bid;
          firstPrice := bid.price;
        }
        if secondPrice <= bid.price && !(firstPrice == secondPrice) {
          secondPrice := bid.price;
        }
        assert auction[..i + 1][..i] == auction[..i];
        i := i + 1;
      }
      assert auction[..i] == auction;
    }

    /** run: load the registry, collect the bids, clear them, send the win
        notice to the winner's win URL and answer with the URL it returns.
        The error is always nil. */
    method Run(adReq: AdRequest, bidCall: (string, BitRequest) -> Outcome<BitResponse>, arrival: seq<string>,
               winCall: (string, WinRequest) -> Outcome<WinResponse>)
      returns (res: AdResponse, err: Option<string>)
      requires IsArrivalOrder(arrival, Registry())
      modifies this
      ensures hosts == Registry()
      ensures auction == Collected(hosts, adReq.appId, bidCall, arrival)
      ensures res == AdResponse(SendWin(winCall, WinUrl(hosts, WinNotice(auction).dspId), WinNotice(auction)).url)
      ensures err == None
    {
      var _ := LoadHosts();
      var _ := RunBit(adReq.appId, bidCall, arrival);
      var firstPrice, secondPrice, winner := ClearAuction();
      var winReq := WinRequest(winner.dspId, secondPrice);
      var winRes := SendWin(winCall, WinUrl(hosts, winner.dspId), winReq);
      res := AdResponse(winRes.url);
      err := None;
    }
  }
}
