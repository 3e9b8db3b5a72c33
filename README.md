# go-ssp: a model of the SSP auction round and the DSP responders

go-ssp is a toy real-time-bidding exchange. The SSP (supply-side platform,
`ssp/main.go`) receives an ad request and loads a static registry of three
DSPs (demand-side platforms). It asks each DSP for a bid, runs an auction
over the bids that came back, sends a win notice to the winner and answers
with the creative URL the winner returns. The DSP (`dsp/main.go`) answers a
bid request with a random price and a win notice with a random
`http://<10 letters>.com` URL.

This project models that logic in Dafny and proves what it does.

- `ssp.dfy`, module `Ssp`. The `SSP` struct is the class `Ssp.Ssp`, with the
  fields `hosts` (bidder id to `DspInfo`) and `auction` (the collected
  `BitResponse`s). `LoadHosts` installs the registry. `RunBit` is the
  sequential effect of the bid round: one call per registered bidder, in the
  order the calls settle, keeping the successful replies. `ClearAuction` is
  the clearing loop of `run`, a `while` loop over `auction`. `Run` is the
  whole of `run`. The loop is specified by the function `Cleared`, a fold of
  one loop iteration (`Step`) over the bids.
- `second_price.dfy`, module `SecondPriceRule`. The second-price rule that
  the comment above the loop announces, kept apart from the model of `run`,
  and lemmas comparing it with what the loop does.
- `dsp.dfy`, module `Dsp`. `bit`, `win` and `randString`. `randString` is a
  method that fills a fresh array index by index. `RandLetters` is the
  function that specifies it and that `Win` uses.

The remote calls are parameters. The bid call and the win call are each a
function from (URL, request) to an `Outcome`: a decoded reply, or a failure.
The order in which the concurrent bid calls settle is a parameter too: a
sequence listing every registry key once. The DSP's random draws are also
parameters.

## The clearing loop charges the winning price

The comment above the loop (ssp/main.go:93) says it runs a second-price
auction. The update of `secondPrice` (ssp/main.go:99) fires only while
`firstPrice != secondPrice`. Both start at 0, so they are equal after every
iteration. The loop invariant `secondPrice == firstPrice` of
`Ssp.Ssp.ClearAuction` and the lemma `Ssp.ClearingPriceIsWinningPrice`
prove this. So the winner is always sent its own price, which is the larger
of 0 and every bid.

`SecondPriceRule.CodeChargesAboveSecondPrice` shows how far this is from the
second-price rule. Whenever a bid of at least 0 lies below the top price,
the code charges strictly more than the next price level. For the bids
A:100, B:80, C:80, A is sent 100, not 80.

We model the code as written. The intended rule exists only as the
separately named `SecondPriceRule.IntendedClearingPrice`.

Other behaviour follows the code, not the comment at ssp/main.go:93 or the
Todo at ssp/main.go:87 about a missing auction:

- Ties go to the LAST bid at the top price, because the comparison is `<=`.
- An empty auction notifies nobody in particular. The win request
  `{"" , 0}` still goes out, to the empty URL, because `""` is not a registry
  key. If that call fails, `run` answers with the empty URL and a nil error.
- A failed win notification is not reported. `sendWin` hands back the zero
  `winResponse`.

## Model

| member | source | states |
|---|---|---|
| Ssp.Registry | ssp/main.go:126-136 | the registry has exactly the keys "1", "2", "3", each with bid URL "http://localhost:8080/" and win URL "http://localhost:8080/win" |
| Ssp.Ssp.constructor | ssp/main.go:54 | a fresh SSP holds no hosts and no auction |
| Ssp.Ssp.LoadHosts | ssp/main.go:126-138 | `hosts` becomes the static registry; `auction` is untouched; the error is nil |
| Ssp.Lookup | ssp/main.go:111-112 | a Go map index: the registered entry, or the zero `dspInfo` for a missing key |
| Ssp.WinUrl | ssp/main.go:111-112 | the winner's `winURL` read through that map index, `""` for an unregistered id |
| Ssp.RegistryWinUrl | ssp/main.go:111-112 | looking a winner up in the registry gives "http://localhost:8080/win" for "1", "2", "3" and "" (Go's zero value) for any other id |
| Ssp.IsArrivalOrder | ssp/main.go:150 | the order in which the bid calls settle lists every registry key exactly once; it stands for the map iteration order and the arrival order on the channel |
| Ssp.BidOutcome | ssp/main.go:152-157 | the outcome of the bid call for one bidder: the request `{AppID, DSPID}` sent to that bidder's `bitURL` |
| Ssp.Collected | ssp/main.go:150-177 | the collected bids number at most the bidders called; each is the reply of some successful call; every successful reply is among them |
| Ssp.CollectedCount | ssp/main.go:156-177 | when no bidder is listed twice, the number of collected bids equals the number of listed bidders whose call succeeded: one bid per success, none per failure |
| Ssp.CollectedFromRegistry | ssp/main.go:144-178 | over a full round the auction holds exactly as many bids as there are registered bidders whose call succeeded, so at most `len(hosts)`; a bid is in it exactly when some registered bidder's call returned it; failed calls contribute nothing |
| Ssp.EchoedBidsAreRegistered | ssp/main.go:150-161 | when the bidders echo the requested id (as `bit` does), every collected bid carries a registry key |
| Ssp.Ssp.RunBit | ssp/main.go:141-181 | `auction` becomes the successful replies in settling order; `hosts` is unchanged; its length is the number of registered bidders whose call succeeded, so at most one bid per host; the error is always nil |
| Ssp.Step | ssp/main.go:95-101 | one iteration of the loop body: `firstPrice` becomes the larger of itself and the bid's price, and equal prices stay equal |
| Ssp.Cleared | ssp/main.go:89-102 | the loop variables after the loop over the given bids, starting from their zero values; specified by the lemmas below |
| Ssp.MaxPrice | ssp/main.go:89-98 | reference for the top price: at least 0, at least every bid's price, and 0 or some bid's price |
| Ssp.Ssp.ClearAuction | ssp/main.go:89-102 | the loop leaves `secondPrice == firstPrice == MaxPrice(auction)` and the variables `Cleared` specifies; `secondPrice == firstPrice` is a loop invariant |
| Ssp.ClearingPriceIsWinningPrice | ssp/main.go:94-102 | after the loop over any bids, `secondPrice` equals `firstPrice` |
| Ssp.TopPriceIsMax | ssp/main.go:89-98 | after the loop, `firstPrice` is the larger of 0 and every price |
| Ssp.NoNonNegativeBidLeavesZeroWinner | ssp/main.go:87-102 | with no bids, or only negative prices, the loop leaves winner `{"" , 0}` and both prices 0 |
| Ssp.WinnerIsLastTopBid | ssp/main.go:94-98 | once some price is at least 0, the winner is a bid of the auction at `firstPrice`, and every later bid is priced strictly below it: ties go to the last bid |
| Ssp.WinNotice | ssp/main.go:104-107 | the win request carries the top price; with no price of at least 0 it is `{"" , 0}`; otherwise its id is that of a bid offering exactly that price |
| Ssp.SendWin | ssp/main.go:194-202 | a failed win call yields the zero `winResponse` (URL ""); a successful one yields the reply |
| Ssp.EmptyAuctionStillNotifies | ssp/main.go:87-112 | an empty auction still sends the request `{"" , 0}`, to the URL "" |
| Ssp.Ssp.Run | ssp/main.go:78-123 | `hosts` is the registry; `auction` is the collected bids; the answer's URL is that of the win reply to the notice at the winner's registry win URL, "" on failure; the error is always nil |
| SecondPriceRule.IntendedPriceNotAboveTop | ssp/main.go:93 | the announced second price never exceeds the top price |
| SecondPriceRule.IntendedPriceIsNextLevel | ssp/main.go:93 | with a bid of at least 0 below the top, the announced price is an offered price below the top and at least every price below the top |
| SecondPriceRule.CodeChargesAboveSecondPrice | ssp/main.go:93-102 | whenever a bid of at least 0 lies below the top, the price the loop sends is strictly above the announced second price |
| SecondPriceRule.SingleLevelAgrees | ssp/main.go:93-102 | when every bid offers the top price, the loop and the announced rule agree |
| SecondPriceRule.ThreeBidExample | ssp/main.go:94-102 | bids A:100, B:80, C:80: A wins and is sent 100, where the announced rule charges 80 |
| SecondPriceRule.TieExample | ssp/main.go:95-97 | bids A:50, B:50: the later bid B wins at 50 |
| Dsp.LettersAreAsciiLetters | dsp/main.go:34 | `rs1Letters` has 52 characters, each an ASCII letter |
| Dsp.Bit | dsp/main.go:83-88 | the reply echoes the request's `DSPID`, its price is the drawn value and lies in [0,100), and there is no error |
| Dsp.RandLetters | dsp/main.go:98-103 | one letter of the alphabet per draw, so n draws give n characters, each an ASCII letter |
| Dsp.RandString | dsp/main.go:98-103 | the result has exactly n characters, each one of `rs1Letters` and an ASCII letter, as `RandLetters` specifies |
| Dsp.Win | dsp/main.go:90-96 | no error; the URL has length 21, starts with "http://", ends with ".com", and has between them the 10 letters `RandLetters` gives for the draws, each an ASCII letter |
| Dsp.WinIgnoresRequest | dsp/main.go:90-96 | the reply depends on the draws only, not on the win request |

## Left out

- HTTP servers and handlers (`main`, `AdHandler`, `BitHandler`, `WinHandler`) and their empty error branches: request I/O with no logic.
- `sendReq` and `sendBit`, and the network part of `sendWin`: JSON encoding and `http.Client` calls. Each call is a parameter that returns a reply or a failure. A reply that decodes only in part is not modelled.
- The goroutines, the `errgroup`, the channels and the timeouts of `runBit` and `sendWin` (2 s per round, 1 s per call, 2 s for the win call). The nondeterministic order of map iteration and of arrival is the `arrival` parameter. The errgroup cancels the other calls after the first error, so their outcomes are not independent. The model accepts any combination of outcomes, which includes the ones that cancellation produces.
- Logging and printing (`fmt`, `log`).
- `time.Sleep`, `rand.Seed` and `rand.Intn` in the DSP. The draws are parameters within the ranges `rand.Intn` guarantees.
- The nil pointers of a fresh `SSP` (dereferencing them before `loadHosts` would panic). `run` always loads the registry first, and the constructor starts with an empty map and sequence.
- `Dsp.RandString`: its size is a `nat`. Go's `make` would panic on a negative n, and no caller passes one.
- The client in main.go: a one-shot POST of `{"app_id":"555"}` that prints the reply. It is pure I/O.
- Rules the code does not implement are not the model of `run`. The comment at ssp/main.go:93 announces a second-price auction, and the Todo at ssp/main.go:87 marks the missing-auction case as unhandled; the code implements neither. The second-price rule appears only in `SecondPriceRule`, for comparison. Reporting a failed win notice has no anchor in the code beyond the empty error branch at ssp/main.go:199-200, so it is not modelled.
- Concurrent rounds on one `SSP`. ssp/main.go:54-55 registers a single `s` with the HTTP server, which runs `AdHandler` concurrently for each connection. Each `run` writes the shared fields `hosts` and `auction` (ssp/main.go:132, 178) and reads them back later (ssp/main.go:94, 111). Under concurrent requests this is a data race: one round's clearing loop can range over another round's `auction`. The model runs one round at a time, and `Ssp.Ssp.Run`'s contract holds only when rounds do not overlap.
- Go strings are UTF-8 bytes. Dafny strings are sequences of characters. Every string built here is ASCII, so the lengths agree.
