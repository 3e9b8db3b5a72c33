/** The demand-side platform of dsp/main.go: the bid and win responders and
    the random creative name. Every random draw is a parameter: the price
    drawn by rand.Intn(100) and the letter indices drawn by
    rand.Intn(len(rs1Letters)). */
module Dsp {

  datatype BitRequest = BitRequest(appId: string, dspId: string)
  datatype BitResponse = BitResponse(dspId: string, price: int)
  datatype WinRequest = WinRequest(dspId: string, price: int)
  datatype WinResponse = WinResponse(url: string)

  /** A reply or the error returned beside it. */
  datatype Result<T> = Ok(value: T) | Err(message: string)

  /** rs1Letters. */
  const Letters: string := "abcdefghijklmnopqrstuvwxyzABCDEFGHIJKLMNOPQRSTUVWXYZ"

  predicate IsAsciiLetter(c: char)
  {
    'a' <= c <= 'z' || 'A' <= c <= 'Z'
  }

  /** Every position of `s` holds a character in [lo, hi] when every
      character of `s` does. */
  lemma AllInRange(s: string, lo: char, hi: char)
    requires forall c :: c in s ==> lo <= c <= hi
    ensures forall k :: 0 <= k < |s| ==> lo <= s[k] <= hi
  {
    forall k | 0 <= k < |s| ensures lo <= s[k] <= hi {
      assert s[k] in s;
    }
  }

  lemma LowerHalf()
    ensures |Letters| == 52
    ensures forall k :: 0 <= k < 26 ==> 'a' <= Letters[k] <= 'z'
  {
    assert Letters[..26] == "abcdefghijklmnopqrstuvwxyz";
    AllInRange(Letters[..26], 'a', 'z');
  }

  lemma UpperLiteral()
    ensures Letters[26..] == "ABCDEFGHIJKLMNOPQRSTUVWXYZ"
  {
  }

  lemma UpperHalf()
    ensures |Letters| == 52
    ensures forall k :: 26 <= k < 52 ==> 'A' <= Letters[k] <= 'Z'
  {
    UpperLiteral();
    AllInRange(Letters[26..], 'A', 'Z');
    forall k | 26 <= k < 52 ensures 'A' <= Letters[k] <= 'Z' {
      assert Letters[k] == Letters[26..][k - 26];
    }
  }

  /** The alphabet holds 52 ASCII letters. */
  lemma LettersAreAsciiLetters()
    ensures |Letters| == 52
    ensures forall k :: 0 <= k < |Letters| ==> IsAsciiLetter(Letters[k])
  {
    LowerHalf();
    UpperHalf();
  }

  /** bit: echoes the requested bidder id with the drawn price, never an
      error. */
  function Bit(req: BitRequest, drawn: int): (r: Result<BitResponse>)
    requires 0 <= drawn < 100
    ensures r.Ok?
    ensures r.value.dspId == req.dspId
    ensures r.value.price == drawn && 0 <= r.value.price < 100
  {
    Ok(BitResponse(req.dspId, drawn))
  }

  /** The string randString builds from the letter indices it draws. */
  function RandLetters(draws: seq<nat>): (s: string)
    requires forall i :: 0 <= i < |draws| ==> draws[i] < |Letters|
    ensures |s| == |draws|
    ensures forall i :: 0 <= i < |s| ==> s[i] == Letters[draws[i]] && IsAsciiLetter(s[i])
  {
    LettersAreAsciiLetters();
    if draws == [] then ""
    else RandLetters(draws[..|draws| - 1]) + [Letters[draws[|draws| - 1]]]
  }

  /** randString(n): fills a fresh buffer of n runes, one drawn letter each. */
  method RandString(n: nat, draws: seq<nat>) returns (s: string)
    requires |draws| == n
    requires forall i :: 0 <= i < n ==> draws[i] < |Letters|
    ensures s == RandLetters(draws)
    ensures |s| == n
    ensures forall i :: 0 <= i < n ==> s[i] == Letters[draws[i]] && IsAsciiLetter(s[i])
  {
    var b := new char[n];
    for i := 0 to n
      invariant forall k :: 0 <= k < i ==> b[k] == Letters[draws[k]]
    {
      b[i] := Letters[draws[i]];
    }
    s := b[..];
    assert forall k :: 0 <= k < n ==> s[k] == RandLetters(draws)[k];
  }

  /** win: a creative URL "http://" + randString(10) + ".com", whatever the
      request says, never an error. */
  function Win(req: WinRequest, draws: seq<nat>): (r: Result<WinResponse>)
    requires |draws| == 10
    requires forall i :: 0 <= i < 10 ==> draws[i] < |Letters|
    ensures r.Ok?
    ensures |r.value.url| == 21
    ensures r.value.url[..7] == "http://"
    ensures r.value.url[17..] == ".com"
    ensures r.value.url[7..17] == RandLetters(draws)
    ensures forall i :: 7 <= i < 17 ==> IsAsciiLetter(r.value.url[i])
  {
    Ok(WinResponse("http://" + RandLetters(draws) + ".com"))
  }

  /** The URL depends on the draws only. */
  lemma WinIgnoresRequest(a: WinRequest, b: WinRequest, draws: seq<nat>)
    requires |draws| == 10
    requires forall i :: 0 <= i < 10 ==> draws[i] < |Letters|
    ensures Win(a, draws) == Win(b, draws)
  {
  }
}
