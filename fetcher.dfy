/** CurrencyFetcher: collects one `{date: rates}` record per requested day,
    counting back from today. The clock and the HTTP request are parameters:
    `dateOf(i)` is the date the program formats on iteration i. It is an
    arbitrary function: the clock is read afresh on every iteration, so the
    dates need not be distinct or consecutive. `fetch(date)` stands for the one
    request made for that date: its decoded response, or the error it raised. */
module Fetcher {
  import opened Wrappers
  import opened Rates
  import opened CurrencyParser

  /** The number of iterations of `range(days)`. */
  function DayCount(days: int): (n: nat)
    ensures days <= 0 ==> n == 0
    ensures days > 0 ==> n == days
  {
    if days < 0 then 0 else days
  }

  class CurrencyFetcher {
    const days: int

    constructor (days: int)
      ensures this.days == days
    {
      this.days := days;
    }

    /** fetch_currency_data. Requests are made for i = 0, 1, ... in order; the
        first request that fails ends the whole collection with its error. */
    method FetchCurrencyData<V, E>(dateOf: nat -> Date, fetch: Date -> Result<Document<V>, E>)
      returns (r: Result<seq<Record<V>>, E>)
      ensures r.Success? <==> forall i :: 0 <= i < days ==> fetch(dateOf(i)).Success?
      ensures r.Success? ==> |r.value| == DayCount(days)
      ensures r.Success? ==> forall i :: 0 <= i < |r.value| ==>
                r.value[i] == Record(dateOf(i), ParseExchangeRates(fetch(dateOf(i)).value))
      ensures r.Failure? ==>
        exists i :: 0 <= i < days && fetch(dateOf(i)) == Failure(r.error) &&
                    forall j :: 0 <= j < i ==> fetch(dateOf(j)).Success?
    {
      var currencyData: seq<Record<V>> := [];
      var i := 0;
      while i < days
        invariant 0 <= i <= DayCount(days)
        invariant |currencyData| == i
        invariant forall j :: 0 <= j < i ==> fetch(dateOf(j)).Success?
        invariant forall j :: 0 <= j < i ==>
                    currencyData[j] == Record(dateOf(j), ParseExchangeRates(fetch(dateOf(j)).value))
      {
        var date := dateOf(i);
        var data := fetch(date);
        if data.Failure? {
          return Failure(data.error);
        }
        var parsedData := ParseExchangeRates(data.value);
        currencyData := currencyData + [Record(date, parsedData)];
        i := i + 1;
      }
      r := Success(currencyData);
    }
  }
}
