/** The body of `main` between argument parsing and printing: collect the
    requested days, then format them. */
module Pipeline {
  import opened Wrappers
  import opened Rates
  import opened CurrencyParser
  import opened Format
  import opened Fetcher

  /** The formatted output for `days` days: one single-key record per day,
      in increasing i starting at i = 0, each holding the reshaped rates
      fetched for that date; or the error of the first request that failed. */
  method Run<V, E>(days: int, dateOf: nat -> Date, fetch: Date -> Result<Document<V>, E>)
    returns (r: Result<seq<FormattedDay<V>>, E>)
    requires (forall i :: 0 <= i < days ==> fetch(dateOf(i)).Success?) ==>
               forall i :: 0 <= i < days ==> RatesWellFormed(fetch(dateOf(i)).value)
    ensures r.Success? <==> forall i :: 0 <= i < days ==> fetch(dateOf(i)).Success?
    ensures r.Success? ==> |r.value| == DayCount(days)
    ensures r.Success? ==> forall i :: 0 <= i < |r.value| ==>
              ParseExchangeRates(fetch(dateOf(i)).value).RateList? &&
              r.value[i] == map[dateOf(i) := Reshape(ParseExchangeRates(fetch(dateOf(i)).value).entries)]
    ensures r.Failure? ==>
      exists i :: 0 <= i < days && fetch(dateOf(i)) == Failure(r.error) &&
                  forall j :: 0 <= j < i ==> fetch(dateOf(j)).Success?
  {
    var currencyFetcher := new CurrencyFetcher(days);
    var currencyData := currencyFetcher.FetchCurrencyData(dateOf, fetch);
    if currencyData.Failure? {
      return Failure(currencyData.error);
    }
    var data := currencyData.value;
    forall k | 0 <= k < |data|
      ensures data[k].rates.RateList?
    {
      ParseWellFormed(fetch(dateOf(k)).value);
    }
    var formattedData := FormatOutput(data);
    r := Success(formattedData);
  }
}
