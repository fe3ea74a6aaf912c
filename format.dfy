/** format_output: reshapes the collected `{date: rates}` records into
    `{date: {currency: {sale, purchase}}}` records, one per input record,
    in input order. */
module Format {
  import opened Rates

  /** The inner dictionary of one day, as the inner loop builds it: rates are
      written in list order, one slot per currency code, so a later record
      with the same code overwrites the earlier slot. */
  function Reshape<V>(rates: seq<RawRate<V>>): (m: map<Code, Quote<V>>)
    ensures m.Keys == Codes(rates)
    decreases |rates|
  {
    if rates == [] then map[]
    else
      var prefix, last := rates[..|rates| - 1], rates[|rates| - 1];
      assert Codes(rates) == Codes(prefix) + {last.currency} by {
        assert forall i :: 0 <= i < |prefix| ==> prefix[i] == rates[i];
      }
      Reshape(prefix)[last.currency := QuoteOf(last)]
  }

  /** The formatted form of one collected day: a single key, the day's date. */
  function FormatDay<V>(rec: Record<V>): (day: FormattedDay<V>)
    requires rec.rates.RateList?
    ensures day.Keys == {rec.date} && |day| == 1
    ensures day[rec.date].Keys == Codes(rec.rates.entries)
  {
    map[rec.date := Reshape(rec.rates.entries)]
  }

  /** The last occurrence of a code decides its quote. */
  lemma {:induction false} ReshapeLastWins<V>(rates: seq<RawRate<V>>, i: int)
    requires IsLastOccurrence(rates, i)
    ensures rates[i].currency in Reshape(rates)
    ensures Reshape(rates)[rates[i].currency] == QuoteOf(rates[i])
  {
    var n := |rates|;
    if i < n - 1 {
      var prefix := rates[..n - 1];
      assert IsLastOccurrence(prefix, i) by {
        assert forall j :: i < j < |prefix| ==> prefix[j] == rates[j];
      }
      ReshapeLastWins(prefix, i);
    }
  }

  /** Every code in the reshaped map comes from its last occurrence in the
      list: the converse of ReshapeLastWins. */
  lemma {:induction false} ReshapeFromLast<V>(rates: seq<RawRate<V>>, c: Code)
    requires c in Reshape(rates)
    ensures exists i :: IsLastOccurrence(rates, i) && rates[i].currency == c &&
                        Reshape(rates)[c] == QuoteOf(rates[i])
  {
    var n := |rates|;
    var prefix, last := rates[..n - 1], rates[n - 1];
    if last.currency == c {
      assert IsLastOccurrence(rates, n - 1);
    } else {
      ReshapeFromLast(prefix, c);
      var i :| IsLastOccurrence(prefix, i) && prefix[i].currency == c &&
               Reshape(prefix)[c] == QuoteOf(prefix[i]);
      assert IsLastOccurrence(rates, i) && rates[i] == prefix[i];
    }
  }

  /** Two rate lists that agree on every code, sale and purchase reshape to
      the same map: no other rate field reaches the output. */
  lemma {:induction false} ReshapeIgnoresExtra<V>(a: seq<RawRate<V>>, b: seq<RawRate<V>>)
    requires |a| == |b|
    requires forall k :: 0 <= k < |a| ==> a[k].currency == b[k].currency && QuoteOf(a[k]) == QuoteOf(b[k])
    ensures Reshape(a) == Reshape(b)
  {
    if a != [] {
      var n := |a|;
      ReshapeIgnoresExtra(a[..n - 1], b[..n - 1]);
    }
  }

  /** A day with an empty rate list becomes `{date: {}}`. */
  lemma FormatDayEmpty<V>(date: Date)
    ensures FormatDay(Record(date, Field<V>.RateList([]))) == map[date := map[]]
  {
  }

  /** format_output. The outer loop appends one formatted record per input
      record; the inner loop writes `entry[date][currency]` per rate. */
  method FormatOutput<V>(currencyData: seq<Record<V>>) returns (formatted: seq<FormattedDay<V>>)
    requires forall k :: 0 <= k < |currencyData| ==> currencyData[k].rates.RateList?
    ensures |formatted| == |currencyData|
    ensures forall k :: 0 <= k < |currencyData| ==> formatted[k] == FormatDay(currencyData[k])
  {
    formatted := [];
    for k := 0 to |currencyData|
      invariant |formatted| == k
      invariant forall m :: 0 <= m < k ==> formatted[m] == FormatDay(currencyData[m])
    {
      var date, rates := currencyData[k].date, currencyData[k].rates.entries;
      var entry: FormattedDay<V> := map[date := map[]];
      for j := 0 to |rates|
        invariant entry == map[date := Reshape(rates[..j])]
      {
        var currency := rates[j].currency;
        assert rates[..j + 1][..j] == rates[..j];
        entry := entry[date := entry[date][currency := Quote(rates[j].saleRate, rates[j].purchaseRate)]];
      }
      assert rates[..|rates|] == rates;
      formatted := formatted + [entry];
    }
  }
}
