/** The data that flows from one day's exchange-rate response to the printed
    output. Rate values (sale and purchase) are JSON scalars that the program
    copies through without looking at them, so their type is the parameter V. */
module Rates {
  /** A date key, `DD.MM.YYYY`, used as the query parameter and as the output key. */
  type Date = string

  /** A currency code such as "USD". */
  type Code = string

  /** One element of the `exchangeRate` array: the currency code, the sale and
      purchase rates, and every other field the bank sends (ignored downstream). */
  datatype RawRate<V> = RawRate(currency: Code, saleRate: V, purchaseRate: V, extra: map<string, V>)

  /** The value of a top-level field of a decoded response document: either a
      list of rate records or any other JSON value (a number, a string, an
      object, null, ...), whose content the model does not inspect. */
  datatype Field<V> = RateList(entries: seq<RawRate<V>>) | Scalar(value: V)

  /** A decoded response document: its top-level fields by name. */
  type Document<V> = map<string, Field<V>>

  /** What one currency becomes in the output: `{"sale": ..., "purchase": ...}`. */
  datatype Quote<V> = Quote(sale: V, purchase: V)

  /** One collected day, the single-key dictionary `{date: parsed_data}`. */
  datatype Record<V> = Record(date: Date, rates: Field<V>)

  /** One formatted day, `{date: {currency: {sale, purchase}}}`. */
  type FormattedDay<V> = map<Date, map<Code, Quote<V>>>

  /** The part of a rate record that survives formatting. */
  function QuoteOf<V>(rate: RawRate<V>): (q: Quote<V>)
    ensures q.sale == rate.saleRate && q.purchase == rate.purchaseRate
  {
    Quote(rate.saleRate, rate.purchaseRate)
  }

  /** The set of currency codes that occur in a rate list. */
  ghost function Codes<V>(rates: seq<RawRate<V>>): set<Code>
  {
    set i | 0 <= i < |rates| :: rates[i].currency
  }

  /** Index i holds the last occurrence of its currency code in the list. */
  ghost predicate IsLastOccurrence<V>(rates: seq<RawRate<V>>, i: int)
  {
    0 <= i < |rates| &&
    forall j :: i < j < |rates| ==> rates[j].currency != rates[i].currency
  }
}
