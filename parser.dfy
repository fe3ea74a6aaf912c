/** CurrencyParser.parse_exchange_rates: the `exchangeRate` field of a decoded
    response, or an empty list when the field is missing. */
module CurrencyParser {
  import opened Rates

  const ExchangeRateKey: string := "exchangeRate"

  /** The lenient lookup: never fails, defaults to the empty rate list. */
  function ParseExchangeRates<V>(doc: Document<V>): (r: Field<V>)
    ensures ExchangeRateKey in doc ==> r == doc[ExchangeRateKey]
    ensures ExchangeRateKey !in doc ==> r == RateList([])
  {
    if ExchangeRateKey in doc then doc[ExchangeRateKey] else RateList([])
  }

  /** A document the formatter can consume: if it has an `exchangeRate`
      field, that field is a list of rate records. */
  predicate RatesWellFormed<V>(doc: Document<V>)
  {
    ExchangeRateKey in doc ==> doc[ExchangeRateKey].RateList?
  }

  /** Parsing a well-formed document always yields a rate list, and the
      converse: a document whose parse yields a rate list is well formed. */
  lemma ParseWellFormed<V>(doc: Document<V>)
    ensures RatesWellFormed(doc) <==> ParseExchangeRates(doc).RateList?
  {
  }

  /** Only the `exchangeRate` field matters: adding or replacing any other
      top-level field leaves the parse unchanged. */
  lemma ParseIgnoresOtherFields<V>(doc: Document<V>, key: string, value: Field<V>)
    requires key != ExchangeRateKey
    ensures ParseExchangeRates(doc[key := value]) == ParseExchangeRates(doc)
  {
  }
}
