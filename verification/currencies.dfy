/** The companion-object pattern: a `Currency` type and a `Currency` value
    whose `from` builds one. */
module Currencies {

  /** The currency codes. */
  datatype Code = EUR | GBP | JPY | USD

  /** An amount in a currency. */
  datatype Currency = Currency(unit: Code, value: real)

  /** `Currency.from(value, unit)`: the argument order is value first, while
      the record lists the unit first. */
  function From(value: real, unit: Code): (c: Currency)
    ensures c.unit == unit && c.value == value
  {
    Currency(unit, value)
  }

  /** Every currency is built by `from` from its own fields, and from two
      different argument pairs `from` builds different currencies. */
  lemma FromRoundTrip(c: Currency, v: real, u: Code)
    ensures From(c.value, c.unit) == c
    ensures From(v, u) == c ==> v == c.value && u == c.unit
  {
  }
}
