/** What the two entry screens share: their error kinds and the amount test. */
module FormCommon {
  import opened Wrappers

  /** Why a form was rejected; each kind raises its own alert. */
  datatype FormError = MissingFields | InvalidAmount | InvalidDate

  /** `!(isNaN(x) || x <= 0)`, with the parse result `None` standing for NaN. */
  predicate AmountAccepted(parsed: Option<real>) {
    parsed.Some? && parsed.value > 0.0
  }
}
