/** Document identifiers. */
module Mongo {
  import JsString

  /** A document `_id`. Identifiers are compared as values, or as strings after `toString()`. */
  type ObjectId = nat

  /** `id.toString()`. */
  function IdText(id: ObjectId): string {
    JsString.Decimal(id)
  }

  /** Comparing two identifiers by their strings is comparing the identifiers. */
  lemma IdTextInjective(a: ObjectId, b: ObjectId)
    ensures IdText(a) == IdText(b) <==> a == b
  {
    JsString.DecimalInjective(a, b);
  }
}
