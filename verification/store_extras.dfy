/** The store-wide settings the course and cart screens fetch from the server. */
module StoreExtras {

  /** Discounts in whole percent, delivery charges in whole rupees. */
  datatype Extras = Extras(allCoursesDiscount: int, allProductsDiscount: int, deliveryCharges: int)

  /** The settings a screen starts with. */
  const Defaults: Extras := Extras(0, 0, 0)

  /** The reply to the settings request: an exception, a reply with an `error`, or the
      settings. */
  datatype ExtrasReply = ExtrasFailed | ExtrasError(error: string) | ExtrasAnswered(extras: Extras)

  /** `getExtras`: only a reply without an error replaces the settings held so far. */
  function AfterExtrasReply(reply: ExtrasReply, before: Extras): (after: Extras)
    ensures reply.ExtrasAnswered? ==> after == reply.extras
    ensures !reply.ExtrasAnswered? ==> after == before
  {
    if reply.ExtrasAnswered? then reply.extras else before
  }
}
