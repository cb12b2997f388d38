/** The inbound create-or-renew request; every field may be absent (null). */
module Dto {
  import opened Wrappers
  import opened Entity

  datatype CreateSubscriptionDto = CreateSubscriptionDto(
    userId: Option<int>,
    name: Option<string>,
    provider: Option<string>,
    expirationDate: Option<Instant>)
}
