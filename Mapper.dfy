/** CreateSubscriptionMapper: copies a request's fields into a new, unsaved subscription. */
module Mapper {
  import opened Wrappers
  import opened Text
  import opened Entity
  import opened Dto

  /** CreateSubscriptionMapper.map. The provider goes through the strict lookup, so a missing
      or unknown provider name fails with NoSuchElement. */
  function Map(dto: CreateSubscriptionDto): (r: Result<Subscription, LookupError>)
    requires dto.userId.Some? && dto.name.Some? && dto.expirationDate.Some?
    ensures r.Success? <==> dto.provider.Some? && FindByNameOpt(dto.provider.value).Some?
    ensures r.Failure? ==> r.error == NoSuchElement
    ensures r.Success? ==>
      && r.value.id == None
      && r.value.userId == dto.userId.value
      && r.value.name == dto.name.value
      && Some(r.value.provider) == FindByNameOpt(dto.provider.value)
      && Name(r.value.provider) == UpperCase(dto.provider.value)
      && r.value.expirationDate == dto.expirationDate.value
      && r.value.status == ACTIVE
  {
    match dto.provider
    case None => Failure(NoSuchElement)
    case Some(providerName) =>
      match FindByName(providerName)
      case Failure(e) => Failure(e)
      case Success(provider) =>
        ResolvedNameIsUpperCase(providerName);
        Success(Subscription(None, dto.userId.value, dto.name.value, provider,
                             dto.expirationDate.value, ACTIVE))
  }

  /** The mapper test's request: every field is copied and the provider is GOOGLE. */
  lemma MapExample(date: Instant)
    ensures Map(CreateSubscriptionDto(Some(12), Some("name"), Some("GOOGLE"), Some(date)))
         == Success(Subscription(None, 12, "name", GOOGLE, date, ACTIVE))
  {
    LookupExamples();
  }
}
