/**
 * Field-copying projections between the request, the entity and the
 * outbound response; a null input maps to a null output.
 */
module DealMapper {
  import opened Wrappers
  import opened BigDecimals
  import opened DealRequest
  import opened DealEntity

  /** The outbound representation: the entity without updatedAt. */
  datatype FxDealResponse = FxDealResponse(
    id: Option<int>,
    dealUniqueId: Option<string>,
    fromCurrencyIso: Option<string>,
    toCurrencyIso: Option<string>,
    dealTimestamp: Option<int>,
    dealAmount: Option<Decimal>,
    createdAt: Option<int>)

  function RequestTerms(r: FxDealRequest): DealTerms
  {
    DealTerms(r.dealUniqueId, r.fromCurrencyIso, r.toCurrencyIso, r.dealTimestamp, r.dealAmount)
  }

  function ResponseTerms(r: FxDealResponse): DealTerms
  {
    DealTerms(r.dealUniqueId, r.fromCurrencyIso, r.toCurrencyIso, r.dealTimestamp, r.dealAmount)
  }

  /** toEntity: a fresh entity carrying the request's five fields, with no id and no audit timestamps. */
  function ToEntity(request: Option<FxDealRequest>): (deal: Option<FxDeal>)
    ensures deal.None? <==> request.None?
    ensures request.Some? ==> Terms(deal.value) == RequestTerms(request.value)
    ensures request.Some? ==> deal.value.id.None? && deal.value.createdAt.None? && deal.value.updatedAt.None?
  {
    match request
    case None => None
    case Some(r) =>
      Some(EmptyDeal.(dealUniqueId := r.dealUniqueId, fromCurrencyIso := r.fromCurrencyIso,
                      toCurrencyIso := r.toCurrencyIso, dealTimestamp := r.dealTimestamp,
                      dealAmount := r.dealAmount))
  }

  /** toResponse: id, the five business fields and createdAt, copied unchanged. */
  function ToResponse(deal: Option<FxDeal>): (response: Option<FxDealResponse>)
    ensures response.None? <==> deal.None?
    ensures deal.Some? ==> ResponseTerms(response.value) == Terms(deal.value)
    ensures deal.Some? ==> response.value.id == deal.value.id && response.value.createdAt == deal.value.createdAt
  {
    match deal
    case None => None
    case Some(d) =>
      Some(FxDealResponse(d.id, d.dealUniqueId, d.fromCurrencyIso, d.toCurrencyIso,
                          d.dealTimestamp, d.dealAmount, d.createdAt))
  }

  /** toEntity builds the same entity as the five-argument constructor would. */
  lemma ToEntityAgreesWithConstructor(r: FxDealRequest)
    ensures ToEntity(Some(r)) == Some(NewDeal(r.dealUniqueId, r.fromCurrencyIso, r.toCurrencyIso,
                                              r.dealTimestamp, r.dealAmount))
  {
  }

  /** Projecting a request to an entity and back to a response keeps all five request fields. */
  lemma RequestSurvivesRoundTrip(r: FxDealRequest)
    ensures ResponseTerms(ToResponse(ToEntity(Some(r))).value) == RequestTerms(r)
  {
  }

  /** The response does not depend on updatedAt. */
  lemma ResponseIgnoresUpdatedAt(d: FxDeal, t: Option<int>)
    ensures ToResponse(Some(d)) == ToResponse(Some(d.(updatedAt := t)))
  {
  }
}
