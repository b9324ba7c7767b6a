/**
 * The listing endpoint's defensive normalisation of offset and limit, and
 * what it hands on to the service and echoes back as page metadata.
 */
module DealController {
  import opened DealMapper
  import opened DealService

  const DefaultLimit: int := 100
  const MaxLimit: int := 1000

  datatype Pagination = Pagination(offset: int, limit: int)

  /** A limit outside 1..1000 becomes 100; a negative offset becomes 0; nothing is rejected. */
  function ClampPagination(offset: int, limit: int): (p: Pagination)
    ensures p.offset >= 0 && 1 <= p.limit <= MaxLimit
    ensures 1 <= limit <= MaxLimit ==> p.limit == limit
    ensures limit <= 0 || limit > MaxLimit ==> p.limit == DefaultLimit
    ensures offset >= 0 ==> p.offset == offset
    ensures offset < 0 ==> p.offset == 0
  {
    var l := if limit <= 0 || limit > MaxLimit then DefaultLimit else limit;
    var o := if offset < 0 then 0 else offset;
    Pagination(o, l)
  }

  /** Clamping an already clamped pair changes nothing. */
  lemma ClampIdempotent(offset: int, limit: int)
    ensures var p := ClampPagination(offset, limit); ClampPagination(p.offset, p.limit) == p
  {
  }

  /** The page body and the X-Total-Count, X-Offset and X-Limit values. */
  datatype DealPage = DealPage(deals: seq<FxDealResponse>, totalCount: nat, offset: int, limit: int)

  /** getAllDeals, without the HTTP response: clamp, then getDeals and getTotalCount with the clamped values. */
  function GetAllDeals(service: FxDealService, offset: int, limit: int): (page: DealPage)
    reads service.repository
    ensures Pagination(page.offset, page.limit) == ClampPagination(offset, limit)
    ensures page.deals == service.GetDeals(page.offset, page.limit)
    ensures page.totalCount == service.GetTotalCount()
    ensures |page.deals| <= page.limit <= MaxLimit
  {
    var p := ClampPagination(offset, limit);
    DealPage(service.GetDeals(p.offset, p.limit), service.GetTotalCount(), p.offset, p.limit)
  }

  /** Out-of-range parameters (-5, 5000) list exactly what (0, 100) lists. */
  lemma OutOfRangeIsDefault(service: FxDealService)
    ensures GetAllDeals(service, -5, 5000) == GetAllDeals(service, 0, 100)
  {
  }
}
