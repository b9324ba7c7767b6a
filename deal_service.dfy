/**
 * The deal service: the two-stage request validation, the create-deal
 * step sequence over the store, and the read operations that map stored
 * rows to responses.
 */
module DealService {
  import opened Wrappers
  import opened DealRequest
  import opened DealEntity
  import opened DealMapper
  import opened DealRepository

  const SameCurrencyMessage: string := "From Currency and To Currency must be different"

  /** Collectors.joining(", "): the parts in order, separated by ", ". */
  function Join(parts: seq<string>): string
  {
    if |parts| == 0 then ""
    else if |parts| == 1 then parts[0]
    else Join(parts[..|parts| - 1]) + ", " + parts[|parts| - 1]
  }

  /** ConstraintViolation::getMessage over an iteration order. */
  function MessagesOf(order: seq<Violation>): seq<string>
  {
    seq(|order|, i requires 0 <= i < |order| => Message(order[i]))
  }

  /** order lists every member of vs exactly once: one possible iteration order of the set. */
  ghost predicate Enumerates(order: seq<Violation>, vs: set<Violation>)
  {
    && (forall i | 0 <= i < |order| :: order[i] in vs)
    && (forall v | v in vs :: v in order)
    && (forall i, j | 0 <= i < j < |order| :: order[i] != order[j])
  }

  /** msg is the messages of vs joined by ", " in some iteration order of vs. */
  ghost predicate IsJoinOf(msg: string, vs: set<Violation>)
  {
    exists order :: Enumerates(order, vs) && msg == Join(MessagesOf(order))
  }

  /** The rule the service adds after the field constraints: the two currencies differ. */
  predicate RequestValid(r: FxDealRequest, now: int)
  {
    StructurallyValid(r, now) && r.fromCurrencyIso != r.toCurrencyIso
  }

  /**
   * The violation messages joined by ", ". The set's iteration order is
   * unspecified, so each next violation is an arbitrary one not yet taken.
   */
  method JoinViolationMessages(vs: set<Violation>) returns (msg: string)
    ensures IsJoinOf(msg, vs)
  {
    var remaining := vs;
    ghost var order: seq<Violation> := [];
    msg := "";
    var first := true;
    while remaining != {}
      invariant remaining <= vs
      invariant first <==> order == []
      invariant Enumerates(order, vs - remaining)
      invariant msg == Join(MessagesOf(order))
      decreases |remaining|
    {
      var v :| v in remaining;
      msg := if first then Message(v) else msg + ", " + Message(v);
      assert MessagesOf(order + [v]) == MessagesOf(order) + [Message(v)];
      order := order + [v];
      remaining := remaining - {v};
      first := false;
    }
    assert vs - remaining == vs;
  }

  /**
   * validateRequest: None when the request passes; otherwise the message of
   * the ValidationException. The field constraints are all evaluated first;
   * the currency rule is consulted only when none of them is violated.
   */
  method ValidateRequest(request: FxDealRequest, now: int) returns (failure: Option<string>)
    ensures failure.None? <==> RequestValid(request, now)
    ensures StructuralViolations(request, now) != {} ==>
      failure.Some? && IsJoinOf(failure.value, StructuralViolations(request, now))
    ensures StructuralViolations(request, now) == {} && !RequestValid(request, now) ==>
      failure == Some(SameCurrencyMessage)
  {
    NoViolationsIffValid(request, now);
    var violations := StructuralViolations(request, now);
    if violations != {} {
      var msg := JoinViolationMessages(violations);
      return Some(msg);
    }
    if request.fromCurrencyIso == request.toCurrencyIso {
      return Some(SameCurrencyMessage);
    }
    return None;
  }

  /** The typed outcomes of createDeal: the response, or the exception it throws. */
  datatype CreateOutcome =
    | Created(response: FxDealResponse)
    | ValidationFailed(message: string)
    | DuplicateDeal(dealUniqueId: string)

  datatype LookupKey = ById(id: int) | ByUniqueId(dealUniqueId: string)

  /** The outcome of a lookup: the response, or DealNotFoundException for the key used. */
  datatype LookupOutcome = Found(response: FxDealResponse) | NotFound(key: LookupKey)

  class FxDealService {
    const repository: FxDealRepository

    constructor (repository: FxDealRepository)
      ensures this.repository == repository
    {
      this.repository := repository;
    }

    /**
     * createDeal: validate, then probe the key, then map, save and map back.
     * An invalid request never reaches the probe; a present key never reaches
     * save; a store refusal is not caught, and cannot arise after the probe.
     */
    method CreateDeal(request: FxDealRequest, now: int) returns (r: CreateOutcome)
      requires repository.Valid()
      modifies repository
      ensures repository.Valid()
      ensures StructuralViolations(request, now) != {} ==>
        r.ValidationFailed? && IsJoinOf(r.message, StructuralViolations(request, now))
      ensures StructuralViolations(request, now) == {} && request.fromCurrencyIso == request.toCurrencyIso ==>
        r == ValidationFailed(SameCurrencyMessage)
      ensures RequestValid(request, now) && HasKey(old(repository.rows), request.dealUniqueId.value) ==>
        r == DuplicateDeal(request.dealUniqueId.value)
      ensures r.Created? <==> RequestValid(request, now) && !HasKey(old(repository.rows), request.dealUniqueId.value)
      ensures !r.Created? ==> unchanged(repository)
      ensures r.Created? ==>
        && |repository.rows| == |old(repository.rows)| + 1
        && repository.rows[..|old(repository.rows)|] == old(repository.rows)
        && var stored := repository.rows[|old(repository.rows)|];
           && Terms(stored) == RequestTerms(request)
           && stored.id == Some(old(repository.nextId))
           && repository.nextId == old(repository.nextId) + 1
           && stored.createdAt == Some(now) && stored.updatedAt == Some(now)
           && r.response == ToResponse(Some(stored)).value
           && r.response.dealUniqueId == request.dealUniqueId
    {
      var failure := ValidateRequest(request, now);
      if failure.Some? {
        return ValidationFailed(failure.value);
      }
      var key := request.dealUniqueId.value;
      if repository.ExistsByDealUniqueId(key) {
        return DuplicateDeal(key);
      }
      var deal := ToEntity(Some(request)).value;
      var saved := repository.Save(deal, now);
      r := Created(ToResponse(Some(saved.deal)).value);
    }

    /** getDealById: the mapped row, or NotFound carrying the id. */
    function GetDealById(id: int): (r: LookupOutcome)
      reads repository
      ensures r.NotFound? <==> !HasId(repository.rows, id)
      ensures r.NotFound? ==> r.key == ById(id)
      ensures repository.Valid() ==>
        forall i | 0 <= i < |repository.rows| && repository.rows[i].id == Some(id) ::
          r == Found(ToResponse(Some(repository.rows[i])).value)
    {
      match repository.FindById(id)
      case None => NotFound(ById(id))
      case Some(deal) => Found(ToResponse(Some(deal)).value)
    }

    /** getDealByUniqueId: the mapped row, or NotFound carrying the key. */
    function GetDealByUniqueId(dealUniqueId: string): (r: LookupOutcome)
      reads repository
      ensures r.NotFound? <==> !HasKey(repository.rows, dealUniqueId)
      ensures r.NotFound? ==> r.key == ByUniqueId(dealUniqueId)
      ensures r.Found? ==> r.response.dealUniqueId == Some(dealUniqueId)
      ensures repository.Valid() ==>
        forall i | 0 <= i < |repository.rows| && repository.rows[i].dealUniqueId == Some(dealUniqueId) ::
          r == Found(ToResponse(Some(repository.rows[i])).value)
    {
      match repository.FindByDealUniqueId(dealUniqueId)
      case None => NotFound(ByUniqueId(dealUniqueId))
      case Some(deal) => Found(ToResponse(Some(deal)).value)
    }

    /** getAllDeals: findAll() mapped element by element. */
    function GetAllDeals(): (r: seq<FxDealResponse>)
      reads repository
      ensures |r| == |repository.rows|
      ensures forall i | 0 <= i < |r| :: r[i] == ToResponse(Some(repository.FindAll()[i])).value
    {
      var deals := repository.FindAll();
      seq(|deals|, i requires 0 <= i < |deals| => ToResponse(Some(deals[i])).value)
    }

    /** getDeals: findAll(offset, limit) mapped element by element, same length and order. */
    function GetDeals(offset: nat, limit: nat): (r: seq<FxDealResponse>)
      reads repository
      ensures |r| == |repository.FindAllPaged(offset, limit)| <= limit
      ensures forall i | 0 <= i < |r| :: r[i] == ToResponse(Some(repository.FindAllPaged(offset, limit)[i])).value
    {
      var deals := repository.FindAllPaged(offset, limit);
      seq(|deals|, i requires 0 <= i < |deals| => ToResponse(Some(deals[i])).value)
    }

    /** getTotalCount: the repository's count. */
    function GetTotalCount(): (n: nat)
      reads repository
      ensures n == |repository.rows|
    {
      repository.Count()
    }
  }

  /**
   * The request of the service's tests submitted twice to a store without
   * DEAL001: the first call creates the deal, the second is a duplicate, and
   * a lookup by the key returns what the first call returned.
   */
  method CreateTwiceThenLookup(service: FxDealService, now: int)
    returns (first: CreateOutcome, second: CreateOutcome, found: LookupOutcome)
    requires service.repository.Valid() && !HasKey(service.repository.rows, "DEAL001")
    modifies service.repository
    ensures service.repository.Valid()
    ensures first.Created? && first.response.dealUniqueId == Some("DEAL001") && first.response.id.Some?
    ensures second == DuplicateDeal("DEAL001")
    ensures found == Found(first.response)
    ensures |service.repository.rows| == |old(service.repository.rows)| + 1
  {
    var request := ExampleRequest(now);
    ExampleRequestIsValid(now);
    first := service.CreateDeal(request, now);
    var rowsAfterFirst := service.repository.rows;
    assert HasKey(rowsAfterFirst, "DEAL001") by {
      assert rowsAfterFirst[|rowsAfterFirst| - 1].dealUniqueId == Some("DEAL001");
    }
    second := service.CreateDeal(request, now);
    found := service.GetDealByUniqueId("DEAL001");
  }
}
