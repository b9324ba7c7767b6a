/**
 * The persisted deal entity. Its fields are nullable Java references, so
 * each is an Option; id is store-generated, createdAt and updatedAt are
 * written by the persistence lifecycle callbacks.
 */
module DealEntity {
  import opened Wrappers
  import opened BigDecimals

  datatype FxDeal = FxDeal(
    id: Option<int>,
    dealUniqueId: Option<string>,
    fromCurrencyIso: Option<string>,
    toCurrencyIso: Option<string>,
    dealTimestamp: Option<int>,
    dealAmount: Option<Decimal>,
    createdAt: Option<int>,
    updatedAt: Option<int>)

  /** The five business fields that request, entity and response share. */
  datatype DealTerms = DealTerms(
    dealUniqueId: Option<string>,
    fromCurrencyIso: Option<string>,
    toCurrencyIso: Option<string>,
    dealTimestamp: Option<int>,
    dealAmount: Option<Decimal>)

  function Terms(d: FxDeal): DealTerms
  {
    DealTerms(d.dealUniqueId, d.fromCurrencyIso, d.toCurrencyIso, d.dealTimestamp, d.dealAmount)
  }

  /** The no-argument constructor: every field null. */
  const EmptyDeal: FxDeal := FxDeal(None, None, None, None, None, None, None, None)

  /** The five-argument constructor. */
  function NewDeal(dealUniqueId: Option<string>, fromCurrencyIso: Option<string>, toCurrencyIso: Option<string>,
                   dealTimestamp: Option<int>, dealAmount: Option<Decimal>): (d: FxDeal)
    ensures Terms(d) == DealTerms(dealUniqueId, fromCurrencyIso, toCurrencyIso, dealTimestamp, dealAmount)
    ensures d.id.None? && d.createdAt.None? && d.updatedAt.None?
  {
    EmptyDeal.(dealUniqueId := dealUniqueId, fromCurrencyIso := fromCurrencyIso, toCurrencyIso := toCurrencyIso,
               dealTimestamp := dealTimestamp, dealAmount := dealAmount)
  }

  /** @PrePersist: both audit timestamps take the current time; nothing else changes. */
  function OnCreate(d: FxDeal, now: int): (r: FxDeal)
    ensures r.createdAt == Some(now) && r.updatedAt == Some(now)
    ensures r.id == d.id && Terms(r) == Terms(d)
  {
    d.(createdAt := Some(now), updatedAt := Some(now))
  }

  /** @PreUpdate: only updatedAt moves; createdAt is a non-updatable column. */
  function OnUpdate(d: FxDeal, now: int): (r: FxDeal)
    ensures r.updatedAt == Some(now)
    ensures r.createdAt == d.createdAt && r.id == d.id && Terms(r) == Terms(d)
  {
    d.(updatedAt := Some(now))
  }

  /** The columns declared nullable = false, apart from the generated id and the callback-written createdAt. */
  predicate HasRequiredColumns(d: FxDeal)
  {
    && d.dealUniqueId.Some? && d.fromCurrencyIso.Some? && d.toCurrencyIso.Some?
    && d.dealTimestamp.Some? && d.dealAmount.Some?
  }

  /** The shape of every row the store holds. */
  predicate IsPersistedRow(d: FxDeal)
  {
    d.id.Some? && d.id.value >= 1 && HasRequiredColumns(d) && d.createdAt.Some? && d.updatedAt.Some?
  }

  /** equals(Object): null is never equal; otherwise equality of dealUniqueId alone (Objects.equals). */
  predicate Equals(d: FxDeal, other: Option<FxDeal>)
  {
    other.Some? && d.dealUniqueId == other.value.dealUniqueId
  }

  /** Equality is an equivalence on non-null deals. */
  lemma EqualsIsEquivalence(a: FxDeal, b: FxDeal, c: FxDeal)
    ensures Equals(a, Some(a))
    ensures Equals(a, Some(b)) <==> Equals(b, Some(a))
    ensures Equals(a, Some(b)) && Equals(b, Some(c)) ==> Equals(a, Some(c))
    ensures !Equals(a, None)
  {
  }

  /** Deals with the same key are equal whatever their id, other fields or audit timestamps. */
  lemma EqualsByKeyOnly(a: FxDeal, b: FxDeal)
    ensures Equals(a, Some(b)) <==> a.dealUniqueId == b.dealUniqueId
  {
  }

  const TwoTo31: int := 0x8000_0000
  const TwoTo32: int := 0x1_0000_0000

  /** Java int arithmetic: reduce to the signed 32-bit range. */
  function Int32(n: int): (r: int)
    ensures -TwoTo31 <= r < TwoTo31
    ensures (r - n) % TwoTo32 == 0
  {
    var m := n % TwoTo32;
    if m >= TwoTo31 then m - TwoTo32 else m
  }

  /** String.hashCode: h = 31 * h + c over the characters, in int arithmetic. */
  function StringHash(s: string): (h: int)
    ensures -TwoTo31 <= h < TwoTo31
  {
    if s == [] then 0 else Int32(31 * StringHash(s[..|s| - 1]) + s[|s| - 1] as int)
  }

  /** hashCode(): Objects.hash(dealUniqueId) = 31 * 1 + (key == null ? 0 : key.hashCode()). */
  function HashCode(d: FxDeal): (h: int)
    ensures -TwoTo31 <= h < TwoTo31
  {
    Int32(31 + if d.dealUniqueId.Some? then StringHash(d.dealUniqueId.value) else 0)
  }

  /** Equal deals have equal hash codes. */
  lemma HashCodeConsistentWithEquals(a: FxDeal, b: FxDeal)
    requires Equals(a, Some(b))
    ensures HashCode(a) == HashCode(b)
  {
  }

  /** A deal with a null key hashes to 31, as Arrays.hashCode of one null element does. */
  lemma NullKeyHash(d: FxDeal)
    requires d.dealUniqueId.None?
    ensures HashCode(d) == 31
  {
  }
}
