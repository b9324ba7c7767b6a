# FX deals: ingestion and lookup, modelled in Dafny

This project models the core of an FX-deal recording service. Clients submit a deal
request with a business key, two currency codes, a timestamp and an amount. The
service validates the request in two stages. It refuses a key that is already
stored, persists the deal in a keyed store and returns a response projection.
Stored deals can then be read back by surrogate id, by business key, as a whole
list newest first, or one page at a time. The listing endpoint silently normalises
its offset and limit.

The modules follow the source files:

- `Wrappers` holds `Option`, which stands for a Java reference that may be null.
- `BigDecimals` models `java.math.BigDecimal` as an unscaled integer and a scale. It covers `compareTo` and the precision/scale digit counts.
- `DealRequest` holds the request record and its field constraints. It follows the Jakarta Bean Validation 3.0 built-ins, where only `@NotNull`/`@NotBlank` reject null. The result is a set of violations, as `Validator.validate` returns it.
- `DealEntity` holds the entity value, its constructors, the `@PrePersist`/`@PreUpdate` callbacks, and `equals`/`hashCode` by key.
- `DealMapper` holds the response record, `toEntity` and `toResponse`.
- `DealRepository` holds the store. It is a class over a sequence of rows and an identity counter. Its invariant covers the primary key, the unique index on `dealUniqueId` and the NOT NULL columns. `Save` is a method; the queries are functions.
- `DealService` holds the two-stage validation and the message join. It also holds `CreateDeal`, a method on the service class that changes the store, and the read operations as functions.
- `DealController` holds the offset/limit clamp and what the listing endpoint passes on.

Some constraint details follow the standard's reference implementation, Hibernate Validator:

- `@NotBlank` fails unless some character is above U+0020. This is what `String.trim()` would leave.
- `@Digits` counts `precision - scale` integer digits and `max(scale, 0)` fraction digits. Trailing zeros count, so `1.000` has three fraction digits.

One point where the code is narrower than might be expected:

- A keyed store might be expected to re-map a storage-level uniqueness failure to the duplicate outcome. `createDeal` has no such handler (`service/FxDealService.java:43-49`). In this model, `Save` reports a unique-index rejection as a `Rejected` result. `CreateDeal` never meets that result, because it only saves after the existence probe said the key is absent. No re-mapping is claimed.

## Model

| member | source | states |
|---|---|---|
| `BigDecimals.DigitsCharacterisation` | src/main/java/com/bloomberg/fxdeals/dto/FxDealRequest.java:26 | for a non-negative scale, `@Digits(i, f)` holds iff scale <= f and \|unscaled\| < 10^(i+scale), i.e. the magnitude is below 10^i |
| `DealRequest.NoViolationsIffValid` | src/main/java/com/bloomberg/fxdeals/dto/FxDealRequest.java:9-27 | the violation set is empty exactly when the key is non-blank, both codes are present three-letter codes, the timestamp is present and not after now, and the amount is present, at least 0.01 and within 15+2 digits |
| `DealRequest.DealIdRequiredIffBlank` | src/main/java/com/bloomberg/fxdeals/dto/FxDealRequest.java:9-10 | the key violation is reported exactly when the key is null or blank |
| `DealRequest.NullCurrencyOnlyRequired` | src/main/java/com/bloomberg/fxdeals/dto/FxDealRequest.java:12-14 | a null currency violates "required" but not the pattern, which accepts null |
| `DealRequest.BlankCurrencyViolatesBoth` | src/main/java/com/bloomberg/fxdeals/dto/FxDealRequest.java:12-14 | a present blank currency ("" or spaces) violates both "required" and the 3-letter pattern |
| `DealRequest.TwoLetterCurrencyRejected` | src/main/java/com/bloomberg/fxdeals/dto/FxDealRequest.java:12-14 | "US" violates the pattern and not "required" |
| `DealRequest.TimestampRules` | src/main/java/com/bloomberg/fxdeals/dto/FxDealRequest.java:20-22 | "timestamp required" iff null; "in the future" iff present and strictly after now |
| `DealRequest.NonPositiveAmountRejected` | src/main/java/com/bloomberg/fxdeals/dto/FxDealRequest.java:24-25 | a zero or negative amount, at any scale, violates the 0.01 minimum |
| `DealRequest.TooManyFractionDigitsRejected` | src/main/java/com/bloomberg/fxdeals/dto/FxDealRequest.java:26 | more than two fraction digits violate `@Digits` |
| `BigDecimals.NegativeScaleDigits` | src/main/java/com/bloomberg/fxdeals/dto/FxDealRequest.java:26 | for a non-zero value of negative scale, `@Digits(i, f)` holds iff \|unscaled\| * 10^(-scale) < 10^i, whatever f |
| `DealRequest.TooManyIntegerDigitsRejected` | src/main/java/com/bloomberg/fxdeals/dto/FxDealRequest.java:26 | an amount of non-negative scale and magnitude at least 10^15 (\|unscaled\| >= 10^(15+scale)) violates `@Digits` |
| `DealRequest.NegativeScaleTooManyIntegerDigitsRejected` | src/main/java/com/bloomberg/fxdeals/dto/FxDealRequest.java:26 | an amount of negative scale and magnitude at least 10^15 (\|unscaled\| * 10^(-scale) >= 10^15) violates `@Digits`; with the previous row this covers every scale |
| `DealRequest.ExponentFormAmountRejected` | src/main/java/com/bloomberg/fxdeals/dto/FxDealRequest.java:26 | the amount 1E+15 (unscaled 1, scale -15) violates `@Digits`: it has 16 integer digits |
| `DealRequest.ExampleRequestIsValid` | src/test/java/com/bloomberg/fxdeals/service/FxDealServiceTest.java:58-64 | the 1000.50 USD to EUR request dated a day ago satisfies every constraint |
| `DealEntity.NewDeal` | src/main/java/com/bloomberg/fxdeals/entity/FxDeal.java:54-61 | the five-argument constructor sets exactly the five business fields and leaves id, createdAt and updatedAt null |
| `DealEntity.OnCreate` | src/main/java/com/bloomberg/fxdeals/entity/FxDeal.java:63-67 | on persist, createdAt and updatedAt both become now; id and business fields are untouched |
| `DealEntity.OnUpdate` | src/main/java/com/bloomberg/fxdeals/entity/FxDeal.java:69-72 | on update only updatedAt changes; createdAt (not updatable) stays |
| `DealEntity.EqualsIsEquivalence` | src/main/java/com/bloomberg/fxdeals/entity/FxDeal.java:138-144 | equals is reflexive, symmetric and transitive, and false for null |
| `DealEntity.EqualsByKeyOnly` | src/main/java/com/bloomberg/fxdeals/entity/FxDeal.java:138-144 | two deals are equal iff their keys are equal, whatever the id or other fields |
| `DealEntity.HashCode` | src/main/java/com/bloomberg/fxdeals/entity/FxDeal.java:146-149 | the hash is `Objects.hash(key)` in 32-bit wrap-around arithmetic and lies in the int range |
| `DealEntity.HashCodeConsistentWithEquals` | src/main/java/com/bloomberg/fxdeals/entity/FxDeal.java:146-149 | equal deals have equal hash codes |
| `DealEntity.NullKeyHash` | src/main/java/com/bloomberg/fxdeals/entity/FxDeal.java:146-149 | a null key hashes to 31 |
| `DealMapper.ToEntity` | src/main/java/com/bloomberg/fxdeals/mapper/FxDealMapper.java:11-24 | null maps to null; otherwise the five request fields are copied unchanged and id, createdAt, updatedAt are null |
| `DealMapper.ToResponse` | src/main/java/com/bloomberg/fxdeals/mapper/FxDealMapper.java:26-41 | null maps to null; otherwise id, the five business fields and createdAt are copied unchanged |
| `DealMapper.ToEntityAgreesWithConstructor` | src/main/java/com/bloomberg/fxdeals/mapper/FxDealMapper.java:16-23 | toEntity builds the same entity as the five-argument constructor |
| `DealMapper.RequestSurvivesRoundTrip` | src/main/java/com/bloomberg/fxdeals/mapper/FxDealMapper.java:11-41 | `toResponse(toEntity(r))` agrees with r on all five request fields |
| `DealMapper.ResponseIgnoresUpdatedAt` | src/main/java/com/bloomberg/fxdeals/mapper/FxDealMapper.java:31-40 | the response does not depend on updatedAt |
| `DealRepository.SortByTimestamp` | src/main/java/com/bloomberg/fxdeals/repository/FxDealRepository.java:68-77 | the result is a permutation of the rows with non-increasing dealTimestamp |
| `DealRepository.CountPositiveIffHasKey` | src/main/java/com/bloomberg/fxdeals/repository/FxDealRepository.java:55-66 | the count of rows with key k is positive iff some row has key k |
| `DealRepository.UniqueKeyCountAtMostOne` | src/main/java/com/bloomberg/fxdeals/entity/FxDeal.java:10-13 | with the unique index in force, any key counts at most once |
| `DealRepository.FxDealRepository.Save` | src/main/java/com/bloomberg/fxdeals/repository/FxDealRepository.java:23-30 | a new entity with all NOT NULL columns and an unused key is appended with the next id and createdAt = updatedAt = now, its business fields are kept, and the next id advances by one. A detached entity, a null column or a used key is refused and nothing changes. The invariant (unique keys and ids, complete rows) is preserved |
| `DealRepository.FxDealRepository.FindById` | src/main/java/com/bloomberg/fxdeals/repository/FxDealRepository.java:32-36 | present iff some row has that id, and then it is that row |
| `DealRepository.FxDealRepository.FindByDealUniqueId` | src/main/java/com/bloomberg/fxdeals/repository/FxDealRepository.java:38-53 | present iff some row's key equals k exactly, and then it is that (unique) row |
| `DealRepository.FxDealRepository.ExistsByDealUniqueId` | src/main/java/com/bloomberg/fxdeals/repository/FxDealRepository.java:55-66 | true iff some row has key k, i.e. iff findByDealUniqueId(k) is present |
| `DealRepository.FxDealRepository.FindAll` | src/main/java/com/bloomberg/fxdeals/repository/FxDealRepository.java:68-77 | every row exactly once (same multiset), newest dealTimestamp first |
| `DealRepository.FxDealRepository.FindAllPaged` | src/main/java/com/bloomberg/fxdeals/repository/FxDealRepository.java:79-90 | the sub-list of findAll() starting at offset, of length min(limit, rows - offset) (0 past the end), still descending and drawn from the rows |
| `DealRepository.FxDealRepository.Count` | src/main/java/com/bloomberg/fxdeals/repository/FxDealRepository.java:92-101 | the number of stored rows |
| `DealRepository.FxDealRepository.StoredDealsPairwiseUnequal` | src/main/java/com/bloomberg/fxdeals/entity/FxDeal.java:20-22 | no two stored rows are equal in the sense of equals() |
| `DealService.JoinViolationMessages` | src/main/java/com/bloomberg/fxdeals/service/FxDealService.java:94-99 | the result is the messages of all violations joined by ", ", each exactly once, in some iteration order of the set |
| `DealService.ValidateRequest` | src/main/java/com/bloomberg/fxdeals/service/FxDealService.java:93-111 | passes iff structurally valid with different currencies. With any field violation, the message is their join. Otherwise, with equal currencies, it is "From Currency and To Currency must be different" |
| `DealService.FxDealService.CreateDeal` | src/main/java/com/bloomberg/fxdeals/service/FxDealService.java:37-55 | invalid: Validation with the message above, store unchanged, duplicate check not reached. Valid with a stored key: Duplicate(key), store unchanged. Otherwise exactly one row is appended, carrying the request's fields, the next id (which then advances by one) and createdAt = updatedAt = now, and the response is its projection with the request's key |
| `DealService.FxDealService.GetDealById` | src/main/java/com/bloomberg/fxdeals/service/FxDealService.java:57-62 | NotFound(id) exactly when no row has the id; otherwise the mapped row |
| `DealService.FxDealService.GetDealByUniqueId` | src/main/java/com/bloomberg/fxdeals/service/FxDealService.java:64-71 | NotFound(key) exactly when no row has the key; otherwise the mapped row, which carries that key |
| `DealService.FxDealService.GetAllDeals` | src/main/java/com/bloomberg/fxdeals/service/FxDealService.java:73-79 | findAll() mapped element-wise, one response per row |
| `DealService.FxDealService.GetDeals` | src/main/java/com/bloomberg/fxdeals/service/FxDealService.java:81-87 | the repository page mapped element-wise, same length and order |
| `DealService.FxDealService.GetTotalCount` | src/main/java/com/bloomberg/fxdeals/service/FxDealService.java:89-91 | the repository count |
| `DealService.CreateTwiceThenLookup` | src/test/java/com/bloomberg/fxdeals/service/FxDealServiceTest.java:86-108 | on a store without DEAL001, the test request is created once with an id. The same request again is Duplicate("DEAL001"), and the lookup by key returns the first response |
| `DealController.ClampPagination` | src/main/java/com/bloomberg/fxdeals/controller/FxDealController.java:56-61 | a limit <= 0 or > 1000 becomes 100, one in 1..1000 is kept. A negative offset becomes 0, others are kept. The result always has offset >= 0 and 1 <= limit <= 1000 |
| `DealController.ClampIdempotent` | src/main/java/com/bloomberg/fxdeals/controller/FxDealController.java:56-61 | clamping twice equals clamping once |
| `DealController.GetAllDeals` | src/main/java/com/bloomberg/fxdeals/controller/FxDealController.java:50-72 | getDeals gets the clamped values, which are also echoed as metadata; the total comes from getTotalCount; at most 1000 deals are returned |
| `DealController.OutOfRangeIsDefault` | src/main/java/com/bloomberg/fxdeals/controller/FxDealController.java:56-64 | listing with (-5, 5000) gives the same page as (0, 100) |

## Left out

- HTTP transport is not modelled. This covers the JAX-RS routing, status codes and header building, the health endpoint and the four exception mappers. `DealController.GetAllDeals` returns the header values as fields of a record instead.
- The exceptions are outcome variants (`ValidationFailed`, `DuplicateDeal`, `NotFound`) carrying the message, key or id. The `String.format` texts of the duplicate and not-found exceptions are not modelled.
- JPA is replaced by an in-memory sequence of rows and an identity counter. This covers the `EntityManager`, JPQL text, the persistence context, `@Transactional` and logging. A refused save leaves the store unchanged, standing for the rollback.
- Concurrency is not modelled: two creators racing between the existence probe and the insert. The code does not re-map the store's uniqueness failure, so the model claims no re-mapping either.
- The clock is a parameter `now` on an integer time line. One `now` per `CreateDeal` call stands for the validator's clock and both reads in `onCreate`. The real reads could differ by a few nanoseconds.
- BigDecimal is modelled with exact integers. Only `compareTo`, precision and scale are modelled; there is no floating point.
- The regular expression `^[A-Z]{3}$` is replaced by a character predicate. ISO 4217 membership is not checked, and the code does not check it either.
- The reflection-based Validator is modelled as an explicit set of per-field predicates. Entity-level bean validation on pre-persist is not modelled. The entity re-checks the same field constraints that the request already passed.
- The iteration order of the violation set is deliberately left open. `JoinViolationMessages` picks an arbitrary next element, and its contract states only that the message joins some enumeration of the set.
- The entity is a value, not an object. Persisting in JPA mutates the very object passed in and returns the same reference. `FxDealRepository.Save` returns the stamped value instead, so aliasing is not captured. The getters, setters and `toString` carry no behaviour and are not modelled.
- Column lengths are not modelled: 100 for the key, 3 for the codes, and precision 19 with scale 2 for the amount. What this drops: a key longer than 100 characters passes validation, so the model's `CreateDeal` returns `Created` where the real insert would fail with a storage error. The code columns add nothing, since validation already limits codes to 3 letters. A valid amount has at most 15 + 2 digits and fits its column, but the column stores it at scale 2 (10.5 reads back as 10.50), while the model keeps the scale the request had.
- When several store constraints fail at once, the order in which the database reports them is not modelled. The model refuses a detached entity first, then a null column, then a used key.
- Identity values are unbounded naturals. The `Long` range is not modelled, and neither are ids consumed by failed inserts.
- `ORDER BY dealTimestamp DESC` leaves the order of equal timestamps to the database. The model keeps insertion order for ties; the contracts promise only descending order and a permutation.
- `DealEntity.StringHash` hashes each Dafny `char`, which is a Unicode scalar value. Java hashes UTF-16 code units, so the two agree only for characters in the Basic Multilingual Plane.
- `DealService.FxDealService.GetDeals` and `DealRepository.FxDealRepository.FindAllPaged` take `nat` offset and limit. The JPA query API throws `IllegalArgumentException` for negative values, and the only caller, the controller, passes clamped values.
- `DealService.FxDealService.CreateDeal` takes a non-null request. The source dereferences the request on its first line, so a null request is not a case it handles.
