# Subscription manager business rules in Dafny

This project models the business-rule layer of a small subscription manager. The layer has five parts:

- **Provider lookup.** A free-text provider name resolves, ignoring case, to `GOOGLE` or `APPLE`. `findByNameOpt` returns an optional. `findByName` fails with `NoSuchElementException`.
- **Error accumulator.** `ValidationResult` is an append-only list of `Error(code, message)`. `hasErrors` is true exactly when the list is non-empty.
- **Request validator.** `CreateSubscriptionValidator.validate` checks four independent field rules. Each failing rule adds one error: 100 `userId is invalid`, 101 `name is invalid`, 102 `provider is invalid`, 103 `expirationDate is invalid`.
- **Mapper.** `CreateSubscriptionMapper.map` copies a request into a new, unsaved, `ACTIVE` subscription and resolves the provider strictly.
- **Service.** `SubscriptionService` is the lifecycle state machine.
  - `upsert` validates the request. It then renews the user's subscription with the same provider and name: the new expiration date is written and the status is forced to `ACTIVE`, even from `CANCELED` or `EXPIRED`. When no such subscription exists, it maps and saves a new one.
  - `cancel` and `expire` load one subscription by id. An unknown id is an invalid-argument failure. A status other than `ACTIVE` is a business-rule failure. Otherwise the status becomes `CANCELED` or `EXPIRED`; `expire` also stamps the expiration date with the clock's instant.

Every behaviour here is the one the system's JUnit tests assert or its design describes.

## Layout

- `Wrappers.dfy`: `Option`, `Result`, `Outcome`. These stand in for null, `Optional` and thrown exceptions.
- `Text.dfy`: `equalsIgnoreCase`, `toUpperCase`, `Character.isWhitespace` and `isBlank`.
- `Entity.dfy`: `Provider`, `Status`, `Subscription`, and the two provider lookups.
- `Dto.dfy`: the inbound request. Every field is optional.
- `Validation.dfy`: `Error`, `Error.of`, and the `ValidationResult` class.
- `Validator.dfy`: the rules and the `Errors` specification function, with the imperative `Validate` method proved against it.
- `Mapper.dfy`: `Map`.
- `Service.dfy`: the store and the service.
  - The store is the `SubscriptionStore` class: a map from id to row plus the next id to assign.
  - The service is the `SubscriptionService` class.
  - The ghost specification functions `UpsertSpec` and `CommandSpec` state what each service method returns and what the store holds afterwards. The methods are proved against them, and the lifecycle lemmas are proved about them.

Time is an integer (`Instant`). The clock is the `now` argument of `Expire`. The DAO is the in-memory `SubscriptionStore`.

## Model

| member | source | states |
|---|---|---|
| `Text.EqualsIgnoreCase` | src/test/java/com/dmdev/entity/ProviderTest.java:14-21 | `String.equalsIgnoreCase`: equal strings match, a string matches its own upper-case form, and matching strings have the same length. |
| `Text.IsBlank` | src/test/java/com/dmdev/validator/CreateSubscriptionValidatorTest.java:63-87 | `String.isBlank`: the empty string and strings of spaces are blank, and a blank string contains no ASCII letter. |
| `Text.EqualsIgnoreCaseIffSameUpperCase` | src/test/java/com/dmdev/entity/ProviderTest.java:14-21 | Two names are equal ignoring case exactly when their upper-case forms are equal. This makes the case-insensitive match an equivalence. |
| `Entity.Name` | src/test/java/com/dmdev/mapper/CreateSubscriptionMapperTest.java:35 | `Enum.name()`: the constant's declared name, non-empty and with no lower-case letter. |
| `Entity.FirstNamed` | src/test/java/com/dmdev/entity/ProviderTest.java:14-21 | The search over the providers in declaration order. Any provider it returns is in the list and matches the name ignoring case. When it returns none, no provider in the list matches. |
| `Entity.FindByNameOpt` | src/test/java/com/dmdev/entity/ProviderTest.java:14-21 | Returns a provider exactly when some provider's name equals the input ignoring case. That provider's name matches the input. |
| `Entity.FindByName` | src/test/java/com/dmdev/entity/ProviderTest.java:24-31 | Succeeds exactly when the optional lookup finds a provider, and then returns the same provider. Otherwise it fails with `NoSuchElement`. |
| `Entity.FindByNameOptIgnoresCase` | src/test/java/com/dmdev/entity/ProviderTest.java:14-21 | Two names that are equal ignoring case give the same lookup result. |
| `Entity.ResolvedNameIsUpperCase` | src/test/java/com/dmdev/mapper/CreateSubscriptionMapperTest.java:20-35 | A resolved provider's `name()` equals the upper-case form of the string it was looked up by. |
| `Entity.FindByOwnName` | src/test/java/com/dmdev/entity/ProviderTest.java:14-21 | Every provider is found by its own name, in upper case and in lower case. |
| `Entity.LookupExamples` | src/test/java/com/dmdev/entity/ProviderTest.java:14-31 | "google" and "apple" resolve, and so does "GOOGLE". The strict lookup of "invalidName" fails with `NoSuchElement`. |
| `Validation.Of` | src/test/java/com/dmdev/validator/ValidationResultTest.java:15-17 | `Error.of` keeps the code and the message exactly as given. |
| `Validation.ValidationResult.constructor` | src/test/java/com/dmdev/validator/ValidationResultTest.java:10 | A new result holds no errors, and `hasErrors` is false. |
| `Validation.ValidationResult.Add` | src/test/java/com/dmdev/validator/ValidationResultTest.java:12-48 | Appends the error at the end: the old errors are kept in order and the size grows by one. `hasErrors` is then true. |
| `Validation.ValidationResult.GetErrors` | src/test/java/com/dmdev/validator/ValidationResultTest.java:20-34 | Returns the errors added so far, in the order they were added. The list is non-empty exactly when `hasErrors` holds. |
| `Validation.ValidationResult.HasErrors` | src/test/java/com/dmdev/validator/ValidationResultTest.java:43-48 | True exactly when the list is non-empty: when it holds, the first error is in the list, and when it does not, no error is. |
| `Validator.RuleError` | src/test/java/com/dmdev/validator/CreateSubscriptionValidatorTest.java:37-137 | Each rule's fixed error: a code from 100 to 103 and a message of the form "<field> is invalid". |
| `Validator.Fails` | src/test/java/com/dmdev/validator/CreateSubscriptionValidatorTest.java:37-137 | A rule fails when its field is missing. The name rule also fails for an empty or all-space name. The provider rule fails exactly when the provider is missing or equals no provider's name ignoring case. |
| `Validator.ErrorsInSequence` | src/test/java/com/dmdev/validator/CreateSubscriptionValidatorTest.java:140-164 | The reported errors are the reports of the four rules, concatenated in rule order. No rule stops the later ones. |
| `Validator.CollectContains` | src/test/java/com/dmdev/validator/CreateSubscriptionValidatorTest.java:140-164 | An error is reported exactly when it is the fixed error of a failing rule. |
| `Validator.CollectCodesIncrease` | src/test/java/com/dmdev/validator/CreateSubscriptionValidatorTest.java:56-60 | Rules checked in increasing code order report their errors in increasing code order. |
| `Validator.ErrorsPerRule` | src/test/java/com/dmdev/validator/CreateSubscriptionValidatorTest.java:37-164 | A rule's error is present exactly when that rule fails. Nothing else is reported. Codes strictly increase, so no error appears twice. |
| `Validator.NoErrorsIffValid` | src/test/java/com/dmdev/validator/CreateSubscriptionValidatorTest.java:15-34 | There are no errors exactly when userId, a non-blank name, a resolvable provider and an expiration date are all present. |
| `Validator.SingleFailure` | src/test/java/com/dmdev/validator/CreateSubscriptionValidatorTest.java:37-137 | When exactly one rule fails, the result is exactly that rule's `(code, message)`. |
| `Validator.OnlyExpirationDatePresent` | src/test/java/com/dmdev/validator/CreateSubscriptionValidatorTest.java:140-164 | A request with only an expiration date gets exactly errors 100, 101 and 102, in that order. |
| `Validator.Validate` | src/test/java/com/dmdev/validator/CreateSubscriptionValidatorTest.java:15-164 | Returns a fresh `ValidationResult` whose errors are exactly `Errors(dto)`. |
| `Mapper.Map` | src/test/java/com/dmdev/mapper/CreateSubscriptionMapperTest.java:15-37 | Succeeds exactly when the provider name resolves. The new subscription has no id, the request's userId, name and expiration date, the provider whose `name()` is the upper-cased request string, and status `ACTIVE`. |
| `Mapper.MapExample` | src/test/java/com/dmdev/mapper/CreateSubscriptionMapperTest.java:17-36 | The test's request maps to (no id, 12, "name", GOOGLE, date, ACTIVE). |
| `Service.Transition` | src/test/java/com/dmdev/service/SubscriptionServiceTest.java:155-200 | A transition exists exactly from `ACTIVE`. Cancel leads to `CANCELED` and expire to `EXPIRED`. |
| `Service.StoreState.FindById` | src/test/java/com/dmdev/dao/SubscriptionDaoIT.java:44-61 | Finds a row exactly when the id is stored, and returns that row. In a well-formed store the row's own id is the one asked for. |
| `Service.StoreState.FindByUserId` | src/test/java/com/dmdev/dao/SubscriptionDaoIT.java:116-146 | Returns every stored row of the user, under the same key as in the store, and no row of another user. |
| `Service.SubscriptionStore.Update` | src/test/java/com/dmdev/dao/SubscriptionDaoIT.java:80-105 | Overwrites the row with the entity's id if such a row exists, and returns the entity. The next id is unchanged. |
| `Service.SubscriptionStore.Insert` | src/test/java/com/dmdev/dao/SubscriptionDaoIT.java:107-114 | Stores the entity under a newly assigned id that no row had, and returns it with that id. |
| `Service.SubscriptionStore.Upsert` | src/test/java/com/dmdev/service/SubscriptionServiceTest.java:83 | Inserts an entity without an id and updates one that has an id. |
| `Service.RenewalTarget` | src/test/java/com/dmdev/service/SubscriptionServiceTest.java:72-126 | Returns the first of the user's rows with the request's provider and name, or none when no row has both. |
| `Service.FindRenewalTarget` | src/test/java/com/dmdev/service/SubscriptionServiceTest.java:72-126 | The search loop finds the same row as `RenewalTarget`: the first match, or none when no row matches. |
| `Service.UpsertSpec` | src/test/java/com/dmdev/service/SubscriptionServiceTest.java:54-151 | Fails exactly when validation reports errors; it then carries all of them and the store is unchanged. On success the result is stored under its id with status `ACTIVE`, every other row is unchanged, and the store stays well formed. |
| `Service.CommandSpec` | src/test/java/com/dmdev/service/SubscriptionServiceTest.java:155-249 | An unknown id is `InvalidArgument`. A present non-`ACTIVE` row is `BusinessRule`. A failure changes nothing. On success only that row changes: cancel sets `CANCELED`, and expire sets `EXPIRED` with expiration date `now`. Id, user, provider and name are kept. |
| `Service.RenewalOnAnyStore` | src/test/java/com/dmdev/service/SubscriptionServiceTest.java:54-90 | On any well-formed store, duplicates included: a valid request with a row of the same user, provider and name succeeds. It renews the first such row in place: an old id with the same key, the request's expiration date and status `ACTIVE`. No row is added. |
| `Service.RenewalOverwritesAndReactivates` | src/test/java/com/dmdev/service/SubscriptionServiceTest.java:54-90 | On a store where no two rows share (user, provider, name): a valid request whose user, provider and name match a stored row renews exactly that row in place. The result keeps the id and takes the request's expiration date and status `ACTIVE`, whatever the old status. No row is added. |
| `Service.CreationWhenNoMatch` | src/test/java/com/dmdev/service/SubscriptionServiceTest.java:93-126 | A valid request matching none of the user's rows stores the mapped request under the next id, beside every existing row. |
| `Service.UpsertPreservesKeyUnique` | src/test/java/com/dmdev/service/SubscriptionServiceTest.java:93-126 | Upsert never gives two rows the same (user, provider, name). |
| `Service.CommandPreservesKeyUnique` | src/test/java/com/dmdev/service/SubscriptionServiceTest.java:155-249 | Cancel and expire never give two rows the same (user, provider, name). |
| `Service.SavedIsFirstMatch` | src/test/java/com/dmdev/service/SubscriptionServiceTest.java:54-126 | After a valid upsert, the saved row is the first row the same request matches among the user's rows. |
| `Service.UpsertIdempotent` | src/test/java/com/dmdev/service/SubscriptionServiceTest.java:54-126 | Repeating an upsert on the store it produced returns the same result and leaves the store as it was. The repeat renews the row the first call created or renewed. |
| `Service.TerminalStatusIsFinal` | src/test/java/com/dmdev/service/SubscriptionServiceTest.java:187-249 | No series of cancel and expire calls changes a `CANCELED` or `EXPIRED` row. |
| `Service.SubscriptionService.Upsert` | src/test/java/com/dmdev/service/SubscriptionServiceTest.java:54-151 | The result and the new store are exactly `UpsertSpec` of the old store. The store stays well formed. |
| `Service.SubscriptionService.Cancel` | src/test/java/com/dmdev/service/SubscriptionServiceTest.java:155-200 | The outcome and the new store are exactly `CommandSpec` for cancel. |
| `Service.SubscriptionService.Expire` | src/test/java/com/dmdev/service/SubscriptionServiceTest.java:203-249 | The outcome and the new store are exactly `CommandSpec` for expire at the clock's instant. |

## Left out

- Persistence is an in-memory map from id to row. The JDBC/H2 DAO, its SQL and transactions are not modelled. `findAll` and `delete` are not modelled because the service never calls them.
- `java.time.Clock` and `Instant` are not modelled. Time is an integer, and `Expire` takes the clock's instant as its `now` argument.
- `PropertiesUtil` is configuration file I/O and is not modelled.
- Mockito mocks, Lombok builders and the `getInstance()` singletons are wiring, not behaviour, and are not modelled.
- Concurrency between service calls is not modelled. Every call runs alone against the store.
- Case folding covers the ASCII letters only. The lookup compares against `GOOGLE` and `APPLE` only, and no other character folds onto those letters, so `findByNameOpt` is exact.
- Renewal selection: the storage returns a user's rows in an unspecified order, and the service takes the first match. The model takes the match with the smallest id. Upsert keeps (user, provider, name) unique (`UpsertPreservesKeyUnique`), so a store built by the service has at most one match anyway.
- Renewal matching compares the resolved provider constant and the exact name. The sources do not say whether the provider is compared after resolution or as a raw string.
- Validator.Errors: the order of the errors (userId, name, provider, expirationDate) is assumed from the rule order of the design. The tests check only which errors appear, not their order.
- Validation of the expiration date: the rule checks only that a date is present. No comparison against the current time is modelled, and the tests only exercise a missing date.
- Mapper.Map: requires userId, name and expiration date to be present. The Java mapper would copy a null into the entity, but this model's `Subscription` has no nulls. The service calls it only on validated requests.
- Service.SubscriptionService.Upsert: the Java code mutates the object returned by `findByUserId` before saving it. The model builds the renewed value and writes it into the store, so aliasing through references a caller still holds is not modelled.
- Service.SubscriptionService.Upsert: the strict provider lookup inside the mapper cannot fail after validation, which the model proves (`NoErrorsIffValid`). So `upsert` has no lookup-failure outcome.
- The `Subscription` fields other than `id` are never null in the model, unlike the sparsely built entities in the service tests. `cancel` and `expire` do not read those fields.
