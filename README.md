# protosync user backend, modelled in Dafny

This project models the core of a small NestJS + Mongoose backend that manages users.

- **Data-access helper** (`DatabaseOperationService`). It validates ids and runs duplicate pre-checks. It offers create, find-all with paging, find-by-id, find-one, update, delete and soft delete. `handleDatabaseError` sorts every failure into one of four structured exceptions.
- **User service.** It decides which duplicate checks to run, lists active users only and builds the paginated envelope.
- **User schema.** Trim and lowercase setters, `required`/`min`/`max` validators, defaults, and a unique index on `email`.
- **Request DTO rules.**
- **Global exception filter.**
- **Response-transform interceptor.**
- **`sanitizeBody`** of the logging interceptor.
- **Users controller.** List dispatch, route targets and status codes.

Layout:

- The collection is a `StoreState`: a map from id to document, plus the creation order. Newest-first is the reverse of that order.
- Each helper operation is a pure function from the old state to an `Outcome` (a result plus a new state). Module `Store` holds these functions; `StoreLemmas` proves what they promise.
- `DatabaseOperations.Collection` is the mutable service object. Its methods change `docs` and `order` step by step, as the source does. Each method is proved to end in the state the matching `Store` function gives, and to keep the invariant `Valid()`: the creation order lists each id once, and the unique index holds.
- `Users.UsersService` wraps a `Collection` whose schema is `UserSchema.User`.
- Mongoose casts an id string to an ObjectId before every query, so the case of its hexadecimal digits does not matter. Records are keyed by `DbErrors.IdKey`, the lower-case form in which the driver renders an ObjectId. Lookup, delete, update and the `$ne` exclusion of the duplicate checks all compare ids in that form. Error messages still quote the id as the request gave it.
- JavaScript values are `Json.Value`. Truthiness, property access and `String(v)` are written out explicitly in `Json`.

Inputs that have no place in a model become parameters:

- the id the driver assigns to a new document (`newId`);
- the clock (`timestamp`);
- the request URL and method (`Http.Request`).

Two consequences of the source are proved rather than corrected:

- **Name length counts white space.** The DTO's length rule counts the name before the schema trims it. A name of three spaces passes the DTO, then fails `required`, on create and on update alike. The name `" a "` passes the two-character minimum and is stored as `"a"`.
- **The update re-check can race.** `updateUser` checks for a duplicate email only when the patch's email is truthy. Neither create nor update closes the gap between check and write. A clash that slips through is caught by the unique index as an 11000 error. That also becomes a 409, but its message carries the stored, normalised value from `keyValue`, not the value the request gave.

## Model

| member | source | states |
|---|---|---|
| DbErrors.ValidateObjectId | apps/server/src/common/services/database-operation.service.ts:32-40 | no error exactly when the id is a well-formed ObjectId; otherwise a 400 validation error with one entry for field `id` holding the id |
| DbErrors.IdKey | apps/server/src/common/services/database-operation.service.ts:169 | the key an id string is looked up by has the id's length and no upper-case letter |
| DbErrors.IdKeyIdempotent | apps/server/src/common/services/database-operation.service.ts:169 | the key of a key is the key itself, so stored ids are fixed points |
| DbErrors.SameObjectIdIff | apps/server/src/common/services/database-operation.service.ts:169 | two well-formed ids get the same key exactly when their hexadecimal digits have the same values, position by position |
| DbErrors.HandleDatabaseError | apps/server/src/common/services/database-operation.service.ts:45-81 | whatever error it is given, the classifier yields an exception with a non-zero status, so the rethrow test recognises it as structured |
| DbErrors.DuplicateKeyClassified | apps/server/src/common/services/database-operation.service.ts:49-53 | code 11000 wins over every other attribute and gives a 409 conflict; the field is the first `keyPattern` key when there is one and it is non-empty, otherwise `'field'`; the value is the rendered `keyValue[field]` when that is truthy, otherwise `'unknown'` (no `keyValue`, a missing entry or a falsy one) |
| DbErrors.SchemaValidationClassified | apps/server/src/common/services/database-operation.service.ts:56-63 | a Mongoose `ValidationError` without the duplicate-key code becomes a validation exception with the same entries |
| DbErrors.CastErrorClassified | apps/server/src/common/services/database-operation.service.ts:66-72 | a `CastError` becomes a validation exception with a single entry naming the failed path and value |
| DbErrors.OtherErrorsClassified | apps/server/src/common/services/database-operation.service.ts:79-80 | any other error that is not structured becomes a 500 `DatabaseException` with detail "Failed to {operation} {lower-cased resource}" |
| DbErrors.Caught | apps/server/src/common/services/database-operation.service.ts:74-77 | a structured exception thrown inside a helper's `try` comes out of its `catch` unchanged |
| DbErrors.HandledIsStable | apps/server/src/common/services/database-operation.service.ts:270-274 | whatever the classifier produces passes unchanged through a second `catch`, such as the one in `softDelete` |
| DatabaseOperations.Collection.CheckDuplicates | apps/server/src/common/services/database-operation.service.ts:86-103 | the loop runs the checks in order and returns the conflict of the first check another record matches, which is `Store.FirstDuplicate` |
| StoreLemmas.FirstDuplicateSpec | apps/server/src/common/services/database-operation.service.ts:92-102 | no conflict iff no check is matched; otherwise the conflict of the earliest matched check, with every earlier check unmatched |
| StoreLemmas.FirstDuplicateNone | apps/server/src/common/services/database-operation.service.ts:92-102 | the checks pass exactly when none of them finds another record |
| StoreLemmas.FirstDuplicateWitness | apps/server/src/common/services/database-operation.service.ts:92-102 | a reported conflict is that of a check that finds another record, with every earlier check finding none |
| StoreLemmas.OwnValueIsNoDuplicate | apps/server/src/common/services/database-operation.service.ts:94-96 | with `excludeId` set, a record's own current value for a unique field never counts as a duplicate |
| DatabaseOperations.Collection.Create | apps/server/src/common/services/database-operation.service.ts:108-125 | the method ends in the state and result `Store.CreateOutcome` gives, and keeps the store invariant |
| StoreLemmas.CreateEffect | apps/server/src/common/services/database-operation.service.ts:114-124 | a failed create leaves the store unchanged; a successful one adds exactly one record, under the new id, holding the data after setters and defaults |
| StoreLemmas.CastSingle | apps/server/src/common/services/database-operation.service.ts:224-228 | a one-property patch at a declared path is cast to that property with the setter applied |
| StoreLemmas.CreateChecksFirst | apps/server/src/common/services/database-operation.service.ts:116-118 | a failing duplicate check decides the result before anything is built or inserted |
| StoreLemmas.CreateSucceedsIff | apps/server/src/common/services/database-operation.service.ts:114-124 | create succeeds iff every check passes, the built document is valid, the id is new, and no unique index is violated |
| StoreLemmas.CreatePreservesConsistent | apps/server/src/common/services/database-operation.service.ts:120-121 | create keeps the creation order duplicate-free and complete, and keeps the unique index |
| Store.FindAll | apps/server/src/common/services/database-operation.service.ts:130-155 | succeeds iff page >= 1; total is the number of matches; at most `limit` records, each a stored match |
| StoreLemmas.FindAllPageSize | apps/server/src/common/services/database-operation.service.ts:137-151 | the page holds the matches at positions skip .. skip+limit of the newest-first listing, or fewer on the last page, and none past it |
| StoreLemmas.PageLocation | apps/server/src/common/services/database-operation.service.ts:138-140 | the match at position k is at index k mod limit of page k div limit + 1 |
| StoreLemmas.TotalIsListingLength | apps/server/src/common/services/database-operation.service.ts:146-149 | `total` equals the length of the full listing, whatever the page |
| StoreLemmas.NewestFirstComplete | apps/server/src/common/services/database-operation.service.ts:137-140 | every stored match appears in the listing |
| StoreLemmas.NewestFirstIsSorted | apps/server/src/common/services/database-operation.service.ts:137 | the listing follows the reverse creation order (`createdAt: -1`) |
| StoreLemmas.SelectedCount | apps/server/src/common/services/database-operation.service.ts:146-149 | over a duplicate-free id list, the filtered listing is as long as the set of matches |
| Store.FindById | apps/server/src/common/services/database-operation.service.ts:160-183 | succeeds iff the id is well formed and its key is stored, returning that record; a malformed id gives the id validation error; a missing one gives not-found naming the id as given |
| StoreLemmas.FindByIdIgnoresCase | apps/server/src/common/services/database-operation.service.ts:169 | two well-formed ids with the same digit values, in whatever case, get the same answer |
| Store.FindOne | apps/server/src/common/services/database-operation.service.ts:188-204 | a returned record is stored and matches the filter |
| StoreLemmas.MatchesPair | apps/server/src/common/services/database-operation.service.ts:195 | a two-property filter matches exactly the records holding both values, each cast by its setter |
| StoreLemmas.FindOneNullIffNoMatch | apps/server/src/common/services/database-operation.service.ts:195-200 | `null` exactly when no stored record matches, never an error |
| DatabaseOperations.Collection.Update | apps/server/src/common/services/database-operation.service.ts:209-238 | the method ends in the state and result `Store.UpdateOutcome` gives, and keeps the store invariant |
| StoreLemmas.UpdateEffect | apps/server/src/common/services/database-operation.service.ts:224-234 | a failed update leaves the store unchanged; a successful one replaces only the record the id casts to, by its old fields overlaid with the cast patch, and returns the new record |
| StoreLemmas.UpdateSucceedsWhen | apps/server/src/common/services/database-operation.service.ts:217-234 | once the id, the checks, the update validators and the unique index pass, the record is rewritten with the patch overlaid and returned; the order is kept |
| StoreLemmas.UpdateNoChange | apps/server/src/common/services/database-operation.service.ts:224-234 | an update whose cast patch leaves the record as it is, once every gate passes, returns the record and leaves the store unchanged |
| StoreLemmas.UpdateRejectsMalformedId | apps/server/src/common/services/database-operation.service.ts:217 | a malformed id fails with the id validation error before any check |
| StoreLemmas.UpdateChecksExcludeOwnId | apps/server/src/common/services/database-operation.service.ts:219-222 | a duplicate found by the checks decides the result and the store is unchanged; a check finds something exactly when a record other than the one the id casts to holds the value, whatever the case of the id's digits |
| StoreLemmas.UpdateMissingIsNotFound | apps/server/src/common/services/database-operation.service.ts:230-232 | a well-formed id whose key is not stored gives not-found for that id, and the store is unchanged |
| StoreLemmas.UpdatePreservesConsistent | apps/server/src/common/services/database-operation.service.ts:224-228 | update keeps the store invariant |
| DatabaseOperations.Collection.Delete | apps/server/src/common/services/database-operation.service.ts:243-260 | the method ends in the state and result `Store.DeleteOutcome` gives, and keeps the store invariant |
| StoreLemmas.DeleteEffect | apps/server/src/common/services/database-operation.service.ts:248-256 | delete succeeds iff the id is well formed and its key is stored; it then removes that record alone, from the map and from the order, and returns it; failures leave the store unchanged |
| StoreLemmas.WithoutKeepsNoDups | apps/server/src/common/services/database-operation.service.ts:251 | removing an id from a duplicate-free order leaves it duplicate-free |
| StoreLemmas.DeletePreservesConsistent | apps/server/src/common/services/database-operation.service.ts:251 | delete keeps the store invariant |
| DatabaseOperations.Collection.SoftDelete | apps/server/src/common/services/database-operation.service.ts:265-275 | the method ends in the state and result `Store.SoftDeleteOutcome` gives, and keeps the store invariant |
| StoreLemmas.SoftDeleteIsUpdate | apps/server/src/common/services/database-operation.service.ts:271 | soft delete equals update with `{isActive: false}` and no checks |
| StoreLemmas.SoftDeletePreservesConsistent | apps/server/src/common/services/database-operation.service.ts:271 | soft delete keeps the store invariant |
| StoreLemmas.PutKeepsUniqueIndex | mongo-init.js:9 | writing a document that violates no unique index keeps the index holding |
| StoreLemmas.FirstClashNone | mongo-init.js:9 | the driver reports no index violation iff the document clashes at no uniquely indexed path |
| Exceptions.NewDatabaseException | src/common/exceptions/custom.exceptions.ts:3-12 | the status defaults to 500 and the detail goes into `error` |
| Exceptions.Status | src/common/exceptions/custom.exceptions.ts:3-45 | the validation, duplicate and not-found exceptions carry a 4xx status; a database exception carries the status it was built with |
| Exceptions.Message | src/common/exceptions/custom.exceptions.ts:3-45 | every exception's message is non-empty, so the filter never falls back to its default text for one of them |
| Exceptions.Response | src/common/exceptions/custom.exceptions.ts:3-45 | every body carries `statusCode` equal to the status and the message; validation carries `errors`, the others `error` |
| Exceptions.StructuredUnlessStatusZero | src/common/exceptions/custom.exceptions.ts:6 | an exception passes the rethrow test iff its status is non-zero, so every exception except a `DatabaseException` built with status 0 passes it |
| Exceptions.DuplicateMessageShape | src/common/exceptions/custom.exceptions.ts:25-34 | the message starts with the resource, then " with ", and ends with "' already exists" |
| Exceptions.NotFoundMessageShape | src/common/exceptions/custom.exceptions.ts:36-45 | the message is the resource, then " with ID '", then the identifier, then "' not found" |
| Users.UpdateChecks | src/user/users.service.ts:69-81 | at most one check; a check exactly when the patch's email is truthy, and then on `email` with that value |
| Users.CreateChecks | src/user/users.service.ts:20-22 | always exactly one check, on `email`, with the value the body gives, even when it is absent |
| Users.UsersService.CreateUser | src/user/users.service.ts:16-25 | the helper's create with one email check, on the given email |
| Users.UsersService.UpdateUser | src/user/users.service.ts:69-81 | the helper's update with the checks `UpdateChecks` chooses |
| Users.UsersService.DeleteUser | src/user/users.service.ts:83-85 | the helper's delete; nothing is returned on success and the helper's error on failure |
| Users.UsersService.SoftDeleteUser | src/user/users.service.ts:87-89 | the helper's soft delete |
| UsersLemmas.CreateUserTakenEmailFails | src/user/users.service.ts:16-24 | a create whose normalised email a stored user has fails with the 409 for that email, and the store is unchanged |
| UsersLemmas.CreateCheckIffEmailTaken | src/user/users.service.ts:20-22 | the create's one check fails exactly when the email is taken |
| UsersLemmas.CreateValidUserSucceedsIff | src/user/users.service.ts:16-25 | a DTO-valid body with a non-blank name is stored iff the new id is free and no stored user has its lower-cased, trimmed email |
| UsersLemmas.InsertClashIffEmailTaken | mongo-init.js:9 | for a new id, the email index refuses the insert exactly when the email is taken |
| UsersLemmas.CreateUserStoresNormalised | src/user/schemas/user.schema.ts:11-24 | the created record holds the trimmed name, the lower-cased trimmed email, the age, and `isActive` true |
| Users.GetAllUsers | src/user/users.service.ts:27-35 | always succeeds with at most 1000 stored records, each active |
| Users.ActiveFilterSelectsActive | src/user/users.service.ts:27-35 | every record the `{isActive: true}` filter matches is active |
| UsersLemmas.GetAllUsersComplete | src/user/users.service.ts:27-35 | while there are at most 1000 active users, every one of them is listed |
| Users.CeilDiv | src/user/users.service.ts:55 | the least page count whose pages hold `total` records |
| Users.GetUsersPaginated | src/user/users.service.ts:37-63 | succeeds iff page >= 1; `success` true; page and limit echoed; total is the active count; totalPages is its ceiling division by limit; at most `limit` active records; meta path `/users`, method `GET` |
| Users.GetUserById | src/user/users.service.ts:65-67 | succeeds iff the id is well formed and its key is stored, active or not, returning that record; otherwise the id validation error or not-found for the id as given |
| UsersLemmas.PaginationExample | src/user/users.service.ts:37-63 | page 2 of size 5 over 12 active users holds 5 of them, and totalPages is 3 |
| UsersLemmas.PageWithinCount | src/user/users.service.ts:55 | position k of `total` lies on a page no later than the last |
| UsersLemmas.EveryActiveUserOnSomePage | src/user/users.service.ts:37-63 | the active user at listing position k is on page k div limit + 1, which is at most totalPages |
| Users.GetUserByEmail | src/user/users.service.ts:91-98 | an answer is a stored, active record whose email is the lower-cased, trimmed query |
| UsersLemmas.GetUserByEmailNullIff | src/user/users.service.ts:91-98 | `null` exactly when no active user has that email |
| UsersLemmas.ActiveEmailMatches | src/user/users.service.ts:91-98 | the lookup filter matches exactly the active records whose email is the lower-cased, trimmed query |
| UsersLemmas.OwnEmailCheckPasses | src/user/users.service.ts:70-72 | the email check of an update to the record's own email finds nothing |
| UsersLemmas.RewriteKeepsUniqueIndex | mongo-init.js:9 | rewriting a stored user with its email unchanged violates no index |
| UsersLemmas.UpdateOwnEmailSucceeds | src/user/users.service.ts:69-81 | updating a user to the email it already has succeeds and changes nothing |
| UsersLemmas.UpdateToTakenEmailFails | src/user/users.service.ts:69-81 | updating a user to another user's email fails with the 409 for that email, and the store is unchanged |
| UsersLemmas.UpdateWithoutEmailSkipsCheck | src/user/users.service.ts:70-72 | a patch without a truthy email runs the update with no checks |
| UsersLemmas.BlankNameUpdateFails | src/user/users.service.ts:69-81 | an update with a three-space name fails with a validation exception and leaves the store unchanged |
| UsersLemmas.MergeSameValue | src/user/users.service.ts:74-80 | overlaying a field with the value it already holds leaves the document as it was |
| UsersLemmas.SoftDeleteUserSucceedsIff | src/user/users.service.ts:87-89 | on a consistent store, soft delete succeeds iff the id is well formed and stored; only that record changes, with `isActive` false; a failure changes nothing |
| UsersLemmas.SoftDeletedUserHidden | src/user/users.service.ts:27-35 | a soft-deleted user stays fetchable by id but appears in no later `getAllUsers` result and no email lookup |
| UsersLemmas.DeletedUserNotFound | src/user/users.service.ts:83-85 | after a successful delete the user is gone, the store has one record fewer, and fetching it by id gives not-found |
| UserSchema.AgeBoundErrors | src/user/schemas/user.schema.ts:17-18 | no error iff the age is not a number or lies in 0..120 |
| UserSchema.Validate | src/user/schemas/user.schema.ts:11-18 | a record passes iff name, email and age are present (strings non-empty) and a numeric age lies in 0..120; errors name only those paths |
| UserSchema.ValidateUpdate | src/user/schemas/user.schema.ts:11-18 | an update passes iff none of name, email, age that it sets fails `required` (null, undefined, or `''` for the two strings) and any numeric age it sets lies in 0..120; errors name only the patch's paths |
| UserSchema.ValidateAccepts | src/user/schemas/user.schema.ts:11-18 | a record with non-empty string name and email and an age in 0..120 passes the validators |
| UserSchema.BuildNormalises | src/user/schemas/user.schema.ts:6-24 | the stored record keeps only declared paths; name trimmed; email lower-cased and trimmed; `isActive` true and `tags` `[]` when absent |
| UserSchema.BuildAt | src/user/schemas/user.schema.ts:6-24 | a declared path present in the data is stored as its setter leaves it |
| UserSchema.BuildDefault | src/user/schemas/user.schema.ts:20-24 | a path with a default that the data leaves out is stored with that default |
| UserSchema.SetterIdempotent | src/user/schemas/user.schema.ts:11-15 | applying a setter to a stored value changes nothing, so a query for a stored email finds it |
| UserSchema.TrimOfLowerIsLower | src/user/schemas/user.schema.ts:14 | trimming a lower-case string keeps it lower-case |
| Text.TrimSpec | src/user/schemas/user.schema.ts:11 | `trim` yields a contiguous part of the input with no white space at either end, and everything it cuts off on either side is white space |
| Text.TrimIdempotent | src/user/schemas/user.schema.ts:11 | trimming twice is trimming once |
| Text.TrimEmptyIffBlank | src/user/schemas/user.schema.ts:11 | the trimmed string is empty iff the input is all white space |
| Text.TrimLowerCommute | src/user/schemas/user.schema.ts:14 | lower-casing and trimming commute |
| Text.ToLowerIsLower | src/user/schemas/user.schema.ts:14 | `lowercase` leaves no upper-case letter |
| Text.ToLowerOfLower | src/user/schemas/user.schema.ts:14 | lower-casing a lower-case string changes nothing |
| UserDto.UpdateRulesWeaker | apps/server/src/user/dto/user.dto.ts:34-59 | the empty patch is a valid update, and every valid create body is a valid update |
| UserDto.ValidCreate | apps/server/src/user/dto/user.dto.ts:14-32 | an accepted create body names `name`, `email` and `age`, and is also an accepted update body |
| UserDto.ValidUpdate | apps/server/src/user/dto/user.dto.ts:34-59 | every property is optional: the empty body is accepted |
| UserDto.CreateRulesBound | apps/server/src/user/dto/user.dto.ts:14-32 | a valid create body has a 2..50 character name, an age in 0..120 and an email with an `@` |
| UserDto.EmailNotBlank | apps/server/src/user/dto/user.dto.ts:20-21 | an accepted email is never blank after lower-casing and trimming |
| UserDto.CreateBodyPassesSchema | apps/server/src/user/dto/user.dto.ts:14-32 | a valid create body whose name is not all white space passes the schema validators |
| UserDto.StoredFieldsPass | apps/server/src/user/dto/user.dto.ts:14-26 | a name and an email that are not blank once normalised, and an age in 0..120, pass the schema after the setters run |
| UserDto.UpdateBodyPassesSchema | apps/server/src/user/dto/user.dto.ts:34-59 | a valid update body without nulls passes the update validators exactly when the name it gives, if any, is not blank; an accepted email never fails them |
| UserDto.PatchEmailAndAgePass | apps/server/src/user/dto/user.dto.ts:41-49 | the email and age of an accepted update body never fail the update validators |
| UserDto.PatchEmailPasses | apps/server/src/user/dto/user.dto.ts:41-43 | an accepted email is in the cast patch and does not fail `required` |
| UserDto.PatchAgePasses | apps/server/src/user/dto/user.dto.ts:45-49 | an accepted age reaches the cast patch unchanged and does not fail `required` |
| UserDto.PatchNameRequired | apps/server/src/user/dto/user.dto.ts:35-39 | a given name fails `required` on update exactly when it trims to `''` |
| UserDto.BlankNameUpdateRejected | apps/server/src/user/dto/user.dto.ts:35-39 | a three-space name passes the update rules and is refused by the update validators |
| UserDto.NullFieldUpdateRejected | apps/server/src/user/dto/user.dto.ts:34-49 | a `null` name, email or age passes the optional update rules and is refused as missing by the update validators |
| UserDto.NameOnlyUpdateAccepted | apps/server/src/user/dto/user.dto.ts:34-59 | a body holding only a name of 2..50 characters is an accepted update |
| UserDto.EmptyNameRefused | src/user/schemas/user.schema.ts:11 | an update that sets the name to `''` fails `required` |
| UserDto.BlankNamePassesRulesOnly | apps/server/src/user/dto/user.dto.ts:15-18 | a three-space name passes the length rule but fails the schema's `required` after trimming |
| UserDto.BlankNameFailsSchema | apps/server/src/user/dto/user.dto.ts:15-18 | a name made only of white space fails the schema's `required` once trimmed |
| UserDto.ShortNameStoredShorter | apps/server/src/user/dto/user.dto.ts:15-18 | " a " passes the two-character minimum and is stored as "a" |
| ExceptionFilter.Catch | src/common/filters/global-exception.filter.ts:16-77 | `success` false and meta from the request; an `HttpException` keeps its status; for a non-null object response the message is its truthy `message`, else "An error occurred", and `errors` its truthy `errors`, else `[]`; a non-object response is the message itself, with no `errors`; anything else gives 500 with the fixed message and no `errors` |
| ExceptionFilter.EnvelopeValue | src/common/filters/global-exception.filter.ts:40-49 | the JSON body has an `errors` property iff the filter set one |
| ExceptionFilter.StructuredExceptionReply | src/common/filters/global-exception.filter.ts:24-39 | each custom exception is answered with its own status and message; validation lists its entries, the others send `[]` |
| ExceptionFilter.UnexpectedErrorsLookAlike | src/common/filters/global-exception.filter.ts:51-62 | the text of an unexpected error never reaches the reply; status 500 |
| ResponseTransform.TransformCases | src/common/interceptors/response-transform.interceptor.ts:22-38 | a result is returned unchanged iff it is an object with a `success` key; otherwise it is wrapped unchanged under `data`, with `success` true and meta from the request |
| ResponseTransform.Transform | src/common/interceptors/response-transform.interceptor.ts:22-38 | whatever the handler returns, the client receives an envelope, and an envelope passes unchanged |
| ResponseTransform.PrimitivesWrapped | src/common/interceptors/response-transform.interceptor.ts:24 | null, undefined and primitives are always wrapped |
| ResponseTransform.TransformIdempotent | src/common/interceptors/response-transform.interceptor.ts:24-31 | transforming twice is transforming once |
| Logging.SanitizeBody | src/common/interceptors/logging.interceptor.ts:46-59 | the loop over the sensitive fields yields `Sanitized(body)` |
| Logging.SanitizedShape | src/common/interceptors/logging.interceptor.ts:49-56 | the keys are those of the copy (of the body, for an object); each truthy credential is redacted; every other property keeps its value |
| Logging.FalsyBodyUnchanged | src/common/interceptors/logging.interceptor.ts:47 | a falsy body is returned as it is |
| Logging.SanitizeIdempotent | src/common/interceptors/logging.interceptor.ts:52-56 | sanitizing twice is sanitizing once |
| Logging.NatStringsDistinct | src/common/interceptors/logging.interceptor.ts:50 | distinct indices give distinct property names in the spread copy |
| UsersController.ListDispatch | apps/server/src/user/users.controller.ts:29-43 | paginated iff page or limit is non-empty; a missing page reads as 1 and a missing limit as 10; given ones are read as decimals |
| UsersController.GetUsers | apps/server/src/user/users.controller.ts:29-43 | without paging parameters it answers the active-user list; with them it answers the page `getUsersPaginated` gives for the parsed page and limit, and fails exactly when that page is below 1 |
| UsersController.ListDispatchReadsNumbers | apps/server/src/user/users.controller.ts:36-38 | decimal renderings of page and limit reach the service as those numbers |
| UsersController.SuccessStatus | apps/server/src/user/users.controller.ts:23-70 | 201 exactly for POST, 204 exactly for DELETE, 200 otherwise |
| UsersController.PutIsPatch | apps/server/src/user/users.controller.ts:50-64 | PUT and PATCH make the same `updateUser` call |
| UsersController.ListingThroughInterceptor | apps/server/src/user/users.controller.ts:29-43 | through the response interceptor, the paginated listing passes unchanged and the plain listing is wrapped |
| Text.DecimalRoundTrip | apps/server/src/user/users.controller.ts:36-37 | reading back a rendered natural number gives the number |

## Left out

- Persistence, the network, the async/await chains and the `Promise.all` in `findAll`. The model runs them one after another.
- The race between the duplicate pre-check and the write is not fixed in the model. A concurrent duplicate surfaces as the unique index's 11000 error.
- Logging calls are dropped, including the interceptor's log lines.
- Bootstrap, CORS, dependency injection and the web client are not part of this model.
- `Store.FindAll`: requires `limit > 0`. The code does not say what a zero or negative limit does.
- `Store.FindAll`: a page below 1 is modelled as a driver error, because the skip is negative. That error becomes a `DatabaseException`.
- `populate` and sort orders other than the default newest-first are not modelled.
- `createdAt`/`updatedAt` timestamps are not stored. Newest-first is the reverse of the creation order.
- The internal structure of an ObjectId (timestamp, counter) is not modelled. An id is its 24-digit hexadecimal string, keyed in lower case.
- `DbErrors.IsValidObjectId`: accepts 24 hexadecimal digits only. The 12-character strings that `ObjectId.isValid` also accepts are not modelled.
- Mongoose type casting (a string age cast to a number, say) and CastErrors raised by values are not modelled. The CastError branch is covered as a classifier case.
- `UserSchema.Validate`: the error messages and their order follow Mongoose's defaults as assumed here. They are not taken from its source.
- Update validators run only on the paths the cast patch sets, as `runValidators` does; the schema's other paths are not re-validated.
- UserDto.UpdateBodyPassesSchema: covers bodies without `null` or `undefined` values, because `@IsOptional` lets those through and the validators then refuse them; `UserDto.NullFieldUpdateRejected` states that case.
- Setters are applied to query filters as well as to documents, as Mongoose does for `lowercase` and `trim`.
- The unique index compares values only where both records have the field. Mongo's treatment of missing fields and of array equality is not modelled.
- `Text.ToLower`: maps ASCII letters only. Unicode case mapping beyond ASCII is not modelled.
- `UserDto.IsEmail`: a simplified email check (one `@`, a dotted domain, no white space). class-validator's full rule is not modelled.
- The validation pipe's implicit conversion is not modelled. A body is checked as decoded.
- `UsersController.ListDispatch`: covers decimal-digit query strings only. `parseInt` on other text (`NaN`, signs, trailing characters) is not modelled.
- The live `response.status().json()` call in the exception filter is not modelled; the reply is returned as a value. Exception stacks are not modelled.
- Numbers are integers. Floating point and `NaN` do not occur.
- `Logging.SanitizeBody`: works on values, so the "input is not mutated" property holds by construction and aliasing is not modelled.
