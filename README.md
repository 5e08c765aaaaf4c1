# Salesforce record mapping and account store, in Dafny

This project models the record-mapping layer of the PHC intake server, which
sits between the intake form's flat field names and the Salesforce CRM schema,
and the account slice of the client's Redux store:

- **Account mapper** (`account.dfy`, module `SalesforceAccount`). It covers the
  bulk fetch of all accounts as a fold over the query stream's `record`, `end` and
  `error` events. It covers retrieving one account into a form-shaped map. It
  covers building the outbound payload and choosing between create and update.
  It also covers how the create and update callbacks settle the deferred.
- **Event-registration mapper** (`event_registration.dfy`, module
  `SalesforceEventRegistration`). It builds the registration payload from the
  applied form fields and the two fixed foreign keys. It reads a registration
  back through the fixed `__c` attribute filter. As in the code,
  `createEventRegistration` has no `return` statement. Its caller receives
  `undefined`, and the settlement it computes stays inside a deferred that
  nobody holds. The model shows exactly that.
- **Account reducer** (`account_reducer.dfy`, module `AccountReducer`). It
  models the handler table, the reducer, the initial state and the action
  creators.

Shared pieces:

- `js_values.dfy` (`JsValues`) models JavaScript values. It covers truthiness,
  loose `== null`, property reads that throw on `null`/`undefined`, string
  coercion, and records as key sequences in for-in order.
- `outcomes.dfy` (`Outcomes`) holds the resolved/rejected outcome and the
  `error || !reply.success` classification shared by all create and update
  callbacks.
- `field_copy.dfy` (`FieldCopy`) holds the for-in filter-rename-convert loop
  that three mappers share. Its specification is last-writer-wins: a key is
  present exactly when some kept field is renamed onto it, and it holds the
  converted value of the last such field.

How the environment is represented:

- The connection is not called. Each operation takes what the connection would
  deliver as inputs: the stream's events, or the callback's `(error, reply)`.
- Each operation returns what the deferred settles to as `Option<Outcome<P>>`,
  where `None` means the deferred stays pending. For the callback operations
  (`GetAccount`, `GetEventRegistration` and the create and update
  classifications) `None` means the callback threw before settling. This
  happens when there is no error and no reply, because `account.Id`,
  `eventRegistration.Id` or `reply.success` is then read from `undefined`.
- For the bulk fetch (`GetAllAccounts`) no callback throws. There `None` means
  the stream delivered neither an `end` nor an `error` event.
- The transform, date and constants modules are not part of this model. Their
  predicates, lookups, transforms, birthdate formatter and constants are
  parameters (`FieldTransforms`, `RegistrationConstants`). No format or table
  contents are assumed.

Modelling notes:

- `createEventRegistration` has no `return` statement, so the model returns
  `Undefined` to its caller.
- The name lookups are total parameters. The code only calls them on fields
  that passed the mappability test (server/lib/salesforce/account/index.js:76-77
  and 159-160).

## Model

| member | source | states |
|---|---|---|
| `SalesforceAccount.GetAllAccounts` | server/lib/salesforce/account/index.js:19-54 | With no `end`/`error` the deferred stays pending. If the first terminal event is `end` at position e, it resolves with "Successfully fetched e accounts!" and exactly e summaries in arrival order, each `{FirstName + " " + LastName, Id, formatted Birthdate__c}`. If it is `error`, it rejects with "Error fetching accounts." and that error, with no accounts. |
| `SalesforceAccount.FirstTerminalExists` | server/lib/salesforce/account/index.js:28-51 | Every stream containing an `end` or `error` has a first one, so the cases of GetAllAccounts cover every stream. |
| `SalesforceAccount.FetchedMessageDeterminesCount` | server/lib/salesforce/account/index.js:31 | Two success messages are equal only for equal counts: the message states the count. |
| `JsValues.DecimalStringRoundTrip` | server/lib/salesforce/account/index.js:31 | The numeral that string concatenation writes for a count reads back as that count. |
| `SalesforceAccount.GetAccount` | server/lib/salesforce/account/index.js:56-93 | A truthy error rejects with "Error fetching account <id>." and the error. No error and no record leaves it pending. Otherwise it resolves with "Successfully retrieved account <id>" and a view whose `id` is the record's `Id`. On every other key, that key is present iff some mappable field maps onto it, holding the transformed value of the last such field. |
| `SalesforceAccount.AccountViewFields` | server/lib/salesforce/account/index.js:71-83 | A field contributes iff `isFieldMappableFromSalesforce` holds. With distinct form names, each mappable field appears under its form name with its transformed value, except where that name is `id`, which is always the record's `Id`. |
| `SalesforceAccount.CreateAccount` | server/lib/salesforce/account/index.js:95-122 | Rejects with "Error creating account." and the callback's error (possibly falsy) iff the error is truthy or `success` is falsy. With neither error nor reply it stays pending. Otherwise it resolves with payload `reply.id` and "Successfully created account <id>.". |
| `SalesforceAccount.UpdateAccount` | server/lib/salesforce/account/index.js:124-151 | The same classification, with "Error updating account." and "Successfully updated account <id>.". |
| `SalesforceAccount.CreateOrUpdateAccount` | server/lib/salesforce/account/index.js:153-172 | A truthy id sends an update whose payload has `Id` equal to the id. Any other id sends a create, with no `Id` added. On all other keys the payload is what the outbound loop builds. The settlement is the update or create classification of the callback. |
| `SalesforceAccount.OutboundPayloadKeys` | server/lib/salesforce/account/index.js:158-164 | The outbound payload has key k iff some field that is mappable to Salesforce, with a value that is neither null nor undefined, maps onto k. |
| `Outcomes.ClassifyWrite` | server/lib/salesforce/account/index.js:103-117 | The shared test (a truthy error, or a falsy `reply.success`) meets the write-settlement specification: rejected, pending or resolved as stated for CreateAccount. |
| `Outcomes.WriteSettlementIsFunctional` | server/lib/salesforce/account/index.js:132-146 | The write-settlement specification determines the settlement uniquely, so its rejected/pending/resolved cases are exhaustive and exclusive. |
| `FieldCopy.CopyFields` | server/lib/salesforce/account/index.js:75-81 | The for-in loop produces a map where a key is present iff some kept field is renamed onto it, and it holds the converted value of the last such field. |
| `FieldCopy.CopiedAfterAssignment` | server/lib/salesforce/account/index.js:83 | Assigning a key after the loop leaves the copy intact on every other key. |
| `FieldCopy.LastWriterExists` | server/lib/salesforce/account/index.js:158-164 | Every kept field is either the last writer of its key or is overwritten by a later kept field that is. |
| `FieldCopy.InjectiveCopy` | server/lib/salesforce/account/index.js:75-81 | With distinct field names and a renaming that merges no kept fields, every kept field lands under its renamed key with its converted value. |
| `FieldCopy.IdentityCopy` | server/lib/salesforce/event-registration/index.js:71-80 | Without renaming, every kept field is copied under its own name with its own value. |
| `SalesforceEventRegistration.CreateEventRegistration` | server/lib/salesforce/event-registration/index.js:14-50 | The payload keys are exactly `Account__c`, `PHC_Event__c` and the table's image of the listed fields found in the table. `Account__c` is the account id and `PHC_Event__c` is PHC_EVENT_ID, overriding the loop. Every other key holds APPLIED. The caller receives `undefined`. The internal settlement follows the write classification with "Error creating registration." / "Successfully created registration <id>.". |
| `SalesforceEventRegistration.GetEventRegistration` | server/lib/salesforce/event-registration/index.js:52-92 | A truthy error rejects with "Error fetching event registration <id>." and the error. No error and no record leaves it pending. Otherwise the view's keys are exactly `id` and the attributes ending in `__c`, not ending in `_Time__c`, and different from `Account` and `PhcEvent`. Those attributes keep their values, and `id` is the record's `Id`. |
| `SalesforceEventRegistration.RegistrationViewKeys` | server/lib/salesforce/event-registration/index.js:71-80 | A resolved registration view always has `id`, never carries a `_Time__c` field, and every other key is an attribute of the record ending in `__c` that is neither the `Account` nor the `PhcEvent` reference. |
| `AccountReducer.Reduce` | src/routes/Account/modules/account.js:94-122 | A type without a handler returns the state unchanged. Each handled type sets exactly its fields and keeps the others. It throws exactly when the payload or error it reads is null/undefined. |
| `AccountReducer.FetchAccountsRequest` | src/routes/Account/modules/account.js:18-22 | The action is routed to the fetch-request handler and carries no payload and no error. |
| `AccountReducer.FetchAccountsFailure` | src/routes/Account/modules/account.js:33-38 | The action is routed to the fetch-failure handler and carries the thrown value as its `error`. |
| `AccountReducer.LoadAccountDataFailure` | src/routes/Account/modules/account.js:58-63 | The action is routed to the load-failure handler and carries the thrown value as its `error`. |
| `AccountReducer.MissingStateIsInitialState` | src/routes/Account/modules/account.js:118-121 | Without a state the reducer starts from accounts `[]`, currentAccount `null`, fetching `false` and no error property. |
| `AccountReducer.FetchAccountsRequestStartsFetching` | src/routes/Account/modules/account.js:95-97 | The request action empties `accounts` and sets `fetching`, leaving the rest unchanged. |
| `AccountReducer.FailureCreatorsRecordMessage` | src/routes/Account/modules/account.js:101-112 | Both failure creators lead to `error` = `action.error.message` and `fetching` false, with accounts and currentAccount untouched. The reducer throws when the error is null/undefined, and the two failures act alike. |
| `AccountReducer.LoadAccountDataRequestClearsCurrent` | src/routes/Account/modules/account.js:40-47 | The request carries `payload.id` = id. Reducing it sets currentAccount to null and fetching to true. |
| `AccountReducer.LoadAccountDataSuccessSetsCurrent` | src/routes/Account/modules/account.js:49-56 | The creator throws iff data is null/undefined. Otherwise reducing sets currentAccount to `data.account` and fetching to false. |

## Left out

- The Q deferred mechanics, the jsforce connection calls (bulk query, retrieve, create, update) and every logger call. Stream events and callback arguments are inputs instead.
- The bodies of the transform, date and constants modules, which are not part of this model. They are parameters, and nothing about their formats or tables is assumed. An exception they might throw is not modelled.
- The thunks `fetchAccounts` and `loadAccountData` (src/routes/Account/modules/account.js:65-87). They perform network `fetch`, dispatch and router navigation.
- `fetchAccountsRequest` is modelled, but `fetchAccountsSuccess` is not: it reads the undeclared `records` and so always throws, with no payload to state.
- src/store/reducers.js, which is store wiring with form normalizers that are not part of this model.
- Ordering, racing, cancellation and timeouts across independent calls. These are concurrency concerns with no logic in these files.
- Numbers are integers. NaN, fractions, `-0` and exponent notation in string coercion are not modelled.
- Property reads on primitives give `undefined`, so prototype properties such as `length` are not modelled. The `in` tests and the handler-table lookup see only own keys: `Object.prototype` names such as `toString` are not modelled.
- For-in visits the record's own properties in the order given by `Record.keys`. Inherited enumerable properties are not modelled.
- SalesforceEventRegistration.CreateEventRegistration: `fields` is a sequence of strings. A `null`, `undefined` or non-iterable `fields` makes the `for...of` loop (server/lib/salesforce/event-registration/index.js:19) throw to the caller, and the `in` test's coercion of non-string entries is not modelled either.
- AccountReducer.Reduce: the state is absent or a four-field state. An explicit `null` state is not replaced by the default (src/routes/Account/modules/account.js:119). Every handler would spread it to a state holding only the fields it sets, and an unknown type would return `null` itself; neither is modelled.
- SalesforceAccount.GetAllAccounts: every streamed record is an object. A `null` record makes `account.FirstName` throw in the `end` handler (server/lib/salesforce/account/index.js:37), which leaves the deferred pending; that case is not modelled.
- A retrieved record is an object or absent. A callback reply that is some other primitive is not modelled for retrieval.
- Built payloads are maps, so the insertion order of the output object's keys is not modelled.
- The reducer state has exactly the four fields. Extra keys a store might hydrate are not modelled.
