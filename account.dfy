/**
 * The account record mapper and its remote operations: the bulk fetch of
 * all accounts, the retrieval of one account, and create-or-update.
 *
 * The connection is not modelled: each operation takes the events or the
 * callback arguments the connection would deliver and returns what the
 * deferred settles to (and, for writes, the request it sends).
 */
module SalesforceAccount {
  import opened JsValues
  import opened Outcomes
  import FieldCopy

  /**
   * The field transform module, which is not part of this model, as
   * parameters: the per-direction mappability predicates, the name lookups,
   * the value transforms and the birthdate formatter.
   */
  datatype FieldTransforms = FieldTransforms(
    mappableFromSalesforce: string -> bool,
    mappableToSalesforce: string -> bool,
    salesforceToForm: string -> string,
    formToSalesforce: string -> string,
    transformFromSalesforce: (string, Value) -> Value,
    transformForSalesforce: (string, Value) -> Value,
    formattedBirthdate: Value -> Value)

  // ---------------------------------------------------------------------
  // getAllAccounts
  // ---------------------------------------------------------------------

  /** An event emitted by the bulk query stream. */
  datatype StreamEvent = RecordEvent(record: Record) | EndEvent | ErrorEvent(error: Value)

  /** The fixed projection of each fetched account. */
  datatype AccountSummary = AccountSummary(name: string, id: Value, birthdate: Value)

  const FETCH_ERROR_MESSAGE: string := "Error fetching accounts."

  function FetchedMessage(count: nat): string {
    "Successfully fetched " + DecimalString(count) + " accounts!"
  }

  function Summarize(account: Record, t: FieldTransforms): AccountSummary {
    AccountSummary(
      ToJsString(account.Get("FirstName")) + " " + ToJsString(account.Get("LastName")),
      account.Get("Id"),
      t.formattedBirthdate(account.Get("Birthdate__c")))
  }

  /** `accounts.map(...)` */
  function Summaries(accounts: seq<Record>, t: FieldTransforms): seq<AccountSummary> {
    seq(|accounts|, i requires 0 <= i < |accounts| => Summarize(accounts[i], t))
  }

  /** Event `t` is the first `end` or `error`: every earlier event is a record. */
  predicate FirstTerminalAt(events: seq<StreamEvent>, t: int) {
    && 0 <= t < |events|
    && !events[t].RecordEvent?
    && forall i :: 0 <= i < t ==> events[i].RecordEvent?
  }

  /**
   * Feeds the stream's events to the `record`, `end` and `error` handlers.
   * The deferred settles on the first `end` or `error`; later events change
   * nothing it delivers.
   */
  method GetAllAccounts(events: seq<StreamEvent>, t: FieldTransforms)
    returns (settled: Option<Outcome<seq<AccountSummary>>>)
    ensures (forall i :: 0 <= i < |events| ==> events[i].RecordEvent?) ==> settled == None
    ensures forall e :: FirstTerminalAt(events, e) && events[e].EndEvent? ==>
              && settled.Some? && settled.value.Resolved?
              && settled.value.message == FetchedMessage(e)
              && |settled.value.payload| == e
              && forall i :: 0 <= i < e ==> settled.value.payload[i] == Summarize(events[i].record, t)
    ensures forall e :: FirstTerminalAt(events, e) && events[e].ErrorEvent? ==>
              settled == Some(Rejected(FETCH_ERROR_MESSAGE, events[e].error))
  {
    var accounts: seq<Record> := [];
    settled := None;
    var n := 0;
    while n < |events|
      invariant 0 <= n <= |events|
      invariant settled.None? <==> forall i :: 0 <= i < n ==> events[i].RecordEvent?
      invariant settled.None? ==> |accounts| == n && forall i :: 0 <= i < n ==> accounts[i] == events[i].record
      invariant forall e :: e < n && FirstTerminalAt(events, e) && events[e].EndEvent? ==>
                  && settled.Some? && settled.value.Resolved?
                  && settled.value.message == FetchedMessage(e)
                  && |settled.value.payload| == e
                  && forall i :: 0 <= i < e ==> settled.value.payload[i] == Summarize(events[i].record, t)
      invariant forall e :: e < n && FirstTerminalAt(events, e) && events[e].ErrorEvent? ==>
                  settled == Some(Rejected(FETCH_ERROR_MESSAGE, events[e].error))
    {
      match events[n] {
        case RecordEvent(r) =>
          accounts := accounts + [r];
        case EndEvent =>
          if settled.None? {
            settled := Some(Resolved(FetchedMessage(|accounts|), Summaries(accounts, t)));
          }
        case ErrorEvent(error) =>
          if settled.None? {
            settled := Some(Rejected(FETCH_ERROR_MESSAGE, error));
          }
      }
      n := n + 1;
    }
  }

  /** Any stream that contains an `end` or `error` has a first one, so GetAllAccounts settles. */
  lemma {:induction false} FirstTerminalExists(events: seq<StreamEvent>, j: int)
    requires 0 <= j < |events| && !events[j].RecordEvent?
    ensures exists e :: e <= j && FirstTerminalAt(events, e)
    decreases j
  {
    if forall i :: 0 <= i < j ==> events[i].RecordEvent? {
      assert FirstTerminalAt(events, j);
    } else {
      var i :| 0 <= i < j && !events[i].RecordEvent?;
      FirstTerminalExists(events, i);
    }
  }

  /** The success message states the number of accounts it delivers, and no other. */
  lemma FetchedMessageDeterminesCount(m: nat, n: nat)
    requires FetchedMessage(m) == FetchedMessage(n)
    ensures m == n
  {
    var prefix := "Successfully fetched ";
    var suffix := " accounts!";
    assert DecimalString(m) == FetchedMessage(m)[|prefix|..|FetchedMessage(m)| - |suffix|];
    assert DecimalString(n) == FetchedMessage(n)[|prefix|..|FetchedMessage(n)| - |suffix|];
    DecimalStringInjective(m, n);
  }

  // ---------------------------------------------------------------------
  // getAccount
  // ---------------------------------------------------------------------

  /** The inbound filter: `isFieldMappableFromSalesforce(field)`. */
  function InboundKept(t: FieldTransforms): (string, Value) -> bool {
    (field, value) => t.mappableFromSalesforce(field)
  }

  /**
   * `view` is the form-shaped account built from `account`: `id` is the
   * record's `Id`; on every other key, a key is present exactly when some
   * mappable field maps onto it, and it holds that field's transformed value
   * (the last such field's, if several map onto it).
   */
  ghost predicate IsAccountView(account: Record, t: FieldTransforms, view: map<string, Value>) {
    && "id" in view && view["id"] == account.Get("Id")
    && FieldCopy.Copied(account, InboundKept(t), t.salesforceToForm, t.transformFromSalesforce, view, {"id"})
  }

  method GetAccount(id: Value, t: FieldTransforms, error: Value, account: Option<Record>)
    returns (settled: Option<Outcome<map<string, Value>>>)
    ensures Truthy(error) ==> settled == Some(Rejected("Error fetching account " + ToJsString(id) + ".", error))
    ensures !Truthy(error) && account.None? ==> settled == None
    ensures !Truthy(error) && account.Some? ==>
              && settled.Some? && settled.value.Resolved?
              && settled.value.message == "Successfully retrieved account " + ToJsString(id)
              && IsAccountView(account.value, t, settled.value.payload)
  {
    if Truthy(error) {
      settled := Some(Rejected("Error fetching account " + ToJsString(id) + ".", error));
    } else if account.None? {
      // `account.Id` throws inside the callback; the deferred never settles
      settled := None;
    } else {
      var record := account.value;
      var view := FieldCopy.CopyFields(record, InboundKept(t), t.salesforceToForm, t.transformFromSalesforce);
      FieldCopy.CopiedAfterAssignment(record, InboundKept(t), t.salesforceToForm, t.transformFromSalesforce,
                                      view, {}, "id", record.Get("Id"));
      view := view["id" := record.Get("Id")];
      settled := Some(Resolved("Successfully retrieved account " + ToJsString(id), view));
    }
  }

  /**
   * A field contributes to the account view if and only if it is mappable;
   * with distinct form names for the mappable fields, each one appears under
   * its form name with its transformed value, unless that name is `id`.
   */
  lemma AccountViewFields(account: Record, t: FieldTransforms, view: map<string, Value>)
    requires IsAccountView(account, t, view)
    requires account.DistinctKeys()
    requires forall f, g ::
               (f in account.keys && g in account.keys && t.mappableFromSalesforce(f) && t.mappableFromSalesforce(g)
                && t.salesforceToForm(f) == t.salesforceToForm(g)) ==> f == g
    ensures forall k :: k != "id" ==>
              (k in view <==> exists f :: f in account.keys && t.mappableFromSalesforce(f) && t.salesforceToForm(f) == k)
    ensures forall f :: f in account.keys && t.mappableFromSalesforce(f) && t.salesforceToForm(f) != "id" ==>
              t.salesforceToForm(f) in view
              && view[t.salesforceToForm(f)] == t.transformFromSalesforce(f, account.Get(f))
    ensures view["id"] == account.Get("Id")
  {
  }

  // ---------------------------------------------------------------------
  // createAccount, updateAccount, createOrUpdateAccount
  // ---------------------------------------------------------------------

  /** The request createOrUpdateAccount sends to the connection. */
  datatype WriteRequest = Create(payload: map<string, Value>) | Update(payload: map<string, Value>)

  const CREATE_FAILURE: string := "Error creating account."
  const CREATE_SUCCESS: string := "Successfully created account "
  const UPDATE_FAILURE: string := "Error updating account."
  const UPDATE_SUCCESS: string := "Successfully updated account "

  /** The settlement of the create callback `(error, account)`. */
  function CreateAccount(error: Value, reply: Value): (r: Option<Outcome<Value>>)
    ensures WriteSettlement(error, reply, CREATE_FAILURE, CREATE_SUCCESS, r)
  {
    ClassifyWrite(error, reply, CREATE_FAILURE, CREATE_SUCCESS)
  }

  /** The settlement of the update callback `(error, account)`. */
  function UpdateAccount(error: Value, reply: Value): (r: Option<Outcome<Value>>)
    ensures WriteSettlement(error, reply, UPDATE_FAILURE, UPDATE_SUCCESS, r)
  {
    ClassifyWrite(error, reply, UPDATE_FAILURE, UPDATE_SUCCESS)
  }

  /** The outbound filter: `isFieldMappableToSalesforce(field) && fields[field] != null`. */
  function OutboundKept(t: FieldTransforms): (string, Value) -> bool {
    (field, value) => t.mappableToSalesforce(field) && !IsNullish(value)
  }

  /**
   * `payload` is what the outbound loop builds from `fields`, on every key
   * outside `reserved`.
   */
  ghost predicate IsOutboundPayload(fields: Record, t: FieldTransforms, payload: map<string, Value>, reserved: set<string>) {
    FieldCopy.Copied(fields, OutboundKept(t), t.formToSalesforce, t.transformForSalesforce, payload, reserved)
  }

  /**
   * Builds the outbound payload, then updates when `id` is truthy (with `Id`
   * set on the payload) and creates otherwise; `error` and `reply` are the
   * arguments the connection passes to the callback of that request.
   */
  method CreateOrUpdateAccount(id: Value, fields: Record, t: FieldTransforms, error: Value, reply: Value)
    returns (request: WriteRequest, settled: Option<Outcome<Value>>)
    ensures Truthy(id) ==>
              && request.Update?
              && "Id" in request.payload && request.payload["Id"] == id
              && IsOutboundPayload(fields, t, request.payload, {"Id"})
              && settled == UpdateAccount(error, reply)
    ensures !Truthy(id) ==>
              && request.Create?
              && IsOutboundPayload(fields, t, request.payload, {})
              && settled == CreateAccount(error, reply)
  {
    var payload := FieldCopy.CopyFields(fields, OutboundKept(t), t.formToSalesforce, t.transformForSalesforce);
    if Truthy(id) {
      FieldCopy.CopiedAfterAssignment(fields, OutboundKept(t), t.formToSalesforce, t.transformForSalesforce,
                                      payload, {}, "Id", id);
      payload := payload["Id" := id];
      request := Update(payload);
      settled := UpdateAccount(error, reply);
    } else {
      request := Create(payload);
      settled := CreateAccount(error, reply);
    }
  }

  /**
   * The outbound payload carries a key exactly when some field that is
   * mappable to Salesforce and not null or undefined maps onto it: null and
   * undefined fields are never sent.
   */
  lemma OutboundPayloadKeys(fields: Record, t: FieldTransforms, payload: map<string, Value>, reserved: set<string>)
    requires IsOutboundPayload(fields, t, payload, reserved)
    ensures forall k :: k !in reserved ==>
              (k in payload <==> exists f :: f in fields.keys && t.mappableToSalesforce(f) && !IsNullish(fields.Get(f))
                                            && t.formToSalesforce(f) == k)
  {
  }
}
