/**
 * The event-registration record mapper: building the create payload from a
 * list of applied form fields, and reading one registration back.
 */
module SalesforceEventRegistration {
  import opened JsValues
  import opened Outcomes
  import FieldCopy

  /**
   * The constants modules, which are not part of this model, as parameters:
   * the form-field to Salesforce-field table, the "applied" picklist value,
   * the fixed event id, and the names `Account` and `PhcEvent` that the read
   * filter excludes.
   */
  datatype RegistrationConstants = RegistrationConstants(
    formToSalesforce: map<string, string>,
    applied: Value,
    phcEventId: Value,
    accountName: string,
    phcEventName: string)

  const ACCOUNT_KEY: string := "Account__c"
  const EVENT_KEY: string := "PHC_Event__c"
  const CREATE_FAILURE: string := "Error creating registration."
  const CREATE_SUCCESS: string := "Successfully created registration "

  // ---------------------------------------------------------------------
  // createEventRegistration
  // ---------------------------------------------------------------------

  /**
   * Builds the payload (each listed field found in the table sets its
   * Salesforce field to APPLIED; then the two foreign keys are assigned),
   * and classifies the create callback `(error, reply)`. The function has no
   * `return` statement: what it hands its caller is `undefined`, and the
   * settlement stays inside the unreturned deferred.
   */
  method CreateEventRegistration(accountId: Value, fields: seq<string>, c: RegistrationConstants,
                                 error: Value, reply: Value)
    returns (payload: map<string, Value>, returned: Value, settled: Option<Outcome<Value>>)
    ensures forall k :: k in payload <==>
              || k == ACCOUNT_KEY || k == EVENT_KEY
              || exists i :: 0 <= i < |fields| && fields[i] in c.formToSalesforce && c.formToSalesforce[fields[i]] == k
    ensures ACCOUNT_KEY in payload && payload[ACCOUNT_KEY] == accountId
    ensures EVENT_KEY in payload && payload[EVENT_KEY] == c.phcEventId
    ensures forall k :: k in payload && k != ACCOUNT_KEY && k != EVENT_KEY ==> payload[k] == c.applied
    ensures returned == Undefined
    ensures WriteSettlement(error, reply, CREATE_FAILURE, CREATE_SUCCESS, settled)
  {
    payload := map[];
    var n := 0;
    while n < |fields|
      invariant 0 <= n <= |fields|
      invariant forall k :: k in payload <==>
                  exists i :: 0 <= i < n && fields[i] in c.formToSalesforce && c.formToSalesforce[fields[i]] == k
      invariant forall k :: k in payload ==> payload[k] == c.applied
    {
      var field := fields[n];
      if field in c.formToSalesforce {
        payload := payload[c.formToSalesforce[field] := c.applied];
      }
      n := n + 1;
    }
    payload := payload[ACCOUNT_KEY := accountId];
    payload := payload[EVENT_KEY := c.phcEventId];
    settled := ClassifyWrite(error, reply, CREATE_FAILURE, CREATE_SUCCESS);
    returned := Undefined;
  }

  // ---------------------------------------------------------------------
  // getEventRegistration
  // ---------------------------------------------------------------------

  predicate EndsWith(s: string, suffix: string) {
    |suffix| <= |s| && s[|s| - |suffix|..] == suffix
  }

  /** The fixed read filter: a custom field that is neither a time field nor one of the two references. */
  predicate IsRegistrationAttribute(name: string, c: RegistrationConstants) {
    && EndsWith(name, "__c")
    && !EndsWith(name, "_Time__c")
    && name != c.accountName
    && name != c.phcEventName
  }

  function AttributeKept(c: RegistrationConstants): (string, Value) -> bool {
    (attribute, value) => IsRegistrationAttribute(attribute, c)
  }

  const SameName: string -> string := attribute => attribute

  const SameValue: (string, Value) -> Value := (attribute, value) => value

  /**
   * `view` is the registration read back from `record`: its keys are `id`
   * and the registration attributes, each attribute keeps its own value, and
   * `id` is the record's `Id`.
   */
  ghost predicate IsRegistrationView(record: Record, c: RegistrationConstants, view: map<string, Value>) {
    && (forall k :: k in view <==> k == "id" || (k in record.keys && IsRegistrationAttribute(k, c)))
    && view["id"] == record.Get("Id")
    && (forall k :: k in record.keys && IsRegistrationAttribute(k, c) ==> view[k] == record.Get(k))
  }

  method GetEventRegistration(id: Value, c: RegistrationConstants, error: Value, registration: Option<Record>)
    returns (settled: Option<Outcome<map<string, Value>>>)
    ensures Truthy(error) ==>
              settled == Some(Rejected("Error fetching event registration " + ToJsString(id) + ".", error))
    ensures !Truthy(error) && registration.None? ==> settled == None
    ensures !Truthy(error) && registration.Some? ==>
              && settled.Some? && settled.value.Resolved?
              && settled.value.message == "Successfully retrieved event registration " + ToJsString(id)
              && IsRegistrationView(registration.value, c, settled.value.payload)
  {
    if Truthy(error) {
      settled := Some(Rejected("Error fetching event registration " + ToJsString(id) + ".", error));
    } else if registration.None? {
      // `eventRegistration.Id` throws inside the callback; the deferred never settles
      settled := None;
    } else {
      var record := registration.value;
      var view := FieldCopy.CopyFields(record, AttributeKept(c), SameName, SameValue);
      FieldCopy.CopiedAfterAssignment(record, AttributeKept(c), SameName, SameValue, view, {}, "id", record.Get("Id"));
      FieldCopy.IdentityCopy(record, AttributeKept(c), SameName, SameValue, view, {});
      view := view["id" := record.Get("Id")];
      forall k | k in record.keys && IsRegistrationAttribute(k, c)
        ensures view[k] == record.Get(k)
      {
        var i :| 0 <= i < |record.keys| && record.keys[i] == k;
        assert FieldCopy.Kept(record, AttributeKept(c), i);
        assert k != "id";
      }
      forall k
        ensures k in view <==> k == "id" || (k in record.keys && IsRegistrationAttribute(k, c))
      {
        if k != "id" && k in view {
          var i :| 0 <= i < |record.keys| && FieldCopy.Kept(record, AttributeKept(c), i) && record.keys[i] == k;
        }
        if k != "id" && k in record.keys && IsRegistrationAttribute(k, c) {
          var i :| 0 <= i < |record.keys| && record.keys[i] == k;
          assert FieldCopy.Kept(record, AttributeKept(c), i);
        }
      }
      settled := Some(Resolved("Successfully retrieved event registration " + ToJsString(id), view));
    }
  }

  /**
   * The view never carries a time field, and every key other than `id` is a
   * custom field that is neither of the two references.
   */
  lemma RegistrationViewKeys(record: Record, c: RegistrationConstants, view: map<string, Value>)
    requires IsRegistrationView(record, c, view)
    ensures "id" in view
    ensures forall k :: k in view ==> !EndsWith(k, "_Time__c")
    ensures forall k :: k in view && k != "id" ==>
              EndsWith(k, "__c") && k != c.accountName && k != c.phcEventName && k in record.keys
  {
  }
}
