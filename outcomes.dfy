/**
 * The uniform result of every remote operation: a deferred that either
 * resolves with a message and a payload or rejects with a message and the
 * error value. A callback that throws before settling leaves the deferred
 * pending; the model writes that as `None`.
 */
module Outcomes {
  import opened JsValues

  datatype Outcome<+P> = Resolved(message: string, payload: P) | Rejected(message: string, error: Value)

  /**
   * What a create or update callback `(error, reply)` settles to:
   * - it rejects with `failure` and the callback's `error` (which may itself
   *   be falsy) when `error` is truthy or `reply.success` is falsy;
   * - it throws, and stays pending, when there is no error and no reply;
   * - otherwise it resolves with `success + reply.id + "."` and `reply.id`.
   */
  ghost predicate WriteSettlement(error: Value, reply: Value, failure: string, success: string,
                                  r: Option<Outcome<Value>>)
  {
    && (r.None? <==> !Truthy(error) && IsNullish(reply))
    && (r.Some? && r.value.Rejected? <==> Truthy(error) || ReadsFalsy(reply, "success"))
    && (r.Some? && r.value.Rejected? ==> r.value == Rejected(failure, error))
    && (r.Some? && r.value.Resolved? ==>
          && Prop(reply, "id") == Ok(r.value.payload)
          && r.value.message == success + ToJsString(r.value.payload) + ".")
  }

  /** The `error || !reply.success` test shared by the create and update callbacks. */
  function ClassifyWrite(error: Value, reply: Value, failure: string, success: string): (r: Option<Outcome<Value>>)
    ensures WriteSettlement(error, reply, failure, success, r)
  {
    if Truthy(error) then Some(Rejected(failure, error))
    else
      match Prop(reply, "success")
      case TypeError => None
      case Ok(ok) =>
        if !Truthy(ok) then Some(Rejected(failure, error))
        else
          var id := Prop(reply, "id").value;
          Some(Resolved(success + ToJsString(id) + ".", id))
  }

  /** The classification leaves no freedom: at most one settlement meets it. */
  lemma WriteSettlementIsFunctional(error: Value, reply: Value, failure: string, success: string,
                                    r1: Option<Outcome<Value>>, r2: Option<Outcome<Value>>)
    requires WriteSettlement(error, reply, failure, success, r1)
    requires WriteSettlement(error, reply, failure, success, r2)
    ensures r1 == r2
  {
  }
}
