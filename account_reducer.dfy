/**
 * The account slice of the client's store: the action creators and the
 * reducer that dispatches on the action's type through a handler table.
 * Every handler builds a new state by spreading the old one and overriding
 * some fields; a type without a handler leaves the state as it is.
 */
module AccountReducer {
  import opened JsValues

  const FETCH_ACCOUNTS_REQUEST: string := "FETCH_ACCOUNTS_REQUEST"
  const FETCH_ACCOUNTS_SUCCESS: string := "FETCH_ACCOUNTS_SUCCESS"
  const FETCH_ACCOUNTS_FAILURE: string := "FETCH_ACCOUNTS_FAILURE"
  const LOAD_ACCOUNT_DATA_REQUEST: string := "LOAD_ACCOUNT_DATA_REQUEST"
  const LOAD_ACCOUNT_DATA_SUCCESS: string := "LOAD_ACCOUNT_DATA_SUCCESS"
  const LOAD_ACCOUNT_DATA_FAILURE: string := "LOAD_ACCOUNT_DATA_FAILURE"

  /** An action object: its `type`, and its `payload` and `error` properties (`undefined` when absent). */
  datatype Action = Action(kind: string, payload: Value, error: Value)

  /**
   * The slice's state. `error` is `None` while the state has no `error`
   * property at all, as in the initial state.
   */
  datatype AccountState = AccountState(accounts: Value, currentAccount: Value, fetching: bool, error: Option<Value>)

  const INITIAL_STATE: AccountState := AccountState(Array([]), Null, false, None)

  // ---------------------------------------------------------------------
  // Action creators
  // ---------------------------------------------------------------------

  /** Routed to the fetch-request handler; it carries nothing else. */
  function FetchAccountsRequest(): (a: Action)
    ensures a.kind in ACCOUNT_ACTION_HANDLERS && ACCOUNT_ACTION_HANDLERS[a.kind] == FetchRequest
    ensures a.payload == Undefined && a.error == Undefined
  {
    Action(FETCH_ACCOUNTS_REQUEST, Undefined, Undefined)
  }

  /** Routed to the fetch-failure handler, carrying the thrown value as its `error`. */
  function FetchAccountsFailure(error: Value): (a: Action)
    ensures a.kind in ACCOUNT_ACTION_HANDLERS && ACCOUNT_ACTION_HANDLERS[a.kind] == FetchFailure
    ensures a.error == error && a.payload == Undefined
  {
    Action(FETCH_ACCOUNTS_FAILURE, Undefined, error)
  }

  function LoadAccountDataRequest(id: Value): Action {
    Action(LOAD_ACCOUNT_DATA_REQUEST, Object(map["id" := id]), Undefined)
  }

  /** Reads `data.account`, so it throws when `data` is null or undefined. */
  function LoadAccountDataSuccess(data: Value): Result<Action> {
    match Prop(data, "account")
    case TypeError => TypeError
    case Ok(account) => Ok(Action(LOAD_ACCOUNT_DATA_SUCCESS, Object(map["account" := account]), Undefined))
  }

  /** Routed to the load-failure handler, carrying the thrown value as its `error`. */
  function LoadAccountDataFailure(error: Value): (a: Action)
    ensures a.kind in ACCOUNT_ACTION_HANDLERS && ACCOUNT_ACTION_HANDLERS[a.kind] == LoadFailure
    ensures a.error == error && a.payload == Undefined
  {
    Action(LOAD_ACCOUNT_DATA_FAILURE, Undefined, error)
  }

  // ---------------------------------------------------------------------
  // Handlers and reducer
  // ---------------------------------------------------------------------

  datatype Handler = FetchRequest | FetchSuccess | FetchFailure | LoadRequest | LoadSuccess | LoadFailure

  const ACCOUNT_ACTION_HANDLERS: map<string, Handler> := map[
    FETCH_ACCOUNTS_REQUEST := FetchRequest,
    FETCH_ACCOUNTS_SUCCESS := FetchSuccess,
    FETCH_ACCOUNTS_FAILURE := FetchFailure,
    LOAD_ACCOUNT_DATA_REQUEST := LoadRequest,
    LOAD_ACCOUNT_DATA_SUCCESS := LoadSuccess,
    LOAD_ACCOUNT_DATA_FAILURE := LoadFailure]

  function Handle(handler: Handler, state: AccountState, action: Action): Result<AccountState> {
    match handler
    case FetchRequest => Ok(state.(accounts := Array([]), fetching := true))
    case FetchSuccess =>
      (match Prop(action.payload, "accounts")
       case TypeError => TypeError
       case Ok(accounts) => Ok(state.(accounts := accounts, fetching := false)))
    case FetchFailure =>
      (match Prop(action.error, "message")
       case TypeError => TypeError
       case Ok(message) => Ok(state.(error := Some(message), fetching := false)))
    case LoadRequest => Ok(state.(currentAccount := Null, fetching := true))
    case LoadSuccess =>
      (match Prop(action.payload, "account")
       case TypeError => TypeError
       case Ok(account) => Ok(state.(currentAccount := account, fetching := false)))
    case LoadFailure =>
      (match Prop(action.error, "message")
       case TypeError => TypeError
       case Ok(message) => Ok(state.(error := Some(message), fetching := false)))
  }

  /** The state the reducer starts from: `state = initialState` when no state is given. */
  function Current(state: Option<AccountState>): AccountState {
    if state.Some? then state.value else INITIAL_STATE
  }

  /** Both failure handlers: the error's message is recorded and fetching stops; the data is untouched. */
  ghost predicate RecordsFailure(before: AccountState, action: Action, r: Result<AccountState>) {
    && (r.TypeError? <==> IsNullish(action.error))
    && (r.Ok? ==>
          && r.value.error.Some? && Prop(action.error, "message") == Ok(r.value.error.value)
          && !r.value.fetching
          && r.value.accounts == before.accounts
          && r.value.currentAccount == before.currentAccount)
  }

  /** `accountReducer(state, action)` */
  function Reduce(state: Option<AccountState>, action: Action): (r: Result<AccountState>)
    ensures action.kind !in ACCOUNT_ACTION_HANDLERS ==> r == Ok(Current(state))
    ensures action.kind == FETCH_ACCOUNTS_REQUEST ==>
              && r.Ok? && r.value.accounts == Array([]) && r.value.fetching
              && r.value.currentAccount == Current(state).currentAccount && r.value.error == Current(state).error
    ensures action.kind == FETCH_ACCOUNTS_SUCCESS ==>
              && (r.TypeError? <==> IsNullish(action.payload))
              && (r.Ok? ==>
                    && Prop(action.payload, "accounts") == Ok(r.value.accounts) && !r.value.fetching
                    && r.value.currentAccount == Current(state).currentAccount && r.value.error == Current(state).error)
    ensures action.kind == FETCH_ACCOUNTS_FAILURE || action.kind == LOAD_ACCOUNT_DATA_FAILURE ==>
              RecordsFailure(Current(state), action, r)
    ensures action.kind == LOAD_ACCOUNT_DATA_REQUEST ==>
              && r.Ok? && r.value.currentAccount == Null && r.value.fetching
              && r.value.accounts == Current(state).accounts && r.value.error == Current(state).error
    ensures action.kind == LOAD_ACCOUNT_DATA_SUCCESS ==>
              && (r.TypeError? <==> IsNullish(action.payload))
              && (r.Ok? ==>
                    && Prop(action.payload, "account") == Ok(r.value.currentAccount) && !r.value.fetching
                    && r.value.accounts == Current(state).accounts && r.value.error == Current(state).error)
  {
    if action.kind in ACCOUNT_ACTION_HANDLERS then Handle(ACCOUNT_ACTION_HANDLERS[action.kind], Current(state), action)
    else Ok(Current(state))
  }

  // ---------------------------------------------------------------------
  // Action creators meet the reducer
  // ---------------------------------------------------------------------

  /** Without a state, the reducer starts from the empty, idle state with no error property. */
  lemma MissingStateIsInitialState(action: Action)
    ensures Reduce(None, action) == Reduce(Some(INITIAL_STATE), action)
    ensures INITIAL_STATE.accounts == Array([]) && INITIAL_STATE.currentAccount == Null
    ensures !INITIAL_STATE.fetching && INITIAL_STATE.error == None
  {
  }

  lemma FetchAccountsRequestStartsFetching(state: Option<AccountState>)
    ensures Reduce(state, FetchAccountsRequest()) == Ok(Current(state).(accounts := Array([]), fetching := true))
  {
  }

  /**
   * Both failure creators put the thrown value under `error`; the reducer
   * records its message and stops fetching, and throws when the value is null
   * or undefined.
   */
  lemma FailureCreatorsRecordMessage(state: Option<AccountState>, error: Value)
    ensures RecordsFailure(Current(state), FetchAccountsFailure(error), Reduce(state, FetchAccountsFailure(error)))
    ensures RecordsFailure(Current(state), LoadAccountDataFailure(error), Reduce(state, LoadAccountDataFailure(error)))
    ensures Reduce(state, FetchAccountsFailure(error)) == Reduce(state, LoadAccountDataFailure(error))
  {
  }

  /** The request carries the id under `payload.id`, and clears the current account while fetching. */
  lemma LoadAccountDataRequestClearsCurrent(state: Option<AccountState>, id: Value)
    ensures Prop(LoadAccountDataRequest(id).payload, "id") == Ok(id)
    ensures Reduce(state, LoadAccountDataRequest(id)) == Ok(Current(state).(currentAccount := Null, fetching := true))
  {
  }

  /** Loading succeeds into `currentAccount == data.account`; the creator throws when `data` is null or undefined. */
  lemma LoadAccountDataSuccessSetsCurrent(state: Option<AccountState>, data: Value)
    ensures LoadAccountDataSuccess(data).TypeError? <==> IsNullish(data)
    ensures !IsNullish(data) ==>
              Reduce(state, LoadAccountDataSuccess(data).value)
                == Ok(Current(state).(currentAccount := Prop(data, "account").value, fetching := false))
  {
  }
}
