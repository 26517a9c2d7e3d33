/**
 * The card slice of the application store: one action creator and a reducer
 * that dispatches on the action type through a table of handlers.  JavaScript
 * objects are modelled as maps from property names to values.
 */
module Card {
  import opened Options

  /** A JSON-like JavaScript value. */
  datatype Value =
    | Null
    | Bool(b: bool)
    | Num(n: int)
    | Str(s: string)
    | Arr(items: seq<Value>)
    | Obj(fields: map<string, Value>)

  /** The card state: an object's own properties. */
  type State = map<string, Value>

  datatype Action = Action(actionType: string, payload: Value)

  const CardBackContentChange: string := "CARD_BACK_CONTENT_CHANGE"

  const InitialState: State := map["placeholders" := Arr([]), "backContentRaw" := Arr([])]

  /** The action creator; an omitted payload defaults to the empty object. */
  function UpdateBackContent(payload: Option<Value>): (a: Action)
    ensures a.actionType == CardBackContentChange
    ensures payload.Some? ==> a.payload == payload.value
    ensures payload.None? ==> a.payload == Obj(map[])
  {
    Action(CardBackContentChange, payload.GetOr(Obj(map[])))
  }

  /** `{ ...state, backContent: action.payload }` */
  function HandleBackContentChange(state: State, action: Action): (r: State)
    ensures "backContent" in r && r["backContent"] == action.payload
    ensures forall k :: k != "backContent" ==> (k in r <==> k in state)
    ensures forall k :: k != "backContent" && k in state ==> r[k] == state[k]
  {
    state["backContent" := action.payload]
  }

  const ActionHandlers: map<string, (State, Action) -> State> :=
    map[CardBackContentChange := HandleBackContentChange]

  /**
   * An absent state starts from `InitialState`; an action with a handler is
   * handed to it, any other action leaves the state as it is.
   */
  function Reducer(state: Option<State>, action: Action): (r: State)
    ensures action.actionType != CardBackContentChange ==> r == state.GetOr(InitialState)
    ensures action.actionType == CardBackContentChange ==>
              "backContent" in r && r["backContent"] == action.payload
    ensures action.actionType == CardBackContentChange ==>
              forall k :: k != "backContent" ==>
                (k in r <==> k in state.GetOr(InitialState)) &&
                (k in r ==> r[k] == state.GetOr(InitialState)[k])
  {
    var s := state.GetOr(InitialState);
    if action.actionType in ActionHandlers then ActionHandlers[action.actionType](s, action) else s
  }

  /** Of two successive change actions only the second payload survives, whatever the first one was. */
  lemma LastWriteWins(state: Option<State>, first: Value, second: Value)
    ensures Reducer(Some(Reducer(state, UpdateBackContent(Some(first)))), UpdateBackContent(Some(second)))
         == Reducer(state, UpdateBackContent(Some(second)))
  {
    var s := state.GetOr(InitialState);
    assert s["backContent" := first]["backContent" := second] == s["backContent" := second];
  }

  /** Dispatching the same change action twice is dispatching it once. */
  lemma ChangeIdempotent(state: Option<State>, payload: Option<Value>)
    ensures Reducer(Some(Reducer(state, UpdateBackContent(payload))), UpdateBackContent(payload))
         == Reducer(state, UpdateBackContent(payload))
  {
    LastWriteWins(state, UpdateBackContent(payload).payload, UpdateBackContent(payload).payload);
  }
}
