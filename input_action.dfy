/**
 * The input actions, their triggers and the binding map
 * (`InputAction`, `InputActionTrigger`, `InputActionMap`). Whether a key or
 * mouse button is held is the engine's input state; here it is the set of
 * held keys and the set of held buttons.
 */
module InputAction {
  import opened Common
  import opened TriggerState

  /** Number of slots in an action array (`ActionDataArray`). */
  const SlotCount: int := 16

  /** Number of declared actions. */
  const ActionCount: int := 5

  /** `InputAction`, a `u8`-backed enum. */
  datatype Action = Left | Right | Up | Down | Select

  /** The enum discriminant (`action as usize`): declaration order from 0. */
  function Discriminant(a: Action): (n: nat)
    ensures n < ActionCount
  {
    match a
    case Left => 0
    case Right => 1
    case Up => 2
    case Down => 3
    case Select => 4
  }

  /** `InputAction::try_from(n as u8)`: the action with discriminant `n`, if any. */
  function TryFrom(n: int): (r: Option<Action>)
    ensures r.Some? <==> 0 <= n < ActionCount
    ensures r.Some? ==> Discriminant(r.value) == n
  {
    if n == 0 then Some(Left)
    else if n == 1 then Some(Right)
    else if n == 2 then Some(Up)
    else if n == 3 then Some(Down)
    else if n == 4 then Some(Select)
    else None
  }

  /** `try_from` inverts the discriminant, so distinct actions own distinct slots. */
  lemma DiscriminantRoundTrip(a: Action, b: Action)
    ensures TryFrom(Discriminant(a)) == Some(a)
    ensures Discriminant(a) == Discriminant(b) ==> a == b
  {
  }

  /** The keys the default map mentions; every other key code is left abstract. */
  datatype KeyCode = A | D | S | W | OtherKey(code: nat)

  /** Bevy's `MouseButton`. */
  datatype MouseButton = LeftButton | RightButton | MiddleButton | OtherButton(code: nat)

  /** `InputActionTrigger`. */
  datatype InputTrigger = Key(key: KeyCode) | Mouse(button: MouseButton)

  /** `InputActionMap`: at most one trigger per action. */
  type ActionMap = map<Action, InputTrigger>

  /** `InputActionMap::default()`. */
  function DefaultMap(): ActionMap
  {
    map[Left := Key(A), Right := Key(D), Up := Key(W), Down := Key(S), Select := Mouse(LeftButton)]
  }

  /** The default map binds every action, and no two actions to the same trigger. */
  lemma DefaultMapBindsAll()
    ensures forall a: Action :: a in DefaultMap()
    ensures forall a: Action, b: Action :: DefaultMap()[a] == DefaultMap()[b] ==> a == b
  {
    forall a: Action
      ensures a in DefaultMap()
    {
      match a {
        case Left =>
        case Right =>
        case Up =>
        case Down =>
        case Select =>
      }
    }
  }

  /** `input.pressed(..)` for the trigger's device. */
  predicate Held(trigger: InputTrigger, keys: set<KeyCode>, buttons: set<MouseButton>)
  {
    match trigger
    case Key(k) => k in keys
    case Mouse(b) => b in buttons
  }

  /** Slot `i` is bound, its action is among `visited` and its trigger is held. */
  predicate Fires(bindings: ActionMap, keys: set<KeyCode>, buttons: set<MouseButton>, visited: set<Action>, i: int)
  {
    var a := TryFrom(i);
    a.Some? && a.value in visited && a.value in bindings && Held(bindings[a.value], keys, buttons)
  }

  /** Sixteen default slots. */
  function DefaultSlots(): (s: seq<ActionData>)
    ensures |s| == SlotCount
    ensures forall i :: 0 <= i < |s| ==> s[i] == DefaultData
  {
    seq(SlotCount, _ => DefaultData)
  }

  /** The array `get_states` builds once the map entries for the actions in `visited` are processed. */
  function StatesAfter(bindings: ActionMap, keys: set<KeyCode>, buttons: set<MouseButton>, visited: set<Action>): seq<ActionData>
  {
    seq(SlotCount, i => if Fires(bindings, keys, buttons, visited, i) then ActionData(JustPressed, false) else DefaultData)
  }

  /** The array `get_states` returns: every map entry processed. */
  function FrameStates(bindings: ActionMap, keys: set<KeyCode>, buttons: set<MouseButton>): seq<ActionData>
  {
    StatesAfter(bindings, keys, buttons, bindings.Keys)
  }

  /**
   * `InputActionMap::get_states`: starting from sixteen default slots, each
   * map entry whose trigger is held marks its action's slot just pressed.
   * The map is visited in an unspecified order.
   */
  method GetStates(bindings: ActionMap, keys: set<KeyCode>, buttons: set<MouseButton>) returns (state: seq<ActionData>)
    ensures state == FrameStates(bindings, keys, buttons)
  {
    state := DefaultSlots();
    var pending := bindings.Keys;
    while pending != {}
      invariant pending <= bindings.Keys
      invariant state == StatesAfter(bindings, keys, buttons, bindings.Keys - pending)
      decreases pending
    {
      var action := PickKey(pending);
      var i := Discriminant(action);
      ghost var visited := bindings.Keys - pending;
      match bindings[action] {
        case Key(k) =>
          if k in keys {
            state := state[i := state[i].(state := JustPressed)];
          }
        case Mouse(b) =>
          if b in buttons {
            state := state[i := state[i].(state := JustPressed)];
          }
      }
      pending := pending - {action};
      StatesStep(bindings, keys, buttons, visited, action);
    }
  }

  /** Processing the entry of `action` changes at most the slot of `action`. */
  lemma StatesStep(bindings: ActionMap, keys: set<KeyCode>, buttons: set<MouseButton>, visited: set<Action>, action: Action)
    requires action in bindings && action !in visited
    ensures var before, after := StatesAfter(bindings, keys, buttons, visited), StatesAfter(bindings, keys, buttons, visited + {action});
      var i := Discriminant(action);
      after == (if Held(bindings[action], keys, buttons) then before[i := before[i].(state := JustPressed)] else before)
  {
  }

  /**
   * The array `get_states` returns, slot by slot: an action's slot is
   * just pressed exactly when the action is bound and its trigger held; all
   * other slots, including slots 5 to 15, keep the default; nothing is
   * consumed.
   */
  lemma FrameStatesMeaning(bindings: ActionMap, keys: set<KeyCode>, buttons: set<MouseButton>)
    ensures |FrameStates(bindings, keys, buttons)| == SlotCount
    ensures forall a: Action ::
      (FrameStates(bindings, keys, buttons)[Discriminant(a)]
       == if a in bindings && Held(bindings[a], keys, buttons) then ActionData(JustPressed, false) else DefaultData)
    ensures forall i :: ActionCount <= i < SlotCount ==> FrameStates(bindings, keys, buttons)[i] == DefaultData
    ensures forall i :: 0 <= i < SlotCount ==> !FrameStates(bindings, keys, buttons)[i].consumed
  {
  }
}
