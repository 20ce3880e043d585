/**
 * `InputActionState`: sixteen action slots, updated in place once per frame
 * by `keyboard_input_system` (tick every slot, then apply the array built by
 * `get_states`), and by `consume` from gameplay code.
 */
module ActionState {
  import opened Common
  import opened TriggerState
  import opened InputAction

  /** One slot after the frame's requested state: pressed states press, released states release. */
  function Apply(d: ActionData, next: Trigger): (e: ActionData)
    ensures next.IsPressed() ==> e == PressSlot(d)
    ensures next.IsReleased() ==> e == ReleaseSlot(d)
  {
    match next
    case Pressed => PressSlot(d)
    case JustPressed => PressSlot(d)
    case Released => ReleaseSlot(d)
    case JustReleased => ReleaseSlot(d)
  }

  /** The slots after `update` has handled slots `0 .. n - 1`; it never gets past slot 4. */
  function UpdatedUpTo(slots: seq<ActionData>, next: seq<ActionData>, n: int): (r: seq<ActionData>)
    requires |slots| == |next| == SlotCount
    ensures |r| == SlotCount
  {
    seq(SlotCount, i requires 0 <= i < SlotCount =>
      if i < n && i < ActionCount then Apply(slots[i], next[i].state) else slots[i])
  }

  /** Every slot with its trigger ticked. */
  function Ticked(slots: seq<ActionData>): (r: seq<ActionData>)
    ensures |r| == |slots|
  {
    seq(|slots|, i requires 0 <= i < |slots| => slots[i].(state := Tick(slots[i].state)))
  }

  /** The slots after one run of `keyboard_input_system`: tick, then update from `get_states`. */
  function Frame(slots: seq<ActionData>, bindings: ActionMap, keys: set<KeyCode>, buttons: set<MouseButton>): seq<ActionData>
    requires |slots| == SlotCount
  {
    FrameStatesMeaning(bindings, keys, buttons);
    UpdatedUpTo(Ticked(slots), FrameStates(bindings, keys, buttons), SlotCount)
  }

  class InputActionState {
    /** `actions: [InputActionData; 16]`. */
    const actions: array<ActionData>

    ghost predicate Valid()
    {
      actions.Length == SlotCount
    }

    /** `InputActionState::default()`: every slot released and not consumed. */
    constructor ()
      ensures Valid() && fresh(actions)
      ensures actions[..] == DefaultSlots()
    {
      actions := new ActionData[SlotCount](_ => DefaultData);
    }

    /** `InputActionState::pressed`. */
    function Pressed(action: Action): (r: bool)
      requires Valid()
      reads actions
      ensures r <==> !actions[Discriminant(action)].state.IsReleased()
    {
      actions[Discriminant(action)].state.IsPressed()
    }

    /** `InputActionState::just_pressed`: only while pressed. */
    function JustPressed(action: Action): (r: bool)
      requires Valid()
      reads actions
      ensures r ==> Pressed(action)
    {
      actions[Discriminant(action)].state.IsJustPressed()
    }

    /** `InputActionState::released`: exactly when not pressed. */
    function Released(action: Action): (r: bool)
      requires Valid()
      reads actions
      ensures r <==> !Pressed(action)
    {
      actions[Discriminant(action)].state.IsReleased()
    }

    /** `InputActionState::just_released`: only while released. */
    function JustReleased(action: Action): (r: bool)
      requires Valid()
      reads actions
      ensures r ==> Released(action)
    {
      actions[Discriminant(action)].state.IsJustReleased()
    }

    /** `InputActionState::press`: only the action's own slot changes, and not while it is consumed. */
    method Press(action: Action)
      requires Valid()
      modifies actions
      ensures actions[..] == old(actions[..])[Discriminant(action) := PressSlot(old(actions[Discriminant(action)]))]
    {
      var i := Discriminant(action);
      if actions[i].consumed {
        return;
      }
      actions[i] := actions[i].(state := TriggerState.Press(actions[i].state));
    }

    /** `InputActionState::release`: the action's slot is released and its latch cleared. */
    method Release(action: Action)
      requires Valid()
      modifies actions
      ensures actions[..] == old(actions[..])[Discriminant(action) := ReleaseSlot(old(actions[Discriminant(action)]))]
    {
      var i := Discriminant(action);
      actions[i] := actions[i].(consumed := false);
      actions[i] := actions[i].(state := TriggerState.Release(actions[i].state));
    }

    /** `InputActionState::consume`: the action's slot is released and latched. */
    method Consume(action: Action)
      requires Valid()
      modifies actions
      ensures actions[..] == old(actions[..])[Discriminant(action) := ConsumeSlot(old(actions[Discriminant(action)]))]
      ensures Released(action)
    {
      var i := Discriminant(action);
      actions[i] := actions[i].(consumed := true);
      actions[i] := actions[i].(state := TriggerState.Release(actions[i].state));
    }

    /**
     * `InputActionState::update`: slots 0, 1, ... are handed to `press` or
     * `release` by their requested state, until the index is no longer an
     * action; slots 5 to 15 are never touched.
     */
    method Update(next: seq<ActionData>)
      requires Valid() && |next| == SlotCount
      modifies actions
      ensures actions[..] == UpdatedUpTo(old(actions[..]), next, SlotCount)
    {
      ghost var start := actions[..];
      for i := 0 to SlotCount
        invariant actions[..] == UpdatedUpTo(start, next, i)
        invariant i <= ActionCount
      {
        var found := TryFrom(i);
        if found.None? {
          assert UpdatedUpTo(start, next, i) == UpdatedUpTo(start, next, SlotCount);
          break;
        }
        var action := found.value;
        match next[i].state {
          case Pressed => Press(action);
          case JustPressed => Press(action);
          case Released => Release(action);
          case JustReleased => Release(action);
        }
      }
    }

    /** The loop of `keyboard_input_system` that ticks every slot. */
    method TickAll()
      requires Valid()
      modifies actions
      ensures actions[..] == Ticked(old(actions[..]))
    {
      for i := 0 to SlotCount
        invariant forall j :: 0 <= j < i ==> actions[j] == old(actions[j]).(state := Tick(old(actions[j]).state))
        invariant forall j :: i <= j < SlotCount ==> actions[j] == old(actions[j])
      {
        actions[i] := actions[i].(state := Tick(actions[i].state));
      }
    }
  }

  /** `keyboard_input_system`: every slot is ticked before the frame's states are applied. */
  method KeyboardInputSystem(state: InputActionState, bindings: ActionMap, keys: set<KeyCode>, buttons: set<MouseButton>)
    requires state.Valid()
    modifies state.actions
    ensures state.actions[..] == Frame(old(state.actions[..]), bindings, keys, buttons)
  {
    state.TickAll();
    var next := GetStates(bindings, keys, buttons);
    FrameStatesMeaning(bindings, keys, buttons);
    state.Update(next);
  }

  /** `update` leaves slots 5 to 15 exactly as they were. */
  lemma UpdateKeepsUnusedSlots(slots: seq<ActionData>, next: seq<ActionData>, i: int)
    requires |slots| == |next| == SlotCount && ActionCount <= i < SlotCount
    ensures UpdatedUpTo(slots, next, SlotCount)[i] == slots[i]
  {
  }

  /**
   * One frame, for one action: a held, unconsumed trigger gives a fresh
   * press (or keeps a held one); a consumed action ignores its held trigger
   * and only ticks; a trigger that is not held gives a release (fresh if the
   * action was pressed) and clears the latch.
   */
  lemma FrameOutcome(slots: seq<ActionData>, bindings: ActionMap, keys: set<KeyCode>, buttons: set<MouseButton>, a: Action)
    requires |slots| == SlotCount
    ensures var d, r := slots[Discriminant(a)], Frame(slots, bindings, keys, buttons)[Discriminant(a)];
      if a in bindings && Held(bindings[a], keys, buttons) then
        if d.consumed then r == ActionData(Tick(d.state), true)
        else r == ActionData(if d.state.IsPressed() then Pressed else JustPressed, false)
      else r == ActionData(if d.state.IsPressed() then JustReleased else Released, false)
  {
  }

  /** Slots 5 to 15 are only ever ticked by a frame. */
  lemma FrameTicksUnusedSlots(slots: seq<ActionData>, bindings: ActionMap, keys: set<KeyCode>, buttons: set<MouseButton>, i: int)
    requires |slots| == SlotCount && ActionCount <= i < SlotCount
    ensures Frame(slots, bindings, keys, buttons)[i] == slots[i].(state := Tick(slots[i].state))
  {
  }
}
