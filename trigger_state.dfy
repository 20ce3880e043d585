/**
 * The four-state trigger of one input action (`InputActionTriggerState`)
 * and the per-action slot (`InputActionData`) that pairs it with a
 * `consumed` latch. Rust's `&mut self` updates of the enum are modelled as
 * functions from the old state to the new one; the slot array that holds
 * them is the class in `ActionState`.
 */
module TriggerState {

  datatype Trigger = Pressed | JustPressed | Released | JustReleased
  {
    /** `released()`: the two released states. */
    function IsReleased(): (r: bool)
      ensures r <==> !(this == Pressed || this == JustPressed)
    {
      this == Released || this == JustReleased
    }

    /** `pressed()`: exactly the states that are not released. */
    function IsPressed(): (r: bool)
      ensures r <==> !IsReleased()
    {
      this == Pressed || this == JustPressed
    }

    /** `just_pressed()`: only the first frame of a press. */
    function IsJustPressed(): (r: bool)
      ensures r ==> IsPressed()
    {
      this == JustPressed
    }

    /** `just_released()`: only the first frame of a release. */
    function IsJustReleased(): (r: bool)
      ensures r ==> IsReleased()
    {
      this == JustReleased
    }
  }

  /** `InputActionTriggerState::tick`: a "just" state settles, a settled state stays. */
  function Tick(s: Trigger): (t: Trigger)
    ensures t.IsPressed() == s.IsPressed()
    ensures !t.IsJustPressed() && !t.IsJustReleased()
  {
    match s
    case JustPressed => Pressed
    case Pressed => Pressed
    case JustReleased => Released
    case Released => Released
  }

  /** `InputActionTriggerState::press`: a held press stays held, any other state becomes a fresh press. */
  function Press(s: Trigger): (t: Trigger)
    ensures t.IsPressed()
    ensures t.IsJustPressed() <==> s != Pressed
  {
    if s != Pressed then JustPressed else s
  }

  /** `InputActionTriggerState::release`: a settled release stays, any other state becomes a fresh release. */
  function Release(s: Trigger): (t: Trigger)
    ensures t.IsReleased()
    ensures t.IsJustReleased() <==> s != Released
  {
    if s != Released then JustReleased else s
  }

  /** Ticking twice is ticking once. */
  lemma TickIdempotent(s: Trigger)
    ensures Tick(Tick(s)) == Tick(s)
  {
  }

  /** Pressing twice is pressing once, and so is releasing. */
  lemma PressReleaseIdempotent(s: Trigger)
    ensures Press(Press(s)) == Press(s)
    ensures Release(Release(s)) == Release(s)
  {
  }

  /** A tick turns a fresh press into a held one and a fresh release into a settled one. */
  lemma TickSettles(s: Trigger)
    ensures Tick(Press(s)) == Pressed
    ensures Tick(Release(s)) == Released
  {
  }

  /** `InputActionData`: a trigger state and the `consumed` latch. */
  datatype ActionData = ActionData(state: Trigger, consumed: bool)

  /** `InputActionData::default()`: released and not consumed. */
  const DefaultData: ActionData := ActionData(Released, false)

  /** `InputActionState::press` on one slot: nothing while consumed, otherwise a press. */
  function PressSlot(d: ActionData): (e: ActionData)
    ensures e.consumed == d.consumed
    ensures d.consumed ==> e == d
    ensures !d.consumed ==> e.state.IsPressed()
  {
    if d.consumed then d else d.(state := Press(d.state))
  }

  /** `InputActionState::release` on one slot: the latch is cleared and the state released. */
  function ReleaseSlot(d: ActionData): (e: ActionData)
    ensures !e.consumed && e.state.IsReleased()
  {
    ActionData(Release(d.state), false)
  }

  /** `InputActionState::consume` on one slot: the latch is set and the state released. */
  function ConsumeSlot(d: ActionData): (e: ActionData)
    ensures e.consumed && e.state.IsReleased()
  {
    ActionData(Release(d.state), true)
  }

  /** After `consume`, presses do nothing until a release clears the latch. */
  lemma ConsumeBlocksPress(d: ActionData)
    ensures PressSlot(ConsumeSlot(d)) == ConsumeSlot(d)
    ensures PressSlot(ReleaseSlot(ConsumeSlot(d))).state == JustPressed
  {
  }
}
