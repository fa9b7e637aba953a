/**
 * The `Switch` toggle of frontend/src/components/ui/switch.jsx.  Without a
 * `checked` prop it keeps its own state; with one it is controlled: clicks
 * leave the state alone and the state follows the prop.  `None` stands for
 * a prop that was not passed.
 */
module Switch {
  import opened Js

  /** `defaultChecked || checked || false`. */
  function Initial(defaultChecked: Option<bool>, checked: Option<bool>): (on: bool)
    ensures on <==> defaultChecked == Some(true) || checked == Some(true)
  {
    if defaultChecked.Some? && defaultChecked.value then true
    else if checked.Some? && checked.value then true
    else false
  }

  /** The effect on `[checked]`: a passed prop overwrites the state. */
  function Sync(isChecked: bool, checked: Option<bool>): (on: bool)
    ensures checked.Some? ==> on == checked.value
    ensures checked.None? ==> on == isChecked
  {
    if checked.Some? then checked.value else isChecked
  }

  /** What a click does: the new state, and whether `onChange` was called. */
  datatype Click = Click(isChecked: bool, calledOnChange: bool)

  /** `handleToggle`: flips the state only when uncontrolled; calls `onChange` whenever one is given. */
  function Toggle(isChecked: bool, checked: Option<bool>, hasOnChange: bool): (r: Click)
    ensures checked.None? ==> r.isChecked == !isChecked
    ensures checked.Some? ==> r.isChecked == isChecked
    ensures r.calledOnChange == hasOnChange
  {
    Click(if checked.None? then !isChecked else isChecked, hasOnChange)
  }

  /** The rendered button: `aria-checked` and the track colour both show the state. */
  datatype View = View(ariaChecked: bool, trackClass: string)

  function Render(isChecked: bool): (v: View)
    ensures v.ariaChecked == isChecked
    ensures v.trackClass == (if isChecked then "bg-purple-600" else "bg-zinc-700")
  {
    View(isChecked, if isChecked then "bg-purple-600" else "bg-zinc-700")
  }

  /** Two clicks on an uncontrolled switch bring it back, whatever it started at. */
  lemma UncontrolledToggleTwice(isChecked: bool, hasOnChange: bool)
    ensures Toggle(Toggle(isChecked, None, hasOnChange).isChecked, None, hasOnChange).isChecked == isChecked
  {
  }

  /**
   * Once mounted, a controlled switch shows its prop, even when
   * `defaultChecked` said otherwise, and no number of clicks moves it.
   */
  lemma ControlledFollowsProp(defaultChecked: Option<bool>, checked: bool, clicks: nat, hasOnChange: bool)
    ensures Render(Clicks(Sync(Initial(defaultChecked, Some(checked)), Some(checked)), Some(checked), hasOnChange, clicks)).ariaChecked == checked
  {
    ClicksControlled(checked, checked, hasOnChange, clicks);
  }

  /** The state after `n` clicks. */
  function Clicks(isChecked: bool, checked: Option<bool>, hasOnChange: bool, n: nat): bool
    decreases n
  {
    if n == 0 then isChecked else Clicks(Toggle(isChecked, checked, hasOnChange).isChecked, checked, hasOnChange, n - 1)
  }

  lemma {:induction false} ClicksControlled(isChecked: bool, checked: bool, hasOnChange: bool, n: nat)
    ensures Clicks(isChecked, Some(checked), hasOnChange, n) == isChecked
    decreases n
  {
    if n > 0 {
      ClicksControlled(isChecked, checked, hasOnChange, n - 1);
    }
  }

  /** An uncontrolled switch clicked `n` times is on exactly when it started on and `n` is even, or started off and `n` is odd. */
  lemma {:induction false} ClicksUncontrolled(isChecked: bool, hasOnChange: bool, n: nat)
    ensures Clicks(isChecked, None, hasOnChange, n) == (if n % 2 == 0 then isChecked else !isChecked)
    decreases n
  {
    if n > 0 {
      ClicksUncontrolled(!isChecked, hasOnChange, n - 1);
    }
  }
}
