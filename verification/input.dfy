/**
 * The form-input hook of src/hooks/useInput.ts: a reducer holding one value,
 * and the change handler that clamps number inputs to their `min`/`max` attributes.
 */
module Input {
  import opened Wrappers
  import opened Clamping

  /** The actions the reducer understands. */
  datatype Action<T> = Set(value: T) | Reset

  /** `inputReducer`: `set` replaces the state, `reset` keeps it (it does not restore the initial value). */
  function InputReducer<T>(state: T, action: Action<T>): (r: T)
    ensures action.Set? ==> r == action.value
    ensures action.Reset? ==> r == state
  {
    match action
    case Set(v) => v
    case Reset => state
  }

  /** The value an input holds: the hook is used with numbers and with strings. */
  datatype InputValue = Num(n: real) | Text(s: string)

  /**
   * The element that fired the input event. For a number input the value and the
   * `max`/`min` attributes are given as the numbers `Number(...)` makes of them;
   * an absent attribute is `None` (`Number("")` is 0).
   */
  datatype Target =
    | NumberInput(value: real, maxAttr: Option<real>, minAttr: Option<real>)
    | OtherInput(text: string)

  /** `Number(max) || Infinity`: an absent bound and a bound of 0 are both falsy, so both mean "no bound". */
  function UpperBound(attr: Option<real>): (b: ExtReal)
    ensures b == PosInf <==> attr.None? || attr.value == 0.0
    ensures b != PosInf ==> b == Fin(attr.value)
  {
    if attr.None? || attr.value == 0.0 then PosInf else Fin(attr.value)
  }

  /** `Number(min) || -Infinity`, with the same treatment of 0. */
  function LowerBound(attr: Option<real>): (b: ExtReal)
    ensures b == NegInf <==> attr.None? || attr.value == 0.0
    ensures b != NegInf ==> b == Fin(attr.value)
  {
    if attr.None? || attr.value == 0.0 then NegInf else Fin(attr.value)
  }

  /** The number a number input stores: its value clamped to the effective bounds; always finite. */
  function ClampedNumber(value: real, maxAttr: Option<real>, minAttr: Option<real>): (r: real)
    ensures Clamp(Fin(value), UpperBound(maxAttr), LowerBound(minAttr)) == Fin(r)
    ensures (maxAttr.None? || maxAttr.value == 0.0) && (minAttr.None? || minAttr.value == 0.0) ==> r == value
    ensures minAttr.Some? && minAttr.value != 0.0 && (maxAttr.None? || maxAttr.value == 0.0)
      ==> r == if value < minAttr.value then minAttr.value else value
    ensures (maxAttr.Some? && maxAttr.value != 0.0 && minAttr.Some? && minAttr.value != 0.0 &&
             minAttr.value <= maxAttr.value) ==> minAttr.value <= r <= maxAttr.value
  {
    var c := Clamp(Fin(value), UpperBound(maxAttr), LowerBound(minAttr));
    assert c.Fin?;
    c.v
  }

  /** What the change handler stores: number inputs are clamped, other inputs pass through unchanged. */
  function OnInputValue(t: Target): (r: InputValue)
    ensures t.OtherInput? ==> r == Text(t.text)
    ensures t.NumberInput? ==> r.Num? && Fin(r.n) == Clamp(Fin(t.value), UpperBound(t.maxAttr), LowerBound(t.minAttr))
  {
    match t
    case NumberInput(v, mx, mn) => Num(ClampedNumber(v, mx, mn))
    case OtherInput(s) => Text(s)
  }

  /**
   * `min={0}` does not keep a number input non-negative: the 0 is falsy and is
   * replaced by -Infinity, so a negative entry is stored as typed.
   */
  lemma ZeroMinimumIsNotEnforced(value: real)
    requires value < 0.0
    ensures ClampedNumber(value, None, Some(0.0)) == value
    ensures OnInputValue(NumberInput(value, None, Some(0.0))) == Num(value)
  {
  }

  /** A non-zero `min` is enforced whatever the `max`: every stored value is at least `min`. */
  lemma NonZeroMinimumIsEnforced(value: real, maxAttr: Option<real>, min: real)
    requires min != 0.0
    ensures ClampedNumber(value, maxAttr, Some(min)) >= min
  {
  }

  /** The state of one `useInput` hook. */
  class InputHook {
    var value: InputValue

    /** `useReducer(inputReducer, initial)`: the held value starts as `initial`. */
    constructor (initial: InputValue)
      ensures value == initial
    {
      value := initial;
    }

    /** `dispatch(action)`: the reducer computes the new held value. */
    method Dispatch(action: Action<InputValue>)
      modifies this
      ensures value == InputReducer(old(value), action)
    {
      value := InputReducer(value, action);
    }

    /** `setValue(v)`: the held value becomes exactly `v`. */
    method SetValue(v: InputValue)
      modifies this
      ensures value == v
    {
      Dispatch(Set(v));
    }

    /** `reset()`: the held value is left as it is. */
    method ResetValue()
      modifies this
      ensures value == old(value)
    {
      Dispatch(Reset);
    }

    /** `bind.onInput`: the element's value, clamped when it is a number input, becomes the held value. */
    method OnInput(t: Target)
      modifies this
      ensures value == OnInputValue(t)
      ensures t.OtherInput? ==> value == Text(t.text)
    {
      SetValue(OnInputValue(t));
    }
  }
}
