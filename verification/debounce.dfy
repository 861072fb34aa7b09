/**
 * `useDebouncedState` of src/hooks/useDebounce.ts. The timer is abstracted to a
 * pending update that an explicit `Fire` step applies; the delay is not modelled.
 */
module Debounce {
  import opened Wrappers

  /** What the setter is called with: a plain value, or a function of the previous value. */
  datatype Update<!T> = Replace(newValue: Option<T>) | Apply(f: Option<T> -> Option<T>)

  /** The timer callback's state update: a function update sees the previous value, a plain value replaces it. */
  function Applied<T>(u: Update<T>, prev: Option<T>): (r: Option<T>)
    ensures u.Replace? ==> r == u.newValue
    ensures u.Apply? ==> r == u.f(prev)
  {
    match u
    case Replace(v) => v
    case Apply(f) => f(prev)
  }

  /** The held value and the update whose timer is still running, if any. */
  datatype Debounced<!T> = Debounced(value: Option<T>, pending: Option<Update<T>>)

  /** The hook's first state: the initial value, nothing pending. */
  function Init<T>(initial: Option<T>): (d: Debounced<T>)
    ensures d.value == initial && d.pending.None?
  {
    Debounced(initial, None)
  }

  /** The setter: any pending update is cancelled and `u` is scheduled; the held value does not change yet. */
  function Set<T>(d: Debounced<T>, u: Update<T>): (d': Debounced<T>)
    ensures d'.value == d.value
    ensures d'.pending == Some(u)
  {
    Debounced(d.value, Some(u))
  }

  /** The timer fires: the pending update is applied to the held value. Without a timer nothing happens. */
  function Fired<T>(d: Debounced<T>): (d': Debounced<T>)
    ensures d'.pending.None?
    ensures d.pending.Some? ==> d'.value == Applied(d.pending.value, d.value)
    ensures d.pending.None? ==> d' == d
  {
    match d.pending
    case Some(u) => Debounced(Applied(u, d.value), None)
    case None => d
  }

  /** Unmounting clears the timer: the pending update never fires. */
  function Unmounted<T>(d: Debounced<T>): (d': Debounced<T>)
    ensures d'.value == d.value && d'.pending.None?
  {
    Debounced(d.value, None)
  }

  /** A burst of setter calls with no firing in between. */
  function SetAll<T>(d: Debounced<T>, us: seq<Update<T>>): Debounced<T>
    decreases |us|
  {
    if us == [] then d else SetAll(Set(d, us[0]), us[1..])
  }

  /**
   * After a burst of setter calls the held value is still the old one and only
   * the last call is pending; firing then applies that update alone.
   */
  lemma {:induction false} BurstThenFire<T>(d: Debounced<T>, us: seq<Update<T>>)
    requires us != []
    ensures SetAll(d, us).value == d.value
    ensures SetAll(d, us).pending == Some(us[|us| - 1])
    ensures Fired(SetAll(d, us)).value == Applied(us[|us| - 1], d.value)
    decreases |us|
  {
    if |us| > 1 {
      BurstThenFire(Set(d, us[0]), us[1..]);
      assert us[1..][|us[1..]| - 1] == us[|us| - 1];
    }
  }

  /** After unmounting, a firing step changes nothing. */
  lemma FiringAfterUnmountIsNoOp<T>(d: Debounced<T>)
    ensures Fired(Unmounted(d)) == Unmounted(d)
    ensures Fired(Unmounted(d)).value == d.value
  {
  }

  /** The hook's mutable state: the React state `value` and the `timer` ref. */
  class DebouncedState<T> {
    var value: Option<T>
    var timer: Option<Update<T>>

    /** The state as a value. */
    function State(): Debounced<T>
      reads this
    {
      Debounced(value, timer)
    }

    constructor (initialValue: Option<T>)
      ensures State() == Init(initialValue)
    {
      value := initialValue;
      timer := None;
    }

    /** `setDebouncedValue(u)`: clear the running timer and start a new one for `u`. */
    method SetDebouncedValue(u: Update<T>)
      modifies this
      ensures State() == Set(old(State()), u)
      ensures value == old(value)
    {
      timer := Some(u);
    }

    /** The timer callback runs `setValue` with the scheduled update. */
    method Fire()
      modifies this
      ensures State() == Fired(old(State()))
    {
      if timer.Some? {
        value := Applied(timer.value, value);
        timer := None;
      }
    }

    /** The unmount cleanup clears the timer. */
    method Unmount()
      modifies this
      ensures State() == Unmounted(old(State()))
    {
      timer := None;
    }
  }
}
