/**
 * `Observable` (Observable.ts): a value cell updated directly. It holds the
 * current and previous values and an ordered list of listeners, and has no
 * off switch.
 */
module Observables {
  import opened JsValues
  import opened Cells

  class Observable {
    var value: Value
    var previous: Value
    var listeners: seq<Listener>
    /** Every listener call made so far, in order. */
    var log: seq<Notification>

    /** The constructor: `value || null` as the current value, `null` as the previous one, no listeners. */
    constructor(initial: Value)
      ensures value == InitialValue(initial) && previous == Null
      ensures listeners == [] && log == []
    {
      value := InitialValue(initial);
      previous := Null;
      listeners := [];
      log := [];
    }

    /**
     * `update`: a value not strictly equal to the current one becomes current,
     * the old one becomes previous, and every listener is called once with it,
     * in order; otherwise nothing changes.
     */
    method Update(v: Value)
      modifies this
      ensures listeners == old(listeners)
      ensures !StrictEquals(v, old(value)) ==>
        value == v && previous == old(value) && log == old(log) + Notify(listeners, v)
      ensures StrictEquals(v, old(value)) ==>
        value == old(value) && previous == old(previous) && log == old(log)
    {
      if !StrictEquals(v, value) {
        previous := value;
        value := v;
        for i := 0 to |listeners|
          invariant listeners == old(listeners) && value == v && previous == old(value)
          invariant log == old(log) + Notify(listeners[..i], v)
        {
          NotifyStep(listeners, i, v);
          log := log + [Notification(listeners[i], v)];
        }
        assert listeners[..|listeners|] == listeners;
      }
    }

    /** `previous()` */
    function Previous(): (r: Value)
      reads this
      ensures r == previous
    {
      previous
    }

    /** `current()` */
    function Current(): (r: Value)
      reads this
      ensures r == value
    {
      value
    }

    /** `onValue`: the listener joins the end of the list and is not called. */
    method OnValue(cb: Listener)
      modifies this
      ensures listeners == old(listeners) + [cb]
      ensures value == old(value) && previous == old(previous) && log == old(log)
    {
      listeners := listeners + [cb];
    }
  }
}
