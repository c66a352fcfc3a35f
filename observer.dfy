/**
 * `Observer` (Observer.ts): a value cell fed through a sink. It holds the
 * current and previous values, an ordered list of listeners and a one-way
 * `active` flag; `destroy` switches it off for good. The updater the
 * constructor hands the sink to is foreign code and is not modelled: the sink
 * is the `Update` method.
 */
module Observers {
  import opened JsValues
  import opened Cells

  class Observer {
    var isActive: bool
    var value: Value
    var previous: Value
    var listeners: seq<Listener>
    /** Every listener call made so far, in order. */
    var log: seq<Notification>

    /** The constructor: active, `value || null` as the current value, `null` as the previous one, no listeners. */
    constructor(initial: Value)
      ensures isActive && value == InitialValue(initial) && previous == Null
      ensures listeners == [] && log == []
    {
      isActive := true;
      value := InitialValue(initial);
      previous := Null;
      listeners := [];
      log := [];
    }

    /** `destroy`: inactive, no listeners; the values and past calls stay. */
    method Destroy()
      modifies this
      ensures !isActive && listeners == []
      ensures value == old(value) && previous == old(previous) && log == old(log)
    {
      isActive := false;
      listeners := [];
    }

    /** `previous()` */
    function Previous(): (r: Value)
      reads this
      ensures r == previous
    {
      previous
    }

    /** `current()` */
    function Current(): (r: Value)
      reads this
      ensures r == value
    {
      value
    }

    /** `onValue`: the listener joins the end of the list and is not called. */
    method OnValue(cb: Listener)
      modifies this
      ensures listeners == old(listeners) + [cb]
      ensures isActive == old(isActive) && value == old(value) && previous == old(previous) && log == old(log)
    {
      listeners := listeners + [cb];
    }

    /**
     * The sink (`update`): while active, a value not strictly equal to the
     * current one becomes current, the old one becomes previous, and every
     * listener is called once with it, in order; otherwise nothing changes.
     * It returns whether the cell is still active.
     */
    method Update(v: Value) returns (active: bool)
      modifies this
      ensures active == isActive
      ensures isActive == old(isActive) && listeners == old(listeners)
      ensures old(isActive) && !StrictEquals(v, old(value)) ==>
        value == v && previous == old(value) && log == old(log) + Notify(listeners, v)
      ensures !(old(isActive) && !StrictEquals(v, old(value))) ==>
        value == old(value) && previous == old(previous) && log == old(log)
    {
      if isActive && !StrictEquals(v, value) {
        previous := value;
        value := v;
        for i := 0 to |listeners|
          invariant listeners == old(listeners) && value == v && previous == old(value)
          invariant isActive == old(isActive)
          invariant log == old(log) + Notify(listeners[..i], v)
        {
          NotifyStep(listeners, i, v);
          log := log + [Notification(listeners[i], v)];
        }
        assert listeners[..|listeners|] == listeners;
      }
      active := isActive;
    }
  }
}
