/**
 * What the two value cells (Observer.ts, Observable.ts) share: the initial
 * value rule and the record of listener calls. A listener is an id; calling
 * it is recorded as one entry appended to the cell's notification log.
 */
module Cells {
  import opened JsValues

  /** A listener, identified by the order in which it was handed over. */
  type Listener = nat

  /** One call `listener(value)`. */
  datatype Notification = Notification(listener: Listener, value: Value)

  /** `value || null`: a falsy (or absent, hence `undefined`) initial value is stored as `null`. */
  function InitialValue(value: Value): (stored: Value)
    ensures Truthy(value) ==> stored == value
    ensures !Truthy(value) ==> stored == Null
    ensures stored == Null || Truthy(stored)
  {
    if Truthy(value) then value else Null
  }

  /** `listeners.forEach(next => next(value))`: every listener once, in registration order. */
  function Notify(listeners: seq<Listener>, value: Value): (calls: seq<Notification>)
    ensures |calls| == |listeners|
    ensures forall i :: 0 <= i < |calls| ==> calls[i] == Notification(listeners[i], value)
  {
    if listeners == [] then []
    else Notify(listeners[..|listeners| - 1], value) + [Notification(listeners[|listeners| - 1], value)]
  }

  /** Notifying one more listener appends its call. */
  lemma NotifyStep(listeners: seq<Listener>, i: nat, value: Value)
    requires i < |listeners|
    ensures Notify(listeners[..i + 1], value) == Notify(listeners[..i], value) + [Notification(listeners[i], value)]
  {
    assert listeners[..i + 1][..i] == listeners[..i];
  }

  /** One notification round calls exactly the registered listeners, each once, in registration order. */
  lemma NotifiedInOrder(listeners: seq<Listener>, value: Value)
    ensures Listeners(Notify(listeners, value)) == listeners
    ensures forall c :: c in Notify(listeners, value) ==> c.value == value
  {
  }

  /** The listeners called, in call order. */
  function Listeners(calls: seq<Notification>): (ls: seq<Listener>)
    ensures |ls| == |calls|
    ensures forall i :: 0 <= i < |ls| ==> ls[i] == calls[i].listener
  {
    seq(|calls|, i requires 0 <= i < |calls| => calls[i].listener)
  }
}
