/**
 * The older key/value store (KvStore.ts): `get`, `set` and `delete` settle
 * the client's replies; `watch` feeds an `Observable` and polls again with
 * the `ModifyIndex` of the first entry of each reply's body. There is no
 * registry, so a watch cannot be cancelled.
 */
module LegacyKvStores {
  import opened Wrappers
  import opened JsValues
  import opened KvReplies
  import Utils
  import Observables
  import Cells
  import KvStores

  /**
   * The `.then` of `get`: 200 resolves with the decoded first value (or
   * rejects with what decoding throws), 404 resolves with `null`, and any
   * other status rejects with the status message alone.
   */
  function GetResult(reply: KvReply, decode: Decoder): (r: Result<Value, string>)
    ensures reply.Answered? && reply.statusCode == 200 ==> r == DecodeFirst(reply.body, decode)
    ensures reply.Answered? && reply.statusCode == 404 ==> r == Ok(Null)
    ensures reply.Answered? && reply.statusCode != 200 && reply.statusCode != 404 ==> r == Err(reply.statusMessage)
    ensures reply.Rejected? ==> r == Err(reply.message)
  {
    match reply
    case Rejected(m) => Err(m)
    case Answered(status, message, body, _) =>
      if status == 200 then DecodeFirst(body, decode)
      else if status == 404 then Ok(Null)
      else Err(message)
  }

  /** The two stores' `get` agree except on the message of an unexpected status, which only the newer one extends with the body. */
  lemma GetResultsAgree(reply: KvReply, decode: Decoder)
    ensures reply.Rejected? || reply.statusCode == 200 || reply.statusCode == 404 ==>
      GetResult(reply, decode) == KvStores.GetResult(reply, decode)
    ensures reply.Answered? && reply.statusCode != 200 && reply.statusCode != 404 ==>
      KvStores.GetResult(reply, decode).error == GetResult(reply, decode).error + ": " + TemplateString(reply.body)
  {
  }

  /** `metadata[0].ModifyIndex`, read once the first entry is known to be there. */
  function FirstModifyIndex(body: Value): Value {
    Prop(Prop(body, "0"), "ModifyIndex")
  }

  /**
   * `_watch`'s handler: a 200 updates the observable with the decoded first
   * value and polls again with the first entry's `ModifyIndex` from the
   * body; if reading or decoding throws, polling ends. A 404, any other
   * status, or a rejected request ends polling.
   */
  function WatchStep(reply: KvReply, decode: Decoder): (step: Step)
    ensures step.next.Poll? <==> step.update.Some?
    ensures step.update.Some? <==> reply.Answered? && reply.statusCode == 200 && DecodeFirst(reply.body, decode).Ok?
    ensures step.update.Some? ==>
      step.update.value == DecodeFirst(reply.body, decode).value && step.next == Poll(FirstModifyIndex(reply.body))
  {
    match reply
    case Rejected(_) => Step(None, Stop)
    case Answered(status, _, body, _) =>
      if status == 200 then
        match DecodeFirst(body, decode)
        case Ok(v) => Step(Some(v), Poll(FirstModifyIndex(body)))
        case Err(_) => Step(None, Stop)
      else Step(None, Stop)
  }

  /**
   * Against the newer store's handler for a registered path, the older one
   * hands over the same values and stops in the same cases; only the token
   * differs: the body's first `ModifyIndex` instead of the `x-consul-index`
   * header.
   */
  lemma WatchStepsAgree(reply: KvReply, decode: Decoder)
    ensures WatchStep(reply, decode).update == KvStores.WatchStep(reply, true, decode).update
    ensures WatchStep(reply, decode).next.Poll? ==>
      && KvStores.WatchStep(reply, true, decode).next == Poll(reply.consulIndex)
      && WatchStep(reply, decode).next == Poll(FirstModifyIndex(reply.body))
  {
  }

  /** On a metadata array, the next token is the first entry's `ModifyIndex`. */
  lemma TokenFromFirstEntry(entries: seq<Value>, message: string, consulIndex: Value, decode: Decoder)
    requires entries != [] && Utils.Readable(entries[0])
    ensures var step := WatchStep(Answered(200, message, Arr(entries), consulIndex), decode);
      && (step.update.Some? <==> decode(Prop(entries[0], "Value")).Ok?)
      && (step.next.Poll? ==> step.next.index == Prop(entries[0], "ModifyIndex"))
  {
    FirstOfList(entries);
  }

  /** `watch`: a fresh observable without a value; the first poll goes out without a token. */
  method Watch() returns (observable: Observables.Observable, firstPoll: Next)
    ensures fresh(observable)
    ensures observable.value == Null && observable.previous == Null
    ensures observable.listeners == [] && observable.log == []
    ensures firstPoll == Poll(Undefined)
  {
    observable := new Observables.Observable(Undefined);
    firstPoll := Poll(Undefined);
  }

  /** Handles the reply to a poll: the observable gets the value of `WatchStep`, and the next poll is the one it schedules. */
  method Receive(observable: Observables.Observable, reply: KvReply, decode: Decoder) returns (next: Next)
    modifies observable
    ensures var step := WatchStep(reply, decode);
      && next == step.next
      && observable.listeners == old(observable.listeners)
      && (step.update.Some? && !StrictEquals(step.update.value, old(observable.value)) ==>
            observable.value == step.update.value && observable.previous == old(observable.value)
            && observable.log == old(observable.log) + Cells.Notify(observable.listeners, step.update.value))
      && (step.update.None? || StrictEquals(step.update.value, old(observable.value)) ==>
            observable.value == old(observable.value) && observable.previous == old(observable.previous)
            && observable.log == old(observable.log))
  {
    next := Stop;
    match reply {
      case Rejected(_) =>
      case Answered(status, _, body, _) =>
        if status == 200 {
          var decoded := DecodeFirst(body, decode);
          if decoded.Ok? {
            observable.Update(decoded.value);
            next := Poll(FirstModifyIndex(body));
          }
        }
    }
  }
}
