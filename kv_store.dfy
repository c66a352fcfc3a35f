/**
 * The key/value store (kv-store/KvStore.ts): `get`, `set` and `delete`
 * settle the client's replies; `watch` registers an observer under the
 * key's path and polls, feeding each new value to the observer and polling
 * again with the reply's `x-consul-index` header; `ignore` unregisters the
 * path.
 */
module KvStores {
  import opened Wrappers
  import opened JsValues
  import opened KvReplies
  import Utils
  import Constants
  import Requests
  import Observers
  import Cells

  /**
   * The `.then` of `get`: 200 resolves with the decoded first value (or
   * rejects with what decoding throws), 404 resolves with `null`, and any
   * other status rejects with the status message and the body.
   */
  function GetResult(reply: KvReply, decode: Decoder): (r: Result<Value, string>)
    ensures reply.Answered? && reply.statusCode == 200 ==> r == DecodeFirst(reply.body, decode)
    ensures reply.Answered? && reply.statusCode == 404 ==> r == Ok(Null)
    ensures reply.Answered? && reply.statusCode != 200 && reply.statusCode != 404 ==>
      r == Err(reply.statusMessage + ": " + TemplateString(reply.body))
    ensures reply.Rejected? ==> r == Err(reply.message)
  {
    match reply
    case Rejected(m) => Err(m)
    case Answered(status, message, body, _) =>
      if status == 200 then DecodeFirst(body, decode)
      else if status == 404 then Ok(Null)
      else Err(message + ": " + TemplateString(body))
  }

  /** A stored value comes back from `get` as the decoding of the first entry's `Value`. */
  lemma GetDecodesFirstEntry(entries: seq<Value>, message: string, consulIndex: Value, decode: Decoder)
    ensures entries != [] && Utils.Readable(entries[0]) ==>
      GetResult(Answered(200, message, Arr(entries), consulIndex), decode) == decode(Prop(entries[0], "Value"))
    ensures entries == [] ==>
      GetResult(Answered(200, message, Arr(entries), consulIndex), decode) == Err(UnreadableEntryMessage)
  {
    DecodeFirstOfList(entries, decode);
  }

  // ---------------------------------------------------------------------------
  // Watching
  // ---------------------------------------------------------------------------

  /**
   * The handler of one poll. A reply for a path no longer registered is
   * dropped. While registered, a 200 hands the decoded first value to the
   * observer and polls again with the `x-consul-index` header; if reading or
   * decoding throws, the rejection goes unhandled and polling ends. A 404
   * or any other status only logs, and polling ends. A rejected request is
   * not caught either.
   */
  function WatchStep(reply: KvReply, registered: bool, decode: Decoder): (step: Step)
    ensures step.next.Poll? <==> step.update.Some?
    ensures step.update.Some? <==>
      reply.Answered? && registered && reply.statusCode == 200 && DecodeFirst(reply.body, decode).Ok?
    ensures step.update.Some? ==>
      step.update.value == DecodeFirst(reply.body, decode).value && step.next == Poll(reply.consulIndex)
  {
    match reply
    case Rejected(_) => Step(None, Stop)
    case Answered(status, _, body, consulIndex) =>
      if registered && status == 200 then
        match DecodeFirst(body, decode)
        case Ok(v) => Step(Some(v), Poll(consulIndex))
        case Err(_) => Step(None, Stop)
      else Step(None, Stop)
  }

  /** `getRequest({ key, index })`: the request each poll sends. */
  function PollRequest(key: Value, index: Value): Value {
    Requests.GetRequest(Obj([Field("key", key), Field("index", index)]))
  }

  /** A poll carries its token as the request's own `index`, overriding the default. */
  lemma PollRequestIndex(key: Value, index: Value)
    ensures Prop(PollRequest(key, index), "index") == index
  {
    var options := Obj([Field("key", key), Field("index", index)]);
    PropCons(Field("key", key), [Field("index", index)], "index");
    PropCons(Field("index", index), [], "index");
    assert Keys(options)[1] == "index";
    Requests.OverOwnKeys(Requests.DefaultGetRequest, options, "index");
  }

  /**
   * The header a poll sends for the token it carries: none for the first
   * poll; otherwise `index + 1` with JavaScript's `+`, so the header string
   * taken from `x-consul-index` gets a `"1"` appended rather than being
   * incremented.
   */
  lemma PollIndexHeader(key: Value, index: Value)
    ensures index == Undefined ==>
      Constants.ConsulIndexHeader !in Keys(Utils.HeadersForRequest(PollRequest(key, index)))
    ensures index.Str? ==>
      Prop(Utils.HeadersForRequest(PollRequest(key, index)), Constants.ConsulIndexHeader) == Str(index.s + "1")
  {
    PollRequestIndex(key, index);
    IndexHeaderOf(PollRequest(key, index));
  }

  /** The index header of any request: absent without an index, `index + 1` with one. */
  lemma IndexHeaderOf(req: Value)
    requires req.Obj?
    ensures Prop(req, "index") == Undefined ==> Constants.ConsulIndexHeader !in Keys(Utils.HeadersForRequest(req))
    ensures Prop(req, "index") != Undefined ==>
      Prop(Utils.HeadersForRequest(req), Constants.ConsulIndexHeader) == PlusOne(Prop(req, "index"))
  {
    Utils.HeaderValues(req);
    Utils.HeaderNames(req);
    Constants.HeaderNamesDiffer();
  }

  /** `KvStore`: the observer registered for each watched path. */
  class KvStore {
    var watchMap: map<Value, Observers.Observer>

    /** The constructor: nothing is watched. */
    constructor()
      ensures watchMap == map[]
    {
      watchMap := map[];
    }

    /**
     * `watch`: a fresh observer without a value is registered under the
     * key's path, replacing any earlier one; the first poll then goes out
     * without a token.
     */
    method Watch(key: Value) returns (observer: Observers.Observer, firstPoll: Next)
      requires Utils.Readable(key)
      modifies this
      ensures fresh(observer)
      ensures watchMap == old(watchMap)[Prop(key, "path") := observer]
      ensures observer.isActive && observer.value == Null && observer.previous == Null
      ensures observer.listeners == [] && observer.log == []
      ensures firstPoll == Poll(Undefined)
    {
      observer := new Observers.Observer(Undefined);
      watchMap := watchMap[Prop(key, "path") := observer];
      firstPoll := Poll(Undefined);
    }

    /** `ignore`: the path is unregistered; its observer is neither destroyed nor touched. */
    method Ignore(key: Value)
      requires Utils.Readable(key)
      modifies this
      ensures watchMap == old(watchMap) - {Prop(key, "path")}
    {
      watchMap := watchMap - {Prop(key, "path")};
    }

    /**
     * Handles the reply to a poll of `key` on behalf of `observer`: the
     * observer gets the value of `WatchStep` through its sink, whatever
     * the sink returns, and the next poll is the one `WatchStep` schedules.
     */
    method Receive(key: Value, observer: Observers.Observer, reply: KvReply, decode: Decoder) returns (next: Next)
      requires Utils.Readable(key)
      modifies observer
      ensures var step := WatchStep(reply, Prop(key, "path") in watchMap, decode);
        && next == step.next
        && observer.isActive == old(observer.isActive) && observer.listeners == old(observer.listeners)
        && (step.update.Some? && old(observer.isActive) && !StrictEquals(step.update.value, old(observer.value)) ==>
              observer.value == step.update.value && observer.previous == old(observer.value)
              && observer.log == old(observer.log) + Cells.Notify(observer.listeners, step.update.value))
        && (step.update.None? || !old(observer.isActive) || StrictEquals(step.update.value, old(observer.value)) ==>
              observer.value == old(observer.value) && observer.previous == old(observer.previous)
              && observer.log == old(observer.log))
    {
      next := Stop;
      if Prop(key, "path") in watchMap {
        match reply {
          case Rejected(_) =>
          case Answered(status, _, body, consulIndex) =>
            if status == 200 {
              var decoded := DecodeFirst(body, decode);
              if decoded.Ok? {
                var _ := observer.Update(decoded.value);
                next := Poll(consulIndex);
              }
            }
        }
      }
    }
  }
}
