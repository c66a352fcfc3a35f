/**
 * What both key/value stores (kv-store/KvStore.ts and KvStore.ts) do with a
 * reply: read the first metadata entry's `Value` and decode it, and settle
 * `set` and `delete`. The decoder (`decodeBase64`: base64, then
 * `JSON.parse`) is foreign code and is a parameter; it may throw.
 */
module KvReplies {
  import opened Wrappers
  import opened JsValues
  import Utils

  /**
   * A reply from the key/value endpoint: the status, its message, the JSON
   * body and the `x-consul-index` header (`undefined` when absent); or the
   * rejection of the request itself.
   */
  datatype KvReply =
    | Answered(statusCode: int, statusMessage: string, body: Value, consulIndex: Value)
    | Rejected(message: string)

  /** `decodeBase64`: a decoded value, or the message of what it throws. */
  type Decoder = Value -> Result<Value, string>

  /** What reading a property of the missing first entry (`metadata[0]` is `undefined`) throws. */
  const UnreadableEntryMessage: string := "Cannot read properties of undefined (reading 'Value')"

  /** What a watch handler leaves scheduled: another poll at once with a token, or nothing. */
  datatype Next = Poll(index: Value) | Stop

  /** The outcome of one reply to a watch: the value handed to the observer, if any, and what comes next. */
  datatype Step = Step(update: Option<Value>, next: Next)

  /** `metadata[0]` on a metadata array: its first element, or `undefined` when it is empty. */
  lemma FirstOfList(entries: seq<Value>)
    ensures entries != [] ==> Prop(Arr(entries), "0") == entries[0]
    ensures entries == [] ==> Prop(Arr(entries), "0") == Undefined
  {
    if entries != [] {
      ArrayKeysDistinct(Arr(entries));
      assert Keys(Arr(entries))[0] == "0";
      PropOfListedKey(Arr(entries), 0);
    } else {
      assert Keys(Arr(entries)) == [];
    }
  }

  /** `decodeBase64(metadata[0].Value)`: reading through a missing first entry throws before decoding. */
  function DecodeFirst(body: Value, decode: Decoder): Result<Value, string> {
    var first := Prop(body, "0");
    if Utils.Readable(first) then decode(Prop(first, "Value")) else Err(UnreadableEntryMessage)
  }

  /**
   * On a metadata array, `metadata[0]` is the first element: a non-empty
   * list decodes its first entry's `Value`, and an empty list throws.
   */
  lemma DecodeFirstOfList(entries: seq<Value>, decode: Decoder)
    ensures entries == [] ==> DecodeFirst(Arr(entries), decode) == Err(UnreadableEntryMessage)
    ensures entries != [] && Utils.Readable(entries[0]) ==>
      DecodeFirst(Arr(entries), decode) == decode(Prop(entries[0], "Value"))
  {
    FirstOfList(entries);
  }

  /**
   * The `.then` of `set` and `delete`, alike in both stores: 200 resolves
   * with the body, 404 with `false`, any other status rejects with the
   * status message; a rejected request stays rejected.
   */
  function WriteResult(reply: KvReply): (r: Result<Value, string>)
    ensures r.Ok? <==> reply.Answered? && (reply.statusCode == 200 || reply.statusCode == 404)
    ensures reply.Answered? && reply.statusCode == 200 ==> r == Ok(reply.body)
    ensures reply.Answered? && reply.statusCode == 404 ==> r == Ok(Bool(false))
    ensures reply.Answered? && reply.statusCode != 200 && reply.statusCode != 404 ==> r == Err(reply.statusMessage)
    ensures reply.Rejected? ==> r == Err(reply.message)
  {
    match reply
    case Rejected(m) => Err(m)
    case Answered(status, message, body, _) =>
      if status == 200 then Ok(body)
      else if status == 404 then Ok(Bool(false))
      else Err(message)
  }
}
