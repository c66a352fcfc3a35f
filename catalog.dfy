/**
 * The service catalog (catalog/Catalog.ts): how the replies to the catalog
 * calls settle, `resolveAddress`, and the polling loop behind
 * `watchAddress` with its retry budget and the registry of watched
 * services. The HTTP exchange is a `Reply`; `Math.random` is the index
 * `pick`; the sink's verdict is the parameter `accepted`; the 5000 ms
 * timers become the scheduled `Next` action.
 */
module Catalogs {
  import opened Wrappers
  import opened JsValues
  import opened Text
  import Observers

  // ---------------------------------------------------------------------------
  // Replies and the list/register calls
  // ---------------------------------------------------------------------------

  /** The `Service` part of one healthy entry: a missing port is `None`. */
  datatype ServiceEntry = ServiceEntry(address: string, port: Option<int>, modifyIndex: int)

  /** What a request comes back with: a response, or a rejection with the error's message. */
  datatype Reply<T> = Answered(statusCode: int, statusMessage: string, body: T) | Rejected(message: string)

  /**
   * The `.then` shared by `registerEntity`, `listNodes`, `listServices` and
   * `listNodesForService`: only a 200 resolves, with the body; any other
   * status rejects with the status message; a rejected request stays rejected.
   */
  function Settle<T>(reply: Reply<T>): (r: Result<T, string>)
    ensures r.Ok? <==> reply.Answered? && reply.statusCode == 200
    ensures r.Ok? ==> r.value == reply.body
    ensures reply.Answered? && reply.statusCode != 200 ==> r == Err(reply.statusMessage)
    ensures reply.Rejected? ==> r == Err(reply.message)
  {
    match reply
    case Rejected(m) => Err(m)
    case Answered(status, message, body) => if status == 200 then Ok(body) else Err(message)
  }

  /**
   * The name `listNodesForService` asks for: the part before the first `?`
   * (the query part only feeds the query map). `watchAddress` sends the
   * name whole.
   */
  function ListedServiceName(serviceName: string): (name: string)
    ensures name <= serviceName
    ensures '?' !in name
    ensures '?' !in serviceName <==> name == serviceName
    ensures '?' in serviceName ==> |name| < |serviceName| && serviceName[|name|] == '?'
  {
    var i := IndexOfChar(serviceName, '?');
    var parts := Split(serviceName, '?');
    assert parts[0] == serviceName[..i];
    parts[0]
  }

  // ---------------------------------------------------------------------------
  // Addresses
  // ---------------------------------------------------------------------------

  /** `Port || 80`: a missing or zero port falls back to 80. */
  function PortOr80(port: Option<int>): (p: int)
    ensures p != 0
    ensures port.Some? && port.value != 0 ==> p == port.value
    ensures port.None? || port.value == 0 ==> p == 80
  {
    if port.Some? && port.value != 0 then port.value else 80
  }

  /** `${Address}:${Port || 80}` */
  function AddressOf(e: ServiceEntry): string {
    e.address + ":" + IntToString(PortOr80(e.port))
  }

  /** An entry without a usable port is reached on port 80. */
  lemma DefaultPort(e: ServiceEntry)
    requires e.port.None? || e.port == Some(0)
    ensures AddressOf(e) == e.address + ":80"
  {
    assert NatToString(8) == "8";
    assert NatToString(80) == NatToString(8) + [Digit(0)];
  }

  /** The message `resolveAddress` rejects with when no healthy instance is listed. */
  function NoServiceMessage(serviceName: string): string {
    "No service found with name[" + serviceName + "]"
  }

  /**
   * `resolveAddress`: the address of the picked entry of a non-empty list;
   * an empty list rejects with `NoServiceMessage`, and a failed listing
   * passes its error through.
   */
  function ResolveAddress(serviceName: string, listed: Result<seq<ServiceEntry>, string>, pick: nat): (r: Result<string, string>)
    requires listed.Ok? && listed.value != [] ==> pick < |listed.value|
    ensures r.Ok? <==> listed.Ok? && listed.value != []
    ensures r.Ok? ==> exists i :: 0 <= i < |listed.value| && r.value == AddressOf(listed.value[i])
    ensures listed.Err? ==> r == Err(listed.error)
    ensures listed == Ok([]) ==> r == Err(NoServiceMessage(serviceName))
  {
    match listed
    case Err(e) => Err(e)
    case Ok(entries) =>
      if |entries| > 0 then Ok(AddressOf(entries[pick])) else Err(NoServiceMessage(serviceName))
  }

  /** Resolving a name settles its listing first: a non-200 status rejects with its message. */
  lemma ResolveAfterListing(serviceName: string, reply: Reply<seq<ServiceEntry>>, pick: nat)
    requires reply.Answered? && reply.statusCode == 200 && reply.body != [] ==> pick < |reply.body|
    ensures var r := ResolveAddress(serviceName, Settle(reply), pick);
      && (r.Ok? <==> reply.Answered? && reply.statusCode == 200 && reply.body != [])
      && (r.Ok? ==> r.value == AddressOf(reply.body[pick]))
      && (reply.Answered? && reply.statusCode != 200 ==> r == Err(reply.statusMessage))
      && (reply.Answered? && reply.statusCode == 200 && reply.body == [] ==> r == Err(NoServiceMessage(serviceName)))
  {
  }

  // ---------------------------------------------------------------------------
  // The watch loop, one reply at a time
  // ---------------------------------------------------------------------------

  /** What the handler leaves scheduled once it has dealt with a reply. */
  datatype Next =
    | PollNow(token: int)    // `_watch(modifyIndex)` at once
    | PollLater(token: int)  // `setTimeout(() => _watch(index), 5000)`: the same token, later
    | RetryLater             // `setTimeout(_watch, 5000)`: a fresh poll without a token
    | Stop                   // nothing further

  /** What the handler hands the sink. */
  datatype Push = Nothing | Address(address: string) | Failure(message: string)

  /** The outcome of handling one reply: the push, what is scheduled next, and the retry counter after. */
  datatype Step = Step(push: Push, next: Next, numRetries: nat)

  /** The message of the error pushed once the retries are spent. */
  function WatchErrorMessage(serviceName: string, message: string): string {
    "Error retrieving address for service[" + serviceName + "]: " + message + "."
  }

  /**
   * What reading `metadata[ID].Service` throws when the list is empty: the
   * error lands in the `.catch` with this message.
   */
  const MissingEntryMessage: string := "Cannot read properties of undefined (reading 'Service')"

  /** The `.catch`, and any status other than 200 and 404: retry while the budget lasts, then push an error. */
  function Failed(numRetries: nat, maxRetries: int, message: string): (step: Step) {
    if numRetries < maxRetries then Step(Nothing, RetryLater, numRetries + 1)
    else Step(Failure(message), Stop, numRetries)
  }

  /**
   * The handler `_watch` attaches to one poll sent with `token`. A reply
   * for a service no longer registered is dropped, but a rejection is
   * handled whatever the registry holds. A 200 resets the counter; it pushes
   * the picked address when its `ModifyIndex` differs from the token and
   * polls again at once with that index if the sink accepted, or polls
   * later with the same token when the index is unchanged. A 404 retries
   * while the budget lasts and then stops silently; other failures push one
   * error once the budget is spent.
   */
  function WatchStep(numRetries: nat, maxRetries: int, serviceName: string, token: Option<int>,
                     reply: Reply<seq<ServiceEntry>>, pick: nat, registered: bool, accepted: bool): (step: Step)
    requires reply.Answered? && reply.body != [] ==> pick < |reply.body|
    ensures step.numRetries == 0 || step.numRetries == numRetries || step.numRetries == numRetries + 1
    ensures step.next == RetryLater <==> step.numRetries == numRetries + 1
    ensures step.next == RetryLater ==> numRetries < maxRetries && step.push == Nothing
    ensures step.push.Failure? ==> numRetries >= maxRetries && step.next == Stop && step.numRetries == numRetries
    ensures step.next.PollNow? ==> accepted && token != Some(step.next.token) && step.push.Address? && step.numRetries == 0
    ensures step.next.PollLater? ==> token == Some(step.next.token) && step.push == Nothing && step.numRetries == 0
    ensures step.push.Address? ==>
      registered && reply.Answered? && reply.statusCode == 200 && reply.body != []
      && step.push.address == AddressOf(reply.body[pick]) && token != Some(reply.body[pick].modifyIndex)
    ensures reply.Answered? && !registered ==> step == Step(Nothing, Stop, numRetries)
  {
    match reply
    case Rejected(message) => Failed(numRetries, maxRetries, WatchErrorMessage(serviceName, message))
    case Answered(status, message, entries) =>
      if !registered then Step(Nothing, Stop, numRetries)
      else if status == 200 then
        if entries == [] then Failed(numRetries, maxRetries, WatchErrorMessage(serviceName, MissingEntryMessage))
        else
          var entry := entries[pick];
          if token != Some(entry.modifyIndex) then
            Step(Address(AddressOf(entry)), if accepted then PollNow(entry.modifyIndex) else Stop, 0)
          else Step(Nothing, PollLater(entry.modifyIndex), 0)
      else if status == 404 then
        if numRetries < maxRetries then Step(Nothing, RetryLater, numRetries + 1) else Step(Nothing, Stop, numRetries)
      else Failed(numRetries, maxRetries, WatchErrorMessage(serviceName, message))
  }

  /**
   * A 200 with entries for a watched service resets the counter. A new
   * `ModifyIndex` pushes the picked address and, if the sink accepted it,
   * polls at once with that index; an unchanged index pushes nothing and
   * polls later with the same index.
   */
  lemma OkReplyStep(numRetries: nat, maxRetries: int, serviceName: string, token: Option<int>,
                    message: string, entries: seq<ServiceEntry>, pick: nat, accepted: bool)
    requires pick < |entries|
    ensures var step := WatchStep(numRetries, maxRetries, serviceName, token, Answered(200, message, entries), pick, true, accepted);
      var idx := entries[pick].modifyIndex;
      && step.numRetries == 0
      && (token != Some(idx) ==> step == Step(Address(AddressOf(entries[pick])), if accepted then PollNow(idx) else Stop, 0))
      && (token == Some(idx) ==> step == Step(Nothing, PollLater(idx), 0))
  {
  }

  /** A 200 with no entries for a watched service fails like a rejection, with the message of the failed read. */
  lemma EmptyOkReplyStep(numRetries: nat, maxRetries: int, serviceName: string, token: Option<int>,
                         message: string, pick: nat, accepted: bool)
    ensures WatchStep(numRetries, maxRetries, serviceName, token, Answered(200, message, []), pick, true, accepted)
         == Failed(numRetries, maxRetries, WatchErrorMessage(serviceName, MissingEntryMessage))
  {
  }

  /** Any status other than 200 and 404 for a watched service fails with the reply's status message. */
  lemma ErrorReplyStep(numRetries: nat, maxRetries: int, serviceName: string, token: Option<int>,
                       status: int, message: string, entries: seq<ServiceEntry>, pick: nat, accepted: bool)
    requires status != 200 && status != 404 && (entries != [] ==> pick < |entries|)
    ensures WatchStep(numRetries, maxRetries, serviceName, token, Answered(status, message, entries), pick, true, accepted)
         == Failed(numRetries, maxRetries, WatchErrorMessage(serviceName, message))
  {
  }

  /** A 404 never pushes anything: once the budget is spent, the loop stops without an error. */
  lemma NotFoundNeverPushes(numRetries: nat, maxRetries: int, serviceName: string, token: Option<int>,
                            message: string, entries: seq<ServiceEntry>, pick: nat, registered: bool, accepted: bool)
    requires entries != [] ==> pick < |entries|
    ensures var step := WatchStep(numRetries, maxRetries, serviceName, token, Answered(404, message, entries), pick, registered, accepted);
      && step.push == Nothing
      && (registered && numRetries < maxRetries ==> step == Step(Nothing, RetryLater, numRetries + 1))
      && (numRetries >= maxRetries || !registered ==> step == Step(Nothing, Stop, numRetries))
  {
  }

  /** The `.catch` does not look at the registry: a rejection is handled alike for watched and ignored services. */
  lemma RejectionIgnoresRegistry(numRetries: nat, maxRetries: int, serviceName: string, token: Option<int>,
                                 message: string, pick: nat, accepted: bool)
    ensures WatchStep(numRetries, maxRetries, serviceName, token, Rejected(message), pick, true, accepted)
         == WatchStep(numRetries, maxRetries, serviceName, token, Rejected(message), pick, false, accepted)
    ensures WatchStep(numRetries, maxRetries, serviceName, token, Rejected(message), pick, false, accepted)
         == Failed(numRetries, maxRetries, WatchErrorMessage(serviceName, message))
  {
  }

  /** The retry counter stays within its budget (or at zero when the budget is not positive). */
  ghost predicate WithinBudget(numRetries: nat, maxRetries: int) {
    numRetries == 0 || numRetries <= maxRetries
  }

  /**
   * The replies a loop meets when every poll is rejected: each retry polls
   * without a token, and the run ends with the first step that schedules
   * nothing.
   */
  function Rejections(numRetries: nat, maxRetries: int, serviceName: string, messages: seq<string>): (steps: seq<Step>)
    ensures |steps| <= |messages|
    decreases |messages|
  {
    if messages == [] then []
    else
      var step := WatchStep(numRetries, maxRetries, serviceName, None, Rejected(messages[0]), 0, true, true);
      [step] + (if step.next == RetryLater then Rejections(step.numRetries, maxRetries, serviceName, messages[1..]) else [])
  }

  /**
   * From `numRetries` within the budget, a run of rejections retries
   * exactly `maxRetries - numRetries` times and then pushes one error,
   * carrying the last rejection's message, and stops.
   */
  lemma {:induction false} RetryBudgetSpent(numRetries: nat, maxRetries: int, serviceName: string, messages: seq<string>)
    requires numRetries <= maxRetries && |messages| == maxRetries - numRetries + 1
    ensures var steps := Rejections(numRetries, maxRetries, serviceName, messages);
      && |steps| == |messages|
      && (forall i :: 0 <= i < |steps| - 1 ==> steps[i] == Step(Nothing, RetryLater, numRetries + i + 1))
      && steps[|steps| - 1] == Step(Failure(WatchErrorMessage(serviceName, messages[|messages| - 1])), Stop, maxRetries)
    decreases |messages|
  {
    var steps := Rejections(numRetries, maxRetries, serviceName, messages);
    if numRetries == maxRetries {
      assert steps == [Step(Failure(WatchErrorMessage(serviceName, messages[0])), Stop, maxRetries)];
    } else {
      var rest := Rejections(numRetries + 1, maxRetries, serviceName, messages[1..]);
      RetryBudgetSpent(numRetries + 1, maxRetries, serviceName, messages[1..]);
      assert steps == [Step(Nothing, RetryLater, numRetries + 1)] + rest;
      forall i | 1 <= i < |steps| - 1
        ensures steps[i] == Step(Nothing, RetryLater, numRetries + i + 1)
      {
        assert steps[i] == rest[i - 1];
      }
    }
  }

  // ---------------------------------------------------------------------------
  // One watch: the closure state of `watchAddress`
  // ---------------------------------------------------------------------------

  /** The state `_watch` closes over: the retry counter and the token of the poll in flight. */
  class AddressWatch {
    const serviceName: string
    const maxRetries: int
    var numRetries: nat
    /** The token the pending poll carries; `None` for the first poll and for a retry. */
    var token: Option<int>
    /** Whether a poll is in flight or scheduled. */
    var polling: bool

    ghost predicate Valid()
      reads this
    {
      WithinBudget(numRetries, maxRetries)
    }

    /** A new watch: no retries yet, the first poll in flight without a token. */
    constructor(serviceName: string, maxRetries: int)
      ensures Valid()
      ensures this.serviceName == serviceName && this.maxRetries == maxRetries
      ensures numRetries == 0 && token == None && polling
    {
      this.serviceName := serviceName;
      this.maxRetries := maxRetries;
      numRetries := 0;
      token := None;
      polling := true;
    }

    /**
     * Handles the reply to the pending poll, given the catalog whose
     * registry it consults and the sink's verdict, and records what is
     * scheduled next. The counter stays within the budget.
     */
    method Receive(catalog: Catalog, reply: Reply<seq<ServiceEntry>>, pick: nat, accepted: bool) returns (step: Step)
      requires Valid() && polling
      requires reply.Answered? && reply.body != [] ==> pick < |reply.body|
      modifies this
      ensures Valid()
      ensures step == WatchStep(old(numRetries), maxRetries, serviceName, old(token), reply, pick,
                                serviceName in catalog.watchMap, accepted)
      ensures numRetries == step.numRetries
      ensures polling <==> step.next != Stop
      ensures step.next.PollNow? || step.next.PollLater? ==> token == Some(step.next.token)
      ensures step.next == RetryLater ==> token == None
      ensures step.next == Stop ==> token == old(token)
    {
      var registered := serviceName in catalog.watchMap;
      var push, next := Nothing, Stop;
      match reply {
        case Rejected(message) =>
          push, next := RetryOrFail(WatchErrorMessage(serviceName, message));
        case Answered(status, message, entries) =>
          if registered {
            if status == 200 {
              if entries == [] {
                push, next := RetryOrFail(WatchErrorMessage(serviceName, MissingEntryMessage));
              } else {
                var entry := entries[pick];
                numRetries := 0;
                if token != Some(entry.modifyIndex) {
                  push := Address(AddressOf(entry));
                  if accepted {
                    next := PollNow(entry.modifyIndex);
                  }
                } else {
                  next := PollLater(entry.modifyIndex);
                }
              }
            } else if status == 404 {
              if numRetries < maxRetries {
                next := RetryLater;
                numRetries := numRetries + 1;
              }
            } else {
              push, next := RetryOrFail(WatchErrorMessage(serviceName, message));
            }
          }
      }
      step := Step(push, next, numRetries);
      match next {
        case PollNow(t) => token := Some(t);
        case PollLater(t) => token := Some(t);
        case RetryLater => token := None;
        case Stop =>
      }
      polling := next != Stop;
    }

    /** The shared retry branch: schedule a retry and count it, or push the error once the budget is spent. */
    method RetryOrFail(message: string) returns (push: Push, next: Next)
      requires Valid()
      modifies this
      ensures Valid()
      ensures Step(push, next, numRetries) == Failed(old(numRetries), maxRetries, message)
      ensures token == old(token) && polling == old(polling)
    {
      if numRetries < maxRetries {
        push, next := Nothing, RetryLater;
        numRetries := numRetries + 1;
      } else {
        push, next := Failure(message), Stop;
      }
    }
  }

  // ---------------------------------------------------------------------------
  // The catalog and its registry of watched services
  // ---------------------------------------------------------------------------

  /** `Catalog`: the retry budget and the observer registered for each watched service name. */
  class Catalog {
    const maxRetries: int
    var watchMap: map<string, Observers.Observer>

    /** The constructor: `maxRetries` defaults to 5, and nothing is watched. */
    constructor(maxRetries: Option<int>)
      ensures this.maxRetries == (if maxRetries.Some? then maxRetries.value else 5)
      ensures watchMap == map[]
    {
      this.maxRetries := if maxRetries.Some? then maxRetries.value else 5;
      watchMap := map[];
    }

    /**
     * `watchAddress`: a fresh active observer with no value is registered
     * under the name (replacing any earlier one), and a fresh watch starts
     * with its first poll in flight.
     */
    method WatchAddress(serviceName: string) returns (observer: Observers.Observer, watch: AddressWatch)
      modifies this
      ensures fresh(observer) && fresh(watch)
      ensures watchMap == old(watchMap)[serviceName := observer]
      ensures observer.isActive && observer.value == Null && observer.previous == Null
      ensures observer.listeners == [] && observer.log == []
      ensures watch.Valid() && watch.serviceName == serviceName && watch.maxRetries == maxRetries
      ensures watch.numRetries == 0 && watch.token == None && watch.polling
    {
      observer := new Observers.Observer(Undefined);
      watch := new AddressWatch(serviceName, maxRetries);
      watchMap := watchMap[serviceName := observer];
    }

    /**
     * `ignoreAddress`: a registered observer is destroyed and its entry
     * removed; an unknown name changes nothing, so a second call is a no-op.
     */
    method IgnoreAddress(serviceName: string)
      modifies this, if serviceName in watchMap then {watchMap[serviceName]} else {}
      ensures watchMap == old(watchMap) - {serviceName}
      ensures serviceName in old(watchMap) ==>
        var o := old(watchMap)[serviceName];
        !o.isActive && o.listeners == [] && o.value == old(o.value) && o.previous == old(o.previous) && o.log == old(o.log)
    {
      if serviceName in watchMap {
        var observer := watchMap[serviceName];
        observer.Destroy();
        watchMap := watchMap - {serviceName};
      }
    }
  }
}
