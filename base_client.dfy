/**
 * The failover cursor shared by the clients (BaseClient.ts): an ordered list
 * of normalised base addresses, the index of the one in use and the address
 * itself. Each failed request is one event that moves the cursor, retries, or
 * gives up. The transport (`processRequest`) is a function from the address
 * tried to an outcome; the one-second pause before a retry is left out.
 */
module BaseClients {
  import opened Wrappers
  import opened Utils
  import Constants

  /** What one attempt through the transport yields. */
  datatype Outcome = Resolved(status: int) | Failed(message: string)

  /** What `runRetry` decides: send again, or reject with the error. */
  datatype RetryStep = Retry | Reject

  /** The address form the constructor stores: edge slashes trimmed, then `http://` if no web protocol. */
  function Normalize(address: string): (r: string)
    ensures HasWebProtocol(r)
  {
    EnsureProtocol(RemoveLeadingTrailingSlash(address))
  }

  /** `destinations.map(...)`: every address normalised, in order. */
  function NormalizeAll(addresses: seq<string>): (r: seq<string>)
    ensures |r| == |addresses|
    ensures forall i :: 0 <= i < |r| ==> r[i] == Normalize(addresses[i])
  {
    seq(|addresses|, i requires 0 <= i < |addresses| => Normalize(addresses[i]))
  }

  /** `destinations[i]`, which is `undefined` past the end of the list. */
  function At(destinations: seq<string>, i: int): Option<string> {
    if 0 <= i < |destinations| then Some(destinations[i]) else None
  }

  /** The record of one `send` run to completion: what it returned, the addresses tried, and the cursor after it. */
  datatype Run = Run(result: Outcome, tried: seq<Option<string>>, index: int, current: Option<string>)

  /** A run preceded by earlier attempts at the addresses `before`. */
  function Resume(before: seq<Option<string>>, rest: Run): Run {
    Run(rest.result, before + rest.tried, rest.index, rest.current)
  }

  /** Earlier attempts can be prepended in one go or in two. */
  lemma ResumeTwice(first: seq<Option<string>>, second: seq<Option<string>>, rest: Run)
    ensures Resume(first, Resume(second, rest)) == Resume(first + second, rest)
  {
    assert first + (second + rest.tried) == (first + second) + rest.tried;
  }

  /**
   * A single request sent until it settles, with no other request in flight:
   * it tries the current address; on failure `runRetry` advances the cursor
   * and tries again while an address is left, and otherwise resets the index,
   * keeps the current address and reports the last error.
   */
  function Failover(destinations: seq<string>, index: int, current: Option<string>,
                    respond: Option<string> -> Outcome): (run: Run)
    requires 0 <= index
    ensures |run.tried| >= 1 && run.tried[0] == current
    ensures run.result == respond(run.tried[|run.tried| - 1])
    decreases |destinations| - index
  {
    var outcome := respond(current);
    if outcome.Resolved? then Run(outcome, [current], index, current)
    else if index < |destinations| - 1 then
      Resume([current], Failover(destinations, index + 1, Some(destinations[index + 1]), respond))
    else Run(outcome, [current], 0, current)
  }

  /** The cursor over the addresses. */
  class BaseClient {
    var destinations: seq<string>
    var currentIndex: int
    var currentDestination: Option<string>

    /**
     * The index stays within the list (it is 0 for an empty list), and the
     * current address is one of the addresses, absent only for an empty list.
     */
    ghost predicate Valid()
      reads this
    {
      && 0 <= currentIndex
      && (currentIndex < |destinations| || currentIndex == 0)
      && (currentDestination.None? <==> destinations == [])
      && (currentDestination.Some? ==> currentDestination.value in destinations)
    }

    /** `constructor(destinations = [DEFAULT_HOST])`: every address normalised, the cursor on the first. */
    constructor(addresses: Option<seq<string>>)
      ensures Valid()
      ensures destinations == NormalizeAll(match addresses case Some(a) => a case None => [Constants.DefaultHost])
      ensures currentIndex == 0
      ensures currentDestination == At(destinations, 0)
    {
      var given := match addresses case Some(a) => a case None => [Constants.DefaultHost];
      destinations := NormalizeAll(given);
      currentIndex := 0;
      currentDestination := At(NormalizeAll(given), 0);
    }

    /**
     * `runRetry` after a request sent to `dest` failed: advance and retry when
     * `dest` is still current and an address is left; retry without moving when
     * another request already moved the cursor; otherwise reset the index to 0,
     * keep the current address and reject.
     */
    method RunRetry(dest: Option<string>) returns (step: RetryStep)
      requires Valid()
      modifies this
      ensures Valid()
      ensures destinations == old(destinations)
      ensures dest == old(currentDestination) && old(currentIndex) < |destinations| - 1 ==>
        step == Retry && currentIndex == old(currentIndex) + 1 && currentDestination == Some(destinations[currentIndex])
      ensures dest != old(currentDestination) ==>
        step == Retry && currentIndex == old(currentIndex) && currentDestination == old(currentDestination)
      ensures dest == old(currentDestination) && old(currentIndex) >= |destinations| - 1 ==>
        step == Reject && currentIndex == 0 && currentDestination == old(currentDestination)
    {
      if currentIndex < |destinations| - 1 || dest != currentDestination {
        if dest == currentDestination {
          currentIndex := currentIndex + 1;
          currentDestination := Some(destinations[currentIndex]);
        }
        step := Retry;
      } else {
        currentIndex := 0;
        step := Reject;
      }
    }

    /**
     * One `send`: the request goes to the current address; a resolved response
     * settles it whatever its status, and a failure goes through `RunRetry`,
     * which either settles it with the error or leaves it to be sent again.
     */
    method Attempt(respond: Option<string> -> Outcome) returns (result: Outcome, settled: bool)
      requires Valid()
      modifies this
      ensures Valid()
      ensures destinations == old(destinations)
      ensures result == respond(old(currentDestination))
      ensures result.Resolved? ==> settled && currentIndex == old(currentIndex) && currentDestination == old(currentDestination)
      ensures settled ==> Failover(destinations, old(currentIndex), old(currentDestination), respond)
                          == Run(result, [old(currentDestination)], currentIndex, currentDestination)
      ensures !settled ==> currentIndex == old(currentIndex) + 1
      ensures !settled ==> Failover(destinations, old(currentIndex), old(currentDestination), respond)
                           == Resume([old(currentDestination)], Failover(destinations, currentIndex, currentDestination, respond))
    {
      var dest := currentDestination;
      ghost var index := currentIndex;
      result := respond(dest);
      if result.Resolved? {
        FailoverAnswers(destinations, index, dest, respond);
        settled := true;
      } else {
        var step := RunRetry(dest);
        settled := step == Reject;
        if settled {
          FailoverGivesUp(destinations, index, dest, respond);
        } else {
          FailoverStep(destinations, index, dest, respond);
        }
      }
    }

    /**
     * `send` with no other request in flight, sent again after each retry
     * until it settles. The run is the one `Failover` describes.
     */
    method Send(respond: Option<string> -> Outcome) returns (result: Outcome, tried: seq<Option<string>>)
      requires Valid()
      modifies this
      ensures Valid()
      ensures destinations == old(destinations)
      ensures Failover(destinations, old(currentIndex), old(currentDestination), respond)
           == Run(result, tried, currentIndex, currentDestination)
    {
      ghost var start := Failover(destinations, currentIndex, currentDestination, respond);
      tried := [];
      result := Failed("");
      var settled := false;
      while !settled
        invariant Valid()
        invariant destinations == old(destinations)
        invariant !settled ==> start == Resume(tried, Failover(destinations, currentIndex, currentDestination, respond))
        invariant settled ==> start == Run(result, tried, currentIndex, currentDestination)
        decreases if settled then 0 else |destinations| - currentIndex + 1
      {
        ghost var before := tried;
        var dest := currentDestination;
        tried := tried + [dest];
        result, settled := Attempt(respond);
        if !settled {
          ResumeTwice(before, [dest], Failover(destinations, currentIndex, currentDestination, respond));
        }
      }
    }
  }

  /**
   * From the cursor on address `i` with every attempt failing, the remaining
   * addresses are each tried once, in order, and the last one's error is
   * reported; the index ends at 0 and the current address at the last one.
   */
  lemma {:induction false} FailoverExhausts(destinations: seq<string>, i: nat, respond: Option<string> -> Outcome)
    requires i < |destinations|
    requires forall d :: respond(d).Failed?
    ensures var run := Failover(destinations, i, Some(destinations[i]), respond);
      && |run.tried| == |destinations| - i
      && (forall j :: 0 <= j < |run.tried| ==> run.tried[j] == Some(destinations[i + j]))
      && run.result == respond(Some(destinations[|destinations| - 1]))
      && run.index == 0
      && run.current == Some(destinations[|destinations| - 1])
    decreases |destinations| - i
  {
    if i < |destinations| - 1 {
      FailoverExhausts(destinations, i + 1, respond);
    }
  }

  /**
   * When some address from `i` on answers, the run stops at the first one that
   * does and returns its response; every address before it was tried once.
   */
  lemma {:induction false} FailoverStopsAtFirstAnswer(destinations: seq<string>, i: nat, k: nat,
                                                      respond: Option<string> -> Outcome)
    requires i <= k < |destinations|
    requires respond(Some(destinations[k])).Resolved?
    requires forall j :: i <= j < k ==> respond(Some(destinations[j])).Failed?
    ensures var run := Failover(destinations, i, Some(destinations[i]), respond);
      && run.result == respond(Some(destinations[k]))
      && |run.tried| == k - i + 1
      && (forall j :: 0 <= j < |run.tried| ==> run.tried[j] == Some(destinations[i + j]))
      && run.index == k
      && run.current == Some(destinations[k])
    decreases k - i
  {
    if i < k {
      FailoverStopsAtFirstAnswer(destinations, i + 1, k, respond);
    }
  }

  /**
   * After a failed round the index is back at 0 but the current address is
   * still the last one, so the next request tries the last address first and
   * then the second, third and so on: the first address is not tried again.
   */
  lemma SecondRoundSkipsFirst(destinations: seq<string>, respond: Option<string> -> Outcome)
    requires |destinations| >= 2
    requires forall d :: respond(d).Failed?
    ensures var run := Failover(destinations, 0, Some(destinations[|destinations| - 1]), respond);
      && |run.tried| == |destinations|
      && run.tried[0] == Some(destinations[|destinations| - 1])
      && (forall j :: 1 <= j < |destinations| ==> run.tried[j] == Some(destinations[j]))
      && (destinations[0] !in destinations[1..] ==> Some(destinations[0]) !in run.tried)
  {
    var last := Some(destinations[|destinations| - 1]);
    var rest := Failover(destinations, 1, Some(destinations[1]), respond);
    FailoverExhausts(destinations, 1, respond);
    FailoverStep(destinations, 0, last, respond);
    var run := Failover(destinations, 0, last, respond);
    assert run.tried == [last] + rest.tried;
    if destinations[0] !in destinations[1..] {
      forall j | 0 <= j < |run.tried| ensures run.tried[j] != Some(destinations[0]) {
        var k := if j == 0 then |destinations| - 1 else j;
        assert run.tried[j] == Some(destinations[k]);
        assert destinations[k] == destinations[1..][k - 1];
      }
    }
  }

  /** A resolved attempt ends the run where it is. */
  lemma FailoverAnswers(destinations: seq<string>, index: nat, current: Option<string>, respond: Option<string> -> Outcome)
    requires respond(current).Resolved?
    ensures Failover(destinations, index, current, respond) == Run(respond(current), [current], index, current)
  {
  }

  /** A failure with an address left moves on to the next address. */
  lemma FailoverStep(destinations: seq<string>, index: nat, current: Option<string>, respond: Option<string> -> Outcome)
    requires respond(current).Failed? && index < |destinations| - 1
    ensures Failover(destinations, index, current, respond)
         == Resume([current], Failover(destinations, index + 1, Some(destinations[index + 1]), respond))
  {
  }

  /** A failure at the last address ends the run with the cursor index reset. */
  lemma FailoverGivesUp(destinations: seq<string>, index: nat, current: Option<string>, respond: Option<string> -> Outcome)
    requires respond(current).Failed? && index >= |destinations| - 1
    ensures Failover(destinations, index, current, respond) == Run(respond(current), [current], 0, current)
  {
  }
}
