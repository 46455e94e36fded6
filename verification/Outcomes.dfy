/**
  Outcomes of proxied requests, as the circuit breaker (internal/proxy/circuit_breaker.go)
  and passive health (internal/upstream/passive_health_transport.go) classify them.
 */
module Outcomes {
  import opened Common

  datatype Outcome = Ignored | Success | Failure

  /** How a finished round trip counts. `status` is absent when there is no response. */
  function Classify(cancelled: bool, failed: bool, status: Option<int>): (outcome: Outcome)
    ensures outcome == Failure <==>
            !cancelled && (failed || (status.Some? && 500 <= status.value <= 599))
    ensures outcome == Success <==>
            !cancelled && !failed && status.Some? && !(500 <= status.value <= 599)
  {
    if cancelled then Ignored
    else if failed then Failure
    else match status
      case None => Ignored
      case Some(code) => if 500 <= code < 600 then Failure else Success
  }

  /** Failures since the last success; ignored outcomes are skipped. */
  function TrailingFailures(outcomes: seq<Outcome>): nat {
    if outcomes == [] then 0
    else
      var earlier := outcomes[..|outcomes| - 1];
      match outcomes[|outcomes| - 1]
      case Success => 0
      case Ignored => TrailingFailures(earlier)
      case Failure => TrailingFailures(earlier) + 1
  }

  lemma TrailingAppend(os: seq<Outcome>, o: Outcome)
    ensures TrailingFailures(os + [o]) ==
            match o case Success => 0
                    case Ignored => TrailingFailures(os)
                    case Failure => TrailingFailures(os) + 1
  {
    assert (os + [o])[..|os|] == os;
  }

  /** They are the failures among what follows the last success, or among everything. */
  lemma {:induction false} TrailingAreFailures(outcomes: seq<Outcome>, i: nat)
    requires i <= |outcomes| && Success !in outcomes[i..] && (i == 0 || outcomes[i - 1] == Success)
    ensures TrailingFailures(outcomes) == multiset(outcomes[i..])[Failure]
  {
    if i < |outcomes| {
      var earlier, last := outcomes[..|outcomes| - 1], outcomes[|outcomes| - 1];
      assert outcomes[i..] == earlier[i..] + [last];
      TrailingAreFailures(earlier, i);
    }
  }
}
