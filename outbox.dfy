/**
 * What the background loops do on the chat transport, as a log: each attempted
 * message with its outcome, each sleep in milliseconds, and the broadcast
 * summary sent to the operator.
 */
module Outbox {

  datatype Event =
    | Send(to: int, delivered: bool)
    | Pause(ms: nat)
    | Summary(to: int, success: nat, total: nat)

  /** Number of sleeps of exactly `ms` milliseconds in a log. */
  function PauseCount(log: seq<Event>, ms: nat): nat {
    if log == [] then 0
    else PauseCount(log[..|log| - 1], ms) + (if log[|log| - 1] == Pause(ms) then 1 else 0)
  }

  /** Total time slept over a log, in milliseconds. */
  function TotalPauseMs(log: seq<Event>): nat {
    if log == [] then 0
    else TotalPauseMs(log[..|log| - 1]) + (if log[|log| - 1].Pause? then log[|log| - 1].ms else 0)
  }

  /** Recipients of the messages attempted, in the order attempted. */
  function Recipients(log: seq<Event>): seq<int> {
    if log == [] then []
    else Recipients(log[..|log| - 1]) + (if log[|log| - 1].Send? then [log[|log| - 1].to] else [])
  }

  /** Number of messages that reached their recipient. */
  function Deliveries(log: seq<Event>): nat {
    if log == [] then 0
    else Deliveries(log[..|log| - 1]) + (if log[|log| - 1].Send? && log[|log| - 1].delivered then 1 else 0)
  }

  /** The four log measures add up over concatenated logs. */
  lemma {:induction false} MeasuresOfConcat(a: seq<Event>, b: seq<Event>, ms: nat)
    ensures PauseCount(a + b, ms) == PauseCount(a, ms) + PauseCount(b, ms)
    ensures TotalPauseMs(a + b) == TotalPauseMs(a) + TotalPauseMs(b)
    ensures Recipients(a + b) == Recipients(a) + Recipients(b)
    ensures Deliveries(a + b) == Deliveries(a) + Deliveries(b)
  {
    if b != [] {
      var b' := b[..|b| - 1];
      assert (a + b)[..|a + b| - 1] == a + b';
      MeasuresOfConcat(a, b', ms);
    } else {
      assert a + b == a;
    }
  }
}
