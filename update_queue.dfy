/** The drain loop of the streaming adapters that collect SDK events into a Queue: while the
    session is not over or updates are waiting, yield the oldest update (or wait), and leave
    early when cancellation is seen after an iteration. The SDK's event callbacks are given as an
    explicit trace: before each check of the loop condition, a round of events arrives. */
module UpdateQueue {

  /** One round of the trace: the updates the event handlers enqueued, whether an event that
      ends the session fired among them, and whether cancellation is requested by the end of the
      iteration that follows. */
  datatype Round<U> = Round(arrivals: seq<U>, ends: bool, cancelled: bool)

  /** Why the loop ended: the session was over with nothing left to yield, cancellation, or (a
      bound of the model only) the trace ran out. */
  datatype Exit = Drained | Cancelled | TraceEnded

  /** Every update enqueued during the first n rounds, in order. */
  function Arrived<U>(rounds: seq<Round<U>>, n: nat): seq<U>
    requires n <= |rounds|
  {
    if n == 0 then [] else Arrived(rounds, n - 1) + rounds[n - 1].arrivals
  }

  /** An event that ends the session fired during the first n rounds. */
  predicate Ended<U>(rounds: seq<Round<U>>, n: nat)
    requires n <= |rounds|
  {
    0 < n && (rounds[n - 1].ends || Ended(rounds, n - 1))
  }

  /** How many updates a loop that has gone through the first n rounds has dequeued: one in every
      round that finds the queue non-empty once that round's updates have arrived. */
  function Served<U>(rounds: seq<Round<U>>, n: nat): (r: nat)
    requires n <= |rounds|
    ensures r <= |Arrived(rounds, n)| && r <= n
  {
    if n == 0 then 0
    else if Served(rounds, n - 1) < |Arrived(rounds, n)| then Served(rounds, n - 1) + 1
    else Served(rounds, n - 1)
  }

  /** The loop condition fails at the check that follows round n: the session is over and every
      update that arrived has been dequeued already. */
  predicate Idle<U>(rounds: seq<Round<U>>, n: nat)
    requires 1 <= n <= |rounds|
  {
    Ended(rounds, n) && Served(rounds, n - 1) == |Arrived(rounds, n)|
  }

  /** What the drain loop does with the first rounds of a trace: after steps rounds it has yielded
      the updates it dequeued, oldest first; no earlier round made it stop; it stops at the first
      check at which the session is over and the queue empty (Drained), otherwise right after the
      first iteration at whose end cancellation is seen (Cancelled), and otherwise only when the
      trace runs out. */
  ghost predicate Outcome<U>(rounds: seq<Round<U>>, yielded: seq<U>, exit: Exit, steps: nat)
  {
    && steps <= |rounds|
    && yielded == Arrived(rounds, steps)[..Served(rounds, steps)]
    && (forall k :: 1 <= k < steps ==> !Idle(rounds, k) && !rounds[k - 1].cancelled)
    && (exit == Drained <==> 0 < steps && Idle(rounds, steps))
    && (exit == Cancelled <==> 0 < steps && !Idle(rounds, steps) && rounds[steps - 1].cancelled)
    && (exit == TraceEnded ==> steps == |rounds|)
  }

  /** The drain loop over the first rounds of a trace, with its Queue. */
  method Drain<U>(rounds: seq<Round<U>>) returns (yielded: seq<U>, exit: Exit, steps: nat)
    ensures Outcome(rounds, yielded, exit, steps)
  {
    var queue: seq<U> := [];
    var ended := false;
    yielded := [];
    steps := 0;
    exit := TraceEnded;
    while steps < |rounds|
      invariant steps <= |rounds|
      invariant yielded + queue == Arrived(rounds, steps)
      invariant |yielded| == Served(rounds, steps)
      invariant ended == Ended(rounds, steps)
      invariant forall k :: 1 <= k <= steps ==> !Idle(rounds, k) && !rounds[k - 1].cancelled
    {
      queue := queue + rounds[steps].arrivals;
      ended := ended || rounds[steps].ends;
      steps := steps + 1;
      assert yielded + queue == Arrived(rounds, steps);
      assert Idle(rounds, steps) <==> ended && queue == [];
      if ended && queue == [] {
        exit := Drained;
        assert Arrived(rounds, steps)[..|yielded|] == Arrived(rounds, steps);
        return;
      }
      if queue != [] {
        assert yielded + queue == (yielded + [queue[0]]) + queue[1..];
        yielded := yielded + [queue[0]];
        queue := queue[1..];
      }
      assert |yielded| == Served(rounds, steps);
      assert yielded == Arrived(rounds, steps)[..|yielded|];
      if rounds[steps - 1].cancelled {
        exit := Cancelled;
        return;
      }
    }
    assert yielded == Arrived(rounds, steps)[..|yielded|];
  }

  /** The outcome is a function of the trace: two loops over the same rounds yield the same
      updates, stop at the same round and for the same reason. */
  lemma OutcomeDetermined<U>(rounds: seq<Round<U>>, y1: seq<U>, e1: Exit, s1: nat, y2: seq<U>, e2: Exit, s2: nat)
    requires Outcome(rounds, y1, e1, s1) && Outcome(rounds, y2, e2, s2)
    ensures y1 == y2 && e1 == e2 && s1 == s2
  {
    StopsAtTheEnd(rounds, y1, e1, s1);
    StopsAtTheEnd(rounds, y2, e2, s2);
    if s1 < |rounds| {
      StopsNoLater(rounds, y2, e2, s2, s1);
    }
    if s2 < |rounds| {
      StopsNoLater(rounds, y1, e1, s1, s2);
    }
  }

  /** The loop stops after the last round of the trace, or at a round where the session was over
      with the queue empty, or where cancellation was seen. */
  lemma StopsAtTheEnd<U>(rounds: seq<Round<U>>, yielded: seq<U>, exit: Exit, steps: nat)
    requires Outcome(rounds, yielded, exit, steps)
    ensures steps == |rounds| || (0 < steps && (Idle(rounds, steps) || rounds[steps - 1].cancelled))
  {
  }

  /** The loop does not go past a round where the session was over with the queue empty, or where
      cancellation was seen. */
  lemma StopsNoLater<U>(rounds: seq<Round<U>>, yielded: seq<U>, exit: Exit, steps: nat, k: nat)
    requires Outcome(rounds, yielded, exit, steps)
    requires 1 <= k <= |rounds| && (Idle(rounds, k) || rounds[k - 1].cancelled)
    ensures steps <= k
  {
  }

  /** Leaving at Drained means the session was over and every update that arrived was yielded. */
  lemma DrainedYieldsAll<U>(rounds: seq<Round<U>>, yielded: seq<U>, steps: nat)
    requires Outcome(rounds, yielded, Drained, steps)
    ensures yielded == Arrived(rounds, steps) && Ended(rounds, steps)
  {
    var a := Arrived(rounds, steps);
    assert 0 < steps && Idle(rounds, steps);
    assert Ended(rounds, steps) && Served(rounds, steps - 1) == |a|;
    assert Served(rounds, steps) == |a|;
    assert a[..|a|] == a;
  }

  /** At most one update is yielded per round. */
  lemma YieldsAtMostOnePerRound<U>(rounds: seq<Round<U>>, yielded: seq<U>, exit: Exit, steps: nat)
    requires Outcome(rounds, yielded, exit, steps)
    ensures |yielded| <= steps
  {
  }
}
