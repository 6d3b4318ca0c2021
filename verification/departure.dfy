/** What `handle_departure` does, and why it keeps the engine's invariant. */
module DepartureProofs {
  import opened Jobs
  import opened Events
  import opened Model
  import opened Invariants

  /** The queue a freed server of type `t` takes its next customer from: its own class's
      queue when anyone waits there, else the other class's queue. */
  function SourceQueue(s: State, t: Class): (from: Class)
    ensures s.Queue(t) != [] ==> from == t
    ensures s.Queue(t) == [] ==> from == Other(t)
  {
    if s.Queue(t) != [] then t else Other(t)
  }

  /** Someone waits, so a departure hands its server over. */
  predicate SomeoneWaits(s: State) {
    s.bQueue != [] || s.eQueue != []
  }

  /** `s'` is `s` after the departure of customer `j` at `time` with nobody waiting: the
      customer's server goes idle, and nothing else changes. */
  predicate GoesIdle(s: State, s': State, j: nat)
    requires j < |s.jobs|
  {
    var t := s.jobs[j].ServerType();
    && s'.departed == s.departed + {j} && s'.held == None && s'.trace == s.trace && s'.c == s.c
    && s'.Busy(t) == s.Busy(t) - 1 && s'.Busy(Other(t)) == s.Busy(Other(t))
    && s'.jobs == s.jobs && s'.stack == s.stack && s'.nextSeq == s.nextSeq
    && s'.bQueue == [] && s'.eQueue == []
  }

  /** `s'` is `s` after the departure of customer `j` at `time` with someone waiting: the
      freed server at once serves the head `k` of the queue `SourceQueue` picks, which leaves
      that queue; `k`'s departure is fixed one service time from now and pushed as an event,
      and the busy counters end where they were. */
  predicate HandsOver(s: State, s': State, time: int, j: nat)
    requires j < |s.jobs| && s.QueuesIndexJobs() && SomeoneWaits(s)
  {
    var t := s.jobs[j].ServerType();
    var from := SourceQueue(s, t);
    var k := s.Queue(from)[0];
    var d := time + s.jobs[k].serviceTime;
    && s'.departed == s.departed + {j} && s'.held == None && s'.trace == s.trace && s'.c == s.c
    && s'.Queue(from) == s.Queue(from)[1..] && s'.Queue(Other(from)) == s.Queue(Other(from))
    && s'.jobs == s.jobs[k := s.jobs[k].(serverType := Some(t), departure := Some(d))]
    && s'.stack == s.stack + [Event(d, Departure, k, s.nextSeq)] && s'.nextSeq == s.nextSeq + 1
    && s'.numBBusy == s.numBBusy && s'.numEBusy == s.numEBusy
  }

  /** With nobody waiting, a departure idles the server. */
  lemma DepartureIdle(s: State, time: int, j: nat)
    requires j < |s.jobs| && s.QueuesIndexJobs() && !SomeoneWaits(s)
    ensures GoesIdle(s, HandleDeparture(s, time, j), j)
  {
  }

  lemma BusinessHandOver(s: State, time: int, j: nat)
    requires j < |s.jobs| && s.QueuesIndexJobs() && SomeoneWaits(s)
    requires s.jobs[j].ServerType() == Business
    ensures HandsOver(s, HandleDeparture(s, time, j), time, j)
  {
  }

  lemma EconomyHandOver(s: State, time: int, j: nat)
    requires j < |s.jobs| && s.QueuesIndexJobs() && SomeoneWaits(s)
    requires s.jobs[j].ServerType() == Economy
    ensures HandsOver(s, HandleDeparture(s, time, j), time, j)
  {
  }

  /** With someone waiting, a departure hands the server over to the head of its own class's
      queue, or of the other queue when its own is empty. */
  lemma DepartureHandOver(s: State, time: int, j: nat)
    requires j < |s.jobs| && s.QueuesIndexJobs() && SomeoneWaits(s)
    ensures HandsOver(s, HandleDeparture(s, time, j), time, j)
  {
    if s.jobs[j].ServerType() == Business {
      BusinessHandOver(s, time, j);
    } else {
      EconomyHandOver(s, time, j);
    }
  }

  // ---------------------------------------------------------------------------------------
  // The invariant, part by part

  /** A departure event is in hand and it matches its job. */
  predicate DepartureHeld(s: State, e: Event) {
    s.held == Some(e) && e.kind == Departure && EventMatches(s, e)
  }

  /** The departing customer is in service on its pool, which is therefore busy, and waits
      in no queue. */
  lemma DepartingJob(s: State, e: Event)
    requires DepartureHeld(s, e) && CountersMatchService(s) && QueuesHoldWaitingJobs(s)
    ensures var t := s.jobs[e.job].ServerType();
      && s.jobs[e.job].serverType == Some(t) && e.job in InService(s, t) && s.Busy(t) >= 1
      && s.QueuesIndexJobs() && e.job !in s.bQueue && e.job !in s.eQueue
  {
    var t := s.jobs[e.job].ServerType();
    assert InService(s, t) == (InService(s, t) - {e.job}) + {e.job};
  }

  /** The head of a queue waits, belongs to the queue's class, and is in no other place of
      either queue. */
  lemma HeadWaits(s: State, from: Class)
    requires QueuesHoldWaitingJobs(s) && s.Queue(from) != []
    ensures var k := s.Queue(from)[0];
      && k < |s.jobs| && s.jobs[k].Waiting() && s.jobs[k].customerType == from
      && k !in s.Queue(from)[1..] && k !in s.Queue(Other(from))
  {
    var q := s.Queue(from);
    assert QueueHolds(s, q, from);
    assert QueueHolds(s, s.Queue(Other(from)), Other(from));
  }

  /** The events left in the queue are for customers other than the departing one and the one
      who takes over its server. */
  lemma QueuedEventsForOthersThanHead(s: State, e: Event)
    requires DepartureHeld(s, e) && EventsMatchJobs(s) && OneEventPerJob(s)
    requires QueuesHoldWaitingJobs(s) && s.Queue(SourceQueue(s, s.jobs[e.job].ServerType())) != []
    ensures Outstanding(s) == multiset(s.stack) + multiset{e}
    ensures var k := s.Queue(SourceQueue(s, s.jobs[e.job].ServerType()))[0];
      forall x | x in multiset(s.stack) ::
        x != e && x.job != e.job && x.job != k && x.seqNo != e.seqNo && EventMatches(s, x)
  {
    var k := s.Queue(SourceQueue(s, s.jobs[e.job].ServerType()))[0];
    HeadWaits(s, SourceQueue(s, s.jobs[e.job].ServerType()));
    assert Outstanding(s) == multiset(s.stack) + multiset{e};
    assert Outstanding(s)[e] == 1;
    forall x | x in multiset(s.stack) ensures x.job != k {
      assert EventMatches(s, x);
    }
  }

  /** With someone waiting: the events outstanding after the departure are the queued ones
      and the new departure of the customer who takes over the server. */
  lemma HandOverOutstanding(s: State, s': State, e: Event)
    requires DepartureHeld(s, e) && EventsMatchJobs(s) && s.QueuesIndexJobs() && SomeoneWaits(s)
    requires HandsOver(s, s', e.time, e.job)
    ensures var k := s.Queue(SourceQueue(s, s.jobs[e.job].ServerType()))[0];
      var d := Event(e.time + s.jobs[k].serviceTime, Departure, k, s.nextSeq);
      Outstanding(s') == multiset(s.stack) + multiset{d} && d !in multiset(s.stack)
  {
    var k := s.Queue(SourceQueue(s, s.jobs[e.job].ServerType()))[0];
    var d := Event(e.time + s.jobs[k].serviceTime, Departure, k, s.nextSeq);
    assert s'.held == None && s'.stack == s.stack + [d];
    assert Outstanding(s') == multiset(s.stack + [d]);
    StackSeqNosBelow(s);
  }

  /** With someone waiting: every outstanding event still matches its job. */
  lemma HandOverMatches(s: State, s': State, e: Event)
    requires DepartureHeld(s, e) && EventsMatchJobs(s) && OneEventPerJob(s)
    requires CountersMatchService(s) && QueuesHoldWaitingJobs(s) && JobLifecycle(s)
    requires SomeoneWaits(s) && s.QueuesIndexJobs() && HandsOver(s, s', e.time, e.job)
    ensures EventsMatchJobs(s')
  {
    var t := s.jobs[e.job].ServerType();
    var k := s.Queue(SourceQueue(s, t))[0];
    var d := Event(e.time + s.jobs[k].serviceTime, Departure, k, s.nextSeq);
    DepartingJob(s, e);
    HeadWaits(s, SourceQueue(s, t));
    QueuedEventsForOthersThanHead(s, e);
    HandOverOutstanding(s, s', e);
    assert k !in s.departed;
    assert EventMatches(s', d);
    forall x | x in multiset(s.stack) ensures EventMatches(s', x) {
      assert s'.jobs[x.job] == s.jobs[x.job];
    }
  }

  /** With someone waiting: the new departure event is the only one for its customer and
      carries a fresh insertion number. */
  lemma HandOverOnce(s: State, s': State, e: Event)
    requires DepartureHeld(s, e) && EventsMatchJobs(s) && OneEventPerJob(s)
    requires QueuesHoldWaitingJobs(s)
    requires SomeoneWaits(s) && s.QueuesIndexJobs() && HandsOver(s, s', e.time, e.job)
    ensures OneEventPerJob(s')
  {
    QueuedEventsForOthersThanHead(s, e);
    HandOverOutstanding(s, s', e);
  }

  /** With someone waiting: the customers other than the departing one and the one taking
      over its server stay where they were. */
  lemma HandOverPlacesOthers(s: State, s': State, e: Event, x: nat)
    requires DepartureHeld(s, e) && EventsMatchJobs(s) && OneEventPerJob(s)
    requires QueuesHoldWaitingJobs(s)
    requires SomeoneWaits(s) && s.QueuesIndexJobs() && HandsOver(s, s', e.time, e.job)
    requires x < |s.jobs| && x != e.job && x != s.Queue(SourceQueue(s, s.jobs[e.job].ServerType()))[0]
    requires JobPlaced(s, x)
    ensures x < |s'.jobs| && JobPlaced(s', x)
  {
    QueuedEventsForOthersThanHead(s, e);
    HandOverOutstanding(s, s', e);
    assert s'.jobs[x] == s.jobs[x];
    forall kd | HasEvent(s, x, kd) ensures HasEvent(s', x, kd) {
      var ev :| ev in Outstanding(s) && ev.job == x && ev.kind == kd;
      assert ev in multiset(s.stack);
    }
    if s.jobs[x].Waiting() {
      HandOverKeepsQueued(s, s', e.time, e.job, x, s.jobs[x].customerType);
    }
  }

  /** With someone waiting: a queued customer other than the one taking over the server stays
      in its queue. */
  lemma HandOverKeepsQueued(s: State, s': State, time: int, j: nat, x: nat, ct: Class)
    requires j < |s.jobs| && s.QueuesIndexJobs() && SomeoneWaits(s) && HandsOver(s, s', time, j)
    requires x in s.Queue(ct) && x != s.Queue(SourceQueue(s, s.jobs[j].ServerType()))[0]
    ensures x in s'.Queue(ct)
  {
    var q := s.Queue(ct);
    if ct == SourceQueue(s, s.jobs[j].ServerType()) {
      assert q == [q[0]] + q[1..];
    }
  }

  /** With someone waiting: the customer taking over the server is in service with its
      departure pending. */
  lemma HandOverPlacesHead(s: State, s': State, e: Event)
    requires DepartureHeld(s, e) && EventsMatchJobs(s)
    requires QueuesHoldWaitingJobs(s) && JobLifecycle(s)
    requires SomeoneWaits(s) && s.QueuesIndexJobs() && HandsOver(s, s', e.time, e.job)
    ensures var k := s.Queue(SourceQueue(s, s.jobs[e.job].ServerType()))[0];
      k < |s'.jobs| && JobPlaced(s', k)
  {
    var t := s.jobs[e.job].ServerType();
    var k := s.Queue(SourceQueue(s, t))[0];
    var d := Event(e.time + s.jobs[k].serviceTime, Departure, k, s.nextSeq);
    HeadWaits(s, SourceQueue(s, t));
    assert s'.stack[|s'.stack| - 1] == d;
    assert d in Outstanding(s');
    assert k != e.job && k !in s.departed;
    assert HasEvent(s', k, Departure);
  }

  /** With someone waiting: the departed customer's record is unchanged, and every departed
      customer has been served. */
  lemma HandOverPlacesDeparted(s: State, s': State, e: Event)
    requires DepartureHeld(s, e) && QueuesHoldWaitingJobs(s) && JobLifecycle(s)
    requires SomeoneWaits(s) && s.QueuesIndexJobs() && HandsOver(s, s', e.time, e.job)
    ensures e.job < |s'.jobs| && JobPlaced(s', e.job)
    ensures forall x | x in s'.departed :: x < |s'.jobs| && s'.jobs[x].Started()
  {
    var t := s.jobs[e.job].ServerType();
    var k := s.Queue(SourceQueue(s, t))[0];
    HeadWaits(s, SourceQueue(s, t));
    assert JobPlaced(s, e.job);
    assert k != e.job;
    assert s'.jobs[e.job] == s.jobs[e.job];
  }

  /** With someone waiting: every customer is where its fields say it is. */
  lemma HandOverLifecycle(s: State, s': State, e: Event)
    requires DepartureHeld(s, e) && EventsMatchJobs(s) && OneEventPerJob(s)
    requires QueuesHoldWaitingJobs(s) && CountersMatchService(s) && JobLifecycle(s)
    requires SomeoneWaits(s) && s.QueuesIndexJobs() && HandsOver(s, s', e.time, e.job)
    ensures JobLifecycle(s')
  {
    var k := s.Queue(SourceQueue(s, s.jobs[e.job].ServerType()))[0];
    HandOverPlacesHead(s, s', e);
    HandOverPlacesDeparted(s, s', e);
    forall x | 0 <= x < |s'.jobs| ensures JobPlaced(s', x) {
      if x != e.job && x != k {
        assert JobPlaced(s, x);
        HandOverPlacesOthers(s, s', e, x);
      }
    }
  }

  /** A queue keeps holding distinct waiting customers of its class when only a customer not
      in it changes. */
  lemma QueueHoldsKept(s: State, s': State, q: seq<nat>, t: Class, k: nat)
    requires QueueHolds(s, q, t) && k !in q && |s'.jobs| == |s.jobs|
    requires forall x | 0 <= x < |s.jobs| && x != k :: s'.jobs[x] == s.jobs[x]
    ensures QueueHolds(s', q, t)
  {
    forall i | 0 <= i < |q| ensures s'.jobs[q[i]] == s.jobs[q[i]] {
      assert q[i] != k;
    }
  }

  /** With someone waiting: the queues still hold distinct waiting customers of their class. */
  lemma HandOverQueues(s: State, s': State, e: Event)
    requires DepartureHeld(s, e) && QueuesHoldWaitingJobs(s)
    requires SomeoneWaits(s) && s.QueuesIndexJobs() && HandsOver(s, s', e.time, e.job)
    ensures QueuesHoldWaitingJobs(s')
  {
    var from := SourceQueue(s, s.jobs[e.job].ServerType());
    var q, r := s.Queue(from), s.Queue(Other(from));
    HeadWaits(s, from);
    assert QueueHolds(s, q, from) && QueueHolds(s, r, Other(from));
    assert QueueHolds(s, q[1..], from);
    QueueHoldsKept(s, s', q[1..], from, q[0]);
    QueueHoldsKept(s, s', r, Other(from), q[0]);
    assert from == Business || from == Economy;
  }

  /** With someone waiting: the freed server's pool loses the departed customer and gains the
      one who takes over, so its counter is still right. */
  lemma HandOverCounters(s: State, s': State, e: Event)
    requires DepartureHeld(s, e) && CountersMatchService(s) && QueuesHoldWaitingJobs(s)
    requires JobLifecycle(s)
    requires SomeoneWaits(s) && s.QueuesIndexJobs() && HandsOver(s, s', e.time, e.job)
    ensures CountersMatchService(s')
  {
    var t := s.jobs[e.job].ServerType();
    var k := s.Queue(SourceQueue(s, t))[0];
    DepartingJob(s, e);
    HeadWaits(s, SourceQueue(s, t));
    assert k !in s.departed && k != e.job;
    var s1 := s.(departed := s.departed + {e.job});
    InServiceAfterDepart(s, s1, e.job, t);
    InServiceAfterAssign(s1, s', k, t);
    assert t == Business || t == Economy;
  }

  /** With someone waiting: the counters do not move, all servers stay busy, and an empty
      economy pool is still unused. */
  lemma HandOverCapacity(s: State, s': State, e: Event)
    requires DepartureHeld(s, e) && CapacityRespected(s) && QueuesOnlyWhenFull(s)
    requires EconomyPoolUnusedWhenEmpty(s)
    requires SomeoneWaits(s) && s.QueuesIndexJobs() && HandsOver(s, s', e.time, e.job)
    ensures CapacityRespected(s') && QueuesOnlyWhenFull(s') && EconomyPoolUnusedWhenEmpty(s')
    ensures HeldIsLastPopped(s')
  {
  }

  /** With someone waiting, a departure does one event's worth of work: one customer leaves
      a queue. */
  lemma HandOverWork(s: State, s': State, e: Event)
    requires DepartureHeld(s, e) && QueuesHoldWaitingJobs(s)
    requires SomeoneWaits(s) && s.QueuesIndexJobs() && HandsOver(s, s', e.time, e.job)
    ensures WorkLeft(s') == WorkLeft(s) - 1
  {
    var from := SourceQueue(s, s.jobs[e.job].ServerType());
    HeadWaits(s, from);
    assert NotArrived(s') == NotArrived(s);
    assert from == Business || from == Economy;
  }

  /** With someone waiting and durations that are not negative: the new departure is no
      earlier than now. */
  lemma HandOverPendingNotPast(s: State, s': State, e: Event)
    requires DepartureHeld(s, e) && QueuesHoldWaitingJobs(s) && HeldIsLastPopped(s)
    requires PendingNotPast(s) && NonNegativeServiceTimes(s.jobs)
    requires SomeoneWaits(s) && s.QueuesIndexJobs() && HandsOver(s, s', e.time, e.job)
    ensures PendingNotPast(s')
  {
    assert Now(s) == e.time && s'.trace == s.trace;
    forall x | x in s'.stack ensures Now(s') <= x.time {
      if x !in s.stack {
        assert x == s'.stack[|s'.stack| - 1];
      }
    }
  }

  /** With someone waiting and durations that are not negative: the customer taking over
      starts now, after its arrival; whoever still waits arrived before now. */
  lemma HandOverStartsAfterArrival(s: State, s': State, e: Event)
    requires DepartureHeld(s, e) && QueuesHoldWaitingJobs(s) && HeldIsLastPopped(s)
    requires WaitersArrived(s) && StartsAfterArrival(s)
    requires SomeoneWaits(s) && s.QueuesIndexJobs() && HandsOver(s, s', e.time, e.job)
    ensures WaitersArrived(s') && StartsAfterArrival(s')
  {
    var k := s.Queue(SourceQueue(s, s.jobs[e.job].ServerType()))[0];
    HeadWaits(s, SourceQueue(s, s.jobs[e.job].ServerType()));
    assert Now(s) == e.time && s'.trace == s.trace;
    assert s'.jobs[k].ServiceStart() == e.time;
  }

  /** With someone waiting and durations that are not negative: time still only moves
      forward. */
  lemma HandOverCausal(s: State, s': State, e: Event)
    requires DepartureHeld(s, e) && QueuesHoldWaitingJobs(s) && HeldIsLastPopped(s)
    requires Causal(s) && NonNegativeServiceTimes(s.jobs)
    requires SomeoneWaits(s) && s.QueuesIndexJobs() && HandsOver(s, s', e.time, e.job)
    ensures Causal(s')
  {
    HandOverPendingNotPast(s, s', e);
    HandOverStartsAfterArrival(s, s', e);
  }

  // With nobody waiting

  /** With nobody waiting: the departure event is gone and nothing replaces it, so every
      other event stays matched and no event is duplicated. */
  lemma IdleEvents(s: State, s': State, e: Event)
    requires DepartureHeld(s, e) && EventsMatchJobs(s) && OneEventPerJob(s)
    requires !SomeoneWaits(s) && GoesIdle(s, s', e.job)
    ensures EventsMatchJobs(s') && OneEventPerJob(s')
  {
    assert Outstanding(s) == multiset(s.stack) + multiset{e};
    assert Outstanding(s)[e] == 1;
    assert Outstanding(s') == multiset(s.stack);
    forall x | x in multiset(s.stack) ensures EventMatches(s', x) {
      assert x in Outstanding(s) && x != e;
    }
  }

  /** With nobody waiting: every customer stays placed. */
  lemma IdleLifecycle(s: State, s': State, e: Event)
    requires DepartureHeld(s, e) && OneEventPerJob(s) && JobLifecycle(s)
    requires !SomeoneWaits(s) && GoesIdle(s, s', e.job)
    ensures JobLifecycle(s')
  {
    assert Outstanding(s) == multiset(s.stack) + multiset{e};
    assert Outstanding(s') == multiset(s.stack);
    forall x | 0 <= x < |s'.jobs| ensures JobPlaced(s', x) {
      assert JobPlaced(s, x);
      forall kd | HasEvent(s, x, kd) && x != e.job ensures HasEvent(s', x, kd) {
        var ev :| ev in Outstanding(s) && ev.job == x && ev.kind == kd;
        assert ev in multiset(s.stack);
      }
    }
  }

  /** With nobody waiting: the freed server goes idle, so its pool's counter drops by one and
      the work left with it. */
  lemma IdleCounters(s: State, s': State, e: Event)
    requires DepartureHeld(s, e) && CountersMatchService(s) && QueuesHoldWaitingJobs(s)
    requires CapacityRespected(s) && QueuesOnlyWhenFull(s) && EconomyPoolUnusedWhenEmpty(s)
    requires !SomeoneWaits(s) && GoesIdle(s, s', e.job)
    ensures CountersMatchService(s') && CapacityRespected(s') && QueuesOnlyWhenFull(s')
    ensures EconomyPoolUnusedWhenEmpty(s') && HeldIsLastPopped(s') && QueuesHoldWaitingJobs(s')
    ensures WorkLeft(s') == WorkLeft(s) - 1
  {
    var t := s.jobs[e.job].ServerType();
    DepartingJob(s, e);
    InServiceAfterDepart(s, s', e.job, t);
    assert NotArrived(s') == NotArrived(s);
    assert t == Business || t == Economy;
  }

  /** With nobody waiting and durations that are not negative: nothing that time depends on
      changes. */
  lemma IdleCausal(s: State, s': State, e: Event)
    requires DepartureHeld(s, e) && Causal(s)
    requires !SomeoneWaits(s) && GoesIdle(s, s', e.job)
    ensures Causal(s')
  {
  }

  /** With someone waiting, the whole invariant survives the hand-over. */
  lemma HandOverInv(s: State, s': State, e: Event)
    requires Inv(s) && DepartureHeld(s, e)
    requires SomeoneWaits(s) && s.QueuesIndexJobs() && HandsOver(s, s', e.time, e.job)
    ensures Inv(s') && WorkLeft(s') == WorkLeft(s) - 1
  {
    HandOverMatches(s, s', e);
    HandOverOnce(s, s', e);
    HandOverLifecycle(s, s', e);
    HandOverQueues(s, s', e);
    HandOverCounters(s, s', e);
    HandOverCapacity(s, s', e);
    HandOverWork(s, s', e);
    if NonNegativeServiceTimes(s'.jobs) {
      assert NonNegativeServiceTimes(s.jobs) by {
        forall x | 0 <= x < |s.jobs| ensures s.jobs[x].serviceTime >= 0 {
          assert s'.jobs[x].serviceTime >= 0;
        }
      }
      HandOverCausal(s, s', e);
    }
  }

  /** With nobody waiting, the whole invariant survives the server going idle. */
  lemma IdleInv(s: State, s': State, e: Event)
    requires Inv(s) && DepartureHeld(s, e)
    requires !SomeoneWaits(s) && GoesIdle(s, s', e.job)
    ensures Inv(s') && WorkLeft(s') == WorkLeft(s) - 1
  {
    IdleEvents(s, s', e);
    IdleLifecycle(s, s', e);
    IdleCounters(s, s', e);
    if NonNegativeServiceTimes(s'.jobs) {
      IdleCausal(s, s', e);
    }
  }

  /** A departure leaves the record of handled events alone. */
  lemma DepartureRecordsTrace(s: State, e: Event)
    requires Inv(s) && s.held == Some(e) && e.kind == Departure
    ensures e.job < |s.jobs| && s.QueuesIndexJobs()
    ensures var s' := HandleDeparture(s, e.time, e.job);
      s'.trace == s.trace && s'.held == None && s'.c == s.c && |s'.jobs| == |s.jobs|
  {
    assert EventMatches(s, e);
    DepartingJob(s, e);
    if SomeoneWaits(s) {
      DepartureHandOver(s, e.time, e.job);
    } else {
      DepartureIdle(s, e.time, e.job);
    }
  }

  /** With someone waiting: a hand-over assigns a server only to the customer taking over,
      who had none. Every customer already in service keeps its server and departure time,
      and every recorded queue length stays as it was. */
  lemma HandOverKeepsAssignments(s: State, s': State, e: Event)
    requires DepartureHeld(s, e) && QueuesHoldWaitingJobs(s)
    requires SomeoneWaits(s) && s.QueuesIndexJobs() && HandsOver(s, s', e.time, e.job)
    ensures |s'.jobs| == |s.jobs|
    ensures forall x | 0 <= x < |s.jobs| && s.jobs[x].Started() :: s'.jobs[x] == s.jobs[x]
    ensures forall x | 0 <= x < |s.jobs| :: s'.jobs[x].queueLength == s.jobs[x].queueLength
  {
    HeadWaits(s, SourceQueue(s, s.jobs[e.job].ServerType()));
  }

  /** Handling the departure in hand never reassigns a server or moves a departure time
      that is already set, and never changes a recorded queue length. */
  lemma DepartureKeepsAssignments(s: State, e: Event)
    requires Inv(s) && s.held == Some(e) && e.kind == Departure
    ensures e.job < |s.jobs| && s.QueuesIndexJobs()
    ensures var s' := HandleDeparture(s, e.time, e.job);
      && |s'.jobs| == |s.jobs|
      && (forall x | 0 <= x < |s.jobs| && s.jobs[x].Started() :: s'.jobs[x] == s.jobs[x])
      && (forall x | 0 <= x < |s.jobs| :: s'.jobs[x].queueLength == s.jobs[x].queueLength)
  {
    assert EventMatches(s, e);
    DepartingJob(s, e);
    if SomeoneWaits(s) {
      DepartureHandOver(s, e.time, e.job);
      HandOverKeepsAssignments(s, HandleDeparture(s, e.time, e.job), e);
    } else {
      DepartureIdle(s, e.time, e.job);
    }
  }

  /** `handle_departure` for the departure event in hand keeps the invariant, and it does one
      event's worth of the remaining work. */
  lemma DeparturePreservesInv(s: State, e: Event)
    requires Inv(s) && s.held == Some(e) && e.kind == Departure
    ensures e.job < |s.jobs| && s.QueuesIndexJobs()
    ensures Inv(HandleDeparture(s, e.time, e.job))
    ensures WorkLeft(HandleDeparture(s, e.time, e.job)) == WorkLeft(s) - 1
  {
    assert EventMatches(s, e);
    DepartingJob(s, e);
    if SomeoneWaits(s) {
      DepartureHandOver(s, e.time, e.job);
      HandOverInv(s, HandleDeparture(s, e.time, e.job), e);
    } else {
      DepartureIdle(s, e.time, e.job);
      IdleInv(s, HandleDeparture(s, e.time, e.job), e);
    }
  }
}
