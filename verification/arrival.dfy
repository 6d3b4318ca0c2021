/** What `handle_arrival` does, and why it keeps the engine's invariant. */
module ArrivalProofs {
  import opened Jobs
  import opened Events
  import opened Model
  import opened Invariants

  /** The arrival records the length of the job's own-class queue as it was before the
      arrival, changes no other job, and leaves the other class's queue alone. */
  lemma ArrivalRecordsQueueLength(s: State, time: int, j: nat)
    requires j < |s.jobs|
    ensures var s' := HandleArrival(s, time, j);
      && s'.jobs[j].queueLength == Some(|s.Queue(s.jobs[j].customerType)|)
      && s'.Queue(Other(s.jobs[j].customerType)) == s.Queue(Other(s.jobs[j].customerType))
      && |s'.jobs| == |s.jobs|
      && (forall x | 0 <= x < |s.jobs| && x != j :: s'.jobs[x] == s.jobs[x])
      && s'.jobs[j].SameCustomer(s.jobs[j])
      && s'.held == None && s'.departed == s.departed && s'.trace == s.trace && s'.c == s.c
  {
  }

  /** Who serves an arriving job: a server of its own type if one is idle, else an idle
      server of the other type, else nobody and the job waits. */
  lemma ArrivalRouting(s: State, time: int, j: nat)
    requires j < |s.jobs| && s.jobs[j].Unset()
    ensures var s', own := HandleArrival(s, time, j), s.jobs[j].customerType;
      && (s'.jobs[j].Started() <==>
            s.Busy(own) < s.Capacity(own) || s.Busy(Other(own)) < s.Capacity(Other(own)))
      && (s.Busy(own) < s.Capacity(own) ==> s'.jobs[j].serverType == Some(own))
      && (s.Busy(own) >= s.Capacity(own) && s.Busy(Other(own)) < s.Capacity(Other(own)) ==>
            s'.jobs[j].serverType == Some(Other(own)))
  {
  }

  /** An arriving job that is served starts at once: its departure is one service time away,
      one departure event is pushed for it, and the counter of its server's pool goes up by
      one; no queue changes. */
  lemma ArrivalServed(s: State, time: int, j: nat)
    requires j < |s.jobs| && s.jobs[j].Unset()
    requires HandleArrival(s, time, j).jobs[j].Started()
    ensures var s', t, d := HandleArrival(s, time, j), HandleArrival(s, time, j).jobs[j].ServerType(),
                            time + s.jobs[j].serviceTime;
      && s'.jobs[j].departure == Some(d)
      && s'.stack == s.stack + [Event(d, Departure, j, s.nextSeq)] && s'.nextSeq == s.nextSeq + 1
      && s'.Busy(t) == s.Busy(t) + 1 && s'.Busy(Other(t)) == s.Busy(Other(t))
      && s.Busy(t) < s.Capacity(t)
      && s'.bQueue == s.bQueue && s'.eQueue == s.eQueue
  {
  }

  /** An arriving job that is not served goes to the back of its own class's queue and
      nothing else changes: no event, no counter, no server. */
  lemma ArrivalQueued(s: State, time: int, j: nat)
    requires j < |s.jobs| && s.jobs[j].Unset()
    requires !HandleArrival(s, time, j).jobs[j].Started()
    ensures var s', own := HandleArrival(s, time, j), s.jobs[j].customerType;
      && s'.Queue(own) == s.Queue(own) + [j]
      && s'.stack == s.stack && s'.nextSeq == s.nextSeq
      && s'.numBBusy == s.numBBusy && s'.numEBusy == s.numEBusy
      && s.numBBusy >= B && s.numEBusy >= s.c
      && s'.jobs[j].Waiting()
  {
  }

  // ---------------------------------------------------------------------------------------
  // The invariant, part by part

  /** An arrival event is in hand and it matches its job. */
  predicate ArrivalHeld(s: State, e: Event) {
    s.held == Some(e) && e.kind == Arrival && EventMatches(s, e)
  }

  /** The events left in the queue once an event is in hand are for other jobs. */
  lemma QueuedEventsForOthers(s: State, e: Event)
    requires s.held == Some(e) && EventsMatchJobs(s) && OneEventPerJob(s)
    ensures Outstanding(s) == multiset(s.stack) + multiset{e}
    ensures forall x | x in multiset(s.stack) ::
      x != e && x.job != e.job && x.seqNo != e.seqNo && EventMatches(s, x)
  {
    assert Outstanding(s) == multiset(s.stack) + multiset{e};
    assert Outstanding(s)[e] == 1;
  }

  /** An arriving job that is served: its new departure event is outstanding in place of
      its arrival event. */
  lemma ServedArrivalOutstanding(s: State, e: Event)
    requires ArrivalHeld(s, e) && s.jobs[e.job].Unset()
    requires EventsMatchJobs(s) && OneEventPerJob(s)
    requires HandleArrival(s, e.time, e.job).jobs[e.job].Started()
    ensures var d := Event(e.time + s.jobs[e.job].serviceTime, Departure, e.job, s.nextSeq);
      && Outstanding(HandleArrival(s, e.time, e.job)) == multiset(s.stack) + multiset{d}
      && d !in multiset(s.stack)
  {
    var s', d := HandleArrival(s, e.time, e.job),
                 Event(e.time + s.jobs[e.job].serviceTime, Departure, e.job, s.nextSeq);
    QueuedEventsForOthers(s, e);
    ArrivalServed(s, e.time, e.job);
    ArrivalRecordsQueueLength(s, e.time, e.job);
    assert s'.stack == s.stack + [d] && s'.held == None;
    assert Outstanding(s') == multiset(s.stack + [d]);
    StackSeqNosBelow(s);
  }

  /** An arriving job that is served: the events in the queue stay matched, and so does the
      new departure event. */
  lemma ServedArrivalMatches(s: State, e: Event)
    requires ArrivalHeld(s, e) && s.jobs[e.job].Unset()
    requires EventsMatchJobs(s) && OneEventPerJob(s)
    requires forall x | x in s.departed :: x < |s.jobs| && s.jobs[x].Started()
    requires HandleArrival(s, e.time, e.job).jobs[e.job].Started()
    ensures EventsMatchJobs(HandleArrival(s, e.time, e.job))
  {
    var s', j := HandleArrival(s, e.time, e.job), e.job;
    QueuedEventsForOthers(s, e);
    ServedArrivalOutstanding(s, e);
    ArrivalRecordsQueueLength(s, e.time, j);
    ArrivalServed(s, e.time, j);
    var d := Event(e.time + s.jobs[j].serviceTime, Departure, j, s.nextSeq);
    assert EventMatches(s', d);
    forall x | x in multiset(s.stack) ensures EventMatches(s', x) {
      assert s'.jobs[x.job] == s.jobs[x.job];
    }
  }

  /** An arriving job that is served: the new departure event is the only one for its job
      and carries a fresh insertion number. */
  lemma ServedArrivalOnce(s: State, e: Event)
    requires ArrivalHeld(s, e) && s.jobs[e.job].Unset()
    requires EventsMatchJobs(s) && OneEventPerJob(s)
    requires HandleArrival(s, e.time, e.job).jobs[e.job].Started()
    ensures OneEventPerJob(HandleArrival(s, e.time, e.job))
  {
    QueuedEventsForOthers(s, e);
    ServedArrivalOutstanding(s, e);
  }

  /** An arriving job that waits: its arrival event is gone and nothing replaces it. */
  lemma QueuedArrivalEvents(s: State, e: Event)
    requires ArrivalHeld(s, e) && s.jobs[e.job].Unset()
    requires EventsMatchJobs(s) && OneEventPerJob(s)
    requires !HandleArrival(s, e.time, e.job).jobs[e.job].Started()
    ensures EventsMatchJobs(HandleArrival(s, e.time, e.job))
    ensures OneEventPerJob(HandleArrival(s, e.time, e.job))
  {
    var s', j := HandleArrival(s, e.time, e.job), e.job;
    QueuedEventsForOthers(s, e);
    ArrivalRecordsQueueLength(s, e.time, j);
    ArrivalQueued(s, e.time, j);
    assert Outstanding(s') == multiset(s.stack);
    forall x | x in multiset(s.stack) ensures EventMatches(s', x) {
      assert s'.jobs[x.job] == s.jobs[x.job];
    }
  }

  /** An arrival keeps every queued event outstanding and keeps every queued customer in its
      queue. */
  lemma ArrivalKeepsOthers(s: State, e: Event)
    requires ArrivalHeld(s, e) && s.jobs[e.job].Unset()
    requires EventsMatchJobs(s) && OneEventPerJob(s)
    ensures multiset(s.stack) <= Outstanding(HandleArrival(s, e.time, e.job))
    ensures forall t, x | x in s.Queue(t) :: x in HandleArrival(s, e.time, e.job).Queue(t)
  {
    var s' := HandleArrival(s, e.time, e.job);
    ArrivalRecordsQueueLength(s, e.time, e.job);
    if s'.jobs[e.job].Started() {
      ServedArrivalOutstanding(s, e);
      ArrivalServed(s, e.time, e.job);
    } else {
      ArrivalQueued(s, e.time, e.job);
      assert s'.stack == s.stack && s'.held == None;
    }
  }

  /** After an arrival the other customers are still where their fields say they are. */
  lemma ArrivalPlacesOthers(s: State, e: Event, x: nat)
    requires ArrivalHeld(s, e) && s.jobs[e.job].Unset()
    requires EventsMatchJobs(s) && OneEventPerJob(s)
    requires x < |s.jobs| && x != e.job && JobPlaced(s, x)
    ensures x < |HandleArrival(s, e.time, e.job).jobs|
    ensures JobPlaced(HandleArrival(s, e.time, e.job), x)
  {
    var s' := HandleArrival(s, e.time, e.job);
    QueuedEventsForOthers(s, e);
    ArrivalRecordsQueueLength(s, e.time, e.job);
    ArrivalKeepsOthers(s, e);
    assert s'.jobs[x] == s.jobs[x];
    forall k | HasEvent(s, x, k) ensures HasEvent(s', x, k) {
      var ev :| ev in Outstanding(s) && ev.job == x && ev.kind == k;
      assert ev in multiset(s.stack);
    }
  }

  /** After its arrival a served customer is in service with its departure pending. */
  lemma ArrivalPlacesServedJob(s: State, e: Event)
    requires ArrivalHeld(s, e) && s.jobs[e.job].Unset()
    requires HandleArrival(s, e.time, e.job).jobs[e.job].Started()
    ensures JobPlaced(HandleArrival(s, e.time, e.job), e.job)
  {
    var s', j := HandleArrival(s, e.time, e.job), e.job;
    ArrivalRecordsQueueLength(s, e.time, j);
    ArrivalServed(s, e.time, j);
    var d := Event(e.time + s.jobs[j].serviceTime, Departure, j, s.nextSeq);
    assert s'.stack[|s'.stack| - 1] == d;
    assert d in Outstanding(s');
    assert HasEvent(s', j, Departure);
  }

  /** After its arrival a customer who is not served waits in its own class's queue. */
  lemma ArrivalPlacesQueuedJob(s: State, e: Event)
    requires ArrivalHeld(s, e) && s.jobs[e.job].Unset()
    requires !HandleArrival(s, e.time, e.job).jobs[e.job].Started()
    ensures JobPlaced(HandleArrival(s, e.time, e.job), e.job)
  {
    ArrivalRecordsQueueLength(s, e.time, e.job);
    ArrivalQueued(s, e.time, e.job);
  }

  /** After an arrival every customer is still where its fields say it is. */
  lemma ArrivalKeepsLifecycle(s: State, e: Event)
    requires ArrivalHeld(s, e) && s.jobs[e.job].Unset()
    requires EventsMatchJobs(s) && OneEventPerJob(s) && JobLifecycle(s)
    ensures JobLifecycle(HandleArrival(s, e.time, e.job))
  {
    var s' := HandleArrival(s, e.time, e.job);
    ArrivalRecordsQueueLength(s, e.time, e.job);
    if s'.jobs[e.job].Started() {
      ArrivalPlacesServedJob(s, e);
    } else {
      ArrivalPlacesQueuedJob(s, e);
    }
    forall x | 0 <= x < |s'.jobs| ensures JobPlaced(s', x) {
      if x != e.job {
        ArrivalPlacesOthers(s, e, x);
      }
    }
  }

  /** The queues still hold distinct waiting customers of their class. */
  lemma ArrivalKeepsQueues(s: State, e: Event)
    requires ArrivalHeld(s, e) && s.jobs[e.job].Unset()
    requires QueuesHoldWaitingJobs(s)
    ensures QueuesHoldWaitingJobs(HandleArrival(s, e.time, e.job))
  {
    var s', j := HandleArrival(s, e.time, e.job), e.job;
    ArrivalRecordsQueueLength(s, e.time, j);
    assert j !in s.bQueue && j !in s.eQueue;
    if s'.jobs[j].Started() {
      ArrivalServed(s, e.time, j);
    } else {
      ArrivalQueued(s, e.time, j);
    }
  }

  /** The busy counters keep counting the customers in service: a served arrival joins the
      pool that serves it. */
  lemma ArrivalKeepsCounters(s: State, e: Event)
    requires ArrivalHeld(s, e) && s.jobs[e.job].Unset()
    requires CountersMatchService(s)
    requires forall x | x in s.departed :: x < |s.jobs| && s.jobs[x].Started()
    ensures CountersMatchService(HandleArrival(s, e.time, e.job))
  {
    var s', j := HandleArrival(s, e.time, e.job), e.job;
    ArrivalRecordsQueueLength(s, e.time, j);
    if s'.jobs[j].Started() {
      ArrivalServed(s, e.time, j);
      var t := s'.jobs[j].ServerType();
      InServiceAfterAssign(s, s', j, t);
      assert t == Business ==> Other(t) == Economy;
    } else {
      ArrivalQueued(s, e.time, j);
      InServiceUnchanged(s, s');
    }
  }

  /** No pool overflows, a queue is joined only when every server is busy, an empty economy
      pool is never used, and nothing is in hand any more. */
  lemma ArrivalKeepsCapacity(s: State, e: Event)
    requires ArrivalHeld(s, e) && s.jobs[e.job].Unset()
    requires CapacityRespected(s) && QueuesOnlyWhenFull(s) && EconomyPoolUnusedWhenEmpty(s)
    ensures CapacityRespected(HandleArrival(s, e.time, e.job))
    ensures QueuesOnlyWhenFull(HandleArrival(s, e.time, e.job))
    ensures EconomyPoolUnusedWhenEmpty(HandleArrival(s, e.time, e.job))
    ensures HeldIsLastPopped(HandleArrival(s, e.time, e.job))
  {
    var s', j := HandleArrival(s, e.time, e.job), e.job;
    ArrivalRecordsQueueLength(s, e.time, j);
    ArrivalRouting(s, e.time, j);
    if s'.jobs[j].Started() {
      ArrivalServed(s, e.time, j);
    } else {
      ArrivalQueued(s, e.time, j);
    }
  }

  /** An arrival is one event's worth of work: the customer no longer counts twice, as a job
      still to arrive, but once, as a customer waiting or in service. */
  lemma ArrivalWork(s: State, e: Event)
    requires ArrivalHeld(s, e) && s.jobs[e.job].Unset()
    ensures WorkLeft(HandleArrival(s, e.time, e.job)) == WorkLeft(s) - 1
  {
    var s', j := HandleArrival(s, e.time, e.job), e.job;
    ArrivalRecordsQueueLength(s, e.time, j);
    assert NotArrived(s) == NotArrived(s') + {j};
    assert j !in NotArrived(s');
    if s'.jobs[j].Started() {
      ArrivalServed(s, e.time, j);
      assert s'.numBBusy + s'.numEBusy == s.numBBusy + s.numEBusy + 1;
    } else {
      ArrivalQueued(s, e.time, j);
    }
  }

  /** With durations that are not negative, a served arrival's departure is no earlier than
      now. */
  lemma ArrivalPendingNotPast(s: State, e: Event)
    requires ArrivalHeld(s, e) && s.jobs[e.job].Unset()
    requires HeldIsLastPopped(s) && PendingNotPast(s) && NonNegativeServiceTimes(s.jobs)
    ensures PendingNotPast(HandleArrival(s, e.time, e.job))
  {
    var s', j := HandleArrival(s, e.time, e.job), e.job;
    ArrivalRecordsQueueLength(s, e.time, j);
    assert s'.trace == s.trace && Now(s) == e.time;
    if s'.jobs[j].Started() {
      ArrivalServed(s, e.time, j);
      forall x | x in s'.stack ensures Now(s') <= x.time {
        if x !in s.stack {
          assert x == s'.stack[|s'.stack| - 1];
        }
      }
    } else {
      ArrivalQueued(s, e.time, j);
    }
  }

  /** An arriving customer who is served starts at its arrival time; one who waits arrived
      now. */
  lemma ArrivalStartsAfterArrival(s: State, e: Event)
    requires ArrivalHeld(s, e) && s.jobs[e.job].Unset()
    requires HeldIsLastPopped(s) && WaitersArrived(s) && StartsAfterArrival(s)
    ensures WaitersArrived(HandleArrival(s, e.time, e.job))
    ensures StartsAfterArrival(HandleArrival(s, e.time, e.job))
  {
    var s', j := HandleArrival(s, e.time, e.job), e.job;
    ArrivalRecordsQueueLength(s, e.time, j);
    assert s'.trace == s.trace && Now(s) == e.time;
    if s'.jobs[j].Started() {
      ArrivalServed(s, e.time, j);
      assert s'.jobs[j].ServiceStart() == e.time;
    } else {
      ArrivalQueued(s, e.time, j);
    }
  }

  /** With durations that are not negative, an arrival keeps time moving forward. */
  lemma ArrivalKeepsCausal(s: State, e: Event)
    requires ArrivalHeld(s, e) && s.jobs[e.job].Unset()
    requires HeldIsLastPopped(s) && (NonNegativeServiceTimes(s.jobs) ==> Causal(s))
    ensures var s' := HandleArrival(s, e.time, e.job);
      NonNegativeServiceTimes(s'.jobs) ==> Causal(s')
  {
    var s' := HandleArrival(s, e.time, e.job);
    ArrivalRecordsQueueLength(s, e.time, e.job);
    if NonNegativeServiceTimes(s'.jobs) {
      assert NonNegativeServiceTimes(s.jobs) by {
        forall x | 0 <= x < |s.jobs| ensures s.jobs[x].serviceTime >= 0 {
          assert s'.jobs[x].serviceTime >= 0;
        }
      }
      ArrivalPendingNotPast(s, e);
      ArrivalStartsAfterArrival(s, e);
    }
  }

  /** An arrival assigns a server and a queue length only to the arriving customer, who had
      neither. Every customer already in service keeps its server and departure time, and
      every customer who already arrived keeps its recorded queue length. */
  lemma ArrivalKeepsAssignments(s: State, e: Event)
    requires s.held == Some(e) && e.kind == Arrival && e.job < |s.jobs| && s.jobs[e.job].Unset()
    ensures var s' := HandleArrival(s, e.time, e.job);
      && |s'.jobs| == |s.jobs|
      && (forall x | 0 <= x < |s.jobs| && s.jobs[x].Started() :: s'.jobs[x] == s.jobs[x])
      && (forall x | 0 <= x < |s.jobs| && s.jobs[x].Arrived() ::
            s'.jobs[x].queueLength == s.jobs[x].queueLength)
  {
    ArrivalRecordsQueueLength(s, e.time, e.job);
  }

  /** `handle_arrival` for the arrival event in hand keeps the invariant, and it does one
      event's worth of the remaining work. */
  lemma ArrivalPreservesInv(s: State, e: Event)
    requires Inv(s) && s.held == Some(e) && e.kind == Arrival
    ensures e.job < |s.jobs| && s.jobs[e.job].Unset()
    ensures Inv(HandleArrival(s, e.time, e.job))
    ensures WorkLeft(HandleArrival(s, e.time, e.job)) == WorkLeft(s) - 1
  {
    var s', j := HandleArrival(s, e.time, e.job), e.job;
    assert EventMatches(s, e);
    assert JobPlaced(s, j);
    if s'.jobs[j].Started() {
      ServedArrivalMatches(s, e);
      ServedArrivalOnce(s, e);
    } else {
      QueuedArrivalEvents(s, e);
    }
    ArrivalKeepsLifecycle(s, e);
    ArrivalKeepsQueues(s, e);
    ArrivalKeepsCounters(s, e);
    ArrivalKeepsCapacity(s, e);
    ArrivalWork(s, e);
    ArrivalKeepsCausal(s, e);
  }
}
