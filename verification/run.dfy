/** The loop in `run`, one turn at a time, and what holds once the event queue is empty. */
module RunProofs {
  import opened Jobs
  import opened Events
  import opened Model
  import opened Invariants
  import opened PopProofs
  import opened ArrivalProofs
  import opened DepartureProofs

  /** A sequence holding each of its elements once has no repeated element. */
  lemma {:induction false} OnceDistinct<T>(s: seq<T>)
    requires forall x | x in multiset(s) :: multiset(s)[x] == 1
    ensures forall i, j | 0 <= i < j < |s| :: s[i] != s[j]
  {
    if s != [] {
      var init, last := s[..|s| - 1], s[|s| - 1];
      assert s == init + [last];
      assert multiset(s) == multiset(init) + multiset{last};
      assert last in multiset(s);
      assert multiset(s)[last] == multiset(init)[last] + 1;
      assert last !in multiset(init);
      forall x | x in multiset(init) ensures multiset(init)[x] == 1 {
        assert x in multiset(s) && multiset(s)[x] == multiset(init)[x];
      }
      OnceDistinct(init);
    }
  }

  /** The events in the queue carry distinct insertion numbers, so no two of them tie. */
  lemma StackSeqNosDistinct(s: State)
    requires OneEventPerJob(s)
    ensures DistinctSeqNos(s.stack)
  {
    assert multiset(s.stack) <= Outstanding(s);
    OnceDistinct(s.stack);
    forall i, j | 0 <= i < |s.stack| && 0 <= j < |s.stack| && i != j
      ensures s.stack[i].seqNo != s.stack[j].seqNo
    {
      assert s.stack[i] in Outstanding(s) && s.stack[j] in Outstanding(s);
      assert s.stack[i] != s.stack[j];
    }
  }

  /** Which event a pop takes is determined by the queue's contents: there is exactly one
      earliest event. */
  lemma PopIsDetermined(s: State, k1: nat, k2: nat)
    requires Inv(s) && IsMinIndex(s.stack, k1) && IsMinIndex(s.stack, k2)
    ensures k1 == k2
  {
    StackSeqNosDistinct(s);
    MinIsUnique(s.stack, k1, k2);
  }

  /** Handling a departure changes no customer's inputs. */
  lemma DepartureKeepsCustomers(s: State, time: int, j: nat)
    requires j < |s.jobs| && s.QueuesIndexJobs()
    ensures var s' := HandleDeparture(s, time, j);
      |s'.jobs| == |s.jobs| && forall x | 0 <= x < |s.jobs| :: s'.jobs[x].SameCustomer(s.jobs[x])
  {
    var s' := HandleDeparture(s, time, j);
    if SomeoneWaits(s) {
      DepartureHandOver(s, time, j);
      var k := s.Queue(SourceQueue(s, s.jobs[j].ServerType()))[0];
      forall x | 0 <= x < |s.jobs| ensures s'.jobs[x].SameCustomer(s.jobs[x]) {
        if x != k {
          assert s'.jobs[x] == s.jobs[x];
        }
      }
    } else {
      DepartureIdle(s, time, j);
    }
  }

  /** One turn of the loop in `run`: popping an earliest event and handling it keeps the
      invariant, leaves nothing in hand, records the event, and does one event's worth of the
      remaining work; the customers' inputs and the server count do not change. */
  lemma StepPreservesInv(s: State, k: nat)
    requires Inv(s) && s.held.None? && IsMinIndex(s.stack, k)
    ensures PopEvent(s, k).held.value.job < |s.jobs| && PopEvent(s, k).QueuesIndexJobs()
    ensures var s' := Dispatch(PopEvent(s, k));
      && Inv(s') && s'.held.None? && WorkLeft(s') == WorkLeft(s) - 1
      && s'.trace == s.trace + [s.stack[k]] && s'.c == s.c && |s'.jobs| == |s.jobs|
      && (forall j | 0 <= j < |s.jobs| :: s'.jobs[j].SameCustomer(s.jobs[j]))
  {
    var p := PopEvent(s, k);
    PopPreservesInv(s, k);
    var e := p.held.value;
    if e.kind == Arrival {
      ArrivalPreservesInv(p, e);
      ArrivalRecordsQueueLength(p, e.time, e.job);
      var s' := HandleArrival(p, e.time, e.job);
      forall j | 0 <= j < |s.jobs| ensures s'.jobs[j].SameCustomer(s.jobs[j]) {
        if j != e.job {
          assert s'.jobs[j] == p.jobs[j];
        }
      }
    } else {
      DeparturePreservesInv(p, e);
      DepartureRecordsTrace(p, e);
      DepartureKeepsCustomers(p, e.time, e.job);
    }
  }

  /** Each customer is handled once per kind of event: an arrival is handled only for a
      customer who has not arrived, and marks it arrived; a departure is handled only for a
      customer who has not departed, and marks it departed. */
  lemma StepHandlesOnce(s: State, k: nat)
    requires Inv(s) && s.held.None? && IsMinIndex(s.stack, k)
    ensures PopEvent(s, k).held.value.job < |s.jobs| && PopEvent(s, k).QueuesIndexJobs()
    ensures |Dispatch(PopEvent(s, k)).jobs| == |s.jobs|
    ensures var e, s' := s.stack[k], Dispatch(PopEvent(s, k));
      && (e.kind == Arrival ==>
            !s.jobs[e.job].Arrived() && s'.jobs[e.job].Arrived() && s'.departed == s.departed)
      && (e.kind == Departure ==>
            e.job !in s.departed && s'.departed == s.departed + {e.job})
  {
    var p := PopEvent(s, k);
    var e := s.stack[k];
    assert e in Outstanding(s);
    assert EventMatches(s, e);
    PopPreservesInv(s, k);
    if e.kind == Arrival {
      ArrivalRecordsQueueLength(p, e.time, e.job);
    } else {
      DepartureRecordsTrace(p, e);
      if SomeoneWaits(p) {
        DepartureHandOver(p, e.time, e.job);
      } else {
        DepartureIdle(p, e.time, e.job);
      }
    }
  }

  /** One loop turn of `run` sets a server, a departure time or a queue length at most once:
      a customer already in service keeps its server and departure time, and a customer who
      already arrived keeps its recorded queue length. */
  lemma StepKeepsAssignments(s: State, k: nat)
    requires Inv(s) && s.held.None? && IsMinIndex(s.stack, k)
    ensures |Dispatch(PopEvent(s, k)).jobs| == |s.jobs|
    ensures var s' := Dispatch(PopEvent(s, k));
      forall x | 0 <= x < |s.jobs| && s.jobs[x].Started() :: s'.jobs[x] == s.jobs[x]
    ensures var s' := Dispatch(PopEvent(s, k));
      forall x | 0 <= x < |s.jobs| && s.jobs[x].Arrived() ::
        s'.jobs[x].queueLength == s.jobs[x].queueLength
  {
    var p := PopEvent(s, k);
    var e := s.stack[k];
    assert e in Outstanding(s);
    assert EventMatches(s, e);
    assert p.jobs == s.jobs;
    if e.kind == Arrival {
      assert JobPlaced(s, e.job);
      ArrivalKeepsAssignments(p, e);
      assert Dispatch(p) == HandleArrival(p, e.time, e.job);
    } else {
      PopPreservesInv(s, k);
      DepartureKeepsAssignments(p, e);
      assert Dispatch(p) == HandleDeparture(p, e.time, e.job);
    }
  }

  /** The work left is never negative, and it is positive while events remain. */
  lemma WorkLeftBounds(s: State)
    requires Inv(s) && s.held.None?
    ensures WorkLeft(s) >= 0
    ensures s.stack != [] ==> WorkLeft(s) > 0
  {
    if s.stack != [] {
      var e := s.stack[0];
      assert e in Outstanding(s);
      assert EventMatches(s, e);
      if e.kind == Arrival {
        assert e.job in NotArrived(s);
      } else {
        var t := s.jobs[e.job].ServerType();
        assert e.job in InService(s, t);
        assert InService(s, t) == (InService(s, t) - {e.job}) + {e.job};
        assert s.Busy(t) > 0;
      }
    }
  }

  /** Once the event queue is empty, every customer has arrived, been served and departed,
      nobody waits, every server is idle, and no work is left. */
  lemma Finished(s: State)
    requires Inv(s) && s.held.None? && s.stack == []
    ensures WorkLeft(s) == 0
    ensures s.bQueue == [] && s.eQueue == [] && s.numBBusy == 0 && s.numEBusy == 0
    ensures forall j | 0 <= j < |s.jobs| ::
      s.jobs[j].Arrived() && s.jobs[j].Started() && j in s.departed
    ensures s.c == 0 ==> forall j | 0 <= j < |s.jobs| :: s.jobs[j].serverType == Some(Business)
  {
    assert Outstanding(s) == multiset{};
    forall j | 0 <= j < |s.jobs| ensures s.jobs[j].Arrived() && (s.jobs[j].Started() ==> j in s.departed) {
      assert JobPlaced(s, j);
    }
    assert NotArrived(s) == {};
    assert InService(s, Business) == {};
    assert InService(s, Economy) == {};
    assert s.bQueue == [] && s.eQueue == [];
    forall j | 0 <= j < |s.jobs| ensures s.jobs[j].Started() {
      assert JobPlaced(s, j);
    }
    forall j | 0 <= j < |s.jobs| && s.c == 0 ensures s.jobs[j].serverType == Some(Business) {
      assert s.jobs[j].serverType.value == Business || s.jobs[j].serverType.value == Economy;
    }
  }

  /** The events are handled in time order: the trace's adjacent order extends to every pair. */
  lemma {:induction false} TraceSorted(s: State, i: nat, j: nat)
    requires Causal(s) && i <= j < |s.trace|
    ensures s.trace[i].time <= s.trace[j].time
    decreases j - i
  {
    if i < j {
      TraceSorted(s, i, j - 1);
    }
  }

  /** With durations that are not negative, every pair of handled events is in time order,
      and no served customer waited a negative time. */
  lemma TimeOrderAndWaits(s: State)
    requires Inv(s) && NonNegativeServiceTimes(s.jobs)
    ensures forall i, i' | 0 <= i <= i' < |s.trace| :: s.trace[i].time <= s.trace[i'].time
    ensures forall j | 0 <= j < |s.jobs| && s.jobs[j].Started() :: s.jobs[j].WaitingTime() >= 0
  {
    forall i, i' | 0 <= i <= i' < |s.trace| ensures s.trace[i].time <= s.trace[i'].time {
      TraceSorted(s, i, i');
    }
  }

  /** `s` is reachable from `start` by turns of the loop in `run`: the server count and the
      customers' inputs are the same, the trace has grown by one event per unit of work done,
      and the work left is not negative. */
  predicate Continues(start: State, s: State) {
    && s.c == start.c && |s.jobs| == |start.jobs|
    && (forall j | 0 <= j < |s.jobs| :: s.jobs[j].SameCustomer(start.jobs[j]))
    && (forall j | 0 <= j < |s.jobs| && start.jobs[j].Started() :: s.jobs[j] == start.jobs[j])
    && (forall j | 0 <= j < |s.jobs| && start.jobs[j].Arrived() ::
          s.jobs[j].queueLength == start.jobs[j].queueLength)
    && start.trace <= s.trace
    && |s.trace| + WorkLeft(s) == |start.trace| + WorkLeft(start)
    && WorkLeft(s) >= 0
  }

  /** One more turn of the loop keeps a state reachable. */
  lemma StepContinues(start: State, s: State, k: nat)
    requires Inv(s) && s.held.None? && IsMinIndex(s.stack, k) && Continues(start, s)
    ensures PopEvent(s, k).held.value.job < |s.jobs| && PopEvent(s, k).QueuesIndexJobs()
    ensures Continues(start, Dispatch(PopEvent(s, k)))
    ensures WorkLeft(Dispatch(PopEvent(s, k))) < WorkLeft(s)
  {
    StepPreservesInv(s, k);
    StepKeepsAssignments(s, k);
    WorkLeftBounds(Dispatch(PopEvent(s, k)));
  }

  /** What a run reaches: once the event queue is empty, every customer has arrived, been
      served and departed, nobody waits, every server is idle, and the run handled one event
      per unit of work. With durations that are not negative the handled events are in time
      order and no wait is negative; without economy servers the business server served
      everyone. */
  lemma RunOutcome(start: State, s: State)
    requires Inv(s) && s.held.None? && s.stack == [] && Continues(start, s)
    ensures s.bQueue == [] && s.eQueue == [] && s.numBBusy == 0 && s.numEBusy == 0
    ensures forall j | 0 <= j < |s.jobs| ::
      s.jobs[j].Arrived() && s.jobs[j].Started() && j in s.departed
    ensures |s.trace| == |start.trace| + WorkLeft(start)
    ensures NonNegativeServiceTimes(start.jobs) ==>
      (forall i, i' | 0 <= i <= i' < |s.trace| :: s.trace[i].time <= s.trace[i'].time) &&
      (forall j | 0 <= j < |s.jobs| :: s.jobs[j].WaitingTime() >= 0)
    ensures s.c == 0 ==> forall j | 0 <= j < |s.jobs| :: s.jobs[j].serverType == Some(Business)
  {
    Finished(s);
    if NonNegativeServiceTimes(start.jobs) {
      assert NonNegativeServiceTimes(s.jobs) by {
        forall j | 0 <= j < |s.jobs| ensures s.jobs[j].serviceTime >= 0 {
          assert s.jobs[j].SameCustomer(start.jobs[j]);
        }
      }
      TimeOrderAndWaits(s);
    }
  }
}
