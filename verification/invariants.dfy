/** What the engine's state always satisfies between events, and why each operation keeps it. */
module Invariants {
  import opened Jobs
  import opened Events
  import opened Model

  /** The events still to be handled: those in the queue and the one in hand. */
  function Outstanding(s: State): multiset<Event> {
    multiset(s.stack) + (match s.held case Some(e) => multiset{e} case None => multiset{})
  }

  /** Job `j` has an outstanding event of kind `k`. */
  predicate HasEvent(s: State, j: nat, k: EventKind) {
    exists e :: e in Outstanding(s) && e.job == j && e.kind == k
  }

  /** Neither pool has more busy servers than it has servers. */
  predicate CapacityRespected(s: State) {
    0 <= s.numBBusy <= B && 0 <= s.numEBusy <= s.c
  }

  /** A customer waits only while every server is busy. */
  predicate QueuesOnlyWhenFull(s: State) {
    s.bQueue != [] || s.eQueue != [] ==> s.numBBusy == B && s.numEBusy == s.c
  }

  /** What an outstanding event says about its job: an arrival is for a job that has not
      arrived yet, at its arrival time; a departure is for a job in service, at its departure
      time. Every event was numbered when it was pushed. */
  predicate EventMatches(s: State, e: Event) {
    e.job < |s.jobs| && e.seqNo < s.nextSeq &&
    match e.kind
    case Arrival =>
      !s.jobs[e.job].Arrived() && e.time == s.jobs[e.job].arrivalTime
    case Departure =>
      s.jobs[e.job].Started() && e.job !in s.departed && e.time == s.jobs[e.job].DepartureTime()
  }

  predicate EventsMatchJobs(s: State) {
    forall e | e in Outstanding(s) :: EventMatches(s, e)
  }

  /** Every event in the queue was numbered before the next insertion number. */
  lemma StackSeqNosBelow(s: State)
    requires EventsMatchJobs(s)
    ensures forall x | x in multiset(s.stack) :: x.seqNo < s.nextSeq
  {
    forall x | x in multiset(s.stack) ensures x.seqNo < s.nextSeq {
      assert x in Outstanding(s);
    }
  }

  /** No event is outstanding twice, and two different outstanding events are for different
      jobs and carry different insertion numbers. */
  predicate OneEventPerJob(s: State) {
    (forall e | e in Outstanding(s) :: Outstanding(s)[e] == 1) &&
    (forall e1, e2 | e1 in Outstanding(s) && e2 in Outstanding(s) && e1 != e2 ::
       e1.job != e2.job && e1.seqNo != e2.seqNo)
  }

  /** Each job is in exactly the place its fields say: not arrived with its arrival pending,
      waiting in its own class's queue, in service with its departure pending, or departed. */
  predicate JobLifecycle(s: State) {
    (forall j | j in s.departed :: j < |s.jobs| && s.jobs[j].Started()) &&
    forall j | 0 <= j < |s.jobs| :: JobPlaced(s, j)
  }

  predicate JobPlaced(s: State, j: nat)
    requires j < |s.jobs|
  {
    && (s.jobs[j].serverType.Some? <==> s.jobs[j].departure.Some?)
    && (s.jobs[j].Started() ==> s.jobs[j].Arrived())
    && (!s.jobs[j].Arrived() ==> HasEvent(s, j, Arrival))
    && (s.jobs[j].Waiting() ==> j in s.Queue(s.jobs[j].customerType))
    && (s.jobs[j].Started() && j !in s.departed ==> HasEvent(s, j, Departure))
  }

  /** Queue `q` holds distinct waiting jobs of class `t`. */
  predicate QueueHolds(s: State, q: seq<nat>, t: Class) {
    (forall i | 0 <= i < |q| ::
       q[i] < |s.jobs| && s.jobs[q[i]].Waiting() && s.jobs[q[i]].customerType == t) &&
    (forall i, i' | 0 <= i < i' < |q| :: q[i] != q[i'])
  }

  predicate QueuesHoldWaitingJobs(s: State) {
    QueueHolds(s, s.bQueue, Business) && QueueHolds(s, s.eQueue, Economy)
  }

  /** The jobs being served by a server of type `t`. */
  function InService(s: State, t: Class): set<nat> {
    set j | 0 <= j < |s.jobs| && s.jobs[j].serverType == Some(t) && j !in s.departed
  }

  /** Setting the server of one job that had none, and changing nothing else that
      `InService` reads, adds that job to the pool it is assigned to and to no other. */
  lemma InServiceAfterAssign(s: State, s': State, j: nat, t: Class)
    requires j < |s.jobs| == |s'.jobs| && s'.departed == s.departed && j !in s.departed
    requires forall x | 0 <= x < |s.jobs| && x != j :: s'.jobs[x] == s.jobs[x]
    requires s.jobs[j].serverType == None && s'.jobs[j].serverType == Some(t)
    ensures InService(s', t) == InService(s, t) + {j} && j !in InService(s, t)
    ensures |InService(s', t)| == |InService(s, t)| + 1
    ensures InService(s', Other(t)) == InService(s, Other(t))
  {
  }

  /** Marking a job in service departed takes it out of its pool and out of no other. */
  lemma InServiceAfterDepart(s: State, s': State, j: nat, t: Class)
    requires s'.jobs == s.jobs && s'.departed == s.departed + {j}
    requires j in InService(s, t)
    ensures InService(s', t) == InService(s, t) - {j}
    ensures |InService(s', t)| == |InService(s, t)| - 1
    ensures InService(s', Other(t)) == InService(s, Other(t))
  {
  }

  /** `InService` reads only the jobs' server types and the departed set. */
  lemma InServiceUnchanged(s: State, s': State)
    requires |s.jobs| == |s'.jobs| && s'.departed == s.departed
    requires forall x | 0 <= x < |s.jobs| :: s'.jobs[x].serverType == s.jobs[x].serverType
    ensures InService(s', Business) == InService(s, Business)
    ensures InService(s', Economy) == InService(s, Economy)
  {
  }

  /** The busy counters count the jobs in service on each pool. */
  predicate CountersMatchService(s: State) {
    s.numBBusy == |InService(s, Business)| && s.numEBusy == |InService(s, Economy)|
  }

  /** The event in hand is the one popped last. */
  predicate HeldIsLastPopped(s: State) {
    s.held.Some? ==> s.trace != [] && s.trace[|s.trace| - 1] == s.held.value
  }

  /** Without economy servers no job is ever served by one. */
  predicate EconomyPoolUnusedWhenEmpty(s: State) {
    s.c == 0 ==> forall j | 0 <= j < |s.jobs| :: s.jobs[j].serverType != Some(Economy)
  }

  predicate NonNegativeServiceTimes(jobs: seq<Job>) {
    forall j | 0 <= j < |jobs| :: jobs[j].serviceTime >= 0
  }

  /** The time of the last popped event. */
  function Now(s: State): int
    requires s.trace != []
  {
    s.trace[|s.trace| - 1].time
  }

  /** Time only moves forward: popped events are in time order, nothing pending lies in the
      past, waiting jobs arrived in the past, and service never starts before arrival. */
  predicate Causal(s: State) {
    TraceOrdered(s) && PendingNotPast(s) && WaitersArrived(s) && StartsAfterArrival(s)
  }

  predicate TraceOrdered(s: State) {
    forall i | 0 < i < |s.trace| :: s.trace[i - 1].time <= s.trace[i].time
  }

  predicate PendingNotPast(s: State) {
    s.trace != [] ==> forall e | e in s.stack :: Now(s) <= e.time
  }

  predicate WaitersArrived(s: State) {
    forall j | 0 <= j < |s.jobs| && s.jobs[j].Waiting() ::
      s.trace != [] && s.jobs[j].arrivalTime <= Now(s)
  }

  predicate StartsAfterArrival(s: State) {
    forall j | 0 <= j < |s.jobs| && s.jobs[j].Started() ::
      s.jobs[j].arrivalTime <= s.jobs[j].ServiceStart()
  }

  /** The engine's invariant. Causality needs durations that are not negative. */
  predicate Inv(s: State) {
    && CapacityRespected(s)
    && QueuesOnlyWhenFull(s)
    && EventsMatchJobs(s)
    && OneEventPerJob(s)
    && JobLifecycle(s)
    && QueuesHoldWaitingJobs(s)
    && CountersMatchService(s)
    && HeldIsLastPopped(s)
    && EconomyPoolUnusedWhenEmpty(s)
    && (NonNegativeServiceTimes(s.jobs) ==> Causal(s))
  }

  /** `start_service` changes exactly three things: the busy counter of the customer's server
      type goes up by one, the customer's departure is fixed one service time from now (so
      its service starts now), and one departure event for it at that time joins the queue. */
  lemma StartServiceEffect(s: State, time: int, j: nat)
    requires j < |s.jobs|
    ensures var s', t, d := StartService(s, time, j), s.jobs[j].ServerType(),
                            time + s.jobs[j].serviceTime;
      && s'.Busy(t) == s.Busy(t) + 1 && s'.Busy(Other(t)) == s.Busy(Other(t))
      && s'.jobs == s.jobs[j := s.jobs[j].(departure := Some(d))]
      && s'.jobs[j].ServiceStart() == time
      && multiset(s'.stack) == multiset(s.stack) + multiset{Event(d, Departure, j, s.nextSeq)}
      && s'.nextSeq == s.nextSeq + 1
      && s'.bQueue == s.bQueue && s'.eQueue == s.eQueue && s'.c == s.c
      && s'.held == s.held && s'.departed == s.departed && s'.trace == s.trace
  {
    var t := s.jobs[j].ServerType();
    assert t == Business || t == Economy;
  }

  /** The jobs whose arrival has not been handled. */
  function NotArrived(s: State): set<nat> {
    set j | 0 <= j < |s.jobs| && !s.jobs[j].Arrived()
  }

  /** The events still to be popped: two for a job that has not arrived, one for a job that
      waits or is in service. */
  function WorkLeft(s: State): int {
    2 * |NotArrived(s)| + |s.bQueue| + |s.eQueue| + s.numBBusy + s.numEBusy
  }

  // ---------------------------------------------------------------------------------------
  // Seeding

  /** The indices below `n`. */
  function Indices(n: nat): set<nat> {
    if n == 0 then {} else Indices(n - 1) + {n - 1}
  }

  lemma {:induction false} IndicesBelow(n: nat)
    ensures |Indices(n)| == n
    ensures forall j: int :: j in Indices(n) <==> 0 <= j < n
  {
    if n > 0 {
      IndicesBelow(n - 1);
      assert n - 1 !in Indices(n - 1);
    }
  }

  /** `fill_stack` seeds exactly one arrival per job, at the job's arrival time, with
      consecutive insertion numbers. */
  lemma {:induction false} ArrivalsSeedEachJob(jobs: seq<Job>, n: nat, base: nat)
    requires n <= |jobs|
    ensures |Arrivals(jobs, n, base)| == n
    ensures forall i | 0 <= i < n ::
      Arrivals(jobs, n, base)[i] == Event(jobs[i].arrivalTime, Arrival, i, base + i)
  {
    if n > 0 {
      ArrivalsSeedEachJob(jobs, n - 1, base);
    }
  }

  /** A sequence without repeated elements holds each of them once. */
  lemma {:induction false} DistinctOnce<T>(s: seq<T>)
    requires forall i, j | 0 <= i < j < |s| :: s[i] != s[j]
    ensures forall x | x in multiset(s) :: multiset(s)[x] == 1
  {
    if s != [] {
      var init, last := s[..|s| - 1], s[|s| - 1];
      assert s == init + [last];
      DistinctOnce(init);
      assert last !in init;
    }
  }

  /** Each seeded event is the arrival of the job it names, numbered by that job's index. */
  lemma SeededEventShape(c: nat, jobs: seq<Job>)
    ensures forall e | e in Outstanding(Seeded(c, jobs)) ::
      e.job < |jobs| && e == Event(jobs[e.job].arrivalTime, Arrival, e.job, e.job)
    ensures forall j | 0 <= j < |jobs| :: HasEvent(Seeded(c, jobs), j, Arrival)
  {
    var s := Seeded(c, jobs);
    ArrivalsSeedEachJob(jobs, |jobs|, 0);
    assert s.stack == Arrivals(jobs, |jobs|, 0);
    assert Outstanding(s) == multiset(s.stack);
    forall e | e in Outstanding(s)
      ensures e.job < |jobs| && e == Event(jobs[e.job].arrivalTime, Arrival, e.job, e.job)
    {
      assert e in s.stack;
    }
    forall j | 0 <= j < |jobs|
      ensures HasEvent(s, j, Arrival)
    {
      assert s.stack[j] in multiset(s.stack);
    }
  }

  /** No seeded event is outstanding twice. */
  lemma SeededOnce(c: nat, jobs: seq<Job>)
    ensures forall e | e in Outstanding(Seeded(c, jobs)) :: Outstanding(Seeded(c, jobs))[e] == 1
  {
    var s := Seeded(c, jobs);
    ArrivalsSeedEachJob(jobs, |jobs|, 0);
    assert Outstanding(s) == multiset(s.stack);
    DistinctOnce(s.stack);
  }

  /** The seeded engine's outstanding events are exactly one arrival per job. */
  lemma SeededEvents(c: nat, jobs: seq<Job>)
    requires forall j | 0 <= j < |jobs| :: jobs[j].Unset()
    ensures EventsMatchJobs(Seeded(c, jobs)) && OneEventPerJob(Seeded(c, jobs))
  {
    SeededEventShape(c, jobs);
    SeededOnce(c, jobs);
  }

  /** Every seeded job is still to arrive, with its arrival pending. */
  lemma SeededLifecycle(c: nat, jobs: seq<Job>)
    requires forall j | 0 <= j < |jobs| :: jobs[j].Unset()
    ensures JobLifecycle(Seeded(c, jobs))
  {
    SeededEventShape(c, jobs);
  }

  /** No server is busy and nobody waits in a new engine. */
  lemma SeededCounters(c: nat, jobs: seq<Job>)
    requires forall j | 0 <= j < |jobs| :: jobs[j].Unset()
    ensures CountersMatchService(Seeded(c, jobs))
    ensures WorkLeft(Seeded(c, jobs)) == 2 * |jobs|
  {
    var s := Seeded(c, jobs);
    assert InService(s, Business) == {};
    assert InService(s, Economy) == {};
    IndicesBelow(|jobs|);
    assert NotArrived(s) == Indices(|jobs|);
  }

  /** The remaining parts of the invariant hold trivially in a new engine. */
  lemma SeededRest(c: nat, jobs: seq<Job>)
    requires forall j | 0 <= j < |jobs| :: jobs[j].Unset()
    ensures CapacityRespected(Seeded(c, jobs)) && QueuesOnlyWhenFull(Seeded(c, jobs))
    ensures QueuesHoldWaitingJobs(Seeded(c, jobs)) && HeldIsLastPopped(Seeded(c, jobs))
    ensures EconomyPoolUnusedWhenEmpty(Seeded(c, jobs)) && Causal(Seeded(c, jobs))
  {
  }

  /** A new engine over customers none of whose fields have been set satisfies the
      invariant, and has two events to pop per job. */
  lemma SeededInv(c: nat, jobs: seq<Job>)
    requires forall j | 0 <= j < |jobs| :: jobs[j].Unset()
    ensures Inv(Seeded(c, jobs))
    ensures WorkLeft(Seeded(c, jobs)) == 2 * |jobs|
    ensures |Seeded(c, jobs).stack| == |jobs|
  {
    SeededEvents(c, jobs);
    SeededLifecycle(c, jobs);
    SeededCounters(c, jobs);
    SeededRest(c, jobs);
    ArrivalsSeedEachJob(jobs, |jobs|, 0);
  }
}

module PopProofs {
  import opened Jobs
  import opened Events
  import opened Model
  import opened Invariants

  /** Popping moves an event from the queue into hand: the outstanding events stay the same. */
  lemma PopKeepsOutstanding(s: State, k: nat)
    requires s.held.None? && k < |s.stack|
    ensures Outstanding(PopEvent(s, k)) == Outstanding(s)
  {
  }

  /** The parts of the invariant that only look at the jobs, the queues, the counters and the
      outstanding events survive a pop. */
  lemma PopKeepsBookkeeping(s: State, k: nat)
    requires EventsMatchJobs(s) && OneEventPerJob(s) && JobLifecycle(s)
    requires s.held.None? && k < |s.stack|
    ensures EventsMatchJobs(PopEvent(s, k)) && OneEventPerJob(PopEvent(s, k))
    ensures JobLifecycle(PopEvent(s, k))
  {
    PopKeepsOutstanding(s, k);
    var s' := PopEvent(s, k);
    forall j, kd | HasEvent(s, j, kd) ensures HasEvent(s', j, kd) {
      var e :| e in Outstanding(s) && e.job == j && e.kind == kd;
      assert e in Outstanding(s');
    }
    forall j | 0 <= j < |s'.jobs| ensures JobPlaced(s', j) {
      assert JobPlaced(s, j);
    }
  }

  /** Popping an earliest event moves time forward to that event's time. */
  lemma PopKeepsCausal(s: State, k: nat)
    requires Causal(s) && s.held.None? && IsMinIndex(s.stack, k)
    ensures Causal(PopEvent(s, k))
  {
    var s' := PopEvent(s, k);
    var e := s.stack[k];
    assert s'.trace == s.trace + [e];
    assert Now(s') == e.time;
    assert s.trace != [] ==> Now(s) <= e.time by {
      if s.trace != [] {
        assert e in s.stack;
      }
    }
    forall i | 0 < i < |s'.trace| ensures s'.trace[i - 1].time <= s'.trace[i].time {
      if i < |s.trace| {
        assert s'.trace[i - 1] == s.trace[i - 1] && s'.trace[i] == s.trace[i];
      }
    }
    forall e' | e' in s'.stack ensures Now(s') <= e'.time {
      assert e' in multiset(s'.stack);
      assert e' in multiset(s.stack);
      var i :| 0 <= i < |s.stack| && s.stack[i] == e';
    }
  }

  /** A pop leaves the jobs, the queues and the counters alone. */
  lemma PopKeepsCounters(s: State, k: nat)
    requires Inv(s) && s.held.None? && k < |s.stack|
    ensures CapacityRespected(PopEvent(s, k)) && QueuesOnlyWhenFull(PopEvent(s, k))
    ensures QueuesHoldWaitingJobs(PopEvent(s, k)) && CountersMatchService(PopEvent(s, k))
    ensures HeldIsLastPopped(PopEvent(s, k)) && EconomyPoolUnusedWhenEmpty(PopEvent(s, k))
    ensures WorkLeft(PopEvent(s, k)) == WorkLeft(s)
  {
    var s' := PopEvent(s, k);
    assert NotArrived(s') == NotArrived(s);
    assert InService(s', Business) == InService(s, Business);
    assert InService(s', Economy) == InService(s, Economy);
  }

  /** `heappop` of an earliest event keeps the invariant and leaves the work to do unchanged;
      the popped event is then the one in hand. */
  lemma PopPreservesInv(s: State, k: nat)
    requires Inv(s) && s.held.None? && IsMinIndex(s.stack, k)
    ensures Inv(PopEvent(s, k))
    ensures WorkLeft(PopEvent(s, k)) == WorkLeft(s)
    ensures PopEvent(s, k).held == Some(s.stack[k])
  {
    PopKeepsBookkeeping(s, k);
    PopKeepsCounters(s, k);
    if NonNegativeServiceTimes(s.jobs) {
      PopKeepsCausal(s, k);
    }
  }
}
