/** The simulation engine as a state machine on values: its state, and one function per
    operation of the engine. The class in engine.dfy is proved to follow these functions. */
module Model {
  import opened Jobs
  import opened Events

  /** The number of business servers. */
  const B: nat := 1

  /** The engine's state. `jobs` is the customer population addressed by index; queues and
      events hold indices into it. The last three fields are bookkeeping that the engine does
      not keep: `held` is an event popped and not yet handled, `departed` the jobs whose
      departure has been handled, `trace` every event popped so far, in order. */
  datatype State = State(
    c: nat,
    jobs: seq<Job>,
    numBBusy: int,
    numEBusy: int,
    stack: seq<Event>,
    nextSeq: nat,
    bQueue: seq<nat>,
    eQueue: seq<nat>,
    held: Option<Event>,
    departed: set<nat>,
    trace: seq<Event>)
  {
    /** The wait queue of customer class `t`. */
    function Queue(t: Class): seq<nat> {
      if t == Business then bQueue else eQueue
    }

    /** The busy counter of server pool `t`. */
    function Busy(t: Class): int {
      if t == Business then numBBusy else numEBusy
    }

    /** The number of servers in pool `t`. */
    function Capacity(t: Class): nat {
      if t == Business then B else c
    }

    /** Every index a queue holds names a job. */
    predicate QueuesIndexJobs() {
      (forall i | 0 <= i < |bQueue| :: bQueue[i] < |jobs|) &&
      (forall i | 0 <= i < |eQueue| :: eQueue[i] < |jobs|)
    }
  }

  /** The other class, or the other server pool. */
  function Other(t: Class): Class {
    if t == Business then Economy else Business
  }

  /** The state `__init__` sets up before it seeds the event queue. */
  function Init(c: nat, jobs: seq<Job>): State {
    State(c, jobs, 0, 0, [], 0, [], [], None, {}, [])
  }

  /** `heappush`: the new event gets the next insertion number. */
  function Push(s: State, time: int, kind: EventKind, j: nat): State {
    s.(stack := s.stack + [Event(time, kind, j, s.nextSeq)], nextSeq := s.nextSeq + 1)
  }

  /** The arrival events of the first `n` jobs, numbered from `base` on, in index order. */
  function Arrivals(jobs: seq<Job>, n: nat, base: nat): seq<Event>
    requires n <= |jobs|
  {
    if n == 0 then []
    else Arrivals(jobs, n - 1, base) + [Event(jobs[n - 1].arrivalTime, Arrival, n - 1, base + n - 1)]
  }

  /** `fill_stack`: one arrival event per job. */
  function FillStack(s: State): State {
    s.(stack := s.stack + Arrivals(s.jobs, |s.jobs|, s.nextSeq), nextSeq := s.nextSeq + |s.jobs|)
  }

  /** A new engine: `__init__` followed by `fill_stack`. */
  function Seeded(c: nat, jobs: seq<Job>): State {
    FillStack(Init(c, jobs))
  }

  /** The caller's `job.server_type = t`. */
  function Assign(s: State, j: nat, t: Class): State
    requires j < |s.jobs|
  {
    s.(jobs := s.jobs[j := s.jobs[j].(serverType := Some(t))])
  }

  /** `start_service`: one more busy server of the job's server type, the departure time fixed
      one service time from now, and a departure event pushed for it. */
  function StartService(s: State, time: int, j: nat): State
    requires j < |s.jobs|
  {
    var job := s.jobs[j];
    var d := time + job.serviceTime;
    var s1 := if job.ServerType() == Business then s.(numBBusy := s.numBBusy + 1)
              else s.(numEBusy := s.numEBusy + 1);
    Push(s1.(jobs := s.jobs[j := job.(departure := Some(d))]), d, Departure, j)
  }

  /** `handle_arrival`: record the length of the job's own-class queue, then serve it on a
      server of its own type, else on an idle server of the other type, else queue it. */
  function HandleArrival(s: State, time: int, j: nat): State
    requires j < |s.jobs|
  {
    var job := s.jobs[j];
    var qlen := if job.customerType == Business then |s.bQueue| else |s.eQueue|;
    var s1 := s.(jobs := s.jobs[j := job.(queueLength := Some(qlen))], held := None);
    if job.customerType == Economy then
      if s1.numEBusy < s1.c then StartService(Assign(s1, j, Economy), time, j)
      else if s1.numBBusy < B then StartService(Assign(s1, j, Business), time, j)
      else s1.(eQueue := s1.eQueue + [j])
    else
      if s1.numBBusy < B then StartService(Assign(s1, j, Business), time, j)
      else if s1.numEBusy < s1.c then StartService(Assign(s1, j, Economy), time, j)
      else s1.(bQueue := s1.bQueue + [j])
  }

  /** `pop_from_queue_set_server_and_start`: take the head of the queue of class `from` and
      start it at once on a server of type `t`. */
  function PopFromQueueSetServerAndStart(s: State, time: int, from: Class, t: Class): State
    requires s.Queue(from) != [] && s.Queue(from)[0] < |s.jobs|
  {
    var k := s.Queue(from)[0];
    var s1 := if from == Business then s.(bQueue := s.bQueue[1..]) else s.(eQueue := s.eQueue[1..]);
    StartService(Assign(s1, k, t), time, k)
  }

  /** `handle_departure`: free the job's server; the freed server takes the head of its own
      class's queue, else the head of the other queue, else stays idle. */
  function HandleDeparture(s: State, time: int, j: nat): State
    requires j < |s.jobs| && s.QueuesIndexJobs()
  {
    var s1 := s.(held := None, departed := s.departed + {j});
    if s.jobs[j].ServerType() == Business then
      var s2 := s1.(numBBusy := s1.numBBusy - 1);
      if s2.bQueue != [] then PopFromQueueSetServerAndStart(s2, time, Business, Business)
      else if s2.eQueue != [] then PopFromQueueSetServerAndStart(s2, time, Economy, Business)
      else s2
    else
      var s2 := s1.(numEBusy := s1.numEBusy - 1);
      if s2.eQueue != [] then PopFromQueueSetServerAndStart(s2, time, Economy, Economy)
      else if s2.bQueue != [] then PopFromQueueSetServerAndStart(s2, time, Business, Economy)
      else s2
  }

  /** `heappop`, given the index of an earliest event: the event is removed from the queue and
      is now in hand, to be handled next. */
  function PopEvent(s: State, k: nat): State
    requires k < |s.stack|
  {
    s.(stack := RemoveAt(s.stack, k), held := Some(s.stack[k]), trace := s.trace + [s.stack[k]])
  }

  /** Handle the event in hand, as the loop in `run` does. */
  function Dispatch(s: State): State
    requires s.held.Some? && s.held.value.job < |s.jobs| && s.QueuesIndexJobs()
  {
    var e := s.held.value;
    if e.kind == Arrival then HandleArrival(s, e.time, e.job)
    else HandleDeparture(s, e.time, e.job)
  }
}
