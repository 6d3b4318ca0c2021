/** The simulation engine as the object the original updates in place. Every method is proved
    to move the engine's state exactly as the matching function of the state machine in
    model.dfy does; what those functions keep and reach is proved in the other modules. */
module Engine {
  import opened Jobs
  import opened Events
  import Model
  import Invariants
  import PopProofs
  import RunProofs

  /** A G/G/c queue with one business server besides `c` economy servers. */
  class GGcWithBusiness {
    /** The number of business servers. */
    const b: nat := 1
    /** The number of economy servers. */
    const c: nat
    var jobs: seq<Job>
    var numBBusy: int
    var numEBusy: int
    /** The event queue; its entries carry the insertion number `heappush` order gives them. */
    var stack: seq<Event>
    var nextSeq: nat
    var bQueue: seq<nat>
    var eQueue: seq<nat>
    /** Bookkeeping the original does not keep: the event popped and not yet handled, the
        customers whose departure has been handled, and every event popped so far. */
    ghost var held: Option<Event>
    ghost var departed: set<nat>
    ghost var trace: seq<Event>

    ghost function Snapshot(): Model.State
      reads this
    {
      Model.State(c, jobs, numBBusy, numEBusy, stack, nextSeq, bQueue, eQueue, held, departed, trace)
    }

    /** The engine's invariant holds and no event is in hand. */
    ghost predicate Valid()
      reads this
    {
      Invariants.Inv(Snapshot()) && held.None?
    }

    /** `__init__`: no server busy, empty queues, then one arrival event per customer. Over
        customers none of whose fields is set yet, the new engine satisfies the invariant and
        has two events to handle per customer. */
    constructor (c: nat, jobs: seq<Job>)
      ensures Snapshot() == Model.Seeded(c, jobs)
      ensures (forall j | 0 <= j < |jobs| :: jobs[j].Unset()) ==>
        Valid() && Invariants.WorkLeft(Snapshot()) == 2 * |jobs|
    {
      this.c := c;
      this.jobs := jobs;
      numBBusy, numEBusy := 0, 0;
      stack, nextSeq := [], 0;
      bQueue, eQueue := [], [];
      held, departed, trace := None, {}, [];
      new;
      FillStack();
      if forall j | 0 <= j < |jobs| :: jobs[j].Unset() {
        Invariants.SeededInv(c, jobs);
      }
    }

    /** `heappush`: the new event gets the next insertion number. */
    method Push(time: int, kind: EventKind, j: nat)
      modifies this
      ensures Snapshot() == Model.Push(old(Snapshot()), time, kind, j)
    {
      stack := stack + [Event(time, kind, j, nextSeq)];
      nextSeq := nextSeq + 1;
    }

    /** `fill_stack`: push the arrival of every customer. */
    method FillStack()
      modifies this
      ensures Snapshot() == Model.FillStack(old(Snapshot()))
    {
      var i := 0;
      while i < |jobs|
        invariant 0 <= i <= |jobs| && jobs == old(jobs)
        invariant stack == old(stack) + Model.Arrivals(jobs, i, old(nextSeq))
        invariant nextSeq == old(nextSeq) + i
        invariant Snapshot() == old(Snapshot()).(stack := stack, nextSeq := nextSeq)
      {
        Push(jobs[i].arrivalTime, Arrival, i);
        i := i + 1;
      }
    }

    /** `start_service`: one more busy server of the customer's server type, its departure
        fixed one service time from now, and its departure event pushed. */
    method StartService(time: int, j: nat)
      requires j < |jobs|
      modifies this
      ensures Snapshot() == Model.StartService(old(Snapshot()), time, j)
    {
      if jobs[j].ServerType() == Business {
        numBBusy := numBBusy + 1;
      } else {
        numEBusy := numEBusy + 1;
      }
      var d := time + jobs[j].serviceTime;
      jobs := jobs[j := jobs[j].(departure := Some(d))];
      Push(d, Departure, j);
    }

    /** The caller's `job.server_type = t`. */
    method SetServer(j: nat, t: Class)
      requires j < |jobs|
      modifies this
      ensures Snapshot() == Model.Assign(old(Snapshot()), j, t)
    {
      jobs := jobs[j := jobs[j].(serverType := Some(t))];
    }

    /** `handle_arrival`: record the length of the customer's own queue, then serve it on a
        server of its own type, else on an idle server of the other type, else queue it. */
    method HandleArrival(time: int, j: nat)
      requires j < |jobs|
      modifies this
      ensures Snapshot() == Model.HandleArrival(old(Snapshot()), time, j)
    {
      var qlen := if jobs[j].customerType == Business then |bQueue| else |eQueue|;
      jobs := jobs[j := jobs[j].(queueLength := Some(qlen))];
      held := None;
      if jobs[j].customerType == Economy {
        if numEBusy < c {
          SetServer(j, Economy);
          StartService(time, j);
        } else if numBBusy < b {
          SetServer(j, Business);
          StartService(time, j);
        } else {
          eQueue := eQueue + [j];
        }
      } else {
        if numBBusy < b {
          SetServer(j, Business);
          StartService(time, j);
        } else if numEBusy < c {
          SetServer(j, Economy);
          StartService(time, j);
        } else {
          bQueue := bQueue + [j];
        }
      }
    }

    /** `pop_from_queue_set_server_and_start`: the head of queue `from` leaves it and starts at
        once on a server of type `t`. */
    method PopFromQueueSetServerAndStart(time: int, from: Class, t: Class)
      requires Snapshot().Queue(from) != [] && Snapshot().Queue(from)[0] < |jobs|
      modifies this
      ensures Snapshot() == Model.PopFromQueueSetServerAndStart(old(Snapshot()), time, from, t)
    {
      var k;
      if from == Business {
        k := bQueue[0];
        bQueue := bQueue[1..];
      } else {
        k := eQueue[0];
        eQueue := eQueue[1..];
      }
      SetServer(k, t);
      StartService(time, k);
    }

    /** `handle_departure`: free the customer's server, which takes the head of its own class's
        queue, else the head of the other queue, else goes idle. */
    method HandleDeparture(time: int, j: nat)
      requires j < |jobs| && Snapshot().QueuesIndexJobs()
      modifies this
      ensures Snapshot() == Model.HandleDeparture(old(Snapshot()), time, j)
    {
      ghost var s1 := Snapshot().(held := None, departed := departed + {j});
      held := None;
      departed := departed + {j};
      if jobs[j].ServerType() == Business {
        numBBusy := numBBusy - 1;
        assert Snapshot() == s1.(numBBusy := s1.numBBusy - 1);
        if bQueue != [] {
          PopFromQueueSetServerAndStart(time, Business, Business);
        } else if eQueue != [] {
          PopFromQueueSetServerAndStart(time, Economy, Business);
        }
      } else {
        numEBusy := numEBusy - 1;
        assert Snapshot() == s1.(numEBusy := s1.numEBusy - 1);
        if eQueue != [] {
          PopFromQueueSetServerAndStart(time, Economy, Economy);
        } else if bQueue != [] {
          PopFromQueueSetServerAndStart(time, Business, Economy);
        }
      }
    }

    /** `heappop`: remove an earliest event from the queue; it is in hand until handled. */
    method PopEvent() returns (e: Event, k: nat)
      requires stack != []
      modifies this
      ensures IsMinIndex(old(stack), k) && e == old(stack)[k]
      ensures Snapshot() == Model.PopEvent(old(Snapshot()), k)
    {
      k := FindMin(stack);
      e := stack[k];
      stack := RemoveAt(stack, k);
      held := Some(e);
      trace := trace + [e];
    }

    /** The body of the loop in `run` after the pop: hand the event to its handler. */
    method Dispatch(e: Event)
      requires held == Some(e) && e.job < |jobs| && Snapshot().QueuesIndexJobs()
      modifies this
      ensures Snapshot() == Model.Dispatch(old(Snapshot()))
    {
      if e.kind == Arrival {
        HandleArrival(e.time, e.job);
      } else {
        HandleDeparture(e.time, e.job);
      }
    }

    /** `run`: pop and handle events until none is left. Every customer arrives, is served
        and departs; the queues drain and every server ends idle; the events are handled one
        per unit of outstanding work, so a new engine handles exactly two per customer. With
        durations that are not negative, the events are handled in time order and nobody's
        service starts before its arrival. Without economy servers, only the business server
        ever serves. */
    method Run()
      requires Valid()
      modifies this
      ensures Valid()
      ensures stack == [] && bQueue == [] && eQueue == [] && numBBusy == 0 && numEBusy == 0
      ensures |jobs| == |old(jobs)|
      ensures forall j | 0 <= j < |jobs| ::
        jobs[j].SameCustomer(old(jobs)[j]) && jobs[j].Arrived() && jobs[j].Started() && j in departed
      ensures forall j | 0 <= j < |jobs| && old(jobs)[j].Started() :: jobs[j] == old(jobs)[j]
      ensures forall j | 0 <= j < |jobs| && old(jobs)[j].Arrived() ::
        jobs[j].queueLength == old(jobs)[j].queueLength
      ensures old(trace) <= trace
      ensures |trace| == |old(trace)| + old(Invariants.WorkLeft(Snapshot()))
      ensures Invariants.NonNegativeServiceTimes(old(jobs)) ==>
        (forall i, i' | 0 <= i <= i' < |trace| :: trace[i].time <= trace[i'].time) &&
        (forall j | 0 <= j < |jobs| :: jobs[j].WaitingTime() >= 0)
      ensures c == 0 ==> forall j | 0 <= j < |jobs| :: jobs[j].serverType == Some(Business)
    {
      ghost var start := Snapshot();
      RunProofs.WorkLeftBounds(start);
      while stack != []
        invariant Valid()
        invariant RunProofs.Continues(start, Snapshot())
        decreases Invariants.WorkLeft(Snapshot())
      {
        ghost var s0 := Snapshot();
        var e, k := PopEvent();
        RunProofs.StepPreservesInv(s0, k);
        Dispatch(e);
        RunProofs.StepContinues(start, s0, k);
      }
      RunProofs.RunOutcome(start, Snapshot());
    }
  }

  /** A new engine over new customers, run to the end: it handles exactly two events per
      customer, and every customer arrives, is served and departs. */
  method Simulate(c: nat, jobs: seq<Job>) returns (g: GGcWithBusiness)
    requires forall j | 0 <= j < |jobs| :: jobs[j].Unset()
    ensures g.Valid() && g.c == c && |g.jobs| == |jobs| && |g.trace| == 2 * |jobs|
    ensures g.stack == [] && g.bQueue == [] && g.eQueue == []
    ensures forall j | 0 <= j < |jobs| ::
      g.jobs[j].SameCustomer(jobs[j]) && g.jobs[j].Started() && j in g.departed
  {
    g := new GGcWithBusiness(c, jobs);
    g.Run();
  }
}
