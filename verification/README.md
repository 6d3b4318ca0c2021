# A G/G/c queue with one business server, in Dafny

This project models the discrete-event simulation in `tutorial_5.py` of the
queues_simulations repository and proves properties of that model. The simulation
serves two classes of customers, business and economy, with one business server
and `c` economy servers. Each class has its own FIFO wait queue.

- An arriving customer records the length of its own class's queue.
- It is then served on an idle server of its own type, else on an idle server of
  the other type, else it joins the back of its own queue.
- A server freed by a departure takes the head of its own class's queue, else the
  head of the other queue, else it goes idle.
- `run` pops events from a heap of `(time, job, kind)` entries until the heap is
  empty.
- Afterwards the mean and the maximum waiting time are taken over all customers,
  or over the customers of one class.

Files and modules:

- `jobs.dfy` (`Jobs`): the `Job` record and its derived times.
- `events.dfy` (`Events`): events, the order in which they are popped, and the
  linear scan that finds the earliest event. It also holds the comparison the
  original heap performs.
- `model.dfy` (`Model`): the engine's state as a value, with one function per
  operation of the engine.
- `engine.dfy` (`Engine`): the engine as a class whose fields its methods update
  in place. Each method is proved to move the state exactly as the matching
  function in `Model` does.
- `invariants.dfy` (`Invariants`, `PopProofs`): the invariant the engine keeps,
  and the proofs that a new engine satisfies it and that a pop keeps it.
- `arrival.dfy` (`ArrivalProofs`) and `departure.dfy` (`DepartureProofs`): what
  each handler does, and the proofs that it keeps the invariant.
- `run.dfy` (`RunProofs`): one turn of the loop in `run`, and what holds once the
  event queue is empty.
- `statistics.dfy` (`Statistics`): `mean_waiting_time` and `max_waiting_time`.

How the model is built:

- Customers are a sequence of `Job` values addressed by index. Queues and events
  hold indices into it.
- The fields the simulation sets are `Option`s that start as `None`:
  `server_type` and `departure_time` when service starts, and
  `queue_length_at_arrival` on arrival. The original's defaults (economy, 0)
  are what `ServerType()` and `DepartureTime()` read from an unset field.
- Times and durations are integers.
- Events are popped in the order (time, arrival before departure, insertion
  number). The insertion number is a counter the engine increments on every push.
- The heap is a sequence. A pop scans it for its earliest event (`FindMin`) and
  removes that event.
- The engine also keeps three ghost fields for the proofs: the popped event not
  yet handled, the set of customers who have departed, and the trace of every
  event popped so far.

The invariant (`Invariants.Inv`) says:

- both busy counters stay within their pool's size;
- a queue is non-empty only while every server is busy;
- every outstanding event matches its customer, and no customer has two;
- every customer is in exactly the place its fields say: yet to arrive with its
  arrival pending, waiting in its own class's queue, in service with its
  departure pending, or departed;
- the queues hold distinct waiting customers of their class;
- each busy counter equals the number of customers in service on that pool;
- with no economy server, nobody is ever served by one;
- when no service time is negative, time never runs backwards.

`WorkLeft` counts two events for each customer yet to arrive and one for each
waiting or in-service customer. Every turn of the loop lowers it by exactly one.
A new engine starts with `2·|jobs|`, so `run` pops exactly two events per customer.

## Model

| member | source | states |
|---|---|---|
| Jobs.NewJob | tutorial_5.py:15-22 | a new customer carries its arrival time, service time and class; nothing else is set, and it reads as economy-served with departure time 0 |
| Jobs.DerivedTimes | tutorial_5.py:24-31 | sojourn = wait + service; wait = service start − arrival; departure = service start + service; the wait is non-negative exactly when service starts no earlier than arrival |
| Events.LeIsTotalOrder | tutorial_5.py:92 | the pop order is reflexive, total and transitive; it ties only events equal in time, kind and insertion number; `Before` is its strict part |
| Events.BeforeDecides | tutorial_5.py:125 | two events with different insertion numbers are always strictly ordered, one way round and not both |
| Events.FindMin | tutorial_5.py:149 | the index returned holds an event no later than any other in the queue |
| Events.MinIsUnique | tutorial_5.py:149 | with distinct insertion numbers there is exactly one earliest event |
| Events.RemoveAt | tutorial_5.py:149 | removing the popped entry keeps the others in order, and the queue loses exactly that one entry (multiset) |
| Events.EntryLessAsWritten | tutorial_5.py:92 | the original's tuple comparison fails exactly when the times are equal and the jobs differ; where it says "less", the model's order agrees |
| Events.SimultaneousArrivalsUnorderable | tutorial_5.py:91-92 | two customers arriving at the same time: the original's comparison of their heap entries fails, and the model's order still puts one first |
| Events.BeforeRefinesAsWritten | tutorial_5.py:149 | for any two entries, the model's order agrees with every answer the original's comparison gives, and decides where that comparison fails |
| Invariants.StartServiceEffect | tutorial_5.py:119-125 | `start_service` adds one to exactly the counter of the customer's server type, sets the departure to now plus the service time (so service starts now), and adds one departure event at that time; nothing else changes |
| Invariants.ArrivalsSeedEachJob | tutorial_5.py:90-92 | `fill_stack` pushes exactly one arrival per customer, at its arrival time, with consecutive insertion numbers |
| Invariants.SeededInv | tutorial_5.py:77-92 | a new engine over unset customers satisfies the invariant, holds one event per customer, and has 2·|jobs| events of work to do |
| Invariants.InServiceAfterAssign | tutorial_5.py:102-103 | giving an unserved customer a server of type `t` adds it to pool `t` (one more in service) and leaves the other pool alone |
| Invariants.InServiceAfterDepart | tutorial_5.py:133-134 | a departure takes the customer out of its pool (one fewer in service) and out of no other |
| PopProofs.PopPreservesInv | tutorial_5.py:149 | popping an earliest event keeps the invariant, leaves the work to do unchanged, and puts that event in hand |
| PopProofs.PopKeepsCausal | tutorial_5.py:149 | popping an earliest event moves time forward to that event's time: the trace stays in time order and nothing pending lies in the past |
| ArrivalProofs.ArrivalRecordsQueueLength | tutorial_5.py:95-98 | on arrival the customer records the length of its own class's queue as it was before routing; the other queue, the other customers and the customer's inputs do not change |
| ArrivalProofs.ArrivalRouting | tutorial_5.py:100-117 | an arriving customer is served exactly when its own pool or the other pool has an idle server; it gets its own pool's server if one is idle, else the other pool's |
| ArrivalProofs.ArrivalServed | tutorial_5.py:100-125 | a served arrival: its departure is now plus its service time, one departure event is pushed, its pool's counter rises by one from below capacity, and the queues do not change |
| ArrivalProofs.ArrivalQueued | tutorial_5.py:107-117 | an arrival that is not served joins the back of its own class's queue, only when both pools are full, and no counter or event changes |
| ArrivalProofs.ArrivalKeepsCounters | tutorial_5.py:100-125 | after an arrival each busy counter still equals the number of customers in service on its pool |
| ArrivalProofs.ArrivalKeepsCapacity | tutorial_5.py:100-117 | after an arrival both counters are still within their pool's size, a queue is still non-empty only when every server is busy, and with c = 0 no economy server is used |
| ArrivalProofs.ArrivalKeepsCausal | tutorial_5.py:119-125 | with non-negative service times an arrival keeps time moving forward: nothing pending lies in the past, waiting customers have arrived, and service starts no earlier than arrival |
| ArrivalProofs.ArrivalKeepsAssignments | tutorial_5.py:94-117 | an arrival sets a server type, departure time and queue length only for the arriving customer, who had none: every customer already in service keeps its server type and departure time, and every customer who already arrived keeps its queue length |
| ArrivalProofs.ArrivalPreservesInv | tutorial_5.py:94-117 | handling the arrival in hand keeps the invariant and does exactly one event's worth of work |
| DepartureProofs.DepartureHandOver | tutorial_5.py:127-144 | with someone waiting, a departure frees the server and the head of the freed server's own class's queue (else the other queue's head) leaves its queue and starts now on that server type; the counters end unchanged |
| DepartureProofs.DepartureIdle | tutorial_5.py:132-144 | with nobody waiting, a departure only lowers the freed server's counter by one |
| DepartureProofs.HandOverCounters | tutorial_5.py:132-144 | after a hand-over the counters still count the customers in service on each pool |
| DepartureProofs.HandOverQueues | tutorial_5.py:128-144 | after a hand-over both queues still hold distinct waiting customers of their class |
| DepartureProofs.HandOverCapacity | tutorial_5.py:132-144 | after a hand-over both counters are still within their pool's size and a queue is still non-empty only when every server is busy |
| DepartureProofs.HandOverCausal | tutorial_5.py:127-130 | with non-negative service times a hand-over keeps time moving forward: the new departure is not in the past, and the customer taking over starts no earlier than it arrived |
| DepartureProofs.IdleCounters | tutorial_5.py:132-144 | with nobody waiting, a departure lowers the freed pool's counter by one, the counters still count the customers in service and stay within capacity, and the work left drops by one |
| DepartureProofs.HandOverKeepsAssignments | tutorial_5.py:127-130 | a hand-over sets a server type and departure time only for the customer taken from a queue, who had none: every customer already in service keeps both, and no queue length changes |
| DepartureProofs.DepartureKeepsAssignments | tutorial_5.py:132-144 | handling a departure never reassigns a server or moves a departure time already set, and changes no queue length |
| DepartureProofs.DeparturePreservesInv | tutorial_5.py:132-144 | handling the departure in hand keeps the invariant and does exactly one event's worth of work |
| RunProofs.PopIsDetermined | tutorial_5.py:149 | under the invariant, which event a pop takes is determined by the queue's contents |
| RunProofs.StepPreservesInv | tutorial_5.py:148-153 | one turn of the loop keeps the invariant, appends the popped event to the trace, lowers the work left by one, and changes no customer's inputs |
| RunProofs.StepKeepsAssignments | tutorial_5.py:148-153 | one turn of the loop sets each customer's server type and departure time at most once and its queue length at most once: what was already set stays as it was |
| RunProofs.StepHandlesOnce | tutorial_5.py:149-153 | an arrival is handled only for a customer who has not arrived and marks it arrived; a departure is handled only for a customer who has not departed and marks it departed |
| RunProofs.WorkLeftBounds | tutorial_5.py:148 | the work left is never negative, and it is positive while events remain, so the loop terminates |
| RunProofs.Finished | tutorial_5.py:148 | once the queue is empty, every customer has arrived, been served and departed, both wait queues are empty and both counters are 0; with c = 0 the business server served everyone |
| RunProofs.TimeOrderAndWaits | tutorial_5.py:146-153 | with non-negative service times, all handled events are in time order, and no served customer's wait is negative |
| RunProofs.RunOutcome | tutorial_5.py:146-153 | what a whole run reaches: all customers served and departed, the queues and counters back to empty, one handled event per unit of work, time order, and non-negative waits |
| Engine.GGcWithBusiness.constructor | tutorial_5.py:77-88 | the new engine is the seeded state; over unset customers it satisfies the invariant and has 2·|jobs| events of work |
| Engine.GGcWithBusiness.Push | tutorial_5.py:125 | the fields change exactly as `Model.Push` says: the event joins the queue with the next insertion number, which then advances by one |
| Engine.GGcWithBusiness.SetServer | tutorial_5.py:129 | the fields change exactly as `Model.Assign` says: only that customer's server type is set |
| Engine.GGcWithBusiness.FillStack | tutorial_5.py:90-92 | the loop pushes one arrival event per customer, in index order |
| Engine.GGcWithBusiness.StartService | tutorial_5.py:119-125 | the fields change exactly as `Model.StartService` says |
| Engine.GGcWithBusiness.HandleArrival | tutorial_5.py:94-117 | the fields change exactly as `Model.HandleArrival` says |
| Engine.GGcWithBusiness.PopFromQueueSetServerAndStart | tutorial_5.py:127-130 | the fields change exactly as `Model.PopFromQueueSetServerAndStart` says |
| Engine.GGcWithBusiness.HandleDeparture | tutorial_5.py:132-144 | the fields change exactly as `Model.HandleDeparture` says |
| Engine.GGcWithBusiness.PopEvent | tutorial_5.py:149 | removes an earliest event and returns it |
| Engine.GGcWithBusiness.Dispatch | tutorial_5.py:150-153 | the fields change exactly as `Model.Dispatch` says: an arrival goes to the arrival handler, any other event to the departure handler |
| Engine.GGcWithBusiness.Run | tutorial_5.py:146-153 | the loop ends with an empty event queue, empty wait queues and idle servers; every customer has arrived, been served and departed with its inputs unchanged; a server type, departure time or queue length already set when the loop began is unchanged; one event was handled per unit of work; with non-negative service times the events were handled in time order and no wait is negative; with c = 0 only the business server served |
| Engine.Simulate | tutorial_5.py:196-197 | a new engine over new customers, run to the end, handles exactly 2·|jobs| events, and every customer is served and departs |
| Statistics.Selected | tutorial_5.py:160-163 | the customers a statistic is taken over: exactly those of the requested class, each as often as in the input, or all of them |
| Statistics.MeanWaitingTime | tutorial_5.py:159-164 | an error exactly when no customer is selected |
| Statistics.MeanWithin | tutorial_5.py:159-164 | if every selected customer waited between `lo` and `hi`, so did the mean; in particular the mean is not negative when no wait is |
| Statistics.MeanAtMostMax | tutorial_5.py:159-172 | the mean and the maximum are defined for the same selections, and the mean is at most the maximum |
| Statistics.MaxWaitingTime | tutorial_5.py:166-172 | an error exactly when no customer is selected; otherwise at least every selected customer's wait, and equal to one of them |
| Statistics.ClassesPartition | tutorial_5.py:160-163 | the business and economy selections together hold every customer once, and their total waits add up to the overall total |

## Left out

- `generate_jobs` and `generate_jobs_bad_implementation`: they draw random numbers
  through scipy. The model takes the customers as input.
- `np.random.seed`, `sakasegawa`, `print_served_job`, `Job.__repr__` and the test
  drivers: random state, a floating-point formula, printing, and orchestration.
- The c = 0, economy-only test scenario: the model proves that the business
  server serves everyone when c = 0. It does not prove that they are served in
  FIFO order.
- Floating-point times: times and durations are integers, and the mean is a `real`.
- A negative `c` is not modelled: `c` is a `nat`.
- The order of seeding: `fill_stack` pushes in order of arrival time. The model
  pushes in index order. Only the insertion numbers depend on this order, and
  they decide only between equal times.
- The binary heap: the model's queue is a sequence scanned for its earliest
  event. Whenever no two pending events share a time, the heap and the model
  pop the same event. When two pending events share a time, the heap compares
  their `Job` objects instead; the row under "## Findings" covers that case.
- Job objects shared by reference are modelled as values in one sequence. A
  caller that holds the same `Job` objects elsewhere, or runs two engines over
  them, is not modelled.
- Engine.GGcWithBusiness.Run requires the invariant, which holds for an engine
  built over customers none of whose fields is set. Running over customers left
  set by an earlier run is not modelled.
- Causality (time order, non-negative waits) is proved only when no service time
  is negative. The source does not check this.
- Statistics.MeanWaitingTime: the division is exact (`real`), where the source
  divides floats. The source raises `ZeroDivisionError` on an empty selection,
  and `max` raises `ValueError`; both are modelled as `Err(NoCustomers)`.
- The statistics are taken over all customers, as the code does. They are not
  restricted to customers who have departed.

## Findings

| source | as written | input that shows it | evidently intended | confidence | as-written member | corrected member |
|---|---|---|---|---|---|---|
| tutorial_5.py:92 | heap entries are `(time, job, kind)` tuples (also at lines 125 and 149), so at equal times Python compares two `Job` objects, which define no order | two customers with the same arrival time: pushing the second arrival compares the two `Job` objects and raises `TypeError` | a total order on events: time, then arrivals before departures, then insertion order | high (not executed) | Events.EntryLessAsWritten, Events.SimultaneousArrivalsUnorderable | Events.Before, Events.BeforeRefinesAsWritten |
