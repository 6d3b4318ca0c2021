/** Customers of the queueing system and the record of one customer's passage through it. */
module Jobs {

  /** The two customer classes. The same two names identify the two server pools:
      one business server and `c` economy servers. */
  datatype Class = Economy | Business

  datatype Option<T> = None | Some(value: T)

  /** One customer. `arrivalTime`, `serviceTime` and `customerType` are inputs and never change.
      The other three fields stay `None` until the simulation sets them: `queueLength` on arrival,
      `serverType` and `departure` together when service starts. */
  datatype Job = Job(
    arrivalTime: int,
    serviceTime: int,
    customerType: Class,
    serverType: Option<Class>,
    departure: Option<int>,
    queueLength: Option<nat>)
  {
    /** The server type as the engine reads it; an unassigned job reads as economy. */
    function ServerType(): Class {
      match serverType
      case Some(t) => t
      case None => Economy
    }

    /** The departure time as the engine reads it; 0 until it is set. */
    function DepartureTime(): int {
      match departure
      case Some(d) => d
      case None => 0
    }

    /** The job's arrival has been handled. */
    predicate Arrived() {
      queueLength.Some?
    }

    /** A server has been assigned and the departure time fixed. */
    predicate Started() {
      serverType.Some?
    }

    /** Arrived and still in a wait queue. */
    predicate Waiting() {
      Arrived() && !Started()
    }

    /** None of the fields the simulation sets has been set yet. */
    predicate Unset() {
      serverType.None? && departure.None? && queueLength.None?
    }

    function SojournTime(): int {
      DepartureTime() - arrivalTime
    }

    function WaitingTime(): int {
      SojournTime() - serviceTime
    }

    function ServiceStart(): int {
      DepartureTime() - serviceTime
    }

    /** Two records of the same customer: the inputs agree. */
    predicate SameCustomer(other: Job) {
      arrivalTime == other.arrivalTime && serviceTime == other.serviceTime &&
      customerType == other.customerType
    }
  }

  /** A new customer as the workload generator creates it: the three inputs, nothing else set. */
  function NewJob(arrivalTime: int, serviceTime: int, customerType: Class): (j: Job)
    ensures j.Unset() && !j.Arrived() && !j.Started()
    ensures j.arrivalTime == arrivalTime && j.serviceTime == serviceTime
    ensures j.customerType == customerType
    ensures j.ServerType() == Economy && j.DepartureTime() == 0
  {
    Job(arrivalTime, serviceTime, customerType, None, None, None)
  }

  /** How the derived quantities relate: the sojourn splits into the wait and the service,
      the wait is the time from arrival to the start of service, and the departure comes
      one service time after that start. */
  lemma DerivedTimes(j: Job)
    ensures j.SojournTime() == j.WaitingTime() + j.serviceTime
    ensures j.WaitingTime() == j.ServiceStart() - j.arrivalTime
    ensures j.DepartureTime() == j.ServiceStart() + j.serviceTime
    ensures j.WaitingTime() >= 0 <==> j.ServiceStart() >= j.arrivalTime
  {
  }
}
