/** The event queue: pending arrival and departure events, and the order in which they are popped. */
module Events {

  /** ARRIVAL = 0 and DEPARTURE = 1 in the original; at equal times arrivals are popped first. */
  datatype EventKind = Arrival | Departure

  /** A pending event for job number `job`. `seqNo` is the insertion number the queue gives
      each event when it is pushed; it breaks the remaining ties. */
  datatype Event = Event(time: int, kind: EventKind, job: nat, seqNo: nat)

  function Rank(k: EventKind): nat {
    match k
    case Arrival => 0
    case Departure => 1
  }

  /** `a` is popped no later than `b`: lexicographic on (time, kind, insertion number). */
  predicate Le(a: Event, b: Event) {
    a.time < b.time ||
    (a.time == b.time &&
      (Rank(a.kind) < Rank(b.kind) || (a.kind == b.kind && a.seqNo <= b.seqNo)))
  }

  /** `a` is popped strictly before `b`. */
  predicate Before(a: Event, b: Event) {
    a.time < b.time ||
    (a.time == b.time &&
      (Rank(a.kind) < Rank(b.kind) || (a.kind == b.kind && a.seqNo < b.seqNo)))
  }

  /** `Le` is a total preorder, and it only ties events that agree on time, kind and
      insertion number. */
  lemma LeIsTotalOrder(a: Event, b: Event, c: Event)
    ensures Le(a, a)
    ensures Le(a, b) || Le(b, a)
    ensures Le(a, b) && Le(b, c) ==> Le(a, c)
    ensures Le(a, b) && Le(b, a) ==> a.time == b.time && a.kind == b.kind && a.seqNo == b.seqNo
    ensures Before(a, b) <==> Le(a, b) && !Le(b, a)
  {
  }

  /** Events with distinct insertion numbers are always strictly ordered one way or the other:
      the order never has to compare anything else, and never fails to decide. */
  lemma BeforeDecides(a: Event, b: Event)
    requires a.seqNo != b.seqNo
    ensures Before(a, b) != Before(b, a)
  {
  }

  /** All insertion numbers in `s` are different. */
  predicate DistinctSeqNos(s: seq<Event>) {
    forall i, j :: 0 <= i < |s| && 0 <= j < |s| && i != j ==> s[i].seqNo != s[j].seqNo
  }

  /** `s[k]` is an earliest event of `s`. */
  predicate IsMinIndex(s: seq<Event>, k: nat) {
    k < |s| && forall i :: 0 <= i < |s| ==> Le(s[k], s[i])
  }

  /** The index of the event a pop removes: a linear scan for the least event. */
  method FindMin(s: seq<Event>) returns (k: nat)
    requires |s| > 0
    ensures k < |s|
    ensures forall i :: 0 <= i < |s| ==> Le(s[k], s[i])
  {
    k := 0;
    var i := 1;
    while i < |s|
      invariant 1 <= i <= |s|
      invariant k < i
      invariant forall m :: 0 <= m < i ==> Le(s[k], s[m])
    {
      if !Le(s[k], s[i]) {
        k := i;
      }
      i := i + 1;
    }
  }

  /** With distinct insertion numbers there is only one earliest event, so which event a pop
      returns is determined by the queue's contents. */
  lemma {:induction false} MinIsUnique(s: seq<Event>, k1: nat, k2: nat)
    requires DistinctSeqNos(s)
    requires IsMinIndex(s, k1) && IsMinIndex(s, k2)
    ensures k1 == k2
  {
    LeIsTotalOrder(s[k1], s[k2], s[k1]);
  }

  /** `s` without its element at `k`. */
  function RemoveAt<T>(s: seq<T>, k: nat): (r: seq<T>)
    requires k < |s|
    ensures |r| == |s| - 1
    ensures forall i :: 0 <= i < k ==> r[i] == s[i]
    ensures forall i :: k <= i < |r| ==> r[i] == s[i + 1]
    ensures multiset(r) + multiset{s[k]} == multiset(s)
  {
    assert s == s[..k] + [s[k]] + s[k + 1..];
    s[..k] + s[k + 1..]
  }

  // The heap entries of the original are tuples (time, job, kind), compared by Python's
  // tuple order. At equal times that order compares the two Job objects themselves: the same
  // object compares equal and the kinds decide, two different objects have no order and the
  // comparison raises a TypeError.

  datatype Comparison = Decided(less: bool) | Unorderable

  /** The original's `<` on two heap entries, with jobs compared by identity (their index). */
  function EntryLessAsWritten(a: Event, b: Event): (r: Comparison)
    ensures r.Unorderable? <==> a.time == b.time && a.job != b.job
    ensures r == Decided(true) ==> Before(a, b)
  {
    if a.time != b.time then Decided(a.time < b.time)
    else if a.job != b.job then Unorderable
    else Decided(Rank(a.kind) < Rank(b.kind))
  }

  /** Two customers arriving at the same instant: the second arrival the original pushes onto
      its heap is compared with the first, and that comparison fails. */
  lemma SimultaneousArrivalsUnorderable()
    ensures EntryLessAsWritten(Event(0, Arrival, 1, 1), Event(0, Arrival, 0, 0)) == Unorderable
    ensures Before(Event(0, Arrival, 0, 0), Event(0, Arrival, 1, 1))
  {
  }

  /** Wherever the original's comparison gives an answer, the model's order agrees with it
      on which entry is popped first; where it fails, the model's order still decides. */
  lemma {:induction false} BeforeRefinesAsWritten(a: Event, b: Event)
    requires a.seqNo != b.seqNo
    ensures EntryLessAsWritten(a, b) == Decided(true) ==> Before(a, b)
    ensures EntryLessAsWritten(b, a) == Decided(true) ==> Before(b, a)
    ensures EntryLessAsWritten(a, b).Unorderable? ==> Before(a, b) || Before(b, a)
  {
    BeforeDecides(a, b);
  }
}
