/** The waiting-time statistics taken over the customers after a run. */
module Statistics {
  import opened Jobs

  /** Taking a statistic over no customers: the mean divides by zero, the maximum has
      nothing to take the maximum of. */
  datatype StatsError = NoCustomers

  datatype Result<T> = Ok(value: T) | Err(error: StatsError)

  /** The customers a statistic is taken over: all of them, or those of one class. */
  function Selected(jobs: seq<Job>, customerType: Option<Class>): (r: seq<Job>)
    ensures |r| <= |jobs|
    ensures forall x :: x in r <==>
      x in jobs && (customerType.None? || x.customerType == customerType.value)
    ensures customerType.None? ==> r == jobs
    ensures forall y :: multiset(r)[y] ==
                        if customerType.None? || y.customerType == customerType.value
                        then multiset(jobs)[y] else 0
  {
    if jobs == [] then []
    else
      assert jobs == [jobs[0]] + jobs[1..];
      var rest := Selected(jobs[1..], customerType);
      if customerType.None? || jobs[0].customerType == customerType.value then [jobs[0]] + rest
      else rest
  }

  /** The sum of the customers' waiting times. */
  function TotalWait(js: seq<Job>): int {
    if js == [] then 0 else js[0].WaitingTime() + TotalWait(js[1..])
  }

  /** `mean_waiting_time`: the average waiting time of the selected customers, an error when
      none is selected. */
  function MeanWaitingTime(jobs: seq<Job>, customerType: Option<Class>): (r: Result<real>)
    ensures r.Err? <==> Selected(jobs, customerType) == []
  {
    var js := Selected(jobs, customerType);
    if js == [] then Err(NoCustomers) else Ok(TotalWait(js) as real / |js| as real)
  }

  /** A quotient times its divisor gives back the dividend. */
  lemma QuotientTimesDivisor(q: real, t: real, n: real)
    requires n != 0.0 && q == t / n
    ensures q * n == t
  {
  }

  /** A total of at most `m` per customer averages to at most `m`. */
  lemma AverageAtMost(t: int, n: int, m: int)
    requires n > 0 && t <= n * m
    ensures t as real / n as real <= m as real
  {
    assert (n * m) as real == n as real * m as real;
    QuotientTimesDivisor(t as real / n as real, t as real, n as real);
  }

  /** A total of at least `m` per customer averages to at least `m`. */
  lemma AverageAtLeast(t: int, n: int, m: int)
    requires n > 0 && t >= n * m
    ensures t as real / n as real >= m as real
  {
    assert (n * m) as real == n as real * m as real;
    QuotientTimesDivisor(t as real / n as real, t as real, n as real);
  }

  /** The largest waiting time among `js`. */
  function MaxWait(js: seq<Job>): (m: int)
    requires js != []
    ensures forall x | x in js :: x.WaitingTime() <= m
    ensures exists x | x in js :: x.WaitingTime() == m
  {
    if |js| == 1 then js[0].WaitingTime()
    else
      var rest := MaxWait(js[1..]);
      assert forall x | x in js :: x == js[0] || x in js[1..];
      if js[0].WaitingTime() >= rest then js[0].WaitingTime() else rest
  }

  /** `max_waiting_time`: the largest waiting time among the selected customers, which one of
      them attains; an error when none is selected. */
  function MaxWaitingTime(jobs: seq<Job>, customerType: Option<Class>): (r: Result<int>)
    ensures r.Err? <==> Selected(jobs, customerType) == []
    ensures r.Ok? ==> forall x | x in Selected(jobs, customerType) :: x.WaitingTime() <= r.value
    ensures r.Ok? ==> exists x | x in Selected(jobs, customerType) :: x.WaitingTime() == r.value
  {
    var js := Selected(jobs, customerType);
    if js == [] then Err(NoCustomers) else Ok(MaxWait(js))
  }

  /** The total of waits each at most `m` is at most `m` per customer. */
  lemma {:induction false} TotalWaitAtMost(js: seq<Job>, m: int)
    requires forall x | x in js :: x.WaitingTime() <= m
    ensures TotalWait(js) <= |js| * m
  {
    if js != [] {
      assert forall x | x in js[1..] :: x in js;
      TotalWaitAtMost(js[1..], m);
    }
  }

  /** The total of waits each at least `m` is at least `m` per customer. */
  lemma {:induction false} TotalWaitAtLeast(js: seq<Job>, m: int)
    requires forall x | x in js :: x.WaitingTime() >= m
    ensures TotalWait(js) >= |js| * m
  {
    if js != [] {
      assert forall x | x in js[1..] :: x in js;
      TotalWaitAtLeast(js[1..], m);
    }
  }

  /** Whenever both statistics are defined they are defined together, and the mean wait is
      at most the largest wait. */
  lemma MeanAtMostMax(jobs: seq<Job>, customerType: Option<Class>)
    ensures MeanWaitingTime(jobs, customerType).Ok? <==> MaxWaitingTime(jobs, customerType).Ok?
    ensures MeanWaitingTime(jobs, customerType).Ok? ==>
      MeanWaitingTime(jobs, customerType).value <= MaxWaitingTime(jobs, customerType).value as real
  {
    var js := Selected(jobs, customerType);
    if js != [] {
      var m := MaxWait(js);
      assert MaxWaitingTime(jobs, customerType) == Ok(m);
      TotalWaitAtMost(js, m);
      AverageAtMost(TotalWait(js), |js|, m);
      assert MeanWaitingTime(jobs, customerType) == Ok(TotalWait(js) as real / |js| as real);
    }
  }

  /** When every selected customer waited between `lo` and `hi`, so did the mean wait; in
      particular the mean wait is not negative when nobody waited a negative time. */
  lemma MeanWithin(jobs: seq<Job>, customerType: Option<Class>, lo: int, hi: int)
    requires forall x | x in Selected(jobs, customerType) :: lo <= x.WaitingTime() <= hi
    ensures MeanWaitingTime(jobs, customerType).Ok? ==>
      lo as real <= MeanWaitingTime(jobs, customerType).value <= hi as real
  {
    var js := Selected(jobs, customerType);
    if js != [] {
      TotalWaitAtLeast(js, lo);
      TotalWaitAtMost(js, hi);
      AverageAtLeast(TotalWait(js), |js|, lo);
      AverageAtMost(TotalWait(js), |js|, hi);
      assert MeanWaitingTime(jobs, customerType) == Ok(TotalWait(js) as real / |js| as real);
    }
  }

  /** Every customer is of exactly one class: the customers of the two classes together are
      all the customers, and their waits add up to the total. */
  lemma {:induction false} ClassesPartition(jobs: seq<Job>)
    ensures |Selected(jobs, Some(Business))| + |Selected(jobs, Some(Economy))| == |jobs|
    ensures TotalWait(Selected(jobs, Some(Business))) + TotalWait(Selected(jobs, Some(Economy)))
            == TotalWait(jobs)
  {
    if jobs != [] {
      ClassesPartition(jobs[1..]);
    }
  }
}
