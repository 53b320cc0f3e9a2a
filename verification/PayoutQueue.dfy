/**
 One admin's payout queue: a bounded channel, the single worker that drains it, and the clock.
 Every run of the machine is a list of events, so a statement about `Exec` over all legal lists
 ranges over every interleaving of producers, worker and time.

 `accepted`, `acceptedAt`, `refused` and `runs` are histories: the program keeps none of them.
 */
module PayoutQueue {
  import opened Basics

  datatype Transfer = Transfer(adminDid: string, userDid: string, activityIds: seq<string>)

  datatype Job = Job(requestId: RequestId, input: Transfer)

  datatype Outcome =
    | Paid(points: int, transactionId: string, contractHash: string)
    | Broken(reason: string)
    | Garbled                        // an error whose text is not UTF-8

  /** How far processOne has come with the job in hand. */
  datatype Stage = Starting | Marked | Summed(points: int) | Settled(outcome: Outcome) | Recorded

  datatype Phase =
    | Idle
    | Held(job: Job)                                  // received, spacing not checked yet
    | Sleeping(job: Job, until: int)
    | Ready(job: Job)                                 // spacing satisfied, run not called yet
    | Running(job: Job, start: int, stage: Stage)
    | Returned(job: Job, start: int, end: int)        // run returned, lastDone not stamped yet

  datatype Run = Run(job: Job, start: int, end: int, stamp: int)

  /** lastDone == 0 is Go's zero time: no job has finished yet. */
  datatype Queue = Queue(
    channel: seq<Job>, phase: Phase, lastDone: int,
    accepted: seq<Job>, acceptedAt: seq<int>, refused: seq<Job>, runs: seq<Run>)

  datatype View = View(now: int, queue: Queue)

  datatype Settings = Settings(capacity: int, interval: int) {
    predicate Valid() { capacity > 0 && 0 <= interval <= MAX_DURATION }
  }

  datatype Event =
    | Tick(to: int)
    | Accept(job: Job)
    | Refuse(job: Job)
    | Receive
    | CheckSpacing
    | Wake
    | Start
    | Progress(stage: Stage)
    | Return
    | Stamp

  const EMPTY: Queue := Queue([], Idle, 0, [], [], [], [])

  /** What waitForSpacing still has to sleep: interval - now.Sub(lastDone), in 64-bit arithmetic. */
  function Remaining(interval: int, now: int, lastDone: int): int {
    Wrap64(interval - TimeSub(now, lastDone))
  }

  function AfterSpacing(interval: int, now: int, lastDone: int, job: Job): Phase {
    if interval <= 0 || lastDone == 0 then Ready(job)
    else if Remaining(interval, now, lastDone) > 0 then Sleeping(job, now + Remaining(interval, now, lastDone))
    else Ready(job)
  }

  predicate Enabled(c: Settings, v: View, e: Event) {
    match e
    case Tick(to) => v.now <= to
    case Accept(_) => |v.queue.channel| < c.capacity
    case Refuse(_) => |v.queue.channel| >= c.capacity
    case Receive => v.queue.phase.Idle? && v.queue.channel != []
    case CheckSpacing => v.queue.phase.Held?
    case Wake => v.queue.phase.Sleeping? && v.queue.phase.until <= v.now
    case Start => v.queue.phase.Ready?
    case Progress(_) => v.queue.phase.Running?
    case Return => v.queue.phase.Running?
    case Stamp => v.queue.phase.Returned?
  }

  function Apply(c: Settings, v: View, e: Event): View
    requires Enabled(c, v, e)
  {
    var q := v.queue;
    match e
    case Tick(to) => v.(now := to)
    case Accept(job) =>
      v.(queue := q.(channel := q.channel + [job], accepted := q.accepted + [job],
                     acceptedAt := q.acceptedAt + [v.now]))
    case Refuse(job) => v.(queue := q.(refused := q.refused + [job]))
    case Receive => v.(queue := q.(channel := q.channel[1..], phase := Held(q.channel[0])))
    case CheckSpacing => v.(queue := q.(phase := AfterSpacing(c.interval, v.now, q.lastDone, q.phase.job)))
    case Wake => v.(queue := q.(phase := Ready(q.phase.job)))
    case Start => v.(queue := q.(phase := Running(q.phase.job, v.now, Starting)))
    case Progress(stage) => v.(queue := q.(phase := q.phase.(stage := stage)))
    case Return => v.(queue := q.(phase := Returned(q.phase.job, q.phase.start, v.now)))
    case Stamp =>
      v.(queue := q.(phase := Idle, lastDone := v.now,
                     runs := q.runs + [Run(q.phase.job, q.phase.start, q.phase.end, v.now)]))
  }

  predicate Legal(c: Settings, v: View, es: seq<Event>)
    decreases |es|
  {
    es == [] || (Enabled(c, v, es[0]) && Legal(c, Apply(c, v, es[0]), es[1..]))
  }

  function Exec(c: Settings, v: View, es: seq<Event>): View
    requires Legal(c, v, es)
    decreases |es|
  {
    if es == [] then v else Exec(c, Apply(c, v, es[0]), es[1..])
  }

  /* ------------------------------ derived views ------------------------------ */

  function Hand(p: Phase): seq<Job> {
    if p.Idle? then [] else [p.job]
  }

  predicate IsStarted(p: Phase) {
    p.Running? || p.Returned?
  }

  function RunJobs(runs: seq<Run>): (r: seq<Job>) {
    seq(|runs|, i requires 0 <= i < |runs| => runs[i].job)
  }

  function StartedJobs(q: Queue): seq<Job> {
    RunJobs(q.runs) + (if IsStarted(q.phase) then [q.phase.job] else [])
  }

  function StartTimes(q: Queue): (r: seq<int>) {
    seq(|q.runs|, i requires 0 <= i < |q.runs| => q.runs[i].start)
      + (if IsStarted(q.phase) then [q.phase.start] else [])
  }

  /* -------------------------------- invariant -------------------------------- */

  ghost predicate Conserved(q: Queue) {
    && q.accepted == RunJobs(q.runs) + Hand(q.phase) + q.channel
    && |q.acceptedAt| == |q.accepted|
  }

  ghost predicate LogSpaced(c: Settings, v: View) {
    var q := v.queue;
    && (forall k :: 0 <= k < |q.runs| ==> 0 < q.runs[k].start <= q.runs[k].end <= q.runs[k].stamp <= v.now)
    && (forall k :: 0 < k < |q.runs| ==> q.runs[k - 1].stamp + c.interval <= q.runs[k].start)
    && q.lastDone == if q.runs == [] then 0 else q.runs[|q.runs| - 1].stamp
  }

  /** Nothing is due before lastDone + interval. */
  ghost predicate PhaseSpaced(c: Settings, v: View) {
    var q := v.queue;
    var due := if q.lastDone == 0 then 0 else q.lastDone + c.interval;
    match q.phase
    case Sleeping(_, until) => due == until
    case Ready(_) => due <= v.now
    case Running(_, start, _) => due <= start && 0 < start <= v.now
    case Returned(_, start, end) => due <= start && 0 < start <= end <= v.now
    case _ => true
  }

  ghost predicate Inv(c: Settings, v: View) {
    && v.now > 0
    && |v.queue.channel| <= c.capacity
    && Conserved(v.queue)
    && LogSpaced(c, v)
    && PhaseSpaced(c, v)
  }

  /** The 64-bit subtraction neither saturates into a wrong answer nor wraps. */
  lemma RemainingExact(interval: int, now: int, lastDone: int)
    requires 0 <= interval <= MAX_DURATION && lastDone <= now
    ensures Remaining(interval, now, lastDone) > 0 <==> now < lastDone + interval
    ensures Remaining(interval, now, lastDone) > 0 ==> now + Remaining(interval, now, lastDone) == lastDone + interval
  {
  }

  lemma ConservedStep(c: Settings, v: View, e: Event)
    requires Conserved(v.queue) && Enabled(c, v, e)
    ensures Conserved(Apply(c, v, e).queue)
  {
    var q, w := v.queue, Apply(c, v, e).queue;
    assert RunJobs(w.runs) == RunJobs(q.runs) + (if e.Stamp? then [q.phase.job] else []);
    if e.Receive? {
      assert q.channel == [q.channel[0]] + q.channel[1..];
    }
  }

  lemma SpacedStep(c: Settings, v: View, e: Event)
    requires c.Valid() && v.now > 0 && LogSpaced(c, v) && PhaseSpaced(c, v) && Enabled(c, v, e)
    ensures LogSpaced(c, Apply(c, v, e)) && PhaseSpaced(c, Apply(c, v, e))
  {
    if e.CheckSpacing? {
      RemainingExact(c.interval, v.now, v.queue.lastDone);
    }
  }

  lemma InvStep(c: Settings, v: View, e: Event)
    requires c.Valid() && Inv(c, v) && Enabled(c, v, e)
    ensures Inv(c, Apply(c, v, e))
  {
    ConservedStep(c, v, e);
    SpacedStep(c, v, e);
  }

  lemma {:induction false} InvExec(c: Settings, v: View, es: seq<Event>)
    requires c.Valid() && Inv(c, v) && Legal(c, v, es)
    ensures Inv(c, Exec(c, v, es))
    decreases |es|
  {
    if es != [] {
      InvStep(c, v, es[0]);
      InvExec(c, Apply(c, v, es[0]), es[1..]);
    }
  }

  lemma FreshInv(c: Settings, now: int)
    requires c.Valid() && now > 0
    ensures Inv(c, View(now, EMPTY))
  {
  }

  /** Runs are built event by event, each enabled where it occurs. */
  lemma RunIs(c: Settings, v: View, e: Event, es: seq<Event>)
    ensures Legal(c, v, []) && Exec(c, v, []) == v
    ensures Legal(c, v, [e] + es) <==> Enabled(c, v, e) && Legal(c, Apply(c, v, e), es)
    ensures Legal(c, v, [e] + es) ==> Exec(c, v, [e] + es) == Exec(c, Apply(c, v, e), es)
  {
    assert ([e] + es)[1..] == es;
  }

  /** A send is taken exactly while the channel has room, and then goes last, at the time it is made. */
  lemma SendIs(c: Settings, v: View, job: Job)
    ensures Enabled(c, v, Accept(job)) <==> |v.queue.channel| < c.capacity
    ensures Enabled(c, v, Refuse(job)) <==> |v.queue.channel| >= c.capacity
    ensures |v.queue.channel| < c.capacity ==>
              var q := Apply(c, v, Accept(job)).queue;
              && q.channel == v.queue.channel + [job] && q.accepted == v.queue.accepted + [job]
              && q.acceptedAt == v.queue.acceptedAt + [v.now]
    ensures |v.queue.channel| >= c.capacity ==>
              Apply(c, v, Refuse(job)) == v.(queue := v.queue.(refused := v.queue.refused + [job]))
  {
  }

  lemma {:induction false} ExecJoin(c: Settings, v: View, es: seq<Event>, fs: seq<Event>)
    requires Legal(c, v, es + fs)
    ensures Legal(c, v, es) && Legal(c, Exec(c, v, es), fs)
    ensures Exec(c, v, es + fs) == Exec(c, Exec(c, v, es), fs)
    decreases |es|
  {
    if es == [] {
      assert es + fs == fs;
    } else {
      assert (es + fs)[0] == es[0] && (es + fs)[1..] == es[1..] + fs;
      ExecJoin(c, Apply(c, v, es[0]), es[1..], fs);
    }
  }

  /** What was accepted stays accepted, and the time of its acceptance stays known. */
  lemma {:induction false} LogsGrow(c: Settings, v: View, es: seq<Event>)
    requires Legal(c, v, es)
    ensures v.queue.accepted <= Exec(c, v, es).queue.accepted && v.queue.acceptedAt <= Exec(c, v, es).queue.acceptedAt
    decreases |es|
  {
    if es != [] {
      LogsGrow(c, Apply(c, v, es[0]), es[1..]);
    }
  }

  /* -------------------------------- theorems --------------------------------- */

  /**
   Conservation and order: what was accepted is, in order, what finished, then the job in hand, then
   the channel. Jobs start in the order of acceptance, and at most capacity + 1 accepted jobs wait.
   */
  lemma FifoAndCapacity(c: Settings, now: int, es: seq<Event>)
    requires c.Valid() && now > 0 && Legal(c, View(now, EMPTY), es)
    ensures var q := Exec(c, View(now, EMPTY), es).queue;
            && q.accepted == RunJobs(q.runs) + Hand(q.phase) + q.channel
            && StartedJobs(q) <= q.accepted
            && |q.accepted| - |StartedJobs(q)| <= c.capacity + 1
  {
    FreshInv(c, now);
    InvExec(c, View(now, EMPTY), es);
  }

  /** Every start after the first comes at least the interval after the previous job finished. */
  lemma Spacing(c: Settings, now: int, es: seq<Event>, k: int)
    requires c.Valid() && now > 0 && Legal(c, View(now, EMPTY), es)
    requires 0 < k < |StartTimes(Exec(c, View(now, EMPTY), es).queue)|
    ensures var q := Exec(c, View(now, EMPTY), es).queue;
            && k - 1 < |q.runs|
            && q.runs[k - 1].start == StartTimes(q)[k - 1]
            && q.runs[k - 1].start <= q.runs[k - 1].end
            && q.runs[k - 1].end + c.interval <= StartTimes(q)[k]
  {
    FreshInv(c, now);
    InvExec(c, View(now, EMPTY), es);
  }

  function CountWithin(times: seq<int>, from: int, to: int): nat {
    if times == [] then 0 else
    CountWithin(times[..|times| - 1], from, to) + (if from <= times[|times| - 1] <= to then 1 else 0)
  }

  lemma {:induction false} CountSpaced(times: seq<int>, interval: nat, from: int, to: int)
    requires forall k :: 0 < k < |times| ==> times[k - 1] + interval <= times[k]
    requires from <= to
    ensures CountWithin(times, from, to) * interval <= to - from + interval
    ensures times != [] && times[|times| - 1] < from ==> CountWithin(times, from, to) == 0
    ensures times != [] && from <= times[|times| - 1] <= to ==>
              CountWithin(times, from, to) * interval <= times[|times| - 1] - from + interval
    decreases |times|
  {
    if times != [] {
      var shorter := times[..|times| - 1];
      CountSpaced(shorter, interval, from, to);
      var n := CountWithin(shorter, from, to);
      assert (n + 1) * interval == n * interval + interval;
      assert shorter != [] ==> shorter[|shorter| - 1] + interval <= times[|times| - 1];
    }
  }

  /** What is counted: the positions whose time lies in the window. */
  lemma {:induction false} CountIsSize(times: seq<int>, from: int, to: int)
    ensures CountWithin(times, from, to) == |set k | 0 <= k < |times| && from <= times[k] <= to|
    decreases |times|
  {
    var all := set k | 0 <= k < |times| && from <= times[k] <= to;
    if times == [] {
      assert all == {};
    } else {
      var n, shorter := |times| - 1, times[..|times| - 1];
      CountIsSize(shorter, from, to);
      var before := set k | 0 <= k < |shorter| && from <= shorter[k] <= to;
      assert all == before + (if from <= times[n] <= to then {n} else {});
      assert n !in before;
    }
  }

  /** A queue's start times are those of its runs, in order, then that of the job under way. */
  lemma StartTimesAre(q: Queue)
    ensures |StartTimes(q)| == |q.runs| + (if q.phase.Running? || q.phase.Returned? then 1 else 0)
    ensures forall k :: 0 <= k < |q.runs| ==> StartTimes(q)[k] == q.runs[k].start
    ensures q.phase.Running? || q.phase.Returned? ==> StartTimes(q)[|q.runs|] == q.phase.start
  {
  }

  lemma StartsSpaced(c: Settings, v: View)
    requires c.Valid() && LogSpaced(c, v) && PhaseSpaced(c, v)
    ensures forall k :: 0 < k < |StartTimes(v.queue)| ==>
              StartTimes(v.queue)[k - 1] + c.interval <= StartTimes(v.queue)[k]
  {
  }

  lemma FewSpaced(times: seq<int>, interval: nat, from: int, t: nat)
    requires interval > 0 && forall k :: 0 < k < |times| ==> times[k - 1] + interval <= times[k]
    ensures CountWithin(times, from, from + t) <= t / interval + 1
  {
    CountSpaced(times, interval, from, from + t);
    DivideBound(CountWithin(times, from, from + t), interval, t);
  }

  lemma DivideBound(n: int, d: int, t: int)
    requires d > 0 && n * d <= t + d
    ensures n <= t / d + 1
  {
    MultiplyMonotone(t / d + 2, n, d);
  }

  lemma MultiplyMonotone(m: int, n: int, d: int)
    requires d >= 0
    ensures m <= n ==> m * d <= n * d
  {
  }

  lemma SpacedInRun(c: Settings, now: int, es: seq<Event>, times: seq<int>)
    requires c.Valid() && now > 0 && Legal(c, View(now, EMPTY), es)
    requires times == StartTimes(Exec(c, View(now, EMPTY), es).queue)
    ensures forall k :: 0 < k < |times| ==> times[k - 1] + c.interval <= times[k]
  {
    FreshInv(c, now);
    InvExec(c, View(now, EMPTY), es);
    StartsSpaced(c, Exec(c, View(now, EMPTY), es));
  }

  /** Any window of length t holds at most t / interval + 1 starts. */
  lemma WindowBound(c: Settings, now: int, es: seq<Event>, times: seq<int>, from: int, t: nat)
    requires c.Valid() && c.interval > 0 && now > 0 && Legal(c, View(now, EMPTY), es)
    requires times == StartTimes(Exec(c, View(now, EMPTY), es).queue)
    ensures CountWithin(times, from, from + t) <= t / c.interval + 1
    ensures |set k | 0 <= k < |times| && from <= times[k] <= from + t| <= t / c.interval + 1
  {
    SpacedInRun(c, now, es, times);
    FewSpaced(times, c.interval, from, t);
    CountIsSize(times, from, from + t);
  }
}
