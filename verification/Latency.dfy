/**
 How long an accepted job waits on a prompt clock: sleeps are exact, the
 worker is scheduled without delay, and job j takes exactly `dur(j)`.
 */
module Latency {
  import opened PayoutQueue

  datatype Timing = Timing(settings: Settings, dur: Job -> nat)

  /** The worker has something to do at this very instant. */
  predicate Urgent(t: Timing, v: View) {
    match v.queue.phase
    case Idle => v.queue.channel != []
    case Held(_) => true
    case Sleeping(_, until) => until <= v.now
    case Ready(_) => true
    case Running(job, start, _) => start + t.dur(job) <= v.now
    case Returned(_, _, _) => true
  }

  /** Time passes only while nothing is urgent, and never past the next wake-up or the end of a job. */
  predicate Prompt(t: Timing, v: View, e: Event) {
    match e
    case Tick(to) =>
      && !Urgent(t, v)
      && (v.queue.phase.Sleeping? ==> to <= v.queue.phase.until)
      && (v.queue.phase.Running? ==> to <= v.queue.phase.start + t.dur(v.queue.phase.job))
    case Return => v.queue.phase.Running? && v.now == v.queue.phase.start + t.dur(v.queue.phase.job)
    case _ => true
  }

  predicate PromptRun(t: Timing, v: View, es: seq<Event>)
    requires Legal(t.settings, v, es)
    decreases |es|
  {
    es == [] || (Prompt(t, v, es[0]) && PromptRun(t, Apply(t.settings, v, es[0]), es[1..]))
  }

  /** The spacing and the phase's own deadlines, as exact equalities. */
  ghost predicate OnTime(t: Timing, v: View) {
    match v.queue.phase
    case Sleeping(_, until) => v.now <= until
    case Running(job, start, _) => start <= v.now <= start + t.dur(job)
    case Returned(job, start, end) => v.now == end == start + t.dur(job)
    case _ => true
  }

  lemma OnTimeStep(t: Timing, v: View, e: Event)
    requires t.settings.Valid() && Inv(t.settings, v) && OnTime(t, v)
    requires Enabled(t.settings, v, e) && Prompt(t, v, e)
    ensures OnTime(t, Apply(t.settings, v, e))
  {
  }

  /* ----------------------------- the waiting bound ---------------------------- */

  /** Time until the job in hand may start. */
  function UntilStart(t: Timing, v: View): int {
    match v.queue.phase
    case Held(_) =>
      if v.queue.lastDone != 0 && v.now < v.queue.lastDone + t.settings.interval
      then v.queue.lastDone + t.settings.interval - v.now else 0
    case Sleeping(_, until) => until - v.now
    case _ => 0
  }

  /** Time until the worker can receive again, when no job takes longer than longest. */
  function UntilFree(t: Timing, longest: nat, v: View): int {
    match v.queue.phase
    case Idle => 0
    case Running(_, start, _) => start + longest - v.now
    case Returned(_, _, _) => 0
    case _ => UntilStart(t, v) + longest
  }

  /** i turns of `each`: i * each, by repeated addition. */
  function Turns(i: nat, each: nat): (r: nat)
  {
    if i == 0 then 0 else Turns(i - 1, each) + each
  }

  lemma {:induction false} TurnsIsProduct(i: nat, each: nat)
    ensures Turns(i, each) == i * each
  {
    if i > 0 {
      TurnsIsProduct(i - 1, each);
    }
  }

  lemma {:induction false} TurnsGrow(i: nat, j: nat, each: nat)
    requires i <= j
    ensures Turns(i, each) <= Turns(j, each)
    decreases j
  {
    if i < j {
      TurnsGrow(i, j - 1, each);
    }
  }

  ghost predicate AtMost(t: Timing, longest: nat) {
    t.settings.Valid() && forall j: Job :: t.dur(j) <= longest
  }

  function Each(t: Timing, longest: nat): (r: nat)
    requires t.settings.Valid()
  {
    longest + t.settings.interval
  }

  function Bound(t: Timing, longest: nat): (r: nat)
    requires t.settings.Valid()
  {
    Turns(t.settings.capacity, Each(t, longest)) + t.settings.interval
  }

  /** Index in `accepted` of the job at the head of the channel. */
  function HeadIndex(q: Queue): int {
    |q.accepted| - |q.channel|
  }

  /** The i-th job of the channel will be started in time if every earlier job takes as long as it may. */
  ghost predicate SlotInTime(t: Timing, longest: nat, v: View, i: nat)
    requires t.settings.Valid() && |v.queue.acceptedAt| == |v.queue.accepted|
             && i < |v.queue.channel| <= |v.queue.accepted|
  {
    v.now + UntilFree(t, longest, v) + Turns(i, Each(t, longest)) + t.settings.interval
      <= v.queue.acceptedAt[HeadIndex(v.queue) + i] + Bound(t, longest)
  }

  ghost predicate ChannelInTime(t: Timing, longest: nat, v: View)
    requires t.settings.Valid() && Conserved(v.queue)
  {
    forall i :: 0 <= i < |v.queue.channel| ==> SlotInTime(t, longest, v, i)
  }

  ghost predicate HandInTime(t: Timing, longest: nat, v: View)
    requires t.settings.Valid() && Conserved(v.queue)
  {
    var q := v.queue;
    !q.phase.Idle? && !IsStarted(q.phase) ==>
      v.now + UntilStart(t, v) <= q.acceptedAt[|q.runs|] + Bound(t, longest)
  }

  ghost predicate StartsInTime(t: Timing, longest: nat, q: Queue)
    requires t.settings.Valid() && Conserved(q)
  {
    forall k :: 0 <= k < |StartTimes(q)| ==> StartTimes(q)[k] <= q.acceptedAt[k] + Bound(t, longest)
  }

  ghost predicate WaitInv(t: Timing, longest: nat, v: View) {
    && t.settings.Valid() && Inv(t.settings, v) && OnTime(t, v)
    && ChannelInTime(t, longest, v) && HandInTime(t, longest, v) && StartsInTime(t, longest, v.queue)
  }

  lemma UntilFreeBound(t: Timing, longest: nat, v: View)
    requires AtMost(t, longest) && Inv(t.settings, v) && OnTime(t, v)
    ensures 0 <= UntilStart(t, v) <= t.settings.interval
    ensures 0 <= UntilFree(t, longest, v) <= longest + t.settings.interval
  {
  }

  /** No step but receiving a job makes the worker free later. */
  lemma FreeSooner(t: Timing, longest: nat, v: View, e: Event)
    requires AtMost(t, longest) && Inv(t.settings, v) && OnTime(t, v)
    requires Enabled(t.settings, v, e) && Prompt(t, v, e) && !e.Receive? && v.queue.channel != []
    ensures var w := Apply(t.settings, v, e); w.now + UntilFree(t, longest, w) <= v.now + UntilFree(t, longest, v)
  {
    if e.CheckSpacing? {
      RemainingExact(t.settings.interval, v.now, v.queue.lastDone);
    }
  }

  lemma SlotStep(t: Timing, longest: nat, v: View, e: Event, i: nat)
    requires AtMost(t, longest) && WaitInv(t, longest, v) && Enabled(t.settings, v, e) && Prompt(t, v, e)
    requires Conserved(Apply(t.settings, v, e).queue) && i < |Apply(t.settings, v, e).queue.channel|
    ensures SlotInTime(t, longest, Apply(t.settings, v, e), i)
  {
    UntilFreeBound(t, longest, v);
    if e.Receive? {
      assert SlotInTime(t, longest, v, i + 1);
    } else if e.Accept? && i == |v.queue.channel| {
      TurnsGrow(i + 1, t.settings.capacity, Each(t, longest));
    } else {
      assert SlotInTime(t, longest, v, i);
      FreeSooner(t, longest, v, e);
    }
  }

  lemma HandStep(t: Timing, longest: nat, v: View, e: Event)
    requires AtMost(t, longest) && WaitInv(t, longest, v) && Enabled(t.settings, v, e) && Prompt(t, v, e)
    requires Conserved(Apply(t.settings, v, e).queue)
    ensures HandInTime(t, longest, Apply(t.settings, v, e))
  {
    if e.CheckSpacing? {
      RemainingExact(t.settings.interval, v.now, v.queue.lastDone);
    } else if e.Receive? {
      assert SlotInTime(t, longest, v, 0);
    }
  }

  lemma StartsStep(t: Timing, longest: nat, v: View, e: Event)
    requires WaitInv(t, longest, v) && Enabled(t.settings, v, e) && Prompt(t, v, e)
    requires Conserved(Apply(t.settings, v, e).queue)
    ensures StartsInTime(t, longest, Apply(t.settings, v, e).queue)
  {
    var q, r := v.queue, Apply(t.settings, v, e).queue;
    assert StartTimes(r) == StartTimes(q) + (if e.Start? then [v.now] else []);
  }

  lemma WaitStep(t: Timing, longest: nat, v: View, e: Event)
    requires AtMost(t, longest) && WaitInv(t, longest, v) && Enabled(t.settings, v, e) && Prompt(t, v, e)
    ensures WaitInv(t, longest, Apply(t.settings, v, e))
  {
    InvStep(t.settings, v, e);
    OnTimeStep(t, v, e);
    forall i | 0 <= i < |Apply(t.settings, v, e).queue.channel|
      ensures SlotInTime(t, longest, Apply(t.settings, v, e), i)
    {
      SlotStep(t, longest, v, e, i);
    }
    HandStep(t, longest, v, e);
    StartsStep(t, longest, v, e);
  }

  lemma {:induction false} WaitExec(t: Timing, longest: nat, v: View, es: seq<Event>)
    requires AtMost(t, longest) && WaitInv(t, longest, v) && Legal(t.settings, v, es) && PromptRun(t, v, es)
    ensures WaitInv(t, longest, Exec(t.settings, v, es))
    decreases |es|
  {
    if es != [] {
      WaitStep(t, longest, v, es[0]);
      WaitExec(t, longest, Apply(t.settings, v, es[0]), es[1..]);
    }
  }

  lemma SlotsNotOverdue(t: Timing, longest: nat, v: View, k: nat)
    requires AtMost(t, longest) && WaitInv(t, longest, v) && |StartTimes(v.queue)| <= k < |v.queue.accepted|
    ensures v.now <= v.queue.acceptedAt[k] + Bound(t, longest)
  {
    UntilFreeBound(t, longest, v);
    if HeadIndex(v.queue) <= k {
      assert SlotInTime(t, longest, v, k - HeadIndex(v.queue));
    }
  }

  /**
   With exact sleeps and jobs of at most `longest`, every job that started did so within
   capacity * (longest + interval) + interval of its acceptance, and no job waits longer than that.
   */
  lemma BoundedWait(t: Timing, longest: nat, now: int, es: seq<Event>, k: nat)
    requires AtMost(t, longest) && now > 0
    requires Legal(t.settings, View(now, EMPTY), es) && PromptRun(t, View(now, EMPTY), es)
    requires k < |Exec(t.settings, View(now, EMPTY), es).queue.accepted|
    ensures var v := Exec(t.settings, View(now, EMPTY), es);
            var wait := t.settings.capacity * (longest + t.settings.interval) + t.settings.interval;
            && k < |v.queue.acceptedAt|
            && if k < |StartTimes(v.queue)| then StartTimes(v.queue)[k] <= v.queue.acceptedAt[k] + wait
               else v.now <= v.queue.acceptedAt[k] + wait
  {
    FreshInv(t.settings, now);
    WaitExec(t, longest, View(now, EMPTY), es);
    TurnsIsProduct(t.settings.capacity, Each(t, longest));
    var v := Exec(t.settings, View(now, EMPTY), es);
    if k >= |StartTimes(v.queue)| {
      SlotsNotOverdue(t, longest, v, k);
    }
  }

  /** A prompt run lets time pass only when nothing is due, and no further than to what is due next. */
  lemma PromptIs(t: Timing, v: View, to: int)
    ensures Prompt(t, v, Tick(to))
            <==> && ((v.queue.phase.Idle? && v.queue.channel == [])
                     || (v.queue.phase.Sleeping? && v.now < v.queue.phase.until)
                     || (v.queue.phase.Running? && v.now < v.queue.phase.start + t.dur(v.queue.phase.job)))
                 && (v.queue.phase.Sleeping? ==> to <= v.queue.phase.until)
                 && (v.queue.phase.Running? ==> to <= v.queue.phase.start + t.dur(v.queue.phase.job))
    ensures Prompt(t, v, Return) <==> v.queue.phase.Running?
                                      && v.now == v.queue.phase.start + t.dur(v.queue.phase.job)
    ensures forall e: Event :: !e.Tick? && !e.Return? ==> Prompt(t, v, e)
  {
  }

  lemma PromptRunIs(t: Timing, v: View, e: Event, es: seq<Event>)
    requires Legal(t.settings, v, [e] + es)
    ensures PromptRun(t, v, [])
    ensures Enabled(t.settings, v, e) && Legal(t.settings, Apply(t.settings, v, e), es)
    ensures PromptRun(t, v, [e] + es) <==> Prompt(t, v, e) && PromptRun(t, Apply(t.settings, v, e), es)
    ensures forall t0 :: BatchRun(t, t0, v, [])
    ensures forall t0 :: BatchRun(t, t0, v, [e] + es)
                         <==> Prompt(t, v, e) && (e.Accept? ==> v.now == t0)
                              && BatchRun(t, t0, Apply(t.settings, v, e), es)
  {
    assert ([e] + es)[1..] == es;
  }

  /** The same from the sender's side: a job sent at some time starts within that wait, or the wait is not yet over. */
  lemma SentJobWaits(t: Timing, longest: nat, now: int, before: seq<Event>, job: Job, after: seq<Event>)
    requires AtMost(t, longest) && now > 0
    requires Legal(t.settings, View(now, EMPTY), before + [Accept(job)] + after)
    requires PromptRun(t, View(now, EMPTY), before + [Accept(job)] + after)
    ensures Legal(t.settings, View(now, EMPTY), before)
    ensures var sent, v := Exec(t.settings, View(now, EMPTY), before),
                           Exec(t.settings, View(now, EMPTY), before + [Accept(job)] + after);
            var k := |sent.queue.accepted|;
            var wait := t.settings.capacity * (longest + t.settings.interval) + t.settings.interval;
            && k < |v.queue.accepted| && v.queue.accepted[k] == job
            && if k < |StartTimes(v.queue)| then StartTimes(v.queue)[k] <= sent.now + wait else v.now <= sent.now + wait
  {
    var c, o, es := t.settings, View(now, EMPTY), before + [Accept(job)] + after;
    ExecJoin(c, o, before + [Accept(job)], after);
    ExecJoin(c, o, before, [Accept(job)]);
    var sent := Exec(c, o, before);
    SentLast(c, sent, job);
    LogsGrow(c, Exec(c, o, before + [Accept(job)]), after);
    FreshInv(c, now);
    InvExec(c, o, before);
    BoundedWait(t, longest, now, es, |sent.queue.accepted|);
  }

  lemma SentLast(c: Settings, v: View, job: Job)
    requires Legal(c, v, [Accept(job)])
    ensures Exec(c, v, [Accept(job)]).queue.accepted == v.queue.accepted + [job]
    ensures Exec(c, v, [Accept(job)]).queue.acceptedAt == v.queue.acceptedAt + [v.now]
  {
    assert [Accept(job)][1..] == [];
    var w := Apply(c, v, Accept(job));
    assert Legal(c, w, []) && Exec(c, w, []) == w;
  }

  /* ------------------------------ never stuck --------------------------------- */

  /** The event a prompt scheduler takes next. */
  function NextEvent(t: Timing, v: View): Event {
    match v.queue.phase
    case Idle => if v.queue.channel != [] then Receive else Tick(v.now + 1)
    case Held(_) => CheckSpacing
    case Sleeping(_, until) => if until <= v.now then Wake else Tick(until)
    case Ready(_) => Start
    case Running(job, start, _) => if start + t.dur(job) <= v.now then Return else Tick(start + t.dur(job))
    case Returned(_, _, _) => Stamp
  }

  /** The bounds are about real schedules: in every state the worker can move or time can advance. */
  lemma PromptNeverStuck(t: Timing, v: View)
    requires t.settings.Valid() && Inv(t.settings, v) && OnTime(t, v)
    ensures var e := NextEvent(t, v);
            Enabled(t.settings, v, e) && Prompt(t, v, e) && (e.Tick? ==> v.now < e.to)
  {
  }

  /* --------------------------- a batch on a fresh admin ------------------------ */

  /** A prompt run in which every acceptance happens at time t0. */
  predicate BatchRun(t: Timing, t0: int, v: View, es: seq<Event>)
    requires Legal(t.settings, v, es)
    decreases |es|
  {
    es == [] || (Prompt(t, v, es[0]) && (es[0].Accept? ==> v.now == t0)
                 && BatchRun(t, t0, Apply(t.settings, v, es[0]), es[1..]))
  }

  function Work(t: Timing, jobs: seq<Job>): nat {
    if jobs == [] then 0 else Work(t, jobs[..|jobs| - 1]) + t.dur(jobs[|jobs| - 1])
  }

  /** When job k of the batch must start. */
  function StartDue(t: Timing, t0: int, accepted: seq<Job>, k: nat): int
    requires t.settings.Valid() && k <= |accepted|
  {
    t0 + Work(t, accepted[..k]) + Turns(k, t.settings.interval)
  }

  /** When the worker is free for job k. */
  function FreeAt(t: Timing, t0: int, accepted: seq<Job>, k: nat): int
    requires t.settings.Valid() && k <= |accepted|
  {
    if k == 0 then t0 else StartDue(t, t0, accepted, k) - t.settings.interval
  }

  /** Where the worker stands when the next job is due at `due` and the worker is free for it at `free`. */
  ghost predicate PhaseAt(t0: int, v: View, free: int, due: int) {
    && t0 <= free <= due
    && (v.queue.runs != [] ==> v.queue.lastDone == free)
    && match v.queue.phase
       case Idle => free <= v.now && (v.queue.channel != [] ==> v.now == free)
       case Held(_) => v.now == free
       case Sleeping(_, until) => until == due
       case Ready(_) => v.now == due
       case Running(_, start, _) => start == due
       case Returned(_, start, _) => start == due
  }

  ghost predicate BatchPhase(t: Timing, t0: int, v: View)
    requires t.settings.Valid() && Conserved(v.queue)
  {
    PhaseAt(t0, v, FreeAt(t, t0, v.queue.accepted, |v.queue.runs|), StartDue(t, t0, v.queue.accepted, |v.queue.runs|))
  }

  ghost predicate BatchLog(t: Timing, t0: int, q: Queue)
    requires t.settings.Valid() && Conserved(q)
  {
    forall k :: 0 <= k < |q.runs| ==>
      && q.runs[k].start == StartDue(t, t0, q.accepted, k)
      && q.runs[k].end == q.runs[k].start + t.dur(q.accepted[k])
  }

  ghost predicate BatchInv(t: Timing, t0: int, v: View) {
    && t.settings.Valid() && Inv(t.settings, v) && OnTime(t, v)
    && BatchPhase(t, t0, v) && BatchLog(t, t0, v.queue)
  }

  lemma DueAfterAccept(t: Timing, t0: int, accepted: seq<Job>, job: Job, k: nat)
    requires t.settings.Valid() && k <= |accepted|
    ensures StartDue(t, t0, accepted + [job], k) == StartDue(t, t0, accepted, k)
  {
    assert (accepted + [job])[..k] == accepted[..k];
  }

  lemma FreeNext(t: Timing, t0: int, accepted: seq<Job>, k: nat)
    requires t.settings.Valid() && k < |accepted|
    ensures FreeAt(t, t0, accepted, k + 1) == StartDue(t, t0, accepted, k) + t.dur(accepted[k])
    ensures StartDue(t, t0, accepted, k + 1) == FreeAt(t, t0, accepted, k + 1) + t.settings.interval
  {
    assert accepted[..k + 1][..k] == accepted[..k];
  }

  /** A step that finishes no job leaves the worker on its schedule. */
  lemma PhaseAtStep(t: Timing, t0: int, v: View, e: Event, free: int, due: int)
    requires t.settings.Valid() && Inv(t.settings, v) && OnTime(t, v) && PhaseAt(t0, v, free, due)
    requires due == if v.queue.runs == [] then free else free + t.settings.interval
    requires Enabled(t.settings, v, e) && Prompt(t, v, e) && (e.Accept? ==> v.now == t0) && !e.Stamp?
    ensures PhaseAt(t0, Apply(t.settings, v, e), free, due)
  {
    if e.CheckSpacing? {
      RemainingExact(t.settings.interval, v.now, v.queue.lastDone);
    }
  }

  /** Finishing a job moves the schedule on by its duration. */
  lemma PhaseAtStamp(t: Timing, t0: int, v: View, free: int, due: int)
    requires t.settings.Valid() && OnTime(t, v) && PhaseAt(t0, v, free, due) && v.queue.phase.Returned?
    ensures PhaseAt(t0, Apply(t.settings, v, Stamp),
                    due + t.dur(v.queue.phase.job), due + t.dur(v.queue.phase.job) + t.settings.interval)
  {
  }

  lemma BatchPhaseStep(t: Timing, t0: int, v: View, e: Event)
    requires BatchInv(t, t0, v) && Enabled(t.settings, v, e) && Prompt(t, v, e) && (e.Accept? ==> v.now == t0)
    requires Conserved(Apply(t.settings, v, e).queue)
    ensures BatchPhase(t, t0, Apply(t.settings, v, e))
  {
    var accepted, k := v.queue.accepted, |v.queue.runs|;
    if e.Stamp? {
      FreeNext(t, t0, accepted, k);
      PhaseAtStamp(t, t0, v, FreeAt(t, t0, accepted, k), StartDue(t, t0, accepted, k));
    } else {
      PhaseAtStep(t, t0, v, e, FreeAt(t, t0, accepted, k), StartDue(t, t0, accepted, k));
      if e.Accept? {
        DueAfterAccept(t, t0, accepted, e.job, k);
      }
    }
  }

  lemma BatchLogStep(t: Timing, t0: int, v: View, e: Event)
    requires BatchInv(t, t0, v) && Enabled(t.settings, v, e) && Prompt(t, v, e)
    requires Conserved(Apply(t.settings, v, e).queue)
    ensures BatchLog(t, t0, Apply(t.settings, v, e).queue)
  {
    var q, r := v.queue, Apply(t.settings, v, e).queue;
    forall k | 0 <= k < |r.runs|
      ensures r.runs[k].start == StartDue(t, t0, r.accepted, k)
      ensures r.runs[k].end == r.runs[k].start + t.dur(r.accepted[k])
    {
      if e.Accept? {
        DueAfterAccept(t, t0, q.accepted, e.job, k);
      } else if e.Stamp? && k == |q.runs| {
        assert q.accepted[k] == q.phase.job;
      }
    }
  }

  lemma {:induction false} BatchExec(t: Timing, t0: int, v: View, es: seq<Event>)
    requires BatchInv(t, t0, v) && Legal(t.settings, v, es) && BatchRun(t, t0, v, es)
    ensures BatchInv(t, t0, Exec(t.settings, v, es))
    decreases |es|
  {
    if es != [] {
      InvStep(t.settings, v, es[0]);
      OnTimeStep(t, v, es[0]);
      BatchPhaseStep(t, t0, v, es[0]);
      BatchLogStep(t, t0, v, es[0]);
      BatchExec(t, t0, Apply(t.settings, v, es[0]), es[1..]);
    }
  }

  /**
   n jobs accepted together on a fresh admin: whenever job k of them is done, it started exactly at the
   sum of the earlier durations plus k intervals; the last one ends after all durations and n - 1 intervals.
   */
  lemma BatchSchedule(t: Timing, t0: int, es: seq<Event>)
    requires t.settings.Valid() && t0 > 0
    requires Legal(t.settings, View(t0, EMPTY), es) && BatchRun(t, t0, View(t0, EMPTY), es)
    ensures var q := Exec(t.settings, View(t0, EMPTY), es).queue;
            && |q.runs| <= |q.accepted|
            && (forall k :: 0 <= k < |q.runs| ==>
                  && q.runs[k].job == q.accepted[k]
                  && q.runs[k].start == t0 + Work(t, q.accepted[..k]) + k * t.settings.interval)
            && (q.runs != [] && |q.runs| == |q.accepted| ==>
                  q.runs[|q.runs| - 1].end == t0 + Work(t, q.accepted) + (|q.accepted| - 1) * t.settings.interval)
  {
    FreshInv(t.settings, t0);
    BatchExec(t, t0, View(t0, EMPTY), es);
    var v := Exec(t.settings, View(t0, EMPTY), es);
    forall k | 0 <= k < |v.queue.runs|
      ensures v.queue.runs[k].job == v.queue.accepted[k]
      ensures v.queue.runs[k].start == t0 + Work(t, v.queue.accepted[..k]) + k * t.settings.interval
    {
      TurnsIsProduct(k, t.settings.interval);
    }
    BatchEnd(t, t0, v);
  }

  lemma BatchEnd(t: Timing, t0: int, v: View)
    requires BatchInv(t, t0, v)
    ensures var q := v.queue;
            q.runs != [] && |q.runs| == |q.accepted| ==>
              q.runs[|q.runs| - 1].end == t0 + Work(t, q.accepted) + (|q.accepted| - 1) * t.settings.interval
  {
    var q := v.queue;
    if q.runs != [] && |q.runs| == |q.accepted| {
      TurnsIsProduct(|q.runs| - 1, t.settings.interval);
      assert q.runs[|q.runs| - 1].end == q.runs[|q.runs| - 1].start + t.dur(q.accepted[|q.runs| - 1]);
    }
  }
}
