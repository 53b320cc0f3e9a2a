/**
 The queue manager as the program holds it: a map of lazily created admin queues, each with a bounded
 channel kept in a ring buffer and the instant its last job finished. Every method is tied to the
 abstract one-admin machine of PayoutQueue.
 */
module QueueManager {
  import opened Basics
  import Q = PayoutQueue

  function Max(x: int, y: int): int {
    if x < y then y else x
  }

  /* --------------------- one job, in the abstract machine ------------------------ */

  lemma {:induction false} RunMore(c: Q.Settings, v: Q.View, es: seq<Q.Event>, fs: seq<Q.Event>)
    requires Q.Legal(c, v, es) && Q.Legal(c, Q.Exec(c, v, es), fs)
    ensures Q.Legal(c, v, es + fs) && Q.Exec(c, v, es + fs) == Q.Exec(c, Q.Exec(c, v, es), fs)
    decreases |es|
  {
    if es == [] {
      assert es + fs == fs;
    } else {
      RunMore(c, Q.Apply(c, v, es[0]), es[1..], fs);
      assert (es + fs)[0] == es[0] && (es + fs)[1..] == es[1..] + fs;
    }
  }

  /** When the job at the head of the channel starts, if the worker receives it now. */
  function StartOf(c: Q.Settings, now: int, lastDone: int): int {
    if c.interval == 0 || lastDone == 0 then now else Max(now, lastDone + c.interval)
  }

  function OneJob(c: Q.Settings, now: int, lastDone: int, dur: nat): seq<Q.Event> {
    var start := StartOf(c, now, lastDone);
    [Q.Receive, Q.CheckSpacing] + (if start > now then [Q.Tick(start), Q.Wake] else [])
    + [Q.Start, Q.Tick(start + dur)] + [Q.Return, Q.Stamp]
  }

  lemma RunTwo(c: Q.Settings, v: Q.View, e: Q.Event, f: Q.Event)
    requires Q.Enabled(c, v, e) && Q.Enabled(c, Q.Apply(c, v, e), f)
    ensures Q.Legal(c, v, [e, f]) && Q.Exec(c, v, [e, f]) == Q.Apply(c, Q.Apply(c, v, e), f)
  {
    var w := Q.Apply(c, Q.Apply(c, v, e), f);
    assert [e, f][1..] == [f] && [f][1..] == [];
    assert Q.Legal(c, w, []) && Q.Exec(c, w, []) == w;
    assert Q.Legal(c, Q.Apply(c, v, e), [f]) && Q.Exec(c, Q.Apply(c, v, e), [f]) == w;
  }

  /** The events es lead from v to w. */
  predicate Leads(c: Q.Settings, v: Q.View, es: seq<Q.Event>, w: Q.View) {
    Q.Legal(c, v, es) && Q.Exec(c, v, es) == w
  }

  lemma LeadsOn(c: Q.Settings, v: Q.View, es: seq<Q.Event>, w: Q.View, fs: seq<Q.Event>, x: Q.View)
    requires Leads(c, v, es, w) && Leads(c, w, fs, x)
    ensures Leads(c, v, es + fs, x)
  {
    RunMore(c, v, es, fs);
  }

  lemma Received(c: Q.Settings, v: Q.View)
    requires v.queue.phase.Idle? && v.queue.channel != []
    ensures var q := v.queue.(channel := v.queue.channel[1..],
                              phase := Q.AfterSpacing(c.interval, v.now, v.queue.lastDone, v.queue.channel[0]));
            Leads(c, v, [Q.Receive, Q.CheckSpacing], Q.View(v.now, q))
  {
    RunTwo(c, v, Q.Receive, Q.CheckSpacing);
  }

  lemma Waited(c: Q.Settings, v: Q.View, job: Q.Job, until: int)
    requires v.queue.phase == Q.Sleeping(job, until) && v.now <= until
    ensures Leads(c, v, [Q.Tick(until), Q.Wake], Q.View(until, v.queue.(phase := Q.Ready(job))))
  {
    RunTwo(c, v, Q.Tick(until), Q.Wake);
  }

  lemma Ran(c: Q.Settings, v: Q.View, job: Q.Job, dur: nat)
    requires v.queue.phase == Q.Ready(job)
    ensures Leads(c, v, [Q.Start, Q.Tick(v.now + dur)],
                  Q.View(v.now + dur, v.queue.(phase := Q.Running(job, v.now, Q.Starting))))
  {
    RunTwo(c, v, Q.Start, Q.Tick(v.now + dur));
  }

  lemma Stamped(c: Q.Settings, v: Q.View, job: Q.Job, start: int, stage: Q.Stage)
    requires v.queue.phase == Q.Running(job, start, stage)
    ensures Leads(c, v, [Q.Return, Q.Stamp],
                  Q.View(v.now, v.queue.(phase := Q.Idle, lastDone := v.now,
                                         runs := v.queue.runs + [Q.Run(job, start, v.now, v.now)])))
  {
    RunTwo(c, v, Q.Return, Q.Stamp);
  }

  /** Receive the next job and wait until it is due. */
  lemma ReadyWhenDue(c: Q.Settings, v: Q.View)
    requires c.Valid() && v.queue.phase.Idle? && v.queue.channel != [] && 0 <= v.queue.lastDone <= v.now
    ensures var start := StartOf(c, v.now, v.queue.lastDone);
            Leads(c, v, [Q.Receive, Q.CheckSpacing] + (if start > v.now then [Q.Tick(start), Q.Wake] else []),
                  Q.View(start, v.queue.(channel := v.queue.channel[1..], phase := Q.Ready(v.queue.channel[0]))))
  {
    var start, job := StartOf(c, v.now, v.queue.lastDone), v.queue.channel[0];
    var w := Q.View(v.now, v.queue.(channel := v.queue.channel[1..],
                                    phase := Q.AfterSpacing(c.interval, v.now, v.queue.lastDone, job)));
    Q.RemainingExact(c.interval, v.now, v.queue.lastDone);
    Received(c, v);
    if start > v.now {
      Waited(c, w, job, start);
      LeadsOn(c, v, [Q.Receive, Q.CheckSpacing], w, [Q.Tick(start), Q.Wake],
              Q.View(start, w.queue.(phase := Q.Ready(job))));
    } else {
      assert [Q.Receive, Q.CheckSpacing] + [] == [Q.Receive, Q.CheckSpacing];
    }
  }

  /** The view after the job at the head of the channel has been served. */
  function AfterJob(c: Q.Settings, v: Q.View, dur: nat): Q.View
    requires v.queue.channel != []
  {
    var start := StartOf(c, v.now, v.queue.lastDone);
    Q.View(start + dur, v.queue.(channel := v.queue.channel[1..], phase := Q.Idle, lastDone := start + dur,
                                 runs := v.queue.runs + [Q.Run(v.queue.channel[0], start, start + dur, start + dur)]))
  }

  lemma OneJobRuns(c: Q.Settings, v: Q.View, dur: nat)
    requires c.Valid() && v.queue.phase.Idle? && v.queue.channel != [] && 0 <= v.queue.lastDone <= v.now
    ensures Leads(c, v, OneJob(c, v.now, v.queue.lastDone, dur), AfterJob(c, v, dur))
  {
    var start, job := StartOf(c, v.now, v.queue.lastDone), v.queue.channel[0];
    var front := [Q.Receive, Q.CheckSpacing] + (if start > v.now then [Q.Tick(start), Q.Wake] else []);
    var ready := Q.View(start, v.queue.(channel := v.queue.channel[1..], phase := Q.Ready(job)));
    var running := Q.View(start + dur, ready.queue.(phase := Q.Running(job, start, Q.Starting)));
    ReadyWhenDue(c, v);
    Ran(c, ready, job, dur);
    LeadsOn(c, v, front, ready, [Q.Start, Q.Tick(start + dur)], running);
    Stamped(c, running, job, start, Q.Starting);
    LeadsOn(c, v, front + [Q.Start, Q.Tick(start + dur)], running, [Q.Return, Q.Stamp], AfterJob(c, v, dur));
  }

  /** An admin without a queue has an empty one. */
  function ChannelOf(waiting: map<string, seq<Q.Job>>, admin: string): seq<Q.Job> {
    if admin in waiting then waiting[admin] else []
  }

  /** The runs take what their jobs take, the first starts at first, and each next one exactly interval after. */
  ghost predicate BackToBack(runs: seq<Q.Run>, dur: Q.Job -> nat, interval: int, first: int) {
    && (forall k :: 0 <= k < |runs| ==> runs[k].end == runs[k].stamp == runs[k].start + dur(runs[k].job))
    && (forall k :: 0 < k < |runs| ==> runs[k].start == runs[k - 1].end + interval)
    && (runs != [] ==> runs[0].start == first)
  }

  lemma OneMoreRun(runs: seq<Q.Run>, dur: Q.Job -> nat, interval: int, first: int, run: Q.Run, rest: seq<Q.Job>)
    requires BackToBack(runs, dur, interval, first)
    requires run.end == run.stamp == run.start + dur(run.job)
    requires run.start == if runs == [] then first else runs[|runs| - 1].end + interval
    ensures BackToBack(runs + [run], dur, interval, first)
    ensures Q.RunJobs(runs + [run]) + rest == Q.RunJobs(runs) + ([run.job] + rest)
  {
    assert Q.RunJobs(runs + [run]) == Q.RunJobs(runs) + [run.job];
  }

  /** Time as the worker sees it: sleeping advances the clock by exactly what was asked, and is recorded. */
  class Clock {
    var t: int
    var sleeps: seq<int>

    constructor (start: int)
      ensures t == start && sleeps == []
    {
      t, sleeps := start, [];
    }

    method Sleep(d: int)
      requires d > 0
      modifies this
      ensures t == old(t) + d && sleeps == old(sleeps) + [d]
    {
      t, sleeps := t + d, sleeps + [d];
    }

    method Advance(d: nat)
      modifies this
      ensures t == old(t) + d && sleeps == old(sleeps)
    {
      t := t + d;
    }
  }

  class AdminQueue {
    const adminDid: string
    const ch: array<Q.Job>
    var head: nat
    var count: nat
    var lastDone: int

    ghost predicate Valid()
      reads this
    {
      head < ch.Length && count <= ch.Length
    }

    /** Where the k-th waiting job is stored. */
    function Slot(k: nat): (i: nat)
      requires Valid() && k < ch.Length
      reads this
      ensures i < ch.Length
    {
      if head + k < ch.Length then head + k else head + k - ch.Length
    }

    ghost function Contents(): (s: seq<Q.Job>)
      requires Valid()
      reads this, ch
    {
      seq(count, k requires 0 <= k < count && Valid() reads this, ch => ch[Slot(k)])
    }

    /** The abstract queue v has these jobs waiting and the same lastDone. */
    ghost predicate Shows(v: Q.View)
      requires Valid()
      reads this, ch
    {
      v.queue.channel == Contents() && v.queue.lastDone == lastDone
    }

    constructor (adminDid: string, capacity: nat)
      requires capacity > 0
      ensures Valid() && Contents() == [] && lastDone == 0
      ensures this.adminDid == adminDid && ch.Length == capacity && fresh(ch)
    {
      this.adminDid := adminDid;
      ch := new Q.Job[capacity];
      head, count, lastDone := 0, 0, 0;
    }

    /** The select with a default branch: never blocks. */
    method TrySend(job: Q.Job) returns (sent: bool)
      requires Valid()
      modifies this`count, ch
      ensures Valid() && sent == (|old(Contents())| < ch.Length)
      ensures Contents() == old(Contents()) + (if sent then [job] else [])
    {
      sent := count < ch.Length;
      if sent {
        ch[Slot(count)] := job;
        count := count + 1;
      }
    }

    method Receive() returns (job: Q.Job)
      requires Valid() && Contents() != []
      modifies this`head, this`count
      ensures Valid() && [job] + Contents() == old(Contents())
    {
      job := ch[head];
      head, count := if head + 1 < ch.Length then head + 1 else 0, count - 1;
    }
  }

  class Manager {
    const bufferSize: nat
    const procTimeout: int
    var minInterval: int
    var adminInterval: map<string, int>
    var queues: map<string, AdminQueue>

    ghost predicate Configured()
      reads this
    {
      && bufferSize > 0 && procTimeout > 0
      && 0 <= minInterval <= MAX_DURATION
      && forall a :: a in adminInterval ==> 0 <= adminInterval[a] <= MAX_DURATION
    }

    ghost predicate Valid()
      reads this, queues.Values
    {
      && Configured()
      && (forall a :: a in queues ==> queues[a].Valid() && queues[a].adminDid == a && queues[a].ch.Length == bufferSize)
      && (forall a, b :: a in queues && b in queues && queues[a].ch == queues[b].ch ==> a == b)
    }

    ghost function Channels(): set<array<Q.Job>>
      reads this
    {
      set a | a in queues :: queues[a].ch
    }

    /** The jobs waiting for each admin that has a queue. */
    ghost function Waiting(): map<string, seq<Q.Job>>
      requires Valid()
      reads this, queues.Values, Channels()
    {
      map a | a in queues :: queues[a].Contents()
    }

    function IntervalFor(admin: string): int
      reads this
    {
      if admin in adminInterval then adminInterval[admin] else minInterval
    }

    ghost function SettingsFor(admin: string): Q.Settings
      reads this
    {
      Q.Settings(bufferSize, IntervalFor(admin))
    }

    constructor (bufferSize: int, procTimeout: int)
      ensures Valid() && queues == map[] && minInterval == 0 && adminInterval == map[]
      ensures this.bufferSize == if bufferSize <= 0 then 1000 else bufferSize
      ensures this.procTimeout == if procTimeout <= 0 then 300_000_000_000 else procTimeout
    {
      this.bufferSize := if bufferSize <= 0 then 1000 else bufferSize;
      this.procTimeout := if procTimeout <= 0 then 300_000_000_000 else procTimeout;
      minInterval, adminInterval, queues := 0, map[], map[];
    }

    method SetMinInterval(d: int)
      requires Valid() && MIN_DURATION <= d <= MAX_DURATION
      modifies this`minInterval
      ensures Valid() && minInterval == if d < 0 then 0 else d
    {
      minInterval := if d < 0 then 0 else d;
    }

    method SetAdminMinInterval(admin: string, d: int)
      requires Valid() && MIN_DURATION <= d <= MAX_DURATION
      modifies this`adminInterval
      ensures Valid() && adminInterval == old(adminInterval)[admin := if d < 0 then 0 else d]
    {
      adminInterval := adminInterval[admin := if d < 0 then 0 else d];
    }

    method GetOrCreate(admin: string) returns (q: AdminQueue)
      requires Valid()
      modifies this`queues
      ensures Valid() && admin in queues && queues[admin] == q
      ensures queues == if admin in old(queues) then old(queues) else old(queues)[admin := q]
      ensures admin !in old(queues) ==> fresh(q) && fresh(q.ch)
      ensures Waiting() == if admin in old(queues) then old(Waiting()) else old(Waiting())[admin := []]
    {
      if admin in queues {
        return queues[admin];
      }
      q := new AdminQueue(admin, bufferSize);
      assert Waiting() == old(Waiting());
      Insert(q);
    }

    method Insert(q: AdminQueue)
      requires Valid() && q.Valid() && q.adminDid !in queues && q.ch.Length == bufferSize
      requires forall a :: a in queues ==> queues[a].ch != q.ch
      modifies this`queues
      ensures queues == old(queues)[q.adminDid := q]
      ensures Valid() && Waiting() == old(Waiting())[q.adminDid := q.Contents()]
    {
      queues := queues[q.adminDid := q];
    }

    /** Accepted exactly when there is room; the job goes last in its own admin's channel and nowhere else. */
    method Enqueue(job: Q.Job) returns (r: EnqueueResult)
      requires Valid()
      modifies this`queues, queues.Values, Channels()
      ensures Valid()
      ensures job.input.adminDid == "" <==> r == MissingAdmin
      ensures r == MissingAdmin ==> queues == old(queues) && Waiting() == old(Waiting())
      ensures r != MissingAdmin ==>
                var a, before := job.input.adminDid, ChannelOf(old(Waiting()), job.input.adminDid);
                && a in queues && (forall b :: b in old(queues) ==> b in queues && queues[b] == old(queues)[b])
                && (r == Accepted <==> |before| < bufferSize)
                && Waiting() == old(Waiting())[a := before + (if r == Accepted then [job] else [])]
    {
      if job.input.adminDid == "" {
        return MissingAdmin;
      }
      var q := GetOrCreate(job.input.adminDid);
      ghost var before := Waiting();
      assert before[job.input.adminDid] == q.Contents();
      r := Send(q, job);
    }

    /** The channel send is one step of the admin's abstract machine. */
    method Send(q: AdminQueue, job: Q.Job) returns (r: EnqueueResult)
      requires Valid() && job.input.adminDid in queues && queues[job.input.adminDid] == q
      modifies q`count, q.ch
      ensures Valid()
      ensures r == if |old(q.Contents())| < bufferSize then Accepted else QueueFull
      ensures forall v: Q.View :: old(q.Shows(v)) ==>
                var e := if r == Accepted then Q.Accept(job) else Q.Refuse(job);
                Q.Enabled(SettingsFor(q.adminDid), v, e) && q.Shows(Q.Apply(SettingsFor(q.adminDid), v, e))
      ensures Waiting() ==
                old(Waiting())[job.input.adminDid := old(q.Contents()) + (if r == Accepted then [job] else [])]
    {
      var sent := q.TrySend(job);
      r := if sent then Accepted else QueueFull;
      assert forall b :: b in queues && b != job.input.adminDid ==> queues[b].Contents() == old(queues[b].Contents());
    }

    /** The total is the sum of the per-admin depths. */
    method Snapshot() returns (total: int, perAdmin: map<string, int>)
      requires Valid()
      ensures perAdmin.Keys == queues.Keys
      ensures forall a :: a in queues ==> perAdmin[a] == |Waiting()[a]|
      ensures total == SumMap(perAdmin)
    {
      total, perAdmin := 0, map[];
      var rest := queues.Keys;
      while rest != {}
        invariant rest <= queues.Keys && perAdmin.Keys == queues.Keys - rest
        invariant forall a :: a in perAdmin ==> perAdmin[a] == |Waiting()[a]|
        invariant total == SumMap(perAdmin)
        decreases rest
      {
        var did :| did in rest;
        var n := queues[did].count;
        SumMapPut(perAdmin, did, n);
        perAdmin := perAdmin[did := n];
        total := total + n;
        rest := rest - {did};
      }
    }

    /** Sleeps for what remains of the interval since the last job ended; not at all for a first job. */
    method WaitForSpacing(q: AdminQueue, clock: Clock)
      requires Configured() && q.lastDone <= clock.t
      modifies clock
      ensures clock.t == StartOf(SettingsFor(q.adminDid), old(clock.t), q.lastDone)
      ensures clock.sleeps == old(clock.sleeps) + (if clock.t > old(clock.t) then [clock.t - old(clock.t)] else [])
    {
      var interval := IntervalFor(q.adminDid);
      if interval <= 0 || q.lastDone == 0 {
        return;
      }
      Q.RemainingExact(interval, clock.t, q.lastDone);
      var remaining := Q.Remaining(interval, clock.t, q.lastDone);
      if remaining > 0 {
        clock.Sleep(remaining);
      }
    }

    /** The events es, from v, lead to a queue that looks like q at this instant and has run these jobs. */
    ghost predicate Follows(q: AdminQueue, now: int, v: Q.View, es: seq<Q.Event>, runs: seq<Q.Run>)
      requires q.Valid()
      reads this, q, q.ch
    {
      var c := SettingsFor(q.adminDid);
      && Q.Legal(c, v, es)
      && var w := Q.Exec(c, v, es);
      && q.Shows(w) && w.now == now && w.queue.phase.Idle?
      && w.queue.runs == v.queue.runs + runs && w.queue.accepted == v.queue.accepted
    }

    /** One turn of the worker loop: receive, wait, run for dur(job), stamp. */
    method Serve(q: AdminQueue, clock: Clock, dur: Q.Job -> nat, ghost v: Q.View, ghost es: seq<Q.Event>,
                 ghost runs: seq<Q.Run>)
      returns (run: Q.Run, ghost more: seq<Q.Event>)
      requires Configured() && q.Valid() && q.Contents() != [] && 0 <= q.lastDone <= clock.t
      requires Follows(q, clock.t, v, es, runs)
      modifies clock, q`head, q`count, q`lastDone
      ensures q.Valid() && [run.job] + q.Contents() == old(q.Contents())
      ensures run.start == StartOf(SettingsFor(q.adminDid), old(clock.t), old(q.lastDone))
      ensures run.end == run.stamp == q.lastDone == clock.t == run.start + dur(run.job)
      ensures Follows(q, clock.t, v, more, runs + [run])
    {
      ghost var c, w, job0 := SettingsFor(q.adminDid), Q.Exec(SettingsFor(q.adminDid), v, es), q.Contents()[0];
      OneJobRuns(c, w, dur(job0));
      RunMore(c, v, es, OneJob(c, w.now, w.queue.lastDone, dur(job0)));
      more := es + OneJob(c, w.now, w.queue.lastDone, dur(job0));
      var job := q.Receive();
      WaitForSpacing(q, clock);
      var start := clock.t;
      clock.Advance(dur(job));
      q.lastDone := clock.t;
      run := Q.Run(job, start, clock.t, clock.t);
    }

    /**
     The worker loop until the channel is drained, with job j taking dur(j). The jobs run once each, in
     channel order; each starts when the spacing allows and not later; and the whole loop is a run of
     the abstract machine.
     */
    method Work(q: AdminQueue, clock: Clock, dur: Q.Job -> nat, ghost v: Q.View)
      returns (runs: seq<Q.Run>, ghost es: seq<Q.Event>)
      requires Configured() && q.Valid() && 0 <= q.lastDone <= clock.t && clock.t > 0
      requires q.Shows(v) && v.now == clock.t && v.queue.phase.Idle?
      modifies clock, q`head, q`count, q`lastDone
      ensures q.Valid() && q.Contents() == [] && Follows(q, clock.t, v, es, runs)
      ensures Q.Legal(SettingsFor(q.adminDid), v, es)
      ensures Q.Exec(SettingsFor(q.adminDid), v, es).queue.runs == v.queue.runs + runs
      ensures Q.RunJobs(runs) == old(q.Contents())
      ensures BackToBack(runs, dur, IntervalFor(q.adminDid),
                         StartOf(SettingsFor(q.adminDid), old(clock.t), old(q.lastDone)))
      ensures forall k :: 0 <= k < |runs| ==> runs[k].end == runs[k].start + dur(runs[k].job)
      ensures forall k :: 0 < k < |runs| ==> runs[k].start == runs[k - 1].end + IntervalFor(q.adminDid)
      ensures runs != [] && old(q.lastDone) == 0 ==> runs[0].start == old(clock.t)
      ensures runs != [] && old(q.lastDone) > 0 ==>
                runs[0].start == Max(old(clock.t), old(q.lastDone) + IntervalFor(q.adminDid))
    {
      runs, es := [], [];
      ghost var c := SettingsFor(q.adminDid);
      ghost var first := StartOf(c, clock.t, q.lastDone);
      while q.count > 0
        invariant q.Valid() && 0 <= q.lastDone <= clock.t && clock.t > 0
        invariant Follows(q, clock.t, v, es, runs)
        invariant Q.RunJobs(runs) + q.Contents() == old(q.Contents())
        invariant BackToBack(runs, dur, c.interval, first)
        invariant runs == [] ==> q.lastDone == old(q.lastDone) && clock.t == old(clock.t)
        invariant runs != [] ==> q.lastDone == clock.t == runs[|runs| - 1].end
        decreases q.count
      {
        var run: Q.Run;
        run, es := Serve(q, clock, dur, v, es, runs);
        OneMoreRun(runs, dur, c.interval, first, run, q.Contents());
        runs := runs + [run];
      }
    }
  }

  datatype EnqueueResult = Accepted | QueueFull | MissingAdmin
}
