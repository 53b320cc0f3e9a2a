/** The worker's method, write for write, is a run of the machine: whatever it does to a job, the machine can do. */
module WorkerRun {
  import opened Basics
  import opened Ledger
  import opened PayoutSystem
  import opened StuckPayout
  import FinalRows
  import PayoutService
  import Q = PayoutQueue

  /** How the job ends in this world, the sum being what the activities add up to. */
  function OutcomeIn(w: PayoutService.World, points: int): Q.Outcome {
    if w.lookUpError.Some? then Q.Broken(w.lookUpError.value)
    else if points <= 0 then Q.Broken("activities resolved to zero reward points")
    else if w.chain.Paid? then Q.Paid(points, w.chain.transactionId, w.chain.contractHash)
    else w.chain
  }

  lemma OutcomeInIs(w: PayoutService.World, points: int)
    ensures w.lookUpError.Some? ==> OutcomeIn(w, points) == Q.Broken(w.lookUpError.value)
    ensures w.lookUpError.None? && points <= 0 ==>
              OutcomeIn(w, points) == Q.Broken("activities resolved to zero reward points")
    ensures w.lookUpError.None? && points > 0 ==>
              match w.chain
              case Paid(_, tx, hash) => OutcomeIn(w, points) == Q.Paid(points, tx, hash)
              case _ => OutcomeIn(w, points) == w.chain
  {
  }

  /** Admin a's worker has this job in hand at this stage. */
  predicate Doing(s: Sys, a: string, job: Q.Job, start: int, stage: Q.Stage) {
    a in s.queues && s.queues[a].phase == Q.Running(job, start, stage)
  }

  lemma Stepped(cfg: Config, o: Sys, s: Sys, e: Event, job: Q.Job, start: int, stage: Q.Stage) returns (t: Sys)
    requires Leads(cfg, o, s) && Enabled(cfg, s, e) && Moves(e) && QueueMove(cfg, s, e) == Q.Progress(stage)
    requires s.queues[e.admin].phase.Running?
    requires s.queues[e.admin].phase.job == job && s.queues[e.admin].phase.start == start
    ensures Leads(cfg, o, t) && Doing(t, e.admin, job, start, stage)
    ensures t.now == s.now && t.activities == s.activities && t.rows == RowsAfter(cfg, s, e)
  {
    t := Apply(cfg, s, e);
    Reach(cfg, o, s, e);
  }

  function MarkedRows(rows: Rows, r: RequestId, now: int, inTime: bool): Rows {
    if inTime && r in rows then rows[r := rows[r].(status := Processing, updatedAt := now)] else rows
  }

  lemma MarkStep(cfg: Config, s: Sys, a: string, job: Q.Job, start: int, inTime: bool) returns (t: Sys)
    requires Doing(s, a, job, start, Q.Starting) && inTime == (s.now < start + cfg.procTimeout)
    ensures Leads(cfg, s, t) && Doing(t, a, job, start, Q.Marked)
    ensures t.now == s.now && t.activities == s.activities
    ensures t.rows == MarkedRows(s.rows, job.requestId, s.now, inTime)
  {
    Stay(cfg, s);
    PayoutService.MarkKeepsTheRow(s.rows, job.requestId, s.now);
    t := Stepped(cfg, s, s, Mark(a, inTime), job, start, Q.Marked);
  }

  lemma SettleStep(cfg: Config, o: Sys, s: Sys, a: string, job: Q.Job, start: int, w: PayoutService.World)
    returns (t: Sys)
    requires Leads(cfg, o, s) && Doing(s, a, job, start, Q.Marked)
    ensures Leads(cfg, o, t)
    ensures Doing(t, a, job, start,
                  Q.Settled(OutcomeIn(w, SumPoints(s.activities, job.input.adminDid, job.input.activityIds))))
    ensures t.now == s.now && t.rows == s.rows
  {
    var points := SumPoints(s.activities, job.input.adminDid, job.input.activityIds);
    var outcome := OutcomeIn(w, points);
    if w.lookUpError.Some? {
      t := Stepped(cfg, o, s, LookUpFails(a, w.lookUpError.value), job, start, Q.Settled(outcome));
    } else if points <= 0 {
      t := Stepped(cfg, o, s, SumUp(a), job, start, Q.Settled(outcome));
    } else {
      t := Stepped(cfg, o, s, SumUp(a), job, start, Q.Summed(points));
      t := Stepped(cfg, o, t, Transact(a, outcome), job, start, Q.Settled(outcome));
    }
  }

  lemma RecordStep(cfg: Config, o: Sys, s: Sys, a: string, job: Q.Job, start: int, outcome: Q.Outcome)
    returns (t: Sys)
    requires Leads(cfg, o, s) && Doing(s, a, job, start, Q.Settled(outcome))
    ensures Leads(cfg, o, t) && Doing(t, a, job, start, Q.Recorded)
    ensures t.rows ==
            if s.now < start + cfg.procTimeout && FinalRows.Fitting(cfg, job, outcome) && job.requestId in s.rows
            then s.rows[job.requestId := PayoutService.Told(cfg, s.rows[job.requestId], job, outcome, s.now)]
            else s.rows
  {
    var inTime, fits := s.now < start + cfg.procTimeout, FinalRows.Fitting(cfg, job, outcome);
    FinalRows.FittingMeansAllFit(cfg, job, outcome);
    if fits && job.requestId in s.rows {
      PayoutService.OutcomeWritten(cfg, s.rows, job, outcome, s.now);
    }
    t := Stepped(cfg, o, s, Record(a, inTime && fits), job, start, Q.Recorded);
  }

  /** The last write covers what the first one wrote. */
  lemma BothWrites(cfg: Config, rows: Rows, job: Q.Job, outcome: Q.Outcome, now: int)
    requires job.requestId in rows && FinalRows.Fitting(cfg, job, outcome)
    ensures var r, marked := job.requestId, MarkedRows(rows, job.requestId, now, true);
            marked[r := PayoutService.Told(cfg, marked[r], job, outcome, now)]
            == rows[r := PayoutService.Told(cfg, rows[r], job, outcome, now)]
  {
  }

  /**
   From any state in which a worker has taken up a job, and for every world, the machine can go through the
   job to the outcome the worker's method computes, with the rows it writes: before the deadline both
   writes take effect if the columns take them, after it none does.
   */
  lemma MachineRunsTheJob(cfg: Config, s: Sys, a: string, job: Q.Job, start: int, w: PayoutService.World)
    returns (t: Sys)
    requires Doing(s, a, job, start, Q.Starting) && job.requestId in s.rows
    ensures Leads(cfg, s, t) && Doing(t, a, job, start, Q.Recorded)
    ensures var outcome := OutcomeIn(w, SumPoints(s.activities, job.input.adminDid, job.input.activityIds));
            var before := s.rows[job.requestId];
            t.rows == if s.now >= start + cfg.procTimeout then s.rows
                      else s.rows[job.requestId :=
                        if FinalRows.Fitting(cfg, job, outcome)
                          then PayoutService.Told(cfg, before, job, outcome, s.now)
                        else before.(status := Processing, updatedAt := s.now)]
  {
    var inTime, points := s.now < start + cfg.procTimeout,
                          SumPoints(s.activities, job.input.adminDid, job.input.activityIds);
    t := MarkStep(cfg, s, a, job, start, inTime);
    t := SettleStep(cfg, s, t, a, job, start, w);
    t := RecordStep(cfg, s, t, a, job, start, OutcomeIn(w, points));
    if FinalRows.Fitting(cfg, job, OutcomeIn(w, points)) {
      BothWrites(cfg, s.rows, job, OutcomeIn(w, points), s.now);
    }
  }
}
