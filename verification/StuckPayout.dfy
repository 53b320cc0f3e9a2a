/**
 The ledger does not always learn how a payout ended. Two families of runs in which a transfer is paid,
 everything is quiet afterwards, and the row still says "processing": the outcome came after the deadline,
 or it does not fit the columns it is written to.
 */
module StuckPayout {
  import opened Basics
  import opened Ledger
  import opened PayoutSystem
  import opened LedgerTheorems
  import FinalRows
  import LedgerInvariant
  import Q = PayoutQueue
  import Text

  /** What the activities table holds, what the request's activities add up to, and how the job ends. */
  datatype Books = Books(activities: Activities, points: int, outcome: Q.Outcome) {
    ghost predicate For(t: Q.Transfer) {
      && points > 0 && SumPoints(activities, t.adminDid, t.activityIds) == points
      && (outcome.Paid? ==> outcome.points == points)
    }
  }

  /** One more event at the end of a run. */
  lemma {:induction false} Extend(cfg: Config, s: Sys, es: seq<Event>, e: Event)
    requires Legal(cfg, s, es) && Enabled(cfg, Exec(cfg, s, es), e)
    ensures Legal(cfg, s, es + [e]) && Exec(cfg, s, es + [e]) == Apply(cfg, Exec(cfg, s, es), e)
    decreases |es|
  {
    if es == [] {
      assert es + [e] == [e];
      assert Legal(cfg, Apply(cfg, s, e), []);
    } else {
      assert (es + [e])[0] == es[0] && (es + [e])[1..] == es[1..] + [e];
      Extend(cfg, Apply(cfg, s, es[0]), es[1..], e);
    }
  }

  /** Some run leads from o to s. */
  ghost predicate Leads(cfg: Config, o: Sys, s: Sys) {
    exists es :: Legal(cfg, o, es) && Exec(cfg, o, es) == s
  }

  lemma Stay(cfg: Config, o: Sys)
    ensures Leads(cfg, o, o)
  {
    assert Legal(cfg, o, []) && Exec(cfg, o, []) == o;
  }

  lemma Reach(cfg: Config, o: Sys, s: Sys, e: Event)
    requires Leads(cfg, o, s) && Enabled(cfg, s, e)
    ensures Leads(cfg, o, Apply(cfg, s, e))
  {
    var es :| Legal(cfg, o, es) && Exec(cfg, o, es) == s;
    Extend(cfg, o, es, e);
  }

  /** The job is the only one in the system and has reached the given phase. */
  ghost predicate At(k: Books, s: Sys, job: Q.Job, now: int, channel: seq<Q.Job>, phase: Q.Phase, status: Status) {
    var a := job.input.adminDid;
    && s.now == now && s.handlers == map[] && s.queues.Keys == {a} && s.rows.Keys == {job.requestId}
    && s.queues[a].channel == channel && s.queues[a].phase == phase && s.queues[a].lastDone == 0
    && s.rows[job.requestId].status == status
    && s.activities == k.activities && k.For(job.input)
  }

  /** The request is at its handler; queues are as given. */
  ghost predicate Arrived(k: Books, s: Sys, job: Q.Job, handler: Handler, queues: map<string, Q.Queue>) {
    && s.now == 1 && s.handlers == map[job.requestId := handler] && s.queues == queues
    && s.rows.Keys == {job.requestId} && s.rows[job.requestId].status == Queued
    && s.activities == k.activities && k.For(job.input)
  }

  lemma Inserted(k: Books, cfg: Config, job: Q.Job) returns (s: Sys)
    requires cfg.Valid() && ValidTransfer(cfg, job.input) && Insertable(job) && k.For(job.input)
    requires Leads(cfg, Start(1), Start(1).(activities := k.activities))
    ensures Leads(cfg, Start(1), s) && Arrived(k, s, job, Created(job), map[])
  {
    s := Start(1).(activities := k.activities);
    Reach(cfg, Start(1), s, CreateRow(job, true, true));
    s := AfterCreate(s, job, true, true);
  }

  lemma Obtained(k: Books, cfg: Config, o: Sys, job: Q.Job, s0: Sys) returns (s: Sys)
    requires Leads(cfg, o, s0) && Arrived(k, s0, job, Created(job), map[])
    ensures Leads(cfg, o, s) && Arrived(k, s, job, Sending(job), map[job.input.adminDid := Q.EMPTY])
  {
    Reach(cfg, o, s0, ObtainQueue(job.requestId));
    s := AfterObtain(s0, job.requestId);
  }

  lemma AcceptedAt(k: Books, cfg: Config, job: Q.Job, s: Sys)
    requires cfg.Valid() && Arrived(k, s, job, Sending(job), map[job.input.adminDid := Q.EMPTY])
    ensures Enabled(cfg, s, Send(job.requestId))
    ensures At(k, AfterSend(cfg, s, job.requestId), job, 1, [job], Q.Idle, Queued)
  {
    assert AfterSend(cfg, s, job.requestId).queues[job.input.adminDid].channel == [job];
  }

  lemma Accepted(k: Books, cfg: Config, o: Sys, job: Q.Job, s0: Sys) returns (s: Sys)
    requires cfg.Valid() && Leads(cfg, o, s0) && Arrived(k, s0, job, Sending(job), map[job.input.adminDid := Q.EMPTY])
    ensures Leads(cfg, o, s) && At(k, s, job, 1, [job], Q.Idle, Queued)
  {
    AcceptedAt(k, cfg, job, s0);
    Reach(cfg, o, s0, Send(job.requestId));
    s := AfterSend(cfg, s0, job.requestId);
  }

  lemma Worked(cfg: Config, o: Sys, a: string, s0: Sys, m: Q.Event) returns (s: Sys)
    requires Leads(cfg, o, s0) && Enabled(cfg, s0, Worker(a, m)) && s0.queues.Keys == {a}
    ensures Leads(cfg, o, s)
    ensures s.now == s0.now && s.handlers == s0.handlers && s.activities == s0.activities && s.rows == s0.rows
    ensures s.queues.Keys == {a} && s.queues[a] == Move(cfg, s0, a, m)
  {
    Reach(cfg, o, s0, Worker(a, m));
    s := AfterWork(cfg, s0, Worker(a, m));
  }

  /** A step of processOne that leaves the row alone. */
  lemma Progressed(cfg: Config, o: Sys, a: string, s0: Sys, e: Event, stage: Q.Stage) returns (s: Sys)
    requires Leads(cfg, o, s0) && Enabled(cfg, s0, e) && s0.queues.Keys == {a}
    requires e.SumUp? || e.Transact? || e == Record(a, false)
    requires e.admin == a && QueueMove(cfg, s0, e) == Q.Progress(stage)
    ensures Leads(cfg, o, s)
    ensures s.now == s0.now && s.handlers == s0.handlers && s.activities == s0.activities && s.rows == s0.rows
    ensures s.queues.Keys == {a} && s0.queues[a].phase.Running?
    ensures s.queues[a] == s0.queues[a].(phase := s0.queues[a].phase.(stage := stage))
  {
    Reach(cfg, o, s0, e);
    s := AfterWork(cfg, s0, e);
  }

  lemma MarkRows(cfg: Config, a: string, s: Sys)
    requires Enabled(cfg, s, Mark(a, true)) && s.queues[a].phase.job.requestId in s.rows
    ensures var r := s.queues[a].phase.job.requestId;
            RowsAfter(cfg, s, Mark(a, true)) == s.rows[r := s.rows[r].(status := Processing, updatedAt := s.now)]
  {
    LedgerInvariant.MarkStored(s, s.queues[a].phase.job.requestId);
  }

  lemma MarkEnabled(k: Books, cfg: Config, job: Q.Job, s: Sys)
    requires cfg.Valid() && At(k, s, job, 1, [], Q.Running(job, 1, Q.Starting), Queued)
    ensures Enabled(cfg, s, Mark(job.input.adminDid, true))
    ensures RowsAfter(cfg, s, Mark(job.input.adminDid, true)).Keys == {job.requestId}
    ensures RowsAfter(cfg, s, Mark(job.input.adminDid, true))[job.requestId].status == Processing
  {
    MarkRows(cfg, job.input.adminDid, s);
  }

  lemma Taken(k: Books, cfg: Config, o: Sys, job: Q.Job, s0: Sys) returns (s: Sys)
    requires Leads(cfg, o, s0) && At(k, s0, job, 1, [job], Q.Idle, Queued)
    ensures Leads(cfg, o, s) && At(k, s, job, 1, [], Q.Held(job), Queued)
  {
    s := Worked(cfg, o, job.input.adminDid, s0, Q.Receive);
  }

  lemma Spaced(k: Books, cfg: Config, o: Sys, job: Q.Job, s0: Sys) returns (s: Sys)
    requires Leads(cfg, o, s0) && At(k, s0, job, 1, [], Q.Held(job), Queued)
    ensures Leads(cfg, o, s) && At(k, s, job, 1, [], Q.Ready(job), Queued)
  {
    s := Worked(cfg, o, job.input.adminDid, s0, Q.CheckSpacing);
  }

  lemma Started(k: Books, cfg: Config, o: Sys, job: Q.Job, s0: Sys) returns (s: Sys)
    requires Leads(cfg, o, s0) && At(k, s0, job, 1, [], Q.Ready(job), Queued)
    ensures Leads(cfg, o, s) && At(k, s, job, 1, [], Q.Running(job, 1, Q.Starting), Queued)
  {
    s := Worked(cfg, o, job.input.adminDid, s0, Q.Start);
  }

  lemma MarkedAt(k: Books, cfg: Config, job: Q.Job, s: Sys)
    requires cfg.Valid() && At(k, s, job, 1, [], Q.Running(job, 1, Q.Starting), Queued)
    ensures Enabled(cfg, s, Mark(job.input.adminDid, true))
    ensures At(k, AfterWork(cfg, s, Mark(job.input.adminDid, true)), job, 1, [], Q.Running(job, 1, Q.Marked),
               Processing)
  {
    MarkEnabled(k, cfg, job, s);
  }

  lemma MarkedThen(k: Books, cfg: Config, o: Sys, job: Q.Job, s0: Sys) returns (s: Sys)
    requires Leads(cfg, o, s0) && cfg.Valid() && At(k, s0, job, 1, [], Q.Running(job, 1, Q.Starting), Queued)
    ensures Leads(cfg, o, s) && At(k, s, job, 1, [], Q.Running(job, 1, Q.Marked), Processing)
  {
    MarkedAt(k, cfg, job, s0);
    Reach(cfg, o, s0, Mark(job.input.adminDid, true));
    s := Apply(cfg, s0, Mark(job.input.adminDid, true));
  }

  lemma SummedThen(k: Books, cfg: Config, o: Sys, job: Q.Job, s0: Sys) returns (s: Sys)
    requires Leads(cfg, o, s0) && At(k, s0, job, 1, [], Q.Running(job, 1, Q.Marked), Processing)
    ensures Leads(cfg, o, s) && At(k, s, job, 1, [], Q.Running(job, 1, Q.Summed(k.points)), Processing)
  {
    s := Progressed(cfg, o, job.input.adminDid, s0, SumUp(job.input.adminDid), Q.Summed(k.points));
  }

  lemma PaidThen(k: Books, cfg: Config, o: Sys, job: Q.Job, s0: Sys) returns (s: Sys)
    requires Leads(cfg, o, s0) && At(k, s0, job, 1, [], Q.Running(job, 1, Q.Summed(k.points)), Processing)
    ensures Leads(cfg, o, s) && At(k, s, job, 1, [], Q.Running(job, 1, Q.Settled(k.outcome)), Processing)
  {
    s := Progressed(cfg, o, job.input.adminDid, s0, Transact(job.input.adminDid, k.outcome), Q.Settled(k.outcome));
  }

  lemma Waited(k: Books, cfg: Config, o: Sys, job: Q.Job, s0: Sys, to: int) returns (s: Sys)
    requires Leads(cfg, o, s0) && to >= 1
    requires At(k, s0, job, 1, [], Q.Running(job, 1, Q.Settled(k.outcome)), Processing)
    ensures Leads(cfg, o, s)
    ensures At(k, s, job, to, [], Q.Running(job, 1, Q.Settled(k.outcome)), Processing)
  {
    Reach(cfg, o, s0, Tick(to));
    s := s0.(now := to);
  }

  /** The write is lost. */
  lemma TooLate(k: Books, cfg: Config, o: Sys, job: Q.Job, s0: Sys, now: int) returns (s: Sys)
    requires Leads(cfg, o, s0) && At(k, s0, job, now, [], Q.Running(job, 1, Q.Settled(k.outcome)), Processing)
    ensures Leads(cfg, o, s) && At(k, s, job, now, [], Q.Running(job, 1, Q.Recorded), Processing)
  {
    s := Progressed(cfg, o, job.input.adminDid, s0, Record(job.input.adminDid, false), Q.Recorded);
  }

  lemma ReturnedThen(k: Books, cfg: Config, o: Sys, job: Q.Job, s0: Sys, now: int) returns (s: Sys)
    requires Leads(cfg, o, s0) && At(k, s0, job, now, [], Q.Running(job, 1, Q.Recorded), Processing)
    ensures Leads(cfg, o, s) && At(k, s, job, now, [], Q.Returned(job, 1, now), Processing)
  {
    s := Worked(cfg, o, job.input.adminDid, s0, Q.Return);
  }

  lemma DoneThen(k: Books, cfg: Config, o: Sys, job: Q.Job, s0: Sys, now: int) returns (s: Sys)
    requires Leads(cfg, o, s0) && At(k, s0, job, now, [], Q.Returned(job, 1, now), Processing)
    ensures Leads(cfg, o, s) && Quiet(s) && s.rows == s0.rows
  {
    s := Worked(cfg, o, job.input.adminDid, s0, Q.Stamp);
  }

  lemma Pay(k: Books, cfg: Config, job: Q.Job) returns (s: Sys)
    requires cfg.Valid() && ValidTransfer(cfg, job.input) && Insertable(job) && k.For(job.input)
    requires Leads(cfg, Start(1), Start(1).(activities := k.activities))
    ensures Leads(cfg, Start(1), s) && At(k, s, job, 1, [], Q.Running(job, 1, Q.Settled(k.outcome)), Processing)
  {
    s := Inserted(k, cfg, job);
    s := Obtained(k, cfg, Start(1), job, s);
    s := Accepted(k, cfg, Start(1), job, s);
    s := Taken(k, cfg, Start(1), job, s);
    s := Spaced(k, cfg, Start(1), job, s);
    s := Started(k, cfg, Start(1), job, s);
    s := MarkedThen(k, cfg, Start(1), job, s);
    s := SummedThen(k, cfg, Start(1), job, s);
    s := PaidThen(k, cfg, Start(1), job, s);
  }

  lemma Finish(k: Books, cfg: Config, job: Q.Job, o: Sys, s0: Sys, now: int) returns (s: Sys)
    requires Leads(cfg, o, s0) && At(k, s0, job, now, [], Q.Running(job, 1, Q.Settled(k.outcome)), Processing)
    ensures Leads(cfg, o, s) && Quiet(s) && job.requestId in s.rows && s.rows[job.requestId].status == Processing
  {
    s := TooLate(k, cfg, o, job, s0, now);
    s := ReturnedThen(k, cfg, o, job, s, now);
    s := DoneThen(k, cfg, o, job, s, now);
  }

  /* ------------------------------- a late outcome -------------------------------- */

  /** The request lists an activity that the activities table can hold. */
  predicate Listed(job: Q.Job, i: nat) {
    i < |job.input.activityIds| && |job.input.activityIds[i]| <= ID_WIDTH
  }

  lemma ListedIs(job: Q.Job, i: nat)
    ensures Listed(job, i) <==> i < |job.input.activityIds| && |job.input.activityIds[i]| <= 128
  {
  }

  lemma SumOfOne(admin: string, ids: seq<string>, i: nat)
    requires i < |ids|
    ensures SumPoints(map[(admin, ids[i]) := 5], admin, ids) == 5
  {
    var hits := map[(admin, ids[i]) := 5];
    assert (map k | k in hits && k.0 == admin && k.1 in ids :: hits[k]) == hits;
    SumMapTake(hits, (admin, ids[i]));
    assert hits - {(admin, ids[i])} == map[];
  }

  lemma Known(cfg: Config, s: Sys, admin: string, id: string, points: int)
    requires Leads(cfg, Start(1), s) && 0 <= points <= MAX_INT4
    requires |admin| <= DID_WIDTH && Text.NoNul(admin) && |id| <= ID_WIDTH && Text.NoNul(id)
    ensures Leads(cfg, Start(1), s.(activities := PutActivity(s.activities, admin, id, points)))
  {
    Reach(cfg, Start(1), s, AddActivity(admin, id, points));
  }

  lemma OneKnown(cfg: Config, job: Q.Job, i: nat, o: Q.Outcome) returns (k: Books)
    requires Insertable(job) && Listed(job, i) && (o.Paid? ==> o.points == 5)
    ensures k.For(job.input) && k.outcome == o && Leads(cfg, Start(1), Start(1).(activities := k.activities))
  {
    var admin, id := job.input.adminDid, job.input.activityIds[i];
    k := Books(map[(admin, id) := 5], 5, o);
    SumOfOne(admin, job.input.activityIds, i);
    Stay(cfg, Start(1));
    Known(cfg, Start(1), admin, id, 5);
    assert PutActivity(map[], admin, id, 5) == k.activities;
  }

  lemma LeadsKeepsInv(cfg: Config, s: Sys)
    requires cfg.Valid() && Leads(cfg, Start(1), s)
    ensures LedgerInvariant.Inv(cfg, s)
  {
    var es :| Legal(cfg, Start(1), es) && Exec(cfg, Start(1), es) == s;
    Reachable(cfg, 1, es);
  }

  lemma LeadsOn(cfg: Config, o: Sys, m: Sys, s: Sys)
    requires Leads(cfg, o, m) && Leads(cfg, m, s)
    ensures Leads(cfg, o, s)
  {
    var es :| Legal(cfg, o, es) && Exec(cfg, o, es) == m;
    var fs :| Legal(cfg, m, fs) && Exec(cfg, m, fs) == s;
    Onwards(cfg, o, es, m, fs);
  }

  lemma {:induction false} Onwards(cfg: Config, o: Sys, es: seq<Event>, m: Sys, fs: seq<Event>)
    requires Legal(cfg, o, es) && Exec(cfg, o, es) == m && Legal(cfg, m, fs)
    ensures Leads(cfg, o, Exec(cfg, m, fs))
    decreases |fs|
  {
    if fs == [] {
      assert Legal(cfg, o, es) && Exec(cfg, o, es) == m;
    } else {
      Extend(cfg, o, es, fs[0]);
      Onwards(cfg, o, es + [fs[0]], Apply(cfg, m, fs[0]), fs[1..]);
    }
  }

  /** The clock has moved on before the outcome was written. */
  lemma Overtaken(k: Books, cfg: Config, job: Q.Job, paid: Sys, to: int) returns (s: Sys)
    requires cfg.Valid() && to >= 1 && Leads(cfg, Start(1), paid)
    requires At(k, paid, job, 1, [], Q.Running(job, 1, Q.Settled(k.outcome)), Processing)
    ensures Leads(cfg, paid, s) && At(k, s, job, to, [], Q.Running(job, 1, Q.Settled(k.outcome)), Processing)
    ensures FinalRows.CanBecomeFinal(cfg, s, job.requestId)
            <==> to < 1 + cfg.procTimeout && FinalRows.Fitting(cfg, job, k.outcome)
  {
    Stay(cfg, paid);
    s := Waited(k, cfg, paid, job, paid, to);
    LeadsOn(cfg, Start(1), paid, s);
    LeadsKeepsInv(cfg, s);
    FinalRows.FinalIffInDeadlineAndFitting(cfg, s, job.input.adminDid);
  }

  lemma FiveFit(cfg: Config, job: Q.Job)
    requires Insertable(job) && Text.NoNul(cfg.ftName)
    ensures FinalRows.Fitting(cfg, job, Q.Paid(5, "tx", "sc"))
  {
  }

  /**
   For every valid request that the tables can hold there is a state in which its transfer has just been
   paid, and from there a run to a state where nothing is left to do and the row still says "processing".
   The deadline decides: an instant before start + procTimeout the row can still become final, at
   start + procTimeout it no longer can.
   */
  lemma PaidButProcessing(cfg: Config, job: Q.Job, i: nat) returns (paid: Sys, early: Sys, late: Sys, s: Sys)
    requires cfg.Valid() && ValidTransfer(cfg, job.input) && Insertable(job) && Listed(job, i)
    ensures Leads(cfg, Start(1), paid) && Hands(paid, job.input.adminDid)
    ensures paid.queues[job.input.adminDid].phase == Q.Running(job, 1, Q.Settled(Q.Paid(5, "tx", "sc")))
    ensures Leads(cfg, paid, early) && early.now == cfg.procTimeout
    ensures Text.NoNul(cfg.ftName) ==> FinalRows.CanBecomeFinal(cfg, early, job.requestId)
    ensures Leads(cfg, paid, late) && late.now == 1 + cfg.procTimeout
    ensures !FinalRows.CanBecomeFinal(cfg, late, job.requestId)
    ensures Leads(cfg, paid, s) && Quiet(s) && job.requestId in s.rows && s.rows[job.requestId].status == Processing
  {
    var k := OneKnown(cfg, job, i, Q.Paid(5, "tx", "sc"));
    paid := Pay(k, cfg, job);
    Stay(cfg, paid);
    early := Overtaken(k, cfg, job, paid, cfg.procTimeout);
    late := Overtaken(k, cfg, job, paid, 1 + cfg.procTimeout);
    if Text.NoNul(cfg.ftName) {
      FiveFit(cfg, job);
    }
    s := Finish(k, cfg, job, paid, late, 1 + cfg.procTimeout);
  }

  /* --------------------------- an outcome that does not fit ----------------------- */

  /** The job of this request has just ended in this way, within its deadline. */
  predicate JustEnded(cfg: Config, s: Sys, job: Q.Job, o: Q.Outcome) {
    && FinalRows.Settled(s, job.input.adminDid) && InDeadline(cfg, s, job.input.adminDid)
    && s.queues[job.input.adminDid].phase.job == job && s.queues[job.input.adminDid].phase.stage.outcome == o
  }

  lemma JustEndedIs(cfg: Config, s: Sys, job: Q.Job, o: Q.Outcome)
    requires JustEnded(cfg, s, job, o)
    ensures var a := job.input.adminDid;
            && a in s.queues && s.queues[a].phase.Running?
            && s.queues[a].phase == Q.Running(job, s.queues[a].phase.start, Q.Settled(o))
            && s.now < s.queues[a].phase.start + cfg.procTimeout
  {
  }

  lemma Unfitting(k: Books, cfg: Config, job: Q.Job) returns (ended: Sys, s: Sys)
    requires cfg.Valid() && ValidTransfer(cfg, job.input) && Insertable(job) && k.For(job.input)
    requires Leads(cfg, Start(1), Start(1).(activities := k.activities))
    requires !FinalRows.Fitting(cfg, job, k.outcome)
    ensures Leads(cfg, Start(1), ended) && JustEnded(cfg, ended, job, k.outcome)
    ensures !FinalRows.CanBecomeFinal(cfg, ended, job.requestId)
    ensures Leads(cfg, ended, s) && Quiet(s) && job.requestId in s.rows && s.rows[job.requestId].status == Processing
  {
    ended := Pay(k, cfg, job);
    Stay(cfg, ended);
    LeadsKeepsInv(cfg, ended);
    FinalRows.UnfittingNeverFinal(cfg, ended, job.input.adminDid);
    s := Finish(k, cfg, job, ended, ended, 1);
  }

  /**
   Whatever the outcome, if its columns do not take it: every valid request that the tables can hold can end
   in it, within the deadline and on a healthy database, and no continuation makes its row final.
   */
  lemma UnfittingOutcomeStaysProcessing(cfg: Config, job: Q.Job, i: nat, o: Q.Outcome) returns (ended: Sys, s: Sys)
    requires cfg.Valid() && ValidTransfer(cfg, job.input) && Insertable(job) && Listed(job, i)
    requires !FinalRows.Fitting(cfg, job, o) && (o.Paid? ==> o.points == 5)
    ensures Leads(cfg, Start(1), ended) && JustEnded(cfg, ended, job, o)
    ensures !FinalRows.CanBecomeFinal(cfg, ended, job.requestId)
    ensures Leads(cfg, ended, s) && Quiet(s) && job.requestId in s.rows && s.rows[job.requestId].status == Processing
  {
    var k := OneKnown(cfg, job, i, o);
    ended, s := Unfitting(k, cfg, job);
  }

  /** A payment whose transaction id has 129 characters. */
  lemma LongTransactionIdStaysProcessing(cfg: Config, job: Q.Job, i: nat, tx: string) returns (ended: Sys, s: Sys)
    requires cfg.Valid() && ValidTransfer(cfg, job.input) && Insertable(job) && Listed(job, i)
    requires |tx| == ID_WIDTH + 1 && tx[ID_WIDTH] != ' '
    ensures Leads(cfg, Start(1), ended) && JustEnded(cfg, ended, job, Q.Paid(5, tx, "sc"))
    ensures !FinalRows.CanBecomeFinal(cfg, ended, job.requestId)
    ensures Leads(cfg, ended, s) && Quiet(s) && job.requestId in s.rows && s.rows[job.requestId].status == Processing
  {
    FinalRows.NotFitting(cfg, job, 5, tx, "sc", "");
    ended, s := UnfittingOutcomeStaysProcessing(cfg, job, i, Q.Paid(5, tx, "sc"));
  }

  /** A failure whose text holds the zero character, or is no UTF-8 at all. */
  lemma UnprintableFailureStaysProcessing(cfg: Config, job: Q.Job, i: nat, o: Q.Outcome) returns (ended: Sys, s: Sys)
    requires cfg.Valid() && ValidTransfer(cfg, job.input) && Insertable(job) && Listed(job, i)
    requires o.Garbled? || (o.Broken? && '\0' in o.reason)
    ensures Leads(cfg, Start(1), ended) && JustEnded(cfg, ended, job, o)
    ensures !FinalRows.CanBecomeFinal(cfg, ended, job.requestId)
    ensures Leads(cfg, ended, s) && Quiet(s) && job.requestId in s.rows && s.rows[job.requestId].status == Processing
  {
    ended, s := UnfittingOutcomeStaysProcessing(cfg, job, i, o);
  }

  /** Two activities at the limit of the points column. */
  function Largest(admin: string, i: string, j: string): Activities {
    map[(admin, i) := MAX_INT4, (admin, j) := MAX_INT4]
  }

  lemma SumOfTwo(admin: string, i: string, j: string)
    requires i != j
    ensures SumPoints(Largest(admin, i, j), admin, [i, j]) == 2 * MAX_INT4
  {
    var hits := Largest(admin, i, j);
    assert (map k | k in hits && k.0 == admin && k.1 in [i, j] :: hits[k]) == hits;
    SumMapTake(hits, (admin, i));
    assert hits - {(admin, i)} == map[(admin, j) := MAX_INT4];
    SumMapTake(map[(admin, j) := MAX_INT4], (admin, j));
    assert map[(admin, j) := MAX_INT4] - {(admin, j)} == map[];
  }

  lemma TwoKnown(cfg: Config, admin: string, i: string, j: string)
    requires i != j && |admin| <= DID_WIDTH && Text.NoNul(admin)
    requires |i| <= ID_WIDTH && Text.NoNul(i) && |j| <= ID_WIDTH && Text.NoNul(j)
    ensures Leads(cfg, Start(1), Start(1).(activities := Largest(admin, i, j)))
  {
    Stay(cfg, Start(1));
    Known(cfg, Start(1), admin, i, MAX_INT4);
    var s := Start(1).(activities := PutActivity(map[], admin, i, MAX_INT4));
    Known(cfg, s, admin, j, MAX_INT4);
    assert PutActivity(s.activities, admin, j, MAX_INT4) == Largest(admin, i, j);
  }

  lemma LargestBooks(cfg: Config, job: Q.Job) returns (k: Books)
    requires Insertable(job) && Listed(job, 0) && Listed(job, 1)
    requires |job.input.activityIds| == 2 && job.input.activityIds[0] != job.input.activityIds[1]
    ensures k.For(job.input) && k.outcome == Q.Paid(2 * MAX_INT4, "tx", "sc") && !FinalRows.Fitting(cfg, job, k.outcome)
    ensures Leads(cfg, Start(1), Start(1).(activities := k.activities))
  {
    var admin, ids := job.input.adminDid, job.input.activityIds;
    k := Books(Largest(admin, ids[0], ids[1]), 2 * MAX_INT4, Q.Paid(2 * MAX_INT4, "tx", "sc"));
    TwoKnown(cfg, admin, ids[0], ids[1]);
    SumOfTwo(admin, ids[0], ids[1]);
    assert ids == [ids[0], ids[1]];
  }

  /** A payment for two activities of 2147483647 points each. */
  lemma OversizedPaymentStaysProcessing(cfg: Config, job: Q.Job) returns (ended: Sys, s: Sys)
    requires cfg.Valid() && ValidTransfer(cfg, job.input) && Insertable(job) && Listed(job, 0) && Listed(job, 1)
    requires |job.input.activityIds| == 2 && job.input.activityIds[0] != job.input.activityIds[1]
    ensures Leads(cfg, Start(1), ended) && JustEnded(cfg, ended, job, Q.Paid(2 * MAX_INT4, "tx", "sc"))
    ensures !FinalRows.CanBecomeFinal(cfg, ended, job.requestId)
    ensures Leads(cfg, ended, s) && Quiet(s) && job.requestId in s.rows && s.rows[job.requestId].status == Processing
  {
    var k := LargestBooks(cfg, job);
    ended, s := Unfitting(k, cfg, job);
  }
}
