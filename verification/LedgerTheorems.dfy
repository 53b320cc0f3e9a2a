/** What the invariant means for callers: places, statuses, order of statuses, points and totals. */
module LedgerTheorems {
  import opened Basics
  import opened Ledger
  import opened PayoutSystem
  import opened LedgerInvariant
  import Q = PayoutQueue

  lemma Reachable(cfg: Config, now: int, es: seq<Event>)
    requires cfg.Valid() && now > 0 && Legal(cfg, Start(now), es)
    ensures Inv(cfg, Exec(cfg, Start(now), es))
  {
    StartInv(cfg, now);
    InvExec(cfg, Start(now), es);
  }

  /* ------------------------------ where a job is ------------------------------- */

  predicate ChannelHolds(s: Sys, a: string, i: int, r: RequestId) {
    a in s.queues && 0 <= i < |s.queues[a].channel| && s.queues[a].channel[i].requestId == r
  }

  predicate WorkerHolds(s: Sys, a: string, r: RequestId) {
    a in s.queues && Busy(s, a, r)
  }

  lemma ChannelSlot(cfg: Config, s: Sys, a: string, i: int, r: RequestId)
    requires QueuesOk(cfg, s) && SlotsOk(s) && ChannelHolds(s, a, i, r)
    ensures r in s.slot && r !in s.handlers
    ensures s.slot[r] == (a, |s.queues[a].runs| + |Q.Hand(s.queues[a].phase)| + i)
    ensures PlaceOf(s, r) == InChannel
  {
    assert QueueOk(cfg, s, a);
    var q := s.queues[a];
    assert q.accepted[|q.runs| + |Q.Hand(q.phase)| + i] == q.channel[i];
  }

  lemma WorkerSlot(cfg: Config, s: Sys, a: string, r: RequestId)
    requires QueuesOk(cfg, s) && SlotsOk(s) && WorkerHolds(s, a, r)
    ensures r in s.slot && r !in s.handlers && s.slot[r] == (a, |s.queues[a].runs|)
    ensures PlaceOf(s, r) == WithWorker(s.queues[a].phase)
  {
    HandSlot(cfg, s, a);
  }

  /** A request the invariant places in a channel or with a worker is really there. */
  lemma PlaceHolds(cfg: Config, s: Sys, r: RequestId)
    requires QueuesOk(cfg, s) && SlotsOk(s) && r in s.slot
    ensures var (a, k) := s.slot[r];
            && a in s.queues
            && (PlaceOf(s, r).InChannel? ==>
                  ChannelHolds(s, a, k - |s.queues[a].runs| - |Q.Hand(s.queues[a].phase)|, r))
            && (PlaceOf(s, r).WithWorker? ==> WorkerHolds(s, a, r))
  {
    assert QueueOk(cfg, s, s.slot[r].0);
  }

  /** The three places a queued job can be in. */
  ghost predicate OnlyAtHandler(s: Sys, r: RequestId) {
    r in s.handlers && (forall a, i :: !ChannelHolds(s, a, i, r)) && (forall a :: !WorkerHolds(s, a, r))
  }

  ghost predicate OnlyInChannel(s: Sys, r: RequestId, a: string, i: int) {
    && r !in s.handlers && ChannelHolds(s, a, i, r)
    && (forall b, j :: ChannelHolds(s, b, j, r) ==> b == a && j == i) && (forall b :: !WorkerHolds(s, b, r))
  }

  ghost predicate OnlyWithWorker(s: Sys, r: RequestId, a: string) {
    && r !in s.handlers && WorkerHolds(s, a, r)
    && (forall b, j :: !ChannelHolds(s, b, j, r)) && (forall b :: WorkerHolds(s, b, r) ==> b == a)
  }

  lemma OnePlace(cfg: Config, s: Sys, r: RequestId)
    requires QueuesOk(cfg, s) && SlotsOk(s)
    ensures PlaceOf(s, r).AtHandler? ==> OnlyAtHandler(s, r)
    ensures PlaceOf(s, r).InChannel? ==> exists a, i :: OnlyInChannel(s, r, a, i)
    ensures PlaceOf(s, r).WithWorker? ==>
              exists a :: OnlyWithWorker(s, r, a) && PlaceOf(s, r).phase == s.queues[a].phase
  {
    forall a, i | ChannelHolds(s, a, i, r)
      ensures r in s.slot && r !in s.handlers && PlaceOf(s, r).InChannel?
      ensures s.slot[r] == (a, |s.queues[a].runs| + |Q.Hand(s.queues[a].phase)| + i)
    {
      ChannelSlot(cfg, s, a, i, r);
    }
    forall a | WorkerHolds(s, a, r)
      ensures r in s.slot && r !in s.handlers && PlaceOf(s, r).WithWorker? && s.slot[r] == (a, |s.queues[a].runs|)
    {
      WorkerSlot(cfg, s, a, r);
    }
    if r !in s.handlers && r in s.slot {
      PlaceHolds(cfg, s, r);
      var (a, k) := s.slot[r];
      if PlaceOf(s, r).InChannel? {
        assert OnlyInChannel(s, r, a, k - |s.queues[a].runs| - |Q.Hand(s.queues[a].phase)|);
      } else if PlaceOf(s, r).WithWorker? {
        assert OnlyWithWorker(s, r, a);
      }
    }
  }

  /**
   As long as no write of this row was lost: it is queued exactly if its job is in one place, namely its
   handler, one position of one channel, or one worker that has not marked it yet; and it is processing
   exactly if one worker is running its job between the two writes.
   */
  lemma StatusTellsPlace(cfg: Config, now: int, es: seq<Event>, r: RequestId)
    requires cfg.Valid() && now > 0 && Legal(cfg, Start(now), es)
    requires var s := Exec(cfg, Start(now), es); r in s.rows && r !in s.lost && r !in s.unmarked
    ensures var s := Exec(cfg, Start(now), es);
            && (s.rows[r].status == Queued <==>
                  OnlyAtHandler(s, r) || (exists a, i :: OnlyInChannel(s, r, a, i))
                  || exists a :: OnlyWithWorker(s, r, a) && PhaseProgress(s.queues[a].phase) == Waiting)
            && (s.rows[r].status == Processing <==>
                  exists a :: OnlyWithWorker(s, r, a) && PhaseProgress(s.queues[a].phase) == Underway)
  {
    Reachable(cfg, now, es);
    var s := Exec(cfg, Start(now), es);
    assert RowOk(s, r);
    OnePlace(cfg, s, r);
    StatusTellsPlaceNow(cfg, s, r);
  }

  lemma StatusTellsPlaceNow(cfg: Config, s: Sys, r: RequestId)
    requires QueuesOk(cfg, s) && SlotsOk(s) && r in s.rows && RowOk(s, r) && r !in s.lost && r !in s.unmarked
    ensures OnlyAtHandler(s, r) ==> s.rows[r].status == Queued
    ensures forall a, i :: OnlyInChannel(s, r, a, i) ==> s.rows[r].status == Queued
    ensures forall a :: OnlyWithWorker(s, r, a) && PhaseProgress(s.queues[a].phase) == Waiting ==>
              s.rows[r].status == Queued
    ensures forall a :: OnlyWithWorker(s, r, a) && PhaseProgress(s.queues[a].phase) == Underway ==>
              s.rows[r].status == Processing
  {
    forall a, i | OnlyInChannel(s, r, a, i) ensures s.rows[r].status == Queued {
      ChannelSlot(cfg, s, a, i, r);
    }
    forall a | OnlyWithWorker(s, r, a)
      ensures PhaseProgress(s.queues[a].phase) == Waiting ==> s.rows[r].status == Queued
      ensures PhaseProgress(s.queues[a].phase) == Underway ==> s.rows[r].status == Processing
    {
      WorkerSlot(cfg, s, a, r);
    }
  }

  /* ------------------------------- when all is quiet ---------------------------- */

  predicate Quiet(s: Sys) {
    s.handlers == map[] && forall a :: a in s.queues ==> s.queues[a].phase.Idle? && s.queues[a].channel == []
  }

  /** Once handlers and workers are idle and channels empty, a row is final exactly if its last write was not lost. */
  lemma QuietMeansFinal(cfg: Config, now: int, es: seq<Event>, r: RequestId)
    requires cfg.Valid() && now > 0 && Legal(cfg, Start(now), es)
    requires var s := Exec(cfg, Start(now), es); Quiet(s) && r in s.rows
    ensures var s := Exec(cfg, Start(now), es); Terminal(s.rows[r].status) <==> r !in s.lost
  {
    Reachable(cfg, now, es);
    var s := Exec(cfg, Start(now), es);
    assert RowOk(s, r);
    if r in s.slot {
      HandSlot(cfg, s, s.slot[r].0);
    }
  }

  /* -------------------------- rows only move forward --------------------------- */

  /** Which events can touch a row. */
  lemma RowTouched(cfg: Config, s: Sys, e: Event, r: RequestId)
    requires Enabled(cfg, s, e) && r in s.rows && SlotsOk(s) && HandlersOk(s) && s.rows.Keys <= s.issued
    ensures r in Apply(cfg, s, e).rows
    ensures Apply(cfg, s, e).rows[r] != s.rows[r] ==>
              (e.Compensate? && e.req == r) || ((e.Mark? || e.Record?) && e.admin in s.queues && Busy(s, e.admin, r))
  {
    if Moves(e) {
      WorkKeys(cfg, s, e);
      if e.Mark? || e.Record? {
        if !Busy(s, e.admin, r) {
          WorkBooks(cfg, s, e, r);
        }
      }
    } else if e.Compensate? {
      StoredKeys(s, e.req, MarkRefused(QUEUE_FULL), e.applied);
      if e.req != r {
        StoredElsewhere(s, e.req, MarkRefused(QUEUE_FULL), e.applied, r);
      }
    }
  }

  /** What a write that took effect leaves is no earlier status than what was there. */
  lemma TouchedMovesForward(cfg: Config, s: Sys, e: Event, r: RequestId)
    requires QueuesOk(cfg, s) && SlotsOk(s) && r in s.rows && RowOk(s, r) && Enabled(cfg, s, e)
             && r in Apply(cfg, s, e).rows
    requires (e.Compensate? && e.req == r) || ((e.Mark? || e.Record?) && e.admin in s.queues && Busy(s, e.admin, r))
    ensures Rank(s.rows[r].status) <= Rank(Apply(cfg, s, e).rows[r].status)
  {
    TouchedIsOpen(cfg, s, e, r);
    if e.Record? && e.applied {
      var job, o := s.queues[e.admin].phase.job, s.queues[e.admin].phase.stage.outcome;
      RecordStored(cfg, s, r, job, o);
      RecordedRowFields(cfg, s.rows[r], job, o, s.now);
    }
  }

  /** A step never moves a status back and never touches a row that is final or whose last write was lost. */
  lemma ForwardStep(cfg: Config, s: Sys, e: Event, r: RequestId)
    requires QueuesOk(cfg, s) && SlotsOk(s) && HandlersOk(s) && s.rows.Keys <= s.issued
    requires r in s.rows && RowOk(s, r) && Enabled(cfg, s, e)
    ensures var t := Apply(cfg, s, e);
            && r in t.rows && Rank(s.rows[r].status) <= Rank(t.rows[r].status)
            && (s.rows[r].status != Queued ==> t.rows[r].status != Queued)
            && (s.rows[r].status in {Success, Failed} || r in s.lost ==> t.rows[r] == s.rows[r])
  {
    RowTouched(cfg, s, e, r);
    if Apply(cfg, s, e).rows[r] != s.rows[r] {
      TouchedIsOpen(cfg, s, e, r);
      TouchedMovesForward(cfg, s, e, r);
    }
  }

  lemma LostGrows(cfg: Config, s: Sys, e: Event)
    requires Enabled(cfg, s, e)
    ensures s.lost <= Apply(cfg, s, e).lost
  {
  }

  /** A row that is written is still open: its job waits or is underway, and no write of it was lost. */
  lemma TouchedIsOpen(cfg: Config, s: Sys, e: Event, r: RequestId)
    requires QueuesOk(cfg, s) && SlotsOk(s) && r in s.rows && RowOk(s, r) && Enabled(cfg, s, e)
    requires (e.Compensate? && e.req == r) || ((e.Mark? || e.Record?) && e.admin in s.queues && Busy(s, e.admin, r))
    ensures !Terminal(s.rows[r].status) && r !in s.lost
    ensures e.Compensate? || e.Mark? ==> s.rows[r].status == Queued
    ensures e.Record? ==> s.rows[r].status == Queued || s.rows[r].status == Processing
  {
    if !e.Compensate? {
      WorkerSlot(cfg, s, e.admin, r);
    }
  }

  /**
   Under every interleaving, and whichever writes are lost, a row only moves forward through queued,
   processing, success or failed; a final row never changes again; nor does a row whose last write was lost.
   */
  lemma {:induction false} RowsOnlyMoveForward(cfg: Config, s: Sys, es: seq<Event>, r: RequestId)
    requires Inv(cfg, s) && Legal(cfg, s, es) && r in s.rows
    ensures var t := Exec(cfg, s, es);
            && r in t.rows && Rank(s.rows[r].status) <= Rank(t.rows[r].status)
            && (s.rows[r].status != Queued ==> t.rows[r].status != Queued)
            && (s.rows[r].status in {Success, Failed} || r in s.lost ==> t.rows[r] == s.rows[r])
    decreases |es|
  {
    if es != [] {
      assert RowOk(s, r);
      ForwardStep(cfg, s, es[0], r);
      LostGrows(cfg, s, es[0]);
      InvStep(cfg, s, es[0]);
      RowsOnlyMoveForward(cfg, Apply(cfg, s, es[0]), es[1..], r);
    }
  }

  /* ---------------------------- each job at most once --------------------------- */

  /** No request is accepted twice anywhere, so no job starts twice; starts follow the order of acceptance. */
  lemma StartedAtMostOnce(cfg: Config, now: int, es: seq<Event>, a: string, i: nat, b: string, j: nat)
    requires cfg.Valid() && now > 0 && Legal(cfg, Start(now), es)
    requires var s := Exec(cfg, Start(now), es);
             a in s.queues && b in s.queues && i < |Q.StartedJobs(s.queues[a])| && j < |Q.StartedJobs(s.queues[b])|
    ensures var s := Exec(cfg, Start(now), es);
            Q.StartedJobs(s.queues[a])[i].requestId == Q.StartedJobs(s.queues[b])[j].requestId ==> a == b && i == j
  {
    Reachable(cfg, now, es);
    var s := Exec(cfg, Start(now), es);
    assert QueueOk(cfg, s, a) && QueueOk(cfg, s, b);
    assert Q.StartedJobs(s.queues[a])[i] == s.queues[a].accepted[i];
    assert Q.StartedJobs(s.queues[b])[j] == s.queues[b].accepted[j];
  }

  lemma RefusedGrows(cfg: Config, s: Sys, e: Event, a: string)
    requires Enabled(cfg, s, e) && a in s.queues
    ensures a in Apply(cfg, s, e).queues && s.queues[a].refused <= Apply(cfg, s, e).queues[a].refused
  {
    if Moves(e) {
      WorkMovesOne(cfg, s, e);
    } else if e.Send? {
      SendRefuses(cfg, s, e.req, a);
    }
  }

  lemma SendRefuses(cfg: Config, s: Sys, req: RequestId, a: string)
    requires Enabled(cfg, s, Send(req)) && a in s.queues
    ensures a in AfterSend(cfg, s, req).queues && s.queues[a].refused <= AfterSend(cfg, s, req).queues[a].refused
  {
    if a != s.handlers[req].job.input.adminDid {
      assert AfterSend(cfg, s, req).queues[a] == s.queues[a];
    }
  }

  lemma {:induction false} RefusedStays(cfg: Config, s: Sys, es: seq<Event>, a: string)
    requires Legal(cfg, s, es) && a in s.queues
    ensures a in Exec(cfg, s, es).queues && s.queues[a].refused <= Exec(cfg, s, es).queues[a].refused
    decreases |es|
  {
    if es != [] {
      RefusedGrows(cfg, s, es[0], a);
      RefusedStays(cfg, Apply(cfg, s, es[0]), es[1..], a);
    }
  }

  /** A refused job is never in any queue afterwards, so no worker ever touches it. */
  lemma RefusedNeverRuns(cfg: Config, s: Sys, es: seq<Event>, a: string, j: nat, b: string, k: nat)
    requires Inv(cfg, s) && Legal(cfg, s, es) && a in s.queues && j < |s.queues[a].refused|
    requires var t := Exec(cfg, s, es); b in t.queues && k < |t.queues[b].accepted|
    ensures Exec(cfg, s, es).queues[b].accepted[k].requestId != s.queues[a].refused[j].requestId
  {
    InvExec(cfg, s, es);
    RefusedStays(cfg, s, es, a);
    var t := Exec(cfg, s, es);
    assert t.queues[a].refused[j] == s.queues[a].refused[j];
    assert t.queues[b].accepted[k].requestId in t.slot;
  }

  /* ------------------------------- points and totals ---------------------------- */

  /** A success row carries the positive sum over its distinct activities, as the table stood when it was summed. */
  lemma SuccessPointsAreTheSum(cfg: Config, now: int, es: seq<Event>, r: RequestId)
    requires cfg.Valid() && now > 0 && Legal(cfg, Start(now), es)
    requires var s := Exec(cfg, Start(now), es); r in s.rows && s.rows[r].status == Success
    ensures var s := Exec(cfg, Start(now), es);
            && r in s.sums && s.rows[r].rewardPoints > 0
            && s.rows[r].rewardPoints == SumListed(s.sums[r], s.rows[r].adminDid, s.rows[r].activityIds)
  {
    Reachable(cfg, now, es);
    var s := Exec(cfg, Start(now), es);
    assert RowOk(s, r);
    SumPointsIsSumListed(s.sums[r], s.rows[r].adminDid, s.rows[r].activityIds);
  }

  lemma TotalStep(cfg: Config, s: Sys, e: Event, user: string, admin: string)
    requires Inv(cfg, s) && Enabled(cfg, s, e)
    ensures UserTotal(s.rows, user, admin) <= UserTotal(Apply(cfg, s, e).rows, user, admin)
  {
    var t := Apply(cfg, s, e);
    InvStep(cfg, s, e);
    var small, big := SuccessPoints(s.rows, user, admin), SuccessPoints(t.rows, user, admin);
    forall r | r in small ensures r in big && big[r] == small[r] {
      assert RowOk(s, r);
      ForwardStep(cfg, s, e, r);
    }
    forall r | r in big ensures big[r] >= 0 {
      assert RowOk(t, r);
    }
    SumMapMonotone(small, big);
  }

  /** What a user is reported to have received from an admin never decreases over any run. */
  lemma {:induction false} TotalsNeverDecrease(cfg: Config, s: Sys, es: seq<Event>, user: string, admin: string)
    requires Inv(cfg, s) && Legal(cfg, s, es)
    ensures UserTotal(s.rows, user, admin) <= UserTotal(Exec(cfg, s, es).rows, user, admin)
    decreases |es|
  {
    if es != [] {
      TotalStep(cfg, s, es[0], user, admin);
      InvStep(cfg, s, es[0]);
      TotalsNeverDecrease(cfg, Apply(cfg, s, es[0]), es[1..], user, admin);
    }
  }

  /** The successes the workers recorded for one user and one admin. */
  function PaidTo(s: Sys, user: string, admin: string): map<RequestId, int> {
    map r | r in s.paid && r in s.rows && s.rows[r].userDid == user && s.rows[r].adminDid == admin :: s.paid[r]
  }

  /** The report adds up exactly the successes the workers recorded for that user and admin. */
  lemma TotalIsWhatWasPaid(cfg: Config, now: int, es: seq<Event>, user: string, admin: string)
    requires cfg.Valid() && now > 0 && Legal(cfg, Start(now), es)
    ensures var s := Exec(cfg, Start(now), es); UserTotal(s.rows, user, admin) == SumMap(PaidTo(s, user, admin))
  {
    Reachable(cfg, now, es);
    ReportedIsPaid(Exec(cfg, Start(now), es), user, admin);
  }

  lemma ReportedIsPaid(s: Sys, user: string, admin: string)
    requires RowsOk(s)
    ensures SuccessPoints(s.rows, user, admin) == PaidTo(s, user, admin)
  {
    forall r | r in s.rows
      ensures r in SuccessPoints(s.rows, user, admin) <==> r in PaidTo(s, user, admin)
      ensures r in PaidTo(s, user, admin) ==> SuccessPoints(s.rows, user, admin)[r] == PaidTo(s, user, admin)[r]
    {
      assert RowOk(s, r);
    }
  }

  /** Runs are built event by event. */
  lemma RunIs(cfg: Config, s: Sys, e: Event, es: seq<Event>)
    ensures Legal(cfg, s, []) && Exec(cfg, s, []) == s
    ensures Legal(cfg, s, [e] + es) <==> Enabled(cfg, s, e) && Legal(cfg, Apply(cfg, s, e), es)
    ensures Legal(cfg, s, [e] + es) ==> Exec(cfg, s, [e] + es) == Exec(cfg, Apply(cfg, s, e), es)
  {
    assert ([e] + es)[1..] == es;
  }

  /** Every valid request with a new id may arrive, its insert done, lost or misreported; what does not fit is lost. */
  lemma RequestsArrive(cfg: Config, s: Sys, job: Q.Job, stored: bool, reported: bool)
    ensures Enabled(cfg, s, CreateRow(job, stored, reported))
            <==> && job.requestId !in s.issued && ValidTransfer(cfg, job.input)
                 && (reported ==> stored) && (stored ==> Insertable(job))
  {
  }

  /** Every handler can go on, whether or not its write takes effect. */
  lemma HandlersGoOn(cfg: Config, s: Sys, req: RequestId, applied: bool)
    requires HandlersOk(s) && req in s.handlers
    ensures match s.handlers[req]
            case Created(_) => Enabled(cfg, s, ObtainQueue(req))
            case Sending(_) => Enabled(cfg, s, Send(req))
            case Compensating(_) => Enabled(cfg, s, Compensate(req, applied))
  {
  }

  /** So can every worker that has something to do. */
  lemma WorkersGoOn(cfg: Config, s: Sys, a: string)
    requires a in s.queues
    ensures match s.queues[a].phase
            case Idle => s.queues[a].channel != [] ==> Enabled(cfg, s, Worker(a, Q.Receive))
            case Held(_) => Enabled(cfg, s, Worker(a, Q.CheckSpacing))
            case Sleeping(_, until) => until <= s.now ==> Enabled(cfg, s, Worker(a, Q.Wake))
            case Ready(_) => Enabled(cfg, s, Worker(a, Q.Start))
            case Returned(_, _, _) => Enabled(cfg, s, Worker(a, Q.Stamp))
            case Running(_, _, stage) => stage.Recorded? ==> Enabled(cfg, s, Worker(a, Q.Return))
  {
  }

  /** And a job under way, at whatever stage, with any outcome; its writes may be lost at any time. */
  lemma JobsGoOn(cfg: Config, s: Sys, a: string, reason: string, tx: string, hash: string)
    requires a in s.queues && s.queues[a].phase.Running?
    ensures match s.queues[a].phase.stage
            case Starting =>
              && Enabled(cfg, s, Mark(a, false))
              && (Enabled(cfg, s, Mark(a, true)) <==> s.now < s.queues[a].phase.start + cfg.procTimeout)
            case Marked => Enabled(cfg, s, LookUpFails(a, reason)) && Enabled(cfg, s, SumUp(a))
            case Summed(points) =>
              && Enabled(cfg, s, Transact(a, Q.Paid(points, tx, hash)))
              && Enabled(cfg, s, Transact(a, Q.Broken(reason))) && Enabled(cfg, s, Transact(a, Q.Garbled))
            case Settled(_) => Enabled(cfg, s, Record(a, false))
            case Recorded => true
  {
  }

  /** A send in the whole system: with room in its admin's channel the job goes last into it. */
  lemma SendAccepted(cfg: Config, s: Sys, req: RequestId)
    requires Enabled(cfg, s, Send(req)) && |s.queues[s.handlers[req].job.input.adminDid].channel| < cfg.capacity
    ensures var job, t := s.handlers[req].job, Apply(cfg, s, Send(req));
            var a := job.input.adminDid;
            && req !in t.handlers && a in t.queues && t.queues == s.queues[a := t.queues[a]]
            && t.queues[a].channel == s.queues[a].channel + [job] && t.queues[a].refused == s.queues[a].refused
  {
  }

  /** Without room it is refused, and no channel changes. */
  lemma SendRefused(cfg: Config, s: Sys, req: RequestId)
    requires Enabled(cfg, s, Send(req)) && |s.queues[s.handlers[req].job.input.adminDid].channel| >= cfg.capacity
    ensures var job, t := s.handlers[req].job, Apply(cfg, s, Send(req));
            var a := job.input.adminDid;
            && t.handlers == s.handlers[req := Compensating(job)]
            && t.queues == s.queues[a := s.queues[a].(refused := s.queues[a].refused + [job])]
  {
  }

  /* -------------------- per-admin guarantees inside the whole system ------------- */

  /** An admin's queue in any reachable state is one that a run of its own machine leads to. */
  lemma SoloQueue(cfg: Config, now: int, es: seq<Event>, a: string) returns (solo: seq<Q.Event>)
    requires cfg.Valid() && now > 0 && Legal(cfg, Start(now), es) && a in Exec(cfg, Start(now), es).queues
    ensures cfg.For(a).Valid() && Q.Legal(cfg.For(a), Q.View(now, Q.EMPTY), solo)
    ensures Q.Exec(cfg.For(a), Q.View(now, Q.EMPTY), solo).queue == Exec(cfg, Start(now), es).queues[a]
  {
    solo := Project(cfg, Start(now), es, a);
    ProjectionIsSoloRun(cfg, Start(now), es, a);
  }

  lemma QueueInOrder(c: Q.Settings, now: int, es: seq<Q.Event>, q: Q.Queue)
    requires c.Valid() && now > 0 && Q.Legal(c, Q.View(now, Q.EMPTY), es)
    requires q == Q.Exec(c, Q.View(now, Q.EMPTY), es).queue
    ensures |q.accepted| == |q.runs| + (if q.phase.Idle? then 0 else 1) + |q.channel|
    ensures forall k :: 0 <= k < |q.runs| ==> q.runs[k].job == q.accepted[k]
    ensures !q.phase.Idle? ==> q.phase.job == q.accepted[|q.runs|]
    ensures q.accepted[|q.accepted| - |q.channel|..] == q.channel
    ensures |q.accepted| - |q.runs| - (if q.phase.Running? || q.phase.Returned? then 1 else 0) <= c.capacity + 1
  {
    Q.FreshInv(c, now);
    Q.InvExec(c, Q.View(now, Q.EMPTY), es);
  }

  lemma QueueSpaced(c: Q.Settings, now: int, es: seq<Q.Event>, q: Q.Queue)
    requires c.Valid() && now > 0 && Q.Legal(c, Q.View(now, Q.EMPTY), es)
    requires q == Q.Exec(c, Q.View(now, Q.EMPTY), es).queue
    ensures forall k :: 0 < k < |q.runs| ==> q.runs[k - 1].end + c.interval <= q.runs[k].start <= q.runs[k].end
    ensures (q.phase.Running? || q.phase.Returned?) && q.runs != [] ==>
              q.runs[|q.runs| - 1].end + c.interval <= q.phase.start
  {
    Q.FreshInv(c, now);
    Q.InvExec(c, Q.View(now, Q.EMPTY), es);
  }

  /**
   Whatever the handlers, the database and the other admins do, an admin's jobs are accepted, started and
   finished in one order, and at most capacity + 1 accepted jobs have not started.
   */
  lemma EveryAdminIsServedInOrder(cfg: Config, now: int, es: seq<Event>, a: string, q: Q.Queue)
    requires cfg.Valid() && now > 0 && Legal(cfg, Start(now), es)
    requires a in Exec(cfg, Start(now), es).queues && q == Exec(cfg, Start(now), es).queues[a]
    ensures |q.accepted| == |q.runs| + (if q.phase.Idle? then 0 else 1) + |q.channel|
    ensures forall k :: 0 <= k < |q.runs| ==> q.runs[k].job == q.accepted[k]
    ensures !q.phase.Idle? ==> q.phase.job == q.accepted[|q.runs|]
    ensures q.accepted[|q.accepted| - |q.channel|..] == q.channel
    ensures |q.accepted| - |q.runs| - (if q.phase.Running? || q.phase.Returned? then 1 else 0) <= cfg.capacity + 1
  {
    var solo := SoloQueue(cfg, now, es, a);
    QueueInOrder(cfg.For(a), now, solo, q);
  }

  /** After each job passes the admin's own interval, or the common one if it has none, before the next starts. */
  lemma EveryAdminIsSpaced(cfg: Config, now: int, es: seq<Event>, a: string, q: Q.Queue, interval: int)
    requires cfg.Valid() && now > 0 && Legal(cfg, Start(now), es)
    requires a in Exec(cfg, Start(now), es).queues && q == Exec(cfg, Start(now), es).queues[a]
    requires interval == if a in cfg.overrides then cfg.overrides[a] else cfg.minInterval
    ensures forall k :: 0 < k < |q.runs| ==> q.runs[k - 1].end + interval <= q.runs[k].start <= q.runs[k].end
    ensures (q.phase.Running? || q.phase.Returned?) && q.runs != [] ==>
              q.runs[|q.runs| - 1].end + interval <= q.phase.start
  {
    var solo := SoloQueue(cfg, now, es, a);
    QueueSpaced(cfg.For(a), now, solo, q);
  }

  /** No window of length t holds more than t / interval + 1 of an admin's starts. */
  lemma EveryAdminIsBounded(cfg: Config, now: int, es: seq<Event>, a: string, q: Q.Queue, interval: int, from: int,
                            t: nat)
    requires cfg.Valid() && now > 0 && Legal(cfg, Start(now), es)
    requires a in Exec(cfg, Start(now), es).queues && q == Exec(cfg, Start(now), es).queues[a]
    requires interval == (if a in cfg.overrides then cfg.overrides[a] else cfg.minInterval) && interval > 0
    ensures var times := Q.StartTimes(q);
            |set k | 0 <= k < |times| && from <= times[k] <= from + t| <= t / interval + 1
  {
    var solo := SoloQueue(cfg, now, es, a);
    Q.WindowBound(cfg.For(a), now, solo, Q.StartTimes(q), from, t);
  }
}
