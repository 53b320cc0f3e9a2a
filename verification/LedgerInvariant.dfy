/** The invariant that ties every ledger row to where its job currently is, and its consequences. */
module LedgerInvariant {
  import opened Basics
  import opened Ledger
  import opened PayoutSystem
  import Q = PayoutQueue
  import Text

  /* --------------------------------- places ----------------------------------- */

  datatype Place =
    | AtHandler
    | InChannel
    | WithWorker(phase: Q.Phase)
    | Finished
    | Dropped                       // never accepted, and its handler is gone

  /** Where the k-th accepted job of a queue is. */
  function QueuePlace(q: Q.Queue, k: nat): Place {
    if k < |q.runs| then Finished
    else if k == |q.runs| && !q.phase.Idle? then WithWorker(q.phase)
    else InChannel
  }

  function PlaceOf(s: Sys, r: RequestId): Place {
    if r in s.handlers then AtHandler
    else if r in s.slot && s.slot[r].0 in s.queues then QueuePlace(s.queues[s.slot[r].0], s.slot[r].1)
    else Dropped
  }

  /** The job of a request that a handler or a queue still knows. */
  function JobOf(s: Sys, r: RequestId): Option<Q.Job> {
    if r in s.handlers then Some(s.handlers[r].job)
    else if r in s.slot && s.slot[r].0 in s.queues && s.slot[r].1 < |s.queues[s.slot[r].0].accepted|
    then Some(s.queues[s.slot[r].0].accepted[s.slot[r].1])
    else None
  }

  /** How far a request has come, as far as its row can tell. */
  datatype Progress = Waiting | Underway | Over | Gone

  function PhaseProgress(p: Q.Phase): Progress {
    match p
    case Running(_, _, stage) => if stage.Starting? then Waiting else if stage.Recorded? then Over else Underway
    case Returned(_, _, _) => Over
    case _ => Waiting
  }

  function ProgressOf(p: Place): Progress {
    match p
    case AtHandler => Waiting
    case InChannel => Waiting
    case WithWorker(phase) => PhaseProgress(phase)
    case Finished => Over
    case Dropped => Gone
  }

  /** The status a row must have, given how far its job has come and which writes were lost. */
  predicate StatusFits(p: Progress, status: Status, unmarked: bool, lost: bool) {
    match p
    case Waiting => status == Queued && !unmarked && !lost
    case Underway => !lost && status == (if unmarked then Queued else Processing)
    case Over => if lost then status == (if unmarked then Queued else Processing) else Terminal(status)
    case Gone => !unmarked && status == (if lost then Queued else Failed)
  }

  /* -------------------------------- invariant --------------------------------- */

  ghost predicate QueueOk(cfg: Config, s: Sys, a: string)
    requires a in s.queues
  {
    Q.Inv(cfg.For(a), Q.View(s.now, s.queues[a]))
  }

  ghost predicate QueuesOk(cfg: Config, s: Sys) {
    forall a {:trigger QueueOk(cfg, s, a)} :: a in s.queues ==> QueueOk(cfg, s, a)
  }

  /** `slot` inverts the accepted sequences, so no request is ever accepted twice. */
  ghost predicate SlotsOk(s: Sys) {
    && (forall a, k :: a in s.queues && 0 <= k < |s.queues[a].accepted| ==>
          var job := s.queues[a].accepted[k];
          job.input.adminDid == a && job.requestId in s.slot && s.slot[job.requestId] == (a, k))
    && (forall r :: r in s.slot ==>
          var (a, k) := s.slot[r];
          r in s.issued && r !in s.handlers && a in s.queues && k < |s.queues[a].accepted|
          && s.queues[a].accepted[k].requestId == r)
  }

  ghost predicate HandlersOk(s: Sys) {
    forall r :: r in s.handlers ==>
      && r in s.issued && s.handlers[r].job.requestId == r
      && (s.handlers[r].Sending? ==> s.handlers[r].job.input.adminDid in s.queues)
  }

  /** A refused request is in nobody's queue; at most its handler still has to mark it. */
  ghost predicate RefusedOk(s: Sys) {
    forall a, j :: a in s.queues && 0 <= j < |s.queues[a].refused| ==>
      var r := s.queues[a].refused[j].requestId;
      r in s.issued && r !in s.slot && (r in s.handlers ==> s.handlers[r].Compensating?)
  }

  predicate Matches(row: Row, job: Q.Job) {
    && row.kind == REWARD && row.adminDid == job.input.adminDid
    && row.userDid == Text.Cut(job.input.userDid, DID_WIDTH) && row.activityIds == job.input.activityIds
  }

  /** Points were summed from the table as it stood then, and are worth paying. */
  ghost predicate PointsFrom(s: Sys, r: RequestId, admin: string, ids: seq<string>, points: int) {
    r in s.sums && points == SumPoints(s.sums[r], admin, ids) && points > 0
  }

  ghost predicate StageOk(s: Sys, phase: Q.Phase) {
    phase.Running? ==>
      match phase.stage
      case Summed(points) =>
        PointsFrom(s, phase.job.requestId, phase.job.input.adminDid, phase.job.input.activityIds, points)
      case Settled(Paid(points, _, _)) =>
        PointsFrom(s, phase.job.requestId, phase.job.input.adminDid, phase.job.input.activityIds, points)
      case _ => true
  }

  ghost predicate StagesOk(s: Sys) {
    forall a {:trigger StageOk(s, s.queues[a].phase)} :: a in s.queues ==> StageOk(s, s.queues[a].phase)
  }

  ghost predicate RowOk(s: Sys, r: RequestId)
    requires r in s.rows
  {
    var row := s.rows[r];
    && StatusFits(ProgressOf(PlaceOf(s, r)), row.status, r in s.unmarked, r in s.lost)
    && (JobOf(s, r).Some? ==> Matches(row, JobOf(s, r).value))
    && row.kind == REWARD
    && (row.status == Success <==> r in s.paid)
    && (row.status == Success ==>
          row.rewardPoints == s.paid[r] && PointsFrom(s, r, row.adminDid, row.activityIds, row.rewardPoints))
  }

  ghost predicate RowsOk(s: Sys) {
    && s.rows.Keys <= s.issued
    && s.slot.Keys <= s.rows.Keys && s.handlers.Keys <= s.rows.Keys && s.paid.Keys <= s.rows.Keys
    && s.unmarked <= s.rows.Keys && s.lost <= s.rows.Keys
    && forall r {:trigger RowOk(s, r)} :: r in s.rows ==> RowOk(s, r)
  }

  ghost predicate Inv(cfg: Config, s: Sys) {
    && cfg.Valid() && s.now > 0
    && QueuesOk(cfg, s) && SlotsOk(s) && HandlersOk(s) && RefusedOk(s) && StagesOk(s) && RowsOk(s)
  }

  /* ------------------------------- preservation ------------------------------- */

  lemma QueuesStep(cfg: Config, s: Sys, e: Event)
    requires cfg.Valid() && s.now > 0 && QueuesOk(cfg, s) && Enabled(cfg, s, e)
    ensures QueuesOk(cfg, Apply(cfg, s, e))
  {
    var t := Apply(cfg, s, e);
    forall a | a in t.queues ensures QueueOk(cfg, t, a) {
      ShareStep(cfg, s, e, a);
      assert a in s.queues ==> QueueOk(cfg, s, a);
      if a !in s.queues {
        Q.FreshInv(cfg.For(a), s.now);
      }
      if ShareOf(cfg, s, e, a) != [] {
        Q.InvStep(cfg.For(a), ViewOf(s, a), ShareOf(cfg, s, e, a)[0]);
      }
    }
  }

  /** t differs from s in the bookkeeping of requests only as far as a worker's move can. */
  ghost predicate SameRequests(s: Sys, t: Sys) {
    && t.handlers == s.handlers && t.slot == s.slot && t.issued == s.issued && t.queues.Keys == s.queues.Keys
    && forall a :: a in s.queues ==>
         t.queues[a].accepted == s.queues[a].accepted && t.queues[a].refused == s.queues[a].refused
  }

  /** Only admin a's queue differs, and in it only the place of the job in hand or next in line. */
  ghost predicate OneMoved(s: Sys, t: Sys, a: string) {
    && SameRequests(s, t) && a in s.queues
    && (forall b :: b in s.queues && b != a ==> t.queues[b] == s.queues[b])
    && (forall k: nat :: k != |s.queues[a].runs| ==> QueuePlace(t.queues[a], k) == QueuePlace(s.queues[a], k))
  }

  lemma MoveOfQueue(c: Q.Settings, v: Q.View, m: Q.Event)
    requires Q.Enabled(c, v, m) && !m.Tick? && !m.Accept? && !m.Refuse?
    ensures var q := Q.Apply(c, v, m).queue;
            && q.accepted == v.queue.accepted && q.refused == v.queue.refused
            && forall k: nat :: k != |v.queue.runs| ==> QueuePlace(q, k) == QueuePlace(v.queue, k)
  {
  }

  lemma WorkShape(cfg: Config, s: Sys, e: Event)
    requires Enabled(cfg, s, e) && Moves(e)
    ensures var t, a := AfterWork(cfg, s, e), e.admin;
            && t.handlers == s.handlers && t.slot == s.slot && t.issued == s.issued && a in s.queues
            && Q.Enabled(cfg.For(a), Q.View(s.now, s.queues[a]), QueueMove(cfg, s, e))
            && t.queues == s.queues[a := Q.Apply(cfg.For(a), Q.View(s.now, s.queues[a]), QueueMove(cfg, s, e)).queue]
  {
  }

  lemma MovedOne(s: Sys, t: Sys, a: string, q: Q.Queue)
    requires t.handlers == s.handlers && t.slot == s.slot && t.issued == s.issued && a in s.queues
    requires t.queues == s.queues[a := q]
    requires q.accepted == s.queues[a].accepted && q.refused == s.queues[a].refused
    requires forall k: nat :: k != |s.queues[a].runs| ==> QueuePlace(q, k) == QueuePlace(s.queues[a], k)
    ensures OneMoved(s, t, a)
  {
  }

  lemma WorkMovesOne(cfg: Config, s: Sys, e: Event)
    requires Enabled(cfg, s, e) && Moves(e)
    ensures OneMoved(s, AfterWork(cfg, s, e), e.admin)
  {
    WorkShape(cfg, s, e);
    var c, v, m := cfg.For(e.admin), Q.View(s.now, s.queues[e.admin]), QueueMove(cfg, s, e);
    MoveOfQueue(c, v, m);
    MovedOne(s, AfterWork(cfg, s, e), e.admin, Q.Apply(c, v, m).queue);
  }

  lemma SlotsSame(s: Sys, t: Sys)
    requires SlotsOk(s) && HandlersOk(s) && RefusedOk(s) && SameRequests(s, t)
    ensures SlotsOk(t) && HandlersOk(t) && RefusedOk(t)
  {
  }

  lemma SlotsAccept(s: Sys, t: Sys, a: string, job: Q.Job)
    requires SlotsOk(s) && job.input.adminDid == a && a in s.queues && job.requestId in s.issued
             && job.requestId !in s.slot
    requires t.issued == s.issued && t.handlers == s.handlers - {job.requestId}
    requires t.slot == s.slot[job.requestId := (a, |s.queues[a].accepted|)]
    requires t.queues.Keys == s.queues.Keys && t.queues[a].accepted == s.queues[a].accepted + [job]
    requires forall b :: b in s.queues && b != a ==> t.queues[b] == s.queues[b]
    ensures SlotsOk(t)
  {
    forall b, k | b in t.queues && 0 <= k < |t.queues[b].accepted|
      ensures var job := t.queues[b].accepted[k];
              job.input.adminDid == b && job.requestId in t.slot && t.slot[job.requestId] == (b, k)
    {
      if k < |s.queues[b].accepted| {
        assert s.queues[b].accepted[k] == t.queues[b].accepted[k];
      }
    }
  }

  lemma RefusedAccept(s: Sys, t: Sys, a: string, req: RequestId)
    requires RefusedOk(s) && HandlersOk(s) && req in s.handlers && s.handlers[req].Sending? && a in s.queues
    requires t.issued == s.issued && t.handlers == s.handlers - {req} && t.slot.Keys == s.slot.Keys + {req}
    requires t.queues.Keys == s.queues.Keys && forall b :: b in s.queues ==> t.queues[b].refused == s.queues[b].refused
    ensures RefusedOk(t) && HandlersOk(t)
  {
  }

  lemma SlotsRefuse(s: Sys, t: Sys, a: string, job: Q.Job)
    requires SlotsOk(s) && HandlersOk(s) && RefusedOk(s)
    requires job.requestId in s.handlers && s.handlers[job.requestId] == Sending(job) && a in s.queues
    requires t.issued == s.issued && t.handlers == s.handlers[job.requestId := Compensating(job)] && t.slot == s.slot
    requires t.queues.Keys == s.queues.Keys && t.queues[a].refused == s.queues[a].refused + [job]
    requires forall b :: b in s.queues ==> t.queues[b].accepted == s.queues[b].accepted
    requires forall b :: b in s.queues && b != a ==> t.queues[b] == s.queues[b]
    ensures SlotsOk(t) && HandlersOk(t) && RefusedOk(t)
  {
    forall b, j | b in t.queues && 0 <= j < |t.queues[b].refused|
      ensures var r := t.queues[b].refused[j].requestId;
              r in t.issued && r !in t.slot && (r in t.handlers ==> t.handlers[r].Compensating?)
    {
      if j < |s.queues[b].refused| {
        assert s.queues[b].refused[j] == t.queues[b].refused[j];
      }
    }
  }

  lemma SlotsSendAccepted(cfg: Config, s: Sys, req: RequestId)
    requires SlotsOk(s) && HandlersOk(s) && RefusedOk(s) && Enabled(cfg, s, Send(req))
    requires |s.queues[s.handlers[req].job.input.adminDid].channel| < cfg.capacity && req !in s.slot
    ensures SlotsOk(AfterSend(cfg, s, req)) && HandlersOk(AfterSend(cfg, s, req)) && RefusedOk(AfterSend(cfg, s, req))
  {
    var job := s.handlers[req].job;
    SlotsAccept(s, AfterSend(cfg, s, req), job.input.adminDid, job);
    RefusedAccept(s, AfterSend(cfg, s, req), job.input.adminDid, req);
  }

  lemma SlotsSendRefused(cfg: Config, s: Sys, req: RequestId)
    requires SlotsOk(s) && HandlersOk(s) && RefusedOk(s) && Enabled(cfg, s, Send(req))
    requires |s.queues[s.handlers[req].job.input.adminDid].channel| >= cfg.capacity && req !in s.slot
    ensures SlotsOk(AfterSend(cfg, s, req)) && HandlersOk(AfterSend(cfg, s, req)) && RefusedOk(AfterSend(cfg, s, req))
  {
    var job := s.handlers[req].job;
    SlotsRefuse(s, AfterSend(cfg, s, req), job.input.adminDid, job);
  }

  lemma SlotsObtain(s: Sys, req: RequestId)
    requires SlotsOk(s) && HandlersOk(s) && RefusedOk(s) && req in s.handlers && s.handlers[req].Created?
    ensures var t := AfterObtain(s, req); SlotsOk(t) && HandlersOk(t) && RefusedOk(t)
  {
  }

  lemma SlotsCreate(s: Sys, job: Q.Job, stored: bool, reported: bool)
    requires SlotsOk(s) && HandlersOk(s) && RefusedOk(s) && job.requestId !in s.issued
    ensures var t := AfterCreate(s, job, stored, reported); SlotsOk(t) && HandlersOk(t) && RefusedOk(t)
  {
  }

  lemma SlotsCompensate(s: Sys, req: RequestId, applied: bool)
    requires SlotsOk(s) && HandlersOk(s) && RefusedOk(s) && req in s.handlers && s.handlers[req].Compensating?
    ensures var t := AfterCompensate(s, req, applied); SlotsOk(t) && HandlersOk(t) && RefusedOk(t)
  {
  }

  lemma SlotsStep(cfg: Config, s: Sys, e: Event)
    requires SlotsOk(s) && HandlersOk(s) && RefusedOk(s) && Enabled(cfg, s, e)
    ensures var t := Apply(cfg, s, e); SlotsOk(t) && HandlersOk(t) && RefusedOk(t)
  {
    if Moves(e) {
      WorkMovesOne(cfg, s, e);
      SlotsSame(s, AfterWork(cfg, s, e));
    } else {
      match e
      case Tick(to) => SlotsSame(s, s.(now := to));
      case AddActivity(a, id, points) => SlotsSame(s, s.(activities := StoreActivity(s.activities, a, id, points)));
      case CreateRow(job, stored, reported) => SlotsCreate(s, job, stored, reported);
      case ObtainQueue(req) => SlotsObtain(s, req);
      case Send(req) =>
        if |s.queues[s.handlers[req].job.input.adminDid].channel| < cfg.capacity {
          SlotsSendAccepted(cfg, s, req);
        } else {
          SlotsSendRefused(cfg, s, req);
        }
      case Compensate(req, applied) => SlotsCompensate(s, req, applied);
    }
  }

  /** The row and the histories about it are unchanged. */
  ghost predicate SameBooks(s: Sys, t: Sys, r: RequestId)
    requires r in s.rows
  {
    && r in t.rows && t.rows[r] == s.rows[r]
    && (r in t.unmarked <==> r in s.unmarked) && (r in t.lost <==> r in s.lost)
    && (r in t.paid <==> r in s.paid) && (r in s.paid ==> t.paid[r] == s.paid[r])
    && (r in s.sums ==> r in t.sums && t.sums[r] == s.sums[r])
  }

  /** Nothing a row's condition mentions has changed. */
  ghost predicate SameFor(s: Sys, t: Sys, r: RequestId)
    requires r in s.rows
  {
    SameBooks(s, t, r) && ProgressOf(PlaceOf(t, r)) == ProgressOf(PlaceOf(s, r)) && JobOf(t, r) == JobOf(s, r)
  }

  lemma RowFrame(s: Sys, t: Sys, r: RequestId)
    requires r in s.rows && RowOk(s, r) && SameFor(s, t, r)
    ensures RowOk(t, r)
  {
  }

  /** The job in hand is the accepted job number |runs|. */
  predicate HandKnown(s: Sys, a: string)
    requires a in s.queues
  {
    var q := s.queues[a];
    && |q.runs| <= |q.accepted|
    && (!q.phase.Idle? ==> |q.runs| < |q.accepted| && q.accepted[|q.runs|] == q.phase.job
                           && q.phase.job.requestId in s.slot && s.slot[q.phase.job.requestId] == (a, |q.runs|))
    && (q.phase.Idle? && q.channel != [] ==> |q.runs| < |q.accepted| && q.accepted[|q.runs|] == q.channel[0])
    && (q.phase.Idle? && q.channel == [] ==> |q.runs| == |q.accepted|)
  }

  lemma HandSlot(cfg: Config, s: Sys, a: string)
    requires QueuesOk(cfg, s) && SlotsOk(s) && a in s.queues
    ensures HandKnown(s, a)
  {
    assert QueueOk(cfg, s, a);
  }

  predicate IsHand(s: Sys, a: string, r: RequestId)
    requires a in s.queues
  {
    r in s.slot && s.slot[r] == (a, |s.queues[a].runs|)
  }

  lemma StoredElsewhere(s: Sys, req: RequestId, updates: Updates, applied: bool, r: RequestId)
    requires r != req
    ensures r in Stored(s, req, updates, applied) <==> r in s.rows
    ensures r in s.rows ==> Stored(s, req, updates, applied)[r] == s.rows[r]
  {
  }

  lemma PlaceElsewhere(s: Sys, t: Sys, a: string, r: RequestId)
    requires OneMoved(s, t, a) && !IsHand(s, a, r)
    ensures PlaceOf(t, r) == PlaceOf(s, r) && JobOf(t, r) == JobOf(s, r)
  {
  }

  /** The request the worker of admin a is busy with, if any. */
  predicate Busy(s: Sys, a: string, r: RequestId)
    requires a in s.queues
  {
    !s.queues[a].phase.Idle? && s.queues[a].phase.job.requestId == r
  }

  lemma WorkBooks(cfg: Config, s: Sys, e: Event, r: RequestId)
    requires Enabled(cfg, s, e) && Moves(e) && r in s.rows && !Busy(s, e.admin, r)
    ensures SameBooks(s, AfterWork(cfg, s, e), r)
  {
    if e.Mark? || e.Record? {
      var job := s.queues[e.admin].phase.job;
      StoredElsewhere(s, job.requestId,
        if e.Mark? then MARK_PROCESSING
          else OutcomeUpdates(cfg, job, s.queues[e.admin].phase.stage.outcome), e.applied, r);
    }
  }

  lemma WorkElsewhere(cfg: Config, s: Sys, e: Event, r: RequestId)
    requires QueuesOk(cfg, s) && SlotsOk(s) && Enabled(cfg, s, e) && Moves(e) && r in s.rows && !IsHand(s, e.admin, r)
    ensures SameFor(s, AfterWork(cfg, s, e), r)
  {
    HandSlot(cfg, s, e.admin);
    WorkMovesOne(cfg, s, e);
    PlaceElsewhere(s, AfterWork(cfg, s, e), e.admin, r);
    WorkBooks(cfg, s, e, r);
  }

  /* The row of the job in hand, event by event. */

  /** How a worker's move changes the progress of the job in hand or next in line. */
  predicate ProgressRule(before: Progress, after: Progress, phase: Q.Phase, m: Q.Event) {
    match m
    case Progress(stage) =>
      phase.Running? && before == PhaseProgress(phase)
        && after == PhaseProgress(Q.Running(phase.job, phase.start, stage))
    case Return => phase.Running? && (phase.stage.Recorded? ==> before == after == Over)
    case Stamp => before == after == Over
    case _ => before == after == Waiting
  }

  lemma HandProgress(c: Q.Settings, v: Q.View, m: Q.Event)
    requires Q.Enabled(c, v, m) && !m.Tick? && !m.Accept? && !m.Refuse?
    ensures var k := |v.queue.runs|;
            ProgressRule(ProgressOf(QueuePlace(v.queue, k)), ProgressOf(QueuePlace(Q.Apply(c, v, m).queue, k)),
                         v.queue.phase, m)
  {
  }

  lemma HandPlace(s: Sys, t: Sys, a: string, q: Q.Queue, r: RequestId)
    requires a in s.queues && HandKnown(s, a) && IsHand(s, a, r) && r !in s.handlers
    requires t.handlers == s.handlers && t.slot == s.slot && t.queues == s.queues[a := q]
    requires q.accepted == s.queues[a].accepted && |s.queues[a].runs| < |q.accepted|
    ensures JobOf(t, r) == JobOf(s, r) == Some(q.accepted[|s.queues[a].runs|])
    ensures PlaceOf(s, r) == QueuePlace(s.queues[a], |s.queues[a].runs|)
    ensures PlaceOf(t, r) == QueuePlace(q, |s.queues[a].runs|)
  {
  }

  /** What a worker's move does to the progress of the request it is about. */
  lemma HandAfter(c: Q.Settings, s: Sys, t: Sys, a: string, m: Q.Event, r: RequestId)
    requires a in s.queues && HandKnown(s, a) && IsHand(s, a, r) && r !in s.handlers
             && |s.queues[a].runs| < |s.queues[a].accepted|
    requires Q.Enabled(c, Q.View(s.now, s.queues[a]), m) && !m.Tick? && !m.Accept? && !m.Refuse?
    requires t.handlers == s.handlers && t.slot == s.slot
    requires t.queues == s.queues[a := Q.Apply(c, Q.View(s.now, s.queues[a]), m).queue]
    ensures ProgressRule(ProgressOf(PlaceOf(s, r)), ProgressOf(PlaceOf(t, r)), s.queues[a].phase, m)
    ensures JobOf(t, r) == JobOf(s, r) == Some(s.queues[a].accepted[|s.queues[a].runs|])
  {
    MoveOfQueue(c, Q.View(s.now, s.queues[a]), m);
    HandProgress(c, Q.View(s.now, s.queues[a]), m);
    HandPlace(s, t, a, Q.Apply(c, Q.View(s.now, s.queues[a]), m).queue, r);
  }

  /** The request is waiting or in hand in admin a's queue, and nobody else holds it. */
  predicate InHand(s: Sys, a: string, r: RequestId) {
    && a in s.queues && HandKnown(s, a) && IsHand(s, a, r)
    && r !in s.handlers && |s.queues[a].runs| < |s.queues[a].accepted|
    && s.queues[a].accepted[|s.queues[a].runs|].requestId == r
  }

  lemma WorkerHand(cfg: Config, s: Sys, a: string, m: Q.Event, r: RequestId)
    requires InHand(s, a, r) && r in s.rows && RowOk(s, r) && Enabled(cfg, s, Worker(a, m))
    ensures RowOk(AfterWork(cfg, s, Worker(a, m)), r)
  {
    var t := AfterWork(cfg, s, Worker(a, m));
    HandAfter(cfg.For(a), s, t, a, m, r);
    RowFrame(s, t, r);
  }

  lemma ProgressHand(cfg: Config, s: Sys, e: Event, r: RequestId)
    requires (e.LookUpFails? || e.Transact?) && InHand(s, e.admin, r) && r in s.rows && RowOk(s, r)
             && Enabled(cfg, s, e)
    ensures RowOk(AfterWork(cfg, s, e), r)
  {
    var t := AfterWork(cfg, s, e);
    HandAfter(cfg.For(e.admin), s, t, e.admin, QueueMove(cfg, s, e), r);
    RowFrame(s, t, r);
  }

  lemma SumHand(cfg: Config, s: Sys, a: string, r: RequestId)
    requires InHand(s, a, r) && r in s.rows && RowOk(s, r) && Enabled(cfg, s, SumUp(a))
    ensures RowOk(AfterWork(cfg, s, SumUp(a)), r)
  {
    HandAfter(cfg.For(a), s, AfterWork(cfg, s, SumUp(a)), a, QueueMove(cfg, s, SumUp(a)), r);
  }

  lemma MarkStored(s: Sys, req: RequestId)
    requires req in s.rows
    ensures Stored(s, req, MARK_PROCESSING, true) ==
              s.rows[req := s.rows[req].(status := Processing, updatedAt := s.now)]
  {
    assert StatusColumn in MARK_PROCESSING;
  }

  lemma MarkHand(cfg: Config, s: Sys, a: string, applied: bool, r: RequestId)
    requires InHand(s, a, r) && r in s.rows && RowOk(s, r) && Enabled(cfg, s, Mark(a, applied))
    ensures RowOk(AfterWork(cfg, s, Mark(a, applied)), r)
  {
    HandAfter(cfg.For(a), s, AfterWork(cfg, s, Mark(a, applied)), a, Q.Progress(Q.Marked), r);
    MarkStored(s, r);
  }

  /** The row processOne's last write leaves behind. */
  function RecordedRow(cfg: Config, row: Row, job: Q.Job, o: Q.Outcome, now: int): Row
    requires AllFit(OutcomeUpdates(cfg, job, o))
  {
    Simultaneous(row, OutcomeUpdates(cfg, job, o)[UpdatedAtColumn := TimeValue(now)])
  }

  lemma RecordedRowFields(cfg: Config, row: Row, job: Q.Job, o: Q.Outcome, now: int)
    requires AllFit(OutcomeUpdates(cfg, job, o))
    ensures var after := RecordedRow(cfg, row, job, o, now);
            && (Matches(row, job) ==> Matches(after, job)) && after.kind == row.kind && after.createdAt == row.createdAt
            && after.status == (if o.Paid? then Success else Failed)
            && after.rewardPoints == (if o.Paid? then o.points else row.rewardPoints)
  {
  }

  lemma OutcomeUpdatesAllowed(cfg: Config, job: Q.Job, o: Q.Outcome)
    ensures StatusColumn in OutcomeUpdates(cfg, job, o)
    ensures forall c :: c in OutcomeUpdates(cfg, job, o) ==> Allowed(c)
  {
  }

  lemma RecordStored(cfg: Config, s: Sys, req: RequestId, job: Q.Job, o: Q.Outcome)
    requires req in s.rows && AllFit(OutcomeUpdates(cfg, job, o))
    ensures Stored(s, req, OutcomeUpdates(cfg, job, o), true)
            == s.rows[req := RecordedRow(cfg, s.rows[req], job, o, s.now)]
  {
    OutcomeUpdatesAllowed(cfg, job, o);
  }

  lemma RecordHand(cfg: Config, s: Sys, a: string, applied: bool, r: RequestId)
    requires InHand(s, a, r) && r in s.rows && RowOk(s, r) && Enabled(cfg, s, Record(a, applied))
    requires StageOk(s, s.queues[a].phase)
    ensures RowOk(AfterWork(cfg, s, Record(a, applied)), r)
  {
    HandAfter(cfg.For(a), s, AfterWork(cfg, s, Record(a, applied)), a, Q.Progress(Q.Recorded), r);
    var job, o := s.queues[a].phase.job, s.queues[a].phase.stage.outcome;
    if applied {
      RecordStored(cfg, s, r, job, o);
      RecordedRowFields(cfg, s.rows[r], job, o, s.now);
    }
  }

  lemma InHandOf(cfg: Config, s: Sys, a: string, r: RequestId)
    requires QueuesOk(cfg, s) && SlotsOk(s) && a in s.queues && IsHand(s, a, r)
    ensures InHand(s, a, r)
  {
    HandSlot(cfg, s, a);
  }

  lemma WorkRowInHand(cfg: Config, s: Sys, e: Event, r: RequestId)
    requires Moves(e) && InHand(s, e.admin, r) && r in s.rows && RowOk(s, r) && Enabled(cfg, s, e)
    requires StageOk(s, s.queues[e.admin].phase)
    ensures RowOk(AfterWork(cfg, s, e), r)
  {
    match e
    case Worker(a, m) => WorkerHand(cfg, s, a, m, r);
    case Mark(a, applied) => MarkHand(cfg, s, a, applied, r);
    case SumUp(a) => SumHand(cfg, s, a, r);
    case Record(a, applied) => RecordHand(cfg, s, a, applied, r);
    case _ => ProgressHand(cfg, s, e, r);
  }

  lemma WorkRow(cfg: Config, s: Sys, e: Event, r: RequestId)
    requires Moves(e) && e.admin in s.queues && r in s.rows && Enabled(cfg, s, e) && RowOk(s, r)
    requires StageOk(s, s.queues[e.admin].phase) && QueuesOk(cfg, s) && SlotsOk(s)
    ensures RowOk(AfterWork(cfg, s, e), r)
  {
    if IsHand(s, e.admin, r) {
      InHandOf(cfg, s, e.admin, r);
      WorkRowInHand(cfg, s, e, r);
    } else {
      WorkElsewhere(cfg, s, e, r);
      RowFrame(s, AfterWork(cfg, s, e), r);
    }
  }

  /* ------------------------- the events of the handlers ------------------------ */

  lemma AcceptedElsewhere(s: Sys, t: Sys, a: string, req: RequestId, r: RequestId)
    requires a in s.queues && req in s.handlers && req !in s.slot && r != req
    requires t.handlers == s.handlers - {req} && t.slot == s.slot[req := (a, |s.queues[a].accepted|)]
    requires t.queues.Keys == s.queues.Keys && forall b :: b in s.queues && b != a ==> t.queues[b] == s.queues[b]
    requires t.queues[a].phase == s.queues[a].phase && t.queues[a].runs == s.queues[a].runs
    requires s.queues[a].accepted < t.queues[a].accepted
    requires r in s.slot && s.slot[r].0 == a ==> s.slot[r].1 < |s.queues[a].accepted|
    ensures PlaceOf(t, r) == PlaceOf(s, r) && JobOf(t, r) == JobOf(s, r)
  {
  }

  lemma AcceptedRow(cfg: Config, s: Sys, req: RequestId, r: RequestId)
    requires SlotsOk(s) && HandlersOk(s) && Enabled(cfg, s, Send(req)) && r in s.rows && RowOk(s, r)
    requires |s.queues[s.handlers[req].job.input.adminDid].channel| < cfg.capacity
    requires HandKnown(s, s.handlers[req].job.input.adminDid)
    ensures RowOk(AfterSend(cfg, s, req), r)
  {
    var t, a := AfterSend(cfg, s, req), s.handlers[req].job.input.adminDid;
    if r != req {
      AcceptedElsewhere(s, t, a, req, r);
      RowFrame(s, t, r);
    } else {
      assert JobOf(t, r) == Some(s.handlers[req].job) == JobOf(s, r);
      assert PlaceOf(t, r) == InChannel;
      RowFrame(s, t, r);
    }
  }

  lemma RefusedRow(cfg: Config, s: Sys, req: RequestId, r: RequestId)
    requires Enabled(cfg, s, Send(req)) && r in s.rows && RowOk(s, r)
    requires |s.queues[s.handlers[req].job.input.adminDid].channel| >= cfg.capacity
    ensures RowOk(AfterSend(cfg, s, req), r)
  {
    RowFrame(s, AfterSend(cfg, s, req), r);
  }

  lemma CompensateStored(s: Sys, req: RequestId)
    requires req in s.rows
    ensures Stored(s, req, MarkRefused(QUEUE_FULL), true)
            == s.rows[req := s.rows[req].(status := Failed, message := "queue full, not enqueued",
                                          errorDetails := QUEUE_FULL, updatedAt := s.now)]
  {
    assert StatusColumn in MarkRefused(QUEUE_FULL);
    RefusalFits();
  }

  lemma RefusalFits()
    ensures AllFit(MarkRefused(QUEUE_FULL))
  {
    assert Text.NoNul("queue full, not enqueued");
    assert Text.NoNul(QUEUE_FULL);
  }

  lemma CompensateRow(s: Sys, req: RequestId, applied: bool, r: RequestId)
    requires req in s.handlers && req !in s.slot && req in s.rows && r in s.rows && RowOk(s, r)
    ensures RowOk(AfterCompensate(s, req, applied), r)
  {
    var t := AfterCompensate(s, req, applied);
    CompensateStored(s, req);
    if r != req {
      RowFrame(s, t, r);
    } else {
      assert PlaceOf(t, r) == Dropped && JobOf(t, r) == None;
    }
  }

  lemma ObtainRow(s: Sys, req: RequestId, r: RequestId)
    requires SlotsOk(s) && req in s.handlers && r in s.rows && RowOk(s, r)
    ensures RowOk(AfterObtain(s, req), r)
  {
    RowFrame(s, AfterObtain(s, req), r);
  }

  lemma CreatedRow(s: Sys, job: Q.Job, reported: bool)
    requires job.requestId !in s.slot && job.requestId !in s.handlers && job.requestId !in s.unmarked
    requires job.requestId !in s.lost && job.requestId !in s.paid
    ensures RowOk(AfterCreate(s, job, true, reported), job.requestId)
  {
  }

  lemma CreateElsewhere(s: Sys, job: Q.Job, stored: bool, reported: bool, r: RequestId)
    requires r in s.rows && RowOk(s, r) && r != job.requestId
    ensures RowOk(AfterCreate(s, job, stored, reported), r)
  {
    RowFrame(s, AfterCreate(s, job, stored, reported), r);
  }

  /* ---------------------------------- together -------------------------------- */

  lemma StoredKeys(s: Sys, req: RequestId, updates: Updates, applied: bool)
    ensures Stored(s, req, updates, applied).Keys == s.rows.Keys
  {
  }

  lemma WorkKeys(cfg: Config, s: Sys, e: Event)
    requires Enabled(cfg, s, e) && Moves(e)
    ensures RowsAfter(cfg, s, e).Keys == s.rows.Keys
  {
    if e.Mark? {
      StoredKeys(s, s.queues[e.admin].phase.job.requestId, MARK_PROCESSING, e.applied);
    } else if e.Record? {
      var job := s.queues[e.admin].phase.job;
      StoredKeys(s, job.requestId, OutcomeUpdates(cfg, job, s.queues[e.admin].phase.stage.outcome), e.applied);
    }
  }

  /** RowsOk from its parts, when only request `req` may enter a history. */
  lemma RowsOkFrom(s: Sys, t: Sys, req: RequestId)
    requires RowsOk(s) && req in s.rows && t.rows.Keys == s.rows.Keys
    requires t.issued == s.issued && t.slot == s.slot && t.handlers == s.handlers
    requires t.paid.Keys <= s.paid.Keys + {req} && t.unmarked <= s.unmarked + {req} && t.lost <= s.lost + {req}
    requires forall r :: r in s.rows ==> RowOk(t, r)
    ensures RowsOk(t)
  {
  }

  lemma WorkEachRow(cfg: Config, s: Sys, e: Event)
    requires Moves(e) && e.admin in s.queues && Enabled(cfg, s, e) && StageOk(s, s.queues[e.admin].phase)
    requires QueuesOk(cfg, s) && SlotsOk(s) && RowsOk(s)
    ensures forall r {:trigger RowOk(AfterWork(cfg, s, e), r)} :: r in s.rows ==> RowOk(AfterWork(cfg, s, e), r)
  {
    forall r | r in s.rows ensures RowOk(AfterWork(cfg, s, e), r) {
      assert RowOk(s, r);
      WorkRow(cfg, s, e, r);
    }
  }

  lemma WorkRowsOk(cfg: Config, s: Sys, e: Event)
    requires Moves(e) && e.admin in s.queues && Enabled(cfg, s, e) && StageOk(s, s.queues[e.admin].phase)
    requires QueuesOk(cfg, s) && SlotsOk(s) && RowsOk(s)
    ensures RowsOk(AfterWork(cfg, s, e))
  {
    var t := AfterWork(cfg, s, e);
    WorkEachRow(cfg, s, e);
    WorkKeys(cfg, s, e);
    if !e.Worker? {
      HandSlot(cfg, s, e.admin);
      RowsOkFrom(s, t, s.queues[e.admin].phase.job.requestId);
    }
  }

  lemma SendEachRow(cfg: Config, s: Sys, req: RequestId)
    requires QueuesOk(cfg, s) && SlotsOk(s) && HandlersOk(s) && RowsOk(s) && Enabled(cfg, s, Send(req))
    ensures forall r {:trigger RowOk(AfterSend(cfg, s, req), r)} :: r in s.rows ==> RowOk(AfterSend(cfg, s, req), r)
  {
    HandSlot(cfg, s, s.handlers[req].job.input.adminDid);
    forall r | r in s.rows ensures RowOk(AfterSend(cfg, s, req), r) {
      assert RowOk(s, r);
      if |s.queues[s.handlers[req].job.input.adminDid].channel| < cfg.capacity {
        AcceptedRow(cfg, s, req, r);
      } else {
        RefusedRow(cfg, s, req, r);
      }
    }
  }

  lemma SendRowsOk(cfg: Config, s: Sys, req: RequestId)
    requires QueuesOk(cfg, s) && SlotsOk(s) && HandlersOk(s) && RowsOk(s) && Enabled(cfg, s, Send(req))
    ensures RowsOk(AfterSend(cfg, s, req))
  {
    SendEachRow(cfg, s, req);
  }

  lemma ObtainRowsOk(s: Sys, req: RequestId)
    requires SlotsOk(s) && RowsOk(s) && req in s.handlers
    ensures RowsOk(AfterObtain(s, req))
  {
    forall r | r in s.rows ensures RowOk(AfterObtain(s, req), r) {
      assert RowOk(s, r);
      ObtainRow(s, req, r);
    }
  }

  lemma CompensateRowsOk(s: Sys, req: RequestId, applied: bool)
    requires SlotsOk(s) && RowsOk(s) && req in s.handlers
    ensures RowsOk(AfterCompensate(s, req, applied))
  {
    StoredKeys(s, req, MarkRefused(QUEUE_FULL), applied);
    forall r | r in s.rows ensures RowOk(AfterCompensate(s, req, applied), r) {
      assert RowOk(s, r);
      CompensateRow(s, req, applied, r);
    }
  }

  lemma CreateRowsOk(s: Sys, job: Q.Job, stored: bool, reported: bool)
    requires SlotsOk(s) && HandlersOk(s) && RowsOk(s) && job.requestId !in s.issued && (reported ==> stored)
    ensures RowsOk(AfterCreate(s, job, stored, reported))
  {
    forall r | r in AfterCreate(s, job, stored, reported).rows
      ensures RowOk(AfterCreate(s, job, stored, reported), r)
    {
      if r == job.requestId {
        CreatedRow(s, job, reported);
      } else {
        assert RowOk(s, r);
        CreateElsewhere(s, job, stored, reported, r);
      }
    }
  }

  lemma QuietRowsOk(s: Sys, t: Sys)
    requires RowsOk(s)
    requires t == s.(now := t.now, activities := t.activities)
    ensures RowsOk(t)
  {
    forall r | r in s.rows ensures RowOk(t, r) {
      assert RowOk(s, r);
      RowFrame(s, t, r);
    }
  }

  lemma StageKept(s: Sys, t: Sys, phase: Q.Phase)
    requires StageOk(s, phase)
    requires phase.Running? ==>
               (phase.job.requestId in s.sums ==>
                  phase.job.requestId in t.sums && t.sums[phase.job.requestId] == s.sums[phase.job.requestId])
    ensures StageOk(t, phase)
  {
  }

  lemma StageMoved(cfg: Config, s: Sys, e: Event)
    requires Moves(e) && e.admin in s.queues && Enabled(cfg, s, e) && StageOk(s, s.queues[e.admin].phase)
    ensures e.admin in AfterWork(cfg, s, e).queues
    ensures StageOk(AfterWork(cfg, s, e), AfterWork(cfg, s, e).queues[e.admin].phase)
  {
  }

  lemma WorkStagesOk(cfg: Config, s: Sys, e: Event)
    requires Moves(e) && e.admin in s.queues && Enabled(cfg, s, e)
    requires QueuesOk(cfg, s) && SlotsOk(s) && StagesOk(s)
    ensures StagesOk(AfterWork(cfg, s, e))
  {
    var t := AfterWork(cfg, s, e);
    assert StageOk(s, s.queues[e.admin].phase);
    forall b | b in t.queues ensures StageOk(t, t.queues[b].phase) {
      if b == e.admin {
        StageMoved(cfg, s, e);
      } else {
        HandSlot(cfg, s, b);
        HandSlot(cfg, s, e.admin);
        assert StageOk(s, s.queues[b].phase);
        StageKept(s, t, t.queues[b].phase);
      }
    }
  }

  lemma SameStagesOk(s: Sys, t: Sys)
    requires StagesOk(s) && t.sums == s.sums
    requires forall b :: b in t.queues ==>
               t.queues[b].phase.Idle? || (b in s.queues && t.queues[b].phase == s.queues[b].phase)
    ensures StagesOk(t)
  {
    forall b | b in t.queues ensures StageOk(t, t.queues[b].phase) {
      if b in s.queues {
        assert StageOk(s, s.queues[b].phase);
      }
    }
  }

  lemma WorkInv(cfg: Config, s: Sys, e: Event)
    requires Inv(cfg, s) && Enabled(cfg, s, e) && Moves(e)
    ensures Inv(cfg, Apply(cfg, s, e))
  {
    QueuesStep(cfg, s, e);
    SlotsStep(cfg, s, e);
    assert StageOk(s, s.queues[e.admin].phase);
    WorkStagesOk(cfg, s, e);
    WorkRowsOk(cfg, s, e);
    ClockStep(cfg, s, e);
  }

  lemma SendStages(cfg: Config, s: Sys, req: RequestId)
    requires StagesOk(s) && Enabled(cfg, s, Send(req))
    ensures StagesOk(AfterSend(cfg, s, req))
  {
    forall b | b in AfterSend(cfg, s, req).queues
      ensures b in s.queues && AfterSend(cfg, s, req).queues[b].phase == s.queues[b].phase
    {
      SendKeepsPhase(cfg, s, req, b);
    }
    SameStagesOk(s, AfterSend(cfg, s, req));
  }

  /** The channel send does not touch what the worker is doing. */
  lemma SendKeepsPhase(cfg: Config, s: Sys, req: RequestId, a: string)
    requires Enabled(cfg, s, Send(req))
    ensures AfterSend(cfg, s, req).queues.Keys == s.queues.Keys
    ensures a in s.queues ==> AfterSend(cfg, s, req).queues[a].phase == s.queues[a].phase
  {
    if a in s.queues && a != s.handlers[req].job.input.adminDid {
      assert AfterSend(cfg, s, req).queues[a] == s.queues[a];
    }
  }

  lemma HandlerStages(cfg: Config, s: Sys, e: Event)
    requires StagesOk(s) && Enabled(cfg, s, e) && !Moves(e)
    ensures StagesOk(Apply(cfg, s, e))
  {
    if e.Send? {
      SendStages(cfg, s, e.req);
    } else {
      SameStagesOk(s, Apply(cfg, s, e));
    }
  }

  lemma HandlerRows(cfg: Config, s: Sys, e: Event)
    requires QueuesOk(cfg, s) && SlotsOk(s) && HandlersOk(s) && RowsOk(s) && Enabled(cfg, s, e) && !Moves(e)
    ensures RowsOk(Apply(cfg, s, e))
  {
    if e.CreateRow? {
      CreateRowsOk(s, e.job, e.stored, e.reported);
    } else if e.ObtainQueue? {
      ObtainRowsOk(s, e.req);
    } else if e.Send? {
      SendRowsOk(cfg, s, e.req);
    } else if e.Compensate? {
      CompensateRowsOk(s, e.req, e.applied);
    } else {
      QuietRowsOk(s, Apply(cfg, s, e));
    }
  }

  lemma HandlerInv(cfg: Config, s: Sys, e: Event)
    requires Inv(cfg, s) && Enabled(cfg, s, e) && !Moves(e)
    ensures Inv(cfg, Apply(cfg, s, e))
  {
    QueuesStep(cfg, s, e);
    SlotsStep(cfg, s, e);
    HandlerStages(cfg, s, e);
    HandlerRows(cfg, s, e);
    ClockStep(cfg, s, e);
  }

  lemma ClockStep(cfg: Config, s: Sys, e: Event)
    requires Enabled(cfg, s, e)
    ensures s.now <= Apply(cfg, s, e).now
  {
    if Moves(e) {
      assert AfterWork(cfg, s, e).now == s.now;
    } else if e.Send? {
      assert AfterSend(cfg, s, e.req).now == s.now;
    }
  }

  lemma InvStep(cfg: Config, s: Sys, e: Event)
    requires Inv(cfg, s) && Enabled(cfg, s, e)
    ensures Inv(cfg, Apply(cfg, s, e))
  {
    if Moves(e) {
      WorkInv(cfg, s, e);
    } else {
      HandlerInv(cfg, s, e);
    }
  }

  lemma {:induction false} InvExec(cfg: Config, s: Sys, es: seq<Event>)
    requires Inv(cfg, s) && Legal(cfg, s, es)
    ensures Inv(cfg, Exec(cfg, s, es))
    decreases |es|
  {
    if es != [] {
      InvStep(cfg, s, es[0]);
      InvExec(cfg, Apply(cfg, s, es[0]), es[1..]);
    }
  }

  lemma StartInv(cfg: Config, now: int)
    requires cfg.Valid() && now > 0
    ensures Inv(cfg, Start(now))
  {
  }
}
