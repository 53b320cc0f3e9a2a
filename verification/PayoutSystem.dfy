/**
 The whole payout engine: request handlers, every admin's queue and worker, the two tables and the
 clock. Each SQL statement, channel operation and map access under the manager's lock is one event;
 a run is any legal list of events.

 Assumptions about the database are part of the events: an insert may be stored and still be reported
 as an error, and an update either takes effect or is lost. The worker ignores the difference.

 `issued`, `slot`, `sums`, `paid`, `unmarked` and `lost` are histories the program does not keep.
 */
module PayoutSystem {
  import opened Basics
  import opened Ledger
  import Text
  import Q = PayoutQueue

  datatype Config = Config(
    capacity: int, minInterval: int, overrides: map<string, int>, procTimeout: int, admins: set<string>, ftName: string)
  {
    predicate Valid() {
      && capacity > 0 && procTimeout > 0 && 0 <= minInterval <= MAX_DURATION
      && (forall a :: a in overrides ==> 0 <= overrides[a] <= MAX_DURATION)
      && forall a :: a in admins ==> |a| <= DID_WIDTH && Text.NoNul(a)
    }

    function For(admin: string): (r: Q.Settings)
      ensures Valid() ==> r.Valid()
    {
      Q.Settings(capacity, if admin in overrides then overrides[admin] else minInterval)
    }
  }

  /** An admin's own interval, or the common one. */
  lemma ForIs(cfg: Config, a: string)
    ensures cfg.For(a).capacity == cfg.capacity
    ensures cfg.For(a).interval == if a in cfg.overrides then cfg.overrides[a] else cfg.minInterval
  {
  }

  predicate PlausibleDid(did: string) {
    Text.ByteLength(did) >= 20 && (Text.HasPrefix(did, "bafyb") || Text.HasPrefix(did, "Qm"))
  }

  /** ValidateTransferReward */
  predicate ValidTransfer(cfg: Config, t: Q.Transfer) {
    && PlausibleDid(t.adminDid) && PlausibleDid(t.userDid) && t.adminDid in cfg.admins
    && t.activityIds != [] && forall i :: 0 <= i < |t.activityIds| ==> !Text.Blank(t.activityIds[i])
  }

  lemma PlausibleDidIs(did: string)
    ensures PlausibleDid(did) <==> Text.ByteLength(did) >= 20 && ("bafyb" <= did || "Qm" <= did)
  {
    Text.HasPrefixIs(did, "bafyb");
    Text.HasPrefixIs(did, "Qm");
  }

  lemma NoneBlankIs(ids: seq<string>)
    ensures (forall i :: 0 <= i < |ids| ==> !Text.Blank(ids[i]))
            <==> forall id :: id in ids ==> exists c :: c in id && !Text.IsSpace(c)
  {
    forall id | id in ids ensures Text.Blank(id) <==> !exists c :: c in id && !Text.IsSpace(c) {
      Text.BlankIs(id);
    }
    assert forall i :: 0 <= i < |ids| ==> ids[i] in ids;
  }

  /**
   In plain terms: both DIDs have at least 20 bytes and one of the two prefixes, the admin is registered, and
   there is an activity, each with a character that is no space.
   */
  lemma ValidTransferIs(cfg: Config, t: Q.Transfer)
    ensures ValidTransfer(cfg, t) <==>
            && Text.ByteLength(t.adminDid) >= 20 && ("bafyb" <= t.adminDid || "Qm" <= t.adminDid)
            && Text.ByteLength(t.userDid) >= 20 && ("bafyb" <= t.userDid || "Qm" <= t.userDid)
            && t.adminDid in cfg.admins && |t.activityIds| > 0
            && forall id :: id in t.activityIds ==> exists c :: c in id && !Text.IsSpace(c)
  {
    PlausibleDidIs(t.adminDid);
    PlausibleDidIs(t.userDid);
    NoneBlankIs(t.activityIds);
  }

  /** What the tables take of a request: 80 characters and blanks for a DID, and no '\0' anywhere. */
  lemma InsertableIs(job: Q.Job)
    ensures Insertable(job) <==>
            && |job.input.adminDid| <= 80 && '\0' !in job.input.adminDid && '\0' !in job.input.userDid
            && (forall i :: 80 <= i < |job.input.userDid| ==> job.input.userDid[i] == ' ')
            && forall i :: 0 <= i < |job.input.activityIds| ==> '\0' !in job.input.activityIds[i]
  {
  }

  /** The two handlers run the same protocol: create the row, obtain the queue, send, compensate. */
  datatype Handler = Created(job: Q.Job) | Sending(job: Q.Job) | Compensating(job: Q.Job)

  datatype Sys = Sys(
    now: int, queues: map<string, Q.Queue>, handlers: map<RequestId, Handler>, rows: Rows, activities: Activities,
    issued: set<RequestId>, slot: map<RequestId, (string, nat)>, sums: map<RequestId, Activities>,
    paid: map<RequestId, int>,
    unmarked: set<RequestId>, lost: set<RequestId>)

  datatype Event =
    | Tick(to: int)
    | AddActivity(admin: string, id: string, points: int)
    | CreateRow(job: Q.Job, stored: bool, reported: bool)
    | ObtainQueue(req: RequestId)
    | Send(req: RequestId)
    | Compensate(req: RequestId, applied: bool)
    | Worker(admin: string, move: Q.Event)
    | Mark(admin: string, applied: bool)
    | LookUpFails(admin: string, reason: string)
    | SumUp(admin: string)
    | Transact(admin: string, outcome: Q.Outcome)
    | Record(admin: string, applied: bool)

  function Start(now: int): Sys {
    Sys(now, map[], map[], map[], map[], {}, map[], map[], map[], {}, {})
  }

  /** The row a handler asks for. */
  function FreshRow(job: Q.Job, now: int): Row {
    Row(REWARD, job.input.adminDid, job.input.userDid, job.input.activityIds, 0, Queued, "queued for processing",
        "", "", "", now, now)
  }

  /** The columns take the request; the admin is registered, so its DID is no longer than the column. */
  predicate Insertable(job: Q.Job) {
    && |job.input.adminDid| <= DID_WIDTH && Text.NoNul(job.input.adminDid)
    && Text.NoNul(job.input.userDid) && Text.FitsWidth(job.input.userDid, DID_WIDTH)
    && forall i :: 0 <= i < |job.input.activityIds| ==> Text.NoNul(job.input.activityIds[i])
  }

  /** The row the table keeps of it. */
  function KeptRow(job: Q.Job, now: int): Row {
    FreshRow(job, now).(userDid := Text.Cut(job.input.userDid, DID_WIDTH))
  }

  const MARK_PROCESSING: Updates := map[StatusColumn := StatusValue(Processing)]

  function MarkRefused(reason: string): Updates {
    map[StatusColumn := StatusValue(Failed), MessageColumn := TextValue("queue full, not enqueued"),
        ErrorDetailsColumn := TextValue(reason)]
  }

  /** The status fields processOne writes for an outcome. */
  function OutcomeUpdates(cfg: Config, job: Q.Job, o: Q.Outcome): Updates {
    match o
    case Broken(reason) =>
      map[StatusColumn := StatusValue(Failed), MessageColumn := TextValue("reward transfer failed"),
          ErrorDetailsColumn := TextValue(reason)]
    case Garbled =>
      map[StatusColumn := StatusValue(Failed), MessageColumn := TextValue("reward transfer failed"),
          ErrorDetailsColumn := BytesValue]
    case Paid(points, tx, hash) =>
      var text := "transferred " + (if points >= 0 then Text.Decimal(points) else "-" + Text.Decimal(-points))
                  + " " + cfg.ftName + " to " + job.input.userDid;
      map[StatusColumn := StatusValue(Success), MessageColumn := TextValue(text),
          RewardPointsColumn := IntValue(points)]
      + (if tx != "" then map[TransactionIdColumn := TextValue(tx)] else map[])
      + (if hash != "" then map[ContractHashColumn := TextValue(hash)] else map[])
  }

  const QUEUE_FULL := "queue: admin queue is full"
  const ZERO_POINTS := "activities resolved to zero reward points"

  predicate Hands(s: Sys, a: string) {
    a in s.queues && s.queues[a].phase.Running?
  }

  /** The job context is still alive: writes made later fail. */
  predicate InDeadline(cfg: Config, s: Sys, a: string)
    requires Hands(s, a)
  {
    s.now < s.queues[a].phase.start + cfg.procTimeout
  }

  predicate Enabled(cfg: Config, s: Sys, e: Event) {
    match e
    case Tick(to) => s.now <= to
    case AddActivity(admin, id, points) => points >= 0 && ActivityFits(admin, id, points)
    case CreateRow(job, stored, reported) =>
      && job.requestId !in s.issued && ValidTransfer(cfg, job.input)
      && (reported ==> stored) && (stored ==> Insertable(job))
    case ObtainQueue(req) => req in s.handlers && s.handlers[req].Created?
    case Send(req) => req in s.handlers && s.handlers[req].Sending? && s.handlers[req].job.input.adminDid in s.queues
    case Compensate(req, _) => req in s.handlers && s.handlers[req].Compensating?
    case Worker(a, m) =>
      && a in s.queues && Q.Enabled(cfg.For(a), Q.View(s.now, s.queues[a]), m)
      && (m.Receive? || m.CheckSpacing? || m.Wake? || m.Start? || m.Stamp?
          || (m.Return? && s.queues[a].phase.stage.Recorded?))
    case Mark(a, applied) => Hands(s, a) && s.queues[a].phase.stage.Starting? && (applied ==> InDeadline(cfg, s, a))
    case LookUpFails(a, _) => Hands(s, a) && s.queues[a].phase.stage.Marked?
    case SumUp(a) => Hands(s, a) && s.queues[a].phase.stage.Marked?
    case Transact(a, o) =>
      Hands(s, a) && s.queues[a].phase.stage.Summed? && (o.Paid? ==> o.points == s.queues[a].phase.stage.points)
    case Record(a, applied) =>
      && Hands(s, a) && s.queues[a].phase.stage.Settled?
      && (applied ==>
            && InDeadline(cfg, s, a)
            && AllFit(OutcomeUpdates(cfg, s.queues[a].phase.job, s.queues[a].phase.stage.outcome)))
  }

  function Stored(s: Sys, req: RequestId, updates: Updates, applied: bool): Rows {
    if applied then UpdateRow(s.rows, req, updates, s.now).0 else s.rows
  }

  function Move(cfg: Config, s: Sys, a: string, m: Q.Event): Q.Queue
    requires a in s.queues && Q.Enabled(cfg.For(a), Q.View(s.now, s.queues[a]), m)
  {
    Q.Apply(cfg.For(a), Q.View(s.now, s.queues[a]), m).queue
  }

  /** The stage after the points were summed: ProcessTransferReward stops at a sum of zero or less. */
  ghost function AfterSum(s: Sys, job: Q.Job): Q.Stage {
    var points := SumPoints(s.activities, job.input.adminDid, job.input.activityIds);
    if points <= 0 then Q.Settled(Q.Broken(ZERO_POINTS)) else Q.Summed(points)
  }

  /** What the run of a job does to its own queue. */
  ghost function QueueMove(cfg: Config, s: Sys, e: Event): Q.Event
    requires Enabled(cfg, s, e)
    requires Moves(e)
  {
    match e
    case Worker(_, m) => m
    case Mark(_, _) => Q.Progress(Q.Marked)
    case LookUpFails(_, reason) => Q.Progress(Q.Settled(Q.Broken(reason)))
    case SumUp(a) => Q.Progress(AfterSum(s, s.queues[a].phase.job))
    case Transact(_, o) => Q.Progress(Q.Settled(o))
    case Record(_, _) => Q.Progress(Q.Recorded)
  }

  function AfterCreate(s: Sys, job: Q.Job, stored: bool, reported: bool): Sys {
    var r := job.requestId;
    s.(issued := s.issued + {r},
       rows := if stored then s.rows[r := KeptRow(job, s.now)] else s.rows,
       handlers := if reported then s.handlers[r := Created(job)] else s.handlers,
       lost := if stored && !reported then s.lost + {r} else s.lost)
  }

  /** getOrCreate, as the one atomic step it is equivalent to (see DoubleChecked). */
  function AfterObtain(s: Sys, req: RequestId): Sys
    requires req in s.handlers
  {
    var job := s.handlers[req].job;
    s.(queues := if job.input.adminDid in s.queues then s.queues else s.queues[job.input.adminDid := Q.EMPTY],
       handlers := s.handlers[req := Sending(job)])
  }

  /** The non-blocking channel send of Enqueue. */
  function AfterSend(cfg: Config, s: Sys, req: RequestId): Sys
    requires req in s.handlers && s.handlers[req].job.input.adminDid in s.queues
  {
    var job := s.handlers[req].job;
    var a := job.input.adminDid;
    if |s.queues[a].channel| < cfg.capacity then
      s.(queues := s.queues[a := Move(cfg, s, a, Q.Accept(job))], handlers := s.handlers - {req},
         slot := s.slot[req := (a, |s.queues[a].accepted|)])
    else
      s.(queues := s.queues[a := Move(cfg, s, a, Q.Refuse(job))], handlers := s.handlers[req := Compensating(job)])
  }

  function AfterCompensate(s: Sys, req: RequestId, applied: bool): Sys {
    s.(rows := Stored(s, req, MarkRefused(QUEUE_FULL), applied), handlers := s.handlers - {req},
       lost := if applied then s.lost else s.lost + {req})
  }

  function AfterMove(cfg: Config, s: Sys, a: string, m: Q.Event): Sys
    requires a in s.queues && Q.Enabled(cfg.For(a), Q.View(s.now, s.queues[a]), m)
  {
    s.(queues := s.queues[a := Move(cfg, s, a, m)])
  }

  /** The events by which a worker moves its own queue. */
  predicate Moves(e: Event) {
    e.Worker? || e.Mark? || e.LookUpFails? || e.SumUp? || e.Transact? || e.Record?
  }

  function RowsAfter(cfg: Config, s: Sys, e: Event): Rows
    requires Enabled(cfg, s, e) && Moves(e)
  {
    if e.Mark? then Stored(s, s.queues[e.admin].phase.job.requestId, MARK_PROCESSING, e.applied)
    else if e.Record? then
      var job := s.queues[e.admin].phase.job;
      Stored(s, job.requestId, OutcomeUpdates(cfg, job, s.queues[e.admin].phase.stage.outcome), e.applied)
    else s.rows
  }

  function SumsAfter(s: Sys, e: Event): map<RequestId, Activities>
    requires e.SumUp? ==> Hands(s, e.admin)
  {
    if e.SumUp? then s.sums[s.queues[e.admin].phase.job.requestId := s.activities] else s.sums
  }

  function PaidAfter(s: Sys, e: Event): map<RequestId, int>
    requires e.Record? ==> Hands(s, e.admin) && s.queues[e.admin].phase.stage.Settled?
  {
    if e.Record? && e.applied && s.queues[e.admin].phase.stage.outcome.Paid?
    then s.paid[s.queues[e.admin].phase.job.requestId := s.queues[e.admin].phase.stage.outcome.points] else s.paid
  }

  ghost function AfterWork(cfg: Config, s: Sys, e: Event): Sys
    requires Enabled(cfg, s, e) && Moves(e)
  {
    AfterMove(cfg, s, e.admin, QueueMove(cfg, s, e)).(
      rows := RowsAfter(cfg, s, e), sums := SumsAfter(s, e), paid := PaidAfter(s, e),
      unmarked := if e.Mark? && !e.applied then s.unmarked + {s.queues[e.admin].phase.job.requestId} else s.unmarked,
      lost := if e.Record? && !e.applied then s.lost + {s.queues[e.admin].phase.job.requestId} else s.lost)
  }

  ghost function Apply(cfg: Config, s: Sys, e: Event): Sys
    requires Enabled(cfg, s, e)
  {
    if Moves(e) then AfterWork(cfg, s, e)
    else if e.Tick? then s.(now := e.to)
    else if e.AddActivity? then s.(activities := StoreActivity(s.activities, e.admin, e.id, e.points))
    else if e.CreateRow? then AfterCreate(s, e.job, e.stored, e.reported)
    else if e.ObtainQueue? then AfterObtain(s, e.req)
    else if e.Send? then AfterSend(cfg, s, e.req)
    else AfterCompensate(s, e.req, e.applied)
  }

  ghost predicate Legal(cfg: Config, s: Sys, es: seq<Event>)
    decreases |es|
  {
    es == [] || (Enabled(cfg, s, es[0]) && Legal(cfg, Apply(cfg, s, es[0]), es[1..]))
  }

  ghost function Exec(cfg: Config, s: Sys, es: seq<Event>): Sys
    requires Legal(cfg, s, es)
    decreases |es|
  {
    if es == [] then s else Exec(cfg, Apply(cfg, s, es[0]), es[1..])
  }

  /* -------------------- one admin's share of a run: no interference -------------------- */

  /** What an observer of one admin's queue sees; an admin without a queue looks like an empty one. */
  function ViewOf(s: Sys, a: string): Q.View {
    Q.View(s.now, if a in s.queues then s.queues[a] else Q.EMPTY)
  }

  ghost function ShareOf(cfg: Config, s: Sys, e: Event, a: string): seq<Q.Event>
    requires Enabled(cfg, s, e)
  {
    match e
    case Tick(to) => [Q.Tick(to)]
    case Send(req) =>
      var job := s.handlers[req].job;
      if job.input.adminDid != a then [] else
      if |s.queues[a].channel| < cfg.capacity then [Q.Accept(job)] else [Q.Refuse(job)]
    case AddActivity(_, _, _) => []
    case CreateRow(_, _, _) => []
    case ObtainQueue(_) => []
    case Compensate(_, _) => []
    case _ => if e.admin == a then [QueueMove(cfg, s, e)] else []
  }

  ghost function Project(cfg: Config, s: Sys, es: seq<Event>, a: string): seq<Q.Event>
    requires Legal(cfg, s, es)
    decreases |es|
  {
    if es == [] then [] else ShareOf(cfg, s, es[0], a) + Project(cfg, Apply(cfg, s, es[0]), es[1..], a)
  }

  lemma ShareOfWork(cfg: Config, s: Sys, e: Event, a: string)
    requires Enabled(cfg, s, e) && Moves(e)
    ensures e.admin != a ==> ViewOf(AfterWork(cfg, s, e), a) == ViewOf(s, a)
    ensures e.admin == a ==>
              && Q.Enabled(cfg.For(a), ViewOf(s, a), QueueMove(cfg, s, e))
              && Q.Apply(cfg.For(a), ViewOf(s, a), QueueMove(cfg, s, e)) == ViewOf(AfterWork(cfg, s, e), a)
  {
  }

  lemma ShareOfSend(cfg: Config, s: Sys, req: RequestId, a: string)
    requires Enabled(cfg, s, Send(req))
    ensures var share := ShareOf(cfg, s, Send(req), a);
            && (share == [] ==> ViewOf(AfterSend(cfg, s, req), a) == ViewOf(s, a))
            && (share != [] ==> |share| == 1 && Q.Enabled(cfg.For(a), ViewOf(s, a), share[0])
                                && Q.Apply(cfg.For(a), ViewOf(s, a), share[0]) == ViewOf(AfterSend(cfg, s, req), a))
  {
  }

  /** One event of the system is at most one event of a given admin's queue. */
  lemma ShareStep(cfg: Config, s: Sys, e: Event, a: string)
    requires Enabled(cfg, s, e)
    ensures var share := ShareOf(cfg, s, e, a);
            && (share == [] ==> ViewOf(Apply(cfg, s, e), a) == ViewOf(s, a))
            && (share != [] ==> |share| == 1 && Q.Enabled(cfg.For(a), ViewOf(s, a), share[0])
                                && Q.Apply(cfg.For(a), ViewOf(s, a), share[0]) == ViewOf(Apply(cfg, s, e), a))
  {
    if Moves(e) {
      ShareOfWork(cfg, s, e, a);
    } else if e.Send? {
      ShareOfSend(cfg, s, e.req, a);
    }
  }

  /**
   Admins do not interfere: restricting any run to one admin's events is a legal run of a manager that
   serves this admin alone, with the same acceptances, refusals, starts and times.
   */
  lemma {:induction false} ProjectionIsSoloRun(cfg: Config, s: Sys, es: seq<Event>, a: string)
    requires Legal(cfg, s, es)
    ensures Q.Legal(cfg.For(a), ViewOf(s, a), Project(cfg, s, es, a))
    ensures Q.Exec(cfg.For(a), ViewOf(s, a), Project(cfg, s, es, a)) == ViewOf(Exec(cfg, s, es), a)
    decreases |es|
  {
    if es != [] {
      var t := Apply(cfg, s, es[0]);
      ShareStep(cfg, s, es[0], a);
      ProjectionIsSoloRun(cfg, t, es[1..], a);
      var share, rest := ShareOf(cfg, s, es[0], a), Project(cfg, t, es[1..], a);
      if share == [] {
        assert share + rest == rest;
      } else {
        assert (share + rest)[0] == share[0] && (share + rest)[1..] == rest;
      }
    }
  }

  /** Two runs that agree on one admin's events agree on everything that admin can observe. */
  lemma NoInterference(cfg: Config, now: int, es: seq<Event>, fs: seq<Event>, a: string)
    requires Legal(cfg, Start(now), es) && Legal(cfg, Start(now), fs)
    requires Project(cfg, Start(now), es, a) == Project(cfg, Start(now), fs, a)
    ensures ViewOf(Exec(cfg, Start(now), es), a) == ViewOf(Exec(cfg, Start(now), fs), a)
  {
    ProjectionIsSoloRun(cfg, Start(now), es, a);
    ProjectionIsSoloRun(cfg, Start(now), fs, a);
  }
}
