/**
 The request handler and the worker's run of one job, as the sequences of effects they are: on the
 ledger tables and on the queue manager. Both update the same state the machine of PayoutSystem steps
 through; their contracts spell out the rows and channels they leave.
 */
module PayoutService {
  import opened Basics
  import opened Ledger
  import opened QueueManager
  import Q = PayoutQueue
  import S = PayoutSystem
  import FinalRows
  import LedgerInvariant
  import Text

  /** How one job meets the outside world. */
  datatype World = World(
    lookUpError: Option<string>,          // GetAdminContract or the sum query fails
    chain: Q.Outcome,                     // what PostTx and Sign give for a transfer of the summed points
    markAlive: bool, recordAlive: bool,   // the job's context is live at each of the two writes
    markAt: int, recordAt: int)           // when they are made

  /** What becomes of the insert of a fresh id: done, refused, or done and reported as failed. */
  datatype Insert = Works | Refused | Misreported

  /** The job went last into its admin's channel, which had room. */
  ghost predicate Joined(before: map<string, seq<Q.Job>>, after: map<string, seq<Q.Job>>, job: Q.Job, capacity: nat) {
    var a := job.input.adminDid;
    |ChannelOf(before, a)| < capacity && after == before[a := ChannelOf(before, a) + [job]]
  }

  /** The admin's channel was full; nothing waits that did not wait before. */
  ghost predicate Turned(before: map<string, seq<Q.Job>>, after: map<string, seq<Q.Job>>, job: Q.Job, capacity: nat) {
    var a := job.input.adminDid;
    |ChannelOf(before, a)| >= capacity && after == before[a := ChannelOf(before, a)]
  }

  function RefusedRow(job: Q.Job, now: int): Row {
    S.KeptRow(job, now).(status := Failed, message := "queue full, not enqueued", errorDetails := S.QUEUE_FULL)
  }

  /** The row of a refused request: failed, or still queued if the write that says so is lost. */
  function TurnedRow(job: Q.Job, now: int, compensates: bool): Row {
    if compensates then RefusedRow(job, now) else S.KeptRow(job, now)
  }

  function AfterInsert(rows: Rows, job: Q.Job, now: int, insert: Insert): Rows {
    if job.requestId in rows || insert.Refused? || !S.Insertable(job) then rows
    else rows[job.requestId := S.KeptRow(job, now)]
  }

  /** What each status code says about the table. */
  ghost predicate RowsTold(code: nat, before: Rows, after: Rows, job: Q.Job, now: int, insert: Insert,
                           compensates: bool)
  {
    && (code == 500 <==> job.requestId in before || !insert.Works? || !S.Insertable(job))
    && match code
       case 202 => after == before[job.requestId := S.KeptRow(job, now)]
       case 503 => after == before[job.requestId := TurnedRow(job, now, compensates)]
       case _ => code == 500 && after == AfterInsert(before, job, now, insert)
  }

  /** What each status code says about the channels. */
  ghost predicate ChannelsTold(code: nat, before: map<string, seq<Q.Job>>, after: map<string, seq<Q.Job>>, job: Q.Job,
                               capacity: nat)
  {
    match code
    case 202 => Joined(before, after, job, capacity)
    case 503 => Turned(before, after, job, capacity)
    case _ => after == before
  }

  /**
   The codes in plain terms. 500 exactly on a taken id, an insert not reported as done, or a request the
   tables do not take; 202 leaves a queued row, 503 a failed one, or a queued one if the compensating write
   is lost, 500 the table as it was, or with the queued row if the insert was done and misreported.
   */
  lemma RowsToldIs(code: nat, before: Rows, after: Rows, job: Q.Job, now: int, insert: Insert, compensates: bool)
    requires RowsTold(code, before, after, job, now, insert, compensates)
    ensures code == 202 || code == 503 || code == 500
    ensures code == 500 <==> job.requestId in before || insert != Works || !S.Insertable(job)
    ensures var t := job.input;
            var queued := Row("reward", t.adminDid, Text.Cut(t.userDid, 80), t.activityIds, 0, Queued,
                              "queued for processing", "", "", "", now, now);
            var failed := queued.(status := Failed, message := "queue full, not enqueued",
                                  errorDetails := "queue: admin queue is full");
            after == if code == 202 then before[job.requestId := queued]
                     else if code == 503 then before[job.requestId := if compensates then failed else queued]
                     else if insert == Misreported && job.requestId !in before && S.Insertable(job)
                     then before[job.requestId := queued] else before
  {
  }

  /** 202 exactly puts the job last where there was room; otherwise nothing waits that did not wait before. */
  lemma ChannelsToldIs(code: nat, before: map<string, seq<Q.Job>>, after: map<string, seq<Q.Job>>, job: Q.Job,
                       capacity: nat)
    requires ChannelsTold(code, before, after, job, capacity)
    ensures var a := job.input.adminDid;
            var waiting := if a in before then before[a] else [];
            && (code == 202 ==> |waiting| < capacity && after == before[a := waiting + [job]])
            && (code == 503 ==> |waiting| >= capacity && after == before[a := waiting])
            && (code != 202 && code != 503 ==> after == before)
  {
  }

  lemma RefusalRow(rows: Rows, job: Q.Job, now: int)
    ensures var r := job.requestId;
            UpdateRow(rows[r := S.KeptRow(job, now)], r, S.MarkRefused(S.QUEUE_FULL), now).0
            == rows[r := RefusedRow(job, now)]
  {
    var updates := S.MarkRefused(S.QUEUE_FULL);
    assert forall c :: c in updates ==> Allowed(c);
    LedgerInvariant.RefusalFits();
    assert StatusColumn in updates;
  }

  /** The row once the outcome is written; an empty id or hash leaves the old one. */
  function Told(cfg: S.Config, before: Row, job: Q.Job, o: Q.Outcome, now: int): Row
    requires FinalRows.Fitting(cfg, job, o)
  {
    match o
    case Broken(reason) =>
      before.(status := Failed, message := "reward transfer failed", errorDetails := reason, updatedAt := now)
    case Paid(points, tx, hash) =>
      before.(status := Success, rewardPoints := points, updatedAt := now,
              message := "transferred " + (if points >= 0 then Text.Decimal(points) else "-" + Text.Decimal(-points))
                         + " " + cfg.ftName + " to " + job.input.userDid,
              transactionId := if tx != "" then Text.Cut(tx, 128) else before.transactionId,
              contractHash := if hash != "" then Text.Cut(hash, 128) else before.contractHash)
  }

  lemma FailureWritten(cfg: S.Config, row: Row, job: Q.Job, reason: string, now: int)
    requires Text.NoNul(reason)
    ensures var o := Q.Broken(reason);
            AllFit(S.OutcomeUpdates(cfg, job, o))
            && Simultaneous(row, S.OutcomeUpdates(cfg, job, o)[UpdatedAtColumn := TimeValue(now)])
               == Told(cfg, row, job, o, now)
  {
    FinalRows.FittingMeansAllFit(cfg, job, Q.Broken(reason));
  }

  lemma PaymentWritten(cfg: S.Config, row: Row, job: Q.Job, points: int, tx: string, hash: string, now: int)
    requires FinalRows.Fitting(cfg, job, Q.Paid(points, tx, hash))
    ensures var o := Q.Paid(points, tx, hash);
            AllFit(S.OutcomeUpdates(cfg, job, o))
            && Simultaneous(row, S.OutcomeUpdates(cfg, job, o)[UpdatedAtColumn := TimeValue(now)])
               == Told(cfg, row, job, o, now)
  {
    FinalRows.FittingMeansAllFit(cfg, job, Q.Paid(points, tx, hash));
  }

  lemma OutcomeWritten(cfg: S.Config, rows: Rows, job: Q.Job, o: Q.Outcome, now: int)
    requires job.requestId in rows && FinalRows.Fitting(cfg, job, o)
    ensures UpdateRow(rows, job.requestId, S.OutcomeUpdates(cfg, job, o), now).0
            == rows[job.requestId := Told(cfg, rows[job.requestId], job, o, now)]
  {
    LedgerInvariant.OutcomeUpdatesAllowed(cfg, job, o);
    if o.Broken? {
      FailureWritten(cfg, rows[job.requestId], job, o.reason, now);
    } else {
      PaymentWritten(cfg, rows[job.requestId], job, o.points, o.transactionId, o.contractHash, now);
    }
  }

  /** What a column does not take makes the whole statement fail, and nothing is written. */
  lemma UnfittingNotWritten(cfg: S.Config, rows: Rows, job: Q.Job, o: Q.Outcome, now: int)
    requires !FinalRows.Fitting(cfg, job, o)
    ensures UpdateRow(rows, job.requestId, S.OutcomeUpdates(cfg, job, o), now).0 == rows
  {
    FinalRows.FittingMeansAllFit(cfg, job, o);
  }

  function Marked(row: Row, now: int): Row {
    row.(status := Processing, updatedAt := now)
  }

  lemma MarkKeepsTheRow(rows: Rows, r: RequestId, now: int)
    ensures UpdateRow(rows, r, S.MARK_PROCESSING, now).0 == if r in rows then rows[r := Marked(rows[r], now)] else rows
  {
    assert forall c :: c in S.MARK_PROCESSING ==> Allowed(c);
    assert StatusColumn in S.MARK_PROCESSING && AllFit(S.MARK_PROCESSING);
  }

  lemma RowFitsIffInsertable(job: Q.Job, now: int)
    requires |job.input.adminDid| <= DID_WIDTH
    ensures RowFits(S.FreshRow(job, now)) <==> S.Insertable(job)
    ensures CutRow(S.FreshRow(job, now)) == S.KeptRow(job, now)
  {
    assert Text.NoNul("queued for processing") && Text.NoNul(REWARD);
  }

  lemma ValidHasAdmin(cfg: S.Config, t: Q.Transfer)
    requires cfg.Valid() && S.ValidTransfer(cfg, t)
    ensures 0 < |t.adminDid| <= DID_WIDTH
  {
  }

  class Server {
    const store: Store
    const manager: Manager
    const cfg: S.Config

    ghost predicate Valid()
      reads this, manager, manager.queues.Values
    {
      manager.Valid()
    }

    constructor (store: Store, manager: Manager, cfg: S.Config)
      requires manager.Valid()
      ensures this.store == store && this.manager == manager && this.cfg == cfg && Valid()
    {
      this.store, this.manager, this.cfg := store, manager, cfg;
    }

    method ValidateTransferReward(t: Q.Transfer) returns (ok: bool)
      requires cfg.Valid()
      ensures ok <==>
              && Text.ByteLength(t.adminDid) >= 20 && ("bafyb" <= t.adminDid || "Qm" <= t.adminDid)
              && Text.ByteLength(t.userDid) >= 20 && ("bafyb" <= t.userDid || "Qm" <= t.userDid)
              && t.adminDid in cfg.admins && |t.activityIds| > 0
              && forall id :: id in t.activityIds ==> exists c :: c in id && !Text.IsSpace(c)
      ensures ok ==> 0 < |t.adminDid| <= DID_WIDTH
    {
      S.ValidTransferIs(cfg, t);
      if !S.PlausibleDid(t.adminDid) || !S.PlausibleDid(t.userDid) || t.adminDid !in cfg.admins || t.activityIds == [] {
        return false;
      }
      for i := 0 to |t.activityIds|
        invariant forall k :: 0 <= k < i ==> !Text.Blank(t.activityIds[k])
      {
        if Text.Blank(t.activityIds[i]) {
          return false;
        }
      }
      ValidHasAdmin(cfg, t);
      return true;
    }

    /**
     202: the row is queued and the job is last in its admin's channel. 503: no channel changed and the row
     is failed, or still queued if the compensating write was lost. 400: nothing changed. 500: no channel
     changed, and the table only if the insert was done and reported as failed.
     */
    method HandleTransferReward(req: RequestId, t: Q.Transfer, now: int, insert: Insert, compensates: bool)
      returns (code: nat)
      requires Valid() && cfg.Valid()
      modifies store`rows, manager`queues, manager.queues.Values, manager.Channels()
      ensures Valid()
      ensures code != 400 <==>
              && Text.ByteLength(t.adminDid) >= 20 && ("bafyb" <= t.adminDid || "Qm" <= t.adminDid)
              && Text.ByteLength(t.userDid) >= 20 && ("bafyb" <= t.userDid || "Qm" <= t.userDid)
              && t.adminDid in cfg.admins && |t.activityIds| > 0
              && forall id :: id in t.activityIds ==> exists c :: c in id && !Text.IsSpace(c)
      ensures code == 400 ==> store.rows == old(store.rows) && manager.Waiting() == old(manager.Waiting())
      ensures code != 400 ==>
                && RowsTold(code, old(store.rows), store.rows, Q.Job(req, t), now, insert, compensates)
                && ChannelsTold(code, old(manager.Waiting()), manager.Waiting(), Q.Job(req, t), manager.bufferSize)
    {
      var ok := ValidateTransferReward(t);
      if !ok {
        return 400;
      }
      code := Persist(Q.Job(req, t), now, insert, compensates);
    }

    method Persist(job: Q.Job, now: int, insert: Insert, compensates: bool) returns (code: nat)
      requires Valid() && 0 < |job.input.adminDid| <= DID_WIDTH
      modifies store`rows, manager`queues, manager.queues.Values, manager.Channels()
      ensures Valid() && code != 400
      ensures RowsTold(code, old(store.rows), store.rows, job, now, insert, compensates)
      ensures ChannelsTold(code, old(manager.Waiting()), manager.Waiting(), job, manager.bufferSize)
    {
      var stored := Create(job, now, insert);
      if !stored {
        return 500;
      }
      code := Submit(job, now);
      if code == 503 && compensates {
        Compensate(job, now, old(store.rows));
      }
    }

    method Compensate(job: Q.Job, now: int, ghost before: Rows)
      requires Valid() && store.rows == before[job.requestId := S.KeptRow(job, now)]
      modifies store`rows
      ensures Valid() && manager.Waiting() == old(manager.Waiting())
      ensures store.rows == before[job.requestId := RefusedRow(job, now)]
    {
      RefusalRow(before, job, now);
      var _ := store.UpdateTransferStatus(job.requestId, S.MarkRefused(S.QUEUE_FULL), now);
    }

    method Create(job: Q.Job, now: int, insert: Insert) returns (reported: bool)
      requires Valid() && |job.input.adminDid| <= DID_WIDTH
      modifies store`rows
      ensures Valid() && manager.Waiting() == old(manager.Waiting()) && manager.Channels() == old(manager.Channels())
      ensures reported <==> job.requestId !in old(store.rows) && insert.Works? && S.Insertable(job)
      ensures store.rows == AfterInsert(old(store.rows), job, now, insert)
    {
      if insert.Refused? {
        return false;
      }
      RowFitsIffInsertable(job, now);
      reported := store.CreateTransferStatus(job.requestId, S.FreshRow(job, now), now);
      reported := reported && insert.Works?;
    }

    method Submit(job: Q.Job, now: int) returns (code: nat)
      requires Valid() && job.input.adminDid != ""
      modifies manager`queues, manager.queues.Values, manager.Channels()
      ensures Valid() && (code == 202 || code == 503)
      ensures ChannelsTold(code, old(manager.Waiting()), manager.Waiting(), job, manager.bufferSize)
    {
      ghost var channel := ChannelOf(manager.Waiting(), job.input.adminDid);
      assert channel + [] == channel;
      var sent := manager.Enqueue(job);
      code := if sent.QueueFull? then 503 else 202;
    }

    /** The activity is stored only once the chain has it; one its columns do not take is then on the chain alone. */
    method AddActivity(admin: string, id: string, points: int, hasContract: bool, chainAccepts: bool) returns (ok: bool)
      modifies store`activities
      ensures ok <==> id != "" && points >= 0 && hasContract && chainAccepts && ActivityFits(admin, id, points)
      ensures store.activities == if ok then StoreActivity(old(store.activities), admin, id, points)
              else old(store.activities)
    {
      if id == "" || points < 0 || !hasContract || !chainAccepts {
        return false;
      }
      ok := store.CreateActivity(admin, id, points);
    }

    /** The points paid are the sum over the distinct listed activities; a sum of zero or less is refused. */
    method ProcessTransferReward(t: Q.Transfer, w: World) returns (o: Q.Outcome)
      ensures o == if w.lookUpError.Some? then Q.Broken(w.lookUpError.value)
                   else var points := SumPoints(store.activities, t.adminDid, t.activityIds);
                        if points <= 0 then Q.Broken("activities resolved to zero reward points")
                        else if !w.chain.Paid? then w.chain
                        else Q.Paid(points, w.chain.transactionId, w.chain.contractHash)
    {
      if w.lookUpError.Some? {
        return Q.Broken(w.lookUpError.value);
      }
      SumPointsIsSumListed(store.activities, t.adminDid, t.activityIds);
      var points := SumListed(store.activities, t.adminDid, t.activityIds);
      if points <= 0 {
        return Q.Broken(S.ZERO_POINTS);
      }
      o := if w.chain.Paid? then w.chain.(points := points) else w.chain;
    }

    method MarkProcessing(r: RequestId, w: World)
      modifies store`rows
      ensures store.rows == if w.markAlive && r in old(store.rows)
                            then old(store.rows)[r := old(store.rows)[r].(status := Processing, updatedAt := w.markAt)]
                            else old(store.rows)
    {
      if w.markAlive {
        MarkKeepsTheRow(store.rows, r, w.markAt);
        var _ := store.UpdateTransferStatus(r, S.MARK_PROCESSING, w.markAt);
      }
    }

    method RecordOutcome(job: Q.Job, o: Q.Outcome, w: World)
      modifies store`rows
      ensures store.rows == if w.recordAlive && job.requestId in old(store.rows) && FinalRows.Fitting(cfg, job, o)
                            then old(store.rows)[job.requestId :=
                              Told(cfg, old(store.rows)[job.requestId], job, o, w.recordAt)]
                            else old(store.rows)
    {
      if w.recordAlive {
        if !FinalRows.Fitting(cfg, job, o) {
          UnfittingNotWritten(cfg, store.rows, job, o, w.recordAt);
        } else if job.requestId in store.rows {
          OutcomeWritten(cfg, store.rows, job, o, w.recordAt);
        }
        var _ := store.UpdateTransferStatus(job.requestId, S.OutcomeUpdates(cfg, job, o), w.recordAt);
      }
    }

    /**
     Two writes, each of which happens only while the context is live. The row ends failed, or successful
     with exactly the summed points, unless the last write comes too late or its points do not fit; then
     it stays as the first write left it.
     */
    method ProcessOne(job: Q.Job, w: World) returns (o: Q.Outcome)
      modifies store`rows
      ensures o == if w.lookUpError.Some? then Q.Broken(w.lookUpError.value)
                   else var points := SumPoints(store.activities, job.input.adminDid, job.input.activityIds);
                        if points <= 0 then Q.Broken("activities resolved to zero reward points")
                        else if !w.chain.Paid? then w.chain
                        else Q.Paid(points, w.chain.transactionId, w.chain.contractHash)
      ensures job.requestId !in old(store.rows) ==> store.rows == old(store.rows)
      ensures job.requestId in old(store.rows) && w.recordAlive && FinalRows.Fitting(cfg, job, o) ==>
                var before := old(store.rows)[job.requestId];
                store.rows == old(store.rows)[job.requestId :=
                  if o.Broken? then before.(status := Failed, message := "reward transfer failed",
                                            errorDetails := o.reason, updatedAt := w.recordAt)
                  else before.(status := Success, rewardPoints := o.points, updatedAt := w.recordAt,
                               message := "transferred " + Text.Decimal(o.points) + " " + cfg.ftName
                                          + " to " + job.input.userDid,
                               transactionId := if o.transactionId != "" then Text.Cut(o.transactionId, 128)
                                                else before.transactionId,
                               contractHash := if o.contractHash != "" then Text.Cut(o.contractHash, 128)
                                               else before.contractHash)]
      ensures job.requestId in old(store.rows) && !(w.recordAlive && FinalRows.Fitting(cfg, job, o)) ==>
                var before := old(store.rows)[job.requestId];
                store.rows == if w.markAlive
                              then old(store.rows)[job.requestId :=
                                before.(status := Processing, updatedAt := w.markAt)]
                              else old(store.rows)
    {
      MarkProcessing(job.requestId, w);
      o := ProcessTransferReward(job.input, w);
      RecordOutcome(job, o, w);
    }
  }
}
