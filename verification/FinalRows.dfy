/**
 When the outcome of a job can still reach its row: exactly while the job's deadline has not passed and
 the outcome fits the columns. The condition can be read off before the write is attempted.
 */
module FinalRows {
  import opened Basics
  import opened Ledger
  import opened PayoutSystem
  import opened LedgerInvariant
  import opened LedgerTheorems
  import Q = PayoutQueue
  import Text

  /** The worker of admin a knows how its job ended and has not written it down yet. */
  predicate Settled(s: Sys, a: string) {
    Hands(s, a) && s.queues[a].phase.stage.Settled?
  }

  function RequestOf(s: Sys, a: string): RequestId
    requires Hands(s, a)
  {
    s.queues[a].phase.job.requestId
  }

  /** A VARCHAR(128) id column takes this text. */
  predicate IdFits(id: string) {
    Text.NoNul(id) && Text.FitsWidth(id, ID_WIDTH)
  }

  /**
   The columns take what the outcome writes. An error needs a text PostgreSQL accepts: UTF-8 without the
   zero character. A payment needs points that are a 4-byte integer, ids no wider than their columns, and
   no zero character in these or in the names its message quotes.
   */
  predicate Fitting(cfg: Config, job: Q.Job, o: Q.Outcome) {
    match o
    case Garbled => false
    case Broken(reason) => Text.NoNul(reason)
    case Paid(points, tx, hash) =>
      && MIN_INT4 <= points <= MAX_INT4 && IdFits(tx) && IdFits(hash)
      && Text.NoNul(cfg.ftName) && Text.NoNul(job.input.userDid)
  }

  predicate CanRecord(cfg: Config, s: Sys, a: string)
    requires Settled(s, a)
  {
    InDeadline(cfg, s, a) && Fitting(cfg, s.queues[a].phase.job, s.queues[a].phase.stage.outcome)
  }

  lemma NumberHasNoNul(points: int)
    ensures Text.NoNul(if points >= 0 then Text.Decimal(points) else "-" + Text.Decimal(-points))
  {
  }

  /** The message of a payment holds the zero character only if one of the quoted names does. */
  lemma MessageFits(cfg: Config, job: Q.Job, points: int, tx: string, hash: string)
    ensures var updates := OutcomeUpdates(cfg, job, Q.Paid(points, tx, hash));
            && MessageColumn in updates && updates[MessageColumn].TextValue?
            && (Text.NoNul(updates[MessageColumn].text) <==> Text.NoNul(cfg.ftName) && Text.NoNul(job.input.userDid))
  {
    NumberHasNoNul(points);
    var text := OutcomeUpdates(cfg, job, Q.Paid(points, tx, hash))[MessageColumn].text;
    var number := if points >= 0 then Text.Decimal(points) else "-" + Text.Decimal(-points);
    assert Text.NoNul("transferred ") && Text.NoNul(" ") && Text.NoNul(" to ");
    assert text == "transferred " + number + " " + cfg.ftName + " to " + job.input.userDid;
  }

  lemma PaidFits(cfg: Config, job: Q.Job, points: int, tx: string, hash: string)
    ensures Fitting(cfg, job, Q.Paid(points, tx, hash)) <==> AllFit(OutcomeUpdates(cfg, job, Q.Paid(points, tx, hash)))
  {
    var updates := OutcomeUpdates(cfg, job, Q.Paid(points, tx, hash));
    MessageFits(cfg, job, points, tx, hash);
    assert RewardPointsColumn in updates && updates[RewardPointsColumn] == IntValue(points);
    assert tx != "" ==> TransactionIdColumn in updates && updates[TransactionIdColumn] == TextValue(tx);
    assert hash != "" ==> ContractHashColumn in updates && updates[ContractHashColumn] == TextValue(hash);
  }

  lemma FittingMeansAllFit(cfg: Config, job: Q.Job, o: Q.Outcome)
    ensures Fitting(cfg, job, o) <==> AllFit(OutcomeUpdates(cfg, job, o))
  {
    var updates := OutcomeUpdates(cfg, job, o);
    if o.Paid? {
      PaidFits(cfg, job, o.points, o.transactionId, o.contractHash);
    } else {
      assert Text.NoNul("reward transfer failed");
      assert ErrorDetailsColumn in updates;
    }
  }

  /** The same condition, column by column: UTF-8 without '\0', a 4-byte integer, 128 characters and blanks. */
  lemma FittingIs(cfg: Config, job: Q.Job, o: Q.Outcome)
    ensures Fitting(cfg, job, o) <==>
            match o
            case Garbled => false
            case Broken(reason) => forall i :: 0 <= i < |reason| ==> reason[i] != '\0'
            case Paid(points, tx, hash) =>
              && -2_147_483_648 <= points <= 2_147_483_647
              && (forall i :: 0 <= i < |tx| ==> tx[i] != '\0' && (i >= 128 ==> tx[i] == ' '))
              && (forall i :: 0 <= i < |hash| ==> hash[i] != '\0' && (i >= 128 ==> hash[i] == ' '))
              && (forall i :: 0 <= i < |cfg.ftName| ==> cfg.ftName[i] != '\0')
              && forall i :: 0 <= i < |job.input.userDid| ==> job.input.userDid[i] != '\0'
  {
  }

  /** Nothing but its own last write moves a settled job. */
  lemma SettledStays(cfg: Config, s: Sys, e: Event, a: string)
    requires Settled(s, a) && Enabled(cfg, s, e) && !(e.Record? && e.admin == a)
    ensures Settled(Apply(cfg, s, e), a) && Apply(cfg, s, e).queues[a].phase == s.queues[a].phase
  {
    if Moves(e) {
      WorkShape(cfg, s, e);
      assert e.admin != a;
    } else if e.Send? {
      SendKeepsPhase(cfg, s, e.req, a);
    }
  }

  /** Its row is open, and nothing but its own last write touches it. */
  lemma SettledRow(cfg: Config, s: Sys, a: string)
    requires Inv(cfg, s) && Settled(s, a)
    ensures RequestOf(s, a) in s.rows && !Terminal(s.rows[RequestOf(s, a)].status)
  {
    var r := RequestOf(s, a);
    WorkerSlot(cfg, s, a, r);
    assert r in s.rows && RowOk(s, r);
  }

  /** What the last write makes of the table. */
  lemma RecordRows(cfg: Config, s: Sys, a: string, applied: bool)
    requires Settled(s, a) && Enabled(cfg, s, Record(a, applied))
    ensures Apply(cfg, s, Record(a, applied)).rows
            == Stored(s, RequestOf(s, a), OutcomeUpdates(cfg, s.queues[a].phase.job, s.queues[a].phase.stage.outcome),
                      applied)
  {
  }

  /** A settled job's row is not the subject of another worker's or handler's write. */
  lemma OthersElsewhere(cfg: Config, s: Sys, e: Event, a: string)
    requires Inv(cfg, s) && Settled(s, a) && Enabled(cfg, s, e) && !(e.Record? && e.admin == a)
    ensures !(e.Compensate? && e.req == RequestOf(s, a))
    ensures !((e.Mark? || e.Record?) && e.admin in s.queues && Busy(s, e.admin, RequestOf(s, a)))
  {
    WorkerSlot(cfg, s, a, RequestOf(s, a));
    if (e.Mark? || e.Record?) && e.admin in s.queues && Busy(s, e.admin, RequestOf(s, a)) {
      WorkerSlot(cfg, s, e.admin, RequestOf(s, a));
    }
  }

  lemma RowUntouched(cfg: Config, s: Sys, e: Event, a: string)
    requires Inv(cfg, s) && Settled(s, a) && Enabled(cfg, s, e) && !(e.Record? && e.admin == a && e.applied)
    ensures var r := RequestOf(s, a);
            r in s.rows && r in Apply(cfg, s, e).rows && Apply(cfg, s, e).rows[r] == s.rows[r]
  {
    SettledRow(cfg, s, a);
    if e.Record? && e.admin == a {
      RecordRows(cfg, s, a, false);
    } else {
      OthersElsewhere(cfg, s, e, a);
      RowTouched(cfg, s, e, RequestOf(s, a));
    }
  }

  lemma LostWrite(cfg: Config, s: Sys, a: string)
    requires Settled(s, a) && Enabled(cfg, s, Record(a, false))
    ensures RequestOf(s, a) in Apply(cfg, s, Record(a, false)).lost
  {
  }

  /**
   Once the deadline has passed, or if the outcome does not fit, no continuation ever changes the row:
   whatever else happens, and whenever the write is attempted.
   */
  lemma {:induction false} NeverFinal(cfg: Config, s: Sys, a: string, es: seq<Event>)
    requires Inv(cfg, s) && Settled(s, a) && !CanRecord(cfg, s, a) && Legal(cfg, s, es)
    ensures var r, t := RequestOf(s, a), Exec(cfg, s, es);
            r in s.rows && r in t.rows && t.rows[r] == s.rows[r] && !Terminal(t.rows[r].status)
    decreases |es|
  {
    SettledRow(cfg, s, a);
    if es != [] {
      var e, t := es[0], Apply(cfg, s, es[0]);
      FittingMeansAllFit(cfg, s.queues[a].phase.job, s.queues[a].phase.stage.outcome);
      RowUntouched(cfg, s, e, a);
      InvStep(cfg, s, e);
      if e.Record? && e.admin == a {
        LostWrite(cfg, s, a);
        RowsOnlyMoveForward(cfg, t, es[1..], RequestOf(s, a));
      } else {
        SettledStays(cfg, s, e, a);
        ClockStep(cfg, s, e);
        NeverFinal(cfg, t, a, es[1..]);
      }
    }
  }

  lemma RecordedIsFinal(cfg: Config, s: Sys, a: string)
    requires Inv(cfg, s) && Settled(s, a) && CanRecord(cfg, s, a)
    ensures Enabled(cfg, s, Record(a, true))
    ensures var r, t := RequestOf(s, a), Apply(cfg, s, Record(a, true)); r in t.rows && Terminal(t.rows[r].status)
  {
    var r, job, o := RequestOf(s, a), s.queues[a].phase.job, s.queues[a].phase.stage.outcome;
    FittingMeansAllFit(cfg, job, o);
    SettledRow(cfg, s, a);
    RecordRows(cfg, s, a, true);
    RecordStored(cfg, s, r, job, o);
    RecordedRowFields(cfg, s.rows[r], job, o, s.now);
  }

  lemma OneEvent(cfg: Config, s: Sys, e: Event)
    requires Enabled(cfg, s, e)
    ensures Legal(cfg, s, [e]) && Exec(cfg, s, [e]) == Apply(cfg, s, e)
  {
    var t := Apply(cfg, s, e);
    assert [e][1..] == [] && Legal(cfg, t, []) && Exec(cfg, t, []) == t;
  }

  /** Some run from s ends with the row of r in a terminal status. */
  ghost predicate CanBecomeFinal(cfg: Config, s: Sys, r: RequestId) {
    exists es :: Legal(cfg, s, es) && r in Exec(cfg, s, es).rows && Terminal(Exec(cfg, s, es).rows[r].status)
  }

  lemma FinalIffCanRecord(cfg: Config, s: Sys, a: string)
    requires Inv(cfg, s) && Settled(s, a)
    ensures CanRecord(cfg, s, a) <==> CanBecomeFinal(cfg, s, RequestOf(s, a))
  {
    var r := RequestOf(s, a);
    if CanRecord(cfg, s, a) {
      RecordedIsFinal(cfg, s, a);
      OneEvent(cfg, s, Record(a, true));
    } else {
      forall es | Legal(cfg, s, es)
        ensures !(r in Exec(cfg, s, es).rows && Terminal(Exec(cfg, s, es).rows[r].status))
      {
        NeverFinal(cfg, s, a, es);
      }
    }
  }

  /**
   The outcome of a finished job can still become the final status of its row if and only if the job's
   deadline has not passed and its columns take the outcome. In every other case the row stays open for ever.
   */
  lemma FinalIffInDeadlineAndFitting(cfg: Config, s: Sys, a: string)
    requires Inv(cfg, s)
    requires a in s.queues && s.queues[a].phase.Running? && s.queues[a].phase.stage.Settled?
    ensures var phase := s.queues[a].phase;
            CanBecomeFinal(cfg, s, phase.job.requestId) <==>
            s.now < phase.start + cfg.procTimeout && Fitting(cfg, phase.job, phase.stage.outcome)
  {
    FinalIffCanRecord(cfg, s, a);
  }

  /** An outcome the columns do not take stays unwritten for ever, however early it is known. */
  lemma UnfittingNeverFinal(cfg: Config, s: Sys, a: string)
    requires Inv(cfg, s) && Settled(s, a)
    requires !Fitting(cfg, s.queues[a].phase.job, s.queues[a].phase.stage.outcome)
    ensures !CanBecomeFinal(cfg, s, RequestOf(s, a))
  {
    FinalIffInDeadlineAndFitting(cfg, s, a);
  }

  /** A payment of more points than the column holds stays open for ever. */
  lemma TooManyPointsNeverFinal(cfg: Config, s: Sys, a: string)
    requires Inv(cfg, s) && Settled(s, a)
    requires s.queues[a].phase.stage.outcome.Paid? && s.queues[a].phase.stage.outcome.points > MAX_INT4
    ensures !CanBecomeFinal(cfg, s, RequestOf(s, a))
  {
    UnfittingNeverFinal(cfg, s, a);
  }

  /** The ways an outcome can fail to fit, one by one. */
  lemma NotFitting(cfg: Config, job: Q.Job, points: int, tx: string, hash: string, reason: string)
    ensures points > MAX_INT4 ==> !Fitting(cfg, job, Q.Paid(points, tx, hash))
    ensures |tx| > ID_WIDTH && tx[ID_WIDTH] != ' ' ==> !Fitting(cfg, job, Q.Paid(points, tx, hash))
    ensures '\0' in tx || '\0' in hash ==> !Fitting(cfg, job, Q.Paid(points, tx, hash))
    ensures '\0' in reason ==> !Fitting(cfg, job, Q.Broken(reason))
    ensures !Fitting(cfg, job, Q.Garbled)
  {
  }

  /* ------------------------- whole runs on a healthy database --------------------- */

  /** The database refuses no status write it could make: a worker's write is lost only if it had to be. */
  predicate HealthyStep(cfg: Config, s: Sys, e: Event)
    requires Enabled(cfg, s, e)
  {
    match e
    case Mark(a, applied) => InDeadline(cfg, s, a) ==> applied
    case Record(a, applied) => CanRecord(cfg, s, a) ==> applied
    case _ => true
  }

  ghost predicate Healthy(cfg: Config, s: Sys, es: seq<Event>)
    requires Legal(cfg, s, es)
    decreases |es|
  {
    es == [] || (HealthyStep(cfg, s, es[0]) && Healthy(cfg, Apply(cfg, s, es[0]), es[1..]))
  }

  /**
   The step loses no last write. A worker's outcome came in time and fits; a handler's two writes, which
   use the context of the client's request, were made and reported before the client went away.
   */
  predicate Lands(cfg: Config, s: Sys, e: Event)
    requires Enabled(cfg, s, e)
  {
    match e
    case Record(a, _) => CanRecord(cfg, s, a)
    case Compensate(_, applied) => applied
    case CreateRow(_, stored, reported) => stored ==> reported
    case _ => true
  }

  /** The two conditions in plain terms. */
  lemma HealthyStepIs(cfg: Config, s: Sys, e: Event)
    requires Enabled(cfg, s, e)
    ensures HealthyStep(cfg, s, e)
            <==> && (e.Mark? ==> s.now < s.queues[e.admin].phase.start + cfg.procTimeout ==> e.applied)
                 && (e.Record? ==>
                       var phase := s.queues[e.admin].phase;
                       s.now < phase.start + cfg.procTimeout ==>
                       Fitting(cfg, phase.job, phase.stage.outcome) ==> e.applied)
  {
  }

  lemma LandsIs(cfg: Config, s: Sys, e: Event)
    requires Enabled(cfg, s, e)
    ensures Lands(cfg, s, e)
            <==> && (e.Record? ==>
                       && s.now < s.queues[e.admin].phase.start + cfg.procTimeout
                       && Fitting(cfg, s.queues[e.admin].phase.job, s.queues[e.admin].phase.stage.outcome))
                 && (e.Compensate? ==> e.applied) && (e.CreateRow? && e.stored ==> e.reported)
  {
  }

  ghost predicate AllLand(cfg: Config, s: Sys, es: seq<Event>)
    requires Legal(cfg, s, es)
    decreases |es|
  {
    es == [] || (Lands(cfg, s, es[0]) && AllLand(cfg, Apply(cfg, s, es[0]), es[1..]))
  }

  /** Both are conditions on every event of a run, where it occurs. */
  lemma RunConditionsAre(cfg: Config, s: Sys, e: Event, es: seq<Event>)
    requires Enabled(cfg, s, e) && Legal(cfg, Apply(cfg, s, e), es) && Legal(cfg, s, [e] + es)
    ensures Healthy(cfg, s, []) && AllLand(cfg, s, [])
    ensures Healthy(cfg, s, [e] + es) <==> HealthyStep(cfg, s, e) && Healthy(cfg, Apply(cfg, s, e), es)
    ensures AllLand(cfg, s, [e] + es) <==> Lands(cfg, s, e) && AllLand(cfg, Apply(cfg, s, e), es)
  {
    assert ([e] + es)[1..] == es;
  }

  lemma {:induction false} LostStays(cfg: Config, s: Sys, es: seq<Event>)
    requires Legal(cfg, s, es)
    ensures s.lost <= Exec(cfg, s, es).lost
    decreases |es|
  {
    if es != [] {
      LostGrows(cfg, s, es[0]);
      LostStays(cfg, Apply(cfg, s, es[0]), es[1..]);
    }
  }

  lemma RecordLosses(cfg: Config, s: Sys, a: string, applied: bool)
    requires Settled(s, a) && Enabled(cfg, s, Record(a, applied))
    ensures Apply(cfg, s, Record(a, applied)).lost == if applied then s.lost else s.lost + {RequestOf(s, a)}
  {
  }

  lemma HandlerLosses(cfg: Config, s: Sys, e: Event)
    requires Enabled(cfg, s, e) && (e.Compensate? || e.CreateRow?) && s.lost == {}
    ensures Apply(cfg, s, e).lost == {} <==> Lands(cfg, s, e)
  {
    if e.Compensate? {
      assert e.req in s.lost + {e.req};
    } else {
      assert e.job.requestId in s.lost + {e.job.requestId};
    }
  }

  lemma HealthyStepLosses(cfg: Config, s: Sys, e: Event)
    requires Enabled(cfg, s, e) && HealthyStep(cfg, s, e) && s.lost == {}
    ensures Apply(cfg, s, e).lost == {} <==> Lands(cfg, s, e)
  {
    if e.Record? {
      FittingMeansAllFit(cfg, s.queues[e.admin].phase.job, s.queues[e.admin].phase.stage.outcome);
      RecordLosses(cfg, s, e.admin, e.applied);
    } else if Moves(e) {
      assert AfterWork(cfg, s, e).lost == s.lost;
    } else if e.Send? {
      assert AfterSend(cfg, s, e.req).lost == s.lost;
    } else if e.Compensate? || e.CreateRow? {
      HandlerLosses(cfg, s, e);
    }
  }

  lemma {:induction false} NothingLostIffAllLand(cfg: Config, s: Sys, es: seq<Event>)
    requires Legal(cfg, s, es) && Healthy(cfg, s, es) && s.lost == {}
    ensures Exec(cfg, s, es).lost == {} <==> AllLand(cfg, s, es)
    decreases |es|
  {
    if es != [] {
      var t := Apply(cfg, s, es[0]);
      HealthyStepLosses(cfg, s, es[0]);
      if t.lost == {} {
        NothingLostIffAllLand(cfg, t, es[1..]);
      } else {
        LostStays(cfg, t, es[1..]);
      }
    }
  }

  /**
   On a healthy database, once everything is at rest, every row is final if and only if every outcome of
   the run came before its job's deadline and fitted its columns, every refusal was written down, and
   every stored request was reported as stored.
   */
  lemma AllFinalIffAllLand(cfg: Config, now: int, es: seq<Event>)
    requires cfg.Valid() && now > 0 && Legal(cfg, Start(now), es) && Healthy(cfg, Start(now), es)
    requires Quiet(Exec(cfg, Start(now), es))
    ensures (forall r :: r in Exec(cfg, Start(now), es).rows ==> Terminal(Exec(cfg, Start(now), es).rows[r].status))
            <==> AllLand(cfg, Start(now), es)
  {
    var t := Exec(cfg, Start(now), es);
    NothingLostIffAllLand(cfg, Start(now), es);
    Reachable(cfg, now, es);
    forall r | r in t.rows ensures Terminal(t.rows[r].status) <==> r !in t.lost {
      QuietMeansFinal(cfg, now, es, r);
    }
    if t.lost != {} {
      var r :| r in t.lost;
      assert r in t.rows;
    }
  }
}
