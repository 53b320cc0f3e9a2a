/**
 One goroutine per contract, at most debugNodeParallel of them fetching: a semaphore and a wait group as
 a step machine. A run is any legal list of steps; the scheduler chooses freely.
 */
module FetchPool {
  import opened ForkCheck

  const PARALLEL := 5

  datatype Stage = Waiting | Holding | Fetched(answer: ForkCheck.Fetched) | Written | Finished

  /** tokens is the length of the semaphore channel; asked and answers are the history of fetches. */
  datatype Pool = Pool(
    stages: seq<Stage>, heads: seq<Head>, tokens: nat, asked: seq<nat>, answers: map<nat, ForkCheck.Fetched>)

  /** The node may answer a fetch with anything, at any time. */
  datatype Step = Acquire(i: nat) | Fetch(i: nat, answer: ForkCheck.Fetched) | Write(i: nat) | Release(i: nat)

  function Start(n: nat): (s: Pool)
    ensures |s.stages| == |s.heads| == n
  {
    Pool(seq(n, _ => Waiting), seq(n, _ => NO_HEAD), 0, [], map[])
  }

  predicate Enabled(s: Pool, e: Step) {
    && e.i < |s.stages| == |s.heads|
    && match e
       case Acquire(i) => s.stages[i].Waiting? && s.tokens < PARALLEL
       case Fetch(i, _) => s.stages[i].Holding?
       case Write(i) => s.stages[i].Fetched?
       case Release(i) => s.stages[i].Written? && s.tokens > 0
  }

  function Apply(s: Pool, e: Step): Pool
    requires Enabled(s, e)
  {
    match e
    case Acquire(i) => s.(stages := s.stages[i := Holding], tokens := s.tokens + 1)
    case Fetch(i, answer) =>
      s.(stages := s.stages[i := Stage.Fetched(answer)], asked := s.asked + [i], answers := s.answers[i := answer])
    case Write(i) => s.(stages := s.stages[i := Written], heads := s.heads[i := HeadOf(s.stages[i].answer)])
    case Release(i) => s.(stages := s.stages[i := Finished], tokens := s.tokens - 1)
  }

  predicate Legal(s: Pool, es: seq<Step>)
    decreases |es|
  {
    es == [] || (Enabled(s, es[0]) && Legal(Apply(s, es[0]), es[1..]))
  }

  function Exec(s: Pool, es: seq<Step>): Pool
    requires Legal(s, es)
    decreases |es|
  {
    if es == [] then s else Exec(Apply(s, es[0]), es[1..])
  }

  /* --------------------------------- invariant ----------------------------------- */

  predicate InFlight(p: Stage) { p.Holding? || p.Fetched? || p.Written? }

  /** How many goroutines are between acquiring and releasing. */
  function Count(stages: seq<Stage>): nat {
    if stages == [] then 0 else Count(stages[..|stages| - 1]) + (if InFlight(stages[|stages| - 1]) then 1 else 0)
  }

  /** Steps still to be taken. */
  function Left(stages: seq<Stage>): nat {
    if stages == [] then 0 else Left(stages[..|stages| - 1]) + StepsLeft(stages[|stages| - 1])
  }

  function StepsLeft(p: Stage): nat {
    match p case Waiting => 4 case Holding => 3 case Fetched(_) => 2 case Written => 1 case Finished => 0
  }

  lemma {:induction false} OneChanged(stages: seq<Stage>, i: nat, p: Stage)
    requires i < |stages|
    ensures Count(stages[i := p]) + (if InFlight(stages[i]) then 1 else 0) ==
              Count(stages) + (if InFlight(p) then 1 else 0)
    ensures Left(stages[i := p]) + StepsLeft(stages[i]) == Left(stages) + StepsLeft(p)
    decreases |stages|
  {
    var front, n := stages[..|stages| - 1], |stages| - 1;
    if i < n {
      OneChanged(front, i, p);
      assert stages[i := p][..n] == front[i := p];
    } else {
      assert stages[i := p][..n] == front;
    }
  }

  predicate Asked(p: Stage) { p.Fetched? || p.Written? || p.Finished? }

  predicate SlotOk(s: Pool, i: nat)
    requires i < |s.stages| == |s.heads|
  {
    && (i in s.asked <==> Asked(s.stages[i])) && (i in s.answers <==> Asked(s.stages[i]))
    && (s.stages[i].Fetched? ==> s.stages[i].answer == s.answers[i])
    && s.heads[i] == (if s.stages[i].Written? || s.stages[i].Finished? then HeadOf(s.answers[i]) else NO_HEAD)
  }

  ghost predicate Inv(s: Pool) {
    && |s.stages| == |s.heads|
    && s.tokens == Count(s.stages) <= PARALLEL
    && (forall i: nat {:trigger SlotOk(s, i)} :: i < |s.stages| ==> SlotOk(s, i))
    && (forall k, m :: 0 <= k < m < |s.asked| ==> s.asked[k] != s.asked[m])
    && (forall k :: 0 <= k < |s.asked| ==> s.asked[k] < |s.stages|)
  }

  lemma {:induction false} StartCounts(n: nat)
    ensures Count(Start(n).stages) == 0 && Left(Start(n).stages) == 4 * n
  {
    if n > 0 {
      StartCounts(n - 1);
      assert Start(n).stages[..n - 1] == Start(n - 1).stages;
    }
  }

  lemma StartInv(n: nat)
    ensures Inv(Start(n))
  {
    StartCounts(n);
  }

  lemma InvStep(s: Pool, e: Step)
    requires Inv(s) && Enabled(s, e)
    ensures Inv(Apply(s, e))
    ensures Left(Apply(s, e).stages) + 1 == Left(s.stages)
  {
    var t := Apply(s, e);
    OneChanged(s.stages, e.i, t.stages[e.i]);
    assert SlotOk(s, e.i);
    forall i: nat | i < |t.stages| ensures SlotOk(t, i) {
      assert SlotOk(s, i);
    }
  }

  lemma {:induction false} InvExec(s: Pool, es: seq<Step>)
    requires Inv(s) && Legal(s, es)
    ensures Inv(Exec(s, es)) && Left(Exec(s, es).stages) + |es| == Left(s.stages)
    ensures |Exec(s, es).stages| == |s.stages|
    decreases |es|
  {
    if es != [] {
      InvStep(s, es[0]);
      InvExec(Apply(s, es[0]), es[1..]);
    }
  }

  /* --------------------------------- theorems ------------------------------------ */

  /** Schedules are built step by step, and a node may answer anything. */
  lemma RunIs(s: Pool, e: Step, es: seq<Step>, i: nat, answer: ForkCheck.Fetched)
    ensures Legal(s, []) && Exec(s, []) == s
    ensures Legal(s, [e] + es) <==> Enabled(s, e) && Legal(Apply(s, e), es)
    ensures Legal(s, [e] + es) ==> Exec(s, [e] + es) == Exec(Apply(s, e), es)
    ensures i < |s.stages| == |s.heads| && s.stages[i].Holding? ==> Enabled(s, Fetch(i, answer))
  {
    assert ([e] + es)[1..] == es;
  }

  /** wg.Wait() returns. */
  predicate AllFinished(s: Pool) {
    forall i :: 0 <= i < |s.stages| ==> s.stages[i].Finished?
  }

  /** fillHead run over the slots one after the other, fetch(i) being what slot i is answered. */
  function FillAll(fetch: nat -> ForkCheck.Fetched, n: nat): (r: seq<Head>)
    ensures |r| == n
  {
    if n == 0 then [] else FillAll(fetch, n - 1) + [HeadOf(fetch(n - 1))]
  }

  /** One head per slot, each that of its own answer. */
  lemma {:induction false} FillAllAt(fetch: nat -> ForkCheck.Fetched, n: nat, i: nat)
    requires i < n
    ensures |FillAll(fetch, n)| == n && FillAll(fetch, n)[i] == HeadOf(fetch(i))
  {
    if i < n - 1 {
      FillAllAt(fetch, n - 1, i);
    }
  }

  /** The fetches' answers agree with fetch, each at the moment it was made. */
  predicate AnsweredBy(s: Pool, fetch: nat -> ForkCheck.Fetched) {
    forall i :: i in s.answers ==> s.answers[i] == fetch(i)
  }

  lemma {:induction false} CountIsSize(stages: seq<Stage>)
    ensures Count(stages)
            == |set i | 0 <= i < |stages| && (stages[i].Holding? || stages[i].Fetched? || stages[i].Written?)|
    decreases |stages|
  {
    var all := set i | 0 <= i < |stages| && (stages[i].Holding? || stages[i].Fetched? || stages[i].Written?);
    if stages == [] {
      assert all == {};
    } else {
      var n, front := |stages| - 1, stages[..|stages| - 1];
      CountIsSize(front);
      var before := set i | 0 <= i < |front| && (front[i].Holding? || front[i].Fetched? || front[i].Written?);
      assert all == before + (if InFlight(stages[n]) then {n} else {});
      assert n !in before;
    }
  }

  /** At every moment of every schedule at most PARALLEL fetches are in progress. */
  lemma BoundedParallelism(n: nat, es: seq<Step>)
    requires Legal(Start(n), es)
    ensures var stages := Exec(Start(n), es).stages;
            |set i | 0 <= i < |stages| && (stages[i].Holding? || stages[i].Fetched? || stages[i].Written?)| <= 5
  {
    CountIsSize(Exec(Start(n), es).stages);
    StartInv(n);
    InvExec(Start(n), es);
  }

  /**
   Whatever the schedule and whatever the nodes answered, once the wait group is empty the result is that
   of filling the slots one after the other with the same answers, and every slot was fetched exactly once.
   */
  lemma AfterWaitSequential(n: nat, es: seq<Step>, fetch: nat -> ForkCheck.Fetched)
    requires Legal(Start(n), es) && AllFinished(Exec(Start(n), es)) && AnsweredBy(Exec(Start(n), es), fetch)
    ensures var t := Exec(Start(n), es);
            && t.heads == FillAll(fetch, n)
            && (forall i: nat :: i in t.asked <==> i < n)
            && (forall k, m :: 0 <= k < m < |t.asked| ==> t.asked[k] != t.asked[m])
  {
    StartInv(n);
    InvExec(Start(n), es);
    var t := Exec(Start(n), es);
    forall i: nat | i < n ensures t.heads[i] == FillAll(fetch, n)[i] && i in t.asked {
      assert SlotOk(t, i);
      FillAllAt(fetch, n, i);
    }
  }

  /** Every finished schedule is such a sequential filling: its answers are a function of the slot. */
  lemma SomeSequentialFilling(n: nat, es: seq<Step>) returns (fetch: nat -> ForkCheck.Fetched)
    requires Legal(Start(n), es) && AllFinished(Exec(Start(n), es))
    ensures AnsweredBy(Exec(Start(n), es), fetch) && Exec(Start(n), es).heads == FillAll(fetch, n)
  {
    var answers := Exec(Start(n), es).answers;
    fetch := i => if i in answers then answers[i] else FetchError("");
    AfterWaitSequential(n, es, fetch);
  }

  lemma {:induction false} SomeInFlight(stages: seq<Stage>) returns (i: nat)
    requires Count(stages) > 0
    ensures i < |stages| && InFlight(stages[i])
    decreases |stages|
  {
    var n := |stages| - 1;
    if InFlight(stages[n]) {
      i := n;
    } else {
      i := SomeInFlight(stages[..n]);
    }
  }

  /** No schedule gets stuck before the wait group is empty. */
  lemma NeverStuck(n: nat, es: seq<Step>) returns (e: Step)
    requires Legal(Start(n), es) && !AllFinished(Exec(Start(n), es))
    ensures Enabled(Exec(Start(n), es), e)
  {
    StartInv(n);
    InvExec(Start(n), es);
    var t := Exec(Start(n), es);
    if t.tokens > 0 {
      var i := SomeInFlight(t.stages);
      e := if t.stages[i].Holding? then Fetch(i, FetchError(""))
           else if t.stages[i].Fetched? then Write(i) else Release(i);
    } else {
      var i: nat :| i < |t.stages| && !t.stages[i].Finished?;
      if InFlight(t.stages[i]) {
        CountAt(t.stages, i);
      }
      e := Acquire(i);
    }
  }

  lemma {:induction false} CountAt(stages: seq<Stage>, i: nat)
    requires i < |stages| && InFlight(stages[i])
    ensures Count(stages) > 0
    decreases |stages|
  {
    if i < |stages| - 1 {
      CountAt(stages[..|stages| - 1], i);
    }
  }

  lemma {:induction false} NothingLeftIff(stages: seq<Stage>)
    ensures Left(stages) == 0 <==> forall i :: 0 <= i < |stages| ==> stages[i].Finished?
    decreases |stages|
  {
    if stages != [] {
      var n := |stages| - 1;
      NothingLeftIff(stages[..n]);
      assert forall i :: 0 <= i < n ==> stages[i] == stages[..n][i];
      assert stages[n] in stages;
    }
  }

  /** Every schedule ends, and Wait returns after exactly four steps per contract. */
  lemma {:induction false} WaitReturnsAfter(n: nat, es: seq<Step>)
    requires Legal(Start(n), es)
    ensures |es| <= 4 * n
    ensures AllFinished(Exec(Start(n), es)) <==> |es| == 4 * n
  {
    StartInv(n);
    StartCounts(n);
    InvExec(Start(n), es);
    NothingLeftIff(Exec(Start(n), es).stages);
  }
}
