/** How the parsed interval overrides reach the queue manager, and what spacing results. */
module Startup {
  import opened Basics
  import opened Text
  import opened IntervalOverrides
  import opened QueueManager
  import Q = PayoutQueue
  import S = PayoutSystem

  /** What SetAdminMinInterval makes of a duration. */
  function Clamp(d: int): int {
    if d < 0 then 0 else d
  }

  /** The interval of an admin once the overrides are in force over what was set before. */
  function Override(overrides: map<string, int>, before: map<string, int>, default: int, admin: string): int {
    if admin in overrides then Clamp(overrides[admin]) else if admin in before then before[admin] else default
  }

  predicate Durations(m: map<string, int>) {
    forall did :: did in m ==> MIN_DURATION <= m[did] <= MAX_DURATION
  }

  lemma {:induction false} CollectedAreDurations(items: seq<Item>, out: map<string, int>)
    requires Durations(out)
    ensures Collect(items, out).Some? ==> Durations(Collect(items, out).value)
    decreases |items|
  {
    if items != [] {
      CollectedAreDurations(items[1..], if items[0].Set? then out[items[0].did := Nanoseconds(items[0].ms)] else out);
    }
  }

  /** A malformed setting stops the start; otherwise every override is set, whatever order the map yields them in. */
  method ApplyOverrides(manager: Manager, raw: string) returns (ok: bool)
    requires manager.Valid()
    modifies manager`adminInterval
    ensures manager.Valid() && ok == Parse(raw).Some?
    ensures !ok ==> manager.adminInterval == old(manager.adminInterval)
    ensures ok ==> forall a :: manager.IntervalFor(a)
                               == Override(Parse(raw).value, old(manager.adminInterval), manager.minInterval, a)
    ensures ok ==> forall a :: manager.IntervalFor(a) ==
                     if a in Parse(raw).value then (if Parse(raw).value[a] < 0 then 0 else Parse(raw).value[a])
                     else if a in old(manager.adminInterval) then old(manager.adminInterval)[a]
                     else manager.minInterval
  {
    var parsed := ParseIntervalOverrides(raw);
    if parsed.None? {
      return false;
    }
    CollectedAreDurations(Items(Split(raw)), map[]);
    SetAll(manager, parsed.value);
    return true;
  }

  /** The interval that a setting in milliseconds asks for: a 64-bit product, and none if that is negative. */
  function IntervalOf(ms: int): int {
    Clamp(Nanoseconds(ms))
  }

  lemma IntervalOfIs(ms: int)
    requires -9_223_372_036_854 <= ms <= 9_223_372_036_854
    ensures IntervalOf(ms) == if ms < 0 then 0 else ms * 1_000_000
  {
  }

  /** The deadline of a job: twice the HTTP timeout, in 64-bit nanoseconds. */
  function TimeoutOf(seconds: int): int {
    Wrap64(Wrap64(seconds * 2) * 1_000_000_000)
  }

  lemma TimeoutOfIs(seconds: int)
    requires 0 <= seconds <= 4_611_686_018
    ensures TimeoutOf(seconds) == 2 * seconds * 1_000_000_000
  {
  }

  /**
   What the program starts with. The settings of every admin's queue, in the class as in the machine, are the
   buffer size and the admin's override or, without one, the common interval.
   */
  method Boot(bufferSize: int, httpSeconds: int, defaultMs: int, raw: string, ghost admins: set<string>,
              ghost ftName: string)
    returns (ok: bool, manager: Manager, ghost cfg: S.Config)
    requires forall a :: a in admins ==> |a| <= 80 && '\0' !in a
    ensures fresh(manager) && manager.Valid() && manager.queues == map[]
    ensures ok <==> Parse(raw).Some?
    ensures ok ==>
              && cfg.Valid() && cfg.admins == admins && cfg.ftName == ftName
              && cfg.capacity == (if bufferSize <= 0 then 1000 else bufferSize)
              && cfg.procTimeout == (if TimeoutOf(httpSeconds) <= 0 then 300_000_000_000 else TimeoutOf(httpSeconds))
    ensures ok ==> forall a :: manager.SettingsFor(a) == cfg.For(a)
    ensures ok ==> forall a ::
              var m := Parse(raw).value;
              cfg.For(a) == Q.Settings(if bufferSize <= 0 then 1000 else bufferSize,
                                       if a in m then (if m[a] < 0 then 0 else m[a]) else IntervalOf(defaultMs))
  {
    manager := new Manager(bufferSize, TimeoutOf(httpSeconds));
    manager.SetMinInterval(Nanoseconds(defaultMs));
    ok := ApplyOverrides(manager, raw);
    cfg := S.Config(manager.bufferSize, manager.minInterval, manager.adminInterval, manager.procTimeout, admins,
                    ftName);
  }

  method SetAll(manager: Manager, overrides: map<string, int>)
    requires manager.Valid() && Durations(overrides)
    modifies manager`adminInterval
    ensures manager.Valid()
    ensures forall a :: manager.IntervalFor(a) ==
              Override(overrides, old(manager.adminInterval), manager.minInterval, a)
  {
    var rest := overrides.Keys;
    while rest != {}
      invariant manager.Valid() && rest <= overrides.Keys
      invariant manager.adminInterval.Keys == old(manager.adminInterval.Keys) + (overrides.Keys - rest)
      invariant forall a :: a in overrides && a !in rest ==> manager.adminInterval[a] == Clamp(overrides[a])
      invariant forall a :: a in old(manager.adminInterval) && (a !in overrides || a in rest) ==>
                  manager.adminInterval[a] == old(manager.adminInterval)[a]
      decreases rest
    {
      var did :| did in rest;
      manager.SetAdminMinInterval(did, overrides[did]);
      rest := rest - {did};
    }
  }

  /** The machine's spacing check lets every job through at once, at every instant and after every job. */
  ghost predicate NoSpacing(interval: int) {
    forall now: int, lastDone: int, job: Q.Job ::
      lastDone <= now ==> Q.AfterSpacing(interval, now, lastDone, job) == Q.Ready(job)
  }

  lemma NoSpacingIffZero(interval: int)
    requires 0 <= interval <= MAX_DURATION
    ensures NoSpacing(interval) <==> interval == 0
  {
    if interval > 0 {
      var job := Q.Job(0, Q.Transfer("", "", []));
      Q.RemainingExact(interval, 1, 1);
      assert Q.AfterSpacing(interval, 1, 1, job).Sleeping?;
    }
  }

  /** The number the last entry for a name gives is one that some entry denotes. */
  lemma {:induction false} LastForDenoted(entries: seq<string>, did: string)
    requires LastFor(Items(entries), did).Some?
    ensures 0 <= LastFor(Items(entries), did).value <= MAX_DURATION
    decreases |entries|
  {
    var front, last := entries[..|entries| - 1], entries[|entries| - 1];
    assert Items(entries)[..|entries| - 1] == Items(front);
    var item := ItemOf(last);
    if item.Set? && item.did == did {
      ItemIsNumber(last);
    } else {
      LastForDenoted(front, did);
    }
  }

  lemma ItemIsNumber(p: string)
    requires ItemOf(p).Set?
    ensures 0 <= ItemOf(p).ms <= MAX_DURATION
  {
    ParsedShape(Trim(p));
    EntryMeaning(p, ItemOf(p).did, ItemOf(p).ms);
    var i :| 0 <= i < |p| && SplitsAt(p, i, ItemOf(p).did, ItemOf(p).ms);
  }

  /** The spacing a number of milliseconds gives, as override or as default. */
  lemma SpacingOf(ms: nat)
    requires ms <= MAX_DURATION
    ensures Clamp(Nanoseconds(ms)) == ms * MILLISECOND <==> ms <= MAX_MS
    ensures NoSpacing(Clamp(Nanoseconds(ms))) <==> Nanoseconds(ms) <= 0
  {
    ExactIff(ms);
    NoSpacingIffZero(Clamp(Nanoseconds(ms)));
  }

  /**
   Whatever the text of the setting, the last mention of a name decides: its admin gets exactly the spacing
   asked for if and only if the number is at most MAX_MS, and no spacing at all if and only if the 64-bit
   product is not positive.
   */
  lemma OverrideSpacing(raw: string, did: string)
    requires Parse(raw).Some? && LastFor(Items(Split(raw)), did).Some?
    ensures var m, ms := Parse(raw).value, LastFor(Items(Split(raw)), did).value;
            && did in m
            && (Clamp(m[did]) == ms * MILLISECOND <==> ms <= MAX_MS)
            && (NoSpacing(Clamp(m[did])) <==> Nanoseconds(ms) <= 0)
  {
    LastMentionWins(Items(Split(raw)), map[], did);
    LastForDenoted(Split(raw), did);
    SpacingOf(LastFor(Items(Split(raw)), did).value);
  }

  /** The default interval is multiplied in the same way; below zero the product can wrap to a long spacing. */
  lemma DefaultSpacing(ms: int)
    requires MIN_DURATION <= ms <= MAX_DURATION
    ensures ms >= 0 ==> (Clamp(Nanoseconds(ms)) == ms * MILLISECOND <==> ms <= MAX_MS)
    ensures -MAX_MS <= ms < 0 ==> Clamp(Nanoseconds(ms)) == 0
    ensures NoSpacing(Clamp(Nanoseconds(ms))) <==> Nanoseconds(ms) <= 0
    ensures Nanoseconds(-MAX_MS - 1) > 0
  {
    if ms >= 0 {
      ExactIff(ms);
    }
    NoSpacingIffZero(Clamp(Nanoseconds(ms)));
  }

  /** Asking for one millisecond more than the maximum, close to 292 years, switches the spacing off. */
  lemma LongIntervalDisablesSpacing(did: string)
    requires ValidDid(did)
    ensures var m := Parse(did + "=" + Decimal(MAX_MS + 1));
            && m.Some? && did in m.value && m.value[did] < 0
            && NoSpacing(Clamp(m.value[did]))
            && forall now, lastDone, capacity ::
                 StartOf(Q.Settings(capacity, Clamp(m.value[did])), now, lastDone) == now
  {
    AcceptedButExactOnlyUpToMax(did, MAX_MS + 1);
    FirstWrap();
    NoSpacingIffZero(0);
  }
}
