/**
 Double-checked creation under a read-write lock, statement by statement: the shape of the queue
 manager's getOrCreate and of the client pool's ForBaseURL. Any number of callers interleave freely;
 only the lock constrains them.

 Keys are admin DIDs or base URLs; objects are numbered in order of allocation.
 */
module DoubleChecked {
  import opened Basics

  datatype Caller =
    | Arrived(key: string)
    | Reading(key: string)                 // holds the read lock
    | Hit(key: string, item: nat)        // holds the read lock, found it
    | Miss(key: string)                    // holds the read lock, did not find it
    | Wanting(key: string)                 // holds nothing
    | Writing(key: string)                 // holds the write lock, has not looked again yet
    | Found(key: string, item: nat)      // holds the write lock, somebody else had created it
    | Absent(key: string)                  // holds the write lock, still not there
    | Built(key: string, item: nat)      // holds the write lock, allocated
    | Inserted(key: string, item: nat)   // holds the write lock, in the map, worker not started
    | Launched(key: string, item: nat)   // holds the write lock, worker started
    | Done(key: string, item: nat)

  datatype State = State(
    entries: map<string, nat>, next: nat, workers: seq<nat>,
    readers: set<nat>, writer: Option<nat>, callers: map<nat, Caller>)

  datatype Event =
    | Call(c: nat, key: string)
    | RLock(c: nat)
    | Look(c: nat)
    | RUnlock(c: nat)
    | Lock(c: nat)
    | LookAgain(c: nat)
    | Allocate(c: nat)
    | Insert(c: nat)
    | Launch(c: nat)
    | Unlock(c: nat)

  const EMPTY: State := State(map[], 0, [], {}, None, map[])

  predicate Enabled(s: State, e: Event) {
    if e.Call? then e.c !in s.callers else
    e.c in s.callers &&
    var p := s.callers[e.c];
    match e
    case Call(_, _) => false
    case RLock(_) => p.Arrived? && s.writer == None
    case Look(_) => p.Reading?
    case RUnlock(_) => p.Hit? || p.Miss?
    case Lock(_) => p.Wanting? && s.writer == None && s.readers == {}
    case LookAgain(_) => p.Writing?
    case Allocate(_) => p.Absent?
    case Insert(_) => p.Built?
    case Launch(_) => p.Inserted?
    case Unlock(_) => p.Found? || p.Launched?
  }

  function Step(s: State, c: nat, p: Caller): State {
    s.(callers := s.callers[c := p])
  }

  function Apply(s: State, e: Event): State
    requires Enabled(s, e)
  {
    if e.Call? then Step(s, e.c, Arrived(e.key)) else
    var c, p := e.c, s.callers[e.c];
    var k := p.key;
    if e.RLock? then Step(s, c, Reading(k)).(readers := s.readers + {c})
    else if e.Look? then Step(s, c, if k in s.entries then Hit(k, s.entries[k]) else Miss(k))
    else if e.RUnlock? then Step(s, c, if p.Hit? then Done(k, p.item) else Wanting(k)).(readers := s.readers - {c})
    else if e.Lock? then Step(s, c, Writing(k)).(writer := Some(c))
    else if e.LookAgain? then Step(s, c, if k in s.entries then Found(k, s.entries[k]) else Absent(k))
    else if e.Allocate? then Step(s, c, Built(k, s.next)).(next := s.next + 1)
    else if e.Insert? then Step(s, c, Inserted(k, p.item)).(entries := s.entries[k := p.item])
    else if e.Launch? then Step(s, c, Launched(k, p.item)).(workers := s.workers + [p.item])
    else Step(s, c, Done(k, p.item)).(writer := None)
  }

  predicate Legal(s: State, es: seq<Event>)
    decreases |es|
  {
    es == [] || (Enabled(s, es[0]) && Legal(Apply(s, es[0]), es[1..]))
  }

  function Exec(s: State, es: seq<Event>): State
    requires Legal(s, es)
    decreases |es|
  {
    if es == [] then s else Exec(Apply(s, es[0]), es[1..])
  }

  /* -------------------------------- invariant --------------------------------- */

  predicate HoldsRead(p: Caller) { p.Reading? || p.Hit? || p.Miss? }

  predicate HoldsWrite(p: Caller) {
    p.Writing? || p.Found? || p.Absent? || p.Built? || p.Inserted? || p.Launched?
  }

  /** The lock does what it promises. */
  ghost predicate Locked(s: State) {
    && (forall c :: c in s.callers && HoldsRead(s.callers[c]) ==> c in s.readers)
    && (forall c :: c in s.readers ==> c in s.callers && HoldsRead(s.callers[c]))
    && (forall c :: c in s.callers && HoldsWrite(s.callers[c]) ==> s.writer == Some(c))
    && (s.writer.Some? ==> s.readers == {} && s.writer.value in s.callers && HoldsWrite(s.callers[s.writer.value]))
  }

  /** The object whose worker is about to be started, if any. */
  function Pending(s: State): set<nat> {
    if s.writer.Some? && s.writer.value in s.callers && s.callers[s.writer.value].Inserted?
    then {s.callers[s.writer.value].item} else {}
  }

  /** What a caller knows about the map. */
  ghost predicate Knows(s: State, p: Caller) {
    match p
    case Hit(k, o) => k in s.entries && s.entries[k] == o && o in s.workers
    case Miss(k) => true
    case Found(k, o) => k in s.entries && s.entries[k] == o && o in s.workers
    case Absent(k) => k !in s.entries
    case Built(k, o) =>
      k !in s.entries && o < s.next && o !in s.workers && (forall j :: j in s.entries ==> s.entries[j] != o)
    case Inserted(k, o) => k in s.entries && s.entries[k] == o && o !in s.workers
    case Launched(k, o) => k in s.entries && s.entries[k] == o && o in s.workers
    case Done(k, o) => k in s.entries && s.entries[k] == o && o in s.workers
    case _ => true
  }

  ghost predicate IsEntry(s: State, o: nat) {
    exists k :: k in s.entries && s.entries[k] == o
  }

  ghost predicate Entered(s: State) {
    && (forall k :: k in s.entries ==>
          s.entries[k] < s.next && (s.entries[k] in s.workers || s.entries[k] in Pending(s)))
    && (forall j, k :: j in s.entries && k in s.entries && s.entries[j] == s.entries[k] ==> j == k)
    && (forall i :: 0 <= i < |s.workers| ==> IsEntry(s, s.workers[i]))
    && (forall i, j :: 0 <= i < j < |s.workers| ==> s.workers[i] != s.workers[j])
  }

  ghost predicate Inv(s: State) {
    Locked(s) && Entered(s) && forall c {:trigger Knows(s, s.callers[c])} :: c in s.callers ==> Knows(s, s.callers[c])
  }

  lemma LockedStep(s: State, e: Event)
    requires Locked(s) && Enabled(s, e)
    ensures Locked(Apply(s, e))
  {
  }

  /** Only the writer changes the map or the workers, and then no reader is inside. */
  lemma KnowsStep(s: State, e: Event, c: nat)
    requires Inv(s) && Enabled(s, e) && c in Apply(s, e).callers
    ensures Knows(Apply(s, e), Apply(s, e).callers[c])
  {
    if c in s.callers {
      assert Knows(s, s.callers[c]);
    }
    if e.c in s.callers {
      assert Knows(s, s.callers[e.c]);
    }
  }

  lemma EnteredInsert(s: State, c: nat)
    requires Inv(s) && Enabled(s, Insert(c))
    ensures Entered(Apply(s, Insert(c)))
  {
    assert Knows(s, s.callers[c]);
    var t := Apply(s, Insert(c));
    forall i | 0 <= i < |t.workers| ensures IsEntry(t, t.workers[i]) {
      assert IsEntry(s, s.workers[i]);
      var k :| k in s.entries && s.entries[k] == s.workers[i];
      assert t.entries[k] == t.workers[i];
    }
  }

  lemma EnteredLaunch(s: State, c: nat)
    requires Inv(s) && Enabled(s, Launch(c))
    ensures Entered(Apply(s, Launch(c)))
  {
    assert Knows(s, s.callers[c]);
    var t, p := Apply(s, Launch(c)), s.callers[c];
    forall i | 0 <= i < |t.workers| ensures IsEntry(t, t.workers[i]) {
      if i < |s.workers| {
        assert IsEntry(s, s.workers[i]);
      } else {
        assert t.entries[p.key] == t.workers[i];
      }
    }
  }

  lemma EnteredOther(s: State, e: Event)
    requires Inv(s) && Enabled(s, e) && !e.Insert? && !e.Launch?
    ensures Entered(Apply(s, e))
  {
    var t := Apply(s, e);
    assert t.entries == s.entries && t.workers == s.workers && s.next <= t.next && Pending(t) == Pending(s);
    forall i | 0 <= i < |t.workers| ensures IsEntry(t, t.workers[i]) {
      assert IsEntry(s, s.workers[i]);
    }
  }

  lemma EnteredStep(s: State, e: Event)
    requires Inv(s) && Enabled(s, e)
    ensures Entered(Apply(s, e))
  {
    if e.Insert? {
      EnteredInsert(s, e.c);
    } else if e.Launch? {
      EnteredLaunch(s, e.c);
    } else {
      EnteredOther(s, e);
    }
  }

  lemma InvStep(s: State, e: Event)
    requires Inv(s) && Enabled(s, e)
    ensures Inv(Apply(s, e))
  {
    LockedStep(s, e);
    EnteredStep(s, e);
    forall c | c in Apply(s, e).callers ensures Knows(Apply(s, e), Apply(s, e).callers[c]) {
      KnowsStep(s, e, c);
    }
  }

  lemma {:induction false} InvExec(s: State, es: seq<Event>)
    requires Inv(s) && Legal(s, es)
    ensures Inv(Exec(s, es))
    decreases |es|
  {
    if es != [] {
      InvStep(s, es[0]);
      InvExec(Apply(s, es[0]), es[1..]);
    }
  }

  /* -------------------------------- theorems ---------------------------------- */

  /** Entries are never replaced or removed. */
  lemma EntriesStay(s: State, e: Event, k: string)
    requires Inv(s) && Enabled(s, e) && k in s.entries
    ensures k in Apply(s, e).entries && Apply(s, e).entries[k] == s.entries[k]
  {
    if e.c in s.callers {
      assert Knows(s, s.callers[e.c]);
    }
  }

  lemma {:induction false} EntriesStayForever(s: State, es: seq<Event>, k: string)
    requires Inv(s) && Legal(s, es) && k in s.entries
    ensures k in Exec(s, es).entries && Exec(s, es).entries[k] == s.entries[k]
    decreases |es|
  {
    if es != [] {
      InvStep(s, es[0]);
      EntriesStay(s, es[0], k);
      EntriesStayForever(Apply(s, es[0]), es[1..], k);
    }
  }

  /** All callers with the same key get the same object, callers with different keys different ones. */
  lemma SameKeySameObject(es: seq<Event>, b: nat, c: nat)
    requires Legal(EMPTY, es)
    requires var s := Exec(EMPTY, es); b in s.callers && c in s.callers && s.callers[b].Done? && s.callers[c].Done?
    ensures var s := Exec(EMPTY, es); s.callers[b].key == s.callers[c].key <==> s.callers[b].item == s.callers[c].item
  {
    InvExec(EMPTY, es);
    var s := Exec(EMPTY, es);
    assert Knows(s, s.callers[b]) && Knows(s, s.callers[c]);
  }

  /** Whenever nobody is inside the write lock, each entry has exactly one worker and each worker an entry. */
  lemma OneWorkerPerEntry(es: seq<Event>)
    requires Legal(EMPTY, es) && Exec(EMPTY, es).writer == None
    ensures var s := Exec(EMPTY, es);
            && (forall k :: k in s.entries ==> s.entries[k] in s.workers)
            && (forall i :: 0 <= i < |s.workers| ==> IsEntry(s, s.workers[i]))
            && (forall i, j :: 0 <= i < j < |s.workers| ==> s.workers[i] != s.workers[j])
  {
    InvExec(EMPTY, es);
  }

  /** A caller that has its object can send to it: the object's worker has been started. */
  lemma ReturnedHasWorker(es: seq<Event>, c: nat)
    requires Legal(EMPTY, es) && c in Exec(EMPTY, es).callers && Exec(EMPTY, es).callers[c].Done?
    ensures Exec(EMPTY, es).callers[c].item in Exec(EMPTY, es).workers
  {
    InvExec(EMPTY, es);
    assert Knows(Exec(EMPTY, es), Exec(EMPTY, es).callers[c]);
  }

  /** The statement the caller executes next. */
  function NextOf(c: nat, p: Caller): Event {
    match p
    case Arrived(_) => RLock(c)
    case Reading(_) => Look(c)
    case Wanting(_) => Lock(c)
    case Writing(_) => LookAgain(c)
    case Absent(_) => Allocate(c)
    case Built(_, _) => Insert(c)
    case Inserted(_, _) => Launch(c)
    case Found(_, _) => Unlock(c)
    case Launched(_, _) => Unlock(c)
    case _ => RUnlock(c)
  }

  /** Runs are built statement by statement; anyone may call at any time. */
  lemma RunIs(s: State, e: Event, es: seq<Event>)
    ensures Legal(s, []) && Exec(s, []) == s
    ensures Legal(s, [e] + es) <==> Enabled(s, e) && Legal(Apply(s, e), es)
    ensures Legal(s, [e] + es) ==> Exec(s, [e] + es) == Exec(Apply(s, e), es)
    ensures forall c, key :: c !in s.callers ==> Enabled(s, Call(c, key))
  {
    assert ([e] + es)[1..] == es;
  }

  /** Nobody waits for ever at the lock: while some caller has no object yet, some caller can go on. */
  lemma NeverStuck(es: seq<Event>, c: nat) returns (e: Event)
    requires Legal(EMPTY, es) && c in Exec(EMPTY, es).callers && !Exec(EMPTY, es).callers[c].Done?
    ensures Enabled(Exec(EMPTY, es), e) && !e.Call?
  {
    InvExec(EMPTY, es);
    var s := Exec(EMPTY, es);
    var who := c;
    if s.writer.Some? {
      who := s.writer.value;
    } else if s.readers != {} {
      who :| who in s.readers;
    }
    e := NextOf(who, s.callers[who]);
  }

  /* ------------------------- refinement of an atomic step ----------------------- */

  /** The simple form: a map, and the answer each caller got. */
  datatype Simple = Simple(entries: map<string, nat>, answers: map<nat, nat>)

  /** One atomic get-or-create: the entry if there is one, else a fresh object. */
  ghost predicate GetOrCreate(a: Simple, b: Simple, c: nat, key: string) {
    && c !in a.answers
    && if key in a.entries then b == Simple(a.entries, a.answers[c := a.entries[key]])
       else exists o: nat :: o !in a.entries.Values && b == Simple(a.entries[key := o], a.answers[c := o])
  }

  /** One answer is added: the entry's object, or one that no entry has, which becomes the entry. */
  lemma GetOrCreateIs(a: Simple, b: Simple, c: nat, key: string)
    requires GetOrCreate(a, b, c, key)
    ensures c !in a.answers && c in b.answers && b.answers == a.answers[c := b.answers[c]]
    ensures key in a.entries ==> b.entries == a.entries && b.answers[c] == a.entries[key]
    ensures key !in a.entries ==>
              b.entries == a.entries[key := b.answers[c]] && forall k :: k in a.entries ==> a.entries[k] != b.answers[c]
  {
    if key !in a.entries {
      var o: nat :| o !in a.entries.Values && b == Simple(a.entries[key := o], a.answers[c := o]);
      assert forall k :: k in a.entries ==> a.entries[k] in a.entries.Values;
    }
  }

  /** A caller has been served once it has found or inserted its entry, even before it lets go of the lock. */
  predicate Served(p: Caller) {
    p.Hit? || p.Found? || p.Inserted? || p.Launched? || p.Done?
  }

  function Abstract(s: State): Simple {
    Simple(s.entries, map c | c in s.callers && Served(s.callers[c]) :: s.callers[c].item)
  }

  /** The statement that finds or inserts the entry is the atomic step. */
  lemma ServedNow(s: State, e: Event)
    requires Inv(s) && Enabled(s, e) && !e.Call?
    requires !Served(s.callers[e.c]) && Served(Apply(s, e).callers[e.c])
    ensures GetOrCreate(Abstract(s), Abstract(Apply(s, e)), e.c, s.callers[e.c].key)
  {
    var t := Apply(s, e);
    assert Knows(s, s.callers[e.c]);
    assert Abstract(t).answers == Abstract(s).answers[e.c := t.callers[e.c].item];
    if e.Insert? {
      assert s.callers[e.c].item !in Abstract(s).entries.Values;
    }
  }

  /** A statement moves one caller, and a caller that has its object keeps it. */
  lemma OneCallerMoves(s: State, e: Event)
    requires Inv(s) && Enabled(s, e)
    ensures e.c in Apply(s, e).callers && Apply(s, e).callers == s.callers[e.c := Apply(s, e).callers[e.c]]
    ensures e.c in s.callers && Served(s.callers[e.c]) ==>
              Served(Apply(s, e).callers[e.c]) && Apply(s, e).callers[e.c].item == s.callers[e.c].item
  {
  }

  lemma SameAnswers(s: State, t: State, c: nat)
    requires c in t.callers && t.callers == s.callers[c := t.callers[c]]
    requires Served(t.callers[c]) <==> c in s.callers && Served(s.callers[c])
    requires Served(t.callers[c]) ==> t.callers[c].item == s.callers[c].item
    ensures Abstract(t).answers == Abstract(s).answers
  {
  }

  lemma SameEntries(s: State, e: Event)
    requires Inv(s) && Enabled(s, e)
    requires e.c in s.callers && Served(Apply(s, e).callers[e.c]) ==> Served(s.callers[e.c])
    ensures Apply(s, e).entries == s.entries
  {
  }

  /** Every other statement is invisible. */
  lemma Silent(s: State, e: Event)
    requires Inv(s) && Enabled(s, e)
    requires e.c in s.callers && Served(Apply(s, e).callers[e.c]) ==> Served(s.callers[e.c])
    ensures Abstract(Apply(s, e)) == Abstract(s)
  {
    OneCallerMoves(s, e);
    SameEntries(s, e);
    SameAnswers(s, Apply(s, e), e.c);
  }

  /** Every statement is either invisible or the whole of one caller's atomic get-or-create. */
  lemma RefinesAtomic(s: State, e: Event)
    requires Inv(s) && Enabled(s, e)
    ensures var a, b := Abstract(s), Abstract(Apply(s, e));
            b == a || (e.c in s.callers && GetOrCreate(a, b, e.c, s.callers[e.c].key))
  {
    if e.c in s.callers && Served(Apply(s, e).callers[e.c]) && !Served(s.callers[e.c]) {
      ServedNow(s, e);
    } else {
      Silent(s, e);
    }
  }
}
