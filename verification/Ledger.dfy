/** The transfer_status and activities tables, and the statements that read and write them. */
module Ledger {
  import opened Basics
  import Text

  datatype Status = Queued | Processing | Success | Failed

  datatype Row = Row(
    kind: string, adminDid: string, userDid: string, activityIds: seq<string>, rewardPoints: int,
    status: Status, message: string, errorDetails: string, transactionId: string, contractHash: string,
    createdAt: int, updatedAt: int)

  type Rows = map<RequestId, Row>

  /** (admin_did, activity_id) -> reward_points */
  type Activities = map<(string, string), int>

  const REWARD := "reward"

  /** Widths of the columns for DIDs, and for activity, transaction and contract ids. */
  const DID_WIDTH := 80
  const ID_WIDTH := 128

  const MAX_INT4: int := 0x7fff_ffff
  const MIN_INT4: int := -0x8000_0000

  predicate Terminal(s: Status) { s == Success || s == Failed }

  function Rank(s: Status): nat {
    match s case Queued => 0 case Processing => 1 case _ => 2
  }

  /* ------------------------------ points and totals --------------------------- */

  /** SumRewardPointsForActivities: a scan over the table, as the query is written. */
  ghost function SumPoints(a: Activities, admin: string, ids: seq<string>): int {
    SumMap(map k | k in a && k.0 == admin && k.1 in ids :: a[k])
  }

  /** The same number read off the request: each distinct listed id counts once, unknown ids count 0. */
  function SumListed(a: Activities, admin: string, ids: seq<string>): int {
    if ids == [] then 0
    else if ids[0] in ids[1..] || (admin, ids[0]) !in a then SumListed(a, admin, ids[1..])
    else a[(admin, ids[0])] + SumListed(a, admin, ids[1..])
  }

  lemma {:induction false} SumPointsIsSumListed(a: Activities, admin: string, ids: seq<string>)
    ensures SumPoints(a, admin, ids) == SumListed(a, admin, ids)
    decreases |ids|
  {
    var hits := map k | k in a && k.0 == admin && k.1 in ids :: a[k];
    if ids == [] {
      assert hits == map[];
    } else {
      var key, rest := (admin, ids[0]), map k | k in a && k.0 == admin && k.1 in ids[1..] :: a[k];
      SumPointsIsSumListed(a, admin, ids[1..]);
      if ids[0] in ids[1..] || key !in a {
        assert hits == rest;
      } else {
        SumMapTake(hits, key);
        assert hits - {key} == rest;
      }
    }
  }

  /** Repeating ids or listing them in another order changes nothing. */
  lemma SumPointsIgnoresOrderAndRepeats(a: Activities, admin: string, ids: seq<string>, others: seq<string>)
    requires forall id :: id in ids <==> id in others
    ensures SumListed(a, admin, ids) == SumListed(a, admin, others)
  {
    SumPointsIsSumListed(a, admin, ids);
    SumPointsIsSumListed(a, admin, others);
    assert (map k | k in a && k.0 == admin && k.1 in ids :: a[k])
        == (map k | k in a && k.0 == admin && k.1 in others :: a[k]);
  }

  /** CreateActivity: insert, or overwrite the points of an existing (admin, id). */
  function PutActivity(a: Activities, admin: string, id: string, points: int): Activities {
    a[(admin, id) := points]
  }

  /** What the columns of an activity take: VARCHAR(80), VARCHAR(128) and a 4-byte INTEGER. */
  predicate ActivityFits(admin: string, id: string, points: int) {
    && MIN_INT4 <= points <= MAX_INT4
    && Text.NoNul(admin) && Text.FitsWidth(admin, DID_WIDTH) && Text.NoNul(id) && Text.FitsWidth(id, ID_WIDTH)
  }

  function StoreActivity(a: Activities, admin: string, id: string, points: int): Activities {
    PutActivity(a, Text.Cut(admin, DID_WIDTH), Text.Cut(id, ID_WIDTH), points)
  }

  /** Re-adding an activity replaces its points in every sum that lists it and touches no other sum. */
  lemma PutActivityReplaces(a: Activities, admin: string, id: string, points: int, asked: string, ids: seq<string>)
    ensures var before := if (admin, id) in a then a[(admin, id)] else 0;
            SumPoints(PutActivity(a, admin, id, points), asked, ids)
            == SumPoints(a, asked, ids) + (if asked == admin && id in ids then points - before else 0)
  {
    var b, key := PutActivity(a, admin, id, points), (admin, id);
    var hits := map k | k in a && k.0 == asked && k.1 in ids :: a[k];
    var after := map k | k in b && k.0 == asked && k.1 in ids :: b[k];
    if asked == admin && id in ids {
      SumMapTake(after, key);
      assert after - {key} == hits - {key};
      if key in a {
        SumMapTake(hits, key);
      } else {
        assert hits - {key} == hits;
      }
    } else {
      assert after == hits;
    }
  }

  /** The rows FTInfoForUser adds up for one user and one admin. */
  ghost function SuccessPoints(rows: Rows, user: string, admin: string): map<RequestId, int> {
    map r | r in rows && rows[r].userDid == user && rows[r].adminDid == admin
            && rows[r].kind == REWARD && rows[r].status == Success :: rows[r].rewardPoints
  }

  /** FTInfoForUser's total_count for one creator. */
  ghost function UserTotal(rows: Rows, user: string, admin: string): int {
    SumMap(SuccessPoints(rows, user, admin))
  }

  /** What is added up: the user's successful rewards from that admin. */
  lemma UserTotalIs(rows: Rows, user: string, admin: string)
    ensures UserTotal(rows, user, admin) == SumMap(SuccessPoints(rows, user, admin))
    ensures forall r :: r in SuccessPoints(rows, user, admin) <==>
              && r in rows && rows[r].kind == "reward" && rows[r].status == Success
              && rows[r].userDid == user && rows[r].adminDid == admin
    ensures forall r :: r in SuccessPoints(rows, user, admin) ==>
              SuccessPoints(rows, user, admin)[r] == rows[r].rewardPoints
  {
  }

  /* ---------------------------- UpdateTransferStatus --------------------------- */

  /** BytesValue is a Go string whose bytes are not UTF-8; no text column takes it. */
  datatype Value =
    | StatusValue(status: Status)
    | TextValue(text: string)
    | BytesValue
    | IntValue(n: int)
    | TimeValue(at: int)
    | KeyValue(id: RequestId)

  datatype Column =
    | StatusColumn | MessageColumn | ErrorDetailsColumn | TransactionIdColumn | ContractHashColumn | RewardPointsColumn
    | UpdatedAtColumn
    | OtherColumn(name: string)

  type Updates = map<Column, Value>

  /** The text "<column> = $<placeholder>". */
  datatype Assignment = Assignment(column: Column, placeholder: nat)

  datatype UpdateOutcome = Updated | NoSuchRow | UnsupportedField | SqlError

  predicate Allowed(c: Column) {
    !c.UpdatedAtColumn? && !c.OtherColumn?
  }

  /** The column takes this value: reward_points is a 4-byte INTEGER, both ids are VARCHAR(128), messages TEXT. */
  predicate Fits(c: Column, v: Value) {
    match c
    case StatusColumn => v.StatusValue?
    case RewardPointsColumn => v.IntValue? && MIN_INT4 <= v.n <= MAX_INT4
    case UpdatedAtColumn => v.TimeValue?
    case OtherColumn(_) => false
    case TransactionIdColumn => v.TextValue? && Text.NoNul(v.text) && Text.FitsWidth(v.text, ID_WIDTH)
    case ContractHashColumn => v.TextValue? && Text.NoNul(v.text) && Text.FitsWidth(v.text, ID_WIDTH)
    case _ => v.TextValue? && Text.NoNul(v.text)
  }

  function SetColumn(row: Row, c: Column, v: Value): Row
    requires Fits(c, v)
  {
    match c
    case StatusColumn => row.(status := v.status)
    case MessageColumn => row.(message := v.text)
    case ErrorDetailsColumn => row.(errorDetails := v.text)
    case TransactionIdColumn => row.(transactionId := Text.Cut(v.text, ID_WIDTH))
    case ContractHashColumn => row.(contractHash := Text.Cut(v.text, ID_WIDTH))
    case RewardPointsColumn => row.(rewardPoints := v.n)
    case UpdatedAtColumn => row.(updatedAt := v.at)
  }

  predicate AllFit(m: Updates) {
    forall c :: c in m ==> Fits(c, m[c])
  }

  /** The intended meaning of a partial update: every listed column at once, no other column. */
  function Simultaneous(row: Row, m: Updates): Row
    requires AllFit(m)
  {
    row.(status := if StatusColumn in m then m[StatusColumn].status else row.status,
         message := if MessageColumn in m then m[MessageColumn].text else row.message,
         errorDetails := if ErrorDetailsColumn in m then m[ErrorDetailsColumn].text else row.errorDetails,
         transactionId :=
           if TransactionIdColumn in m then Text.Cut(m[TransactionIdColumn].text, ID_WIDTH) else row.transactionId,
         contractHash :=
           if ContractHashColumn in m then Text.Cut(m[ContractHashColumn].text, ID_WIDTH) else row.contractHash,
         rewardPoints := if RewardPointsColumn in m then m[RewardPointsColumn].n else row.rewardPoints,
         updatedAt := if UpdatedAtColumn in m then m[UpdatedAtColumn].at else row.updatedAt)
  }

  predicate Executable(sets: seq<Assignment>, args: seq<Value>) {
    forall j :: 0 <= j < |sets| ==>
      1 <= sets[j].placeholder <= |args| && Fits(sets[j].column, args[sets[j].placeholder - 1])
  }

  /** What the database does with a SET list, one assignment after the other. */
  function AssignAll(row: Row, sets: seq<Assignment>, args: seq<Value>): Row
    requires Executable(sets, args)
  {
    if sets == [] then row else
    var last := sets[|sets| - 1];
    SetColumn(AssignAll(row, sets[..|sets| - 1], args), last.column, args[last.placeholder - 1])
  }

  /** The SET list, read from its end, takes the keys of m one by one, each with its own argument. */
  ghost predicate Encodes(sets: seq<Assignment>, args: seq<Value>, m: Updates) {
    if sets == [] then m == map[] else
    var last, n := sets[|sets| - 1], |sets|;
    && last.placeholder == n <= |args|
    && last.column in m && args[n - 1] == m[last.column]
    && Encodes(sets[..n - 1], args, m - {last.column})
  }

  /** Placeholders $1, $2, ... appear in order, once each, aligned with the arguments, one per key of m. */
  lemma {:induction false} EncodesAligned(sets: seq<Assignment>, args: seq<Value>, m: Updates)
    requires Encodes(sets, args, m)
    ensures |sets| == |m| && |sets| <= |args|
    ensures forall j :: 0 <= j < |sets| ==>
              sets[j].placeholder == j + 1 && sets[j].column in m && args[j] == m[sets[j].column]
    ensures forall i, j :: 0 <= i < j < |sets| ==> sets[i].column != sets[j].column
  {
    if sets != [] {
      var last := sets[|sets| - 1];
      EncodesAligned(sets[..|sets| - 1], args, m - {last.column});
      assert m.Keys == (m - {last.column}).Keys + {last.column};
      forall j | 0 <= j < |sets|
        ensures sets[j].placeholder == j + 1 && sets[j].column in m && args[j] == m[sets[j].column]
        ensures j < |sets| - 1 ==> sets[j].column != last.column
      {
        if j < |sets| - 1 {
          assert sets[..|sets| - 1][j] == sets[j];
        }
      }
      forall i, j | 0 <= i < j < |sets| ensures sets[i].column != sets[j].column {
        if j < |sets| - 1 {
          assert sets[..|sets| - 1][i].column != sets[..|sets| - 1][j].column;
        }
      }
    } else {
      assert |m| == 0;
    }
  }

  lemma EncodesExecutable(sets: seq<Assignment>, args: seq<Value>, m: Updates)
    requires Encodes(sets, args, m) && AllFit(m)
    ensures Executable(sets, args)
  {
    EncodesAligned(sets, args, m);
    forall j | 0 <= j < |sets|
      ensures 1 <= sets[j].placeholder <= |args| && Fits(sets[j].column, args[sets[j].placeholder - 1])
    {
      assert sets[j].placeholder == j + 1 && args[j] == m[sets[j].column];
    }
  }

  /** Setting one more column is the simultaneous update with one more column. */
  lemma SetLast(row: Row, m: Updates, c: Column)
    requires c in m && AllFit(m)
    ensures AllFit(m - {c}) && Simultaneous(row, m) == SetColumn(Simultaneous(row, m - {c}), c, m[c])
  {
  }

  /** Whatever order the map was iterated in, running the SET list is the simultaneous update. */
  lemma {:induction false} AnyOrderIsSimultaneous(row: Row, sets: seq<Assignment>, args: seq<Value>, m: Updates)
    requires Encodes(sets, args, m) && AllFit(m) && Executable(sets, args)
    ensures AssignAll(row, sets, args) == Simultaneous(row, m)
    decreases |sets|
  {
    if sets != [] {
      var last, front := sets[|sets| - 1], sets[..|sets| - 1];
      SetLast(row, m, last.column);
      AnyOrderIsSimultaneous(row, front, args, m - {last.column});
    }
  }

  lemma {:induction false} EncodesMoreArgs(sets: seq<Assignment>, args: seq<Value>, more: seq<Value>, m: Updates)
    requires Encodes(sets, args, m)
    ensures Encodes(sets, args + more, m)
  {
    if sets != [] {
      EncodesMoreArgs(sets[..|sets| - 1], args, more, m - {sets[|sets| - 1].column});
    }
  }

  lemma EncodesAppend(sets: seq<Assignment>, args: seq<Value>, m: Updates, c: Column, v: Value)
    requires Encodes(sets, args, m) && |args| == |sets| && c !in m
    ensures Encodes(sets + [Assignment(c, |sets| + 1)], args + [v], m[c := v])
  {
    var longer := sets + [Assignment(c, |sets| + 1)];
    assert longer[..|sets|] == sets && m[c := v] - {c} == m;
    EncodesMoreArgs(sets, args, [v], m);
  }

  /** The loop of UpdateTransferStatus over the updates, in whatever order the map yields them. */
  method BuildUpdate(requestId: RequestId, updates: Updates, now: int)
    returns (ok: bool, sets: seq<Assignment>, args: seq<Value>, idPlaceholder: nat)
    requires updates != map[]
    ensures ok <==> forall c :: c in updates ==> Allowed(c)
    ensures ok ==> Encodes(sets, args, updates[UpdatedAtColumn := TimeValue(now)])
    ensures ok ==> idPlaceholder == |updates| + 2 == |args| && args[idPlaceholder - 1] == KeyValue(requestId)
  {
    sets, args, idPlaceholder, ok := [], [], 0, true;
    var rest, i := updates.Keys, 1;
    while rest != {}
      invariant i == |sets| + 1 == |args| + 1
      invariant rest <= updates.Keys && forall c :: c in updates && c !in rest ==> Allowed(c)
      invariant Encodes(sets, args, updates - rest)
      decreases rest
    {
      var c :| c in rest;
      if !Allowed(c) {
        ok := false;
        return;
      }
      EncodesAppend(sets, args, updates - rest, c, updates[c]);
      assert updates - (rest - {c}) == (updates - rest)[c := updates[c]];
      sets, args := sets + [Assignment(c, i)], args + [updates[c]];
      i, rest := i + 1, rest - {c};
    }
    assert updates - rest == updates;
    EncodesAppend(sets, args, updates, UpdatedAtColumn, TimeValue(now));
    sets, args := sets + [Assignment(UpdatedAtColumn, i)], args + [TimeValue(now)];
    i := i + 1;
    EncodesMoreArgs(sets, args, [KeyValue(requestId)], updates[UpdatedAtColumn := TimeValue(now)]);
    EncodesAligned(sets, args, updates[UpdatedAtColumn := TimeValue(now)]);
    args := args + [KeyValue(requestId)];
    idPlaceholder := i;
  }

  /** Columns a caller may set, and what each of them takes. */
  lemma ColumnsAre(c: Column, v: Value)
    ensures Allowed(c) <==> c in {StatusColumn, MessageColumn, ErrorDetailsColumn, TransactionIdColumn,
                                  ContractHashColumn, RewardPointsColumn}
    ensures c == StatusColumn ==> (Fits(c, v) <==> v.StatusValue?)
    ensures c == RewardPointsColumn ==> (Fits(c, v) <==> v.IntValue? && -2_147_483_648 <= v.n <= 2_147_483_647)
    ensures c == MessageColumn || c == ErrorDetailsColumn ==> (Fits(c, v) <==> v.TextValue? && '\0' !in v.text)
    ensures c == TransactionIdColumn || c == ContractHashColumn ==>
              (Fits(c, v) <==> && v.TextValue? && '\0' !in v.text
                               && forall i :: 128 <= i < |v.text| ==> v.text[i] == ' ')
  {
  }

  /** What an update makes of a row, column by column; unlisted columns keep their value. */
  lemma SimultaneousIs(row: Row, m: Updates)
    requires AllFit(m)
    ensures var after := Simultaneous(row, m);
            && after.kind == row.kind && after.adminDid == row.adminDid && after.userDid == row.userDid
            && after.activityIds == row.activityIds && after.createdAt == row.createdAt
            && after.status == (if StatusColumn in m then m[StatusColumn].status else row.status)
            && after.message == (if MessageColumn in m then m[MessageColumn].text else row.message)
            && after.errorDetails == (if ErrorDetailsColumn in m then m[ErrorDetailsColumn].text else row.errorDetails)
            && after.rewardPoints == (if RewardPointsColumn in m then m[RewardPointsColumn].n else row.rewardPoints)
            && after.updatedAt == (if UpdatedAtColumn in m then m[UpdatedAtColumn].at else row.updatedAt)
            && after.transactionId == (if TransactionIdColumn in m then Text.Cut(m[TransactionIdColumn].text, 128)
                                       else row.transactionId)
            && after.contractHash == if ContractHashColumn in m then Text.Cut(m[ContractHashColumn].text, 128)
                                     else row.contractHash
  {
  }

  /** The update statement: the four answers, and the table each leaves. */
  lemma UpdateRowIs(rows: Rows, id: RequestId, m: Updates, now: int)
    ensures var (after, r) := UpdateRow(rows, id, m, now);
            && (r == UnsupportedField <==> exists c :: c in m && (c.UpdatedAtColumn? || c.OtherColumn?))
            && (r == NoSuchRow <==> m != map[] && (forall c :: c in m ==> Allowed(c) && Fits(c, m[c])) && id !in rows)
            && (r == SqlError <==> m != map[] && (forall c :: c in m ==> Allowed(c))
                                   && exists c :: c in m && !Fits(c, m[c]))
            && (r != Updated || m == map[] ==> after == rows)
            && (r == Updated && m != map[] ==>
                  && id in rows && AllFit(m[UpdatedAtColumn := TimeValue(now)])
                  && after == rows[id := Simultaneous(rows[id], m[UpdatedAtColumn := TimeValue(now)])])
  {
  }

  /** What a new row's text columns take. */
  predicate RowFits(row: Row) {
    && Text.NoNul(row.adminDid) && Text.FitsWidth(row.adminDid, DID_WIDTH)
    && Text.NoNul(row.userDid) && Text.FitsWidth(row.userDid, DID_WIDTH)
    && (forall i :: 0 <= i < |row.activityIds| ==> Text.NoNul(row.activityIds[i]))
    && Text.NoNul(row.message) && Text.NoNul(row.errorDetails)
    && Text.NoNul(row.transactionId) && Text.FitsWidth(row.transactionId, ID_WIDTH)
    && Text.NoNul(row.contractHash) && Text.FitsWidth(row.contractHash, ID_WIDTH)
    && Text.NoNul(row.kind) && Text.FitsWidth(row.kind, 32) && MIN_INT4 <= row.rewardPoints <= MAX_INT4
  }

  /** The row as the columns keep it. */
  function CutRow(row: Row): Row {
    row.(adminDid := Text.Cut(row.adminDid, DID_WIDTH), userDid := Text.Cut(row.userDid, DID_WIDTH),
         transactionId := Text.Cut(row.transactionId, ID_WIDTH), contractHash := Text.Cut(row.contractHash, ID_WIDTH),
         kind := Text.Cut(row.kind, 32))
  }

  /** UPDATE transfer_status SET ... WHERE request_id = id, and the rows affected. */
  function ExecUpdate(rows: Rows, sets: seq<Assignment>, args: seq<Value>, id: RequestId): (Rows, nat)
    requires Executable(sets, args)
  {
    if id in rows then (rows[id := AssignAll(rows[id], sets, args)], 1) else (rows, 0)
  }

  /** UpdateTransferStatus on the table as a value. */
  function UpdateRow(rows: Rows, id: RequestId, updates: Updates, now: int): (Rows, UpdateOutcome) {
    if updates == map[] then (rows, Updated)
    else if exists c :: c in updates && !Allowed(c) then (rows, UnsupportedField)
    else if !AllFit(updates) then (rows, SqlError)
    else if id !in rows then (rows, NoSuchRow)
    else (rows[id := Simultaneous(rows[id], updates[UpdatedAtColumn := TimeValue(now)])], Updated)
  }

  /** The two tables as the process sees them. */
  /** A new row fits if every DID has 80 characters and both ids 128, blanks beyond, and no text holds '\0'. */
  lemma RowFitsIs(row: Row)
    requires row.kind == "reward" && row.rewardPoints == 0 && row.transactionId == "" == row.contractHash
    ensures RowFits(row) <==>
            && '\0' !in row.adminDid && (forall i :: 80 <= i < |row.adminDid| ==> row.adminDid[i] == ' ')
            && '\0' !in row.userDid && (forall i :: 80 <= i < |row.userDid| ==> row.userDid[i] == ' ')
            && (forall i :: 0 <= i < |row.activityIds| ==> '\0' !in row.activityIds[i])
            && '\0' !in row.message && '\0' !in row.errorDetails
    ensures CutRow(row) == row.(adminDid := Text.Cut(row.adminDid, 80), userDid := Text.Cut(row.userDid, 80))
  {
  }

  /** An activity fits likewise, with points of four bytes; it is stored under what its key columns keep. */
  lemma ActivityFitsIs(a: Activities, admin: string, id: string, points: int)
    ensures ActivityFits(admin, id, points) <==>
            && -2_147_483_648 <= points <= 2_147_483_647 && '\0' !in admin && '\0' !in id
            && (forall i :: 80 <= i < |admin| ==> admin[i] == ' ') && (forall i :: 128 <= i < |id| ==> id[i] == ' ')
    ensures StoreActivity(a, admin, id, points) == a[(Text.Cut(admin, 80), Text.Cut(id, 128)) := points]
  {
  }

  class Store {
    var rows: Rows
    var activities: Activities

    constructor ()
      ensures rows == map[] && activities == map[]
    {
      rows, activities := map[], map[];
    }

    /** The primary key rejects a second row for a request, the columns what they cannot hold. */
    method CreateTransferStatus(requestId: RequestId, row: Row, now: int) returns (ok: bool)
      modifies this`rows
      ensures ok <==> requestId !in old(rows) && RowFits(row)
      ensures rows == if ok then old(rows)[requestId := CutRow(row).(createdAt := now, updatedAt := now)] else old(rows)
    {
      ok := requestId !in rows && RowFits(row);
      if ok {
        rows := rows[requestId := CutRow(row).(createdAt := now, updatedAt := now)];
      }
    }

    method UpdateTransferStatus(requestId: RequestId, updates: Updates, now: int) returns (r: UpdateOutcome)
      modifies this`rows
      ensures (rows, r) == UpdateRow(old(rows), requestId, updates, now)
    {
      if updates == map[] {
        return Updated;
      }
      var ok, sets, args, idPlaceholder := BuildUpdate(requestId, updates, now);
      if !ok {
        return UnsupportedField;
      }
      if !AllFit(updates) {
        return SqlError;
      }
      EncodesExecutable(sets, args, updates[UpdatedAtColumn := TimeValue(now)]);
      forall row: Row
        ensures AssignAll(row, sets, args) == Simultaneous(row, updates[UpdatedAtColumn := TimeValue(now)])
      {
        AnyOrderIsSimultaneous(row, sets, args, updates[UpdatedAtColumn := TimeValue(now)]);
      }
      var (after, affected) := ExecUpdate(rows, sets, args, args[idPlaceholder - 1].id);
      rows := after;
      r := if affected == 0 then NoSuchRow else Updated;
    }

    method CreateActivity(admin: string, id: string, points: int) returns (ok: bool)
      modifies this`activities
      ensures ok <==> ActivityFits(admin, id, points)
      ensures activities == if ok then StoreActivity(old(activities), admin, id, points) else old(activities)
    {
      ok := ActivityFits(admin, id, points);
      if ok {
        activities := StoreActivity(activities, admin, id, points);
      }
    }
  }

  /* ------------------------------- PayoutHistory ------------------------------- */

  datatype Op = Eq | AtLeast

  /** The text "<column> <op> $<placeholder>". */
  datatype Condition = Condition(column: string, op: Op, placeholder: nat)

  predicate Holds(row: Row, c: Condition, args: seq<Value>)
    requires 1 <= c.placeholder <= |args|
  {
    var v := args[c.placeholder - 1];
    match c.column
    case "admin_did" => c.op.Eq? && v == TextValue(row.adminDid)
    case "kind" => c.op.Eq? && v == TextValue(row.kind)
    case "status" => c.op.Eq? && v == StatusValue(row.status)
    case "created_at" => c.op.AtLeast? && v.TimeValue? && v.at <= row.createdAt
    case _ => false
  }

  predicate HoldsAll(row: Row, where: seq<Condition>, args: seq<Value>) {
    forall j :: 0 <= j < |where| ==> 1 <= where[j].placeholder <= |args| && Holds(row, where[j], args)
  }

  /** The filter an operator asked for; an absent status or since does not filter. */
  predicate Wanted(row: Row, admin: string, status: Option<Status>, since: Option<int>) {
    && row.adminDid == admin && row.kind == REWARD
    && (status.Some? ==> row.status == status.value)
    && (since.Some? ==> since.value <= row.createdAt)
  }

  method BuildHistory(admin: string, status: Option<Status>, since: Option<int>, limit: int)
    returns (where: seq<Condition>, args: seq<Value>, limitPlaceholder: nat)
    ensures forall row :: HoldsAll(row, where, args) <==>
              && row.adminDid == admin && row.kind == "reward"
              && (status.Some? ==> row.status == status.value) && (since.Some? ==> since.value <= row.createdAt)
    ensures forall j :: 0 <= j < |where| ==> where[j].placeholder == j + 1
    ensures limitPlaceholder == |where| + 1 == |args| && args[limitPlaceholder - 1] == IntValue(limit)
  {
    where := [Condition("admin_did", Eq, 1), Condition("kind", Eq, 2)];
    args := [TextValue(admin), TextValue(REWARD)];
    if status.Some? {
      args := args + [StatusValue(status.value)];
      where := where + [Condition("status", Eq, |args|)];
    }
    if since.Some? {
      args := args + [TimeValue(since.value)];
      where := where + [Condition("created_at", AtLeast, |args|)];
    }
    args := args + [IntValue(limit)];
    limitPlaceholder := |args|;
    forall row
      ensures HoldsAll(row, where, args) <==> Wanted(row, admin, status, since)
    {
      HistoryMeaning(row, where, args, admin, status, since);
    }
  }

  lemma HistoryMeaning(row: Row, where: seq<Condition>, args: seq<Value>, admin: string, status: Option<Status>,
                       since: Option<int>)
    requires |args| >= 2 && args[0] == TextValue(admin) && args[1] == TextValue(REWARD)
    requires where == [Condition("admin_did", Eq, 1), Condition("kind", Eq, 2)]
                      + (if status.Some? then [Condition("status", Eq, 3)] else [])
                      + (if since.Some? then [Condition("created_at", AtLeast, if status.Some? then 4 else 3)] else [])
    requires status.Some? ==> |args| >= 3 && args[2] == StatusValue(status.value)
    requires since.Some? ==> var p := if status.Some? then 3 else 2; |args| > p && args[p] == TimeValue(since.value)
    ensures HoldsAll(row, where, args) <==> Wanted(row, admin, status, since)
  {
    assert where[0].column == "admin_did" && where[1].column == "kind";
    if HoldsAll(row, where, args) {
      assert Holds(row, where[0], args) && Holds(row, where[1], args);
      if status.Some? { assert Holds(row, where[2], args); }
      if since.Some? { assert Holds(row, where[if status.Some? then 3 else 2], args); }
    }
  }
}
