/** The read-only reports over the ledger: per-admin summary and grouped failures. */
module Diagnostics {
  import opened Basics
  import opened Ledger
  import FailureReason
  import MismatchText

  const NEEDLE := "chain mismatch"

  /** error_details LIKE '%chain mismatch%' */
  predicate MentionsMismatch(details: string) {
    exists i :: 0 <= i <= |details| && MismatchText.At(details, i, NEEDLE)
  }

  /** Reward rows created at or after since; an empty admin means all of them. */
  /** error_details LIKE '%chain mismatch%' */
  lemma MentionsIs(details: string)
    ensures MentionsMismatch(details)
            <==> exists i, j :: 0 <= i <= j <= |details| && details[i..j] == "chain mismatch"
  {
    if MentionsMismatch(details) {
      var i :| 0 <= i <= |details| && MismatchText.At(details, i, NEEDLE);
      assert details[i..i + 14] == "chain mismatch";
    }
    if i, j :| 0 <= i <= j <= |details| && details[i..j] == "chain mismatch" {
      assert forall k :: 0 <= k < 14 ==> details[i + k] == details[i..j][k];
      assert MismatchText.At(details, i, NEEDLE);
    }
  }

  function Window(rows: Rows, since: int, admin: string): set<RequestId> {
    set r | r in rows && rows[r].kind == REWARD && rows[r].createdAt >= since
      && (admin == "" || rows[r].adminDid == admin)
  }

  function WithStatus(rows: Rows, group: set<RequestId>, status: Status): set<RequestId>
    requires group <= rows.Keys
  {
    set r | r in group && rows[r].status == status
  }

  function Mismatches(rows: Rows, group: set<RequestId>): set<RequestId>
    requires group <= rows.Keys
  {
    set r | r in group && rows[r].status == Failed && MentionsMismatch(rows[r].errorDetails)
  }

  /** One admin's successful reward rows, of any age. */
  function SuccessesOf(rows: Rows, admin: string): set<RequestId> {
    set r | r in rows && rows[r].kind == REWARD && rows[r].adminDid == admin && rows[r].status == Success
  }

  /* -------------------------- earliest and newest ------------------------------- */

  predicate IsEarliest(rows: Rows, group: set<RequestId>, r: RequestId)
    requires group <= rows.Keys
  {
    r in group && forall q :: q in group ==> rows[r].createdAt <= rows[q].createdAt
  }

  predicate IsNewest(rows: Rows, group: set<RequestId>, r: RequestId)
    requires group <= rows.Keys
  {
    r in group && forall q :: q in group ==> rows[q].createdAt <= rows[r].createdAt
  }

  lemma {:induction false} EarliestExists(rows: Rows, group: set<RequestId>)
    requires group <= rows.Keys && group != {}
    ensures exists r :: IsEarliest(rows, group, r)
    decreases |group|
  {
    var r :| r in group;
    var rest := group - {r};
    if rest == {} {
      assert group == {r};
      assert IsEarliest(rows, group, r);
    } else {
      EarliestExists(rows, rest);
      var q :| IsEarliest(rows, rest, q);
      assert group == rest + {r};
      assert IsEarliest(rows, group, if rows[q].createdAt < rows[r].createdAt then q else r);
    }
  }

  lemma {:induction false} NewestExists(rows: Rows, group: set<RequestId>)
    requires group <= rows.Keys && group != {}
    ensures exists r :: IsNewest(rows, group, r)
    decreases |group|
  {
    var r :| r in group;
    var rest := group - {r};
    if rest == {} {
      assert group == {r};
      assert IsNewest(rows, group, r);
    } else {
      NewestExists(rows, rest);
      var q :| IsNewest(rows, rest, q);
      assert group == rest + {r};
      assert IsNewest(rows, group, if rows[q].createdAt > rows[r].createdAt then q else r);
    }
  }

  /** min(created_at), NULL over no rows */
  ghost function MinAt(rows: Rows, group: set<RequestId>): (t: Option<int>)
    requires group <= rows.Keys
    ensures t.None? <==> group == {}
    ensures t.Some? ==>
              && (exists r :: r in group && rows[r].createdAt == t.value)
              && forall q :: q in group ==> t.value <= rows[q].createdAt
  {
    if group == {} then None
    else
      EarliestExists(rows, group);
      var r :| IsEarliest(rows, group, r);
      Some(rows[r].createdAt)
  }

  /** max(created_at), NULL over no rows */
  ghost function MaxAt(rows: Rows, group: set<RequestId>): (t: Option<int>)
    requires group <= rows.Keys
    ensures t.None? <==> group == {}
    ensures t.Some? ==>
              && (exists r :: r in group && rows[r].createdAt == t.value)
              && forall q :: q in group ==> rows[q].createdAt <= t.value
  {
    if group == {} then None
    else
      NewestExists(rows, group);
      var r :| IsNewest(rows, group, r);
      Some(rows[r].createdAt)
  }

  /* ---------------------------------- summary ----------------------------------- */

  datatype Summary = Summary(
    total: nat, success: nat, failed: nat, mismatch: nat, inFlight: nat,
    firstMismatchAt: Option<int>, lastMismatchAt: Option<int>, lastSuccessAt: Option<int>)

  /** The row PayoutSummary reports for one admin. */
  ghost function SummaryOf(rows: Rows, since: int, admin: string): Summary {
    var group := Window(rows, since, admin);
    Summary(|group|, |WithStatus(rows, group, Success)|, |WithStatus(rows, group, Failed)|, |Mismatches(rows, group)|,
            |WithStatus(rows, group, Queued) + WithStatus(rows, group, Processing)|,
            MinAt(rows, Mismatches(rows, group)), MaxAt(rows, Mismatches(rows, group)),
            MaxAt(rows, WithStatus(rows, group, Success)))
  }

  /** The window, over the rows' own fields. */
  lemma WindowIs(rows: Rows, since: int, admin: string)
    ensures Window(rows, since, admin)
            == set r | r in rows && rows[r].kind == "reward" && since <= rows[r].createdAt
                       && (admin == "" || rows[r].adminDid == admin)
  {
  }

  lemma WithStatusIs(rows: Rows, group: set<RequestId>, status: Status)
    requires group <= rows.Keys
    ensures WithStatus(rows, group, status) == set r | r in group && rows[r].status == status
  {
  }

  /** The five counts of a window. */
  lemma SummaryCounts(rows: Rows, since: int, admin: string)
    ensures var s, all := SummaryOf(rows, since, admin), Window(rows, since, admin);
            && s.total == |all|
            && s.success == |set r | r in all && rows[r].status == Success|
            && s.failed == |set r | r in all && rows[r].status == Failed|
            && s.mismatch == |set r | r in all && rows[r].status == Failed && MentionsMismatch(rows[r].errorDetails)|
            && s.inFlight == |set r | r in all && rows[r].status in {Queued, Processing}|
  {
    var all := Window(rows, since, admin);
    WithStatusIs(rows, all, Success);
    WithStatusIs(rows, all, Failed);
    assert WithStatus(rows, all, Queued) + WithStatus(rows, all, Processing)
        == set r | r in all && rows[r].status in {Queued, Processing};
    assert Mismatches(rows, all)
        == set r | r in all && rows[r].status == Failed && MentionsMismatch(rows[r].errorDetails);
  }

  /** The three times of a window: each belongs to a row of its kind, and no such row lies beyond it. */
  lemma SummaryTimes(rows: Rows, since: int, admin: string)
    ensures var s, all := SummaryOf(rows, since, admin), Window(rows, since, admin);
            && (forall r :: r in all && rows[r].status == Failed && MentionsMismatch(rows[r].errorDetails) ==>
                  && s.firstMismatchAt.Some? && s.lastMismatchAt.Some?
                  && s.firstMismatchAt.value <= rows[r].createdAt <= s.lastMismatchAt.value)
            && (s.firstMismatchAt.Some? ==>
                  exists r :: r in all && rows[r].status == Failed && MentionsMismatch(rows[r].errorDetails)
                              && rows[r].createdAt == s.firstMismatchAt.value)
            && (s.lastMismatchAt.Some? ==>
                  exists r :: r in all && rows[r].status == Failed && MentionsMismatch(rows[r].errorDetails)
                              && rows[r].createdAt == s.lastMismatchAt.value)
            && (forall r :: r in all && rows[r].status == Success ==>
                  s.lastSuccessAt.Some? && rows[r].createdAt <= s.lastSuccessAt.value)
            && (s.lastSuccessAt.Some? ==>
                  exists r :: r in all && rows[r].status == Success && rows[r].createdAt == s.lastSuccessAt.value)
  {
    var all := Window(rows, since, admin);
    assert forall r :: r in all && rows[r].status == Failed && MentionsMismatch(rows[r].errorDetails) ==>
        r in Mismatches(rows, all);
    assert forall r :: r in all && rows[r].status == Success ==> r in WithStatus(rows, all, Success);
  }

  lemma SubsetCount(a: set<RequestId>, b: set<RequestId>)
    requires a <= b
    ensures |a| <= |b|
  {
    assert b == a + (b - a);
  }

  lemma ThreeParts(group: set<RequestId>, a: set<RequestId>, b: set<RequestId>, c: set<RequestId>)
    requires a !! b !! c && forall r :: r in group <==> r in a || r in b || r in c
    ensures |group| == |a| + |b| + |c|
  {
    assert group == a + b + c;
  }

  lemma StatusesPartition(rows: Rows, group: set<RequestId>)
    requires group <= rows.Keys
    ensures |group| == |WithStatus(rows, group, Success)| + |WithStatus(rows, group, Failed)|
                       + |WithStatus(rows, group, Queued) + WithStatus(rows, group, Processing)|
  {
    ThreeParts(group, WithStatus(rows, group, Success), WithStatus(rows, group, Failed),
               WithStatus(rows, group, Queued) + WithStatus(rows, group, Processing));
  }

  lemma MismatchesFailed(rows: Rows, group: set<RequestId>)
    requires group <= rows.Keys
    ensures |Mismatches(rows, group)| <= |WithStatus(rows, group, Failed)|
  {
    SubsetCount(Mismatches(rows, group), WithStatus(rows, group, Failed));
  }

  lemma MinBeforeMax(rows: Rows, group: set<RequestId>, since: int)
    requires group <= rows.Keys && group != {} && forall r :: r in group ==> since <= rows[r].createdAt
    ensures since <= MinAt(rows, group).value <= MaxAt(rows, group).value
  {
    var q :| q in group && rows[q].createdAt == MinAt(rows, group).value;
  }

  lemma NonEmptyIff(group: set<RequestId>)
    ensures group != {} <==> |group| > 0
  {
  }

  lemma SummaryBalances(rows: Rows, since: int, admin: string)
    ensures var s := SummaryOf(rows, since, admin);
            && s.total == s.success + s.failed + s.inFlight
            && s.mismatch <= s.failed
            && (s.firstMismatchAt.Some? <==> s.mismatch > 0) && (s.lastMismatchAt.Some? <==> s.mismatch > 0)
            && (s.mismatch > 0 ==> since <= s.firstMismatchAt.value <= s.lastMismatchAt.value)
            && (s.lastSuccessAt.Some? <==> s.success > 0)
  {
    var group := Window(rows, since, admin);
    var mm, ok := Mismatches(rows, group), WithStatus(rows, group, Success);
    StatusesPartition(rows, group);
    MismatchesFailed(rows, group);
    NonEmptyIff(mm);
    NonEmptyIff(ok);
    if mm != {} {
      MinBeforeMax(rows, mm, since);
    }
  }

  /**
   What the sub-query for last_success_tx may return: the transaction of one of the admin's newest
   successes, of any age (rows created at the same instant tie), or nothing.
   */
  ghost predicate LastSuccessTx(rows: Rows, admin: string, tx: string) {
    if SuccessesOf(rows, admin) == {} then tx == ""
    else exists r :: IsNewest(rows, SuccessesOf(rows, admin), r) && rows[r].transactionId == tx
  }

  /** Over the rows' own fields: the transaction of one of the admin's newest successes, or nothing. */
  lemma LastSuccessTxIs(rows: Rows, admin: string, tx: string)
    ensures var successful := set r | r in rows && rows[r].kind == "reward" && rows[r].adminDid == admin
                                      && rows[r].status == Success;
            LastSuccessTx(rows, admin, tx)
            <==> if successful == {} then tx == ""
                 else exists r :: r in successful && rows[r].transactionId == tx
                                  && forall q :: q in successful ==> rows[q].createdAt <= rows[r].createdAt
  {
    var successful := set r | r in rows && rows[r].kind == "reward" && rows[r].adminDid == admin
                              && rows[r].status == Success;
    assert SuccessesOf(rows, admin) == successful;
  }

  /**
   last_success_tx disregards the window. It is the transaction of a success created exactly at the
   reported last success when there is one; otherwise every success, its own included, is older than the window.
   */
  lemma LastSuccessTxAgrees(rows: Rows, since: int, admin: string, tx: string)
    requires admin != "" && LastSuccessTx(rows, admin, tx)
    ensures var last := SummaryOf(rows, since, admin).lastSuccessAt;
            var inside := WithStatus(rows, Window(rows, since, admin), Success);
            && (last.Some? ==>
                  exists r :: r in inside && rows[r].createdAt == last.value && rows[r].transactionId == tx)
            && (last.None? ==> forall r :: r in SuccessesOf(rows, admin) ==> rows[r].createdAt < since)
            && (last.None? && tx != "" ==> exists r :: r in SuccessesOf(rows, admin) && rows[r].transactionId == tx)
  {
    var all, inside := SuccessesOf(rows, admin), WithStatus(rows, Window(rows, since, admin), Success);
    assert forall r :: r in inside <==> r in all && rows[r].createdAt >= since;
    if all != {} {
      var r :| IsNewest(rows, all, r) && rows[r].transactionId == tx;
      if inside != {} {
        var q :| q in inside;
        assert rows[q].createdAt <= rows[r].createdAt;
        assert r in inside;
      }
    }
  }

  /** A ledger whose only success lies before the window: no last success, and still a transaction. */
  lemma LastSuccessTxOutlivesWindow(row: Row, since: int)
    requires row.kind == REWARD && row.status == Success && row.adminDid != "" && row.createdAt < since
    ensures SummaryOf(map[0 := row], since, row.adminDid).lastSuccessAt.None?
    ensures LastSuccessTx(map[0 := row], row.adminDid, row.transactionId)
  {
    var rows: Rows := map[0 := row];
    assert SuccessesOf(rows, row.adminDid) == {0};
    assert IsNewest(rows, SuccessesOf(rows, row.adminDid), 0);
    assert WithStatus(rows, Window(rows, since, row.adminDid), Success) == {};
  }

  /* ---------------------------------- failures ---------------------------------- */

  function ReasonOf(row: Row): string {
    FailureReason.Reason(row.errorDetails)
  }

  /** The failed rows with their reasons. */
  function Reasons(rows: Rows, failed: set<RequestId>): map<RequestId, string>
    requires failed <= rows.Keys
  {
    map r | r in failed :: ReasonOf(rows[r])
  }

  datatype Group = Group(count: nat, reason: string, firstAt: Option<int>, latestAt: Option<int>)

  function Members(reasons: map<RequestId, string>, reason: string): set<RequestId> {
    set r | r in reasons && reasons[r] == reason
  }

  ghost function GroupOf(rows: Rows, reasons: map<RequestId, string>, reason: string): Group
    requires reasons.Keys <= rows.Keys
  {
    var members := Members(reasons, reason);
    Group(|members|, reason, MinAt(rows, members), MaxAt(rows, members))
  }

  /** Every reason once: what GROUP BY yields, in some order. */
  predicate ListsReasons(reasons: map<RequestId, string>, order: seq<string>) {
    && Distinct(order)
    && (forall r :: r in reasons ==> reasons[r] in order)
    && (forall i :: 0 <= i < |order| ==> Members(reasons, order[i]) != {})
  }

  /** ORDER BY count(*) DESC, max(created_at) DESC */
  ghost predicate Ranks(g: Group, h: Group) {
    || g.count > h.count
    || (g.count == h.count && g.latestAt.Some? && h.latestAt.Some? && g.latestAt.value >= h.latestAt.value)
  }

  ghost predicate Ranked(rows: Rows, reasons: map<RequestId, string>, order: seq<string>)
    requires reasons.Keys <= rows.Keys
  {
    forall i, j :: 0 <= i < j < |order| ==> Ranks(GroupOf(rows, reasons, order[i]), GroupOf(rows, reasons, order[j]))
  }

  /** The groups PayoutFailures returns for an order the database may have chosen. */
  ghost function Listed(rows: Rows, reasons: map<RequestId, string>, order: seq<string>, limit: nat): (out: seq<Group>)
    requires reasons.Keys <= rows.Keys
  {
    var n := if limit < |order| then limit else |order|;
    seq(n, i requires 0 <= i < n => GroupOf(rows, reasons, order[i]))
  }

  function SumCounts(groups: seq<Group>): nat {
    if groups == [] then 0 else SumCounts(groups[..|groups| - 1]) + groups[|groups| - 1].count
  }

  function Covered(reasons: map<RequestId, string>, some: seq<string>): set<RequestId> {
    set r | r in reasons && reasons[r] in some
  }

  lemma CoverOneMore(reasons: map<RequestId, string>, order: seq<string>, n: nat)
    requires n < |order| && Distinct(order)
    ensures |Covered(reasons, order[..n + 1])| == |Covered(reasons, order[..n])| + |Members(reasons, order[n])|
  {
    var before, here := Covered(reasons, order[..n]), Members(reasons, order[n]);
    assert order[..n + 1] == order[..n] + [order[n]];
    assert Covered(reasons, order[..n + 1]) == before + here;
    assert before !! here;
  }

  ghost function SumMembers(labels: map<RequestId, string>, admins: seq<string>): nat {
    if admins == [] then 0
    else SumMembers(labels, admins[..|admins| - 1]) + |Members(labels, admins[|admins| - 1])|
  }

  predicate Distinct(admins: seq<string>) {
    forall i, j :: 0 <= i < j < |admins| ==> admins[i] != admins[j]
  }

  lemma {:induction false} MembersUpTo(labels: map<RequestId, string>, admins: seq<string>, n: nat)
    requires n <= |admins| && Distinct(admins)
    ensures SumMembers(labels, admins[..n]) == |Covered(labels, admins[..n])|
    decreases n
  {
    if n == 0 {
      assert Covered(labels, admins[..n]) == {};
    } else {
      MembersUpTo(labels, admins, n - 1);
      CoverOneMore(labels, admins, n - 1);
      assert admins[..n][..n - 1] == admins[..n - 1];
    }
  }

  /** The counts of the first n groups, one after the other. */
  lemma {:induction false} ListedCounts(rows: Rows, reasons: map<RequestId, string>, order: seq<string>, n: nat)
    requires reasons.Keys <= rows.Keys && n <= |order|
    ensures SumCounts(Listed(rows, reasons, order, n)) == SumMembers(reasons, order[..n])
    decreases n
  {
    if n > 0 {
      var groups := Listed(rows, reasons, order, n);
      ListedCounts(rows, reasons, order, n - 1);
      assert groups[..n - 1] == Listed(rows, reasons, order, n - 1);
      assert groups[n - 1].count == |Members(reasons, order[n - 1])|;
      assert order[..n][..n - 1] == order[..n - 1] && order[..n][n - 1] == order[n - 1];
    }
  }

  lemma CountsUpTo(rows: Rows, reasons: map<RequestId, string>, order: seq<string>, n: nat)
    requires reasons.Keys <= rows.Keys && ListsReasons(reasons, order) && n <= |order|
    ensures SumCounts(Listed(rows, reasons, order, n)) == |Covered(reasons, order[..n])|
  {
    ListedCounts(rows, reasons, order, n);
    MembersUpTo(reasons, order, n);
  }

  lemma AllCovered(reasons: map<RequestId, string>, order: seq<string>)
    requires ListsReasons(reasons, order)
    ensures Covered(reasons, order[..|order|]) == reasons.Keys
  {
    assert order[..|order|] == order;
  }

  lemma NotAllCovered(reasons: map<RequestId, string>, order: seq<string>, n: nat)
    requires ListsReasons(reasons, order) && n < |order|
    ensures |Covered(reasons, order[..n])| < |reasons.Keys|
  {
    CoverOneMore(reasons, order, n);
    NonEmptyIff(Members(reasons, order[n]));
    SubsetCount(Covered(reasons, order[..n + 1]), reasons.Keys);
  }

  lemma GroupsPartition(rows: Rows, reasons: map<RequestId, string>, order: seq<string>, limit: nat)
    requires reasons.Keys <= rows.Keys && ListsReasons(reasons, order)
    ensures SumCounts(Listed(rows, reasons, order, limit)) <= |reasons.Keys|
    ensures SumCounts(Listed(rows, reasons, order, limit)) == |reasons.Keys| <==> |order| <= limit
  {
    var n := if limit < |order| then limit else |order|;
    CountsUpTo(rows, reasons, order, n);
    assert Listed(rows, reasons, order, limit) == Listed(rows, reasons, order, n);
    if n < |order| {
      NotAllCovered(reasons, order, n);
    } else {
      AllCovered(reasons, order);
    }
  }

  lemma DroppedNoLarger(rows: Rows, reasons: map<RequestId, string>, order: seq<string>, limit: nat, kept: nat,
                        dropped: nat)
    requires reasons.Keys <= rows.Keys && Ranked(rows, reasons, order)
    ensures kept < limit <= dropped < |order| ==>
              GroupOf(rows, reasons, order[dropped]).count <= Listed(rows, reasons, order, limit)[kept].count
  {
    if kept < limit <= dropped < |order| {
      assert Ranks(GroupOf(rows, reasons, order[kept]), GroupOf(rows, reasons, order[dropped]));
    }
  }

  /** The rows of a listed group: the failed ones of the window whose error has this reason. */
  lemma MembersAre(rows: Rows, since: int, admin: string, reason: string)
    ensures Members(Reasons(rows, WithStatus(rows, Window(rows, since, admin), Failed)), reason)
            == set r | r in Window(rows, since, admin) && rows[r].status == Failed
                       && FailureReason.Reason(rows[r].errorDetails) == reason
  {
  }

  lemma GroupIs(rows: Rows, reasons: map<RequestId, string>, reason: string)
    requires reasons.Keys <= rows.Keys
    ensures var g, members := GroupOf(rows, reasons, reason), set r | r in reasons && reasons[r] == reason;
            && g.reason == reason && g.count == |members|
            && (forall r :: r in members ==>
                  g.firstAt.Some? && g.latestAt.Some? && g.firstAt.value <= rows[r].createdAt <= g.latestAt.value)
            && (g.firstAt.Some? ==> exists r :: r in members && rows[r].createdAt == g.firstAt.value)
            && (g.latestAt.Some? ==> exists r :: r in members && rows[r].createdAt == g.latestAt.value)
  {
    assert Members(reasons, reason) == set r | r in reasons && reasons[r] == reason;
  }

  lemma HasMembers(reasons: map<RequestId, string>, reason: string)
    ensures Members(reasons, reason) != {} <==> reason in reasons.Values
  {
    if r :| r in reasons && reasons[r] == reason {
      assert r in Members(reasons, reason);
    }
  }

  /** The groups listed: one for each reason that occurs. */
  lemma ListsReasonsIs(reasons: map<RequestId, string>, order: seq<string>)
    ensures ListsReasons(reasons, order)
            <==> && (forall i, j :: 0 <= i < j < |order| ==> order[i] != order[j])
                 && (forall r :: r in reasons ==> reasons[r] in order)
                 && (forall i :: 0 <= i < |order| ==> order[i] in reasons.Values)
  {
    forall i | 0 <= i < |order| ensures Members(reasons, order[i]) != {} <==> order[i] in reasons.Values {
      HasMembers(reasons, order[i]);
    }
  }

  /** Larger groups come first, and of equal ones the more recent. */
  lemma RanksIs(g: Group, h: Group)
    requires g.latestAt.Some? && h.latestAt.Some?
    ensures Ranks(g, h) <==> g.count > h.count || (g.count == h.count && g.latestAt.value >= h.latestAt.value)
  {
  }

  /**
   The groups partition the failed rows. Their counts add up to the summary's failed total exactly when
   the limit drops no group; otherwise no dropped group is larger than a kept one.
   */
  lemma FailureGroupsPartition(rows: Rows, since: int, admin: string, order: seq<string>, limit: nat, kept: nat,
                               dropped: nat)
    requires var reasons := Reasons(rows, WithStatus(rows, Window(rows, since, admin), Failed));
             ListsReasons(reasons, order) && Ranked(rows, reasons, order)
    ensures var reasons := Reasons(rows, WithStatus(rows, Window(rows, since, admin), Failed));
            var out := Listed(rows, reasons, order, limit);
            && SumCounts(out) <= SummaryOf(rows, since, admin).failed
            && (SumCounts(out) == SummaryOf(rows, since, admin).failed <==> |order| <= limit)
            && (kept < limit <= dropped < |order| ==> GroupOf(rows, reasons, order[dropped]).count <= out[kept].count)
  {
    var failed := WithStatus(rows, Window(rows, since, admin), Failed);
    var reasons := Reasons(rows, failed);
    assert reasons.Keys == failed;
    GroupsPartition(rows, reasons, order, limit);
    DroppedNoLarger(rows, reasons, order, limit, kept, dropped);
  }

  /* ------------------------------ across admins ---------------------------------- */

  datatype Totals = Totals(total: nat, success: nat, failed: nat, mismatch: nat, inFlight: nat)

  ghost function TotalsOf(s: Summary): Totals {
    Totals(s.total, s.success, s.failed, s.mismatch, s.inFlight)
  }

  function Plus(a: Totals, b: Totals): Totals {
    Totals(a.total + b.total, a.success + b.success, a.failed + b.failed, a.mismatch + b.mismatch,
           a.inFlight + b.inFlight)
  }

  /** The sum of the summary's rows for these admins. */
  ghost function SumRows(rows: Rows, since: int, admins: seq<string>): Totals {
    if admins == [] then Totals(0, 0, 0, 0, 0)
    else Plus(SumRows(rows, since, admins[..|admins| - 1]), TotalsOf(SummaryOf(rows, since, admins[|admins| - 1])))
  }

  /** Some rows of the window, labelled with their admin. */
  function AdminLabels(rows: Rows, some: set<RequestId>): map<RequestId, string>
    requires some <= rows.Keys
  {
    map r | r in some :: rows[r].adminDid
  }

  /** Counted admin by admin, a set of rows is counted once. */
  lemma CountedOnce(rows: Rows, some: set<RequestId>, admins: seq<string>)
    requires some <= rows.Keys && Distinct(admins) && forall r :: r in some ==> rows[r].adminDid in admins
    ensures SumMembers(AdminLabels(rows, some), admins) == |some|
  {
    var labels := AdminLabels(rows, some);
    MembersUpTo(labels, admins, |admins|);
    assert admins[..|admins|] == admins;
    assert Covered(labels, admins) == some;
  }

  /** The rows counted in the five columns. */
  function Counted(rows: Rows, since: int, admin: string)
    : (set<RequestId>, set<RequestId>, set<RequestId>, set<RequestId>, set<RequestId>)
  {
    var group := Window(rows, since, admin);
    (group, WithStatus(rows, group, Success), WithStatus(rows, group, Failed), Mismatches(rows, group),
     WithStatus(rows, group, Queued) + WithStatus(rows, group, Processing))
  }

  /** One admin's row of the summary counts that admin's share of each column. */
  lemma OneAdminShare(rows: Rows, since: int, admin: string)
    requires admin != ""
    ensures var all, s := Counted(rows, since, ""), SummaryOf(rows, since, admin);
            && s.total == |Members(AdminLabels(rows, all.0), admin)|
            && s.success == |Members(AdminLabels(rows, all.1), admin)|
            && s.failed == |Members(AdminLabels(rows, all.2), admin)|
            && s.mismatch == |Members(AdminLabels(rows, all.3), admin)|
            && s.inFlight == |Members(AdminLabels(rows, all.4), admin)|
  {
    var all, mine := Counted(rows, since, ""), Counted(rows, since, admin);
    assert mine.0 == Members(AdminLabels(rows, all.0), admin);
    assert mine.1 == Members(AdminLabels(rows, all.1), admin);
    assert mine.2 == Members(AdminLabels(rows, all.2), admin);
    assert mine.3 == Members(AdminLabels(rows, all.3), admin);
    assert mine.4 == Members(AdminLabels(rows, all.4), admin);
  }

  lemma {:induction false} SharesAddUp(rows: Rows, since: int, admins: seq<string>)
    requires "" !in admins
    ensures var all, sum := Counted(rows, since, ""), SumRows(rows, since, admins);
            && sum.total == SumMembers(AdminLabels(rows, all.0), admins)
            && sum.success == SumMembers(AdminLabels(rows, all.1), admins)
            && sum.failed == SumMembers(AdminLabels(rows, all.2), admins)
            && sum.mismatch == SumMembers(AdminLabels(rows, all.3), admins)
            && sum.inFlight == SumMembers(AdminLabels(rows, all.4), admins)
    decreases |admins|
  {
    if admins != [] {
      SharesAddUp(rows, since, admins[..|admins| - 1]);
      OneAdminShare(rows, since, admins[|admins| - 1]);
    }
  }

  /** The summary's rows, one per admin, account for every transfer of the window once, in each of the five columns. */
  lemma SummaryRowsAddUp(rows: Rows, since: int, admins: seq<string>)
    requires "" !in admins && Distinct(admins)
    requires forall r :: r in Window(rows, since, "") ==> rows[r].adminDid in admins
    ensures SumRows(rows, since, admins) == TotalsOf(SummaryOf(rows, since, ""))
  {
    var all := Counted(rows, since, "");
    SharesAddUp(rows, since, admins);
    CountedOnce(rows, all.0, admins);
    CountedOnce(rows, all.1, admins);
    CountedOnce(rows, all.2, admins);
    CountedOnce(rows, all.3, admins);
    CountedOnce(rows, all.4, admins);
  }
}
