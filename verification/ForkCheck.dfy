/**
 The fork check: three queries over one ledger, the registry and the owner's node, combined into one
 report. The ledger is taken as fixed while the check runs.
 */
module ForkCheck {
  import opened Basics
  import opened Ledger
  import opened Diagnostics
  import MismatchText

  datatype ChainEntry = ChainEntry(transactionId: string, epoch: int)

  datatype Fetched = Chain(entries: seq<ChainEntry>) | FetchError(message: string)

  datatype Contract = Contract(adminDid: string, nodePort: string, kind: string, hash: string)

  /** The chain fields of a contract's report. */
  datatype Head = Head(chainLength: int, headPosition: int, headTx: string, headEpoch: int, error: string)

  const NO_HEAD := Head(0, 0, "", 0, "")

  /** What the node's answer says about the head: the last entry, the error, or neither for an empty chain. */
  function HeadOf(answer: Fetched): Head {
    match answer
    case FetchError(message) => Head(0, 0, "", 0, message)
    case Chain(entries) =>
      if entries == [] then Head(0, -1, "", 0, "")
      else
        var last := entries[|entries| - 1];
        Head(|entries|, |entries| - 1, last.transactionId, last.epoch, "")
  }

  /** Length, position and the last entry; position -1 for an empty chain; nothing but the text for an error. */
  lemma HeadOfIs(message: string, entries: seq<ChainEntry>, last: ChainEntry)
    ensures HeadOf(FetchError(message)) == Head(0, 0, "", 0, message)
    ensures HeadOf(Chain([])) == Head(0, -1, "", 0, "")
    ensures HeadOf(Chain(entries + [last])) == Head(|entries| + 1, |entries|, last.transactionId, last.epoch, "")
  {
  }

  /** debugContract: what is known about one contract's chain. */
  class ContractInfo {
    const kind: string
    const hash: string
    var chainLength: int
    var headPosition: int
    var headTx: string
    var headEpoch: int
    var error: string

    constructor (kind: string, hash: string)
      ensures this.kind == kind && this.hash == hash && Blank()
    {
      this.kind, this.hash := kind, hash;
      chainLength, headPosition, headTx, headEpoch, error := 0, 0, "", 0, "";
    }

    ghost predicate Blank()
      reads this
    {
      Value() == NO_HEAD
    }

    ghost function Value(): Head
      reads this
    {
      Head(chainLength, headPosition, headTx, headEpoch, error)
    }

    method FillHead(answer: Fetched)
      requires Blank()
      modifies this
      ensures Value() == HeadOf(answer)
    {
      match answer {
        case FetchError(message) =>
          error := message;
        case Chain(entries) =>
          chainLength := |entries|;
          headPosition := |entries| - 1;
          if |entries| > 0 {
            headTx := entries[|entries| - 1].transactionId;
            headEpoch := entries[|entries| - 1].epoch;
          }
      }
    }
  }

  /* ----------------------------------- queries ----------------------------------- */

  function MismatchesOf(rows: Rows, admin: string): set<RequestId> {
    set r | r in rows && rows[r].kind == REWARD && rows[r].adminDid == admin && rows[r].status == Failed
            && MentionsMismatch(rows[r].errorDetails)
  }

  /** Failed reward transfers of this admin whose error mentions the mismatch. */
  lemma MismatchesAre(rows: Rows, admin: string)
    ensures MismatchesOf(rows, admin)
            == set r | r in rows && rows[r].kind == "reward" && rows[r].adminDid == admin && rows[r].status == Failed
                       && MentionsMismatch(rows[r].errorDetails)
  {
  }

  function MismatchesAfter(rows: Rows, admin: string, t: int): set<RequestId> {
    set r | r in MismatchesOf(rows, admin) && rows[r].createdAt > t
  }

  /** ORDER BY created_at DESC LIMIT 1: some newest row, or none. */
  method SelectNewest(rows: Rows, group: set<RequestId>) returns (r: Option<RequestId>)
    requires group <= rows.Keys
    ensures r.None? <==> group == {}
    ensures r.Some? ==> IsNewest(rows, group, r.value)
  {
    if group == {} {
      return None;
    }
    NewestExists(rows, group);
    var newest :| newest in group && forall q :: q in group ==> rows[q].createdAt <= rows[newest].createdAt;
    return Some(newest);
  }

  lemma LaterMismatches(rows: Rows, admin: string, t: int)
    ensures MismatchesAfter(rows, admin, t)
            == set r | r in rows && rows[r].kind == "reward" && rows[r].adminDid == admin && rows[r].status == Failed
                       && MentionsMismatch(rows[r].errorDetails) && rows[r].createdAt > t
  {
  }

  method FirstRewardMismatchAfter(rows: Rows, admin: string, t: int) returns (first: Option<int>)
    ensures first == MinAt(rows, MismatchesAfter(rows, admin, t))
    ensures var later := set r | r in rows && rows[r].kind == "reward" && rows[r].adminDid == admin
                                 && rows[r].status == Failed && MentionsMismatch(rows[r].errorDetails)
                                 && rows[r].createdAt > t;
            if later == {} then first == None
            else first.Some? && (exists r :: r in later && rows[r].createdAt == first.value)
                 && forall r :: r in later ==> first.value <= rows[r].createdAt
  {
    LaterMismatches(rows, admin, t);
    var group := MismatchesAfter(rows, admin, t);
    if group == {} {
      return None;
    }
    EarliestExists(rows, group);
    var r :| r in group && forall q :: q in group ==> rows[r].createdAt <= rows[q].createdAt;
    return Some(rows[r].createdAt);
  }

  /* ---------------------------------- the report --------------------------------- */

  datatype Report = Report(
    nodePort: string, contract: string, lastSuccessTx: string, lastSuccessAt: Option<int>,
    mismatchSeenAt: Option<int>, mismatchRequest: Option<RequestId>, quorumHead: string, ownerExpected: string,
    firstMismatchAt: Option<int>, ownerCurrentHead: string, ownerChainLength: int, nodeError: string, forked: bool,
    note: string)

  const EMPTY := Report("", "", "", None, None, None, "", "", None, "", 0, "", false, "")

  const NOTHING_RECORDED := "no chain-mismatch failures recorded for this admin"
  const UNPARSED := "newest chain-mismatch row did not contain 'local latest <hash> != expected <hash>'"
  const REPAIRED := "newest mismatch predates the last success: already repaired"
  const NO_CONTRACT := "no reward contract registered for this admin"

  /** The port on the last registry row. */
  function LastPort(contracts: seq<Contract>): string {
    if contracts == [] then "" else contracts[|contracts| - 1].nodePort
  }

  /** The hash on the last reward row, empty if there is none. */
  function RewardContract(contracts: seq<Contract>): string {
    if contracts == [] then ""
    else if contracts[|contracts| - 1].kind == REWARD then contracts[|contracts| - 1].hash
    else RewardContract(contracts[..|contracts| - 1])
  }

  /** The last row of kind "reward" gives the contract. */
  lemma {:induction false} RewardContractIs(contracts: seq<Contract>, i: nat)
    ensures i < |contracts| && contracts[i].kind == "reward"
            && (forall j :: i < j < |contracts| ==> contracts[j].kind != "reward") ==>
              RewardContract(contracts) == contracts[i].hash
    ensures (forall j :: 0 <= j < |contracts| ==> contracts[j].kind != "reward") ==> RewardContract(contracts) == ""
    decreases |contracts|
  {
    if contracts != [] && contracts[|contracts| - 1].kind != "reward" {
      RewardContractIs(contracts[..|contracts| - 1], i);
    }
  }

  method ReadRegistry(contracts: seq<Contract>, start: Report) returns (out: Report)
    requires start.nodePort == "" == start.contract
    ensures out == start.(nodePort := LastPort(contracts), contract := RewardContract(contracts))
  {
    out := start;
    for i := 0 to |contracts|
      invariant out == start.(nodePort := LastPort(contracts[..i]), contract := RewardContract(contracts[..i]))
    {
      assert contracts[..i + 1][..i] == contracts[..i];
      out := out.(nodePort := contracts[i].nodePort);
      if contracts[i].kind == REWARD {
        out := out.(contract := contracts[i].hash);
      }
    }
    assert contracts[..|contracts|] == contracts;
  }

  /** What the report says of the owner's node: no contract to ask for, the error, or the head and the length. */
  ghost predicate OwnerAnswered(fetch: string -> Fetched, out: Report) {
    if out.contract == "" then
      out.nodeError == NO_CONTRACT && out.ownerCurrentHead == "" && out.ownerChainLength == 0
    else
      var head := HeadOf(fetch(out.contract));
      && out.nodeError == head.error
      && out.ownerCurrentHead == head.headTx && out.ownerChainLength == head.chainLength
  }

  /** The owner's current head of out.contract, or why there is none. */
  method FillOwnerHead(start: Report, fetch: string -> Fetched) returns (out: Report)
    requires start.nodeError == "" == start.ownerCurrentHead && start.ownerChainLength == 0
    ensures out == start.(nodeError := out.nodeError, ownerCurrentHead := out.ownerCurrentHead,
                          ownerChainLength := out.ownerChainLength)
    ensures OwnerAnswered(fetch, out)
  {
    out := start;
    if out.contract == "" {
      out := out.(nodeError := NO_CONTRACT);
      return;
    }
    var dc := new ContractInfo("", "");
    dc.FillHead(fetch(out.contract));
    if dc.error != "" {
      out := out.(nodeError := dc.error);
      return;
    }
    out := out.(ownerCurrentHead := dc.headTx, ownerChainLength := dc.chainLength);
  }

  /** The report is about the newest mismatch and the newest success of this admin. */
  ghost predicate AboutLedger(rows: Rows, admin: string, out: Report) {
    && (out.lastSuccessAt == MaxAt(rows, SuccessesOf(rows, admin)))
    && (out.mismatchSeenAt == MaxAt(rows, MismatchesOf(rows, admin)))
    && (out.mismatchRequest.Some? <==> MismatchesOf(rows, admin) != {})
    && (out.mismatchRequest.Some? ==> IsNewest(rows, MismatchesOf(rows, admin), out.mismatchRequest.value))
    && LastSuccessTx(rows, admin, out.lastSuccessTx)
  }

  /**
   On a ledger with a recorded mismatch: first_mismatch_at is reported exactly when the newest mismatch
   is later than the last success or there is none; it then is the earliest mismatch after the last
   success, and not later than the newest one.
   */
  ghost predicate DatesTheFork(rows: Rows, admin: string, out: Report)
    requires out.mismatchSeenAt.Some?
  {
    && (out.firstMismatchAt.Some? <==> out.lastSuccessAt.None? || out.lastSuccessAt.value < out.mismatchSeenAt.value)
    && (out.firstMismatchAt.Some? ==>
          && out.firstMismatchAt.value <= out.mismatchSeenAt.value
          && (out.lastSuccessAt.Some? ==> out.lastSuccessAt.value < out.firstMismatchAt.value)
          && (exists r :: r in MismatchesOf(rows, admin) && rows[r].createdAt == out.firstMismatchAt.value)
          && forall r :: r in MismatchesOf(rows, admin) ==>
               (out.lastSuccessAt.Some? ==> out.lastSuccessAt.value < rows[r].createdAt)
               ==> out.firstMismatchAt.value <= rows[r].createdAt)
  }

  lemma ForkIsDated(rows: Rows, admin: string, after: int, out: Report)
    requires forall r :: r in rows ==> rows[r].createdAt > 0
    requires out.mismatchSeenAt.Some? && out.mismatchSeenAt == MaxAt(rows, MismatchesOf(rows, admin))
    requires out.lastSuccessAt == MaxAt(rows, SuccessesOf(rows, admin))
    requires after == if out.lastSuccessAt.Some? then out.lastSuccessAt.value else 0
    requires out.firstMismatchAt == MinAt(rows, MismatchesAfter(rows, admin, after))
    ensures DatesTheFork(rows, admin, out)
  {
    var all, later := MismatchesOf(rows, admin), MismatchesAfter(rows, admin, after);
    var newest :| newest in all && rows[newest].createdAt == out.mismatchSeenAt.value;
    if out.mismatchSeenAt.value > after {
      assert newest in later;
    }
    if out.firstMismatchAt.Some? {
      var r :| r in later && rows[r].createdAt == out.firstMismatchAt.value;
      assert r in all;
      forall q | q in all && (out.lastSuccessAt.Some? ==> out.lastSuccessAt.value < rows[q].createdAt)
        ensures out.firstMismatchAt.value <= rows[q].createdAt
      {
        assert q in later;
      }
    }
  }

  lemma NewestIsMax(rows: Rows, group: set<RequestId>, r: RequestId)
    requires group <= rows.Keys && IsNewest(rows, group, r)
    ensures MaxAt(rows, group) == Some(rows[r].createdAt)
  {
  }

  method ReadLastSuccess(rows: Rows, admin: string, start: Report) returns (out: Report)
    requires start.lastSuccessAt.None? && start.lastSuccessTx == ""
    ensures out == start.(lastSuccessTx := out.lastSuccessTx, lastSuccessAt := out.lastSuccessAt)
    ensures out.lastSuccessAt == MaxAt(rows, SuccessesOf(rows, admin)) && LastSuccessTx(rows, admin, out.lastSuccessTx)
  {
    out := start;
    var last := SelectNewest(rows, SuccessesOf(rows, admin));
    if last.Some? {
      NewestIsMax(rows, SuccessesOf(rows, admin), last.value);
      out := out.(lastSuccessTx := rows[last.value].transactionId, lastSuccessAt := Some(rows[last.value].createdAt));
    }
  }

  /** What the newest mismatch row says; a parsed contract overrides the registry's. */
  method ReadMismatch(rows: Rows, r: RequestId, start: Report) returns (out: Report)
    requires r in rows && start.quorumHead == "" == start.note
    ensures out == start.(mismatchSeenAt := Some(rows[r].createdAt), mismatchRequest := Some(r),
                          quorumHead := out.quorumHead, ownerExpected := out.ownerExpected,
                          contract := out.contract, note := out.note)
    ensures var info := MismatchText.ParseMismatch(rows[r].errorDetails);
            && (info.None? ==> out == start.(mismatchSeenAt := Some(rows[r].createdAt), mismatchRequest := Some(r),
                                             note := UNPARSED))
            && (info.Some? ==>
                  && |out.quorumHead| == 64 && out.quorumHead == info.value.quorumHead
                  && out.ownerExpected == info.value.ownerExpected && out.note == start.note
                  && out.contract == (if info.value.contract != "" then info.value.contract else start.contract))
  {
    out := start.(mismatchSeenAt := Some(rows[r].createdAt), mismatchRequest := Some(r));
    var info := MismatchText.ParseMismatch(rows[r].errorDetails);
    if info.None? {
      out := out.(note := UNPARSED);
      return;
    }
    out := out.(quorumHead := info.value.quorumHead, ownerExpected := info.value.ownerExpected);
    if info.value.contract != "" {
      out := out.(contract := info.value.contract);
    }
  }

  method DateFork(rows: Rows, admin: string, start: Report) returns (out: Report)
    requires forall r :: r in rows ==> rows[r].createdAt > 0
    requires start.mismatchSeenAt.Some? && AboutLedger(rows, admin, start)
    ensures out == start.(firstMismatchAt := out.firstMismatchAt,
                          note := if out.firstMismatchAt.None? && start.note == "" then REPAIRED else start.note)
    ensures AboutLedger(rows, admin, out) && DatesTheFork(rows, admin, out)
  {
    var after := if start.lastSuccessAt.Some? then start.lastSuccessAt.value else 0;
    var first := FirstRewardMismatchAfter(rows, admin, after);
    out := start.(firstMismatchAt := first);
    if first.None? && out.note == "" {
      out := out.(note := REPAIRED);
    }
    ForkIsDated(rows, admin, after, out);
  }

  /** The verdict: a parsed quorum head that differs from the head the owner's node reports now. */
  method Compare(start: Report, fetch: string -> Fetched) returns (out: Report)
    requires !start.forked && start.nodeError == "" == start.ownerCurrentHead && start.ownerChainLength == 0
    ensures out == start.(nodeError := out.nodeError, ownerCurrentHead := out.ownerCurrentHead,
                          ownerChainLength := out.ownerChainLength, forked := out.forked)
    ensures OwnerAnswered(fetch, out) && Verdict(out)
  {
    out := FillOwnerHead(start, fetch);
    if out.quorumHead != "" && out.nodeError == "" {
      out := out.(forked := out.quorumHead != out.ownerCurrentHead);
    }
  }

  /** What is said of the newest mismatch: both heads, the contract it names, and the note. */
  ghost predicate Explains(rows: Rows, contracts: seq<Contract>, out: Report) {
    if out.mismatchRequest.None? then
      && out.quorumHead == "" == out.ownerExpected
      && out.contract == RewardContract(contracts) && out.note == NOTHING_RECORDED
    else
      && out.mismatchRequest.value in rows
      && match MismatchText.ParseMismatch(rows[out.mismatchRequest.value].errorDetails)
         case None =>
           && out.quorumHead == "" == out.ownerExpected
           && out.contract == RewardContract(contracts) && out.note == UNPARSED
         case Some(info) =>
           && |out.quorumHead| == 64 && out.quorumHead == info.quorumHead && out.ownerExpected == info.ownerExpected
           && out.contract == (if info.contract != "" then info.contract else RewardContract(contracts))
           && out.note == (if out.firstMismatchAt.None? then REPAIRED else "")
  }

  /** forked: a quorum head was parsed, the owner's head is known, and the two differ. */
  predicate Verdict(out: Report) {
    out.forked <==> out.quorumHead != "" && out.nodeError == "" && out.quorumHead != out.ownerCurrentHead
  }

  /** Everything the report says. */
  ghost predicate Faithful(rows: Rows, admin: string, contracts: seq<Contract>, fetch: string -> Fetched, out: Report) {
    && out.nodePort == LastPort(contracts)
    && AboutLedger(rows, admin, out)
    && Explains(rows, contracts, out)
    && OwnerAnswered(fetch, out)
    && Verdict(out)
    && (out.mismatchSeenAt.Some? ==> DatesTheFork(rows, admin, out))
    && (out.mismatchSeenAt.None? ==> out.firstMismatchAt.None?)
  }

  /** The newest mismatch of the report is a row of this admin, newest of its kind; none exactly if there is none. */
  lemma ReportedMismatch(rows: Rows, admin: string, contracts: seq<Contract>, fetch: string -> Fetched, out: Report)
    requires Faithful(rows, admin, contracts, fetch, out)
    ensures var mismatched := set r | r in rows && rows[r].kind == "reward" && rows[r].adminDid == admin
                                      && rows[r].status == Failed && MentionsMismatch(rows[r].errorDetails);
            if mismatched == {} then out.mismatchRequest == None && out.mismatchSeenAt == None
            else
              && out.mismatchRequest.Some? && out.mismatchRequest.value in mismatched
              && out.mismatchSeenAt == Some(rows[out.mismatchRequest.value].createdAt)
              && forall r :: r in mismatched ==> rows[r].createdAt <= out.mismatchSeenAt.value
  {
    MismatchesAre(rows, admin);
    if out.mismatchRequest.Some? {
      NewestIsMax(rows, MismatchesOf(rows, admin), out.mismatchRequest.value);
    }
  }

  /** The last success of the report, likewise, with its transaction. */
  lemma ReportedSuccess(rows: Rows, admin: string, contracts: seq<Contract>, fetch: string -> Fetched, out: Report)
    requires Faithful(rows, admin, contracts, fetch, out)
    ensures var successful := set r | r in rows && rows[r].kind == "reward" && rows[r].adminDid == admin
                                      && rows[r].status == Success;
            if successful == {} then out.lastSuccessAt == None && out.lastSuccessTx == ""
            else
              && out.lastSuccessAt.Some?
              && (exists r :: r in successful && rows[r].createdAt == out.lastSuccessAt.value
                              && rows[r].transactionId == out.lastSuccessTx)
              && forall r :: r in successful ==> rows[r].createdAt <= out.lastSuccessAt.value
  {
    SuccessesAre(rows, admin);
    if SuccessesOf(rows, admin) != {} {
      var r :| IsNewest(rows, SuccessesOf(rows, admin), r) && rows[r].transactionId == out.lastSuccessTx;
      NewestIsMax(rows, SuccessesOf(rows, admin), r);
    }
  }

  lemma SuccessesAre(rows: Rows, admin: string)
    ensures SuccessesOf(rows, admin)
            == set r | r in rows && rows[r].kind == "reward" && rows[r].adminDid == admin && rows[r].status == Success
  {
  }

  /** The first mismatch of the report is the earliest of this admin's after the last success; none if there is none. */
  lemma ReportedFirst(rows: Rows, admin: string, contracts: seq<Contract>, fetch: string -> Fetched, out: Report)
    requires Faithful(rows, admin, contracts, fetch, out)
    ensures var later := set r | r in rows && rows[r].kind == "reward" && rows[r].adminDid == admin
                                 && rows[r].status == Failed && MentionsMismatch(rows[r].errorDetails)
                                 && (out.lastSuccessAt.Some? ==> out.lastSuccessAt.value < rows[r].createdAt);
            if later == {} then out.firstMismatchAt == None
            else
              && out.firstMismatchAt.Some?
              && (exists r :: r in later && rows[r].createdAt == out.firstMismatchAt.value)
              && forall r :: r in later ==> out.firstMismatchAt.value <= rows[r].createdAt
  {
    var later := set r | r in rows && rows[r].kind == "reward" && rows[r].adminDid == admin
                         && rows[r].status == Failed && MentionsMismatch(rows[r].errorDetails)
                         && (out.lastSuccessAt.Some? ==> out.lastSuccessAt.value < rows[r].createdAt);
    assert forall r :: r in later ==> r in MismatchesOf(rows, admin);
    if out.firstMismatchAt.Some? {
      var r :| r in MismatchesOf(rows, admin) && rows[r].createdAt == out.firstMismatchAt.value;
      assert r in later;
    }
  }

  /** The texts of the note, and when each is given. */
  lemma ReportedNote(rows: Rows, admin: string, contracts: seq<Contract>, fetch: string -> Fetched, out: Report)
    requires Faithful(rows, admin, contracts, fetch, out)
    ensures out.mismatchRequest.Some? ==> out.mismatchRequest.value in rows
    ensures out.note ==
            if out.mismatchRequest.None? then "no chain-mismatch failures recorded for this admin"
            else if MismatchText.ParseMismatch(rows[out.mismatchRequest.value].errorDetails).None?
            then "newest chain-mismatch row did not contain 'local latest <hash> != expected <hash>'"
            else if out.firstMismatchAt.None?
            then "newest mismatch predates the last success: already repaired" else ""
  {
  }

  /** What the report says of the owner's node, and the verdict. */
  lemma ReportedOwner(rows: Rows, admin: string, contracts: seq<Contract>, fetch: string -> Fetched, out: Report)
    requires Faithful(rows, admin, contracts, fetch, out)
    ensures out.nodePort == if contracts == [] then "" else contracts[|contracts| - 1].nodePort
    ensures out.contract == "" ==>
              out.nodeError == "no reward contract registered for this admin"
              && out.ownerCurrentHead == "" && out.ownerChainLength == 0
    ensures out.contract != "" ==>
              match fetch(out.contract)
              case FetchError(message) =>
                out.nodeError == message && out.ownerCurrentHead == "" && out.ownerChainLength == 0
              case Chain(entries) =>
                && out.nodeError == "" && out.ownerChainLength == |entries|
                && out.ownerCurrentHead == if entries == [] then "" else entries[|entries| - 1].transactionId
    ensures out.forked <==> out.quorumHead != "" && out.nodeError == "" && out.quorumHead != out.ownerCurrentHead
  {
  }

  /** Heads and contract are read from the newest mismatch; without a contract in it the registry's is kept. */
  lemma ReportedHeads(rows: Rows, admin: string, contracts: seq<Contract>, fetch: string -> Fetched, out: Report)
    requires Faithful(rows, admin, contracts, fetch, out)
    ensures out.mismatchRequest.Some? ==> out.mismatchRequest.value in rows
    ensures var info := if out.mismatchRequest.None? then None
                        else MismatchText.ParseMismatch(rows[out.mismatchRequest.value].errorDetails);
            && out.quorumHead == (if info.Some? then info.value.quorumHead else "")
            && out.ownerExpected == (if info.Some? then info.value.ownerExpected else "")
            && out.contract == if info.Some? && info.value.contract != "" then info.value.contract
                               else RewardContract(contracts)
  {
  }

  /** The query the database refuses, if any. */
  datatype Fault = NoFault | RegistryFails | SuccessFails | MismatchFails | FirstFails

  /** Responses 400, 500 and 200. */
  datatype Answer = BadRequest | QueryFailed | Reported(report: Report)

  /** fetch is the node's answer for a contract of this admin. */
  method HandleDebugForkCheck(rows: Rows, admin: string, contracts: seq<Contract>, fetch: string -> Fetched,
                              fault: Fault)
    returns (answer: Answer)
    requires forall r :: r in rows ==> rows[r].createdAt > 0
    ensures answer.BadRequest? <==> admin == ""
    ensures answer.QueryFailed? <==>
              admin != "" && !fault.NoFault? && (fault.FirstFails? ==> MismatchesOf(rows, admin) != {})
    ensures answer.Reported? ==> Faithful(rows, admin, contracts, fetch, answer.report)
    ensures answer.Reported? ==>
              var out := answer.report;
              var mismatched := set r | r in rows && rows[r].kind == "reward" && rows[r].adminDid == admin
                                        && rows[r].status == Failed && MentionsMismatch(rows[r].errorDetails);
              if mismatched == {} then out.mismatchRequest == None && out.mismatchSeenAt == None
              else
                && out.mismatchRequest.Some? && out.mismatchRequest.value in mismatched
                && out.mismatchSeenAt == Some(rows[out.mismatchRequest.value].createdAt)
                && forall r :: r in mismatched ==> rows[r].createdAt <= out.mismatchSeenAt.value
  {
    MismatchesAre(rows, admin);
    if admin == "" {
      return BadRequest;
    }
    if fault.RegistryFails? {
      return QueryFailed;
    }
    var out := ReadRegistry(contracts, EMPTY);
    if fault.SuccessFails? {
      return QueryFailed;
    }
    out := ReadLastSuccess(rows, admin, out);
    if fault.MismatchFails? {
      return QueryFailed;
    }
    var mm := SelectNewest(rows, MismatchesOf(rows, admin));
    if mm.None? {
      out := out.(note := NOTHING_RECORDED);
      out := FillOwnerHead(out, fetch);
      return Reported(out);
    }
    NewestIsMax(rows, MismatchesOf(rows, admin), mm.value);
    out := ReadMismatch(rows, mm.value, out);
    if fault.FirstFails? {
      return QueryFailed;
    }
    out := DateFork(rows, admin, out);
    out := Compare(out, fetch);
    answer := Reported(out);
  }

  /* ------------------------ repaired, and still called forked --------------------- */

  lemma NotesDiffer()
    ensures REPAIRED != NOTHING_RECORDED && REPAIRED != UNPARSED && REPAIRED != ""
  {
    assert |REPAIRED| == 59 && |NOTHING_RECORDED| == 50 && |UNPARSED| == 82;
  }

  /** Some success of the admin is not older than mismatch r. */
  predicate Superseded(rows: Rows, admin: string, r: RequestId)
    requires r in rows
  {
    exists q :: q in SuccessesOf(rows, admin) && rows[r].createdAt <= rows[q].createdAt
  }

  /** The contract the check asks the node about, when r is the newest mismatch. */
  function AskedContract(rows: Rows, r: RequestId, contracts: seq<Contract>): string
    requires r in rows
  {
    match MismatchText.ParseMismatch(rows[r].errorDetails)
    case None => RewardContract(contracts)
    case Some(info) => if info.contract != "" then info.contract else RewardContract(contracts)
  }

  /** Mismatch r names a quorum head, and the node answers for its contract with another head. */
  predicate HeadMovedOn(rows: Rows, r: RequestId, contracts: seq<Contract>, fetch: string -> Fetched)
    requires r in rows
  {
    && MismatchText.ParseMismatch(rows[r].errorDetails).Some?
    && AskedContract(rows, r, contracts) != ""
    && HeadOf(fetch(AskedContract(rows, r, contracts))).error == ""
    && HeadOf(fetch(AskedContract(rows, r, contracts))).headTx
       != MismatchText.ParseMismatch(rows[r].errorDetails).value.quorumHead
  }

  lemma SeenIffSuperseded(rows: Rows, admin: string, out: Report)
    requires AboutLedger(rows, admin, out) && out.mismatchRequest.Some?
    ensures out.mismatchRequest.value in rows && out.mismatchSeenAt == Some(rows[out.mismatchRequest.value].createdAt)
    ensures out.lastSuccessAt.Some? && out.mismatchSeenAt.value <= out.lastSuccessAt.value
            <==> Superseded(rows, admin, out.mismatchRequest.value)
  {
    NewestIsMax(rows, MismatchesOf(rows, admin), out.mismatchRequest.value);
    if out.lastSuccessAt.Some? {
      var q :| q in SuccessesOf(rows, admin) && rows[q].createdAt == out.lastSuccessAt.value;
    }
  }

  lemma ForkedIffMovedOn(rows: Rows, admin: string, contracts: seq<Contract>, fetch: string -> Fetched, out: Report)
    requires Faithful(rows, admin, contracts, fetch, out) && out.mismatchRequest.Some?
    ensures out.mismatchRequest.value in rows
    ensures out.forked <==> HeadMovedOn(rows, out.mismatchRequest.value, contracts, fetch)
  {
    assert NO_CONTRACT != "";
  }

  /**
   A report can say "already repaired" and forked at once. On any ledger, registry and node it does exactly
   when the newest mismatch is followed by a success, names a quorum head, and the node answers for its
   contract with another head.
   */
  lemma RepairedYetForkedIff(rows: Rows, admin: string, contracts: seq<Contract>, fetch: string -> Fetched, out: Report)
    requires Faithful(rows, admin, contracts, fetch, out)
    ensures out.note == REPAIRED && out.forked <==>
            && out.mismatchRequest.Some? && out.mismatchRequest.value in rows
            && Superseded(rows, admin, out.mismatchRequest.value)
            && HeadMovedOn(rows, out.mismatchRequest.value, contracts, fetch)
  {
    NotesDiffer();
    if out.mismatchRequest.Some? {
      SeenIffSuperseded(rows, admin, out);
      ForkedIffMovedOn(rows, admin, contracts, fetch, out);
    }
  }

  /** With one newest mismatch, the condition is about the inputs alone. */
  lemma RepairedYetForkedOnInputs(rows: Rows, admin: string, contracts: seq<Contract>, fetch: string -> Fetched,
                                  out: Report, r: RequestId)
    requires Faithful(rows, admin, contracts, fetch, out)
    requires IsNewest(rows, MismatchesOf(rows, admin), r)
    requires forall q :: IsNewest(rows, MismatchesOf(rows, admin), q) ==> q == r
    ensures out.note == REPAIRED && out.forked <==> Superseded(rows, admin, r) && HeadMovedOn(rows, r, contracts, fetch)
  {
    RepairedYetForkedIff(rows, admin, contracts, fetch, out);
  }

  lemma AtInside(s: string, i: nat, literal: string, k: nat, piece: string)
    requires MismatchText.At(s, i, literal) && MismatchText.At(literal, k, piece)
    ensures MismatchText.At(s, i + k, piece)
  {
    forall m | 0 <= m < |piece| ensures s[i + k + m] == piece[m] {
      assert s[i + (k + m)] == literal[k + m];
    }
  }

  lemma NeedleInside()
    ensures MismatchText.At(MismatchText.MISMATCH, 18, NEEDLE)
  {
    assert MismatchText.MISMATCH[18..] == NEEDLE;
    forall k | 0 <= k < |NEEDLE| ensures MismatchText.MISMATCH[18 + k] == NEEDLE[k] {
      assert MismatchText.MISMATCH[18 + k] == MismatchText.MISMATCH[18..][k];
    }
  }

  lemma PartMentions(c: string)
    ensures MismatchText.At(MismatchText.ContractPart(c), 6 + |c| + 18, NEEDLE)
  {
    MismatchText.ContractPartAt(c);
    NeedleInside();
    AtInside(MismatchText.ContractPart(c), 6 + |c|, MismatchText.MISMATCH, 18, NEEDLE);
  }

  lemma AnyMention(s: string, i: nat)
    requires MismatchText.At(s, i, NEEDLE)
    ensures MentionsMismatch(s)
  {
  }

  /** The quorum's message counts as a mismatch. */
  lemma MessageMentions(pre: string, c: string, mid: string, q: string, e: string, post: string)
    ensures MentionsMismatch(MismatchText.Message(pre, c, mid, q, e, post))
  {
    var part, heads := MismatchText.ContractPart(c), MismatchText.HeadsPart(q, e);
    PartMentions(c);
    MismatchText.PartAt(pre, part, mid + heads + post, 6 + |c| + 18, NEEDLE);
    MismatchText.Regroup(pre, part, mid, heads, post);
    AnyMention(MismatchText.Message(pre, c, mid, q, e, post), |pre| + (6 + |c| + 18));
  }

  /** A mismatch that names c and q, and one later success. */
  predicate RepairedLedger(failed: Row, succeeded: Row, c: string, q: string, e: string) {
    && failed.kind == REWARD == succeeded.kind && failed.adminDid == succeeded.adminDid
    && failed.status == Failed && succeeded.status == Success && 0 < failed.createdAt < succeeded.createdAt
    && MentionsMismatch(failed.errorDetails)
    && MismatchText.ParseMismatch(failed.errorDetails) == Some(MismatchText.Info(c, q, e))
  }

  /** Such a ledger exists for every contract and all heads: the row holds the message as the quorum writes it. */
  lemma WrittenMessageQualifies(failed: Row, succeeded: Row, pre: string, c: string, mid: string, q: string, e: string,
                                post: string)
    requires failed.kind == REWARD == succeeded.kind && failed.adminDid == succeeded.adminDid
    requires failed.status == Failed && succeeded.status == Success && 0 < failed.createdAt < succeeded.createdAt
    requires MismatchText.IsContract(c) && MismatchText.IsHead(q) && MismatchText.IsHead(e)
    requires !MismatchText.Contains(pre, MismatchText.TOKEN)
    requires !MismatchText.Contains(pre + MismatchText.ContractPart(c) + mid, MismatchText.LOCAL)
    requires failed.errorDetails == MismatchText.Message(pre, c, mid, q, e, post)
    ensures RepairedLedger(failed, succeeded, c, q, e)
  {
    MessageMentions(pre, c, mid, q, e, post);
    MismatchText.MessageRoundTrip(pre, c, mid, q, e, post);
  }

  lemma TwoRowsNewest(failed: Row, succeeded: Row, c: string, q: string, e: string)
    requires RepairedLedger(failed, succeeded, c, q, e)
    ensures var rows: Rows, admin := map[0 := failed, 1 := succeeded], failed.adminDid;
            && IsNewest(rows, MismatchesOf(rows, admin), 0) && Superseded(rows, admin, 0)
            && forall r :: IsNewest(rows, MismatchesOf(rows, admin), r) ==> r == 0
  {
    var rows: Rows, admin := map[0 := failed, 1 := succeeded], failed.adminDid;
    assert MismatchesOf(rows, admin) == {0};
    assert 1 in SuccessesOf(rows, admin);
  }

  /**
   On such a ledger, if the node's chain now ends in any other transaction than the quorum's old head, as it
   does once the success is on it, every report says "already repaired" and forked.
   */
  lemma SuccessAfterRepairReadsForked(failed: Row, succeeded: Row, c: string, q: string, e: string,
                                      fetch: string -> Fetched, out: Report)
    requires RepairedLedger(failed, succeeded, c, q, e) && c != ""
    requires fetch(c).Chain? && fetch(c).entries != [] && fetch(c).entries[|fetch(c).entries| - 1].transactionId != q
    requires Faithful(map[0 := failed, 1 := succeeded], failed.adminDid, [], fetch, out)
    ensures out.note == REPAIRED && out.forked
  {
    TwoRowsNewest(failed, succeeded, c, q, e);
    RepairedYetForkedOnInputs(map[0 := failed, 1 := succeeded], failed.adminDid, [], fetch, out, 0);
  }
}
