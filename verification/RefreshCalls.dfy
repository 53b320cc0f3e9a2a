/**
 Whole calls against the token table. The table is a field that the database statements update in
 place; the calls run them in the source's order, and each is one block of the statement machine.
 */
module RefreshCalls {
  import opened Basics
  import opened RefreshTokens
  import opened RefreshTheorems

  /** A raw token is named by its hash; None is the empty string. */
  type Raw = Option<nat>

  datatype Request =
    | Wait(to: int)
    | Login(user: nat, hash: nat, expiresAt: int)
    | Refresh(raw: Raw, next: nat, expiresAt: int)     // next: hash of the replacement it draws
    | Logout(raw: Raw)
    | LogoutAll(user: nat)

  datatype Verdict = Rotated(user: nat) | Invalid | Expired(user: nat) | Reused(user: nat) | StoreError

  /** The statement of a call that is reported as failed, if any; took says that its write took effect all the same. */
  datatype Fault =
    | NoFault
    | LookUpFails
    | InsertFails(took: bool)
    | RereadFails
    | RevokeFails(took: bool)
    | FamilyFails(took: bool)
    | UserLookUpFails

  function RotateVerdict(rows: seq<Row>, now: int, raw: Raw, next: nat): Verdict {
    if raw.None? || Find(rows, raw.value).None? then Invalid else
    var row := rows[Find(rows, raw.value).value];
    if row.revokedAt.Some? then Verdict.Reused(row.user)
    else if now > row.expiresAt then Expired(row.user)
    else if Find(rows, next).Some? then StoreError
    else Rotated(row.user)
  }

  lemma FindUnique(rows: seq<Row>, i: nat)
    requires HashesOk(rows) && i < |rows|
    ensures Find(rows, rows[i].hash) == Some(i)
  {
  }

  /**
   The verdict on a token that is in the table, in terms of its row: a live token is rotated up to and at
   its expiry, if the drawn hash is new.
   */
  lemma VerdictOfToken(rows: seq<Row>, now: int, i: nat, next: nat)
    requires i < |rows| && forall j, k :: 0 <= j < k < |rows| ==> rows[j].hash != rows[k].hash
    ensures var row, verdict := rows[i], RotateVerdict(rows, now, Some(rows[i].hash), next);
            var unused := forall j :: 0 <= j < |rows| ==> rows[j].hash != next;
            && (verdict == Verdict.Reused(row.user) <==> row.revokedAt.Some?)
            && (verdict == Expired(row.user) <==> row.revokedAt.None? && now > row.expiresAt)
            && (verdict == Rotated(row.user) <==> row.revokedAt.None? && now <= row.expiresAt && unused)
            && (verdict == StoreError <==> row.revokedAt.None? && now <= row.expiresAt && !unused)
  {
    FindUnique(rows, i);
    if Find(rows, next).Some? {
      assert rows[Find(rows, next).value].hash == next;
    }
  }

  /** Anything else is invalid: the empty token, and one that no row names. */
  lemma VerdictOfUnknown(rows: seq<Row>, now: int, raw: Raw, next: nat)
    ensures RotateVerdict(rows, now, raw, next) == Invalid
            <==> raw.None? || forall i :: 0 <= i < |rows| ==> rows[i].hash != raw.value
  {
    if raw.Some? && Find(rows, raw.value).Some? {
      assert rows[Find(rows, raw.value).value].hash == raw.value;
    }
  }

  /** The raw token is that of row i and, hashes being unique, of no other row. */
  predicate Names(rows: seq<Row>, raw: Raw, i: nat) {
    && i < |rows| && raw == Some(rows[i].hash)
    && forall j, k :: 0 <= j < k < |rows| ==> rows[j].hash != rows[k].hash
  }

  predicate NoneNamed(rows: seq<Row>, raw: Raw) {
    raw.None? || forall i :: 0 <= i < |rows| ==> rows[i].hash != raw.value
  }

  lemma NamesIs(rows: seq<Row>, raw: Raw, i: nat)
    requires forall j, k :: 0 <= j < k < |rows| ==> rows[j].hash != rows[k].hash
    ensures Names(rows, raw, i) <==> i < |rows| && raw == Some(rows[i].hash)
    ensures NoneNamed(rows, raw) <==> forall k: nat :: !Names(rows, raw, k)
  {
    if raw.Some? && !NoneNamed(rows, raw) {
      var k :| 0 <= k < |rows| && rows[k].hash == raw.value;
      assert Names(rows, raw, k);
    }
  }

  lemma VerdictIs(rows: seq<Row>, now: int, raw: Raw, next: nat)
    ensures RotateVerdict(rows, now, raw, next) == Invalid <==> NoneNamed(rows, raw)
    ensures forall i: nat :: Names(rows, raw, i) ==>
              var row, verdict := rows[i], RotateVerdict(rows, now, raw, next);
              var unused := forall j :: 0 <= j < |rows| ==> rows[j].hash != next;
              && (verdict == Rotated(row.user) <==> row.revokedAt.None? && now <= row.expiresAt && unused)
              && (verdict == StoreError <==> row.revokedAt.None? && now <= row.expiresAt && !unused)
              && (verdict == Expired(row.user) <==> row.revokedAt.None? && now > row.expiresAt)
              && (verdict == Verdict.Reused(row.user) <==> row.revokedAt.Some?)
  {
    VerdictOfUnknown(rows, now, raw, next);
    forall i: nat | Names(rows, raw, i)
      ensures var row, verdict := rows[i], RotateVerdict(rows, now, raw, next);
              var unused := forall j :: 0 <= j < |rows| ==> rows[j].hash != next;
              && (verdict == Rotated(row.user) <==> row.revokedAt.None? && now <= row.expiresAt && unused)
              && (verdict == StoreError <==> row.revokedAt.None? && now <= row.expiresAt && !unused)
              && (verdict == Expired(row.user) <==> row.revokedAt.None? && now > row.expiresAt)
              && (verdict == Verdict.Reused(row.user) <==> row.revokedAt.Some?)
    {
      VerdictOfToken(rows, now, i, next);
    }
  }

  /** The table after a call that nothing interrupts. */
  function RowsAfter(rows: seq<Row>, now: int, call: Request): seq<Row> {
    match call
    case Wait(_) => rows
    case Login(user, hash, expiresAt) =>
      if Find(rows, hash).None? then rows + [Row(user, hash, expiresAt, None, None)] else rows
    case Refresh(raw, next, expiresAt) =>
      (match RotateVerdict(rows, now, raw, next)
       case Rotated(user) =>
         Revoke(rows + [Row(user, next, expiresAt, None, None)], Find(rows, raw.value).value, Some(|rows|), now)
       case Reused(user) => RevokeUser(rows, user, now)
       case _ => rows)
    case Logout(raw) =>
      if raw.Some? && Find(rows, raw.value).Some? then Revoke(rows, Find(rows, raw.value).value, None, now) else rows
    case LogoutAll(user) => RevokeUser(rows, user, now)
  }

  /* --------------------------- the imperative table ------------------------------ */

  /**
   What a refresh makes of the table, row by row: a rotation revokes and links the presented row and adds the
   replacement, a reuse revokes the owner's live rows, and everything else leaves the table alone.
   */
  lemma RefreshRows(rows: seq<Row>, now: int, i: nat, next: nat, expiresAt: int)
    requires i < |rows| && forall j, k :: 0 <= j < k < |rows| ==> rows[j].hash != rows[k].hash
    ensures var row, after := rows[i], RowsAfter(rows, now, Refresh(Some(rows[i].hash), next, expiresAt));
            if row.revokedAt.Some? then
              && |after| == |rows|
              && forall k :: 0 <= k < |rows| ==>
                   after[k] == if rows[k].user == row.user && rows[k].revokedAt.None?
                               then rows[k].(revokedAt := Some(now)) else rows[k]
            else if now <= row.expiresAt && forall j :: 0 <= j < |rows| ==> rows[j].hash != next then
              after == rows[i := row.(revokedAt := Some(now), replacedBy := Some(|rows|))]
                       + [Row(row.user, next, expiresAt, None, None)]
            else after == rows
  {
    FindUnique(rows, i);
    VerdictOfToken(rows, now, i, next);
  }

  /** A login adds one live token, unless its hash is taken; a logout revokes a live token without a link. */
  lemma LoginAndLogoutRows(rows: seq<Row>, now: int, user: nat, hash: nat, expiresAt: int)
    requires forall j, k :: 0 <= j < k < |rows| ==> rows[j].hash != rows[k].hash
    ensures RowsAfter(rows, now, Request.Login(user, hash, expiresAt))
            == if forall j :: 0 <= j < |rows| ==> rows[j].hash != hash
               then rows + [Row(user, hash, expiresAt, None, None)] else rows
    ensures forall i :: 0 <= i < |rows| && rows[i].hash == hash ==>
              RowsAfter(rows, now, Logout(Some(hash)))
              == if rows[i].revokedAt.None? then rows[i := rows[i].(revokedAt := Some(now), replacedBy := None)]
                else rows
    ensures (forall i :: 0 <= i < |rows| ==> rows[i].hash != hash) ==> RowsAfter(rows, now, Logout(Some(hash))) == rows
  {
    if Find(rows, hash).Some? {
      FindUnique(rows, Find(rows, hash).value);
    }
  }

  class TokenStore {
    var rows: seq<Row>

    constructor ()
      ensures rows == []
    {
      rows := [];
    }

    method InsertRefreshToken(user: nat, hash: nat, expiresAt: int) returns (id: Option<nat>)
      modifies this
      ensures id == if Find(old(rows), hash).None? then Some(|old(rows)|) else None
      ensures rows == if id.Some? then old(rows) + [Row(user, hash, expiresAt, None, None)] else old(rows)
    {
      if Find(rows, hash).Some? {
        return None;
      }
      id := Some(|rows|);
      rows := rows + [Row(user, hash, expiresAt, None, None)];
    }

    method GetRefreshTokenByHash(hash: nat) returns (id: Option<nat>)
      ensures id == Find(rows, hash)
      ensures id.None? <==> forall k :: 0 <= k < |rows| ==> rows[k].hash != hash
    {
      id := Find(rows, hash);
    }

    method RevokeRefreshToken(id: nat, replacedBy: Option<nat>, now: int)
      requires id < |rows|
      modifies this
      ensures rows == Revoke(old(rows), id, replacedBy, now)
      ensures rows == if old(rows)[id].revokedAt.Some? then old(rows)
                      else old(rows)[id := old(rows)[id].(revokedAt := Some(now), replacedBy := replacedBy)]
    {
      if rows[id].revokedAt.None? {
        rows := rows[id := rows[id].(revokedAt := Some(now), replacedBy := replacedBy)];
      }
    }

    method RevokeAllRefreshTokensForUser(user: nat, now: int)
      modifies this
      ensures rows == RevokeUser(old(rows), user, now) && |rows| == |old(rows)| && NoneLive(rows, user)
      ensures forall i: nat :: i < |rows| ==>
                rows[i] == if old(rows)[i].user == user && Live(old(rows), i)
                           then old(rows)[i].(revokedAt := Some(now)) else old(rows)[i]
    {
      rows := RevokeUser(rows, user, now);
    }

    method IssueRefresh(user: nat, hash: nat, expiresAt: int, fault: Fault) returns (ok: bool)
      modifies this
      ensures ok == (!fault.InsertFails? && Find(old(rows), hash).None?)
      ensures rows == if fault == InsertFails(false) then old(rows)
                      else RowsAfter(old(rows), 0, Request.Login(user, hash, expiresAt))
    {
      if fault == InsertFails(false) {
        return false;
      }
      var id := InsertRefreshToken(user, hash, expiresAt);
      ok := id.Some? && !fault.InsertFails?;
    }

    /** A failure from the insert on may leave the presented token and the replacement in the table, unlinked. */
    method RotateRefresh(raw: Raw, next: nat, expiresAt: int, now: int, fault: Fault) returns (verdict: Verdict)
      modifies this
      ensures verdict == FaultyVerdict(old(rows), now, raw, next, fault)
      ensures verdict.Rotated? ==> rows == RowsAfter(old(rows), now, Refresh(raw, next, expiresAt))
      ensures rows == RowsLeft(old(rows), now, raw, next, expiresAt, fault)
      ensures fault.NoFault? ==> (verdict == Invalid <==> NoneNamed(old(rows), raw))
      ensures fault.NoFault? ==> forall i: nat :: Names(old(rows), raw, i) ==>
                var row, unused := old(rows)[i], forall j :: 0 <= j < |old(rows)| ==> old(rows)[j].hash != next;
                && (verdict == Rotated(row.user) <==> row.revokedAt.None? && now <= row.expiresAt && unused)
                && (verdict == StoreError <==> row.revokedAt.None? && now <= row.expiresAt && !unused)
                && (verdict == Expired(row.user) <==> row.revokedAt.None? && now > row.expiresAt)
                && (verdict == Verdict.Reused(row.user) <==> row.revokedAt.Some?)
    {
      VerdictIs(rows, now, raw, next);
      if raw.None? {
        return Invalid;
      }
      if fault.LookUpFails? {
        return StoreError;
      }
      var found := GetRefreshTokenByHash(raw.value);
      if found.None? {
        return Invalid;
      }
      var row := rows[found.value];
      if row.revokedAt.Some? {
        return Verdict.Reused(row.user);
      }
      if now > row.expiresAt {
        return Expired(row.user);
      }
      var ok := IssueRefresh(row.user, next, expiresAt, fault);
      if !ok || fault.RereadFails? {
        return StoreError;
      }
      assert rows[..|rows| - 1] == old(rows);
      var heir := GetRefreshTokenByHash(next);
      if fault == RevokeFails(false) {
        return StoreError;
      }
      RevokeRefreshToken(found.value, heir, now);
      return if fault.RevokeFails? then StoreError else Rotated(row.user);
    }

    method RevokeRefresh(raw: Raw, now: int, fault: Fault) returns (ok: bool)
      modifies this
      ensures ok == !LogoutFails(old(rows), raw, fault)
      ensures rows == if ok || fault == RevokeFails(true) then RowsAfter(old(rows), now, Logout(raw)) else old(rows)
    {
      if raw.None? {
        return true;
      }
      if fault.LookUpFails? {
        return false;
      }
      var found := GetRefreshTokenByHash(raw.value);
      if found.None? || rows[found.value].revokedAt.Some? {
        return true;
      }
      if fault == RevokeFails(false) {
        return false;
      }
      RevokeRefreshToken(found.value, None, now);
      return !fault.RevokeFails?;
    }

    /** An error of the family revocation is ignored; a failed user look-up comes after the rotation. */
    method HandleRefresh(raw: Raw, next: nat, expiresAt: int, now: int, fault: Fault) returns (status: nat)
      modifies this
      ensures status == if raw.None? then 400 else
                        match FaultyVerdict(old(rows), now, raw, next, fault)
                        case Rotated(_) => if fault.UserLookUpFails? then 500 else 200
                        case StoreError => 500
                        case _ => 401
      ensures status == 200 ==> rows == RowsAfter(old(rows), now, Refresh(raw, next, expiresAt))
      ensures status != 200 ==>
                rows == if FaultyVerdict(old(rows), now, raw, next, fault).Reused? && fault != FamilyFails(false)
                        then RowsAfter(old(rows), now, Refresh(raw, next, expiresAt))
                        else RowsLeft(old(rows), now, raw, next, expiresAt, fault)
      ensures status == 400 || (status == 401 && !FaultyVerdict(old(rows), now, raw, next, fault).Reused?) ==>
                rows == old(rows)
      ensures fault.NoFault? ==> rows == RowsAfter(old(rows), now, Refresh(raw, next, expiresAt))
      ensures status == 400 <==> raw.None?
      ensures fault.NoFault? && raw.Some? && NoneNamed(old(rows), raw) ==> status == 401 && rows == old(rows)
      ensures fault.NoFault? ==> forall i: nat :: Names(old(rows), raw, i) ==>
                var row, unused := old(rows)[i], forall j :: 0 <= j < |old(rows)| ==> old(rows)[j].hash != next;
                && (status == 200 <==> row.revokedAt.None? && now <= row.expiresAt && unused)
                && (status == 401 <==> row.revokedAt.Some? || now > row.expiresAt)
    {
      VerdictIs(rows, now, raw, next);
      if raw.None? {
        return 400;
      }
      var verdict := RotateRefresh(raw, next, expiresAt, now, fault);
      if verdict.Reused? && fault != FamilyFails(false) {
        RevokeAllRefreshTokensForUser(verdict.user, now);
      }
      if verdict.Rotated? {
        return if fault.UserLookUpFails? then 500 else 200;
      }
      status := if verdict.StoreError? then 500 else 401;
    }

    method HandleLogin(credentials: Credentials, hash: nat, expiresAt: int, fault: Fault) returns (status: nat)
      modifies this
      ensures status == match credentials
                        case BlankInput => 400
                        case LookUpError => 500
                        case Wrong => 401
                        case Known(_) => if !fault.InsertFails? && Find(old(rows), hash).None? then 200 else 500
      ensures rows == if credentials.Known? && fault != InsertFails(false)
                      then RowsAfter(old(rows), 0, Request.Login(credentials.user, hash, expiresAt)) else old(rows)
      ensures status == 200 ==> Live(rows, |old(rows)|) && rows[|old(rows)|].user == credentials.user
    {
      match credentials {
        case BlankInput => return 400;
        case LookUpError => return 500;
        case Wrong => return 401;
        case Known(user) =>
          var ok := IssueRefresh(user, hash, expiresAt, fault);
          status := if ok then 200 else 500;
      }
    }

    /** caller is the user the access token names, if there is one. */
    method HandleLogout(all: bool, caller: Option<nat>, raw: Raw, now: int, fault: Fault) returns (status: nat)
      modifies this
      ensures status == if all then (if caller.None? then 401 else if fault.FamilyFails? then 500 else 200)
                        else if raw.None? then 400
                        else if LogoutFails(old(rows), raw, fault) then 500 else 200
      ensures rows == if status in {400, 401}
                         || (status == 500 && fault != (if all then FamilyFails(true) else RevokeFails(true)))
                      then old(rows)
                      else if all then RowsAfter(old(rows), now, Request.LogoutAll(caller.value))
                      else RowsAfter(old(rows), now, Request.Logout(raw))
      ensures status == 200 && all ==> NoneLive(rows, caller.value)
    {
      if all {
        if caller.None? {
          return 401;
        }
        if fault == FamilyFails(false) {
          return 500;
        }
        RevokeAllRefreshTokensForUser(caller.value, now);
        return if fault.FamilyFails? then 500 else 200;
      }
      if raw.None? {
        return 400;
      }
      var ok := RevokeRefresh(raw, now, fault);
      status := if ok then 200 else 500;
    }
  }

  /** What email and password amount to. */
  datatype Credentials = BlankInput | LookUpError | Wrong | Known(user: nat)

  /** The verdict of a rotation one of whose statements may fail. */
  function FaultyVerdict(rows: seq<Row>, now: int, raw: Raw, next: nat, fault: Fault): Verdict {
    if raw.None? then Invalid
    else if fault.LookUpFails? then StoreError
    else
      var verdict := RotateVerdict(rows, now, raw, next);
      if verdict.Rotated? && (fault.InsertFails? || fault.RereadFails? || fault.RevokeFails?) then StoreError
      else verdict
  }

  /** The table a rotation leaves, one of whose statements may fail. */
  function RowsLeft(rows: seq<Row>, now: int, raw: Raw, next: nat, expiresAt: int, fault: Fault): seq<Row> {
    var verdict := RotateVerdict(rows, now, raw, next);
    if !verdict.Rotated? || fault.LookUpFails? || fault == InsertFails(false) then rows
    else if fault.InsertFails? || fault.RereadFails? || fault == RevokeFails(false)
    then rows + [Row(verdict.user, next, expiresAt, None, None)]
    else RowsAfter(rows, now, Refresh(raw, next, expiresAt))
  }

  /** A rotation that would succeed, under each fault: what it answers and what it leaves. */
  lemma FaultsOfRotation(rows: seq<Row>, now: int, i: nat, next: nat, expiresAt: int, fault: Fault)
    requires i < |rows| && forall j, k :: 0 <= j < k < |rows| ==> rows[j].hash != rows[k].hash
    requires rows[i].revokedAt.None? && now <= rows[i].expiresAt && forall j :: 0 <= j < |rows| ==> rows[j].hash != next
    ensures var verdict := FaultyVerdict(rows, now, Some(rows[i].hash), next, fault);
            var left := RowsLeft(rows, now, Some(rows[i].hash), next, expiresAt, fault);
            var heir := Row(rows[i].user, next, expiresAt, None, None);
            var linked := rows[i := rows[i].(revokedAt := Some(now), replacedBy := Some(|rows|))] + [heir];
            match fault
            case LookUpFails => verdict == StoreError && left == rows
            case InsertFails(took) => verdict == StoreError && left == (if took then rows + [heir] else rows)
            case RereadFails => verdict == StoreError && left == rows + [heir]
            case RevokeFails(took) => verdict == StoreError && left == (if took then linked else rows + [heir])
            case _ => verdict == Rotated(rows[i].user) && left == linked
  {
    VerdictOfToken(rows, now, i, next);
    RefreshRows(rows, now, i, next, expiresAt);
  }

  /** A rotation that would not succeed answers the same under every fault but a failing look-up, and leaves all. */
  lemma FaultsOfOthers(rows: seq<Row>, now: int, raw: Raw, next: nat, expiresAt: int, fault: Fault)
    requires !RotateVerdict(rows, now, raw, next).Rotated?
    ensures FaultyVerdict(rows, now, raw, next, fault)
            == if raw.Some? && fault.LookUpFails? then StoreError else RotateVerdict(rows, now, raw, next)
    ensures RowsLeft(rows, now, raw, next, expiresAt, fault) == rows
  {
  }

  /** A logout fails with its look-up, or with the revocation that a live token needs. */
  lemma LogoutFailsIs(rows: seq<Row>, hash: nat, fault: Fault)
    requires forall j, k :: 0 <= j < k < |rows| ==> rows[j].hash != rows[k].hash
    ensures !LogoutFails(rows, None, fault)
    ensures LogoutFails(rows, Some(hash), fault)
            <==> fault.LookUpFails?
                 || (fault.RevokeFails?
                     && exists i :: 0 <= i < |rows| && rows[i].hash == hash && rows[i].revokedAt.None?)
  {
    if i :| 0 <= i < |rows| && rows[i].hash == hash {
      FindUnique(rows, i);
    }
  }

  predicate LogoutFails(rows: seq<Row>, raw: Raw, fault: Fault) {
    raw.Some? && (fault.LookUpFails?
                  || (fault.RevokeFails? && Find(rows, raw.value).Some? && Live(rows, Find(rows, raw.value).value)))
  }

  /* ---------------------- calls as blocks of statements -------------------------- */

  /** The statements a call executes when it runs alone. */
  function Block(s: Tokens, call: Request): seq<Event> {
    match call
    case Wait(to) => if s.now <= to then [Tick(to)] else []
    case Login(user, hash, expiresAt) =>
      if Find(s.rows, hash).None? then [RefreshTokens.Login(user, hash, expiresAt)] else []
    case Refresh(raw, next, expiresAt) =>
      (match RotateVerdict(s.rows, s.now, raw, next)
       case Rotated(_) => [Present(0, raw.value), Issue(0, next, expiresAt), Reread(0), Link(0)]
       case Reused(_) => [Present(0, raw.value), RevokeFamily(0)]
       case StoreError => [Present(0, raw.value), Abandon(0)]
       case _ => [])
    case Logout(raw) =>
      if raw.Some? && Find(s.rows, raw.value).Some? && Live(s.rows, Find(s.rows, raw.value).value)
      then [LookUpLogout(0, raw.value), RevokeOne(0)] else []
    case LogoutAll(user) => [RefreshTokens.LogoutAll(user)]
  }

  ghost predicate Between(s: Tokens) {
    Inv(s) && s.calls == map[] && s.orphans == {}
  }

  lemma RunOne(s: Tokens, e: Event)
    requires |s.origin| == |s.rows| && Enabled(s, e)
    ensures Legal(s, [e]) && Exec(s, [e]) == Apply(s, e)
  {
    var t := Apply(s, e);
    assert [e][1..] == [];
    assert Legal(t, []) && Exec(t, []) == t;
  }

  lemma RunTwo(s: Tokens, e: Event, f: Event)
    requires |s.origin| == |s.rows| && Enabled(s, e) && Enabled(Apply(s, e), f)
    ensures Legal(s, [e, f]) && Exec(s, [e, f]) == Apply(Apply(s, e), f)
  {
    RunOne(Apply(s, e), f);
    assert [e, f][1..] == [f];
  }

  lemma {:induction false} RunMore(s: Tokens, es: seq<Event>, fs: seq<Event>)
    requires |s.origin| == |s.rows| && Legal(s, es) && Legal(Exec(s, es), fs)
    ensures Legal(s, es + fs) && Exec(s, es + fs) == Exec(Exec(s, es), fs)
    decreases |es|
  {
    if es == [] {
      assert es + fs == fs;
    } else {
      RunMore(Apply(s, es[0]), es[1..], fs);
      assert (es + fs)[0] == es[0] && (es + fs)[1..] == es[1..] + fs;
    }
  }

  lemma RotateBlock(s: Tokens, raw: nat, next: nat, expiresAt: int)
    requires Between(s) && RotateVerdict(s.rows, s.now, Some(raw), next).Rotated?
    ensures var es := [Present(0, raw), Issue(0, next, expiresAt), Reread(0), Link(0)];
            var id := Find(s.rows, raw).value;
            && Legal(s, es)
            && Exec(s, es).(origin := s.origin) ==
                 s.(rows := Revoke(s.rows + [Row(s.rows[id].user, next, expiresAt, None, None)],
                                   id, Some(|s.rows|), s.now))
  {
    var s1 := Apply(s, Present(0, raw));
    var s2 := Apply(s1, Issue(0, next, expiresAt));
    var s3 := Apply(s2, Reread(0));
    var id := Find(s.rows, raw).value;
    assert s1.calls == map[0 := Checked(id)];
    assert s2.calls == map[0 := Issued(id, |s.rows|)];
    assert s3.calls == map[0 := ReadBack(id, |s.rows|)];
    assert Live(s3.rows, id);
    RunTwo(s, Present(0, raw), Issue(0, next, expiresAt));
    RunTwo(s2, Reread(0), Link(0));
    RunMore(s, [Present(0, raw), Issue(0, next, expiresAt)], [Reread(0), Link(0)]);
    assert [Present(0, raw), Issue(0, next, expiresAt)] + [Reread(0), Link(0)]
        == [Present(0, raw), Issue(0, next, expiresAt), Reread(0), Link(0)];
    assert map[0 := ReadBack(id, |s.rows|)] - {0} == map[];
  }

  lemma OtherBlocks(s: Tokens, call: Request)
    requires Between(s)
    requires call.Refresh? ==> !RotateVerdict(s.rows, s.now, call.raw, call.next).Rotated?
    ensures Legal(s, Block(s, call))
    ensures var t := Exec(s, Block(s, call));
            && t.rows == RowsAfter(s.rows, s.now, call) && t.calls == map[] && t.orphans == {}
            && t.now == if call.Wait? && s.now <= call.to then call.to else s.now
  {
    var es := Block(s, call);
    if |es| == 1 {
      var t := Apply(s, es[0]);
      assert es[1..] == [] && Legal(t, []) && Exec(t, []) == t;
      assert Legal(s, es) && Exec(s, es) == t;
    } else if |es| == 2 {
      var s1 := Apply(s, es[0]);
      assert s1.calls.Keys == {0};
      assert s1.calls - {0} == map[];
      RunTwo(s, es[0], es[1]);
      assert es == [es[0], es[1]];
    } else {
      assert es == [];
    }
  }

  /** A call that runs alone has the effect of the sequential specification and leaves nothing pending. */
  lemma BlockEffect(s: Tokens, call: Request)
    requires Between(s)
    ensures Legal(s, Block(s, call)) && Between(Exec(s, Block(s, call)))
    ensures Exec(s, Block(s, call)).rows == RowsAfter(s.rows, s.now, call)
    ensures Exec(s, Block(s, call)).now == if call.Wait? && s.now <= call.to then call.to else s.now
  {
    if call.Refresh? && RotateVerdict(s.rows, s.now, call.raw, call.next).Rotated? {
      RotateBlock(s, call.raw.value, call.next, call.expiresAt);
    } else {
      OtherBlocks(s, call);
    }
    InvExec(s, Block(s, call));
  }

  /** Calls one after another. */
  ghost function Play(s: Tokens, calls: seq<Request>): (t: Tokens)
    requires Between(s)
    ensures Between(t)
    decreases |calls|
  {
    if calls == [] then s else
    BlockEffect(s, calls[0]);
    Play(Exec(s, Block(s, calls[0])), calls[1..])
  }

  /** Judge looks at the row alone: a live token passes up to and at its expiry. */
  lemma JudgeIs(s: Tokens, i: nat)
    requires i < |s.rows| && forall j, k :: 0 <= j < k < |s.rows| ==> s.rows[j].hash != s.rows[k].hash
    ensures Judge(s, s.rows[i].hash)
            == if s.rows[i].revokedAt.Some? then Some(RefreshTokens.Reused(s.rows[i].user))
               else if s.now <= s.rows[i].expiresAt then Some(Checked(i)) else None
  {
    FindUnique(s.rows, i);
  }

  /** A refresh run alone goes through to its link exactly if the token passes and the drawn hash is new. */
  lemma BlockLinksIff(s: Tokens, raw: Raw, next: nat, expiresAt: int)
    ensures Link(0) in Block(s, Refresh(raw, next, expiresAt))
            <==> && raw.Some? && Judge(s, raw.value).Some? && Judge(s, raw.value).value.Checked?
                 && forall j :: 0 <= j < |s.rows| ==> s.rows[j].hash != next
  {
    if Find(s.rows, next).Some? {
      assert s.rows[Find(s.rows, next).value].hash == next;
    }
  }

  /** Between calls: the table is in order, no call is under way and none has left an orphan. */
  lemma BetweenIs(s: Tokens)
    ensures Between(s) <==> Inv(s) && s.calls == map[] && s.orphans == {}
  {
  }

  /** Calls in sequence: each starts from what the one before has left. */
  lemma PlayIs(s: Tokens, call: Request, calls: seq<Request>)
    requires Between(s) && Legal(s, Block(s, call)) && Between(Exec(s, Block(s, call)))
    ensures Play(s, []) == s
    ensures Play(s, [call] + calls) == Play(Exec(s, Block(s, call)), calls)
  {
    assert ([call] + calls)[1..] == calls;
  }

  /**
   Calls that do not overlap: in every lineage at most one token is live, every token is reached from
   the login, and every token leads to the live one.
   */
  lemma OneLiveTokenPerLogin(calls: seq<Request>, i: nat, j: nat)
    requires var s := Play(EMPTY, calls); i < |s.rows| && j < |s.rows| && s.origin[i] == s.origin[j]
    ensures var s := Play(EMPTY, calls);
            && LeadsTo(s.rows, s.origin[i], i)
            && (Live(s.rows, j) ==> LeadsTo(s.rows, i, j))
            && (Live(s.rows, i) && Live(s.rows, j) ==> i == j)
  {
    var s := Play(EMPTY, calls);
    assert Unforked(s, s.origin[i]);
    LineageIsOneChain(s, s.origin[i], i, j);
  }

  ghost predicate NoSignIn(calls: seq<Request>, user: nat) {
    forall c :: c in calls ==> !(c.Login? && c.user == user)
  }

  lemma {:induction false} BarredThroughCalls(s: Tokens, calls: seq<Request>, user: nat)
    requires Between(s) && Barred(s, user) && NoSignIn(calls, user)
    ensures Barred(Play(s, calls), user)
    decreases |calls|
  {
    if calls != [] {
      BlockEffect(s, calls[0]);
      BarredForGood(s, Block(s, calls[0]), user);
      BarredThroughCalls(Exec(s, Block(s, calls[0])), calls[1..], user);
    }
  }

  /** Presenting a revoked token leaves its owner without a live token until their next login. */
  lemma ReuseLocksTheUserOut(s: Tokens, hash: nat, next: nat, expiresAt: int, later: seq<Request>)
    requires Between(s) && Find(s.rows, hash).Some? && !Live(s.rows, Find(s.rows, hash).value)
    requires forall c :: c in later ==> !(c.Login? && c.user == s.rows[Find(s.rows, hash).value].user)
    ensures NoneLive(Play(s, [Refresh(Some(hash), next, expiresAt)] + later).rows,
                     s.rows[Find(s.rows, hash).value].user)
  {
    var user, reuse := s.rows[Find(s.rows, hash).value].user, Refresh(Some(hash), next, expiresAt);
    var calls := [reuse] + later;
    BlockEffect(s, reuse);
    assert calls[0] == reuse && calls[1..] == later;
    BarredThroughCalls(Exec(s, Block(s, reuse)), later, user);
  }

  /* ----------------------------- what overlap breaks ----------------------------- */

  lemma RunFour(s: Tokens, es: seq<Event>, s1: Tokens, fs: seq<Event>, s2: Tokens, gs: seq<Event>, s3: Tokens,
                hs: seq<Event>)
    requires |s.origin| == |s.rows|
    requires Legal(s, es) && Exec(s, es) == s1 && Legal(s1, fs) && Exec(s1, fs) == s2
    requires Legal(s2, gs) && Exec(s2, gs) == s3 && Legal(s3, hs)
    ensures Legal(s, es + fs + gs + hs) && Exec(s, es + fs + gs + hs) == Exec(s3, hs)
  {
    RunMore(s, es, fs);
    RunMore(s, es + fs, gs);
    RunMore(s, es + fs + gs, hs);
  }

  lemma BothChecked(s: Tokens, i: nat)
    requires Between(s) && Live(s.rows, i) && s.now <= s.rows[i].expiresAt
    ensures var es := [Present(1, s.rows[i].hash), Present(2, s.rows[i].hash)];
            Legal(s, es) && Exec(s, es) == s.(calls := map[1 := Checked(i), 2 := Checked(i)])
  {
    FindUnique(s.rows, i);
    RunTwo(s, Present(1, s.rows[i].hash), Present(2, s.rows[i].hash));
  }

  lemma BothReread(s: Tokens, i: nat, n: nat)
    requires |s.origin| == |s.rows| && s.calls == map[1 := Issued(i, n), 2 := Issued(i, n + 1)]
    ensures Legal(s, [Reread(1), Reread(2)])
    ensures Exec(s, [Reread(1), Reread(2)]) == s.(calls := map[1 := ReadBack(i, n), 2 := ReadBack(i, n + 1)])
  {
    RunTwo(s, Reread(1), Reread(2));
  }

  lemma BothIssued(s: Tokens, i: nat, h: nat, k: nat, expiresAt: int)
    requires |s.origin| == |s.rows| && i < |s.rows| && s.calls == map[1 := Checked(i), 2 := Checked(i)]
    requires Find(s.rows, h).None? && Find(s.rows, k).None? && h != k
    ensures var es := [Issue(1, h, expiresAt), Issue(2, k, expiresAt)];
            && Legal(s, es)
            && Exec(s, es) == s.(
                 rows := s.rows + [Row(s.rows[i].user, h, expiresAt, None, None),
                                   Row(s.rows[i].user, k, expiresAt, None, None)],
                 origin := s.origin + [s.origin[i], s.origin[i]],
                 calls := map[1 := Issued(i, |s.rows|), 2 := Issued(i, |s.rows| + 1)])
  {
    var t := Apply(s, Issue(1, h, expiresAt));
    assert t.rows[..|t.rows| - 1] == s.rows;
    RunTwo(s, Issue(1, h, expiresAt), Issue(2, k, expiresAt));
  }

  lemma BothLinked(s: Tokens, i: nat, n: nat)
    requires |s.origin| == |s.rows| == n + 2 && i < n && Live(s.rows, i) && Live(s.rows, n) && Live(s.rows, n + 1)
    requires s.calls == map[1 := ReadBack(i, n), 2 := ReadBack(i, n + 1)]
    ensures Legal(s, [Link(1), Link(2)])
    ensures var t := Exec(s, [Link(1), Link(2)]);
            |t.rows| == n + 2 && t.origin == s.origin && t.calls == map[] && Live(t.rows, n) && Live(t.rows, n + 1)
  {
    var t := Apply(s, Link(1));
    assert t.calls == map[2 := ReadBack(i, n + 1)];
    assert t.calls - {2} == map[];
    RunTwo(s, Link(1), Link(2));
  }

  /**
   From any state between calls, two overlapping rotations of one live, unexpired token both succeed
   and leave two live tokens in its lineage.
   */
  lemma OverlapForksTheLineage(s: Tokens, i: nat, h: nat, k: nat, expiresAt: int)
    requires Between(s) && Live(s.rows, i) && s.now <= s.rows[i].expiresAt
    requires Find(s.rows, h).None? && Find(s.rows, k).None? && h != k
    ensures var es := [Present(1, s.rows[i].hash), Present(2, s.rows[i].hash)]
                      + [Issue(1, h, expiresAt), Issue(2, k, expiresAt)] + [Reread(1), Reread(2)] + [Link(1), Link(2)];
            && Legal(s, es)
            && var t, n := Exec(s, es), |s.rows|;
            && |t.rows| == n + 2 && t.calls == map[]
            && t.origin[n] == s.origin[i] && t.origin[n + 1] == s.origin[i]
            && Live(t.rows, n) && Live(t.rows, n + 1)
  {
    var n := |s.rows|;
    BothChecked(s, i);
    var s1 := s.(calls := map[1 := Checked(i), 2 := Checked(i)]);
    BothIssued(s1, i, h, k, expiresAt);
    var s2 := Exec(s1, [Issue(1, h, expiresAt), Issue(2, k, expiresAt)]);
    BothReread(s2, i, n);
    var s3 := s2.(calls := map[1 := ReadBack(i, n), 2 := ReadBack(i, n + 1)]);
    BothLinked(s3, i, n);
    RunFour(s, [Present(1, s.rows[i].hash), Present(2, s.rows[i].hash)], s1,
            [Issue(1, h, expiresAt), Issue(2, k, expiresAt)], s2, [Reread(1), Reread(2)], s3, [Link(1), Link(2)]);
  }

  /** One rotation that stops after its insert is enough: the presented token and the replacement are both live. */
  lemma StoppedRotationForksTheLineage(s: Tokens, i: nat, h: nat, expiresAt: int)
    requires Between(s) && Live(s.rows, i) && s.now <= s.rows[i].expiresAt && Find(s.rows, h).None?
    ensures var es := [Present(1, s.rows[i].hash), Issue(1, h, expiresAt)] + [Abandon(1)];
            && Legal(s, es)
            && var t, n := Exec(s, es), |s.rows|;
            && t.rows == s.rows + [Row(s.rows[i].user, h, expiresAt, None, None)] && t.orphans == {n}
            && t.calls == map[] && t.origin[n] == s.origin[i]
            && Live(t.rows, i) && Live(t.rows, n) && !Unforked(t, s.origin[i])
  {
    var hash, n := s.rows[i].hash, |s.rows|;
    FindUnique(s.rows, i);
    RunTwo(s, Present(1, hash), Issue(1, h, expiresAt));
    var s1 := Apply(s, Present(1, hash));
    assert s1.calls == map[1 := Checked(i)];
    var s2 := Apply(s1, Issue(1, h, expiresAt));
    assert s2.calls == map[1 := Issued(i, n)];
    RunOne(s2, Abandon(1));
    RunMore(s, [Present(1, hash), Issue(1, h, expiresAt)], [Abandon(1)]);
    var t := Apply(s2, Abandon(1));
    assert map[1 := Issued(i, n)] - {1} == map[];
    assert n in t.orphans && IsHead(t, n);
    assert s.origin[i] <= i;
  }

  /** Whichever statement of a rotation fails, what it leaves is what some run of statements leaves. */
  lemma FaultyRotationIsRun(s: Tokens, raw: nat, next: nat, expiresAt: int, fault: Fault) returns (es: seq<Event>)
    requires Between(s)
    ensures Legal(s, es) && Exec(s, es).calls == map[]
    ensures Exec(s, es).rows == RowsLeft(s.rows, s.now, Some(raw), next, expiresAt, fault)
    ensures Exec(s, es).orphans == {} <==>
            !RotateVerdict(s.rows, s.now, Some(raw), next).Rotated?
            || !(fault == InsertFails(true) || fault.RereadFails? || fault == RevokeFails(false))
  {
    var verdict := RotateVerdict(s.rows, s.now, Some(raw), next);
    if !verdict.Rotated? || fault.LookUpFails? || fault == InsertFails(false) {
      es := [];
    } else if fault.InsertFails? || fault.RereadFails? || fault == RevokeFails(false) {
      var id := Find(s.rows, raw).value;
      FindUnique(s.rows, id);
      StoppedRotationForksTheLineage(s, id, next, expiresAt);
      es := [Present(1, raw), Issue(1, next, expiresAt)] + [Abandon(1)];
    } else {
      RotateBlock(s, raw, next, expiresAt);
      es := [Present(0, raw), Issue(0, next, expiresAt), Reread(0), Link(0)];
    }
  }
}
