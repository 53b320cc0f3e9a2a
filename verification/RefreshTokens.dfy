/**
 The refresh_tokens table and every call that touches it, one SQL statement per event: logins,
 rotations (look up, insert, read back, revoke), logouts and the revocation of a whole family.
 Calls interleave freely and may stop after any statement.

 A token's id is its position in the table: ids are fresh, so only the order of insertion matters.
 Hashes stand for raw tokens (SHA-256 is taken to be injective). `origin` records the login a token
 descends from and `orphans` the tokens whose rotation ended without linking them; both are histories.
 */
module RefreshTokens {
  import opened Basics

  datatype Row = Row(user: nat, hash: nat, expiresAt: int, revokedAt: Option<int>, replacedBy: Option<nat>)

  datatype Call =
    | Checked(id: nat)                 // RotateRefresh: presented token found valid
    | Issued(id: nat, heir: nat)      // replacement inserted
    | ReadBack(id: nat, heir: nat)    // replacement's id known
    | LoggingOut(id: nat)
    | Reused(user: nat)                // handleRefresh saw ErrRefreshReused

  datatype Tokens = Tokens(now: int, rows: seq<Row>, calls: map<nat, Call>, origin: seq<nat>, orphans: set<nat>)

  datatype Event =
    | Tick(to: int)
    | Login(user: nat, hash: nat, expiresAt: int)
    | Present(c: nat, hash: nat)
    | Issue(c: nat, hash: nat, expiresAt: int)
    | Reread(c: nat)
    | Link(c: nat)
    | LookUpLogout(c: nat, hash: nat)
    | RevokeOne(c: nat)
    | RevokeFamily(c: nat)
    | LogoutAll(user: nat)
    | Abandon(c: nat)

  /* ------------------------------- the statements ------------------------------ */

  /** SELECT ... WHERE token_hash = $1 */
  function Find(rows: seq<Row>, hash: nat): (r: Option<nat>)
    ensures r.Some? ==> r.value < |rows| && rows[r.value].hash == hash
    ensures r.None? ==> forall i :: 0 <= i < |rows| ==> rows[i].hash != hash
  {
    if rows == [] then None
    else if rows[|rows| - 1].hash == hash then Some(|rows| - 1)
    else Find(rows[..|rows| - 1], hash)
  }

  /** UPDATE ... SET revoked_at = NOW(), replaced_by = $2 WHERE id = $1 AND revoked_at IS NULL */
  function Revoke(rows: seq<Row>, id: nat, heir: Option<nat>, now: int): seq<Row>
    requires id < |rows|
  {
    if rows[id].revokedAt.None? then rows[id := rows[id].(revokedAt := Some(now), replacedBy := heir)] else rows
  }

  /** UPDATE ... SET revoked_at = NOW() WHERE user_id = $1 AND revoked_at IS NULL */
  function RevokeUser(rows: seq<Row>, user: nat, now: int): (r: seq<Row>)
    ensures |r| == |rows|
    ensures forall i :: 0 <= i < |rows| ==>
              r[i] == if rows[i].user == user && rows[i].revokedAt.None? then rows[i].(revokedAt := Some(now))
                      else rows[i]
  {
    seq(|rows|, i requires 0 <= i < |rows| =>
      if rows[i].user == user && rows[i].revokedAt.None? then rows[i].(revokedAt := Some(now)) else rows[i])
  }

  predicate Live(rows: seq<Row>, i: nat) {
    i < |rows| && rows[i].revokedAt.None?
  }

  predicate Enabled(s: Tokens, e: Event) {
    match e
    case Tick(to) => s.now <= to
    case Login(_, hash, _) => Find(s.rows, hash).None?
    case Present(c, _) => c !in s.calls
    case Issue(c, hash, _) =>
      c in s.calls && s.calls[c].Checked? && s.calls[c].id < |s.rows| && Find(s.rows, hash).None?
    case Reread(c) => c in s.calls && s.calls[c].Issued?
    case Link(c) => c in s.calls && s.calls[c].ReadBack? && s.calls[c].id < |s.rows|
    case LookUpLogout(c, _) => c !in s.calls
    case RevokeOne(c) => c in s.calls && s.calls[c].LoggingOut? && s.calls[c].id < |s.rows|
    case RevokeFamily(c) => c in s.calls && s.calls[c].Reused?
    case LogoutAll(_) => true
    case Abandon(c) => c in s.calls
  }

  /** The checks of RotateRefresh, in the source's order: unknown, revoked, expired. */
  function Judge(s: Tokens, hash: nat): Option<Call> {
    match Find(s.rows, hash)
    case None => None
    case Some(id) =>
      if s.rows[id].revokedAt.Some? then Some(Reused(s.rows[id].user))
      else if s.now > s.rows[id].expiresAt then None
      else Some(Checked(id))
  }

  function Apply(s: Tokens, e: Event): Tokens
    requires Enabled(s, e) && |s.origin| == |s.rows|
  {
    match e
    case Tick(to) => s.(now := to)
    case Login(user, hash, expiresAt) =>
      s.(rows := s.rows + [Row(user, hash, expiresAt, None, None)], origin := s.origin + [|s.rows|])
    case Present(c, hash) =>
      if Judge(s, hash).Some? then s.(calls := s.calls[c := Judge(s, hash).value]) else s
    case Issue(c, hash, expiresAt) =>
      var id := s.calls[c].id;
      s.(rows := s.rows + [Row(s.rows[id].user, hash, expiresAt, None, None)], origin := s.origin + [s.origin[id]],
         calls := s.calls[c := Issued(id, |s.rows|)])
    case Reread(c) => s.(calls := s.calls[c := ReadBack(s.calls[c].id, s.calls[c].heir)])
    case Link(c) =>
      var id, heir := s.calls[c].id, s.calls[c].heir;
      s.(rows := Revoke(s.rows, id, Some(heir), s.now), calls := s.calls - {c},
         orphans := if Live(s.rows, id) then s.orphans else s.orphans + {heir})
    case LookUpLogout(c, hash) =>
      if Find(s.rows, hash).Some? && Live(s.rows, Find(s.rows, hash).value)
      then s.(calls := s.calls[c := LoggingOut(Find(s.rows, hash).value)]) else s
    case RevokeOne(c) => s.(rows := Revoke(s.rows, s.calls[c].id, None, s.now), calls := s.calls - {c})
    case RevokeFamily(c) => s.(rows := RevokeUser(s.rows, s.calls[c].user, s.now), calls := s.calls - {c})
    case LogoutAll(user) => s.(rows := RevokeUser(s.rows, user, s.now))
    case Abandon(c) =>
      s.(calls := s.calls - {c}, orphans := if Pending(s.calls[c]) then s.orphans + {s.calls[c].heir} else s.orphans)
  }

  /** A rotation that has inserted its replacement and not linked it yet. */
  predicate Pending(p: Call) {
    p.Issued? || p.ReadBack?
  }

  const EMPTY: Tokens := Tokens(0, [], map[], [], {})

  predicate Legal(s: Tokens, es: seq<Event>)
    requires |s.origin| == |s.rows|
    decreases |es|
  {
    es == [] || (Enabled(s, es[0]) && Legal(Apply(s, es[0]), es[1..]))
  }

  function Exec(s: Tokens, es: seq<Event>): (t: Tokens)
    requires |s.origin| == |s.rows| && Legal(s, es)
    ensures |t.origin| == |t.rows|
    decreases |es|
  {
    if es == [] then s else Exec(Apply(s, es[0]), es[1..])
  }

  /* -------------------------------- invariant ---------------------------------- */

  predicate LinkedFrom(rows: seq<Row>, i: nat, j: nat) {
    i < |rows| && rows[i].replacedBy == Some(j)
  }

  ghost predicate Linked(rows: seq<Row>, j: nat) {
    exists i: nat :: LinkedFrom(rows, i, j)
  }

  ghost predicate PendingHeir(calls: map<nat, Call>, j: nat) {
    exists c :: c in calls && Pending(calls[c]) && calls[c].heir == j
  }

  ghost predicate OriginsOk(rows: seq<Row>, origin: seq<nat>) {
    && |origin| == |rows|
    && forall i :: 0 <= i < |rows| ==>
         origin[i] <= i && origin[origin[i]] == origin[i] && rows[origin[i]].user == rows[i].user
  }

  /** replaced_by is set only on revoked rows, to a later token of the same lineage, never twice to one token. */
  ghost predicate LinksOk(rows: seq<Row>, origin: seq<nat>)
    requires |origin| == |rows|
  {
    && (forall i: nat, j: nat :: LinkedFrom(rows, i, j) ==>
          rows[i].revokedAt.Some? && i < j < |rows| && origin[j] == origin[i])
    && (forall i: nat, k: nat, j: nat :: LinkedFrom(rows, i, j) && LinkedFrom(rows, k, j) ==> i == k)
  }

  ghost predicate HashesOk(rows: seq<Row>) {
    forall i, j :: 0 <= i < j < |rows| ==> rows[i].hash != rows[j].hash
  }

  predicate CallOk(s: Tokens, p: Call)
    requires |s.origin| == |s.rows|
  {
    match p
    case Checked(id) => id < |s.rows|
    case LoggingOut(id) => id < |s.rows|
    case Reused(_) => true
    case Issued(id, heir) => id < heir < |s.rows| && s.origin[heir] == s.origin[id] && heir !in s.orphans
    case ReadBack(id, heir) => id < heir < |s.rows| && s.origin[heir] == s.origin[id] && heir !in s.orphans
  }

  ghost predicate CallsOk(s: Tokens)
    requires |s.origin| == |s.rows|
  {
    && (forall c :: c in s.calls ==> CallOk(s, s.calls[c]))
    && (forall b, c :: b in s.calls && c in s.calls && b != c && Pending(s.calls[b]) && Pending(s.calls[c]) ==>
          s.calls[b].heir != s.calls[c].heir)
  }

  /**
   The tokens no other token points to: those a login issued, those whose rotation stopped short of
   linking them, and those whose rotation is still under way.
   */
  ghost predicate IsHead(s: Tokens, i: nat)
    requires i < |s.origin|
  {
    s.origin[i] == i || i in s.orphans || PendingHeir(s.calls, i)
  }

  ghost predicate HeadsOk(s: Tokens)
    requires |s.origin| == |s.rows|
  {
    && (forall o :: o in s.orphans ==> o < |s.rows| && s.origin[o] != o)
    && forall i: nat :: i < |s.rows| ==> (IsHead(s, i) <==> !Linked(s.rows, i))
  }

  ghost predicate Inv(s: Tokens) {
    OriginsOk(s.rows, s.origin) && LinksOk(s.rows, s.origin) && HashesOk(s.rows) && CallsOk(s) && HeadsOk(s)
  }

  /* ---------------------- what each statement does to the links ------------------ */

  /** A statement that only touches revoked_at of rows that were not revoked. */
  ghost predicate OnlyRevokes(before: seq<Row>, after: seq<Row>) {
    && |after| == |before|
    && forall i :: 0 <= i < |before| ==>
         after[i] == before[i] ||
         (before[i].revokedAt.None? && after[i].revokedAt.Some? && after[i].replacedBy == before[i].replacedBy
          && after[i].user == before[i].user && after[i].hash == before[i].hash
          && after[i].expiresAt == before[i].expiresAt)
  }

  lemma RevokingKeepsTheTable(before: seq<Row>, after: seq<Row>, origin: seq<nat>)
    requires OnlyRevokes(before, after) && OriginsOk(before, origin) && LinksOk(before, origin) && HashesOk(before)
    ensures OriginsOk(after, origin) && LinksOk(after, origin) && HashesOk(after)
    ensures forall j: nat :: Linked(after, j) <==> Linked(before, j)
  {
    assert forall i: nat, j: nat :: LinkedFrom(after, i, j) <==> LinkedFrom(before, i, j);
  }

  lemma AddingKeepsTheTable(rows: seq<Row>, origin: seq<nat>, row: Row, parent: nat)
    requires OriginsOk(rows, origin) && LinksOk(rows, origin) && HashesOk(rows)
    requires Find(rows, row.hash).None? && row.replacedBy.None?
    requires parent <= |rows| && (parent < |rows| ==> origin[parent] == parent && rows[parent].user == row.user)
    ensures OriginsOk(rows + [row], origin + [parent]) && LinksOk(rows + [row], origin + [parent])
    ensures HashesOk(rows + [row])
    ensures forall j: nat :: Linked(rows + [row], j) <==> Linked(rows, j)
    ensures !Linked(rows + [row], |rows|)
  {
    assert forall i: nat, j: nat :: LinkedFrom(rows + [row], i, j) <==> LinkedFrom(rows, i, j);
  }

  lemma LinkingKeepsTheTable(rows: seq<Row>, origin: seq<nat>, id: nat, heir: nat, now: int)
    requires OriginsOk(rows, origin) && LinksOk(rows, origin) && HashesOk(rows)
    requires id < heir < |rows| && origin[heir] == origin[id] && Live(rows, id) && !Linked(rows, heir)
    ensures var after := Revoke(rows, id, Some(heir), now);
            && OriginsOk(after, origin) && LinksOk(after, origin) && HashesOk(after)
            && forall j: nat :: Linked(after, j) <==> Linked(rows, j) || j == heir
  {
    var after := Revoke(rows, id, Some(heir), now);
    assert !LinkedFrom(rows, id, id);
    assert forall j: nat :: !LinkedFrom(rows, id, j);
    assert forall i: nat, j: nat :: LinkedFrom(after, i, j) <==> LinkedFrom(rows, i, j) || (i == id && j == heir);
    assert LinkedFrom(after, id, heir);
    forall j: nat | Linked(rows, j) ensures Linked(after, j) {
      var i: nat :| LinkedFrom(rows, i, j);
      assert LinkedFrom(after, i, j);
    }
  }

  /** A live row has no replaced_by to lose. */
  lemma RevokeOnlyRevokes(rows: seq<Row>, origin: seq<nat>, id: nat, now: int)
    requires |origin| == |rows| && LinksOk(rows, origin) && id < |rows|
    ensures OnlyRevokes(rows, Revoke(rows, id, None, now))
  {
    if rows[id].replacedBy.Some? {
      assert LinkedFrom(rows, id, rows[id].replacedBy.value);
    }
  }

  /* ------------------------------ step by step ----------------------------------- */

  lemma CallsDropped(s: Tokens, rows: seq<Row>, c: nat)
    requires Inv(s) && OnlyRevokes(s.rows, rows) && c in s.calls && !Pending(s.calls[c])
    ensures Inv(s.(rows := rows, calls := s.calls - {c})) && Inv(s.(rows := rows))
  {
    RevokingKeepsTheTable(s.rows, rows, s.origin);
    forall j: nat ensures PendingHeir(s.calls - {c}, j) <==> PendingHeir(s.calls, j) {
      PendingElsewhere(s.calls, c, s.calls[c], j);
    }
  }

  lemma RowsRevoked(s: Tokens, rows: seq<Row>)
    requires Inv(s) && OnlyRevokes(s.rows, rows)
    ensures Inv(s.(rows := rows))
  {
    RevokingKeepsTheTable(s.rows, rows, s.origin);
  }

  lemma CallStarted(s: Tokens, c: nat, p: Call)
    requires Inv(s) && c !in s.calls && CallOk(s, p) && !Pending(p)
    ensures Inv(s.(calls := s.calls[c := p]))
  {
    forall j: nat ensures PendingHeir(s.calls[c := p], j) <==> PendingHeir(s.calls, j) {
      PendingElsewhere(s.calls, c, p, j);
    }
  }

  lemma LoginStep(s: Tokens, user: nat, hash: nat, expiresAt: int)
    requires Inv(s) && Enabled(s, Login(user, hash, expiresAt))
    ensures Inv(Apply(s, Login(user, hash, expiresAt)))
  {
    AddingKeepsTheTable(s.rows, s.origin, Row(user, hash, expiresAt, None, None), |s.rows|);
    var t := Apply(s, Login(user, hash, expiresAt));
    assert forall c :: c in s.calls ==> CallOk(t, s.calls[c]);
    forall i: nat | i < |s.rows| ensures IsHead(t, i) <==> IsHead(s, i) {}
  }

  lemma IssueStep(s: Tokens, c: nat, hash: nat, expiresAt: int)
    requires Inv(s) && Enabled(s, Issue(c, hash, expiresAt))
    ensures Inv(Apply(s, Issue(c, hash, expiresAt)))
  {
    var id, n := s.calls[c].id, |s.rows|;
    AddingKeepsTheTable(s.rows, s.origin, Row(s.rows[id].user, hash, expiresAt, None, None), s.origin[id]);
    var t := Apply(s, Issue(c, hash, expiresAt));
    assert forall b :: b in s.calls ==> CallOk(t, s.calls[b]);
    assert t.calls[c] == Issued(id, n) && PendingHeir(t.calls, n);
    forall i: nat | i < n ensures IsHead(t, i) <==> IsHead(s, i) {
      PendingElsewhere(s.calls, c, Issued(id, n), i);
    }
  }

  lemma PendingElsewhere(calls: map<nat, Call>, c: nat, p: Call, i: nat)
    requires (c in calls && Pending(calls[c]) ==> calls[c].heir != i) && (Pending(p) ==> p.heir != i)
    ensures PendingHeir(calls[c := p], i) <==> PendingHeir(calls, i)
    ensures PendingHeir(calls - {c}, i) <==> PendingHeir(calls, i)
  {
    if PendingHeir(calls, i) {
      var b :| b in calls && Pending(calls[b]) && calls[b].heir == i;
      assert b in calls[c := p] && b in calls - {c};
      assert PendingHeir(calls[c := p], i);
    }
  }

  lemma RereadStep(s: Tokens, c: nat)
    requires Inv(s) && Enabled(s, Reread(c))
    ensures Inv(Apply(s, Reread(c)))
  {
    var t, heir := Apply(s, Reread(c)), s.calls[c].heir;
    assert CallOk(s, s.calls[c]);
    assert Pending(t.calls[c]) && PendingHeir(t.calls, heir) && PendingHeir(s.calls, heir);
    forall i: nat | i < |s.rows| ensures IsHead(t, i) <==> IsHead(s, i) {
      if i != heir {
        PendingElsewhere(s.calls, c, t.calls[c], i);
      }
    }
  }

  /** The heir of c is no longer pending once c is gone. */
  lemma HeirReleased(s: Tokens, c: nat)
    requires Inv(s) && c in s.calls && Pending(s.calls[c])
    ensures !PendingHeir(s.calls - {c}, s.calls[c].heir)
    ensures forall i: nat :: i != s.calls[c].heir ==> (PendingHeir(s.calls - {c}, i) <==> PendingHeir(s.calls, i))
    ensures !Linked(s.rows, s.calls[c].heir) && s.calls[c].heir < |s.rows|
  {
    var heir := s.calls[c].heir;
    assert CallOk(s, s.calls[c]);
    assert PendingHeir(s.calls, heir);
    assert IsHead(s, heir);
    forall i: nat | i != heir ensures PendingHeir(s.calls - {c}, i) <==> PendingHeir(s.calls, i) {
      PendingElsewhere(s.calls, c, Reused(0), i);
    }
  }

  lemma Orphaned(s: Tokens, c: nat)
    requires Inv(s) && c in s.calls && Pending(s.calls[c])
    ensures Inv(s.(calls := s.calls - {c}, orphans := s.orphans + {s.calls[c].heir}))
  {
    HeirReleased(s, c);
    var t := s.(calls := s.calls - {c}, orphans := s.orphans + {s.calls[c].heir});
    forall b | b in t.calls ensures CallOk(t, t.calls[b]) {
      assert CallOk(s, s.calls[b]);
    }
  }

  lemma LinkStep(s: Tokens, c: nat)
    requires Inv(s) && Enabled(s, Link(c))
    ensures Inv(Apply(s, Link(c)))
  {
    var t, id, heir := Apply(s, Link(c)), s.calls[c].id, s.calls[c].heir;
    HeirReleased(s, c);
    assert CallOk(s, s.calls[c]);
    if Live(s.rows, id) {
      LinkingKeepsTheTable(s.rows, s.origin, id, heir, s.now);
      forall b | b in t.calls ensures CallOk(t, t.calls[b]) {
        assert CallOk(s, s.calls[b]);
      }
    } else {
      Orphaned(s, c);
    }
  }

  lemma InvStep(s: Tokens, e: Event)
    requires Inv(s) && Enabled(s, e)
    ensures Inv(Apply(s, e))
  {
    match e
    case Tick(to) =>
    case Login(user, hash, expiresAt) => LoginStep(s, user, hash, expiresAt);
    case Present(c, hash) => if Judge(s, hash).Some? { CallStarted(s, c, Judge(s, hash).value); }
    case Issue(c, hash, expiresAt) => IssueStep(s, c, hash, expiresAt);
    case Reread(c) => RereadStep(s, c);
    case Link(c) => LinkStep(s, c);
    case LookUpLogout(c, hash) =>
      if Find(s.rows, hash).Some? && Live(s.rows, Find(s.rows, hash).value) {
        CallStarted(s, c, LoggingOut(Find(s.rows, hash).value));
      }
    case RevokeOne(c) =>
      RevokeOnlyRevokes(s.rows, s.origin, s.calls[c].id, s.now);
      CallsDropped(s, Revoke(s.rows, s.calls[c].id, None, s.now), c);
    case RevokeFamily(c) => CallsDropped(s, RevokeUser(s.rows, s.calls[c].user, s.now), c);
    case LogoutAll(user) => RowsRevoked(s, RevokeUser(s.rows, user, s.now));
    case Abandon(c) => if Pending(s.calls[c]) { Orphaned(s, c); } else { CallsDropped(s, s.rows, c); }
  }

  lemma {:induction false} InvExec(s: Tokens, es: seq<Event>)
    requires Inv(s) && Legal(s, es)
    ensures Inv(Exec(s, es)) && |s.rows| <= |Exec(s, es).rows|
    decreases |es|
  {
    if es != [] {
      InvStep(s, es[0]);
      InvExec(Apply(s, es[0]), es[1..]);
    }
  }
}
