/**
 What the token table guarantees under every interleaving of statements: final revocations, disjoint
 ascending chains, when a lineage is one chain, and when a user is locked out.
 */
module RefreshTheorems {
  import opened Basics
  import opened RefreshTokens

  /** Runs are built statement by statement. */
  lemma RunIs(s: Tokens, e: Event, es: seq<Event>)
    requires |s.origin| == |s.rows|
    ensures Legal(s, []) && Exec(s, []) == s
    ensures Legal(s, [e] + es) <==> Enabled(s, e) && Legal(Apply(s, e), es)
    ensures Legal(s, [e] + es) ==> Exec(s, [e] + es) == Exec(Apply(s, e), es)
  {
    assert ([e] + es)[1..] == es;
  }

  /** Any call may start at any time, go on as its last statement left it, and stop anywhere. */
  lemma CallsGoOn(s: Tokens, c: nat, user: nat, hash: nat, expiresAt: int)
    requires Inv(s)
    ensures Enabled(s, LogoutAll(user))
    ensures Enabled(s, Login(user, hash, expiresAt)) <==> forall i :: 0 <= i < |s.rows| ==> s.rows[i].hash != hash
    ensures c !in s.calls ==> Enabled(s, Present(c, hash)) && Enabled(s, LookUpLogout(c, hash))
    ensures c in s.calls ==>
              && Enabled(s, Abandon(c))
              && match s.calls[c]
                 case Checked(_) =>
                   Enabled(s, Issue(c, hash, expiresAt)) <==> forall i :: 0 <= i < |s.rows| ==> s.rows[i].hash != hash
                 case Issued(_, _) => Enabled(s, Reread(c))
                 case ReadBack(_, _) => Enabled(s, Link(c))
                 case LoggingOut(_) => Enabled(s, RevokeOne(c))
                 case Reused(_) => Enabled(s, RevokeFamily(c))
  {
    assert c in s.calls ==> CallOk(s, s.calls[c]);
    if Find(s.rows, hash).Some? {
      assert s.rows[Find(s.rows, hash).value].hash == hash;
    }
  }

  ghost predicate Reachable(s: Tokens) {
    exists es :: Legal(EMPTY, es) && Exec(EMPTY, es) == s
  }

  lemma ReachableInv(s: Tokens)
    requires Reachable(s)
    ensures Inv(s)
  {
    var es :| Legal(EMPTY, es) && Exec(EMPTY, es) == s;
    InvExec(EMPTY, es);
  }

  /** Once revoked, a row never changes again; its owner, hash and expiry never change at all. */
  lemma {:induction false} RevokedIsFinal(s: Tokens, es: seq<Event>, i: nat)
    requires |s.origin| == |s.rows| && Legal(s, es) && i < |s.rows|
    ensures var t := Exec(s, es);
            && i < |t.rows| && t.origin[i] == s.origin[i]
            && t.rows[i].user == s.rows[i].user && t.rows[i].hash == s.rows[i].hash
            && t.rows[i].expiresAt == s.rows[i].expiresAt
            && (s.rows[i].revokedAt.Some? ==> t.rows[i] == s.rows[i])
    decreases |es|
  {
    if es != [] {
      RevokedIsFinal(Apply(s, es[0]), es[1..], i);
    }
  }

  /* ------------------------------- chains of tokens ----------------------------- */

  /** The token n links after i, if the chain is that long. */
  function Follow(rows: seq<Row>, i: nat, n: nat): Option<nat>
    decreases n
  {
    if n == 0 then Some(i)
    else if i < |rows| && rows[i].replacedBy.Some? then Follow(rows, rows[i].replacedBy.value, n - 1)
    else None
  }

  lemma {:induction false} FollowAscends(rows: seq<Row>, origin: seq<nat>, i: nat, n: nat)
    requires |origin| == |rows| && LinksOk(rows, origin) && i < |rows| && Follow(rows, i, n).Some?
    ensures var j := Follow(rows, i, n).value;
            && i + n <= j < |rows| && origin[j] == origin[i]
            && (n > 0 ==> rows[i].revokedAt.Some?)
    decreases n
  {
    if n > 0 {
      assert LinkedFrom(rows, i, rows[i].replacedBy.value);
      FollowAscends(rows, origin, rows[i].replacedBy.value, n - 1);
    }
  }

  lemma {:induction false} FollowSplits(rows: seq<Row>, i: nat, m: nat, n: nat)
    requires Follow(rows, i, m).Some?
    ensures Follow(rows, i, m + n) == Follow(rows, Follow(rows, i, m).value, n)
    decreases m
  {
    if m > 0 {
      FollowSplits(rows, rows[i].replacedBy.value, m - 1, n);
    }
  }

  lemma {:induction false} FollowShorter(rows: seq<Row>, i: nat, m: nat, n: nat)
    requires m <= n && Follow(rows, i, n).Some?
    ensures Follow(rows, i, m).Some?
    decreases m
  {
    if m > 0 {
      FollowShorter(rows, rows[i].replacedBy.value, m - 1, n - 1);
    }
  }

  /** Two chains that meet are one chain: the longer of the two runs through the start of the shorter. */
  lemma {:induction false} ChainsMerge(rows: seq<Row>, origin: seq<nat>, i: nat, m: nat, k: nat, n: nat)
    requires |origin| == |rows| && LinksOk(rows, origin) && m <= n
    requires Follow(rows, i, m).Some? && Follow(rows, i, m) == Follow(rows, k, n)
    ensures Follow(rows, k, n - m) == Some(i)
    decreases m
  {
    if m > 0 {
      FollowShorter(rows, i, m - 1, m);
      FollowShorter(rows, k, n - 1, n);
      var p, q := Follow(rows, i, m - 1).value, Follow(rows, k, n - 1).value;
      FollowSplits(rows, i, m - 1, 1);
      FollowSplits(rows, k, n - 1, 1);
      OneStep(rows, p);
      OneStep(rows, q);
      assert LinkedFrom(rows, p, Follow(rows, i, m).value) && LinkedFrom(rows, q, Follow(rows, i, m).value);
      ChainsMerge(rows, origin, i, m - 1, k, n - 1);
    }
  }

  lemma OneStep(rows: seq<Row>, p: nat)
    requires Follow(rows, p, 1).Some?
    ensures LinkedFrom(rows, p, Follow(rows, p, 1).value)
  {
    assert Follow(rows, rows[p].replacedBy.value, 0) == rows[p].replacedBy;
  }

  /**
   In every reachable state, whatever interleaving led there: links lead from revoked tokens to later
   tokens of the same user, so no chain returns to its start, and chains that meet are one chain.
   */
  lemma ChainsAreDisjointAndAcyclic(s: Tokens, i: nat, m: nat, k: nat, n: nat)
    requires Reachable(s) && i < |s.rows| && k < |s.rows| && m <= n
    requires Follow(s.rows, i, m).Some? && Follow(s.rows, k, n).Some?
    ensures var j := Follow(s.rows, i, m).value;
            && j < |s.rows| && s.rows[j].user == s.rows[i].user
            && (m > 0 ==> i < j && s.rows[i].revokedAt.Some?)
    ensures Follow(s.rows, i, m) == Follow(s.rows, k, n) ==> Follow(s.rows, k, n - m) == Some(i)
  {
    ReachableInv(s);
    FollowAscends(s.rows, s.origin, i, m);
    var j := Follow(s.rows, i, m).value;
    assert s.rows[s.origin[j]].user == s.rows[j].user;
    if Follow(s.rows, i, m) == Follow(s.rows, k, n) {
      ChainsMerge(s.rows, s.origin, i, m, k, n);
    }
  }

  /* ----------------------------------- lineages --------------------------------- */

  /** Every token lies on the chain of a head of its own lineage. */
  lemma {:induction false} HasHead(s: Tokens, i: nat) returns (h: nat, n: nat)
    requires Inv(s) && i < |s.rows|
    ensures h < |s.rows| && IsHead(s, h) && s.origin[h] == s.origin[i] && Follow(s.rows, h, n) == Some(i)
    decreases i
  {
    if IsHead(s, i) {
      h, n := i, 0;
    } else {
      var k: nat :| LinkedFrom(s.rows, k, i);
      var m: nat;
      h, m := HasHead(s, k);
      n := m + 1;
      FollowSplits(s.rows, h, m, 1);
      assert Follow(s.rows, i, 0) == Some(i);
      assert Follow(s.rows, k, 1) == Some(i);
    }
  }

  /** A live token ends every chain it lies on: whatever else the chain holds leads to it. */
  lemma LiveIsTail(s: Tokens, h: nat, m: nat, n: nat)
    requires Inv(s) && h < |s.rows| && Follow(s.rows, h, m).Some? && Follow(s.rows, h, n).Some?
    requires Live(s.rows, Follow(s.rows, h, n).value)
    ensures m <= n
    ensures Follow(s.rows, Follow(s.rows, h, m).value, n - m) == Follow(s.rows, h, n)
  {
    if m > n {
      FollowSplits(s.rows, h, n, m - n);
      FollowAscends(s.rows, s.origin, h, n);
      FollowAscends(s.rows, s.origin, Follow(s.rows, h, n).value, m - n);
      assert false;
    } else {
      FollowSplits(s.rows, h, m, n - m);
    }
  }

  /** No head but the login itself: every rotation in the lineage so far has linked its replacement. */
  ghost predicate Unforked(s: Tokens, o: nat)
    requires |s.origin| == |s.rows|
  {
    forall i: nat :: i < |s.rows| && s.origin[i] == o && IsHead(s, i) ==> i == o
  }

  ghost predicate LeadsTo(rows: seq<Row>, i: nat, j: nat) {
    exists n: nat :: Follow(rows, i, n) == Some(j)
  }

  /**
   A lineage whose rotations all linked their replacement is one chain from its login: every token is
   reached from the login, and a live token is the end of the chain, so there is at most one.
   */
  lemma LineageIsOneChain(s: Tokens, o: nat, i: nat, j: nat)
    requires Inv(s) && i < |s.rows| && j < |s.rows|
    requires s.origin[i] == o && s.origin[j] == o && Unforked(s, o)
    ensures LeadsTo(s.rows, o, i)
    ensures Live(s.rows, j) ==> LeadsTo(s.rows, i, j)
    ensures Live(s.rows, i) && Live(s.rows, j) ==> i == j
  {
    var h, m := HasHead(s, i);
    var k, n := HasHead(s, j);
    assert h == o && k == o;
    if Live(s.rows, j) {
      LiveIsTail(s, o, m, n);
      if Live(s.rows, i) {
        LiveIsTail(s, o, n, m);
      }
    }
  }

  /** A chain that moves at all ends in a token that something links to. */
  lemma {:induction false} EndIsLinked(rows: seq<Row>, i: nat, n: nat)
    requires n > 0 && Follow(rows, i, n).Some?
    ensures Linked(rows, Follow(rows, i, n).value)
    decreases n
  {
    if n == 1 {
      OneStep(rows, i);
    } else {
      EndIsLinked(rows, rows[i].replacedBy.value, n - 1);
    }
  }

  /** The login leads to every token of its lineage if and only if it is the lineage's only head. */
  lemma OneChainIffUnforked(s: Tokens, o: nat)
    requires Inv(s) && o < |s.rows| && s.origin[o] == o
    ensures Unforked(s, o) <==> forall i: nat :: i < |s.rows| && s.origin[i] == o ==> LeadsTo(s.rows, o, i)
  {
    forall i: nat | i < |s.rows| && s.origin[i] == o && Unforked(s, o) ensures LeadsTo(s.rows, o, i) {
      LineageIsOneChain(s, o, i, i);
    }
    forall i: nat | i < |s.rows| && s.origin[i] == o && IsHead(s, i) && LeadsTo(s.rows, o, i) ensures i == o {
      var n: nat :| Follow(s.rows, o, n) == Some(i);
      if n > 0 {
        EndIsLinked(s.rows, o, n);
      }
    }
  }

  /**
   A lineage gains a lasting second head in exactly two ways: a rotation's last statement finds the
   presented token already revoked, or a rotation stops between its insert and its last statement.
   */
  lemma OrphansArise(s: Tokens, e: Event, i: nat)
    requires Inv(s) && Enabled(s, e)
    ensures s.orphans <= Apply(s, e).orphans
    ensures i in Apply(s, e).orphans && i !in s.orphans <==>
            (e.Link? || e.Abandon?)
            && Pending(s.calls[e.c]) && s.calls[e.c].heir == i && (e.Link? ==> !Live(s.rows, s.calls[e.c].id))
  {
    if (e.Link? || e.Abandon?) && Pending(s.calls[e.c]) {
      assert CallOk(s, s.calls[e.c]);
    }
  }

  /** The two ways, as a guard: this event orphans a replacement in the lineage of o. */
  predicate Disturbs(s: Tokens, e: Event, o: nat)
    requires Enabled(s, e) && |s.origin| == |s.rows|
  {
    && (e.Link? || e.Abandon?) && Pending(s.calls[e.c]) && s.calls[e.c].heir < |s.origin|
    && s.origin[s.calls[e.c].heir] == o
    && (e.Link? ==> !Live(s.rows, s.calls[e.c].id))
  }

  ghost predicate Undisturbed(s: Tokens, es: seq<Event>, o: nat)
    requires |s.origin| == |s.rows| && Legal(s, es)
    decreases |es|
  {
    es == [] || (!Disturbs(s, es[0], o) && Undisturbed(Apply(s, es[0]), es[1..], o))
  }

  /** Undisturbed: no event of the run disturbs the lineage where it occurs. */
  lemma UndisturbedIs(s: Tokens, e: Event, es: seq<Event>, o: nat)
    requires |s.origin| == |s.rows| && Legal(s, [e] + es)
    ensures Enabled(s, e) && Legal(Apply(s, e), es) && Undisturbed(s, [], o)
    ensures Undisturbed(s, [e] + es, o) <==> !Disturbs(s, e, o) && Undisturbed(Apply(s, e), es, o)
  {
    assert ([e] + es)[1..] == es;
  }

  ghost predicate NoOrphanOf(s: Tokens, o: nat)
    requires |s.origin| == |s.rows|
  {
    forall i :: i in s.orphans && i < |s.origin| ==> s.origin[i] != o
  }

  lemma OrphanStep(s: Tokens, e: Event, o: nat)
    requires Inv(s) && Enabled(s, e)
    ensures NoOrphanOf(Apply(s, e), o) <==> NoOrphanOf(s, o) && !Disturbs(s, e, o)
  {
    var t := Apply(s, e);
    assert forall i :: 0 <= i < |s.origin| ==> t.origin[i] == s.origin[i];
    forall i: nat ensures i in s.orphans ==> i in t.orphans && i < |s.rows| {
      OrphansArise(s, e, i);
    }
    forall i: nat | i in t.orphans && i !in s.orphans ensures i < |s.rows| && (s.origin[i] == o ==> Disturbs(s, e, o)) {
      OrphansArise(s, e, i);
      assert CallOk(s, s.calls[e.c]);
    }
    if Disturbs(s, e, o) {
      OrphansArise(s, e, s.calls[e.c].heir);
      assert CallOk(s, s.calls[e.c]);
    }
  }

  lemma {:induction false} OrphanlessIffUndisturbed(s: Tokens, es: seq<Event>, o: nat)
    requires Inv(s) && Legal(s, es)
    ensures NoOrphanOf(Exec(s, es), o) <==> NoOrphanOf(s, o) && Undisturbed(s, es, o)
    decreases |es|
  {
    if es != [] {
      OrphanStep(s, es[0], o);
      InvStep(s, es[0]);
      OrphanlessIffUndisturbed(Apply(s, es[0]), es[1..], o);
    }
  }

  /**
   Over whole runs, however calls interleave: with no call under way, a login leads to every token of its
   lineage if and only if no rotation of it found its token revoked at its last statement and none
   stopped between its insert and that statement.
   */
  lemma OneChainIffUndisturbed(es: seq<Event>, o: nat)
    requires Legal(EMPTY, es)
    requires var t := Exec(EMPTY, es); t.calls == map[] && o < |t.rows| && t.origin[o] == o
    ensures var t := Exec(EMPTY, es);
            Undisturbed(EMPTY, es, o) <==> forall i: nat :: i < |t.rows| && t.origin[i] == o ==> LeadsTo(t.rows, o, i)
  {
    var t := Exec(EMPTY, es);
    InvExec(EMPTY, es);
    OrphanlessIffUndisturbed(EMPTY, es, o);
    OneChainIffUnforked(t, o);
    OrphansAreTheOtherHeads(t, o);
  }

  lemma OrphansAreTheOtherHeads(t: Tokens, o: nat)
    requires Inv(t) && t.calls == map[] && o < |t.rows| && t.origin[o] == o
    ensures Unforked(t, o) <==> NoOrphanOf(t, o)
  {
    assert forall i: nat :: !PendingHeir(t.calls, i);
    forall i | i in t.orphans && i < |t.origin| && t.origin[i] == o ensures IsHead(t, i) {}
  }

  /** Two live tokens of one lineage have two different heads, and not both are the login. */
  lemma LiveTokensHaveDistinctHeads(s: Tokens, i: nat, j: nat) returns (h: nat, k: nat)
    requires Reachable(s) && Live(s.rows, i) && Live(s.rows, j) && i != j
    ensures Inv(s) && h < |s.rows| && k < |s.rows| && h != k && IsHead(s, h) && IsHead(s, k)
    ensures LeadsTo(s.rows, h, i) && LeadsTo(s.rows, k, j) && s.origin[h] == s.origin[i] && s.origin[k] == s.origin[j]
  {
    ReachableInv(s);
    var m, n: nat;
    h, m := HasHead(s, i);
    k, n := HasHead(s, j);
    if h == k {
      LiveIsTail(s, h, m, n);
      LiveIsTail(s, h, n, m);
      assert false;
    }
  }

  /**
   The last statement of a rotation links the replacement exactly when the presented token is still
   unrevoked. Otherwise the replacement stays live outside every chain.
   */
  lemma LinkedIffStillUnrevoked(s: Tokens, c: nat)
    requires Inv(s) && Enabled(s, Link(c))
    ensures var id, heir := s.calls[c].id, s.calls[c].heir;
            var t := Apply(s, Link(c));
            && (Linked(t.rows, heir) <==> Live(s.rows, id))
            && (Linked(t.rows, heir) <==> Follow(t.rows, id, 1) == Some(heir))
            && Live(t.rows, heir) == Live(s.rows, heir)
            && (!Linked(t.rows, heir) ==> heir in t.orphans && t.rows == s.rows)
  {
    var id, heir := s.calls[c].id, s.calls[c].heir;
    var t := Apply(s, Link(c));
    assert CallOk(s, s.calls[c]);
    HeirReleased(s, c);
    if Live(s.rows, id) {
      assert LinkedFrom(t.rows, id, heir);
      assert Follow(t.rows, heir, 0) == Some(heir);
    } else if Follow(t.rows, id, 1) == Some(heir) {
      OneStep(t.rows, id);
    }
  }

  /* ------------------------------- losing every token ---------------------------- */

  ghost predicate NoneLive(rows: seq<Row>, user: nat) {
    forall i: nat :: Live(rows, i) ==> rows[i].user != user
  }

  /** No live token, and no rotation of this user's tokens past its checks. */
  ghost predicate Barred(s: Tokens, user: nat) {
    && NoneLive(s.rows, user)
    && forall c :: c in s.calls && s.calls[c].Checked? && s.calls[c].id < |s.rows| ==>
         s.rows[s.calls[c].id].user != user
  }

  ghost predicate NoLogin(es: seq<Event>, user: nat) {
    forall e :: e in es ==> !(e.Login? && e.user == user)
  }

  /** No statement but a login or an insert adds a row, and none makes a row live again. */
  lemma RowsOnlyDie(s: Tokens, e: Event, i: nat)
    requires Inv(s) && Enabled(s, e) && i < |s.rows|
    ensures Apply(s, e).rows[i].user == s.rows[i].user && (Live(Apply(s, e).rows, i) ==> Live(s.rows, i))
  {
  }

  lemma NoLiveRowAppears(s: Tokens, e: Event, user: nat)
    requires Inv(s) && Enabled(s, e) && Barred(s, user) && !(e.Login? && e.user == user)
    ensures NoneLive(Apply(s, e).rows, user)
  {
    var t := Apply(s, e);
    forall i: nat | Live(t.rows, i) ensures t.rows[i].user != user {
      if i < |s.rows| {
        RowsOnlyDie(s, e, i);
      } else {
        assert e.Login? || e.Issue?;
      }
    }
  }

  /** A rotation passes its checks only on a live token, and keeps the token it passed them on. */
  lemma CheckedLater(s: Tokens, e: Event, c: nat)
    requires Inv(s) && Enabled(s, e) && c in Apply(s, e).calls && Apply(s, e).calls[c].Checked?
    ensures (c in s.calls && s.calls[c] == Apply(s, e).calls[c]) || Live(s.rows, Apply(s, e).calls[c].id)
    ensures Apply(s, e).calls[c].id < |s.rows|
  {
    if c in s.calls {
      assert CallOk(s, s.calls[c]);
    }
  }

  lemma BarredStep(s: Tokens, e: Event, user: nat)
    requires Inv(s) && Enabled(s, e) && Barred(s, user) && !(e.Login? && e.user == user)
    ensures Barred(Apply(s, e), user)
  {
    var t := Apply(s, e);
    NoLiveRowAppears(s, e, user);
    forall c | c in t.calls && t.calls[c].Checked? && t.calls[c].id < |t.rows|
      ensures t.rows[t.calls[c].id].user != user
    {
      CheckedLater(s, e, c);
      RowsOnlyDie(s, e, t.calls[c].id);
    }
  }

  lemma {:induction false} BarredForGood(s: Tokens, es: seq<Event>, user: nat)
    requires Inv(s) && Legal(s, es) && Barred(s, user) && NoLogin(es, user)
    ensures Barred(Exec(s, es), user)
    decreases |es|
  {
    if es != [] {
      InvStep(s, es[0]);
      BarredStep(s, es[0], user);
      BarredForGood(Apply(s, es[0]), es[1..], user);
    }
  }

  lemma {:induction false} UnusedHash(rows: seq<Row>) returns (h: nat)
    ensures Find(rows, h).None? && forall i :: 0 <= i < |rows| ==> rows[i].hash < h
  {
    if rows == [] {
      h := 0;
    } else {
      h := UnusedHash(rows[..|rows| - 1]);
      if h <= rows[|rows| - 1].hash {
        h := rows[|rows| - 1].hash + 1;
      }
      forall i | 0 <= i < |rows| ensures rows[i].hash < h {
        if i < |rows| - 1 {
          assert rows[i] == rows[..|rows| - 1][i];
        }
      }
    }
  }

  /**
   A user stays without a live token through every continuation without a new login exactly when
   there is none now and no rotation of theirs has passed its checks.
   */
  lemma LockedOutIffBarred(s: Tokens, user: nat)
    requires Inv(s)
    ensures Barred(s, user) <==>
            forall es :: Legal(s, es) && NoLogin(es, user) ==> NoneLive(Exec(s, es).rows, user)
  {
    if Barred(s, user) {
      forall es | Legal(s, es) && NoLogin(es, user) ensures NoneLive(Exec(s, es).rows, user) {
        BarredForGood(s, es, user);
      }
    } else if !NoneLive(s.rows, user) {
      assert Legal(s, []) && NoLogin([], user) && Exec(s, []) == s;
    } else {
      var c :| c in s.calls && s.calls[c].Checked? && s.calls[c].id < |s.rows| && s.rows[s.calls[c].id].user == user;
      var h := UnusedHash(s.rows);
      var es := [Issue(c, h, 0)];
      var t := Apply(s, Issue(c, h, 0));
      assert Legal(t, []) && Exec(t, []) == t && es[1..] == [];
      assert Legal(s, es) && Exec(s, es) == t;
      assert Live(t.rows, |s.rows|) && t.rows[|s.rows|].user == user;
      assert NoLogin(es, user) && !NoneLive(Exec(s, es).rows, user);
    }
  }
}
