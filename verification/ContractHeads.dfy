/** The groups of the contracts report: registry rows collected by admin, in order of first appearance. */
module ContractHeads {
  import opened ForkCheck

  class AdminContracts {
    const adminDid: string
    const nodePort: string
    var contracts: seq<ContractInfo>

    constructor (adminDid: string, nodePort: string)
      ensures this.adminDid == adminDid && this.nodePort == nodePort && contracts == []
    {
      this.adminDid, this.nodePort, contracts := adminDid, nodePort, [];
    }

    function Entries(): (r: seq<(string, string)>)
      reads this
    {
      seq(|contracts|, i requires 0 <= i < |contracts| reads this => (contracts[i].kind, contracts[i].hash))
    }
  }

  /** The admins in order of first appearance. */
  function FirstAppearances(rows: seq<Contract>): seq<string> {
    if rows == [] then []
    else NextAdmins(FirstAppearances(rows[..|rows| - 1]), rows[|rows| - 1].adminDid)
  }

  function NextAdmins(admins: seq<string>, admin: string): seq<string> {
    if admin in admins then admins else admins + [admin]
  }

  predicate Unrepeated(admins: seq<string>) {
    forall i, j :: 0 <= i < j < |admins| ==> admins[i] != admins[j]
  }

  lemma {:induction false} EachAdminOnce(rows: seq<Contract>)
    ensures Unrepeated(FirstAppearances(rows))
    decreases |rows|
  {
    if rows != [] {
      EachAdminOnce(rows[..|rows| - 1]);
    }
  }

  /** The admins listed are those of the rows. */
  lemma {:induction false} AdminsOfRows(rows: seq<Contract>, a: string)
    ensures a in FirstAppearances(rows) <==> exists i :: 0 <= i < |rows| && rows[i].adminDid == a
    decreases |rows|
  {
    if rows != [] {
      var before := rows[..|rows| - 1];
      AdminsOfRows(before, a);
      assert forall i :: 0 <= i < |before| ==> rows[i] == before[i];
    }
  }

  /** The node port on an admin's first row. */
  function FirstPort(rows: seq<Contract>, admin: string): string {
    if rows == [] then ""
    else if admin in FirstAppearances(rows[..|rows| - 1]) then FirstPort(rows[..|rows| - 1], admin)
    else if rows[|rows| - 1].adminDid == admin then rows[|rows| - 1].nodePort
    else ""
  }

  /** One admin's rows, in row order. */
  function RowsOf(rows: seq<Contract>, admin: string): seq<Contract> {
    if rows == [] then []
    else RowsOf(rows[..|rows| - 1], admin) + (if rows[|rows| - 1].adminDid == admin then [rows[|rows| - 1]] else [])
  }

  /**
   The k-th row of an admin is the one before which k of their rows lie; there are no others. So the rows are
   the admin's, all of them, in the order of the registry.
   */
  lemma {:induction false} RowsOfAt(rows: seq<Contract>, admin: string, i: nat)
    requires i < |rows| && rows[i].adminDid == admin
    ensures |RowsOf(rows[..i], admin)| < |RowsOf(rows, admin)|
            && RowsOf(rows, admin)[|RowsOf(rows[..i], admin)|] == rows[i]
    decreases |rows|
  {
    var front := rows[..|rows| - 1];
    if i < |front| {
      RowsOfAt(front, admin, i);
      assert front[..i] == rows[..i];
    }
  }

  lemma OwnRowsGrow(rows: seq<Contract>, admin: string)
    requires rows != []
    ensures var front := rows[..|rows| - 1];
            |set i | 0 <= i < |rows| && rows[i].adminDid == admin|
            == |set i | 0 <= i < |front| && front[i].adminDid == admin|
               + if rows[|rows| - 1].adminDid == admin then 1 else 0
  {
    var n, front := |rows| - 1, rows[..|rows| - 1];
    var all, before := set i | 0 <= i < |rows| && rows[i].adminDid == admin,
                       set i | 0 <= i < |front| && front[i].adminDid == admin;
    assert all == before + (if rows[n].adminDid == admin then {n} else {});
    assert n !in before;
  }

  lemma {:induction false} RowsOfCount(rows: seq<Contract>, admin: string)
    ensures |RowsOf(rows, admin)| == |set i | 0 <= i < |rows| && rows[i].adminDid == admin|
    decreases |rows|
  {
    var all := set i | 0 <= i < |rows| && rows[i].adminDid == admin;
    if rows == [] {
      assert all == {};
    } else {
      RowsOfCount(rows[..|rows| - 1], admin);
      OwnRowsGrow(rows, admin);
    }
  }

  /** The port is that of the admin's first row. */
  lemma {:induction false} FirstPortIs(rows: seq<Contract>, i: nat)
    requires i < |rows| && forall j :: 0 <= j < i ==> rows[j].adminDid != rows[i].adminDid
    ensures FirstPort(rows, rows[i].adminDid) == rows[i].nodePort
    decreases |rows|
  {
    var front := rows[..|rows| - 1];
    AdminsOfRows(front, rows[i].adminDid);
    if i < |front| {
      assert front[i] == rows[i];
      FirstPortIs(front, i);
    }
  }

  /** Admins are listed in the order of their first rows. */
  lemma {:induction false} AppearsInOrder(rows: seq<Contract>, i: nat, j: nat)
    requires i < j < |rows| && rows[i].adminDid != rows[j].adminDid
    requires forall k :: 0 <= k < j ==> rows[k].adminDid != rows[j].adminDid
    ensures exists m, n :: 0 <= m < n < |FirstAppearances(rows)|
                           && FirstAppearances(rows)[m] == rows[i].adminDid
                           && FirstAppearances(rows)[n] == rows[j].adminDid
    decreases |rows|
  {
    var front, dids := rows[..|rows| - 1], FirstAppearances(rows);
    var before := FirstAppearances(front);
    AdminsOfRows(front, rows[i].adminDid);
    AdminsOfRows(front, rows[j].adminDid);
    if j < |front| {
      AppearsInOrder(front, i, j);
      var m, n :| 0 <= m < n < |before| && before[m] == rows[i].adminDid && before[n] == rows[j].adminDid;
      assert dids[m] == rows[i].adminDid && dids[n] == rows[j].adminDid;
    } else {
      assert front[i] == rows[i];
      var m :| 0 <= m < |before| && before[m] == rows[i].adminDid;
      assert dids == before + [rows[j].adminDid];
      assert dids[m] == rows[i].adminDid && dids[|before|] == rows[j].adminDid;
    }
  }

  lemma EntriesOfIs(rows: seq<Contract>, admin: string)
    ensures |EntriesOf(rows, admin)| == |RowsOf(rows, admin)|
    ensures forall k :: 0 <= k < |RowsOf(rows, admin)| ==>
              EntriesOf(rows, admin)[k] == (RowsOf(rows, admin)[k].kind, RowsOf(rows, admin)[k].hash)
  {
  }

  function EntriesOf(rows: seq<Contract>, admin: string): (r: seq<(string, string)>) {
    var mine := RowsOf(rows, admin);
    seq(|mine|, i requires 0 <= i < |mine| => (mine[i].kind, mine[i].hash))
  }

  function Regrouped(rows: seq<Contract>, admins: seq<string>): seq<Contract> {
    if admins == [] then []
    else Regrouped(rows, admins[..|admins| - 1]) + RowsOf(rows, admins[|admins| - 1])
  }

  lemma RowsOfOneMore(rows: seq<Contract>, row: Contract, admin: string)
    ensures RowsOf(rows + [row], admin) == RowsOf(rows, admin) + (if row.adminDid == admin then [row] else [])
  {
    assert (rows + [row])[..|rows|] == rows;
  }

  lemma OneMoreElement(rows: seq<Contract>, row: Contract)
    ensures multiset(rows + [row]) == multiset(rows) + multiset{row}
  {
  }

  lemma RegroupedLast(rows: seq<Contract>, front: seq<string>, last: string)
    ensures multiset(Regrouped(rows, front + [last])) == multiset(Regrouped(rows, front)) + multiset(RowsOf(rows, last))
  {
    assert (front + [last])[..|front|] == front;
  }

  /** The row, if it belongs here. */
  function OnlyIf(belongs: bool, row: Contract): multiset<Contract> {
    if belongs then multiset{row} else multiset{}
  }

  lemma OneMoreOf(rows: seq<Contract>, row: Contract, admin: string)
    ensures multiset(RowsOf(rows + [row], admin)) == multiset(RowsOf(rows, admin)) + OnlyIf(row.adminDid == admin, row)
  {
    RowsOfOneMore(rows, row, admin);
    if row.adminDid == admin {
      OneMoreElement(RowsOf(rows, admin), row);
    } else {
      assert RowsOf(rows, admin) + [] == RowsOf(rows, admin);
    }
  }

  lemma OnlyOnce(front: multiset<Contract>, last: multiset<Contract>, row: Contract, inFront: bool, inLast: bool)
    requires !(inFront && inLast)
    ensures (front + OnlyIf(inFront, row)) + (last + OnlyIf(inLast, row)) ==
              (front + last) + OnlyIf(inFront || inLast, row)
  {
  }

  lemma {:induction false} RegroupedOneMore(rows: seq<Contract>, row: Contract, admins: seq<string>)
    requires Unrepeated(admins)
    ensures multiset(Regrouped(rows + [row], admins))
            == multiset(Regrouped(rows, admins)) + OnlyIf(row.adminDid in admins, row)
    decreases |admins|
  {
    if admins != [] {
      var front, last := admins[..|admins| - 1], admins[|admins| - 1];
      RegroupedOneMore(rows, row, front);
      assert admins == front + [last];
      RegroupedLast(rows, front, last);
      RegroupedLast(rows + [row], front, last);
      OneMoreOf(rows, row, last);
      OnlyOnce(multiset(Regrouped(rows, front)), multiset(RowsOf(rows, last)), row,
               row.adminDid in front, row.adminDid == last);
    }
  }

  lemma {:induction false} NoRowsOf(rows: seq<Contract>, admin: string)
    requires admin !in FirstAppearances(rows)
    ensures RowsOf(rows, admin) == []
    decreases |rows|
  {
    if rows != [] {
      NoRowsOf(rows[..|rows| - 1], admin);
    }
  }

  lemma NewAdminLast(rows: seq<Contract>, row: Contract, admins: seq<string>)
    requires row.adminDid !in FirstAppearances(rows)
    ensures Regrouped(rows + [row], admins + [row.adminDid]) == Regrouped(rows + [row], admins) + [row]
  {
    NoRowsOf(rows, row.adminDid);
    assert (rows + [row])[..|rows|] == rows;
    assert (admins + [row.adminDid])[..|admins|] == admins;
  }

  lemma AppearancesNext(rows: seq<Contract>, row: Contract)
    ensures FirstAppearances(rows + [row]) == NextAdmins(FirstAppearances(rows), row.adminDid)
  {
    assert (rows + [row])[..|rows|] == rows;
  }

  lemma RearrangedOneMore(rows: seq<Contract>, row: Contract, admins: seq<string>, m: multiset<Contract>)
    requires admins == FirstAppearances(rows) && multiset(Regrouped(rows, admins)) == m
    ensures multiset(Regrouped(rows + [row], NextAdmins(admins, row.adminDid))) == m + multiset{row}
  {
    EachAdminOnce(rows);
    RegroupedOneMore(rows, row, admins);
    if row.adminDid !in admins {
      NewAdminLast(rows, row, admins);
      OneMoreElement(Regrouped(rows + [row], admins), row);
    }
  }

  lemma TakeNext(rows: seq<Contract>, n: nat)
    requires n < |rows|
    ensures rows[..n] + [rows[n]] == rows[..n + 1]
  {
  }

  /** The groups hold the rows, each as often. */
  predicate Rearranged(rows: seq<Contract>, admins: seq<string>) {
    multiset(Regrouped(rows, admins)) == multiset(rows)
  }

  lemma RearrangedNext(rows: seq<Contract>, row: Contract, admins: seq<string>)
    requires admins == FirstAppearances(rows) && Rearranged(rows, admins)
    ensures Rearranged(rows + [row], NextAdmins(admins, row.adminDid))
  {
    RearrangedOneMore(rows, row, admins, multiset(rows));
    OneMoreElement(rows, row);
  }

  lemma RearrangedOneFurther(rows: seq<Contract>, row: Contract)
    requires Rearranged(rows, FirstAppearances(rows))
    ensures Rearranged(rows + [row], FirstAppearances(rows + [row]))
  {
    RearrangedNext(rows, row, FirstAppearances(rows));
    AppearancesNext(rows, row);
  }

  /** Grouping only rearranges: every registry row is in exactly one group, once. */
  lemma GroupingRearranges(rows: seq<Contract>)
    ensures multiset(Regrouped(rows, FirstAppearances(rows))) == multiset(rows)
  {
    var placed: seq<Contract> := [];
    for n := 0 to |rows|
      invariant placed == rows[..n] && Rearranged(placed, FirstAppearances(placed))
    {
      RearrangedOneFurther(placed, rows[n]);
      TakeNext(rows, n);
      placed := placed + [rows[n]];
    }
    assert placed == rows;
  }

  lemma OneMoreRow(rows: seq<Contract>, row: Contract, admin: string)
    ensures EntriesOf(rows + [row], admin)
            == EntriesOf(rows, admin) + (if row.adminDid == admin then [(row.kind, row.hash)] else [])
    ensures FirstAppearances(rows + [row])
            == FirstAppearances(rows) + (if row.adminDid in FirstAppearances(rows) then [] else [row.adminDid])
    ensures FirstPort(rows + [row], admin)
            == if admin in FirstAppearances(rows) then FirstPort(rows, admin)
               else if row.adminDid == admin then row.nodePort else ""
  {
    assert (rows + [row])[..|rows|] == rows;
  }

  ghost predicate IsGroup(all: seq<Contract>, placed: seq<Contract>, a: AdminContracts, did: string)
    reads a
  {
    a.adminDid == did && a.nodePort == FirstPort(all, did) && a.Entries() == EntriesOf(placed, did)
  }

  /** One group per admin of all these rows, in order of first appearance, holding the entries of the placed ones. */
  ghost predicate Lists(all: seq<Contract>, placed: seq<Contract>, admins: seq<AdminContracts>)
    reads admins
  {
    var dids := FirstAppearances(all);
    |admins| == |dids| && forall k :: 0 <= k < |dids| ==> IsGroup(all, placed, admins[k], dids[k])
  }

  /** The groups, and the map that finds them. */
  ghost predicate Grouped(all: seq<Contract>, placed: seq<Contract>, admins: seq<AdminContracts>,
                          byAdmin: map<string, AdminContracts>)
    reads admins
  {
    var dids := FirstAppearances(all);
    && Lists(all, placed, admins) && (forall a :: a in byAdmin <==> a in dids)
    && (forall k :: 0 <= k < |dids| ==> dids[k] in byAdmin && byAdmin[dids[k]] == admins[k])
  }

  /** A row of a known admin changes neither the list of admins nor their ports. */
  lemma SameGroups(rows: seq<Contract>, r: Contract)
    requires r.adminDid in FirstAppearances(rows)
    ensures FirstAppearances(rows + [r]) == FirstAppearances(rows)
    ensures forall a :: a in FirstAppearances(rows) ==> FirstPort(rows + [r], a) == FirstPort(rows, a)
  {
    OneMoreRow(rows, r, r.adminDid);
    forall a | a in FirstAppearances(rows) ensures FirstPort(rows + [r], a) == FirstPort(rows, a) {
      OneMoreRow(rows, r, a);
    }
  }

  lemma OneMoreGroup(rows: seq<Contract>, r: Contract)
    requires r.adminDid !in FirstAppearances(rows)
    ensures FirstAppearances(rows + [r]) == FirstAppearances(rows) + [r.adminDid]
    ensures forall a :: a in FirstAppearances(rows) ==> FirstPort(rows + [r], a) == FirstPort(rows, a)
    ensures FirstPort(rows + [r], r.adminDid) == r.nodePort && EntriesOf(rows, r.adminDid) == []
  {
    NoRowsOf(rows, r.adminDid);
    OneMoreRow(rows, r, r.adminDid);
    forall a | a in FirstAppearances(rows) ensures FirstPort(rows + [r], a) == FirstPort(rows, a) {
      OneMoreRow(rows, r, a);
    }
  }

  lemma GroupKept(rows: seq<Contract>, r: Contract, a: AdminContracts, did: string)
    requires IsGroup(rows, rows, a, did) && FirstPort(rows + [r], did) == FirstPort(rows, did)
    ensures IsGroup(rows + [r], rows, a, did)
  {
  }

  lemma GroupsKept(rows: seq<Contract>, r: Contract, admins: seq<AdminContracts>, byAdmin: map<string, AdminContracts>)
    requires Grouped(rows, rows, admins, byAdmin) && r.adminDid in byAdmin
    ensures Grouped(rows + [r], rows, admins, byAdmin)
  {
    SameGroups(rows, r);
    var dids := FirstAppearances(rows);
    forall k | 0 <= k < |dids| ensures IsGroup(rows + [r], rows, admins[k], dids[k]) {
      assert dids[k] in dids;
      GroupKept(rows, r, admins[k], dids[k]);
    }
  }

  lemma GroupListed(rows: seq<Contract>, r: Contract, admins: seq<AdminContracts>, a: AdminContracts)
    requires Lists(rows, rows, admins) && r.adminDid !in FirstAppearances(rows)
    requires a.adminDid == r.adminDid && a.nodePort == r.nodePort && a.contracts == []
    ensures Lists(rows + [r], rows, admins + [a])
  {
    OneMoreGroup(rows, r);
    var dids := FirstAppearances(rows);
    forall k | 0 <= k < |dids| ensures IsGroup(rows + [r], rows, admins[k], dids[k]) {
      assert dids[k] in dids;
      GroupKept(rows, r, admins[k], dids[k]);
    }
    assert IsGroup(rows + [r], rows, a, r.adminDid);
  }

  lemma GroupAdded(rows: seq<Contract>, r: Contract, admins: seq<AdminContracts>, byAdmin: map<string, AdminContracts>,
                   a: AdminContracts)
    requires Grouped(rows, rows, admins, byAdmin) && r.adminDid !in byAdmin
    requires a.adminDid == r.adminDid && a.nodePort == r.nodePort && a.contracts == []
    ensures Grouped(rows + [r], rows, admins + [a], byAdmin[r.adminDid := a])
  {
    GroupListed(rows, r, admins, a);
    OneMoreGroup(rows, r);
  }

  method EnsureGroup(ghost rows: seq<Contract>, r: Contract, admins: seq<AdminContracts>,
                     byAdmin: map<string, AdminContracts>)
    returns (admins': seq<AdminContracts>, byAdmin': map<string, AdminContracts>)
    requires Grouped(rows, rows, admins, byAdmin)
    ensures Grouped(rows + [r], rows, admins', byAdmin') && r.adminDid in byAdmin'
    ensures forall a :: a in admins' ==> a in admins || fresh(a)
  {
    if r.adminDid in byAdmin {
      GroupsKept(rows, r, admins, byAdmin);
      return admins, byAdmin;
    }
    var a := new AdminContracts(r.adminDid, r.nodePort);
    assert Grouped(rows, rows, admins, byAdmin);
    GroupAdded(rows, r, admins, byAdmin, a);
    byAdmin' := byAdmin[r.adminDid := a];
    admins' := admins + [a];
  }

  method AppendEntry(ghost rows: seq<Contract>, r: Contract, admins: seq<AdminContracts>,
                     byAdmin: map<string, AdminContracts>)
    requires Grouped(rows + [r], rows, admins, byAdmin) && r.adminDid in byAdmin
    modifies byAdmin[r.adminDid]
    ensures Grouped(rows + [r], rows + [r], admins, byAdmin)
  {
    var a := byAdmin[r.adminDid];
    var info := new ContractInfo(r.kind, r.hash);
    ghost var before := a.Entries();
    assert before == EntriesOf(rows, r.adminDid);
    a.contracts := a.contracts + [info];
    assert a.Entries() == before + [(r.kind, r.hash)];
    ghost var dids := FirstAppearances(rows + [r]);
    forall k | 0 <= k < |dids| ensures IsGroup(rows + [r], rows + [r], admins[k], dids[k]) {
      OneMoreRow(rows, r, dids[k]);
    }
  }

  method Place(ghost rows: seq<Contract>, r: Contract, admins: seq<AdminContracts>,
               byAdmin: map<string, AdminContracts>,
               ghost own: set<AdminContracts>)
    returns (admins': seq<AdminContracts>, byAdmin': map<string, AdminContracts>, ghost own': set<AdminContracts>)
    requires Grouped(rows, rows, admins, byAdmin) && forall a :: a in admins ==> a in own
    modifies own
    ensures Grouped(rows + [r], rows + [r], admins', byAdmin') && forall a :: a in admins' ==> a in own'
    ensures own <= own' && fresh(own' - own)
  {
    admins', byAdmin' := EnsureGroup(rows, r, admins, byAdmin);
    assert byAdmin'[r.adminDid] in admins';
    own' := own + set a | a in admins';
    AppendEntry(rows, r, admins', byAdmin');
  }

  lemma NothingGrouped()
    ensures Grouped([], [], [], map[])
  {
  }

  /** The loop over all rows; the map is how the groups are found while it runs. */
  method PlaceAll(rows: seq<Contract>) returns (admins: seq<AdminContracts>, byAdmin: map<string, AdminContracts>)
    ensures Grouped(rows[..|rows|], rows[..|rows|], admins, byAdmin)
    ensures forall a :: a in admins ==> fresh(a)
  {
    admins, byAdmin := [], map[];
    ghost var own: set<AdminContracts> := {};
    NothingGrouped();
    for n := 0 to |rows|
      invariant Grouped(rows[..n], rows[..n], admins, byAdmin)
      invariant fresh(own) && forall a :: a in admins ==> a in own
    {
      admins, byAdmin, own := Place(rows[..n], rows[n], admins, byAdmin, own);
      TakeNext(rows, n);
    }
  }

  /** Admins in order of first appearance, each with its own rows in row order. */
  method GroupByAdmin(rows: seq<Contract>) returns (admins: seq<AdminContracts>)
    ensures Lists(rows, rows, admins) && forall a :: a in admins ==> fresh(a)
    ensures |admins| == |FirstAppearances(rows)|
    ensures forall k :: 0 <= k < |admins| ==>
              var did := FirstAppearances(rows)[k];
              && admins[k].adminDid == did && admins[k].nodePort == FirstPort(rows, did)
              && admins[k].Entries() == EntriesOf(rows, did)
  {
    var byAdmin;
    admins, byAdmin := PlaceAll(rows);
    assert rows[..|rows|] == rows;
    forall k | 0 <= k < |admins| ensures IsGroup(rows, rows, admins[k], FirstAppearances(rows)[k]) {}
  }
}
