/**
 The ranked scoreboard: what a board is, that there is only one, and the recomputation
 that posts every capture, penalty and service state into per-team, per-service cells.
 */
module Scoreboard {
  import opened Text
  import opened Postings
  import opened Scoring

  datatype Numbers = Numbers(attack: real, defense: real, sla: real)

  datatype ServiceRow = ServiceRow(challenge: int, service: string, numbers: Numbers, total: real)

  datatype Row = Row(
    rank: int, team: string, numbers: Numbers, total: real, services: seq<ServiceRow>, delta: string)

  function Total(n: Numbers): real { n.attack + n.defense + n.sla }

  // ---------------------------------------------------------------- ranking

  // The comparison the rows are sorted by.
  predicate Before(a: Row, b: Row) {
    if a.total != b.total then a.total > b.total
    else if a.numbers.attack != b.numbers.attack then a.numbers.attack > b.numbers.attack
    else if a.numbers.defense != b.numbers.defense then a.numbers.defense > b.numbers.defense
    else Less(a.team, b.team)
  }

  lemma BeforeAsymmetric(a: Row, b: Row)
    ensures !(Before(a, b) && Before(b, a))
    ensures a.team != b.team ==> Before(a, b) || Before(b, a)
  {
    LessTotal(a.team, b.team);
  }

  lemma NotBeforeTransitive(a: Row, b: Row, c: Row)
    requires !Before(b, a) && !Before(c, b)
    ensures !Before(c, a)
  {
    LessTotal(a.team, b.team);
    LessTotal(b.team, c.team);
    LessTotal(a.team, c.team);
    if Less(a.team, b.team) && Less(b.team, c.team) {
      LessTransitive(a.team, b.team, c.team);
    }
  }

  predicate Sorted(rows: seq<Row>) {
    forall i, j :: 0 <= i < j < |rows| ==> !Before(rows[j], rows[i])
  }

  function RankIn(rows: seq<Row>, team: string): int {
    if rows == [] then 0
    else if rows[|rows| - 1].team == team then rows[|rows| - 1].rank
    else RankIn(rows[..|rows| - 1], team)
  }

  function RankDelta(previous: int, current: int): string {
    if previous == 0 then "new"
    else if previous > current then "+" + PrintInt(previous - current)
    else if previous < current then PrintInt(previous - current)
    else "0"
  }

  // ---------------------------------------------------------------- what a board is

  predicate Ascending(ids: seq<int>) { forall i, j :: 0 <= i < j < |ids| ==> ids[i] < ids[j] }

  predicate Distinct(ids: seq<int>) { forall i, j :: 0 <= i < j < |ids| ==> ids[i] != ids[j] }

  ghost predicate Lists(ids: seq<int>, keys: set<int>) { forall k :: k in ids <==> k in keys }

  ghost function NumbersOf(l: Ledger, curves: Curves, scope: Scope): Numbers {
    Numbers(Attack(l, scope), Defense(l, curves, scope), Sla(l, curves, scope))
  }

  ghost function ServiceRowOf(l: Ledger, curves: Curves, team: int, challenge: int): ServiceRow
    requires challenge in l.services
  {
    var n := NumbersOf(l, curves, OfCell(team, challenge));
    ServiceRow(challenge, l.services[challenge], n, Total(n))
  }

  ghost predicate RowShows(l: Ledger, curves: Curves, ids: seq<int>, team: int, row: Row)
    requires team in l.teams && Lists(ids, l.services.Keys)
  {
    && row.team == l.teams[team]
    && row.numbers == NumbersOf(l, curves, OfTeam(team))
    && row.total == Total(row.numbers)
    && |row.services| == |ids|
    && forall i :: 0 <= i < |ids| ==> ids[i] in ids && row.services[i] == ServiceRowOf(l, curves, team, ids[i])
  }

  // The teams in some order, each with its own numbers, best first, ranked 1, 2, 3 and so on.
  ghost predicate IsBoard(l: Ledger, curves: Curves, previous: seq<Row>, ids: seq<int>, order: seq<int>,
                          rows: seq<Row>) {
    && Ascending(ids) && Lists(ids, l.services.Keys)
    && Distinct(order) && Lists(order, l.teams.Keys)
    && |rows| == |order|
    && (forall i :: 0 <= i < |rows| ==> order[i] in order && RowShows(l, curves, ids, order[i], rows[i]))
    && (forall i :: 0 <= i < |rows| ==>
          rows[i].rank == i + 1 && rows[i].delta == RankDelta(RankIn(previous, rows[i].team), i + 1))
    && Sorted(rows)
  }

  ghost predicate DistinctNames(l: Ledger) {
    forall a, b :: a in l.teams && b in l.teams && a != b ==> l.teams[a] != l.teams[b]
  }

  // ---------------------------------------------------------------- there is only one board

  lemma {:induction false} AscendingUnique(a: seq<int>, b: seq<int>)
    requires Ascending(a) && Ascending(b) && forall k :: k in a <==> k in b
    ensures a == b
  {
    assert a != [] ==> a[0] in a;
    assert b != [] ==> b[0] in b;
    if a != [] {
      assert a[0] in b && b[0] in a;
      assert a[0] == b[0];
      forall k ensures k in a[1..] <==> k in b[1..] {
        InTail(a, k);
        InTail(b, k);
      }
      AscendingUnique(a[1..], b[1..]);
    }
  }

  lemma InTail(s: seq<int>, k: int)
    requires s != [] && Distinct(s)
    ensures k in s[1..] <==> k in s && k != s[0]
  {
  }

  // A strict order on team ids, read off the numbers alone.
  ghost predicate Ahead(l: Ledger, curves: Curves, a: int, b: int)
    requires a in l.teams && b in l.teams
  {
    var m, n := NumbersOf(l, curves, OfTeam(a)), NumbersOf(l, curves, OfTeam(b));
    Before(Row(0, l.teams[a], m, Total(m), [], ""), Row(0, l.teams[b], n, Total(n), [], ""))
  }

  ghost predicate InOrder(l: Ledger, curves: Curves, order: seq<int>) {
    && (forall i :: 0 <= i < |order| ==> order[i] in l.teams)
    && (forall i, j :: 0 <= i < j < |order| ==> Ahead(l, curves, order[i], order[j]))
  }

  lemma BoardInOrder(l: Ledger, curves: Curves, previous: seq<Row>, ids: seq<int>, order: seq<int>, rows: seq<Row>)
    requires IsBoard(l, curves, previous, ids, order, rows) && DistinctNames(l)
    ensures InOrder(l, curves, order)
  {
    forall i, j | 0 <= i < j < |order| ensures Ahead(l, curves, order[i], order[j]) {
      BeforeAsymmetric(rows[i], rows[j]);
      assert RowShows(l, curves, ids, order[i], rows[i]) && RowShows(l, curves, ids, order[j], rows[j]);
    }
  }

  lemma {:induction false} OrderUnique(l: Ledger, curves: Curves, a: seq<int>, b: seq<int>)
    requires InOrder(l, curves, a) && InOrder(l, curves, b) && Distinct(a) && Distinct(b)
    requires forall k :: k in a <==> k in b
    ensures a == b
  {
    assert a != [] ==> a[0] in a;
    assert b != [] ==> b[0] in b;
    if a != [] {
      SameFirst(l, curves, a, b);
      forall k ensures k in a[1..] <==> k in b[1..] {
        InTail(a, k);
        InTail(b, k);
      }
      OrderUnique(l, curves, a[1..], b[1..]);
    }
  }

  lemma SameFirst(l: Ledger, curves: Curves, a: seq<int>, b: seq<int>)
    requires InOrder(l, curves, a) && InOrder(l, curves, b)
    requires a != [] && b != [] && a[0] in b && b[0] in a
    ensures a[0] == b[0]
  {
    var i :| 0 <= i < |b| && b[i] == a[0];
    var j :| 0 <= j < |a| && a[j] == b[0];
    if a[0] != b[0] {
      assert Ahead(l, curves, a[0], a[j]) && Ahead(l, curves, b[0], b[i]);
      LessTotal(l.teams[a[0]], l.teams[b[0]]);
    }
  }

  // Whatever order the maps are visited in, distinct team names leave one possible board.
  lemma BoardUnique(l: Ledger, curves: Curves, previous: seq<Row>,
                    ids: seq<int>, order: seq<int>, rows: seq<Row>,
                    ids': seq<int>, order': seq<int>, rows': seq<Row>)
    requires DistinctNames(l)
    requires IsBoard(l, curves, previous, ids, order, rows)
    requires IsBoard(l, curves, previous, ids', order', rows')
    ensures ids == ids' && order == order' && rows == rows'
  {
    AscendingUnique(ids, ids');
    BoardInOrder(l, curves, previous, ids, order, rows);
    BoardInOrder(l, curves, previous, ids', order', rows');
    OrderUnique(l, curves, order, order');
    forall i | 0 <= i < |rows| ensures rows[i] == rows'[i] {
      SameRow(l, curves, ids, order[i], rows[i], rows'[i]);
    }
  }

  lemma SameRow(l: Ledger, curves: Curves, ids: seq<int>, team: int, a: Row, b: Row)
    requires team in l.teams && Lists(ids, l.services.Keys)
    requires RowShows(l, curves, ids, team, a) && RowShows(l, curves, ids, team, b)
    requires a.rank == b.rank && a.delta == b.delta
    ensures a == b
  {
    assert a.services == b.services;
  }

  // ---------------------------------------------------------------- known teams and services

  // A posting outside the scoreboard's cells is a nil dereference in the recomputation.
  ghost predicate Within<K>(book: map<K, Posting>, l: Ledger) {
    forall k :: k in book ==> book[k].team in l.teams && book[k].challenge in l.services
  }

  ghost predicate Known(l: Ledger, curves: Curves) {
    Within(AttackBook(l), l) && Within(DefenseBook(l, curves), l) && Within(SlaBook(l, curves), l)
  }

  // ---------------------------------------------------------------- sums over rows and cells

  function CellScopes(team: int, ids: seq<int>): (scopes: seq<Scope>)
    ensures |scopes| == |ids| && forall i :: 0 <= i < |ids| ==> scopes[i] == OfCell(team, ids[i])
  {
    seq(|ids|, i requires 0 <= i < |ids| => OfCell(team, ids[i]))
  }

  function TeamScopes(order: seq<int>): (scopes: seq<Scope>)
    ensures |scopes| == |order| && forall i :: 0 <= i < |order| ==> scopes[i] == OfTeam(order[i])
  {
    seq(|order|, i requires 0 <= i < |order| => OfTeam(order[i]))
  }

  // Listed once, a posting's cell takes its whole amount.
  lemma {:induction false} SharedAmongCells(p: Posting, team: int, ids: seq<int>)
    requires Distinct(ids)
    ensures ShareEach(p, CellScopes(team, ids))
         == if p.team == team && p.challenge in ids then p.amount else 0.0
  {
    if ids != [] {
      SharedAmongCells(p, team, ids[1..]);
      InTail(ids, p.challenge);
      assert CellScopes(team, ids)[1..] == CellScopes(team, ids[1..]);
    }
  }

  lemma {:induction false} SharedAmongTeams(p: Posting, order: seq<int>)
    requires Distinct(order)
    ensures ShareEach(p, TeamScopes(order)) == if p.team in order then p.amount else 0.0
  {
    if order != [] {
      SharedAmongTeams(p, order[1..]);
      InTail(order, p.team);
      assert TeamScopes(order)[1..] == TeamScopes(order[1..]);
    }
  }

  lemma CellsMakeTeam<K>(l: Ledger, book: map<K, Posting>, team: int, ids: seq<int>)
    requires Within(book, l) && Distinct(ids) && Lists(ids, l.services.Keys)
    ensures SumEach(book, CellScopes(team, ids)) == Sum(book, OfTeam(team))
  {
    forall k | k in book ensures ShareEach(book[k], CellScopes(team, ids)) == Share(book[k], OfTeam(team)) {
      SharedAmongCells(book[k], team, ids);
    }
    SumSharedOut(book, CellScopes(team, ids), OfTeam(team));
  }

  lemma TeamsMakeAll<K>(l: Ledger, book: map<K, Posting>, order: seq<int>)
    requires Within(book, l) && Distinct(order) && Lists(order, l.teams.Keys)
    ensures SumEach(book, TeamScopes(order)) == Sum(book, Everyone)
  {
    forall k | k in book ensures ShareEach(book[k], TeamScopes(order)) == Share(book[k], Everyone) {
      SharedAmongTeams(book[k], order);
    }
    SumSharedOut(book, TeamScopes(order), Everyone);
  }

  function AddUp(values: seq<real>): real { if values == [] then 0.0 else values[0] + AddUp(values[1..]) }

  function AttackOf(services: seq<ServiceRow>): seq<real> {
    seq(|services|, i requires 0 <= i < |services| => services[i].numbers.attack)
  }

  function DefenseOf(services: seq<ServiceRow>): seq<real> {
    seq(|services|, i requires 0 <= i < |services| => services[i].numbers.defense)
  }

  function SlaOf(services: seq<ServiceRow>): seq<real> {
    seq(|services|, i requires 0 <= i < |services| => services[i].numbers.sla)
  }

  function AttackColumnOf(rows: seq<Row>): seq<real> {
    seq(|rows|, i requires 0 <= i < |rows| => rows[i].numbers.attack)
  }

  lemma {:induction false} AddUpIsSumEach<K>(book: map<K, Posting>, scopes: seq<Scope>, values: seq<real>)
    requires |values| == |scopes| && forall i :: 0 <= i < |values| ==> values[i] == Sum(book, scopes[i])
    ensures AddUp(values) == SumEach(book, scopes)
  {
    if values != [] {
      AddUpIsSumEach(book, scopes[1..], values[1..]);
    }
  }

  lemma AttackAddsUp(l: Ledger, curves: Curves, team: int, ids: seq<int>, row: Row)
    requires team in l.teams && Lists(ids, l.services.Keys) && Distinct(ids) && RowShows(l, curves, ids, team, row)
    requires Within(AttackBook(l), l)
    ensures row.numbers.attack == AddUp(AttackOf(row.services))
  {
    CellsMakeTeam(l, AttackBook(l), team, ids);
    AddUpIsSumEach(AttackBook(l), CellScopes(team, ids), AttackOf(row.services));
  }

  lemma DefenseAddsUp(l: Ledger, curves: Curves, team: int, ids: seq<int>, row: Row)
    requires team in l.teams && Lists(ids, l.services.Keys) && Distinct(ids) && RowShows(l, curves, ids, team, row)
    requires Within(DefenseBook(l, curves), l)
    ensures row.numbers.defense == AddUp(DefenseOf(row.services))
  {
    CellsMakeTeam(l, DefenseBook(l, curves), team, ids);
    AddUpIsSumEach(DefenseBook(l, curves), CellScopes(team, ids), DefenseOf(row.services));
  }

  lemma SlaAddsUp(l: Ledger, curves: Curves, team: int, ids: seq<int>, row: Row)
    requires team in l.teams && Lists(ids, l.services.Keys) && Distinct(ids) && RowShows(l, curves, ids, team, row)
    requires Within(SlaBook(l, curves), l)
    ensures row.numbers.sla == AddUp(SlaOf(row.services))
  {
    CellsMakeTeam(l, SlaBook(l, curves), team, ids);
    AddUpIsSumEach(SlaBook(l, curves), CellScopes(team, ids), SlaOf(row.services));
  }

  // Every row's attack, defence and SLA are the sums over its services.
  lemma RowIsSumOfServices(l: Ledger, curves: Curves, previous: seq<Row>, ids: seq<int>, order: seq<int>,
                           rows: seq<Row>, i: nat)
    requires IsBoard(l, curves, previous, ids, order, rows) && Known(l, curves) && i < |rows|
    ensures rows[i].numbers.attack == AddUp(AttackOf(rows[i].services))
    ensures rows[i].numbers.defense == AddUp(DefenseOf(rows[i].services))
    ensures rows[i].numbers.sla == AddUp(SlaOf(rows[i].services))
  {
    assert order[i] in order;
    AttackAddsUp(l, curves, order[i], ids, rows[i]);
    DefenseAddsUp(l, curves, order[i], ids, rows[i]);
    SlaAddsUp(l, curves, order[i], ids, rows[i]);
  }

  // The attack column adds up to the accepted submissions plus the distinct captured flags.
  lemma AttackColumn(l: Ledger, curves: Curves, previous: seq<Row>, ids: seq<int>, order: seq<int>, rows: seq<Row>)
    requires IsBoard(l, curves, previous, ids, order, rows) && Known(l, curves)
    ensures AddUp(AttackColumnOf(rows)) == |l.accepted| as real + |CapturedFlags(l)| as real
  {
    assert forall i :: 0 <= i < |rows| ==> RowShows(l, curves, ids, order[i], rows[i]);
    AddUpIsSumEach(AttackBook(l), TeamScopes(order), AttackColumnOf(rows));
    TeamsMakeAll(l, AttackBook(l), order);
    TotalAttack(l);
  }

  // ---------------------------------------------------------------- recomputing an unchanged board

  lemma {:induction false} RankInFinds(rows: seq<Row>, i: nat)
    requires i < |rows| && forall j :: i < j < |rows| ==> rows[j].team != rows[i].team
    ensures RankIn(rows, rows[i].team) == rows[i].rank
  {
    if i < |rows| - 1 {
      RankInFinds(rows[..|rows| - 1], i);
    }
  }

  // Recomputing over unchanged records gives the same rows, with every movement "0".
  lemma RecomputeAgain(l: Ledger, curves: Curves, previous: seq<Row>, ids: seq<int>, order: seq<int>, rows: seq<Row>,
                       ids': seq<int>, order': seq<int>, rows': seq<Row>)
    requires DistinctNames(l)
    requires IsBoard(l, curves, previous, ids, order, rows)
    requires IsBoard(l, curves, rows, ids', order', rows')
    ensures |rows'| == |rows| && forall i :: 0 <= i < |rows| ==> rows'[i] == rows[i].(delta := "0")
  {
    AscendingUnique(ids, ids');
    BoardInOrder(l, curves, previous, ids, order, rows);
    BoardInOrder(l, curves, rows, ids', order', rows');
    OrderUnique(l, curves, order, order');
    forall i | 0 <= i < |rows| ensures rows'[i] == rows[i].(delta := "0") {
      NamedOnce(l, curves, previous, ids, order, rows, i);
      RankInFinds(rows, i);
      assert RowShows(l, curves, ids, order[i], rows[i]) && RowShows(l, curves, ids, order[i], rows'[i]);
      SameRow(l, curves, ids, order[i], rows[i].(delta := "0"), rows'[i]);
    }
  }

  lemma NamedOnce(l: Ledger, curves: Curves, previous: seq<Row>, ids: seq<int>, order: seq<int>, rows: seq<Row>, i: nat)
    requires DistinctNames(l) && IsBoard(l, curves, previous, ids, order, rows) && i < |rows|
    ensures forall j :: i < j < |rows| ==> rows[j].team != rows[i].team
  {
    forall j | i < j < |rows| ensures rows[j].team != rows[i].team {
      assert RowShows(l, curves, ids, order[i], rows[i]) && RowShows(l, curves, ids, order[j], rows[j]);
    }
  }

  // ---------------------------------------------------------------- how a board reads

  // Higher totals come first, then higher attack, then higher defence, then earlier names.
  lemma BoardReads(l: Ledger, curves: Curves, previous: seq<Row>, ids: seq<int>, order: seq<int>, rows: seq<Row>,
                   i: nat, j: nat)
    requires IsBoard(l, curves, previous, ids, order, rows) && i < j < |rows|
    ensures rows[i].total >= rows[j].total
    ensures rows[i].total == rows[j].total ==> rows[i].numbers.attack >= rows[j].numbers.attack
    ensures rows[i].total == rows[j].total && rows[i].numbers.attack == rows[j].numbers.attack ==>
              rows[i].numbers.defense >= rows[j].numbers.defense
    ensures rows[i].total == rows[j].total && rows[i].numbers.attack == rows[j].numbers.attack
            && rows[i].numbers.defense == rows[j].numbers.defense ==>
              rows[i].team == rows[j].team || Ascends(rows[i].team, rows[j].team)
  {
    LessTotal(rows[i].team, rows[j].team);
    if Less(rows[i].team, rows[j].team) {
      LessMeans(rows[i].team, rows[j].team);
    }
  }

  // Totals are attack plus defence plus SLA, and the services are listed by ascending id under their names.
  lemma RowReads(l: Ledger, curves: Curves, previous: seq<Row>, ids: seq<int>, order: seq<int>, rows: seq<Row>, i: nat)
    requires IsBoard(l, curves, previous, ids, order, rows) && i < |rows|
    ensures rows[i].rank == i + 1 && order[i] in l.teams && rows[i].team == l.teams[order[i]]
    ensures rows[i].total == rows[i].numbers.attack + rows[i].numbers.defense + rows[i].numbers.sla
    ensures forall k :: 0 <= k < |rows[i].services| ==>
              var cell := rows[i].services[k];
              && cell.challenge in l.services && cell.service == l.services[cell.challenge]
              && cell.total == cell.numbers.attack + cell.numbers.defense + cell.numbers.sla
    ensures forall k, m :: 0 <= k < m < |rows[i].services| ==>
              rows[i].services[k].challenge < rows[i].services[m].challenge
  {
    assert order[i] in order;
    assert RowShows(l, curves, ids, order[i], rows[i]);
  }

  lemma {:induction false} RankInMissing(rows: seq<Row>, team: string)
    requires forall k :: 0 <= k < |rows| ==> rows[k].team != team
    ensures RankIn(rows, team) == 0
  {
    if rows != [] {
      RankInMissing(rows[..|rows| - 1], team);
    }
  }

  ghost predicate LastNamed(rows: seq<Row>, team: string, k: nat)
    requires k < |rows|
  {
    rows[k].team == team && forall m :: k < m < |rows| ==> rows[m].team != team
  }

  lemma MoveText(previous: int, current: int)
    requires previous > 0
    ensures RankDelta(previous, current)
         == if previous - current > 0 then "+" + PrintInt(previous - current) else PrintInt(previous - current)
  {
    assert PrintInt(0) == "0";
  }

  // A team not on the previous board is new; any other has moved by the difference of its two ranks.
  lemma BoardMoves(l: Ledger, curves: Curves, previous: seq<Row>, ids: seq<int>, order: seq<int>,
                   rows: seq<Row>, i: nat)
    requires IsBoard(l, curves, previous, ids, order, rows) && i < |rows|
    ensures (forall k :: 0 <= k < |previous| ==> previous[k].team != rows[i].team) ==> rows[i].delta == "new"
    ensures forall k :: 0 <= k < |previous| && LastNamed(previous, rows[i].team, k) && previous[k].rank > 0 ==>
              var rise := previous[k].rank - (i + 1);
              rows[i].delta == if rise > 0 then "+" + PrintInt(rise) else PrintInt(rise)
  {
    if forall k :: 0 <= k < |previous| ==> previous[k].team != rows[i].team {
      RankInMissing(previous, rows[i].team);
    }
    forall k | 0 <= k < |previous| && LastNamed(previous, rows[i].team, k) && previous[k].rank > 0
      ensures var rise := previous[k].rank - (i + 1);
              rows[i].delta == if rise > 0 then "+" + PrintInt(rise) else PrintInt(rise)
    {
      RankInFinds(previous, k);
      MoveText(previous[k].rank, i + 1);
    }
  }

  // ---------------------------------------------------------------- what makes a recomputation fail

  // Every capture is by a listed team on a listed service, every captured flag belongs to a listed team and
  // service, and so does every service state; a capture of a flag that is not on record counts for service 0.
  lemma KnownReads(l: Ledger, curves: Curves)
    ensures Known(l, curves) <==>
            && (forall k :: k in l.accepted ==>
                  && l.accepted[k].team in l.teams
                  && (if l.accepted[k].flag in l.flags then l.flags[l.accepted[k].flag].challenge else 0) in l.services)
            && (forall f :: f in l.flags && (exists k :: k in l.accepted && l.accepted[k].flag == l.flags[f].flag) ==>
                  l.flags[f].owner in l.teams && l.flags[f].challenge in l.services)
            && (forall key :: key in l.states ==> key.team in l.teams && key.challenge in l.services)
  {
    KnownCaptures(l);
    KnownOwners(l, curves);
    KnownStates(l, curves);
  }

  lemma KnownCaptures(l: Ledger)
    ensures Within(AttackBook(l), l) <==>
            forall k :: k in l.accepted ==>
              && l.accepted[k].team in l.teams
              && (if l.accepted[k].flag in l.flags then l.flags[l.accepted[k].flag].challenge else 0) in l.services
  {
    assert AttackBook(l).Keys == l.accepted.Keys;
    assert forall k :: k in l.accepted ==> AttackBook(l)[k] == AttackPosting(l, l.accepted[k]);
  }

  lemma KnownOwners(l: Ledger, curves: Curves)
    ensures Within(DefenseBook(l, curves), l) <==>
            forall f :: f in l.flags && (exists k :: k in l.accepted && l.accepted[k].flag == l.flags[f].flag) ==>
              l.flags[f].owner in l.teams && l.flags[f].challenge in l.services
  {
    forall f | f in l.flags
      ensures f in DefenseBook(l, curves) <==> exists k :: k in l.accepted && l.accepted[k].flag == l.flags[f].flag
      ensures f in DefenseBook(l, curves) ==> DefenseBook(l, curves)[f] == DefensePosting(l, curves, l.flags[f])
    {
      var captures := Captures(l, l.flags[f].flag);
      assert (exists k :: k in l.accepted && l.accepted[k].flag == l.flags[f].flag) <==> captures != {} by {
        assert forall k :: k in captures <==> k in l.accepted && l.accepted[k].flag == l.flags[f].flag;
      }
    }
    assert forall f :: f in DefenseBook(l, curves) ==> f in l.flags;
  }

  lemma KnownStates(l: Ledger, curves: Curves)
    ensures Within(SlaBook(l, curves), l) <==>
            forall key :: key in l.states ==> key.team in l.teams && key.challenge in l.services
  {
    var book := SlaBook(l, curves);
    assert book.Keys == l.states.Keys;
    assert forall key :: key in l.states ==> book[key].team == key.team && book[key].challenge == key.challenge;
  }
}
