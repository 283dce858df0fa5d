/**
 The scoreboard recomputation as the store performs it: loops over maps in whatever order
 they come, posting into per-team scores, then sorting and ranking the rows.
 */
module Recompute {
  import opened Common
  import opened ServiceState
  import opened Postings
  import opened Scoring
  import opened Scoreboard

  datatype TeamScore = TeamScore(name: string, own: Numbers, services: map<int, Numbers>)

  datatype Column = AttackColumn | DefenseColumn | SlaColumn

  const NOTHING := Numbers(0.0, 0.0, 0.0)

  function Get(n: Numbers, column: Column): real {
    match column
    case AttackColumn => n.attack
    case DefenseColumn => n.defense
    case SlaColumn => n.sla
  }

  function Add(n: Numbers, column: Column, amount: real): Numbers {
    match column
    case AttackColumn => n.(attack := n.attack + amount)
    case DefenseColumn => n.(defense := n.defense + amount)
    case SlaColumn => n.(sla := n.sla + amount)
  }

  type Scores = map<int, TeamScore>

  predicate HasCell(scores: Scores, team: int, challenge: int) {
    team in scores && challenge in scores[team].services
  }

  function CreditTeam(score: TeamScore, column: Column, p: Posting): TeamScore
    requires p.challenge in score.services
  {
    var cell := Add(score.services[p.challenge], column, p.amount);
    TeamScore(score.name, Add(score.own, column, p.amount), score.services[p.challenge := cell])
  }

  function Credit(scores: Scores, column: Column, p: Posting): Scores
    requires HasCell(scores, p.team, p.challenge)
  {
    scores[p.team := CreditTeam(scores[p.team], column, p)]
  }

  // ---------------------------------------------------------------- a whole book posted

  ghost function SpreadCells<K>(cells: map<int, Numbers>, team: int, column: Column, book: map<K,
                                Posting>): map<int, Numbers> {
    map c | c in cells :: Add(cells[c], column, Sum(book, OfCell(team, c)))
  }

  ghost function SpreadTeam<K>(score: TeamScore, team: int, column: Column, book: map<K, Posting>): TeamScore {
    TeamScore(score.name, Add(score.own, column, Sum(book, OfTeam(team))),
              SpreadCells(score.services, team, column, book))
  }

  // The scores with every posting of a book added to its team and its cell.
  ghost function Spread<K>(scores: Scores, column: Column, book: map<K, Posting>): Scores {
    map t | t in scores :: SpreadTeam(scores[t], t, column, book)
  }

  lemma AddTwice(n: Numbers, column: Column, a: real, b: real)
    ensures Add(Add(n, column, a), column, b) == Add(n, column, a + b) && Add(n, column, 0.0) == n
  {
  }

  lemma SpreadNothing<K>(scores: Scores, column: Column, book: map<K, Posting>)
    requires book.Keys == {}
    ensures Spread(scores, column, book) == scores
  {
    forall t | t in scores ensures SpreadTeam(scores[t], t, column, book) == scores[t] {
      assert SpreadCells(scores[t].services, t, column, book) == scores[t].services;
    }
  }

  lemma SpreadCellsCredit<K>(cells: map<int, Numbers>, column: Column, book: map<K, Posting>, k: K, p: Posting)
    requires k !in book && p.challenge in cells
    ensures SpreadCells(cells, p.team, column, book[k := p])
         == SpreadCells(cells, p.team, column, book)
              [p.challenge := Add(SpreadCells(cells, p.team, column, book)[p.challenge], column, p.amount)]
  {
    forall c | c in cells ensures Sum(book[k := p], OfCell(p.team, c))
                               == Sum(book, OfCell(p.team, c)) + if c == p.challenge then p.amount else 0.0
    {
      SumAdds(book, k, p, OfCell(p.team, c));
    }
  }

  // A posting leaves the other teams alone.
  lemma SpreadOtherTeam<K>(score: TeamScore, team: int, column: Column, book: map<K, Posting>, k: K, p: Posting)
    requires k !in book && p.team != team
    ensures SpreadTeam(score, team, column, book[k := p]) == SpreadTeam(score, team, column, book)
  {
    SumAdds(book, k, p, OfTeam(team));
    forall c | c in score.services ensures Sum(book[k := p], OfCell(team, c)) == Sum(book, OfCell(team, c)) {
      SumAdds(book, k, p, OfCell(team, c));
    }
    assert SpreadCells(score.services, team, column, book[k := p]) == SpreadCells(score.services, team, column, book);
  }

  lemma SpreadOwnTeam<K>(score: TeamScore, column: Column, book: map<K, Posting>, k: K, p: Posting)
    requires k !in book && p.challenge in score.services
    ensures SpreadTeam(score, p.team, column, book[k := p])
         == CreditTeam(SpreadTeam(score, p.team, column, book), column, p)
  {
    SumAdds(book, k, p, OfTeam(p.team));
    AddTwice(score.own, column, Sum(book, OfTeam(p.team)), p.amount);
    SpreadCellsCredit(score.services, column, book, k, p);
  }

  lemma SpreadCredit<K>(scores: Scores, column: Column, book: map<K, Posting>, k: K, p: Posting)
    requires k !in book && HasCell(scores, p.team, p.challenge)
    ensures HasCell(Spread(scores, column, book), p.team, p.challenge)
    ensures Credit(Spread(scores, column, book), column, p) == Spread(scores, column, book[k := p])
  {
    SpreadOwnTeam(scores[p.team], column, book, k, p);
    forall t | t in scores && t != p.team
      ensures SpreadTeam(scores[t], t, column, book[k := p]) == SpreadTeam(scores[t], t, column, book)
    {
      SpreadOtherTeam(scores[t], t, column, book, k, p);
    }
  }

  // The part of a book that has been posted so far.
  function Restrict<K>(book: map<K, Posting>, keys: set<K>): map<K, Posting> {
    map k | k in book && k in keys :: book[k]
  }

  lemma RestrictNext<K>(book: map<K, Posting>, done: set<K>, k: K)
    requires k in book
    ensures Restrict(book, done)[k := book[k]] == Restrict(book, done + {k})
  {
  }

  lemma CreditNext<K>(start: Scores, column: Column, book: map<K, Posting>, done: set<K>, k: K)
    requires k in book && k !in done && HasCell(start, book[k].team, book[k].challenge)
    ensures HasCell(Spread(start, column, Restrict(book, done)), book[k].team, book[k].challenge)
    ensures Credit(Spread(start, column, Restrict(book, done)), column, book[k])
         == Spread(start, column, Restrict(book, done + {k}))
  {
    SpreadCredit(start, column, Restrict(book, done), k, book[k]);
    RestrictNext(book, done, k);
  }

  lemma SpreadKeepsCells<K>(start: Scores, column: Column, book: map<K, Posting>, team: int, challenge: int)
    ensures HasCell(Spread(start, column, book), team, challenge) <==> HasCell(start, team, challenge)
  {
  }

  // ---------------------------------------------------------------- setting up

  method PreviousRanks(previous: seq<Row>) returns (ranks: map<string, int>)
    ensures forall team :: RankIn(previous, team) == if team in ranks then ranks[team] else 0
  {
    ranks := map[];
    for i := 0 to |previous|
      invariant forall team :: RankIn(previous[..i], team) == if team in ranks then ranks[team] else 0
    {
      ranks := ranks[previous[i].team := previous[i].rank];
      assert previous[..i + 1][..i] == previous[..i];
    }
    assert previous[..|previous|] == previous;
  }

  function InsertId(ids: seq<int>, id: int): (out: seq<int>)
    requires Ascending(ids) && id !in ids
    ensures forall k :: k in out <==> k in ids || k == id
    ensures Ascending(out)
    ensures |out| == |ids| + 1 && out[0] == if ids == [] || id < ids[0] then id else ids[0]
  {
    if ids == [] || id < ids[0] then [id] + ids
    else
      assert ids[0] in ids && ids == [ids[0]] + ids[1..];
      [ids[0]] + InsertId(ids[1..], id)
  }

  method SortedChallengeIds(l: Ledger) returns (ids: seq<int>)
    ensures Ascending(ids) && Lists(ids, l.services.Keys)
  {
    ids := [];
    var left := l.services.Keys;
    while |left| > 0
      invariant left <= l.services.Keys && Ascending(ids) && Lists(ids, l.services.Keys - left)
      decreases left
    {
      var id := AnyOf(left);
      ids := InsertId(ids, id);
      left := left - {id};
    }
  }

  ghost predicate Blank(scores: Scores, l: Ledger) {
    scores.Keys == l.teams.Keys && forall t :: t in scores ==> TeamBlank(scores[t], t, l)
  }

  method EmptyServices(ids: seq<int>) returns (services: map<int, Numbers>)
    ensures forall c :: c in services <==> c in ids
    ensures forall c :: c in services ==> services[c] == NOTHING
  {
    services := map[];
    for i := 0 to |ids|
      invariant forall c :: c in services <==> c in ids[..i]
      invariant forall c :: c in services ==> services[c] == NOTHING
    {
      services := services[ids[i] := NOTHING];
    }
  }

  method EmptyScores(l: Ledger, ids: seq<int>) returns (scores: Scores)
    requires Lists(ids, l.services.Keys)
    ensures Blank(scores, l)
  {
    scores := map[];
    var left := l.teams.Keys;
    while |left| > 0
      invariant left <= l.teams.Keys && Blank(scores, l.(teams := l.teams - left))
      decreases left
    {
      var team := AnyOf(left);
      var services := EmptyServices(ids);
      forall c ensures c in services.Keys <==> c in l.services.Keys {
      }
      scores := scores[team := TeamScore(l.teams[team], NOTHING, services)];
      left := left - {team};
    }
    assert l.teams - left == l.teams;
  }

  predicate InGroup(groups: map<string, set<string>>, flag: string, k: string) {
    flag in groups && k in groups[flag]
  }

  method GroupByFlag(l: Ledger) returns (groups: map<string, set<string>>)
    ensures Groups(l.accepted, groups)
  {
    groups := map[];
    var left := l.accepted.Keys;
    while |left| > 0
      invariant left <= l.accepted.Keys
      invariant forall flag, k :: InGroup(groups, flag, k) <==>
                  k in l.accepted && k !in left && l.accepted[k].flag == flag
      invariant forall flag :: flag in groups ==> |groups[flag]| > 0
      decreases left
    {
      var key := AnyOf(left);
      var flag := l.accepted[key].flag;
      ghost var before, rest := groups, left;
      groups := groups[flag := (if flag in groups then groups[flag] else {}) + {key}];
      left := left - {key};
      forall f, k ensures InGroup(groups, f, k) <==> k in l.accepted && k !in left && l.accepted[k].flag == f {
        assert InGroup(before, f, k) <==> k in l.accepted && k !in rest && l.accepted[k].flag == f;
      }
    }
  }

  // The groups are the captures of each flag.
  lemma GroupIsCaptures(l: Ledger, groups: map<string, set<string>>, flag: string)
    requires Groups(l.accepted, groups)
    ensures Captures(l, flag) == if flag in groups then groups[flag] else {}
  {
    forall k ensures k in Captures(l, flag) <==> InGroup(groups, flag, k) {
    }
  }

  // ---------------------------------------------------------------- posting

  ghost predicate Posted<K>(start: Scores, scores: Scores, column: Column, book: map<K, Posting>, done: set<K>) {
    scores == Spread(start, column, Restrict(book, done))
  }

  ghost predicate Fits<K>(start: Scores, book: map<K, Posting>, keys: set<K>) {
    forall k :: k in keys && k in book ==> HasCell(start, book[k].team, book[k].challenge)
  }

  lemma PostNext<K>(start: Scores, scores: Scores, column: Column, book: map<K, Posting>, done: set<K>, k: K,
                    p: Posting)
    requires Posted(start, scores, column, book, done) && k in book && k !in done && book[k] == p
    ensures HasCell(scores, p.team, p.challenge) <==> HasCell(start, p.team, p.challenge)
    ensures HasCell(scores, p.team, p.challenge) ==> Posted(start, Credit(scores, column, p), column, book, done + {k})
  {
    SpreadKeepsCells(start, column, Restrict(book, done), p.team, p.challenge);
    if HasCell(start, p.team, p.challenge) {
      CreditNext(start, column, book, done, k);
    }
  }

  // One team's and one cell's number go up together; a missing team or cell is a nil dereference.
  method PostOne<K>(given: Scores, column: Column, p: Posting,
                    ghost start: Scores, ghost book: map<K, Posting>, ghost done: set<K>, ghost k: K)
    returns (ok: bool, scores: Scores)
    requires Posted(start, given, column, book, done) && k in book && k !in done && book[k] == p
    ensures ok <==> HasCell(start, p.team, p.challenge)
    ensures ok ==> Posted(start, scores, column, book, done + {k})
  {
    PostNext(start, given, column, book, done, k, p);
    if !HasCell(given, p.team, p.challenge) {
      return false, given;
    }
    return true, Credit(given, column, p);
  }

  // A flag's captures are credited in any order: over exact reals the order of a sum is immaterial.
  method PostCaptures(accepted: map<string, Submission>, group: set<string>, challenge: int, value: real, given: Scores,
                      ghost start: Scores, ghost book: map<string, Posting>, ghost done: set<string>)
    returns (ok: bool, scores: Scores)
    requires forall k :: k in group ==>
               k in accepted && k in book && k !in done && book[k] == Posting(accepted[k].team, challenge, value)
    requires Posted(start, given, AttackColumn, book, done)
    ensures ok ==> Posted(start, scores, AttackColumn, book, done + group)
    ensures ok <==> Fits(start, book, group)
  {
    scores := given;
    var left := group;
    ghost var sofar := done;
    while |left| > 0
      invariant left <= group && sofar == done + (group - left)
      invariant Posted(start, scores, AttackColumn, book, sofar) && Fits(start, book, group - left)
      decreases left
    {
      var key := AnyOf(left);
      ok, scores := PostOne(scores, AttackColumn, Posting(accepted[key].team, challenge, value),
                            start, book, sofar, key);
      if !ok {
        return;
      }
      sofar := sofar + {key};
      left := left - {key};
    }
    assert sofar == done + group && group - left == group;
    ok := true;
  }

  lemma PostedNothing<K>(start: Scores, column: Column, book: map<K, Posting>)
    ensures Posted(start, start, column, book, {}) && Fits(start, book, {})
  {
    SpreadNothing(start, column, Restrict(book, {}));
  }

  lemma PostedAll<K>(start: Scores, scores: Scores, column: Column, book: map<K, Posting>, done: set<K>)
    requires Posted(start, scores, column, book, done) && book.Keys <= done
    ensures scores == Spread(start, column, book)
  {
    assert Restrict(book, done) == book;
  }

  ghost predicate Groups(accepted: map<string, Submission>, groups: map<string, set<string>>) {
    && (forall flag, k :: InGroup(groups, flag, k) <==> k in accepted && accepted[k].flag == flag)
    && (forall flag :: flag in groups ==> |groups[flag]| > 0)
  }

  // A flag's group holds its captures, at the value the book gives them.
  ghost predicate GroupPriced(l: Ledger, flag: string, group: set<string>, book: map<string, Posting>) {
    forall k :: k in group ==>
      && k in l.accepted && l.accepted[k].flag == flag && k in book
      && book[k] == Posting(l.accepted[k].team, ChallengeOf(l, flag), AttackValue(|group|))
  }

  method PostAttacks(l: Ledger, groups: map<string, set<string>>, flags: set<string>, given: Scores,
                     ghost start: Scores, ghost book: map<string, Posting>,
                     ghost before: set<string>, ghost all: set<string>)
    returns (ok: bool, scores: Scores)
    requires Posted(start, given, AttackColumn, book, before) && before !! all
    requires forall flag :: flag in flags ==>
               flag in groups && groups[flag] <= all && GroupPriced(l, flag, groups[flag], book)
    requires forall k :: k in all ==> k in l.accepted && l.accepted[k].flag in flags && k in groups[l.accepted[k].flag]
    ensures ok <==> Fits(start, book, all)
    ensures ok ==> Posted(start, scores, AttackColumn, book, before + all)
  {
    scores := given;
    ghost var sofar := before;
    var left := flags;
    while |left| > 0
      invariant left <= flags
      invariant forall k :: k in sofar <==> k in before || (k in all && l.accepted[k].flag !in left)
      invariant Posted(start, scores, AttackColumn, book, sofar)
      invariant Fits(start, book, sofar - before)
      decreases left
    {
      var flag := AnyOf(left);
      var group := groups[flag];
      assert GroupPriced(l, flag, group, book);
      ok, scores := PostCaptures(l.accepted, group, ChallengeOf(l, flag), AttackValue(|group|), scores,
                                 start, book, sofar);
      if !ok {
        return;
      }
      sofar := sofar + group;
      left := left - {flag};
    }
    ok := true;
    assert sofar == before + all;
    assert sofar - before == all;
  }

  lemma RestrictSkips<K>(book: map<K, Posting>, done: set<K>, k: K)
    requires k !in book
    ensures Restrict(book, done + {k}) == Restrict(book, done)
  {
  }

  method PostDefenses(flags: map<string, IssuedFlag>, curves: Curves, groups: map<string, set<string>>,
                      all: set<string>,
                      given: Scores, ghost start: Scores, ghost book: map<string, Posting>, ghost before: set<string>)
    returns (ok: bool, scores: Scores)
    requires Posted(start, given, DefenseColumn, book, before) && before !! all
    requires forall f :: f in all ==> f in flags
    requires forall f :: f in all ==>
               (f in book <==> flags[f].flag in groups && |groups[flags[f].flag]| > 0)
    requires forall f :: f in all && f in book ==>
               book[f] == PenaltyPosting(curves, flags[f], |groups[flags[f].flag]|)
    ensures ok <==> Fits(start, book, all)
    ensures ok ==> Posted(start, scores, DefenseColumn, book, before + all)
  {
    scores := given;
    ghost var sofar := before;
    var left := all;
    while |left| > 0
      invariant left <= all && sofar == before + (all - left)
      invariant Posted(start, scores, DefenseColumn, book, sofar) && Fits(start, book, all - left)
      decreases left
    {
      var key := AnyOf(left);
      var flag := flags[key];
      var captures := if flag.flag in groups then |groups[flag.flag]| else 0;
      if captures > 0 {
        ok, scores := PostOne(scores, DefenseColumn, PenaltyPosting(curves, flag, captures), start, book, sofar, key);
        if !ok {
          return;
        }
      } else {
        RestrictSkips(book, sofar, key);
      }
      sofar := sofar + {key};
      left := left - {key};
    }
    ok := true;
    assert sofar == before + all && all - left == all;
  }

  method PostSla(states: map<Key, Summary>, all: set<Key>, given: Scores,
                 ghost start: Scores, ghost book: map<Key, Posting>, ghost before: set<Key>)
    returns (ok: bool, scores: Scores)
    requires Posted(start, given, SlaColumn, book, before)
    requires forall key :: key in all ==>
               key in states && key in book && key !in before && book[key] == SlaPosting(key, states[key])
    ensures ok <==> Fits(start, book, all)
    ensures ok ==> Posted(start, scores, SlaColumn, book, before + all)
  {
    scores := given;
    ghost var sofar := before;
    var left := all;
    while |left| > 0
      invariant left <= all && sofar == before + (all - left)
      invariant Posted(start, scores, SlaColumn, book, sofar) && Fits(start, book, all - left)
      decreases left
    {
      var key := AnyOf(left);
      ok, scores := PostOne(scores, SlaColumn, SlaPosting(key, states[key]), start, book, sofar, key);
      if !ok {
        return;
      }
      sofar := sofar + {key};
      left := left - {key};
    }
    ok := true;
    assert sofar == before + all && all - left == all;
  }

  // ---------------------------------------------------------------- scaling the SLA column

  function Rescale(n: Numbers, scale: real -> real): Numbers { n.(sla := scale(n.sla)) }

  ghost predicate CellsRescaled(cells: map<int, Numbers>, out: map<int, Numbers>, scale: real -> real) {
    out.Keys == cells.Keys && forall c :: c in cells ==> out[c] == Rescale(cells[c], scale)
  }

  ghost predicate TeamRescaled(score: TeamScore, out: TeamScore, scale: real -> real) {
    out.name == score.name && out.own == Rescale(score.own, scale) && CellsRescaled(score.services, out.services, scale)
  }

  method ScaleCells(cells: map<int, Numbers>, scale: real -> real) returns (out: map<int, Numbers>)
    ensures CellsRescaled(cells, out, scale)
  {
    out := cells;
    var left := cells.Keys;
    while |left| > 0
      invariant left <= cells.Keys && out.Keys == cells.Keys
      invariant forall c :: c in cells ==> out[c] == if c in left then cells[c] else Rescale(cells[c], scale)
      decreases left
    {
      var c := AnyOf(left);
      out := out[c := Rescale(out[c], scale)];
      left := left - {c};
    }
  }

  method ScaleSla(scores: Scores, scale: real -> real) returns (out: Scores)
    ensures out.Keys == scores.Keys && forall t :: t in scores ==> TeamRescaled(scores[t], out[t], scale)
  {
    out := scores;
    var left := scores.Keys;
    while |left| > 0
      invariant left <= scores.Keys && out.Keys == scores.Keys
      invariant forall t :: t in left ==> out[t] == scores[t]
      invariant forall t :: t in scores && t !in left ==> TeamRescaled(scores[t], out[t], scale)
      decreases left
    {
      var t := AnyOf(left);
      var score := out[t];
      var services := ScaleCells(score.services, scale);
      out := out[t := TeamScore(score.name, Rescale(score.own, scale), services)];
      left := left - {t};
    }
  }

  // ---------------------------------------------------------------- rows

  function CellRow(score: TeamScore, names: map<int, string>, id: int): ServiceRow
    requires id in names && id in score.services
  {
    var n := score.services[id];
    ServiceRow(id, names[id], n, Total(n))
  }

  predicate Unranked(row: Row, score: TeamScore, names: map<int, string>, ids: seq<int>) {
    && row.rank == 0 && row.delta == "" && row.team == score.name
    && row.numbers == score.own && row.total == Total(score.own)
    && |row.services| == |ids|
    && forall i :: 0 <= i < |ids| ==>
         ids[i] in names && ids[i] in score.services && row.services[i] == CellRow(score, names, ids[i])
  }

  method BuildRow(score: TeamScore, names: map<int, string>, ids: seq<int>) returns (row: Row)
    requires forall i :: 0 <= i < |ids| ==> ids[i] in names && ids[i] in score.services
    ensures Unranked(row, score, names, ids)
  {
    var services := [];
    for i := 0 to |ids|
      invariant |services| == i
      invariant forall j :: 0 <= j < i ==> services[j] == CellRow(score, names, ids[j])
    {
      services := services + [CellRow(score, names, ids[i])];
    }
    row := Row(0, score.name, score.own, Total(score.own), services, "");
  }

  // The rows of the teams in some order.
  ghost predicate RowsFor(rows: seq<Row>, order: seq<int>, scores: Scores, names: map<int, string>, ids: seq<int>) {
    && |rows| == |order|
    && forall i :: 0 <= i < |rows| ==> order[i] in scores && Unranked(rows[i], scores[order[i]], names, ids)
  }

  method BuildRows(scores: Scores, names: map<int, string>, ids: seq<int>) returns (rows: seq<Row>,
                   ghost order: seq<int>)
    requires forall t, i :: t in scores && 0 <= i < |ids| ==> ids[i] in names && ids[i] in scores[t].services
    ensures RowsFor(rows, order, scores, names, ids) && Distinct(order) && Lists(order, scores.Keys)
  {
    rows, order := [], [];
    var left := scores.Keys;
    while |left| > 0
      invariant left <= scores.Keys && RowsFor(rows, order, scores, names, ids)
      invariant Distinct(order) && Lists(order, scores.Keys - left)
      decreases left
    {
      var t := AnyOf(left);
      var row := BuildRow(scores[t], names, ids);
      assert t !in order;
      rows, order := rows + [row], order + [t];
      left := left - {t};
    }
  }

  method InsertRow(rows: seq<Row>, row: Row) returns (out: seq<Row>, p: nat)
    requires Sorted(rows)
    ensures p <= |rows| && out == rows[..p] + [row] + rows[p..] && Sorted(out)
  {
    p := |rows|;
    while p > 0 && Before(row, rows[p - 1])
      invariant p <= |rows| && forall i :: p <= i < |rows| ==> Before(row, rows[i])
    {
      p := p - 1;
    }
    out := rows[..p] + [row] + rows[p..];
    forall i, j | 0 <= i < j < |out| ensures !Before(out[j], out[i]) {
      if i == p {
        BeforeAsymmetric(row, rows[j - 1]);
      } else if j == p && i < p - 1 {
        NotBeforeTransitive(rows[i], rows[p - 1], row);
      }
    }
  }

  lemma InsertDistinct(order: seq<int>, p: nat, t: int)
    requires p <= |order| && Distinct(order) && t !in order
    ensures Distinct(order[..p] + [t] + order[p..])
    ensures forall k :: k in order[..p] + [t] + order[p..] <==> k in order || k == t
  {
    assert order == order[..p] + order[p..];
  }

  // Any sort by the comparison gives a sorted arrangement of the same rows; here, by insertion.
  method SortRows(rows: seq<Row>, ghost order: seq<int>, ghost scores: Scores, ghost names: map<int, string>,
                  ghost ids: seq<int>)
    returns (sorted: seq<Row>, ghost sortedOrder: seq<int>)
    requires RowsFor(rows, order, scores, names, ids) && Distinct(order)
    ensures RowsFor(sorted, sortedOrder, scores, names, ids) && Distinct(sortedOrder) && Sorted(sorted)
    ensures forall k :: k in sortedOrder <==> k in order
  {
    sorted, sortedOrder := [], [];
    for i := 0 to |rows|
      invariant RowsFor(sorted, sortedOrder, scores, names, ids) && Distinct(sortedOrder) && Sorted(sorted)
      invariant forall k :: k in sortedOrder <==> k in order[..i]
    {
      var p;
      sorted, p := InsertRow(sorted, rows[i]);
      InsertDistinct(sortedOrder, p, order[i]);
      sortedOrder := sortedOrder[..p] + [order[i]] + sortedOrder[p..];
    }
    assert order[..|rows|] == order;
  }

  method RankRows(rows: seq<Row>, previous: seq<Row>) returns (ranked: seq<Row>)
    ensures RankedFrom(ranked, rows, previous)
  {
    var ranks := PreviousRanks(previous);
    ranked := rows;
    for i := 0 to |rows|
      invariant |ranked| == |rows|
      invariant forall j :: i <= j < |rows| ==> ranked[j] == rows[j]
      invariant forall j :: 0 <= j < i ==>
                  ranked[j] == rows[j].(rank := j + 1, delta := RankDelta(RankIn(previous, rows[j].team), j + 1))
    {
      var before := if ranked[i].team in ranks then ranks[ranked[i].team] else 0;
      ranked := ranked[i := ranked[i].(rank := i + 1, delta := RankDelta(before, i + 1))];
    }
  }

  // ---------------------------------------------------------------- the whole recomputation

  datatype Outcome = Panicked | Ranked(rows: seq<Row>)

  lemma BlankCells(scores: Scores, l: Ledger, team: int, challenge: int)
    requires Blank(scores, l)
    ensures HasCell(scores, team, challenge) <==> team in l.teams && challenge in l.services
  {
  }

  lemma SpreadBlankCells<K>(scores: Scores, column: Column, book: map<K, Posting>, l: Ledger)
    requires CellsOf(scores, l)
    ensures CellsOf(Spread(scores, column, book), l)
  {
    forall t, c ensures HasCell(Spread(scores, column, book), t, c) <==> t in l.teams && c in l.services {
      SpreadKeepsCells(scores, column, book, t, c);
    }
  }

  ghost predicate CellsOf(scores: Scores, l: Ledger) {
    forall t, c :: HasCell(scores, t, c) <==> t in l.teams && c in l.services
  }

  lemma FitsIsWithin<K>(scores: Scores, book: map<K, Posting>, l: Ledger, keys: set<K>)
    requires CellsOf(scores, l) && book.Keys <= keys
    ensures Fits(scores, book, keys) <==> Within(book, l)
  {
  }

  lemma GroupsPriced(l: Ledger, groups: map<string, set<string>>)
    requires Groups(l.accepted, groups)
    ensures forall flag :: flag in groups ==>
              groups[flag] <= l.accepted.Keys && GroupPriced(l, flag, groups[flag], AttackBook(l))
    ensures forall k :: k in l.accepted ==> l.accepted[k].flag in groups && k in groups[l.accepted[k].flag]
  {
    forall flag | flag in groups
      ensures groups[flag] <= l.accepted.Keys && GroupPriced(l, flag, groups[flag], AttackBook(l))
    {
      GroupIsCaptures(l, groups, flag);
    }
    forall k | k in l.accepted ensures l.accepted[k].flag in groups && k in groups[l.accepted[k].flag] {
      assert InGroup(groups, l.accepted[k].flag, k);
    }
  }

  lemma PenaltiesPriced(l: Ledger, curves: Curves, groups: map<string, set<string>>)
    requires Groups(l.accepted, groups)
    ensures forall f :: f in l.flags ==>
              (f in DefenseBook(l, curves) <==> l.flags[f].flag in groups && |groups[l.flags[f].flag]| > 0)
    ensures forall f :: f in l.flags && f in DefenseBook(l, curves) ==>
              DefenseBook(l, curves)[f] == PenaltyPosting(curves, l.flags[f], |groups[l.flags[f].flag]|)
  {
    forall f | f in l.flags
      ensures Captures(l, l.flags[f].flag) == if l.flags[f].flag in groups then groups[l.flags[f].flag] else {}
    {
      GroupIsCaptures(l, groups, l.flags[f].flag);
    }
  }

  method PostAllAttacks(l: Ledger, groups: map<string, set<string>>, start: Scores) returns (ok: bool, scores: Scores)
    requires Groups(l.accepted, groups) && CellsOf(start, l)
    ensures ok <==> Within(AttackBook(l), l)
    ensures ok ==> scores == Spread(start, AttackColumn, AttackBook(l))
  {
    ghost var book, all := AttackBook(l), l.accepted.Keys;
    PostedNothing(start, AttackColumn, book);
    GroupsPriced(l, groups);
    ok, scores := PostAttacks(l, groups, groups.Keys, start, start, book, {}, all);
    FitsIsWithin(start, book, l, all);
    if ok {
      PostedAll(start, scores, AttackColumn, book, {} + all);
    }
  }

  method PostAllDefenses(l: Ledger, curves: Curves, groups: map<string, set<string>>, start: Scores)
    returns (ok: bool, scores: Scores)
    requires Groups(l.accepted, groups) && CellsOf(start, l)
    ensures ok <==> Within(DefenseBook(l, curves), l)
    ensures ok ==> scores == Spread(start, DefenseColumn, DefenseBook(l, curves))
  {
    ghost var book := DefenseBook(l, curves);
    PostedNothing(start, DefenseColumn, book);
    PenaltiesPriced(l, curves, groups);
    ok, scores := PostDefenses(l.flags, curves, groups, l.flags.Keys, start, start, book, {});
    FitsIsWithin(start, book, l, l.flags.Keys);
    if ok {
      PostedAll(start, scores, DefenseColumn, book, {} + l.flags.Keys);
    }
  }

  method PostAllSla(l: Ledger, start: Scores) returns (ok: bool, scores: Scores)
    requires CellsOf(start, l)
    ensures ok <==> Within(PlainSlaBook(l), l)
    ensures ok ==> scores == Spread(start, SlaColumn, PlainSlaBook(l))
  {
    ghost var book := PlainSlaBook(l);
    PostedNothing(start, SlaColumn, book);
    ok, scores := PostSla(l.states, l.states.Keys, start, start, book, {});
    FitsIsWithin(start, book, l, l.states.Keys);
    if ok {
      PostedAll(start, scores, SlaColumn, book, {} + l.states.Keys);
    }
  }

  ghost predicate TeamFinal(score: TeamScore, t: int, l: Ledger, curves: Curves)
    requires t in l.teams
  {
    && score.name == l.teams[t] && score.own == NumbersOf(l, curves, OfTeam(t))
    && score.services.Keys == l.services.Keys
    && forall c :: c in score.services ==> score.services[c] == NumbersOf(l, curves, OfCell(t, c))
  }

  // Scores holding exactly the numbers of the ledger.
  ghost predicate Final(scores: Scores, l: Ledger, curves: Curves) {
    scores.Keys == l.teams.Keys && forall t :: t in scores ==> TeamFinal(scores[t], t, l, curves)
  }

  // What three postings and the scaling leave in one place.
  ghost function AllPosted(n: Numbers, l: Ledger, curves: Curves, scope: Scope): Numbers {
    Add(Add(Add(n, AttackColumn, Sum(AttackBook(l), scope)), DefenseColumn, Sum(DefenseBook(l, curves), scope)),
        SlaColumn, Sum(PlainSlaBook(l), scope))
  }

  lemma AllPostedIsNumbers(l: Ledger, curves: Curves, scope: Scope, scale: real -> real)
    requires scale == By(SlaFactor(curves, |l.teams|))
    ensures Rescale(AllPosted(NOTHING, l, curves, scope), scale) == NumbersOf(l, curves, scope)
  {
    SlaIsScaledSum(l, curves, scope);
  }

  ghost predicate TeamSpread<K>(before: TeamScore, after: TeamScore, t: int, column: Column, book: map<K, Posting>) {
    && after.name == before.name && after.own == Add(before.own, column, Sum(book, OfTeam(t)))
    && after.services.Keys == before.services.Keys
    && forall c :: c in before.services ==>
         after.services[c] == Add(before.services[c], column, Sum(book, OfCell(t, c)))
  }

  ghost predicate IsSpread<K>(before: Scores, after: Scores, column: Column, book: map<K, Posting>) {
    after.Keys == before.Keys && forall t :: t in before ==> TeamSpread(before[t], after[t], t, column, book)
  }

  lemma SpreadIsSpread<K>(scores: Scores, column: Column, book: map<K, Posting>)
    ensures IsSpread(scores, Spread(scores, column, book), column, book)
  {
    forall t | t in scores ensures TeamSpread(scores[t], Spread(scores, column, book)[t], t, column, book) {
      assert Spread(scores, column, book)[t] == SpreadTeam(scores[t], t, column, book);
    }
  }

  ghost predicate TeamBlank(score: TeamScore, t: int, l: Ledger)
    requires t in l.teams
  {
    && score.name == l.teams[t] && score.own == NOTHING && score.services.Keys == l.services.Keys
    && forall c :: c in score.services ==> score.services[c] == NOTHING
  }

  lemma TeamIsFinal(a: TeamScore, b: TeamScore, c: TeamScore, d: TeamScore, out: TeamScore, t: int,
                    l: Ledger, curves: Curves, scale: real -> real)
    requires t in l.teams && TeamBlank(a, t, l) && scale == By(SlaFactor(curves, |l.teams|))
    requires TeamSpread(a, b, t, AttackColumn, AttackBook(l))
    requires TeamSpread(b, c, t, DefenseColumn, DefenseBook(l, curves))
    requires TeamSpread(c, d, t, SlaColumn, PlainSlaBook(l))
    requires TeamRescaled(d, out, scale)
    ensures TeamFinal(out, t, l, curves)
  {
    assert d.own == AllPosted(NOTHING, l, curves, OfTeam(t));
    AllPostedIsNumbers(l, curves, OfTeam(t), scale);
    forall c | c in out.services ensures out.services[c] == NumbersOf(l, curves, OfCell(t, c)) {
      assert d.services[c] == AllPosted(NOTHING, l, curves, OfCell(t, c));
      AllPostedIsNumbers(l, curves, OfCell(t, c), scale);
    }
  }

  lemma ScalingKeepsWithin(l: Ledger, curves: Curves)
    ensures Within(SlaBook(l, curves), l) <==> Within(PlainSlaBook(l), l)
  {
    var plain, scaled := PlainSlaBook(l), SlaBook(l, curves);
    assert forall k :: k in plain <==> k in scaled;
    assert forall k :: k in plain ==> plain[k].team == scaled[k].team && plain[k].challenge == scaled[k].challenge;
  }

  method ComputeScores(l: Ledger, curves: Curves, ids: seq<int>) returns (ok: bool, scores: Scores)
    requires Lists(ids, l.services.Keys)
    ensures ok <==> Known(l, curves)
    ensures ok ==> Final(scores, l, curves)
  {
    ScalingKeepsWithin(l, curves);
    var blank := EmptyScores(l, ids);
    var groups := GroupByFlag(l);
    BlankIsCellsOf(blank, l);
    var attacks, defenses, slas;
    ok, attacks := PostAllAttacks(l, groups, blank);
    if !ok {
      return false, attacks;
    }
    SpreadBlankCells(blank, AttackColumn, AttackBook(l), l);
    SpreadIsSpread(blank, AttackColumn, AttackBook(l));
    ok, defenses := PostAllDefenses(l, curves, groups, attacks);
    if !ok {
      return false, defenses;
    }
    SpreadBlankCells(attacks, DefenseColumn, DefenseBook(l, curves), l);
    SpreadIsSpread(attacks, DefenseColumn, DefenseBook(l, curves));
    ok, slas := PostAllSla(l, defenses);
    if !ok {
      return false, slas;
    }
    SpreadIsSpread(defenses, SlaColumn, PlainSlaBook(l));
    var scale := By(SlaFactor(curves, |l.teams|));
    scores := ScaleSla(slas, scale);
    ScoresAreFinal(blank, attacks, defenses, slas, scores, l, curves, scale);
  }

  lemma BlankIsCellsOf(scores: Scores, l: Ledger)
    requires Blank(scores, l)
    ensures CellsOf(scores, l)
  {
    forall t, c ensures HasCell(scores, t, c) <==> t in l.teams && c in l.services {
      BlankCells(scores, l, t, c);
    }
  }

  lemma ScoresAreFinal(blank: Scores, attacks: Scores, defenses: Scores, slas: Scores, scores: Scores,
                       l: Ledger, curves: Curves, scale: real -> real)
    requires Blank(blank, l) && scale == By(SlaFactor(curves, |l.teams|))
    requires IsSpread(blank, attacks, AttackColumn, AttackBook(l))
    requires IsSpread(attacks, defenses, DefenseColumn, DefenseBook(l, curves))
    requires IsSpread(defenses, slas, SlaColumn, PlainSlaBook(l))
    requires scores.Keys == slas.Keys && forall t :: t in slas ==> TeamRescaled(slas[t], scores[t], scale)
    ensures Final(scores, l, curves)
  {
    forall t | t in scores ensures TeamFinal(scores[t], t, l, curves) {
      TeamIsFinal(blank[t], attacks[t], defenses[t], slas[t], scores[t], t, l, curves, scale);
    }
  }

  lemma UnrankedShows(l: Ledger, curves: Curves, ids: seq<int>, scores: Scores, t: int, row: Row, rank: int,
                      delta: string)
    requires Lists(ids, l.services.Keys) && Final(scores, l, curves) && t in scores
    requires Unranked(row, scores[t], l.services, ids)
    ensures RowShows(l, curves, ids, t, row.(rank := rank, delta := delta))
  {
    forall i | 0 <= i < |ids| ensures ids[i] in ids && row.services[i] == ServiceRowOf(l, curves, t, ids[i]) {
      assert ids[i] in scores[t].services;
    }
  }

  ghost predicate RankedFrom(ranked: seq<Row>, sorted: seq<Row>, previous: seq<Row>) {
    && |ranked| == |sorted|
    && forall i :: 0 <= i < |sorted| ==>
         ranked[i] == sorted[i].(rank := i + 1, delta := RankDelta(RankIn(previous, sorted[i].team), i + 1))
  }

  lemma RankedIsSorted(ranked: seq<Row>, sorted: seq<Row>, previous: seq<Row>)
    requires Sorted(sorted) && RankedFrom(ranked, sorted, previous)
    ensures Sorted(ranked)
  {
    forall i, j | 0 <= i < j < |ranked| ensures !Before(ranked[j], ranked[i]) {
      assert !Before(sorted[j], sorted[i]);
    }
  }

  lemma RankedShows(l: Ledger, curves: Curves, previous: seq<Row>, ids: seq<int>, order: seq<int>, scores: Scores,
                    sorted: seq<Row>, ranked: seq<Row>, i: nat)
    requires Lists(ids, l.services.Keys) && Final(scores, l, curves) && i < |ranked|
    requires RowsFor(sorted, order, scores, l.services, ids) && RankedFrom(ranked, sorted, previous)
    ensures order[i] in l.teams && RowShows(l, curves, ids, order[i], ranked[i])
  {
    UnrankedShows(l, curves, ids, scores, order[i], sorted[i], ranked[i].rank, ranked[i].delta);
  }

  // The sorted, ranked rows of final scores are a board.
  lemma RankedIsBoard(l: Ledger, curves: Curves, previous: seq<Row>, ids: seq<int>, order: seq<int>, scores: Scores,
                      sorted: seq<Row>, ranked: seq<Row>)
    requires Ascending(ids) && Lists(ids, l.services.Keys) && Final(scores, l, curves)
    requires RowsFor(sorted, order, scores, l.services, ids) && Distinct(order) && Lists(order, l.teams.Keys)
    requires Sorted(sorted) && RankedFrom(ranked, sorted, previous)
    ensures IsBoard(l, curves, previous, ids, order, ranked)
  {
    RankedIsSorted(ranked, sorted, previous);
    forall i | 0 <= i < |ranked| ensures order[i] in order && RowShows(l, curves, ids, order[i], ranked[i]) {
      RankedShows(l, curves, previous, ids, order, scores, sorted, ranked, i);
    }
  }

  method RecomputeScoreboard(l: Ledger, curves: Curves, previous: seq<Row>)
    returns (outcome: Outcome, ghost ids: seq<int>, ghost order: seq<int>)
    ensures outcome.Ranked? <==> Known(l, curves)
    ensures outcome.Ranked? ==> IsBoard(l, curves, previous, ids, order, outcome.rows)
  {
    var sortedIds := SortedChallengeIds(l);
    ids, order := sortedIds, [];
    var ok, scores := ComputeScores(l, curves, sortedIds);
    if !ok {
      return Panicked, ids, order;
    }
    FinalHasCells(scores, l, curves, sortedIds);
    var rows, anyOrder := BuildRows(scores, l.services, sortedIds);
    var sorted;
    sorted, order := SortRows(rows, anyOrder, scores, l.services, sortedIds);
    var ranked := RankRows(sorted, previous);
    RankedIsBoard(l, curves, previous, ids, order, scores, sorted, ranked);
    outcome := Ranked(ranked);
  }

  lemma FinalHasCells(scores: Scores, l: Ledger, curves: Curves, ids: seq<int>)
    requires Final(scores, l, curves) && Lists(ids, l.services.Keys)
    ensures forall t, i :: t in scores && 0 <= i < |ids| ==> ids[i] in l.services && ids[i] in scores[t].services
  {
    forall t, i | t in scores && 0 <= i < |ids| ensures ids[i] in l.services && ids[i] in scores[t].services {
      var id := ids[i];
      assert id in ids;
      assert TeamFinal(scores[t], t, l, curves);
    }
  }
}
