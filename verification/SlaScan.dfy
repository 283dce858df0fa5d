/**
 The gateway's service listing: checker runs arrive page by page, newest tick first, and
 the scan stops as soon as every listed challenge has its latest tick complete.
 */
module SlaScan {
  import opened Common
  import opened Text
  import opened CheckerBatch
  import opened ServiceState

  datatype Light = Passing | Warning | NoLight | OtherLight

  datatype Health = Stable | Degraded | OtherHealth

  datatype Row = Row(
    challenge: int,
    health: Health,
    checker: Light,
    slaStatus: Option<ServiceStatus>,
    slaPhase: Option<Phase>,
    slaTick: int,
    slaMessage: string)

  // A run as listed, with the state the game core attached to it, if any.
  datatype Listed = Listed(run: Run, attached: Option<Summary>)

  function Challenge(l: Listed): int { l.run.key.challenge }

  function Tick(l: Listed): int { l.run.key.tick }

  // ---------------------------------------------------------------- one row

  function FallbackStatus(checker: Light): ServiceStatus {
    match checker
    case Warning => Down
    case NoLight => Unknown
    case _ => Ok
  }

  function FallbackMessage(checker: Light): string {
    match checker
    case Warning => "checker warning; service state detail unavailable"
    case NoLight => "awaiting first checker run"
    case _ => "checker passing; service state detail unavailable"
  }

  function Base(row: Row): Row {
    row.(slaStatus := if row.slaStatus.None? then Some(FallbackStatus(row.checker)) else row.slaStatus,
         slaMessage := if Trim(GoSpace, row.slaMessage) == "" then FallbackMessage(row.checker) else row.slaMessage)
  }

  function Runs(listed: seq<Listed>): seq<Run> {
    if listed == [] then [] else [listed[0].run] + Runs(listed[1..])
  }

  function FirstAttached(listed: seq<Listed>): Option<Summary> {
    if listed == [] then None
    else if listed[0].attached.Some? then listed[0].attached
    else FirstAttached(listed[1..])
  }

  function SummarizeListed(listed: seq<Listed>, tick: int): Summary {
    match FirstAttached(listed)
    case Some(state) => state.(tick := tick)
    case None => Summarize(Runs(listed), tick)
  }

  // The message filter for participants is a parameter.
  function Filled(row: Row, summary: Summary, sanitize: Summary -> string): Row {
    var filled := row.(slaStatus := Some(summary.status), slaPhase := summary.phase, slaTick := summary.tick,
                       slaMessage := sanitize(summary));
    match summary.status
    case Ok => filled.(health := Stable, checker := Passing)
    case Recovering => filled.(health := Stable, checker := Passing)
    case Unknown => filled
    case _ => filled.(health := Degraded, checker := Warning)
  }

  // ---------------------------------------------------------------- the plain group-by

  function Of(listed: seq<Listed>, challenge: int): seq<Listed> {
    if listed == [] then []
    else
      var last := listed[|listed| - 1];
      Of(listed[..|listed| - 1], challenge) + if Challenge(last) == challenge then [last] else []
  }

  function Highest(listed: seq<Listed>): int
    requires listed != []
  {
    if |listed| == 1 then Tick(listed[0])
    else
      var rest := Highest(listed[1..]);
      if Tick(listed[0]) > rest then Tick(listed[0]) else rest
  }

  function InTick(listed: seq<Listed>, tick: int): seq<Listed> {
    if listed == [] then []
    else
      var last := listed[|listed| - 1];
      InTick(listed[..|listed| - 1], tick) + if Tick(last) == tick then [last] else []
  }

  // The challenge's summary over all its runs in its highest tick.
  function LatestSummary(listed: seq<Listed>, challenge: int): Option<Summary> {
    var runs := Of(listed, challenge);
    if runs == [] then None
    else Some(SummarizeListed(InTick(runs, Highest(runs)), Highest(runs)))
  }

  predicate FirstFor(rows: seq<Row>, i: nat)
    requires i < |rows|
  {
    forall j :: 0 <= j < i ==> rows[j].challenge != rows[i].challenge
  }

  // The listing a reader expects: each challenge's first row carries its latest summary.
  function ExpectedRow(rows: seq<Row>, i: nat, listed: seq<Listed>, sanitize: Summary -> string): Row
    requires i < |rows|
  {
    var latest := LatestSummary(listed, rows[i].challenge);
    if FirstFor(rows, i) && latest.Some? then Filled(Base(rows[i]), latest.value, sanitize) else Base(rows[i])
  }

  // ---------------------------------------------------------------- facts about sorted lists

  ghost predicate NewestFirst(listed: seq<Listed>) {
    forall i, j :: 0 <= i < j < |listed| ==> Tick(listed[i]) >= Tick(listed[j])
  }

  ghost predicate AllIn(listed: seq<Listed>, tick: int) {
    forall i :: 0 <= i < |listed| ==> Tick(listed[i]) == tick
  }

  lemma OfSnoc(listed: seq<Listed>, k: nat, challenge: int)
    requires k < |listed|
    ensures Of(listed[..k + 1], challenge)
         == Of(listed[..k], challenge) + if Challenge(listed[k]) == challenge then [listed[k]] else []
  {
    assert listed[..k + 1][..k] == listed[..k];
  }

  // Later entries only append entries of no higher tick.
  lemma {:induction false} OfExtends(listed: seq<Listed>, k: nat, n: nat, challenge: int) returns (more: seq<Listed>)
    requires k <= n <= |listed| && NewestFirst(listed)
    ensures Of(listed[..n], challenge) == Of(listed[..k], challenge) + more
    ensures k < |listed| ==> forall i :: 0 <= i < |more| ==> Tick(more[i]) <= Tick(listed[k])
    decreases n
  {
    if k == n {
      more := [];
    } else {
      var front := OfExtends(listed, k, n - 1, challenge);
      OfSnoc(listed, n - 1, challenge);
      more := front + if Challenge(listed[n - 1]) == challenge then [listed[n - 1]] else [];
    }
  }

  lemma {:induction false} HighestOfPrefix(head: seq<Listed>, tail: seq<Listed>, tick: int)
    requires head != [] && AllIn(head, tick) && forall i :: 0 <= i < |tail| ==> Tick(tail[i]) <= tick
    ensures Highest(head + tail) == tick
    decreases |head| + |tail|
  {
    var all := head + tail;
    assert Tick(all[0]) == tick;
    if |all| > 1 {
      if |head| > 1 {
        HighestOfPrefix(head[1..], tail, tick);
        assert all[1..] == head[1..] + tail;
      } else {
        HighestBelow(tail, tick);
        assert all[1..] == tail;
      }
    }
  }

  lemma {:induction false} HighestBelow(listed: seq<Listed>, tick: int)
    requires listed != [] && forall i :: 0 <= i < |listed| ==> Tick(listed[i]) <= tick
    ensures Highest(listed) <= tick
  {
    if |listed| > 1 {
      HighestBelow(listed[1..], tick);
    }
  }

  lemma {:induction false} InTickOfPrefix(head: seq<Listed>, tail: seq<Listed>, tick: int)
    requires AllIn(head, tick) && forall i :: 0 <= i < |tail| ==> Tick(tail[i]) < tick
    ensures InTick(head + tail, tick) == head
    decreases |head| + |tail|
  {
    var all := head + tail;
    if tail != [] {
      InTickOfPrefix(head, tail[..|tail| - 1], tick);
      assert all[..|all| - 1] == head + tail[..|tail| - 1];
    } else if head != [] {
      InTickOfPrefix(head[..|head| - 1], tail, tick);
      assert all[..|all| - 1] == head[..|head| - 1] + tail;
      assert head == head[..|head| - 1] + [head[|head| - 1]];
    }
  }

  // When a lower tick of the challenge turns up, the runs collected so far are its whole latest tick.
  lemma LatestKnown(listed: seq<Listed>, k: nat, challenge: int, tick: int)
    requires NewestFirst(listed) && k < |listed|
    requires Of(listed[..k], challenge) != [] && AllIn(Of(listed[..k], challenge), tick)
    requires Tick(listed[k]) < tick
    ensures LatestSummary(listed, challenge) == Some(SummarizeListed(Of(listed[..k], challenge), tick))
  {
    assert listed[..|listed|] == listed;
    var more := OfExtends(listed, k, |listed|, challenge);
    var head := Of(listed[..k], challenge);
    HighestOfPrefix(head, more, tick);
    InTickOfPrefix(head, more, tick);
  }

  lemma LatestAtEnd(listed: seq<Listed>, challenge: int, tick: int)
    requires Of(listed, challenge) != [] && AllIn(Of(listed, challenge), tick)
    ensures LatestSummary(listed, challenge) == Some(SummarizeListed(Of(listed, challenge), tick))
  {
    var head := Of(listed, challenge);
    assert head + [] == head;
    HighestOfPrefix(head, [], tick);
    InTickOfPrefix(head, [], tick);
  }

  lemma {:induction false} OfKeepsTicks(listed: seq<Listed>, challenge: int, bound: int)
    requires forall i :: 0 <= i < |listed| ==> Tick(listed[i]) >= bound
    ensures forall i :: 0 <= i < |Of(listed, challenge)| ==> Tick(Of(listed, challenge)[i]) >= bound
  {
    if listed != [] {
      OfKeepsTicks(listed[..|listed| - 1], challenge, bound);
    }
  }

  // ---------------------------------------------------------------- the scan

  method ApplySlaSummary(rows: seq<Row>, challenge: int, summary: Summary, sanitize: Summary -> string)
    returns (out: seq<Row>)
    ensures |out| == |rows|
    ensures forall i :: 0 <= i < |rows| ==>
              out[i] == if rows[i].challenge == challenge && FirstFor(rows, i)
                        then Filled(rows[i], summary, sanitize) else rows[i]
  {
    for i := 0 to |rows|
      invariant forall j :: 0 <= j < i ==> rows[j].challenge != challenge
    {
      if rows[i].challenge == challenge {
        return rows[i := Filled(rows[i], summary, sanitize)];
      }
    }
    return rows;
  }

  datatype Acc = Acc(tick: int, runs: seq<Listed>)

  // What holds of one challenge once the first k entries have been seen.
  ghost predicate Tracked(listed: seq<Listed>, k: nat, challenge: int, remaining: set<int>, accs: map<int, Acc>)
    requires k <= |listed|
  {
    challenge in remaining ==>
      var seen := Of(listed[..k], challenge);
      if seen == [] then challenge !in accs
      else challenge in accs && accs[challenge].runs == seen && AllIn(seen, accs[challenge].tick)
  }

  // Rows of challenges no longer remaining are final; the others still hold their fallback.
  ghost predicate RowsSettled(rows: seq<Row>, out: seq<Row>, remaining: set<int>, listed: seq<Listed>,
                              sanitize: Summary -> string)
  {
    && |out| == |rows|
    && forall i :: 0 <= i < |rows| ==>
         && out[i].challenge == rows[i].challenge
         && out[i] == if rows[i].challenge in remaining then Base(rows[i]) else ExpectedRow(rows, i, listed, sanitize)
  }

  lemma SettleChallenge(rows: seq<Row>, before: seq<Row>, out: seq<Row>, challenge: int, summary: Summary,
                        remaining: set<int>, listed: seq<Listed>, sanitize: Summary -> string)
    requires RowsSettled(rows, before, remaining, listed, sanitize) && challenge in remaining
    requires LatestSummary(listed, challenge) == Some(summary)
    requires |out| == |rows|
    requires forall i :: 0 <= i < |rows| ==>
               out[i] == if before[i].challenge == challenge && FirstFor(before, i)
                         then Filled(before[i], summary, sanitize) else before[i]
    ensures RowsSettled(rows, out, remaining - {challenge}, listed, sanitize)
  {
    forall i | 0 <= i < |rows| ensures FirstFor(before, i) <==> FirstFor(rows, i) {
      assert forall j :: 0 <= j <= i ==> before[j].challenge == rows[j].challenge;
    }
  }

  method EnrichServiceStates(rows: seq<Row>, listed: seq<Listed>, pageSize: nat, available: nat -> bool,
                             sanitize: Summary -> string)
    returns (out: seq<Row>, complete: bool)
    requires pageSize > 0 && NewestFirst(listed)
    ensures |out| == |rows|
    ensures complete ==> forall i :: 0 <= i < |rows| ==> out[i] == ExpectedRow(rows, i, listed, sanitize)
    ensures forall i :: 0 <= i < |rows| ==> out[i] == Base(rows[i]) || out[i] == ExpectedRow(rows, i, listed, sanitize)
    ensures (forall offset :: available(offset)) ==> complete
  {
    out := rows;
    var remaining: set<int> := {};
    for i := 0 to |rows|
      invariant |out| == |rows|
      invariant forall j :: 0 <= j < |rows| ==> out[j] == if j < i then Base(rows[j]) else rows[j]
      invariant forall c :: c in remaining <==> exists j :: 0 <= j < i && rows[j].challenge == c
    {
      out := out[i := Base(out[i])];
      remaining := remaining + {rows[i].challenge};
    }
    var accs: map<int, Acc> := map[];
    var offset := 0;
    while remaining != {}
      invariant offset <= |listed|
      invariant RowsSettled(rows, out, remaining, listed, sanitize)
      invariant forall c :: Tracked(listed, offset, c, remaining, accs)
      decreases |listed| - offset
    {
      if !available(offset) {
        return out, false;
      }
      var end := if offset + pageSize < |listed| then offset + pageSize else |listed|;
      if end == offset {
        break;
      }
      out, remaining, accs := ScanPage(rows, out, listed, offset, end, remaining, accs, sanitize);
      offset := end;
      if offset == |listed| {
        break;
      }
    }
    if remaining != {} {
      assert offset == |listed| && listed[..offset] == listed;
      out := ApplyRest(rows, out, listed, remaining, accs, sanitize);
    }
    complete := true;
  }

  method ScanPage(ghost rows: seq<Row>, start: seq<Row>, listed: seq<Listed>, offset: nat, end: nat,
                  left: set<int>, accumulated: map<int, Acc>, sanitize: Summary -> string)
    returns (out: seq<Row>, remaining: set<int>, accs: map<int, Acc>)
    requires offset <= end <= |listed| && NewestFirst(listed)
    requires RowsSettled(rows, start, left, listed, sanitize)
    requires forall c :: Tracked(listed, offset, c, left, accumulated)
    ensures RowsSettled(rows, out, remaining, listed, sanitize)
    ensures forall c :: Tracked(listed, end, c, remaining, accs)
  {
    out, remaining, accs := start, left, accumulated;
    for k := offset to end
      invariant RowsSettled(rows, out, remaining, listed, sanitize)
      invariant forall c :: Tracked(listed, k, c, remaining, accs)
    {
      var run := listed[k];
      var challenge := Challenge(run);
      ghost var known, open := accs, remaining;
      if challenge in remaining {
        assert Tracked(listed, k, challenge, remaining, accs);
        ghost var seen := Of(listed[..k], challenge);
        if challenge !in accs {
          accs := accs[challenge := Acc(Tick(run), [])];
        }
        if Tick(run) == accs[challenge].tick {
          accs := accs[challenge := Acc(Tick(run), accs[challenge].runs + [run])];
        } else {
          OfKeepsTicks(listed[..k], challenge, Tick(run));
          assert Tick(seen[0]) == accs[challenge].tick;
          LatestKnown(listed, k, challenge, accs[challenge].tick);
          var summary := SummarizeListed(accs[challenge].runs, accs[challenge].tick);
          ghost var before := out;
          out := ApplySlaSummary(out, challenge, summary, sanitize);
          SettleChallenge(rows, before, out, challenge, summary, remaining, listed, sanitize);
          remaining := remaining - {challenge};
        }
      }
      ghost var next := k + 1;
      forall c ensures Tracked(listed, next, c, remaining, accs) {
        assert Tracked(listed, k, c, open, known);
        OfSnoc(listed, k, c);
      }
    }
  }

  // Challenges still open at the end of the list have their whole latest tick collected, or no run at all.
  method ApplyRest(ghost rows: seq<Row>, start: seq<Row>, ghost listed: seq<Listed>, left: set<int>,
                   accs: map<int, Acc>, sanitize: Summary -> string)
    returns (out: seq<Row>)
    requires RowsSettled(rows, start, left, listed, sanitize)
    requires forall c :: Tracked(listed, |listed|, c, left, accs)
    ensures RowsSettled(rows, out, {}, listed, sanitize)
  {
    out := start;
    var remaining := left;
    assert listed[..|listed|] == listed;
    while |remaining| > 0
      invariant RowsSettled(rows, out, remaining, listed, sanitize) && remaining <= left
      decreases remaining
    {
      var challenge := AnyOf(remaining);
      assert Tracked(listed, |listed|, challenge, left, accs);
      if challenge in accs && |accs[challenge].runs| > 0 {
        LatestAtEnd(listed, challenge, accs[challenge].tick);
        var summary := SummarizeListed(accs[challenge].runs, accs[challenge].tick);
        ghost var before := out;
        out := ApplySlaSummary(out, challenge, summary, sanitize);
        SettleChallenge(rows, before, out, challenge, summary, remaining, listed, sanitize);
      }
      remaining := remaining - {challenge};
    }
  }

  // ---------------------------------------------------------------- what the listing says

  predicate IsRunOf(listed: seq<Listed>, i: int, challenge: int, tick: int) {
    0 <= i < |listed| && listed[i].run.key.challenge == challenge && listed[i].run.key.tick == tick
  }

  // The highest tick with a run of the challenge.
  ghost predicate IsLatestTick(listed: seq<Listed>, challenge: int, tick: int) {
    && (exists i :: IsRunOf(listed, i, challenge, tick))
    && forall i :: 0 <= i < |listed| && listed[i].run.key.challenge == challenge ==> listed[i].run.key.tick <= tick
  }

  // Exactly the places of the challenge's runs in the tick, in order.
  ghost predicate Places(listed: seq<Listed>, challenge: int, tick: int, places: seq<nat>) {
    && (forall k, m :: 0 <= k < m < |places| ==> places[k] < places[m])
    && (forall i :: i in places <==> IsRunOf(listed, i, challenge, tick))
  }

  // The runs that stand at those places.
  ghost predicate Drawn(listed: seq<Listed>, places: seq<nat>, runs: seq<Run>) {
    |runs| == |places| && forall k :: 0 <= k < |runs| ==> places[k] < |listed| && runs[k] == listed[places[k]].run
  }

  // The i-th entry is the tick's first run of the challenge with a state attached, and it gives the summary.
  ghost predicate AttachedSays(listed: seq<Listed>, challenge: int, tick: int, summary: Summary, i: int) {
    && IsRunOf(listed, i, challenge, tick)
    && (forall j :: 0 <= j < i && IsRunOf(listed, j, challenge, tick) ==> listed[j].attached.None?)
    && listed[i].attached.Some? && summary == listed[i].attached.value.(tick := tick)
  }

  // Without an attached state all the tick's runs of the challenge are summarised.
  ghost predicate RunsSay(listed: seq<Listed>, challenge: int, tick: int, summary: Summary, places: seq<nat>,
                          runs: seq<Run>) {
    && (forall i :: IsRunOf(listed, i, challenge, tick) ==> listed[i].attached.None?)
    && Places(listed, challenge, tick, places) && Drawn(listed, places, runs) && summary == Summarize(runs, tick)
  }

  ghost predicate TickSays(listed: seq<Listed>, challenge: int, tick: int, summary: Summary) {
    || (exists i :: AttachedSays(listed, challenge, tick, summary, i))
    || (exists places, runs :: RunsSay(listed, challenge, tick, summary, places, runs))
  }

  predicate HasRuns(listed: seq<Listed>, challenge: int) {
    exists i :: 0 <= i < |listed| && listed[i].run.key.challenge == challenge
  }

  lemma {:induction false} OfHolds(listed: seq<Listed>, challenge: int, l: Listed)
    ensures l in Of(listed, challenge) <==> l in listed && l.run.key.challenge == challenge
  {
    if listed != [] {
      OfHolds(listed[..|listed| - 1], challenge, l);
      assert listed == listed[..|listed| - 1] + [listed[|listed| - 1]];
    }
  }

  lemma {:induction false} HighestIsMax(listed: seq<Listed>)
    requires listed != []
    ensures forall l :: l in listed ==> l.run.key.tick <= Highest(listed)
    ensures exists l :: l in listed && l.run.key.tick == Highest(listed)
  {
    assert listed == [listed[0]] + listed[1..];
    if |listed| > 1 {
      HighestIsMax(listed[1..]);
      var l :| l in listed[1..] && l.run.key.tick == Highest(listed[1..]);
      assert l in listed && listed[0] in listed;
    } else {
      assert listed[0] in listed;
    }
  }

  lemma LatestTickIsHighest(listed: seq<Listed>, challenge: int)
    ensures Of(listed, challenge) == [] <==> !HasRuns(listed, challenge)
    ensures HasRuns(listed, challenge) ==> IsLatestTick(listed, challenge, Highest(Of(listed, challenge)))
  {
    var runs := Of(listed, challenge);
    if runs != [] {
      HighestIsMax(runs);
      var l :| l in runs && l.run.key.tick == Highest(runs);
      OfHolds(listed, challenge, l);
      var i :| 0 <= i < |listed| && listed[i] == l;
      assert IsRunOf(listed, i, challenge, Highest(runs));
    }
    forall i | 0 <= i < |listed| && listed[i].run.key.challenge == challenge ensures listed[i] in runs {
      OfHolds(listed, challenge, listed[i]);
    }
  }

  // The runs picked out by challenge and then by tick stand at exactly their places in the list.
  lemma {:induction false} PickedPlaces(listed: seq<Listed>, challenge: int, tick: int) returns (places: seq<nat>)
    ensures Places(listed, challenge, tick, places)
    ensures var picked := InTick(Of(listed, challenge), tick);
            && |picked| == |places|
            && forall k :: 0 <= k < |picked| ==> places[k] < |listed| && picked[k] == listed[places[k]]
  {
    places := [];
    if listed != [] {
      var front, n := listed[..|listed| - 1], |listed| - 1;
      places := PickedPlaces(front, challenge, tick);
      PlacesNext(front, listed[n], challenge, tick, places);
      PickedNext(listed, challenge, tick);
      assert front + [listed[n]] == listed;
      if IsRunOf(listed, n, challenge, tick) {
        places := places + [n];
      }
    }
  }

  lemma PlacesNext(front: seq<Listed>, last: Listed, challenge: int, tick: int, places: seq<nat>)
    requires Places(front, challenge, tick, places)
    ensures var all := front + [last];
            Places(all, challenge, tick, places + if IsRunOf(all, |front|, challenge, tick) then [|front|] else [])
  {
    var all := front + [last];
    assert forall i :: IsRunOf(front, i, challenge, tick) <==> i < |front| && IsRunOf(all, i, challenge, tick);
    assert forall k :: 0 <= k < |places| ==> places[k] in places;
  }

  lemma PickedNext(listed: seq<Listed>, challenge: int, tick: int)
    requires listed != []
    ensures var front, n := listed[..|listed| - 1], |listed| - 1;
            InTick(Of(listed, challenge), tick)
              == InTick(Of(front, challenge), tick) + if IsRunOf(listed, n, challenge, tick) then [listed[n]] else []
  {
    var front, n := listed[..|listed| - 1], |listed| - 1;
    InTickSnoc(Of(front, challenge), listed[n], tick);
    assert Of(front, challenge) + [] == Of(front, challenge);
  }

  lemma InTickSnoc(listed: seq<Listed>, last: Listed, tick: int)
    ensures InTick(listed + [last], tick) == InTick(listed, tick) + if last.run.key.tick == tick then [last] else []
  {
    assert (listed + [last])[..|listed|] == listed;
  }

  lemma {:induction false} RunsAt(listed: seq<Listed>)
    ensures |Runs(listed)| == |listed| && forall k :: 0 <= k < |listed| ==> Runs(listed)[k] == listed[k].run
  {
    if listed != [] {
      RunsAt(listed[1..]);
    }
  }

  lemma {:induction false} FirstAttachedAt(listed: seq<Listed>) returns (i: nat)
    ensures FirstAttached(listed).None? ==> forall j :: 0 <= j < |listed| ==> listed[j].attached.None?
    ensures FirstAttached(listed).Some? ==>
              i < |listed| && FirstAttached(listed) == listed[i].attached
              && forall j :: 0 <= j < i ==> listed[j].attached.None?
  {
    i := 0;
    if listed != [] && listed[0].attached.None? {
      var k := FirstAttachedAt(listed[1..]);
      i := k + 1;
    }
  }

  // Why a challenge has a summary, and which one: its latest tick speaks, and nothing older.
  lemma LatestReads(listed: seq<Listed>, challenge: int)
    ensures var latest := LatestSummary(listed, challenge);
            && (latest.Some? <==> HasRuns(listed, challenge))
            && (latest.Some? ==>
                  IsLatestTick(listed, challenge, latest.value.tick)
                  && TickSays(listed, challenge, latest.value.tick, latest.value))
  {
    LatestTickIsHighest(listed, challenge);
    if HasRuns(listed, challenge) {
      TickIsRead(listed, challenge, Highest(Of(listed, challenge)));
    }
  }

  lemma TickIsRead(listed: seq<Listed>, challenge: int, tick: int)
    requires exists i :: IsRunOf(listed, i, challenge, tick)
    ensures var summary := SummarizeListed(InTick(Of(listed, challenge), tick), tick);
            summary.tick == tick && TickSays(listed, challenge, tick, summary)
  {
    var picked := InTick(Of(listed, challenge), tick);
    var summary := SummarizeListed(picked, tick);
    var places := PickedPlaces(listed, challenge, tick);
    var k := FirstAttachedAt(picked);
    if FirstAttached(picked).Some? {
      NoneAttachedBefore(listed, challenge, tick, picked, places, k);
      assert places[k] in places;
      assert AttachedSays(listed, challenge, tick, summary, places[k]);
    } else {
      NoneAttachedBefore(listed, challenge, tick, picked, places, |picked|);
      RunsAt(picked);
      assert RunsSay(listed, challenge, tick, summary, places, Runs(picked));
    }
  }

  lemma NoneAttachedBefore(listed: seq<Listed>, challenge: int, tick: int, picked: seq<Listed>, places: seq<nat>,
                           k: nat)
    requires Places(listed, challenge, tick, places) && |picked| == |places| && k <= |picked|
    requires forall m :: 0 <= m < |picked| ==> places[m] < |listed| && picked[m] == listed[places[m]]
    requires forall m :: 0 <= m < k ==> picked[m].attached.None?
    ensures forall j :: IsRunOf(listed, j, challenge, tick) && (k < |picked| ==> j < places[k]) ==>
              listed[j].attached.None?
  {
    forall j | IsRunOf(listed, j, challenge, tick) && (k < |picked| ==> j < places[k])
      ensures listed[j].attached.None?
    {
      assert j in places;
      var m :| 0 <= m < |places| && places[m] == j;
      assert m < k;
    }
  }

  // A row without news: it keeps what it had, and an empty status or message is guessed from its light.
  predicate FallsBack(was: Row, row: Row) {
    && row.health == was.health && row.checker == was.checker && row.slaPhase == was.slaPhase
    && row.slaTick == was.slaTick
    && row.slaStatus == (if was.slaStatus.Some? then was.slaStatus
                         else if was.checker == Warning then Some(Down)
                         else if was.checker == NoLight then Some(Unknown)
                         else Some(Ok))
    && row.slaMessage == (if Trim(GoSpace, was.slaMessage) != "" then was.slaMessage
                          else if was.checker == Warning then "checker warning; service state detail unavailable"
                          else if was.checker == NoLight then "awaiting first checker run"
                          else "checker passing; service state detail unavailable")
  }

  // A row that carries a summary: a working service is stable and passing, a broken one degraded and warning, and an
  // unknown one keeps the lights it had.
  predicate Carries(was: Row, row: Row, summary: Summary, sanitize: Summary -> string) {
    && row.slaStatus == Some(summary.status) && row.slaPhase == summary.phase && row.slaTick == summary.tick
    && row.slaMessage == sanitize(summary)
    && (summary.status in {Ok, Recovering} ==> row.health == Stable && row.checker == Passing)
    && (summary.status in {Down, Faulty, FlagNotFound} ==> row.health == Degraded && row.checker == Warning)
    && (summary.status == Unknown ==> row.health == was.health && row.checker == was.checker)
  }

  lemma BaseFallsBack(was: Row)
    ensures Base(was).challenge == was.challenge && FallsBack(was, Base(was))
  {
  }

  lemma FilledCarries(was: Row, summary: Summary, sanitize: Summary -> string)
    ensures var row := Filled(Base(was), summary, sanitize);
            row.challenge == was.challenge && Carries(was, row, summary, sanitize)
  {
  }

  // Every row of the listing: the first row of a challenge with runs carries what its latest tick says.
  lemma ListingReads(rows: seq<Row>, i: nat, listed: seq<Listed>, sanitize: Summary -> string)
    requires i < |rows|
    ensures var row, challenge := ExpectedRow(rows, i, listed, sanitize), rows[i].challenge;
            && row.challenge == challenge
            && if HasRuns(listed, challenge) && (forall j :: 0 <= j < i ==> rows[j].challenge != challenge) then
                 exists summary: Summary ::
                   && IsLatestTick(listed, challenge, summary.tick)
                   && TickSays(listed, challenge, summary.tick, summary)
                   && Carries(rows[i], row, summary, sanitize)
               else FallsBack(rows[i], row)
  {
    LatestReads(listed, rows[i].challenge);
    BaseFallsBack(rows[i]);
    if FirstFor(rows, i) && HasRuns(listed, rows[i].challenge) {
      var summary := LatestSummary(listed, rows[i].challenge).value;
      FilledCarries(rows[i], summary, sanitize);
    }
  }
}
