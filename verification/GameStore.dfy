/**
 The in-memory game store: ticks, issued flags, accepted submissions, the attack feed, the
 match and the scoreboard. Every method runs under one lock, so each is one atomic step.
 */
module GameStore {
  import opened Common
  import opened Text
  import opened Scoring
  import M = MatchWindow
  import S = ServiceState
  import B = Scoreboard
  import R = Recompute

  datatype Challenge = Challenge(name: string, maintenance: bool, playFrom: int)

  datatype Target = Target(team: int, teamName: string, challenge: int, service: string)

  datatype TickStatus = TickRunning | TickCompleted | TickFailed

  datatype Tick = Tick(id: int, status: TickStatus)

  // An attack-feed entry; its identifier is built from the tick, the team and a digest of the submission key.
  datatype Event = Event(tick: int, team: int, digest: string, attacker: string, victim: string, service: string)

  datatype Store = Store(
    teams: map<int, string>,
    targets: seq<Target>,
    challenges: map<int, Challenge>,
    ticks: seq<Tick>,
    checks: S.Store,
    flags: map<string, IssuedFlag>,
    accepted: map<string, Submission>,
    feed: seq<Event>,
    stored: M.Match)

  datatype Verdict = NoLongerValid | Duplicate | Accepted

  function Fresh(teams: map<int, string>, targets: seq<Target>, challenges: map<int, Challenge>): Store {
    Store(teams, targets, challenges, [], S.EMPTY, map[], map[], [], M.FRESH)
  }

  // ---------------------------------------------------------------- the operations

  function CurrentTick(s: Store): int { if s.ticks == [] then 0 else s.ticks[|s.ticks| - 1].id }

  function HighestTick(ticks: seq<Tick>): int {
    if ticks == [] then 0
    else
      var before, last := HighestTick(ticks[..|ticks| - 1]), ticks[|ticks| - 1].id;
      if last > before then last else before
  }

  lemma {:induction false} HighestReads(ticks: seq<Tick>)
    ensures HighestTick(ticks) >= 0 && forall i :: 0 <= i < |ticks| ==> ticks[i].id <= HighestTick(ticks)
    ensures HighestTick(ticks) == 0 || exists i :: 0 <= i < |ticks| && ticks[i].id == HighestTick(ticks)
  {
    if ticks != [] {
      HighestReads(ticks[..|ticks| - 1]);
    }
  }

  // None: a tick is already in progress.
  function StartNextTick(s: Store): (Store, Option<Tick>) {
    if s.ticks != [] && s.ticks[|s.ticks| - 1].status == TickRunning then (s, None)
    else
      var tick := Tick(|s.ticks| + 1, TickRunning);
      (s.(ticks := s.ticks + [tick]), Some(tick))
  }

  function ReplaceTick(ticks: seq<Tick>, tick: Tick): seq<Tick> {
    if ticks == [] then []
    else if ticks[0].id == tick.id then [tick] + ticks[1..]
    else [ticks[0]] + ReplaceTick(ticks[1..], tick)
  }

  function Reaped(ticks: seq<Tick>): seq<Tick> {
    seq(|ticks|, i requires 0 <= i < |ticks| =>
      if ticks[i].status == TickRunning then ticks[i].(status := TickFailed) else ticks[i])
  }

  // The places of the running ticks among the first ones.
  function RunningIn(ticks: seq<Tick>, n: nat): set<int> {
    set i | 0 <= i < n && i < |ticks| && ticks[i].status == TickRunning
  }

  lemma RunningNext(ticks: seq<Tick>, n: nat)
    requires n < |ticks|
    ensures |RunningIn(ticks, n + 1)| == |RunningIn(ticks, n)| + if ticks[n].status == TickRunning then 1 else 0
  {
    if ticks[n].status == TickRunning {
      assert RunningIn(ticks, n + 1) == RunningIn(ticks, n) + {n};
    } else {
      assert RunningIn(ticks, n + 1) == RunningIn(ticks, n);
    }
  }

  function Issue(s: Store, f: IssuedFlag): Store { s.(flags := s.flags[f.flag := f]) }

  predicate Gated(c: Challenge, tick: int) { c.maintenance || (c.playFrom > 0 && c.playFrom > tick) }

  predicate InMaintenance(s: Store, challenge: int) {
    challenge in s.challenges && Gated(s.challenges[challenge], HighestTick(s.ticks))
  }

  predicate Playable(s: Store, target: Target) { target in s.targets && !InMaintenance(s, target.challenge) }

  function SetMaintenance(s: Store, challenge: int, on: bool): Store {
    if challenge !in s.challenges then s
    else
      var c := s.challenges[challenge];
      s.(challenges := s.challenges[challenge := c.(maintenance := on, playFrom := if on then 0 else c.playFrom)])
  }

  function SetPlayFrom(s: Store, challenge: int, tick: int): Store {
    if challenge !in s.challenges then s
    else s.(challenges := s.challenges[challenge := s.challenges[challenge].(playFrom := tick)])
  }

  function EventOf(s: Submission, digest: string -> string): Event {
    Event(s.tick, s.team, digest(SubmissionKey(s.flag, s.team)), s.attacker, s.victim, s.service)
  }

  predicate GatedAtAcceptance(s: Store, challenge: int) {
    challenge > 0 && challenge in s.challenges && Gated(s.challenges[challenge], CurrentTick(s))
  }

  predicate Acceptable(s: Store, sub: Submission) {
    var tick := CurrentTick(s);
    && s.stored.state == M.Running && s.stored.accepting
    && tick != 0 && tick <= sub.expires
    && !GatedAtAcceptance(s, sub.challenge)
  }

  function AcceptSubmission(s: Store, sub: Submission, digest: string -> string): (Store, Verdict) {
    var stamped, key := sub.(tick := CurrentTick(s)), SubmissionKey(sub.flag, sub.team);
    if !Acceptable(s, sub) then (s, NoLongerValid)
    else if key in s.accepted then (s, Duplicate)
    else (s.(accepted := s.accepted[key := stamped], feed := [EventOf(stamped, digest)] + s.feed), Accepted)
  }

  // The service is neither in maintenance nor deferred past the tick.
  predicate OpenAt(s: Store, challenge: int, tick: int) {
    challenge in s.challenges ==>
      !s.challenges[challenge].maintenance
      && (s.challenges[challenge].playFrom <= 0 || s.challenges[challenge].playFrom <= tick)
  }

  // What acceptance asks, in the store's own fields.
  predicate AcceptsNow(s: Store, challenge: int, expires: int) {
    && s.stored.state == M.Running && s.stored.accepting
    && s.ticks != [] && s.ticks[|s.ticks| - 1].id != 0 && s.ticks[|s.ticks| - 1].id <= expires
    && (challenge > 0 ==> OpenAt(s, challenge, s.ticks[|s.ticks| - 1].id))
  }

  // The verdict and what is stored, in the store's own fields.
  lemma AcceptReads(s: Store, sub: Submission, digest: string -> string)
    ensures var key, after := sub.flag + ":" + PrintInt(sub.team), AcceptSubmission(s, sub, digest);
            && (after.1 == NoLongerValid <==> !AcceptsNow(s, sub.challenge, sub.expires))
            && (after.1 == Duplicate <==> AcceptsNow(s, sub.challenge, sub.expires) && key in s.accepted)
            && (after.1 != Accepted ==> after.0 == s)
            && (after.1 == Accepted ==>
                  var stamped := sub.(tick := s.ticks[|s.ticks| - 1].id);
                  after.0 == s.(accepted := s.accepted[key := stamped],
                                feed := [Event(stamped.tick, sub.team, digest(key), sub.attacker, sub.victim,
                                               sub.service)] + s.feed))
  {
  }

  // What the scores are computed from.
  function LedgerOf(s: Store): Ledger {
    Ledger(s.teams, map c | c in s.challenges :: s.challenges[c].name, s.flags, s.accepted, s.checks.states)
  }

  // An accepted submission is exactly one new entry in the ledger.
  lemma AcceptIsOneEntry(s: Store, sub: Submission, digest: string -> string)
    requires AcceptSubmission(s, sub, digest).1 == Accepted
    ensures New(LedgerOf(s), sub)
    ensures LedgerOf(AcceptSubmission(s, sub, digest).0) == Accept(LedgerOf(s), sub.(tick := CurrentTick(s)))
  {
  }

  // ---------------------------------------------------------------- the store itself

  class MemoryGameStore {
    var teams: map<int, string>
    var targets: seq<Target>
    var challenges: map<int, Challenge>
    var ticks: seq<Tick>
    var flags: map<string, IssuedFlag>
    var accepted: map<string, Submission>
    var feed: seq<Event>
    var stored: M.Match
    var runs: seq<S.Run>
    var states: map<S.Key, S.Summary>
    var board: seq<B.Row>

    function Model(): Store
      reads this
    {
      Store(teams, targets, challenges, ticks, S.Store(runs, states), flags, accepted, feed, stored)
    }

    constructor (teams: map<int, string>, targets: seq<Target>, challenges: map<int, Challenge>)
      ensures Model() == Fresh(teams, targets, challenges) && board == []
    {
      this.teams, this.targets, this.challenges := teams, targets, challenges;
      ticks, flags, accepted, feed, stored, board := [], map[], map[], [], M.FRESH, [];
      runs, states := [], map[];
    }

    method BeginTick() returns (tick: Option<Tick>)
      modifies `ticks
      ensures (Model(), tick) == StartNextTick(old(Model()))
      ensures tick.None? <==> |old(ticks)| > 0 && old(ticks)[|old(ticks)| - 1].status == TickRunning
      ensures tick.None? ==> ticks == old(ticks)
      ensures tick.Some? ==> tick.value == Tick(|old(ticks)| + 1, TickRunning) && ticks == old(ticks) + [tick.value]
    {
      if |ticks| > 0 && ticks[|ticks| - 1].status == TickRunning {
        return None;
      }
      var next := Tick(|ticks| + 1, TickRunning);
      ticks := ticks + [next];
      tick := Some(next);
    }

    method CompleteTick(tick: Tick) returns (found: bool)
      modifies `ticks
      ensures Model() == old(Model()).(ticks := ReplaceTick(old(ticks), tick))
      ensures found <==> exists i :: 0 <= i < |old(ticks)| && old(ticks)[i].id == tick.id
      ensures |ticks| == |old(ticks)|
      ensures forall i :: 0 <= i < |ticks| ==>
                ticks[i] == if old(ticks)[i].id == tick.id && (forall j :: 0 <= j < i ==> old(ticks)[j].id != tick.id)
                            then tick else old(ticks)[i]
    {
      for index := 0 to |ticks|
        invariant ticks == old(ticks)
        invariant forall i :: 0 <= i < index ==> ticks[i].id != tick.id
      {
        if ticks[index].id == tick.id {
          ReplaceAt(ticks, index, tick);
          ticks := ticks[index := tick];
          return true;
        }
      }
      ReplaceAbsent(ticks, tick);
      found := false;
    }

    method ReapRunningTicks() returns (reaped: nat)
      modifies `ticks
      ensures Model() == old(Model()).(ticks := Reaped(old(ticks)))
      ensures reaped == |RunningIn(old(ticks), |old(ticks)|)|
      ensures |ticks| == |old(ticks)|
      ensures forall i :: 0 <= i < |ticks| ==>
                && ticks[i].id == old(ticks)[i].id
                && ticks[i].status == if old(ticks)[i].status == TickRunning then TickFailed else old(ticks)[i].status
    {
      reaped := 0;
      for index := 0 to |ticks|
        invariant |ticks| == |old(ticks)|
        invariant forall i :: 0 <= i < index ==> ticks[i] == Reaped(old(ticks))[i]
        invariant forall i :: index <= i < |ticks| ==> ticks[i] == old(ticks)[i]
        invariant reaped == |RunningIn(old(ticks), index)|
      {
        RunningNext(old(ticks), index);
        if ticks[index].status == TickRunning {
          ticks := ticks[index := ticks[index].(status := TickFailed)];
          reaped := reaped + 1;
        }
      }
    }

    method IsChallengeInMaintenance(challenge: int) returns (gated: bool)
      ensures gated <==> InMaintenance(Model(), challenge)
      ensures gated <==>
                && challenge in challenges
                && (challenges[challenge].maintenance
                    || (challenges[challenge].playFrom > 0
                        && forall i :: 0 <= i < |ticks| ==> ticks[i].id < challenges[challenge].playFrom))
    {
      if challenge !in challenges {
        return false;
      }
      var c := challenges[challenge];
      if c.maintenance {
        return true;
      }
      if c.playFrom > 0 {
        var current := 0;
        for i := 0 to |ticks|
          invariant current == HighestTick(ticks[..i])
        {
          assert ticks[..i + 1][..i] == ticks[..i];
          if ticks[i].id > current {
            current := ticks[i].id;
          }
        }
        assert ticks[..|ticks|] == ticks;
        HighestReads(ticks);
        return c.playFrom > current;
      }
      return false;
    }

    method Perform(op: M.Op) returns (failure: Option<M.Failure>)
      modifies `stored
      ensures (stored, failure) == M.Apply(old(stored), op)
    {
      failure := None;
      match op {
        case StartMatch(now) =>
          if stored.state == M.Finished {
            return Some(M.ContestOver);
          }
          if stored.state != M.Running {
            stored := M.Match(M.Running, Some(now), None, stored.scheduledStart, stored.scheduledEnd,
                              stored.configured, true);
          }
        case PauseMatch =>
          if stored.state == M.Finished {
            return Some(M.ContestOver);
          }
          if stored.state == M.NotStarted {
            return Some(M.ContestNotStarted);
          }
          stored := stored.(state := M.Paused, accepting := false);
        case ResumeMatch =>
          if stored.state == M.Finished {
            return Some(M.ContestOver);
          }
          if stored.state == M.Paused {
            stored := stored.(state := M.Running, accepting := true);
          }
        case StopMatch(now) =>
          if stored.state != M.Finished {
            stored := stored.(state := M.Finished, endedAt := Some(now), accepting := false);
          }
        case UpdateSchedule(start, end) =>
          stored := stored.(scheduledStart := start, scheduledEnd := end, configured := true);
      }
    }

    // Runs are kept newest first.
    method CollectGroup(key: S.Key) returns (group: seq<S.Run>)
      ensures group == S.Group(runs, key)
    {
      group := [];
      for i := 0 to |runs|
        invariant group + S.Group(runs[i..], key) == S.Group(runs, key)
      {
        assert runs[i..][0] == runs[i] && runs[i..][1..] == runs[i + 1..];
        if runs[i].key == key {
          group := group + [runs[i]];
        }
      }
    }

    method RecordCheckerRun(r: S.Record)
      modifies `runs, `states
      ensures S.Store(runs, states) == S.RecordMemory(S.Store(old(runs), old(states)), r)
    {
      runs := [r.run] + runs;
      var key := r.run.key;
      if key in states && r.run.status == S.Skipped && r.report == S.Blank {
        return;
      }
      if r.report.Reported? {
        states := states[key := S.FromReport(r, r.report.state)];
        return;
      }
      var group := CollectGroup(key);
      states := states[key := S.Summarize(group, key.tick)];
    }

    method IssueFlag(f: IssuedFlag)
      modifies `flags
      ensures Model() == Issue(old(Model()), f)
    {
      flags := flags[f.flag := f];
    }

    method LookupIssuedFlag(flag: string) returns (f: Option<IssuedFlag>)
      ensures f.Some? <==> flag in flags
      ensures f.Some? ==> f.value == flags[flag]
    {
      f := if flag in flags then Some(flags[flag]) else None;
    }

    // The recomputation runs under the same lock; if it hits a nil cell the entry is already stored.
    method AcceptFlagSubmission(sub: Submission, digest: string -> string, curves: Curves)
      returns (verdict: Verdict, panicked: bool, ghost ids: seq<int>, ghost order: seq<int>)
      modifies `accepted, `feed, `board
      ensures (Model(), verdict) == AcceptSubmission(old(Model()), sub, digest)
      ensures panicked <==> verdict == Accepted && !B.Known(LedgerOf(Model()), curves)
      ensures verdict == Accepted && !panicked ==>
                B.IsBoard(LedgerOf(Model()), curves, old(board), ids, order, board)
      ensures verdict != Accepted || panicked ==> board == old(board)
    {
      panicked, ids, order := false, [], [];
      verdict := FileSubmission(sub, digest);
      if verdict == Accepted {
        panicked, ids, order := Recompute(curves);
      }
    }

    method FileSubmission(sub: Submission, digest: string -> string) returns (verdict: Verdict)
      modifies `accepted, `feed
      ensures (Model(), verdict) == AcceptSubmission(old(Model()), sub, digest)
      ensures verdict == NoLongerValid <==> !AcceptsNow(old(Model()), sub.challenge, sub.expires)
    {
      if stored.state != M.Running || !stored.accepting {
        return NoLongerValid;
      }
      var current := 0;
      if |ticks| > 0 {
        current := ticks[|ticks| - 1].id;
      }
      if current == 0 || current > sub.expires {
        return NoLongerValid;
      }
      if sub.challenge > 0 && sub.challenge in challenges && Gated(challenges[sub.challenge], current) {
        return NoLongerValid;
      }
      var stamped := sub.(tick := current);
      var key := SubmissionKey(sub.flag, sub.team);
      if key in accepted {
        return Duplicate;
      }
      accepted := accepted[key := stamped];
      feed := [EventOf(stamped, digest)] + feed;
      return Accepted;
    }

    method Recompute(curves: Curves) returns (panicked: bool, ghost ids: seq<int>, ghost order: seq<int>)
      modifies `board
      ensures panicked <==> !B.Known(LedgerOf(Model()), curves)
      ensures !panicked ==> B.IsBoard(LedgerOf(Model()), curves, old(board), ids, order, board)
      ensures panicked ==> board == old(board)
    {
      var outcome;
      outcome, ids, order := R.RecomputeScoreboard(LedgerOf(Model()), curves, board);
      match outcome {
        case Panicked => panicked := true;
        case Ranked(rows) =>
          panicked := false;
          board := rows;
      }
    }
  }

  lemma {:induction false} ReplaceAt(ticks: seq<Tick>, index: nat, tick: Tick)
    requires index < |ticks| && ticks[index].id == tick.id && forall i :: 0 <= i < index ==> ticks[i].id != tick.id
    ensures ReplaceTick(ticks, tick) == ticks[index := tick]
  {
    if index > 0 {
      ReplaceAt(ticks[1..], index - 1, tick);
      assert ticks == [ticks[0]] + ticks[1..];
    }
  }

  lemma {:induction false} ReplaceAbsent(ticks: seq<Tick>, tick: Tick)
    requires forall i :: 0 <= i < |ticks| ==> ticks[i].id != tick.id
    ensures ReplaceTick(ticks, tick) == ticks
  {
    if ticks != [] {
      ReplaceAbsent(ticks[1..], tick);
      assert ticks == [ticks[0]] + ticks[1..];
    }
  }

  // Maintenance closes a service at every tick; lifting it leaves the deferral, which putting it on has cleared. A
  // deferral opens the service from its tick on. Neither touches any other service or anything else in the store.
  lemma SwitchingReads(s: Store, challenge: int, on: bool, from: int, tick: int)
    requires challenge in s.challenges
    ensures on ==> !OpenAt(SetMaintenance(s, challenge, on), challenge, tick)
    ensures OpenAt(SetMaintenance(SetMaintenance(s, challenge, true), challenge, false), challenge, tick)
    ensures !on && OpenAt(s, challenge, tick) ==> OpenAt(SetMaintenance(s, challenge, on), challenge, tick)
    ensures OpenAt(SetPlayFrom(SetMaintenance(s, challenge, false), challenge, from), challenge, tick)
        <==> from <= 0 || from <= tick
    ensures !OpenAt(s, challenge, tick) && s.challenges[challenge].maintenance ==>
              !OpenAt(SetPlayFrom(s, challenge, from), challenge, tick)
    ensures forall c :: c != challenge ==>
              && (OpenAt(SetMaintenance(s, challenge, on), c, tick) <==> OpenAt(s, c, tick))
              && (OpenAt(SetPlayFrom(s, challenge, from), c, tick) <==> OpenAt(s, c, tick))
    ensures forall t :: t == SetMaintenance(s, challenge, on) || t == SetPlayFrom(s, challenge, from) ==>
              t == s.(challenges := t.challenges) && t.challenges.Keys == s.challenges.Keys
              && t.challenges[challenge].name == s.challenges[challenge].name
  {
  }
}
