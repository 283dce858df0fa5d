/**
 What the interleaved game core lets through: a good flag submitted undisturbed is accepted,
 whoever submits it, and what follows for the scoreboard recomputation.
 */
module CaptureRuns {
  import opened Common
  import opened Text
  import opened Scoring
  import opened GameStore
  import opened GameRun
  import opened SubmitFlags
  import F = FlagCodec
  import M = MatchWindow
  import B = Scoreboard

  // ---------------------------------------------------------------- a good flag gets through

  // The flag was issued this tick under the prefix still in force, to another team, on an open service.
  ghost predicate Capturable(env: Env, x: System, t: Submitter, f: IssuedFlag) {
    && f.flag in x.store.flags && x.store.flags[f.flag] == f
    && Trimmed(GoSpace, x.prefix)
    && f.flag == F.Issue(F.Codec(env.mac, x.prefix), f.owner, f.challenge, f.issued, f.expires)
    && Int64(f.owner) && Int64(f.challenge) && Int64(f.issued)
    && f.issued == CurrentTick(x.store) && f.owner != t.team
    && x.store.stored.state == M.Running && x.store.stored.accepting
    && !InMaintenance(x.store, f.challenge)
    && t.stage == Ready && t.tick == CurrentTick(x.store) && f.flag !in t.seen
    && SubmissionKey(f.flag, t.team) !in x.store.accepted
  }

  lemma ParsesToClaims(env: Env, x: System, t: Submitter, f: IssuedFlag)
    requires F.HexMac(env.mac) && StoreSafe(env, x.store) && Capturable(env, x, t, f)
    ensures Trim(GoSpace, f.flag) == f.flag && f.flag != "" && f.expires == f.issued
    ensures F.Parse(F.Codec(env.mac, x.prefix), f.flag)
         == Some(F.Claims(f.flag, f.owner, f.challenge, f.issued, f.expires))
  {
    assert Genuine(env, x.store, f);
    var codec := F.Codec(env.mac, x.prefix);
    F.ParseOfIssue(codec, f.owner, f.challenge, f.issued, f.expires);
    F.IssueIsTrimmed(codec, f.owner, f.challenge, f.issued, f.expires);
  }

  lemma ClearedIsAccepted(env: Env, s: Store, t: Submitter, f: IssuedFlag, claims: F.Claims)
    requires StoreSafe(env, s) && f.flag in s.flags && s.flags[f.flag] == f
    requires s.stored.state == M.Running && s.stored.accepting && !InMaintenance(s, f.challenge)
    requires f.issued == CurrentTick(s) && SubmissionKey(f.flag, t.team) !in s.accepted
    requires claims.value == f.flag && claims.expires == f.expires
    ensures AcceptSubmission(s, SubmissionOf(t, claims, f), env.digest).1 == Accepted
  {
    assert Genuine(env, s, f);
    GatesAgree(env, s, f.challenge);
  }

  lemma TurnCaptures(env: Env, x: System, t: Submitter, f: IssuedFlag)
    requires F.HexMac(env.mac) && StoreSafe(env, x.store) && Capturable(env, x, t, f)
    ensures SubmissionKey(f.flag, t.team) in SubmitOne(env, x.prefix, x.store, t, f.flag).store.accepted
  {
    ParsesToClaims(env, x, t, f);
    var claims := F.Claims(f.flag, f.owner, f.challenge, f.issued, f.expires);
    ClaimsCapture(env, x.store, t.(seen := t.seen + {f.flag}), f, claims);
  }

  lemma ClaimsCapture(env: Env, s: Store, t: Submitter, f: IssuedFlag, claims: F.Claims)
    requires StoreSafe(env, s) && f.flag in s.flags && s.flags[f.flag] == f
    requires s.stored.state == M.Running && s.stored.accepting && !InMaintenance(s, f.challenge)
    requires f.issued == CurrentTick(s) && SubmissionKey(f.flag, t.team) !in s.accepted
    requires claims == F.Claims(f.flag, f.owner, f.challenge, f.issued, f.expires)
    ensures SubmissionKey(f.flag, t.team) in SubmitClaims(env, s, t, f.flag, claims).store.accepted
  {
    ClearedIsAccepted(env, s, t, f, claims);
  }

  // Left to itself, a submission of such a flag is accepted.
  lemma CapturableIsAccepted(env: Env, x: System, id: nat, f: IssuedFlag)
    requires F.HexMac(env.mac) && Safe(env, x) && id in x.submitters && Capturable(env, x, x.submitters[id], f)
    ensures SubmissionKey(f.flag, x.submitters[id].team) in Run(env, x, Script(id, f.flag)).store.accepted
  {
    TurnCaptures(env, x, x.submitters[id], f);
    TurnIsRun(env, x, id, x.submitters[id], f.flag);
  }

  // ---------------------------------------------------------------- listed and unlisted teams

  ghost predicate TeamsListed(x: System) {
    && (forall id :: id in x.submitters ==> x.submitters[id].team in x.store.teams)
    && (forall k :: k in x.store.accepted ==> x.store.accepted[k].team in x.store.teams)
  }

  lemma AcceptKeepsListed(s: Store, sub: Submission, digest: string -> string)
    requires sub.team in s.teams && forall k :: k in s.accepted ==> s.accepted[k].team in s.teams
    ensures var s' := AcceptSubmission(s, sub, digest).0;
            s'.teams == s.teams && forall k :: k in s'.accepted ==> s'.accepted[k].team in s'.teams
  {
  }

  lemma ThreadKeepsListed(x: System, id: nat, t: Submitter, store: Store)
    requires TeamsListed(x) && t.team in x.store.teams && store.teams == x.store.teams
    requires forall k :: k in store.accepted ==> store.accepted[k].team in store.teams
    ensures TeamsListed(With(x.(store := store), id, t))
  {
  }

  lemma SubmitterKeepsListed(env: Env, x: System, id: nat, a: Action)
    requires TeamsListed(x) && id in x.submitters
    ensures var y := StepSubmitter(env, x, id, x.submitters[id], a);
            y.store.teams == x.store.teams && TeamsListed(y)
  {
    var t := x.submitters[id];
    var y := StepSubmitter(env, x, id, t, a);
    StaysOnTeam(env, x, id, t, a);
    if a.SubmitAccept? && t.stage.Cleared? {
      AcceptKeepsListed(x.store, SubmissionOf(t, t.stage.claims, t.stage.issued), env.digest);
    }
    ThreadKeepsListed(x, id, y.submitters[id], y.store);
  }

  lemma StaysOnTeam(env: Env, x: System, id: nat, t: Submitter, a: Action)
    requires id in x.submitters && x.submitters[id] == t
    ensures var y := StepSubmitter(env, x, id, t, a);
            && id in y.submitters && y.submitters[id].team == t.team
            && y == With(x.(store := y.store), id, y.submitters[id])
            && (!(a.SubmitAccept? && t.stage.Cleared?) ==> y.store == x.store)
  {
    var y := StepSubmitter(env, x, id, t, a);
    assert x.submitters[id := t] == x.submitters;
  }

  lemma TickerKeepsTeams(env: Env, x: System, id: nat, t: Ticker, a: Action)
    ensures var y := StepTicker(env, x, id, t, a);
            y.submitters == x.submitters && y.store.teams == x.store.teams && y.store.accepted == x.store.accepted
  {
  }

  lemma OrganizedKeepsTeams(s: Store, a: Action)
    ensures Organized(s, a).teams == s.teams && Organized(s, a).accepted == s.accepted
  {
  }

  lemma StepKeepsListed(env: Env, x: System, a: Action)
    requires TeamsListed(x) && (a.SubmitBegin? ==> a.team in x.store.teams)
    ensures Step(env, x, a).store.teams == x.store.teams && TeamsListed(Step(env, x, a))
  {
    if SubmitterAction(a) {
      if a.id in x.submitters {
        SubmitterKeepsListed(env, x, a.id, a);
      }
    } else if TickerAction(a) {
      if a.id in x.tickers {
        TickerKeepsTeams(env, x, a.id, x.tickers[a.id], a);
      }
    } else if OrganizerAction(a) {
      OrganizedKeepsTeams(x.store, a);
    } else {
      ServerKeepsListed(env, x, a);
    }
  }

  lemma ServerKeepsListed(env: Env, x: System, a: Action)
    requires TeamsListed(x) && (a.SubmitBegin? ==> a.team in x.store.teams)
    ensures StepServer(env, x, a).store == x.store && TeamsListed(StepServer(env, x, a))
  {
  }

  lemma {:induction false} RunKeepsListed(env: Env, x: System, actions: seq<Action>)
    requires TeamsListed(x)
    requires forall i :: 0 <= i < |actions| && actions[i].SubmitBegin? ==> actions[i].team in x.store.teams
    ensures TeamsListed(Run(env, x, actions))
    decreases |actions|
  {
    if actions != [] {
      StepKeepsListed(env, x, actions[0]);
      RunKeepsListed(env, Step(env, x, actions[0]), actions[1..]);
    }
  }

  // Over every run in which only listed teams submit, the recomputation never fails.
  lemma ListedTeamsNeverPanic(env: Env, prefix: string, teams: map<int, string>, targets: seq<Target>,
                              challenges: map<int, Challenge>, actions: seq<Action>, curves: Curves)
    requires F.HexMac(env.mac) && TargetsKnown(Fresh(teams, targets, challenges))
    requires forall i :: 0 <= i < |actions| && actions[i].SubmitBegin? ==> actions[i].team in teams
    ensures B.Known(LedgerOf(Run(env, Boot(prefix, teams, targets, challenges), actions).store), curves)
  {
    var boot := Boot(prefix, teams, targets, challenges);
    BootIsSafe(env, prefix, teams, targets, challenges);
    RunKeepsSafe(env, boot, actions);
    RunKeepsListed(env, boot, actions);
    PanicsIff(env, Run(env, boot, actions).store, curves);
  }

  // ---------------------------------------------------------------- a run that ends in a panic

  // A store with one running tick in a running match.
  function FirstTick(teams: map<int, string>, targets: seq<Target>, challenges: map<int, Challenge>): Store {
    Fresh(teams, targets, challenges).(ticks := [Tick(1, TickRunning)], stored := M.Apply(M.FRESH, M.StartMatch(0)).0)
  }

  predicate NoWindow(env: Env) { env.window == M.Window(None, None) }

  lemma OpeningSteps(env: Env, x: System, id: nat, targets: seq<Target>, teams: map<int, string>,
                     challenges: map<int, Challenge>)
    requires NoWindow(env) && x == Boot(x.prefix, teams, targets, challenges)
    ensures var store := FirstTick(teams, targets, challenges);
            Run(env, x, Opening(id))
              == System(store, x.prefix, map[], map[id := Ticking(Tick(1, TickRunning), {}, {})])
  {
    var a, b, c := Organize(M.StartMatch(0)), TickCheck(id, 0), TickStart(id);
    assert [a, b, c][1..] == [b, c];
    var x1 := x.(store := x.store.(stored := M.Apply(M.FRESH, M.StartMatch(0)).0));
    assert Step(env, x, a) == x1;
    RunTwo(env, x1, b, c);
    assert Step(env, x1, b) == x1.(tickers := map[id := Checked]);
  }

  lemma ListStep(env: Env, x: System, id: nat, tick: Tick, target: Target)
    requires id in x.tickers && x.tickers[id] == Ticking(tick, {}, {}) && Playable(x.store, target)
    ensures var y := Step(env, x, TickList(id));
            && y == x.(tickers := y.tickers) && id in y.tickers
            && y.tickers[id].Ticking? && y.tickers[id].tick == tick && target in y.tickers[id].targets
  {
  }

  lemma PlantStep(env: Env, x: System, id: nat, tick: Tick, target: Target)
    requires id in x.tickers && x.tickers[id].Ticking? && x.tickers[id].tick == tick && target in x.tickers[id].targets
    ensures var y := Step(env, x, TickPlant(id, target));
            && y == x.(tickers := y.tickers) && id in y.tickers && y.tickers[id].Ticking?
            && Planted(env, x.prefix, target, tick.id) in y.tickers[id].planted
  {
  }

  lemma PersistStep(env: Env, x: System, id: nat, f: IssuedFlag)
    requires id in x.tickers && x.tickers[id].Ticking? && f in x.tickers[id].planted
    ensures Step(env, x, TickPersist(id, f)) == x.(store := Issue(x.store, f))
  {
  }

  lemma PlantingSteps(env: Env, x: System, id: nat, target: Target)
    requires id in x.tickers && x.tickers[id] == Ticking(Tick(1, TickRunning), {}, {}) && Playable(x.store, target)
    ensures var f := Planted(env, x.prefix, target, 1);
            var y := Run(env, x, Planting(env, x.prefix, id, target));
            y.store == Issue(x.store, f) && y.prefix == x.prefix && y.submitters == x.submitters
  {
    var f := Planted(env, x.prefix, target, 1);
    var a, b, c := TickList(id), TickPlant(id, target), TickPersist(id, f);
    assert [a, b, c][1..] == [b, c];
    RunTwo(env, Step(env, x, a), b, c);
    ListStep(env, x, id, Tick(1, TickRunning), target);
    PlantStep(env, Step(env, x, a), id, Tick(1, TickRunning), target);
    PersistStep(env, Step(env, Step(env, x, a), b), id, f);
  }

  function Opening(id: nat): seq<Action> { [Organize(M.StartMatch(0)), TickCheck(id, 0), TickStart(id)] }

  function Planting(env: Env, prefix: string, id: nat, target: Target): seq<Action> {
    [TickList(id), TickPlant(id, target), TickPersist(id, Planted(env, prefix, target, 1))]
  }

  // A match started, a flag planted on a target, and a team about to submit it.
  function Prelude(env: Env, prefix: string, target: Target, team: int): seq<Action> {
    Opening(0) + Planting(env, prefix, 0, target) + Begin(0, team, 0)
  }

  function OpeningRun(env: Env, prefix: string, target: Target, team: int): seq<Action> {
    Prelude(env, prefix, target, team) + Script(0, Planted(env, prefix, target, 1).flag)
  }

  // An open service that the store lists.
  predicate OpenTarget(teams: map<int, string>, targets: seq<Target>, challenges: map<int, Challenge>, target: Target) {
    && target in targets && target.team in teams && target.challenge in challenges
    && !Gated(challenges[target.challenge], 1) && Int64(target.team) && Int64(target.challenge)
  }

  lemma ReadyToCapture(env: Env, prefix: string, teams: map<int, string>, targets: seq<Target>,
                       challenges: map<int, Challenge>, target: Target, team: int, x: System)
    requires Trimmed(GoSpace, prefix) && OpenTarget(teams, targets, challenges, target) && team != target.team
    requires x.store == Issue(FirstTick(teams, targets, challenges), Planted(env, prefix, target, 1))
    requires x.prefix == prefix
    ensures Capturable(env, x, Submitter(team, 1, TeamName(targets, team), {}, Ready), Planted(env, prefix, target, 1))
  {
    assert x.store.ticks[..0] == [];
    assert HighestTick(x.store.ticks) == 1;
  }

  lemma PlantingReaches(env: Env, boot: System, teams: map<int, string>, targets: seq<Target>,
                        challenges: map<int, Challenge>, target: Target)
    requires NoWindow(env) && boot == Boot(boot.prefix, teams, targets, challenges)
    requires OpenTarget(teams, targets, challenges, target)
    ensures var x := Run(env, boot, Opening(0) + Planting(env, boot.prefix, 0, target));
            && x.store == Issue(FirstTick(teams, targets, challenges), Planted(env, boot.prefix, target, 1))
            && x.prefix == boot.prefix && x.submitters == map[]
  {
    RunConcat(env, boot, Opening(0), Planting(env, boot.prefix, 0, target));
    OpeningSteps(env, boot, 0, targets, teams, challenges);
    FirstTickIsOpen(teams, targets, challenges, target);
    PlantingSteps(env, Run(env, boot, Opening(0)), 0, target);
  }

  lemma FirstTickRuns(env: Env, teams: map<int, string>, targets: seq<Target>, challenges: map<int, Challenge>,
                      f: IssuedFlag)
    requires NoWindow(env)
    ensures var s := Issue(FirstTick(teams, targets, challenges), f);
            Running(env, s, 0) && CurrentTick(s) == 1 && s.targets == targets
  {
  }

  lemma PreludeReaches(env: Env, boot: System, teams: map<int, string>, targets: seq<Target>,
                       challenges: map<int, Challenge>, target: Target, team: int)
    requires NoWindow(env) && boot == Boot(boot.prefix, teams, targets, challenges)
    requires OpenTarget(teams, targets, challenges, target)
    ensures var x := Run(env, boot, Prelude(env, boot.prefix, target, team));
            && x.store == Issue(FirstTick(teams, targets, challenges), Planted(env, boot.prefix, target, 1))
            && x.prefix == boot.prefix && 0 in x.submitters
            && x.submitters[0] == Submitter(team, 1, TeamName(targets, team), {}, Ready)
  {
    var planted := Opening(0) + Planting(env, boot.prefix, 0, target);
    RunConcat(env, boot, planted, Begin(0, team, 0));
    PlantingReaches(env, boot, teams, targets, challenges, target);
    FirstTickRuns(env, teams, targets, challenges, Planted(env, boot.prefix, target, 1));
    BeginIsRun(env, Run(env, boot, planted), 0, team, 0);
  }

  // Whatever the store lists, any other team can have a flag of an open service accepted, listed or not.
  lemma AnyTeamCanCapture(env: Env, prefix: string, teams: map<int, string>, targets: seq<Target>,
                          challenges: map<int, Challenge>, target: Target, team: int)
    requires F.HexMac(env.mac) && NoWindow(env) && Trimmed(GoSpace, prefix)
    requires TargetsKnown(Fresh(teams, targets, challenges))
    requires OpenTarget(teams, targets, challenges, target) && team != target.team
    ensures SubmissionKey(Planted(env, prefix, target, 1).flag, team)
         in Run(env, Boot(prefix, teams, targets, challenges), OpeningRun(env, prefix, target, team)).store.accepted
  {
    var boot, f := Boot(prefix, teams, targets, challenges), Planted(env, prefix, target, 1);
    var prelude := Prelude(env, prefix, target, team);
    RunConcat(env, boot, prelude, Script(0, f.flag));
    BootIsSafe(env, prefix, teams, targets, challenges);
    RunKeepsSafe(env, boot, prelude);
    PreludeReaches(env, boot, teams, targets, challenges, target, team);
    var x := Run(env, boot, prelude);
    ReadyToCapture(env, prefix, teams, targets, challenges, target, team, x);
    CapturableIsAccepted(env, x, 0, f);
  }

  lemma FirstTickIsOpen(teams: map<int, string>, targets: seq<Target>, challenges: map<int, Challenge>, target: Target)
    requires OpenTarget(teams, targets, challenges, target)
    ensures Playable(FirstTick(teams, targets, challenges), target)
  {
    var ticks := FirstTick(teams, targets, challenges).ticks;
    assert ticks[..0] == [];
    assert HighestTick(ticks) == 1;
  }

  // With an open service, the opening run by a team the store does not list leaves a store on which the
  // recomputation fails.
  lemma UnlistedTeamPanics(env: Env, prefix: string, teams: map<int, string>, targets: seq<Target>,
                           challenges: map<int, Challenge>, target: Target, team: int, curves: Curves)
    requires F.HexMac(env.mac) && NoWindow(env) && Trimmed(GoSpace, prefix)
    requires TargetsKnown(Fresh(teams, targets, challenges))
    requires OpenTarget(teams, targets, challenges, target) && team !in teams
    ensures var s := Run(env, Boot(prefix, teams, targets, challenges), OpeningRun(env, prefix, target, team)).store;
            !B.Known(LedgerOf(s), curves)
  {
    var boot, actions := Boot(prefix, teams, targets, challenges), OpeningRun(env, prefix, target, team);
    AnyTeamCanCapture(env, prefix, teams, targets, challenges, target, team);
    BootIsSafe(env, prefix, teams, targets, challenges);
    RunKeepsSafe(env, boot, actions);
    RunKeepsTeams(env, boot, actions);
    var s := Run(env, boot, actions).store;
    var key := SubmissionKey(Planted(env, prefix, target, 1).flag, team);
    SubmissionKeyInjective(s.accepted[key].flag, s.accepted[key].team, Planted(env, prefix, target, 1).flag, team);
    PanicsIff(env, s, curves);
  }

  lemma SubmitterKeepsTeams(env: Env, x: System, id: nat, t: Submitter, a: Action)
    ensures StepSubmitter(env, x, id, t, a).store.teams == x.store.teams
  {
  }

  lemma StepKeepsTeams(env: Env, x: System, a: Action)
    ensures Step(env, x, a).store.teams == x.store.teams
  {
    if SubmitterAction(a) {
      if a.id in x.submitters {
        SubmitterKeepsTeams(env, x, a.id, x.submitters[a.id], a);
      }
    } else if OrganizerAction(a) {
      OrganizedKeepsTeams(x.store, a);
    } else if TickerAction(a) && a.id in x.tickers {
      TickerKeepsTeams(env, x, a.id, x.tickers[a.id], a);
    }
  }

  lemma {:induction false} RunKeepsTeams(env: Env, x: System, actions: seq<Action>)
    ensures Run(env, x, actions).store.teams == x.store.teams
    decreases |actions|
  {
    if actions != [] {
      StepKeepsTeams(env, x, actions[0]);
      RunKeepsTeams(env, Step(env, x, actions[0]), actions[1..]);
    }
  }
}
