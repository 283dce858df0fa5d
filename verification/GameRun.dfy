/**
 The game core at work: submissions, ticks, organiser actions and reloads, each a sequence
 of atomic steps on the shared store, interleaved in any way.
 */
module GameRun {
  import opened Common
  import opened Text
  import opened Scoring
  import opened GameStore
  import F = FlagCodec
  import M = MatchWindow
  import S = ServiceState
  import B = Scoreboard
  import P = Postings

  // What does not change: the keyed hash, the digest of event identifiers and the configured window.
  datatype Env = Env(mac: string -> string, digest: string -> string, window: M.Window)

  // One submitFlags call: still reading the tick and the team's name, between flags, or part of the way through one.
  datatype Stage =
    | Entered
    | Timed
    | Ready
    | Parsed(claims: F.Claims)
    | Found(claims: F.Claims, issued: IssuedFlag)
    | Cleared(claims: F.Claims, issued: IssuedFlag)

  datatype Submitter = Submitter(team: int, tick: int, attacker: string, seen: set<string>, stage: Stage)

  // One advanceTick call. Flags are computed before the checker runs and persisted after a successful put.
  datatype Ticker = Checked | Ticking(tick: Tick, targets: set<Target>, planted: set<IssuedFlag>)

  datatype System = System(store: Store, prefix: string, submitters: map<nat, Submitter>, tickers: map<nat, Ticker>)

  datatype Action =
    | SubmitBegin(id: nat, team: int, now: int)
    | SubmitTick(id: nat)
    | SubmitName(id: nat)
    | SubmitParse(id: nat, text: string)
    | SubmitLookup(id: nat)
    | SubmitClear(id: nat)
    | SubmitAccept(id: nat)
    | SubmitEnd(id: nat)
    | TickCheck(id: nat, now: int)
    | TickStart(id: nat)
    | TickList(id: nat)
    | TickPlant(id: nat, target: Target)
    | TickRecord(id: nat, target: Target, record: S.Record)
    | TickPersist(id: nat, flag: IssuedFlag)
    | TickEnd(id: nat, status: TickStatus)
    | TickAbandon(id: nat)
    | Organize(op: M.Op)
    | Maintain(challenge: int, on: bool)
    | DeferPlay(challenge: int, tick: int)
    | ReloadPrefix(prefix: string)
    | Reap

  function TeamName(targets: seq<Target>, team: int): string {
    if targets == [] then "Team " + PrintInt(team)
    else if targets[0].team == team then targets[0].teamName
    else TeamName(targets[1..], team)
  }

  predicate Running(env: Env, s: Store, now: int) { M.ApplyWindow(s.stored, env.window, now).state == M.Running }

  predicate ClaimsPass(t: Submitter, claims: F.Claims) {
    t.tick != 0 && t.tick <= claims.expires && claims.owner != t.team
  }

  predicate SameClaims(f: IssuedFlag, c: F.Claims) {
    f.owner == c.owner && f.challenge == c.challenge && f.issued == c.issued && f.expires == c.expires
  }

  function Parse(env: Env, prefix: string, t: Submitter, text: string): Submitter {
    var trimmed := Trim(GoSpace, text);
    if trimmed == "" || trimmed in t.seen then t
    else
      var noted := t.(seen := t.seen + {trimmed});
      match F.Parse(F.Codec(env.mac, prefix), trimmed)
      case Some(claims) => if ClaimsPass(t, claims) then noted.(stage := Parsed(claims)) else noted
      case None => noted
  }

  function Lookup(s: Store, t: Submitter, claims: F.Claims): Submitter {
    var flag := claims.value;
    t.(stage := if flag in s.flags && SameClaims(s.flags[flag], claims) then Found(claims, s.flags[flag]) else Ready)
  }

  function Clear(s: Store, t: Submitter, claims: F.Claims, issued: IssuedFlag): Submitter {
    t.(stage := if InMaintenance(s, issued.challenge) then Ready else Cleared(claims, issued))
  }

  function SubmissionOf(t: Submitter, claims: F.Claims, issued: IssuedFlag): Submission {
    Submission(claims.value, t.team, t.attacker, issued.ownerName, issued.service, issued.challenge, t.tick,
               claims.expires)
  }

  // The flag a tick plants on a target; it expires with the tick that issued it.
  function Planted(env: Env, prefix: string, target: Target, tick: int): IssuedFlag {
    IssuedFlag(F.Issue(F.Codec(env.mac, prefix), target.team, target.challenge, tick, tick),
               target.team, target.teamName, target.challenge, target.service, tick, tick)
  }

  predicate About(record: S.Record, target: Target, tick: int) {
    record.run.key == S.Key(tick, target.team, target.challenge)
  }

  function StepSubmitter(env: Env, x: System, id: nat, t: Submitter, a: Action): System {
    match (a, t.stage)
    case (SubmitTick(_), Entered) =>
      x.(submitters := x.submitters[id := t.(tick := CurrentTick(x.store), stage := Timed)])
    case (SubmitName(_), Timed) =>
      x.(submitters := x.submitters[id := t.(attacker := TeamName(x.store.targets, t.team), stage := Ready)])
    case (SubmitParse(_, text), Ready) => x.(submitters := x.submitters[id := Parse(env, x.prefix, t, text)])
    case (SubmitLookup(_), Parsed(claims)) => x.(submitters := x.submitters[id := Lookup(x.store, t, claims)])
    case (SubmitClear(_), Found(claims, issued)) =>
      x.(submitters := x.submitters[id := Clear(x.store, t, claims, issued)])
    case (SubmitAccept(_), Cleared(claims, issued)) =>
      x.(store := AcceptSubmission(x.store, SubmissionOf(t, claims, issued), env.digest).0,
         submitters := x.submitters[id := t.(stage := Ready)])
    case _ => x
  }

  function StepTicker(env: Env, x: System, id: nat, t: Ticker, a: Action): System {
    match (a, t)
    case (TickStart(_), Checked) =>
      var (store, tick) := StartNextTick(x.store);
      if tick.None? then x.(tickers := x.tickers - {id})
      else x.(store := store, tickers := x.tickers[id := Ticking(tick.value, {}, {})])
    case (TickList(_), Ticking(tick, _, planted)) =>
      var playable := set target | target in x.store.targets && Playable(x.store, target);
      x.(tickers := x.tickers[id := Ticking(tick, playable, planted)])
    case (TickPlant(_, target), Ticking(tick, targets, planted)) =>
      if target !in targets then x
      else x.(tickers := x.tickers[id := Ticking(tick, targets, planted + {Planted(env, x.prefix, target, tick.id)})])
    case (TickRecord(_, target, record), Ticking(tick, targets, _)) =>
      if target !in targets || !About(record, target, tick.id) then x
      else x.(store := x.store.(checks := S.RecordMemory(x.store.checks, record)))
    case (TickPersist(_, flag), Ticking(_, _, planted)) =>
      if flag !in planted then x else x.(store := Issue(x.store, flag))
    case (TickEnd(_, status), Ticking(tick, _, _)) =>
      if status == TickRunning then x
      else
        var ended := ReplaceTick(x.store.ticks, tick.(status := status));
        x.(store := x.store.(ticks := ended), tickers := x.tickers - {id})
    case _ => x
  }

  // Calls coming and going.
  function StepServer(env: Env, x: System, a: Action): System {
    match a
    case SubmitBegin(id, team, now) =>
      if id in x.submitters || !Running(env, x.store, now) then x
      else x.(submitters := x.submitters[id := Submitter(team, 0, "", {}, Entered)])
    case SubmitEnd(id) => x.(submitters := x.submitters - {id})
    case TickCheck(id, now) =>
      if id in x.tickers || !Running(env, x.store, now) then x else x.(tickers := x.tickers[id := Checked])
    case TickAbandon(id) => x.(tickers := x.tickers - {id})
    case ReloadPrefix(prefix) => x.(prefix := F.NewCodec(env.mac, prefix).prefix)
    case _ => x
  }

  function Organized(s: Store, a: Action): Store {
    match a
    case Organize(op) => s.(stored := M.Apply(s.stored, op).0)
    case Maintain(challenge, on) => SetMaintenance(s, challenge, on)
    case DeferPlay(challenge, tick) => SetPlayFrom(s, challenge, tick)
    case Reap => s.(ticks := Reaped(s.ticks))
    case _ => s
  }

  predicate SubmitterAction(a: Action) {
    a.SubmitTick? || a.SubmitName? || a.SubmitParse? || a.SubmitLookup? || a.SubmitClear? || a.SubmitAccept?
  }

  predicate TickerAction(a: Action) {
    a.TickStart? || a.TickList? || a.TickPlant? || a.TickRecord? || a.TickPersist? || a.TickEnd?
  }

  predicate OrganizerAction(a: Action) { a.Organize? || a.Maintain? || a.DeferPlay? || a.Reap? }

  function Step(env: Env, x: System, a: Action): System {
    if SubmitterAction(a) then
      if a.id in x.submitters then StepSubmitter(env, x, a.id, x.submitters[a.id], a) else x
    else if TickerAction(a) then
      if a.id in x.tickers then StepTicker(env, x, a.id, x.tickers[a.id], a) else x
    else if OrganizerAction(a) then x.(store := Organized(x.store, a))
    else StepServer(env, x, a)
  }

  function Run(env: Env, x: System, actions: seq<Action>): System
    decreases |actions|
  {
    if actions == [] then x else Run(env, Step(env, x, actions[0]), actions[1..])
  }

  function Boot(prefix: string, teams: map<int, string>, targets: seq<Target>, challenges: map<int,
                Challenge>): System {
    System(Fresh(teams, targets, challenges), prefix, map[], map[])
  }

  // ---------------------------------------------------------------- what every step keeps

  // Tick ids are 1, 2, .., n and only the last tick may be running.
  ghost predicate TicksInOrder(ticks: seq<Tick>) {
    && (forall i :: 0 <= i < |ticks| ==> ticks[i].id == i + 1)
    && (forall i :: 0 <= i < |ticks| - 1 ==> ticks[i].status != TickRunning)
  }

  ghost predicate TextOf(mac: string -> string, f: IssuedFlag) {
    exists prefix :: f.flag == F.Issue(F.Codec(mac, prefix), f.owner, f.challenge, f.issued, f.expires)
  }

  // A flag record a tick made: its text encodes its own claims, and it expires in the tick that issued it.
  ghost predicate Genuine(env: Env, s: Store, f: IssuedFlag) {
    && TextOf(env.mac, f)
    && 1 <= f.issued <= |s.ticks| && f.expires == f.issued
    && f.owner in s.teams && f.challenge in s.challenges
  }

  ghost predicate FlagsGenuine(env: Env, s: Store) {
    forall k :: k in s.flags ==> s.flags[k].flag == k && Genuine(env, s, s.flags[k])
  }

  // The submission is for an issued flag of another team, accepted in the tick that issued it.
  ghost predicate Rightful(s: Store, sub: Submission) {
    && sub.flag in s.flags
    && s.flags[sub.flag].owner != sub.team
    && s.flags[sub.flag].challenge == sub.challenge
    && s.flags[sub.flag].issued == sub.tick
  }

  ghost predicate AcceptedRightful(s: Store) {
    forall k :: k in s.accepted ==>
      k == SubmissionKey(s.accepted[k].flag, s.accepted[k].team) && Rightful(s, s.accepted[k])
  }

  // The keys of the accepted submissions, newest first, matched with the feed one by one.
  ghost predicate FeedLists(accepted: map<string, Submission>, feed: seq<Event>, digest: string -> string,
                            keys: seq<string>)
    decreases |keys|
  {
    if keys == [] || feed == [] then keys == [] && feed == [] && accepted == map[]
    else
      && keys[0] in accepted && feed[0] == EventOf(accepted[keys[0]], digest)
      && FeedLists(accepted - {keys[0]}, feed[1..], digest, keys[1..])
  }

  ghost predicate FeedMatches(env: Env, s: Store) { exists keys :: FeedLists(s.accepted, s.feed, env.digest, keys) }

  ghost predicate TargetsKnown(s: Store) {
    forall i :: 0 <= i < |s.targets| ==> s.targets[i].team in s.teams && s.targets[i].challenge in s.challenges
  }

  ghost predicate StatesKnown(s: Store) {
    forall k :: k in s.checks.states ==> k.team in s.teams && k.challenge in s.challenges
  }

  ghost predicate StoreSafe(env: Env, s: Store) {
    && TicksInOrder(s.ticks) && FlagsGenuine(env, s) && AcceptedRightful(s) && FeedMatches(env, s)
    && TargetsKnown(s) && StatesKnown(s)
  }

  ghost predicate SubmitterSafe(s: Store, t: Submitter) {
    match t.stage
    case Parsed(claims) => claims.owner != t.team
    case Found(claims, issued) => claims.owner != t.team && Backed(s, claims, issued)
    case Cleared(claims, issued) => claims.owner != t.team && Backed(s, claims, issued)
    case _ => true
  }

  // The claims are those of a flag on record.
  ghost predicate Backed(s: Store, claims: F.Claims, issued: IssuedFlag) {
    claims.value in s.flags && SameClaims(s.flags[claims.value], claims) && SameClaims(issued, claims)
  }

  ghost predicate TickerSafe(env: Env, s: Store, t: Ticker) {
    t.Ticking? ==>
      && 1 <= t.tick.id <= |s.ticks|
      && (forall target :: target in t.targets ==> target.team in s.teams && target.challenge in s.challenges)
      && (forall f :: f in t.planted ==> Genuine(env, s, f))
  }

  ghost predicate Safe(env: Env, x: System) {
    && StoreSafe(env, x.store)
    && (forall id :: id in x.submitters ==> SubmitterSafe(x.store, x.submitters[id]))
    && (forall id :: id in x.tickers ==> TickerSafe(env, x.store, x.tickers[id]))
  }

  // ---------------------------------------------------------------- the store only grows

  // Teams, targets and services stay; ticks are added; a flag's claims never change.
  ghost predicate Extends(s: Store, s': Store) {
    && s'.teams == s.teams && s'.targets == s.targets && s'.challenges.Keys == s.challenges.Keys
    && |s'.ticks| >= |s.ticks|
    && forall k :: k in s.flags ==> k in s'.flags && SameRecord(s.flags[k], s'.flags[k])
  }

  predicate SameRecord(f: IssuedFlag, g: IssuedFlag) {
    && f.flag == g.flag && f.owner == g.owner && f.challenge == g.challenge
    && f.issued == g.issued && f.expires == g.expires
  }

  lemma ThreadsSurvive(env: Env, s: Store, s': Store, t: Submitter, u: Ticker)
    requires Extends(s, s')
    ensures SubmitterSafe(s, t) ==> SubmitterSafe(s', t)
    ensures TickerSafe(env, s, u) ==> TickerSafe(env, s', u)
  {
  }

  // With the other threads untouched, a step is safe if its store and its own thread are.
  lemma SafeAfter(env: Env, x: System, store: Store)
    requires Safe(env, x) && StoreSafe(env, store) && Extends(x.store, store)
    ensures Safe(env, x.(store := store))
  {
    forall id | id in x.submitters ensures SubmitterSafe(store, x.submitters[id]) {
      ThreadsSurvive(env, x.store, store, x.submitters[id], Checked);
    }
    forall id | id in x.tickers ensures TickerSafe(env, store, x.tickers[id]) {
      var idle := Submitter(0, 0, "", {}, Ready);
      ThreadsSurvive(env, x.store, store, idle, x.tickers[id]);
    }
  }

  // A step that leaves flags, submissions and feed alone only has its ticks and states to answer for.
  lemma StoreSafeKept(env: Env, s: Store, s': Store)
    requires StoreSafe(env, s) && Extends(s, s') && s'.flags == s.flags
    requires s'.accepted == s.accepted && s'.feed == s.feed
    requires TicksInOrder(s'.ticks) && StatesKnown(s')
    ensures StoreSafe(env, s')
  {
  }

  // ---------------------------------------------------------------- ticks

  lemma {:induction false} ReplacedTick(ticks: seq<Tick>, tick: Tick, first: int)
    requires forall i :: 0 <= i < |ticks| ==> ticks[i].id == first + i
    ensures |ReplaceTick(ticks, tick)| == |ticks|
    ensures forall i :: 0 <= i < |ticks| ==>
              ReplaceTick(ticks, tick)[i] == if ticks[i].id == tick.id then tick else ticks[i]
  {
    if ticks != [] && ticks[0].id != tick.id {
      ReplacedTick(ticks[1..], tick, first + 1);
    }
  }

  lemma CompleteKeepsOrder(ticks: seq<Tick>, tick: Tick)
    requires TicksInOrder(ticks) && tick.status != TickRunning
    ensures TicksInOrder(ReplaceTick(ticks, tick)) && |ReplaceTick(ticks, tick)| == |ticks|
  {
    ReplacedTick(ticks, tick, 1);
  }

  lemma {:induction false} HighestIsLast(ticks: seq<Tick>)
    requires TicksInOrder(ticks)
    ensures HighestTick(ticks) == |ticks|
  {
    if ticks != [] {
      HighestIsLast(ticks[..|ticks| - 1]);
    }
  }

  // ---------------------------------------------------------------- flags

  // Two genuine records with the same text have the same claims, whatever prefixes were in force.
  lemma SameTextSameClaims(env: Env, s: Store, f: IssuedFlag, g: IssuedFlag)
    requires F.HexMac(env.mac) && Genuine(env, s, f) && Genuine(env, s, g) && f.flag == g.flag
    ensures SameRecord(f, g)
  {
    var p :| f.flag == F.Issue(F.Codec(env.mac, p), f.owner, f.challenge, f.issued, f.expires);
    var q :| g.flag == F.Issue(F.Codec(env.mac, q), g.owner, g.challenge, g.issued, g.expires);
    F.IssueInjective(env.mac, p, f.owner, f.challenge, f.issued, f.expires,
                     q, g.owner, g.challenge, g.issued, g.expires);
  }

  lemma IssueExtends(env: Env, s: Store, f: IssuedFlag)
    requires F.HexMac(env.mac) && FlagsGenuine(env, s) && Genuine(env, s, f)
    ensures Extends(s, Issue(s, f))
  {
    if f.flag in s.flags {
      SameTextSameClaims(env, s, s.flags[f.flag], f);
    }
  }

  lemma GenuineSurvives(env: Env, s: Store, s': Store, f: IssuedFlag)
    requires Genuine(env, s, f) && Extends(s, s')
    ensures Genuine(env, s', f)
  {
  }

  lemma IssueKeepsGenuine(env: Env, s: Store, f: IssuedFlag)
    requires FlagsGenuine(env, s) && Genuine(env, s, f) && Extends(s, Issue(s, f))
    ensures FlagsGenuine(env, Issue(s, f))
  {
    var s' := Issue(s, f);
    forall k | k in s'.flags ensures s'.flags[k].flag == k && Genuine(env, s', s'.flags[k]) {
      GenuineSurvives(env, s, s', s'.flags[k]);
    }
  }

  lemma RightfulSurvives(s: Store, s': Store)
    requires AcceptedRightful(s) && Extends(s, s') && s'.accepted == s.accepted
    ensures AcceptedRightful(s')
  {
    forall k | k in s.accepted ensures Rightful(s', s.accepted[k]) {
      assert Rightful(s, s.accepted[k]);
    }
  }

  lemma PersistKeepsStore(env: Env, s: Store, f: IssuedFlag)
    requires F.HexMac(env.mac) && StoreSafe(env, s) && Genuine(env, s, f)
    ensures StoreSafe(env, Issue(s, f)) && Extends(s, Issue(s, f))
  {
    IssueExtends(env, s, f);
    IssueKeepsGenuine(env, s, f);
    RightfulSurvives(s, Issue(s, f));
  }

  lemma PlantedIsGenuine(env: Env, s: Store, prefix: string, target: Target, tick: int)
    requires 1 <= tick <= |s.ticks| && target.team in s.teams && target.challenge in s.challenges
    ensures Genuine(env, s, Planted(env, prefix, target, tick))
  {
  }

  // ---------------------------------------------------------------- submissions

  lemma FeedGrows(accepted: map<string, Submission>, feed: seq<Event>, digest: string -> string, keys: seq<string>,
                  key: string, sub: Submission)
    requires FeedLists(accepted, feed, digest, keys) && key !in accepted
    ensures FeedLists(accepted[key := sub], [EventOf(sub, digest)] + feed, digest, [key] + keys)
  {
    assert accepted[key := sub] - {key} == accepted;
    assert ([EventOf(sub, digest)] + feed)[1..] == feed && ([key] + keys)[1..] == keys;
  }

  // The event tells who captured whose flag, on which service and in which tick.
  predicate Tells(e: Event, sub: Submission, digest: string -> string) {
    && e.tick == sub.tick && e.team == sub.team && e.digest == digest(sub.flag + ":" + PrintInt(sub.team))
    && e.attacker == sub.attacker && e.victim == sub.victim && e.service == sub.service
  }

  ghost predicate Matched(accepted: map<string, Submission>, feed: seq<Event>, digest: string -> string,
                          keys: seq<string>) {
    && |keys| == |feed|
    && forall i :: 0 <= i < |keys| ==> keys[i] in accepted && Tells(feed[i], accepted[keys[i]], digest)
  }

  ghost predicate EachOnce(accepted: map<string, Submission>, keys: seq<string>) {
    && (forall i, j :: 0 <= i < j < |keys| ==> keys[i] != keys[j])
    && forall k :: k in accepted ==> k in keys
  }

  // Every event belongs to its own accepted submission, and every accepted submission has its event.
  lemma {:induction false} FeedIsOneToOne(accepted: map<string, Submission>, feed: seq<Event>, digest: string -> string,
                                          keys: seq<string>)
    requires FeedLists(accepted, feed, digest, keys)
    ensures Matched(accepted, feed, digest, keys) && EachOnce(accepted, keys)
    decreases |keys|
  {
    if keys != [] {
      var rest := accepted - {keys[0]};
      FeedIsOneToOne(rest, feed[1..], digest, keys[1..]);
      MatchedCons(accepted, feed, digest, keys);
      EachOnceCons(accepted, feed, digest, keys);
    }
  }

  lemma MatchedCons(accepted: map<string, Submission>, feed: seq<Event>, digest: string -> string, keys: seq<string>)
    requires keys != [] && feed != [] && keys[0] in accepted && feed[0] == EventOf(accepted[keys[0]], digest)
    requires Matched(accepted - {keys[0]}, feed[1..], digest, keys[1..])
    ensures Matched(accepted, feed, digest, keys)
  {
    forall i | 0 <= i < |keys| ensures keys[i] in accepted && Tells(feed[i], accepted[keys[i]], digest) {
      if i > 0 {
        assert keys[1..][i - 1] == keys[i] && feed[1..][i - 1] == feed[i];
      }
    }
  }

  lemma EachOnceCons(accepted: map<string, Submission>, feed: seq<Event>, digest: string -> string, keys: seq<string>)
    requires keys != [] && feed != [] && keys[0] in accepted
    requires Matched(accepted - {keys[0]}, feed[1..], digest, keys[1..]) && EachOnce(accepted - {keys[0]}, keys[1..])
    ensures EachOnce(accepted, keys)
  {
    forall i, j | 0 <= i < j < |keys| ensures keys[i] != keys[j] {
      assert keys[1..][j - 1] == keys[j] && keys[1..][j - 1] in accepted - {keys[0]};
      if i > 0 {
        assert keys[1..][i - 1] == keys[i];
      }
    }
    forall k | k in accepted ensures k in keys {
      if k != keys[0] {
        assert k in accepted - {keys[0]};
      }
    }
  }

  lemma AcceptKeepsFeed(env: Env, s: Store, sub: Submission)
    requires FeedMatches(env, s)
    ensures FeedMatches(env, AcceptSubmission(s, sub, env.digest).0)
  {
    var keys :| FeedLists(s.accepted, s.feed, env.digest, keys);
    FeedGrowsUnless(s.accepted, s.feed, env.digest, keys, SubmissionKey(sub.flag, sub.team),
                    sub.(tick := CurrentTick(s)));
  }

  lemma FeedGrowsUnless(accepted: map<string, Submission>, feed: seq<Event>, digest: string -> string,
                        keys: seq<string>,
                        key: string, sub: Submission)
    requires FeedLists(accepted, feed, digest, keys)
    ensures key !in accepted ==> FeedLists(accepted[key := sub], [EventOf(sub, digest)] + feed, digest, [key] + keys)
  {
    if key !in accepted {
      FeedGrows(accepted, feed, digest, keys, key, sub);
    }
  }

  // The current tick is past the issuing tick by nothing: it is not later than the expiry, nor earlier than the issue.
  lemma AcceptedInIssuingTick(env: Env, s: Store, t: Submitter, claims: F.Claims, issued: IssuedFlag)
    requires TicksInOrder(s.ticks) && FlagsGenuine(env, s)
    requires claims.owner != t.team && Backed(s, claims, issued)
    requires Acceptable(s, SubmissionOf(t, claims, issued))
    ensures Rightful(s, SubmissionOf(t, claims, issued).(tick := CurrentTick(s)))
  {
    assert Genuine(env, s, s.flags[claims.value]);
  }

  lemma AcceptKeepsRightful(env: Env, s: Store, t: Submitter, claims: F.Claims, issued: IssuedFlag)
    requires TicksInOrder(s.ticks) && FlagsGenuine(env, s) && AcceptedRightful(s)
    requires claims.owner != t.team && Backed(s, claims, issued)
    ensures AcceptedRightful(AcceptSubmission(s, SubmissionOf(t, claims, issued), env.digest).0)
  {
    var sub := SubmissionOf(t, claims, issued);
    if Acceptable(s, sub) {
      AcceptedInIssuingTick(env, s, t, claims, issued);
    }
  }

  lemma AcceptTouches(s: Store, sub: Submission, digest: string -> string)
    ensures var s' := AcceptSubmission(s, sub, digest).0;
            s' == s.(accepted := s'.accepted, feed := s'.feed)
  {
  }

  lemma AcceptKeepsStore(env: Env, s: Store, t: Submitter, claims: F.Claims, issued: IssuedFlag)
    requires StoreSafe(env, s) && t.stage == Cleared(claims, issued) && SubmitterSafe(s, t)
    ensures StoreSafe(env, AcceptSubmission(s, SubmissionOf(t, claims, issued), env.digest).0)
    ensures Extends(s, AcceptSubmission(s, SubmissionOf(t, claims, issued), env.digest).0)
  {
    AcceptKeepsFeed(env, s, SubmissionOf(t, claims, issued));
    AcceptKeepsRightful(env, s, t, claims, issued);
    AcceptTouches(s, SubmissionOf(t, claims, issued), env.digest);
  }

  // ---------------------------------------------------------------- the theorem

  // Changing one thread, or dropping it, leaves the others as they were.
  lemma OneSubmitter(env: Env, x: System, id: nat, t: Submitter)
    requires Safe(env, x) && SubmitterSafe(x.store, t)
    ensures Safe(env, x.(submitters := x.submitters[id := t]))
    ensures Safe(env, x.(submitters := x.submitters - {id}))
  {
  }

  lemma OneTicker(env: Env, x: System, id: nat, t: Ticker)
    requires Safe(env, x) && TickerSafe(env, x.store, t)
    ensures Safe(env, x.(tickers := x.tickers[id := t]))
    ensures Safe(env, x.(tickers := x.tickers - {id}))
  {
  }

  lemma ParseKeepsSafe(env: Env, x: System, id: nat, t: Submitter, text: string)
    requires Safe(env, x) && t.stage == Ready
    ensures Safe(env, x.(submitters := x.submitters[id := Parse(env, x.prefix, t, text)]))
  {
    OneSubmitter(env, x, id, Parse(env, x.prefix, t, text));
  }

  lemma LookupKeepsSafe(env: Env, x: System, id: nat, t: Submitter, claims: F.Claims)
    requires Safe(env, x) && SubmitterSafe(x.store, t) && t.stage == Parsed(claims)
    ensures Safe(env, x.(submitters := x.submitters[id := Lookup(x.store, t, claims)]))
  {
    OneSubmitter(env, x, id, Lookup(x.store, t, claims));
  }

  lemma ClearKeepsSafe(env: Env, x: System, id: nat, t: Submitter, claims: F.Claims, issued: IssuedFlag)
    requires Safe(env, x) && SubmitterSafe(x.store, t) && t.stage == Found(claims, issued)
    ensures Safe(env, x.(submitters := x.submitters[id := Clear(x.store, t, claims, issued)]))
  {
    OneSubmitter(env, x, id, Clear(x.store, t, claims, issued));
  }

  lemma SubmitStepKeepsSafe(env: Env, x: System, id: nat, a: Action)
    requires Safe(env, x) && id in x.submitters
    ensures Safe(env, StepSubmitter(env, x, id, x.submitters[id], a))
  {
    var t := x.submitters[id];
    assert SubmitterSafe(x.store, t);
    if a.SubmitTick? && t.stage.Entered? {
      OneSubmitter(env, x, id, t.(tick := CurrentTick(x.store), stage := Timed));
    } else if a.SubmitName? && t.stage.Timed? {
      OneSubmitter(env, x, id, t.(attacker := TeamName(x.store.targets, t.team), stage := Ready));
    } else if a.SubmitParse? && t.stage.Ready? {
      ParseKeepsSafe(env, x, id, t, a.text);
    } else if a.SubmitLookup? && t.stage.Parsed? {
      LookupKeepsSafe(env, x, id, t, t.stage.claims);
    } else if a.SubmitClear? && t.stage.Found? {
      ClearKeepsSafe(env, x, id, t, t.stage.claims, t.stage.issued);
    } else if a.SubmitAccept? && t.stage.Cleared? {
      var store := AcceptSubmission(x.store, SubmissionOf(t, t.stage.claims, t.stage.issued), env.digest).0;
      AcceptStepKeepsSafe(env, x, id, t, t.stage.claims, t.stage.issued, store);
    }
  }

  lemma AcceptStepKeepsSafe(env: Env, x: System, id: nat, t: Submitter, claims: F.Claims, issued: IssuedFlag,
                            store: Store)
    requires Safe(env, x) && SubmitterSafe(x.store, t) && t.stage == Cleared(claims, issued)
    requires store == AcceptSubmission(x.store, SubmissionOf(t, claims, issued), env.digest).0
    ensures Safe(env, x.(store := store, submitters := x.submitters[id := t.(stage := Ready)]))
  {
    AcceptKeepsStore(env, x.store, t, claims, issued);
    SafeAfter(env, x, store);
    OneSubmitter(env, x.(store := store), id, t.(stage := Ready));
  }

  lemma StartKeepsStore(env: Env, s: Store)
    requires StoreSafe(env, s)
    ensures StoreSafe(env, StartNextTick(s).0) && Extends(s, StartNextTick(s).0)
    ensures StartNextTick(s).1.Some? ==> 1 <= StartNextTick(s).1.value.id <= |StartNextTick(s).0.ticks|
    ensures StartNextTick(s).1.None? ==> StartNextTick(s).0 == s
  {
    StoreSafeKept(env, s, StartNextTick(s).0);
  }

  lemma StartKeepsSafe(env: Env, x: System, id: nat, store: Store, tick: Option<Tick>)
    requires Safe(env, x) && (store, tick) == StartNextTick(x.store)
    ensures Safe(env, x.(tickers := x.tickers - {id}))
    ensures tick.Some? ==> Safe(env, x.(store := store, tickers := x.tickers[id := Ticking(tick.value, {}, {})]))
  {
    StartKeepsStore(env, x.store);
    SafeAfter(env, x, store);
    OneTicker(env, x, id, Checked);
    if tick.Some? {
      OneTicker(env, x.(store := store), id, Ticking(tick.value, {}, {}));
    }
  }

  lemma EndKeepsSafe(env: Env, x: System, id: nat, tick: Tick)
    requires Safe(env, x) && tick.status != TickRunning
    ensures Safe(env, x.(store := x.store.(ticks := ReplaceTick(x.store.ticks, tick)), tickers := x.tickers - {id}))
  {
    var store := x.store.(ticks := ReplaceTick(x.store.ticks, tick));
    CompleteKeepsOrder(x.store.ticks, tick);
    StoreSafeKept(env, x.store, store);
    SafeAfter(env, x, store);
    OneTicker(env, x.(store := store), id, Checked);
  }

  lemma RecordKeepsSafe(env: Env, x: System, record: S.Record)
    requires Safe(env, x) && record.run.key.team in x.store.teams && record.run.key.challenge in x.store.challenges
    ensures Safe(env, x.(store := x.store.(checks := S.RecordMemory(x.store.checks, record))))
  {
    var store := x.store.(checks := S.RecordMemory(x.store.checks, record));
    StatesStayKnown(x.store, record);
    StoreSafeKept(env, x.store, store);
    SafeAfter(env, x, store);
  }

  lemma StatesStayKnown(s: Store, record: S.Record)
    requires StatesKnown(s) && record.run.key.team in s.teams && record.run.key.challenge in s.challenges
    ensures StatesKnown(s.(checks := S.RecordMemory(s.checks, record)))
  {
    assert forall k :: k in S.RecordMemory(s.checks, record).states ==> k in s.checks.states || k == record.run.key;
  }

  lemma ListKeepsSafe(env: Env, x: System, id: nat, t: Ticker, playable: set<Target>)
    requires Safe(env, x) && t.Ticking? && TickerSafe(env, x.store, t)
    requires forall target :: target in playable ==> target in x.store.targets
    ensures Safe(env, x.(tickers := x.tickers[id := Ticking(t.tick, playable, t.planted)]))
  {
    OneTicker(env, x, id, Ticking(t.tick, playable, t.planted));
  }

  lemma PlantKeepsSafe(env: Env, x: System, id: nat, t: Ticker, target: Target)
    requires Safe(env, x) && t.Ticking? && TickerSafe(env, x.store, t) && target in t.targets
    ensures var planted := t.planted + {Planted(env, x.prefix, target, t.tick.id)};
            Safe(env, x.(tickers := x.tickers[id := Ticking(t.tick, t.targets, planted)]))
  {
    PlantedIsGenuine(env, x.store, x.prefix, target, t.tick.id);
    OneTicker(env, x, id, Ticking(t.tick, t.targets, t.planted + {Planted(env, x.prefix, target, t.tick.id)}));
  }

  lemma PersistKeepsSafe(env: Env, x: System, t: Ticker, flag: IssuedFlag)
    requires F.HexMac(env.mac) && Safe(env, x) && t.Ticking? && TickerSafe(env, x.store, t) && flag in t.planted
    ensures Safe(env, x.(store := Issue(x.store, flag)))
  {
    PersistKeepsStore(env, x.store, flag);
    SafeAfter(env, x, Issue(x.store, flag));
  }

  lemma StartStepKeepsSafe(env: Env, x: System, id: nat, t: Ticker, a: Action)
    requires Safe(env, x) && a.TickStart?
    ensures Safe(env, StepTicker(env, x, id, t, a))
  {
    var (store, tick) := StartNextTick(x.store);
    StartKeepsSafe(env, x, id, store, tick);
  }

  lemma ListStepKeepsSafe(env: Env, x: System, id: nat, t: Ticker, a: Action)
    requires Safe(env, x) && TickerSafe(env, x.store, t) && a.TickList?
    ensures Safe(env, StepTicker(env, x, id, t, a))
  {
    if t.Ticking? {
      ListKeepsSafe(env, x, id, t, set target | target in x.store.targets && Playable(x.store, target));
    }
  }

  lemma PlantStepKeepsSafe(env: Env, x: System, id: nat, t: Ticker, a: Action)
    requires Safe(env, x) && TickerSafe(env, x.store, t) && a.TickPlant?
    ensures Safe(env, StepTicker(env, x, id, t, a))
  {
    if t.Ticking? && a.target in t.targets {
      PlantKeepsSafe(env, x, id, t, a.target);
    }
  }

  lemma RecordStepKeepsSafe(env: Env, x: System, id: nat, t: Ticker, a: Action)
    requires Safe(env, x) && TickerSafe(env, x.store, t) && a.TickRecord?
    ensures Safe(env, StepTicker(env, x, id, t, a))
  {
    if t.Ticking? && a.target in t.targets && About(a.record, a.target, t.tick.id) {
      RecordKeepsSafe(env, x, a.record);
    }
  }

  lemma PersistStepKeepsSafe(env: Env, x: System, id: nat, t: Ticker, a: Action)
    requires F.HexMac(env.mac) && Safe(env, x) && TickerSafe(env, x.store, t) && a.TickPersist?
    ensures Safe(env, StepTicker(env, x, id, t, a))
  {
    if t.Ticking? && a.flag in t.planted {
      PersistKeepsSafe(env, x, t, a.flag);
    }
  }

  lemma EndStepKeepsSafe(env: Env, x: System, id: nat, t: Ticker, a: Action)
    requires Safe(env, x) && a.TickEnd?
    ensures Safe(env, StepTicker(env, x, id, t, a))
  {
    if t.Ticking? && a.status != TickRunning {
      EndKeepsSafe(env, x, id, t.tick.(status := a.status));
    }
  }

  lemma TickStepKeepsSafe(env: Env, x: System, id: nat, a: Action)
    requires F.HexMac(env.mac) && Safe(env, x) && id in x.tickers && TickerAction(a)
    ensures Safe(env, StepTicker(env, x, id, x.tickers[id], a))
  {
    var t := x.tickers[id];
    assert TickerSafe(env, x.store, t);
    if a.TickStart? {
      StartStepKeepsSafe(env, x, id, t, a);
    } else if a.TickList? {
      ListStepKeepsSafe(env, x, id, t, a);
    } else if a.TickPlant? {
      PlantStepKeepsSafe(env, x, id, t, a);
    } else if a.TickRecord? {
      RecordStepKeepsSafe(env, x, id, t, a);
    } else if a.TickPersist? {
      PersistStepKeepsSafe(env, x, id, t, a);
    } else {
      EndStepKeepsSafe(env, x, id, t, a);
    }
  }

  lemma MaintenanceKeepsKeys(s: Store, challenge: int, on: bool, tick: int)
    ensures SetMaintenance(s, challenge, on).challenges.Keys == s.challenges.Keys
    ensures SetPlayFrom(s, challenge, tick).challenges.Keys == s.challenges.Keys
  {
    if challenge in s.challenges {
      assert s.challenges.Keys + {challenge} == s.challenges.Keys;
    }
  }

  // Organisers change the match, the gates of a service and stuck ticks, and nothing else.
  lemma OrganizedTouches(s: Store, a: Action)
    requires TicksInOrder(s.ticks)
    ensures var s' := Organized(s, a);
            && s' == s.(ticks := s'.ticks, challenges := s'.challenges, stored := s'.stored)
            && s'.challenges.Keys == s.challenges.Keys && TicksInOrder(s'.ticks) && |s'.ticks| == |s.ticks|
  {
    match a
    case Maintain(challenge, on) => MaintenanceKeepsKeys(s, challenge, on, 0);
    case DeferPlay(challenge, tick) => MaintenanceKeepsKeys(s, challenge, true, tick);
    case _ =>
  }

  lemma OrganizerStepKeepsSafe(env: Env, x: System, a: Action)
    requires Safe(env, x)
    ensures Safe(env, x.(store := Organized(x.store, a)))
  {
    OrganizedTouches(x.store, a);
    StoreSafeKept(env, x.store, Organized(x.store, a));
    SafeAfter(env, x, Organized(x.store, a));
  }

  lemma ServerStepKeepsSafe(env: Env, x: System, a: Action)
    requires Safe(env, x)
    ensures Safe(env, StepServer(env, x, a))
  {
    match a
    case SubmitBegin(id, team, now) =>
      OneSubmitter(env, x, id, Submitter(team, 0, "", {}, Entered));
    case SubmitEnd(id) => OneSubmitter(env, x, id, Submitter(0, 0, "", {}, Ready));
    case TickCheck(id, now) => OneTicker(env, x, id, Checked);
    case TickAbandon(id) => OneTicker(env, x, id, Checked);
    case _ =>
  }

  lemma StepKeepsSafe(env: Env, x: System, a: Action)
    requires F.HexMac(env.mac) && Safe(env, x)
    ensures Safe(env, Step(env, x, a))
  {
    if SubmitterAction(a) {
      if a.id in x.submitters {
        SubmitStepKeepsSafe(env, x, a.id, a);
      }
    } else if TickerAction(a) {
      if a.id in x.tickers {
        TickStepKeepsSafe(env, x, a.id, a);
      }
    } else if OrganizerAction(a) {
      OrganizerStepKeepsSafe(env, x, a);
    } else {
      ServerStepKeepsSafe(env, x, a);
    }
  }

  lemma {:induction false} RunKeepsSafe(env: Env, x: System, actions: seq<Action>)
    requires F.HexMac(env.mac) && Safe(env, x)
    ensures Safe(env, Run(env, x, actions))
    decreases |actions|
  {
    if actions != [] {
      StepKeepsSafe(env, x, actions[0]);
      RunKeepsSafe(env, Step(env, x, actions[0]), actions[1..]);
    }
  }

  lemma BootIsSafe(env: Env, prefix: string, teams: map<int, string>, targets: seq<Target>,
                   challenges: map<int, Challenge>)
    requires TargetsKnown(Fresh(teams, targets, challenges))
    ensures Safe(env, Boot(prefix, teams, targets, challenges))
  {
    var store := Boot(prefix, teams, targets, challenges).store;
    assert FeedLists(store.accepted, store.feed, env.digest, []);
  }

  // Over every interleaving: tick ids are 1..n with only the last possibly running; every accepted
  // submission is for an issued flag of another team, in the tick that issued it, under its own
  // (flag, team) key; and the feed lists the accepted submissions one for one.
  lemma EveryRunIsSafe(env: Env, prefix: string, teams: map<int, string>, targets: seq<Target>,
                       challenges: map<int, Challenge>, actions: seq<Action>) returns (keys: seq<string>)
    requires F.HexMac(env.mac) && TargetsKnown(Fresh(teams, targets, challenges))
    ensures var s := Run(env, Boot(prefix, teams, targets, challenges), actions).store;
            && TicksInOrder(s.ticks) && FlagsGenuine(env, s) && AcceptedRightful(s)
            && Matched(s.accepted, s.feed, env.digest, keys) && EachOnce(s.accepted, keys)
  {
    var boot := Boot(prefix, teams, targets, challenges);
    BootIsSafe(env, prefix, teams, targets, challenges);
    RunKeepsSafe(env, boot, actions);
    var s := Run(env, boot, actions).store;
    keys :| FeedLists(s.accepted, s.feed, env.digest, keys);
    FeedIsOneToOne(s.accepted, s.feed, env.digest, keys);
  }

  // ---------------------------------------------------------------- consequences

  // A submission is turned away as a duplicate only for an accepted submission of the same flag by the same team.
  lemma DuplicateIff(s: Store, sub: Submission, digest: string -> string)
    requires AcceptedRightful(s)
    ensures AcceptSubmission(s, sub, digest).1 == Duplicate <==>
            && Acceptable(s, sub)
            && exists k :: k in s.accepted && s.accepted[k].flag == sub.flag && s.accepted[k].team == sub.team
  {
    var key := SubmissionKey(sub.flag, sub.team);
    if key in s.accepted {
      SubmissionKeyInjective(s.accepted[key].flag, s.accepted[key].team, sub.flag, sub.team);
    }
  }

  lemma AttackPostingOf(env: Env, s: Store, k: string)
    requires StoreSafe(env, s) && k in s.accepted
    ensures AttackPosting(LedgerOf(s), s.accepted[k]).team == s.accepted[k].team
    ensures AttackPosting(LedgerOf(s), s.accepted[k]).challenge in LedgerOf(s).services
  {
    assert Rightful(s, s.accepted[k]);
    assert Genuine(env, s, s.flags[s.accepted[k].flag]);
  }

  // In a safe store the recomputation fails exactly when a submission came from a team it does not know.
  lemma PanicsIff(env: Env, s: Store, curves: Curves)
    requires StoreSafe(env, s)
    ensures B.Known(LedgerOf(s), curves) <==> forall k :: k in s.accepted ==> s.accepted[k].team in s.teams
  {
    KnownParts(env, s, curves);
    KnownAttacks(env, s);
  }

  lemma KnownAttacks(env: Env, s: Store)
    requires StoreSafe(env, s)
    ensures B.Within(AttackBook(LedgerOf(s)), LedgerOf(s)) <==>
            forall k :: k in s.accepted ==> s.accepted[k].team in s.teams
  {
    var l := LedgerOf(s);
    forall k | k in s.accepted
      ensures AttackPosting(l, s.accepted[k]).team == s.accepted[k].team
      ensures AttackPosting(l, s.accepted[k]).challenge in l.services
    {
      AttackPostingOf(env, s, k);
    }
    AttackBookWithin(l);
  }

  lemma AttackBookWithin(l: Ledger)
    ensures B.Within(AttackBook(l), l) <==>
            forall k :: k in l.accepted ==>
              AttackPosting(l, l.accepted[k]).team in l.teams && AttackPosting(l, l.accepted[k]).challenge in l.services
  {
    assert AttackBook(l).Keys == l.accepted.Keys;
    assert forall k :: k in l.accepted ==> AttackBook(l)[k] == AttackPosting(l, l.accepted[k]);
  }

  lemma KnownParts(env: Env, s: Store, curves: Curves)
    requires StoreSafe(env, s)
    ensures B.Within(DefenseBook(LedgerOf(s), curves), LedgerOf(s))
    ensures B.Within(SlaBook(LedgerOf(s), curves), LedgerOf(s))
  {
    var l := LedgerOf(s);
    forall f | f in DefenseBook(l, curves)
      ensures DefenseBook(l, curves)[f].team in l.teams && DefenseBook(l, curves)[f].challenge in l.services
    {
      assert Genuine(env, s, s.flags[f]);
    }
  }

  // The ledger of a safe store is filed under the keys the scoring lemmas ask for.
  lemma SafeLedgerIsFiled(env: Env, s: Store)
    requires StoreSafe(env, s)
    ensures Filed(LedgerOf(s))
  {
  }

  // A submission enters the store only while the stored match is running and its service is open, and for good.
  lemma OnlyWhileOpen(env: Env, x: System, a: Action, k: string)
    requires k !in x.store.accepted && k in Step(env, x, a).store.accepted
    ensures a.SubmitAccept? && x.store.stored.state == M.Running && x.store.stored.accepting
    ensures var sub := Step(env, x, a).store.accepted[k];
            && x.store.ticks != [] && sub.tick == x.store.ticks[|x.store.ticks| - 1].id
            && (sub.challenge > 0 ==> OpenAt(x.store, sub.challenge, sub.tick))
  {
    if OrganizerAction(a) {
      OrganizedKeepsAccepted(x.store, a);
    } else if TickerAction(a) && a.id in x.tickers {
      TickerKeeps(env, x, a.id, x.tickers[a.id], a);
    }
  }

  lemma OrganizedKeepsAccepted(s: Store, a: Action)
    ensures Organized(s, a).accepted == s.accepted && Organized(s, a).feed == s.feed
  {
  }

  ghost predicate Keeps(s: Store, s': Store) {
    forall k :: k in s.accepted ==> k in s'.accepted && s'.accepted[k] == s.accepted[k]
  }

  lemma AcceptKeeps(s: Store, sub: Submission, digest: string -> string)
    ensures Keeps(s, AcceptSubmission(s, sub, digest).0)
  {
  }

  lemma SubmitterKeeps(env: Env, x: System, id: nat, t: Submitter, a: Action)
    ensures Keeps(x.store, StepSubmitter(env, x, id, t, a).store)
  {
    if a.SubmitAccept? && t.stage.Cleared? {
      AcceptKeeps(x.store, SubmissionOf(t, t.stage.claims, t.stage.issued), env.digest);
    } else {
      assert StepSubmitter(env, x, id, t, a).store == x.store;
    }
  }

  lemma TickerKeeps(env: Env, x: System, id: nat, t: Ticker, a: Action)
    ensures StepTicker(env, x, id, t, a).store.accepted == x.store.accepted
  {
  }

  lemma StepKeepsAccepted(env: Env, x: System, a: Action)
    ensures Keeps(x.store, Step(env, x, a).store)
  {
    if SubmitterAction(a) {
      if a.id in x.submitters {
        SubmitterKeeps(env, x, a.id, x.submitters[a.id], a);
      }
    } else if TickerAction(a) {
      if a.id in x.tickers {
        TickerKeeps(env, x, a.id, x.tickers[a.id], a);
      }
    } else if OrganizerAction(a) {
      OrganizedKeepsAccepted(x.store, a);
    }
  }

  // What has been accepted stays as it was recorded.
  lemma {:induction false} AcceptedForever(env: Env, x: System, actions: seq<Action>, k: string)
    requires k in x.store.accepted
    ensures k in Run(env, x, actions).store.accepted && Run(env, x, actions).store.accepted[k] == x.store.accepted[k]
    decreases |actions|
  {
    if actions != [] {
      StepKeepsAccepted(env, x, actions[0]);
      AcceptedForever(env, Step(env, x, actions[0]), actions[1..], k);
    }
  }

  // Acceptance applies the gate the maintenance check reads, to challenges with positive ids only.
  lemma GatesAgree(env: Env, s: Store, challenge: int)
    requires StoreSafe(env, s)
    ensures GatedAtAcceptance(s, challenge) <==> challenge > 0 && InMaintenance(s, challenge)
  {
    HighestIsLast(s.ticks);
  }

  // What one accepted submission does to every team's numbers, in a store any run can reach.
  lemma CaptureMovesScores(env: Env, s: Store, sub: Submission, curves: Curves, scope: P.Scope)
    requires StoreSafe(env, s) && sub.flag in s.flags && !scope.Everyone?
    requires AcceptSubmission(s, sub, env.digest).1 == Accepted
    ensures var l, l' := LedgerOf(s), LedgerOf(AcceptSubmission(s, sub, env.digest).0);
            var f, c := s.flags[sub.flag], |Captures(LedgerOf(s), sub.flag)|;
            var fall := (if c == 0 then 0.0 else (curves.power)(c)) - (curves.power)(c + 1);
            && (scope.team == sub.team && Hits(scope, sub.team, f.challenge) ==>
                  Attack(l', scope) == Attack(l, scope) + 1.0 + 1.0 / (c + 1) as real)
            && (scope.team != sub.team && CapturedBy(l, sub.flag, scope.team)
                && Hits(scope, scope.team, f.challenge) ==>
                  c > 0 && Attack(l', scope) == Attack(l, scope) - Dilution(c))
            && (!Hits(scope, scope.team, f.challenge)
                || (scope.team != sub.team && !CapturedBy(l, sub.flag, scope.team)) ==>
                  Attack(l', scope) == Attack(l, scope))
            && Defense(l', curves, scope)
                 == Defense(l, curves, scope) + (if Hits(scope, f.owner, f.challenge) then fall else 0.0)
            && Sla(l', curves, scope) == Sla(l, curves, scope)
            && Attack(l', P.Everyone) == Attack(l, P.Everyone) + (if c == 0 then 2.0 else 1.0)
  {
    var l, stamped := LedgerOf(s), sub.(tick := CurrentTick(s));
    AcceptIsOneEntry(s, sub, env.digest);
    SafeLedgerIsFiled(env, s);
    AcceptMovesAttack(l, stamped, scope);
    AcceptMovesDefense(l, curves, stamped, scope);
    AcceptKeepsSla(l, curves, stamped, scope);
    AcceptRaisesTotalAttack(l, stamped);
  }

  // ---------------------------------------------------------------- runs put together

  function With(x: System, id: nat, t: Submitter): System { x.(submitters := x.submitters[id := t]) }

  lemma {:induction false} RunConcat(env: Env, x: System, a: seq<Action>, b: seq<Action>)
    ensures Run(env, x, a + b) == Run(env, Run(env, x, a), b)
    decreases |a|
  {
    if a == [] {
      assert a + b == b;
    } else {
      RunConcat(env, Step(env, x, a[0]), a[1..], b);
      assert (a + b)[1..] == a[1..] + b;
    }
  }

  lemma FourSteps(env: Env, x: System, a: Action, b: Action, c: Action, d: Action)
    ensures Run(env, x, [a, b, c, d]) == Step(env, Step(env, Step(env, Step(env, x, a), b), c), d)
  {
    assert [a, b, c, d][1..] == [b, c, d] && [b, c, d][1..] == [c, d] && [c, d][1..] == [d] && [d][1..] == [];
    RunTwo(env, Step(env, Step(env, x, a), b), c, d);
  }

  lemma RunTwo(env: Env, x: System, c: Action, d: Action)
    ensures Run(env, x, [c, d]) == Step(env, Step(env, x, c), d)
  {
    assert [c, d][1..] == [d] && [d][1..] == [];
    assert Run(env, Step(env, Step(env, x, c), d), []) == Step(env, Step(env, x, c), d);
  }

  // ---------------------------------------------------------------- how calls come, work and go

  // The submitter goes by the name of its team's first target, or by its number if it has none.
  lemma {:induction false} TeamNameReads(targets: seq<Target>, team: int)
    ensures (forall i :: 0 <= i < |targets| ==> targets[i].team != team) ==>
              TeamName(targets, team) == "Team " + PrintInt(team)
    ensures forall i :: 0 <= i < |targets| && targets[i].team == team
                        && (forall j :: 0 <= j < i ==> targets[j].team != team) ==>
              TeamName(targets, team) == targets[i].teamName
  {
    if targets != [] {
      TeamNameReads(targets[1..], team);
      assert targets == [targets[0]] + targets[1..];
    }
  }

  // A submission is admitted only while the match is effectively running, and ends only by its own step.
  lemma SubmissionsComeAndGo(env: Env, x: System, a: Action, id: nat)
    ensures var y := Step(env, x, a);
            && (id !in x.submitters && id in y.submitters ==>
                  a.SubmitBegin? && a.id == id && M.ApplyWindow(x.store.stored, env.window, a.now).state == M.Running
                  && y.submitters[id] == Submitter(a.team, 0, "", {}, Entered))
            && (id in x.submitters && id !in y.submitters ==> a == SubmitEnd(id))
  {
  }

  // So is a tick, which ends when another is in progress, when it is completed or when it is given up.
  lemma TicksComeAndGo(env: Env, x: System, a: Action, id: nat)
    ensures var y := Step(env, x, a);
            && (id !in x.tickers && id in y.tickers ==>
                  a.TickCheck? && a.id == id && M.ApplyWindow(x.store.stored, env.window, a.now).state == M.Running)
            && (id in x.tickers && id !in y.tickers ==>
                  a == TickAbandon(id) || a == TickStart(id) || (a.TickEnd? && a.id == id))
  {
  }

  // What an organiser does reaches calls under way only through the store, and never what has been recorded.
  lemma OrganizersTouchStoreOnly(env: Env, x: System, a: Action)
    requires a.Organize? || a.Maintain? || a.DeferPlay? || a.Reap?
    ensures var y := Step(env, x, a);
            && y == x.(store := y.store)
            && y.store.accepted == x.store.accepted && y.store.flags == x.store.flags && y.store.feed == x.store.feed
            && (a.Organize? ==> y.store == x.store.(stored := M.Apply(x.store.stored, a.op).0))
  {
  }

  // A tick works on the targets whose service is neither in maintenance nor deferred past every tick there is.
  lemma TickLists(env: Env, x: System, id: nat, target: Target)
    requires id in x.tickers && x.tickers[id].Ticking?
    ensures var listed := Step(env, x, TickList(id)).tickers[id];
            && listed.Ticking?
            && (target in listed.targets <==> target in x.store.targets && Served(x.store, target.challenge))
  {
    HighestReads(x.store.ticks);
  }

  // It makes up one flag per target, which expires with the tick.
  lemma TickPlants(env: Env, x: System, id: nat, target: Target)
    requires id in x.tickers && x.tickers[id].Ticking?
    ensures var t, planting := x.tickers[id], Step(env, x, TickPlant(id, target)).tickers[id];
            var text := F.Issue(F.Codec(env.mac, x.prefix), target.team, target.challenge, t.tick.id, t.tick.id);
            planting == if target in t.targets
                        then t.(planted := t.planted + {IssuedFlag(text, target.team, target.teamName, target.challenge,
                                                                   target.service, t.tick.id, t.tick.id)})
                        else t
  {
  }

  // Flags enter the store only by being persisted by the tick that made them up.
  lemma FlagsAreMadeUp(env: Env, x: System, a: Action)
    ensures var y := Step(env, x, a);
            y.store.flags != x.store.flags ==>
              && a.TickPersist? && a.id in x.tickers && x.tickers[a.id].Ticking?
              && a.flag in x.tickers[a.id].planted && y.store.flags == x.store.flags[a.flag.flag := a.flag]
  {
  }

  predicate Served(s: Store, challenge: int) {
    challenge in s.challenges ==>
      && !s.challenges[challenge].maintenance
      && (s.challenges[challenge].playFrom > 0 ==>
            exists i :: 0 <= i < |s.ticks| && s.ticks[i].id >= s.challenges[challenge].playFrom)
  }
}
