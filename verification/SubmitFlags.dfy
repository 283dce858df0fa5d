/**
 One submitFlags call with nothing else going on: a loop over the submitted texts. It is a
 particular run of the interleaved steps, so everything proved of those holds of it.
 */
module SubmitFlags {
  import opened Text
  import opened Scoring
  import opened GameStore
  import opened GameRun
  import F = FlagCodec
  import M = MatchWindow
  import B = Scoreboard

  // "invalid" with one of two details, "duplicate" or "accepted".
  datatype Result = Wrong | UnderMaintenance | Repeated | Captured

  function ResultOf(verdict: Verdict): Result {
    match verdict
    case NoLongerValid => Wrong
    case Duplicate => Repeated
    case Accepted => Captured
  }

  datatype Turn = Turn(store: Store, thread: Submitter, result: Result)

  // What one submitted text does, from parsing to acceptance.
  function SubmitOne(env: Env, prefix: string, s: Store, t: Submitter, text: string): Turn {
    var trimmed := Trim(GoSpace, text);
    if trimmed == "" then Turn(s, t, Wrong)
    else if trimmed in t.seen then Turn(s, t, Repeated)
    else
      var noted := t.(seen := t.seen + {trimmed});
      match F.Parse(F.Codec(env.mac, prefix), trimmed)
      case None => Turn(s, noted, Wrong)
      case Some(claims) =>
        if !ClaimsPass(t, claims) then Turn(s, noted, Wrong) else SubmitClaims(env, s, noted, trimmed, claims)
  }

  // The part of it that the store decides.
  function SubmitClaims(env: Env, s: Store, t: Submitter, flag: string, claims: F.Claims): Turn {
    if flag !in s.flags || !SameClaims(s.flags[flag], claims) then Turn(s, t, Wrong)
    else if InMaintenance(s, s.flags[flag].challenge) then Turn(s, t, UnderMaintenance)
    else
      var accepted := AcceptSubmission(s, SubmissionOf(t, claims, s.flags[flag]), env.digest);
      Turn(accepted.0, t, ResultOf(accepted.1))
  }

  datatype Batch = Batch(store: Store, thread: Submitter, results: seq<Result>)

  function SubmitAll(env: Env, prefix: string, s: Store, t: Submitter, texts: seq<string>): (batch: Batch)
    ensures |batch.results| == |texts|
  {
    if texts == [] then Batch(s, t, [])
    else
      var before := SubmitAll(env, prefix, s, t, texts[..|texts| - 1]);
      var turn := SubmitOne(env, prefix, before.store, before.thread, texts[|texts| - 1]);
      Batch(turn.store, turn.thread, before.results + [turn.result])
  }

  // ---------------------------------------------------------------- the method

  datatype Outcome = Refused(state: M.MatchState) | Crashed | Answered(results: seq<Result>)

  // Crashed: the scoreboard recomputation hit a team it does not list, after the submission was stored.
  method SubmitFlags(store: MemoryGameStore, env: Env, prefix: string, team: int, texts: seq<string>, now: int,
                     curves: Curves)
    returns (outcome: Outcome, ghost done: nat)
    modifies store
    ensures outcome.Refused? <==> M.ApplyWindow(old(store.stored), env.window, now).state != M.Running
    ensures outcome.Refused? ==> store.Model() == old(store.Model())
    ensures done <= |texts| && (outcome.Answered? ==> done == |texts|)
    ensures !outcome.Refused? ==>
              var t := Begun(old(store.Model()), team);
              store.Model() == SubmitAll(env, prefix, old(store.Model()), t, texts[..done]).store
    ensures outcome.Answered? ==>
              var t := Begun(old(store.Model()), team);
              outcome.results == SubmitAll(env, prefix, old(store.Model()), t, texts).results
    ensures !outcome.Refused? ==>
              var t := Begun(old(store.Model()), team);
              && (outcome.Crashed? <==> !Survives(env, prefix, old(store.Model()), t, texts[..done], curves))
              && (outcome.Crashed? ==>
                    done > 0 && Survives(env, prefix, old(store.Model()), t, texts[..done - 1], curves))
  {
    done := 0;
    var state := M.ApplyWindow(store.stored, env.window, now).state;
    if state != M.Running {
      return Refused(state), 0;
    }
    var results, panicked;
    results, panicked, done := SubmitTexts(store, env, prefix, Begun(store.Model(), team), texts, curves);
    outcome := if panicked then Crashed else Answered(results);
    assert texts[..|texts|] == texts;
  }

  // No text is accepted that leaves the recomputation with a team it does not list.
  ghost predicate Survives(env: Env, prefix: string, s: Store, t: Submitter, texts: seq<string>, curves: Curves) {
    texts == [] ||
    (&& Survives(env, prefix, s, t, texts[..|texts| - 1], curves)
     && var batch := SubmitAll(env, prefix, s, t, texts);
        !(batch.results[|texts| - 1] == Captured && !B.Known(LedgerOf(batch.store), curves)))
  }

  lemma SubmitAllNext(env: Env, prefix: string, s: Store, t: Submitter, texts: seq<string>, i: nat)
    requires i < |texts|
    ensures var before := SubmitAll(env, prefix, s, t, texts[..i]);
            var turn := SubmitOne(env, prefix, before.store, before.thread, texts[i]);
            SubmitAll(env, prefix, s, t, texts[..i + 1])
              == Batch(turn.store, turn.thread, before.results + [turn.result])
  {
    assert texts[..i + 1][..i] == texts[..i];
  }

  method SubmitTexts(store: MemoryGameStore, env: Env, prefix: string, begun: Submitter, texts: seq<string>,
                     curves: Curves)
    returns (results: seq<Result>, panicked: bool, ghost done: nat)
    modifies store
    ensures done <= |texts| && (!panicked ==> done == |texts|)
    ensures var batch := SubmitAll(env, prefix, old(store.Model()), begun, texts[..done]);
            store.Model() == batch.store && results == batch.results
    ensures panicked <==> !Survives(env, prefix, old(store.Model()), begun, texts[..done], curves)
    ensures panicked ==> done > 0 && Survives(env, prefix, old(store.Model()), begun, texts[..done - 1], curves)
  {
    ghost var s := store.Model();
    var t := begun;
    results, done := [], 0;
    for i := 0 to |texts|
      invariant done == i
      invariant Batch(store.Model(), t, results) == SubmitAll(env, prefix, s, begun, texts[..i])
      invariant Survives(env, prefix, s, begun, texts[..i], curves)
    {
      t, results, panicked := SubmitNext(store, env, prefix, t, results, texts, i, curves, s, begun);
      assert texts[..i + 1][..i] == texts[..i];
      done := i + 1;
      if panicked {
        return;
      }
    }
    panicked := false;
  }

  lemma SurvivesNext(env: Env, prefix: string, s: Store, t: Submitter, texts: seq<string>, i: nat, batch: Batch,
                     curves: Curves)
    requires i < |texts| && batch == SubmitAll(env, prefix, s, t, texts[..i + 1])
    requires Survives(env, prefix, s, t, texts[..i], curves)
    ensures Survives(env, prefix, s, t, texts[..i + 1], curves)
       <==> !(batch.results[i] == Captured && !B.Known(LedgerOf(batch.store), curves))
  {
    assert texts[..i + 1][..i] == texts[..i];
  }

  // One turn of the loop.
  method SubmitNext(store: MemoryGameStore, env: Env, prefix: string, t: Submitter, results: seq<Result>,
                    texts: seq<string>, i: nat, curves: Curves, ghost s: Store, ghost begun: Submitter)
    returns (t': Submitter, results': seq<Result>, panicked: bool)
    requires i < |texts| && Batch(store.Model(), t, results) == SubmitAll(env, prefix, s, begun, texts[..i])
    requires Survives(env, prefix, s, begun, texts[..i], curves)
    modifies store
    ensures Batch(store.Model(), t', results') == SubmitAll(env, prefix, s, begun, texts[..i + 1])
    ensures panicked <==> !Survives(env, prefix, s, begun, texts[..i + 1], curves)
  {
    SubmitAllNext(env, prefix, s, begun, texts, i);
    var result;
    t', result, panicked := SubmitText(store, env, prefix, t, texts[i], curves);
    results' := results + [result];
    SurvivesNext(env, prefix, s, begun, texts, i, Batch(store.Model(), t', results'), curves);
  }

  // The thread as it stands once match, tick and team name have been read.
  function Begun(s: Store, team: int): Submitter {
    Submitter(team, CurrentTick(s), TeamName(s.targets, team), {}, Ready)
  }

  method SubmitText(store: MemoryGameStore, env: Env, prefix: string, t: Submitter, text: string, curves: Curves)
    returns (t': Submitter, result: Result, panicked: bool)
    modifies store
    ensures Turn(store.Model(), t', result) == SubmitOne(env, prefix, old(store.Model()), t, text)
    ensures panicked <==> result == Captured && !B.Known(LedgerOf(store.Model()), curves)
  {
    panicked := false;
    var trimmed := Trim(GoSpace, text);
    if trimmed == "" {
      return t, Wrong, false;
    }
    if trimmed in t.seen {
      return t, Repeated, false;
    }
    t' := t.(seen := t.seen + {trimmed});
    var claims := F.Parse(F.Codec(env.mac, prefix), trimmed);
    if claims.None? || !ClaimsPass(t, claims.value) {
      return t', Wrong, false;
    }
    result, panicked := SubmitParsed(store, env, t', trimmed, claims.value, curves);
  }

  method SubmitParsed(store: MemoryGameStore, env: Env, t: Submitter, flag: string, claims: F.Claims, curves: Curves)
    returns (result: Result, panicked: bool)
    modifies store
    ensures Turn(store.Model(), t, result) == SubmitClaims(env, old(store.Model()), t, flag, claims)
    ensures panicked <==> result == Captured && !B.Known(LedgerOf(store.Model()), curves)
  {
    var issued := store.LookupIssuedFlag(flag);
    if issued.None? || !SameClaims(issued.value, claims) {
      return Wrong, false;
    }
    var gated := store.IsChallengeInMaintenance(issued.value.challenge);
    if gated {
      return UnderMaintenance, false;
    }
    var verdict;
    ghost var ids, order;
    var sub := SubmissionOf(t, claims, issued.value);
    verdict, panicked, ids, order := store.AcceptFlagSubmission(sub, env.digest, curves);
    result := ResultOf(verdict);
  }

  // ---------------------------------------------------------------- a run of the steps

  function Begin(id: nat, team: int, now: int): seq<Action> {
    [SubmitBegin(id, team, now), SubmitTick(id), SubmitName(id)]
  }

  function Script(id: nat, text: string): seq<Action> {
    [SubmitParse(id, text), SubmitLookup(id), SubmitClear(id), SubmitAccept(id)]
  }

  function Scripts(id: nat, texts: seq<string>): seq<Action> {
    if texts == [] then [] else Scripts(id, texts[..|texts| - 1]) + Script(id, texts[|texts| - 1])
  }

  // The claims carry the trimmed text itself.
  lemma ParsedValue(codec: F.Codec, text: string)
    ensures var parsed := F.Parse(codec, Trim(GoSpace, text));
            parsed.Some? ==> parsed.value.value == Trim(GoSpace, text)
  {
    var trimmed := Trim(GoSpace, text);
    TrimIsTrimmed(GoSpace, text);
    TrimOfTrimmed(GoSpace, trimmed);
  }

  // A thread that is between texts ignores the later steps of a script.
  lemma IdleSteps(env: Env, x: System, id: nat)
    requires id in x.submitters && x.submitters[id].stage == Ready
    ensures Step(env, x, SubmitLookup(id)) == x && Step(env, x, SubmitClear(id)) == x
    ensures Step(env, x, SubmitAccept(id)) == x
  {
  }

  lemma ParseIs(env: Env, x: System, id: nat, t: Submitter, text: string)
    requires id in x.submitters && x.submitters[id] == t && t.stage == Ready
    ensures Step(env, x, SubmitParse(id, text)) == With(x, id, Parse(env, x.prefix, t, text))
  {
  }

  lemma LookupIs(env: Env, x: System, id: nat, t: Submitter, claims: F.Claims)
    requires t.stage == Parsed(claims)
    ensures Step(env, With(x, id, t), SubmitLookup(id)) == With(x, id, Lookup(x.store, t, claims))
  {
    var next := Lookup(x.store, t, claims);
    assert With(x, id, t).submitters[id := next] == x.submitters[id := next];
  }

  lemma ClearIs(env: Env, x: System, id: nat, t: Submitter, claims: F.Claims, issued: IssuedFlag)
    requires t.stage == Found(claims, issued)
    ensures Step(env, With(x, id, t), SubmitClear(id)) == With(x, id, Clear(x.store, t, claims, issued))
  {
    var next := Clear(x.store, t, claims, issued);
    assert With(x, id, t).submitters[id := next] == x.submitters[id := next];
  }

  lemma AcceptIs(env: Env, x: System, id: nat, t: Submitter, claims: F.Claims, issued: IssuedFlag)
    requires t.stage == Cleared(claims, issued)
    ensures Step(env, With(x, id, t), SubmitAccept(id))
         == With(x.(store := AcceptSubmission(x.store, SubmissionOf(t, claims, issued), env.digest).0), id,
                 t.(stage := Ready))
  {
    assert With(x, id, t).submitters[id := t.(stage := Ready)] == x.submitters[id := t.(stage := Ready)];
  }

  // How a turn ends, by the stage it gets to.
  lemma TurnOf(env: Env, prefix: string, s: Store, t: Submitter, text: string)
    requires t.stage == Ready
    ensures var turn, t1 := SubmitOne(env, prefix, s, t, text), Parse(env, prefix, t, text);
            && (t1.stage.Ready? ==> turn.store == s && turn.thread == t1)
            && (t1.stage.Parsed? ==>
                  var t2 := Lookup(s, t1, t1.stage.claims);
                  && (t2.stage.Ready? ==> turn.store == s && turn.thread == t2)
                  && (t2.stage.Found? ==>
                        var t3 := Clear(s, t2, t2.stage.claims, t2.stage.issued);
                        && (t3.stage.Ready? ==> turn.store == s && turn.thread == t3)
                        && (t3.stage.Cleared? ==>
                              var sub := SubmissionOf(t3, t3.stage.claims, t3.stage.issued);
                              && turn.store == AcceptSubmission(s, sub, env.digest).0
                              && turn.thread == t3.(stage := Ready))))
  {
    ParsedValue(F.Codec(env.mac, prefix), text);
  }

  // Undisturbed, the four steps of one text do exactly what its turn does.
  lemma TurnIsRun(env: Env, x: System, id: nat, t: Submitter, text: string)
    requires id in x.submitters && x.submitters[id] == t && t.stage == Ready
    ensures var turn := SubmitOne(env, x.prefix, x.store, t, text);
            Run(env, x, Script(id, text)) == With(x.(store := turn.store), id, turn.thread)
  {
    FourSteps(env, x, SubmitParse(id, text), SubmitLookup(id), SubmitClear(id), SubmitAccept(id));
    TurnIsSteps(env, x, id, t, text);
  }

  lemma TurnIsSteps(env: Env, x: System, id: nat, t: Submitter, text: string)
    requires id in x.submitters && x.submitters[id] == t && t.stage == Ready
    ensures var turn, x1 := SubmitOne(env, x.prefix, x.store, t, text), Step(env, x, SubmitParse(id, text));
            Step(env, Step(env, Step(env, x1, SubmitLookup(id)), SubmitClear(id)), SubmitAccept(id))
              == With(x.(store := turn.store), id, turn.thread)
  {
    var t1 := Parse(env, x.prefix, t, text);
    TurnOf(env, x.prefix, x.store, t, text);
    ParseIs(env, x, id, t, text);
    match t1.stage
    case Ready => IdleSteps(env, With(x, id, t1), id);
    case Parsed(claims) => RestOfTurn(env, x, id, t1, claims);
  }

  lemma RestOfTurn(env: Env, x: System, id: nat, t1: Submitter, claims: F.Claims)
    requires t1.stage == Parsed(claims)
    ensures var found := Step(env, With(x, id, t1), SubmitLookup(id));
            var last := Step(env, Step(env, found, SubmitClear(id)), SubmitAccept(id));
            var t2 := Lookup(x.store, t1, claims);
            && (t2.stage.Ready? ==> last == With(x, id, t2))
            && (t2.stage.Found? ==>
                  var t3 := Clear(x.store, t2, t2.stage.claims, t2.stage.issued);
                  && (t3.stage.Ready? ==> last == With(x, id, t3))
                  && (t3.stage.Cleared? ==>
                        var sub := SubmissionOf(t3, t3.stage.claims, t3.stage.issued);
                        var store := AcceptSubmission(x.store, sub, env.digest).0;
                        last == With(x.(store := store), id, t3.(stage := Ready))))
  {
    var t2 := Lookup(x.store, t1, claims);
    LookupIs(env, x, id, t1, claims);
    if t2.stage.Ready? {
      IdleSteps(env, With(x, id, t2), id);
    } else {
      ClearIs(env, x, id, t2, t2.stage.claims, t2.stage.issued);
      var t3 := Clear(x.store, t2, t2.stage.claims, t2.stage.issued);
      if t3.stage.Ready? {
        IdleSteps(env, With(x, id, t3), id);
      } else {
        AcceptIs(env, x, id, t3, t3.stage.claims, t3.stage.issued);
      }
    }
  }

  lemma {:induction false} BatchIsRun(env: Env, x: System, id: nat, t: Submitter, texts: seq<string>)
    requires id in x.submitters && x.submitters[id] == t && t.stage == Ready
    ensures var batch := SubmitAll(env, x.prefix, x.store, t, texts);
            && batch.thread.stage == Ready
            && Run(env, x, Scripts(id, texts)) == With(x.(store := batch.store), id, batch.thread)
  {
    if texts == [] {
      assert x.submitters[id := t] == x.submitters;
    } else {
      var front, last := texts[..|texts| - 1], texts[|texts| - 1];
      BatchIsRun(env, x, id, t, front);
      var before := SubmitAll(env, x.prefix, x.store, t, front);
      var x1 := With(x.(store := before.store), id, before.thread);
      RunConcat(env, x, Scripts(id, front), Script(id, last));
      TurnIsRun(env, x1, id, before.thread, last);
      TurnEndsReady(env, x.prefix, before.store, before.thread, last);
      var turn := SubmitOne(env, x.prefix, before.store, before.thread, last);
      assert x1.submitters[id := turn.thread] == x.submitters[id := turn.thread];
    }
  }

  // Undisturbed, a whole call is a run: the three reads it begins with, then its texts.
  lemma CallIsRun(env: Env, x: System, id: nat, team: int, now: int, texts: seq<string>)
    requires id !in x.submitters && Running(env, x.store, now)
    ensures var batch := SubmitAll(env, x.prefix, x.store, Begun(x.store, team), texts);
            Run(env, x, Begin(id, team, now) + Scripts(id, texts)) == With(x.(store := batch.store), id, batch.thread)
  {
    var t := Begun(x.store, team);
    BeginIsRun(env, x, id, team, now);
    RunConcat(env, x, Begin(id, team, now), Scripts(id, texts));
    BatchIsRun(env, With(x, id, t), id, t, texts);
    WithTwice(x, id, t, SubmitAll(env, x.prefix, x.store, t, texts).thread);
  }

  lemma WithTwice(x: System, id: nat, t: Submitter, t': Submitter)
    ensures forall store :: With(With(x, id, t).(store := store), id, t') == With(x.(store := store), id, t')
  {
    assert x.submitters[id := t][id := t'] == x.submitters[id := t'];
  }

  lemma BeginIsRun(env: Env, x: System, id: nat, team: int, now: int)
    requires id !in x.submitters && Running(env, x.store, now)
    ensures Run(env, x, Begin(id, team, now)) == With(x, id, Begun(x.store, team))
  {
    var a, b, c := SubmitBegin(id, team, now), SubmitTick(id), SubmitName(id);
    assert [a, b, c][1..] == [b, c];
    RunTwo(env, Step(env, x, a), b, c);
    BeginSteps(env, x, id, team, now);
  }

  lemma BeginSteps(env: Env, x: System, id: nat, team: int, now: int)
    requires id !in x.submitters && Running(env, x.store, now)
    ensures var entered := Submitter(team, 0, "", {}, Entered);
            var timed := entered.(tick := CurrentTick(x.store), stage := Timed);
            && Step(env, x, SubmitBegin(id, team, now)) == With(x, id, entered)
            && Step(env, With(x, id, entered), SubmitTick(id)) == With(x, id, timed)
            && Step(env, With(x, id, timed), SubmitName(id)) == With(x, id, Begun(x.store, team))
  {
    var entered := Submitter(team, 0, "", {}, Entered);
    var timed := entered.(tick := CurrentTick(x.store), stage := Timed);
    assert x.submitters[id := entered][id := timed] == x.submitters[id := timed];
    assert x.submitters[id := timed][id := Begun(x.store, team)] == x.submitters[id := Begun(x.store, team)];
  }

  lemma TurnEndsReady(env: Env, prefix: string, s: Store, t: Submitter, text: string)
    requires t.stage == Ready
    ensures SubmitOne(env, prefix, s, t, text).thread.stage == Ready
  {
  }

  // ---------------------------------------------------------------- what the answers mean

  function KeyOf(t: Submitter, text: string): string { SubmissionKey(Trim(GoSpace, text), t.team) }

  // "accepted" means one new entry under the text's own key, and any other answer means none.
  lemma TurnEffect(env: Env, prefix: string, s: Store, t: Submitter, text: string)
    ensures var turn, key, trimmed := SubmitOne(env, prefix, s, t, text), KeyOf(t, text), Trim(GoSpace, text);
            && turn.thread.team == t.team && t.seen <= turn.thread.seen
            && (turn.result != Captured ==> turn.store == s)
            && (turn.result == Captured ==>
                  && trimmed !in t.seen && trimmed in turn.thread.seen
                  && key !in s.accepted && turn.store.accepted.Keys == s.accepted.Keys + {key})
  {
    ParsedValue(F.Codec(env.mac, prefix), text);
  }

  function CapturedCount(results: seq<Result>): nat {
    if results == [] then 0
    else CapturedCount(results[..|results| - 1]) + if results[|results| - 1] == Captured then 1 else 0
  }

  // The answers of the first n texts, and what they left behind.
  ghost predicate Answers(s: Store, t: Submitter, texts: seq<string>, batch: Batch) {
    && |batch.results| == |texts| && batch.thread.team == t.team
    && |batch.store.accepted| == |s.accepted| + CapturedCount(batch.results)
    && s.accepted.Keys <= batch.store.accepted.Keys
    && (forall i :: 0 <= i < |texts| && batch.results[i] == Captured ==>
          && KeyOf(t, texts[i]) !in s.accepted && KeyOf(t, texts[i]) in batch.store.accepted
          && Trim(GoSpace, texts[i]) in batch.thread.seen)
    && (forall i, j :: 0 <= i < j < |texts| && batch.results[i] == Captured && batch.results[j] == Captured ==>
          Trim(GoSpace, texts[i]) != Trim(GoSpace, texts[j]))
  }

  lemma AnswersGrow(s: Store, t: Submitter, texts: seq<string>, text: string, before: Batch, after: Batch)
    requires Answers(s, t, texts, before)
    requires after.thread.team == t.team && before.thread.seen <= after.thread.seen
    requires |after.results| == |texts| + 1 && after.results == before.results + [after.results[|texts|]]
    requires after.results[|texts|] != Captured ==> after.store == before.store
    requires after.results[|texts|] == Captured ==>
               && Trim(GoSpace, text) !in before.thread.seen && Trim(GoSpace, text) in after.thread.seen
               && KeyOf(t, text) !in before.store.accepted
               && after.store.accepted.Keys == before.store.accepted.Keys + {KeyOf(t, text)}
    ensures Answers(s, t, texts + [text], after)
  {
    assert after.results[..|texts|] == before.results;
    assert |after.store.accepted| == |after.store.accepted.Keys|;
    assert |before.store.accepted| == |before.store.accepted.Keys|;
    forall i | 0 <= i < |texts| + 1 && after.results[i] == Captured
      ensures var all := texts + [text];
              && KeyOf(t, all[i]) !in s.accepted && KeyOf(t, all[i]) in after.store.accepted
              && Trim(GoSpace, all[i]) in after.thread.seen
    {
      assert i < |texts| ==> (texts + [text])[i] == texts[i] && after.results[i] == before.results[i];
    }
  }

  lemma NextAnswer(env: Env, prefix: string, s: Store, t: Submitter, texts: seq<string>, text: string, before: Batch)
    requires Answers(s, t, texts, before)
    ensures var turn := SubmitOne(env, prefix, before.store, before.thread, text);
            Answers(s, t, texts + [text], Batch(turn.store, turn.thread, before.results + [turn.result]))
  {
    TurnEffect(env, prefix, before.store, before.thread, text);
    var turn := SubmitOne(env, prefix, before.store, before.thread, text);
    AnswersGrow(s, t, texts, text, before, Batch(turn.store, turn.thread, before.results + [turn.result]));
  }

  // As many texts are answered "accepted" as entries are added, each adds the entry of its own
  // text for this team, and no two of them are the same text.
  lemma {:induction false} AnswersAreTrue(env: Env, prefix: string, s: Store, t: Submitter, texts: seq<string>)
    ensures Answers(s, t, texts, SubmitAll(env, prefix, s, t, texts))
  {
    if texts != [] {
      var front, last := texts[..|texts| - 1], texts[|texts| - 1];
      AnswersAreTrue(env, prefix, s, t, front);
      var before := SubmitAll(env, prefix, s, t, front);
      NextAnswer(env, prefix, s, t, front, last, before);
      assert front + [last] == texts;
    }
  }

  // ---------------------------------------------------------------- what each answer says

  // The text is a flag of another team, not expired when the call began, whose claims match its record.
  ghost predicate Matches(env: Env, prefix: string, s: Store, t: Submitter, flag: string) {
    match F.Parse(F.Codec(env.mac, prefix), flag)
    case None => false
    case Some(claims) =>
      && t.tick != 0 && t.tick <= claims.expires && claims.owner != t.team
      && flag in s.flags && s.flags[flag].owner == claims.owner && s.flags[flag].challenge == claims.challenge
      && s.flags[flag].issued == claims.issued && s.flags[flag].expires == claims.expires
  }

  // The service of the record is listed, and in maintenance or deferred past every tick so far.
  predicate Closed(s: Store, flag: string)
    requires flag in s.flags
  {
    var challenge := s.flags[flag].challenge;
    && challenge in s.challenges
    && (s.challenges[challenge].maintenance
        || (s.challenges[challenge].playFrom > 0
            && forall i :: 0 <= i < |s.ticks| ==> s.ticks[i].id < s.challenges[challenge].playFrom))
  }

  predicate OnRecord(s: Store, flag: string, team: int) {
    exists k :: k in s.accepted && s.accepted[k].flag == flag && s.accepted[k].team == team
  }

  ghost predicate Seen(t: Submitter, flag: string) { flag in t.seen }

  // Which of the four answers a text gets, from the store and the text alone.
  ghost predicate Says(env: Env, prefix: string, s: Store, t: Submitter, flag: string, result: Result) {
    match result
    case UnderMaintenance =>
      flag != "" && !Seen(t, flag) && Matches(env, prefix, s, t, flag) && Closed(s, flag)
    case Repeated =>
      flag != "" && (Seen(t, flag)
                     || (Matches(env, prefix, s, t, flag) && !Closed(s, flag) && OnRecord(s, flag, t.team)
                         && AcceptsNow(s, s.flags[flag].challenge, s.flags[flag].expires)))
    case Captured =>
      && flag != "" && !Seen(t, flag) && Matches(env, prefix, s, t, flag) && !Closed(s, flag)
      && !OnRecord(s, flag, t.team) && AcceptsNow(s, s.flags[flag].challenge, s.flags[flag].expires)
    case Wrong =>
      flag == "" || (!Seen(t, flag)
                     && (!Matches(env, prefix, s, t, flag)
                         || (!Closed(s, flag) && !AcceptsNow(s, s.flags[flag].challenge, s.flags[flag].expires))))
  }

  lemma ClosedIsMaintenance(s: Store, flag: string)
    requires flag in s.flags
    ensures Closed(s, flag) <==> InMaintenance(s, s.flags[flag].challenge)
  {
    HighestReads(s.ticks);
  }

  ghost predicate KeysFiled(s: Store) {
    forall k :: k in s.accepted ==> k == SubmissionKey(s.accepted[k].flag, s.accepted[k].team)
  }

  lemma OnRecordIff(s: Store, flag: string, team: int)
    requires KeysFiled(s)
    ensures OnRecord(s, flag, team) <==> SubmissionKey(flag, team) in s.accepted
  {
    if SubmissionKey(flag, team) in s.accepted {
      var k := SubmissionKey(flag, team);
      SubmissionKeyInjective(s.accepted[k].flag, s.accepted[k].team, flag, team);
    }
  }

  // The part that the store decides, once claims match a record.
  lemma ClaimsSay(env: Env, s: Store, t: Submitter, flag: string, claims: F.Claims)
    requires KeysFiled(s) && flag in s.flags && SameClaims(s.flags[flag], claims) && claims.value == flag
    ensures var turn, f := SubmitClaims(env, s, t, flag, claims), s.flags[flag];
            && (turn.result == UnderMaintenance <==> Closed(s, flag))
            && (turn.result == Wrong <==> !Closed(s, flag) && !AcceptsNow(s, f.challenge, f.expires))
            && (turn.result == Repeated <==>
                  !Closed(s, flag) && AcceptsNow(s, f.challenge, f.expires) && OnRecord(s, flag, t.team))
            && (turn.result == Captured ==>
                  turn.store.accepted == s.accepted[flag + ":" + PrintInt(t.team) :=
                    Submission(flag, t.team, t.attacker, f.ownerName, f.service, f.challenge,
                               s.ticks[|s.ticks| - 1].id, f.expires)])
  {
    ClosedIsMaintenance(s, flag);
    OnRecordIff(s, flag, t.team);
    AcceptReads(s, SubmissionOf(t, claims, s.flags[flag]), env.digest);
  }

  // Every answer is what the store and the text say, and an accepted text is stored with its attacker, its
  // victim, its service and the current tick.
  lemma TurnSays(env: Env, prefix: string, s: Store, t: Submitter, text: string)
    requires KeysFiled(s)
    ensures var turn, flag := SubmitOne(env, prefix, s, t, text), Trim(GoSpace, text);
            && (forall result :: turn.result == result <==> Says(env, prefix, s, t, flag, result))
            && (turn.result == Captured ==>
                  var f := s.flags[flag];
                  turn.store.accepted == s.accepted[flag + ":" + PrintInt(t.team) :=
                    Submission(flag, t.team, t.attacker, f.ownerName, f.service, f.challenge,
                               s.ticks[|s.ticks| - 1].id, f.expires)])
  {
    var flag := Trim(GoSpace, text);
    ParsedValue(F.Codec(env.mac, prefix), text);
    var parsed := F.Parse(F.Codec(env.mac, prefix), flag);
    if flag != "" && flag !in t.seen && parsed.Some? && flag in s.flags && SameClaims(s.flags[flag], parsed.value) {
      ClaimsSay(env, s, t.(seen := t.seen + {flag}), flag, parsed.value);
    }
  }

  // What has been seen when a text comes up is what was seen before and every earlier text of the call.
  ghost predicate SeenSoFar(before: set<string>, after: set<string>, texts: seq<string>) {
    forall flag :: flag in after <==> flag in before || (flag != "" && Among(flag, texts))
  }

  predicate Among(flag: string, texts: seq<string>) { exists j :: 0 <= j < |texts| && Trim(GoSpace, texts[j]) == flag }

  lemma AmongNext(flag: string, texts: seq<string>, text: string)
    ensures Among(flag, texts + [text]) <==> Among(flag, texts) || flag == Trim(GoSpace, text)
  {
    var all := texts + [text];
    assert all[|texts|] == text;
    assert forall j :: 0 <= j < |texts| ==> all[j] == texts[j];
  }

  lemma TurnKeeps(env: Env, prefix: string, s: Store, t: Submitter, text: string)
    requires KeysFiled(s)
    ensures var turn, flag := SubmitOne(env, prefix, s, t, text), Trim(GoSpace, text);
            && KeysFiled(turn.store)
            && turn.thread.team == t.team && turn.thread.tick == t.tick && turn.thread.attacker == t.attacker
            && turn.thread.seen == (if flag == "" then t.seen else t.seen + {flag})
  {
  }

  lemma {:induction false} BatchKeeps(env: Env, prefix: string, s: Store, t: Submitter, texts: seq<string>)
    requires KeysFiled(s)
    ensures var batch := SubmitAll(env, prefix, s, t, texts);
            && KeysFiled(batch.store)
            && batch.thread.team == t.team && batch.thread.tick == t.tick && batch.thread.attacker == t.attacker
            && SeenSoFar(t.seen, batch.thread.seen, texts)
  {
    if texts != [] {
      var front, last := texts[..|texts| - 1], texts[|texts| - 1];
      BatchKeeps(env, prefix, s, t, front);
      var before := SubmitAll(env, prefix, s, t, front);
      TurnKeeps(env, prefix, before.store, before.thread, last);
      assert front + [last] == texts;
      forall flag ensures Among(flag, texts) <==> Among(flag, front) || flag == Trim(GoSpace, last) {
        AmongNext(flag, front, last);
      }
    }
  }

  lemma {:induction false} ResultAt(env: Env, prefix: string, s: Store, t: Submitter, texts: seq<string>, i: nat)
    requires i < |texts|
    ensures var before := SubmitAll(env, prefix, s, t, texts[..i]);
            SubmitAll(env, prefix, s, t, texts).results[i]
              == SubmitOne(env, prefix, before.store, before.thread, texts[i]).result
  {
    if i < |texts| - 1 {
      var front := texts[..|texts| - 1];
      ResultAt(env, prefix, s, t, front, i);
      assert front[..i] == texts[..i] && front[i] == texts[i];
    }
  }

  // Each answer of a call is what the store just before it, the texts before it and the text itself say.
  lemma AnswersSay(env: Env, prefix: string, s: Store, t: Submitter, texts: seq<string>, i: nat)
    requires KeysFiled(s) && i < |texts|
    ensures var before := SubmitAll(env, prefix, s, t, texts[..i]);
            && before.thread.team == t.team && before.thread.tick == t.tick
            && SeenSoFar(t.seen, before.thread.seen, texts[..i])
            && forall result ::
                 SubmitAll(env, prefix, s, t, texts).results[i] == result
                 <==> Says(env, prefix, before.store, before.thread, Trim(GoSpace, texts[i]), result)
  {
    BatchKeeps(env, prefix, s, t, texts[..i]);
    ResultAt(env, prefix, s, t, texts, i);
    var before := SubmitAll(env, prefix, s, t, texts[..i]);
    TurnSays(env, prefix, before.store, before.thread, texts[i]);
  }
}
