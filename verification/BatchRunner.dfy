/**
 The runner around the frame protocol: which phases a request may name, what the script
 prints for them, and which results the executor reports back.
 */
module BatchRunner {
  import opened Common
  import opened Text
  import opened CheckerBatch

  ghost predicate Distinct(phases: seq<Phase>) {
    forall i, j :: 0 <= i < j < |phases| ==> phases[i] != phases[j]
  }

  // A request is accepted exactly when it is non-empty, every phase is known and no two name the same phase.
  method NormalizeCheckerPhases(phases: seq<string>) returns (normalized: seq<Phase>, ok: bool)
    ensures ok <==> && phases != []
                    && (forall i :: 0 <= i < |phases| ==> NormalizePhase(phases[i]).Some?)
                    && (forall i, j :: 0 <= i < j < |phases| ==> NormalizePhase(phases[i]) != NormalizePhase(phases[j]))
    ensures ok ==> Distinct(normalized) && |normalized| == |phases|
                   && forall i :: 0 <= i < |phases| ==> NormalizePhase(phases[i]) == Some(normalized[i])
  {
    if |phases| == 0 {
      return [], false;
    }
    normalized := [];
    var seen: set<Phase> := {};
    for i := 0 to |phases|
      invariant |normalized| == i
      invariant Distinct(normalized)
      invariant forall j :: 0 <= j < i ==> NormalizePhase(phases[j]) == Some(normalized[j])
      invariant forall phase :: phase in seen <==> phase in normalized
    {
      var value := NormalizePhase(phases[i]);
      if value.None? {
        return [], false;
      }
      if value.value in seen {
        ghost var j :| 0 <= j < i && normalized[j] == value.value;
        assert NormalizePhase(phases[j]) == NormalizePhase(phases[i]);
        return [], false;
      }
      seen := seen + {value.value};
      normalized := normalized + [value.value];
    }
    ok := true;
  }

  // ---------------------------------------------------------------- the result loop

  datatype PhaseResult = PhaseResult(phase: Phase, success: bool, exitCode: int, output: string)

  function ResultOf(e: Entry): PhaseResult {
    PhaseResult(e.phase, e.frame.exitCode == 0, e.frame.exitCode, e.frame.output)
  }

  function PhaseResults(phases: seq<Phase>, frames: map<Phase, Frame>): seq<PhaseResult> {
    if phases == [] || phases[0] !in frames then []
    else
      var first := ResultOf(Entry(phases[0], frames[phases[0]]));
      if first.success then [first] + PhaseResults(phases[1..], frames) else [first]
  }

  lemma PhaseResultsNext(phases: seq<Phase>, frames: map<Phase, Frame>, i: nat, results: seq<PhaseResult>)
    requires i < |phases|
    ensures var rest := PhaseResults(phases[i..], frames);
            if phases[i] !in frames then results + rest == results
            else
              var result := ResultOf(Entry(phases[i], frames[phases[i]]));
              results + rest
                == if result.success then results + [result] + PhaseResults(phases[i + 1..], frames)
                   else results + [result]
  {
    assert phases[i..][0] == phases[i] && phases[i..][1..] == phases[i + 1..];
  }

  method CollectPhaseResults(phases: seq<Phase>, frames: map<Phase, Frame>) returns (results: seq<PhaseResult>)
    ensures results == PhaseResults(phases, frames)
  {
    results := [];
    ghost var finished := false;
    for i := 0 to |phases|
      invariant !finished && results + PhaseResults(phases[i..], frames) == PhaseResults(phases, frames)
    {
      var phase := phases[i];
      PhaseResultsNext(phases, frames, i, results);
      if phase !in frames {
        return;
      }
      var result := PhaseResult(phase, frames[phase].exitCode == 0, frames[phase].exitCode, frames[phase].output);
      results := results + [result];
      if frames[phase].exitCode != 0 {
        return;
      }
    }
  }

  // Results name a prefix of the requested phases, in order, and only the last one may have failed.
  ghost predicate HaltedPrefix(phases: seq<Phase>, results: seq<PhaseResult>) {
    && |results| <= |phases|
    && (forall i :: 0 <= i < |results| ==> results[i].phase == phases[i])
    && (forall i :: 0 <= i < |results| - 1 ==> results[i].success)
  }

  lemma {:induction false} ResultsAreHaltedPrefix(phases: seq<Phase>, frames: map<Phase, Frame>)
    ensures HaltedPrefix(phases, PhaseResults(phases, frames))
    ensures var n := |PhaseResults(phases, frames)|;
            n < |phases| ==> phases[n] !in frames || (n > 0 && !PhaseResults(phases, frames)[n - 1].success)
    ensures forall i :: 0 <= i < |PhaseResults(phases, frames)| ==>
              var r := PhaseResults(phases, frames)[i];
              && r.phase in frames && r.exitCode == frames[r.phase].exitCode && r.output == frames[r.phase].output
              && (r.success <==> r.exitCode == 0)
  {
    var results := PhaseResults(phases, frames);
    if phases != [] && phases[0] in frames && results[0].success {
      var rest := PhaseResults(phases[1..], frames);
      ResultsAreHaltedPrefix(phases[1..], frames);
      forall i | 0 < i < |results| ensures results[i].phase == phases[i] && results[i] == rest[i - 1] {
        assert results[i] == rest[i - 1];
      }
      var n := |results|;
      assert n < |phases| ==> phases[n] == phases[1..][n - 1];
    }
  }

  const FAILED_CODE := -1

  method ExecuteCheckerBatch(phases: seq<Phase>, dockerFailed: bool, output: string)
    returns (results: seq<PhaseResult>)
    requires phases != []
    ensures HaltedPrefix(phases, results)
    ensures dockerFailed || ParseFrames(output).Broken? ==>
              |results| == 1 && !results[0].success && results[0].exitCode == FAILED_CODE
    ensures !dockerFailed && ParseFrames(output).Frames? ==>
              && results == PhaseResults(phases, ParseFrames(output).frames)
              && forall i :: 0 <= i < |results| ==>
                   var frames := ParseFrames(output).frames;
                   && phases[i] in frames && results[i].exitCode == frames[phases[i]].exitCode
                   && results[i].output == frames[phases[i]].output
                   && (results[i].success <==> results[i].exitCode == 0)
  {
    if dockerFailed {
      return [PhaseResult(phases[0], false, FAILED_CODE, "")];
    }
    var parsed := ParseCheckerBatchFrames(output);
    if parsed.Broken? {
      return [PhaseResult(phases[0], false, FAILED_CODE, "")];
    }
    results := CollectPhaseResults(phases, parsed.frames);
    ResultsAreHaltedPrefix(phases, parsed.frames);
  }

  // ---------------------------------------------------------------- end to end

  // What the script runs: each phase in turn, up to and including the first non-zero exit.
  function Executed(phases: seq<Phase>, outcomes: seq<Frame>): seq<Entry>
    requires |phases| == |outcomes|
  {
    if phases == [] then []
    else
      var first := Entry(phases[0], outcomes[0]);
      if first.frame.exitCode == 0 then [first] + Executed(phases[1..], outcomes[1..]) else [first]
  }

  lemma {:induction false} ExecutedShape(phases: seq<Phase>, outcomes: seq<Frame>)
    requires |phases| == |outcomes|
    ensures var run := Executed(phases, outcomes);
            && |run| <= |phases|
            && (forall i :: 0 <= i < |run| ==> run[i] == Entry(phases[i], outcomes[i]))
            && (forall i :: 0 <= i < |run| - 1 ==> run[i].frame.exitCode == 0)
            && (|run| < |phases| ==> run != [] && run[|run| - 1].frame.exitCode != 0)
  {
    if phases != [] && outcomes[0].exitCode == 0 {
      ExecutedShape(phases[1..], outcomes[1..]);
      var run, rest := Executed(phases, outcomes), Executed(phases[1..], outcomes[1..]);
      assert forall i :: 0 < i < |run| ==> run[i] == rest[i - 1];
    }
  }

  function ResultsOf(run: seq<Entry>): seq<PhaseResult> {
    seq(|run|, i requires 0 <= i < |run| => ResultOf(run[i]))
  }

  lemma {:induction false} ResultsOfRun(phases: seq<Phase>, outcomes: seq<Frame>, frames: map<Phase, Frame>)
    requires |phases| == |outcomes|
    requires forall e :: e in Executed(phases, outcomes) ==> e.phase in frames && frames[e.phase] == e.frame
    ensures PhaseResults(phases, frames) == ResultsOf(Executed(phases, outcomes))
  {
    if phases != [] {
      var run := Executed(phases, outcomes);
      assert run[0] in run;
      if outcomes[0].exitCode == 0 {
        var rest := Executed(phases[1..], outcomes[1..]);
        assert run == [run[0]] + rest;
        ResultsOfRun(phases[1..], outcomes[1..], frames);
        assert ResultsOf(run) == [ResultOf(run[0])] + ResultsOf(rest);
      }
    }
  }

  // The executor reports exactly the phases the script ran, whatever their output.
  method RunBatch(phases: seq<Phase>, outcomes: seq<Frame>) returns (results: seq<PhaseResult>)
    requires phases != [] && Distinct(phases) && |outcomes| == |phases|
    requires forall i :: 0 <= i < |outcomes| ==> 0 <= outcomes[i].exitCode <= 255 && |outcomes[i].output| <= MAX_INT
    ensures results == ResultsOf(Executed(phases, outcomes))
    ensures HaltedPrefix(phases, results)
  {
    var run := Executed(phases, outcomes);
    ExecutedShape(phases, outcomes);
    FramesRoundTrip(run);
    results := ExecuteCheckerBatch(phases, false, PrintFrames(run));
    ghost var frames := ParseFrames(PrintFrames(run)).frames;
    ResultsOfRun(phases, outcomes, frames);
  }
}
