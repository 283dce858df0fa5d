/**
 From a batch of phase results to the service state of a tick: the put, get, check order
 gives each outcome its own final state.
 */
module CheckerPipeline {
  import opened Common
  import opened CheckerBatch
  import opened ServiceState
  import opened TickRun
  import BatchRunner

  const ORDER := [Put, Get, Check]

  function PhaseStateOf(r: Run): PhaseState { PhaseState(Some(r), r.status == Success, r.status == Failed) }

  // A key nothing has been recorded for yet.
  predicate Untouched(s: Store, key: Key) { key !in s.states && Group(s.runs, key) == [] }

  lemma AfterSkip(s: Store, key: Key, r: Record)
    requires key in s.states && r.run.key == key && r.report == Blank && r.run.status == Skipped
    ensures RecordMemory(s, r).states == s.states
  {
  }

  // The batch holds exactly these results, with no reported state.
  ghost predicate Carries(batch: Batch, results: seq<BatchRunner.PhaseResult>) {
    && batch.Batch?
    && (forall phase :: phase in batch.results <==> exists i :: 0 <= i < |results| && results[i].phase == phase)
    && (forall i :: 0 <= i < |results| ==>
          && results[i].phase in batch.results
          && batch.results[results[i].phase].report == Blank
          && batch.results[results[i].phase].status == if results[i].success then Success else Failed)
  }

  // ---------------------------------------------------------------- one run per phase

  ghost predicate OncePerPhase(runs: seq<Run>) {
    forall i, j :: 0 <= i < j < |runs| ==> runs[i].phase != runs[j].phase
  }

  lemma {:induction false} PhasePresent(runs: seq<Run>, i: nat)
    requires OncePerPhase(runs) && i < |runs|
    ensures PhaseOf(runs, runs[i].phase) == PhaseStateOf(runs[i])
  {
    var front := runs[..|runs| - 1];
    if i == |front| {
      PhaseAbsent(front, runs[i].phase);
    } else {
      PhasePresent(front, i);
    }
  }

  lemma PhaseFound(runs: seq<Run>, phase: Phase) returns (i: nat)
    requires OncePerPhase(runs) && PhaseOf(runs, phase) != NO_RUN
    ensures i < |runs| && runs[i].phase == phase && PhaseOf(runs, phase) == PhaseStateOf(runs[i])
  {
    if forall k :: 0 <= k < |runs| ==> runs[k].phase != phase {
      PhaseAbsent(runs, phase);
    }
    i :| 0 <= i < |runs| && runs[i].phase == phase;
    PhasePresent(runs, i);
  }

  // Newest first: only the newest run may have failed.
  ghost predicate Halted(runs: seq<Run>) {
    && OncePerPhase(runs)
    && (forall i :: 0 < i < |runs| ==> runs[i].status == Success)
    && (runs != [] ==> runs[0].status == Success || runs[0].status == Failed)
  }

  predicate PutFailedLast(runs: seq<Run>) { |runs| == 3 && runs[0].phase == Put && runs[0].status == Failed }

  lemma RecoveringOnly(runs: seq<Run>, tick: int)
    requires Halted(runs) && Summarize(runs, tick).status == Recovering
    ensures PutFailedLast(runs)
  {
    var get := PhaseFound(runs, Get);
    var check := PhaseFound(runs, Check);
    var put := PhaseFound(runs, Put);
    assert put == 0;
    AtMostThreeRuns(runs);
  }

  // Of four phases two are the same.
  lemma SomeRepeat(a: Phase, b: Phase, c: Phase, d: Phase)
    ensures a == b || a == c || a == d || b == c || b == d || c == d
  {
  }

  lemma AtMostThreeRuns(runs: seq<Run>)
    requires OncePerPhase(runs)
    ensures |runs| <= 3
  {
    if |runs| > 3 {
      SomeRepeat(runs[0].phase, runs[1].phase, runs[2].phase, runs[3].phase);
    }
  }

  lemma RecoveringThen(runs: seq<Run>, tick: int)
    requires Halted(runs) && PutFailedLast(runs)
    ensures Summarize(runs, tick).status == Recovering
  {
    PhasePresent(runs, 0);
    PhasePresent(runs, 1);
    PhasePresent(runs, 2);
    assert runs[1].phase == Get || runs[1].phase == Check;
    assert runs[2].phase == Get || runs[2].phase == Check;
  }

  // ---------------------------------------------------------------- the records of any order

  // The results are listed up to the first failure, whatever the order of the phases.
  ghost predicate Listed(phases: seq<Phase>, results: seq<BatchRunner.PhaseResult>) {
    && BatchRunner.Distinct(phases) && BatchRunner.HaltedPrefix(phases, results)
    && (|results| < |phases| ==> results != [] && !results[|results| - 1].success)
  }

  lemma HaltsFrom(phases: seq<Phase>, batch: Batch, results: seq<BatchRunner.PhaseResult>, i: nat)
    requires Listed(phases, results) && Carries(batch, results) && i <= |phases|
    ensures HaltedBefore(phases, batch, i) <==>
            i > 0 && results != [] && i >= |results| && !results[|results| - 1].success
  {
    forall j | 0 <= j < |phases|
      ensures HaltsAfter(phases[j], batch) <==> j >= |results| || !results[j].success
    {
      if j >= |results| {
        NotCarried(phases, batch, results, j);
      } else {
        assert results[j].phase == phases[j];
      }
    }
    if results != [] && i >= |results| && !results[|results| - 1].success {
      assert HaltsAfter(phases[|results| - 1], batch);
    }
  }

  lemma NotCarried(phases: seq<Phase>, batch: Batch, results: seq<BatchRunner.PhaseResult>, j: nat)
    requires Listed(phases, results) && Carries(batch, results) && |results| <= j < |phases|
    ensures phases[j] !in batch.results
  {
    assert forall i :: 0 <= i < |results| ==> results[i].phase == phases[i] && phases[i] != phases[j];
  }

  // ---------------------------------------------------------------- what they leave in the store

  lemma {:induction false} MemoryNext(s: Store, records: seq<Record>, r: Record)
    ensures AllMemory(s, records + [r]) == RecordMemory(AllMemory(s, records), r)
    decreases |records|
  {
    if records == [] {
      assert (records + [r])[1..] == [];
    } else {
      MemoryNext(RecordMemory(s, records[0]), records[1..], r);
      assert (records + [r])[1..] == records[1..] + [r];
    }
  }

  function NewestFirst(records: seq<Record>): seq<Run> {
    if records == [] then [] else [records[|records| - 1].run] + NewestFirst(records[..|records| - 1])
  }

  predicate Ran(r: Record, key: Key) { r.run.key == key && r.report == Blank && r.run.status != Skipped }

  predicate WasSkipped(r: Record, key: Key) { r.run.key == key && r.report == Blank && r.run.status == Skipped }

  lemma AfterRun(s: Store, key: Key, r: Record, group: seq<Run>)
    requires Group(s.runs, key) == group && Ran(r, key)
    ensures Summarised(RecordMemory(s, r), key, [r.run] + group)
  {
    GroupCons(r.run, s.runs);
  }

  // The store's runs for a key are this group, and its state their summary.
  predicate Summarised(s: Store, key: Key, group: seq<Run>) {
    Group(s.runs, key) == group && (group != [] ==> key in s.states && s.states[key] == Summarize(group, key.tick))
  }

  lemma GroupNext(s: Store, key: Key, r: Record)
    requires r.run.key == key
    ensures Group(RecordMemory(s, r).runs, key) == [r.run] + Group(s.runs, key)
  {
    GroupCons(r.run, s.runs);
  }

  lemma {:induction false} GroupAfterRuns(s: Store, key: Key, records: seq<Record>)
    requires Untouched(s, key) && forall i :: 0 <= i < |records| ==> Ran(records[i], key)
    ensures Group(AllMemory(s, records).runs, key) == NewestFirst(records)
  {
    if records != [] {
      var front, last := records[..|records| - 1], records[|records| - 1];
      GroupAfterRuns(s, key, front);
      MemoryNext(s, front, last);
      assert front + [last] == records;
      GroupNext(AllMemory(s, front), key, last);
    }
  }

  lemma AfterRunsThen(s: Store, key: Key, front: seq<Record>, last: Record, group: seq<Run>)
    requires Group(AllMemory(s, front).runs, key) == group && Ran(last, key)
    ensures Summarised(AllMemory(s, front + [last]), key, [last.run] + group)
  {
    MemoryNext(s, front, last);
    AfterRun(AllMemory(s, front), key, last, group);
  }

  // Plain runs are summarised as a group, newest first.
  lemma AfterRuns(s: Store, key: Key, records: seq<Record>)
    requires Untouched(s, key) && forall i :: 0 <= i < |records| ==> Ran(records[i], key)
    requires records != []
    ensures Summarised(AllMemory(s, records), key, NewestFirst(records))
  {
    var front, last := records[..|records| - 1], records[|records| - 1];
    GroupAfterRuns(s, key, front);
    AfterRunsThen(s, key, front, last, NewestFirst(front));
    assert front + [last] == records;
  }

  // Skipped phases leave the state as it is.
  lemma {:induction false} AfterSkips(s: Store, key: Key, ran: seq<Record>, skipped: seq<Record>)
    requires key in AllMemory(s, ran).states && forall i :: 0 <= i < |skipped| ==> WasSkipped(skipped[i], key)
    ensures AllMemory(s, ran + skipped).states == AllMemory(s, ran).states
  {
    if skipped == [] {
      assert ran + skipped == ran;
    } else {
      var front, last := skipped[..|skipped| - 1], skipped[|skipped| - 1];
      AfterSkips(s, key, ran, front);
      MemoryNext(s, ran + front, last);
      assert ran + front + [last] == ran + skipped;
      AfterSkip(AllMemory(s, ran + front), key, last);
    }
  }

  lemma {:induction false} NewestFirstLength(records: seq<Record>)
    ensures |NewestFirst(records)| == |records|
  {
    if records != [] {
      NewestFirstLength(records[..|records| - 1]);
    }
  }

  lemma {:induction false} NewestFirstAt(records: seq<Record>, i: nat)
    requires i < |records|
    ensures |NewestFirst(records)| == |records| && NewestFirst(records)[i] == records[|records| - 1 - i].run
  {
    if i > 0 {
      NewestFirstAt(records[..|records| - 1], i - 1);
    } else if |records| > 1 {
      NewestFirstAt(records[..|records| - 1], 0);
    }
  }

  // The i-th record of a listed batch: a plain run for each result, then skips.
  lemma ListedRecord(key: Key, phases: seq<Phase>, batch: Batch, results: seq<BatchRunner.PhaseResult>, i: nat)
    requires Listed(phases, results) && Carries(batch, results) && i < |phases|
    ensures var records := Records(key, phases, batch, false);
            && |records| == |phases| && records[i].run.phase == phases[i]
            && (i < |results| ==>
                  Ran(records[i], key) && records[i].run.status == if results[i].success then Success else Failed)
            && (i >= |results| ==> WasSkipped(records[i], key))
  {
    RecordAt(key, phases, batch, false, i);
    HaltsFrom(phases, batch, results, i);
    if i < |results| {
      assert results[i].phase == phases[i];
      assert i < |results| - 1 ==> results[i].success;
    }
  }

  // Newest first, the runs mirror the results.
  ghost predicate Mirrors(runs: seq<Run>, phases: seq<Phase>, results: seq<BatchRunner.PhaseResult>) {
    && |runs| == |results| <= |phases|
    && (forall i :: 0 <= i < |runs| ==> runs[i].phase == phases[|runs| - 1 - i])
    && (forall i :: 0 <= i < |runs| ==>
          runs[i].status == if results[|runs| - 1 - i].success then Success else Failed)
  }

  lemma MirrorsAreHalted(runs: seq<Run>, phases: seq<Phase>, results: seq<BatchRunner.PhaseResult>)
    requires Listed(phases, results) && Mirrors(runs, phases, results)
    ensures Halted(runs)
    ensures PutFailedLast(runs) <==> |results| == 3 && phases[2] == Put && !results[2].success
  {
    forall i, j | 0 <= i < j < |runs| ensures runs[i].phase != runs[j].phase {
      assert phases[|runs| - 1 - j] != phases[|runs| - 1 - i];
    }
    forall i | 0 < i < |runs| ensures runs[i].status == Success {
      assert results[|runs| - 1 - i].success;
    }
  }

  lemma ListedRunAt(key: Key, phases: seq<Phase>, batch: Batch, results: seq<BatchRunner.PhaseResult>, ran: seq<Record>,
                    i: nat)
    requires Listed(phases, results) && Carries(batch, results) && i < |results| == |ran|
    requires |Records(key, phases, batch, false)| == |phases| && ran[i] == Records(key, phases, batch, false)[i]
    ensures |NewestFirst(ran)| == |ran|
    ensures NewestFirst(ran)[|ran| - 1 - i].phase == phases[i]
    ensures NewestFirst(ran)[|ran| - 1 - i].status == if results[i].success then Success else Failed
  {
    NewestFirstAt(ran, |ran| - 1 - i);
    ListedRecord(key, phases, batch, results, i);
  }

  lemma ListedRunsMirror(key: Key, phases: seq<Phase>, batch: Batch, results: seq<BatchRunner.PhaseResult>,
                         ran: seq<Record>)
    requires Listed(phases, results) && Carries(batch, results)
    requires |Records(key, phases, batch, false)| == |phases| && |ran| == |results|
    requires forall i :: 0 <= i < |ran| ==> ran[i] == Records(key, phases, batch, false)[i]
    ensures Mirrors(NewestFirst(ran), phases, results)
  {
    var n, runs := |results|, NewestFirst(ran);
    NewestFirstLength(ran);
    forall i | 0 <= i < n
      ensures runs[i].phase == phases[n - 1 - i]
      ensures runs[i].status == if results[n - 1 - i].success then Success else Failed
    {
      ListedRunAt(key, phases, batch, results, ran, n - 1 - i);
    }
  }

  // The final state is the summary of the phases that ran.
  lemma FinalSummary(s: Store, key: Key, records: seq<Record>, n: nat)
    requires Untouched(s, key) && n <= |records|
    requires forall i :: 0 <= i < n ==> Ran(records[i], key)
    requires forall i :: n <= i < |records| ==> WasSkipped(records[i], key)
    ensures n > 0 ==> key in AllMemory(s, records).states
    ensures n > 0 ==> AllMemory(s, records).states[key] == Summarize(NewestFirst(records[..n]), key.tick)
  {
    assert records[..n] + records[n..] == records;
    if n > 0 {
      AfterRuns(s, key, records[..n]);
      NewestFirstLength(records[..n]);
      AfterSkips(s, key, records[..n], records[n..]);
    }
  }

  // For a listed batch in any order, the final state is the summary of the runs that mirror its results.
  lemma ListedSummary(s: Store, key: Key, phases: seq<Phase>, batch: Batch, results: seq<BatchRunner.PhaseResult>)
    requires Untouched(s, key) && Listed(phases, results) && Carries(batch, results) && results != []
    ensures var records := Records(key, phases, batch, false);
            && |records| == |phases| && Mirrors(NewestFirst(records[..|results|]), phases, results)
            && key in AllMemory(s, records).states
            && AllMemory(s, records).states[key] == Summarize(NewestFirst(records[..|results|]), key.tick)
  {
    var n, records := |results|, Records(key, phases, batch, false);
    ListedRecord(key, phases, batch, results, 0);
    forall i | 0 <= i < |phases| ensures if i < n then Ran(records[i], key) else WasSkipped(records[i], key) {
      ListedRecord(key, phases, batch, results, i);
    }
    FinalSummary(s, key, records, n);
    ListedRunsMirror(key, phases, batch, results, records[..n]);
  }

  // For every order of distinct phases and every batch listed up to its first failure without reports, the
  // service ends recovering exactly when all three phases ran, put last, and put failed.
  lemma RecoveringIff(s: Store, key: Key, phases: seq<Phase>, batch: Batch, results: seq<BatchRunner.PhaseResult>)
    requires Untouched(s, key) && Listed(phases, results) && Carries(batch, results)
    ensures (var final := AllMemory(s, Records(key, phases, batch, false));
             key in final.states && final.states[key].status == Recovering)
       <==> |results| == 3 && phases[2] == Put && !results[2].success
  {
    if results != [] {
      ListedSummary(s, key, phases, batch, results);
      var runs := NewestFirst(Records(key, phases, batch, false)[..|results|]);
      MirrorsAreHalted(runs, phases, results);
      RecoveringExactly(runs, key.tick);
    } else {
      assert phases == [];
    }
  }

  lemma RecoveringExactly(runs: seq<Run>, tick: int)
    requires Halted(runs)
    ensures Summarize(runs, tick).status == Recovering <==> PutFailedLast(runs)
  {
    if PutFailedLast(runs) {
      RecoveringThen(runs, tick);
    } else if Summarize(runs, tick).status == Recovering {
      RecoveringOnly(runs, tick);
    }
  }

  // ---------------------------------------------------------------- put, get, check

  function FinalStatus(results: seq<BatchRunner.PhaseResult>): ServiceStatus
    requires 1 <= |results| <= 3
  {
    if results[|results| - 1].success then Ok
    else if |results| == 1 then Down
    else if |results| == 2 then FlagNotFound
    else Faulty
  }

  lemma OrderedSummary(runs: seq<Run>, results: seq<BatchRunner.PhaseResult>, tick: int)
    requires Listed(ORDER, results) && results != [] && Mirrors(runs, ORDER, results)
    ensures Summarize(runs, tick).status == FinalStatus(results)
  {
    MirrorsAreHalted(runs, ORDER, results);
    var n := |runs|;
    PhasePresent(runs, n - 1);
    if n == 1 {
      PhaseAbsent(runs, Get);
      PhaseAbsent(runs, Check);
    } else {
      PhasePresent(runs, n - 2);
      if n == 2 {
        PhaseAbsent(runs, Check);
      } else {
        PhasePresent(runs, 0);
      }
    }
  }

  // ok, or down, flag_not_found or faulty according to which of put, get, check failed first.
  lemma FinalServiceState(s: Store, key: Key, batch: Batch, results: seq<BatchRunner.PhaseResult>)
    requires Untouched(s, key) && results != [] && Listed(ORDER, results) && Carries(batch, results)
    ensures var final := AllMemory(s, Records(key, ORDER, batch, false));
            key in final.states && final.states[key].status == FinalStatus(results) != Recovering
  {
    ListedSummary(s, key, ORDER, batch, results);
    var runs := NewestFirst(Records(key, ORDER, batch, false)[..|results|]);
    OrderedSummary(runs, results, key.tick);
  }

  // A batch that never ran attributes the failure to the first phase; with put first the service is down.
  lemma BatchErrorMeansDown(s: Store, key: Key, message: string)
    requires Untouched(s, key)
    ensures var final := AllMemory(s, Records(key, ORDER, BatchError(message), false));
            key in final.states && final.states[key].status == Down
  {
    var records := Records(key, ORDER, BatchError(message), false);
    BatchErrorRecords(key, message);
    FinalSummary(s, key, records, 1);
    NewestOfOne(records);
    PutFailedSummary(records[0].run, key.tick);
  }

  lemma NewestOfOne(records: seq<Record>)
    requires records != []
    ensures NewestFirst(records[..1]) == [records[0].run]
  {
    assert records[..1][..0] == [];
  }

  lemma PutFailedSummary(run: Run, tick: int)
    requires run.phase == Put && run.status == Failed
    ensures Summarize([run], tick).status == Down
  {
    PhasePresent([run], 0);
    PhaseAbsent([run], Get);
    PhaseAbsent([run], Check);
  }

  lemma BatchErrorRecords(key: Key, message: string)
    ensures var records := Records(key, ORDER, BatchError(message), false);
            && |records| == 3 && Ran(records[0], key) && records[0].run.phase == Put && records[0].run.status == Failed
            && WasSkipped(records[1], key) && WasSkipped(records[2], key)
  {
    var batch := BatchError(message);
    RecordAt(key, ORDER, batch, false, 0);
    RecordAt(key, ORDER, batch, false, 1);
    RecordAt(key, ORDER, batch, false, 2);
    assert HaltsAfter(ORDER[0], batch);
  }

  // ---------------------------------------------------------------- which orders can end in recovering

  ghost predicate CanRecover(s: Store, key: Key, phases: seq<Phase>) {
    exists batch, results :: Listed(phases, results) && Carries(batch, results)
      && var final := AllMemory(s, Records(key, phases, batch, false));
         key in final.states && final.states[key].status == Recovering
  }

  // A configured order can end in recovering if and only if it has all three phases with put last.
  lemma CanRecoverIff(s: Store, key: Key, phases: seq<Phase>)
    requires Untouched(s, key) && BatchRunner.Distinct(phases)
    ensures CanRecover(s, key, phases) <==> |phases| == 3 && phases[2] == Put
  {
    if CanRecover(s, key, phases) {
      var batch, results :| Listed(phases, results) && Carries(batch, results)
        && var final := AllMemory(s, Records(key, phases, batch, false));
           key in final.states && final.states[key].status == Recovering;
      RecoveringIff(s, key, phases, batch, results);
      AtMostThreePhases(phases);
    }
    if |phases| == 3 && phases[2] == Put {
      PutFailingLast(s, key, phases);
    }
  }

  lemma AtMostThreePhases(phases: seq<Phase>)
    requires BatchRunner.Distinct(phases)
    ensures |phases| <= 3
  {
    if |phases| > 3 {
      SomeRepeat(phases[0], phases[1], phases[2], phases[3]);
    }
  }

  lemma ThreeCarried(phases: seq<Phase>, batch: Batch, results: seq<BatchRunner.PhaseResult>)
    requires |phases| == |results| == 3 && BatchRunner.Distinct(phases)
    requires batch.Batch? && batch.results.Keys == {phases[0], phases[1], phases[2]}
    requires forall i :: 0 <= i < 3 ==>
               && results[i].phase == phases[i] && batch.results[phases[i]].report == Blank
               && batch.results[phases[i]].status == if results[i].success then Success else Failed
    ensures Carries(batch, results)
  {
    forall phase ensures phase in batch.results <==> exists i :: 0 <= i < |results| && results[i].phase == phase {
      assert phase in batch.results <==>
             phase == results[0].phase || phase == results[1].phase || phase == results[2].phase;
    }
  }

  lemma PutFailingBatch(phases: seq<Phase>) returns (batch: Batch, results: seq<BatchRunner.PhaseResult>)
    requires BatchRunner.Distinct(phases) && |phases| == 3
    ensures Listed(phases, results) && Carries(batch, results) && |results| == 3 && !results[2].success
  {
    var ok, failed := Outcome(Success, "", Blank, ""), Outcome(Failed, "", Blank, "");
    batch := Batch(map[phases[0] := ok, phases[1] := ok, phases[2] := failed]);
    results := [BatchRunner.PhaseResult(phases[0], true, 0, ""), BatchRunner.PhaseResult(phases[1], true, 0, ""),
                BatchRunner.PhaseResult(phases[2], false, 1, "")];
    ThreeCarried(phases, batch, results);
  }

  lemma PutFailingLast(s: Store, key: Key, phases: seq<Phase>)
    requires Untouched(s, key) && BatchRunner.Distinct(phases) && |phases| == 3 && phases[2] == Put
    ensures CanRecover(s, key, phases)
  {
    var batch, results := PutFailingBatch(phases);
    RecoveringIff(s, key, phases, batch, results);
  }

  // A record that checking some target can emit.
  ghost predicate Emitted(r: Record) {
    exists key, phase, batch, halted :: NormalisedBatch(batch) && r == RecordFor(key, phase, batch, halted)
  }

  // Both stores keep the same states over every sequence of emitted records, however targets interleave.
  lemma StoresAgreeOnTargets(s: Store, records: seq<Record>)
    requires forall i :: 0 <= i < |records| ==> Emitted(records[i])
    ensures AllMemory(s, records) == AllPostgres(s, records)
  {
    forall r | r in records ensures r.report != Unrecognized {
      var key, phase, batch, halted :| NormalisedBatch(batch) && r == RecordFor(key, phase, batch, halted);
      RecordIsNormalised(key, phase, batch, halted);
    }
    StoresAgree(s, records);
  }
}
