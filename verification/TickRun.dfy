/**
 One tick: the target list is rotated by the tick id, a pool of workers checks every
 target, each target yields one run record per configured phase, and the tick adds up
 the counts.
 */
module TickRun {
  import opened Common
  import opened CheckerBatch
  import opened ServiceState

  // ---------------------------------------------------------------- one target

  // A phase result as the server reads it: its status and its report already normalised.
  datatype Outcome = Outcome(status: RunStatus, message: string, report: Report, reportMessage: string)

  predicate Normalised(o: Outcome) {
    (o.status == Success || o.status == Skipped || o.status == Failed) && o.report != Unrecognized
  }

  // Either the whole batch failed, or some phases have results.
  datatype Batch = BatchError(message: string) | Batch(results: map<Phase, Outcome>)

  ghost predicate NormalisedBatch(b: Batch) {
    b.Batch? ==> forall phase :: phase in b.results ==> Normalised(b.results[phase])
  }

  const SKIP_MESSAGE := "phase skipped after previous checker failure"

  function RecordFor(key: Key, phase: Phase, batch: Batch, halted: bool): Record {
    if halted then Record(Run(key, phase, Skipped, SKIP_MESSAGE), Blank, "")
    else
      match batch
      case BatchError(message) => Record(Run(key, phase, Failed, message), Blank, "")
      case Batch(results) =>
        if phase !in results then Record(Run(key, phase, Skipped, SKIP_MESSAGE), Blank, "")
        else
          var o := results[phase];
          Record(Run(key, phase, o.status, o.message), o.report, o.reportMessage)
  }

  // A failure halts the target, and so does a phase the batch has no result for.
  predicate HaltsAfter(phase: Phase, batch: Batch) {
    match batch
    case BatchError(_) => true
    case Batch(results) => phase !in results || results[phase].status == Failed
  }

  function Records(key: Key, phases: seq<Phase>, batch: Batch, halted: bool): seq<Record> {
    if phases == [] then []
    else [RecordFor(key, phases[0], batch, halted)]
         + Records(key, phases[1..], batch, halted || HaltsAfter(phases[0], batch))
  }

  datatype Counts = Counts(total: nat, success: nat, skipped: nat, failed: nat)

  const ZERO := Counts(0, 0, 0, 0)

  function Count(c: Counts, status: RunStatus): Counts {
    match status
    case Success => c.(total := c.total + 1, success := c.success + 1)
    case Skipped => c.(total := c.total + 1, skipped := c.skipped + 1)
    case _ => c.(total := c.total + 1, failed := c.failed + 1)
  }

  function CountAll(c: Counts, records: seq<Record>): Counts
    decreases |records|
  {
    if records == [] then c else CountAll(Count(c, records[0].run.status), records[1..])
  }

  // The flag is issued once its storage has succeeded.
  predicate Issues(records: seq<Record>) {
    exists r :: r in records && r.run.phase == Put && r.run.status == Success
  }

  lemma IssuesSnoc(records: seq<Record>, r: Record)
    ensures Issues(records + [r]) <==> Issues(records) || (r.run.phase == Put && r.run.status == Success)
  {
    assert r in records + [r];
    assert forall x :: x in records ==> x in records + [r];
  }

  lemma RecordsStep(key: Key, phases: seq<Phase>, batch: Batch, halted: bool, done: seq<Record>, i: nat)
    requires i < |phases|
    ensures done + Records(key, phases[i..], batch, halted)
         == done + [RecordFor(key, phases[i], batch, halted)]
            + Records(key, phases[i + 1..], batch, halted || HaltsAfter(phases[i], batch))
  {
    assert phases[i..][1..] == phases[i + 1..];
  }

  method RunCheckerTarget(key: Key, phases: seq<Phase>, batch: Batch)
    returns (records: seq<Record>, counts: Counts, issued: bool)
    ensures records == Records(key, phases, batch, false)
    ensures counts == CountAll(ZERO, records)
    ensures counts.total == |records|
    ensures counts.success == |WithStatus(records, Success)| && counts.skipped == |WithStatus(records, Skipped)|
    ensures counts.failed == |WithStatus(records, Failed)| + |WithStatus(records, OtherStatus)|
    ensures issued <==> Issues(records)
  {
    records, counts, issued := [], ZERO, false;
    var halted := false;
    for i := 0 to |phases|
      invariant records + Records(key, phases[i..], batch, halted) == Records(key, phases, batch, false)
      invariant counts == CountAll(ZERO, records)
      invariant issued <==> Issues(records)
    {
      var record := RecordFor(key, phases[i], batch, halted);
      RecordsStep(key, phases, batch, halted, records, i);
      CountSnoc(ZERO, records, record);
      IssuesSnoc(records, record);
      halted := halted || HaltsAfter(phases[i], batch);
      records := records + [record];
      if record.run.phase == Put && record.run.status == Success {
        issued := true;
      }
      counts := Count(counts, record.run.status);
    }
    CountsMean(records);
  }

  lemma {:induction false} CountSnoc(c: Counts, records: seq<Record>, r: Record)
    ensures CountAll(c, records + [r]) == Count(CountAll(c, records), r.run.status)
    decreases |records|
  {
    if records == [] {
      assert (records + [r])[1..] == [];
    } else {
      CountSnoc(Count(c, records[0].run.status), records[1..], r);
      assert (records + [r])[1..] == records[1..] + [r];
    }
  }

  // One record per phase, in order; at most one failure, and nothing but skips after it.
  ghost predicate Orderly(key: Key, phases: seq<Phase>, records: seq<Record>) {
    && |records| == |phases|
    && (forall i :: 0 <= i < |records| ==> records[i].run.phase == phases[i] && records[i].run.key == key)
    && (forall i, j :: 0 <= i < j < |records| && records[i].run.status == Failed ==> records[j].run.status == Skipped)
  }

  lemma RecordIsNormalised(key: Key, phase: Phase, batch: Batch, halted: bool)
    requires NormalisedBatch(batch)
    ensures var r := RecordFor(key, phase, batch, halted);
            && r.run.key == key && r.run.phase == phase
            && r.run.status != OtherStatus && r.report != Unrecognized
            && (halted ==> r.run.status == Skipped)
            && (r.run.status == Failed ==> HaltsAfter(phase, batch))
  {
  }

  lemma {:induction false} RecordsAreOrderly(key: Key, phases: seq<Phase>, batch: Batch, halted: bool)
    requires NormalisedBatch(batch)
    ensures Orderly(key, phases, Records(key, phases, batch, halted))
    ensures forall r :: r in Records(key, phases, batch, halted) ==>
              r.run.status != OtherStatus && r.report != Unrecognized
    ensures halted ==> forall r :: r in Records(key, phases, batch, halted) ==> r.run.status == Skipped
  {
    if phases != [] {
      var halts := halted || HaltsAfter(phases[0], batch);
      var first, rest := RecordFor(key, phases[0], batch, halted), Records(key, phases[1..], batch, halts);
      RecordIsNormalised(key, phases[0], batch, halted);
      RecordsAreOrderly(key, phases[1..], batch, halts);
      ConsOrderly(key, phases, first, rest);
    }
  }

  lemma ConsOrderly(key: Key, phases: seq<Phase>, first: Record, rest: seq<Record>)
    requires phases != [] && Orderly(key, phases[1..], rest)
    requires first.run.phase == phases[0] && first.run.key == key
    requires first.run.status == Failed ==> forall r :: r in rest ==> r.run.status == Skipped
    ensures Orderly(key, phases, [first] + rest)
  {
    var records := [first] + rest;
    forall i | 0 < i < |records|
      ensures records[i] == rest[i - 1] && records[i] in rest && phases[i] == phases[1..][i - 1]
    {
    }
  }

  // Whether a phase before the i-th halts the target.
  ghost predicate HaltedBefore(phases: seq<Phase>, batch: Batch, i: nat)
    requires i <= |phases|
  {
    exists j :: 0 <= j < i && HaltsAfter(phases[j], batch)
  }

  lemma {:induction false} RecordAt(key: Key, phases: seq<Phase>, batch: Batch, halted: bool, i: nat)
    requires i < |phases|
    ensures |Records(key, phases, batch, halted)| == |phases|
    ensures Records(key, phases, batch, halted)[i]
         == RecordFor(key, phases[i], batch, halted || HaltedBefore(phases, batch, i))
  {
    var rest, halts := phases[1..], halted || HaltsAfter(phases[0], batch);
    if i > 0 {
      RecordAt(key, rest, batch, halts, i - 1);
      assert HaltedBefore(phases, batch, i) <==> HaltsAfter(phases[0], batch) || HaltedBefore(rest, batch, i - 1) by {
        assert forall j :: 0 <= j < |rest| ==> rest[j] == phases[j + 1];
        if HaltedBefore(phases, batch, i) && !HaltsAfter(phases[0], batch) {
          var j :| 0 <= j < i && HaltsAfter(phases[j], batch);
          assert HaltsAfter(rest[j - 1], batch);
        }
      }
    } else if |phases| > 1 {
      RecordAt(key, rest, batch, halts, 0);
    }
  }

  // What is recorded for a phase, in terms of the results alone: nothing ran if the batch failed; a phase after
  // a failed or missing one is skipped; a missing phase is skipped; any other is recorded as reported.
  lemma RecordReads(key: Key, phases: seq<Phase>, batch: Batch, i: nat)
    requires i < |phases|
    ensures |Records(key, phases, batch, false)| == |phases|
    ensures var r := Records(key, phases, batch, false)[i];
            && r.run.key == key && r.run.phase == phases[i]
            && (batch.BatchError? ==> r.report == Blank)
            && (batch.BatchError? && i == 0 ==> r.run.status == Failed && r.run.message == batch.message)
            && (batch.BatchError? && i > 0 ==> r.run.status == Skipped)
            && (batch.Batch? && (exists j :: 0 <= j < i && Unfinished(phases[j], batch.results)) ==>
                  r.run.status == Skipped && r.report == Blank)
            && (batch.Batch? && phases[i] !in batch.results ==> r.run.status == Skipped && r.report == Blank)
            && (batch.Batch? && phases[i] in batch.results
                && !(exists j :: 0 <= j < i && Unfinished(phases[j], batch.results)) ==>
                  var o := batch.results[phases[i]];
                  && r.run.status == o.status && r.run.message == o.message
                  && r.report == o.report && r.reportMessage == o.reportMessage)
  {
    RecordAt(key, phases, batch, false, i);
    assert batch.BatchError? && i > 0 ==> HaltsAfter(phases[0], batch);
    assert batch.Batch? ==>
             forall j :: 0 <= j < i ==> (HaltsAfter(phases[j], batch) <==> Unfinished(phases[j], batch.results));
  }

  predicate Unfinished(phase: Phase, results: map<Phase, Outcome>) {
    phase !in results || results[phase].status == Failed
  }

  // total = success + failed + skipped = number of phases, with at most one failure.
  lemma {:induction false} CountsAddUp(c: Counts, records: seq<Record>)
    requires forall r :: r in records ==> r.run.status != OtherStatus
    ensures var d := CountAll(c, records);
            && d.total == c.total + |records|
            && d.total - c.total == (d.success - c.success) + (d.failed - c.failed) + (d.skipped - c.skipped)
            && d.success >= c.success && d.failed >= c.failed && d.skipped >= c.skipped
    ensures (forall r :: r in records ==> r.run.status == Skipped) ==> CountAll(c, records).failed == c.failed
    ensures (forall i, j :: 0 <= i < j < |records| && records[i].run.status == Failed ==>
               records[j].run.status == Skipped)
            ==> CountAll(c, records).failed <= c.failed + 1
    decreases |records|
  {
    if records != [] {
      CountsAddUp(Count(c, records[0].run.status), records[1..]);
      if records[0].run.status == Failed {
        assert forall j :: 0 < j < |records| ==> records[j] == records[1..][j - 1];
      }
    }
  }

  // The indices of the records with one status.
  function WithStatus(records: seq<Record>, status: RunStatus): set<int> {
    set i | 0 <= i < |records| && records[i].run.status == status
  }

  lemma WithStatusNext(records: seq<Record>, r: Record, status: RunStatus)
    ensures |WithStatus(records + [r], status)|
         == |WithStatus(records, status)| + if r.run.status == status then 1 else 0
  {
    var before, after := WithStatus(records, status), WithStatus(records + [r], status);
    if r.run.status == status {
      assert after == before + {|records|};
    } else {
      assert after == before;
    }
  }

  // A target's counts are the numbers of its records that succeeded, were skipped, and did neither.
  lemma {:induction false} CountsMean(records: seq<Record>)
    ensures var counts := CountAll(ZERO, records);
            && counts.total == |records|
            && counts.success == |WithStatus(records, Success)|
            && counts.skipped == |WithStatus(records, Skipped)|
            && counts.failed == |WithStatus(records, Failed)| + |WithStatus(records, OtherStatus)|
  {
    if records == [] {
      assert forall status :: WithStatus(records, status) == {};
    } else {
      var front, last := records[..|records| - 1], records[|records| - 1];
      CountsMean(front);
      CountSnoc(ZERO, front, last);
      assert front + [last] == records;
      WithStatusNext(front, last, Success);
      WithStatusNext(front, last, Skipped);
      WithStatusNext(front, last, Failed);
      WithStatusNext(front, last, OtherStatus);
    }
  }

  // ---------------------------------------------------------------- rotation

  function Rotate<T>(targets: seq<T>, tick: nat): (rotated: seq<T>)
    ensures |rotated| == |targets|
  {
    if |targets| <= 1 then targets
    else
      var offset := tick % |targets|;
      if offset == 0 then targets else targets[offset..] + targets[..offset]
  }

  // Where the target at a rotated position comes from.
  function Slot(position: nat, tick: nat, n: nat): (slot: nat)
    requires position < n
    ensures slot < n
  {
    var shifted := position + tick % n;
    if shifted < n then shifted else shifted - n
  }

  lemma RotatedAt<T>(targets: seq<T>, tick: nat, position: nat)
    requires position < |targets|
    ensures Rotate(targets, tick)[position] == targets[Slot(position, tick, |targets|)]
  {
  }

  lemma ModUnique(x: nat, q: int, r: nat, n: nat)
    requires n > 0 && x == n * q + r && r < n
    ensures x % n == r
  {
    var d := x / n - q;
    assert n * d == r - x % n;
    assert d >= 1 ==> n * d >= n;
    assert d <= -1 ==> n * d + n <= 0;
  }

  lemma ModSucc(t: nat, n: nat)
    requires n > 0
    ensures (t + 1) % n == if t % n + 1 == n then 0 else t % n + 1
  {
    var q, r := t / n, t % n;
    assert t == n * q + r;
    if r + 1 == n {
      assert n * (q + 1) == n * q + n;
      ModUnique(t + 1, q + 1, 0, n);
    } else {
      ModUnique(t + 1, q, r + 1, n);
    }
  }

  lemma {:induction false} ModAhead(first: nat, k: nat, n: nat)
    requires k < n
    ensures (first + k) % n == if first % n + k < n then first % n + k else first % n + k - n
  {
    if k > 0 {
      ModAhead(first, k - 1, n);
      ModSucc(first + k - 1, n);
    }
  }

  // In tick t the target list starts at its t-th entry, counted around.
  lemma RotatesForward<T>(targets: seq<T>, tick: nat, position: nat)
    requires position < |targets|
    ensures (tick + position) % |targets| < |targets|
    ensures Rotate(targets, tick)[position] == targets[(tick + position) % |targets|]
  {
    ModAhead(tick, position, |targets|);
    RotatedAt(targets, tick, position);
  }

  // The one tick, among n in a row, that brings a target to a position.
  function TurnOf(first: nat, target: nat, position: nat, n: nat): nat
    requires target < n && position < n
  {
    var start := Slot(position, first, n);
    first + if target >= start then target - start else target + n - start
  }

  lemma SlotAhead(position: nat, first: nat, k: nat, n: nat)
    requires position < n && k < n
    ensures var start := Slot(position, first, n);
            Slot(position, first + k, n) == if start + k < n then start + k else start + k - n
  {
    ModAhead(first, k, n);
  }

  // Over n consecutive ticks every target stands in every position exactly once.
  lemma RotationIsFair<T>(targets: seq<T>, first: nat, target: nat, position: nat)
    requires target < |targets| && position < |targets|
    ensures var n, tick := |targets|, TurnOf(first, target, position, |targets|);
            && first <= tick < first + n
            && Rotate(targets, tick)[position] == targets[target]
            && (forall t: nat :: first <= t < first + n ==> (Slot(position, t, n) == target <==> t == tick))
    ensures forall t: nat :: Rotate(targets, t)[position] == targets[Slot(position, t, |targets|)]
  {
    var n, tick := |targets|, TurnOf(first, target, position, |targets|);
    forall t: nat | first <= t < first + n ensures Slot(position, t, n) == target <==> t == tick {
      SlotAhead(position, first, t - first, n);
    }
    forall t: nat ensures Rotate(targets, t)[position] == targets[Slot(position, t, n)] {
      RotatedAt(targets, t, position);
    }
    assert Slot(position, tick, n) == target;
  }

  // ---------------------------------------------------------------- the worker pool

  // Indices are handed out in order; `working` are those some worker is busy with.
  datatype Pool = Pool(handed: nat, working: set<nat>, results: seq<Option<Counts>>, checks: seq<nat>)

  function FreshPool(targets: nat): Pool {
    Pool(0, {}, seq(targets, _ => None), seq(targets, _ => 0))
  }

  datatype PoolAction = Take | Finish(index: nat)

  // An idle worker takes the next index, or a busy one stores the counts of the target it has checked.
  function PoolStep(p: Pool, parallelism: nat, targets: seq<Counts>, a: PoolAction): (q: Pool)
    requires |p.results| == |p.checks| == |targets|
    ensures |q.results| == |q.checks| == |targets|
  {
    match a
    case Take =>
      if |p.working| >= parallelism || p.handed >= |targets| then p
      else p.(handed := p.handed + 1, working := p.working + {p.handed},
              checks := p.checks[p.handed := p.checks[p.handed] + 1])
    case Finish(i) =>
      if i !in p.working || i >= |targets| then p
      else p.(working := p.working - {i}, results := p.results[i := Some(targets[i])])
  }

  function PoolRun(p: Pool, parallelism: nat, targets: seq<Counts>, actions: seq<PoolAction>): (q: Pool)
    requires |p.results| == |p.checks| == |targets|
    ensures |q.results| == |q.checks| == |targets|
    decreases |actions|
  {
    if actions == [] then p
    else PoolRun(PoolStep(p, parallelism, targets, actions[0]), parallelism, targets, actions[1..])
  }

  ghost predicate PoolSafe(p: Pool, parallelism: nat, targets: seq<Counts>) {
    && |p.results| == |p.checks| == |targets| && p.handed <= |targets| && |p.working| <= parallelism
    && (forall i :: i in p.working ==> i < p.handed)
    && (forall i :: 0 <= i < |targets| ==> p.checks[i] == if i < p.handed then 1 else 0)
    && (forall i :: 0 <= i < |targets| ==>
          p.results[i] == if i < p.handed && i !in p.working then Some(targets[i]) else None)
  }

  lemma TakeIsSafe(p: Pool, parallelism: nat, targets: seq<Counts>)
    requires PoolSafe(p, parallelism, targets)
    ensures PoolSafe(PoolStep(p, parallelism, targets, Take), parallelism, targets)
  {
  }

  lemma FinishIsSafe(p: Pool, parallelism: nat, targets: seq<Counts>, i: nat)
    requires PoolSafe(p, parallelism, targets)
    ensures PoolSafe(PoolStep(p, parallelism, targets, Finish(i)), parallelism, targets)
  {
  }

  lemma {:induction false} PoolRunIsSafe(p: Pool, parallelism: nat, targets: seq<Counts>, actions: seq<PoolAction>)
    requires PoolSafe(p, parallelism, targets)
    ensures PoolSafe(PoolRun(p, parallelism, targets, actions), parallelism, targets)
    decreases |actions|
  {
    if actions != [] {
      match actions[0] {
        case Take => TakeIsSafe(p, parallelism, targets);
        case Finish(i) => FinishIsSafe(p, parallelism, targets, i);
      }
      PoolRunIsSafe(PoolStep(p, parallelism, targets, actions[0]), parallelism, targets, actions[1..]);
    }
  }

  // However the workers interleave, a drained pool has checked each target once and holds its counts.
  lemma EveryTargetOnce(parallelism: nat, targets: seq<Counts>, actions: seq<PoolAction>)
    ensures var p := PoolRun(FreshPool(|targets|), parallelism, targets, actions);
            && |p.working| <= parallelism
            && (forall i :: 0 <= i < |targets| ==> p.checks[i] <= 1)
            && (p.handed == |targets| && p.working == {} ==>
                  forall i :: 0 <= i < |targets| ==> p.checks[i] == 1 && p.results[i] == Some(targets[i]))
  {
    PoolRunIsSafe(FreshPool(|targets|), parallelism, targets, actions);
  }

  // ---------------------------------------------------------------- the tick's totals

  method AddResults(results: seq<Counts>) returns (tick: Counts, covered: nat)
    ensures tick == Total(results)
    ensures covered <= |results|
    ensures (forall c :: c in results ==> c.total > 0) ==> covered == |results|
  {
    tick, covered := ZERO, 0;
    for i := 0 to |results|
      invariant tick == Total(results[..i])
      invariant covered <= i
      invariant (forall c :: c in results ==> c.total > 0) ==> covered == i
    {
      assert results[..i + 1][..i] == results[..i];
      tick := Plus(tick, results[i]);
      if results[i].total > 0 {
        covered := covered + 1;
      }
    }
    assert results[..|results|] == results;
  }

  function Plus(a: Counts, b: Counts): Counts {
    Counts(a.total + b.total, a.success + b.success, a.skipped + b.skipped, a.failed + b.failed)
  }

  function Total(results: seq<Counts>): Counts {
    if results == [] then ZERO else Plus(Total(results[..|results| - 1]), results[|results| - 1])
  }

  // What a target without persistence errors contributes.
  ghost predicate FullTarget(c: Counts, phases: nat) {
    c.total == phases && c.total == c.success + c.failed + c.skipped && c.failed <= 1
  }

  lemma TargetIsFull(key: Key, phases: seq<Phase>, batch: Batch)
    requires NormalisedBatch(batch)
    ensures FullTarget(CountAll(ZERO, Records(key, phases, batch, false)), |phases|)
  {
    RecordsAreOrderly(key, phases, batch, false);
    CountsAddUp(ZERO, Records(key, phases, batch, false));
  }

  lemma OneMoreTarget(targets: nat, phases: nat)
    ensures (targets + 1) * phases == targets * phases + phases
  {
  }

  // total = targets * phases = success + failed + skipped, with at most one failure per target.
  lemma {:induction false} TickAccounting(results: seq<Counts>, phases: nat)
    requires forall c :: c in results ==> FullTarget(c, phases)
    ensures var tick := Total(results);
            && tick.total == |results| * phases
            && tick.total == tick.success + tick.failed + tick.skipped
            && tick.failed <= |results|
  {
    if results != [] {
      var front, last := results[..|results| - 1], results[|results| - 1];
      TickAccounting(front, phases);
      assert FullTarget(last, phases);
      OneMoreTarget(|front|, phases);
    }
  }

  // ---------------------------------------------------------------- the whole tick

  datatype TargetCheck = TargetCheck(key: Key, batch: Batch)

  // What checking each target in turn would count.
  function CountsOf(checks: seq<TargetCheck>, phases: seq<Phase>): (counts: seq<Counts>)
    ensures |counts| == |checks|
    ensures forall i :: 0 <= i < |checks| ==>
              counts[i] == CountAll(ZERO, Records(checks[i].key, phases, checks[i].batch, false))
  {
    seq(|checks|, i requires 0 <= i < |checks| =>
      CountAll(ZERO, Records(checks[i].key, phases, checks[i].batch, false)))
  }

  lemma CountsAreFull(checks: seq<TargetCheck>, phases: seq<Phase>)
    requires forall i :: 0 <= i < |checks| ==> NormalisedBatch(checks[i].batch)
    ensures forall c :: c in CountsOf(checks, phases) ==> FullTarget(c, |phases|)
  {
    var counts := CountsOf(checks, phases);
    forall i | 0 <= i < |counts| ensures FullTarget(counts[i], |phases|) {
      TargetIsFull(checks[i].key, phases, checks[i].batch);
    }
  }

  // The counts a pool has stored, in target order.
  function Stored(results: seq<Option<Counts>>): seq<Counts> {
    seq(|results|, i requires 0 <= i < |results| => results[i].GetOr(ZERO))
  }

  lemma DrainedPoolStores(parallelism: nat, counts: seq<Counts>, actions: seq<PoolAction>)
    requires var p := PoolRun(FreshPool(|counts|), parallelism, counts, actions);
             p.handed == |counts| && p.working == {}
    ensures Stored(PoolRun(FreshPool(|counts|), parallelism, counts, actions).results) == counts
  {
    EveryTargetOnce(parallelism, counts, actions);
  }

  // Whatever the batches bring and however the workers interleave, a tick whose pool drains has
  // total = targets * phases = success + failed + skipped, with at most one failed phase per target.
  lemma TickAddsUp(parallelism: nat, phases: seq<Phase>, checks: seq<TargetCheck>, actions: seq<PoolAction>)
    requires forall i :: 0 <= i < |checks| ==> NormalisedBatch(checks[i].batch)
    requires var p := PoolRun(FreshPool(|checks|), parallelism, CountsOf(checks, phases), actions);
             p.handed == |checks| && p.working == {}
    ensures var p := PoolRun(FreshPool(|checks|), parallelism, CountsOf(checks, phases), actions);
            var tick := Total(Stored(p.results));
            && (forall i :: 0 <= i < |checks| ==> p.checks[i] == 1)
            && tick.total == |checks| * |phases|
            && tick.total == tick.success + tick.failed + tick.skipped
            && tick.failed <= |checks|
            && tick.success == InAll(checks, phases, Success) && tick.skipped == InAll(checks, phases, Skipped)
            && tick.failed == InAll(checks, phases, Failed)
  {
    var counts := CountsOf(checks, phases);
    DrainedPoolStores(parallelism, counts, actions);
    EveryTargetOnce(parallelism, counts, actions);
    CountsAreFull(checks, phases);
    TickAccounting(counts, |phases|);
    TotalMeans(checks, phases);
  }

  // How many records of all targets have one status.
  function InAll(checks: seq<TargetCheck>, phases: seq<Phase>, status: RunStatus): nat {
    if checks == [] then 0
    else
      var last := checks[|checks| - 1];
      InAll(checks[..|checks| - 1], phases, status)
        + |WithStatus(Records(last.key, phases, last.batch, false), status)|
  }

  lemma {:induction false} TotalMeans(checks: seq<TargetCheck>, phases: seq<Phase>)
    requires forall i :: 0 <= i < |checks| ==> NormalisedBatch(checks[i].batch)
    ensures var tick := Total(CountsOf(checks, phases));
            && tick.success == InAll(checks, phases, Success) && tick.skipped == InAll(checks, phases, Skipped)
            && tick.failed == InAll(checks, phases, Failed)
  {
    if checks != [] {
      var front, last := checks[..|checks| - 1], checks[|checks| - 1];
      TotalMeans(front, phases);
      assert CountsOf(checks, phases)[..|checks| - 1] == CountsOf(front, phases);
      CountsMean(Records(last.key, phases, last.batch, false));
      NoOtherStatus(last, phases);
    }
  }

  lemma NoOtherStatus(check: TargetCheck, phases: seq<Phase>)
    requires NormalisedBatch(check.batch)
    ensures WithStatus(Records(check.key, phases, check.batch, false), OtherStatus) == {}
  {
    RecordsAreOrderly(check.key, phases, check.batch, false);
  }
}
