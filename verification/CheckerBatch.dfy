/**
 The batch checker protocol: the container script prints one length-prefixed frame per
 phase and stops at the first failure; the runner parses the frames back and turns them
 into phase results. Output is a byte string, one character per byte.
 */
module CheckerBatch {
  import opened Common
  import opened Text

  const FRAME_PREFIX := "__ADP_PHASE_FRAME__ "

  datatype Phase = Put | Get | Check

  function PhaseText(phase: Phase): string {
    match phase
    case Put => "put"
    case Get => "get"
    case Check => "check"
  }

  function NormalizePhase(value: string): Option<Phase> {
    var phase := Lower(Trim(GoSpace, value));
    if phase == "put" then Some(Put)
    else if phase == "get" then Some(Get)
    else if phase == "check" then Some(Check)
    else None
  }

  datatype Frame = Frame(output: string, exitCode: int)

  datatype Entry = Entry(phase: Phase, frame: Frame)

  datatype FrameError =
    | OutputEmpty
    | HeaderIncomplete
    | HeaderInvalid
    | MetadataInvalid
    | PhaseDuplicated
    | ExitCodeInvalid
    | PayloadLengthInvalid
    | DelimiterMissing

  datatype Parsed = Frames(frames: map<Phase, Frame>) | Broken(error: FrameError)

  datatype Header = Header(phase: Phase, exitCode: int, length: nat) | BadHeader(error: FrameError)

  // ---------------------------------------------------------------- printing and parsing

  function MetadataText(e: Entry): string {
    PhaseText(e.phase) + " " + (PrintInt(e.frame.exitCode) + " " + PrintInt(|e.frame.output|))
  }

  function HeaderText(e: Entry): string {
    FRAME_PREFIX + MetadataText(e)
  }

  function PrintFrame(e: Entry): string { HeaderText(e) + "\n" + e.frame.output + "\n" }

  function PrintFrames(entries: seq<Entry>): string {
    if entries == [] then "" else PrintFrame(entries[0]) + PrintFrames(entries[1..])
  }

  function IndexOf(s: string, c: char): (n: int)
    ensures n == -1 ==> c !in s
    ensures n != -1 ==> 0 <= n < |s| && s[n] == c && c !in s[..n]
  {
    if s == [] then -1
    else if s[0] == c then 0
    else
      var n := IndexOf(s[1..], c);
      assert n >= 0 ==> s[..n + 1] == [s[0]] + s[1..][..n];
      if n < 0 then -1 else n + 1
  }

  function ParseMetadata(text: string, seen: set<Phase>, remaining: nat): (h: Header)
    ensures h.Header? ==> h.phase !in seen && 0 <= h.exitCode <= 255 && h.length <= remaining
  {
    var fields := Fields(text);
    if |fields| != 3 then BadHeader(MetadataInvalid)
    else
      match NormalizePhase(fields[0])
      case None => BadHeader(MetadataInvalid)
      case Some(phase) =>
        if phase in seen then BadHeader(PhaseDuplicated)
        else
          var exitCode, length := Atoi(fields[1]), Atoi(fields[2]);
          if exitCode.None? || !(0 <= exitCode.value <= 255) then BadHeader(ExitCodeInvalid)
          else if length.None? || !(0 <= length.value <= remaining) then BadHeader(PayloadLengthInvalid)
          else Header(phase, exitCode.value, length.value)
  }

  function ParseHeader(header: string, seen: set<Phase>, remaining: nat): (h: Header)
    ensures h.Header? ==> h.phase !in seen && 0 <= h.exitCode <= 255 && h.length <= remaining
  {
    if StartsWith(header, FRAME_PREFIX) then
      StartsWithLength(header, FRAME_PREFIX);
      ParseMetadata(header[|FRAME_PREFIX|..], seen, remaining)
    else BadHeader(HeaderInvalid)
  }

  datatype Step = Advance(consumed: nat, entry: Entry) | Stop(error: FrameError)

  // The frame at the head of `rest` and how many characters it takes.
  function NextFrame(rest: string, seen: set<Phase>): (step: Step)
    requires rest != []
    ensures step.Advance? ==> 0 < step.consumed <= |rest|
    ensures step.Advance? ==> step.entry.phase !in seen
  {
    var n := IndexOf(rest, '\n');
    if n < 0 then Stop(HeaderIncomplete)
    else
      var body := rest[n + 1..];
      match ParseHeader(rest[..n], seen, |body|)
      case BadHeader(error) => Stop(error)
      case Header(phase, exitCode, length) =>
        if length >= |body| || body[length] != '\n' then Stop(DelimiterMissing)
        else Advance(n + length + 2, Entry(phase, Frame(body[..length], exitCode)))
  }

  function ParseRest(rest: string, frames: map<Phase, Frame>): Parsed
    decreases |rest|
  {
    if rest == [] then Frames(frames)
    else
      match NextFrame(rest, frames.Keys)
      case Stop(error) => Broken(error)
      case Advance(consumed, entry) => ParseRest(rest[consumed..], frames[entry.phase := entry.frame])
  }

  function ParseFrames(output: string): Parsed {
    if output == "" then Broken(OutputEmpty) else ParseRest(output, map[])
  }

  method ReadHeader(header: string, frames: map<Phase, Frame>, remaining: nat) returns (h: Header)
    ensures h == ParseHeader(header, frames.Keys, remaining)
  {
    if !StartsWith(header, FRAME_PREFIX) {
      return BadHeader(HeaderInvalid);
    }
    StartsWithLength(header, FRAME_PREFIX);
    var fields := Fields(header[|FRAME_PREFIX|..]);
    if |fields| != 3 {
      return BadHeader(MetadataInvalid);
    }
    var phase := NormalizePhase(fields[0]);
    if phase.None? {
      return BadHeader(MetadataInvalid);
    }
    if phase.value in frames {
      return BadHeader(PhaseDuplicated);
    }
    var exitCode := Atoi(fields[1]);
    if exitCode.None? || exitCode.value < 0 || exitCode.value > 255 {
      return BadHeader(ExitCodeInvalid);
    }
    var payloadLength := Atoi(fields[2]);
    if payloadLength.None? || payloadLength.value < 0 || payloadLength.value > remaining {
      return BadHeader(PayloadLengthInvalid);
    }
    return Header(phase.value, exitCode.value, payloadLength.value);
  }

  method ReadFrame(rest: string, frames: map<Phase, Frame>) returns (step: Step)
    requires rest != []
    ensures step == NextFrame(rest, frames.Keys)
  {
    var headerEnd := IndexOf(rest, '\n');
    if headerEnd < 0 {
      return Stop(HeaderIncomplete);
    }
    var body := rest[headerEnd + 1..];
    var h := ReadHeader(rest[..headerEnd], frames, |body|);
    if h.BadHeader? {
      return Stop(h.error);
    }
    if h.length >= |body| || body[h.length] != '\n' {
      return Stop(DelimiterMissing);
    }
    return Advance(headerEnd + h.length + 2, Entry(h.phase, Frame(body[..h.length], h.exitCode)));
  }

  lemma ParseRestStops(rest: string, frames: map<Phase, Frame>)
    requires rest != [] && NextFrame(rest, frames.Keys).Stop?
    ensures ParseRest(rest, frames) == Broken(NextFrame(rest, frames.Keys).error)
  {
  }

  lemma ParseRestAdvances(rest: string, frames: map<Phase, Frame>, consumed: nat, entry: Entry)
    requires rest != [] && NextFrame(rest, frames.Keys) == Advance(consumed, entry)
    ensures consumed <= |rest|
    ensures ParseRest(rest, frames) == ParseRest(rest[consumed..], frames[entry.phase := entry.frame])
  {
  }

  // One turn of the parse loop.
  method TakeFrame(rest: string, frames: map<Phase, Frame>) returns (step: Step)
    requires rest != []
    ensures step.Stop? ==> ParseRest(rest, frames) == Broken(step.error)
    ensures step.Advance? ==> 0 < step.consumed <= |rest|
    ensures step.Advance? ==>
              ParseRest(rest[step.consumed..], frames[step.entry.phase := step.entry.frame]) == ParseRest(rest, frames)
  {
    step := ReadFrame(rest, frames);
    if step.Stop? {
      ParseRestStops(rest, frames);
    } else {
      ParseRestAdvances(rest, frames, step.consumed, step.entry);
    }
  }

  // What is left to parse at a cursor, with the frames found so far.
  type Remainder = (nat, map<Phase, Frame>) -> Parsed

  ghost predicate LeftAt(output: string, left: Remainder, cursor: nat, frames: map<Phase, Frame>) {
    cursor <= |output| ==> left(cursor, frames) == ParseRest(output[cursor..], frames)
  }

  ghost predicate Leaves(output: string, left: Remainder) {
    forall cursor: nat, frames: map<Phase, Frame> :: LeftAt(output, left, cursor, frames)
  }

  lemma NothingLeft(output: string, left: Remainder, frames: map<Phase, Frame>)
    requires Leaves(output, left)
    ensures left(|output|, frames) == Frames(frames)
  {
    assert LeftAt(output, left, |output|, frames);
    assert output[|output|..] == [];
  }

  // One turn of the parse loop at a cursor.
  method TakeFrameAt(output: string, cursor: nat, frames: map<Phase, Frame>, ghost left: Remainder) returns (step: Step)
    requires cursor < |output| && Leaves(output, left)
    ensures step.Stop? ==> left(cursor, frames) == Broken(step.error)
    ensures step.Advance? ==> 0 < step.consumed <= |output| - cursor
    ensures step.Advance? ==>
              left(cursor + step.consumed, frames[step.entry.phase := step.entry.frame]) == left(cursor, frames)
  {
    assert LeftAt(output, left, cursor, frames);
    step := TakeFrame(output[cursor..], frames);
    if step.Advance? {
      assert LeftAt(output, left, cursor + step.consumed, frames[step.entry.phase := step.entry.frame]);
      assert output[cursor..][step.consumed..] == output[cursor + step.consumed..];
    }
  }

  method ParseCheckerBatchFrames(output: string) returns (result: Parsed)
    ensures result == ParseFrames(output)
  {
    if output == "" {
      return Broken(OutputEmpty);
    }
    ghost var left: Remainder :=
      (cursor: nat, frames: map<Phase, Frame>) =>
        if cursor <= |output| then ParseRest(output[cursor..], frames) else Frames(frames);
    assert Leaves(output, left);
    assert output[0..] == output;
    result := ParseAll(output, left);
  }

  method ParseAll(output: string, ghost left: Remainder) returns (result: Parsed)
    requires Leaves(output, left)
    ensures result == left(0, map[])
  {
    var frames: map<Phase, Frame> := map[];
    var cursor := 0;
    while cursor < |output|
      invariant 0 <= cursor <= |output|
      invariant left(cursor, frames) == left(0, map[])
    {
      var step := TakeFrameAt(output, cursor, frames, left);
      if step.Stop? {
        return Broken(step.error);
      }
      cursor := cursor + step.consumed;
      frames := frames[step.entry.phase := step.entry.frame];
    }
    NothingLeft(output, left, frames);
    return Frames(frames);
  }

  // ---------------------------------------------------------------- print, then parse

  predicate Printable(e: Entry) {
    0 <= e.frame.exitCode <= 255 && |e.frame.output| <= MAX_INT
  }

  lemma IntIsWord(n: int)
    ensures Word(PrintInt(n)) && '\n' !in PrintInt(n)
  {
    PrintIntCharacters(n);
  }

  lemma ThreeFields(a: string, b: string, c: string)
    requires Word(a) && Word(b) && Word(c)
    ensures Fields(a + " " + (b + " " + c)) == [a, b, c]
  {
    FieldsOfWord(c);
    FieldsStep(b, c);
    FieldsStep(a, b + " " + c);
  }

  lemma PhaseTextParses(phase: Phase)
    ensures Word(PhaseText(phase)) && '\n' !in PhaseText(phase)
    ensures NormalizePhase(PhaseText(phase)) == Some(phase)
  {
    PhaseTextIsWord(phase);
    PhaseTextIsNormal(phase);
  }

  lemma PhaseTextIsWord(phase: Phase)
    ensures Word(PhaseText(phase)) && '\n' !in PhaseText(phase)
  {
  }

  lemma PhaseTextIsNormal(phase: Phase)
    ensures NormalizePhase(PhaseText(phase)) == Some(phase)
  {
    var text := PhaseText(phase);
    TrimOfTrimmed(GoSpace, text);
    LowerOfLower(text);
  }

  lemma {:induction false} LowerOfLower(s: string)
    requires forall i :: 0 <= i < |s| ==> 'a' <= s[i] <= 'z'
    ensures Lower(s) == s
  {
    if s != [] {
      LowerOfLower(s[1..]);
      assert s == [s[0]] + s[1..];
    }
  }

  lemma MetadataParses(e: Entry, seen: set<Phase>, remaining: nat)
    requires Printable(e) && e.phase !in seen && |e.frame.output| <= remaining
    ensures ParseMetadata(MetadataText(e), seen, remaining) == Header(e.phase, e.frame.exitCode, |e.frame.output|)
  {
    PhaseTextParses(e.phase);
    IntIsWord(e.frame.exitCode);
    IntIsWord(|e.frame.output|);
    ThreeFields(PhaseText(e.phase), PrintInt(e.frame.exitCode), PrintInt(|e.frame.output|));
    AtoiOfPrintInt(e.frame.exitCode);
    AtoiOfPrintInt(|e.frame.output|);
  }

  lemma HeaderParses(e: Entry, seen: set<Phase>, remaining: nat)
    requires Printable(e) && e.phase !in seen && |e.frame.output| <= remaining
    ensures ParseHeader(HeaderText(e), seen, remaining) == Header(e.phase, e.frame.exitCode, |e.frame.output|)
  {
    StartsWithPrefix(FRAME_PREFIX, MetadataText(e));
    MetadataParses(e, seen, remaining);
  }

  lemma HeaderIsOneLine(e: Entry)
    ensures '\n' !in HeaderText(e)
  {
    PhaseTextParses(e.phase);
    IntIsWord(e.frame.exitCode);
    IntIsWord(|e.frame.output|);
  }

  lemma FirstLine(line: string, rest: string)
    requires '\n' !in line
    ensures IndexOf(line + "\n" + rest, '\n') == |line|
  {
    var s := line + "\n" + rest;
    var n := IndexOf(s, '\n');
    assert s[|line|] == '\n';
    assert forall i :: 0 <= i < |line| ==> s[i] == line[i] && line[i] in line;
    assert forall i :: 0 <= i < n ==> s[i] in s[..n];
  }

  lemma FrameCut(s: string, n: nat, seen: set<Phase>, h: Header)
    requires n < |s| && IndexOf(s, '\n') == n && h == ParseHeader(s[..n], seen, |s[n + 1..]|)
    requires h.Header? && h.length < |s[n + 1..]| && s[n + 1..][h.length] == '\n'
    ensures NextFrame(s, seen) == Advance(n + h.length + 2, Entry(h.phase, Frame(s[n + 1..][..h.length], h.exitCode)))
  {
  }

  lemma PrintedFrameParts(e: Entry, rest: string)
    ensures var header, body, s := HeaderText(e), e.frame.output + "\n" + rest, PrintFrame(e) + rest;
            && s == header + "\n" + body && |header| < |s| && s[..|header|] == header && s[|header| + 1..] == body
  {
    var header, body, s := HeaderText(e), e.frame.output + "\n" + rest, PrintFrame(e) + rest;
    assert s == header + "\n" + body;
    assert s[..|header|] == header;
    assert s[|header| + 1..] == body;
  }

  lemma NextPrintedFrame(e: Entry, rest: string, seen: set<Phase>)
    requires Printable(e) && e.phase !in seen
    ensures NextFrame(PrintFrame(e) + rest, seen) == Advance(|PrintFrame(e)|, e)
  {
    var header, payload := HeaderText(e), e.frame.output;
    var body := payload + "\n" + rest;
    var s := PrintFrame(e) + rest;
    PrintedFrameParts(e, rest);
    HeaderIsOneLine(e);
    FirstLine(header, body);
    HeaderParses(e, seen, |body|);
    assert body[..|payload|] == payload && body[|payload|] == '\n';
    FrameCut(s, |header|, seen, Header(e.phase, e.frame.exitCode, |payload|));
  }

  lemma ParseOneFrame(e: Entry, rest: string, frames: map<Phase, Frame>)
    requires Printable(e) && e.phase !in frames
    ensures ParseRest(PrintFrame(e) + rest, frames) == ParseRest(rest, frames[e.phase := e.frame])
  {
    NextPrintedFrame(e, rest, frames.Keys);
    assert (PrintFrame(e) + rest)[|PrintFrame(e)|..] == rest;
  }

  ghost predicate DistinctPhases(entries: seq<Entry>) {
    forall i, j :: 0 <= i < j < |entries| ==> entries[i].phase != entries[j].phase
  }

  function Collect(frames: map<Phase, Frame>, entries: seq<Entry>): map<Phase, Frame>
    decreases |entries|
  {
    if entries == [] then frames
    else Collect(frames[entries[0].phase := entries[0].frame], entries[1..])
  }

  lemma {:induction false} CollectSize(frames: map<Phase, Frame>, entries: seq<Entry>)
    requires DistinctPhases(entries) && forall i :: 0 <= i < |entries| ==> entries[i].phase !in frames
    ensures |Collect(frames, entries)| == |frames| + |entries|
    decreases |entries|
  {
    if entries != [] {
      var next := frames[entries[0].phase := entries[0].frame];
      assert next.Keys == frames.Keys + {entries[0].phase};
      CollectSize(next, entries[1..]);
    }
  }

  lemma {:induction false} CollectKeepsOthers(frames: map<Phase, Frame>, entries: seq<Entry>, phase: Phase)
    requires phase in frames && forall i :: 0 <= i < |entries| ==> entries[i].phase != phase
    ensures phase in Collect(frames, entries) && Collect(frames, entries)[phase] == frames[phase]
    decreases |entries|
  {
    if entries != [] {
      CollectKeepsOthers(frames[entries[0].phase := entries[0].frame], entries[1..], phase);
    }
  }

  lemma {:induction false} CollectValue(frames: map<Phase, Frame>, entries: seq<Entry>, i: nat)
    requires DistinctPhases(entries) && i < |entries|
    ensures entries[i].phase in Collect(frames, entries)
    ensures Collect(frames, entries)[entries[i].phase] == entries[i].frame
    decreases |entries|
  {
    var next := frames[entries[0].phase := entries[0].frame];
    if i == 0 {
      CollectKeepsOthers(next, entries[1..], entries[0].phase);
    } else {
      CollectValue(next, entries[1..], i - 1);
    }
  }

  lemma {:induction false} ParseOfPrint(entries: seq<Entry>, frames: map<Phase, Frame>)
    requires DistinctPhases(entries)
    requires forall i :: 0 <= i < |entries| ==> Printable(entries[i]) && entries[i].phase !in frames
    ensures ParseRest(PrintFrames(entries), frames) == Frames(Collect(frames, entries))
    decreases |entries|
  {
    if entries != [] {
      ParseOneFrame(entries[0], PrintFrames(entries[1..]), frames);
      forall i | 0 <= i < |entries| - 1
        ensures entries[1..][i].phase !in frames[entries[0].phase := entries[0].frame]
      {
        assert entries[1..][i] == entries[i + 1];
      }
      ParseOfPrint(entries[1..], frames[entries[0].phase := entries[0].frame]);
    }
  }

  // The map holds these entries and nothing else.
  ghost predicate Exactly(frames: map<Phase, Frame>, entries: seq<Entry>) {
    && |frames| == |entries|
    && forall i :: 0 <= i < |entries| ==> entries[i].phase in frames && frames[entries[i].phase] == entries[i].frame
  }

  lemma PrintFramesIsText(entries: seq<Entry>)
    requires entries != []
    ensures PrintFrames(entries) != ""
  {
    assert |PrintFrame(entries[0])| > 0;
  }

  lemma PrintedFramesParse(entries: seq<Entry>)
    requires DistinctPhases(entries) && forall i :: 0 <= i < |entries| ==> Printable(entries[i])
    ensures ParseRest(PrintFrames(entries), map[]) == Frames(Collect(map[], entries))
  {
    ParseOfPrint(entries, map[]);
  }

  lemma CollectExactly(entries: seq<Entry>)
    requires DistinctPhases(entries)
    ensures Exactly(Collect(map[], entries), entries)
  {
    CollectSize(map[], entries);
    forall i | 0 <= i < |entries|
      ensures entries[i].phase in Collect(map[], entries)
           && Collect(map[], entries)[entries[i].phase] == entries[i].frame
    {
      CollectValue(map[], entries, i);
    }
  }

  lemma ParsePrintedFrames(entries: seq<Entry>)
    requires entries != [] && DistinctPhases(entries)
    requires forall i :: 0 <= i < |entries| ==> Printable(entries[i])
    ensures ParseFrames(PrintFrames(entries)) == Frames(Collect(map[], entries))
  {
    PrintFramesIsText(entries);
    PrintedFramesParse(entries);
  }

  // The parser returns exactly the printed frames, whatever bytes the payloads hold.
  lemma FramesRoundTrip(entries: seq<Entry>)
    requires entries != [] && DistinctPhases(entries)
    requires forall i :: 0 <= i < |entries| ==> Printable(entries[i])
    ensures ParseFrames(PrintFrames(entries)).Frames?
    ensures Exactly(ParseFrames(PrintFrames(entries)).frames, entries)
  {
    ParsePrintedFrames(entries);
    CollectExactly(entries);
  }

  // ---------------------------------------------------------------- what any accepted output looks like

  datatype Chunk = Chunk(header: string, entry: Entry)

  function ChunkText(c: Chunk): string { c.header + "\n" + c.entry.frame.output + "\n" }

  function ChunksText(chunks: seq<Chunk>): string {
    if chunks == [] then "" else ChunkText(chunks[0]) + ChunksText(chunks[1..])
  }

  function ChunkEntries(chunks: seq<Chunk>): seq<Entry> {
    if chunks == [] then [] else [chunks[0].entry] + ChunkEntries(chunks[1..])
  }

  // The header announces the entry that follows it.
  predicate WellFormed(c: Chunk) {
    var length := |c.entry.frame.output|;
    && '\n' !in c.header
    && ParseHeader(c.header, {}, length) == Header(c.entry.phase, c.entry.frame.exitCode, length)
  }

  lemma HeaderWithoutContext(header: string, seen: set<Phase>, remaining: nat)
    requires ParseHeader(header, seen, remaining).Header?
    ensures var h := ParseHeader(header, seen, remaining); ParseHeader(header, {}, h.length) == h
  {
  }

  // A consumed frame is one well-formed chunk of text.
  lemma ConsumedIsChunk(rest: string, seen: set<Phase>) returns (c: Chunk)
    requires rest != [] && NextFrame(rest, seen).Advance?
    ensures WellFormed(c) && c.entry == NextFrame(rest, seen).entry
    ensures rest == ChunkText(c) + rest[NextFrame(rest, seen).consumed..]
  {
    var n := IndexOf(rest, '\n');
    var body := rest[n + 1..];
    HeaderWithoutContext(rest[..n], seen, |body|);
    c := Chunk(rest[..n], NextFrame(rest, seen).entry);
    CutChunk(rest, n, |c.entry.frame.output|);
  }

  lemma CutChunk(rest: string, n: nat, length: nat)
    requires n < |rest| && rest[n] == '\n' && length < |rest[n + 1..]| && rest[n + 1..][length] == '\n'
    ensures rest == rest[..n] + "\n" + rest[n + 1..][..length] + "\n" + rest[n + length + 2..]
  {
  }

  predicate AllWellFormed(chunks: seq<Chunk>) {
    chunks == [] || (WellFormed(chunks[0]) && AllWellFormed(chunks[1..]))
  }

  lemma PrependChunk(first: Chunk, tail: seq<Chunk>)
    ensures ChunksText([first] + tail) == ChunkText(first) + ChunksText(tail)
    ensures ChunkEntries([first] + tail) == [first.entry] + ChunkEntries(tail)
    ensures WellFormed(first) && AllWellFormed(tail) ==> AllWellFormed([first] + tail)
  {
    assert ([first] + tail)[1..] == tail;
  }

  lemma FirstChunk(rest: string, frames: map<Phase, Frame>) returns (first: Chunk, after: string)
    requires rest != [] && ParseRest(rest, frames).Frames?
    ensures WellFormed(first) && rest == ChunkText(first) + after && |after| < |rest|
    ensures ParseRest(rest, frames) == ParseRest(after, frames[first.entry.phase := first.entry.frame])
    ensures |frames[first.entry.phase := first.entry.frame]| == |frames| + 1
  {
    first := ConsumedIsChunk(rest, frames.Keys);
    after := rest[NextFrame(rest, frames.Keys).consumed..];
    var next := frames[first.entry.phase := first.entry.frame];
    assert next.Keys == frames.Keys + {first.entry.phase};
  }

  // An accepted output is nothing but frames: it is cut into chunks whose headers announce their payloads.
  lemma {:induction false} AcceptedIsPartitioned(rest: string, frames: map<Phase, Frame>) returns (chunks: seq<Chunk>)
    requires ParseRest(rest, frames).Frames?
    ensures rest == ChunksText(chunks) && AllWellFormed(chunks)
    ensures ParseRest(rest, frames).frames == Collect(frames, ChunkEntries(chunks))
    ensures |ParseRest(rest, frames).frames| == |frames| + |chunks|
    decreases |rest|
  {
    if rest == [] {
      return [];
    }
    var first, after := FirstChunk(rest, frames);
    var next := frames[first.entry.phase := first.entry.frame];
    var tail := AcceptedIsPartitioned(after, next);
    PrependChunk(first, tail);
    chunks := [first] + tail;
    assert ([first.entry] + ChunkEntries(tail))[1..] == ChunkEntries(tail);
  }

  lemma AcceptedOutput(output: string) returns (chunks: seq<Chunk>)
    requires ParseFrames(output).Frames?
    ensures output == ChunksText(chunks) && AllWellFormed(chunks)
    ensures 1 <= |chunks| <= 3
    ensures ParseFrames(output).frames == Collect(map[], ChunkEntries(chunks))
    ensures |ParseFrames(output).frames| == |chunks|
  {
    chunks := AcceptedIsPartitioned(output, map[]);
    AtMostThree(ParseFrames(output).frames);
  }

  lemma AtMostThree(frames: map<Phase, Frame>)
    ensures |frames| <= 3
  {
    forall phase | phase in frames.Keys ensures phase in {Put, Get, Check} {
      assert phase.Put? || phase.Get? || phase.Check?;
    }
    SubsetSize(frames.Keys, {Put, Get, Check});
    assert |frames| == |frames.Keys|;
  }

  lemma {:induction false} SubsetSize(a: set<Phase>, b: set<Phase>)
    requires a <= b
    ensures |a| <= |b|
    decreases a
  {
    if a != {} {
      var x :| x in a;
      SubsetSize(a - {x}, b - {x});
    }
  }

  // ---------------------------------------------------------------- what the parser refuses, and the frame's text

  // Each check of a header line, in order, names its own fault.
  lemma HeaderReads(header: string, seen: set<Phase>, remaining: nat)
    ensures var h := ParseHeader(header, seen, remaining);
            var prefixed := FRAME_PREFIX <= header;
            var fields := if prefixed then Fields(header[|FRAME_PREFIX|..]) else [];
            && (h == BadHeader(HeaderInvalid) <==> !prefixed)
            && (h == BadHeader(MetadataInvalid) <==>
                  prefixed && (|fields| != 3 || NormalizePhase(fields[0]).None?))
            && (prefixed && |fields| == 3 && NormalizePhase(fields[0]).Some? ==>
                  var phase, code, length := NormalizePhase(fields[0]).value, Atoi(fields[1]), Atoi(fields[2]);
                  && (h == BadHeader(PhaseDuplicated) <==> phase in seen)
                  && (h == BadHeader(ExitCodeInvalid) <==>
                        phase !in seen && (code.None? || code.value < 0 || code.value > 255))
                  && (h == BadHeader(PayloadLengthInvalid) <==>
                        phase !in seen && code.Some? && 0 <= code.value <= 255
                        && (length.None? || length.value < 0 || length.value > remaining))
                  && (h.Header? ==> h == Header(phase, code.value, length.value)))
  {
    StartsWithIff(header, FRAME_PREFIX);
  }

  // A phase is known by its own name, whatever the case and the space around it.
  lemma PhaseNames(value: string, phase: Phase)
    ensures NormalizePhase(value) == Some(phase)
        <==> Lower(Trim(GoSpace, value)) == match phase case Put => "put" case Get => "get" case Check => "check"
  {
  }

  // The text of a frame, as the batch script prints it.
  lemma FrameReads()
    ensures PrintFrame(Entry(Put, Frame("flag stored", 0))) == "__ADP_PHASE_FRAME__ put 0 11\nflag stored\n"
  {
    assert PrintInt(0) == "0";
    assert PrintInt(11) == "11" by {
      assert PrintNat(1) == "1";
    }
    var e := Entry(Put, Frame("flag stored", 0));
    assert MetadataText(e) == "put 0 11";
    assert HeaderText(e) == "__ADP_PHASE_FRAME__ put 0 11";
  }

  lemma EmptyFrameReads()
    ensures PrintFrame(Entry(Check, Frame("", 2))) == "__ADP_PHASE_FRAME__ check 2 0\n\n"
  {
    assert PrintInt(0) == "0" && PrintInt(2) == "2";
    var e := Entry(Check, Frame("", 2));
    assert MetadataText(e) == "check 2 0";
    assert HeaderText(e) == "__ADP_PHASE_FRAME__ check 2 0";
  }
}
