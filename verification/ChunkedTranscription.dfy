/**
 The checkpointed chunk loop. Offsets are exact rationals, the engine and the merging of texts are
 parameters, and decoding yields the samples of the source from the requested offset on.
 */
module ChunkedTranscription {
  import opened Wrappers
  import opened SpeechRegions

  // ---------------------------------------------------------------- windows

  datatype Window = Window(seconds: real, strideSeconds: real)

  /** Missing, zero or negative lengths mean thirty seconds; the overlap is at most half a window. */
  function SpeechWindow(chunkSeconds: Option<real>, strideSeconds: Option<real>): Window {
    var seconds :=
      if chunkSeconds.None? || chunkSeconds.value <= 0.0 || chunkSeconds.value > 30.0 then 30.0 else chunkSeconds.value;
    var half := seconds / 2.0;
    var overlap := if strideSeconds.None? || strideSeconds.value < 0.0 then 0.0 else strideSeconds.value;
    Window(seconds, if overlap < half then overlap else half)
  }

  function Samples(seconds: real): int {
    (seconds * SAMPLE_RATE as real).Floor
  }

  lemma {:induction false} WindowsOverlapByHalfAtMost(chunkSeconds: Option<real>, strideSeconds: Option<real>)
    ensures var w := SpeechWindow(chunkSeconds, strideSeconds);
      0 <= Samples(w.seconds) <= 480_000 && 0 <= 2 * Samples(w.strideSeconds) <= Samples(w.seconds)
  {
  }

  // ---------------------------------------------------------------- segments

  /** JavaScript rounds halves up. */
  function Round(x: real): int {
    (x + 0.5).Floor
  }

  /** The position of a sample in milliseconds. */
  function Ms(samples: real): real {
    samples / 16.0
  }

  datatype Stamp = Stamp(start: Option<real>, end: Option<real>, text: string)
  datatype Segment = Segment(startMs: int, endMs: int, text: string)
  datatype Heard = Heard(text: string, stamps: seq<Stamp>)

  /** One engine chunk in the time of the source; a missing stamp falls back to the one before it. */
  function Placed(stamp: Stamp, offset: nat, sourceDurationMs: int): Segment {
    var startMs := Ms(offset as real) + if stamp.start.Some? then stamp.start.value * 1000.0 else 0.0;
    var endMs := if stamp.end.Some? then Ms(offset as real) + stamp.end.value * 1000.0 else startMs;
    Segment(Max(0, Round(startMs)), Min(sourceDurationMs, Max(0, Round(endMs))), stamp.text)
  }

  /** The new segments of a window: placed, not empty, and cut off where the previous ones end. */
  function NewSegments(stamps: seq<Stamp>, offset: nat, endMs: int, previousEnd: int): seq<Segment> {
    if stamps == [] then []
    else
      var rest := NewSegments(stamps[..|stamps| - 1], offset, endMs, previousEnd);
      var s := Placed(stamps[|stamps| - 1], offset, endMs);
      if s.text == "" || s.endMs <= previousEnd then rest else rest + [s.(startMs := Max(previousEnd, s.startMs))]
  }

  function LastEnd(segments: seq<Segment>): int {
    if segments == [] then 0 else segments[|segments| - 1].endMs
  }

  /** Ordered, not overlapping, and between two times. */
  ghost predicate InOrder(segments: seq<Segment>, from: int, to: int) {
    && (forall i :: 0 <= i < |segments| ==> from <= segments[i].startMs <= segments[i].endMs <= to)
    && (forall i, j :: 0 <= i < j < |segments| ==> segments[i].endMs <= segments[j].startMs)
  }

  /** The engine's stamps are present, ordered, and inside the window it was given. */
  ghost predicate InWindow(stamps: seq<Stamp>, length: int) {
    && (forall i :: 0 <= i < |stamps| ==> stamps[i].start.Some? && stamps[i].end.Some?)
    && (forall i :: 0 <= i < |stamps| ==>
          0.0 <= stamps[i].start.value <= stamps[i].end.value && stamps[i].end.value * 1000.0 <= Ms(length as real))
    && (forall i, j :: 0 <= i < j < |stamps| ==> stamps[i].end.value <= stamps[j].start.value)
  }

  lemma {:induction false} RoundIsMonotone(x: real, y: real)
    requires x <= y
    ensures Round(x) <= Round(y)
  {
  }

  lemma {:induction false} PlacedInOrder(a: Stamp, b: Stamp, offset: nat, endMs: int)
    requires a.start.Some? && a.end.Some? && b.start.Some? && b.end.Some?
    requires a.end.value <= b.start.value
    ensures Placed(a, offset, endMs).endMs <= Placed(b, offset, endMs).startMs
  {
    RoundIsMonotone(Ms(offset as real) + a.end.value * 1000.0, Ms(offset as real) + b.start.value * 1000.0);
  }

  lemma {:induction false} PlacedInWindow(a: Stamp, offset: nat, length: nat, endMs: int)
    requires a.start.Some? && a.end.Some? && 0.0 <= a.start.value <= a.end.value
      && a.end.value * 1000.0 <= Ms(length as real)
    requires Round(Ms((offset + length) as real)) <= endMs
    ensures 0 <= Placed(a, offset, endMs).startMs <= Placed(a, offset, endMs).endMs <= endMs
  {
    RoundIsMonotone(Ms(offset as real) + a.start.value * 1000.0, Ms(offset as real) + a.end.value * 1000.0);
    RoundIsMonotone(Ms(offset as real) + a.end.value * 1000.0, Ms((offset + length) as real));
    RoundIsMonotone(0.0, Ms(offset as real) + a.start.value * 1000.0);
    assert Round(0.0) == 0;
  }

  /** Every new segment comes from one of the stamps. */
  lemma {:induction false} NewSegmentsInOrder(stamps: seq<Stamp>, offset: nat, length: nat, endMs: int,
      previousEnd: int)
    requires InWindow(stamps, length) && Round(Ms((offset + length) as real)) <= endMs && 0 <= previousEnd <= endMs
    ensures InOrder(NewSegments(stamps, offset, endMs, previousEnd), previousEnd, endMs)
    ensures stamps != [] ==>
      LastEndAtMost(NewSegments(stamps, offset, endMs, previousEnd), Placed(stamps[|stamps| - 1], offset, endMs).endMs)
  {
    hide Placed, Round, Ms;
    if stamps != [] {
      var rest, last := stamps[..|stamps| - 1], stamps[|stamps| - 1];
      NewSegmentsInOrder(rest, offset, length, endMs, previousEnd);
      PlacedInWindow(last, offset, length, endMs);
      if rest != [] {
        PlacedInOrder(rest[|rest| - 1], last, offset, endMs);
      }
    }
  }

  ghost predicate LastEndAtMost(segments: seq<Segment>, end: int) {
    forall i :: 0 <= i < |segments| ==> segments[i].endMs <= end
  }

  lemma {:induction false} AppendInOrder(previous: seq<Segment>, more: seq<Segment>, before: int, endMs: int)
    requires InOrder(previous, 0, before) && before <= endMs
    requires InOrder(more, LastEnd(previous), endMs)
    ensures InOrder(previous + more, 0, endMs)
  {
    forall i, j | 0 <= i < j < |previous + more|
      ensures (previous + more)[i].endMs <= (previous + more)[j].startMs
    {
      if i < |previous| <= j {
        assert previous[i].endMs <= LastEnd(previous) by {
          assert i < |previous| - 1 ==> previous[i].endMs <= previous[|previous| - 1].startMs;
        }
      }
    }
  }

  // ---------------------------------------------------------------- one chunk

  /** `window` and `stride` in samples, `limit` the longest accepted source in samples. */
  datatype Setup = Setup(
    window: nat,
    stride: nat,
    limit: real,
    timestamps: bool,
    loud: seq<real> -> bool,
    engine: (nat, nat) -> Heard,
    merge: (string, string) -> string,
    tooLarge: Checkpoint -> bool
  )

  datatype Checkpoint = Checkpoint(nextOffset: nat, nextChunk: nat, text: string, segments: seq<Segment>,
      durationMs: int)

  const START := Checkpoint(0, 0, "", [], 0)

  datatype Error = AudioTooLong | EmptyAudio | NoSpeech | CheckpointTooLarge

  /** `end` is where the window of this chunk ends in the source. */
  datatype Part = Part(done: bool, checkpoint: Checkpoint, end: nat)

  function MinReal(a: real, b: real): real { if a < b then a else b }

  function Ceiling(x: real): int {
    -((-x).Floor)
  }

  /** The hull of the detected regions, or the whole window if there is none. */
  function SpokenPart(samples: seq<real>, loud: seq<real> -> bool): Region {
    var detected := Detected(samples, loud);
    if detected == [] then Region(0, |samples|) else Region(detected[0].start, detected[|detected| - 1].end)
  }

  lemma {:induction false} SpokenPartIsInside(samples: seq<real>, loud: seq<real> -> bool)
    ensures 0 <= SpokenPart(samples, loud).start <= SpokenPart(samples, loud).end <= |samples|
  {
    RegionsAreExact(|samples|, Voiced(samples, loud, FrameCount(|samples|)));
    var detected := Detected(samples, loud);
    if |detected| > 1 {
      assert detected[0].end + 3360 <= detected[|detected| - 1].start;
    }
  }

  function WindowSamples(s: Setup, offset: nat): real {
    MinReal(s.window as real, s.limit - offset as real)
  }

  /** The decoder gets one sample more than the window, to tell a full window from the end of the source. */
  function DecodedCount(s: Setup, total: nat, offset: nat): int
  {
    Min(Ceiling(WindowSamples(s, offset) + 1.0), Max(0, total - offset))
  }

  function Stride(s: Setup, offset: nat): int {
    Min(s.stride, (WindowSamples(s, offset) / 2.0).Floor)
  }

  function Hear(s: Setup, source: seq<real>, offset: nat, count: nat): (heard: (Heard, nat))
    requires offset + count <= |source|
  {
    var region := SpokenPart(source[offset..offset + count], s.loud);
    SpokenPartIsInside(source[offset..offset + count], s.loud);
    (s.engine(offset + region.start, offset + region.end), offset + region.start)
  }

  /** The checkpoint after a window of `count` samples. */
  function Advanced(s: Setup, source: seq<real>, cp: Checkpoint, count: nat, done: bool): Checkpoint
    requires cp.nextOffset + count <= |source| && (!done ==> Stride(s, cp.nextOffset) <= count)
  {
    var heard := Hear(s, source, cp.nextOffset, count);
    var endMs := Round(Ms((cp.nextOffset + count) as real));
    Checkpoint(
      if done then cp.nextOffset + count else cp.nextOffset + count - Stride(s, cp.nextOffset),
      cp.nextChunk + 1,
      s.merge(cp.text, heard.0.text),
      cp.segments + if s.timestamps then NewSegments(heard.0.stamps, heard.1, endMs, LastEnd(cp.segments)) else [],
      endMs)
  }

  function TranscribeChunk(s: Setup, source: seq<real>, cp: Checkpoint): Result<Part, Error>
    requires OverlapsByHalf(s)
  {
    var offset := cp.nextOffset;
    if offset as real > s.limit then Failure(AudioTooLong)
    else
      var window := WindowSamples(s, offset);
      var decoded := DecodedCount(s, |source|, offset);
      if decoded == 0 && offset == 0 then Failure(EmptyAudio)
      else if decoded as real > window && offset as real + window >= s.limit then Failure(AudioTooLong)
      else
        var done := decoded as real <= window;
        var count := if done then decoded else s.window;
        DecodedIsInside(s, |source|, offset);
        if count == 0 then (if cp.text == "" then Failure(NoSpeech) else Success(Part(true, cp, offset)))
        else
          var next := Advanced(s, source, cp, count, done);
          if s.tooLarge(next) then Failure(CheckpointTooLarge)
          else if done && next.text == "" then Failure(NoSpeech)
          else Success(Part(done, next, offset + count))
  }

  predicate OverlapsByHalf(s: Setup) {
    2 * s.stride <= s.window
  }

  /** What was decoded lies in the source, and an unfinished window is a full one. */
  lemma {:induction false} DecodedIsInside(s: Setup, total: nat, offset: nat)
    requires OverlapsByHalf(s) && offset as real <= s.limit
    ensures var window, decoded := WindowSamples(s, offset), DecodedCount(s, total, offset);
      && 0 <= decoded <= Max(0, total - offset)
      && (decoded as real <= window ==> decoded == Max(0, total - offset))
      && (decoded as real > window ==> window < (total - offset) as real)
      && (decoded as real > window && offset as real + window < s.limit ==>
            window == s.window as real && offset + s.window < total && 0 <= Stride(s, offset) <= s.window)
  {
    var window := WindowSamples(s, offset);
    CeilingIsAbove(window + 1.0);
    if offset as real + window < s.limit {
      assert window == s.window as real;
      HalfFloor(s.window);
    }
  }

  lemma {:induction false} CeilingIsAbove(x: real)
    ensures x <= Ceiling(x) as real < x + 1.0
  {
  }

  lemma {:induction false} HalfFloor(n: nat)
    ensures 2 * (n as real / 2.0).Floor <= n <= 2 * (n as real / 2.0).Floor + 1
  {
  }

  // ---------------------------------------------------------------- what one chunk achieves

  /** Between chunks: everything before `covered` has been heard, and the source goes on after it. */
  ghost predicate Between(s: Setup, total: nat, cp: Checkpoint, covered: nat) {
    || (cp == START && covered == 0)
    || (0 < cp.nextOffset <= covered < total && covered <= cp.nextOffset + s.window && covered as real < s.limit
        && cp.durationMs == Round(Ms(covered as real)))
  }

  function Half(window: nat): nat {
    (window + 1) / 2
  }

  /** A window that ends the source, or one that moves at least half a window ahead without a gap. */
  lemma {:induction false} ChunkMovesOn(s: Setup, source: seq<real>, cp: Checkpoint, covered: nat)
    requires OverlapsByHalf(s) && s.window >= 1 && Between(s, |source|, cp, covered)
    ensures var r := TranscribeChunk(s, source, cp);
      && (r == Failure(AudioTooLong) ==> |source| as real > s.limit)
      && (r.Success? ==>
            && r.value.checkpoint.durationMs == Round(Ms(r.value.end as real))
            && cp.nextOffset <= covered <= r.value.end
            && (r.value.done ==> r.value.end == |source| && |source| as real <= s.limit)
            && (!r.value.done ==> Between(s, |source|, r.value.checkpoint, r.value.end))
            && (!r.value.done ==> r.value.checkpoint.nextOffset >= cp.nextOffset + Half(s.window)))
  {
    hide Hear, NewSegments, Round, Ms;
    var offset := cp.nextOffset;
    if offset as real <= s.limit {
      DecodedIsInside(s, |source|, offset);
      CeilingIsAbove(WindowSamples(s, offset) + 1.0);
      HalfFloor(s.window);
    }
  }

  /** Whatever part of the source the engine is given, its stamps are ordered and inside that part. */
  ghost predicate WellStamped(s: Setup) {
    forall from: nat, to: nat :: from <= to ==> InWindow(s.engine(from, to).stamps, to - from)
  }

  lemma {:induction false} AdvancedInOrder(s: Setup, source: seq<real>, cp: Checkpoint, count: nat, done: bool)
    requires cp.nextOffset + count <= |source| && (!done ==> Stride(s, cp.nextOffset) <= count)
    requires WellStamped(s) && InOrder(cp.segments, 0, cp.durationMs)
    requires cp.durationMs <= Round(Ms((cp.nextOffset + count) as real))
    ensures InOrder(Advanced(s, source, cp, count, done).segments, 0, Round(Ms((cp.nextOffset + count) as real)))
  {
    hide InOrder, InWindow, SpokenPart, Round, Ms, NewSegments;
    var offset, endMs := cp.nextOffset, Round(Ms((cp.nextOffset + count) as real));
    var region := SpokenPart(source[offset..offset + count], s.loud);
    SpokenPartIsInside(source[offset..offset + count], s.loud);
    var from, to: nat := offset + region.start, offset + region.end;
    assert InWindow(s.engine(from, to).stamps, to - from);
    HeardInOrder(s.engine(from, to).stamps, from, to, offset + count, cp);
    assert cp.segments + [] == cp.segments;
  }

  lemma {:induction false} HeardInOrder(stamps: seq<Stamp>, from: nat, to: nat, end: nat, cp: Checkpoint)
    requires from <= to <= end && InWindow(stamps, to - from)
    requires InOrder(cp.segments, 0, cp.durationMs) && cp.durationMs <= Round(Ms(end as real))
    ensures InOrder(cp.segments, 0, Round(Ms(end as real)))
    ensures InOrder(cp.segments + NewSegments(stamps, from, Round(Ms(end as real)), LastEnd(cp.segments)), 0,
      Round(Ms(end as real)))
  {
    var endMs := Round(Ms(end as real));
    RoundIsMonotone(Ms(to as real), Ms(end as real));
    RoundIsMonotone(0.0, Ms(end as real));
    assert 0 <= LastEnd(cp.segments) <= endMs;
    hide Round, Ms, InWindow;
    NewSegmentsInOrder(stamps, from, to - from, endMs, LastEnd(cp.segments));
    AppendInOrder(cp.segments, NewSegments(stamps, from, endMs, LastEnd(cp.segments)), cp.durationMs, endMs);
  }

  lemma {:induction false} ChunkKeepsOrder(s: Setup, source: seq<real>, cp: Checkpoint, covered: nat)
    requires OverlapsByHalf(s) && s.window >= 1 && Between(s, |source|, cp, covered)
    requires WellStamped(s) && InOrder(cp.segments, 0, cp.durationMs)
    ensures var r := TranscribeChunk(s, source, cp);
      r.Success? ==> InOrder(r.value.checkpoint.segments, 0, r.value.checkpoint.durationMs)
  {
    ChunkMovesOn(s, source, cp, covered);
    var r := TranscribeChunk(s, source, cp);
    if r.Success? {
      DecodedIsInside(s, |source|, cp.nextOffset);
      var count := if DecodedCount(s, |source|, cp.nextOffset) as real <= WindowSamples(s, cp.nextOffset)
        then DecodedCount(s, |source|, cp.nextOffset) else s.window;
      hide WellStamped, InOrder, Hear, NewSegments, WindowSamples, DecodedCount;
      if count > 0 {
        assert r.value.end == cp.nextOffset + count;
        RoundIsMonotone(Ms(covered as real), Ms(r.value.end as real));
        RoundIsMonotone(0.0, Ms(r.value.end as real));
        AdvancedInOrder(s, source, cp, count, r.value.done);
      }
    }
  }

  /** Without a whole sample in the window nothing is ever transcribed, however short the source. */
  lemma {:induction false} EmptyWindowNeverSucceeds(s: Setup, source: seq<real>)
    requires OverlapsByHalf(s) && s.window == 0
    ensures TranscribeChunk(s, source, START).Failure?
  {
    if 0.0 <= s.limit {
      DecodedIsInside(s, |source|, 0);
    }
  }

  // ---------------------------------------------------------------- the loop

  /** Windows in order: the first begins at the start, none begins after the end of the one before. */
  ghost predicate Covers(windows: seq<Region>, end: int) {
    if windows == [] then end == 0
    else
      var last, rest := windows[|windows| - 1], windows[..|windows| - 1];
      && last.start <= last.end == end
      && last.start <= EndOf(rest)
      && Covers(rest, EndOf(rest))
  }

  function EndOf(windows: seq<Region>): int {
    if windows == [] then 0 else windows[|windows| - 1].end
  }

  lemma {:induction false} CoversMore(windows: seq<Region>, covered: int, next: Region)
    requires Covers(windows, covered) && next.start <= covered <= next.end
    ensures Covers(windows + [next], next.end)
  {
    assert (windows + [next])[..|windows|] == windows;
  }

  /** Every sample position lies in one of the windows. */
  lemma {:induction false} CoversEverySample(windows: seq<Region>, end: int, p: int)
    requires Covers(windows, end) && 0 <= p < end
    ensures exists i :: 0 <= i < |windows| && windows[i].start <= p < windows[i].end
    decreases |windows|
  {
    var last, rest := windows[|windows| - 1], windows[..|windows| - 1];
    if p < last.start {
      CoversEverySample(rest, EndOf(rest), p);
      var i :| 0 <= i < |rest| && rest[i].start <= p < rest[i].end;
      assert windows[i] == rest[i];
    }
  }

  /**
   Transcribes a whole source. The windows cover it without a gap and are at most one more than half
   windows fit into it; a source within the limit is never too long and one beyond it never succeeds;
   and if the engine's stamps stay in their window, the segments are ordered, do not overlap and end
   within the duration.
   */
  method Transcribe(s: Setup, source: seq<real>) returns (result: Result<Checkpoint, Error>, ghost windows: seq<Region>)
    requires OverlapsByHalf(s) && s.window >= 1
    ensures result == Failure(AudioTooLong) ==> |source| as real > s.limit
    ensures result.Success? ==> |source| as real <= s.limit && result.value.durationMs == Round(Ms(|source| as real))
    ensures result.Success? ==> Covers(windows, |source|)
    ensures windows != [] ==> (|windows| - 1) * Half(s.window) <= |source|
    ensures WellStamped(s) && result.Success? ==> InOrder(result.value.segments, 0, result.value.durationMs)
  {
    hide TranscribeChunk, WellStamped, Round, Ms, Covers;
    var checkpoint := START;
    ghost var covered := 0;
    windows := [];
    assert Covers([], 0) by { NothingCovered(); }
    while true
      invariant Between(s, |source|, checkpoint, covered) && Covers(windows, covered)
      invariant |windows| * Half(s.window) <= checkpoint.nextOffset
      invariant checkpoint.nextOffset <= |source|
      invariant WellStamped(s) ==> InOrder(checkpoint.segments, 0, checkpoint.durationMs)
      decreases |source| - checkpoint.nextOffset
    {
      ChunkMovesOn(s, source, checkpoint, covered);
      if WellStamped(s) {
        ChunkKeepsOrder(s, source, checkpoint, covered);
      }
      var part := TranscribeChunk(s, source, checkpoint);
      if part.Failure? {
        return Failure(part.error), windows;
      }
      CoversMore(windows, covered, Region(checkpoint.nextOffset, part.value.end));
      windows := windows + [Region(checkpoint.nextOffset, part.value.end)];
      OneMore(|windows| - 1, Half(s.window));
      if part.value.done {
        return Success(part.value.checkpoint), windows;
      }
      checkpoint, covered := part.value.checkpoint, part.value.end;
    }
  }

  lemma {:induction false} NothingCovered()
    ensures Covers([], 0)
  {
  }

  lemma {:induction false} OneMore(n: nat, half: nat)
    ensures (n + 1) * half == n * half + half
  {
  }
}
