/**
 The WAV writer and the reader of normalized WAV files: RIFF chunks of the "Waveform Audio File Format
 (WAVE)" section of the Multimedia Programming Interface and Data Specifications 1.0. Samples are exact
 reals; how four bytes stand for a float is a parameter.
 */
module Wav {
  import opened Wrappers

  type byte = b: int | 0 <= b < 256

  const RATE := 16000
  const MAX_SAMPLES := 30 * RATE

  // ---------------------------------------------------------------- little-endian numbers

  function Bytes16(n: int): (b: seq<byte>)
    requires 0 <= n < 0x1_0000
    ensures |b| == 2
  {
    [n % 256, n / 256]
  }

  function Bytes32(n: int): (b: seq<byte>)
    requires 0 <= n < 0x1_0000_0000
    ensures |b| == 4
  {
    Bytes16(n % 0x1_0000) + Bytes16(n / 0x1_0000)
  }

  function U16(file: seq<byte>, at: nat): (n: nat)
    requires at + 2 <= |file|
    ensures n < 0x1_0000
  {
    file[at] as int + 256 * file[at + 1] as int
  }

  function U32(file: seq<byte>, at: nat): (n: nat)
    requires at + 4 <= |file|
    ensures n < 0x1_0000_0000
  {
    U16(file, at) + 0x1_0000 * U16(file, at + 2)
  }

  function I16(file: seq<byte>, at: nat): (n: int)
    requires at + 2 <= |file|
    ensures -32768 <= n <= 32767
  {
    if U16(file, at) >= 32768 then U16(file, at) - 0x1_0000 else U16(file, at)
  }

  lemma {:induction false} ReadsBack16(file: seq<byte>, at: nat, n: int)
    requires at + 2 <= |file| && 0 <= n < 0x1_0000 && file[at..at + 2] == Bytes16(n)
    ensures U16(file, at) == n
  {
    assert file[at] == file[at..at + 2][0] && file[at + 1] == file[at..at + 2][1];
  }

  lemma {:induction false} ReadsBack32(file: seq<byte>, at: nat, n: int)
    requires at + 4 <= |file| && 0 <= n < 0x1_0000_0000 && file[at..at + 4] == Bytes32(n)
    ensures U32(file, at) == n
  {
    assert file[at..at + 2] == file[at..at + 4][..2] && file[at + 2..at + 4] == file[at..at + 4][2..];
    ReadsBack16(file, at, n % 0x1_0000);
    ReadsBack16(file, at + 2, n / 0x1_0000);
  }

  // ---------------------------------------------------------------- samples

  /** A 32-bit float sample. */
  datatype Sample = Finite(value: real) | NotFinite

  function Clamp(x: real): real {
    if x < -1.0 then -1.0 else if x > 1.0 then 1.0 else x
  }

  /** What a sample stands for: samples that are not finite become silence. */
  function Value(s: Sample): real {
    if s.NotFinite? then 0.0 else Clamp(s.value)
  }

  function Round(x: real): int {
    (x + 0.5).Floor
  }

  /** Negative values scale by 32768, the others by 32767. */
  function Quantized(x: real): (q: int)
    requires -1.0 <= x <= 1.0
    ensures -32768 <= q <= 32767
  {
    Round(x * if x < 0.0 then 32768.0 else 32767.0)
  }

  function Encoded(q: int): (b: seq<byte>)
    requires -32768 <= q <= 32767
    ensures |b| == 2
  {
    Bytes16(if q < 0 then q + 0x1_0000 else q)
  }

  lemma {:induction false} DecodesBack(file: seq<byte>, at: nat, q: int)
    requires at + 2 <= |file| && -32768 <= q <= 32767 && file[at..at + 2] == Encoded(q)
    ensures I16(file, at) == q
  {
    ReadsBack16(file, at, if q < 0 then q + 0x1_0000 else q);
  }

  function Abs(x: real): real { if x < 0.0 then -x else x }

  lemma {:induction false} QuantizationError(x: real)
    requires -1.0 <= x <= 1.0
    ensures Abs(Quantized(x) as real / 32768.0 - x) <= 1.5 / 32768.0
  {
    var scaled := x * if x < 0.0 then 32768.0 else 32767.0;
    assert scaled - 0.5 <= Quantized(x) as real <= scaled + 0.5;
  }

  // ---------------------------------------------------------------- writing

  const RIFF: seq<byte> := [82, 73, 70, 70]
  const WAVE: seq<byte> := [87, 65, 86, 69]
  const FMT: seq<byte> := [102, 109, 116, 32]
  const DATA: seq<byte> := [100, 97, 116, 97]

  function FormatBody(): (b: seq<byte>)
    ensures |b| == 16
  {
    Bytes16(1) + Bytes16(1) + Bytes32(RATE) + Bytes32(2 * RATE) + Bytes16(2) + Bytes16(16)
  }

  function Header(n: nat): (b: seq<byte>)
    requires n <= MAX_SAMPLES
    ensures |b| == 44
  {
    RIFF + Bytes32(36 + 2 * n) + WAVE + FMT + Bytes32(16) + FormatBody() + DATA + Bytes32(2 * n)
  }

  function Body(samples: seq<Sample>): (b: seq<byte>)
    ensures |b| == 2 * |samples|
  {
    if samples == [] then [] else Body(samples[..|samples| - 1]) + Encoded(Quantized(Value(samples[|samples| - 1])))
  }

  function WavOf(samples: seq<Sample>): (b: seq<byte>)
    requires |samples| <= MAX_SAMPLES
    ensures |b| == 44 + 2 * |samples|
  {
    Header(|samples|) + Body(samples)
  }

  datatype WriteError = ChunkTooLarge

  method WriteAt(audio: array<byte>, at: nat, bytes: seq<byte>)
    requires at + |bytes| <= audio.Length
    modifies audio
    ensures audio[..] == old(audio[..at]) + bytes + old(audio[at + |bytes|..])
  {
    for i := 0 to |bytes|
      invariant audio[..] == old(audio[..at]) + bytes[..i] + old(audio[at + i..])
    {
      audio[at + i] := bytes[i];
      assert bytes[..i + 1] == bytes[..i] + [bytes[i]];
    }
    assert bytes[..|bytes|] == bytes;
  }

  /** Fills a buffer with the header and then sample by sample. */
  method WavBuffer(samples: seq<Sample>) returns (result: Result<array<byte>, WriteError>)
    ensures |samples| > MAX_SAMPLES ==> result == Failure(ChunkTooLarge)
    ensures |samples| <= MAX_SAMPLES ==> result.Success? && fresh(result.value) && result.value[..] == WavOf(samples)
  {
    if |samples| > MAX_SAMPLES {
      return Failure(ChunkTooLarge);
    }
    hide Header, Encoded, Quantized, Value;
    var audio := new byte[44 + 2 * |samples|](_ => 0);
    WriteAt(audio, 0, Header(|samples|));
    assert audio[..44] == Header(|samples|);
    for i := 0 to |samples|
      invariant audio[..44] == Header(|samples|)
      invariant audio[44..44 + 2 * i] == Body(samples[..i])
    {
      hide *;
      ghost var before := audio[..];
      var bytes := Encoded(Quantized(Value(samples[i])));
      WriteAt(audio, 44 + 2 * i, bytes);
      AfterWrite(before, audio[..], 44 + 2 * i, bytes);
      OneMoreSample(samples, i);
    }
    assert samples[..|samples|] == samples;
    assert audio[..] == audio[..44] + audio[44..44 + 2 * |samples|];
    return Success(audio);
  }

  lemma {:induction false} AfterWrite(before: seq<byte>, after: seq<byte>, at: nat, bytes: seq<byte>)
    requires 44 <= at && at + |bytes| <= |before| && after == before[..at] + bytes + before[at + |bytes|..]
    ensures after[..44] == before[..44]
    ensures after[44..at + |bytes|] == before[44..at] + bytes
  {
  }

  lemma {:induction false} OneMoreSample(samples: seq<Sample>, i: nat)
    requires i < |samples|
    ensures Body(samples[..i + 1]) == Body(samples[..i]) + Encoded(Quantized(Value(samples[i])))
  {
    assert samples[..i + 1][..i] == samples[..i];
  }

  lemma {:induction false} BodyAt(samples: seq<Sample>, i: nat)
    requires i < |samples|
    ensures Body(samples)[2 * i..2 * i + 2] == Encoded(Quantized(Value(samples[i])))
  {
    var rest := samples[..|samples| - 1];
    if i < |rest| {
      BodyAt(rest, i);
      assert Body(samples)[2 * i..2 * i + 2] == Body(rest)[2 * i..2 * i + 2];
    }
  }

  // ---------------------------------------------------------------- finding the samples

  /** Codec 1 is 16-bit PCM, codec 3 is 32-bit float. */
  datatype Format = Format(codec: nat, align: nat)

  /** The bytes that `count` samples take. */
  function Size(count: nat, align: nat): nat {
    count * align
  }

  predicate Supported(f: Format) {
    f == Format(1, 2) || f == Format(3, 4)
  }

  datatype FormatChunk = Mono(format: Format) | Other | Inconsistent

  /** Only mono at 16 kHz is read here; its byte rate and alignment must agree with it. */
  function FormatAt(file: seq<byte>, at: nat): (r: FormatChunk)
    requires at + 16 <= |file|
    ensures r.Mono? ==> Supported(r.format)
  {
    var codec, bits, align := U16(file, at), U16(file, at + 14), U16(file, at + 12);
    if U16(file, at + 2) != 1 || U32(file, at + 4) != RATE
      || !((codec == 1 && bits == 16) || (codec == 3 && bits == 32)) then Other
    else if align != bits / 8 || U32(file, at + 8) != RATE * align then Inconsistent
    else Mono(Format(codec, align))
  }

  /** Where the samples are: `total` of them from `offset` on. */
  datatype Located = Unsupported | Invalid | Located(format: Format, offset: nat, total: nat)

  function ChunkEnd(file: seq<byte>, cursor: nat): nat
    requires cursor + 8 <= |file|
  {
    cursor + 8 + U32(file, cursor + 4)
  }

  /** One chunk of the walk: the answer, or the format known afterwards. */
  datatype Visited = Stop(found: Located) | Continue(format: Option<Format>)

  function Visit(file: seq<byte>, end: nat, cursor: nat, format: Option<Format>): (v: Visited)
    requires cursor + 8 <= end <= |file|
    ensures v.Stop? && v.found.Located? ==> v.found.offset + Size(v.found.total, v.found.format.align) <= end
    ensures v.Continue? ==> ChunkEnd(file, cursor) <= end
  {
    var size, body := U32(file, cursor + 4), cursor + 8;
    if body + size > end then Stop(Invalid)
    else if file[cursor..cursor + 4] == FMT then
      if format.Some? || size < 16 then Stop(Unsupported)
      else
        match FormatAt(file, body)
        case Mono(f) => Continue(Some(f))
        case Other => Stop(Unsupported)
        case Inconsistent => Stop(Invalid)
    else if file[cursor..cursor + 4] == DATA then
      if format.None? then Stop(Unsupported)
      else if format.value.align == 0 || size % format.value.align != 0 then Stop(Invalid)
      else
        WholeSamples(size, format.value.align);
        Stop(Located(format.value, body, size / format.value.align))
    else Continue(format)
  }

  lemma {:induction false} WholeSamples(size: nat, align: nat)
    requires align > 0 && size % align == 0
    ensures Size(size / align, align) == size
  {
  }

  predicate Walks(end: nat, cursor: nat, chunks: nat) {
    cursor + 8 <= end && chunks < 128 && cursor <= 65536
  }

  function Walk(file: seq<byte>, end: nat, cursor: nat, chunks: nat, format: Option<Format>): Located
    requires end <= |file|
    decreases 128 - chunks
  {
    if !Walks(end, cursor, chunks) then Unsupported
    else
      match Visit(file, end, cursor, format)
      case Stop(found) => found
      case Continue(f) => Walk(file, end, ChunkEnd(file, cursor) + U32(file, cursor + 4) % 2, chunks + 1, f)
  }

  predicate IsRiff(file: seq<byte>) {
    |file| >= 12 && file[..4] == RIFF && file[8..12] == WAVE
  }

  /** The declared end of the RIFF form. */
  function RiffEnd(file: seq<byte>): nat
    requires |file| >= 12
  {
    U32(file, 4) + 8
  }

  function Locate(file: seq<byte>): Located {
    if !IsRiff(file) then Unsupported
    else if RiffEnd(file) > |file| || RiffEnd(file) < 12 then Invalid
    else Walk(file, RiffEnd(file), 12, 0, None)
  }

  // ---------------------------------------------------------------- decoding a window

  datatype Outcome = NotNormalized | InvalidAudio | Decoded(samples: seq<real>)

  /** One sample of the file, clamped; none if a float is not finite. */
  function SampleAt(file: seq<byte>, at: nat, format: Format, floats: seq<byte> -> Option<real>): Option<real>
    requires Supported(format) && at + format.align <= |file|
  {
    if format.codec == 1 then Some(Clamp(I16(file, at) as real / 32768.0))
    else if floats(file[at..at + 4]).Some? then Some(Clamp(floats(file[at..at + 4]).value))
    else None
  }

  function SamplesAt(file: seq<byte>, at: nat, count: nat, format: Format,
      floats: seq<byte> -> Option<real>): (r: Option<seq<real>>)
    requires Supported(format) && at + Size(count, format.align) <= |file|
    ensures r.Some? ==> |r.value| == count
  {
    if count == 0 then Some([])
    else
      var before := SamplesAt(file, at, count - 1, format, floats);
      var last := SampleAt(file, at + Size(count - 1, format.align), format, floats);
      if before.Some? && last.Some? then Some(before.value + [last.value]) else None
  }

  function WindowCount(total: nat, first: nat, maximum: nat): nat {
    var left := if total > first then total - first else 0;
    if maximum < left then maximum else left
  }

  /** The samples from `first` on, at most `maximum` of them. */
  function WindowOf(file: seq<byte>, first: nat, maximum: nat, allowEmpty: bool,
      floats: seq<byte> -> Option<real>): Outcome {
    var track := Locate(file);
    if track.Unsupported? then NotNormalized
    else if track.Invalid? then InvalidAudio
    else
      LocatedInside(file);
      var count := WindowCount(track.total, first, maximum);
      if count == 0 then (if allowEmpty then Decoded([]) else InvalidAudio)
      else
        WindowInside(track.total, first, maximum, track.format.align);
        var samples := SamplesAt(file, track.offset + Size(first, track.format.align), count, track.format, floats);
        if samples.Some? then Decoded(samples.value) else InvalidAudio
  }

  lemma {:induction false} WalkInside(file: seq<byte>, end: nat, cursor: nat, chunks: nat, format: Option<Format>)
    requires end <= |file| && (format.Some? ==> Supported(format.value))
    ensures var found := Walk(file, end, cursor, chunks, format);
      found.Located? ==> Supported(found.format) && found.offset + Size(found.total, found.format.align) <= end
    decreases 128 - chunks
  {
    if Walks(end, cursor, chunks) {
      var v := Visit(file, end, cursor, format);
      if v.Continue? {
        WalkInside(file, end, ChunkEnd(file, cursor) + U32(file, cursor + 4) % 2, chunks + 1, v.format);
      }
    }
  }

  lemma {:induction false} LocatedInside(file: seq<byte>)
    ensures var track := Locate(file);
      track.Located? ==>
        Supported(track.format) && track.offset + Size(track.total, track.format.align) <= RiffEnd(file) <= |file|
  {
    if IsRiff(file) && 12 <= RiffEnd(file) <= |file| {
      WalkInside(file, RiffEnd(file), 12, 0, None);
    }
  }

  lemma {:induction false} WindowInside(total: nat, first: nat, maximum: nat, align: nat)
    requires WindowCount(total, first, maximum) > 0
    ensures Size(first, align) + Size(WindowCount(total, first, maximum), align) <= Size(total, align)
  {
    var count := WindowCount(total, first, maximum);
    assert first + count <= total;
    assert (first + count) * align <= total * align;
  }

  /** Reads in as many pieces as the system likes; a position past `end` cannot be asked for. */
  method ReadExactly(file: seq<byte>, end: nat, position: nat, length: nat) returns (buffer: seq<byte>)
    requires end <= |file| && position + length <= end
    ensures buffer == file[position..position + length]
  {
    buffer := [];
    while |buffer| < length
      invariant |buffer| <= length && buffer == file[position..position + |buffer|]
      decreases length - |buffer|
    {
      var bytesRead: nat :| 0 < bytesRead <= length - |buffer|;
      var at := position + |buffer|;
      buffer := buffer + file[at..at + bytesRead];
    }
  }

  function Ceiling(x: real): int {
    -((-x).Floor)
  }

  function Answer(found: Located): Outcome {
    if found.Unsupported? then NotNormalized else InvalidAudio
  }

  /** The chunk entry and the format are read through buffers of their own. */
  lemma {:induction false} Buffered(file: seq<byte>, at: nat, buffer: seq<byte>)
    requires at + |buffer| <= |file| && buffer == file[at..at + |buffer|]
    ensures forall k: nat :: k + 2 <= |buffer| ==> U16(buffer, k) == U16(file, at + k)
    ensures forall k: nat :: k + 4 <= |buffer| ==> U32(buffer, k) == U32(file, at + k)
  {
  }

  /** Decodes one window; anything but canonical mono 16 kHz audio is left to the other decoder. */
  method DecodeNormalizedWav(file: seq<byte>, start: real, duration: real, allowEmpty: bool,
      floats: seq<byte> -> Option<real>)
    returns (outcome: Outcome)
    ensures start < 0.0 || duration <= 0.0 || duration > 31.0 ==> outcome == NotNormalized
    ensures start >= 0.0 && 0.0 < duration <= 31.0 ==>
      outcome == WindowOf(file, Round(start * RATE as real), Ceiling(duration * RATE as real), allowEmpty, floats)
  {
    hide Visit, FormatAt, SamplesAt, U16, U32, Size;
    if start < 0.0 || duration <= 0.0 || duration > 31.0 {
      return NotNormalized;
    }
    var first, maximum := Round(start * RATE as real), Ceiling(duration * RATE as real);
    if |file| < 12 {
      return NotNormalized;
    }
    var header := ReadExactly(file, |file|, 0, 12);
    if header[..4] != RIFF || header[8..12] != WAVE {
      assert file[..4] == header[..4] && file[8..12] == header[8..12];
      return NotNormalized;
    }
    assert file[..4] == header[..4] && file[8..12] == header[8..12];
    Buffered(file, 0, header);
    var end := U32(header, 4) + 8;
    if end > |file| || end < 12 {
      return InvalidAudio;
    }
    var found := FindSamples(file, end);
    if !found.Located? {
      return Answer(found);
    }
    LocatedInside(file);
    var count := WindowCount(found.total, first, maximum);
    if count == 0 {
      return if allowEmpty then Decoded([]) else InvalidAudio;
    }
    WindowInside(found.total, first, maximum, found.format.align);
    outcome := ReadSamples(file, end, found.offset + Size(first, found.format.align), count, found.format, floats);
  }

  /** Reads one chunk entry, and the format if it is a format chunk. */
  method VisitChunk(file: seq<byte>, end: nat, cursor: nat, format: Option<Format>) returns (v: Visited, next: nat)
    requires cursor + 8 <= end <= |file| && (format.Some? ==> Supported(format.value))
    ensures v == Visit(file, end, cursor, format)
    ensures v.Continue? ==> (v.format.Some? ==> Supported(v.format.value))
    ensures v.Continue? ==> next == ChunkEnd(file, cursor) + U32(file, cursor + 4) % 2
  {
    hide FormatAt, U16, U32;
    var entry := ReadExactly(file, end, cursor, 8);
    Buffered(file, cursor, entry);
    var kind, size := entry[..4], U32(entry, 4);
    assert kind == file[cursor..cursor + 4];
    var body := cursor + 8;
    next := body + size + size % 2;
    if body + size > end {
      return Stop(Invalid), next;
    }
    if kind == FMT {
      if format.Some? || size < 16 {
        return Stop(Unsupported), next;
      }
      var fmt := ReadExactly(file, end, body, 16);
      SameFormat(file, body, fmt);
      match FormatAt(fmt, 0) {
        case Mono(f) => return Continue(Some(f)), next;
        case Other => return Stop(Unsupported), next;
        case Inconsistent => return Stop(Invalid), next;
      }
    }
    if kind == DATA {
      if format.None? {
        return Stop(Unsupported), next;
      }
      if size % format.value.align != 0 {
        return Stop(Invalid), next;
      }
      return Stop(Located(format.value, body, size / format.value.align)), next;
    }
    return Continue(format), next;
  }

  /** The walk over the chunks up to the declared end: at most 128 of them, starting in the first 64 KiB. */
  method FindSamples(file: seq<byte>, end: nat) returns (found: Located)
    requires end <= |file|
    ensures found == Walk(file, end, 12, 0, None)
  {
    hide Visit, Supported, U32;
    var format: Option<Format> := None;
    var cursor, chunks := 12, 0;
    while cursor + 8 <= end && chunks < 128 && cursor <= 65536
      invariant 12 <= cursor && chunks <= 128 && (format.Some? ==> Supported(format.value))
      invariant Walk(file, end, 12, 0, None) == Walk(file, end, cursor, chunks, format)
      decreases 128 - chunks
    {
      var v, next := VisitChunk(file, end, cursor, format);
      match v {
        case Stop(answer) => return answer;
        case Continue(f) => format := f;
      }
      cursor, chunks := next, chunks + 1;
    }
    return Unsupported;
  }

  lemma {:induction false} SameFormat(file: seq<byte>, at: nat, buffer: seq<byte>)
    requires |buffer| == 16 && at + 16 <= |file| && buffer == file[at..at + 16]
    ensures FormatAt(buffer, 0) == FormatAt(file, at)
  {
    Buffered(file, at, buffer);
  }

  method ReadSamples(file: seq<byte>, end: nat, at: nat, count: nat, format: Format, floats: seq<byte> -> Option<real>)
    returns (outcome: Outcome)
    requires Supported(format) && at + Size(count, format.align) <= end <= |file|
    ensures var samples := SamplesAt(file, at, count, format, floats);
      outcome == if samples.Some? then Decoded(samples.value) else InvalidAudio
  {
    hide SampleAt, Supported, Size;
    var bytes := ReadExactly(file, end, at, Size(count, format.align));
    var samples: seq<real> := [];
    Spread(0, count, format.align);
    for i := 0 to count
      invariant Size(i as nat, format.align) <= Size(count, format.align)
      invariant SamplesAt(file, at, i, format, floats) == Some(samples)
    {
      Fits(i, count, format.align);
      SampleInBuffer(file, at, i, bytes, format, floats);
      var sample := SampleAt(bytes, Size(i, format.align), format, floats);
      if sample.None? {
        MissingSample(file, at, i, count, format, floats);
        return InvalidAudio;
      }
      samples := samples + [sample.value];
    }
    return Decoded(samples);
  }

  lemma {:induction false} Fits(i: nat, count: nat, align: nat)
    requires i < count
    ensures Size(i, align) + align == Size(i + 1, align) <= Size(count, align)
  {
    assert (count - i - 1) * align >= 0;
    assert count * align == (i + 1) * align + (count - i - 1) * align;
  }

  lemma {:induction false} SampleInBuffer(file: seq<byte>, at: nat, i: nat, bytes: seq<byte>, format: Format,
      floats: seq<byte> -> Option<real>)
    requires Supported(format) && Size(i, format.align) + format.align <= |bytes| && at + |bytes| <= |file|
      && bytes == file[at..at + |bytes|]
    ensures SampleAt(bytes, Size(i, format.align), format, floats)
      == SampleAt(file, at + Size(i, format.align), format, floats)
  {
    var k := Size(i, format.align);
    assert bytes[k] == file[at + k] && bytes[k + 1] == file[at + k + 1];
    if format.codec == 3 {
      assert bytes[k..k + 4] == file[at + k..at + k + 4];
    }
  }

  lemma {:induction false} MissingSample(file: seq<byte>, at: nat, i: nat, count: nat, format: Format,
      floats: seq<byte> -> Option<real>)
    requires Supported(format) && i < count && at + Size(count, format.align) <= |file|
    requires at + Size(i, format.align) + format.align <= |file|
      && SampleAt(file, at + Size(i, format.align), format, floats).None?
    ensures SamplesAt(file, at, count, format, floats).None?
    decreases count
  {
    hide SampleAt, Supported, Size;
    if i < count - 1 {
      Fits(count - 1, count, format.align);
      MissingSample(file, at, i, count - 1, format, floats);
    }
  }

  // ---------------------------------------------------------------- round trip

  lemma {:induction false} HeaderReads(samples: seq<Sample>)
    requires |samples| <= MAX_SAMPLES
    ensures var file := WavOf(samples);
      && IsRiff(file) && RiffEnd(file) == |file|
      && file[12..16] == FMT && U32(file, 16) == 16
      && FormatAt(file, 20) == Mono(Format(1, 2))
      && file[36..40] == DATA && U32(file, 40) == 2 * |samples|
  {
    var file, n := WavOf(samples), |samples|;
    assert file[..44] == Header(n);
    assert forall i, j :: 0 <= i <= j <= 44 ==> file[i..j] == Header(n)[i..j];
    hide WavOf, Bytes32, U32, U16;
    assert Header(n)[..4] == RIFF && Header(n)[8..12] == WAVE && Header(n)[12..16] == FMT && Header(n)[36..40] == DATA;
    assert Header(n)[4..8] == Bytes32(36 + 2 * n) && Header(n)[16..20] == Bytes32(16)
      && Header(n)[40..44] == Bytes32(2 * n);
    assert Header(n)[20..22] == Bytes16(1) && Header(n)[22..24] == Bytes16(1) && Header(n)[24..28] == Bytes32(RATE);
    assert Header(n)[28..32] == Bytes32(2 * RATE) && Header(n)[32..34] == Bytes16(2)
      && Header(n)[34..36] == Bytes16(16);
    ReadsBack32(file, 4, 36 + 2 * n);
    ReadsBack32(file, 16, 16);
    ReadsBack32(file, 40, 2 * n);
    ReadsBack16(file, 20, 1);
    ReadsBack16(file, 22, 1);
    ReadsBack32(file, 24, RATE);
    ReadsBack32(file, 28, 2 * RATE);
    ReadsBack16(file, 32, 2);
    ReadsBack16(file, 34, 16);
  }

  /** The reader finds exactly the samples that the writer wrote. */
  lemma {:induction false} WrittenIsLocated(samples: seq<Sample>)
    requires |samples| <= MAX_SAMPLES
    ensures Locate(WavOf(samples)) == Located(Format(1, 2), 44, |samples|)
  {
    var file := WavOf(samples);
    HeaderReads(samples);
    hide WavOf, FormatAt, U32, U16;
    assert FMT != DATA by {
      assert FMT[0] != DATA[0];
    }
    assert Visit(file, |file|, 12, None) == Continue(Some(Format(1, 2)));
    assert Visit(file, |file|, 36, Some(Format(1, 2))) == Stop(Located(Format(1, 2), 44, |samples|));
    assert Walk(file, |file|, 36, 1, Some(Format(1, 2))) == Located(Format(1, 2), 44, |samples|);
  }

  lemma {:induction false} SampleReadsBack(samples: seq<Sample>, i: nat, floats: seq<byte> -> Option<real>)
    requires i < |samples| <= MAX_SAMPLES
    ensures var r := SampleAt(WavOf(samples), 44 + 2 * i, Format(1, 2), floats);
      r.Some? && Abs(r.value - Value(samples[i])) <= 1.5 / 32768.0
  {
    var file, x := WavOf(samples), Value(samples[i]);
    assert file[44 + 2 * i..44 + 2 * i + 2] == Body(samples)[2 * i..2 * i + 2];
    BodyAt(samples, i);
    DecodesBack(file, 44 + 2 * i, Quantized(x));
    QuantizationError(x);
  }

  lemma {:induction false} SamplesReadBack(samples: seq<Sample>, count: nat, floats: seq<byte> -> Option<real>)
    requires count <= |samples| <= MAX_SAMPLES
    ensures var r := SamplesAt(WavOf(samples), 44, count, Format(1, 2), floats);
      r.Some? && forall i :: 0 <= i < count ==> Abs(r.value[i] - Value(samples[i])) <= 1.5 / 32768.0
  {
    hide WavOf, SampleAt, Value;
    if count > 0 {
      SamplesReadBack(samples, count - 1, floats);
      SampleReadsBack(samples, count - 1, floats);
    }
  }

  /** Decoding what was encoded: the same number of samples, each within 1.5 / 32768 of its clamped value. */
  lemma {:induction false} RoundTrip(samples: seq<Sample>, maximum: nat, allowEmpty: bool,
      floats: seq<byte> -> Option<real>)
    requires 0 < |samples| <= MAX_SAMPLES && maximum >= |samples|
    ensures var outcome := WindowOf(WavOf(samples), 0, maximum, allowEmpty, floats);
      && outcome.Decoded? && |outcome.samples| == |samples|
      && forall i :: 0 <= i < |samples| ==> Abs(outcome.samples[i] - Value(samples[i])) <= 1.5 / 32768.0
  {
    hide WavOf, SampleAt, Value, Locate, SamplesAt;
    WrittenIsLocated(samples);
    SamplesReadBack(samples, |samples|, floats);
  }

  // ---------------------------------------------------------------- consecutive windows

  function Joined(a: Option<seq<real>>, b: Option<seq<real>>): Option<seq<real>> {
    if a.Some? && b.Some? then Some(a.value + b.value) else None
  }

  /** One more sample, which is read at `p`. */
  lemma {:induction false} OneMoreRead(file: seq<byte>, at: nat, count: nat, p: nat, format: Format,
      floats: seq<byte> -> Option<real>)
    requires Supported(format) && at + Size(count + 1, format.align) <= |file| && p == at + Size(count, format.align)
    ensures at + Size(count, format.align) <= |file| && p + format.align <= |file|
    ensures var last := SampleAt(file, p, format, floats);
      SamplesAt(file, at, count + 1, format, floats)
      == Joined(SamplesAt(file, at, count, format, floats), if last.Some? then Some([last.value]) else None)
  {
    Fits(count, count + 1, format.align);
  }

  lemma {:induction false} Spread(m: nat, n: nat, align: nat)
    ensures Size(m + n, align) == Size(m, align) + Size(n, align) && Size(0, align) == 0
  {
  }

  lemma {:induction false} SamplesSplit(file: seq<byte>, at: nat, m: nat, n: nat, format: Format,
      floats: seq<byte> -> Option<real>)
    requires Supported(format) && at + Size(m + n, format.align) <= |file|
    ensures at + Size(m, format.align) + Size(n, format.align) <= |file|
    ensures SamplesAt(file, at, m + n, format, floats)
         == Joined(SamplesAt(file, at, m, format, floats),
           SamplesAt(file, at + Size(m, format.align), n, format, floats))
    decreases n
  {
    hide SampleAt, SamplesAt, Supported, Size, Joined;
    Spread(m, n, format.align);
    if n == 0 {
      NoneRead(file, at, m, format, floats);
    } else {
      Spread(m, n - 1, format.align);
      Fits(m + n - 1, m + n, format.align);
      SamplesSplit(file, at, m, n - 1, format, floats);
      Fits(n - 1, n, format.align);
      var p := at + Size(m + n - 1, format.align);
      OneMoreRead(file, at, m + n - 1, p, format, floats);
      OneMoreRead(file, at + Size(m, format.align), n - 1, p, format, floats);
      var last := SampleAt(file, p, format, floats);
      JoinedIsAssociative(SamplesAt(file, at, m, format, floats),
        SamplesAt(file, at + Size(m, format.align), n - 1, format, floats),
        if last.Some? then Some([last.value]) else None);
    }
  }

  lemma {:induction false} NoneRead(file: seq<byte>, at: nat, m: nat, format: Format, floats: seq<byte> -> Option<real>)
    requires Supported(format) && at + Size(m, format.align) <= |file|
    ensures SamplesAt(file, at, m, format, floats)
         == Joined(SamplesAt(file, at, m, format, floats),
           SamplesAt(file, at + Size(m, format.align), 0, format, floats))
  {
    var a := SamplesAt(file, at, m, format, floats);
    if a.Some? {
      assert a.value + [] == a.value;
    }
  }

  lemma {:induction false} JoinedIsAssociative(a: Option<seq<real>>, b: Option<seq<real>>, c: Option<seq<real>>)
    ensures Joined(Joined(a, b), c) == Joined(a, Joined(b, c))
  {
    if a.Some? && b.Some? && c.Some? {
      assert a.value + b.value + c.value == a.value + (b.value + c.value);
    }
  }

  /** Two consecutive windows are the window over both, whether they decode or not. */
  lemma {:induction false} ConsecutiveWindows(file: seq<byte>, first: nat, m: nat, n: nat,
      floats: seq<byte> -> Option<real>)
    requires Locate(file).Located?
    ensures var a, b := WindowOf(file, first, m, true, floats), WindowOf(file, first + m, n, true, floats);
      WindowOf(file, first, m + n, true, floats) == if a.Decoded? && b.Decoded? then Decoded(a.samples + b.samples)
        else InvalidAudio
  {
    hide Locate, SamplesAt, Size;
    var track := Locate(file);
    LocatedInside(file);
    var left, right, both :=
      WindowCount(track.total, first, m), WindowCount(track.total, first + m, n),
        WindowCount(track.total, first, m + n);
    assert both == left + right && (right > 0 ==> left == m);
    if both > 0 {
      WindowInside(track.total, first, m + n, track.format.align);
      WindowsSplit(file, track, first, left, right, floats);
    }
  }

  lemma {:induction false} WindowsSplit(file: seq<byte>, track: Located, first: nat, left: nat, right: nat,
      floats: seq<byte> -> Option<real>)
    requires track.Located? && Supported(track.format)
    requires track.offset + Size(first, track.format.align) + Size(left + right, track.format.align) <= |file|
    ensures track.offset + Size(first, track.format.align) + Size(left, track.format.align) <= |file|
    ensures track.offset + Size(first + left, track.format.align) + Size(right, track.format.align) <= |file|
    ensures var at := track.offset + Size(first, track.format.align);
      SamplesAt(file, at, left + right, track.format, floats)
      == Joined(SamplesAt(file, at, left, track.format, floats),
                SamplesAt(file, track.offset + Size(first + left, track.format.align), right, track.format, floats))
  {
    hide Supported, SamplesAt, Size;
    var align := track.format.align;
    Spread(left, right, align);
    Spread(first, left, align);
    SamplesSplit(file, track.offset + Size(first, align), left, right, track.format, floats);
  }
}
