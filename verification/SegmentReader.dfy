/**
 Reading a segment file back from a stream that may be cut anywhere. JSON parsing is a parameter:
 a line is a valid record, a replacement header, or neither.
 */
module SegmentReader {
  import opened StoreTypes

  datatype Parsed = Record(event: Event) | Header | Unreadable

  function Utf8Width(c: char): nat {
    if c as int < 0x80 then 1 else if c as int < 0x800 then 2 else if c as int < 0x1_0000 then 3 else 4
  }

  function Utf8Bytes(s: string): nat {
    if s == "" then 0 else Utf8Bytes(s[..|s| - 1]) + Utf8Width(s[|s| - 1])
  }

  // ---------------------------------------------------------------- what a text holds

  /** The characters after the last newline. */
  function Tail(text: string): string {
    if text == "" || text[|text| - 1] == '\n' then "" else Tail(text[..|text| - 1]) + [text[|text| - 1]]
  }

  /** The newline-terminated lines, without their newlines. */
  function Lines(text: string): seq<string> {
    if text == "" then []
    else if text[|text| - 1] == '\n' then Lines(text[..|text| - 1]) + [Tail(text[..|text| - 1])]
    else Lines(text[..|text| - 1])
  }

  /** A line that may hold a record: not empty and at most 64 KiB. */
  predicate Acceptable(line: string) {
    line != "" && Utf8Bytes(line) <= MAX_RECORD_BYTES
  }

  predicate HoldsRecord(line: string, parse: string -> Parsed) {
    Acceptable(line) && parse(line).Record?
  }

  predicate Unusable(line: string, parse: string -> Parsed) {
    !Acceptable(line) || parse(line).Unreadable?
  }

  /** The records of the lines that hold one, in order. */
  function RecordsOf(lines: seq<string>, parse: string -> Parsed): seq<Event> {
    if lines == [] then []
    else
      RecordsOf(lines[..|lines| - 1], parse)
      + if HoldsRecord(lines[|lines| - 1], parse) then [parse(lines[|lines| - 1]).event] else []
  }

  predicate AnyUnusable(lines: seq<string>, parse: string -> Parsed) {
    exists i :: 0 <= i < |lines| && Unusable(lines[i], parse)
  }

  /** Every record of a text, in order. */
  function Records(text: string, parse: string -> Parsed): seq<Event> {
    RecordsOf(Lines(text), parse)
  }

  /** Some line cannot be used, or the text does not end with a newline. */
  predicate Faulty(text: string, parse: string -> Parsed) {
    AnyUnusable(Lines(text), parse) || Tail(text) != ""
  }

  lemma {:induction false} RecordsOfAppend(lines: seq<string>, line: string, parse: string -> Parsed)
    ensures RecordsOf(lines + [line], parse) == RecordsOf(lines, parse) + RecordsOf([line], parse)
    ensures AnyUnusable(lines + [line], parse) <==> AnyUnusable(lines, parse) || Unusable(line, parse)
  {
    assert (lines + [line])[..|lines|] == lines && (lines + [line])[|lines|] == line;
    assert [line][..0] == [];
    forall i | 0 <= i < |lines| && Unusable(lines[i], parse)
      ensures AnyUnusable(lines + [line], parse)
    {
      assert (lines + [line])[i] == lines[i];
    }
  }

  /** Characters other than a newline lengthen the tail only. */
  lemma {:induction false} TailGrows(seen: string, more: string)
    requires '\n' !in more
    ensures Tail(seen + more) == Tail(seen) + more
    ensures Lines(seen + more) == Lines(seen)
    decreases more
  {
    hide Lines, Tail;
    if more == "" {
      assert seen + more == seen && Tail(seen) + more == Tail(seen);
    } else {
      var init, c := more[..|more| - 1], more[|more| - 1];
      assert c in more;
      TailGrows(seen, init);
      GrowByOne(seen + init, c);
      assert seen + more == seen + init + [c];
      assert Tail(seen) + more == Tail(seen) + init + [c];
    }
  }

  lemma {:induction false} GrowByOne(text: string, c: char)
    ensures c != '\n' ==> Tail(text + [c]) == Tail(text) + [c] && Lines(text + [c]) == Lines(text)
    ensures c == '\n' ==> Tail(text + [c]) == "" && Lines(text + [c]) == Lines(text) + [Tail(text)]
  {
    assert (text + [c])[..|text|] == text && (text + [c])[|text|] == c;
  }

  /** A newline turns the tail into one more line. */
  lemma {:induction false} LineEnds(seen: string, line: string)
    requires '\n' !in line
    ensures Lines(seen + line + "\n") == Lines(seen) + [Tail(seen) + line]
    ensures Tail(seen + line + "\n") == ""
  {
    TailGrows(seen, line);
    GrowByOne(seen + line, '\n');
  }

  lemma {:induction false} BytesAppend(a: string, b: string)
    ensures Utf8Bytes(a + b) == Utf8Bytes(a) + Utf8Bytes(b)
    decreases b
  {
    if b == "" {
      assert a + b == a;
    } else {
      assert (a + b)[..|a + b| - 1] == a + b[..|b| - 1];
      BytesAppend(a, b[..|b| - 1]);
    }
  }

  function Joined(chunks: seq<string>): string {
    if chunks == [] then "" else Joined(chunks[..|chunks| - 1]) + chunks[|chunks| - 1]
  }

  // ---------------------------------------------------------------- the stream loop

  /** The first newline, or the length of the text. */
  function IndexOfNewline(text: string): (k: nat)
    ensures k <= |text| && '\n' !in text[..k] && (k < |text| ==> text[k] == '\n')
  {
    if text == "" || text[0] == '\n' then 0 else 1 + IndexOfNewline(text[1..])
  }

  /** `seen` is handled and `pending` is not; while skipping, the unfinished line is already too long. */
  ghost predicate Scanned(consumed: string, seen: string, pending: string, skipping: bool) {
    && consumed == seen + pending
    && (skipping ==> Utf8Bytes(Tail(seen)) > MAX_RECORD_BYTES)
    && (!skipping ==> Tail(seen) == "")
  }

  /** What the handled part has produced: its records, and a fault as soon as anything is unusable. */
  ghost predicate Produced(seen: string, events: seq<Event>, fault: bool, skipping: bool, parse: string -> Parsed) {
    && events == Records(seen, parse)
    && (fault <==> AnyUnusable(Lines(seen), parse) || skipping)
  }

  /** Handling the line that ends at `newline`: a line whose beginning was discarded is discarded whole. */
  lemma {:induction false} LineHandled(consumed: string, seen: string, pending: string, skipping: bool, newline: nat)
    requires newline < |pending| && '\n' !in pending[..newline] && pending[newline] == '\n'
    requires Scanned(consumed, seen, pending, skipping)
    ensures Scanned(consumed, seen + pending[..newline] + "\n", pending[newline + 1..], false)
    ensures !skipping ==> Lines(seen + pending[..newline] + "\n") == Lines(seen) + [pending[..newline]]
    ensures skipping ==> exists lost ::
      Lines(seen + pending[..newline] + "\n") == Lines(seen) + [lost] && !Acceptable(lost)
  {
    hide Lines, Tail, Utf8Bytes;
    var line := pending[..newline];
    LineEnds(seen, line);
    BytesAppend(Tail(seen), line);
    assert !skipping ==> Tail(seen) + line == line;
    assert seen + line + "\n" + pending[newline + 1..] == seen + pending;
  }

  lemma {:induction false} SkippedLine(seen: string, next: string, events: seq<Event>, fault: bool, lost: string,
      parse: string -> Parsed)
    requires Lines(next) == Lines(seen) + [lost] && !Acceptable(lost)
    requires Produced(seen, events, fault, true, parse)
    ensures Produced(next, events, fault, false, parse)
  {
    RecordsOfAppend(Lines(seen), lost, parse);
    assert RecordsOf([lost], parse) == [] by {
      assert [lost][..0] == [];
    }
  }

  lemma {:induction false} ReadLine(seen: string, next: string, line: string, events: seq<Event>, fault: bool,
      parse: string -> Parsed)
    requires Lines(next) == Lines(seen) + [line]
    requires Produced(seen, events, fault, false, parse)
    ensures Produced(next, events + RecordsOf([line], parse), fault || Unusable(line, parse), false, parse)
    ensures RecordsOf([line], parse) == if HoldsRecord(line, parse) then [parse(line).event] else []
  {
    RecordsOfAppend(Lines(seen), line, parse);
    assert [line][..0] == [];
  }

  /**
   Reads the stream chunk by chunk. However the text is cut, the result depends only on the joined
   text: its newline-terminated valid records of at most 64 KiB, in order, and whether anything in
   it was unusable. Only the current chunk and at most one line are held.
   */
  method ReadSegment(chunks: seq<string>, parse: string -> Parsed) returns (events: seq<Event>, storageError: bool)
    ensures events == Records(Joined(chunks), parse)
    ensures storageError <==> Faulty(Joined(chunks), parse)
  {
    hide Produced, Lines, Tail, Utf8Bytes, RecordsOf, AnyUnusable;
    events, storageError := [], false;
    var pending, skipping := "", false;
    ghost var seen := "";
    NothingRead(parse);
    for i := 0 to |chunks|
      invariant Scanned(Joined(chunks[..i]), seen, pending, skipping)
      invariant '\n' !in pending && Utf8Bytes(pending) <= MAX_RECORD_BYTES && (skipping ==> pending == "")
      invariant Produced(seen, events, storageError, skipping, parse)
    {
      assert chunks[..i + 1][..i] == chunks[..i];
      ghost var consumed := Joined(chunks[..i + 1]);
      assert consumed == seen + (pending + chunks[i]);
      pending := pending + chunks[i];
      seen, pending, skipping, events, storageError :=
        TakeLines(consumed, seen, pending, skipping, events, storageError, parse);
      if skipping || Utf8Bytes(pending) > MAX_RECORD_BYTES {
        TooLong(consumed, seen, pending, skipping, events, storageError, parse);
        seen := consumed;
        pending, skipping, storageError := "", true, true;
      }
    }
    assert chunks[..|chunks|] == chunks;
    StreamEnds(Joined(chunks), seen, pending, skipping, events, storageError, parse);
    if pending != "" || skipping {
      storageError := true;
    }
  }

  lemma {:induction false} NothingRead(parse: string -> Parsed)
    ensures Produced("", [], false, false, parse) && Scanned("", "", "", false) && Utf8Bytes("") == 0
  {
  }

  /** The inner loop: handles every complete line of `pending`. */
  method TakeLines(ghost consumed: string, ghost seen0: string, pending0: string, skipping0: bool,
    events0: seq<Event>, fault0: bool, parse: string -> Parsed)
    returns (ghost seen: string, pending: string, skipping: bool, events: seq<Event>, fault: bool)
    requires Scanned(consumed, seen0, pending0, skipping0) && Produced(seen0, events0, fault0, skipping0, parse)
    ensures Scanned(consumed, seen, pending, skipping) && Produced(seen, events, fault, skipping, parse)
    ensures '\n' !in pending
  {
    hide Produced, Lines, Tail, Utf8Bytes, RecordsOf, AnyUnusable, Scanned;
    seen, pending, skipping, events, fault := seen0, pending0, skipping0, events0, fault0;
    var newline := IndexOfNewline(pending);
    while newline < |pending|
      invariant newline == IndexOfNewline(pending)
      invariant Scanned(consumed, seen, pending, skipping) && Produced(seen, events, fault, skipping, parse)
      decreases |pending|
    {
      var line := pending[..newline];
      ghost var next := seen + line + "\n";
      LineHandled(consumed, seen, pending, skipping, newline);
      pending := pending[newline + 1..];
      if skipping {
        ghost var lost :| Lines(next) == Lines(seen) + [lost] && !Acceptable(lost);
        SkippedLine(seen, next, events, fault, lost, parse);
      } else {
        ReadLine(seen, next, line, events, fault, parse);
        if line == "" || Utf8Bytes(line) > MAX_RECORD_BYTES {
          fault := true;
        } else {
          match parse(line)
          case Record(event) => events := events + [event];
          case Header =>
          case Unreadable => fault := true;
        }
        assert events + [] == events;
      }
      seen, skipping := next, false;
      newline := IndexOfNewline(pending);
    }
    assert pending[..|pending|] == pending;
  }

  /** Discarding an overlong unfinished line: nothing of it can be mistaken for a record later. */
  lemma {:induction false} TooLong(consumed: string, seen: string, pending: string, skipping: bool,
    events: seq<Event>, fault: bool, parse: string -> Parsed)
    requires Scanned(consumed, seen, pending, skipping) && '\n' !in pending
    requires skipping || Utf8Bytes(pending) > MAX_RECORD_BYTES
    requires Produced(seen, events, fault, skipping, parse)
    ensures Scanned(consumed, consumed, "", true) && Produced(consumed, events, true, true, parse)
    ensures Utf8Bytes("") == 0
  {
    TailGrows(seen, pending);
    BytesAppend(Tail(seen), pending);
    assert consumed + "" == consumed;
  }

  lemma {:induction false} StreamEnds(text: string, seen: string, pending: string, skipping: bool,
    events: seq<Event>, fault: bool, parse: string -> Parsed)
    requires Scanned(text, seen, pending, skipping) && '\n' !in pending
    requires Produced(seen, events, fault, skipping, parse)
    ensures events == Records(text, parse)
    ensures fault || pending != "" || skipping <==> Faulty(text, parse)
  {
    TailGrows(seen, pending);
    assert Utf8Bytes("") == 0;
    assert skipping ==> Tail(seen) != "";
    assert !skipping ==> Tail(text) == pending;
  }

  // ---------------------------------------------------------------- reading back what was written

  /** The text a drain or a compaction writes: an optional header line, then one line per event. */
  function Written(header: string, events: seq<Event>, serialize: Event -> string): string {
    if events == [] then header
    else Written(header, events[..|events| - 1], serialize) + serialize(events[|events| - 1]) + "\n"
  }

  ghost predicate RoundTrips(events: seq<Event>, serialize: Event -> string, parse: string -> Parsed) {
    forall e :: e in events ==> '\n' !in serialize(e) && Acceptable(serialize(e)) && parse(serialize(e)) == Record(e)
  }

  ghost predicate IsHeader(line: string, parse: string -> Parsed) {
    '\n' !in line && Acceptable(line) && parse(line) == Header
  }

  /** Reading back yields exactly the written events, in order and without a fault; the header yields nothing. */
  lemma {:induction false} WrittenIsReadBack(header: string, events: seq<Event>, serialize: Event -> string,
      parse: string -> Parsed)
    requires RoundTrips(events, serialize, parse)
    requires header == "" || (header[|header| - 1] == '\n' && IsHeader(header[..|header| - 1], parse))
    ensures Records(Written(header, events, serialize), parse) == events
    ensures !Faulty(Written(header, events, serialize), parse)
  {
    hide Lines, Tail, Utf8Bytes;
    if events == [] {
      HeaderAlone(header, parse);
    } else {
      var rest, last := events[..|events| - 1], events[|events| - 1];
      assert last in events && forall e :: e in rest ==> e in events;
      WrittenIsReadBack(header, rest, serialize, parse);
      OneMoreRecord(Written(header, rest, serialize), serialize(last), rest, last, parse);
      assert rest + [last] == events;
    }
  }

  lemma {:induction false} HeaderAlone(header: string, parse: string -> Parsed)
    requires header == "" || (header[|header| - 1] == '\n' && IsHeader(header[..|header| - 1], parse))
    ensures Records(header, parse) == [] && !Faulty(header, parse)
  {
    if header != "" {
      var line := header[..|header| - 1];
      assert "" + line + "\n" == header;
      LineEnds("", line);
      assert Lines(header) == [line];
      NothingRead(parse);
      ReadLine("", header, line, [], false, parse);
    }
  }

  lemma {:induction false} OneMoreRecord(text: string, line: string, events: seq<Event>, event: Event,
      parse: string -> Parsed)
    requires Records(text, parse) == events && !Faulty(text, parse)
    requires '\n' !in line && Acceptable(line) && parse(line) == Record(event)
    ensures Records(text + line + "\n", parse) == events + [event] && !Faulty(text + line + "\n", parse)
  {
    hide Utf8Bytes;
    LineEnds(text, line);
    assert Tail(text) + line == line;
    RecordsOfAppend(Lines(text), line, parse);
    assert [line][..0] == [];
  }
}
