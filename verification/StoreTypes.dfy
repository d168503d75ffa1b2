/** Events, segment files and index entries of the diagnostic store. */
module StoreTypes {
  import opened Wrappers

  const MAX_PENDING: nat := 1000
  const MAX_RECORD_BYTES: nat := 64 * 1024
  const MAX_SEGMENT_BYTES: nat := 4 * 1024 * 1024
  const MAX_SEGMENTS: nat := 4096
  const COMPACT_AFTER: nat := 256
  const HEADER_BYTES: nat := 8192
  const MAX_BATCH: nat := 200
  const MAX_SOURCES: nat := 64

  datatype Level = Info | Warn | Error
  datatype Category =
    | HttpCategory
    | ErrorCategory
    | ConnectionCategory
    | CallCategory
    | RuntimeCategory
    | FrontendCategory
    | SystemCategory

  /** `bytes` is the length of the event's serialized line; identifiers are compared as numbers. */
  datatype Event = Event(
    id: nat,
    timestamp: int,
    level: Level,
    category: Category,
    code: nat,
    traceId: Option<nat>,
    callId: Option<nat>,
    instanceId: Option<nat>,
    bytes: nat
  )

  /** The parts of "events-<runtime>-<clock>-<sequence>.jsonl"; every process start draws a new runtime. */
  datatype Name = Name(runtime: nat, clock: nat, sequence: nat)

  /** An immutable segment: the files its header replaces (none: no header), and its records. */
  datatype File = File(supersedes: seq<Name>, events: seq<Event>)

  /** The index entry of a segment; `oldest` is infinite while the segment is empty. */
  datatype Segment = Segment(
    bytes: nat,
    count: nat,
    oldest: Option<int>,
    newest: int,
    counts: map<Level, nat>,
    categories: map<Category, nat>
  )

  function Min(a: int, b: int): int { if a < b then a else b }
  function Max(a: int, b: int): int { if a < b then b else a }

  function CountOf<K>(counts: map<K, nat>, key: K): nat {
    if key in counts then counts[key] else 0
  }

  function EmptySegment(bytes: nat): Segment {
    Segment(bytes, 0, None, 0, map[], map[])
  }

  function CountEvent(s: Segment, e: Event): Segment {
    Segment(
      s.bytes,
      s.count + 1,
      Some(if s.oldest.None? then e.timestamp else Min(s.oldest.value, e.timestamp)),
      Max(s.newest, e.timestamp),
      s.counts[e.level := CountOf(s.counts, e.level) + 1],
      s.categories[e.category := CountOf(s.categories, e.category) + 1])
  }

  function CountEvents(s: Segment, events: seq<Event>): Segment {
    if events == [] then s else CountEvent(CountEvents(s, events[..|events| - 1]), events[|events| - 1])
  }

  // ---------------------------------------------------------------- sizes

  function EventBytes(events: seq<Event>): nat {
    if events == [] then 0 else EventBytes(events[..|events| - 1]) + events[|events| - 1].bytes + 1
  }

  function Digits(n: nat): nat {
    if n < 10 then 1 else 1 + Digits(n / 10)
  }

  /** "events-" + 36 + "-" + 13 + "-" + at least six digits + ".jsonl". */
  function NameBytes(name: Name): nat {
    64 + Max(6, Digits(name.sequence))
  }

  function NamesBytes(names: seq<Name>): nat {
    if names == [] then 0 else NamesBytes(names[..|names| - 1]) + NameBytes(names[|names| - 1]) + 3
  }

  /** The header line {"diagnosticSegment":1,"replaces":[...]} with its newline. */
  function HeaderLineBytes(names: seq<Name>): nat {
    37 + NamesBytes(names)
  }

  function FileBytes(f: File): nat {
    (if f.supersedes == [] then 0 else HeaderLineBytes(f.supersedes)) + EventBytes(f.events)
  }

  /** The index entry that reading the file back yields. */
  function Recount(f: File): Segment {
    CountEvents(EmptySegment(FileBytes(f)), f.events)
  }
}
