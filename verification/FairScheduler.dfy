/**
 Weighted fair queueing between dictations and transcriptions, round robin between the scopes of
 one mode, first come first served within a scope.
 */
module FairSchedulers {
  import opened Wrappers

  datatype Mode = Dictation | Transcription
  datatype Item = Item(id: nat)
  type Scope = string

  /** One mode's waiting work: the scopes in round-robin order and each scope's queue. */
  datatype Line = Line(order: seq<Scope>, queues: map<Scope, seq<Item>>)

  datatype State = State(weight: nat, turn: nat, dictation: Line, transcription: Line)

  /** What one take hands out. */
  datatype Service = Service(mode: Mode, scope: Scope, item: Item)

  datatype Job = Job(mode: string, scopeKey: string, instanceId: string)

  function ModeOf(job: Job): Mode {
    if job.mode == "dictation" then Dictation else Transcription
  }

  /** Missing and empty keys fall through to the next candidate. */
  function ScopeOf(job: Job): Scope {
    if job.scopeKey != "" then job.scopeKey else if job.instanceId != "" then job.instanceId else "platform"
  }

  function ClampedWeight(requested: int): nat {
    if requested < 1 then 1 else if requested > 10 then 10 else requested
  }

  // ---------------------------------------------------------------- one line

  function QueueOf(l: Line, scope: Scope): seq<Item> {
    if scope in l.queues then l.queues[scope] else []
  }

  ghost predicate Sound(l: Line) {
    && (forall i, j :: 0 <= i < j < |l.order| ==> l.order[i] != l.order[j])
    && (forall sc :: sc in l.queues <==> sc in l.order)
    && (forall sc :: sc in l.queues ==> l.queues[sc] != [])
  }

  function Enqueue(l: Line, scope: Scope, item: Item): Line {
    if scope in l.queues then Line(l.order, l.queues[scope := l.queues[scope] + [item]])
    else Line(l.order + [scope], l.queues[scope := [item]])
  }

  ghost function Dequeue(l: Line): Line
    requires Sound(l) && l.order != []
  {
    var scope := l.order[0];
    var rest := l.queues[scope][1..];
    if rest != [] then Line(l.order[1..] + [scope], l.queues[scope := rest]) else Line(l.order[1..], l.queues - {scope})
  }

  ghost function Head(l: Line): Item
    requires Sound(l) && l.order != []
  {
    l.queues[l.order[0]][0]
  }

  lemma {:induction false} EnqueueKeeps(l: Line, scope: Scope, item: Item)
    requires Sound(l)
    ensures Sound(Enqueue(l, scope, item)) && Enqueue(l, scope, item).order != []
    ensures forall sc ::
      QueueOf(Enqueue(l, scope, item), sc) == if sc == scope then QueueOf(l, sc) + [item] else QueueOf(l, sc)
    ensures l.order <= Enqueue(l, scope, item).order
  {
    var more := Enqueue(l, scope, item);
    if scope !in l.queues {
      assert more.order[|l.order|] == scope;
      forall sc
        ensures sc in more.queues <==> sc in more.order
      {
        assert sc in l.order ==> sc in more.order;
      }
    } else {
      assert scope in l.order;
    }
  }

  lemma {:induction false} DequeueKeeps(l: Line)
    requires Sound(l) && l.order != []
    ensures Sound(Dequeue(l))
    ensures forall sc :: QueueOf(l, sc) == (if sc == l.order[0] then [Head(l)] else []) + QueueOf(Dequeue(l), sc)
    ensures forall i :: 0 < i < |l.order| ==> i - 1 < |Dequeue(l).order| && Dequeue(l).order[i - 1] == l.order[i]
  {
    var less, scope := Dequeue(l), l.order[0];
    assert l.queues[scope] == [Head(l)] + l.queues[scope][1..];
    assert forall i :: 0 < i < |l.order| ==> less.order[i - 1] == l.order[i];
    forall sc
      ensures sc in less.queues <==> sc in less.order
    {
      if sc != scope && sc in l.order {
        var i :| 0 <= i < |l.order| && l.order[i] == sc;
        assert less.order[i - 1] == sc;
      }
      if l.queues[scope][1..] != [] {
        assert less.order[|less.order| - 1] == scope;
      }
    }
  }

  // ---------------------------------------------------------------- what waits

  function Waiting(l: Line, order: seq<Scope>): multiset<Item> {
    if order == [] then multiset{} else Waiting(l, order[..|order| - 1]) + multiset(QueueOf(l, order[|order| - 1]))
  }

  ghost function Items(s: State): multiset<Item> {
    Waiting(s.dictation, s.dictation.order) + Waiting(s.transcription, s.transcription.order)
  }

  lemma {:induction false} WaitingFrame(l: Line, m: Line, order: seq<Scope>)
    requires forall sc :: sc in order ==> QueueOf(l, sc) == QueueOf(m, sc)
    ensures Waiting(l, order) == Waiting(m, order)
  {
    if order != [] {
      assert order[|order| - 1] in order;
      WaitingFrame(l, m, order[..|order| - 1]);
    }
  }

  lemma {:induction false} WaitingWithout(l: Line, m: Line, order: seq<Scope>, scope: Scope)
    requires forall i, j :: 0 <= i < j < |order| ==> order[i] != order[j]
    requires scope in order
    requires forall sc :: sc in order && sc != scope ==> QueueOf(l, sc) == QueueOf(m, sc)
    ensures Waiting(l, order) + multiset(QueueOf(m, scope)) == Waiting(m, order) + multiset(QueueOf(l, scope))
  {
    var rest, last := order[..|order| - 1], order[|order| - 1];
    if last == scope {
      WaitingFrame(l, m, rest);
    } else {
      assert scope in rest;
      WaitingWithout(l, m, rest, scope);
    }
  }

  lemma {:induction false} WaitingFromFront(l: Line, order: seq<Scope>)
    requires order != []
    ensures Waiting(l, order) == multiset(QueueOf(l, order[0])) + Waiting(l, order[1..])
  {
    if |order| > 1 {
      var init := order[..|order| - 1];
      WaitingFromFront(l, init);
      assert init[1..] == order[1..][..|order| - 2];
    } else {
      assert order[..0] == [] && order[1..] == [];
    }
  }

  lemma {:induction false} EnqueueAdds(l: Line, scope: Scope, item: Item)
    requires Sound(l)
    ensures var more := Enqueue(l, scope, item); Waiting(more, more.order) == Waiting(l, l.order) + multiset{item}
  {
    var more := Enqueue(l, scope, item);
    EnqueueKeeps(l, scope, item);
    if scope in l.queues {
      WaitingWithout(l, more, l.order, scope);
      JoinsTheQueue(Waiting(l, l.order), Waiting(more, more.order), QueueOf(l, scope), item);
    } else {
      hide Sound;
      assert more.order[..|l.order|] == l.order;
      WaitingFrame(l, more, l.order);
    }
  }

  lemma {:induction false} JoinsTheQueue(before: multiset<Item>, after: multiset<Item>, queue: seq<Item>, item: Item)
    requires before + multiset(queue + [item]) == after + multiset(queue)
    ensures after == before + multiset{item}
  {
    assert multiset(queue + [item]) == multiset(queue) + multiset{item};
    forall x
      ensures after[x] == (before + multiset{item})[x]
    {
      assert (before + multiset(queue + [item]))[x] == (after + multiset(queue))[x];
    }
  }

  lemma {:induction false} DequeueRemoves(l: Line)
    requires Sound(l) && l.order != []
    ensures var less := Dequeue(l); Waiting(l, l.order) == Waiting(less, less.order) + multiset{Head(l)}
  {
    var less, scope := Dequeue(l), l.order[0];
    DequeueKeeps(l);
    WaitingFromFront(l, l.order);
    forall sc | sc in l.order[1..]
      ensures sc != scope
    {
    }
    WaitingFrame(l, less, l.order[1..]);
    assert multiset(QueueOf(l, scope)) == multiset{Head(l)} + multiset(QueueOf(less, scope));
    if l.queues[scope][1..] != [] {
      assert less.order[..|less.order| - 1] == l.order[1..];
    }
  }

  lemma {:induction false} SomethingWaits(l: Line)
    requires Sound(l)
    ensures l.order != [] <==> Waiting(l, l.order) != multiset{}
  {
    if l.order != [] {
      DequeueRemoves(l);
    }
  }

  // ---------------------------------------------------------------- the scheduler as a state machine

  datatype Operation = Add(mode: Mode, scope: Scope, item: Item) | Take

  function LineOf(s: State, mode: Mode): Line {
    if mode == Dictation then s.dictation else s.transcription
  }

  function WithLine(s: State, mode: Mode, l: Line): State {
    if mode == Dictation then s.(dictation := l) else s.(transcription := l)
  }

  ghost predicate SoundState(s: State) {
    s.weight > 0 && Sound(s.dictation) && Sound(s.transcription)
  }

  predicate Empty(s: State) {
    s.dictation.order == [] && s.transcription.order == []
  }

  /** The pattern repeats `weight` dictation turns followed by one transcription turn. */
  predicate TranscriptionTurn(s: State)
  {
    s.turn % (s.weight + 1) == s.weight
  }

  /** The preferred mode, or the other one if nothing of the preferred one waits. */
  function ServedMode(s: State): Mode {
    if TranscriptionTurn(s) then (if s.transcription.order != [] then Transcription else Dictation)
    else if s.dictation.order != [] then Dictation
    else Transcription
  }

  ghost function Outcome(s: State, op: Operation): Option<Service>
    requires SoundState(s)
  {
    if op.Add? || Empty(s) then None
    else
      var l := LineOf(s, ServedMode(s));
      Some(Service(ServedMode(s), l.order[0], Head(l)))
  }

  ghost function Step(s: State, op: Operation): State
    requires SoundState(s)
  {
    if op.Add? then WithLine(s, op.mode, Enqueue(LineOf(s, op.mode), op.scope, op.item))
    else if Empty(s) then s
    else WithLine(s, ServedMode(s), Dequeue(LineOf(s, ServedMode(s)))).(turn := s.turn + 1)
  }

  lemma {:induction false} StepKeeps(s: State, op: Operation)
    requires SoundState(s)
    ensures SoundState(Step(s, op)) && Step(s, op).weight == s.weight
  {
    hide Sound, Dequeue, Enqueue;
    if op.Add? {
      EnqueueKeeps(LineOf(s, op.mode), op.scope, op.item);
    } else if !Empty(s) {
      DequeueKeeps(LineOf(s, ServedMode(s)));
    }
  }

  /** A take hands something out exactly if anything waits, and items neither vanish nor multiply. */
  lemma {:induction false} ItemsAreConserved(s: State, op: Operation)
    requires SoundState(s)
    ensures op.Take? ==> (Outcome(s, op).Some? <==> Items(s) != multiset{})
    ensures op.Add? ==> Items(Step(s, op)) == Items(s) + multiset{op.item}
    ensures op.Take? ==>
      Items(s) == Items(Step(s, op))
        + (if Outcome(s, op).Some? then multiset{Outcome(s, op).value.item} else multiset{})
  {
    hide Sound, Dequeue, Enqueue, Waiting, Head;
    SomethingWaits(s.dictation);
    SomethingWaits(s.transcription);
    if op.Add? {
      EnqueueAdds(LineOf(s, op.mode), op.scope, op.item);
    } else if !Empty(s) {
      DequeueRemoves(LineOf(s, ServedMode(s)));
    }
  }

  ghost function Final(s: State, ops: seq<Operation>): State
    requires SoundState(s)
    decreases |ops|
  {
    if ops == [] then s
    else
      StepKeeps(s, ops[0]);
      Final(Step(s, ops[0]), ops[1..])
  }

  /** Everything handed out, in order. */
  ghost function Services(s: State, ops: seq<Operation>): seq<Service>
    requires SoundState(s)
    decreases |ops|
  {
    if ops == [] then []
    else
      StepKeeps(s, ops[0]);
      (if Outcome(s, ops[0]).Some? then [Outcome(s, ops[0]).value] else []) + Services(Step(s, ops[0]), ops[1..])
  }

  function Takes(ops: seq<Operation>): nat {
    if ops == [] then 0 else (if ops[0].Take? then 1 else 0) + Takes(ops[1..])
  }

  function AddedTo(ops: seq<Operation>, mode: Mode, scope: Scope): seq<Item> {
    if ops == [] then []
    else
      (if ops[0].Add? && ops[0].mode == mode && ops[0].scope == scope then [ops[0].item] else [])
      + AddedTo(ops[1..], mode, scope)
  }

  function ServedTo(services: seq<Service>, mode: Mode, scope: Scope): seq<Item> {
    if services == [] then []
    else
      (if services[0].mode == mode && services[0].scope == scope then [services[0].item] else [])
        + ServedTo(services[1..], mode, scope)
  }

  function CountMode(services: seq<Service>, mode: Mode): nat {
    if services == [] then 0 else (if services[0].mode == mode then 1 else 0) + CountMode(services[1..], mode)
  }

  // ---------------------------------------------------------------- first come, first served within a scope

  lemma {:induction false} StepIsFifo(s: State, op: Operation, mode: Mode, scope: Scope)
    requires SoundState(s)
    ensures var next, out := Step(s, op), Outcome(s, op);
      QueueOf(LineOf(s, mode), scope) + AddedTo([op], mode, scope)
      == (if out.Some? && out.value.mode == mode && out.value.scope == scope then [out.value.item] else [])
        + QueueOf(LineOf(next, mode), scope)
  {
    hide Sound, Dequeue, Enqueue, Head, QueueOf, ServedMode;
    assert AddedTo([op][1..], mode, scope) == [];
    if op.Add? {
      EnqueueKeeps(LineOf(s, op.mode), op.scope, op.item);
    } else if !Empty(s) {
      NonEmptyServed(s);
      DequeueKeeps(LineOf(s, ServedMode(s)));
    }
  }

  lemma {:induction false} NonEmptyServed(s: State)
    requires !Empty(s)
    ensures LineOf(s, ServedMode(s)).order != []
  {
  }

  /** Over any run, each scope's items come out in the order they went in, none lost and none twice. */
  lemma {:induction false} ScopesAreFifo(s: State, ops: seq<Operation>, mode: Mode, scope: Scope)
    requires SoundState(s)
    ensures QueueOf(LineOf(s, mode), scope) + AddedTo(ops, mode, scope)
         == ServedTo(Services(s, ops), mode, scope) + QueueOf(LineOf(Final(s, ops), mode), scope)
    decreases |ops|
  {
    hide Outcome, Step, SoundState, QueueOf, LineOf;
    if ops != [] {
      var op, rest := ops[0], ops[1..];
      StepKeeps(s, op);
      var next, out := Step(s, op), Outcome(s, op);
      ScopesAreFifo(next, rest, mode, scope);
      StepIsFifo(s, op, mode, scope);
      assert [op][1..] == [];
      assert AddedTo(ops, mode, scope) == AddedTo([op], mode, scope) + AddedTo(rest, mode, scope);
      var first := if out.Some? then [out.value] else [];
      ServedToSplit(first, Services(next, rest), mode, scope);
      QueuesChain(QueueOf(LineOf(s, mode), scope), AddedTo([op], mode, scope), AddedTo(rest, mode, scope),
        if out.Some? && out.value.mode == mode && out.value.scope == scope then [out.value.item] else [],
        QueueOf(LineOf(next, mode), scope), ServedTo(Services(next, rest), mode, scope),
        QueueOf(LineOf(Final(next, rest), mode), scope));
    } else {
      assert QueueOf(LineOf(s, mode), scope) + [] == [] + QueueOf(LineOf(s, mode), scope);
    }
  }

  lemma {:induction false} QueuesChain(queue: seq<Item>, added: seq<Item>, addedLater: seq<Item>, served: seq<Item>,
    middle: seq<Item>, servedLater: seq<Item>, end: seq<Item>)
    requires queue + added == served + middle && middle + addedLater == servedLater + end
    ensures queue + (added + addedLater) == served + servedLater + end
  {
    assert queue + (added + addedLater) == queue + added + addedLater == served + (middle + addedLater);
  }

  lemma {:induction false} ServedToSplit(first: seq<Service>, rest: seq<Service>, mode: Mode, scope: Scope)
    requires |first| <= 1
    ensures ServedTo(first + rest, mode, scope)
         == (if first != [] && first[0].mode == mode && first[0].scope == scope then [first[0].item] else [])
           + ServedTo(rest, mode, scope)
  {
    if first == [] {
      assert first + rest == rest;
    } else {
      assert (first + rest)[1..] == rest;
    }
  }

  // ---------------------------------------------------------------- fairness

  ghost predicate Gets(services: seq<Service>, mode: Mode, scope: Scope) {
    exists v :: v in services && v.mode == mode && v.scope == scope
  }

  lemma {:induction false} GetsLater(first: seq<Service>, rest: seq<Service>, mode: Mode, scope: Scope)
    ensures Gets(rest, mode, scope) ==> Gets(first + rest, mode, scope)
    ensures Gets(first, mode, scope) ==> Gets(first + rest, mode, scope)
  {
    forall v | v in rest
      ensures v in first + rest
    {
    }
  }

  /** What one step does to the position of a waiting scope. */
  lemma {:induction false} PositionAfter(s: State, op: Operation, mode: Mode, i: nat)
    requires SoundState(s) && i < |LineOf(s, mode).order|
    ensures var next, out, scope := Step(s, op), Outcome(s, op), LineOf(s, mode).order[i];
      if op.Take? && ServedMode(s) == mode then
        out.Some? && out.value.mode == mode && (i == 0 ==> out.value.scope == scope)
        && (i > 0 ==> i - 1 < |LineOf(next, mode).order| && LineOf(next, mode).order[i - 1] == scope)
      else
        i < |LineOf(next, mode).order| && LineOf(next, mode).order[i] == scope
        && (out.Some? ==> out.value.mode != mode)
  {
    hide Sound, Dequeue, Enqueue, Head, ServedMode;
    if op.Add? {
      EnqueueKeeps(LineOf(s, op.mode), op.scope, op.item);
    } else {
      NonEmptyServed(s);
      DequeueKeeps(LineOf(s, ServedMode(s)));
    }
  }

  /** The scope at index i of its mode is served within i + 1 services of that mode, whatever is added. */
  lemma {:induction false} RoundRobin(s: State, ops: seq<Operation>, mode: Mode, i: nat)
    requires SoundState(s) && i < |LineOf(s, mode).order|
    requires CountMode(Services(s, ops), mode) > i
    ensures Gets(Services(s, ops), mode, LineOf(s, mode).order[i])
    decreases |ops|
  {
    hide Outcome, Step, SoundState, LineOf, ServedMode;
    var op, rest := ops[0], ops[1..];
    StepKeeps(s, op);
    PositionAfter(s, op, mode, i);
    var next, out := Step(s, op), Outcome(s, op);
    var first := if out.Some? then [out.value] else [];
    CountModeSplit(first, Services(next, rest), mode);
    GetsLater(first, Services(next, rest), mode, LineOf(s, mode).order[i]);
    if op.Take? && ServedMode(s) == mode {
      if i == 0 {
        assert out.value in first;
      } else {
        RoundRobin(next, rest, mode, i - 1);
      }
    } else {
      RoundRobin(next, rest, mode, i);
    }
  }

  lemma {:induction false} CountModeSplit(first: seq<Service>, rest: seq<Service>, mode: Mode)
    requires |first| <= 1
    ensures CountMode(first + rest, mode)
      == (if first != [] && first[0].mode == mode then 1 else 0) + CountMode(rest, mode)
  {
    if first == [] {
      assert first + rest == rest;
    } else {
      assert (first + rest)[1..] == rest;
    }
  }

  /** Turns left before the transcription turn. */
  function Distance(s: State): nat {
    s.weight - s.turn % (s.weight + 1)
  }

  lemma {:induction false} NextTurn(turn: nat, w: nat)
    requires w > 0
    ensures (turn + 1) % (w + 1) == if turn % (w + 1) == w then 0 else turn % (w + 1) + 1
  {
    var m := w + 1;
    var q, r := turn / m, turn % m;
    var p, k := (turn + 1) / m, (turn + 1) % m;
    assert q * m + r + 1 == p * m + k;
    assert (p - q) * m == r + 1 - k;
    Grows(p - q, m);
    Grows(p - q - 1, m);
    assert (p - q - 1) * m == (p - q) * m - m;
  }

  lemma {:induction false} Grows(d: int, m: nat)
    ensures d >= 1 ==> d * m >= m
    ensures d <= -1 ==> d * m <= 0 - m
  {
    assert d * m == m + (d - 1) * m;
    assert d * m == (d + 1) * m - m;
  }

  /**
   A waiting transcription scope at index i is served within (i + 1) * (weight + 1) takes, whatever
   is added meanwhile. The bound counts the takes still missing: i full rounds and the turns left.
   */
  lemma {:induction false} TranscriptionIsServed(s: State, ops: seq<Operation>, i: nat)
    requires SoundState(s) && i < |s.transcription.order|
    requires Takes(ops) > i * (s.weight + 1) + Distance(s)
    ensures Gets(Services(s, ops), Transcription, s.transcription.order[i])
    decreases |ops|
  {
    hide SoundState, Step, Outcome, Gets, Distance;
    var op, rest := ops[0], ops[1..];
    StepKeeps(s, op);
    PositionAfter(s, op, Transcription, i);
    var next, out := Step(s, op), Outcome(s, op);
    var first := if out.Some? then [out.value] else [];
    GetsLater(first, Services(next, rest), Transcription, s.transcription.order[i]);
    DistanceAfter(s, op, i);
    if op.Take? && ServedMode(s) == Transcription && i == 0 {
      GetsFirst(out.value);
    } else {
      TranscriptionIsServed(next, rest, if op.Take? && ServedMode(s) == Transcription then i - 1 else i);
    }
  }

  lemma {:induction false} GetsFirst(v: Service)
    ensures Gets([v], v.mode, v.scope)
  {
    assert v in [v];
  }

  /** While a transcription waits, every take brings the bound down. */
  lemma {:induction false} DistanceAfter(s: State, op: Operation, i: nat)
    requires SoundState(s) && s.transcription.order != []
    ensures op.Add? ==> Distance(Step(s, op)) == Distance(s)
    ensures var j := if ServedMode(s) == Transcription then i - 1 else i;
      op.Take? && j >= 0 ==> j * (s.weight + 1) + Distance(Step(s, op)) < i * (s.weight + 1) + Distance(s)
  {
    TurnAfter(s, op);
    hide Sound;
    assert i * (s.weight + 1) == (i - 1) * (s.weight + 1) + s.weight + 1;
  }

  lemma {:induction false} TurnAfter(s: State, op: Operation)
    requires SoundState(s) && !Empty(s)
    ensures op.Add? ==> Distance(Step(s, op)) == Distance(s)
    ensures op.Take? ==> Distance(Step(s, op)) == if TranscriptionTurn(s) then s.weight else Distance(s) - 1
  {
    hide Sound, Dequeue, Enqueue;
    NextTurn(s.turn, s.weight);
  }

  /** In particular, any weight + 1 takes serve the transcription scope that is next in line. */
  lemma {:induction false} SomeTranscriptionIsServed(s: State, ops: seq<Operation>)
    requires SoundState(s) && s.transcription.order != [] && Takes(ops) >= s.weight + 1
    ensures Gets(Services(s, ops), Transcription, s.transcription.order[0])
  {
    TranscriptionIsServed(s, ops, 0);
  }

  /** A waiting dictation scope at index i is served within 2 * (i + 1) takes. */
  lemma {:induction false} DictationIsServed(s: State, ops: seq<Operation>, i: nat)
    requires SoundState(s) && i < |s.dictation.order|
    requires Takes(ops) > 2 * i + (if TranscriptionTurn(s) then 1 else 0)
    ensures Gets(Services(s, ops), Dictation, s.dictation.order[i])
    decreases |ops|
  {
    var op, rest := ops[0], ops[1..];
    StepKeeps(s, op);
    PositionAfter(s, op, Dictation, i);
    var next, out := Step(s, op), Outcome(s, op);
    var first := if out.Some? then [out.value] else [];
    GetsLater(first, Services(next, rest), Dictation, s.dictation.order[i]);
    TurnAfter(s, op);
    if op.Add? {
      DictationIsServed(next, rest, i);
    } else {
      if ServedMode(s) == Dictation && i == 0 {
        assert out.value in first;
      } else {
        DictationIsServed(next, rest, if ServedMode(s) == Dictation then i - 1 else i);
      }
    }
  }

  // ---------------------------------------------------------------- the dictation share

  /** Some dictation waits whenever something is taken. */
  ghost predicate DictationAlwaysWaits(s: State, ops: seq<Operation>)
    requires SoundState(s)
    decreases |ops|
  {
    ops == [] || (
      StepKeeps(s, ops[0]);
      (ops[0].Take? ==> s.dictation.order != []) && DictationAlwaysWaits(Step(s, ops[0]), ops[1..]))
  }

  /** While dictations wait, transcriptions get at most one take of every weight + 1. */
  lemma {:induction false} TranscriptionsAreBounded(s: State, ops: seq<Operation>)
    requires SoundState(s) && DictationAlwaysWaits(s, ops)
    ensures CountMode(Services(s, ops), Dictation) + CountMode(Services(s, ops), Transcription) == Takes(ops)
    ensures (s.weight + 1) * CountMode(Services(s, ops), Transcription) <= Takes(ops) + s.weight - Distance(s)
    decreases |ops|
  {
    hide SoundState, Step, Outcome, Distance;
    if ops == [] {
      DistanceIsSmall(s);
    } else {
      var op, rest := ops[0], ops[1..];
      StepKeeps(s, op);
      var next, out := Step(s, op), Outcome(s, op);
      TranscriptionsAreBounded(next, rest);
      var first := if out.Some? then [out.value] else [];
      CountModeSplit(first, Services(next, rest), Dictation);
      CountModeSplit(first, Services(next, rest), Transcription);
      ShareAfter(s, op);
      var later := CountMode(Services(next, rest), Transcription);
      assert (s.weight + 1) * (later + 1) == (s.weight + 1) * later + s.weight + 1;
    }
  }

  lemma {:induction false} DistanceIsSmall(s: State)
    ensures Distance(s) <= s.weight
  {
  }

  lemma {:induction false} ShareAfter(s: State, op: Operation)
    requires SoundState(s) && (op.Take? ==> s.dictation.order != [])
    ensures op.Add? ==> Outcome(s, op).None? && Distance(Step(s, op)) == Distance(s)
    ensures op.Take? ==> Outcome(s, op).Some?
    ensures op.Take? && Outcome(s, op).value.mode == Dictation ==> Distance(Step(s, op)) >= Distance(s) - 1
    ensures op.Take? && Outcome(s, op).value.mode == Transcription ==>
      Distance(s) == 0 && Distance(Step(s, op)) == s.weight
  {
    if op.Take? {
      TurnAfter(s, op);
    }
  }

  /** Of any rounds * (weight + 1) takes while dictations wait, at least rounds * weight are dictations. */
  lemma {:induction false} DictationKeepsItsShare(s: State, ops: seq<Operation>, rounds: nat)
    requires SoundState(s) && DictationAlwaysWaits(s, ops)
    requires Takes(ops) == rounds * (s.weight + 1)
    ensures CountMode(Services(s, ops), Dictation) >= rounds * s.weight
  {
    hide *;
    TranscriptionsAreBounded(s, ops);
    var t := CountMode(Services(s, ops), Transcription);
    if t > rounds {
      TooMany(s.weight, t, rounds);
    }
    assert rounds * (s.weight + 1) == rounds * s.weight + rounds;
  }

  lemma {:induction false} TooMany(w: nat, t: nat, rounds: nat)
    requires t > rounds
    ensures (w + 1) * t >= rounds * (w + 1) + w + 1
  {
    assert (w + 1) * t == (w + 1) * (rounds + 1) + (w + 1) * (t - rounds - 1);
  }

  // ---------------------------------------------------------------- the object

  function Pattern(weight: nat): (p: seq<Mode>)
    ensures |p| == weight + 1 && p[weight] == Transcription && forall i :: 0 <= i < weight ==> p[i] == Dictation
  {
    seq(weight, _ => Dictation) + [Transcription]
  }

  /** Creating the bucket and then pushing is one enqueue. */
  lemma {:induction false} BucketThenPush(l: Line, scope: Scope, item: Item)
    ensures var made := if scope in l.queues then l else Line(l.order + [scope], l.queues[scope := []]);
      made.(queues := made.queues[scope := made.queues[scope] + [item]]) == Enqueue(l, scope, item)
  {
    if scope !in l.queues {
      assert [] + [item] == [item];
      assert l.queues[scope := []][scope := [item]] == l.queues[scope := [item]];
    }
  }

  lemma {:induction false} FirstQueue(l: Line)
    requires Sound(l) && l.order != []
    ensures l.order[0] in l.queues && l.queues[l.order[0]] != []
  {
  }

  class FairScheduler {
    const pattern: seq<Mode>
    ghost const weight: nat
    var turn: nat
    var dictation: Line
    var transcription: Line
    var size: nat

    ghost function View(): State
      reads this
    {
      State(weight, turn, dictation, transcription)
    }

    ghost predicate Valid()
      reads this
    {
      SoundState(View()) && size == |Items(View())| && pattern == Pattern(weight)
    }

    constructor (dictationWeight: int)
      ensures Valid() && View() == State(ClampedWeight(dictationWeight), 0, Line([], map[]), Line([], map[]))
    {
      pattern, weight := Pattern(ClampedWeight(dictationWeight)), ClampedWeight(dictationWeight);
      turn, size := 0, 0;
      dictation, transcription := Line([], map[]), Line([], map[]);
    }

    /** Replaces one mode's waiting work. */
    method Put(mode: Mode, line: Line)
      modifies this`dictation, this`transcription
      ensures View() == WithLine(old(View()), mode, line)
    {
      if mode == Dictation {
        dictation := line;
      } else {
        transcription := line;
      }
    }

    method Enlist(job: Job, item: Item)
      requires Valid()
      modifies this
      ensures Valid() && View() == Step(old(View()), Add(ModeOf(job), ScopeOf(job), item))
    {
      hide Sound, SoundState, Items, Enqueue, ScopeOf, ModeOf, WithLine, Pattern;
      var mode, scope := ModeOf(job), ScopeOf(job);
      ghost var before, op := View(), Add(mode, scope, item);
      StepKeeps(before, op);
      SizeAfter(before, op);
      var line := GetLine(mode);
      BucketThenPush(line, scope, item);
      if scope !in line.queues {
        line := Line(line.order + [scope], line.queues[scope := []]);
      }
      line := line.(queues := line.queues[scope := line.queues[scope] + [item]]);
      size := size + 1;
      Put(mode, line);
    }

    method GetLine(mode: Mode) returns (line: Line)
      ensures line == LineOf(View(), mode)
    {
      line := if mode == Dictation then dictation else transcription;
    }

    /** The preferred mode if it has work, or else the other. */
    method Choose() returns (mode: Mode)
      requires Valid() && size > 0
      ensures mode == ServedMode(View()) && !Empty(View())
      ensures LineOf(View(), mode).order != []
    {
      SizeAfter(View(), Take);
      NonEmptyServed(View());
      hide Sound, Items;
      var preferred := pattern[turn % |pattern|];
      var waiting := (if preferred == Dictation then dictation else transcription).order != [];
      mode := if waiting then preferred else if preferred == Dictation then Transcription else Dictation;
    }

    /** Takes the first item of the first scope, which goes to the back if it has more. */
    method Serve(mode: Mode) returns (item: Item)
      requires Sound(LineOf(View(), mode)) && LineOf(View(), mode).order != []
      modifies this`dictation, this`transcription
      ensures View() == WithLine(old(View()), mode, Dequeue(LineOf(old(View()), mode)))
      ensures item == Head(LineOf(old(View()), mode))
    {
      var line := GetLine(mode);
      FirstQueue(line);
      ghost var less := Dequeue(line);
      hide Sound;
      var scope := line.order[0];
      var queue := line.queues[scope];
      var rest := queue[1..];
      if rest != [] {
        line := Line(line.order[1..] + [scope], line.queues[scope := rest]);
      } else {
        line := Line(line.order[1..], line.queues - {scope});
      }
      assert line == less;
      Put(mode, line);
      return queue[0];
    }

    method TakeNext() returns (item: Option<Item>)
      requires Valid()
      modifies this
      ensures Valid() && View() == Step(old(View()), Take)
      ensures item == (match Outcome(old(View()), Take) case Some(service) => Some(service.item) case None => None)
    {
      ghost var before := View();
      StepKeeps(before, Take);
      SizeAfter(before, Take);
      if size == 0 {
        hide Sound, Items, Pattern;
        return None;
      }
      var mode := Choose();
      hide Sound, Items, Pattern, ServedMode, Dequeue, Head;
      var served := Serve(mode);
      turn, size := turn + 1, size - 1;
      return Some(served);
    }
  }

  lemma {:induction false} SizeAfter(s: State, op: Operation)
    requires SoundState(s)
    ensures op.Add? ==> |Items(Step(s, op))| == |Items(s)| + 1
    ensures op.Take? ==>
      (|Items(s)| == 0 <==> Empty(s)) && |Items(Step(s, op))| == |Items(s)| - (if Empty(s) then 0 else 1)
  {
    hide Sound, Items, Step;
    ItemsAreConserved(s, op);
  }
}
