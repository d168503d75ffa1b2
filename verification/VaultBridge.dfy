/**
 The vault bridge between the page script, the relay script and the worker. The two scripts start in
 either order, the window delivers messages in the order they were posted, and the worker answers
 when and how it likes. Values other than the two scripts' own messages are not part of the window.
 */
module VaultBridge {
  import opened Wrappers

  datatype Message = Ready | Bind(nonce: nat) | Bound(nonce: nat) | Keys(nonce: nat, value: nat) | Closed(nonce: nat)

  datatype Page = Page(installed: bool, nonce: Option<nat>, pending: Option<nat>, closed: bool, disposed: bool)

  datatype Relay = Relay(installed: bool, nonce: Option<nat>, bound: bool, sending: bool, sent: bool, failed: bool,
      disposed: bool)

  const NEW_PAGE := Page(false, None, None, false, false)
  const NEW_RELAY := Relay(false, None, false, false, false, false, false)

  // ---------------------------------------------------------------- the page script

  function FlushMessages(p: Page): seq<Message> {
    if p.nonce.None? || p.disposed then []
    else
      (if p.pending.Some? then [Keys(p.nonce.value, p.pending.value)] else [])
      + (if p.closed then [Closed(p.nonce.value)] else [])
  }

  function Flushed(p: Page): Page {
    if p.nonce.None? || p.disposed then p else p.(pending := None)
  }

  /** The native callback, already filtered: malformed or oversized keys never get here. */
  function Called(p: Page, value: nat): Page {
    if p.disposed || p.pending.Some? then p else p.(pending := Some(value))
  }

  /** A bind for another nonce than the one held is ignored. */
  function Accepts(p: Page, m: Message): bool {
    p.installed && !p.disposed && m.Bind? && (p.nonce.Some? ==> p.nonce == Some(m.nonce))
  }

  class VaultPage {
    var installed: bool
    var nonce: Option<nat>
    var pending: Option<nat>
    var closed: bool
    var disposed: bool

    ghost function View(): Page
      reads this
    {
      Page(installed, nonce, pending, closed, disposed)
    }

    constructor ()
      ensures View() == NEW_PAGE
    {
      installed, nonce, pending, closed, disposed := false, None, None, false, false;
    }

    /** Installs the native interface and asks the relay to bind, in case it is already there. */
    method Install() returns (posted: seq<Message>)
      requires !installed
      modifies this
      ensures View() == old(View()).(installed := true) && posted == [Ready]
    {
      installed := true;
      return [Ready];
    }

    method Flush() returns (posted: seq<Message>)
      modifies this
      ensures View() == Flushed(old(View())) && posted == FlushMessages(old(View()))
    {
      posted := [];
      if nonce.None? || disposed {
        return;
      }
      if pending.Some? {
        var value := pending.value;
        pending := None;
        posted := posted + [Keys(nonce.value, value)];
      }
      if closed {
        posted := posted + [Closed(nonce.value)];
      }
    }

    method SetVaultSharedKeys(value: nat) returns (posted: seq<Message>)
      modifies this
      ensures View() == if Called(old(View()), value) == old(View()) then old(View())
        else Flushed(Called(old(View()), value))
      ensures posted == if Called(old(View()), value) == old(View()) then []
        else FlushMessages(Called(old(View()), value))
    {
      if disposed || pending.Some? {
        return [];
      }
      pending := Some(value);
      posted := Flush();
    }

    method CloseView() returns (posted: seq<Message>)
      modifies this
      ensures View() == Flushed(old(View()).(closed := true)) && posted == FlushMessages(old(View()).(closed := true))
    {
      closed := true;
      posted := Flush();
    }

    method Receive(m: Message) returns (posted: seq<Message>)
      modifies this
      ensures View() == PageAfter(old(View()), m) && posted == PageReply(old(View()), m)
    {
      if !installed || disposed || !m.Bind? || (nonce.Some? && nonce != Some(m.nonce)) {
        return [];
      }
      nonce := Some(m.nonce);
      var rest := Flush();
      return [Bound(m.nonce)] + rest;
    }

    /** The page is left: nothing is posted any more. */
    method PageHidden()
      modifies this
      ensures View() == old(View()).(disposed := true, pending := None, nonce := None)
    {
      disposed, pending, nonce := true, None, None;
    }
  }

  function PageAfter(p: Page, m: Message): Page {
    if Accepts(p, m) then Flushed(p.(nonce := Some(m.nonce))) else p
  }

  /** BOUND goes first, then an early callback. */
  function PageReply(p: Page, m: Message): seq<Message> {
    if Accepts(p, m) then [Bound(m.nonce)] + FlushMessages(p.(nonce := Some(m.nonce))) else []
  }

  // ---------------------------------------------------------------- the relay script

  datatype Command = VaultReady | VaultClosed | VaultKeys(value: nat) | RelayError

  function BindPage(r: Relay): seq<Message> {
    if r.nonce.Some? && !r.disposed then [Bind(r.nonce.value)] else []
  }

  predicate Listens(r: Relay, nonce: nat) {
    r.installed && !r.disposed && !r.failed && r.nonce == Some(nonce)
  }

  function RelayAfter(r: Relay, m: Message): Relay {
    match m
    case Bound(n) => if Listens(r, n) then r.(bound := true) else r
    case Keys(n, _) => if Listens(r, n) && r.bound && !r.sending && !r.sent then r.(sending := true) else r
    case _ => r
  }

  function RelayReply(r: Relay, m: Message): seq<Message> {
    if m.Ready? && r.installed then BindPage(r) else []
  }

  function RelayCommands(r: Relay, m: Message): seq<Command> {
    match m
    case Bound(n) => if Listens(r, n) && !r.bound then [VaultReady] else []
    case Keys(n, value) => if Listens(r, n) && r.bound && !r.sending && !r.sent then [VaultKeys(value)] else []
    case Closed(n) => if Listens(r, n) && r.bound then [VaultClosed] else []
    case _ => []
  }

  function Notice(r: Relay, command: Command): seq<Command> {
    if r.nonce.Some? && !r.disposed && !r.failed then [command] else []
  }

  predicate Reports(r: Relay) {
    r.nonce.Some? && !r.disposed && !r.sent && !r.failed
  }

  function Failed(r: Relay): Relay {
    if Reports(r) then r.(failed := true) else r
  }

  class VaultRelay {
    var installed: bool
    var nonce: Option<nat>
    var bound: bool
    var sending: bool
    var sent: bool
    var failed: bool
    var disposed: bool

    ghost function View(): Relay
      reads this
    {
      Relay(installed, nonce, bound, sending, sent, failed, disposed)
    }

    constructor ()
      ensures View() == NEW_RELAY
    {
      installed, nonce, bound, sending, sent, failed, disposed := false, None, false, false, false, false, false;
    }

    method ReportError() returns (commands: seq<Command>)
      modifies this
      ensures View() == Failed(old(View())) && commands == if Reports(old(View())) then [RelayError] else []
    {
      if nonce.None? || disposed || sent || failed {
        return [];
      }
      failed := true;
      return [RelayError];
    }

    /** A notice to the worker; a reply that is not ok is reported by `ReportError`. */
    method Notify(command: Command) returns (commands: seq<Command>)
      ensures commands == Notice(View(), command)
    {
      if nonce.None? || disposed || failed {
        return [];
      }
      return [command];
    }

    /** The address of the page changed; `closing` if it now ends with #close. */
    method HashChanged(closing: bool) returns (commands: seq<Command>)
      ensures commands == if closing then Notice(View(), VaultClosed) else []
    {
      commands := [];
      if closing {
        commands := Notify(VaultClosed);
      }
    }

    /** The reply to VAULT_BIND. */
    method BindReplied(ok: bool, answer: nat, closing: bool) returns (posted: seq<Message>, commands: seq<Command>)
      modifies this
      ensures View() == if !old(disposed) && ok then old(View()).(nonce := Some(answer)) else old(View())
      ensures posted == if !old(disposed) && ok then BindPage(View()) else []
      ensures commands == if !old(disposed) && ok && closing && !old(failed) then [VaultClosed] else []
    {
      posted, commands := [], [];
      if disposed || !ok {
        return;
      }
      nonce := Some(answer);
      posted := [Bind(answer)];
      commands := HashChanged(closing);
    }

    method Receive(m: Message) returns (posted: seq<Message>, commands: seq<Command>)
      modifies this
      ensures View() == RelayAfter(old(View()), m)
      ensures posted == RelayReply(old(View()), m) && commands == RelayCommands(old(View()), m)
    {
      posted, commands := [], [];
      if installed && !disposed && m.Ready? {
        posted := if nonce.Some? then [Bind(nonce.value)] else [];
        return;
      }
      if !installed || disposed || failed || nonce.None? {
        return;
      }
      match m {
        case Bound(n) =>
          if n == nonce.value && !bound {
            bound := true;
            commands := Notify(VaultReady);
          }
        case Closed(n) =>
          if n == nonce.value && bound {
            commands := Notify(VaultClosed);
          }
        case Keys(n, value) =>
          if n == nonce.value && bound && !sending && !sent {
            sending := true;
            commands := [VaultKeys(value)];
          }
        case _ =>
      }
    }

    /** The reply to VAULT_KEYS; nothing is ever submitted again. */
    method KeysReplied(ok: bool) returns (commands: seq<Command>)
      modifies this
      ensures View() ==
        if old(disposed) then old(View()) else if ok then old(View()).(sent := true) else Failed(old(View()))
      ensures commands == if !ok && Reports(old(View())) then [RelayError] else []
    {
      commands := [];
      if disposed {
        return;
      }
      if ok {
        sent := true;
      } else {
        commands := ReportError();
      }
    }

    method PageHidden()
      modifies this
      ensures View() == old(View()).(disposed := true, nonce := None)
    {
      disposed, nonce := true, None;
    }
  }

  // ---------------------------------------------------------------- the two scripts and the window together

  /**
   `binding` and `waiting`: the reply to VAULT_BIND, to VAULT_KEYS is outstanding. `captured` is the
   first key callback that the page took, `submitted` the keys the relay has sent to the worker, and
   `refusals` counts the replies that were not ok.
   */
  datatype State = State(
    page: Page,
    relay: Relay,
    window: seq<Message>,
    binding: bool,
    waiting: bool,
    captured: Option<nat>,
    submitted: seq<nat>,
    refusals: nat
  )

  const START := State(NEW_PAGE, NEW_RELAY, [], false, false, None, [], 0)

  datatype Action =
    | InstallPage
    | InstallRelay
    | BindReply(ok: bool, nonce: nat)
    | Callback(value: nat)
    | CloseView
    | Deliver
    | NoticeReply(ok: bool)
    | KeysReply(ok: bool)
    | PageHide

  predicate Enabled(s: State, a: Action) {
    match a
    case InstallPage => !s.page.installed
    case InstallRelay => !s.relay.installed
    case BindReply(_, _) => s.binding
    case Callback(_) => s.page.installed
    case CloseView => s.page.installed
    case Deliver => s.window != []
    case NoticeReply(_) => s.relay.installed
    case KeysReply(_) => s.waiting
    case PageHide => true
  }

  function Submitted(commands: seq<Command>): seq<nat> {
    if commands == [] then []
    else (if commands[0].VaultKeys? then [commands[0].value] else []) + Submitted(commands[1..])
  }

  /** Both listeners see the message; what they post goes to the end of the queue. */
  function DoDeliver(s: State): State
    requires s.window != []
  {
    var m := s.window[0];
    var sent := Submitted(RelayCommands(s.relay, m));
    s.(page := PageAfter(s.page, m), relay := RelayAfter(s.relay, m),
       window := s.window[1..] + PageReply(s.page, m) + RelayReply(s.relay, m),
       submitted := s.submitted + sent, waiting := s.waiting || sent != [])
  }

  function DoCallback(s: State, value: nat): State {
    var called := Called(s.page, value);
    if called == s.page then s
    else
      s.(page := Flushed(called), window := s.window + FlushMessages(called),
         captured := if s.captured.Some? then s.captured else Some(value))
  }

  function Refused(s: State, ok: bool): State {
    if ok then s else s.(relay := Failed(s.relay), refusals := s.refusals + 1)
  }

  function Next(s: State, a: Action): State
    requires Enabled(s, a)
  {
    match a
    case InstallPage => s.(page := s.page.(installed := true), window := s.window + [Ready])
    case InstallRelay => s.(relay := s.relay.(installed := true), binding := true)
    case BindReply(ok, nonce) =>
      if s.relay.disposed || !ok then s.(binding := false)
      else s.(binding := false, relay := s.relay.(nonce := Some(nonce)), window := s.window + [Bind(nonce)])
    case Callback(value) => DoCallback(s, value)
    case CloseView =>
      var closed := s.page.(closed := true);
      s.(page := Flushed(closed), window := s.window + FlushMessages(closed))
    case Deliver => DoDeliver(s)
    case NoticeReply(ok) => Refused(s, ok)
    case KeysReply(ok) =>
      if s.relay.disposed then s.(waiting := false)
      else if ok then s.(waiting := false, relay := s.relay.(sent := true))
      else Refused(s.(waiting := false), false)
    case PageHide =>
      s.(page := s.page.(disposed := true, pending := None, nonce := None),
        relay := s.relay.(disposed := true, nonce := None))
  }

  ghost predicate Run(s: State, actions: seq<Action>, t: State)
    decreases |actions|
  {
    if actions == [] then s == t else Enabled(s, actions[0]) && Run(Next(s, actions[0]), actions[1..], t)
  }

  // ---------------------------------------------------------------- the order of messages in the window

  function FirstKeys(w: seq<Message>): Option<nat> {
    if w == [] then None else if w[0].Keys? then Some(w[0].value) else FirstKeys(w[1..])
  }

  /** A BOUND message comes before any keys. */
  predicate BoundFirst(w: seq<Message>) {
    w != [] && (w[0].Bound? || (!w[0].Keys? && BoundFirst(w[1..])))
  }

  lemma {:induction false} FirstKeysAppend(w: seq<Message>, more: seq<Message>)
    ensures FirstKeys(w + more) == if FirstKeys(w).Some? then FirstKeys(w) else FirstKeys(more)
    ensures BoundFirst(w + more) <==> BoundFirst(w) || (FirstKeys(w).None? && BoundFirst(more))
  {
    if w == [] {
      assert w + more == more;
    } else {
      assert (w + more)[1..] == w[1..] + more;
      FirstKeysAppend(w[1..], more);
    }
  }

  lemma {:induction false} BoundIn(w: seq<Message>)
    ensures BoundFirst(w) ==> exists n :: Bound(n) in w
    ensures FirstKeys(w).Some? ==> exists n :: Keys(n, FirstKeys(w).value) in w
  {
    if w != [] {
      BoundIn(w[1..]);
      assert forall m :: m in w[1..] ==> m in w;
      assert w[0] in w;
      if w[0].Bound? {
        assert Bound(w[0].nonce) in w;
      }
      if w[0].Keys? {
        assert Keys(w[0].nonce, w[0].value) in w;
      }
    }
  }

  // ---------------------------------------------------------------- what every step keeps

  predicate Alive(s: State) {
    !s.page.disposed && !s.relay.disposed
  }

  predicate NonceOf(m: Message, nonce: Option<nat>) {
    m.Ready? || (nonce.Some? && m.nonce == nonce.value)
  }

  /** Nonces come from the worker's one reply. */
  ghost predicate NoncesInvariant(s: State) {
    && (s.binding ==> s.relay.nonce.None? && s.relay.installed)
    && (s.relay.nonce.Some? ==> s.relay.installed)
    && (s.page.nonce.Some? ==> s.page.nonce == s.relay.nonce && s.page.installed)
    && (forall m :: m in s.window ==> NonceOf(m, s.relay.nonce))
    && (s.page.pending.Some? ==> s.page.nonce.None?)
    && (forall m :: m in s.window ==> m.Ready? || m.Bind? || s.page.nonce.Some?)
  }

  /** While the page is unbound, a bind or the request for one is on its way. */
  ghost predicate BindingInvariant(s: State) {
    && (s.relay.nonce.Some? && s.page.installed && s.page.nonce.None? ==>
      Ready in s.window || Bind(s.relay.nonce.value) in s.window)
    && (s.page.nonce.Some? && !s.relay.bound && !s.relay.failed ==> BoundFirst(s.window))
    && (s.relay.bound ==> s.relay.nonce.Some?)
  }

  /** Where the first captured keys are until the relay fails. */
  ghost predicate KeysInvariant(s: State) {
    && (s.captured.None? ==> s.page.pending.None? && FirstKeys(s.window).None? && s.submitted == [])
    && (s.captured.Some? && !s.relay.failed && s.submitted == [] ==>
          if s.page.nonce.None? then s.page.pending == s.captured && FirstKeys(s.window).None?
          else FirstKeys(s.window) == s.captured)
  }

  /** Keys are submitted at most once, whatever the replies. */
  predicate SubmissionInvariant(s: State) {
    && |s.submitted| <= 1
    && (s.submitted != [] <==> s.relay.sending)
    && (s.relay.sent ==> s.submitted != [])
    && (s.relay.failed ==> s.refusals > 0)
    && (s.waiting ==> s.submitted != [])
    && (s.page.disposed <==> s.relay.disposed)
  }

  ghost predicate Invariant(s: State) {
    && SubmissionInvariant(s)
    && (s.submitted != [] ==> s.captured == Some(s.submitted[0]))
    && (Alive(s) ==> NoncesInvariant(s) && BindingInvariant(s) && KeysInvariant(s))
  }

  lemma {:induction false} CalledKeeps(s: State, value: nat)
    requires Invariant(s) && s.page.installed && Alive(s)
    ensures Invariant(DoCallback(s, value))
  {
    FirstKeysAppend(s.window, FlushMessages(Called(s.page, value)));
    FlushOrder(Called(s.page, value));
  }

  lemma {:induction false} FlushOrder(p: Page)
    ensures FirstKeys(FlushMessages(p)) == if p.nonce.None? || p.disposed then None else p.pending
    ensures !BoundFirst(FlushMessages(p))
    ensures p.nonce.Some? && !p.disposed ==> FirstKeys([Bound(p.nonce.value)] + FlushMessages(p)) == p.pending
    ensures p.nonce.Some? && !p.disposed ==> BoundFirst([Bound(p.nonce.value)] + FlushMessages(p))
    ensures forall m :: m in FlushMessages(p) ==> NonceOf(m, p.nonce) && (m.Keys? || m.Closed?)
  {
  }

  lemma {:induction false} CloseKeeps(s: State)
    requires Invariant(s) && s.page.installed && Alive(s)
    ensures Invariant(Next(s, CloseView))
  {
    var closed := s.page.(closed := true);
    FirstKeysAppend(s.window, FlushMessages(closed));
    FlushOrder(closed);
  }

  lemma {:induction false} PostKeeps(s: State, m: Message)
    requires m.Ready? || m.Bind?
    ensures FirstKeys(s.window + [m]) == FirstKeys(s.window) && (BoundFirst(s.window + [m]) <==> BoundFirst(s.window))
  {
    FirstKeysAppend(s.window, [m]);
    assert [m][1..] == [];
  }

  lemma {:induction false} InstallPageKeeps(s: State)
    requires Invariant(s) && !s.page.installed && Alive(s)
    ensures Invariant(Next(s, InstallPage))
  {
    PostKeeps(s, Ready);
    assert Ready in Next(s, InstallPage).window;
  }

  lemma {:induction false} BindReplyKeeps(s: State, ok: bool, nonce: nat)
    requires Invariant(s) && s.binding && Alive(s)
    ensures Invariant(Next(s, BindReply(ok, nonce)))
  {
    PostKeeps(s, Bind(nonce));
    if ok {
      var t := Next(s, BindReply(ok, nonce));
      assert t.window[|s.window|] == Bind(nonce);
      assert forall m :: m in s.window ==> m.Ready?;
    }
  }

  lemma {:induction false} SubmittedOnce(r: Relay, m: Message)
    ensures Submitted(RelayCommands(r, m)) ==
      if m.Keys? && Listens(r, m.nonce) && r.bound && !r.sending && !r.sent then [m.value] else []
  {
    if m.Keys? {
      assert [VaultKeys(m.value)][1..] == [];
    }
    assert [VaultReady][1..] == [] && [VaultClosed][1..] == [];
  }

  /** The head of the queue is gone and what the listeners posted is at its end. */
  lemma {:induction false} Dequeued(s: State, posted: seq<Message>)
    requires s.window != []
    ensures FirstKeys(s.window[1..] + posted) ==
      if FirstKeys(s.window[1..]).Some? then FirstKeys(s.window[1..]) else FirstKeys(posted)
    ensures !s.window[0].Keys? ==> FirstKeys(s.window[1..]) == FirstKeys(s.window)
    ensures BoundFirst(s.window[1..] + posted)
      <==> BoundFirst(s.window[1..]) || (FirstKeys(s.window[1..]).None? && BoundFirst(posted))
    ensures !s.window[0].Bound? && !s.window[0].Keys? ==> (BoundFirst(s.window[1..]) <==> BoundFirst(s.window))
    ensures forall m :: m in s.window[1..] + posted <==> m in s.window[1..] || m in posted
    ensures forall m :: m in s.window && m != s.window[0] ==> m in s.window[1..]
  {
    FirstKeysAppend(s.window[1..], posted);
  }

  lemma {:induction false} OnlyBinds(posted: seq<Message>)
    requires |posted| <= 1 && forall m :: m in posted ==> m.Bind?
    ensures FirstKeys(posted) == None && !BoundFirst(posted)
  {
    if posted != [] {
      assert posted[0] in posted && posted[1..] == [];
    }
  }

  lemma {:induction false} ReadyDelivered(s: State)
    requires Invariant(s) && Alive(s) && s.window != [] && s.window[0].Ready?
    ensures Invariant(DoDeliver(s))
  {
    var posted := if s.relay.installed then BindPage(s.relay) else [];
    OnlyBinds(posted);
    Dequeued(s, posted);
    SubmittedOnce(s.relay, s.window[0]);
    assert s.window[1..] + [] + posted == s.window[1..] + posted;
    hide FirstKeys, BoundFirst, RelayCommands, Submitted;
  }

  lemma {:induction false} BindDelivered(s: State)
    requires Invariant(s) && Alive(s) && s.window != [] && s.window[0].Bind?
    ensures Invariant(DoDeliver(s))
  {
    var m := s.window[0];
    var posted := PageReply(s.page, m);
    Dequeued(s, posted);
    SubmittedOnce(s.relay, m);
    FlushOrder(s.page.(nonce := Some(m.nonce)));
    BoundIn(s.window);
    assert s.window[1..] + posted + [] == s.window[1..] + posted;
    assert m in s.window;
  }

  lemma {:induction false} PageMessageDelivered(s: State)
    requires Invariant(s) && Alive(s) && s.window != []
      && (s.window[0].Bound? || s.window[0].Keys? || s.window[0].Closed?)
    ensures Invariant(DoDeliver(s))
  {
    var m := s.window[0];
    Dequeued(s, []);
    SubmittedOnce(s.relay, m);
    assert s.window[1..] + [] + [] == s.window[1..] + [] == s.window[1..];
    assert m in s.window;
  }

  lemma {:induction false} DisposedKeeps(s: State, a: Action)
    requires Invariant(s) && Enabled(s, a) && !Alive(s)
    ensures !Alive(Next(s, a)) && Invariant(Next(s, a))
    ensures Next(s, a).submitted == s.submitted
  {
    if a.Deliver? {
      SubmittedOnce(s.relay, s.window[0]);
    }
  }

  lemma {:induction false} ReplyKeeps(s: State, a: Action)
    requires Invariant(s) && Enabled(s, a) && (a.NoticeReply? || a.KeysReply? || a.PageHide? || a.InstallRelay?)
    ensures Invariant(Next(s, a))
  {
  }

  lemma {:induction false} StepKeeps(s: State, a: Action)
    requires Invariant(s) && Enabled(s, a)
    ensures Invariant(Next(s, a))
  {
    hide Invariant;
    if !Alive(s) {
      DisposedKeeps(s, a);
    } else {
      match a
      case InstallPage => InstallPageKeeps(s);
      case BindReply(ok, nonce) => BindReplyKeeps(s, ok, nonce);
      case Callback(value) => CalledKeeps(s, value);
      case CloseView => CloseKeeps(s);
      case Deliver =>
        match s.window[0] {
          case Ready => ReadyDelivered(s);
          case Bind(_) => BindDelivered(s);
          case _ => PageMessageDelivered(s);
        }
      case _ => ReplyKeeps(s, a);
    }
  }

  lemma {:induction false} RunKeeps(s: State, actions: seq<Action>, t: State)
    requires Invariant(s) && Run(s, actions, t)
    ensures Invariant(t)
    decreases |actions|
  {
    hide Invariant, Enabled, Next;
    if actions != [] {
      StepKeeps(s, actions[0]);
      RunKeeps(Next(s, actions[0]), actions[1..], t);
    }
  }

  lemma {:induction false} StartIsSound()
    ensures Invariant(START)
  {
  }

  // ---------------------------------------------------------------- the guarantees

  /** Both scripts are installed, the worker has answered the bind, and every message is delivered. */
  predicate Quiet(s: State) {
    s.page.installed && s.relay.installed && !s.binding && s.window == []
  }

  /** In either start order the scripts end up bound once the worker has accepted the relay. */
  lemma {:induction false} ScriptsGetBound(actions: seq<Action>, t: State)
    requires Run(START, actions, t) && Alive(t) && Quiet(t) && t.relay.nonce.Some?
    ensures t.page.nonce == t.relay.nonce
    ensures t.relay.bound || t.relay.failed
  {
    hide Run;
    StartIsSound();
    RunKeeps(START, actions, t);
  }

  /** Giving up is final: a relay that has failed before the keys reached it never submits them. */
  lemma {:induction false} FailedNeverSubmits(s: State, actions: seq<Action>, t: State)
    requires s.relay.failed && s.submitted == [] && Run(s, actions, t)
    ensures t.relay.failed && t.submitted == []
    decreases |actions|
  {
    if actions != [] {
      if actions[0].Deliver? {
        SubmittedOnce(s.relay, s.window[0]);
      }
      FailedNeverSubmits(Next(s, actions[0]), actions[1..], t);
    }
  }

  /** In the course of `actions` a notice is refused while the relay listens and has submitted no keys yet. */
  predicate RefusedEarly(s: State, actions: seq<Action>)
    decreases |actions|
  {
    && actions != [] && Enabled(s, actions[0])
    && ((actions[0] == NoticeReply(false) && Reports(s.relay) && s.submitted == [])
      || RefusedEarly(Next(s, actions[0]), actions[1..]))
  }

  /** One step: the relay gives up without having submitted the keys exactly if a notice is refused now. */
  lemma {:induction false} StepGivesUpIff(s: State, a: Action)
    requires Invariant(s) && Enabled(s, a)
    ensures Next(s, a).relay.failed && Next(s, a).submitted == [] && !s.relay.failed
      ==> a == NoticeReply(false) && Reports(s.relay) && s.submitted == []
    ensures a == NoticeReply(false) && Reports(s.relay) && s.submitted == [] ==>
      Next(s, a).relay.failed && Next(s, a).submitted == []
    ensures Next(s, a).submitted == [] ==> s.submitted == []
  {
    hide NoncesInvariant, BindingInvariant, KeysInvariant;
    if a.Deliver? {
      SubmittedOnce(s.relay, s.window[0]);
    }
  }

  lemma {:induction false} GivesUpIff(s: State, actions: seq<Action>, t: State)
    requires Invariant(s) && Run(s, actions, t)
    ensures t.relay.failed && t.submitted == [] <==> (s.relay.failed && s.submitted == []) || RefusedEarly(s, actions)
    decreases |actions|
  {
    hide Invariant, Enabled, Next;
    if actions != [] {
      StepKeeps(s, actions[0]);
      StepGivesUpIff(s, actions[0]);
      GivesUpIff(Next(s, actions[0]), actions[1..], t);
      if s.relay.failed && s.submitted == [] {
        FailedNeverSubmits(s, actions, t);
      }
    }
  }

  /**
   Exactly which callbacks are lost: under every interleaving, once things are quiet the first key
   callback has been submitted to the worker, exactly once, if and only if no notice was refused before
   the relay had the keys.
   */
  lemma {:induction false} NoCallbackIsLost(actions: seq<Action>, t: State)
    requires Run(START, actions, t) && Alive(t) && Quiet(t) && t.relay.nonce.Some? && t.captured.Some?
    ensures t.submitted == if RefusedEarly(START, actions) then [] else [t.captured.value]
    ensures t.submitted == [] ==> t.relay.failed && t.refusals > 0
  {
    hide Run, RefusedEarly;
    StartIsSound();
    RunKeeps(START, actions, t);
    GivesUpIff(START, actions, t);
    assert FirstKeys([]) == None;
  }

  /** Keys are submitted at most once and only as captured, in every state of every run. */
  lemma {:induction false} KeysAreSubmittedAtMostOnce(actions: seq<Action>, t: State)
    requires Run(START, actions, t)
    ensures t.submitted == [] || (t.captured.Some? && t.submitted == [t.captured.value])
  {
    hide Run;
    StartIsSound();
    RunKeeps(START, actions, t);
  }

  // ---------------------------------------------------------------- a refusal can lose keys that were fired in time

  const OPEN_PAGE := NEW_PAGE.(installed := true)
  const OPEN_RELAY := NEW_RELAY.(installed := true)

  /** Quiet and bound, with keys captured before the binding and never submitted. */
  const KEYS_LOST := State(OPEN_PAGE.(nonce := Some(1)), OPEN_RELAY.(nonce := Some(1), bound := true, failed := true),
    [], false, false, Some(7), [], 1)

  ghost predicate CanLose(s: State) {
    exists actions :: Run(s, actions, KEYS_LOST)
  }

  lemma {:induction false} LosesAfter(s: State, a: Action, next: State)
    requires Enabled(s, a) && Next(s, a) == next && CanLose(next)
    ensures CanLose(s)
  {
    hide Enabled, Next;
    var actions :| Run(next, actions, KEYS_LOST);
    assert ([a] + actions)[1..] == actions;
    assert Run(s, [a] + actions, KEYS_LOST);
  }

  /** A delivery that submits nothing. */
  lemma {:induction false} LosesAfterDelivery(s: State, rest: seq<Message>, posted: seq<Message>, next: State)
    requires s.window != [] && s.window[1..] == rest
    requires PageReply(s.page, s.window[0]) + RelayReply(s.relay, s.window[0]) == posted
    requires Submitted(RelayCommands(s.relay, s.window[0])) == []
    requires next == s.(page := PageAfter(s.page, s.window[0]), relay := RelayAfter(s.relay, s.window[0]),
      window := rest + posted)
    requires CanLose(next)
    ensures CanLose(s)
  {
    assert rest + PageReply(s.page, s.window[0]) + RelayReply(s.relay, s.window[0]) == rest + posted;
    assert s.submitted + [] == s.submitted;
    assert DoDeliver(s) == next;
    hide CanLose;
    LosesAfter(s, Deliver, next);
  }

  lemma {:induction false} LosesOnceBinding(s: State)
    requires s == State(OPEN_PAGE.(nonce := Some(1)), OPEN_RELAY.(nonce := Some(1)), [Bind(1), Bound(1), Keys(1, 7)],
      false, false, Some(7), [], 0)
    ensures CanLose(s)
  {
    var s1 := s.(window := [Bound(1), Keys(1, 7), Bound(1)]);
    var s2 := s1.(relay := s1.relay.(bound := true), window := [Keys(1, 7), Bound(1)]);
    var s3 := s2.(relay := s2.relay.(failed := true), refusals := 1);
    var s4 := s3.(window := [Bound(1)]);
    assert Run(KEYS_LOST, [], KEYS_LOST);
    hide CanLose;
    LosesAfterDelivery(s4, [], [], KEYS_LOST);
    LosesAfterDelivery(s3, [Bound(1)], [], s4);
    LosesAfter(s2, NoticeReply(false), s3);
    LosesAfterDelivery(s1, [Keys(1, 7), Bound(1)], [], s2);
    LosesAfterDelivery(s, [Bound(1), Keys(1, 7)], [Bound(1)], s1);
  }

  lemma {:induction false} LosesWhenCaptured(s: State)
    requires s == State(OPEN_PAGE.(pending := Some(7)), OPEN_RELAY, [Ready], true, false, Some(7), [], 0)
    ensures CanLose(s)
  {
    hide CanLose;
    var s1 := s.(binding := false, relay := OPEN_RELAY.(nonce := Some(1)), window := [Ready, Bind(1)]);
    var s2 := s1.(window := [Bind(1), Bind(1)]);
    var s3 := s2.(page := OPEN_PAGE.(nonce := Some(1)), window := [Bind(1), Bound(1), Keys(1, 7)]);
    LosesOnceBinding(s3);
    LosesAfterDelivery(s2, [Bind(1)], [Bound(1), Keys(1, 7)], s3);
    LosesAfterDelivery(s1, [Bind(1)], [Bind(1)], s2);
    assert s.window + [Bind(1)] == s1.window;
    LosesAfter(s, BindReply(true, 1), s1);
  }

  /** The worker refuses the readiness notice while keys fired before the binding are still in the window. */
  lemma {:induction false} RefusalLosesKeys()
    ensures exists actions :: Run(START, actions, KEYS_LOST)
    ensures Alive(KEYS_LOST) && Quiet(KEYS_LOST) && KEYS_LOST.relay.bound && KEYS_LOST.captured.Some?
      && KEYS_LOST.submitted == []
  {
    var s0 := START.(page := OPEN_PAGE, window := [Ready]);
    var s1 := s0.(relay := OPEN_RELAY, binding := true);
    var s2 := s1.(page := OPEN_PAGE.(pending := Some(7)), captured := Some(7));
    LosesWhenCaptured(s2);
    assert s1.window + [] == s1.window;
    assert START.window + [Ready] == s0.window;
    LosesAfter(s1, Callback(7), s2);
    LosesAfter(s0, InstallRelay, s1);
    LosesAfter(START, InstallPage, s0);
  }
}
