/**
 One linking attempt in the worker. Each step is the code between two awaits; `active` is whether the
 attempt is still the worker's active one.
 */
module VaultWorker {
  import opened Wrappers

  datatype Stage = Consent | StartingLogin | Login | Exchange | WebSession | Vault | Verifying

  function Rank(stage: Stage): nat {
    match stage
    case Consent => 0
    case StartingLogin => 1
    case Login => 2
    case Exchange => 3
    case WebSession => 4
    case Vault => 5
    case Verifying => 6
  }

  /**
   `reading` is the cookie that newCookie is checking, `opening` whether the login tab is being opened,
   `preparing` the unlock address whose scripts are being registered. `tokens` and `keys` are what has
   been forwarded to the Manager.
   */
  datatype Attempt = Attempt(
    active: bool,
    stage: Stage,
    opening: bool,
    reading: Option<nat>,
    baseline: Option<nat>,
    pendingUnlock: Option<nat>,
    preparing: Option<nat>,
    kdi: Option<nat>,
    nonce: nat,
    document: Option<nat>,
    vaultReady: bool,
    tokens: seq<nat>,
    keys: seq<nat>
  )

  function Begun(nonce: nat): Attempt {
    Attempt(true, Consent, false, None, None, None, None, None, nonce, None, false, [], [])
  }

  datatype Check = Authorized | Elsewhere | Threw

  datatype Action =
    | Approve
    | LoginOpened(baseline: Option<nat>)
    | CookieSeen(value: nat)
    | CookieChecked(check: Check)
    | Unlock(kdi: nat)
    | WebSessionReturned
    | BridgePrepared
    | VaultBind(document: nat, kdi: nat)
    | VaultReady(document: nat, kdi: nat, nonce: nat)
    | VaultKeys(document: nat, kdi: nat, nonce: nat, value: nat, valid: bool)
    | RelayError(document: nat, kdi: nat, nonce: nat)
    | CloseExpired
    | BridgeExpired
    | Cleanup

  predicate Enabled(a: Attempt, e: Action) {
    match e
    case LoginOpened(_) => a.opening
    case CookieChecked(_) => a.reading.Some?
    case BridgePrepared => a.preparing.Some?
    case _ => true
  }

  /** The sender is the exact document that was bound, for the exact unlock, and knows the nonce. */
  predicate FromVaultDocument(a: Attempt, document: nat, kdi: nat, nonce: nat) {
    a.active && a.kdi == Some(kdi) && a.document == Some(document) && a.nonce == nonce
  }

  function DoCookieChecked(a: Attempt, check: Check): Attempt
    requires a.reading.Some?
  {
    var read := a.(reading := None);
    match check
    case Threw => read.(active := false)
    case Elsewhere => read
    case Authorized =>
      if !a.active then read else read.(stage := Exchange, baseline := None, tokens := a.tokens + [a.reading.value])
  }

  function DoVaultKeys(a: Attempt, document: nat, kdi: nat, nonce: nat, value: nat, valid: bool): Attempt {
    if !FromVaultDocument(a, document, kdi, nonce) || a.stage != Vault then a
    else if valid then a.(stage := Verifying, keys := a.keys + [value])
    else a.(active := false)
  }

  function Next(a: Attempt, e: Action): Attempt
    requires Enabled(a, e)
  {
    match e
    case Approve => if a.active && a.stage == Consent then a.(stage := StartingLogin, opening := true) else a
    case LoginOpened(baseline) =>
      if a.active then a.(opening := false, stage := Login, baseline := baseline) else a.(opening := false)
    case CookieSeen(value) =>
      if a.active && a.stage == Login && a.reading.None? && a.baseline != Some(value) then a.(reading := Some(value))
      else a
    case CookieChecked(check) => DoCookieChecked(a, check)
    case Unlock(kdi) =>
      if a.active && a.stage == Exchange then a.(stage := WebSession, pendingUnlock := Some(kdi)) else a
    case WebSessionReturned =>
      if a.active && a.stage == WebSession then a.(stage := Vault, preparing := a.pendingUnlock, pendingUnlock := None)
      else a
    case BridgePrepared =>
      if a.active then a.(kdi := a.preparing, preparing := None, vaultReady := false) else a.(preparing := None)
    case VaultBind(document, kdi) =>
      if a.active && a.kdi == Some(kdi) && a.stage == Vault && a.document != Some(document)
      then a.(document := Some(document), vaultReady := false) else a
    case VaultReady(document, kdi, nonce) =>
      if FromVaultDocument(a, document, kdi, nonce) && Rank(a.stage) >= Rank(Vault) then a.(vaultReady := true) else a
    case VaultKeys(document, kdi, nonce, value, valid) => DoVaultKeys(a, document, kdi, nonce, value, valid)
    case RelayError(document, kdi, nonce) =>
      if FromVaultDocument(a, document, kdi, nonce) && a.stage == Vault then a.(active := false) else a
    case CloseExpired => if a.stage == Vault then a.(active := false) else a
    case BridgeExpired => if a.stage == Vault && !a.vaultReady then a.(active := false) else a
    case Cleanup => a.(active := false)
  }

  ghost predicate Run(a: Attempt, events: seq<Action>, b: Attempt)
    decreases |events|
  {
    if events == [] then a == b else Enabled(a, events[0]) && Run(Next(a, events[0]), events[1..], b)
  }

  // ---------------------------------------------------------------- what every step keeps

  /** What has been forwarded follows from the stage, and each wait belongs to one stage. */
  predicate Invariant(a: Attempt) {
    && (a.opening ==> a.stage == StartingLogin)
    && (a.reading.Some? ==> a.stage == Login)
    && (a.preparing.Some? ==> Rank(a.stage) >= Rank(Vault))
    && (a.document.Some? ==> a.kdi.Some?)
    && |a.tokens| == (if Rank(a.stage) >= Rank(Exchange) then 1 else 0)
    && |a.keys| == (if a.stage == Verifying then 1 else 0)
    && (a.kdi.Some? ==> Rank(a.stage) >= Rank(Vault))
  }

  lemma {:induction false} StepKeeps(a: Attempt, e: Action)
    requires Invariant(a) && Enabled(a, e)
    ensures Invariant(Next(a, e))
    ensures Rank(Next(a, e).stage) >= Rank(a.stage)
    ensures a.tokens <= Next(a, e).tokens && a.keys <= Next(a, e).keys
    ensures !a.active ==> !Next(a, e).active && Next(a, e).tokens == a.tokens && Next(a, e).keys == a.keys
  {
  }

  /** Over every run the stage only moves forward, and the token and the keys are forwarded at most once. */
  lemma {:induction false} ForwardsAtMostOnce(nonce: nat, events: seq<Action>, b: Attempt)
    requires Run(Begun(nonce), events, b)
    ensures |b.tokens| <= 1 && |b.keys| <= 1
    ensures b.keys != [] ==> b.tokens != [] && b.stage == Verifying
  {
    RunKeeps(Begun(nonce), events, b);
  }

  lemma {:induction false} RunKeeps(a: Attempt, events: seq<Action>, b: Attempt)
    requires Invariant(a) && Run(a, events, b)
    ensures Invariant(b) && Rank(b.stage) >= Rank(a.stage)
    ensures a.tokens <= b.tokens && a.keys <= b.keys
    decreases |events|
  {
    hide Invariant, Enabled, Next, Rank;
    if events != [] {
      StepKeeps(a, events[0]);
      RunKeeps(Next(a, events[0]), events[1..], b);
    }
  }

  /** An attempt that has been cleaned up forwards nothing more. */
  lemma {:induction false} CleanedUpIsSilent(a: Attempt, events: seq<Action>, b: Attempt)
    requires Invariant(a) && !a.active && Run(a, events, b)
    ensures !b.active && b.tokens == a.tokens && b.keys == a.keys
    decreases |events|
  {
    hide Invariant, Enabled, Next, Rank;
    if events != [] {
      StepKeeps(a, events[0]);
      CleanedUpIsSilent(Next(a, events[0]), events[1..], b);
    }
  }

  /**
   Keys are forwarded exactly when the active attempt waits in the vault stage for them and valid ones
   come from the bound document of the unlock in progress; a token exactly when a cookie that differs
   from the one before the login has passed the check on the focused login tab.
   */
  lemma {:induction false} WhatIsForwarded(a: Attempt, e: Action)
    requires Invariant(a) && Enabled(a, e)
    ensures Next(a, e).keys != a.keys <==>
      (e.VaultKeys? && e.valid && a.stage == Vault && FromVaultDocument(a, e.document, e.kdi, e.nonce))
    ensures Next(a, e).tokens != a.tokens <==> e == CookieChecked(Authorized) && a.active
    ensures e.CookieChecked? ==> a.stage == Login && a.tokens == []
  {
    if e.VaultKeys? {
      assert |a.keys + [e.value]| > |a.keys|;
    }
    if e.CookieChecked? {
      assert |a.tokens + [a.reading.value]| > |a.tokens|;
    }
  }

  // ---------------------------------------------------------------- the handlers

  class LinkAttempt {
    const nonce: nat
    var active: bool
    var stage: Stage
    var opening: bool
    var reading: Option<nat>
    var baseline: Option<nat>
    var pendingUnlock: Option<nat>
    var preparing: Option<nat>
    var kdi: Option<nat>
    var vaultDocument: Option<nat>
    var vaultReady: bool
    ghost var tokens: seq<nat>
    ghost var keys: seq<nat>

    ghost function View(): Attempt
      reads this
    {
      Attempt(active, stage, opening, reading, baseline, pendingUnlock, preparing, kdi, nonce, vaultDocument,
        vaultReady, tokens, keys)
    }

    ghost predicate Valid()
      reads this
    {
      Invariant(View())
    }

    constructor (nonce: nat)
      ensures Valid() && View() == Begun(nonce)
    {
      this.nonce := nonce;
      active, stage, opening, reading, baseline := true, Consent, false, None, None;
      pendingUnlock, preparing, kdi, vaultDocument, vaultReady := None, None, None, None, false;
      tokens, keys := [], [];
    }

    method OnApprove() returns (accepted: bool)
      requires Valid()
      modifies this
      ensures Valid() && View() == Next(old(View()), Approve)
      ensures accepted <==> old(active) && old(stage) == Consent
    {
      StepKeeps(View(), Approve);
      hide Invariant;
      if !active || stage != Consent {
        return false;
      }
      stage, opening := StartingLogin, true;
      return true;
    }

    /** The login tab is open: a cleanup in the meantime has already ended the attempt. */
    method OnLoginOpened(current: Option<nat>)
      requires Valid() && opening
      modifies this
      ensures Valid() && View() == Next(old(View()), LoginOpened(current))
    {
      StepKeeps(View(), LoginOpened(current));
      hide Invariant;
      opening := false;
      if !active {
        return;
      }
      stage, baseline := Login, current;
    }

    /** The beginning of newCookie: takes the reading lock. */
    method NewCookie(value: nat)
      requires Valid()
      modifies this
      ensures Valid() && View() == Next(old(View()), CookieSeen(value))
    {
      StepKeeps(View(), CookieSeen(value));
      hide Invariant;
      if !active || stage != Login || reading.Some? || baseline == Some(value) {
        return;
      }
      reading := Some(value);
    }

    /** The rest of newCookie, after the tab and its window have been looked up. */
    method CookieRead(check: Check) returns (token: Option<nat>)
      requires Valid() && reading.Some?
      modifies this
      ensures Valid() && View() == Next(old(View()), CookieChecked(check))
      ensures tokens == old(tokens) + if token.Some? then [token.value] else []
    {
      StepKeeps(View(), CookieChecked(check));
      hide Invariant;
      var value := reading.value;
      reading := None;
      if check == Threw {
        active := false;
      }
      if check != Authorized || !active {
        return None;
      }
      stage, baseline := Exchange, None;
      tokens := tokens + [value];
      return Some(value);
    }

    method OnUnlock(unlock: nat)
      requires Valid()
      modifies this
      ensures Valid() && View() == Next(old(View()), Unlock(unlock))
    {
      StepKeeps(View(), Unlock(unlock));
      hide Invariant;
      if active && stage == Exchange {
        pendingUnlock, stage := Some(unlock), WebSession;
      }
    }

    /** The rest of finishWebSession; of several in flight only the first one finds the stage unchanged. */
    method FinishWebSession()
      requires Valid()
      modifies this
      ensures Valid() && View() == Next(old(View()), WebSessionReturned)
    {
      StepKeeps(View(), WebSessionReturned);
      hide Invariant;
      if !active || stage != WebSession {
        return;
      }
      preparing, pendingUnlock, stage := pendingUnlock, None, Vault;
    }

    method OnVaultBind(document: nat, unlock: nat) returns (answer: Option<nat>)
      requires Valid()
      modifies this
      ensures Valid() && View() == Next(old(View()), VaultBind(document, unlock))
      ensures answer == if old(active) && old(kdi) == Some(unlock) && old(stage) == Vault then Some(nonce) else None
      ensures answer.Some? ==> vaultDocument == Some(document)
    {
      StepKeeps(View(), VaultBind(document, unlock));
      hide Invariant;
      if !active || kdi != Some(unlock) || stage != Vault {
        return None;
      }
      if vaultDocument != Some(document) {
        vaultDocument, vaultReady := Some(document), false;
      }
      return Some(nonce);
    }

    method OnVaultKeys(document: nat, unlock: nat, claimed: nat, value: nat, valid: bool) returns (ok: bool)
      requires Valid()
      modifies this
      ensures Valid() && View() == Next(old(View()), VaultKeys(document, unlock, claimed, value, valid))
      ensures keys == old(keys) + if ok then [value] else []
      ensures ok ==> stage == Verifying
    {
      StepKeeps(View(), VaultKeys(document, unlock, claimed, value, valid));
      hide Invariant;
      if !active || kdi != Some(unlock) || vaultDocument != Some(document) || nonce != claimed || stage != Vault {
        return false;
      }
      if !valid {
        active := false;
        return false;
      }
      stage := Verifying;
      keys := keys + [value];
      return true;
    }

    /** Cleanup ends the attempt for good. */
    method End()
      requires Valid()
      modifies this
      ensures Valid() && View() == Next(old(View()), Cleanup)
    {
      StepKeeps(View(), Cleanup);
      hide Invariant;
      active := false;
    }
  }
}
