/** The settlement state machine: PENDING -> KEY_GENERATED -> SETTLED. The
    context object holds the current state and the generated key; the state
    objects of the source become the `Status` tag, and `Generate` / `Confirm`
    are the transition table the context's methods are proved against. */
module SettlementState {
  import opened Wrappers

  datatype Status = PENDING | KEY_GENERATED | SETTLED

  /** `getStatus()` of each state, also the value stored in the database. */
  function StatusName(s: Status): string
  {
    match s
    case PENDING => "PENDING"
    case KEY_GENERATED => "KEY_GENERATED"
    case SETTLED => "SETTLED"
  }

  /** Position of a status along the only path the machine can take. */
  function Rank(s: Status): nat
  {
    match s
    case PENDING => 0
    case KEY_GENERATED => 1
    case SETTLED => 2
  }

  /** A state operation either completes or throws with a message. */
  datatype Outcome = Pass | Fail(message: string)

  /** What a context holds: its state and its key (null until generated). */
  datatype Machine = Machine(status: Status, key: Option<string>)

  const Initial: Machine := Machine(PENDING, None)

  // ------------------------------------------------------------ key shape

  predicate IsBase36Digit(c: char)
  {
    '0' <= c <= '9' || 'a' <= c <= 'z'
  }

  predicate IsKeyChar(c: char)
  {
    '0' <= c <= '9' || 'A' <= c <= 'Z'
  }

  /** What `Math.random().toString(36)` renders for a number in [0, 1): "0",
      or "0." followed by base-36 digits. The random number itself is not
      modelled; its rendering is an input. */
  predicate IsRandomRendering(r: string)
  {
    r == "0" || (|r| >= 2 && r[0] == '0' && r[1] == '.' && forall i :: 2 <= i < |r| ==> IsBase36Digit(r[i]))
  }

  /** JavaScript `s.substring(start, end)` for start <= end: both bounds are
      clamped to the length. */
  function Substring(s: string, start: nat, end: nat): (r: string)
    requires start <= end
    ensures |r| <= end - start
  {
    var a := if start <= |s| then start else |s|;
    var b := if end <= |s| then end else |s|;
    s[a..b]
  }

  function UpperChar(c: char): char
  {
    if 'a' <= c <= 'z' then (c as int - 32) as char else c
  }

  /** `toUpperCase()` on ASCII text. */
  function ToUpper(s: string): (r: string)
    ensures |r| == |s|
    ensures forall i :: 0 <= i < |s| ==> r[i] == UpperChar(s[i])
  {
    if s == [] then [] else [UpperChar(s[0])] + ToUpper(s[1..])
  }

  /** The key `PendingState.generateKey` derives from the random rendering:
      at most eight characters, each an upper-case base-36 digit. */
  function RandomKey(rendered: string): (key: string)
    requires IsRandomRendering(rendered)
    ensures |key| <= 8
    ensures forall i :: 0 <= i < |key| ==> IsKeyChar(key[i])
  {
    var digits := Substring(rendered, 2, 10);
    assert forall i :: 0 <= i < |digits| ==> IsBase36Digit(digits[i]);
    ToUpper(digits)
  }

  // ------------------------------------------------------------ transitions

  /** `generateKey()` in each state. */
  function Generate(m: Machine, newKey: string): (Machine, Outcome)
  {
    match m.status
    case PENDING => (Machine(KEY_GENERATED, Some(newKey)), Pass)
    case KEY_GENERATED => (m, Fail("Key already generated."))
    case SETTLED => (m, Fail("Settlement already completed."))
  }

  /** `confirmSettlement(key)` in each state. */
  function Confirm(m: Machine, key: string): (Machine, Outcome)
  {
    match m.status
    case PENDING => (m, Fail("Key must be generated before confirmation."))
    case KEY_GENERATED =>
      if m.key == Some(key) then (m.(status := SETTLED), Pass)
      else (m, Fail("Invalid settlement key."))
    case SETTLED => (m, Fail("Settlement already completed."))
  }

  datatype Event = GenerateKey(newKey: string) | ConfirmKey(key: string)

  function Step(m: Machine, e: Event): Machine
  {
    match e
    case GenerateKey(k) => Generate(m, k).0
    case ConfirmKey(k) => Confirm(m, k).0
  }

  /** The machine after a sequence of calls, each failing call leaving it as
      it was. */
  function Run(m: Machine, events: seq<Event>): Machine
    decreases |events|
  {
    if events == [] then m else Run(Step(m, events[0]), events[1..])
  }

  /** A key is stored exactly when the machine has left PENDING. */
  ghost predicate Consistent(m: Machine)
  {
    m.status == PENDING <==> m.key.None?
  }

  // ------------------------------------------------------------ properties

  /** Confirmation succeeds exactly when a key has been generated and the
      caller supplies it; a failed confirmation changes nothing (so it can be
      retried), and no confirmation ever changes the stored key. */
  lemma ConfirmSucceedsIffKeyMatches(m: Machine, key: string)
    ensures Confirm(m, key).1 == Pass <==> m.status == KEY_GENERATED && m.key == Some(key)
    ensures Confirm(m, key).1 == Pass ==> Confirm(m, key).0 == Machine(SETTLED, m.key)
    ensures Confirm(m, key).1 != Pass ==> Confirm(m, key).0 == m
    ensures Confirm(m, key).0.key == m.key
  {
  }

  /** A wrong key is rejected with "Invalid settlement key." and the right key
      still settles afterwards. */
  lemma WrongKeyThenRetry(stored: string, wrong: string)
    requires wrong != stored
    ensures var m := Machine(KEY_GENERATED, Some(stored));
            && Confirm(m, wrong) == (m, Fail("Invalid settlement key."))
            && Confirm(Confirm(m, wrong).0, stored) == (Machine(SETTLED, Some(stored)), Pass)
  {
  }

  /** SETTLED is terminal: both operations fail with "Settlement already
      completed." and change nothing. */
  lemma SettledIsTerminal(m: Machine, key: string)
    requires m.status == SETTLED
    ensures Generate(m, key) == (m, Fail("Settlement already completed."))
    ensures Confirm(m, key) == (m, Fail("Settlement already completed."))
  {
  }

  /** Every step keeps the status or moves it one place forward. */
  lemma StepForward(m: Machine, e: Event)
    ensures Rank(m.status) <= Rank(Step(m, e).status) <= Rank(m.status) + 1
  {
  }

  /** Along any sequence of calls the status never moves backwards. */
  lemma {:induction false} RunForward(m: Machine, events: seq<Event>)
    ensures Rank(m.status) <= Rank(Run(m, events).status)
    decreases |events|
  {
    if events != [] {
      StepForward(m, events[0]);
      RunForward(Step(m, events[0]), events[1..]);
    }
  }

  /** Once a key is stored (the machine has left PENDING) it is never
      replaced. */
  lemma {:induction false} RunKeySetOnce(m: Machine, events: seq<Event>)
    requires m.status != PENDING
    ensures Run(m, events).key == m.key
    decreases |events|
  {
    if events != [] {
      RunKeySetOnce(Step(m, events[0]), events[1..]);
    }
  }

  /** Any sequence of calls on a new context keeps "key stored iff not
      PENDING". */
  lemma {:induction false} RunConsistent(m: Machine, events: seq<Event>)
    requires Consistent(m)
    ensures Consistent(Run(m, events))
    decreases |events|
  {
    if events != [] {
      RunConsistent(Step(m, events[0]), events[1..]);
    }
  }

  /** A context reaches SETTLED only through a confirmation that supplied the
      key it stores. */
  lemma {:induction false} SettledOnlyWithStoredKey(m: Machine, events: seq<Event>)
    requires Consistent(m) && m.status != SETTLED
    requires Run(m, events).status == SETTLED
    ensures Run(m, events).key.Some?
    ensures exists i :: 0 <= i < |events| && events[i] == ConfirmKey(Run(m, events).key.value)
    decreases |events|
  {
    RunConsistent(m, events);
    var e := events[0];
    var m' := Step(m, e);
    if m'.status == SETTLED {
      assert e.ConfirmKey? && m.key == Some(e.key);
      RunKeySetOnce(m', events[1..]);
      assert events[0] == ConfirmKey(Run(m, events).key.value);
    } else {
      assert Consistent(m');
      SettledOnlyWithStoredKey(m', events[1..]);
      var i :| 0 <= i < |events[1..]| && events[1..][i] == ConfirmKey(Run(m', events[1..]).key.value);
      assert events[i + 1] == events[1..][i];
    }
  }

  // ------------------------------------------------------------ the context

  class SettlementContext {
    var state: Status
    var settlementKey: Option<string>
    const settlementId: int

    function Current(): Machine
      reads this
    {
      Machine(state, settlementKey)
    }

    /** A new context is PENDING with no key. */
    constructor (settlementId: int)
      ensures this.settlementId == settlementId && Current() == Initial
    {
      this.settlementId := settlementId;
      state := PENDING;
      settlementKey := None;
    }

    method SetState(s: Status)
      modifies this
      ensures state == s && settlementKey == old(settlementKey)
    {
      state := s;
    }

    method SetKey(key: string)
      modifies this
      ensures settlementKey == Some(key) && state == old(state)
    {
      settlementKey := Some(key);
    }

    function GetKey(): Option<string>
      reads this
    {
      settlementKey
    }

    function GetStatus(): string
      reads this
    {
      StatusName(state)
    }

    /** `generateKey()`: in PENDING store the key derived from the random
      rendering and move to KEY_GENERATED; otherwise fail without change. */
    method GenerateKey(rendered: string) returns (o: Outcome)
      requires IsRandomRendering(rendered)
      modifies this
      ensures (Current(), o) == Generate(old(Current()), RandomKey(rendered))
    {
      match state
      case PENDING =>
        var key := RandomKey(rendered);
        SetKey(key);
        SetState(KEY_GENERATED);
        o := Pass;
      case KEY_GENERATED =>
        o := Fail("Key already generated.");
      case SETTLED =>
        o := Fail("Settlement already completed.");
    }

    /** `confirmSettlement(key)`: in KEY_GENERATED move to SETTLED when the key
      matches the stored one; otherwise fail without change. */
    method ConfirmSettlement(key: string) returns (o: Outcome)
      modifies this
      ensures (Current(), o) == Confirm(old(Current()), key)
    {
      match state
      case PENDING =>
        o := Fail("Key must be generated before confirmation.");
      case KEY_GENERATED =>
        if GetKey() == Some(key) {
          SetState(SETTLED);
          o := Pass;
        } else {
          o := Fail("Invalid settlement key.");
        }
      case SETTLED =>
        o := Fail("Settlement already completed.");
    }
  }
}
