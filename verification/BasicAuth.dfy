/**
 Rotating a Basic Auth password with a way back (src/basic_auth_credential.rs, OCPP A01.FR.04): one
 stored record per network slot holds the password in force and the one before it until the rotation
 is confirmed or rolled back.
 */
module BasicAuth {
  import opened Options
  import opened Storages
  import opened Strings

  type Password = nat

  datatype Record = Record(current: Password, previous: Option<Password>)

  // --- Labels ------------------------------------------------------------------------------------

  function Digits(n: nat): (s: string)
    ensures s != "" && s[0] != '-'
  {
    if n < 10 then ["0123456789"[n]] else Digits(n / 10) + ["0123456789"[n % 10]]
  }

  /** How Rust prints an `i32`. */
  function Decimal(i: int): string {
    if i < 0 then "-" + Digits(-i) else Digits(i)
  }

  const PREFIX := "basic-auth-password/"

  function Label(slot: int): string {
    PREFIX + Decimal(slot)
  }

  /** The number a decimal text stands for. */
  function Number(s: string): int {
    if s == "" then 0
    else if s[0] == '-' then -Magnitude(s[1..])
    else Magnitude(s)
  }

  function Magnitude(digits: string): int {
    if digits == "" then 0
    else 10 * Magnitude(digits[..|digits| - 1]) + (digits[|digits| - 1] as int - '0' as int)
  }

  lemma DigitAt(n: nat)
    requires n < 10
    ensures "0123456789"[n] as int - '0' as int == n
  {
  }

  lemma {:induction false} DigitsReadBack(n: nat)
    ensures Magnitude(Digits(n)) == n && (Digits(n)[0] == '0' <==> n == 0)
  {
    DigitAt(n % 10);
    if n < 10 {
      assert Digits(n)[..0] == "";
    } else {
      DigitsReadBack(n / 10);
      assert Digits(n)[..|Digits(n)| - 1] == Digits(n / 10);
    }
  }

  lemma NumberOfDigits(digits: string)
    requires digits != "" && digits[0] != '-'
    ensures Number(digits) == Magnitude(digits) && Number("-" + digits) == -Magnitude(digits)
  {
    assert ("-" + digits)[1..] == digits;
  }

  lemma DecimalReadsBack(i: int)
    ensures var text := Decimal(i);
            text != "" && Number(text) == i && (text[0] == '0' ==> i == 0) && (text[0] == '-' <==> i < 0)
  {
    var magnitude := if i < 0 then -i else i;
    DigitsReadBack(magnitude);
    NumberOfDigits(Digits(magnitude));
  }

  /** A label is the fixed prefix followed by the slot in decimal, without leading zeros. */
  lemma LabelReadsBack(slot: int)
    ensures |PREFIX| == 20 && PREFIX == "basic-auth-password/"
    ensures PREFIX < Label(slot) && Number(Label(slot)[|PREFIX|..]) == slot
    ensures Label(slot)[|PREFIX|] == '0' ==> slot == 0
  {
    DecimalReadsBack(slot);
    Behind(PREFIX, Decimal(slot));
  }

  lemma Behind(p: string, x: string)
    requires x != ""
    ensures (p + x)[|p|..] == x && (p + x)[|p|] == x[0] && p < p + x
  {
  }

  /** Two slots share a label only if they are the same slot. */
  lemma LabelsDiffer(a: int, b: int)
    ensures Label(a) == Label(b) <==> a == b
  {
    if Label(a) == Label(b) {
      PrefixCancels(PREFIX, Decimal(a), Decimal(b));
      DecimalReadsBack(a);
      DecimalReadsBack(b);
    }
  }

  // --- The operations ----------------------------------------------------------------------------

  type Credentials = map<string, Record>

  function Stored(c: Credentials, slot: int): Option<Record> {
    if Label(slot) in c then Some(c[Label(slot)]) else None
  }

  /** A failed read looks like no record. */
  function Loaded(c: Credentials, slot: int, io: Io): Option<Record> {
    if io.readOk then Stored(c, slot) else None
  }

  function Saved(c: Credentials, slot: int, r: Record, io: Io): Credentials {
    if io.writeOk then c[Label(slot) := r] else c
  }

  function Rotated(c: Credentials, slot: int, password: Password, io: Io): Credentials {
    var held := Loaded(c, slot, io);
    Saved(c, slot, Record(password, if held.Some? then Some(held.value.current) else None), io)
  }

  function Confirmed(c: Credentials, slot: int, io: Io): Credentials {
    var held := Loaded(c, slot, io);
    if held.None? || held.value.previous.None? then c
    else Saved(c, slot, held.value.(previous := None), io)
  }

  predicate CanRollBack(c: Credentials, slot: int, io: Io) {
    var held := Loaded(c, slot, io);
    held.Some? && held.value.previous.Some? && io.writeOk
  }

  function RolledBack(c: Credentials, slot: int, io: Io): Credentials {
    if CanRollBack(c, slot, io)
    then c[Label(slot) := Record(Stored(c, slot).value.previous.value, None)] else c
  }

  class KeyStore {
    var credentials: Credentials

    constructor ()
      ensures credentials == map[]
    {
      credentials := map[];
    }

    method Load(slot: int, io: Io) returns (record: Option<Record>)
      ensures record == Loaded(credentials, slot, io)
    {
      record := None;
      if io.readOk && Label(slot) in credentials {
        record := Some(credentials[Label(slot)]);
      }
    }

    method Store(slot: int, record: Record, io: Io) returns (ok: bool)
      modifies this
      ensures ok == io.writeOk && credentials == Saved(old(credentials), slot, record, io)
    {
      if io.writeOk {
        credentials := credentials[Label(slot) := record];
      }
      ok := io.writeOk;
    }

    method Rotate(slot: int, password: Password, io: Io) returns (ok: bool)
      modifies this
      ensures ok == io.writeOk && credentials == Rotated(old(credentials), slot, password, io)
      ensures ok ==> Label(slot) in credentials && credentials[Label(slot)].current == password
    {
      var held := Load(slot, io);
      var previous := if held.Some? then Some(held.value.current) else None;
      ok := Store(slot, Record(password, previous), io);
    }

    /** The password in force, if one can be read. */
    method Current(slot: int, io: Io) returns (password: Option<Password>)
      ensures password.Some? <==> io.readOk && Label(slot) in credentials
      ensures password.Some? ==> password.value == credentials[Label(slot)].current
    {
      var held := Load(slot, io);
      password := if held.Some? then Some(held.value.current) else None;
    }

    method Confirm(slot: int, io: Io)
      modifies this
      ensures credentials == Confirmed(old(credentials), slot, io)
    {
      var held := Load(slot, io);
      if held.None? || held.value.previous.None? {
        return;
      }
      var ok := Store(slot, held.value.(previous := None), io);
    }

    method Rollback(slot: int, io: Io) returns (happened: bool)
      modifies this
      ensures happened == CanRollBack(old(credentials), slot, io)
      ensures credentials == RolledBack(old(credentials), slot, io)
    {
      var held := Load(slot, io);
      if held.None? || held.value.previous.None? {
        return false;
      }
      happened := Store(slot, Record(held.value.previous.value, None), io);
    }
  }

  // --- Runs, watching one slot -------------------------------------------------------------------

  datatype Step =
    | Rotate(slot: int, password: Password, io: Io)
    | Confirm(slot: int, io: Io)
    | Rollback(slot: int, io: Io)
    | Reboot

  /**
   What happened to one slot, by the operations alone: rotations written and rollbacks done, the password
   put in force last, the one a rollback would go back to, the passwords a dial has proven, whether the
   latest rotation has been confirmed or rolled back, and whether that held before every rotation.
   */
  datatype History = History(
    rotations: nat,
    rollbacks: nat,
    inForce: Option<Password>,
    before: Option<Password>,
    proven: set<Password>,
    settled: bool,
    disciplined: bool)

  datatype State = State(credentials: Credentials, history: History)

  const START := State(map[], History(0, 0, None, None, {}, true, true))

  function StoreNext(c: Credentials, step: Step): Credentials {
    match step
    case Rotate(slot, password, io) => Rotated(c, slot, password, io)
    case Confirm(slot, io) => Confirmed(c, slot, io)
    case Rollback(slot, io) => RolledBack(c, slot, io)
    case Reboot => c
  }

  function HistoryNext(h: History, step: Step): History {
    match step
    case Rotate(slot, password, io) =>
      if !io.writeOk then h
      else History(h.rotations + 1, h.rollbacks, Some(password), if io.readOk then h.inForce else None,
                   h.proven, false, h.disciplined && h.settled)
    case Confirm(_, io) =>
      if h.inForce.None? then h
      else h.(before := if io.readOk && io.writeOk then None else h.before,
              proven := h.proven + {h.inForce.value}, settled := true)
    case Rollback(slot, io) =>
      if h.before.Some? && io.readOk && io.writeOk
      then h.(rollbacks := h.rollbacks + 1, inForce := h.before, before := None, settled := true) else h
    case Reboot => h
  }

  function Next(s: State, step: Step, watched: int): State {
    State(StoreNext(s.credentials, step),
          if !step.Reboot? && step.slot == watched then HistoryNext(s.history, step) else s.history)
  }

  function Execute(s: State, steps: seq<Step>, watched: int): State
    decreases |steps|
  {
    if steps == [] then s else Execute(Next(s, steps[0], watched), steps[1..], watched)
  }

  /** An operation on one slot leaves every other slot's record alone. */
  lemma SlotsAreIndependent(c: Credentials, step: Step, other: int)
    requires step.Reboot? || step.slot != other
    ensures Stored(StoreNext(c, step), other) == Stored(c, other)
  {
    if !step.Reboot? {
      LabelsDiffer(step.slot, other);
    }
  }

  /** The record stored is what the operations on the slot add up to. */
  predicate Inv(held: Option<Record>, h: History) {
    && held == (if h.inForce.None? then None else Some(Record(h.inForce.value, h.before)))
    && (h.inForce.None? ==> h.before.None?)
    && h.rollbacks + (if h.before.Some? then 1 else 0) <= h.rotations
    && (h.disciplined ==>
          && (h.before.Some? ==> h.before.value in h.proven)
          && (h.inForce.Some? && h.settled ==> h.inForce.value in h.proven))
  }

  lemma StepKeepsInv(s: State, step: Step, watched: int)
    requires Inv(Stored(s.credentials, watched), s.history)
    ensures Inv(Stored(Next(s, step, watched).credentials, watched), Next(s, step, watched).history)
  {
    if step.Reboot? || step.slot != watched {
      SlotsAreIndependent(s.credentials, step, watched);
    }
  }

  lemma {:induction false} RunKeepsInv(s: State, steps: seq<Step>, watched: int)
    requires Inv(Stored(s.credentials, watched), s.history)
    ensures Inv(Stored(Execute(s, steps, watched).credentials, watched), Execute(s, steps, watched).history)
    decreases |steps|
  {
    if steps != [] {
      StepKeepsInv(s, steps[0], watched);
      RunKeepsInv(Next(s, steps[0], watched), steps[1..], watched);
    }
  }

  /**
   After any run over any slots, with reads and writes failing at will, a slot holds exactly the password
   of its latest written rotation, or the one before it once that was rolled back, and beside it the way
   back there is: none after a written confirmation, a rollback, or a rotation over an unreadable record.
   */
  lemma SlotFollowsOperations(steps: seq<Step>, slot: int)
    ensures var e := Execute(START, steps, slot);
            Stored(e.credentials, slot) ==
            if e.history.inForce.None? then None else Some(Record(e.history.inForce.value, e.history.before))
  {
    RunKeepsInv(START, steps, slot);
  }

  /**
   After any such run: a rollback succeeds exactly if there is a way back and storage works; it puts back
   exactly the password in force before the slot's latest rotation and cannot succeed again, there were
   never more rollbacks than rotations, and if every rotation was confirmed or rolled back before the
   next one, it lands on a password a dial had proven.
   */
  lemma RollbackRestores(steps: seq<Step>, slot: int, io: Io)
    ensures var e := Execute(START, steps, slot);
            && (CanRollBack(e.credentials, slot, io) <==> e.history.before.Some? && io.readOk && io.writeOk)
            && e.history.rollbacks <= e.history.rotations
    ensures var e := Execute(START, steps, slot);
            CanRollBack(e.credentials, slot, io) ==>
              var after := RolledBack(e.credentials, slot, io);
              && Stored(after, slot) == Some(Record(e.history.before.value, None))
              && !CanRollBack(after, slot, Io(true, true))
              && e.history.rollbacks < e.history.rotations
              && (e.history.disciplined ==> e.history.before.value in e.history.proven)
  {
    RunKeepsInv(START, steps, slot);
  }

  /** A written rotation puts the new password in force, and any dial that can read gets it. */
  lemma RotationTakesEffect(c: Credentials, slot: int, password: Password, io: Io)
    requires io.writeOk
    ensures Stored(Rotated(c, slot, password, io), slot).Some?
    ensures Stored(Rotated(c, slot, password, io), slot).value.current == password
  {
  }

  /** A confirmation that reads and writes removes the way back and keeps the password in force. */
  lemma ConfirmationIsFinal(c: Credentials, slot: int)
    requires Stored(c, slot).Some?
    ensures var after := Confirmed(c, slot, Io(true, true));
            && Stored(after, slot) == Some(Record(Stored(c, slot).value.current, None))
            && forall io :: !CanRollBack(after, slot, io)
  {
  }

  /** A written rotation leaves a way back exactly if there was a password before it and it could be read. */
  lemma WayBackIff(c: Credentials, slot: int, password: Password, io: Io)
    requires io.writeOk
    ensures CanRollBack(Rotated(c, slot, password, io), slot, Io(true, true))
            <==> io.readOk && Stored(c, slot).Some?
    ensures CanRollBack(Rotated(c, slot, password, io), slot, Io(true, true)) ==>
              Stored(RolledBack(Rotated(c, slot, password, io), slot, Io(true, true)), slot)
              == Some(Record(Stored(c, slot).value.current, None))
  {
  }
}
