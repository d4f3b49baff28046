/**
 The reason a charge point gives for booting (src/builder.rs, src/provisioning.rs, src/connection.rs,
 src/persistence.rs, src/reset.rs): a commanded reset records its cause, the next boot loads it, every
 BootNotification of that boot carries it, and it is cleared once one was accepted. The station may
 crash between any two steps, and storage may fail.
 */
module BootReason {
  import opened Options
  import opened Numbers

  datatype Cause = RemoteReset | ScheduledReset

  /** A recorded reset. The number tells one recording from the next; only the cause is stored. */
  datatype Reset = Reset(number: nat, cause: Cause)

  // --- The objects -------------------------------------------------------------------------------

  class BootReasonStore {
    var storage: Option<Cause>

    constructor ()
      ensures storage == None
    {
      storage := None;
    }

    method Save(cause: Cause, writeOk: bool) returns (saved: bool)
      modifies this
      ensures saved == writeOk && storage == if writeOk then Some(cause) else old(storage)
    {
      if writeOk {
        storage := Some(cause);
      }
      saved := writeOk;
    }

    method Load(readOk: bool) returns (cause: Option<Cause>)
      ensures cause == if readOk then storage else None
    {
      cause := if readOk then storage else None;
    }

    method Clear(writeOk: bool)
      modifies this
      ensures storage == if writeOk then None else old(storage)
    {
      if writeOk {
        storage := None;
      }
    }
  }

  /** Accepted, answered otherwise with an interval to wait, or no answer at all. */
  datatype Answer = Accepted | NotAccepted(intervalSecs: u32) | Unreachable

  const FIRST_RETRY_INTERVAL_SECS: u32 := 1
  const DEFAULT_RETRY_INTERVAL_SECS: u32 := 30

  /** How many transport failures in a row come right before answer `i`. */
  function FailuresBefore(answers: seq<Answer>, i: nat): nat
    requires i <= |answers|
  {
    if i == 0 || !answers[i - 1].Unreachable? then 0 else 1 + FailuresBefore(answers, i - 1)
  }

  /** The wait after answer `i`: what the CSMS asked for, or doubling up to the default while it is unreachable. */
  function WaitAfter(answers: seq<Answer>, i: nat): int
    requires i < |answers|
  {
    if answers[i].NotAccepted? then answers[i].intervalSecs
    else Min(FIRST_RETRY_INTERVAL_SECS * Pow2(FailuresBefore(answers, i)), DEFAULT_RETRY_INTERVAL_SECS)
  }

  /**
   Registration, over the answers the station lives to see: one notification for each up to the first
   acceptance, none after it, every one with the same reason, and a wait after each but the accepted
   one.
   */
  method RegisterUntilAccepted(reason: Option<Cause>, answers: seq<Answer>)
    returns (sent: seq<Option<Cause>>, waits: seq<u32>, accepted: bool)
    ensures accepted <==> Accepted in answers
    ensures |sent| <= |answers|
    ensures if accepted then sent != [] && answers[|sent| - 1] == Accepted else |sent| == |answers|
    ensures forall i :: 0 <= i < |sent| - 1 ==> answers[i] != Accepted
    ensures forall i :: 0 <= i < |sent| ==> sent[i] == reason
    ensures |waits| == if accepted then |sent| - 1 else |sent|
    ensures forall i :: 0 <= i < |waits| ==> waits[i] == WaitAfter(answers, i)
  {
    sent, waits := [], [];
    var retrySecs := FIRST_RETRY_INTERVAL_SECS;
    while |sent| < |answers|
      invariant |waits| == |sent| <= |answers|
      invariant forall i :: 0 <= i < |sent| ==> answers[i] != Accepted
      invariant forall i :: 0 <= i < |sent| ==> sent[i] == reason
      invariant forall i :: 0 <= i < |waits| ==> waits[i] == WaitAfter(answers, i)
      invariant retrySecs == Min(FIRST_RETRY_INTERVAL_SECS * Pow2(FailuresBefore(answers, |sent|)),
                                 DEFAULT_RETRY_INTERVAL_SECS)
      decreases |answers| - |sent|
    {
      sent := sent + [reason];
      match answers[|sent| - 1] {
        case Accepted =>
          return sent, waits, true;
        case NotAccepted(intervalSecs) =>
          retrySecs := FIRST_RETRY_INTERVAL_SECS;
          waits := waits + [intervalSecs];
        case Unreachable =>
          waits := waits + [retrySecs];
          retrySecs := Min(SaturatingMul(retrySecs, 2), DEFAULT_RETRY_INTERVAL_SECS);
      }
    }
    accepted := false;
  }

  lemma {:induction false} FailuresInARow(answers: seq<Answer>, i: nat, k: nat)
    requires k <= i <= |answers| && (forall j :: i - k <= j < i ==> answers[j].Unreachable?)
    requires i == k || !answers[i - k - 1].Unreachable?
    ensures FailuresBefore(answers, i) == k
  {
    if k > 0 {
      FailuresInARow(answers, i - 1, k - 1);
    }
  }

  /**
   After a refusal the wait is the interval asked for; after `k` failures in a row, the first of a row
   being its first, it is 1, 2, 4, 8, 16 and from then on 30 seconds.
   */
  lemma WaitsEscalate(answers: seq<Answer>, i: nat, k: nat)
    requires i < |answers|
    ensures answers[i].NotAccepted? ==> WaitAfter(answers, i) == answers[i].intervalSecs
    ensures && answers[i].Unreachable? && 0 < k <= i + 1
            && (forall j :: i + 1 - k <= j <= i ==> answers[j].Unreachable?)
            && (i + 1 == k || !answers[i - k].Unreachable?)
            ==> WaitAfter(answers, i) ==
                if k == 1 then 1 else if k == 2 then 2 else if k == 3 then 4
                else if k == 4 then 8 else if k == 5 then 16 else 30
  {
    if && answers[i].Unreachable? && 0 < k <= i + 1
       && (forall j :: i + 1 - k <= j <= i ==> answers[j].Unreachable?)
       && (i + 1 == k || !answers[i - k].Unreachable?)
    {
      FailuresInARow(answers, i, k - 1);
      assert Pow2(1) == 2 && Pow2(2) == 4 && Pow2(3) == 8 && Pow2(4) == 16 && Pow2(5) == 32;
      if k > 5 {
        Pow2Monotone(5, k - 1);
      }
    }
  }

  /** `boot_reason_persistence` followed by `provisioning`: load, register, and clear only once accepted. */
  method Provision(store: BootReasonStore, answers: seq<Answer>, readOk: bool, writeOk: bool)
    returns (sent: seq<Option<Cause>>, accepted: bool)
    modifies store
    ensures accepted <==> Accepted in answers
    ensures accepted ==> sent != []
    ensures forall i :: 0 <= i < |sent| ==> sent[i] == if readOk then old(store.storage) else None
    ensures store.storage == if accepted && writeOk then None else old(store.storage)
  {
    var reason := store.Load(readOk);
    var waits;
    sent, waits, accepted := RegisterUntilAccepted(reason, answers);
    if accepted {
      store.Clear(writeOk);
    }
  }

  // --- Boots, crashes and resets, step by step ---------------------------------------------------

  datatype Phase = Registering | Registered | Running

  /** `readOk` and `resetSinceLoad` say how this boot's load went and whether a reset was recorded since. */
  datatype Power =
    | Off
    | On(loaded: Option<Reset>, phase: Phase, readOk: bool, resetSinceLoad: bool)

  datatype Notification = Notification(boot: nat, carried: Option<Reset>, accepted: bool)

  /**
   `carried`: resets an accepted notification reported; `replaced`: resets a later one overwrote;
   `lost`: resets cleared although no accepted notification ever carried them.
   */
  datatype History = History(
    boots: nat,
    notifications: seq<Notification>,
    carried: set<nat>,
    replaced: set<nat>,
    lost: set<nat>,
    readFailed: bool,
    resetBeforeClear: bool)

  datatype State = State(storage: Option<Reset>, recorded: nat, power: Power, history: History)

  datatype Step =
    | Boot(readOk: bool)
    | Notify(accepted: bool)
    | Clear(writeOk: bool)
    | Command(cause: Cause, writeOk: bool)
    | Reconnect(accepted: bool)
    | Crash

  predicate Init(s: State) {
    s == State(None, 0, Off, History(0, [], {}, {}, {}, false, false))
  }

  predicate Enabled(s: State, step: Step) {
    match step
    case Boot(_) => s.power.Off?
    case Notify(_) => s.power.On? && s.power.phase.Registering?
    case Clear(_) => s.power.On? && s.power.phase.Registered?
    case Command(_, _) => s.power.On?
    case Reconnect(_) => s.power.On? && s.power.phase.Running?
    case Crash => s.power.On?
  }

  function Notified(h: History, carried: Option<Reset>, accepted: bool): History {
    h.(notifications := h.notifications + [Notification(h.boots, carried, accepted)],
       carried := if accepted && carried.Some? then h.carried + {carried.value.number} else h.carried)
  }

  function Next(s: State, step: Step): State
    requires Enabled(s, step)
  {
    match step
    case Boot(readOk) =>
      s.(power := On(if readOk then s.storage else None, Registering, readOk, false),
         history := s.history.(boots := s.history.boots + 1, readFailed := s.history.readFailed || !readOk))
    case Notify(accepted) =>
      s.(power := s.power.(phase := if accepted then Registered else Registering),
         history := Notified(s.history, s.power.loaded, accepted))
    case Clear(writeOk) =>
      s.(storage := if writeOk then None else s.storage,
         power := s.power.(phase := Running),
         history := if writeOk && s.storage.Some? && s.storage.value.number !in s.history.carried
                    then s.history.(lost := s.history.lost + {s.storage.value.number}) else s.history)
    case Command(cause, writeOk) =>
      if !writeOk then s
      else State(Some(Reset(s.recorded, cause)), s.recorded + 1, s.power.(resetSinceLoad := true),
                 s.history.(replaced := if s.storage.Some? then s.history.replaced + {s.storage.value.number}
                                        else s.history.replaced,
                            resetBeforeClear := s.history.resetBeforeClear || !s.power.phase.Running?))
    case Reconnect(accepted) => s.(history := Notified(s.history, s.power.loaded, accepted))
    case Crash => s.(power := Off)
  }

  predicate Runs(s: State, steps: seq<Step>)
    decreases |steps|
  {
    steps == [] || (Enabled(s, steps[0]) && Runs(Next(s, steps[0]), steps[1..]))
  }

  function Execute(s: State, steps: seq<Step>): State
    requires Runs(s, steps)
    decreases |steps|
  {
    if steps == [] then s else Execute(Next(s, steps[0]), steps[1..])
  }

  // --- The invariants ----------------------------------------------------------------------------

  /** Until it is cleared, what a boot loaded is what is stored - exactly if the load worked and no reset came since. */
  predicate LoadedInv(s: State) {
    && (s.storage.Some? ==> s.storage.value.number < s.recorded)
    && (s.power.On? && s.power.loaded.Some? ==> s.power.loaded.value.number < s.recorded)
    && (s.power.On? && !s.power.phase.Running? ==>
          && (s.power.readOk && !s.power.resetSinceLoad ==> s.power.loaded == s.storage)
          && (!s.power.readOk ==> s.power.loaded == None)
          && (s.power.resetSinceLoad ==>
                s.storage.Some? && (s.power.loaded.Some? ==> s.power.loaded.value.number < s.storage.value.number)))
    && (s.power.On? && s.power.phase.Registered? && s.power.loaded.Some? ==>
          s.power.loaded.value.number in s.history.carried)
  }

  /** Every reset recorded is stored, was reported, was overtaken by another, or was lost. */
  predicate TrackedInv(s: State) {
    && (forall n :: 0 <= n < s.recorded ==>
          || (s.storage.Some? && s.storage.value.number == n)
          || n in s.history.carried || n in s.history.replaced || n in s.history.lost)
    && (!s.history.readFailed && !s.history.resetBeforeClear ==> s.history.lost == {})
    && (!s.history.readFailed && s.power.On? ==> s.power.readOk)
    && (!s.history.resetBeforeClear && s.power.On? && !s.power.phase.Running? ==> !s.power.resetSinceLoad)
  }

  /** All notifications of one boot carry the same reason. */
  predicate SameReasonInv(h: History, power: Power) {
    && (forall i :: 0 <= i < |h.notifications| ==> h.notifications[i].boot <= h.boots)
    && (forall i :: 0 <= i < |h.notifications| && power.On? && h.notifications[i].boot == h.boots ==>
          h.notifications[i].carried == power.loaded)
    && (forall i, j :: 0 <= i < j < |h.notifications| && h.notifications[i].boot == h.notifications[j].boot ==>
          h.notifications[i].carried == h.notifications[j].carried)
  }

  lemma StepKeepsLoaded(s: State, step: Step)
    requires LoadedInv(s) && Enabled(s, step)
    ensures LoadedInv(Next(s, step))
  {
  }

  lemma StepKeepsTracked(s: State, step: Step)
    requires LoadedInv(s) && TrackedInv(s) && Enabled(s, step)
    ensures TrackedInv(Next(s, step))
  {
  }

  lemma StepKeepsSameReason(s: State, step: Step)
    requires SameReasonInv(s.history, s.power) && Enabled(s, step)
    ensures SameReasonInv(Next(s, step).history, Next(s, step).power)
  {
  }

  /** What counts as carried was carried by a notification that was accepted. */
  ghost predicate CarriedInv(h: History) {
    forall n :: n in h.carried ==>
      exists i :: 0 <= i < |h.notifications| && h.notifications[i].accepted
                  && h.notifications[i].carried.Some? && h.notifications[i].carried.value.number == n
  }

  lemma NotifiedKeepsCarried(h: History, carried: Option<Reset>, accepted: bool)
    requires CarriedInv(h)
    ensures CarriedInv(Notified(h, carried, accepted))
  {
    var after := Notified(h, carried, accepted);
    forall n | n in after.carried
      ensures exists i :: 0 <= i < |after.notifications| && after.notifications[i].accepted
                          && after.notifications[i].carried.Some? && after.notifications[i].carried.value.number == n
    {
      if n in h.carried {
        var i :| 0 <= i < |h.notifications| && h.notifications[i].accepted
                 && h.notifications[i].carried.Some? && h.notifications[i].carried.value.number == n;
        assert after.notifications[i] == h.notifications[i];
      } else {
        assert after.notifications[|h.notifications|] == Notification(h.boots, carried, accepted);
      }
    }
  }

  lemma StepKeepsCarried(s: State, step: Step)
    requires CarriedInv(s.history) && Enabled(s, step)
    ensures CarriedInv(Next(s, step).history)
  {
    if step.Notify? || step.Reconnect? {
      NotifiedKeepsCarried(s.history, s.power.loaded, step.accepted);
    }
  }

  ghost predicate Inv(s: State) {
    LoadedInv(s) && TrackedInv(s) && SameReasonInv(s.history, s.power) && CarriedInv(s.history)
  }

  lemma {:induction false} RunKeepsInv(s: State, steps: seq<Step>)
    requires Inv(s) && Runs(s, steps)
    ensures Inv(Execute(s, steps))
    decreases |steps|
  {
    if steps != [] {
      StepKeepsLoaded(s, steps[0]);
      StepKeepsTracked(s, steps[0]);
      StepKeepsSameReason(s, steps[0]);
      StepKeepsCarried(s, steps[0]);
      RunKeepsInv(Next(s, steps[0]), steps[1..]);
    }
  }

  // --- What holds in every run -------------------------------------------------------------------

  /**
   Wherever a boot is about to clear a stored reset, that reset is the one its own accepted
   BootNotification carried exactly if the load at boot worked and no reset was recorded since.
   */
  lemma ClearsOnlyWhatWasCarriedIff(s: State, steps: seq<Step>)
    requires Init(s) && Runs(s, steps)
    requires Enabled(Execute(s, steps), Clear(true)) && Execute(s, steps).storage.Some?
    ensures var e := Execute(s, steps);
            e.power.loaded == e.storage <==> e.power.readOk && !e.power.resetSinceLoad
    ensures var e := Execute(s, steps);
            e.power.loaded == e.storage ==> e.storage.value.number in e.history.carried
  {
    RunKeepsInv(s, steps);
  }

  /**
   A run whose loads work, and in which no reset is recorded before the boot's clear, loses nothing:
   every recorded reset is still stored, was carried by an accepted notification, or was replaced by a
   later reset; and whatever is stored is what the boot registering now reports.
   */
  lemma NothingIsLost(s: State, steps: seq<Step>)
    requires Init(s) && Runs(s, steps)
    requires !Execute(s, steps).history.readFailed && !Execute(s, steps).history.resetBeforeClear
    ensures var e := Execute(s, steps);
            && (forall n :: 0 <= n < e.recorded ==>
                  || (e.storage.Some? && e.storage.value.number == n)
                  || n in e.history.carried || n in e.history.replaced)
            && CarriedInv(e.history) && e.history.lost == {}
            && (e.power.On? && !e.power.phase.Running? ==> e.power.loaded == e.storage)
  {
    RunKeepsInv(s, steps);
  }

  /** Every resend within a boot carries the reason the first BootNotification did. */
  lemma OneReasonPerBoot(s: State, steps: seq<Step>, i: nat, j: nat)
    requires Init(s) && Runs(s, steps) && i < |Execute(s, steps).history.notifications|
    requires j < |Execute(s, steps).history.notifications|
    requires Execute(s, steps).history.notifications[i].boot == Execute(s, steps).history.notifications[j].boot
    ensures Execute(s, steps).history.notifications[i].carried == Execute(s, steps).history.notifications[j].carried
  {
    RunKeepsInv(s, steps);
  }

  predicate NoReset(steps: seq<Step>) {
    forall i :: 0 <= i < |steps| ==> !steps[i].Command?
  }

  /** After an effective clear and until the next reset, every boot reports none. */
  lemma NoneAfterClear(s: State, steps: seq<Step>)
    requires s.storage == None && s.power.Off? && Runs(s, steps) && NoReset(steps)
    ensures Execute(s, steps).storage == None
    ensures var h := Execute(s, steps).history;
            && s.history.notifications <= h.notifications
            && forall i :: |s.history.notifications| <= i < |h.notifications| ==> h.notifications[i].carried == None
  {
    StaysNone(s, steps);
  }

  lemma {:induction false} StaysNone(s: State, steps: seq<Step>)
    requires s.storage == None && (s.power.On? ==> s.power.loaded == None) && Runs(s, steps) && NoReset(steps)
    ensures Execute(s, steps).storage == None
    ensures var h := Execute(s, steps).history;
            && s.history.notifications <= h.notifications
            && forall i :: |s.history.notifications| <= i < |h.notifications| ==> h.notifications[i].carried == None
    decreases |steps|
  {
    if steps != [] {
      assert steps[0] in steps;
      StaysNone(Next(s, steps[0]), steps[1..]);
    }
  }

  /** An accepted BootNotification, at registration or after a reconnect. */
  predicate Accepts(step: Step) {
    (step.Notify? || step.Reconnect?) && step.accepted
  }

  /** No further reset, and no acceptance. */
  predicate StillWaiting(steps: seq<Step>) {
    NoReset(steps) && forall i :: 0 <= i < |steps| ==> !Accepts(steps[i])
  }

  /**
   Where reset `r`, recorded during boot number `boot`, stands until something is accepted: that boot
   still has its own reason, and every later one registers with `r` exactly if it is still stored and
   could be read.
   */
  predicate Waits(s: State, r: Reset, boot: nat, cleared: bool) {
    && s.storage == (if cleared then None else Some(r))
    && boot <= s.history.boots
    && (s.power.On? && s.history.boots == boot ==> s.power.loaded != Some(r))
    && (s.power.On? && s.history.boots > boot ==>
          && s.power.phase.Registering?
          && s.power.loaded == if s.power.readOk && !cleared then Some(r) else None)
  }

  lemma {:induction false} KeepsWaiting(s: State, steps: seq<Step>, r: Reset, boot: nat, cleared: bool)
    requires Waits(s, r, boot, cleared) && Runs(s, steps) && StillWaiting(steps)
    ensures Waits(Execute(s, steps), r, boot, cleared || Clear(true) in steps)
    decreases |steps|
  {
    if steps != [] {
      assert steps[0] in steps && steps == [steps[0]] + steps[1..];
      KeepsWaiting(Next(s, steps[0]), steps[1..], r, boot, cleared || steps[0] == Clear(true));
    }
  }

  lemma {:induction false} NoneRecorded(s: State, steps: seq<Step>)
    requires Runs(s, steps) && NoReset(steps)
    ensures Execute(s, steps).recorded == s.recorded
    decreases |steps|
  {
    if steps != [] {
      assert steps[0] in steps;
      NoneRecorded(Next(s, steps[0]), steps[1..]);
    }
  }

  /**
   After any run, in whatever phase a reset is commanded, and however often the station then crashes,
   reboots, reconnects and is turned away: the first accepted BootNotification carries the reset exactly
   if it was written, the notification belongs to a later boot, that boot could read it, and the boot
   that recorded it did not clear it on the way out.
   */
  lemma FirstAcceptedCarriesIff(
    s: State, before: seq<Step>, cause: Cause, writeOk: bool, steps: seq<Step>, accepting: Step)
    requires Init(s) && Runs(s, before) && Execute(s, before).power.On?
    requires Runs(Next(Execute(s, before), Command(cause, writeOk)), steps) && StillWaiting(steps)
    requires Accepts(accepting)
    requires Enabled(Execute(Next(Execute(s, before), Command(cause, writeOk)), steps), accepting)
    ensures var at := Execute(s, before);
            var e := Execute(Next(at, Command(cause, writeOk)), steps);
            var sent := Next(e, accepting).history.notifications;
            && sent != [] && sent[|sent| - 1].accepted
            && (sent[|sent| - 1].carried == Some(Reset(at.recorded, cause))
                <==> writeOk && e.history.boots > at.history.boots && e.power.readOk && Clear(true) !in steps)
  {
    RunKeepsInv(s, before);
    var at := Execute(s, before);
    var commanded := Next(at, Command(cause, writeOk));
    if writeOk {
      KeepsWaiting(commanded, steps, Reset(at.recorded, cause), at.history.boots, false);
    } else {
      NoneRecorded(commanded, steps);
      RunKeepsInv(commanded, steps);
    }
  }

  /** A station that goes down with a reset stored: the first acceptance carries it exactly if its boot could read it. */
  lemma StoredIsCarriedIff(s: State, steps: seq<Step>, r: Reset)
    requires s.power.Off? && s.storage == Some(r) && Runs(s, steps) && StillWaiting(steps)
    requires Enabled(Execute(s, steps), Notify(true))
    ensures var e := Execute(s, steps);
            var sent := Next(e, Notify(true)).history.notifications;
            && e.storage == Some(r)
            && (sent[|sent| - 1].carried == Some(r) <==> e.power.readOk)
            && (sent[|sent| - 1].carried == None <==> !e.power.readOk)
  {
    BootsOrStaysOff(s, steps, r);
  }

  lemma {:induction false} BootsOrStaysOff(s: State, steps: seq<Step>, r: Reset)
    requires s.storage == Some(r) && Runs(s, steps) && StillWaiting(steps)
    requires s.power.On? ==>
               s.power.phase.Registering? && s.power.loaded == if s.power.readOk then Some(r) else None
    ensures var e := Execute(s, steps);
            && e.storage == Some(r)
            && (e.power.On? ==>
                  e.power.phase.Registering? && e.power.loaded == if e.power.readOk then Some(r) else None)
    decreases |steps|
  {
    if steps != [] {
      assert steps[0] in steps;
      BootsOrStaysOff(Next(s, steps[0]), steps[1..], r);
    }
  }

  // --- A reset that is lost ----------------------------------------------------------------------

  lemma {:induction false} Then(s: State, steps: seq<Step>, e: State, step: Step)
    returns (longer: seq<Step>, next: State)
    requires Runs(s, steps) && Execute(s, steps) == e && Enabled(e, step)
    ensures longer == steps + [step] && next == Next(e, step)
    ensures Runs(s, longer) && Execute(s, longer) == next
    decreases |steps|
  {
    longer, next := steps + [step], Next(e, step);
    if steps == [] {
      assert longer[1..] == [] && Runs(next, []);
    } else {
      var tail, end := Then(Next(s, steps[0]), steps[1..], e, step);
      assert longer[1..] == tail;
    }
  }

  /**
   A reset commanded between registration and the clear, or a load that fails, loses the cause for good.
   The wirings in src/setup.rs and src/connect.rs register the reset handler only after provisioning has
   returned; the first kind needs the builder's calls in another order, or `handle_reset` called directly.
   */
  lemma ResetsCanBeLost(commandedEarly: bool) returns (s: State, steps: seq<Step>)
    ensures Init(s) && Runs(s, steps)
    ensures var e := Execute(s, steps);
            && e.storage == None && e.history.lost != {} && e.power.Off?
            && e.history.readFailed == !commandedEarly && e.history.resetBeforeClear == commandedEarly
  {
    s := State(None, 0, Off, History(0, [], {}, {}, {}, false, false));
    var e;
    steps, e := Then(s, [], s, Boot(true));
    steps, e := Then(s, steps, e, Notify(true));
    if commandedEarly {
      steps, e := Then(s, steps, e, Command(ScheduledReset, true));
      steps, e := Then(s, steps, e, Clear(true));
    } else {
      steps, e := Then(s, steps, e, Clear(true));
      steps, e := Then(s, steps, e, Command(RemoteReset, true));
      steps, e := Then(s, steps, e, Crash);
      steps, e := Then(s, steps, e, Boot(false));
      steps, e := Then(s, steps, e, Notify(true));
      steps, e := Then(s, steps, e, Clear(true));
    }
    assert 0 in e.history.lost;
    steps, e := Then(s, steps, e, Crash);
  }

  /**
   A reset scheduled by a running station, and a reconnect before it reboots: the first notification
   accepted after the reset was recorded carries the running boot's reason, with all storage working.
   */
  lemma ReconnectComesFirst(cause: Cause) returns (s: State, before: seq<Step>, e: State)
    ensures Init(s) && Runs(s, before) && Enabled(Execute(s, before), Command(cause, true))
    ensures var commanded := Next(Execute(s, before), Command(cause, true));
            && Enabled(commanded, Reconnect(true)) && e == Next(commanded, Reconnect(true))
            && !e.history.readFailed && !e.history.resetBeforeClear && e.storage == Some(Reset(0, cause))
            && |e.history.notifications| == 2 && e.history.notifications[1] == Notification(1, None, true)
  {
    s := State(None, 0, Off, History(0, [], {}, {}, {}, false, false));
    before, e := Then(s, [], s, Boot(true));
    before, e := Then(s, before, e, Notify(true));
    before, e := Then(s, before, e, Clear(true));
    e := Next(Next(e, Command(cause, true)), Reconnect(true));
  }
}
