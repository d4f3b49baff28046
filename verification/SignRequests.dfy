/**
 Outstanding certificate signing requests (src/certificates.rs): OCPP's doubling back-off with its
 stop count (A02.FR.17-.19), and the correlation that tells a solicited `CertificateSigned` from an
 unsolicited one.
 */
module SignRequests {
  import opened Options
  import opened Numbers

  lemma ScaledUp(factor: int, x: int)
    requires 1 <= factor && 0 <= x
    ensures x <= factor * x
  {
  }

  /** `1u32.checked_shl(n)`: refuses a shift as wide as the type. */
  function CheckedShiftOfOne(n: u32): Option<u32> {
    if n >= 32 then None
    else
      assert Pow2(n) <= U32_MAX by {
        Pow2Monotone(n, 31);
        Pow2Of32();
      }
      Some(Pow2(n))
  }

  datatype Policy = Policy(waitMinimum: u32, repeatTimes: u32)

  function BackOff(policy: Policy, resends: u32): u32 {
    match CheckedShiftOfOne(resends)
    case Some(multiplier) => SaturatingMul(policy.waitMinimum, multiplier)
    case None => SaturatingMul(policy.waitMinimum, U32_MAX)
  }

  /** The back-off is the doubled wait, capped at the largest `u32`, for every count: it never wraps. */
  lemma BackOffDoubles(policy: Policy, resends: u32)
    ensures BackOff(policy, resends) == Min(policy.waitMinimum * Pow2(resends), U32_MAX)
  {
    if resends >= 32 && policy.waitMinimum > 0 {
      Pow2Monotone(32, resends);
      Pow2Of32();
      ScaledUp(policy.waitMinimum, Pow2(resends));
      ScaledUp(policy.waitMinimum, U32_MAX);
    }
  }

  // --- The slots ---------------------------------------------------------------------------------

  datatype Purpose = ChargingStationCertificate | V2GCertificate {
    function SlotIndex(): nat {
      match this
      case ChargingStationCertificate => 0
      case V2GCertificate => 1
    }
  }

  const PURPOSES := [ChargingStationCertificate, V2GCertificate]

  datatype Pending = Pending(requestId: Option<int>, waited: u32, resends: u32)

  type Slot = Option<Pending>

  /** A second request supersedes the first but inherits its resend count. */
  function Recorded(slot: Slot, requestId: Option<int>): Slot {
    Some(Pending(requestId, 0, if slot.Some? then slot.value.resends else 0))
  }

  predicate HasStopped(slot: Slot, policy: Policy) {
    slot.Some? && slot.value.resends >= policy.repeatTimes
  }

  /** Whether this tick makes the back-off expire. */
  predicate IsDue(slot: Slot, elapsed: u32, policy: Policy) {
    && policy.waitMinimum != 0 && policy.repeatTimes != 0
    && slot.Some? && !HasStopped(slot, policy)
    && SaturatingAdd(slot.value.waited, elapsed) >= BackOff(policy, slot.value.resends)
  }

  function Ticked(slot: Slot, elapsed: u32, policy: Policy): Slot {
    if policy.waitMinimum == 0 || policy.repeatTimes == 0 || slot.None? || HasStopped(slot, policy) then slot
    else if IsDue(slot, elapsed, policy)
    then Some(slot.value.(waited := 0, resends := SaturatingAdd(slot.value.resends, 1)))
    else Some(slot.value.(waited := SaturatingAdd(slot.value.waited, elapsed)))
  }

  /** Correlated by id only when both sides carry one. */
  predicate Matches(slot: Slot, requestId: Option<int>) {
    slot.Some? &&
    (slot.value.requestId.Some? && requestId.Some? ==> slot.value.requestId == requestId)
  }

  /**
   Which answers a slot takes: none while nothing is pending; with an id on both sides only its own; with
   none on either side any.
   */
  lemma MatchesIff(slot: Slot, requestId: Option<int>)
    ensures slot == None ==> !Matches(slot, requestId)
    ensures slot.Some? && slot.value.requestId.Some? && requestId.Some? ==>
              (Matches(slot, requestId) <==> slot.value.requestId.value == requestId.value)
    ensures slot.Some? && (slot.value.requestId == None || requestId == None) ==> Matches(slot, requestId)
  {
  }

  function Restarted(slot: Slot): Slot {
    if slot.None? then None else Some(slot.value.(waited := 0, resends := 0))
  }

  /** `i64::wrapping_add`, as the value modulo 2^64 in the signed range. */
  function WrapI64(x: int): int {
    (x + 0x8000_0000_0000_0000) % 0x1_0000_0000_0000_0000 - 0x8000_0000_0000_0000
  }

  /** Those of `purposes` whose back-off expires with this tick, in their order. */
  function DueAmong(purposes: seq<Purpose>, slots: seq<Slot>, elapsed: u32, policy: Policy): seq<Purpose>
    requires |slots| == 2
  {
    if purposes == [] then []
    else
      var last := purposes[|purposes| - 1];
      DueAmong(purposes[..|purposes| - 1], slots, elapsed, policy)
      + (if IsDue(slots[last.SlotIndex()], elapsed, policy) then [last] else [])
  }

  /** Each purpose is named at most once, in the order of the slots, and exactly if it is due. */
  lemma DueOnceInOrder(slots: seq<Slot>, elapsed: u32, policy: Policy)
    requires |slots| == 2
    ensures var due := DueAmong(PURPOSES, slots, elapsed, policy);
            && (forall p: Purpose :: p in due <==> IsDue(slots[p.SlotIndex()], elapsed, policy))
            && (forall i, j :: 0 <= i < j < |due| ==> due[i].SlotIndex() < due[j].SlotIndex())
  {
    assert PURPOSES[..1] == [PURPOSES[0]] && [PURPOSES[0]][..0] == [];
    assert DueAmong([PURPOSES[0]], slots, elapsed, policy)
        == if IsDue(slots[0], elapsed, policy) then [PURPOSES[0]] else [];
  }

  lemma {:induction false} NothingDueWhenOff(purposes: seq<Purpose>, slots: seq<Slot>, elapsed: u32, policy: Policy)
    requires |slots| == 2 && (policy.waitMinimum == 0 || policy.repeatTimes == 0)
    ensures DueAmong(purposes, slots, elapsed, policy) == []
  {
    if purposes != [] {
      NothingDueWhenOff(purposes[..|purposes| - 1], slots, elapsed, policy);
    }
  }

  /** Ids stay within 64 bits, keep their value there, and come round modulo 2^64. */
  lemma WrapsAt64Bits(x: int)
    ensures -0x8000_0000_0000_0000 <= WrapI64(x) < 0x8000_0000_0000_0000
    ensures -0x8000_0000_0000_0000 <= x < 0x8000_0000_0000_0000 ==> WrapI64(x) == x
    ensures (WrapI64(x) - x) % 0x1_0000_0000_0000_0000 == 0
  {
  }

  datatype SignOutcome = Accepted | Rejected

  class PendingSignRequests {
    const slots: array<Slot>
    var nextId: int

    ghost predicate Valid()
      reads this
    {
      slots.Length == 2
    }

    constructor ()
      ensures Valid() && fresh(slots) && slots[..] == [None, None] && nextId == 1
    {
      slots := new Slot[2](_ => None);
      nextId := 1;
    }

    method NextRequestId() returns (id: int)
      modifies this
      ensures id == old(nextId) && nextId == WrapI64(old(nextId) + 1)
    {
      id := nextId;
      nextId := WrapI64(id + 1);
    }

    method RecordSent(purpose: Purpose, requestId: Option<int>)
      requires Valid()
      modifies slots
      ensures slots[..] == old(slots[..])[purpose.SlotIndex() := Recorded(old(slots[purpose.SlotIndex()]), requestId)]
    {
      var held := slots[purpose.SlotIndex()];
      var resends: u32 := if held.Some? then held.value.resends else 0;
      slots[purpose.SlotIndex()] := Some(Pending(requestId, 0, resends));
    }

    /** Only an accepted request is waited for. */
    method RecordSignCertificateSent(purpose: Purpose, requestId: Option<int>, outcome: SignOutcome)
      requires Valid()
      modifies slots
      ensures outcome.Rejected? ==> slots[..] == old(slots[..])
      ensures outcome.Accepted? ==>
                slots[..] == old(slots[..])[purpose.SlotIndex() := Recorded(old(slots[purpose.SlotIndex()]), requestId)]
    {
      match outcome {
        case Accepted => RecordSent(purpose, requestId);
        case Rejected =>
      }
    }

    /** One tick for both slots; the result lists what it made due, in slot order. */
    method DueForResend(elapsed: u32, policy: Policy) returns (due: seq<Purpose>)
      requires Valid()
      modifies slots
      ensures forall i :: 0 <= i < 2 ==> slots[i] == Ticked(old(slots[i]), elapsed, policy)
      ensures due == DueAmong(PURPOSES, old(slots[..]), elapsed, policy)
    {
      due := [];
      if policy.waitMinimum == 0 || policy.repeatTimes == 0 {
        NothingDueWhenOff(PURPOSES, slots[..], elapsed, policy);
        return;
      }
      for i := 0 to |PURPOSES|
        invariant forall j :: 0 <= j < i ==> slots[j] == Ticked(old(slots[j]), elapsed, policy)
        invariant forall j :: i <= j < 2 ==> slots[j] == old(slots[j])
        invariant due == DueAmong(PURPOSES[..i], old(slots[..]), elapsed, policy)
      {
        assert PURPOSES[..i + 1][..i] == PURPOSES[..i];
        var purpose := PURPOSES[i];
        var held := slots[purpose.SlotIndex()];
        if held.None? || held.value.resends >= policy.repeatTimes {
          continue;
        }
        var pending := held.value.(waited := SaturatingAdd(held.value.waited, elapsed));
        if pending.waited < BackOff(policy, pending.resends) {
          slots[purpose.SlotIndex()] := Some(pending);
          continue;
        }
        slots[purpose.SlotIndex()] := Some(pending.(waited := 0, resends := SaturatingAdd(pending.resends, 1)));
        due := due + [purpose];
      }
    }

    method Restart(purpose: Purpose)
      requires Valid()
      modifies slots
      ensures slots[..] == old(slots[..])[purpose.SlotIndex() := Restarted(old(slots[purpose.SlotIndex()]))]
    {
      var held := slots[purpose.SlotIndex()];
      if held.Some? {
        slots[purpose.SlotIndex()] := Some(held.value.(waited := 0, resends := 0));
      }
    }

    method Clear(purpose: Purpose)
      requires Valid()
      modifies slots
      ensures slots[..] == old(slots[..])[purpose.SlotIndex() := None]
    {
      slots[purpose.SlotIndex()] := None;
    }

    /**
     A CSMS-initiated `CertificateSigned`: the chain is given to the store, and the slot cleared, exactly if
     it is solicited and, where a maximum is configured, no longer than that.
     */
    method HandleCertificateSigned(
      purpose: Purpose, requestId: Option<int>, chain: string, capable: bool, maximum: Option<nat>, storeAccepts: bool)
      returns (accepted: bool, tried: Option<string>)
      requires Valid()
      modifies slots
      ensures tried == if capable && Matches(old(slots[purpose.SlotIndex()]), requestId)
                          && (maximum.Some? ==> |chain| <= maximum.value) then Some(chain) else None
      ensures accepted <==> tried.Some? && storeAccepts
      ensures slots[..] == if tried.Some? then old(slots[..])[purpose.SlotIndex() := None] else old(slots[..])
    {
      if !capable {
        return false, None;
      }
      if !Matches(slots[purpose.SlotIndex()], requestId) {
        return false, None;
      }
      if maximum.Some? && |chain| > maximum.value {
        return false, None;
      }
      Clear(purpose);
      return storeAccepts, Some(chain);
    }
  }

  // --- When a resend goes out --------------------------------------------------------------------

  function CeilDiv(a: nat, b: nat): nat
    requires 0 < b
  {
    (a + b - 1) / b
  }

  lemma Scaled(x: nat, y: nat, b: nat)
    requires x <= y
    ensures x * b <= y * b
  {
  }

  lemma CeilDivBrackets(a: nat, b: nat)
    requires 0 < b
    ensures a <= CeilDiv(a, b) * b < a + b
  {
    assert a + b - 1 == CeilDiv(a, b) * b + (a + b - 1) % b;
  }

  lemma CeilDivIsLeast(a: nat, b: nat, k: nat)
    requires 0 < b
    ensures a <= k * b <==> CeilDiv(a, b) <= k
  {
    var q := CeilDiv(a, b);
    CeilDivBrackets(a, b);
    if k < q {
      Scaled(k, q - 1, b);
      assert (q - 1) * b == q * b - b;
    } else {
      Scaled(q, k, b);
    }
  }

  /** What came of resending: nothing new recorded, or a fresh request recorded as accepted. */
  datatype Resend = NotAccepted | AcceptedAs(requestId: Option<int>)

  /** The slot after one pass of the retry loop, resending if due. */
  function AfterPass(p: Pending, tick: u32, policy: Policy, resend: Resend): Pending {
    var ticked := Ticked(Some(p), tick, policy).value;
    if IsDue(Some(p), tick, policy) && resend.AcceptedAs?
    then Recorded(Some(ticked), resend.requestId).value
    else ticked
  }

  function AfterPasses(p: Pending, tick: u32, policy: Policy, passes: seq<Resend>): Pending {
    if passes == [] then p
    else AfterPass(AfterPasses(p, tick, policy, passes[..|passes| - 1]), tick, policy, passes[|passes| - 1])
  }

  /** Passes from arming to the `n`th resend: each wait rounded up to whole ticks. */
  function PassesUntil(n: u32, tick: u32, policy: Policy): nat
    requires 0 < tick
  {
    if n == 0 then 0 else PassesUntil(n - 1, tick, policy) + CeilDiv(BackOff(policy, n - 1), tick)
  }

  /** How far a slot armed `m` passes ago has come. */
  predicate OnSchedule(p: Pending, m: nat, tick: u32, policy: Policy)
    requires 0 < tick
  {
    && p.resends <= policy.repeatTimes
    && PassesUntil(p.resends, tick, policy) <= m
    && (p.resends < policy.repeatTimes ==>
          && m < PassesUntil(p.resends + 1, tick, policy)
          && p.waited == Min((m - PassesUntil(p.resends, tick, policy)) * tick, U32_MAX))
    && (p.resends == policy.repeatTimes ==> p.waited == 0)
  }

  /** One more tick: the accumulated wait is `k + 1` ticks, and saturation cannot hide that it is enough. */
  lemma OneMoreTick(waited: u32, k: nat, tick: u32, wait: u32)
    requires 0 < tick && waited == Min(k * tick, U32_MAX)
    ensures SaturatingAdd(waited, tick) == Min((k + 1) * tick, U32_MAX)
    ensures SaturatingAdd(waited, tick) >= wait <==> CeilDiv(wait, tick) <= k + 1
  {
    assert (k + 1) * tick == k * tick + tick;
    CeilDivIsLeast(wait, tick, k + 1);
  }

  lemma WaitsAreNotEmpty(n: u32, tick: u32, policy: Policy)
    requires 0 < tick && 1 <= policy.waitMinimum
    ensures 1 <= CeilDiv(BackOff(policy, n), tick)
  {
    BackOffDoubles(policy, n);
    ScaledUp(policy.waitMinimum, Pow2(n));
    CeilDivIsLeast(BackOff(policy, n), tick, 0);
  }

  /** The pass that completes the current wait, and only that one, makes the resend due. */
  lemma DueExactlyOnTime(p: Pending, m: nat, tick: u32, policy: Policy)
    requires 0 < tick && 1 <= policy.waitMinimum && 1 <= policy.repeatTimes
    requires OnSchedule(p, m, tick, policy)
    ensures IsDue(Some(p), tick, policy) <==>
              p.resends < policy.repeatTimes && m + 1 == PassesUntil(p.resends + 1, tick, policy)
    ensures p.resends < policy.repeatTimes ==>
              SaturatingAdd(p.waited, tick) == Min((m + 1 - PassesUntil(p.resends, tick, policy)) * tick, U32_MAX)
  {
    if p.resends < policy.repeatTimes {
      OneMoreTick(p.waited, m - PassesUntil(p.resends, tick, policy), tick, BackOff(policy, p.resends));
    }
  }

  /** A slot whose wait has just begun is on schedule. */
  lemma JustArmed(p: Pending, tick: u32, policy: Policy)
    requires 0 < tick && 1 <= policy.waitMinimum && p.waited == 0 && p.resends <= policy.repeatTimes
    ensures OnSchedule(p, PassesUntil(p.resends, tick, policy), tick, policy)
  {
    if p.resends < policy.repeatTimes {
      WaitsAreNotEmpty(p.resends, tick, policy);
    }
  }

  lemma DuePassArms(p: Pending, tick: u32, policy: Policy, resend: Resend)
    requires IsDue(Some(p), tick, policy) && p.resends < policy.repeatTimes
    ensures AfterPass(p, tick, policy, resend).waited == 0
    ensures AfterPass(p, tick, policy, resend).resends == p.resends + 1
  {
  }

  lemma DuePassKeepsSchedule(p: Pending, m: nat, tick: u32, policy: Policy, resend: Resend)
    requires 0 < tick && 1 <= policy.waitMinimum && p.resends < policy.repeatTimes
    requires IsDue(Some(p), tick, policy) && m + 1 == PassesUntil(p.resends + 1, tick, policy)
    ensures OnSchedule(AfterPass(p, tick, policy, resend), m + 1, tick, policy)
  {
    DuePassArms(p, tick, policy, resend);
    JustArmed(AfterPass(p, tick, policy, resend), tick, policy);
  }

  lemma PassKeepsSchedule(p: Pending, m: nat, tick: u32, policy: Policy, resend: Resend)
    requires 0 < tick && 1 <= policy.waitMinimum && 1 <= policy.repeatTimes
    requires OnSchedule(p, m, tick, policy)
    ensures OnSchedule(AfterPass(p, tick, policy, resend), m + 1, tick, policy)
  {
    DueExactlyOnTime(p, m, tick, policy);
    if IsDue(Some(p), tick, policy) {
      DuePassKeepsSchedule(p, m, tick, policy, resend);
    }
  }

  /** A slot whose wait starts now, after any number of resends, is where its schedule says. */
  lemma {:induction false} AlwaysOnSchedule(p: Pending, tick: u32, policy: Policy, passes: seq<Resend>)
    requires 0 < tick && 1 <= policy.waitMinimum && 1 <= policy.repeatTimes
    requires p.waited == 0 && p.resends <= policy.repeatTimes
    ensures OnSchedule(AfterPasses(p, tick, policy, passes), PassesUntil(p.resends, tick, policy) + |passes|, tick, policy)
  {
    if passes == [] {
      JustArmed(p, tick, policy);
    } else {
      var init, from := passes[..|passes| - 1], PassesUntil(p.resends, tick, policy);
      AlwaysOnSchedule(p, tick, policy, init);
      PassKeepsSchedule(AfterPasses(p, tick, policy, init), from + |init|, tick, policy, passes[|passes| - 1]);
    }
  }

  lemma {:induction false} PassesUntilGrows(m: u32, n: u32, tick: u32, policy: Policy)
    requires 0 < tick && m <= n
    ensures PassesUntil(m, tick, policy) <= PassesUntil(n, tick, policy)
  {
    if m < n {
      PassesUntilGrows(m, n - 1, tick, policy);
    }
  }

  /**
   With a fixed policy and no answer, whatever comes of the resends, and however many there were before
   the wait began: after `m` passes the `n`th resend has gone out exactly if `m` has reached the sum of
   the waits up to it, each `min(wait * 2^i, 2^32 - 1)` seconds rounded up to whole ticks, and never more
   than the stop count.
   */
  lemma ResendSchedule(p: Pending, tick: u32, policy: Policy, passes: seq<Resend>, n: u32)
    requires 0 < tick && 1 <= policy.waitMinimum && 1 <= policy.repeatTimes
    requires p.waited == 0 && p.resends <= policy.repeatTimes && n <= policy.repeatTimes
    ensures AfterPasses(p, tick, policy, passes).resends >= n
            <==> PassesUntil(n, tick, policy) <= PassesUntil(p.resends, tick, policy) + |passes|
    ensures AfterPasses(p, tick, policy, passes).resends <= policy.repeatTimes
    ensures n > 0 ==> PassesUntil(n, tick, policy) == PassesUntil(n - 1, tick, policy)
                       + CeilDiv(Min(policy.waitMinimum * Pow2(n - 1), U32_MAX), tick)
  {
    AlwaysOnSchedule(p, tick, policy, passes);
    var e := AfterPasses(p, tick, policy, passes);
    if n > 0 {
      BackOffDoubles(policy, n - 1);
    }
    if e.resends >= n {
      PassesUntilGrows(n, e.resends, tick, policy);
    } else {
      PassesUntilGrows(e.resends + 1, n, tick, policy);
    }
  }

  /** A superseding request, resend or not, waits out its whole back-off again, and keeps the count. */
  lemma SupersedingWaitsAgain(slot: Slot, requestId: Option<int>, tick: u32, policy: Policy, passes: seq<Resend>)
    requires 0 < tick && 1 <= policy.waitMinimum && 1 <= policy.repeatTimes
    requires var before: u32 := if slot.Some? then slot.value.resends else 0; before < policy.repeatTimes
    ensures var before: u32 := if slot.Some? then slot.value.resends else 0;
            var armed := Recorded(slot, requestId);
            && armed.Some? && armed.value.requestId == requestId
            && armed.value.waited == 0 && armed.value.resends == before
            && (AfterPasses(armed.value, tick, policy, passes).resends > before
                <==> CeilDiv(Min(policy.waitMinimum * Pow2(before), U32_MAX), tick) <= |passes|)
  {
    var before: u32 := if slot.Some? then slot.value.resends else 0;
    ResendSchedule(Recorded(slot, requestId).value, tick, policy, passes, before + 1);
  }

  /** A restart begins the whole schedule anew, keeping the id; switched off, a slot never moves. */
  lemma RestartBeginsAnew(p: Pending, tick: u32, policy: Policy, passes: seq<Resend>, n: u32)
    requires 0 < tick && 1 <= policy.waitMinimum && 1 <= policy.repeatTimes && n <= policy.repeatTimes
    ensures var restarted := Restarted(Some(p));
            && restarted == Some(Pending(p.requestId, 0, 0)) && Restarted(None) == None
            && (AfterPasses(restarted.value, tick, policy, passes).resends >= n
                <==> PassesUntil(n, tick, policy) <= |passes|)
  {
    ResendSchedule(Restarted(Some(p)).value, tick, policy, passes, n);
  }

  /** Either variable at zero switches resending off: nothing is due and no wait is counted. */
  lemma SwitchedOffNeverMoves(slot: Slot, elapsed: u32, policy: Policy)
    requires policy.waitMinimum == 0 || policy.repeatTimes == 0
    ensures !IsDue(slot, elapsed, policy) && Ticked(slot, elapsed, policy) == slot
  {
  }
}
