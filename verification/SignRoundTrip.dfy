/**
 Whole runs of the `SignCertificate`/`CertificateSigned` round trip (src/certificates.rs): requests
 are sent, superseded, resent on the back-off, restarted and answered, in any order and for both
 purposes, by a CSMS that may answer with anything.
 */
module SignRoundTrip {
  import opened Options
  import opened Numbers
  import opened SignRequests

  /**
   One purpose's slot with its history: accepted `SignCertificate`s, install attempts, the resends
   returned since the last restart or clear and the largest stop count in force meanwhile, and for
   every request recorded which of the issued ids it carried, if any.
   */
  datatype Account = Account(
    slot: Slot,
    accepted: nat,
    installs: nat,
    due: nat,
    cap: nat,
    csrs: seq<Option<nat>>)

  /** `issued` counts the ids handed out, `used` are those whose request was recorded. */
  datatype State = State(station: Account, v2g: Account, issued: nat, used: set<nat>)

  datatype Step =
    | Issue
    | Accepted(purpose: Purpose, csr: Option<nat>)
    | Tick(elapsed: u32, policy: Policy)
    | Restart(purpose: Purpose)
    | Signed(purpose: Purpose, requestId: Option<int>, capable: bool, fits: bool)

  const NEW := Account(None, 0, 0, 0, 0, [])

  predicate Init(s: State) {
    s == State(NEW, NEW, 0, {})
  }

  /** The id on the wire of the `k`th request id handed out. */
  function WireId(k: nat): int {
    WrapI64(1 + k)
  }

  function OnWire(csr: Option<nat>): Option<int> {
    if csr.None? then None else Some(WireId(csr.value))
  }

  /** A recorded request carries no id, or one that was issued and not recorded before. */
  predicate Enabled(s: State, step: Step) {
    step.Accepted? && step.csr.Some? ==> step.csr.value < s.issued && step.csr.value !in s.used
  }

  function Of(s: State, p: Purpose): Account {
    if p.ChargingStationCertificate? then s.station else s.v2g
  }

  predicate Solicited(a: Account, step: Step) {
    step.Signed? && step.capable && step.fits && Matches(a.slot, step.requestId)
  }

  function AccountNext(a: Account, step: Step): Account {
    match step
    case Issue => a
    case Accepted(_, csr) =>
      a.(slot := Recorded(a.slot, OnWire(csr)), accepted := a.accepted + 1, csrs := a.csrs + [csr])
    case Tick(elapsed, policy) =>
      a.(slot := Ticked(a.slot, elapsed, policy),
         due := a.due + (if IsDue(a.slot, elapsed, policy) then 1 else 0),
         cap := if a.cap < policy.repeatTimes then policy.repeatTimes else a.cap)
    case Restart(_) => a.(slot := Restarted(a.slot), due := 0, cap := 0)
    case Signed(_, _, _, _) =>
      if Solicited(a, step) then a.(slot := None, installs := a.installs + 1, due := 0, cap := 0) else a
  }

  predicate Concerns(step: Step, p: Purpose) {
    step.Tick? || (!step.Issue? && step.purpose == p)
  }

  function Next(s: State, step: Step): State
    requires Enabled(s, step)
  {
    State(
      if Concerns(step, ChargingStationCertificate) then AccountNext(s.station, step) else s.station,
      if Concerns(step, V2GCertificate) then AccountNext(s.v2g, step) else s.v2g,
      if step.Issue? then s.issued + 1 else s.issued,
      if step.Accepted? && step.csr.Some? then s.used + {step.csr.value} else s.used)
  }

  predicate Runs(s: State, steps: seq<Step>)
    decreases |steps|
  {
    steps == [] || (Enabled(s, steps[0]) && Runs(Next(s, steps[0]), steps[1..]))
  }

  function Execute(s: State, steps: seq<Step>): State
    requires Runs(s, steps)
    decreases |steps|
  {
    if steps == [] then s else Execute(Next(s, steps[0]), steps[1..])
  }

  // --- The invariant -----------------------------------------------------------------------------

  predicate CountsInv(a: Account) {
    && a.installs + (if a.slot.Some? then 1 else 0) <= a.accepted
    && a.due <= a.cap
    && a.due == (if a.slot.Some? then a.slot.value.resends else 0)
  }

  /** The slot belongs to the last recorded request, and no id was recorded twice. */
  predicate IdsInv(a: Account, issued: nat, used: set<nat>) {
    && (a.slot.Some? ==> a.csrs != [] && a.slot.value.requestId == OnWire(a.csrs[|a.csrs| - 1]))
    && (forall i :: 0 <= i < |a.csrs| && a.csrs[i].Some? ==> a.csrs[i].value < issued && a.csrs[i].value in used)
    && (forall i, j :: 0 <= i < j < |a.csrs| && a.csrs[i].Some? ==> a.csrs[i] != a.csrs[j])
  }

  lemma AccountCounts(a: Account, step: Step)
    requires CountsInv(a)
    ensures CountsInv(AccountNext(a, step))
  {
  }

  lemma AccountIds(a: Account, step: Step, s: State)
    requires IdsInv(a, s.issued, s.used) && Enabled(s, step)
    ensures IdsInv(AccountNext(a, step), Next(s, step).issued, Next(s, step).used)
    ensures IdsInv(a, Next(s, step).issued, Next(s, step).used)
  {
  }

  predicate Inv(s: State) {
    && CountsInv(s.station) && IdsInv(s.station, s.issued, s.used)
    && CountsInv(s.v2g) && IdsInv(s.v2g, s.issued, s.used)
  }

  lemma {:induction false} RunKeepsInv(s: State, steps: seq<Step>)
    requires Inv(s) && Runs(s, steps)
    ensures Inv(Execute(s, steps))
    decreases |steps|
  {
    if steps != [] {
      AccountCounts(s.station, steps[0]);
      AccountCounts(s.v2g, steps[0]);
      AccountIds(s.station, steps[0], s);
      AccountIds(s.v2g, steps[0], s);
      RunKeepsInv(Next(s, steps[0]), steps[1..]);
    }
  }

  // --- What holds in every run -------------------------------------------------------------------

  /**
   For each purpose: install attempts, plus one while a request is pending, never exceed the
   `SignCertificate`s the CSMS accepted; and since the last restart or clear it was returned for
   resend at most as often as the largest stop count in force.
   */
  lemma InstallsAreSolicited(s: State, steps: seq<Step>, p: Purpose)
    requires Init(s) && Runs(s, steps)
    ensures var a := Of(Execute(s, steps), p);
            && a.installs + (if a.slot.Some? then 1 else 0) <= a.accepted
            && a.due <= a.cap
            && (a.slot.Some? ==> a.slot.value.resends == a.due)
  {
    RunKeepsInv(s, steps);
  }

  /** Ids are handed out from 1 on, each the one after the last. */
  lemma IdsFollow(k: nat)
    ensures WireId(0) == 1 && WireId(k + 1) == WrapI64(WireId(k) + 1)
  {
  }

  /** The ids of fewer than 2^64 requests are all different. */
  lemma WireIdsDiffer(j: nat, k: nat)
    requires j < k < 0x1_0000_0000_0000_0000
    ensures WireId(j) != WireId(k)
  {
  }

  /** When both sides carry an id, an answer to a request since superseded is refused and changes nothing. */
  lemma SupersededAnswerIsRefused(s: State, steps: seq<Step>, p: Purpose, i: nat, capable: bool, fits: bool)
    requires Init(s) && Runs(s, steps)
    requires Execute(s, steps).issued <= 0x1_0000_0000_0000_0000
    requires i + 1 < |Of(Execute(s, steps), p).csrs|
    requires Of(Execute(s, steps), p).csrs[i].Some?
    requires var csrs := Of(Execute(s, steps), p).csrs; csrs[|csrs| - 1].Some?
    ensures var e := Execute(s, steps);
            var answer := Signed(p, Some(WireId(Of(e, p).csrs[i].value)), capable, fits);
            !Solicited(Of(e, p), answer) && Next(e, answer) == e
  {
    RunKeepsInv(s, steps);
    var e := Execute(s, steps);
    var csrs := Of(e, p).csrs;
    var superseded, last := csrs[i].value, csrs[|csrs| - 1].value;
    assert csrs[i] != csrs[|csrs| - 1];
    if superseded < last {
      WireIdsDiffer(superseded, last);
    } else {
      WireIdsDiffer(last, superseded);
    }
  }

  /** Refused answers leave everything as it was; a solicited one that fits is tried once and clears its slot. */
  lemma AnswerTouchesOnlyWhatItAnswers(s: State, step: Step)
    requires step.Signed? && Enabled(s, step)
    ensures !Solicited(Of(s, step.purpose), step) <==> Next(s, step) == s
    ensures Solicited(Of(s, step.purpose), step) ==>
              && Of(Next(s, step), step.purpose).slot == None
              && Of(Next(s, step), step.purpose).installs == Of(s, step.purpose).installs + 1
              && forall requestId, capable, fits ::
                   !Solicited(Of(Next(s, step), step.purpose), Signed(step.purpose, requestId, capable, fits))
    ensures forall p :: p != step.purpose ==> Of(Next(s, step), p) == Of(s, p)
  {
  }

  /** Ticks, of any length, under policies whose stop count `slot` has reached. */
  predicate AllStopped(slot: Slot, ticks: seq<Step>) {
    forall i :: 0 <= i < |ticks| ==> ticks[i].Tick? && HasStopped(slot, ticks[i].policy)
  }

  /** Once stopped, no number of ticks moves the slot, and its own answer is still solicited. */
  lemma {:induction false} StoppedStaysSolicited(s: State, ticks: seq<Step>, p: Purpose)
    requires Of(s, p).slot.Some? && AllStopped(Of(s, p).slot, ticks)
    ensures Runs(s, ticks)
    ensures var e := Execute(s, ticks);
            && Of(e, p).slot == Of(s, p).slot && Of(e, p).due == Of(s, p).due
            && Solicited(Of(e, p), Signed(p, Of(s, p).slot.value.requestId, true, true))
    decreases |ticks|
  {
    if ticks != [] {
      assert ticks[0].Tick?;
      assert AllStopped(Of(s, p).slot, ticks[1..]);
      StoppedStaysSolicited(Next(s, ticks[0]), ticks[1..], p);
    }
  }
}
