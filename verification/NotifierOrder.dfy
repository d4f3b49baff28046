/**
 Why the debounce wraps the duplicate filter and not the other way round (src/availability.rs,
 src/builder.rs): a report dropped underneath the filter would be remembered as sent.
 */
module NotifierOrder {
  import opened Options
  import opened StatusNotifiers

  /**
   One `notify_status` call with what it meets on the way: the window in force, the connectors' statuses
   at the first and, after the wait, at the second look, and whether the CSMS would accept the send.
   */
  datatype Call = Call(
    report: Report,
    window: nat,
    atFirst: map<Connector, Status>,
    atSecond: map<Connector, Status>,
    accepted: bool)

  /** Whether the debounce hands the call on rather than dropping it with `Ok`. */
  predicate Passes(call: Call) {
    call.window == 0 || (IsSettled(call.atFirst, call.report) && IsSettled(call.atSecond, call.report))
  }

  /** The filter's cache beside everything the CSMS accepted. */
  datatype Link = Link(cache: Cache, heard: seq<Report>)

  function Sent(l: Link, r: Report): Link {
    Link(l.cache[r.connector := r.status], l.heard + [r])
  }

  /** The order the crate builds: debounce first, then dedup, then the CSMS. */
  function DebounceOutside(l: Link, call: Call): Link {
    if !Passes(call) || IsDuplicate(l.cache, call.report) || !call.accepted then l
    else Sent(l, call.report)
  }

  /** The swapped order: a drop underneath dedup comes back as `Ok` and is cached. */
  function DedupOutside(l: Link, call: Call): Link {
    if IsDuplicate(l.cache, call.report) then l
    else if !Passes(call) then l.(cache := l.cache[call.report.connector := call.report.status])
    else if !call.accepted then l
    else Sent(l, call.report)
  }

  /** The connectors' statuses as the actor publishes them. */
  class Actor {
    var current: map<Connector, Status>

    /** A wait, during which the statuses may become anything. */
    method Wait(later: map<Connector, Status>)
      modifies this
      ensures current == later
    {
      current := later;
    }
  }

  /** Debounce over dedup, as objects. */
  class MinimumStatusDurationNotifier {
    const inner: DedupedStatusNotifier
    const actor: Actor

    constructor (inner: DedupedStatusNotifier, actor: Actor)
      ensures this.inner == inner && this.actor == actor
    {
      this.inner := inner;
      this.actor := actor;
    }

    method CurrentStatus(connector: Connector) returns (status: Option<Status>)
      ensures status == if connector in actor.current then Some(actor.current[connector]) else None
    {
      status := if connector in actor.current then Some(actor.current[connector]) else None;
    }

    method NotifyStatus(call: Call) returns (ok: bool, reached: bool)
      requires actor.current == call.atFirst
      modifies inner, actor
      ensures forall heard :: inner.lastSent == DebounceOutside(Link(old(inner.lastSent), heard), call).cache
      ensures reached <==>
                && (call.window == 0 || !(MovedOn(call.atFirst, call.report) || MovedOn(call.atSecond, call.report)))
                && !(call.report.connector in old(inner.lastSent)
                     && old(inner.lastSent)[call.report.connector] == call.report.status)
      ensures ok <==> (reached ==> call.accepted)
      ensures actor.current == if call.window > 0 && IsSettled(call.atFirst, call.report)
                               then call.atSecond else call.atFirst
    {
      if call.window == 0 {
        ok, reached := inner.NotifyStatus(call.report, call.accepted);
        return;
      }
      var current := CurrentStatus(call.report.connector);
      if current.Some? && current.value != call.report.status {
        return true, false;
      }
      actor.Wait(call.atSecond);
      current := CurrentStatus(call.report.connector);
      if current.Some? && current.value != call.report.status {
        return true, false;
      }
      ok, reached := inner.NotifyStatus(call.report, call.accepted);
    }
  }

  /** The connector is known and has another status than the report says. */
  predicate MovedOn(current: map<Connector, Status>, r: Report) {
    r.connector in current && current[r.connector] != r.status
  }

  /**
   One call in the order built. With a window, a connector that had moved on at either look leaves
   cache and CSMS as they were; a status that held or could not be checked at both looks, or met no
   window, is heard and remembered exactly if it is new and accepted.
   */
  lemma DebounceForwardsIff(l: Link, call: Call)
    ensures var held := call.window == 0
                        || !(MovedOn(call.atFirst, call.report) || MovedOn(call.atSecond, call.report));
            var known := call.report.connector in l.cache && l.cache[call.report.connector] == call.report.status;
            DebounceOutside(l, call) ==
            if held && !known && call.accepted
            then Link(l.cache[call.report.connector := call.report.status], l.heard + [call.report])
            else l
  {
  }

  /** The cache says exactly what the CSMS last accepted for each connector. */
  ghost predicate Honest(l: Link) {
    forall c :: Latest(l.heard, c) == if c in l.cache then Some(l.cache[c]) else None
  }

  lemma SentIsHonest(l: Link, r: Report)
    requires Honest(l)
    ensures Honest(Sent(l, r))
  {
  }

  function AllOutside(l: Link, calls: seq<Call>): Link {
    if calls == [] then l else DebounceOutside(AllOutside(l, calls[..|calls| - 1]), calls[|calls| - 1])
  }

  function AllSwapped(l: Link, calls: seq<Call>): Link {
    if calls == [] then l else DedupOutside(AllSwapped(l, calls[..|calls| - 1]), calls[|calls| - 1])
  }

  /** With debounce outside, no sequence of calls makes the cache claim something the CSMS never got. */
  lemma {:induction false} DebounceOutsideStaysHonest(calls: seq<Call>)
    ensures Honest(AllOutside(START, calls))
  {
    if calls != [] {
      DebounceOutsideStaysHonest(calls[..|calls| - 1]);
      SentIsHonest(AllOutside(START, calls[..|calls| - 1]), calls[|calls| - 1].report);
    }
  }

  /** Swapped, an honest cache survives a call exactly when the debounce does not drop a new status. */
  lemma SwappedIsHonestIff(l: Link, call: Call)
    requires Honest(l)
    ensures Honest(DedupOutside(l, call)) <==> Passes(call) || IsDuplicate(l.cache, call.report)
  {
  }

  const START := Link(map[], [])

  lemma TwoMore(calls: seq<Call>, first: Call, second: Call)
    ensures AllOutside(START, calls + [first, second])
            == DebounceOutside(DebounceOutside(AllOutside(START, calls), first), second)
    ensures AllSwapped(START, calls + [first, second])
            == DedupOutside(DedupOutside(AllSwapped(START, calls), first), second)
  {
    var one, two := calls + [first], calls + [first, second];
    assert two[..|two| - 1] == one && one[..|one| - 1] == calls;
  }

  /**
   After any calls at all, a new status that bounces once and then settles: the order built delivers
   it, the swapped order suppresses it although the CSMS never heard it.
   */
  lemma SwappedSuppressesUnheard(calls: seq<Call>, bounced: Call, settled: Call)
    requires bounced.report == settled.report && !Passes(bounced) && Passes(settled) && settled.accepted
    ensures !IsDuplicate(AllOutside(START, calls).cache, settled.report) ==>
              AllOutside(START, calls + [bounced, settled]).heard
              == AllOutside(START, calls).heard + [settled.report]
    ensures AllSwapped(START, calls + [bounced, settled]).heard == AllSwapped(START, calls).heard
    ensures var before, after := AllSwapped(START, calls), AllSwapped(START, calls + [bounced, settled]);
            Honest(before) && !IsDuplicate(before.cache, settled.report) ==>
              && IsDuplicate(after.cache, settled.report)
              && Latest(after.heard, settled.report.connector) != Some(settled.report.status)
  {
    TwoMore(calls, bounced, settled);
  }
}
