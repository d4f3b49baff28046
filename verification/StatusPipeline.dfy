/**
 The status reporting pipeline as interleaved steps: connectors change, the forwarder moves reports
 from its broadcast subscription into the offline queue, and at most one flush at a time carries the
 queue's head through debounce, dedup and the CSMS call (src/availability.rs, src/offline_queue.rs,
 composed as in src/builder.rs).
 */
module StatusPipeline {
  import opened Options
  import opened StatusNotifiers

  /** Where the report being flushed is. `Done` means `notify_status` answered `Ok`. */
  datatype Phase =
    | Idle
    | Taken(report: Report)
    | Waiting(report: Report)
    | Settled(report: Report)
    | Sending(report: Report)
    | Done(report: Report)

  /**
   The station side. `evicted` says that an overflow pushed the report in flight out of the queue.
   */
  datatype Line = Line(
    current: map<Connector, Status>,
    broadcast: seq<Report>,
    queue: seq<Report>,
    capacity: nat,
    phase: Phase,
    evicted: bool)

  /**
   The CSMS side: the dedup cache, the reports dedup answered `Ok`, those the CSMS accepted, those it
   heard at all, and per connector a status it heard through a send that then failed.
   */
  datatype Told = Told(
    cache: Cache,
    answered: seq<Report>,
    delivered: seq<Report>,
    received: seq<Report>,
    unacked: map<Connector, Status>)

  /**
   What happened so far: which connectors ever reported, which lost their last report to an overflow,
   and whether the run ever overflowed the queue, lost an acknowledgement, or debounced.
   */
  datatype Trace = Trace(
    reported: set<Connector>,
    lost: set<Connector>,
    overflowed: bool,
    ackLost: bool,
    debounced: bool)

  /** A report with what the debounce saw of its connector, look by look; `None` for an unknown connector. */
  datatype Looked = Looked(report: Report, looks: seq<Option<Status>>)

  /** The looks at the report in flight so far, and those at every report sent and at every one dropped. */
  datatype Looks = Looks(now: seq<Option<Status>>, sent: seq<Looked>, dropped: seq<Looked>)

  datatype State = State(line: Line, told: Told, trace: Trace, looks: Looks)

  datatype Step =
    | Change(connector: Connector, status: Status)
    | Enqueue
    | Peek
    | FirstCheck(window: nat)
    | SecondCheck
    | Dedup
    | SendAccepted
    | SendFailed(reachedCsms: bool)
    | Pop

  predicate Init(s: State) {
    && 0 < s.line.capacity
    && s.line.broadcast == s.line.queue == []
    && s.line.phase == Idle && !s.line.evicted
    && s.told == Told(map[], [], [], [], map[])
    && s.trace == Trace({}, {}, false, false, false)
    && s.looks == Looks([], [], [])
  }

  predicate Enabled(line: Line, step: Step) {
    match step
    case Change(c, _) => c in line.current
    case Enqueue => line.broadcast != [] && 0 < line.capacity
    case Peek => line.phase.Idle? && line.queue != []
    case FirstCheck(_) => line.phase.Taken?
    case SecondCheck => line.phase.Waiting?
    case Dedup => line.phase.Settled?
    case SendAccepted => line.phase.Sending?
    case SendFailed(_) => line.phase.Sending?
    case Pop => line.phase.Done?
  }

  function PhaseNext(line: Line, cache: Cache, step: Step): Phase
    requires Enabled(line, step)
  {
    match step
    case Change(_, _) => line.phase
    case Enqueue => line.phase
    case Peek => Taken(line.queue[0])
    case FirstCheck(window) =>
      if window == 0 then Settled(line.phase.report)
      else if IsSettled(line.current, line.phase.report) then Waiting(line.phase.report)
      else Done(line.phase.report)
    case SecondCheck =>
      if IsSettled(line.current, line.phase.report) then Settled(line.phase.report) else Done(line.phase.report)
    case Dedup =>
      if IsDuplicate(cache, line.phase.report) then Done(line.phase.report) else Sending(line.phase.report)
    case SendAccepted => Done(line.phase.report)
    case SendFailed(_) => Idle
    case Pop => Idle
  }

  function LineNext(line: Line, cache: Cache, step: Step): Line
    requires Enabled(line, step)
  {
    var phase := PhaseNext(line, cache, step);
    match step
    case Change(c, status) =>
      line.(current := line.current[c := status], broadcast := line.broadcast + [Report(c, status)])
    case Enqueue =>
      line.(broadcast := line.broadcast[1..],
            queue := Pushed(line.queue, line.capacity, line.broadcast[0]),
            evicted := line.evicted || (|line.queue| >= line.capacity && !line.phase.Idle?))
    case SendFailed(_) => line.(phase := phase, evicted := false)
    case Pop =>
      line.(queue := if line.queue == [] then [] else line.queue[1..], phase := phase, evicted := false)
    case _ => line.(phase := phase)
  }

  function ToldNext(told: Told, line: Line, step: Step): Told
    requires Enabled(line, step)
  {
    match step
    case Dedup =>
      if IsDuplicate(told.cache, line.phase.report)
      then told.(answered := told.answered + [line.phase.report]) else told
    case SendAccepted =>
      var r := line.phase.report;
      Told(told.cache[r.connector := r.status],
           told.answered + [r], told.delivered + [r], told.received + [r],
           told.unacked - {r.connector})
    case SendFailed(reachedCsms) =>
      var r := line.phase.report;
      if reachedCsms
      then told.(received := told.received + [r], unacked := told.unacked[r.connector := r.status]) else told
    case _ => told
  }

  /** `lost` once `dropped` left the queue unsent and `rest` is what remains behind it. */
  function LostAfter(lost: set<Connector>, dropped: Report, rest: seq<Report>): set<Connector> {
    if Latest(rest, dropped.connector).None? then lost + {dropped.connector} else lost
  }

  function TraceNext(trace: Trace, line: Line, step: Step): Trace
    requires Enabled(line, step)
  {
    match step
    case Change(c, _) => trace.(reported := trace.reported + {c}, lost := trace.lost - {c})
    case Enqueue =>
      if |line.queue| >= line.capacity
      then trace.(lost := LostAfter(trace.lost, line.queue[0], Pipe(line)[1..]), overflowed := true) else trace
    case FirstCheck(window) => if window > 0 then trace.(debounced := true) else trace
    case SendFailed(reachedCsms) => if reachedCsms then trace.(ackLost := true) else trace
    case Pop =>
      if line.evicted && line.queue != []
      then trace.(lost := LostAfter(trace.lost, line.queue[0], Pipe(line)[1..])) else trace
    case _ => trace
  }

  function Seen(current: map<Connector, Status>, c: Connector): Option<Status> {
    if c in current then Some(current[c]) else None
  }

  function LooksNext(looks: Looks, line: Line, cache: Cache, step: Step): Looks
    requires Enabled(line, step)
  {
    match step
    case Peek => looks.(now := [])
    case FirstCheck(window) =>
      if window == 0 then looks else OneMoreLook(looks, line, PhaseNext(line, cache, step).Done?)
    case SecondCheck => OneMoreLook(looks, line, PhaseNext(line, cache, step).Done?)
    case SendAccepted => looks.(sent := looks.sent + [Looked(line.phase.report, looks.now)])
    case SendFailed(_) => looks.(sent := looks.sent + [Looked(line.phase.report, looks.now)])
    case _ => looks
  }

  /** One more look at the report in flight, after which it may have been dropped. */
  function OneMoreLook(looks: Looks, line: Line, dropped: bool): Looks
    requires !line.phase.Idle?
  {
    var now := looks.now + [Seen(line.current, line.phase.report.connector)];
    Looks(now, looks.sent, if dropped then looks.dropped + [Looked(line.phase.report, now)] else looks.dropped)
  }

  function Next(s: State, step: Step): State
    requires Enabled(s.line, step)
  {
    State(LineNext(s.line, s.told.cache, step), ToldNext(s.told, s.line, step), TraceNext(s.trace, s.line, step),
          LooksNext(s.looks, s.line, s.told.cache, step))
  }

  predicate Runs(s: State, steps: seq<Step>)
    decreases |steps|
  {
    steps == [] || (Enabled(s.line, steps[0]) && Runs(Next(s, steps[0]), steps[1..]))
  }

  function Execute(s: State, steps: seq<Step>): State
    requires Runs(s, steps)
    decreases |steps|
  {
    if steps == [] then s else Execute(Next(s, steps[0]), steps[1..])
  }

  /** Every report still on its way, oldest first. */
  function Pipe(line: Line): seq<Report> {
    line.queue + line.broadcast
  }

  // --- What the pipeline still owes the CSMS -----------------------------------------------------

  /**
   What is still on its way ends in the connector's current status; where nothing is on its way the
   cache already holds it, unless the last report was lost to an overflow.
   */
  predicate Owes(pipe: seq<Report>, c: Connector, current: Status, lost: bool, cache: Cache) {
    var latest := Latest(pipe, c);
    if latest.Some? then latest.value == current
    else lost || (c in cache && cache[c] == current)
  }

  ghost predicate AllOwed(line: Line, cache: Cache, trace: Trace) {
    && trace.reported <= line.current.Keys
    && (forall c :: c in trace.reported ==> Owes(Pipe(line), c, line.current[c], c in trace.lost, cache))
    && (forall i :: 0 <= i < |Pipe(line)| ==> Pipe(line)[i].connector in trace.reported)
  }

  /** A report answered `Ok` is either what the cache holds or was overtaken by one behind it. */
  predicate Answered(pipe: seq<Report>, r: Report, cache: Cache) {
    IsDuplicate(cache, r) || (pipe != [] && Latest(pipe[1..], r.connector).Some?)
  }

  /** The report in flight is the queue's head until an overflow evicts it. */
  predicate FlightInv(line: Line, cache: Cache, trace: Trace) {
    if line.phase.Idle? then !line.evicted
    else
      var r := line.phase.report;
      && r.connector in trace.reported
      && (!line.evicted ==> line.queue != [] && line.queue[0] == r)
      && (r.connector in trace.lost || Latest(Pipe(line), r.connector).Some?)
      && (line.phase.Done? && !line.evicted ==> Answered(Pipe(line), r, cache))
  }

  ghost predicate Inv(line: Line, cache: Cache, trace: Trace) {
    && 0 < line.capacity && |line.queue| <= line.capacity
    && AllOwed(line, cache, trace)
    && FlightInv(line, cache, trace)
  }

  lemma ChangePreserves(s: State, step: Step)
    requires Inv(s.line, s.told.cache, s.trace) && Enabled(s.line, step) && step.Change?
    ensures Inv(Next(s, step).line, Next(s, step).told.cache, Next(s, step).trace)
  {
    var l, t := s.line, Next(s, step).line;
    var news := Report(step.connector, step.status);
    assert Pipe(t) == Pipe(l) + [news];
    forall d ensures Latest(Pipe(t), d) == if d == step.connector then Some(step.status) else Latest(Pipe(l), d) {
      LatestSnoc(Pipe(l), news, d);
    }
    if l.phase.Done? && !l.evicted && Pipe(l) != [] {
      assert Pipe(t)[1..] == Pipe(l)[1..] + [news];
      LatestSnoc(Pipe(l)[1..], news, l.phase.report.connector);
    }
  }

  /** Taking the first report off the pipe, its connector counted as lost when it was the only one. */
  lemma DropKeepsOwed(pipe: seq<Report>, c: Connector, current: Status, lost: set<Connector>, cache: Cache)
    requires pipe != []
    requires Owes(pipe, c, current, c in lost, cache)
    ensures Owes(pipe[1..], c, current, c in LostAfter(lost, pipe[0], pipe[1..]), cache)
  {
    LatestTail(pipe, c);
  }

  /** The head may leave once it was answered: nothing further is owed for it. */
  lemma AnsweredMayLeave(pipe: seq<Report>, c: Connector, current: Status, lost: bool, cache: Cache)
    requires pipe != [] && Answered(pipe, pipe[0], cache)
    requires Owes(pipe, c, current, lost, cache)
    ensures Owes(pipe[1..], c, current, lost, cache)
  {
    LatestTail(pipe, c);
  }

  lemma EnqueuePreserves(s: State)
    requires Inv(s.line, s.told.cache, s.trace) && Enabled(s.line, Enqueue)
    ensures Inv(Next(s, Enqueue).line, Next(s, Enqueue).told.cache, Next(s, Enqueue).trace)
  {
    var l, t := s.line, Next(s, Enqueue).line;
    if |l.queue| < l.capacity {
      assert Pipe(t) == Pipe(l);
    } else {
      assert Pipe(t) == Pipe(l)[1..] && Pipe(l)[0] == l.queue[0];
      forall c | c in s.trace.reported
        ensures Owes(Pipe(t), c, t.current[c], c in Next(s, Enqueue).trace.lost, s.told.cache)
      {
        DropKeepsOwed(Pipe(l), c, l.current[c], s.trace.lost, s.told.cache);
      }
      if !l.phase.Idle? {
        LatestTail(Pipe(l), l.phase.report.connector);
      }
    }
  }

  lemma PopPreserves(s: State)
    requires Inv(s.line, s.told.cache, s.trace) && Enabled(s.line, Pop)
    ensures Inv(Next(s, Pop).line, Next(s, Pop).told.cache, Next(s, Pop).trace)
  {
    var l, t := s.line, Next(s, Pop).line;
    if l.queue == [] {
      assert Pipe(t) == Pipe(l);
    } else {
      assert Pipe(t) == Pipe(l)[1..] && Pipe(l)[0] == l.queue[0];
      forall c | c in s.trace.reported
        ensures Owes(Pipe(t), c, t.current[c], c in Next(s, Pop).trace.lost, s.told.cache)
      {
        if l.evicted {
          DropKeepsOwed(Pipe(l), c, l.current[c], s.trace.lost, s.told.cache);
        } else {
          AnsweredMayLeave(Pipe(l), c, l.current[c], c in s.trace.lost, s.told.cache);
        }
      }
    }
  }

  /** A report the debounce finds overtaken always has a successor queued behind it. */
  lemma SupersededHasSuccessor(line: Line, cache: Cache, trace: Trace)
    requires Inv(line, cache, trace)
    requires !line.phase.Idle? && !line.evicted && !IsSettled(line.current, line.phase.report)
    ensures Answered(Pipe(line), line.phase.report, cache)
  {
    assert Pipe(line)[0] == line.queue[0];
    LatestTail(Pipe(line), line.phase.report.connector);
  }

  lemma MovePreserves(s: State, step: Step)
    requires Inv(s.line, s.told.cache, s.trace) && Enabled(s.line, step)
    requires step.Peek? || step.FirstCheck? || step.SecondCheck? || step.Dedup?
    ensures Inv(Next(s, step).line, Next(s, step).told.cache, Next(s, step).trace)
  {
    var l, t := s.line, Next(s, step).line;
    assert Pipe(t) == Pipe(l);
    if step.Peek? {
      assert Pipe(l)[0] == l.queue[0];
      LatestTail(Pipe(l), l.queue[0].connector);
    } else if !l.evicted && !IsSettled(l.current, l.phase.report) {
      SupersededHasSuccessor(l, s.told.cache, s.trace);
    }
  }

  /** The cache is only overwritten for a connector the pipe still has a report about. */
  lemma SendPreserves(s: State, step: Step)
    requires Inv(s.line, s.told.cache, s.trace) && Enabled(s.line, step)
    requires step.SendAccepted? || step.SendFailed?
    ensures Inv(Next(s, step).line, Next(s, step).told.cache, Next(s, step).trace)
  {
  }

  lemma StepPreserves(s: State, step: Step)
    requires Inv(s.line, s.told.cache, s.trace) && Enabled(s.line, step)
    ensures Inv(Next(s, step).line, Next(s, step).told.cache, Next(s, step).trace)
  {
    match step
    case Change(c, status) => ChangePreserves(s, step);
    case Enqueue => EnqueuePreserves(s);
    case Pop => PopPreserves(s);
    case SendAccepted => SendPreserves(s, step);
    case SendFailed(_) => SendPreserves(s, step);
    case _ => MovePreserves(s, step);
  }

  // --- What the CSMS was told --------------------------------------------------------------------

  /** The cache is exactly the last delivery; what the CSMS heard differs only by unacknowledged sends. */
  ghost predicate Heard(told: Told) {
    forall c ::
      && Latest(told.delivered, c) == (if c in told.cache then Some(told.cache[c]) else None)
      && Latest(told.received, c) == (if c in told.unacked then Some(told.unacked[c]) else Latest(told.delivered, c))
  }

  ghost predicate DeliveredOnce(answered: seq<Report>, delivered: seq<Report>) {
    forall c :: StatusesOf(delivered, c) == Collapsed(StatusesOf(answered, c))
  }

  ghost predicate DeliveryInv(told: Told, phase: Phase) {
    && Heard(told)
    && DeliveredOnce(told.answered, told.delivered)
    && (phase.Sending? ==> !IsDuplicate(told.cache, phase.report))
  }

  lemma HeardAfterSend(told: Told, line: Line, step: Step)
    requires Heard(told) && Enabled(line, step) && (step.SendAccepted? || step.SendFailed?)
    ensures Heard(ToldNext(told, line, step))
  {
  }

  /** Appending an answer keeps the collapse, whether it was sent on or recognised as a repeat. */
  lemma AnswerCollapses(cache: Cache, answered: seq<Report>, delivered: seq<Report>, r: Report, c: Connector)
    requires StatusesOf(delivered, c) == Collapsed(StatusesOf(answered, c))
    requires Latest(delivered, c) == if c in cache then Some(cache[c]) else None
    ensures StatusesOf(if IsDuplicate(cache, r) then delivered else delivered + [r], c)
            == Collapsed(StatusesOf(answered + [r], c))
  {
    StatusesOfSnoc(answered, r, c);
    StatusesOfSnoc(delivered, r, c);
    if r.connector == c {
      LatestIsLastStatus(delivered, c);
      CollapsedSnoc(StatusesOf(answered, c), r.status);
    } else {
      assert StatusesOf(answered, c) + [] == StatusesOf(answered, c);
      assert StatusesOf(delivered, c) + [] == StatusesOf(delivered, c);
    }
  }

  lemma AnswerKeepsCollapse(told: Told, r: Report)
    requires Heard(told) && DeliveredOnce(told.answered, told.delivered)
    ensures DeliveredOnce(told.answered + [r],
                          if IsDuplicate(told.cache, r) then told.delivered else told.delivered + [r])
  {
    forall c
      ensures StatusesOf(if IsDuplicate(told.cache, r) then told.delivered else told.delivered + [r], c)
              == Collapsed(StatusesOf(told.answered + [r], c))
    {
      AnswerCollapses(told.cache, told.answered, told.delivered, r, c);
    }
  }

  lemma DeliveryPreserved(s: State, step: Step)
    requires DeliveryInv(s.told, s.line.phase) && Enabled(s.line, step)
    ensures DeliveryInv(Next(s, step).told, Next(s, step).line.phase)
  {
    if step.SendAccepted? || step.SendFailed? {
      HeardAfterSend(s.told, s.line, step);
    }
    if step.SendAccepted? || step.Dedup? {
      AnswerKeepsCollapse(s.told, s.line.phase.report);
    }
  }

  // --- Overflow, lost acknowledgements and the debounce ------------------------------------------

  /** Without debounce and overflow, an unacknowledged report is still the head and will be resent. */
  ghost predicate HeadIsRetried(line: Line, told: Told) {
    && !line.phase.Waiting?
    && (line.phase.Done? ==> told.unacked == map[])
    && (forall c :: c in told.unacked ==>
          && line.queue != [] && line.queue[0] == Report(c, told.unacked[c])
          && !IsDuplicate(told.cache, line.queue[0]))
  }

  ghost predicate HistoryInv(s: State) {
    && (!s.trace.overflowed ==> s.trace.lost == {} && !s.line.evicted)
    && (!s.trace.ackLost ==> s.told.unacked == map[])
    && (!s.trace.overflowed && !s.trace.debounced ==> HeadIsRetried(s.line, s.told))
  }

  lemma RetryPreserved(s: State, step: Step)
    requires !s.line.phase.Idle? ==> s.line.queue != [] && s.line.queue[0] == s.line.phase.report
    requires s.line.phase.Sending? ==> !IsDuplicate(s.told.cache, s.line.phase.report)
    requires HeadIsRetried(s.line, s.told) && Enabled(s.line, step)
    requires step.FirstCheck? ==> step.window == 0
    requires step.Enqueue? ==> |s.line.queue| < s.line.capacity
    ensures HeadIsRetried(Next(s, step).line, Next(s, step).told)
  {
  }

  lemma HistoryPreserved(s: State, step: Step)
    requires Inv(s.line, s.told.cache, s.trace) && DeliveryInv(s.told, s.line.phase) && HistoryInv(s)
    requires Enabled(s.line, step)
    ensures HistoryInv(Next(s, step))
  {
    if !Next(s, step).trace.overflowed && !Next(s, step).trace.debounced {
      RetryPreserved(s, step);
    }
  }

  // --- What the debounce saw ---------------------------------------------------------------------

  /** The status held, or the connector could not be checked, at every look. */
  predicate HeldThroughout(l: Looked) {
    forall i :: 0 <= i < |l.looks| ==> l.looks[i] == None || l.looks[i] == Some(l.report.status)
  }

  /** The looks before the last one found the status holding, and the last one found another. */
  predicate MovedOnAtLast(l: Looked) {
    && l.looks != []
    && HeldThroughout(Looked(l.report, l.looks[..|l.looks| - 1]))
    && l.looks[|l.looks| - 1].Some? && l.looks[|l.looks| - 1].value != l.report.status
  }

  predicate LooksInv(looks: Looks, phase: Phase) {
    && (phase.Taken? ==> looks.now == [])
    && (phase.Waiting? ==> |looks.now| == 1 && HeldThroughout(Looked(phase.report, looks.now)))
    && (phase.Settled? || phase.Sending? ==>
          (|looks.now| == 0 || |looks.now| == 2) && HeldThroughout(Looked(phase.report, looks.now)))
    && (forall i :: 0 <= i < |looks.sent| ==>
          (|looks.sent[i].looks| == 0 || |looks.sent[i].looks| == 2) && HeldThroughout(looks.sent[i]))
    && (forall i :: 0 <= i < |looks.dropped| ==> MovedOnAtLast(looks.dropped[i]))
  }

  /** One more look at a report that held so far either finds it holding still or finds it moved on. */
  lemma OneMoreLookTells(current: map<Connector, Status>, report: Report, looks: seq<Option<Status>>)
    requires HeldThroughout(Looked(report, looks))
    ensures var more := Looked(report, looks + [Seen(current, report.connector)]);
            if IsSettled(current, report) then HeldThroughout(more) else MovedOnAtLast(more)
  {
    var more := looks + [Seen(current, report.connector)];
    assert more[..|more| - 1] == looks;
  }

  lemma LookKeepsInv(looks: Looks, line: Line, cache: Cache, step: Step)
    requires LooksInv(looks, line.phase) && Enabled(line, step) && (step.FirstCheck? || step.SecondCheck?)
    ensures LooksInv(LooksNext(looks, line, cache, step), PhaseNext(line, cache, step))
  {
    OneMoreLookTells(line.current, line.phase.report, looks.now);
  }

  lemma LooksPreserved(looks: Looks, line: Line, cache: Cache, step: Step)
    requires LooksInv(looks, line.phase) && Enabled(line, step)
    ensures LooksInv(LooksNext(looks, line, cache, step), PhaseNext(line, cache, step))
  {
    if step.FirstCheck? || step.SecondCheck? {
      LookKeepsInv(looks, line, cache, step);
    }
  }

  lemma {:induction false} RunKeepsLooks(s: State, steps: seq<Step>)
    requires LooksInv(s.looks, s.line.phase) && Runs(s, steps)
    ensures LooksInv(Execute(s, steps).looks, Execute(s, steps).line.phase)
    decreases |steps|
  {
    if steps != [] {
      LooksPreserved(s.looks, s.line, s.told.cache, steps[0]);
      RunKeepsLooks(Next(s, steps[0]), steps[1..]);
    }
  }

  /**
   In every run: a report is sent without any look, where no window was set, or after two looks, one on
   each side of the wait, at both of which its connector still had the reported status or was unknown;
   and one is dropped exactly at the first look that finds the connector moved on.
   */
  lemma DebounceIsExact(s: State, steps: seq<Step>)
    requires Init(s) && Runs(s, steps)
    ensures var looks := Execute(s, steps).looks;
            && (forall i :: 0 <= i < |looks.sent| ==>
                  (|looks.sent[i].looks| == 0 || |looks.sent[i].looks| == 2) && HeldThroughout(looks.sent[i]))
            && (forall i :: 0 <= i < |looks.dropped| ==> MovedOnAtLast(looks.dropped[i]))
  {
    RunKeepsLooks(s, steps);
  }

  // --- Whole runs --------------------------------------------------------------------------------

  ghost predicate Good(s: State) {
    Inv(s.line, s.told.cache, s.trace) && DeliveryInv(s.told, s.line.phase) && HistoryInv(s)
  }

  lemma InitIsGood(s: State)
    requires Init(s)
    ensures Good(s)
  {
  }

  lemma {:induction false} RunIsGood(s: State, steps: seq<Step>)
    requires Good(s) && Runs(s, steps)
    ensures Good(Execute(s, steps))
    decreases |steps|
  {
    if steps != [] {
      StepPreserves(s, steps[0]);
      DeliveryPreserved(s, steps[0]);
      HistoryPreserved(s, steps[0]);
      RunIsGood(Next(s, steps[0]), steps[1..]);
    }
  }

  predicate Drained(s: State) {
    s.line.broadcast == s.line.queue == [] && s.line.phase.Idle?
  }

  /**
   Convergence. In every drained state of every run, a connector whose last report was not lost to an
   overflow has its current status in the cache, and the CSMS agrees exactly when no unacknowledged
   send left it with another one. A run that never overflows the queue, and either never loses an
   acknowledgement or never debounces, therefore ends with the CSMS right about every connector.
   */
  lemma Convergence(s: State, steps: seq<Step>)
    requires Init(s) && Runs(s, steps) && Drained(Execute(s, steps))
    ensures var e := Execute(s, steps);
            forall c :: c in e.trace.reported ==>
              && c in e.line.current
              && (c !in e.trace.lost ==>
                    && c in e.told.cache && e.told.cache[c] == e.line.current[c]
                    && (Latest(e.told.received, c) == Some(e.line.current[c])
                        <==> (c in e.told.unacked ==> e.told.unacked[c] == e.line.current[c])))
    ensures var e := Execute(s, steps);
            !e.trace.overflowed && (!e.trace.ackLost || !e.trace.debounced) ==>
              forall c :: c in e.trace.reported ==> Latest(e.told.received, c) == Some(e.line.current[c])
  {
    InitIsGood(s);
    RunIsGood(s, steps);
    assert Pipe(Execute(s, steps).line) == [];
  }

  /**
   In every run the cache is the last status delivered for each connector, and the statuses delivered
   for a connector are those dedup answered `Ok` with adjacent repeats removed.
   */
  lemma DeliveredExactlyTheChanges(s: State, steps: seq<Step>, c: Connector)
    requires Init(s) && Runs(s, steps)
    ensures var told := Execute(s, steps).told;
            && Latest(told.delivered, c) == (if c in told.cache then Some(told.cache[c]) else None)
            && StatusesOf(told.delivered, c) == Collapsed(StatusesOf(told.answered, c))
  {
    InitIsGood(s);
    RunIsGood(s, steps);
  }

  // --- Runs that do not converge -----------------------------------------------------------------

  const PLUG := Connector(0, 0)

  function Fresh(capacity: nat): State {
    State(Line(map[PLUG := Available], [], [], capacity, Idle, false),
          Told(map[], [], [], [], map[]),
          Trace({}, {}, false, false, false),
          Looks([], [], []))
  }

  /** Extends a run by one step, naming the state it reaches. */
  lemma {:induction false} Then(s: State, steps: seq<Step>, e: State, step: Step)
    returns (longer: seq<Step>, next: State)
    requires Runs(s, steps) && Execute(s, steps) == e && Enabled(e.line, step)
    ensures longer == steps + [step] && next == Next(e, step)
    ensures Runs(s, longer) && Execute(s, longer) == next
  {
    longer, next := steps + [step], Next(e, step);
    assert Runs(next, []);
    assert [step][1..] == [];
    Concatenated(s, steps, [step]);
  }

  lemma {:induction false} Concatenated(s: State, first: seq<Step>, second: seq<Step>)
    requires Runs(s, first) && Runs(Execute(s, first), second)
    ensures Runs(s, first + second) && Execute(s, first + second) == Execute(Execute(s, first), second)
    decreases |first|
  {
    if first == [] {
      assert first + second == second;
    } else {
      assert (first + second)[1..] == first[1..] + second;
      Concatenated(Next(s, first[0]), first[1..], second);
    }
  }

  /** From rest: the plug changes to a status not in the cache and its report is being sent, not debounced. */
  lemma SendStarts(s: State, status: Status) returns (steps: seq<Step>, e: State)
    requires Drained(s) && PLUG in s.line.current && 0 < s.line.capacity && !s.line.evicted
    requires !IsDuplicate(s.told.cache, Report(PLUG, status))
    ensures Runs(s, steps) && e == Execute(s, steps)
    ensures && e.line == s.line.(current := s.line.current[PLUG := status],
                                 queue := [Report(PLUG, status)], phase := Sending(Report(PLUG, status)))
            && e.told == s.told
            && e.trace == s.trace.(reported := s.trace.reported + {PLUG}, lost := s.trace.lost - {PLUG})
  {
    steps, e := Then(s, [], s, Change(PLUG, status));
    steps, e := Then(s, steps, e, Enqueue);
    steps, e := Then(s, steps, e, Peek);
    steps, e := Then(s, steps, e, FirstCheck(0));
    steps, e := Then(s, steps, e, Dedup);
    assert e.line.queue == [Report(PLUG, status)] && e.line.broadcast == [];
  }

  /** From rest: the plug changes to a status not in the cache and the report is sent without debounce. */
  lemma ReportOnce(s: State, status: Status, accepted: bool) returns (steps: seq<Step>)
    requires Drained(s) && PLUG in s.line.current && 0 < s.line.capacity && !s.line.evicted
    requires !IsDuplicate(s.told.cache, Report(PLUG, status))
    ensures Runs(s, steps)
    ensures var r := Report(PLUG, status);
            var e := Execute(s, steps);
            && e.line == s.line.(current := s.line.current[PLUG := status],
                                 queue := if accepted then [] else [r])
            && e.told == (if accepted
                          then Told(s.told.cache[PLUG := status], s.told.answered + [r], s.told.delivered + [r],
                                    s.told.received + [r], s.told.unacked - {PLUG})
                          else s.told.(received := s.told.received + [r],
                                       unacked := s.told.unacked[PLUG := status]))
            && e.trace == s.trace.(reported := s.trace.reported + {PLUG}, lost := s.trace.lost - {PLUG},
                                   ackLost := s.trace.ackLost || !accepted)
  {
    var e;
    steps, e := SendStarts(s, status);
    if accepted {
      steps, e := Then(s, steps, e, SendAccepted);
      steps, e := Then(s, steps, e, Pop);
    } else {
      steps, e := Then(s, steps, e, SendFailed(true));
    }
  }

  /** With a debounce window, a head that was overtaken is dropped unsent. */
  lemma HeadIsDropped(s: State) returns (steps: seq<Step>, e: State)
    requires s.line.phase.Idle? && !s.line.evicted && 0 < s.line.capacity
    requires s.line.queue == [Report(PLUG, Occupied)] && s.line.broadcast == [] && PLUG in s.line.current
    ensures Runs(s, steps) && e == Execute(s, steps)
    ensures e.line == s.line.(current := s.line.current[PLUG := Available],
                              broadcast := [Report(PLUG, Available)], queue := [])
    ensures e.told == s.told && e.trace.overflowed == s.trace.overflowed && PLUG in e.trace.reported
  {
    steps, e := Then(s, [], s, Change(PLUG, Available));
    steps, e := Then(s, steps, e, Peek);
    steps, e := Then(s, steps, e, FirstCheck(5));
    steps, e := Then(s, steps, e, Pop);
    assert e.line.queue == [];
  }

  /** A debounced report whose status the cache already holds is found to be a repeat. */
  lemma RepeatIsSuppressed(s: State) returns (steps: seq<Step>)
    requires s.line.phase.Idle? && !s.line.evicted && 0 < s.line.capacity && s.line.queue == []
    requires s.line.broadcast == [Report(PLUG, Available)]
    requires s.line.current == map[PLUG := Available] && s.told.cache == map[PLUG := Available]
    ensures Runs(s, steps) && Drained(Execute(s, steps))
    ensures var e := Execute(s, steps);
            && e.line.current == s.line.current && e.told.received == s.told.received
            && e.trace.overflowed == s.trace.overflowed && e.trace.reported == s.trace.reported
  {
    var e;
    steps, e := Then(s, [], s, Enqueue);
    assert e.line.queue == [Report(PLUG, Available)] && e.line.broadcast == [];
    steps, e := Then(s, steps, e, Peek);
    steps, e := Then(s, steps, e, FirstCheck(5));
    steps, e := Then(s, steps, e, SecondCheck);
    steps, e := Then(s, steps, e, Dedup);
    steps, e := Then(s, steps, e, Pop);
  }

  /**
   Whatever the capacity, a send whose acknowledgement is lost, a connector that moves back, and a
   debounce that drops the retry: dedup then suppresses the one report that would have corrected the
   CSMS.
   */
  lemma LostAcknowledgementDiverges(capacity: nat) returns (steps: seq<Step>)
    requires 0 < capacity
    ensures Init(Fresh(capacity)) && Runs(Fresh(capacity), steps)
    ensures var e := Execute(Fresh(capacity), steps);
            && Drained(e) && !e.trace.overflowed && PLUG in e.trace.reported
            && e.line.current == map[PLUG := Available]
            && Latest(e.told.received, PLUG) == Some(Occupied)
  {
    var s := Fresh(capacity);
    steps := ReportOnce(s, Available, true);
    var more := ReportOnce(Execute(s, steps), Occupied, false);
    Concatenated(s, steps, more);
    steps := steps + more;
    var e;
    more, e := HeadIsDropped(Execute(s, steps));
    Concatenated(s, steps, more);
    steps := steps + more;
    more := RepeatIsSuppressed(e);
    Concatenated(s, steps, more);
    steps := steps + more;
    LatestSnoc([Report(PLUG, Available)], Report(PLUG, Occupied), PLUG);
  }

  /**
   One overflow can lose two reports: the push evicts the report being sent, and the pop after its
   send then removes one that never was.
   */
  lemma OverflowDiverges() returns (steps: seq<Step>)
    ensures Init(Fresh(1)) && Runs(Fresh(1), steps)
    ensures var e := Execute(Fresh(1), steps);
            && Drained(e) && !e.trace.ackLost && !e.trace.debounced && PLUG in e.trace.reported
            && e.line.current == map[PLUG := Available]
            && Latest(e.told.received, PLUG) == Some(Occupied)
  {
    var s, e := Fresh(1), Fresh(1);
    steps, e := SendStarts(s, Occupied);
    steps, e := Then(s, steps, e, Change(PLUG, Available));
    steps, e := Then(s, steps, e, Enqueue);
    assert e.line.queue == [Report(PLUG, Available)] && e.line.evicted;
    steps, e := Then(s, steps, e, SendAccepted);
    steps, e := Then(s, steps, e, Pop);
    assert e.told.received == [Report(PLUG, Occupied)];
  }

  // --- Draining is always possible ---------------------------------------------------------------

  /** The step that brings the reports on their way forward, if there are any. */
  function Forward(line: Line): Option<Step> {
    match line.phase
    case Taken(_) => Some(FirstCheck(0))
    case Waiting(_) => Some(SecondCheck)
    case Settled(_) => Some(Dedup)
    case Sending(_) => Some(SendAccepted)
    case Done(_) => Some(Pop)
    case Idle => if line.queue != [] then Some(Peek) else if line.broadcast != [] then Some(Enqueue) else None
  }

  function StagesLeft(line: Line): nat {
    match line.phase
    case Idle => if line.queue == [] then 0 else 6
    case Taken(_) => 5
    case Waiting(_) => 4
    case Settled(_) => 3
    case Sending(_) => 2
    case Done(_) => 1
  }

  /** Nothing on its way is about `c`. */
  predicate AboutOthers(line: Line, c: Connector) {
    && (forall i :: 0 <= i < |line.queue| ==> line.queue[i].connector != c)
    && (forall i :: 0 <= i < |line.broadcast| ==> line.broadcast[i].connector != c)
    && (line.phase.Idle? || line.phase.report.connector != c)
  }

  lemma ForwardProgresses(s: State)
    requires 0 < s.line.capacity && Forward(s.line).Some?
    ensures var step := Forward(s.line).value;
            && Enabled(s.line, step)
            && var e := LineNext(s.line, s.told.cache, step);
               && (|| |e.broadcast| < |s.line.broadcast|
                   || (e.broadcast == s.line.broadcast && |e.queue| < |s.line.queue|)
                   || (e.broadcast == s.line.broadcast && e.queue == s.line.queue
                       && StagesLeft(e) < StagesLeft(s.line)))
               && e.capacity == s.line.capacity && e.current == s.line.current
               && TraceNext(s.trace, s.line, step) == s.trace.(lost := TraceNext(s.trace, s.line, step).lost)
  {
  }

  lemma ForwardTellsOthersNothing(s: State, c: Connector)
    requires 0 < s.line.capacity && Forward(s.line).Some? && Enabled(s.line, Forward(s.line).value)
    requires AboutOthers(s.line, c)
    ensures AboutOthers(LineNext(s.line, s.told.cache, Forward(s.line).value), c)
    ensures Latest(ToldNext(s.told, s.line, Forward(s.line).value).received, c) == Latest(s.told.received, c)
  {
    if s.line.phase.Sending? {
      LatestSnoc(s.told.received, s.line.phase.report, c);
    }
  }

  /**
   From every state some run drains the pipeline, with no further change, overflow, lost
   acknowledgement or debounce, and telling the CSMS nothing about connectors with no report on its way.
   */
  lemma {:induction false} CanDrain(s: State, c: Connector) returns (steps: seq<Step>)
    requires 0 < s.line.capacity
    ensures Runs(s, steps) && Drained(Execute(s, steps))
    ensures var e := Execute(s, steps);
            && e.line.current == s.line.current && e.trace == s.trace.(lost := e.trace.lost)
            && (AboutOthers(s.line, c) ==> Latest(e.told.received, c) == Latest(s.told.received, c))
    decreases |s.line.broadcast|, |s.line.queue|, StagesLeft(s.line)
  {
    steps := [];
    if Forward(s.line).Some? {
      var step := Forward(s.line).value;
      ForwardProgresses(s);
      if AboutOthers(s.line, c) {
        ForwardTellsOthersNothing(s, c);
      }
      var rest := CanDrain(Next(s, step), c);
      steps := [step] + rest;
      assert steps[1..] == rest;
    }
  }

  // --- When every run converges ------------------------------------------------------------------

  const NEIGHBOUR := Connector(0, 1)

  function Pair(capacity: nat): State {
    State(Line(map[PLUG := Available, NEIGHBOUR := Available], [], [], capacity, Idle, false),
          Told(map[], [], [], [], map[]),
          Trace({}, {}, false, false, false),
          Looks([], [], []))
  }

  /** The queue after one report of the plug and `n` of its neighbour, nothing having been sent. */
  predicate Flooding(line: Line, n: nat) {
    && line.phase.Idle? && !line.evicted && line.broadcast == [] && 0 < line.capacity
    && line.current.Keys == {PLUG, NEIGHBOUR} && line.current[PLUG] == Occupied
    && |line.queue| == (if n < line.capacity then n + 1 else line.capacity)
    && forall i :: 0 <= i < |line.queue| ==> line.queue[i].connector != PLUG || (i == 0 && n < line.capacity)
  }

  lemma FloodStep(line: Line, n: nat)
    requires Flooding(line, n) && n < line.capacity
    ensures var broadcast := LineNext(line, map[], Change(NEIGHBOUR, Occupied));
            Enabled(broadcast, Enqueue) && Flooding(LineNext(broadcast, map[], Enqueue), n + 1)
  {
  }

  lemma {:induction false} Flooded(capacity: nat, n: nat) returns (steps: seq<Step>)
    requires 0 < capacity && n <= capacity
    ensures Runs(Pair(capacity), steps)
    ensures var e := Execute(Pair(capacity), steps);
            && Flooding(e.line, n) && e.line.capacity == capacity && e.told.received == []
            && PLUG in e.trace.reported && !e.trace.ackLost && !e.trace.debounced
  {
    var s, e := Pair(capacity), Pair(capacity);
    if n == 0 {
      steps, e := Then(s, [], s, Change(PLUG, Occupied));
      steps, e := Then(s, steps, e, Enqueue);
    } else {
      steps := Flooded(capacity, n - 1);
      e := Execute(s, steps);
      FloodStep(e.line, n - 1);
      steps, e := Then(s, steps, e, Change(NEIGHBOUR, Occupied));
      steps, e := Then(s, steps, e, Enqueue);
    }
  }

  /** Whatever the capacity, enough reports about one connector push out the only one about another. */
  lemma FloodDiverges(capacity: nat) returns (steps: seq<Step>)
    requires 0 < capacity
    ensures Init(Pair(capacity)) && Runs(Pair(capacity), steps)
    ensures var e := Execute(Pair(capacity), steps);
            && Drained(e) && !e.trace.ackLost && !e.trace.debounced && PLUG in e.trace.reported
            && PLUG in e.line.current && Latest(e.told.received, PLUG) == None
  {
    steps := Flooded(capacity, capacity);
    var more := CanDrain(Execute(Pair(capacity), steps), PLUG);
    Concatenated(Pair(capacity), steps, more);
    steps := steps + more;
  }

  /** What a run is allowed to meet. */
  datatype Mishaps = Mishaps(overflow: bool, lostAck: bool, debounce: bool)

  predicate Within(trace: Trace, may: Mishaps) {
    (trace.overflowed ==> may.overflow) && (trace.ackLost ==> may.lostAck) && (trace.debounced ==> may.debounce)
  }

  /** The last status the CSMS heard about each reported connector is its current one. */
  ghost predicate Agreed(s: State) {
    forall c :: c in s.trace.reported ==>
      c in s.line.current && Latest(s.told.received, c) == Some(s.line.current[c])
  }

  /**
   For every queue capacity: all drained runs end with the CSMS right about every reported connector
   exactly if the queue never overflows and lost acknowledgements do not meet a debounce window.
   */
  lemma ConvergenceIff(capacity: nat, may: Mishaps)
    requires 0 < capacity
    ensures (forall s, steps :: Init(s) && s.line.capacity == capacity && Runs(s, steps)
                                && Drained(Execute(s, steps)) && Within(Execute(s, steps).trace, may) ==>
               Agreed(Execute(s, steps)))
            <==> !may.overflow && !(may.lostAck && may.debounce)
  {
    if may.overflow {
      var steps := FloodDiverges(capacity);
      assert !Agreed(Execute(Pair(capacity), steps));
    } else if may.lostAck && may.debounce {
      var steps := LostAcknowledgementDiverges(capacity);
      assert !Agreed(Execute(Fresh(capacity), steps));
    } else {
      forall s, steps | Init(s) && s.line.capacity == capacity && Runs(s, steps)
                        && Drained(Execute(s, steps)) && Within(Execute(s, steps).trace, may)
        ensures Agreed(Execute(s, steps))
      {
        Convergence(s, steps);
      }
    }
  }
}
