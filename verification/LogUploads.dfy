/**
 The log upload protocol of OCPP use case N01 (src/diagnostics.rs): a handler that answers a `GetLog`
 at once and queues the upload under a fresh ticket, and one worker that uploads, retries and reports.
 Every stretch of code between two awaits is one step, and handler and worker steps interleave freely.
 */
module LogUploads {
  datatype Answer = Rejected | Accepted | AcceptedCanceled
  datatype Status = Uploading | Uploaded | UploadFailure

  // --- The shared objects ------------------------------------------------------------------------

  /** The newest ticket, and whether its upload is still to be settled. */
  class LogUploadState {
    var current: nat
    var inFlight: bool

    constructor ()
      ensures current == 0 && !inFlight
    {
      current, inFlight := 0, false;
    }

    method Claim() returns (ticket: nat, superseded: bool)
      modifies this
      ensures ticket == current == old(current) + 1
      ensures inFlight && superseded == old(inFlight)
    {
      superseded := inFlight;
      current := current + 1;
      inFlight := true;
      ticket := current;
    }

    method IsCurrent(ticket: nat) returns (yes: bool)
      ensures yes <==> current == ticket
    {
      yes := current == ticket;
    }

    /** Only the current upload may clear the flag its replacement would be relying on. */
    method Finish(ticket: nat)
      modifies this
      ensures current == old(current)
      ensures inFlight == (old(inFlight) && old(current) != ticket)
    {
      if current == ticket {
        inFlight := false;
      }
    }
  }

  /** The bounded channel between handler and worker. A full channel refuses the value. */
  class Chan {
    var queue: seq<nat>
    const capacity: nat

    constructor (wanted: nat)
      ensures queue == [] && capacity == if wanted < 1 then 1 else wanted
    {
      queue := [];
      capacity := if wanted < 1 then 1 else wanted;
    }

    method Send(value: nat) returns (queued: bool)
      modifies this
      ensures queued <==> |old(queue)| < capacity
      ensures queue == old(queue) + if queued then [value] else []
    {
      if |queue| >= capacity {
        return false;
      }
      queue := queue + [value];
      return true;
    }

    method Recv() returns (value: nat)
      requires queue != []
      modifies this
      ensures [value] + queue == old(queue)
    {
      value := queue[0];
      queue := queue[1..];
    }
  }

  /** What the handler answers; `Rejected` exactly when there is nothing it could upload or nowhere to. */
  method HandleGetLog(uploads: Chan, state: LogUploadState, capable: bool, remoteLocation: string)
    returns (answer: Answer)
    modifies uploads, state
    ensures answer.Rejected? <==> !capable || remoteLocation == ""
    ensures !answer.Rejected? ==> answer == if old(state.inFlight) then AcceptedCanceled else Accepted
    ensures answer == GetLogAnswer(capable && remoteLocation != "", old(state.inFlight))
    ensures answer.Rejected? ==>
              state.current == old(state.current) && state.inFlight == old(state.inFlight)
              && uploads.queue == old(uploads.queue)
    ensures !answer.Rejected? ==>
              && state.current == old(state.current) + 1 && state.inFlight
              && uploads.queue == QueueAfterSend(old(uploads.queue), uploads.capacity, state.current)
  {
    if !capable {
      return Rejected;
    }
    if remoteLocation == "" {
      return Rejected;
    }
    var ticket, superseded := state.Claim();
    var queued := uploads.Send(ticket);
    answer := if superseded then AcceptedCanceled else Accepted;
  }

  function GetLogAnswer(available: bool, inFlight: bool): Answer {
    if !available then Rejected else if inFlight then AcceptedCanceled else Accepted
  }

  function QueueAfterSend(queue: seq<nat>, capacity: nat, ticket: nat): seq<nat> {
    if |queue| < capacity then queue + [ticket] else queue
  }

  /**
   The retry loop, over what each attempt and each look at the ticket would find. It succeeds exactly
   when some attempt does before the retries run out and no look before it found the upload superseded,
   and it makes no attempt past that look.
   */
  method UploadWithRetries(retries: nat, succeeds: seq<bool>, stillCurrent: seq<bool>)
    returns (ok: bool, attempts: nat)
    requires |succeeds| == |stillCurrent| == retries + 1
    ensures 1 <= attempts <= retries + 1
    ensures forall i :: 0 <= i < attempts - 1 ==> !succeeds[i]
    ensures forall i :: 1 <= i < attempts ==> stillCurrent[i]
    ensures ok <==> succeeds[attempts - 1]
    ensures !ok ==> attempts == retries + 1 || !stillCurrent[attempts]
    ensures ok <==> exists i :: 0 <= i <= retries && succeeds[i] && forall j :: 1 <= j <= i ==> stillCurrent[j]
  {
    attempts := 0;
    while attempts <= retries
      invariant attempts <= retries + 1
      invariant forall i :: 0 <= i < attempts ==> !succeeds[i]
      invariant forall i :: 1 <= i < attempts ==> stillCurrent[i]
    {
      if attempts > 0 && !stillCurrent[attempts] {
        return false, attempts;
      }
      attempts := attempts + 1;
      if succeeds[attempts - 1] {
        return true, attempts;
      }
    }
    ok := false;
  }

  // --- Handler and worker, step by step ----------------------------------------------------------

  datatype Worker =
    | Idle
    | Announcing(ticket: nat)
    | Transferring(ticket: nat, attempt: nat)
    | BackingOff(ticket: nat, attempt: nat)
    | Reporting(ticket: nat)

  /** An accepted request: how it was answered, whether the queue took it, and what became of it. */
  datatype Ticket = Ticket(answer: Answer, queued: bool, retries: nat, started: bool, finals: seq<Status>)

  datatype Notice = Notice(ticket: nat, status: Status)

  /** An upload attempt with the newest ticket at the moment it started. */
  datatype Attempt = Attempt(ticket: nat, number: nat, newest: nat)

  /** How an upload attempt ended. */
  datatype Ended = Ended(ticket: nat, ok: bool)

  /** What the CSMS was sent, which attempts were made, and how they ended. */
  datatype Log = Log(notices: seq<Notice>, attempts: seq<Attempt>, ended: seq<Ended>)

  datatype State = State(
    current: nat,
    inFlight: bool,
    queue: seq<nat>,
    capacity: nat,
    worker: Worker,
    tickets: seq<Ticket>,
    log: Log)

  datatype Step =
    | GetLog(available: bool, retries: nat)
    | Receive
    | Announced
    | AttemptEnded(ok: bool)
    | Waited
    | Reported

  predicate Init(s: State) {
    && s.current == 0 && !s.inFlight && s.queue == [] && 0 < s.capacity && s.worker == Idle
    && s.tickets == [] && s.log == Log([], [], [])
  }

  predicate Enabled(s: State, step: Step) {
    match step
    case GetLog(_, _) => true
    case Receive => s.worker.Idle? && s.queue != [] && 1 <= s.queue[0] <= |s.tickets|
    case Announced => s.worker.Announcing?
    case AttemptEnded(_) => s.worker.Transferring? && 1 <= s.worker.ticket <= |s.tickets|
    case Waited => s.worker.BackingOff?
    case Reported => s.worker.Reporting?
  }

  function Noted(log: Log, ticket: nat, status: Status): Log {
    log.(notices := log.notices + [Notice(ticket, status)])
  }

  function Tried(log: Log, ticket: nat, number: nat, newest: nat): Log {
    log.(attempts := log.attempts + [Attempt(ticket, number, newest)])
  }

  function Started(tickets: seq<Ticket>, t: nat): seq<Ticket>
    requires 1 <= t <= |tickets|
  {
    tickets[t - 1 := tickets[t - 1].(started := true)]
  }

  function Finished(tickets: seq<Ticket>, t: nat, status: Status): seq<Ticket>
    requires 1 <= t <= |tickets|
  {
    tickets[t - 1 := tickets[t - 1].(finals := tickets[t - 1].finals + [status])]
  }

  /** The answer to an available log: claim the next ticket, and queue it if the channel has room. */
  function AfterGetLog(s: State, retries: nat): State {
    var t := s.current + 1;
    State(t, true, QueueAfterSend(s.queue, s.capacity, t), s.capacity, s.worker,
          s.tickets + [Ticket(GetLogAnswer(true, s.inFlight), |s.queue| < s.capacity, retries, false, [])],
          s.log)
  }

  function AfterReceive(s: State): State
    requires s.queue != [] && 1 <= s.queue[0] <= |s.tickets|
  {
    var t := s.queue[0];
    if s.current != t then s.(queue := s.queue[1..])
    else State(s.current, s.inFlight, s.queue[1..], s.capacity,
               Announcing(t), Started(s.tickets, t), Noted(s.log, t, Uploading))
  }

  /** After the last attempt the result is decided only if the upload is still the current one. */
  function AfterAttempt(s: State, ok: bool): State
    requires s.worker.Transferring? && 1 <= s.worker.ticket <= |s.tickets|
  {
    var t, n := s.worker.ticket, s.worker.attempt;
    var status := if ok then Uploaded else UploadFailure;
    var log := s.log.(ended := s.log.ended + [Ended(t, ok)]);
    if !ok && n < s.tickets[t - 1].retries then s.(worker := BackingOff(t, n + 1), log := log)
    else if s.current != t then s.(worker := Idle, log := log)
    else State(s.current, false, s.queue, s.capacity,
               Reporting(t), Finished(s.tickets, t, status), Noted(log, t, status))
  }

  function Next(s: State, step: Step): State
    requires Enabled(s, step)
  {
    match step
    case GetLog(available, retries) => if available then AfterGetLog(s, retries) else s
    case Receive => AfterReceive(s)
    case Announced =>
      s.(worker := Transferring(s.worker.ticket, 0), log := Tried(s.log, s.worker.ticket, 0, s.current))
    case AttemptEnded(ok) => AfterAttempt(s, ok)
    case Waited =>
      if s.current != s.worker.ticket then s.(worker := Idle)
      else s.(worker := Transferring(s.worker.ticket, s.worker.attempt),
              log := Tried(s.log, s.worker.ticket, s.worker.attempt, s.current))
    case Reported => s.(worker := Idle)
  }

  predicate Runs(s: State, steps: seq<Step>)
    decreases |steps|
  {
    steps == [] || (Enabled(s, steps[0]) && Runs(Next(s, steps[0]), steps[1..]))
  }

  function Execute(s: State, steps: seq<Step>): State
    requires Runs(s, steps)
    decreases |steps|
  {
    if steps == [] then s else Execute(Next(s, steps[0]), steps[1..])
  }

  // --- Who gets a final status -------------------------------------------------------------------

  /**
   A superseded request gets a final status exactly when its successor was answered `Accepted` rather
   than `AcceptedCanceled`, and the newest request exactly when nothing is in flight.
   */
  function FinalsDue(tickets: seq<Ticket>, inFlight: bool, i: nat): nat
    requires i < |tickets|
  {
    if i + 1 < |tickets| then (if tickets[i + 1].answer.Accepted? then 1 else 0)
    else if inFlight then 0 else 1
  }

  predicate FinalsSettled(tickets: seq<Ticket>, inFlight: bool) {
    && (tickets == [] ==> !inFlight)
    && (tickets != [] ==> tickets[0].answer.Accepted?)
    && (forall i :: 0 <= i < |tickets| ==>
          !tickets[i].answer.Rejected? && |tickets[i].finals| == FinalsDue(tickets, inFlight, i))
  }

  lemma ClaimKeepsSettled(tickets: seq<Ticket>, inFlight: bool, queued: bool, retries: nat)
    requires FinalsSettled(tickets, inFlight)
    ensures FinalsSettled(tickets + [Ticket(GetLogAnswer(true, inFlight), queued, retries, false, [])], true)
  {
  }

  lemma StartKeepsSettled(tickets: seq<Ticket>, inFlight: bool, t: nat)
    requires FinalsSettled(tickets, inFlight) && 1 <= t <= |tickets|
    ensures FinalsSettled(Started(tickets, t), inFlight)
  {
  }

  lemma FinishKeepsSettled(tickets: seq<Ticket>, status: Status)
    requires tickets != [] && FinalsSettled(tickets, true)
    ensures FinalsSettled(Finished(tickets, |tickets|, status), false)
  {
  }

  function CountAccepted(tickets: seq<Ticket>): nat {
    if tickets == [] then 0
    else CountAccepted(tickets[..|tickets| - 1]) + (if tickets[|tickets| - 1].answer.Accepted? then 1 else 0)
  }

  function CountFinals(tickets: seq<Ticket>): nat {
    if tickets == [] then 0
    else CountFinals(tickets[..|tickets| - 1]) + |tickets[|tickets| - 1].finals|
  }

  /** Every `Accepted` is paid for by a final status, save one while an upload is in flight. */
  lemma {:induction false} SettledBalances(tickets: seq<Ticket>, inFlight: bool)
    requires FinalsSettled(tickets, inFlight)
    ensures CountAccepted(tickets) == CountFinals(tickets) + if inFlight then 1 else 0
  {
    if tickets != [] {
      var n := |tickets|;
      var older, before := tickets[..n - 1], n > 1 && !tickets[n - 1].answer.Accepted?;
      forall i | 0 <= i < |older|
        ensures !older[i].answer.Rejected? && |older[i].finals| == FinalsDue(older, before, i)
      {
        assert |tickets[i].finals| == FinalsDue(tickets, inFlight, i);
      }
      SettledBalances(older, before);
      assert |tickets[n - 1].finals| == FinalsDue(tickets, inFlight, n - 1);
    }
  }

  // --- Where every ticket is ---------------------------------------------------------------------

  predicate Increasing(queue: seq<nat>) {
    forall i, j :: 0 <= i < j < |queue| ==> queue[i] < queue[j]
  }

  predicate Untouched(queue: seq<nat>, tickets: seq<Ticket>) {
    forall i :: 0 <= i < |queue| ==>
      1 <= queue[i] <= |tickets| && tickets[queue[i] - 1].queued && !tickets[queue[i] - 1].started
  }

  predicate BehindWorker(queue: seq<nat>, worker: Worker) {
    forall i :: 0 <= i < |queue| && !worker.Idle? ==> worker.ticket < queue[i]
  }

  /** Queued tickets wait in order, untouched, and are newer than whatever the worker holds. */
  predicate QueueInv(queue: seq<nat>, tickets: seq<Ticket>, worker: Worker) {
    Increasing(queue) && Untouched(queue, tickets) && BehindWorker(queue, worker)
  }

  predicate WorkerInv(worker: Worker, tickets: seq<Ticket>, inFlight: bool) {
    !worker.Idle? ==>
      && 1 <= worker.ticket <= |tickets|
      && tickets[worker.ticket - 1].started
      && (!worker.Reporting? && worker.ticket == |tickets| ==> inFlight)
      && (worker.Transferring? || worker.BackingOff? ==> worker.attempt <= tickets[worker.ticket - 1].retries)
      && (worker.BackingOff? ==> 1 <= worker.attempt)
  }

  predicate TicketsInv(tickets: seq<Ticket>) {
    forall i :: 0 <= i < |tickets| ==>
      (tickets[i].finals != [] ==> tickets[i].started) && (tickets[i].started ==> tickets[i].queued)
  }

  /** What is in flight was refused by the channel, waits in it, or is with the worker. */
  predicate InFlightInv(inFlight: bool, queue: seq<nat>, tickets: seq<Ticket>, worker: Worker) {
    inFlight ==>
      && tickets != []
      && (|| !tickets[|tickets| - 1].queued
          || (queue != [] && queue[|queue| - 1] == |tickets|)
          || (!worker.Idle? && !worker.Reporting? && worker.ticket == |tickets|))
  }

  predicate PlacesInv(s: State) {
    && s.current == |s.tickets| && 0 < s.capacity
    && QueueInv(s.queue, s.tickets, s.worker)
    && WorkerInv(s.worker, s.tickets, s.inFlight)
    && TicketsInv(s.tickets)
    && InFlightInv(s.inFlight, s.queue, s.tickets, s.worker)
  }

  lemma UntouchedGrows(queue: seq<nat>, tickets: seq<Ticket>, t: Ticket)
    requires Untouched(queue, tickets)
    ensures Untouched(queue, tickets + [t])
    ensures t.queued && !t.started ==> Untouched(queue + [|tickets| + 1], tickets + [t])
  {
    var more := tickets + [t];
    forall i | 0 <= i < |queue|
      ensures 1 <= queue[i] <= |more| && more[queue[i] - 1].queued && !more[queue[i] - 1].started
    {
      assert more[queue[i] - 1] == tickets[queue[i] - 1];
    }
    assert more[|tickets|] == t;
  }

  /** A new ticket at the end, queued or refused, disturbs none before it. */
  lemma ClaimKeepsQueue(queue: seq<nat>, capacity: nat, tickets: seq<Ticket>, worker: Worker, t: Ticket)
    requires QueueInv(queue, tickets, worker) && (!worker.Idle? ==> worker.ticket <= |tickets|)
    requires !t.started && t.queued == (|queue| < capacity)
    ensures QueueInv(QueueAfterSend(queue, capacity, |tickets| + 1), tickets + [t], worker)
  {
    UntouchedGrows(queue, tickets, t);
  }

  lemma GetLogKeepsPlaces(s: State, retries: nat)
    requires PlacesInv(s)
    ensures PlacesInv(AfterGetLog(s, retries))
  {
    ClaimKeepsQueue(s.queue, s.capacity, s.tickets, s.worker,
                    Ticket(GetLogAnswer(true, s.inFlight), |s.queue| < s.capacity, retries, false, []));
  }

  lemma ReceiveKeepsPlaces(s: State)
    requires PlacesInv(s) && Enabled(s, Receive)
    requires s.queue[0] == s.current ==> s.inFlight
    ensures PlacesInv(AfterReceive(s))
  {
  }

  lemma FinishKeepsQueue(queue: seq<nat>, tickets: seq<Ticket>, worker: Worker, status: Status)
    requires QueueInv(queue, tickets, worker) && !worker.Idle? && 1 <= worker.ticket <= |tickets|
    ensures QueueInv(queue, Finished(tickets, worker.ticket, status), Reporting(worker.ticket))
  {
  }

  lemma FinishKeepsTickets(tickets: seq<Ticket>, t: nat, status: Status)
    requires TicketsInv(tickets) && 1 <= t <= |tickets| && tickets[t - 1].started
    ensures TicketsInv(Finished(tickets, t, status))
  {
  }

  lemma DecisionKeepsPlaces(s: State, ok: bool)
    requires PlacesInv(s) && Enabled(s, AttemptEnded(ok)) && AfterAttempt(s, ok).worker.Reporting?
    ensures PlacesInv(AfterAttempt(s, ok))
  {
    var status := if ok then Uploaded else UploadFailure;
    FinishKeepsQueue(s.queue, s.tickets, s.worker, status);
    FinishKeepsTickets(s.tickets, s.worker.ticket, status);
  }

  lemma AttemptKeepsPlaces(s: State, ok: bool)
    requires PlacesInv(s) && Enabled(s, AttemptEnded(ok))
    ensures PlacesInv(AfterAttempt(s, ok))
  {
    if AfterAttempt(s, ok).worker.Reporting? {
      DecisionKeepsPlaces(s, ok);
    }
  }

  /** An upload that has not started has no final status, so if it is the newest it is in flight. */
  lemma QueuedNewestIsInFlight(s: State)
    requires PlacesInv(s) && FinalsSettled(s.tickets, s.inFlight) && s.queue != []
    ensures s.queue[0] == s.current ==> s.inFlight
  {
  }

  lemma StepKeepsPlaces(s: State, step: Step)
    requires PlacesInv(s) && Enabled(s, step)
    requires step.Receive? && s.queue[0] == s.current ==> s.inFlight
    ensures PlacesInv(Next(s, step))
  {
    match step
    case GetLog(_, retries) => GetLogKeepsPlaces(s, retries);
    case Receive => ReceiveKeepsPlaces(s);
    case AttemptEnded(ok) => AttemptKeepsPlaces(s, ok);
    case _ =>
  }

  lemma StepKeepsSettled(s: State, step: Step)
    requires s.current == |s.tickets| && WorkerInv(s.worker, s.tickets, s.inFlight) && Enabled(s, step)
    requires FinalsSettled(s.tickets, s.inFlight)
    ensures FinalsSettled(Next(s, step).tickets, Next(s, step).inFlight)
  {
    match step
    case GetLog(_, retries) => ClaimKeepsSettled(s.tickets, s.inFlight, |s.queue| < s.capacity, retries);
    case Receive => StartKeepsSettled(s.tickets, s.inFlight, s.queue[0]);
    case AttemptEnded(ok) =>
      if s.current == s.worker.ticket {
        FinishKeepsSettled(s.tickets, if ok then Uploaded else UploadFailure);
      }
    case _ =>
  }

  // --- What the CSMS is sent ---------------------------------------------------------------------

  function NoticesOf(notices: seq<Notice>, t: nat): seq<Status> {
    if notices == [] then []
    else
      NoticesOf(notices[..|notices| - 1], t)
      + (if notices[|notices| - 1].ticket == t then [notices[|notices| - 1].status] else [])
  }

  /** The statuses due to ticket number `t` so far: `Uploading` once started, then any final one. */
  function NoticesDue(tickets: seq<Ticket>, t: nat): seq<Status> {
    if 1 <= t <= |tickets|
    then (if tickets[t - 1].started then [Uploading] else []) + tickets[t - 1].finals
    else []
  }

  ghost predicate NoticesMatch(notices: seq<Notice>, tickets: seq<Ticket>) {
    forall t: nat :: NoticesOf(notices, t) == NoticesDue(tickets, t)
  }

  /** Reports never go back to an older request, and never run ahead of the worker. */
  predicate NoticesOrdered(notices: seq<Notice>, queue: seq<nat>, worker: Worker) {
    && (forall i, j :: 0 <= i < j < |notices| ==> notices[i].ticket <= notices[j].ticket)
    && (forall i, j :: 0 <= i < |notices| && 0 <= j < |queue| ==> notices[i].ticket < queue[j])
    && (forall i :: 0 <= i < |notices| && !worker.Idle? ==> notices[i].ticket <= worker.ticket)
  }

  predicate NoticesBounded(notices: seq<Notice>, newest: nat) {
    forall i :: 0 <= i < |notices| ==> notices[i].ticket <= newest
  }

  /** A retry starts only while its upload is still the newest, and never beyond the retries asked for. */
  predicate AttemptsInv(attempts: seq<Attempt>, tickets: seq<Ticket>) {
    forall i :: 0 <= i < |attempts| ==>
      && 1 <= attempts[i].ticket <= |tickets|
      && attempts[i].number <= tickets[attempts[i].ticket - 1].retries
      && (1 <= attempts[i].number ==> attempts[i].ticket == attempts[i].newest)
  }

  lemma NoteKeepsMatch(notices: seq<Notice>, tickets: seq<Ticket>, after: seq<Ticket>, n: Notice)
    requires NoticesMatch(notices, tickets)
    requires forall t: nat :: NoticesDue(after, t) == NoticesDue(tickets, t) + if n.ticket == t then [n.status] else []
    ensures NoticesMatch(notices + [n], after)
  {
  }

  lemma ClaimKeepsMatch(notices: seq<Notice>, tickets: seq<Ticket>, answer: Answer, queued: bool, retries: nat)
    requires NoticesMatch(notices, tickets)
    ensures NoticesMatch(notices, tickets + [Ticket(answer, queued, retries, false, [])])
  {
  }

  lemma StartKeepsMatch(notices: seq<Notice>, tickets: seq<Ticket>, t: nat)
    requires NoticesMatch(notices, tickets)
    requires 1 <= t <= |tickets| && !tickets[t - 1].started && tickets[t - 1].finals == []
    ensures NoticesMatch(notices + [Notice(t, Uploading)], Started(tickets, t))
  {
  }

  lemma FinishKeepsMatch(notices: seq<Notice>, tickets: seq<Ticket>, t: nat, status: Status)
    requires NoticesMatch(notices, tickets) && 1 <= t <= |tickets|
    ensures NoticesMatch(notices + [Notice(t, status)], Finished(tickets, t, status))
  {
    NoteKeepsMatch(notices, tickets, Finished(tickets, t, status), Notice(t, status));
  }

  lemma StepKeepsMatch(s: State, step: Step)
    requires PlacesInv(s) && Enabled(s, step) && NoticesMatch(s.log.notices, s.tickets)
    ensures NoticesMatch(Next(s, step).log.notices, Next(s, step).tickets)
  {
    match step
    case GetLog(_, retries) =>
      ClaimKeepsMatch(s.log.notices, s.tickets, GetLogAnswer(true, s.inFlight), |s.queue| < s.capacity, retries);
    case Receive =>
      StartKeepsMatch(s.log.notices, s.tickets, s.queue[0]);
    case AttemptEnded(ok) =>
      FinishKeepsMatch(s.log.notices, s.tickets, s.worker.ticket, if ok then Uploaded else UploadFailure);
    case _ =>
  }

  lemma ReceiveKeepsOrder(s: State)
    requires Enabled(s, Receive) && QueueInv(s.queue, s.tickets, s.worker)
    requires NoticesOrdered(s.log.notices, s.queue, s.worker) && NoticesBounded(s.log.notices, s.current)
    ensures NoticesOrdered(AfterReceive(s).log.notices, AfterReceive(s).queue, AfterReceive(s).worker)
    ensures NoticesBounded(AfterReceive(s).log.notices, s.current)
  {
  }

  lemma GetLogKeepsOrder(s: State, retries: nat)
    requires NoticesOrdered(s.log.notices, s.queue, s.worker) && NoticesBounded(s.log.notices, s.current)
    ensures NoticesOrdered(s.log.notices, AfterGetLog(s, retries).queue, s.worker)
    ensures NoticesBounded(s.log.notices, s.current + 1)
  {
  }

  lemma StepKeepsOrder(s: State, step: Step)
    requires Enabled(s, step) && PlacesInv(s)
    requires NoticesOrdered(s.log.notices, s.queue, s.worker) && NoticesBounded(s.log.notices, s.current)
    ensures NoticesOrdered(Next(s, step).log.notices, Next(s, step).queue, Next(s, step).worker)
    ensures NoticesBounded(Next(s, step).log.notices, Next(s, step).current)
  {
    match step
    case GetLog(_, retries) => GetLogKeepsOrder(s, retries);
    case Receive => ReceiveKeepsOrder(s);
    case _ =>
  }

  lemma StepKeepsAttempts(s: State, step: Step)
    requires PlacesInv(s) && Enabled(s, step) && AttemptsInv(s.log.attempts, s.tickets)
    ensures AttemptsInv(Next(s, step).log.attempts, Next(s, step).tickets)
  {
  }

  // --- Whole runs --------------------------------------------------------------------------------

  ghost predicate Good(s: State) {
    && PlacesInv(s) && FinalsSettled(s.tickets, s.inFlight)
    && NoticesMatch(s.log.notices, s.tickets)
    && NoticesOrdered(s.log.notices, s.queue, s.worker) && NoticesBounded(s.log.notices, s.current)
    && AttemptsInv(s.log.attempts, s.tickets)
  }

  lemma StepIsGood(s: State, step: Step)
    requires Good(s) && Enabled(s, step)
    ensures Good(Next(s, step))
  {
    if step.Receive? {
      QueuedNewestIsInFlight(s);
    }
    StepKeepsPlaces(s, step);
    StepKeepsSettled(s, step);
    StepKeepsMatch(s, step);
    StepKeepsOrder(s, step);
    StepKeepsAttempts(s, step);
  }

  lemma {:induction false} RunIsGood(s: State, steps: seq<Step>)
    requires Good(s) && Runs(s, steps)
    ensures Good(Execute(s, steps))
    decreases |steps|
  {
    if steps != [] {
      StepIsGood(s, steps[0]);
      RunIsGood(Next(s, steps[0]), steps[1..]);
    }
  }

  /** In every state of every run: requests answered `Accepted` = final statuses + the one in flight. */
  lemma AcceptedAreConserved(s: State, steps: seq<Step>)
    requires Init(s) && Runs(s, steps)
    ensures var e := Execute(s, steps);
            CountAccepted(e.tickets) == CountFinals(e.tickets) + if e.inFlight then 1 else 0
  {
    RunIsGood(s, steps);
    SettledBalances(Execute(s, steps).tickets, Execute(s, steps).inFlight);
  }

  lemma IdleIsSettled(s: State)
    requires FinalsSettled(s.tickets, s.inFlight) && TicketsInv(s.tickets)
    requires InFlightInv(s.inFlight, [], s.tickets, Idle)
    ensures s.inFlight <==> s.tickets != [] && !s.tickets[|s.tickets| - 1].queued
    ensures forall i :: 0 <= i < |s.tickets| - 1 ==>
              |s.tickets[i].finals| == if s.tickets[i + 1].answer.Accepted? then 1 else 0
    ensures s.tickets != [] ==>
              |s.tickets[|s.tickets| - 1].finals| == if s.tickets[|s.tickets| - 1].queued then 1 else 0
  {
    assert forall i :: 0 <= i < |s.tickets| ==> |s.tickets[i].finals| == FinalsDue(s.tickets, s.inFlight, i);
  }

  /**
   With nothing queued and the worker idle, an upload is still counted as in flight exactly when the
   last accepted request found the channel full. Every earlier request has one final status if its
   successor was answered `Accepted` and none if `AcceptedCanceled`; the last one has exactly one
   unless the channel refused it.
   */
  lemma IdleMeansSettled(s: State, steps: seq<Step>)
    requires Init(s) && Runs(s, steps)
    requires Execute(s, steps).queue == [] && Execute(s, steps).worker.Idle?
    ensures var e := Execute(s, steps);
            && (e.inFlight <==> e.tickets != [] && !e.tickets[|e.tickets| - 1].queued)
            && (forall i :: 0 <= i < |e.tickets| - 1 ==>
                  |e.tickets[i].finals| == if e.tickets[i + 1].answer.Accepted? then 1 else 0)
            && (e.tickets != [] ==>
                  |e.tickets[|e.tickets| - 1].finals| == if e.tickets[|e.tickets| - 1].queued then 1 else 0)
  {
    RunIsGood(s, steps);
    IdleIsSettled(Execute(s, steps));
  }

  /**
   What the CSMS is sent in any run: for each request `Uploading` at most once and before at most one
   final status, nothing about a request once a newer one has been reported, and no retry started
   after a supersede.
   */
  lemma ReportsAreInOrder(s: State, steps: seq<Step>, t: nat)
    requires Init(s) && Runs(s, steps)
    ensures var e := Execute(s, steps);
            && (var own := NoticesOf(e.log.notices, t);
                |own| <= 2 && (own != [] ==> own[0] == Uploading) && own == NoticesDue(e.tickets, t))
            && (forall i, j :: 0 <= i < j < |e.log.notices| ==> e.log.notices[i].ticket <= e.log.notices[j].ticket)
            && AttemptsInv(e.log.attempts, e.tickets)
  {
    RunIsGood(s, steps);
    var e := Execute(s, steps);
    assert NoticesOf(e.log.notices, t) == NoticesDue(e.tickets, t);
    if 1 <= t <= |e.tickets| {
      assert |e.tickets[t - 1].finals| == FinalsDue(e.tickets, e.inFlight, t - 1);
    }
  }

  lemma NewestIsAlone(queue: seq<nat>, tickets: seq<Ticket>)
    requires queue != [] && QueueInv(queue, tickets, Idle)
    ensures queue[0] == |tickets| <==> queue == [|tickets|]
  {
    assert 1 < |queue| ==> queue[0] < queue[1] <= |tickets|;
  }

  /** A dequeued upload is announced only if it is the newest request, and then nothing is queued behind it. */
  lemma StartsOnlyTheNewest(s: State, steps: seq<Step>)
    requires Init(s) && Runs(s, steps) && Enabled(Execute(s, steps), Receive)
    ensures var e := Execute(s, steps);
            && (AfterReceive(e).worker.Announcing? <==> e.queue == [e.current])
            && (AfterReceive(e).worker.Announcing? ==>
                  AfterReceive(e).queue == [] && AfterReceive(e).worker.ticket == |e.tickets|)
  {
    RunIsGood(s, steps);
    NewestIsAlone(Execute(s, steps).queue, Execute(s, steps).tickets);
  }

  // --- A full channel ----------------------------------------------------------------------------

  function Fresh(capacity: nat): State {
    State(0, false, [], capacity, Idle, [], Log([], [], []))
  }

  lemma {:induction false} Extended(s: State, steps: seq<Step>, step: Step)
    requires Runs(s, steps) && Enabled(Execute(s, steps), step)
    ensures Runs(s, steps + [step]) && Execute(s, steps + [step]) == Next(Execute(s, steps), step)
    decreases |steps|
  {
    if steps == [] {
      assert steps + [step] == [step] && [step][1..] == [];
      assert Runs(Next(s, step), []);
    } else {
      assert (steps + [step])[1..] == steps[1..] + [step];
      Extended(Next(s, steps[0]), steps[1..], step);
    }
  }

  lemma {:induction false} Requests(capacity: nat, n: nat) returns (steps: seq<Step>)
    requires 0 < capacity && n <= capacity + 1
    ensures Runs(Fresh(capacity), steps)
    ensures var e := Execute(Fresh(capacity), steps);
            && e.current == |e.tickets| == n && (0 < n ==> e.inFlight) && e.worker.Idle? && e.capacity == capacity
            && e.queue == seq(if n <= capacity then n else capacity, i => i + 1)
            && (n == capacity + 1 ==> !e.tickets[capacity].queued)
  {
    steps := [];
    if n > 0 {
      steps := Requests(capacity, n - 1);
      Extended(Fresh(capacity), steps, GetLog(true, 0));
      steps := steps + [GetLog(true, 0)];
    }
  }

  /**
   One request more than the channel holds, while the worker is busy elsewhere: every queued upload
   is then skipped as superseded, the last one was never queued, and the station stays `in_flight`
   with nothing to do.
   */
  lemma {:induction false} FullChannelStrandsTheLastRequest(capacity: nat, taken: nat) returns (steps: seq<Step>)
    requires 0 < capacity && taken <= capacity
    ensures Init(Fresh(capacity)) && Runs(Fresh(capacity), steps)
    ensures var e := Execute(Fresh(capacity), steps);
            && e.inFlight && e.worker.Idle? && e.current == |e.tickets| == capacity + 1
            && e.queue == seq(capacity - taken, i => taken + i + 1)
            && (taken == capacity ==> e.queue == [])
  {
    if taken == 0 {
      steps := Requests(capacity, capacity + 1);
    } else {
      steps := FullChannelStrandsTheLastRequest(capacity, taken - 1);
      Extended(Fresh(capacity), steps, Receive);
      steps := steps + [Receive];
    }
  }
}
