/** What a log upload's final status says about its attempts (src/diagnostics.rs). */
module LogOutcomes {
  import opened LogUploads

  /** How the attempts of ticket number `t` ended, in order. */
  function EndsOf(ended: seq<Ended>, t: nat): seq<bool> {
    if ended == [] then []
    else
      EndsOf(ended[..|ended| - 1], t)
      + (if ended[|ended| - 1].ticket == t then [ended[|ended| - 1].ok] else [])
  }

  lemma EndsOfSnoc(ended: seq<Ended>, e: Ended, t: nat)
    ensures EndsOf(ended + [e], t) == if e.ticket == t then EndsOf(ended, t) + [e.ok] else EndsOf(ended, t)
  {
    assert (ended + [e])[..|ended|] == ended;
  }

  predicate AllFailed(ends: seq<bool>) {
    forall i :: 0 <= i < |ends| ==> !ends[i]
  }

  /**
   A final status tells how the last attempt ended, all before it having failed; a failure is final only
   once every retry asked for was made.
   */
  predicate TellsOutcome(finals: seq<Status>, retries: nat, ends: seq<bool>) {
    finals != [] ==>
      && ends != [] && AllFailed(ends[..|ends| - 1])
      && finals == [if ends[|ends| - 1] then Uploaded else UploadFailure]
      && (!ends[|ends| - 1] ==> |ends| == retries + 1)
  }

  /** The attempts made so far for the upload the worker is at. */
  predicate AttemptsSoFar(worker: Worker, finals: seq<Status>, ends: seq<bool>) {
    match worker
    case Announcing(_) => finals == [] && ends == []
    case Transferring(_, attempt) => finals == [] && |ends| == attempt && AllFailed(ends)
    case BackingOff(_, attempt) => finals == [] && |ends| == attempt && AllFailed(ends)
    case _ => true
  }

  /** One request beside its attempts; `worker` is `Idle` where it is not at this one. */
  predicate Straight(t: Ticket, worker: Worker, ends: seq<bool>) {
    && TellsOutcome(t.finals, t.retries, ends)
    && (!t.started ==> ends == [])
    && AttemptsSoFar(worker, t.finals, ends)
  }

  function At(worker: Worker, t: nat): Worker {
    if !worker.Idle? && worker.ticket == t then worker else Idle
  }

  ghost predicate OutcomesInv(s: State) {
    && (forall i :: 0 <= i < |s.tickets| ==> Straight(s.tickets[i], At(s.worker, i + 1), EndsOf(s.log.ended, i + 1)))
    && (forall t: nat :: t > |s.tickets| ==> EndsOf(s.log.ended, t) == [])
  }

  /** What one more attempt makes of its own request. */
  lemma OneMoreEnd(t: Ticket, worker: Worker, ends: seq<bool>, ok: bool, status: Status)
    requires worker.Transferring? && Straight(t, worker, ends) && t.started && worker.attempt <= t.retries
    requires status == if ok then Uploaded else UploadFailure
    ensures Straight(t, Idle, ends + [ok])
    ensures !ok && worker.attempt < t.retries ==>
              Straight(t, BackingOff(worker.ticket, worker.attempt + 1), ends + [ok])
    ensures ok || worker.attempt >= t.retries ==>
              Straight(t.(finals := t.finals + [status]), Reporting(worker.ticket), ends + [ok])
  {
    assert (ends + [ok])[..|ends|] == ends;
  }

  lemma AttemptKeepsOwn(s: State, ok: bool, i: nat)
    requires Enabled(s, AttemptEnded(ok)) && i + 1 == s.worker.ticket
    requires s.tickets[i].started && s.worker.attempt <= s.tickets[i].retries
    requires Straight(s.tickets[i], s.worker, EndsOf(s.log.ended, i + 1))
    ensures var e := AfterAttempt(s, ok); Straight(e.tickets[i], At(e.worker, i + 1), EndsOf(e.log.ended, i + 1))
  {
    var status := if ok then Uploaded else UploadFailure;
    OneMoreEnd(s.tickets[i], s.worker, EndsOf(s.log.ended, i + 1), ok, status);
    AttemptEnds(s, ok, i + 1);
    AttemptLeads(s, ok, status);
  }

  /** Where an ended attempt leads: to another one, nowhere if superseded, or to its final status. */
  lemma AttemptLeads(s: State, ok: bool, status: Status)
    requires Enabled(s, AttemptEnded(ok)) && status == if ok then Uploaded else UploadFailure
    ensures var e, t, i := AfterAttempt(s, ok), s.tickets[s.worker.ticket - 1], s.worker.ticket - 1;
            || (!ok && s.worker.attempt < t.retries && e.tickets == s.tickets
                && e.worker == BackingOff(s.worker.ticket, s.worker.attempt + 1))
            || (e.worker == Idle && e.tickets == s.tickets)
            || ((ok || s.worker.attempt >= t.retries) && e.worker == Reporting(s.worker.ticket)
                && |e.tickets| == |s.tickets| && e.tickets[i] == t.(finals := t.finals + [status]))
  {
  }

  lemma AttemptSparesOthers(s: State, ok: bool, i: nat)
    requires Enabled(s, AttemptEnded(ok)) && i < |s.tickets| && i + 1 != s.worker.ticket
    ensures var e := AfterAttempt(s, ok);
            |e.tickets| == |s.tickets| && e.tickets[i] == s.tickets[i] && At(e.worker, i + 1) == Idle
  {
  }

  lemma AttemptKeepsOthers(s: State, ok: bool, i: nat)
    requires Enabled(s, AttemptEnded(ok)) && i < |s.tickets| && i + 1 != s.worker.ticket
    requires Straight(s.tickets[i], Idle, EndsOf(s.log.ended, i + 1))
    ensures var e := AfterAttempt(s, ok);
            |e.tickets| == |s.tickets| && Straight(e.tickets[i], At(e.worker, i + 1), EndsOf(e.log.ended, i + 1))
  {
    AttemptEnds(s, ok, i + 1);
    AttemptSparesOthers(s, ok, i);
  }

  lemma AttemptEnds(s: State, ok: bool, t: nat)
    requires Enabled(s, AttemptEnded(ok))
    ensures EndsOf(AfterAttempt(s, ok).log.ended, t) ==
            if t == s.worker.ticket then EndsOf(s.log.ended, t) + [ok] else EndsOf(s.log.ended, t)
  {
    EndsOfSnoc(s.log.ended, Ended(s.worker.ticket, ok), t);
  }

  lemma AttemptKeepsOutcomes(s: State, ok: bool)
    requires OutcomesInv(s) && WorkerInv(s.worker, s.tickets, s.inFlight) && Enabled(s, AttemptEnded(ok))
    ensures OutcomesInv(AfterAttempt(s, ok))
  {
    var e := AfterAttempt(s, ok);
    assert |e.tickets| == |s.tickets|;
    forall t: nat | t > |e.tickets| ensures EndsOf(e.log.ended, t) == [] {
      AttemptEnds(s, ok, t);
    }
    forall i | 0 <= i < |e.tickets| ensures Straight(e.tickets[i], At(e.worker, i + 1), EndsOf(e.log.ended, i + 1)) {
      assert Straight(s.tickets[i], At(s.worker, i + 1), EndsOf(s.log.ended, i + 1));
      if i + 1 == s.worker.ticket {
        AttemptKeepsOwn(s, ok, i);
      } else {
        AttemptKeepsOthers(s, ok, i);
      }
    }
  }

  lemma GetLogKeepsOutcomes(s: State, retries: nat)
    requires OutcomesInv(s) && WorkerInv(s.worker, s.tickets, s.inFlight)
    ensures OutcomesInv(AfterGetLog(s, retries))
  {
    assert EndsOf(s.log.ended, |s.tickets| + 1) == [];
  }

  lemma ReceiveKeepsOutcomes(s: State)
    requires OutcomesInv(s) && Enabled(s, Receive)
    requires QueueInv(s.queue, s.tickets, s.worker) && TicketsInv(s.tickets)
    ensures OutcomesInv(AfterReceive(s))
  {
    var e := AfterReceive(s);
    forall i | 0 <= i < |e.tickets| ensures Straight(e.tickets[i], At(e.worker, i + 1), EndsOf(e.log.ended, i + 1)) {
      assert Straight(s.tickets[i], At(s.worker, i + 1), EndsOf(s.log.ended, i + 1));
    }
  }

  /** The steps that only move the worker on: nothing is reported or ended, and it stays or goes idle. */
  lemma MoveKeepsOutcomes(s: State, step: Step)
    requires OutcomesInv(s) && Enabled(s, step) && (step.Announced? || step.Waited? || step.Reported?)
    ensures OutcomesInv(Next(s, step))
  {
    var e := Next(s, step);
    assert e.tickets == s.tickets && e.log.ended == s.log.ended;
    forall i | 0 <= i < |e.tickets| ensures Straight(e.tickets[i], At(e.worker, i + 1), EndsOf(e.log.ended, i + 1)) {
      assert Straight(s.tickets[i], At(s.worker, i + 1), EndsOf(s.log.ended, i + 1));
    }
  }

  lemma StepKeepsOutcomes(s: State, step: Step)
    requires PlacesInv(s) && OutcomesInv(s) && Enabled(s, step)
    ensures OutcomesInv(Next(s, step))
  {
    match step
    case GetLog(_, retries) => GetLogKeepsOutcomes(s, retries);
    case Receive => ReceiveKeepsOutcomes(s);
    case AttemptEnded(ok) => AttemptKeepsOutcomes(s, ok);
    case _ => MoveKeepsOutcomes(s, step);
  }

  lemma {:induction false} RunKeepsOutcomes(s: State, steps: seq<Step>)
    requires Good(s) && OutcomesInv(s) && Runs(s, steps)
    ensures OutcomesInv(Execute(s, steps))
    decreases |steps|
  {
    if steps != [] {
      StepIsGood(s, steps[0]);
      StepKeepsOutcomes(s, steps[0]);
      RunKeepsOutcomes(Next(s, steps[0]), steps[1..]);
    }
  }

  lemma LastOneDecides(ends: seq<bool>)
    requires ends != [] && AllFailed(ends[..|ends| - 1])
    ensures AllFailed(ends) <==> !ends[|ends| - 1]
  {
    assert forall i :: 0 <= i < |ends| - 1 ==> ends[i] == ends[..|ends| - 1][i];
  }

  lemma FinalsComeLast(tickets: seq<Ticket>, i: nat)
    requires TicketsInv(tickets) && i < |tickets| && tickets[i].finals != []
    ensures NoticesDue(tickets, i + 1) == [Uploading] + tickets[i].finals
  {
  }

  /** The reports of one request read against its attempts. */
  predicate ReportTells(notices: seq<Status>, retries: nat, ends: seq<bool>) {
    && ends != [] && AllFailed(ends[..|ends| - 1])
    && notices == [Uploading, if ends[|ends| - 1] then Uploaded else UploadFailure]
    && (ends[|ends| - 1] <==> !AllFailed(ends))
    && (AllFailed(ends) ==> |ends| == retries + 1)
  }

  lemma StraightMeansTold(tickets: seq<Ticket>, i: nat, worker: Worker, ends: seq<bool>)
    requires TicketsInv(tickets) && i < |tickets| && tickets[i].finals != [] && Straight(tickets[i], worker, ends)
    ensures ReportTells(NoticesDue(tickets, i + 1), tickets[i].retries, ends)
  {
    LastOneDecides(ends);
    FinalsComeLast(tickets, i);
  }

  /**
   In every run, for every request with a final status: the CSMS was told `Uploaded` exactly if its last
   attempt succeeded, and `UploadFailure` exactly if all its attempts failed, which are then one more
   than the retries asked for.
   */
  lemma FinalTellsTheOutcome(s: State, steps: seq<Step>, i: nat)
    requires Init(s) && Runs(s, steps) && i < |Execute(s, steps).tickets|
    requires Execute(s, steps).tickets[i].finals != []
    ensures var e := Execute(s, steps);
            ReportTells(NoticesOf(e.log.notices, i + 1), e.tickets[i].retries, EndsOf(e.log.ended, i + 1))
  {
    var e := Execute(s, steps);
    RunIsGood(s, steps);
    RunKeepsOutcomes(s, steps);
    assert Straight(e.tickets[i], At(e.worker, i + 1), EndsOf(e.log.ended, i + 1));
    StraightMeansTold(e.tickets, i, At(e.worker, i + 1), EndsOf(e.log.ended, i + 1));
    assert NoticesOf(e.log.notices, i + 1) == NoticesDue(e.tickets, i + 1);
  }
}
