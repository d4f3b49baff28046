/**
 Which key a renewal signs with (src/certificate_renewal.rs). Renewals from the sweep and from the
 resend loop overlap freely: each looks up a key or generates one, sends `SignCertificate`, and
 records the key once the CSMS accepts.
 */
module RenewalKeys {
  import opened Options
  import opened Storages
  import opened RenewalStores

  /** A renewal in flight: not yet looked up, waiting for the CSMS, or accepted and about to record. */
  datatype Phase = Begun | Asking(key: Key) | Granted(key: Key)
  datatype Renewal = Renewal(purpose: Purpose, phase: Phase)

  datatype Signing = Signing(purpose: Purpose, key: Key)

  /** `signed` are the requests sent, `granted` those the CSMS accepted. */
  datatype State = State(record: Record, renewals: map<nat, Renewal>, signed: seq<Signing>, granted: set<Signing>)

  datatype Step =
    | Begin(id: nat, purpose: Purpose)
    | LookUp(id: nat, generated: Option<Key>, io: Io)
    | Answered(id: nat, answer: SignOutcome)
    | RecordKey(id: nat, io: Io)
    | Stash(purpose: Purpose, pem: Pem, io: Io)
    | Unstash(purpose: Purpose, io: Io)
    | Reboot

  const NEW := State(EMPTY, map[], [], {})

  predicate Enabled(s: State, step: Step) {
    match step
    case Begin(id, _) => id !in s.renewals
    case LookUp(id, _, _) => id in s.renewals && s.renewals[id].phase.Begun?
    case Answered(id, _) => id in s.renewals && s.renewals[id].phase.Asking?
    case RecordKey(id, _) => id in s.renewals && s.renewals[id].phase.Granted?
    case _ => true
  }

  /** The recorded key if the store yields one, else a generated one, unless generating fails. */
  function KeyToUse(s: State, p: Purpose, generated: Option<Key>, io: Io): Option<Key> {
    var recorded := Loaded(s.record, io).KeyOf(p);
    if recorded.Some? then recorded else generated
  }

  function Next(s: State, step: Step): State
    requires Enabled(s, step)
  {
    match step
    case Begin(id, p) => s.(renewals := s.renewals[id := Renewal(p, Begun)])
    case LookUp(id, generated, io) =>
      var p := s.renewals[id].purpose;
      (match KeyToUse(s, p, generated, io)
       case None => s.(renewals := s.renewals - {id})
       case Some(key) =>
         s.(renewals := s.renewals[id := Renewal(p, Asking(key))], signed := s.signed + [Signing(p, key)]))
    case Answered(id, answer) =>
      var r := s.renewals[id];
      if answer.Accepted?
      then s.(renewals := s.renewals[id := r.(phase := Granted(r.phase.key))],
              granted := s.granted + {Signing(r.purpose, r.phase.key)})
      else s.(renewals := s.renewals - {id})
    case RecordKey(id, io) =>
      var r := s.renewals[id];
      s.(record := WithKey(s.record, r.purpose, r.phase.key, io), renewals := s.renewals - {id})
    case Stash(p, pem, io) => s.(record := WithBackup(s.record, p, pem, io))
    case Unstash(p, io) => s.(record := WithoutBackup(s.record, p, io))
    case Reboot => s.(renewals := map[])
  }

  predicate Runs(s: State, steps: seq<Step>)
    decreases |steps|
  {
    steps == [] || (Enabled(s, steps[0]) && Runs(Next(s, steps[0]), steps[1..]))
  }

  function Execute(s: State, steps: seq<Step>): State
    requires Runs(s, steps)
    decreases |steps|
  {
    if steps == [] then s else Execute(Next(s, steps[0]), steps[1..])
  }

  // --- Only accepted keys are recorded -----------------------------------------------------------

  ghost predicate OnlyGranted(s: State) {
    && (forall p: Purpose :: s.record.KeyOf(p).Some? ==> Signing(p, s.record.KeyOf(p).value) in s.granted)
    && (forall id :: id in s.renewals && s.renewals[id].phase.Granted? ==>
          Signing(s.renewals[id].purpose, s.renewals[id].phase.key) in s.granted)
    && (forall id :: id in s.renewals && !s.renewals[id].phase.Begun? ==>
          Signing(s.renewals[id].purpose, s.renewals[id].phase.key) in s.signed)
    && (forall g :: g in s.granted ==> g in s.signed)
  }

  /** A step leaves a recorded key, wipes it, or records the one a granted renewal of the purpose holds. */
  lemma KeyComesFromARenewal(s: State, step: Step, p: Purpose)
    requires Enabled(s, step)
    ensures var key := Next(s, step).record.KeyOf(p);
            || key == None || key == s.record.KeyOf(p)
            || (step.RecordKey? && s.renewals[step.id].purpose == p && key == Some(s.renewals[step.id].phase.key))
  {
  }

  lemma StepKeepsGranted(s: State, step: Step)
    requires OnlyGranted(s) && Enabled(s, step)
    ensures OnlyGranted(Next(s, step))
  {
    var e := Next(s, step);
    forall p: Purpose | e.record.KeyOf(p).Some? ensures Signing(p, e.record.KeyOf(p).value) in e.granted {
      KeyComesFromARenewal(s, step, p);
    }
  }

  lemma {:induction false} RunKeepsGranted(s: State, steps: seq<Step>)
    requires OnlyGranted(s) && Runs(s, steps)
    ensures OnlyGranted(Execute(s, steps))
    decreases |steps|
  {
    if steps != [] {
      StepKeepsGranted(s, steps[0]);
      RunKeepsGranted(Next(s, steps[0]), steps[1..]);
    }
  }

  /**
   In every run, with reads and writes failing at will, a key recorded for a purpose is one a
   `SignCertificate` for that purpose was sent for and the CSMS accepted.
   */
  lemma RecordedKeysWereAccepted(steps: seq<Step>, p: Purpose)
    requires Runs(NEW, steps)
    ensures var e := Execute(NEW, steps);
            e.record.KeyOf(p).Some? ==>
              Signing(p, e.record.KeyOf(p).value) in e.granted && Signing(p, e.record.KeyOf(p).value) in e.signed
  {
    RunKeepsGranted(NEW, steps);
  }

  /**
   Which key a request is sent with: the recorded one if it can be read, else the generated one, and where
   there is neither no request goes out and the renewal ends.
   */
  lemma LookUpSigns(s: State, id: nat, generated: Option<Key>, io: Io)
    requires Enabled(s, LookUp(id, generated, io))
    ensures var p := s.renewals[id].purpose;
            var e := Next(s, LookUp(id, generated, io));
            && (io.readOk && s.record.KeyOf(p).Some? ==>
                  e.signed == s.signed + [Signing(p, s.record.KeyOf(p).value)])
            && (!(io.readOk && s.record.KeyOf(p).Some?) && generated.Some? ==>
                  e.signed == s.signed + [Signing(p, generated.value)])
            && (!(io.readOk && s.record.KeyOf(p).Some?) && generated.None? ==>
                  e.signed == s.signed && id !in e.renewals)
            && e.record == s.record
  {
  }

  /** Reads of the renewal store succeed; writes may fail. */
  predicate ReadsSucceed(steps: seq<Step>) {
    forall i :: 0 <= i < |steps| ==>
      match steps[i]
      case LookUp(_, _, io) => io.readOk
      case RecordKey(_, io) => io.readOk
      case Stash(_, _, io) => io.readOk
      case Unstash(_, io) => io.readOk
      case _ => true
  }

  /** No renewal of `p` in flight holds another key than `key`. */
  ghost predicate NoRival(s: State, p: Purpose, key: Key) {
    forall id :: id in s.renewals && s.renewals[id].purpose == p ==>
      s.renewals[id].phase.Begun? || s.renewals[id].phase.key == key
  }

  ghost predicate Fixed(s: State, p: Purpose, key: Key) {
    s.record.KeyOf(p) == Some(key) && NoRival(s, p, key)
  }

  /** Every `SignCertificate` for `p` from position `from` on used `key`. */
  predicate SignsWith(signed: seq<Signing>, from: nat, p: Purpose, key: Key) {
    forall i :: from <= i < |signed| && signed[i].purpose == p ==> signed[i].key == key
  }

  lemma StepKeepsKey(s: State, step: Step, p: Purpose, key: Key)
    requires Fixed(s, p, key) && Enabled(s, step) && ReadsSucceed([step])
    ensures Fixed(Next(s, step), p, key)
    ensures s.signed <= Next(s, step).signed && SignsWith(Next(s, step).signed, |s.signed|, p, key)
  {
    assert [step][0] == step;
  }

  lemma {:induction false} RunKeepsKey(s: State, steps: seq<Step>, p: Purpose, key: Key)
    requires Fixed(s, p, key) && Runs(s, steps) && ReadsSucceed(steps)
    ensures Fixed(Execute(s, steps), p, key)
    ensures s.signed <= Execute(s, steps).signed && SignsWith(Execute(s, steps).signed, |s.signed|, p, key)
    decreases |steps|
  {
    if steps != [] {
      assert steps[0] == [steps[0]][0];
      StepKeepsKey(s, steps[0], p, key);
      RunKeepsKey(Next(s, steps[0]), steps[1..], p, key);
    }
  }

  lemma Prepended(s: State, step: Step, steps: seq<Step>, end: State) returns (longer: seq<Step>)
    requires Enabled(s, step) && Runs(Next(s, step), steps) && Execute(Next(s, step), steps) == end
    requires ReadsSucceed([step]) && ReadsSucceed(steps)
    ensures longer == [step] + steps && Runs(s, longer) && Execute(s, longer) == end && ReadsSucceed(longer)
  {
    longer := [step] + steps;
    assert longer[1..] == steps && [step][0] == step;
  }

  /** A rival in flight can still replace the recorded key, with every read and write succeeding. */
  lemma RivalCanReplaceKey(s: State, p: Purpose, key: Key, id: nat) returns (steps: seq<Step>)
    requires id in s.renewals && s.renewals[id].purpose == p
    requires !s.renewals[id].phase.Begun? && s.renewals[id].phase.key != key
    ensures Runs(s, steps) && ReadsSucceed(steps) && Execute(s, steps).record.KeyOf(p) != Some(key)
  {
    var last := RecordKey(id, Io(true, true));
    if s.renewals[id].phase.Granted? {
      steps := Prepended(s, last, [], Next(s, last));
    } else {
      var accepted := Next(s, Answered(id, Accepted));
      steps := Prepended(accepted, last, [], Next(accepted, last));
      steps := Prepended(s, Answered(id, Accepted), steps, Next(accepted, last));
    }
  }

  /**
   Once a key is recorded it stays recorded, through rejections, errors, failed writes, stashes,
   confirms, discards and reboots, and every later request uses it, exactly when no renewal of the
   purpose already in flight holds another key. Reads are taken to succeed.
   */
  lemma KeyStaysIff(s: State, p: Purpose, key: Key)
    requires s.record.KeyOf(p) == Some(key)
    ensures NoRival(s, p, key) <==>
              forall steps :: Runs(s, steps) && ReadsSucceed(steps) ==>
                && Execute(s, steps).record.KeyOf(p) == Some(key)
                && SignsWith(Execute(s, steps).signed, |s.signed|, p, key)
  {
    if NoRival(s, p, key) {
      forall steps | Runs(s, steps) && ReadsSucceed(steps)
        ensures Execute(s, steps).record.KeyOf(p) == Some(key)
                && SignsWith(Execute(s, steps).signed, |s.signed|, p, key)
      {
        RunKeepsKey(s, steps, p, key);
      }
    } else {
      var id :| id in s.renewals && s.renewals[id].purpose == p
                && !(s.renewals[id].phase.Begun? || s.renewals[id].phase.key == key);
      var steps := RivalCanReplaceKey(s, p, key, id);
    }
  }

  /** Recording with no other renewal of the purpose in flight leaves no rival; so does a reboot. */
  lemma AloneMeansNoRival(s: State, id: nat, io: Io)
    requires Enabled(s, RecordKey(id, io)) && io == Io(true, true)
    requires forall other :: other in s.renewals && s.renewals[other].purpose == s.renewals[id].purpose ==> other == id
    ensures Fixed(Next(s, RecordKey(id, io)), s.renewals[id].purpose, s.renewals[id].phase.key)
    ensures Next(s, Reboot).record == s.record && forall p, key :: NoRival(Next(s, Reboot), p, key)
  {
  }

  /** Two renewals of the purpose, begun before any key is recorded, each asking with its own key. */
  lemma Overlapping(p: Purpose, first: Key, second: Key) returns (steps: seq<Step>, s: State)
    ensures Runs(NEW, steps) && ReadsSucceed(steps)
    ensures s == Execute(NEW, steps) && s.record == EMPTY
    ensures s.renewals == map[1 := Renewal(p, Asking(first)), 2 := Renewal(p, Asking(second))]
  {
    var io := Io(true, true);
    var s0 := NEW;
    var s1 := Next(s0, Begin(1, p));
    var s2 := Next(s1, Begin(2, p));
    var s3 := Next(s2, LookUp(1, Some(first), io));
    s := Next(s3, LookUp(2, Some(second), io));
    steps := Prepended(s3, LookUp(2, Some(second), io), [], s);
    steps := Prepended(s2, LookUp(1, Some(first), io), steps, s);
    steps := Prepended(s1, Begin(2, p), steps, s);
    steps := Prepended(s0, Begin(1, p), steps, s);
  }

  /** After which either request, once accepted, leaves the other as a rival of the key it recorded. */
  lemma OverlapReplacesKey(p: Purpose, first: Key, second: Key) returns (steps: seq<Step>, s: State)
    requires first != second
    ensures Runs(NEW, steps) && ReadsSucceed(steps) && s == Execute(NEW, steps)
    ensures s.record.KeyOf(p) == Some(first) && !NoRival(s, p, first)
  {
    var io := Io(true, true);
    var asked, both := Overlapping(p, first, second);
    var granted := Next(both, Answered(1, Accepted));
    s := Next(granted, RecordKey(1, io));
    steps := Prepended(granted, RecordKey(1, io), [], s);
    steps := Prepended(both, Answered(1, Accepted), steps, s);
    steps := Appended(NEW, asked, both, steps);
    assert 2 in s.renewals && s.renewals[2] == Renewal(p, Asking(second));
  }

  lemma {:induction false} Appended(s: State, steps: seq<Step>, mid: State, more: seq<Step>) returns (all: seq<Step>)
    requires Runs(s, steps) && Execute(s, steps) == mid && Runs(mid, more)
    requires ReadsSucceed(steps) && ReadsSucceed(more)
    ensures all == steps + more && Runs(s, all) && Execute(s, all) == Execute(mid, more) && ReadsSucceed(all)
    decreases |steps|
  {
    all := steps + more;
    if steps == [] {
      assert all == more;
    } else {
      var tail := Appended(Next(s, steps[0]), steps[1..], mid, more);
      assert all[1..] == tail;
    }
  }
}
