/**
 Falling back from a renewed certificate that does not work (src/certificate_renewal.rs): each due
 sweep reads the installed certificate and stashes it, a `CertificateSigned` may replace it, and the
 renewal is then confirmed or discarded. A discard takes the backup and, one await later, installs it;
 everything else may happen in between. Every read and write of the renewal store may fail.
 */
module RenewalBackups {
  import opened Options
  import opened Storages
  import opened RenewalStores
  import SignRequests

  /** The certificate store's slot for each purpose. */
  datatype Certificates = Certificates(station: Option<Pem>, v2g: Option<Pem>) {
    function Of(p: Purpose): Option<Pem> {
      if p.ChargingStationCertificate? then station else v2g
    }

    function With(p: Purpose, pem: Option<Pem>): Certificates {
      if p.ChargingStationCertificate? then this.(station := pem) else this.(v2g := pem)
    }
  }

  /**
   What happened to the stored backups, in order: one was stashed; one was given up, by a confirmation
   or because a key was recorded over an unreadable record; one was taken by a discard, and `removed`
   says whether its removal could be written.
   */
  datatype Event =
    | Stashed(purpose: Purpose, pem: Pem)
    | GivenUp(purpose: Purpose)
    | Taken(purpose: Purpose, pem: Pem, removed: bool)

  /**
   What was last put in place of a certificate since it was read: nothing, or a certificate or its
   deletion.
   */
  type Put = Option<Option<Pem>>

  /** A sweep between reading the installed certificate and stashing it. */
  datatype Sweep = NoSweep | HasRead(purpose: Purpose, pem: Pem, put: Put)

  /** A discard between taking the backup, as event number `at`, and installing it. */
  datatype Restoring = Restoring(purpose: Purpose, pem: Pem, at: nat, put: Put)

  /** The certificates in place, and `put` for the backup stored for each purpose. */
  datatype Shelf = Shelf(
    installed: Certificates,
    sweep: Sweep,
    put: map<Purpose, Option<Pem>>,
    restoring: map<nat, Restoring>)

  function PutOf(put: map<Purpose, Option<Pem>>, p: Purpose): Put {
    if p in put then Some(put[p]) else None
  }

  /** What is in place, going by what was read and what was put there since. */
  function InPlace(pem: Pem, put: Put): Option<Pem> {
    if put.None? then Some(pem) else put.value
  }

  datatype State = State(record: Record, log: seq<Event>, shelf: Shelf)

  datatype Step =
    | RecordKey(purpose: Purpose, key: Key, io: Io)
    | SweepReads(purpose: Purpose)
    | SweepStashes(io: Io)
    | InstalledChanges(purpose: Purpose, pem: Option<Pem>)
    | Confirm(purpose: Purpose, io: Io)
    | TakeBackup(id: nat, purpose: Purpose, io: Io)
    | Restore(id: nat, accepted: bool)
    | Crash

  predicate Init(s: State) {
    && s.record == EMPTY && s.log == []
    && s.shelf == Shelf(s.shelf.installed, NoSweep, map[], map[])
  }

  predicate Enabled(s: State, step: Step) {
    match step
    case SweepReads(p) => s.shelf.sweep.NoSweep? && s.shelf.installed.Of(p).Some?
    case SweepStashes(_) => s.shelf.sweep.HasRead?
    case TakeBackup(id, _, _) => id !in s.shelf.restoring
    case Restore(id, _) => id in s.shelf.restoring
    case _ => true
  }

  function RecordNext(s: State, step: Step): Record
    requires Enabled(s, step)
  {
    match step
    case RecordKey(p, key, io) => WithKey(s.record, p, key, io)
    case SweepStashes(io) => WithBackup(s.record, s.shelf.sweep.purpose, s.shelf.sweep.pem, io)
    case Confirm(p, io) => WithoutBackup(s.record, p, io)
    case TakeBackup(_, p, io) => WithoutBackup(s.record, p, io)
    case _ => s.record
  }

  /** Whether the sweep's stash is written beside a recorded key. */
  predicate Stashes(s: State, io: Io)
    requires s.shelf.sweep.HasRead?
  {
    Loaded(s.record, io).Of(s.shelf.sweep.purpose).Some? && io.writeOk
  }

  const BOTH_GIVEN_UP := [GivenUp(SignRequests.ChargingStationCertificate), GivenUp(SignRequests.V2GCertificate)]

  function Events(s: State, step: Step): seq<Event>
    requires Enabled(s, step)
  {
    match step
    case RecordKey(p, _, io) =>
      if !io.readOk && io.writeOk then BOTH_GIVEN_UP else []
    case SweepStashes(io) =>
      if Stashes(s, io) then [Stashed(s.shelf.sweep.purpose, s.shelf.sweep.pem)] else []
    case Confirm(p, io) => if io.readOk && io.writeOk then [GivenUp(p)] else []
    case TakeBackup(_, p, io) =>
      var backup := Loaded(s.record, io).BackupOf(p);
      if backup.Some? then [Taken(p, backup.value, io.writeOk)] else []
    case _ => []
  }

  /** The installed certificate of `p` becomes `pem`: by a signed renewal, a deletion or a discard. */
  function Replaced(f: Shelf, p: Purpose, pem: Option<Pem>): Shelf {
    Shelf(f.installed.With(p, pem),
          if f.sweep.HasRead? && f.sweep.purpose == p then f.sweep.(put := Some(pem)) else f.sweep,
          f.put[p := pem],
          map id | id in f.restoring ::
            if f.restoring[id].purpose == p then f.restoring[id].(put := Some(pem)) else f.restoring[id])
  }

  function ShelfNext(s: State, step: Step): Shelf
    requires Enabled(s, step)
  {
    var f := s.shelf;
    match step
    case SweepReads(p) => f.(sweep := HasRead(p, f.installed.Of(p).value, None))
    case SweepStashes(io) =>
      f.(sweep := NoSweep,
         put := if !Stashes(s, io) then f.put
                else if f.sweep.put.Some? then f.put[f.sweep.purpose := f.sweep.put.value]
                else f.put - {f.sweep.purpose})
    case InstalledChanges(p, pem) => Replaced(f, p, pem)
    case TakeBackup(id, p, io) =>
      var backup := Loaded(s.record, io).BackupOf(p);
      if backup.None? then f
      else f.(restoring := f.restoring[id := Restoring(p, backup.value, |s.log|, PutOf(f.put, p))])
    case Restore(id, accepted) =>
      var r := f.restoring[id];
      var done := f.(restoring := f.restoring - {id});
      if accepted then Replaced(done, r.purpose, Some(r.pem)) else done
    case Crash => f.(sweep := NoSweep, restoring := map[])
    case _ => f
  }

  function Next(s: State, step: Step): State
    requires Enabled(s, step)
  {
    State(RecordNext(s, step), s.log + Events(s, step), ShelfNext(s, step))
  }

  predicate Runs(s: State, steps: seq<Step>)
    decreases |steps|
  {
    steps == [] || (Enabled(s, steps[0]) && Runs(Next(s, steps[0]), steps[1..]))
  }

  function Execute(s: State, steps: seq<Step>): State
    requires Runs(s, steps)
    decreases |steps|
  {
    if steps == [] then s else Execute(Next(s, steps[0]), steps[1..])
  }

  // --- What a discard owes -----------------------------------------------------------------------

  /** Read off the history: the latest stash not given up, nor taken for good, since. */
  function Owed(log: seq<Event>, p: Purpose): Option<Pem> {
    if log == [] then None
    else
      var last, before := log[|log| - 1], log[..|log| - 1];
      if last.purpose != p || (last.Taken? && !last.removed) then Owed(before, p)
      else if last.Stashed? then Some(last.pem) else None
  }

  /** Backups stashed, taken, and taken yet left behind because the removal could not be written. */
  datatype Tally = Tally(stashed: nat, taken: nat, leftBehind: nat)

  function Counted(log: seq<Event>, p: Purpose): Tally {
    if log == [] then Tally(0, 0, 0)
    else
      var t, last := Counted(log[..|log| - 1], p), log[|log| - 1];
      if last.purpose != p || last.GivenUp? then t
      else if last.Stashed? then t.(stashed := t.stashed + 1)
      else Tally(t.stashed, t.taken + 1, if last.removed then t.leftBehind else t.leftBehind + 1)
  }

  /** The stored backup is the one owed, and every one taken was stashed or left behind before. */
  predicate Accounted(backup: Option<Pem>, log: seq<Event>, p: Purpose) {
    var t := Counted(log, p);
    backup == Owed(log, p) && t.taken + (if backup.Some? then 1 else 0) <= t.stashed + t.leftBehind
  }

  function BackupAfter(backup: Option<Pem>, e: Event, p: Purpose): Option<Pem> {
    if e.purpose != p || (e.Taken? && !e.removed) then backup
    else if e.Stashed? then Some(e.pem) else None
  }

  lemma EventKeepsAccount(backup: Option<Pem>, log: seq<Event>, e: Event, p: Purpose)
    requires Accounted(backup, log, p) && (e.Taken? && e.purpose == p ==> backup == Some(e.pem))
    ensures Accounted(BackupAfter(backup, e, p), log + [e], p)
  {
    assert (log + [e])[..|log|] == log;
  }

  lemma WipeKeepsAccount(backup: Option<Pem>, log: seq<Event>, p: Purpose)
    requires Accounted(backup, log, p)
    ensures Accounted(None, log + BOTH_GIVEN_UP, p)
  {
    var first, second := BOTH_GIVEN_UP[0], BOTH_GIVEN_UP[1];
    EventKeepsAccount(backup, log, first, p);
    EventKeepsAccount(BackupAfter(backup, first, p), log + [first], second, p);
    assert log + [first] + [second] == log + BOTH_GIVEN_UP;
  }

  /** The events of a step say all that it did to the stored backup. */
  lemma EventsTellBackup(s: State, step: Step, p: Purpose)
    requires Enabled(s, step)
    ensures var events, backup := Events(s, step), RecordNext(s, step).BackupOf(p);
            && (events == [] || |events| == 1 || (events == BOTH_GIVEN_UP && backup == None))
            && (events == [] ==> backup == s.record.BackupOf(p))
            && (|events| == 1 ==> backup == BackupAfter(s.record.BackupOf(p), events[0], p))
            && (|events| == 1 && events[0].Taken? && events[0].purpose == p ==>
                  s.record.BackupOf(p) == Some(events[0].pem))
  {
  }

  lemma StepKeepsAccount(s: State, step: Step, p: Purpose)
    requires Accounted(s.record.BackupOf(p), s.log, p) && Enabled(s, step)
    ensures Accounted(RecordNext(s, step).BackupOf(p), s.log + Events(s, step), p)
  {
    var events, backup := Events(s, step), s.record.BackupOf(p);
    EventsTellBackup(s, step, p);
    if events == [] {
      assert s.log + events == s.log;
    } else if |events| == 1 {
      assert events == [events[0]];
      EventKeepsAccount(backup, s.log, events[0], p);
    } else {
      WipeKeepsAccount(backup, s.log, p);
    }
  }

  /** Whatever was taken was what was owed at that moment. */
  ghost predicate TakenWereOwed(log: seq<Event>) {
    forall i :: 0 <= i < |log| && log[i].Taken? ==> Owed(log[..i], log[i].purpose) == Some(log[i].pem)
  }

  lemma StepKeepsTaken(s: State, step: Step)
    requires TakenWereOwed(s.log) && Enabled(s, step)
    requires forall p: Purpose :: Accounted(s.record.BackupOf(p), s.log, p)
    ensures TakenWereOwed(s.log + Events(s, step))
  {
    var longer := s.log + Events(s, step);
    forall i | 0 <= i < |longer| && longer[i].Taken?
      ensures Owed(longer[..i], longer[i].purpose) == Some(longer[i].pem)
    {
      if i < |s.log| {
        assert longer[..i] == s.log[..i];
      } else {
        assert longer[..i] == s.log;
      }
    }
  }

  /** A discard under way installs what event number `at` took. */
  predicate UnderWay(restoring: map<nat, Restoring>, log: seq<Event>) {
    forall id :: id in restoring ==>
      var r := restoring[id];
      r.at < |log| && log[r.at].Taken? && log[r.at].purpose == r.purpose && log[r.at].pem == r.pem
  }

  predicate BackupInPlace(backup: Option<Pem>, f: Shelf, p: Purpose) {
    backup.Some? ==> f.installed.Of(p) == InPlace(backup.value, PutOf(f.put, p))
  }

  predicate SweptInPlace(f: Shelf, p: Purpose) {
    f.sweep.HasRead? && f.sweep.purpose == p ==> f.installed.Of(p) == InPlace(f.sweep.pem, f.sweep.put)
  }

  predicate TakenInPlace(installed: Option<Pem>, restoring: map<nat, Restoring>, p: Purpose) {
    forall id :: id in restoring && restoring[id].purpose == p ==>
      installed == InPlace(restoring[id].pem, restoring[id].put)
  }

  /** What is installed is what was read, or what was last put in its place. */
  predicate Faithful(backup: Option<Pem>, f: Shelf, p: Purpose) {
    BackupInPlace(backup, f, p) && SweptInPlace(f, p) && TakenInPlace(f.installed.Of(p), f.restoring, p)
  }

  lemma StepKeepsUnderWay(s: State, step: Step)
    requires UnderWay(s.shelf.restoring, s.log) && Enabled(s, step)
    ensures UnderWay(ShelfNext(s, step).restoring, s.log + Events(s, step))
  {
  }

  lemma ReplacingIsFaithful(f: Shelf, backup: Option<Pem>, q: Purpose, pem: Option<Pem>, p: Purpose)
    requires Faithful(backup, f, p)
    ensures Faithful(backup, Replaced(f, q, pem), p)
  {
  }

  lemma StepKeepsBackupInPlace(s: State, step: Step, p: Purpose)
    requires Faithful(s.record.BackupOf(p), s.shelf, p) && Enabled(s, step)
    requires !step.InstalledChanges? && !step.Restore?
    ensures BackupInPlace(RecordNext(s, step).BackupOf(p), ShelfNext(s, step), p)
  {
  }

  lemma StepKeepsTakenInPlace(s: State, step: Step, p: Purpose)
    requires Faithful(s.record.BackupOf(p), s.shelf, p) && Enabled(s, step)
    requires !step.InstalledChanges? && !step.Restore?
    ensures TakenInPlace(ShelfNext(s, step).installed.Of(p), ShelfNext(s, step).restoring, p)
  {
  }

  lemma StepKeepsFaithful(s: State, step: Step, p: Purpose)
    requires Faithful(s.record.BackupOf(p), s.shelf, p) && Enabled(s, step)
    ensures Faithful(RecordNext(s, step).BackupOf(p), ShelfNext(s, step), p)
  {
    match step
    case InstalledChanges(q, pem) => ReplacingIsFaithful(s.shelf, s.record.BackupOf(p), q, pem, p);
    case Restore(id, _) =>
      var r, done := s.shelf.restoring[id], s.shelf.(restoring := s.shelf.restoring - {id});
      ReplacingIsFaithful(done, s.record.BackupOf(p), r.purpose, Some(r.pem), p);
    case _ =>
      StepKeepsBackupInPlace(s, step, p);
      StepKeepsTakenInPlace(s, step, p);
  }

  ghost predicate BackupInv(s: State) {
    && (forall p: Purpose :: Accounted(s.record.BackupOf(p), s.log, p))
    && (forall p: Purpose :: Faithful(s.record.BackupOf(p), s.shelf, p))
    && TakenWereOwed(s.log) && UnderWay(s.shelf.restoring, s.log)
  }

  lemma StepKeepsBackup(s: State, step: Step)
    requires BackupInv(s) && Enabled(s, step)
    ensures BackupInv(Next(s, step))
  {
    forall p: Purpose
      ensures Accounted(Next(s, step).record.BackupOf(p), Next(s, step).log, p)
      ensures Faithful(Next(s, step).record.BackupOf(p), Next(s, step).shelf, p)
    {
      StepKeepsAccount(s, step, p);
      StepKeepsFaithful(s, step, p);
    }
    StepKeepsTaken(s, step);
    StepKeepsUnderWay(s, step);
  }

  lemma {:induction false} RunKeepsBackup(s: State, steps: seq<Step>)
    requires BackupInv(s) && Runs(s, steps)
    ensures BackupInv(Execute(s, steps))
    decreases |steps|
  {
    if steps != [] {
      StepKeepsBackup(s, steps[0]);
      RunKeepsBackup(Next(s, steps[0]), steps[1..]);
    }
  }

  // --- What holds in every run -------------------------------------------------------------------

  lemma TakingIsLocal(s: State, id: nat, p: Purpose, io: Io)
    requires id !in s.shelf.restoring
    ensures var after := Next(s, TakeBackup(id, p, io));
            && (id in after.shelf.restoring <==> io.readOk && s.record.BackupOf(p).Some?)
            && (id in after.shelf.restoring ==> Some(after.shelf.restoring[id].pem) == s.record.BackupOf(p))
            && (id !in after.shelf.restoring ==> after == s)
            && after.shelf.installed == s.shelf.installed
            && (forall q: Purpose :: q != p ==> after.record.Of(q) == s.record.Of(q))
  {
    if Loaded(s.record, io).BackupOf(p).None? {
      assert s.log + [] == s.log;
    }
  }

  /**
   After any run, with reads and writes failing at will, a discard takes exactly the latest stash not
   resolved since, and does nothing at all when there is none or it cannot be read. The other purpose's
   slot is untouched, and over the run no more backups were taken than stashed, save those whose
   removal could not be written.
   */
  lemma DiscardTakesLatestStash(s: State, steps: seq<Step>, id: nat, p: Purpose, io: Io)
    requires Init(s) && Runs(s, steps) && id !in Execute(s, steps).shelf.restoring
    ensures var e := Execute(s, steps);
            var after := Next(e, TakeBackup(id, p, io));
            && (id in after.shelf.restoring <==> io.readOk && Owed(e.log, p).Some?)
            && (id in after.shelf.restoring ==> Some(after.shelf.restoring[id].pem) == Owed(e.log, p))
            && (id !in after.shelf.restoring ==> after == e)
            && after.shelf.installed == e.shelf.installed
            && (forall q: Purpose :: q != p ==> after.record.Of(q) == e.record.Of(q))
            && Counted(after.log, p).taken <= Counted(after.log, p).stashed + Counted(after.log, p).leftBehind
  {
    RunKeepsBackup(s, steps);
    TakingIsLocal(Execute(s, steps), id, p, io);
    StepKeepsAccount(Execute(s, steps), TakeBackup(id, p, io), p);
  }

  /**
   However much happens between taking and installing, what a discard installs is the certificate that
   was owed when it was taken, for its own purpose only, and once.
   */
  lemma DiscardRestoresLatestStash(s: State, steps: seq<Step>, id: nat, accepted: bool)
    requires Init(s) && Runs(s, steps) && id in Execute(s, steps).shelf.restoring
    ensures var e := Execute(s, steps);
            var r := e.shelf.restoring[id];
            var after := Next(e, Restore(id, accepted));
            && r.at < |e.log| && Owed(e.log[..r.at], r.purpose) == Some(r.pem)
            && after.shelf.installed == (if accepted then e.shelf.installed.With(r.purpose, Some(r.pem))
                                         else e.shelf.installed)
            && after.record == e.record && after.log == e.log && id !in after.shelf.restoring
  {
    RunKeepsBackup(s, steps);
    assert Execute(s, steps).log + [] == Execute(s, steps).log;
  }

  lemma SameAgain(c: Certificates, p: Purpose, pem: Option<Pem>)
    ensures c.With(p, pem) == c <==> c.Of(p) == pem
  {
  }

  /**
   For every run and every discard under way: it leaves the certificate store as it was exactly if its
   install is refused, or nothing was put in place of the certificate since the sweep read it, or the
   last thing put there was the same certificate.
   */
  lemma DiscardChangesNothingIff(s: State, steps: seq<Step>, id: nat, accepted: bool)
    requires Init(s) && Runs(s, steps) && id in Execute(s, steps).shelf.restoring
    ensures var e := Execute(s, steps);
            var r := e.shelf.restoring[id];
            Next(e, Restore(id, accepted)).shelf.installed == e.shelf.installed
            <==> !accepted || r.put == None || r.put == Some(Some(r.pem))
  {
    RunKeepsBackup(s, steps);
    var e := Execute(s, steps);
    var r := e.shelf.restoring[id];
    assert Faithful(e.record.BackupOf(r.purpose), e.shelf, r.purpose);
    SameAgain(e.shelf.installed, r.purpose, Some(r.pem));
  }

  lemma {:induction false} Then(s: State, steps: seq<Step>, e: State, step: Step)
    returns (longer: seq<Step>, next: State)
    requires Runs(s, steps) && Execute(s, steps) == e && Enabled(e, step)
    ensures longer == steps + [step] && next == Next(e, step)
    ensures Runs(s, longer) && Execute(s, longer) == next
    decreases |steps|
  {
    longer, next := steps + [step], Next(e, step);
    if steps == [] {
      assert longer[1..] == [] && Runs(next, []);
    } else {
      var tail, end := Then(Next(s, steps[0]), steps[1..], e, step);
      assert longer[1..] == tail;
    }
  }

  /** A certificate signed between taking and installing is about to be replaced by the one before it. */
  lemma LateSigningIsUndone(p: Purpose, previous: Pem, signed: Pem) returns (s: State, steps: seq<Step>)
    ensures Init(s) && Runs(s, steps) && 0 in Execute(s, steps).shelf.restoring
    ensures var e := Execute(s, steps);
            && e.shelf.restoring[0].put == Some(Some(signed)) && e.shelf.restoring[0].purpose == p
            && e.shelf.installed.Of(p) == Some(signed)
            && Next(e, Restore(0, true)).shelf.installed.Of(p) == Some(previous)
  {
    var io := Io(true, true);
    s := State(EMPTY, [], Shelf(Certificates(Some(previous), Some(previous)), NoSweep, map[], map[]));
    var e;
    steps, e := Then(s, [], s, RecordKey(p, 0, io));
    steps, e := Then(s, steps, e, SweepReads(p));
    steps, e := Then(s, steps, e, SweepStashes(io));
    assert e.record.BackupOf(p) == Some(previous);
    steps, e := Then(s, steps, e, TakeBackup(0, p, io));
    steps, e := Then(s, steps, e, InstalledChanges(p, Some(signed)));
  }
}
