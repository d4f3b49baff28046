/**
 The persisted association of certificate purpose, key pair and backup certificate
 (src/certificate_renewal.rs). Every operation loads the whole record, changes it and saves it; a load
 that fails reads as an empty record, and a save may fail.
 */
module RenewalStores {
  import opened Options
  import opened Storages
  import SignRequests

  type Purpose = SignRequests.Purpose
  type Key = nat
  datatype Pem = Pem(text: string)

  datatype KeySlot = KeySlot(key: Key, backup: Option<Pem>)

  datatype Record = Record(station: Option<KeySlot>, v2g: Option<KeySlot>) {
    function Of(p: Purpose): Option<KeySlot> {
      if p.ChargingStationCertificate? then station else v2g
    }

    function With(p: Purpose, slot: Option<KeySlot>): Record {
      if p.ChargingStationCertificate? then this.(station := slot) else this.(v2g := slot)
    }

    function KeyOf(p: Purpose): Option<Key> {
      if Of(p).None? then None else Some(Of(p).value.key)
    }

    function BackupOf(p: Purpose): Option<Pem> {
      if Of(p).None? then None else Of(p).value.backup
    }
  }

  const EMPTY := Record(None, None)

  function Loaded(r: Record, io: Io): Record {
    if io.readOk then r else EMPTY
  }

  function Saved(r: Record, changed: Record, io: Io): Record {
    if io.writeOk then changed else r
  }

  /** Records a key, keeping whatever backup the loaded record holds for the purpose. */
  function WithKey(r: Record, p: Purpose, key: Key, io: Io): Record {
    var loaded := Loaded(r, io);
    Saved(r, loaded.With(p, Some(KeySlot(key, loaded.BackupOf(p)))), io)
  }

  function WithBackup(r: Record, p: Purpose, pem: Pem, io: Io): Record {
    var loaded := Loaded(r, io);
    match loaded.Of(p)
    case None => r
    case Some(slot) => Saved(r, loaded.With(p, Some(slot.(backup := Some(pem)))), io)
  }

  /** Taking the backup and confirming leave the same record: the loaded one without a backup. */
  function WithoutBackup(r: Record, p: Purpose, io: Io): Record {
    var loaded := Loaded(r, io);
    match loaded.Of(p)
    case None => r
    case Some(slot) =>
      if slot.backup.None? then r else Saved(r, loaded.With(p, Some(slot.(backup := None))), io)
  }

  class RenewalStore {
    var storage: Record

    constructor ()
      ensures storage == EMPTY
    {
      storage := EMPTY;
    }

    method Load(io: Io) returns (loaded: Record)
      ensures loaded == Loaded(storage, io)
    {
      loaded := if io.readOk then storage else EMPTY;
    }

    method Save(changed: Record, io: Io)
      modifies this
      ensures storage == Saved(old(storage), changed, io)
    {
      if io.writeOk {
        storage := changed;
      }
    }

    method KeyPairFor(p: Purpose, io: Io) returns (key: Option<Key>)
      ensures key == Loaded(storage, io).KeyOf(p)
    {
      var state := Load(io);
      var slot := state.Of(p);
      key := if slot.None? then None else Some(slot.value.key);
    }

    method RecordKeyPair(p: Purpose, key: Key, io: Io)
      modifies this
      ensures storage == WithKey(old(storage), p, key, io)
    {
      var state := Load(io);
      var slot := state.Of(p);
      var backup := if slot.None? then None else slot.value.backup;
      state := state.With(p, Some(KeySlot(key, backup)));
      Save(state, io);
    }

    method StashBackup(p: Purpose, pem: Pem, io: Io)
      modifies this
      ensures storage == WithBackup(old(storage), p, pem, io)
    {
      var state := Load(io);
      var slot := state.Of(p);
      if slot.Some? {
        state := state.With(p, Some(slot.value.(backup := Some(pem))));
        Save(state, io);
      }
    }

    method TakeBackup(p: Purpose, io: Io) returns (backup: Option<Pem>)
      modifies this
      ensures backup == Loaded(old(storage), io).BackupOf(p)
      ensures storage == WithoutBackup(old(storage), p, io)
    {
      var state := Load(io);
      var slot := state.Of(p);
      backup := if slot.None? then None else slot.value.backup;
      if backup.Some? {
        state := state.With(p, Some(slot.value.(backup := None)));
        Save(state, io);
      }
    }

    method Confirm(p: Purpose, io: Io)
      modifies this
      ensures storage == WithoutBackup(old(storage), p, io)
    {
      var taken := TakeBackup(p, io);
    }
  }

  datatype SignOutcome = Accepted | Rejected | Failed

  /**
   One renewal run alone: the recorded key if the store yields one, else the generated one; nothing
   is recorded unless the CSMS accepts. `used` is the key a `SignCertificate` was sent for, if any.
   */
  method RenewCertificate(store: RenewalStore, p: Purpose, generated: Option<Key>, outcome: SignOutcome,
                          lookUp: Io, record: Io)
    returns (used: Option<Key>)
    modifies store
    ensures var recorded := Loaded(old(store.storage), lookUp).KeyOf(p);
            used == if recorded.Some? then recorded else generated
    ensures store.storage == if used.Some? && outcome.Accepted?
                             then WithKey(old(store.storage), p, used.value, record) else old(store.storage)
  {
    used := store.KeyPairFor(p, lookUp);
    if used.None? {
      used := generated;
    }
    if used.Some? && outcome.Accepted? {
      store.RecordKeyPair(p, used.value, record);
    }
  }

  /** A discard run alone: takes the backup, tries to install it, and says whether that worked. */
  method DiscardCertificateRenewal(store: RenewalStore, p: Purpose, io: Io, installAccepted: bool)
    returns (restored: bool, tried: Option<Pem>)
    modifies store
    ensures tried == if io.readOk && old(store.storage).Of(p).Some? then old(store.storage).Of(p).value.backup else None
    ensures restored <==> tried.Some? && installAccepted
    ensures store.storage == WithoutBackup(old(store.storage), p, io)
  {
    tried := store.TakeBackup(p, io);
    restored := tried.Some? && installAccepted;
  }

  /**
   Work on one purpose leaves the other's slot alone, with one exception: recording a key over a
   record that could not be read, but could be written, wipes whatever the other slot held.
   */
  lemma OtherSlotSurvivesIff(r: Record, p: Purpose, q: Purpose, key: Key, pem: Pem, io: Io)
    requires p != q
    ensures WithKey(r, p, key, io).Of(q) == r.Of(q) <==> io.readOk || !io.writeOk || r.Of(q).None?
    ensures WithBackup(r, p, pem, io).Of(q) == r.Of(q)
    ensures WithoutBackup(r, p, io).Of(q) == r.Of(q)
  {
  }

  /** A backup once taken is gone exactly if the removal was written; otherwise it can be taken again. */
  lemma TakenOnceIff(r: Record, p: Purpose, io: Io)
    requires io.readOk && r.BackupOf(p).Some?
    ensures WithoutBackup(r, p, io).BackupOf(p) == None <==> io.writeOk
    ensures !io.writeOk ==> WithoutBackup(r, p, io).BackupOf(p) == r.BackupOf(p)
    ensures WithoutBackup(r, p, io).KeyOf(p) == r.KeyOf(p)
  {
  }
}
