/**
 Loading and saving credentials where a complete file is the commit point (daemon/src/creds.rs,
 daemon/src/secret_file.rs): the file decides, the keyring is a mirror that may lag or run ahead, and a
 save compares the durable revision with the one its update was built from.
 */
module CredentialStore {
  import opened Base
  import opened Pins
  import opened Records
  import opened Migration
  import Trust

  datatype Store = Store(file: Option<Record>, keyring: Keyring)

  /**
   What one locked operation meets: whether this process uses the keyring and may migrate, the faults of
   the keyring read, and how the mirror write and the file replacement end.
   */
  datatype Conditions = Conditions(disabled: bool, migrate: bool, faults: Faults, mirror: Effect, replace: Effect)

  function ReadFile(lib: Library, file: Option<Record>): (r: Result<Option<Record>, StoreError>)
  {
    if file.None? then Ok(None)
    else if !ValidLoaded(lib, file.value) then Err(InvalidRecord)
    else if !Complete(lib, file.value) then Err(Incomplete)
    else Ok(file)
  }

  function OrEmpty(file: Option<Record>): (r: Record) { if file.Some? then file.value else EMPTY }

  function Resolve(lib: Library, file: Option<Record>, reading: Reading): (r: Result<Record, StoreError>)
  {
    match reading
    case Read(keyring) => Reconcile(lib, file, keyring, UnixCompleteFile)
    case Unavailable => Ok(OrEmpty(file))
    case Fatal(e) => Err(e)
  }

  function Loaded(env: Env, s: Store, cond: Conditions): (r: (Result<Record, StoreError>, Store))
    ensures r.1.file == s.file
  {
    match ReadFile(env.lib, s.file)
    case Err(e) => (Err(e), s)
    case Ok(file) =>
      if cond.disabled then (Ok(OrEmpty(file)), s)
      else
        var (reading, trail) := ReadScoped(env, cond.migrate, s.keyring, file, UnixCompleteFile, cond.faults);
        (Resolve(env.lib, file, reading), s.(keyring := trail[|trail| - 1]))
  }

  /** The mirror is written first and may fail; then the file is replaced. */
  function Written(s: Store, next: Record, cond: Conditions): (r: Store)
  {
    var mirrored := if !cond.disabled && cond.mirror.Happened()
                    then s.(keyring := s.keyring.(scoped := Some(Bundle(next)))) else s;
    if cond.replace.Happened() then mirrored.(file := Some(next)) else mirrored
  }

  function MatchesBase(lib: Library, candidate: Record, expected: Revision): (r: Result<bool, StoreError>)
  {
    match expected
    case Current(_) => (match RevisionOf(lib, candidate) case Ok(v) => Ok(v == expected) case Err(e) => Err(e))
    case LegacyDigest(_) => (match RecordOrder(lib, candidate.marker) case Ok(o) => Ok(o.None?) case Err(e) => Err(e))
  }

  /** The next generation of a candidate, if it may be written at all. */
  function Prepared(env: Env, candidate: Record, id: string): (r: Result<Record, StoreError>)
  {
    match Advanced(env.lib, candidate, id)
    case Err(e) => Err(e)
    case Ok(next) =>
      if !ValidLoaded(env.lib, next) then Err(InvalidRecord)
      else if !Persistable(env, next) then Err(TooLarge)
      else if !Complete(env.lib, next) then Err(Incomplete)
      else Ok(next)
  }

  function Saved(env: Env, s: Store, candidate: Record, expected: Revision, id: string, cond: Conditions)
    : (r: (Result<Record, StoreError>, Store))
  {
    match MatchesBase(env.lib, candidate, expected)
    case Err(e) => (Err(e), s)
    case Ok(false) => (Err(BaseChanged), s)
    case Ok(true) =>
      var (durable, s') := Loaded(env, s, cond);
      if durable.Err? then (Err(durable.error), s')
      else
        match RevisionOf(env.lib, durable.value)
        case Err(e) => (Err(e), s')
        case Ok(v) =>
          if v != expected then (Err(Stale), s')
          else
            match Prepared(env, candidate, id)
            case Err(e) => (Err(e), s')
            case Ok(next) => (if cond.replace.Done? then Ok(next) else Err(FileWriteFailed), Written(s', next, cond))
  }

  // ---- What a load and a save do from a versioned file -------------------------------------

  predicate GoodFile(lib: Library, s: Store) {
    s.file.Some? && Versioned(lib, s.file.value) && ValidLoaded(lib, s.file.value) && Complete(lib, s.file.value)
  }

  /** The mirror never carries the file record's identity with another content. */
  predicate MirrorAgrees(s: Store) {
    match (s.file, s.keyring.scoped)
    case (Some(f), Some(Bundle(k))) => k.marker == f.marker ==> k == f
    case _ => true
  }

  /** What a load reads from the keyring. */
  function ReadingFor(env: Env, s: Store, cond: Conditions): (r: (Reading, seq<Keyring>))
    ensures r.1 != []
  {
    ReadScoped(env, cond.migrate, s.keyring, s.file, UnixCompleteFile, cond.faults)
  }

  /**
   A load gives the file record whatever the keyring holds. It fails exactly when the keyring is in use and
   its entry cannot be decoded or moved, and never because the copies disagree within one identity.
   */
  lemma LoadGivesTheFile(env: Env, s: Store, cond: Conditions)
    requires GoodFile(env.lib, s) && MirrorAgrees(s)
    ensures var (r, s') := Loaded(env, s, cond);
            && (r.Ok? ==> Some(r.value) == s.file)
            && (r.Err? <==> !cond.disabled && ReadingFor(env, s, cond).0.Fatal?)
            && r != Err(BackendsDisagree)
            && (s'.keyring.scoped == s.keyring.scoped || s'.keyring.scoped == Some(Bundle(s.file.value)))
  {
    if !cond.disabled {
      ReadingOfGoodFile(env, s, cond);
      var reading := ReadingFor(env, s, cond).0;
      if reading.Read? {
        FileDecides(env.lib, s.file.value, reading.record, UnixCompleteFile);
      }
    }
  }

  lemma ReadingOfGoodFile(env: Env, s: Store, cond: Conditions)
    requires GoodFile(env.lib, s) && MirrorAgrees(s)
    ensures var (reading, trail) := ReadingFor(env, s, cond);
            && (reading.Read? && reading.record.Some? ==>
                  && RecordOrder(env.lib, reading.record.value.marker).Ok?
                  && (reading.record.value.marker == s.file.value.marker ==> reading.record == s.file))
            && reading != Fatal(BackendsDisagree)
            && (|| trail[|trail| - 1].scoped == s.keyring.scoped
                || trail[|trail| - 1].scoped == Some(Bundle(s.file.value)))
  {
    if s.keyring.scoped.None? && s.keyring.global.Some? && DecodeEntry(env, s.keyring.global.value).Ok? {
      var legacy := DecodeEntry(env, s.keyring.global.value).value;
      if MigrationRecord(env.lib, s.file, legacy, UnixCompleteFile).Ok? {
        VersionedFileIsMoved(env.lib, s.file.value, legacy, UnixCompleteFile);
      }
    }
  }

  /**
   A save either writes nothing of its candidate, and fails, or was built from the file record's revision
   and writes the next generation.
   */
  lemma SaveOutcome(env: Env, s: Store, candidate: Record, expected: Revision, id: string, cond: Conditions)
    requires GoodFile(env.lib, s) && MirrorAgrees(s)
    ensures var (r, s') := Saved(env, s, candidate, expected, id, cond);
            || (r.Err? && (s' == s || s' == Loaded(env, s, cond).1))
            || (&& RevisionOf(env.lib, s.file.value) == Ok(expected)
                && RevisionOf(env.lib, candidate) == Ok(expected)
                && Prepared(env, candidate, id).Ok?
                && s' == Written(Loaded(env, s, cond).1, Prepared(env, candidate, id).value, cond)
                && (r.Ok? <==> cond.replace.Done?)
                && (r.Ok? ==> r.value == Prepared(env, candidate, id).value))
  {
    LoadGivesTheFile(env, s, cond);
  }

  /** The file is read exactly when it is absent or a valid record, and a versioned one has a seed. */
  lemma FileIsRead(lib: Library, file: Option<Record>)
    ensures ReadFile(lib, file).Ok?
       <==> (file.Some? ==>
               && RecordOrder(lib, file.value.marker).Ok? && ValidContent(lib, file.value.content)
               && (file.value.marker != NO_MARKER ==> file.value.content.seed.Some?))
    ensures ReadFile(lib, file).Ok? ==> ReadFile(lib, file).value == file
  {
    if file.Some? {
      MarkerForms(lib, file.value.marker);
    }
  }

  /** With no keyring entry, whatever the keyring does, a file that can be read is what is loaded, or nothing is. */
  lemma LoadWithoutEntries(env: Env, file: Option<Record>, cond: Conditions)
    requires ReadFile(env.lib, file).Ok?
    ensures Loaded(env, Store(file, Keyring(None, None)), cond)
         == (Ok(if file.Some? then file.value else EMPTY), Store(file, Keyring(None, None)))
  {
  }

  /** A file that cannot be read fails the load, whatever the keyring holds. */
  lemma LoadNeedsTheFile(env: Env, s: Store, cond: Conditions)
    requires ReadFile(env.lib, s.file).Err?
    ensures Loaded(env, s, cond).0.Err? && Loaded(env, s, cond).1 == s
  {
  }

  /** Which candidates may be written: a generation to come, a valid record that fits, and a seed. */
  lemma PreparedIff(env: Env, candidate: Record, id: string)
    requires UuidFromText(env.lib, id).Some?
    ensures var r := Prepared(env, candidate, id);
            && (r.Ok? <==>
                  && Advanced(env.lib, candidate, id).Ok?
                  && ValidContent(env.lib, candidate.content) && candidate.content.seed.Some?
                  && env.prettyLength(Advanced(env.lib, candidate, id).value) <= 16384
                  && env.compactLength(Advanced(env.lib, candidate, id).value) <= 16384)
            && (r.Ok? ==> r == Advanced(env.lib, candidate, id))
  {
    AdvancedOrder(env.lib, candidate, id);
  }

  /** A candidate built from the file record, readable backends and a valid next generation: the save goes through. */
  lemma CurrentSaveWrites(env: Env, s: Store, candidate: Record, id: string, cond: Conditions)
    requires GoodFile(env.lib, s) && MirrorAgrees(s) && candidate.marker == s.file.value.marker
    requires Loaded(env, s, cond).0.Ok? && Prepared(env, candidate, id).Ok? && RevisionOf(env.lib, candidate).Ok?
    ensures var next := Prepared(env, candidate, id).value;
            var (r, s') := Saved(env, s, candidate, RevisionOf(env.lib, candidate).value, id, cond);
            && s'.file == (if cond.replace.Happened() then Some(next) else s.file)
            && (!cond.disabled && cond.mirror.Happened() ==> s'.keyring.scoped == Some(Bundle(next)))
            && r == (if cond.replace.Done? then Ok(next) else Err(FileWriteFailed))
  {
    LoadGivesTheFile(env, s, cond);
  }

  /**
   Why the guarantees start from a file. With neither file nor keyring entry, a first save that was not
   reported as done is found by a later load exactly when the file was replaced all the same, or when the
   mirror was written and that load reads it.
   */
  lemma FailedFirstSaveSurfaces(env: Env, candidate: Record, id: string, cond: Conditions, later: Conditions)
    requires candidate.marker == NO_MARKER && Prepared(env, candidate, id).Ok? && !cond.replace.Done?
    ensures var (r, s) := Saved(env, Store(None, Keyring(None, None)), candidate, LegacyDigest(EMPTY), id, cond);
            && r == Err(FileWriteFailed)
            && (Loaded(env, s, later).0 == Ok(Prepared(env, candidate, id).value)
                <==> || cond.replace.FailedAfter?
                     || (&& !cond.disabled && cond.mirror.Happened()
                         && !later.disabled && !later.faults.scopedReadFails))
  {
  }

  // ---- The store and its clients --------------------------------------------------------------

  class FileAndKeyring {
    var file: Option<Record>
    const keyring: OsKeyring

    ghost function View(): Store
      reads this, keyring
    {
      Store(file, keyring.View())
    }

    constructor (file: Option<Record>, keyring: OsKeyring)
      ensures this.file == file && this.keyring == keyring
    {
      this.file := file;
      this.keyring := keyring;
    }

    method Load(env: Env, cond: Conditions) returns (r: Result<Record, StoreError>)
      modifies keyring
      ensures (r, View()) == Loaded(env, old(View()), cond)
    {
      var fromFile := ReadFile(env.lib, file);
      if fromFile.Err? {
        return Err(fromFile.error);
      }
      if cond.disabled {
        return Ok(OrEmpty(fromFile.value));
      }
      var reading := keyring.ReadRecord(env, cond.migrate, fromFile.value, UnixCompleteFile, cond.faults);
      r := Resolve(env.lib, fromFile.value, reading);
    }

    /** Writes both backends in order: the mirror's failure is only a warning, the file's is the result. */
    method WriteBoth(env: Env, next: Record, cond: Conditions) returns (ok: bool)
      requires Persistable(env, next)
      modifies this, keyring
      ensures View() == Written(old(View()), next, cond) && ok == cond.replace.Done?
    {
      if !cond.disabled {
        var mirrored := keyring.Set(env, next, cond.mirror);
      }
      if cond.replace.Happened() {
        file := Some(next);
      }
      return cond.replace.Done?;
    }

    /** Compare-and-swap: the record written on success, which the caller takes over. */
    method Save(env: Env, candidate: Record, expected: Revision, id: string, cond: Conditions)
      returns (r: Result<Record, StoreError>)
      modifies this, keyring
      ensures (r, View()) == Saved(env, old(View()), candidate, expected, id, cond)
    {
      var matches := MatchesBase(env.lib, candidate, expected);
      if matches.Err? {
        return Err(matches.error);
      }
      if !matches.value {
        return Err(BaseChanged);
      }
      var durable := Load(env, cond);
      if durable.Err? {
        return Err(durable.error);
      }
      var revision := RevisionOf(env.lib, durable.value);
      if revision.Err? {
        return Err(revision.error);
      }
      if revision.value != expected {
        return Err(Stale);
      }
      var next := Prepared(env, candidate, id);
      if next.Err? {
        return Err(next.error);
      }
      var ok := WriteBoth(env, next.value, cond);
      return if ok then Ok(next.value) else Err(FileWriteFailed);
    }
  }

  /** A process holding a record in memory. */
  class Client {
    var current: Record

    constructor (loaded: Record)
      ensures current == loaded
    {
      current := loaded;
    }

    /** Any failure, of the update or of the save, leaves the record in memory as it was. */
    method Commit(env: Env, store: FileAndKeyring, op: Trust.Op, id: string, cond: Conditions) returns (ok: bool)
      modifies this, store, store.keyring
      ensures !ok ==> current == old(current)
      ensures Trust.Apply(env.lib, op, old(current.content)).None? || RevisionOf(env.lib, old(current)).Err? ==>
                !ok && store.View() == old(store.View())
      ensures Trust.Apply(env.lib, op, old(current.content)).Some? && RevisionOf(env.lib, old(current)).Ok? ==>
                var candidate := old(current).(content := Trust.Apply(env.lib, op, old(current.content)).value);
                var expected := RevisionOf(env.lib, old(current)).value;
                var (r, s) := Saved(env, old(store.View()), candidate, expected, id, cond);
                ok == r.Ok? && store.View() == s && (ok ==> current == r.value)
    {
      var expected := RevisionOf(env.lib, current);
      var content := Trust.Apply(env.lib, op, current.content);
      if expected.Err? || content.None? {
        return false;
      }
      var saved := store.Save(env, current.(content := content.value), expected.value, id, cond);
      if saved.Err? {
        return false;
      }
      current := saved.value;
      return true;
    }
  }
}
