/**
 Reading the keyring (daemon/src/creds.rs): the entry scoped to one configuration directory, and the
 one-time move of the older global entry into it, with every call able to fail before or after it
 took effect.
 */
module Migration {
  import opened Base
  import opened Pins
  import opened Records

  /** What a keyring entry may hold: a serialized record, a bare token, or text that is neither. */
  datatype Entry = Bundle(record: Record) | RawToken(text: string) | Garbage

  datatype Keyring = Keyring(scoped: Option<Entry>, global: Option<Entry>)

  /** How a call that changes something ends: an error may be reported after the change was made. */
  datatype Effect = Done | FailedBefore | FailedAfter
  {
    predicate Happened() { !FailedBefore? }
  }

  datatype Faults = Faults(scopedReadFails: bool, globalReadFails: bool, write: Effect, remove: Effect)

  datatype Reading = Read(record: Option<Record>) | Unavailable | Fatal(error: StoreError)

  function DecodeEntry(env: Env, e: Entry): (r: Result<Record, StoreError>)
  {
    match e
    case Bundle(record) =>
      if env.compactLength(record) > MAX_CREDENTIALS_FILE_BYTES then Err(TooLarge)
      else if !ValidLoaded(env.lib, record) then Err(InvalidRecord)
      else if !Complete(env.lib, record) then Err(Incomplete)
      else Ok(record)
    case RawToken(text) =>
      if |text| > MAX_ACCESS_TOKEN_BYTES then Err(TooLarge)
      else Ok(Record(NO_MARKER, NO_CONTENT.(token := Some(text))))
    case Garbage => Err(CorruptEntry)
  }

  /** What an entry decodes to: the record of a bundle, or a bare token and nothing else. */
  lemma DecodedEntry(env: Env, e: Entry)
    ensures match e
            case Bundle(record) =>
              && (DecodeEntry(env, e).Ok? <==>
                    && env.compactLength(record) <= 16384 && ValidLoaded(env.lib, record)
                    && (record.marker != NO_MARKER ==> record.content.seed.Some?))
              && (DecodeEntry(env, e).Ok? ==> DecodeEntry(env, e).value == record)
            case RawToken(text) =>
              && (DecodeEntry(env, e).Ok? <==> |text| <= 12288)
              && (DecodeEntry(env, e).Ok? ==>
                    DecodeEntry(env, e).value
                    == Record(Marker(None, None, None), Content(Some(text), None, None, None, [])))
            case Garbage => DecodeEntry(env, e).Err?
  {
    if e.Bundle? {
      MarkerForms(env.lib, e.record.marker);
    }
  }

  // ---- The record to move -----------------------------------------------------------------

  /** The subset test of the source: pins must be there exactly, proofs included. */
  predicate LegacySubset(part: Content, whole: Content) {
    && FieldWithin(part.token, whole.token) && FieldWithin(part.hostId, whole.hostId)
    && FieldWithin(part.serverUrl, whole.serverUrl) && FieldWithin(part.seed, whole.seed)
    && forall p :: p in part.pins ==> p in whole.pins
  }

  function MergeStrictly(lib: Library, file: Record, legacy: Record): (r: Result<Record, StoreError>)
  {
    match MergeContents(lib, file.content, legacy.content)
    case Err(e) => Err(e)
    case Ok(content) =>
      if ValidLoaded(lib, file.(content := content)) then Ok(file.(content := content)) else Err(InvalidRecord)
  }

  function MigrationRecord(lib: Library, file: Option<Record>, legacy: Record, policy: Policy)
    : (r: Result<Record, StoreError>)
  {
    if file.None? then Ok(legacy)
    else
      var f := file.value;
      match (RecordOrder(lib, f.marker), RecordOrder(lib, legacy.marker))
      case (Err(e), _) => Err(e)
      case (_, Err(e)) => Err(e)
      case (Ok(Some(_)), Ok(Some(_))) =>
        if policy.CompleteFile() then if f == legacy then Ok(f) else Err(MigrationConflict)
        else if WithoutSeed(legacy) == f then Ok(legacy) else Err(MigrationConflict)
      case (Ok(Some(_)), Ok(None)) => if LegacySubset(legacy.content, f.content) then Ok(f) else Err(MigrationConflict)
      case (Ok(None), Ok(Some(_))) =>
        if LegacySubset(f.content, legacy.content) then Ok(legacy) else Err(MigrationConflict)
      case (Ok(None), Ok(None)) => MergeStrictly(lib, f, legacy)
  }

  /** When the global record may be moved, case by case. */
  lemma MigrationSucceedsIff(lib: Library, file: Option<Record>, legacy: Record, policy: Policy)
    requires RecordOrder(lib, legacy.marker).Ok? && (file.Some? ==> RecordOrder(lib, file.value.marker).Ok?)
    ensures var r := MigrationRecord(lib, file, legacy, policy);
            if file.None? then r == Ok(legacy)
            else
              var f := file.value;
              if f.marker != NO_MARKER && legacy.marker != NO_MARKER then
                if policy != NativeKeyring then r == if f == legacy then Ok(f) else Err(MigrationConflict)
                else r == if f == legacy.(content := legacy.content.(seed := None)) then Ok(legacy)
                          else Err(MigrationConflict)
              else if f.marker != NO_MARKER then
                r == if Part(legacy.content, f.content) then Ok(f) else Err(MigrationConflict)
              else if legacy.marker != NO_MARKER then
                r == if Part(f.content, legacy.content) then Ok(legacy) else Err(MigrationConflict)
              else
                r.Ok? <==> && MergeContents(lib, f.content, legacy.content).Ok?
                           && ValidContent(lib, MergeContents(lib, f.content, legacy.content).value)
  {
    MarkerForms(lib, legacy.marker);
    if file.Some? {
      MarkerForms(lib, file.value.marker);
    }
  }

  /** Every field one content has is the other's too, and so is every pin. */
  predicate Part(part: Content, whole: Content) {
    && (part.token.Some? ==> whole.token == part.token) && (part.hostId.Some? ==> whole.hostId == part.hostId)
    && (part.serverUrl.Some? ==> whole.serverUrl == part.serverUrl) && (part.seed.Some? ==> whole.seed == part.seed)
    && forall p :: p in part.pins ==> p in whole.pins
  }

  /** A record holds all of another: its content, and its marker if it has one. */
  predicate RecordWithin(part: Record, whole: Record) {
    (part.marker == NO_MARKER || part.marker == whole.marker) && Within(part.content, whole.content)
  }

  lemma SubsetIsWithin(part: Content, whole: Content)
    requires LegacySubset(part, whole)
    ensures Within(part, whole)
  {
  }

  /** The moved record holds every field, pin and proof of the global record and of the file. */
  lemma MigrationLosesNothing(lib: Library, file: Option<Record>, legacy: Record, policy: Policy)
    requires MigrationRecord(lib, file, legacy, policy).Ok?
    requires file.Some? ==> Canonical(lib, file.value.content.pins)
    ensures var m := MigrationRecord(lib, file, legacy, policy).value;
            RecordWithin(legacy, m) && (file.Some? ==> RecordWithin(file.value, m))
  {
    WithinItself(legacy.content);
    if file.Some? {
      var f := file.value;
      WithinItself(f.content);
      if Versioned(lib, f) && Legacy(lib, legacy) {
        SubsetIsWithin(legacy.content, f.content);
      } else if Legacy(lib, f) && Versioned(lib, legacy) {
        SubsetIsWithin(f.content, legacy.content);
      } else if Legacy(lib, f) && Legacy(lib, legacy) {
        MergedHoldsBoth(lib, f.content, legacy.content);
      } else if !policy.CompleteFile() {
        KeepsMembers(legacy.content.pins, f.content.pins);
      }
    }
  }

  /**
   The one arrangement whose move writes an entry that cannot be read back: where the native keyring is the
   store, a versioned file projection without the seed, over a legacy global record.
   */
  predicate MovesProjection(lib: Library, file: Option<Record>, legacy: Record, policy: Policy) {
    && policy == NativeKeyring && file.Some?
    && Versioned(lib, file.value) && file.value.content.seed.None? && Legacy(lib, legacy)
  }

  /** The file as it is when a keyring read begins: complete where complete files are kept, else just valid. */
  predicate UsableFile(lib: Library, file: Option<Record>, policy: Policy) {
    file.Some? ==> ValidLoaded(lib, file.value) && (policy.CompleteFile() ==> Complete(lib, file.value))
  }

  /** What is moved, if it fits, can be read back exactly when it is not such a projection. */
  lemma MigratedIsReadable(env: Env, file: Option<Record>, entry: Entry, policy: Policy)
    requires DecodeEntry(env, entry).Ok? && UsableFile(env.lib, file, policy)
    requires MigrationRecord(env.lib, file, DecodeEntry(env, entry).value, policy).Ok?
    ensures var legacy := DecodeEntry(env, entry).value;
            var m := MigrationRecord(env.lib, file, legacy, policy).value;
            env.compactLength(m) <= MAX_CREDENTIALS_FILE_BYTES ==>
              (DecodeEntry(env, Bundle(m)) == Ok(m) <==> !MovesProjection(env.lib, file, legacy, policy))
  {
  }

  /** Every such projection whose legacy record is part of it is moved, and is then unreadable. */
  lemma NativeProjectionIsUnreadable(env: Env, file: Record, legacy: Record)
    requires MovesProjection(env.lib, Some(file), legacy, NativeKeyring) && LegacySubset(legacy.content, file.content)
    ensures MigrationRecord(env.lib, Some(file), legacy, NativeKeyring) == Ok(file)
    ensures DecodeEntry(env, Bundle(file)).Err?
  {
  }

  // ---- Reading, and moving on the way ------------------------------------------------------

  /** The states the keyring passes through while the record is moved. */
  function Moving(env: Env, k: Keyring, m: Record, faults: Faults): (trail: seq<Keyring>)
    ensures trail != [] && trail[0] == k
  {
    if env.compactLength(m) > MAX_CREDENTIALS_FILE_BYTES || !faults.write.Happened() then [k]
    else
      var moved := k.(scoped := Some(Bundle(m)));
      if !faults.write.Done? || !faults.remove.Happened() then [k, moved]
      else [k, moved, moved.(global := None)]
  }

  function MoveResult(env: Env, m: Record, faults: Faults): (r: Reading)
  {
    if env.compactLength(m) > MAX_CREDENTIALS_FILE_BYTES || !faults.write.Done? then Fatal(MigrationWriteFailed)
    else if !faults.remove.Done? then Fatal(MigrationDeleteFailed)
    else Read(Some(m))
  }

  function ReadScoped(env: Env, migrate: bool, k: Keyring, file: Option<Record>, policy: Policy, faults: Faults)
    : (r: (Reading, seq<Keyring>))
    ensures r.1 != [] && r.1[0] == k
  {
    if faults.scopedReadFails then (Unavailable, [k])
    else if k.scoped.Some? then
      (match DecodeEntry(env, k.scoped.value) case Ok(r) => (Read(Some(r)), [k]) case Err(e) => (Fatal(e), [k]))
    else if !migrate then (Read(None), [k])
    else if faults.globalReadFails then (Unavailable, [k])
    else if k.global.None? then (Read(None), [k])
    else
      match DecodeEntry(env, k.global.value)
      case Err(e) => (Fatal(e), [k])
      case Ok(legacy) =>
        match MigrationRecord(env.lib, file, legacy, policy)
        case Err(e) => (Fatal(e), [k])
        case Ok(m) => (MoveResult(env, m, faults), Moving(env, k, m, faults))
  }

  /** A keyring from which everything in the global record can still be had. */
  predicate Holds(k: Keyring, global: Option<Entry>, legacy: Record) {
    k.global == global || (k.scoped.Some? && k.scoped.value.Bundle? && RecordWithin(legacy, k.scoped.value.record))
  }

  /**
   The move is crash-safe: in every state the keyring passes through, the global entry is still
   there or the scoped one holds all of it and all of the file.
   */
  lemma MoveIsCrashSafe(env: Env, migrate: bool, k: Keyring, file: Option<Record>, policy: Policy, faults: Faults,
                        i: nat)
    requires k.scoped.None? && k.global.Some? && DecodeEntry(env, k.global.value).Ok?
    requires file.Some? ==> Canonical(env.lib, file.value.content.pins)
    requires i < |ReadScoped(env, migrate, k, file, policy, faults).1|
    ensures var (r, trail) := ReadScoped(env, migrate, k, file, policy, faults);
            var legacy := DecodeEntry(env, k.global.value).value;
            && Holds(trail[i], k.global, legacy)
            && (trail[i].scoped.Some? ==>
                  && trail[i].scoped.value.Bundle?
                  && RecordWithin(legacy, trail[i].scoped.value.record)
                  && (file.Some? ==> RecordWithin(file.value, trail[i].scoped.value.record)))
            && (r.Read? && r.record.Some? ==> trail[|trail| - 1] == Keyring(Some(Bundle(r.record.value)), None))
  {
    var legacy := DecodeEntry(env, k.global.value).value;
    if MigrationRecord(env.lib, file, legacy, policy).Ok? {
      MigrationLosesNothing(env.lib, file, legacy, policy);
    }
  }

  /**
   Wherever the move was interrupted, the next undisturbed read finds the very record it was moving; for a
   projection that holds only as long as the scoped entry was not written.
   */
  lemma RetryCompletes(env: Env, k: Keyring, file: Option<Record>, policy: Policy, faults: Faults, i: nat)
    requires k.scoped.None? && k.global.Some? && DecodeEntry(env, k.global.value).Ok?
    requires UsableFile(env.lib, file, policy)
    requires MigrationRecord(env.lib, file, DecodeEntry(env, k.global.value).value, policy).Ok?
    requires i < |ReadScoped(env, true, k, file, policy, faults).1|
    ensures var legacy := DecodeEntry(env, k.global.value).value;
            var m := MigrationRecord(env.lib, file, legacy, policy).value;
            var interrupted := ReadScoped(env, true, k, file, policy, faults).1[i];
            env.compactLength(m) <= MAX_CREDENTIALS_FILE_BYTES ==>
              (ReadScoped(env, true, interrupted, file, policy, Faults(false, false, Done, Done)).0 == Read(Some(m))
               <==> interrupted == k || !MovesProjection(env.lib, file, legacy, policy))
  {
    MigratedIsReadable(env, file, k.global.value, policy);
  }

  /** Two contents that differ on a field both have, or pin a device to two keys or a key to two devices. */
  predicate Conflicting(a: Content, b: Content) {
    || (a.token.Some? && b.token.Some? && a.token != b.token)
    || (a.hostId.Some? && b.hostId.Some? && a.hostId != b.hostId)
    || (a.serverUrl.Some? && b.serverUrl.Some? && a.serverUrl != b.serverUrl)
    || (a.seed.Some? && b.seed.Some? && a.seed != b.seed)
    || (exists p, q :: p in a.pins && q in b.pins && (p.device == q.device) != (p.key == q.key))
  }

  lemma NothingHoldsConflicting(a: Content, b: Content, whole: Content)
    requires Within(a, whole) && Within(b, whole) && Sorted(whole.pins) && OneDevicePerKey(whole.pins)
    ensures !Conflicting(a, b)
  {
    forall p, q | p in a.pins && q in b.pins ensures p.device == q.device <==> p.key == q.key {
      assert Keeps(whole.pins, p) && Keeps(whole.pins, q);
      var i: nat :| i < |whole.pins| && whole.pins[i].SameIdentity(p);
      var j: nat :| j < |whole.pins| && whole.pins[j].SameIdentity(q);
      if p.device == q.device {
        SortedIsUnique(whole.pins, i, j);
      }
    }
  }

  lemma MigratedSorted(lib: Library, file: Option<Record>, legacy: Record, policy: Policy)
    requires MigrationRecord(lib, file, legacy, policy).Ok? && Canonical(lib, legacy.content.pins)
    requires file.Some? ==> Canonical(lib, file.value.content.pins)
    ensures var pins := MigrationRecord(lib, file, legacy, policy).value.content.pins;
            Sorted(pins) && OneDevicePerKey(pins)
  {
  }

  /** Any conflict between the file and the global record leaves both entries untouched. */
  lemma ConflictTouchesNothing(env: Env, migrate: bool, k: Keyring, file: Record, policy: Policy, faults: Faults)
    requires k.scoped.None? && k.global.Some? && DecodeEntry(env, k.global.value).Ok?
    requires Canonical(env.lib, file.content.pins)
    requires Conflicting(file.content, DecodeEntry(env, k.global.value).value.content)
    ensures var (r, trail) := ReadScoped(env, migrate, k, Some(file), policy, faults);
            trail == [k] && (migrate && !faults.scopedReadFails && !faults.globalReadFails ==> r.Fatal?)
  {
    var legacy := DecodeEntry(env, k.global.value).value;
    assert Canonical(env.lib, legacy.content.pins) by {
      assert Canonical(env.lib, []);
    }
    if MigrationRecord(env.lib, Some(file), legacy, policy).Ok? {
      MigrationLosesNothing(env.lib, Some(file), legacy, policy);
      MigratedSorted(env.lib, Some(file), legacy, policy);
      NothingHoldsConflicting(file.content, legacy.content,
                              MigrationRecord(env.lib, Some(file), legacy, policy).value.content);
    }
  }

  /** Once a scoped entry exists, the global one is neither read nor changed. */
  lemma ScopedShieldsGlobal(env: Env, migrate: bool, k: Keyring, other: Option<Entry>, file: Option<Record>,
                            policy: Policy, faults: Faults)
    requires k.scoped.Some?
    ensures ReadScoped(env, migrate, k, file, policy, faults).1 == [k]
    ensures ReadScoped(env, migrate, k.(global := other), file, policy, faults).0
         == ReadScoped(env, migrate, k, file, policy, faults).0
         == if faults.scopedReadFails then Unavailable
            else if DecodeEntry(env, k.scoped.value).Ok? then Read(Some(DecodeEntry(env, k.scoped.value).value))
            else Fatal(DecodeEntry(env, k.scoped.value).error)
  {
  }

  /** With a versioned record in a file that holds complete records, what is moved is that record. */
  lemma VersionedFileIsMoved(lib: Library, file: Record, legacy: Record, policy: Policy)
    requires policy.CompleteFile() && Versioned(lib, file) && MigrationRecord(lib, Some(file), legacy, policy).Ok?
    ensures MigrationRecord(lib, Some(file), legacy, policy).value == file
  {
  }

  // ---- The keyring, changed step by step ------------------------------------------------------

  class OsKeyring {
    var scoped: Option<Entry>
    var global: Option<Entry>
    /** Every state since the trail was last reset. */
    ghost var trail: seq<Keyring>

    ghost function View(): Keyring
      reads this
    {
      Keyring(scoped, global)
    }

    constructor (k: Keyring)
      ensures View() == k && trail == [k]
    {
      scoped, global, trail := k.scoped, k.global, [k];
    }

    method Set(env: Env, record: Record, effect: Effect) returns (ok: bool)
      modifies this
      ensures global == old(global)
      ensures var fits := env.compactLength(record) <= MAX_CREDENTIALS_FILE_BYTES;
              && ok == (fits && effect.Done?)
              && (fits && effect.Happened() ==> scoped == Some(Bundle(record)) && trail == old(trail) + [View()])
              && (!(fits && effect.Happened()) ==> scoped == old(scoped) && trail == old(trail))
    {
      if env.compactLength(record) > MAX_CREDENTIALS_FILE_BYTES || effect.FailedBefore? {
        return false;
      }
      scoped := Some(Bundle(record));
      trail := trail + [View()];
      return effect.Done?;
    }

    method DeleteGlobal(effect: Effect) returns (ok: bool)
      modifies this
      ensures scoped == old(scoped) && ok == effect.Done?
      ensures effect.Happened() ==> global == None && trail == old(trail) + [View()]
      ensures !effect.Happened() ==> global == old(global) && trail == old(trail)
    {
      if effect.FailedBefore? {
        return false;
      }
      global := None;
      trail := trail + [View()];
      return effect.Done?;
    }

    method ReadRecord(env: Env, migrate: bool, file: Option<Record>, policy: Policy, faults: Faults)
      returns (r: Reading)
      modifies this
      ensures (r, trail) == ReadScoped(env, migrate, old(View()), file, policy, faults)
      ensures View() == trail[|trail| - 1]
    {
      trail := [View()];
      if faults.scopedReadFails {
        return Unavailable;
      }
      if scoped.Some? {
        var decoded := DecodeEntry(env, scoped.value);
        return if decoded.Ok? then Read(Some(decoded.value)) else Fatal(decoded.error);
      }
      if !migrate {
        return Read(None);
      }
      if faults.globalReadFails {
        return Unavailable;
      }
      if global.None? {
        return Read(None);
      }
      var legacy := DecodeEntry(env, global.value);
      if legacy.Err? {
        return Fatal(legacy.error);
      }
      var migrated := MigrationRecord(env.lib, file, legacy.value, policy);
      if migrated.Err? {
        return Fatal(migrated.error);
      }
      var written := Set(env, migrated.value, faults.write);
      if !written {
        assert trail == Moving(env, old(View()), migrated.value, faults);
        return Fatal(MigrationWriteFailed);
      }
      var deleted := DeleteGlobal(faults.remove);
      assert trail == Moving(env, old(View()), migrated.value, faults);
      if !deleted {
        return Fatal(MigrationDeleteFailed);
      }
      return Read(Some(migrated.value));
    }
  }
}
