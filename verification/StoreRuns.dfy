/**
 Every run of any number of processes that load and commit credentials against one store, with the backends
 failing freely: the file records form one chain, and what holds of a chain of operations holds of the store.
 */
module StoreRuns {
  import opened Base
  import opened Pins
  import opened Records
  import opened Migration
  import opened CredentialStore
  import opened Trust

  /** The store, each process's record in memory, the ids handed out, and the file records with what made them. */
  datatype System = System(store: Store, writers: map<nat, Record>, used: set<string>,
                           records: seq<Record>, ops: seq<Op>)

  datatype Event = Load(writer: nat, cond: Conditions) | Commit(writer: nat, op: Op, id: string, cond: Conditions)

  /** A process commits only after it loaded, and a new id is canonical and was never handed out. */
  predicate Possible(env: Env, sys: System, e: Event) {
    e.Commit? ==> e.writer in sys.writers && e.id !in sys.used && UuidFromText(env.lib, e.id).Some?
  }

  function Loads(env: Env, sys: System, w: nat, cond: Conditions): (r: System) {
    var (loaded, store) := Loaded(env, sys.store, cond);
    sys.(store := store, writers := if loaded.Ok? then sys.writers[w := loaded.value] else sys.writers)
  }

  /** What a process asks to save: its record with the operation applied, against that record's revision. */
  function Attempt(env: Env, sys: System, current: Record, content: Content, id: string, cond: Conditions)
    : (r: (Result<Record, StoreError>, Store))
  {
    match RevisionOf(env.lib, current)
    case Err(e) => (Err(e), sys.store)
    case Ok(expected) => Saved(env, sys.store, current.(content := content), expected, id, cond)
  }

  function Commits(env: Env, sys: System, w: nat, op: Op, id: string, cond: Conditions): (r: System)
    requires w in sys.writers
  {
    match Apply(env.lib, op, sys.writers[w].content)
    case None => sys
    case Some(content) =>
      var (saved, store) := Attempt(env, sys, sys.writers[w], content, id, cond);
      var replaced := store.file != sys.store.file && store.file.Some?;
      System(store,
             if saved.Ok? then sys.writers[w := saved.value] else sys.writers,
             sys.used + {id},
             if replaced then sys.records + [store.file.value] else sys.records,
             if replaced then sys.ops + [op] else sys.ops)
  }

  function Step(env: Env, sys: System, e: Event): (r: System)
    requires Possible(env, sys, e)
  {
    match e
    case Load(w, cond) => Loads(env, sys, w, cond)
    case Commit(w, op, id, cond) => Commits(env, sys, w, op, id, cond)
  }

  // ---- The invariant ----------------------------------------------------------------------------

  predicate IdUsed(r: Record, used: set<string>) { r.marker.id.Some? && r.marker.id.value in used }

  predicate MirrorUsed(s: Store, used: set<string>) {
    match s.keyring.scoped
    case Some(Bundle(k)) => k.marker.id.Some? ==> k.marker.id.value in used
    case _ => true
  }

  /** One record made from another: the next generation, with one operation applied to exactly its content. */
  predicate BuiltFrom(lib: Library, base: Record, op: Op, next: Record) {
    && Versioned(lib, base) && Versioned(lib, next)
    && RecordOrder(lib, next.marker).value.value.generation == RecordOrder(lib, base.marker).value.value.generation + 1
    && Apply(lib, op, base.content) == Some(next.content)
  }

  ghost predicate Link(lib: Library, records: seq<Record>, ops: seq<Op>, i: int)
    requires |records| == |ops| + 1 && 0 <= i < |ops|
  {
    BuiltFrom(lib, records[i], ops[i], records[i + 1])
  }

  ghost predicate Chain(lib: Library, records: seq<Record>, ops: seq<Op>) {
    |records| == |ops| + 1 && forall i :: 0 <= i < |ops| ==> Link(lib, records, ops, i)
  }

  ghost predicate Distinct(records: seq<Record>, used: set<string>) {
    && (forall i :: 0 <= i < |records| ==> IdUsed(records[i], used))
    && (forall i, j :: 0 <= i < j < |records| ==> records[i].marker.id != records[j].marker.id)
  }

  ghost predicate Sound(env: Env, sys: System) {
    && GoodFile(env.lib, sys.store) && MirrorAgrees(sys.store) && MirrorUsed(sys.store, sys.used)
    && Chain(env.lib, sys.records, sys.ops) && sys.records[|sys.records| - 1] == sys.store.file.value
    && Distinct(sys.records, sys.used)
    && (forall w :: w in sys.writers ==> sys.writers[w] in sys.records)
  }

  /** A versioned file, any keyring that does not contradict it, and no process that has loaded yet. */
  ghost predicate Start(env: Env, sys: System) {
    && GoodFile(env.lib, sys.store) && MirrorAgrees(sys.store) && MirrorUsed(sys.store, sys.used)
    && IdUsed(sys.store.file.value, sys.used)
    && sys.records == [sys.store.file.value] && sys.ops == [] && sys.writers == map[]
  }

  lemma StartSound(env: Env, sys: System)
    requires Start(env, sys)
    ensures Sound(env, sys)
  {
  }

  /** The records are told apart by their ids, so a marker names one of them. */
  lemma MarkerNamesRecord(records: seq<Record>, used: set<string>, r: Record, s: Record)
    requires Distinct(records, used) && r in records && s in records && r.marker == s.marker
    ensures r == s
  {
  }

  lemma LoadSound(env: Env, sys: System, w: nat, cond: Conditions)
    requires Sound(env, sys)
    ensures Sound(env, Loads(env, sys, w, cond))
  {
    LoadGivesTheFile(env, sys.store, cond);
    LoadedStore(env, sys, cond);
    assert sys.records[|sys.records| - 1] in sys.records;
  }

  lemma LoadedStore(env: Env, sys: System, cond: Conditions)
    requires Sound(env, sys)
    ensures var s := Loaded(env, sys.store, cond).1;
            && s.file == sys.store.file
            && GoodFile(env.lib, s) && MirrorAgrees(s) && MirrorUsed(s, sys.used)
  {
  }

  // ---- One commit ---------------------------------------------------------------------------------

  /** The commit goes through to the backends: its base is the file record, and this is what it writes. */
  ghost predicate Writes(env: Env, sys: System, w: nat, op: Op, id: string, next: Record)
    requires w in sys.writers && sys.store.file.Some?
  {
    && sys.writers[w] == sys.store.file.value
    && BuiltFrom(env.lib, sys.store.file.value, op, next)
    && next.marker.id == Some(id)
    && ValidLoaded(env.lib, next) && Complete(env.lib, next)
  }

  /** A commit either changes nothing but what a load may, and fails, or was built from exactly the file record. */
  lemma AttemptOutcome(env: Env, sys: System, w: nat, op: Op, id: string, cond: Conditions)
    requires Sound(env, sys) && w in sys.writers && id !in sys.used && UuidFromText(env.lib, id).Some?
    requires Apply(env.lib, op, sys.writers[w].content).Some?
    ensures var (r, s) := Attempt(env, sys, sys.writers[w], Apply(env.lib, op, sys.writers[w].content).value, id, cond);
            || (r.Err? && (s == sys.store || s == Loaded(env, sys.store, cond).1))
            || exists next :: && Writes(env, sys, w, op, id, next)
                              && s == Written(Loaded(env, sys.store, cond).1, next, cond)
                              && r == if cond.replace.Done? then Ok(next) else Err(FileWriteFailed)
  {
    var current, f := sys.writers[w], sys.store.file.value;
    var candidate := current.(content := Apply(env.lib, op, current.content).value);
    if RevisionOf(env.lib, current).Ok? {
      var expected := RevisionOf(env.lib, current).value;
      SaveOutcome(env, sys.store, candidate, expected, id, cond);
      if RevisionOf(env.lib, f) == Ok(expected) && Prepared(env, candidate, id).Ok? {
        RevisionIdentifies(env.lib, f, current);
        assert sys.records[|sys.records| - 1] in sys.records;
        MarkerNamesRecord(sys.records, sys.used, current, f);
        AdvancedOrder(env.lib, candidate, id);
        assert Writes(env, sys, w, op, id, Prepared(env, candidate, id).value);
      }
    }
  }

  lemma {:induction false} ChainGrows(lib: Library, records: seq<Record>, ops: seq<Op>, op: Op, next: Record)
    requires Chain(lib, records, ops) && BuiltFrom(lib, records[|records| - 1], op, next)
    ensures Chain(lib, records + [next], ops + [op])
  {
    forall i | 0 <= i < |ops + [op]| ensures Link(lib, records + [next], ops + [op], i) {
      if i < |ops| {
        assert Link(lib, records, ops, i);
      }
    }
  }

  lemma DistinctGrows(records: seq<Record>, used: set<string>, next: Record, id: string)
    requires Distinct(records, used) && id !in used && next.marker.id == Some(id)
    ensures Distinct(records + [next], used + {id})
  {
  }

  lemma WrittenStore(env: Env, s: Store, used: set<string>, next: Record, id: string, cond: Conditions)
    requires GoodFile(env.lib, s) && MirrorAgrees(s) && MirrorUsed(s, used) && IdUsed(s.file.value, used)
    requires id !in used && next.marker.id == Some(id)
    requires Versioned(env.lib, next) && ValidLoaded(env.lib, next) && Complete(env.lib, next)
    ensures var s' := Written(s, next, cond);
            && GoodFile(env.lib, s') && MirrorAgrees(s') && MirrorUsed(s', used + {id})
            && s'.file == (if cond.replace.Happened() then Some(next) else s.file) && Some(next) != s.file
  {
  }

  lemma WrittenSound(env: Env, sys: System, w: nat, op: Op, id: string, cond: Conditions, next: Record)
    requires Sound(env, sys) && w in sys.writers && id !in sys.used && Writes(env, sys, w, op, id, next)
    ensures var s := Written(Loaded(env, sys.store, cond).1, next, cond);
            && Some(next) != sys.store.file
            && s.file == (if cond.replace.Happened() then Some(next) else sys.store.file)
            && Sound(env, if cond.replace.Happened()
                          then System(s, sys.writers, sys.used + {id}, sys.records + [next], sys.ops + [op])
                          else sys.(store := s, used := sys.used + {id}))
  {
    assert IdUsed(sys.records[|sys.records| - 1], sys.used);
    LoadedStore(env, sys, cond);
    WrittenStore(env, Loaded(env, sys.store, cond).1, sys.used, next, id, cond);
    if cond.replace.Happened() {
      ChainGrows(env.lib, sys.records, sys.ops, op, next);
      DistinctGrows(sys.records, sys.used, next, id);
    } else {
      FailedSound(env, sys, Written(Loaded(env, sys.store, cond).1, next, cond), id);
    }
  }

  lemma FailedSound(env: Env, sys: System, s: Store, id: string)
    requires Sound(env, sys) && s.file == sys.store.file
    requires GoodFile(env.lib, s) && MirrorAgrees(s) && MirrorUsed(s, sys.used + {id})
    ensures Sound(env, sys.(store := s, used := sys.used + {id}))
  {
  }

  lemma CommitSound(env: Env, sys: System, w: nat, op: Op, id: string, cond: Conditions)
    requires Sound(env, sys) && w in sys.writers && id !in sys.used && UuidFromText(env.lib, id).Some?
    ensures Sound(env, Commits(env, sys, w, op, id, cond))
  {
    if Apply(env.lib, op, sys.writers[w].content).Some? {
      var content := Apply(env.lib, op, sys.writers[w].content).value;
      var (r, s) := Attempt(env, sys, sys.writers[w], content, id, cond);
      AttemptOutcome(env, sys, w, op, id, cond);
      if r.Err? && (s == sys.store || s == Loaded(env, sys.store, cond).1) {
        LoadedStore(env, sys, cond);
        FailedSound(env, sys, s, id);
      } else {
        var next :| Writes(env, sys, w, op, id, next) && s == Written(Loaded(env, sys.store, cond).1, next, cond)
                    && r == if cond.replace.Done? then Ok(next) else Err(FileWriteFailed);
        WrittenSound(env, sys, w, op, id, cond, next);
      }
    }
  }

  // ---- Runs ------------------------------------------------------------------------------------------

  ghost predicate Legal(env: Env, start: System, events: seq<Event>)
    decreases |events|, 0
  {
    events == []
    || (var n := |events| - 1;
        Legal(env, start, events[..n]) && Possible(env, Run(env, start, events[..n]), events[n]))
  }

  ghost function Run(env: Env, start: System, events: seq<Event>): (r: System)
    requires Legal(env, start, events)
    decreases |events|, 1
  {
    if events == [] then start
    else Step(env, Run(env, start, events[..|events| - 1]), events[|events| - 1])
  }

  lemma {:induction false} RunSound(env: Env, start: System, events: seq<Event>)
    requires Start(env, start) && Legal(env, start, events)
    ensures Sound(env, Run(env, start, events))
  {
    if events == [] {
      StartSound(env, start);
    } else {
      var n := |events| - 1;
      RunSound(env, start, events[..n]);
      var sys := Run(env, start, events[..n]);
      match events[n]
      case Load(w, cond) => LoadSound(env, sys, w, cond);
      case Commit(w, op, id, cond) => CommitSound(env, sys, w, op, id, cond);
    }
  }

  /**
   No update is lost: after every run the file records are one chain from the first to the one in the file,
   each the next generation of exactly its predecessor with one operation applied, under an id of its own.
   */
  lemma NoLostUpdate(env: Env, start: System, events: seq<Event>)
    requires Start(env, start) && Legal(env, start, events)
    ensures var sys := Run(env, start, events);
            && |sys.records| == |sys.ops| + 1
            && sys.records[0] == start.store.file.value
            && sys.store.file == Some(sys.records[|sys.ops|])
            && (forall i :: 0 <= i < |sys.ops| ==> Link(env.lib, sys.records, sys.ops, i))
            && (forall i, j :: 0 <= i < j < |sys.records| ==> sys.records[i].marker.id != sys.records[j].marker.id)
  {
    RunSound(env, start, events);
    FirstRecordStays(env, start, events);
  }

  lemma {:induction false} FirstRecordStays(env: Env, start: System, events: seq<Event>)
    requires Legal(env, start, events) && start.records != []
    ensures start.records <= Run(env, start, events).records
  {
    if events != [] {
      FirstRecordStays(env, start, events[..|events| - 1]);
    }
  }

  /** In every reachable state a load gives the file record, or fails on an entry it cannot decode or move. */
  lemma LoadAfterAnyRun(env: Env, start: System, events: seq<Event>, cond: Conditions)
    requires Start(env, start) && Legal(env, start, events)
    ensures var sys := Run(env, start, events);
            var r := Loaded(env, sys.store, cond).0;
            && (r.Ok? ==> Some(r.value) == sys.store.file)
            && r != Err(BackendsDisagree)
            && (cond.disabled || cond.faults.scopedReadFails ==> r.Ok?)
            && (!sys.store.keyring.scoped.None? && DecodeEntry(env, sys.store.keyring.scoped.value).Ok? ==> r.Ok?)
  {
    RunSound(env, start, events);
    LoadGivesTheFile(env, Run(env, start, events).store, cond);
  }

  /** The scoped keyring entry is absent or decodes. */
  predicate ReadableMirror(env: Env, s: Store) {
    s.keyring.scoped.Some? ==> DecodeEntry(env, s.keyring.scoped.value).Ok?
  }

  lemma LoadKeepsReadable(env: Env, s: Store, cond: Conditions)
    requires GoodFile(env.lib, s) && MirrorAgrees(s) && ReadableMirror(env, s)
    ensures ReadableMirror(env, Loaded(env, s, cond).1)
  {
    if !cond.disabled && s.keyring.scoped.None? && s.keyring.global.Some? {
      var entry := DecodeEntry(env, s.keyring.global.value);
      if entry.Ok? && MigrationRecord(env.lib, s.file, entry.value, UnixCompleteFile).Ok? {
        VersionedFileIsMoved(env.lib, s.file.value, entry.value, UnixCompleteFile);
      }
    }
  }

  lemma SaveKeepsReadable(env: Env, s: Store, candidate: Record, expected: Revision, id: string, cond: Conditions)
    requires GoodFile(env.lib, s) && MirrorAgrees(s) && ReadableMirror(env, s)
    ensures ReadableMirror(env, Saved(env, s, candidate, expected, id, cond).1)
  {
    LoadKeepsReadable(env, s, cond);
    SaveOutcome(env, s, candidate, expected, id, cond);
  }

  lemma StepKeepsReadable(env: Env, sys: System, e: Event)
    requires Sound(env, sys) && Possible(env, sys, e) && ReadableMirror(env, sys.store)
    ensures ReadableMirror(env, Step(env, sys, e).store)
  {
    match e
    case Load(w, cond) =>
      LoadKeepsReadable(env, sys.store, cond);
    case Commit(w, op, id, cond) =>
      var current := sys.writers[w];
      if Apply(env.lib, op, current.content).Some? && RevisionOf(env.lib, current).Ok? {
        SaveKeepsReadable(env, sys.store, current.(content := Apply(env.lib, op, current.content).value),
                          RevisionOf(env.lib, current).value, id, cond);
      }
  }

  lemma {:induction false} RunKeepsReadable(env: Env, start: System, events: seq<Event>)
    requires Start(env, start) && Legal(env, start, events) && ReadableMirror(env, start.store)
    ensures ReadableMirror(env, Run(env, start, events).store)
  {
    if events != [] {
      var n := |events| - 1;
      RunKeepsReadable(env, start, events[..n]);
      RunSound(env, start, events[..n]);
      StepKeepsReadable(env, Run(env, start, events[..n]), events[n]);
    }
  }

  /**
   From a keyring whose scoped entry is absent or decodes, no run ever makes a load fail but on the global
   entry: there is no scoped one yet, this process may migrate, and the global one cannot be decoded or moved.
   */
  lemma LoadFailsOnlyOnMigration(env: Env, start: System, events: seq<Event>, cond: Conditions)
    requires Start(env, start) && Legal(env, start, events) && ReadableMirror(env, start.store)
    ensures var s := Run(env, start, events).store;
            Loaded(env, s, cond).0.Err? ==>
              && s.keyring.scoped.None? && s.keyring.global.Some?
              && !cond.disabled && cond.migrate && !cond.faults.scopedReadFails && !cond.faults.globalReadFails
  {
    RunSound(env, start, events);
    RunKeepsReadable(env, start, events);
    LoadGivesTheFile(env, Run(env, start, events).store, cond);
  }

  /**
   In every reachable state a process whose record is not the file record commits nothing: the file stays,
   the keyring changes at most by the migration a load may make, and no record in memory changes.
   */
  lemma StaleWritesNothing(env: Env, start: System, events: seq<Event>, w: nat, op: Op, id: string, cond: Conditions)
    requires Start(env, start) && Legal(env, start, events + [Commit(w, op, id, cond)])
    requires Legal(env, start, events) && w in Run(env, start, events).writers
    requires Some(Run(env, start, events).writers[w]) != Run(env, start, events).store.file
    ensures var sys := Run(env, start, events);
            var next := Run(env, start, events + [Commit(w, op, id, cond)]);
            && next.writers == sys.writers && next.records == sys.records && next.store.file == sys.store.file
            && (next.store == sys.store || next.store == Loaded(env, sys.store, cond).1)
            && (|| next.store.keyring.scoped == sys.store.keyring.scoped
                || (sys.store.file.Some? && next.store.keyring.scoped == Some(Bundle(sys.store.file.value))))
  {
    var e := Commit(w, op, id, cond);
    assert (events + [e])[..|events|] == events && (events + [e])[|events|] == e;
    RunSound(env, start, events);
    var sys := Run(env, start, events);
    if Apply(env.lib, op, sys.writers[w].content).Some? {
      AttemptOutcome(env, sys, w, op, id, cond);
      LoadGivesTheFile(env, sys.store, cond);
    }
  }

  /** A commit not reported as done leaves the process's record as it was; one that is gives it the file record. */
  lemma MemoryFollowsTheFile(env: Env, start: System, events: seq<Event>, w: nat, op: Op, id: string, cond: Conditions)
    requires Start(env, start) && Legal(env, start, events + [Commit(w, op, id, cond)])
    requires Legal(env, start, events) && w in Run(env, start, events).writers
    ensures var sys := Run(env, start, events);
            var next := Run(env, start, events + [Commit(w, op, id, cond)]);
            next.writers == sys.writers
            || (next.store.file.Some? && next.writers == sys.writers[w := next.store.file.value]
                && next.ops == sys.ops + [op] && cond.replace.Done?)
  {
    var e := Commit(w, op, id, cond);
    assert (events + [e])[..|events|] == events && (events + [e])[|events|] == e;
    RunSound(env, start, events);
    var sys := Run(env, start, events);
    if Apply(env.lib, op, sys.writers[w].content).Some? {
      AttemptOutcome(env, sys, w, op, id, cond);
      var (r, s) := Attempt(env, sys, sys.writers[w], Apply(env.lib, op, sys.writers[w].content).value, id, cond);
      if r.Ok? {
        var next :| Writes(env, sys, w, op, id, next) && s == Written(Loaded(env, sys.store, cond).1, next, cond)
                    && r == if cond.replace.Done? then Ok(next) else Err(FileWriteFailed);
        WrittenSound(env, sys, w, op, id, cond, next);
      }
    }
  }

  // ---- Trust over runs --------------------------------------------------------------------------------

  function Contents(records: seq<Record>): (r: seq<Content>)
    ensures |r| == |records| && forall i :: 0 <= i < |r| ==> r[i] == records[i].content
  {
    seq(|records|, i requires 0 <= i < |records| => records[i].content)
  }

  /** The committed contents are a history of operations. */
  lemma RunIsHistory(env: Env, start: System, events: seq<Event>)
    requires Start(env, start) && Legal(env, start, events)
    ensures var sys := Run(env, start, events);
            && History(env.lib, Contents(sys.records), sys.ops)
            && Contents(sys.records)[0] == start.store.file.value.content
  {
    NoLostUpdate(env, start, events);
    var sys := Run(env, start, events);
    forall i | 0 <= i < |sys.ops| ensures Makes(env.lib, Contents(sys.records), sys.ops, i) {
      assert Link(env.lib, sys.records, sys.ops, i);
    }
  }

  /** Over every run: each pin in the file has a source in the commits, and the host's seed is the first one. */
  lemma TrustOverRuns(env: Env, start: System, events: seq<Event>, p: Pin)
    requires Start(env, start) && Legal(env, start, events)
    ensures var sys := Run(env, start, events);
            && sys.store.file.Some?
            && sys.store.file.value.content.seed == start.store.file.value.content.seed
            && start.store.file.value.content.seed.Some?
            && |sys.records| == |sys.ops| + 1
            && (p in sys.store.file.value.content.pins ==>
                  HasSource(env.lib, Contents(sys.records), sys.ops, |sys.ops|, p.device, p.key))
  {
    RunIsHistory(env, start, events);
    NoLostUpdate(env, start, events);
    var sys := Run(env, start, events);
    var contents := Contents(sys.records);
    SeedIsStable(env.lib, contents, sys.ops, 0, |sys.ops|);
    if p in sys.store.file.value.content.pins {
      EveryPinIsJustified(env.lib, contents, sys.ops, |sys.ops|, p);
    }
  }

  /** Over every run from a file without pins: each pin's chain of endorsers begins at a login that brought its root. */
  lemma RunTrustBeginsAtLogin(env: Env, start: System, events: seq<Event>, p: Pin)
    requires Start(env, start) && Legal(env, start, events) && start.store.file.value.content.pins == []
    requires Run(env, start, events).store.file.Some? && p in Run(env, start, events).store.file.value.content.pins
    ensures var sys := Run(env, start, events);
            && |sys.records| == |sys.ops| + 1
            && exists source ::
                 && Justified(env.lib, Contents(sys.records), sys.ops, |sys.ops|, p.device, p.key, source)
                 && BeginsAtLogin(sys.ops, |sys.ops|, p.device, p.key, source)
  {
    RunIsHistory(env, start, events);
    TrustOverRuns(env, start, events, p);
    var sys := Run(env, start, events);
    var source :| Justified(env.lib, Contents(sys.records), sys.ops, |sys.ops|, p.device, p.key, source);
    TrustBeginsAtLogin(env.lib, Contents(sys.records), sys.ops, |sys.ops|, p.device, p.key, source);
  }

  /** Over every run: the token in the file is that of the last committed login or rotation, none after a sign-out. */
  lemma TokenOverRuns(env: Env, start: System, events: seq<Event>)
    requires Start(env, start) && Legal(env, start, events)
    ensures var sys := Run(env, start, events);
            && sys.store.file.Some?
            && sys.store.file.value.content.token == LastToken(start.store.file.value.content.token, sys.ops)
  {
    RunIsHistory(env, start, events);
    NoLostUpdate(env, start, events);
    var sys := Run(env, start, events);
    TokenOfHistory(env.lib, Contents(sys.records), sys.ops, |sys.ops|);
    assert sys.ops[..|sys.ops|] == sys.ops;
  }

  /** Over every run: between two commits with pins throughout, the host and the server origin are the same. */
  lemma DomainOverRuns(env: Env, start: System, events: seq<Event>, i: nat, j: nat)
    requires Start(env, start) && Legal(env, start, events)
    requires i <= j < |Run(env, start, events).records|
    requires forall k :: i <= k < j ==> Run(env, start, events).records[k].content.pins != []
    ensures var contents := Contents(Run(env, start, events).records);
            contents[j].hostId == contents[i].hostId && Origin(env.lib, contents[j]) == Origin(env.lib, contents[i])
  {
    RunIsHistory(env, start, events);
    var sys := Run(env, start, events);
    DomainIsStable(env.lib, Contents(sys.records), sys.ops, i, j);
  }
}
