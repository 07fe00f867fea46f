/**
 Starting a window (daemon/src/codex_home.rs): every entry of its home is linked to or mirrored from the user's,
 one after another, on whatever file system the start finds; and what that leaves over any number of starts.
 */
module CodexStarts {
  import opened Base
  import opened CodexLinks

  datatype Projection = Projection(name: string, kind: Kind, owner: Owner)

  const AUTH_FILE := "auth.json"

  const PROJECTIONS: seq<Projection> := [
    Projection("sessions", DirStore, Store),
    Projection("archived_sessions", DirStore, Store),
    Projection("history.jsonl", FileStore, Store),
    Projection("session_index.jsonl", FileStore, Store),
    Projection(AUTH_FILE, FileStore, Mirror),
    Projection("internal_storage.json", FileStore, Mirror),
    Projection("models_cache.json", FileStore, Mirror),
    Projection("version.json", FileStore, Mirror)
  ]

  const ENTRIES := 8
  /** The mirrored entries come after the stores. */
  const FIRST_MIRROR := 4
  const AUTH_ENTRY := 4

  lemma Table()
    ensures |PROJECTIONS| == ENTRIES
    ensures forall k :: 0 <= k < ENTRIES ==> (PROJECTIONS[k].owner == Mirror <==> k >= FIRST_MIRROR)
    ensures forall k :: 0 <= k < ENTRIES ==> (PROJECTIONS[k].kind == DirStore <==> k < 2)
    ensures forall j, k :: 0 <= j < k < ENTRIES ==> PROJECTIONS[j].name != PROJECTIONS[k].name
    ensures PROJECTIONS[AUTH_ENTRY].name == AUTH_FILE == "auth.json"
    ensures PROJECTIONS[0].name == "sessions" && PROJECTIONS[1].name == "archived_sessions"
    ensures PROJECTIONS[2].name == "history.jsonl" && PROJECTIONS[3].name == "session_index.jsonl"
    ensures PROJECTIONS[5].name == "internal_storage.json" && PROJECTIONS[6].name == "models_cache.json"
    ensures PROJECTIONS[7].name == "version.json"
  {
  }

  /** What a start is given: the window's home, the user's, the link style, and whether sign-in is from the file. */
  datatype Setup = Setup(home: string, source: Option<string>, files: FileLink, fileSignIn: bool)
  {
    predicate Possible() { source != Some(home) }

    function Dest(k: nat): (n: Name)
      requires k < ENTRIES
    {
      Name(home, PROJECTIONS[k].name)
    }

    function User(k: nat): (n: Name)
      requires k < ENTRIES && source.Some?
    {
      Name(source.value, PROJECTIONS[k].name)
    }

    /** The user's entry is one this start would mirror, if it is a file. */
    predicate Offered(k: nat)
      requires k < ENTRIES
    {
      source.Some? && (PROJECTIONS[k].name != AUTH_FILE || fileSignIn)
    }
  }

  // ---- The window's names on the way ------------------------------------------------------

  /** One of the first `k` entries of the window's home. */
  predicate Treated(n: Name, home: string, k: nat) {
    n.folder == home && exists j :: 0 <= j < k && j < ENTRIES && PROJECTIONS[j].name == n.entry
  }

  predicate Projected(n: Name, home: string) { Treated(n, home, ENTRIES) }

  predicate Mirrored(n: Name, home: string) {
    n.folder == home && exists j :: FIRST_MIRROR <= j < ENTRIES && PROJECTIONS[j].name == n.entry
  }

  /** Opening this name passes through none of the window's entries. */
  predicate Apart(names: Names, n: Name, home: string) {
    forall m :: m in Trail(names, n, {}) ==> !Projected(m, home)
  }

  /** Or through this one at most. */
  predicate ApartBut(names: Names, n: Name, home: string, dest: Name) {
    forall m :: m in Trail(names, n, {}) && Projected(m, home) ==> m == dest
  }

  lemma TreatedNext(n: Name, home: string, k: nat)
    requires k < ENTRIES
    ensures Treated(n, home, k + 1) <==> Treated(n, home, k) || n == Name(home, PROJECTIONS[k].name)
  {
  }

  lemma NotYetTreated(su: Setup, k: nat)
    requires k < ENTRIES
    ensures !Treated(su.Dest(k), su.home, k) && Projected(su.Dest(k), su.home)
    ensures k >= FIRST_MIRROR <==> Mirrored(su.Dest(k), su.home)
  {
    Table();
    assert PROJECTIONS[k].name == su.Dest(k).entry;
  }

  // ---- What one entry's step may change -----------------------------------------------------

  ghost predicate EntryStep(before: Names, after: Names, was: map<Inode, seq<Byte>>, data: map<Inode, seq<Byte>>,
                            su: Setup, k: nat)
    requires k < ENTRIES
  {
    && (k < FIRST_MIRROR ==> NothingLost(before, after, was, data))
    && (k >= FIRST_MIRROR ==> data == was)
    && (forall n :: n != su.Dest(k) && n in before ==> n in after && after[n] == before[n])
    && (forall n :: n in before && before[n].Dir? ==> n in after && after[n].Dir?)
    && (forall n :: n != su.Dest(k) && n in after && n !in before ==>
          su.source.Some? && New(before, was, after[n], su, k, n))
  }

  /** A store's step may make its directory in the user's home, or an empty file where its name there leads. */
  predicate New(before: Names, was: map<Inode, seq<Byte>>, node: Node, su: Setup, k: nat, n: Name)
    requires k < ENTRIES && su.source.Some?
  {
    match node
    case Dir => k < 2 && n == su.User(k)
    case Real(i) => 2 <= k < FIRST_MIRROR && su.files == Hard && i !in was && n == Final(before, su.User(k), {})
    case Link(_) => false
  }

  lemma StepWalks(before: Names, after: Names, was: map<Inode, seq<Byte>>, data: map<Inode, seq<Byte>>,
                  su: Setup, k: nat, n: Name)
    requires k < ENTRIES && EntryStep(before, after, was, data, su, k) && su.Dest(k) !in Trail(after, n, {})
    ensures Trail(before, n, {}) == Trail(after, n, {}) && Final(before, n, {}) == Final(after, n, {})
  {
    forall m | m in Trail(after, n, {}) ensures LinkAt(after, m) == LinkAt(before, m) {
      assert m != su.Dest(k);
    }
    SameWalk(after, before, n, {});
  }

  // ---- What a start keeps ---------------------------------------------------------------------

  predicate PlainFile(names: Names, n: Name) { n in names && names[n].Real? }

  /** A mirrored name of the window holds this file. */
  ghost predicate MirroredInode(names: Names, home: string, i: Inode) {
    exists n :: n in names && names[n] == Real(i) && Mirrored(n, home)
  }

  /** The file has a name that mirroring never touches. */
  ghost predicate NamedOutside(names: Names, home: string, i: Inode) {
    exists n :: n in names && names[n] == Real(i) && !Mirrored(n, home)
  }

  /** None of the user's own store names is a link. */
  predicate PlainStores(names: Names, su: Setup)
    requires su.source.Some?
  {
    forall j :: 0 <= j < FIRST_MIRROR ==> LinkAt(names, su.User(j)).None?
  }

  /** What may have appeared after `k` entries where nothing was. */
  ghost predicate Appeared(start: Names, node: Node, su: Setup, k: nat, n: Name) {
    su.source.Some? &&
    match node
    case Dir => exists j :: 0 <= j < k && j < 2 && n == su.User(j)
    case Real(_) =>
      && k > 2 && su.files == Hard
      && (PlainStores(start, su) ==> exists j :: 2 <= j < FIRST_MIRROR && n == su.User(j))
    case Link(_) => false
  }

  /** What a start keeps of the file system it found, after its first `k` entries. */
  ghost predicate Kept(start: Names, now: Names, data0: map<Inode, seq<Byte>>, data: map<Inode, seq<Byte>>,
                       su: Setup, k: nat) {
    && (forall n :: n in start && start[n].Dir? ==> n in now && now[n].Dir?)
    && (forall n :: n in start && !Treated(n, su.home, k) ==> n in now && now[n] == start[n])
    && (forall n :: n in now && n !in start && !Treated(n, su.home, k) ==> Appeared(start, now[n], su, k, n))
    && (forall i :: i in data0 ==> i in data && data[i] == data0[i])
    && FilesKept(start, now, data0, su.home, k <= FIRST_MIRROR)
  }

  /** Every file that no mirrored name held keeps a name; `stores` while only stores have been treated. */
  ghost predicate FilesKept(start: Names, now: Names, data0: map<Inode, seq<Byte>>, home: string, stores: bool) {
    && (forall n :: n in start && start[n].Real? && !MirroredInode(start, home, start[n].inode)
          ==> NamedOutside(now, home, start[n].inode))
    && (stores ==> forall i :: i in data0 && !MirroredInode(start, home, i) ==> !MirroredInode(now, home, i))
  }

  lemma KeptAtStart(names: Names, data: map<Inode, seq<Byte>>, su: Setup)
    ensures Kept(names, names, data, data, su, 0)
  {
  }

  lemma KeptStep(start: Names, before: Names, after: Names, data0: map<Inode, seq<Byte>>,
                 was: map<Inode, seq<Byte>>, data: map<Inode, seq<Byte>>, su: Setup, k: nat)
    requires su.Possible() && k < ENTRIES && EntryStep(before, after, was, data, su, k)
    requires Kept(start, before, data0, was, su, k)
    requires forall n :: n in start && start[n].Real? ==> start[n].inode in data0
    ensures Kept(start, after, data0, data, su, k + 1)
  {
    FilesStep(start, before, after, data0, was, data, su, k);
    forall n ensures Treated(n, su.home, k + 1) <==> Treated(n, su.home, k) || n == su.Dest(k) {
      TreatedNext(n, su.home, k);
    }
    forall n | n in after && n !in start && !Treated(n, su.home, k + 1)
      ensures Appeared(start, after[n], su, k + 1, n)
    {
      AppearedStep(start, before, after, data0, was, data, su, k, n);
    }
  }

  lemma AppearedStep(start: Names, before: Names, after: Names, data0: map<Inode, seq<Byte>>,
                     was: map<Inode, seq<Byte>>, data: map<Inode, seq<Byte>>, su: Setup, k: nat, n: Name)
    requires su.Possible() && k < ENTRIES && EntryStep(before, after, was, data, su, k)
    requires Kept(start, before, data0, was, su, k)
    requires n in after && n !in start && !Treated(n, su.home, k) && n != su.Dest(k)
    ensures Appeared(start, after[n], su, k + 1, n)
  {
    if n in before {
      assert Appeared(start, before[n], su, k, n);
    } else if after[n].Real? && PlainStores(start, su) {
      assert LinkAt(start, su.User(k)).None?;
      assert !Treated(su.User(k), su.home, k);
      assert LinkAt(before, su.User(k)).None?;
    }
  }

  lemma FilesStep(start: Names, before: Names, after: Names, data0: map<Inode, seq<Byte>>,
                  was: map<Inode, seq<Byte>>, data: map<Inode, seq<Byte>>, su: Setup, k: nat)
    requires k < ENTRIES && EntryStep(before, after, was, data, su, k)
    requires FilesKept(start, before, data0, su.home, k <= FIRST_MIRROR)
    requires forall i :: i in data0 ==> i in was
    requires forall n :: n in start && start[n].Real? ==> start[n].inode in data0
    ensures FilesKept(start, after, data0, su.home, k + 1 <= FIRST_MIRROR)
  {
    NotYetTreated(su, k);
    if k < FIRST_MIRROR {
      forall i | i in data0 && MirroredInode(after, su.home, i) ensures MirroredInode(before, su.home, i) {
        var n :| n in after && after[n] == Real(i) && Mirrored(n, su.home);
        assert n != su.Dest(k);
        assert n in before && before[n] == Real(i);
      }
    }
    forall n | n in start && start[n].Real? && !MirroredInode(start, su.home, start[n].inode)
      ensures NamedOutside(after, su.home, start[n].inode)
    {
      var i := start[n].inode;
      var m :| m in before && before[m] == Real(i) && !Mirrored(m, su.home);
      if k < FIRST_MIRROR {
        assert Named(after, before[m].inode);
        var p :| p in after && after[p] == Real(i);
        assert !Mirrored(p, su.home) by {
          assert !MirroredInode(after, su.home, i);
        }
      } else {
        assert after[m] == before[m];
      }
    }
  }

  /** Nothing on the way has been treated: the way is as the start found it. */
  lemma KeptWalks(start: Names, now: Names, data0: map<Inode, seq<Byte>>, data: map<Inode, seq<Byte>>,
                  su: Setup, k: nat, n: Name)
    requires Kept(start, now, data0, data, su, k) && forall m :: m in Trail(start, n, {}) ==> !Treated(m, su.home, k)
    ensures Trail(now, n, {}) == Trail(start, n, {}) && Final(now, n, {}) == Final(start, n, {})
    ensures Identity(start, n).Some? ==> Identity(now, n) == Identity(start, n)
  {
    forall m | m in Trail(start, n, {}) ensures LinkAt(start, m) == LinkAt(now, m) {
      assert !Treated(m, su.home, k);
    }
    SameWalk(start, now, n, {});
    FinalOnTrail(start, n, {});
  }

  // ---- How one entry is decided --------------------------------------------------------------

  /** The store's source is there, or simply missing. */
  predicate Ready(names: Names, kind: Kind, source: Name, files: FileLink) {
    var f := Final(names, source, {});
    Preparable(names, kind, source, files) && (f !in names ==> f == source)
  }

  /**
   Which outcome an entry gets, by the state found. Without a failing call a store is not Unlinked when it is a
   symbolic file link, or its source is right or missing and not reached through the window's entries, and keeps
   only what is no link; a mirror is not Unlinked when it is symbolic or of a plain file, and one reached through no
   other entry only for a hard link through the window's own link; and it keeps only a directory it found.
   */
  predicate Decided(start: Names, su: Setup, k: nat, f: Faults, outcome: Outcome)
    requires k < ENTRIES
  {
    if k < FIRST_MIRROR then
      && (if su.source.None? then outcome in {Skipped, Unlinked} else outcome != Skipped)
      && (f == NO_FAULTS ==>
            if su.source.None? then outcome != Unlinked
            else
              && (PROJECTIONS[k].kind == FileStore && su.files == Symbolic ==> outcome != Unlinked)
              && (Ready(start, PROJECTIONS[k].kind, su.User(k), su.files) && Apart(start, su.User(k), su.home) ==>
                    outcome != Unlinked)
              && (outcome == KeptOwn && (su.files == Symbolic || PlainStores(start, su)) ==>
                    su.Dest(k) in start && !start[su.Dest(k)].Link?))
    else
      && (outcome == KeptOwn ==> su.Dest(k) in start && start[su.Dest(k)].Dir?)
      && (f == NO_FAULTS && outcome == Unlinked && su.Offered(k)
          && ApartBut(start, su.User(k), su.home, su.Dest(k)) ==>
            ThroughLink(start, FileStore, su.User(k), su.Dest(k), su.files))
      && (!su.Offered(k) ==> outcome in {Skipped, KeptOwn, Unlinked})
      && (f == NO_FAULTS && (!su.Offered(k) || su.files == Symbolic || PlainFile(start, su.User(k))) ==>
            outcome != Unlinked)
      && (su.Offered(k) && Identity(start, su.User(k)).Some? && ApartBut(start, su.User(k), su.home, su.Dest(k)) ==>
            MirrorDecided(start, su, k, outcome))
  }

  predicate MirrorDecided(start: Names, su: Setup, k: nat, outcome: Outcome)
    requires k < ENTRIES && su.source.Some?
  {
    var user, dest := su.User(k), su.Dest(k);
    && outcome != Skipped
    && (ThroughLink(start, FileStore, user, dest, su.files) ==> outcome == Unlinked)
    && (su.files == Hard && dest in Trail(start, user, {}) ==> outcome in {Current, Unlinked})
  }

  /** Deciding by the state at the entry's turn is deciding by the state the start found. */
  lemma DecidedFromStart(start: Names, mid: Names, data0: map<Inode, seq<Byte>>, was: map<Inode, seq<Byte>>,
                         su: Setup, k: nat, f: Faults, outcome: Outcome)
    requires su.Possible() && k < ENTRIES && Kept(start, mid, data0, was, su, k) && Decided(mid, su, k, f, outcome)
    ensures Decided(start, su, k, f, outcome)
  {
    if k < FIRST_MIRROR {
      StoreDecidedFromStart(start, mid, data0, was, su, k, f, outcome);
    } else {
      MirrorDecidedFromStart(start, mid, data0, was, su, k, f, outcome);
    }
  }

  lemma StoreDecidedFromStart(start: Names, mid: Names, data0: map<Inode, seq<Byte>>, was: map<Inode, seq<Byte>>,
                              su: Setup, k: nat, f: Faults, outcome: Outcome)
    requires su.Possible() && k < FIRST_MIRROR && Kept(start, mid, data0, was, su, k)
    requires Decided(mid, su, k, f, outcome)
    ensures Decided(start, su, k, f, outcome)
  {
    Table();
    NotYetTreated(su, k);
    if su.source.Some? {
      if Ready(start, PROJECTIONS[k].kind, su.User(k), su.files) && Apart(start, su.User(k), su.home) {
        ReadyLater(start, mid, data0, was, su, k);
      }
      if PlainStores(start, su) {
        PlainStoresLater(start, mid, data0, was, su, k);
      }
      if su.Dest(k) in mid && su.Dest(k) !in start {
        assert Appeared(start, mid[su.Dest(k)], su, k, su.Dest(k));
      }
    }
  }

  lemma PlainStoresLater(start: Names, mid: Names, data0: map<Inode, seq<Byte>>, was: map<Inode, seq<Byte>>,
                         su: Setup, k: nat)
    requires su.Possible() && su.source.Some? && Kept(start, mid, data0, was, su, k) && PlainStores(start, su)
    ensures PlainStores(mid, su)
  {
    forall j | 0 <= j < FIRST_MIRROR ensures LinkAt(mid, su.User(j)).None? {
      assert LinkAt(start, su.User(j)).None? && !Treated(su.User(j), su.home, k);
    }
  }

  lemma MirrorDecidedFromStart(start: Names, mid: Names, data0: map<Inode, seq<Byte>>, was: map<Inode, seq<Byte>>,
                               su: Setup, k: nat, f: Faults, outcome: Outcome)
    requires su.Possible() && FIRST_MIRROR <= k < ENTRIES && Kept(start, mid, data0, was, su, k)
    requires Decided(mid, su, k, f, outcome)
    ensures Decided(start, su, k, f, outcome)
  {
    NotYetTreated(su, k);
    var dest := su.Dest(k);
    if dest in mid && dest !in start {
      assert Appeared(start, mid[dest], su, k, dest);
    }
    if su.source.Some? && ApartBut(start, su.User(k), su.home, dest) {
      var user := su.User(k);
      forall m | m in Trail(start, user, {}) ensures !Treated(m, su.home, k) {
        assert Treated(m, su.home, k) ==> Projected(m, su.home);
      }
      KeptWalks(start, mid, data0, was, su, k, user);
      if Identity(start, user).Some? && dest in Trail(start, user, {}) {
        OnTheTrail(start, user, dest);
      }
    }
  }

  lemma ReadyLater(start: Names, mid: Names, data0: map<Inode, seq<Byte>>, was: map<Inode, seq<Byte>>,
                   su: Setup, k: nat)
    requires su.Possible() && su.source.Some? && k < FIRST_MIRROR && Kept(start, mid, data0, was, su, k)
    requires Ready(start, PROJECTIONS[k].kind, su.User(k), su.files) && Apart(start, su.User(k), su.home)
    ensures Ready(mid, PROJECTIONS[k].kind, su.User(k), su.files) && Apart(mid, su.User(k), su.home)
  {
    Table();
    var user := su.User(k);
    forall m | m in Trail(start, user, {}) ensures !Treated(m, su.home, k) {
      assert Treated(m, su.home, k) ==> Projected(m, su.home);
    }
    KeptWalks(start, mid, data0, was, su, k, user);
    FinalOnTrail(start, user, {});
    var f := Final(start, user, {});
    if f !in start && f in mid {
      assert Appeared(start, mid[f], su, k, f);
    }
  }

  // ---- What one entry leaves --------------------------------------------------------------------

  /** Opening this name passes through none of the window's mirrored names. */
  predicate Outside(names: Names, n: Name, home: string) {
    forall m :: m in Trail(names, n, {}) ==> !Mirrored(m, home)
  }

  /** A link to the user's name, a copy of its node, or another name of the file it opens as. */
  predicate IsUsers(names: Names, user: Name, dest: Name) {
    && dest in names
    && (|| names[dest] == Link(user) || (user in names && names[dest] == names[user])
        || (names[dest].Real? && Identity(names, user) == Some(names[dest].inode)))
  }

  /**
   What stands at a mirrored name. Nothing when skipped, and a directory when kept; and where the user's file is
   not reached through a mirrored name, skipped when there is none and otherwise that very file.
   */
  predicate MirrorSettled(names: Names, su: Setup, k: nat, outcome: Outcome)
    requires k < ENTRIES
  {
    var dest := su.Dest(k);
    && (outcome == Skipped ==> dest !in names)
    && (outcome == KeptOwn ==> dest in names && names[dest].Dir?)
    && (su.Offered(k) ==>
          var user := su.User(k);
          && (outcome in {Linked, Current} ==>
                dest in names &&
                match su.files
                case Symbolic => names[dest] == Link(user)
                case Hard => PlainFile(names, user) ==> names[dest] == names[user])
          && (Outside(names, user, su.home) ==>
                && (Identity(names, user).Some? ==> outcome != Skipped)
                && (outcome in {Linked, Current} ==> Identity(names, user).Some? && IsUsers(names, user, dest))))
  }

  /**
   What stands at a store's name: what was kept, and no link when skipped; once it is linked a link to the user's,
   or another name of the user's file.
   */
  predicate StoreSettled(names: Names, su: Setup, k: nat, outcome: Outcome)
    requires k < ENTRIES
  {
    var dest := su.Dest(k);
    && (outcome in {Skipped, KeptOwn} && dest in names ==> !names[dest].Link?)
    && (outcome == KeptOwn ==> dest in names)
    && (su.source.Some? && outcome in {Linked, Current} ==>
          var user := su.User(k);
          && dest in names
          && (|| names[dest] == Link(user)
              || (PROJECTIONS[k].kind == FileStore && su.files == Hard && user in names && names[dest] == names[user])
              || (PROJECTIONS[k].kind == FileStore && names[dest].Real?))
          && (Apart(names, user, su.home) ==>
                && Prepared(names, PROJECTIONS[k].kind, user, su.files)
                && (names[dest].Real? ==> Identity(names, user) == Some(names[dest].inode))))
  }

  predicate Settled(names: Names, su: Setup, k: nat, outcome: Outcome)
    requires k < ENTRIES
  {
    if k < FIRST_MIRROR then StoreSettled(names, su, k, outcome) else MirrorSettled(names, su, k, outcome)
  }

  /** A name found current is as the start found it. */
  predicate Unmoved(start: Names, now: Names, su: Setup, k: nat, outcome: Outcome)
    requires k < ENTRIES
  {
    outcome == Current && su.Dest(k) in start ==> su.Dest(k) in now && now[su.Dest(k)] == start[su.Dest(k)]
  }

  /** Each step touches its own name and makes no link elsewhere, so what is settled stays so. */
  lemma StaysSettled(before: Names, after: Names, was: map<Inode, seq<Byte>>, data: map<Inode, seq<Byte>>,
                     su: Setup, j: nat, k: nat, outcome: Outcome)
    requires su.Possible() && j < k < ENTRIES && EntryStep(before, after, was, data, su, k)
    requires Settled(before, su, j, outcome)
    ensures Settled(after, su, j, outcome)
  {
    Table();
    NotYetTreated(su, k);
    assert su.Dest(j) != su.Dest(k);
    if su.source.Some? {
      var user := su.User(j);
      if j < FIRST_MIRROR && Apart(after, user, su.home) {
        StepWalks(before, after, was, data, su, k, user);
        FinalOnTrail(after, user, {});
      }
      if j >= FIRST_MIRROR && Outside(after, user, su.home) {
        StepWalks(before, after, was, data, su, k, user);
        FinalOnTrail(after, user, {});
      }
    }
  }

  // ---- One entry ------------------------------------------------------------------------------

  lemma StoreLeaves(before: Names, after: Names, was: map<Inode, seq<Byte>>, data: map<Inode, seq<Byte>>,
                    su: Setup, k: nat, outcome: Outcome)
    requires su.Possible() && su.source.Some? && k < FIRST_MIRROR && EntryStep(before, after, was, data, su, k)
    requires var kind, user, dest := PROJECTIONS[k].kind, su.User(k), su.Dest(k);
             && outcome != Skipped
             && (outcome == KeptOwn ==> dest in after && !after[dest].Link?)
             && (outcome == Current ==> StoreLinked(after, kind, user, dest, su.files))
             && (outcome == Linked ==>
                   && Opened(before, after, kind, user, dest, su.files)
                   && (StoreLinked(after, kind, user, dest, su.files)
                       <==> !Unsettled(before, kind, user, dest, su.files))
                   && (Prepared(after, kind, user, su.files) || kind == DirStore))
    ensures StoreSettled(after, su, k, outcome)
  {
    NotYetTreated(su, k);
    if Apart(after, su.User(k), su.home) {
      StepWalks(before, after, was, data, su, k, su.User(k));
    }
  }

  /** Nothing is left to do for this entry. */
  predicate EntryAtRest(names: Names, su: Setup, k: nat)
    requires k < ENTRIES
  {
    var dest := su.Dest(k);
    if k < FIRST_MIRROR then
      if su.source.Some? then
        || StoreLinked(names, PROJECTIONS[k].kind, su.User(k), dest, su.files)
        || (&& Prepared(names, PROJECTIONS[k].kind, su.User(k), su.files)
            && OwnData(names, PROJECTIONS[k].kind, su.User(k), dest))
      else dest in names ==> !names[dest].Link? && (names[dest].Real? ==> |NamesOf(names, names[dest].inode)| <= 1)
    else
      || (dest in names && names[dest].Dir?)
      || (if su.Offered(k) && Identity(names, su.User(k)).Some? then
            dest in names &&
            match su.files
            case Symbolic => names[dest] == Link(su.User(k))
            case Hard => names[dest].Real? && SameFile(names, su.User(k), dest)
          else dest !in names)
  }

  /** The user's file this entry is to mirror, if there is one. */
  function Wanted(names: Names, su: Setup, k: nat): (r: Option<Name>)
    requires k < ENTRIES
  {
    if su.Offered(k) && Identity(names, su.User(k)).Some? then Some(su.User(k)) else None
  }

  /** What a mirror's turn makes of the state it meets. */
  predicate MirrorTurn(before: Names, after: Names, su: Setup, k: nat, f: Faults, outcome: Outcome)
    requires k < ENTRIES
  {
    MirrorOutcome(before, after, Wanted(before, su, k), su.Dest(k), su.files, f, outcome)
  }

  lemma MirrorLeaves(before: Names, after: Names, data: map<Inode, seq<Byte>>, su: Setup, k: nat, f: Faults,
                     outcome: Outcome)
    requires su.Possible() && FIRST_MIRROR <= k < ENTRIES && EntryStep(before, after, data, data, su, k)
    requires MirrorTurn(before, after, su, k, f, outcome)
    ensures MirrorSettled(after, su, k, outcome)
  {
    NotYetTreated(su, k);
    if su.Offered(k) && Outside(after, su.User(k), su.home) {
      StepWalks(before, after, data, data, su, k, su.User(k));
      FinalOnTrail(after, su.User(k), {});
    }
  }

  lemma MirrorIsDecided(before: Names, after: Names, su: Setup, k: nat, f: Faults, outcome: Outcome)
    requires su.Possible() && FIRST_MIRROR <= k < ENTRIES && MirrorTurn(before, after, su, k, f, outcome)
    ensures Decided(before, su, k, f, outcome) && Unmoved(before, after, su, k, outcome)
    ensures EntryAtRest(before, su, k) && f == NO_FAULTS ==> outcome in {Current, KeptOwn, Skipped} && after == before
  {
    if su.source.Some? && Identity(before, su.User(k)).Some? && su.Dest(k) in Trail(before, su.User(k), {}) {
      OnTheTrail(before, su.User(k), su.Dest(k));
    }
  }

  /** The same for a store's turn. */
  predicate StoreTurn(before: Names, after: Names, su: Setup, k: nat, f: Faults, outcome: Outcome)
    requires k < ENTRIES
  {
    var kind, dest := PROJECTIONS[k].kind, su.Dest(k);
    if su.source.None? then
      && outcome in {Skipped, Unlinked}
      && (f == NO_FAULTS ==>
            && outcome == Skipped
            && after == if dest in before && !EntryAtRest(before, su, k) then before - {dest} else before)
    else
      var user := su.User(k);
      && outcome != Skipped
      && (outcome == Linked ==> Opened(before, after, kind, user, dest, su.files))
      && (outcome == Current ==> StoreLinked(after, kind, user, dest, su.files))
      && (outcome in {Current, KeptOwn} ==>
            dest in after && if dest in before then after[dest] == before[dest] else dest == Final(before, user, {}))
      && (f == NO_FAULTS ==>
            && (outcome == Unlinked <==> !Preparable(before, kind, user, su.files)
                                         || ThroughLink(before, kind, user, dest, su.files))
            && (outcome != Unlinked ==> (outcome == KeptOwn <==> OwnData(before, kind, user, dest)))
            && (StoreLinked(before, kind, user, dest, su.files) ==> outcome == Current))
  }

  predicate Turn(before: Names, after: Names, su: Setup, k: nat, f: Faults, outcome: Outcome)
    requires k < ENTRIES
  {
    && TurnFrame(before, after, su, k)
    && if k < FIRST_MIRROR then StoreTurn(before, after, su, k, f, outcome)
       else MirrorTurn(before, after, su, k, f, outcome)
  }

  /** A turn touches its own name; besides, a store's may make the directory or file its source lacks. */
  predicate TurnFrame(before: Names, after: Names, su: Setup, k: nat)
    requires k < ENTRIES
  {
    && (forall n :: n in before && n != su.Dest(k) ==> n in after && after[n] == before[n])
    && (forall n :: n in after && n != su.Dest(k) && n !in before ==>
          && k < FIRST_MIRROR && su.source.Some?
          && if k < 2 then n == su.User(k) && after[n].Dir?
             else su.files == Hard && n == Final(before, su.User(k), {}) && after[n].Real?)
  }

  method ReconcileStore(fs: FileSystem, su: Setup, k: nat, f: Faults) returns (outcome: Outcome)
    requires fs.Valid() && su.Possible() && k < FIRST_MIRROR
    modifies fs
    ensures fs.Valid()
    ensures EntryStep(old(fs.names), fs.names, old(fs.data), fs.data, su, k)
    ensures StoreTurn(old(fs.names), fs.names, su, k, f, outcome)
    ensures StoreSettled(fs.names, su, k, outcome) && Decided(old(fs.names), su, k, f, outcome)
    ensures Unmoved(old(fs.names), fs.names, su, k, outcome)
    ensures EntryAtRest(old(fs.names), su, k) && f == NO_FAULTS ==>
              outcome in {Current, KeptOwn, Skipped} && fs.names == old(fs.names) && fs.data == old(fs.data)
  {
    Table();
    NotYetTreated(su, k);
    if su.source.Some? {
      var r := fs.LinkStore(PROJECTIONS[k].kind, su.User(k), su.Dest(k), su.files, f);
      outcome := if r.Ok? then r.value else Unlinked;
      StoreLeaves(old(fs.names), fs.names, old(fs.data), fs.data, su, k, outcome);
    } else {
      var ok := fs.UnlinkStore(su.Dest(k), f);
      outcome := if ok then Skipped else Unlinked;
    }
  }

  method ReconcileMirror(fs: FileSystem, su: Setup, k: nat, f: Faults) returns (outcome: Outcome)
    requires fs.Valid() && su.Possible() && FIRST_MIRROR <= k < ENTRIES
    modifies fs
    ensures fs.Valid()
    ensures EntryStep(old(fs.names), fs.names, old(fs.data), fs.data, su, k)
    ensures MirrorTurn(old(fs.names), fs.names, su, k, f, outcome)
    ensures MirrorSettled(fs.names, su, k, outcome) && Decided(old(fs.names), su, k, f, outcome)
    ensures Unmoved(old(fs.names), fs.names, su, k, outcome)
    ensures EntryAtRest(old(fs.names), su, k) && f == NO_FAULTS ==>
              outcome in {Current, KeptOwn, Skipped} && fs.names == old(fs.names) && fs.data == old(fs.data)
  {
    Table();
    outcome := TakeMirrorTurn(fs, su, k, f);
    MirrorLeaves(old(fs.names), fs.names, old(fs.data), su, k, f, outcome);
    MirrorIsDecided(old(fs.names), fs.names, su, k, f, outcome);
  }

  method TakeMirrorTurn(fs: FileSystem, su: Setup, k: nat, f: Faults) returns (outcome: Outcome)
    requires fs.Valid() && su.Possible() && FIRST_MIRROR <= k < ENTRIES
    modifies fs`names
    ensures fs.Valid() && EntryStep(old(fs.names), fs.names, fs.data, fs.data, su, k)
    ensures MirrorTurn(old(fs.names), fs.names, su, k, f, outcome)
  {
    var wanted := Wanted(fs.names, su, k);
    var r := fs.MirrorFile(wanted, su.Dest(k), su.files, f);
    outcome := if r.Ok? then r.value else Unlinked;
  }

  method ReconcileEntry(fs: FileSystem, su: Setup, k: nat, f: Faults) returns (outcome: Outcome)
    requires fs.Valid() && su.Possible() && k < ENTRIES
    modifies fs
    ensures fs.Valid()
    ensures EntryStep(old(fs.names), fs.names, old(fs.data), fs.data, su, k)
    ensures Turn(old(fs.names), fs.names, su, k, f, outcome)
    ensures Settled(fs.names, su, k, outcome) && Decided(old(fs.names), su, k, f, outcome)
    ensures Unmoved(old(fs.names), fs.names, su, k, outcome)
    ensures EntryAtRest(old(fs.names), su, k) && f == NO_FAULTS ==>
              outcome in {Current, KeptOwn, Skipped} && fs.names == old(fs.names) && fs.data == old(fs.data)
  {
    if k < FIRST_MIRROR {
      outcome := ReconcileStore(fs, su, k, f);
    } else {
      outcome := ReconcileMirror(fs, su, k, f);
    }
  }

  // ---- A whole start ---------------------------------------------------------------------------

  /** What holds of an entry between the state a start found and the state it has reached. */
  ghost predicate Done(start: Names, now: Names, su: Setup, k: nat, f: Faults, outcome: Outcome)
    requires k < ENTRIES
  {
    Settled(now, su, k, outcome) && Decided(start, su, k, f, outcome) && Unmoved(start, now, su, k, outcome)
  }

  ghost predicate AtRest(names: Names, su: Setup) {
    forall k :: 0 <= k < ENTRIES ==> EntryAtRest(names, su, k)
  }

  predicate FaultFree(faults: seq<Faults>) { forall k :: 0 <= k < |faults| ==> faults[k] == NO_FAULTS }

  /** Where a start stands after its first `k` entries. */
  ghost predicate Progress(start: Names, now: Names, data0: map<Inode, seq<Byte>>, data: map<Inode, seq<Byte>>,
                           su: Setup, k: nat, faults: seq<Faults>, outcomes: seq<Outcome>)
    requires |faults| == ENTRIES && |outcomes| == k <= ENTRIES
  {
    && Kept(start, now, data0, data, su, k)
    && forall j :: 0 <= j < k ==> Done(start, now, su, j, faults[j], outcomes[j])
  }

  lemma NextEntry(start: Names, before: Names, after: Names, data0: map<Inode, seq<Byte>>,
                  was: map<Inode, seq<Byte>>, data: map<Inode, seq<Byte>>, su: Setup, k: nat,
                  faults: seq<Faults>, outcomes: seq<Outcome>, outcome: Outcome)
    requires su.Possible() && |faults| == ENTRIES && |outcomes| == k < ENTRIES
    requires Progress(start, before, data0, was, su, k, faults, outcomes)
    requires EntryStep(before, after, was, data, su, k) && Settled(after, su, k, outcome)
    requires Decided(before, su, k, faults[k], outcome) && Unmoved(before, after, su, k, outcome)
    requires forall n :: n in start && start[n].Real? ==> start[n].inode in data0
    ensures Progress(start, after, data0, data, su, k + 1, faults, outcomes + [outcome])
  {
    KeptStep(start, before, after, data0, was, data, su, k);
    EntryDone(start, before, after, data0, was, su, k, faults[k], outcome);
    forall j | 0 <= j < k ensures Done(start, after, su, j, faults[j], outcomes[j]) {
      StaysDone(start, before, after, was, data, su, j, k, faults[j], outcomes[j]);
    }
  }

  lemma EntryDone(start: Names, before: Names, after: Names, data0: map<Inode, seq<Byte>>,
                  was: map<Inode, seq<Byte>>, su: Setup, k: nat, f: Faults, outcome: Outcome)
    requires su.Possible() && k < ENTRIES && Kept(start, before, data0, was, su, k)
    requires Settled(after, su, k, outcome) && Decided(before, su, k, f, outcome)
    requires Unmoved(before, after, su, k, outcome)
    ensures Done(start, after, su, k, f, outcome)
  {
    DecidedFromStart(start, before, data0, was, su, k, f, outcome);
    NotYetTreated(su, k);
  }

  lemma StaysDone(start: Names, before: Names, after: Names, was: map<Inode, seq<Byte>>, data: map<Inode, seq<Byte>>,
                  su: Setup, j: nat, k: nat, f: Faults, outcome: Outcome)
    requires su.Possible() && j < k < ENTRIES && EntryStep(before, after, was, data, su, k)
    requires Done(start, before, su, j, f, outcome)
    ensures Done(start, after, su, j, f, outcome)
  {
    StaysSettled(before, after, was, data, su, j, k, outcome);
    Table();
  }

  /** The states a start passes through: each entry in turn does exactly what it should with the state it meets. */
  ghost predicate InTurn(states: seq<Names>, su: Setup, faults: seq<Faults>, outcomes: seq<Outcome>) {
    && |states| == |outcomes| + 1 && |outcomes| <= |faults| && |outcomes| <= ENTRIES
    && forall k :: 0 <= k < |outcomes| ==> Turn(states[k], states[k + 1], su, k, faults[k], outcomes[k])
  }

  lemma InTurnNext(states: seq<Names>, su: Setup, faults: seq<Faults>, outcomes: seq<Outcome>, after: Names,
                   outcome: Outcome)
    requires InTurn(states, su, faults, outcomes) && |outcomes| < ENTRIES && |outcomes| < |faults|
    requires Turn(states[|outcomes|], after, su, |outcomes|, faults[|outcomes|], outcome)
    ensures InTurn(states + [after], su, faults, outcomes + [outcome])
  {
    var longer, more := states + [after], outcomes + [outcome];
    forall k | 0 <= k < |more| ensures Turn(longer[k], longer[k + 1], su, k, faults[k], more[k]) {
      assert k < |outcomes| ==> Turn(states[k], states[k + 1], su, k, faults[k], outcomes[k]);
    }
  }

  ghost predicate Resting(names: Names, su: Setup, faults: seq<Faults>) { AtRest(names, su) && FaultFree(faults) }

  /**
   A whole start, from any state: each entry takes its turn, nothing of a conversation is lost, and every entry is
   decided by the state found and settled in the state left.
   */
  method Reconcile(fs: FileSystem, su: Setup, faults: seq<Faults>)
    returns (outcomes: seq<Outcome>, ghost states: seq<Names>)
    requires fs.Valid() && su.Possible() && |faults| == ENTRIES
    modifies fs
    ensures fs.Valid() && |outcomes| == ENTRIES
    ensures InTurn(states, su, faults, outcomes) && states[0] == old(fs.names) && states[ENTRIES] == fs.names
    ensures Progress(old(fs.names), fs.names, old(fs.data), fs.data, su, ENTRIES, faults, outcomes)
    ensures CachesSettled(old(fs.names), fs.names, su, faults, outcomes)
    ensures Resting(old(fs.names), su, faults) ==>
              && fs.names == old(fs.names) && fs.data == old(fs.data)
              && forall k :: 0 <= k < ENTRIES ==> outcomes[k] in {Current, KeptOwn, Skipped}
  {
    outcomes, states := [], [fs.names];
    KeptAtStart(fs.names, fs.data, su);
    for k := 0 to ENTRIES
      invariant fs.Valid() && |outcomes| == k
      invariant InTurn(states, su, faults, outcomes) && states[0] == old(fs.names) && states[k] == fs.names
      invariant Progress(old(fs.names), fs.names, old(fs.data), fs.data, su, k, faults, outcomes)
      invariant Resting(old(fs.names), su, faults) ==>
                  && fs.names == old(fs.names) && fs.data == old(fs.data)
                  && forall j :: 0 <= j < k ==> outcomes[j] in {Current, KeptOwn, Skipped}
    {
      ghost var before, was := fs.names, fs.data;
      var outcome := ReconcileEntry(fs, su, k, faults[k]);
      NextEntry(old(fs.names), before, fs.names, old(fs.data), was, fs.data, su, k, faults, outcomes, outcome);
      InTurnNext(states, su, faults, outcomes, fs.names, outcome);
      outcomes, states := outcomes + [outcome], states + [fs.names];
    }
    AllCachesSettled(old(fs.names), fs.names, old(fs.data), fs.data, su, faults, outcomes);
  }

  lemma AllCachesSettled(found: Names, after: Names, data0: map<Inode, seq<Byte>>, data: map<Inode, seq<Byte>>,
                         su: Setup, faults: seq<Faults>, outcomes: seq<Outcome>)
    requires su.Possible() && |outcomes| == ENTRIES && |faults| == ENTRIES
    requires Progress(found, after, data0, data, su, ENTRIES, faults, outcomes)
    ensures CachesSettled(found, after, su, faults, outcomes)
  {
    forall k | AUTH_ENTRY < k < ENTRIES ensures CacheSettled(found, after, su, k, faults[k], outcomes[k]) {
      assert Done(found, after, su, k, faults[k], outcomes[k]);
      SettledCache(found, after, data0, data, su, k, faults[k], outcomes[k]);
    }
  }

  // ---- What a start leaves, by the state it found --------------------------------------------------

  lemma ApartStays(start: Names, after: Names, data0: map<Inode, seq<Byte>>, data: map<Inode, seq<Byte>>,
                   su: Setup, n: Name)
    requires Kept(start, after, data0, data, su, ENTRIES) && Apart(start, n, su.home)
    ensures Apart(after, n, su.home) && Outside(after, n, su.home) && Leads(after, n) == Leads(start, n)
    ensures Identity(start, n).Some? ==> Identity(after, n) == Identity(start, n)
  {
    KeptWalks(start, after, data0, data, su, ENTRIES, n);
    FinalOnTrail(start, n, {});
    forall m | Mirrored(m, su.home) ensures Projected(m, su.home) {
    }
  }

  /** A linked store leads where the user's name led when the start began, or is the user's file. */
  lemma StoreOpens(start: Names, after: Names, data0: map<Inode, seq<Byte>>, data: map<Inode, seq<Byte>>,
                   su: Setup, k: nat, outcome: Outcome)
    requires su.Possible() && su.source.Some? && k < FIRST_MIRROR && outcome in {Linked, Current}
    requires Kept(start, after, data0, data, su, ENTRIES) && StoreSettled(after, su, k, outcome)
    requires Apart(start, su.User(k), su.home)
    ensures || (after[su.Dest(k)] == Link(su.User(k)) && Leads(after, su.Dest(k)) == Leads(start, su.User(k)))
            || SameFile(after, su.User(k), su.Dest(k))
  {
    var user, dest := su.User(k), su.Dest(k);
    NotYetTreated(su, k);
    ApartStays(start, after, data0, data, su, user);
    if after[dest] == Link(user) {
      LinkLeads(after, after, user, dest);
    } else if after[dest].Link? {
      CopiedOpens(after, user, dest);
    }
  }

  /**
   A mirror that is linked or current opens as the user's file did when the start began exactly when, with
   symbolic links, that file was not reached through the mirror's own name; with hard links always.
   */
  lemma MirrorOpensIff(start: Names, after: Names, data0: map<Inode, seq<Byte>>, data: map<Inode, seq<Byte>>,
                       su: Setup, k: nat, f: Faults, outcome: Outcome)
    requires su.Possible() && su.source.Some? && FIRST_MIRROR <= k < ENTRIES && outcome in {Linked, Current}
    requires Kept(start, after, data0, data, su, ENTRIES) && Done(start, after, su, k, f, outcome)
    requires Identity(start, su.User(k)).Some? && ApartBut(start, su.User(k), su.home, su.Dest(k))
    ensures var user, dest := su.User(k), su.Dest(k);
            SameFile(after, user, dest) && Identity(after, dest) == Identity(start, user)
            <==> su.files == Hard || dest !in Trail(start, user, {})
  {
    var user, dest := su.User(k), su.Dest(k);
    NotYetTreated(su, k);
    if dest !in Trail(start, user, {}) {
      ApartStays(start, after, data0, data, su, user);
      UsersOpens(after, user, dest);
    } else if su.files == Symbolic {
      forall m | m in Trail(start, user, {}) && m != dest ensures LinkAt(after, m) == LinkAt(start, m) {
        assert !Projected(m, su.home);
      }
      LinkedBack(start, after, dest, user);
    } else {
      ThroughItself(start, after, data0, data, su, k);
    }
  }

  /** The user's own file is what such a name opens. */
  lemma UsersOpens(names: Names, user: Name, dest: Name)
    requires dest !in Trail(names, user, {}) && user != dest
    requires IsUsers(names, user, dest) && Identity(names, user).Some?
    ensures SameFile(names, user, dest)
  {
    if names[dest] == Link(user) {
      FinalVisited(names, user, {}, dest);
      assert Final(names, dest, {}) == Final(names, user, {} + {dest});
    } else if names[dest].Link? {
      CopiedOpens(names, user, dest);
    }
  }

  /**
   The other mirrored files do not depend on how the user signs in. With no failing call, where the user's file is
   reached through none of the window's entries, the name opens as it; where the user has none, it is absent; a
   directory that was found is left alone.
   */
  predicate CacheSettled(found: Names, after: Names, su: Setup, k: nat, f: Faults, outcome: Outcome)
    requires k < ENTRIES
  {
    var dest := su.Dest(k);
    && (outcome == KeptOwn ==> dest in found && found[dest].Dir? && dest in after && after[dest].Dir?)
    && (outcome == Skipped ==> dest !in after)
    && (f == NO_FAULTS && su.source.None? ==> outcome in {Skipped, KeptOwn})
    && (f == NO_FAULTS && su.source.Some? && Apart(found, su.User(k), su.home) ==>
          && (Identity(found, su.User(k)).Some? ==>
                && outcome in {Linked, Current, KeptOwn}
                && (outcome != KeptOwn ==>
                      SameFile(after, su.User(k), dest) && Identity(after, dest) == Identity(found, su.User(k))))
          && (StaysMissing(found, su, su.User(k)) ==> outcome in {Skipped, KeptOwn}))
  }

  lemma SettledCache(found: Names, after: Names, data0: map<Inode, seq<Byte>>, data: map<Inode, seq<Byte>>,
                     su: Setup, k: nat, f: Faults, outcome: Outcome)
    requires su.Possible() && FIRST_MIRROR <= k < ENTRIES && k != AUTH_ENTRY
    requires Kept(found, after, data0, data, su, ENTRIES) && Done(found, after, su, k, f, outcome)
    ensures CacheSettled(found, after, su, k, f, outcome)
  {
    Table();
    NotYetTreated(su, k);
    if su.source.Some? && Apart(found, su.User(k), su.home) {
      if Identity(found, su.User(k)).Some? && outcome in {Linked, Current} {
        MirrorOpensIff(found, after, data0, data, su, k, f, outcome);
      }
      if StaysMissing(found, su, su.User(k)) {
        MissingStays(found, after, data0, data, su, su.User(k));
      }
    }
  }

  /** A hard mirror the user's file is reached through is that file, and stays it. */
  lemma ThroughItself(start: Names, after: Names, data0: map<Inode, seq<Byte>>, data: map<Inode, seq<Byte>>,
                      su: Setup, k: nat)
    requires su.source.Some? && su.Possible() && FIRST_MIRROR <= k < ENTRIES
    requires Kept(start, after, data0, data, su, ENTRIES) && Identity(start, su.User(k)).Some?
    requires ApartBut(start, su.User(k), su.home, su.Dest(k)) && su.Dest(k) in Trail(start, su.User(k), {})
    requires LinkAt(start, su.Dest(k)).None?
    requires su.Dest(k) in start ==> su.Dest(k) in after && after[su.Dest(k)] == start[su.Dest(k)]
    ensures SameFile(after, su.User(k), su.Dest(k)) && Identity(after, su.Dest(k)) == Identity(start, su.User(k))
  {
    var user, dest := su.User(k), su.Dest(k);
    OnTheTrail(start, user, dest);
    TrailEnds(start, user, {}, dest);
    forall m | m in Trail(start, user, {}) ensures LinkAt(start, m) == LinkAt(after, m) {
      assert m == dest || !Projected(m, su.home);
    }
    SameWalk(start, after, user, {});
  }

  // ---- Two starts in a row -----------------------------------------------------------------------

  /** Every user's name is reached without the window's, and for hard links is no link itself. */
  predicate HomesApart(names: Names, su: Setup)
    requires su.source.Some?
  {
    forall k :: 0 <= k < ENTRIES ==>
      Apart(names, su.User(k), su.home) && (su.files == Hard ==> LinkAt(names, su.User(k)).None?)
  }

  lemma RestAfterStart(start: Names, after: Names, data0: map<Inode, seq<Byte>>, data: map<Inode, seq<Byte>>,
                       su: Setup, k: nat, f: Faults, outcome: Outcome)
    requires su.Possible() && su.source.Some? && HomesApart(start, su) && k < ENTRIES
    requires Kept(start, after, data0, data, su, ENTRIES) && Done(start, after, su, k, f, outcome)
    requires if k < FIRST_MIRROR then outcome in {Linked, Current} else outcome in {Linked, Current, Skipped, KeptOwn}
    ensures EntryAtRest(after, su, k)
  {
    var user, dest := su.User(k), su.Dest(k);
    Table();
    ApartStays(start, after, data0, data, su, user);
    assert !Projected(user, su.home);
    assert su.files == Hard ==> LinkAt(after, user).None?;
    if k < FIRST_MIRROR {
      assert after[dest].Real? ==> SameFile(after, user, dest);
    } else if su.Offered(k) && outcome in {Linked, Current} && su.files == Hard {
      assert PlainFile(after, user);
    }
  }

  /**
   A start that linked every store and settled every mirror, with the homes apart, is followed by one that
   changes nothing.
   */
  method StartTwice(fs: FileSystem, su: Setup, faults: seq<Faults>, again: seq<Faults>)
    returns (first: seq<Outcome>, second: seq<Outcome>, ghost between: Disk)
    requires fs.Valid() && su.Possible() && su.source.Some? && |faults| == |again| == ENTRIES && FaultFree(again)
    modifies fs
    ensures |first| == |second| == ENTRIES
    ensures (&& HomesApart(old(fs.names), su)
             && (forall k :: 0 <= k < FIRST_MIRROR ==> first[k] in {Linked, Current})
             && (forall k :: FIRST_MIRROR <= k < ENTRIES ==> first[k] in {Linked, Current, Skipped, KeptOwn})) ==>
              && Disk(fs.names, fs.data) == between
              && forall k :: 0 <= k < ENTRIES ==> second[k] in {Current, Skipped, KeptOwn}
  {
    ghost var states;
    first, states := Reconcile(fs, su, faults);
    between := Disk(fs.names, fs.data);
    if && HomesApart(old(fs.names), su)
       && (forall k :: 0 <= k < FIRST_MIRROR ==> first[k] in {Linked, Current})
       && (forall k :: FIRST_MIRROR <= k < ENTRIES ==> first[k] in {Linked, Current, Skipped, KeptOwn}) {
      forall k | 0 <= k < ENTRIES ensures EntryAtRest(fs.names, su, k) {
        RestAfterStart(old(fs.names), fs.names, old(fs.data), fs.data, su, k, faults[k], first[k]);
      }
    }
    second, states := Reconcile(fs, su, again);
  }

  // ---- Starts, one after another ------------------------------------------------------------

  datatype Disk = Disk(names: Names, data: map<Inode, seq<Byte>>)

  ghost predicate ValidDisk(d: Disk) {
    forall n :: n in d.names && d.names[n].Real? ==> d.names[n].inode in d.data
  }

  /**
   One start: what the user and the window did to the disk beforehand (logins, logouts, files of the window's
   own, anything), what the start is given, and the calls that fail.
   */
  datatype Start = Start(change: Disk -> Disk, setup: Setup, faults: seq<Faults>)
  {
    ghost predicate Possible(home: string) {
      && setup.home == home && setup.Possible() && |faults| == ENTRIES
      && forall d :: ValidDisk(d) ==> ValidDisk(change(d))
    }
  }

  /** Nothing the start does will make a file where this name of the user's leads. */
  predicate StaysMissing(found: Names, su: Setup, user: Name)
    requires su.source.Some?
  {
    && Identity(found, user).None? && Apart(found, user, su.home)
    && (su.files == Symbolic
        || (PlainStores(found, su) && forall j :: 0 <= j < FIRST_MIRROR ==> Final(found, user, {}) != su.User(j)))
  }

  /**
   The window's sign-in file after a start, by the state the start found. It is a directory only if that was found;
   absent where the user signs in from elsewhere or has no file; and otherwise opens as the user's file itself, but
   for a file reached through the window's own name with symbolic links. Without a failing call it is left unlinked
   only by a hard link, and for a user's file reached through no other entry only through the window's own link.
   */
  predicate SignInSettled(found: Names, after: Names, su: Setup, f: Faults, outcome: Outcome) {
    var dest := su.Dest(AUTH_ENTRY);
    && (outcome == Skipped ==> dest !in after)
    && (outcome == KeptOwn ==> dest in found && found[dest].Dir? && dest in after && after[dest].Dir?)
    && (if su.source.None? || !su.fileSignIn then
          outcome in {Skipped, KeptOwn, Unlinked} && (f == NO_FAULTS ==> outcome != Unlinked)
        else
          var user := su.User(AUTH_ENTRY);
          && (f == NO_FAULTS && (su.files == Symbolic || PlainFile(found, user)) ==> outcome != Unlinked)
          && (f == NO_FAULTS && outcome == Unlinked && ApartBut(found, user, su.home, dest) ==>
                ThroughLink(found, FileStore, user, dest, su.files))
          && (StaysMissing(found, su, user) ==>
                outcome in {Skipped, KeptOwn, Unlinked} && (f == NO_FAULTS ==> outcome != Unlinked))
          && (Identity(found, user).Some? && ApartBut(found, user, su.home, dest) ==>
                && outcome in {Linked, Current, KeptOwn, Unlinked}
                && (ThroughLink(found, FileStore, user, dest, su.files) ==> outcome == Unlinked)
                && (outcome in {Linked, Current} ==>
                      (SameFile(after, user, dest) && Identity(after, dest) == Identity(found, user)
                       <==> su.files == Hard || dest !in Trail(found, user, {})))))
  }

  lemma SettledSignIn(found: Names, after: Names, data0: map<Inode, seq<Byte>>, data: map<Inode, seq<Byte>>,
                      su: Setup, f: Faults, outcome: Outcome)
    requires su.Possible() && Kept(found, after, data0, data, su, ENTRIES)
    requires Done(found, after, su, AUTH_ENTRY, f, outcome)
    ensures SignInSettled(found, after, su, f, outcome)
  {
    Table();
    if su.source.Some? && su.fileSignIn {
      var user, dest := su.User(AUTH_ENTRY), su.Dest(AUTH_ENTRY);
      if StaysMissing(found, su, user) {
        MissingStays(found, after, data0, data, su, user);
      }
      if Identity(found, user).Some? && ApartBut(found, user, su.home, dest) && outcome in {Linked, Current} {
        MirrorOpensIff(found, after, data0, data, su, AUTH_ENTRY, f, outcome);
      }
    }
  }

  lemma MissingStays(found: Names, after: Names, data0: map<Inode, seq<Byte>>, data: map<Inode, seq<Byte>>,
                     su: Setup, user: Name)
    requires su.source.Some? && Kept(found, after, data0, data, su, ENTRIES) && StaysMissing(found, su, user)
    ensures Identity(after, user).None? && Outside(after, user, su.home)
  {
    ApartStays(found, after, data0, data, su, user);
    KeptWalks(found, after, data0, data, su, ENTRIES, user);
    FinalOnTrail(found, user, {});
    var e := Final(found, user, {});
    if e !in found && e in after {
      assert Appeared(found, after[e], su, ENTRIES, e);
    }
  }

  /** One of a sequence of starts: it finds what the one before left, changed, and settles the sign-in file. */
  ghost predicate Ran(first: Disk, start: Start, after: seq<Disk>, i: nat, outcomes: seq<Outcome>, states: seq<Names>)
    requires i < |after|
  {
    && |outcomes| == ENTRIES && |start.faults| == ENTRIES
    && var found := start.change(if i == 0 then first else after[i - 1]);
       Started(found.names, after[i].names, start, outcomes, states)
  }

  /** One start: every entry in turn, and the sign-in file settled. */
  ghost predicate Started(found: Names, after: Names, start: Start, outcomes: seq<Outcome>, states: seq<Names>)
    requires |outcomes| == ENTRIES && |start.faults| == ENTRIES
  {
    && InTurn(states, start.setup, start.faults, outcomes) && states[0] == found && states[ENTRIES] == after
    && SignInSettled(found, after, start.setup, start.faults[AUTH_ENTRY], outcomes[AUTH_ENTRY])
    && CachesSettled(found, after, start.setup, start.faults, outcomes)
  }

  ghost predicate CachesSettled(found: Names, after: Names, su: Setup, faults: seq<Faults>, outcomes: seq<Outcome>)
    requires |outcomes| == ENTRIES && |faults| == ENTRIES
  {
    forall k :: AUTH_ENTRY < k < ENTRIES ==> CacheSettled(found, after, su, k, faults[k], outcomes[k])
  }

  method ChangeAndStart(fs: FileSystem, home: string, start: Start)
    returns (outcomes: seq<Outcome>, ghost states: seq<Names>)
    requires fs.Valid() && start.Possible(home)
    modifies fs
    ensures fs.Valid() && |outcomes| == ENTRIES
    ensures Started(start.change(old(Disk(fs.names, fs.data))).names, fs.names, start, outcomes, states)
  {
    assert ValidDisk(Disk(fs.names, fs.data));
    var changed := start.change(Disk(fs.names, fs.data));
    fs.names, fs.data := changed.names, changed.data;
    outcomes, states := Reconcile(fs, start.setup, start.faults);
    SettledSignIn(changed.names, fs.names, changed.data, fs.data, start.setup,
                  start.faults[AUTH_ENTRY], outcomes[AUTH_ENTRY]);
  }

  /** Any sequence of starts, each after whatever the user and the window did since the last one. */
  method RunStarts(fs: FileSystem, home: string, starts: seq<Start>)
    returns (outcomes: seq<seq<Outcome>>, ghost after: seq<Disk>, ghost steps: seq<seq<Names>>)
    requires fs.Valid() && forall i :: 0 <= i < |starts| ==> starts[i].Possible(home)
    modifies fs
    ensures |outcomes| == |after| == |steps| == |starts|
    ensures forall i :: 0 <= i < |starts| ==>
              Ran(old(Disk(fs.names, fs.data)), starts[i], after, i, outcomes[i], steps[i])
  {
    outcomes, after, steps := [], [], [];
    ghost var first := Disk(fs.names, fs.data);
    for i := 0 to |starts|
      invariant fs.Valid() && |outcomes| == |after| == |steps| == i
      invariant Disk(fs.names, fs.data) == if i == 0 then first else after[i - 1]
      invariant forall j :: 0 <= j < i ==> Ran(first, starts[j], after, j, outcomes[j], steps[j])
    {
      var outcome;
      ghost var states;
      outcome, states := ChangeAndStart(fs, home, starts[i]);
      ghost var longer := after + [Disk(fs.names, fs.data)];
      forall j | 0 <= j < i ensures Ran(first, starts[j], longer, j, outcomes[j], steps[j]) {
        assert Ran(first, starts[j], after, j, outcomes[j], steps[j]);
      }
      outcomes, after, steps := outcomes + [outcome], longer, steps + [states];
    }
  }
}
