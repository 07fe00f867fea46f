/**
 Linking a window's Codex home to the user's: conversation stores are linked
 without ever losing data, sign-in files are mirrored and never kept.
 The file system is a map from names to nodes; several names may share an inode.
 */
module CodexLinks {
  import opened Base

  datatype Name = Name(folder: string, entry: string)
  type Inode = nat

  datatype Node = Real(inode: Inode) | Dir | Link(target: Name)
  type Names = map<Name, Node>

  datatype Kind = DirStore | FileStore
  datatype Owner = Store | Mirror
  datatype FileLink = Symbolic | Hard
  datatype Outcome = Linked | Current | KeptOwn | Skipped | Unlinked

  /** Which system calls of one reconciliation step fail. */
  datatype Faults = Faults(prepare: bool, inspect: bool, compare: bool, count: bool, remove: bool,
                           link: bool, verify: bool, cleanup: bool)

  const NO_FAULTS := Faults(false, false, false, false, false, false, false, false)

  // ---- Following links --------------------------------------------------------

  /** Where opening `n` arrives; a name that is still a link means a loop. */
  function Final(names: Names, n: Name, visited: set<Name>): (r: Name)
    decreases names.Keys - visited
  {
    if n in names && names[n].Link? && n !in visited then Final(names, names[n].target, visited + {n}) else n
  }

  /** Every name opening `n` passes through, the last included. */
  function Trail(names: Names, n: Name, visited: set<Name>): (r: set<Name>)
    decreases names.Keys - visited
  {
    if n in names && names[n].Link? && n !in visited
    then {n} + Trail(names, names[n].target, visited + {n}) else {n}
  }

  /** The file that opening `n` gives, if any. */
  function Identity(names: Names, n: Name): (r: Option<Inode>) {
    var f := Final(names, n, {});
    if f in names && names[f].Real? then Some(names[f].inode) else None
  }

  /** The name that opening `n` arrives at, whether or not anything is there; none for a loop. */
  function Leads(names: Names, n: Name): (r: Option<Name>) {
    var f := Final(names, n, {});
    if f in names && names[f].Link? then None else Some(f)
  }

  predicate SameFile(names: Names, a: Name, b: Name) {
    Identity(names, a).Some? && Identity(names, a) == Identity(names, b)
  }

  function NamesOf(names: Names, i: Inode): (r: set<Name>) {
    set n | n in names && names[n] == Real(i)
  }

  /** Two systems that differ at most at `dest` resolve alike what does not pass through it. */
  lemma {:induction false} FinalFrame(before: Names, after: Names, dest: Name, n: Name, visited: set<Name>)
    requires forall m :: m != dest ==> (m in before <==> m in after) && (m in before ==> before[m] == after[m])
    requires dest !in Trail(before, n, visited)
    ensures Final(after, n, visited) == Final(before, n, visited)
    decreases before.Keys - visited
  {
    if n in before && before[n].Link? && n !in visited {
      FinalFrame(before, after, dest, before[n].target, visited + {n});
    }
  }

  /** Starting with more names already seen changes nothing off the trail. */
  lemma {:induction false} FinalVisited(names: Names, n: Name, visited: set<Name>, more: Name)
    requires more !in Trail(names, n, visited)
    ensures Final(names, n, visited + {more}) == Final(names, n, visited)
    decreases names.Keys - visited
  {
    if n in names && names[n].Link? && n !in visited {
      assert visited + {n} + {more} == visited + {more} + {n};
      FinalVisited(names, names[n].target, visited + {n}, more);
    }
  }

  /** The target of the link at a name, if there is one. */
  function LinkAt(names: Names, n: Name): (r: Option<Name>) {
    if n in names && names[n].Link? then Some(names[n].target) else None
  }

  /** Two systems with the same links along the way lead the same way. */
  lemma {:induction false} SameWalk(a: Names, b: Names, n: Name, visited: set<Name>)
    requires forall m :: m in Trail(a, n, visited) ==> LinkAt(a, m) == LinkAt(b, m)
    ensures Trail(b, n, visited) == Trail(a, n, visited) && Final(b, n, visited) == Final(a, n, visited)
    decreases a.Keys - visited
  {
    assert LinkAt(a, n) == LinkAt(b, n);
    if n in a && a[n].Link? && n !in visited {
      SameWalk(a, b, a[n].target, visited + {n});
    }
  }

  // ---- What must hold of a step ---------------------------------------------------

  ghost predicate Named(names: Names, i: Inode) {
    exists n :: n in names && names[n] == Real(i)
  }

  /** No directory is removed, no file loses its last name, no content changes. */
  ghost predicate NothingLost(before: Names, after: Names, was: map<Inode, seq<Byte>>, data: map<Inode, seq<Byte>>) {
    && (forall n :: n in before && before[n].Dir? ==> n in after && after[n].Dir?)
    && (forall n :: n in before && before[n].Real? ==> Named(after, before[n].inode))
    && (forall i :: i in was ==> i in data && data[i] == was[i])
  }

  /** Apart from `dest`, at most the missing directory `source`, or an empty file where `source` leads, appears. */
  ghost predicate OnlyCreates(before: Names, after: Names, was: map<Inode, seq<Byte>>, data: map<Inode, seq<Byte>>,
                              kind: Kind, source: Name, dest: Name, files: FileLink) {
    && (forall n :: n != dest && n in before ==> n in after && after[n] == before[n])
    && (forall n :: n != dest && n in after && n !in before ==>
          || (kind == DirStore && n == source && after[n].Dir?)
          || (&& kind == FileStore && files == Hard && n == Final(before, source, {})
              && after[n].Real? && after[n].inode !in was
              && after[n].inode in data && data[after[n].inode] == []))
  }

  /** The store's source is in the state linking needs. */
  predicate Prepared(names: Names, kind: Kind, source: Name, files: FileLink) {
    var f := Final(names, source, {});
    match (kind, files)
    case (DirStore, _) => f in names && names[f].Dir?
    case (FileStore, Hard) => f in names && names[f].Real?
    case (FileStore, Symbolic) => true
  }

  /** What preparing can bring about: the right thing is there, or nothing is and it can be made. */
  predicate Preparable(names: Names, kind: Kind, source: Name, files: FileLink) {
    var f := Final(names, source, {});
    match (kind, files)
    case (DirStore, _) => if f in names then names[f].Dir? else f == source
    case (FileStore, Hard) => f in names ==> names[f].Real?
    case (FileStore, Symbolic) => true
  }

  /** A hard link cannot be made to a file reached through the very link it is to replace. */
  predicate ThroughLink(names: Names, kind: Kind, source: Name, dest: Name, files: FileLink) {
    && kind == FileStore && files == Hard
    && dest in names && names[dest].Link? && dest in Trail(names, source, {})
  }

  /** What stands at the name is the window's own and has no other name. */
  predicate OwnData(names: Names, kind: Kind, source: Name, dest: Name) {
    dest in names &&
    match names[dest]
    case Dir => true
    case Real(inode) => kind == DirStore || (!SameFile(names, source, dest) && |NamesOf(names, inode)| <= 1)
    case Link(_) => false
  }

  /** What a start takes for a store that is linked already. What it opens as is a matter of `Opened`. */
  predicate StoreLinked(names: Names, kind: Kind, source: Name, dest: Name, files: FileLink) {
    && Prepared(names, kind, source, files)
    && dest in names
    && (names[dest] == Link(source) || (kind == FileStore && names[dest].Real? && SameFile(names, source, dest)))
  }

  /**
   The two arrangements linking cannot settle: a hard link to a user's file that
   is itself a symlink, and a user's folder that is reached through the window's.
   */
  predicate Unsettled(names: Names, kind: Kind, source: Name, dest: Name, files: FileLink) {
    || (kind == FileStore && files == Hard && source in names && names[source].Link?)
    || (kind == DirStore && dest in Trail(names, source, {}))
  }

  /**
   What a link just made opens as. A hard link is the user's file. A symbolic one leads where the user's name
   leads, and that is where it led before exactly when it was not reached through the window's own name.
   */
  predicate Opened(before: Names, after: Names, kind: Kind, source: Name, dest: Name, files: FileLink) {
    dest in after &&
    if kind == FileStore && files == Hard then
      SameFile(after, source, dest) && source in after && after[dest] == after[source]
    else
      && after[dest] == Link(source) && Leads(after, dest) == Leads(after, source)
      && (Leads(after, dest).Some? <==> Leads(before, source).Some? && dest !in Trail(before, source, {}))
      && (Leads(after, dest).Some? ==> Leads(after, dest) == Leads(before, source))
      && (Identity(before, source).Some? ==>
            (SameFile(after, source, dest) && Identity(after, dest) == Identity(before, source)
             <==> dest !in Trail(before, source, {})))
  }

  lemma StillNamed(names: Names)
    ensures forall n :: n in names && names[n].Real? ==> Named(names, names[n].inode)
  {
  }

  lemma KeepsNames(before: Names, after: Names, dest: Name)
    requires forall n :: n != dest && n in before ==> n in after && after[n] == before[n]
    requires dest in before && before[dest].Real? ==>
               exists m :: m != dest && m in before && before[m] == before[dest]
    ensures forall n :: n in before && before[n].Real? ==> Named(after, before[n].inode)
  {
  }

  lemma LosesNothingInTwo(a: Names, b: Names, c: Names, was: map<Inode, seq<Byte>>, data: map<Inode, seq<Byte>>)
    requires NothingLost(a, b, was, data) && NothingLost(b, c, data, data)
    ensures NothingLost(a, c, was, data)
  {
    forall n | n in a && a[n].Real? ensures Named(c, a[n].inode) {
      var m :| m in b && b[m] == Real(a[n].inode);
    }
  }

  /** What preparing may have done: nothing, or made the one missing directory or empty file. */
  ghost predicate PreparedFrom(before: Names, ready: Names, was: map<Inode, seq<Byte>>, kind: Kind, source: Name,
                               files: FileLink) {
    || ready == before
    || (kind == DirStore && source !in before && ready == before[source := Dir])
    || (&& kind == FileStore && files == Hard
        && var f := Final(before, source, {});
           && f !in before && f in ready && ready[f].Real? && ready[f].inode !in was
           && ready == before[f := ready[f]])
  }

  /** Preparing a store's source changes none of the circumstances that linking it depends on. */
  lemma SameCircumstances(before: Names, ready: Names, was: map<Inode, seq<Byte>>, kind: Kind, source: Name, dest: Name,
                          files: FileLink)
    requires source != dest && PreparedFrom(before, ready, was, kind, source, files)
    requires forall n :: n in before && before[n].Real? ==> before[n].inode in was
    ensures Trail(ready, source, {}) == Trail(before, source, {}) && Leads(ready, source) == Leads(before, source)
    ensures Unsettled(ready, kind, source, dest, files) <==> Unsettled(before, kind, source, dest, files)
    ensures ThroughLink(ready, kind, source, dest, files) <==> ThroughLink(before, kind, source, dest, files)
    ensures OwnData(ready, kind, source, dest) <==> OwnData(before, kind, source, dest)
    ensures !(kind == FileStore && files == Hard) ==> Identity(ready, source) == Identity(before, source)
  {
    if ready != before {
      var f := Final(before, source, {});
      TrailOfCreated(before, ready, source, f, {});
      FinalOfCreated(before, ready, source, f);
      if dest in before && before[dest].Real? {
        assert NamesOf(ready, before[dest].inode) == NamesOf(before, before[dest].inode);
      }
    }
  }

  lemma {:induction false} TrailOfCreated(before: Names, after: Names, n: Name, f: Name, visited: set<Name>)
    requires f !in before && f in after && !after[f].Link? && after == before[f := after[f]]
    ensures Trail(after, n, visited) == Trail(before, n, visited)
    decreases before.Keys - visited
  {
    if n in before && before[n].Link? && n !in visited {
      TrailOfCreated(before, after, before[n].target, f, visited + {n});
    }
  }

  /** A folder reached through `dest` is lost in a loop once `dest` points back at it. */
  lemma {:induction false} FinalLoops(before: Names, after: Names, dest: Name, s: Name, n: Name, visited: set<Name>)
    requires forall m :: m in Trail(before, n, visited) && m != dest ==> LinkAt(after, m) == LinkAt(before, m)
    requires dest in after && after[dest] == Link(s)
    requires s in visited && dest !in visited && dest in Trail(before, n, visited)
    ensures Final(after, n, visited) == s
    decreases before.Keys - visited
  {
    if n != dest {
      assert LinkAt(after, n) == LinkAt(before, n);
      FinalLoops(before, after, dest, s, before[n].target, visited + {n});
    }
  }

  lemma LinkedBack(before: Names, after: Names, dest: Name, source: Name)
    requires forall m :: m in Trail(before, source, {}) && m != dest ==> LinkAt(after, m) == LinkAt(before, m)
    requires dest in after && after[dest] == Link(source)
    requires source != dest && dest in Trail(before, source, {})
    ensures Final(after, source, {}) == source && source in after && after[source].Link?
  {
    assert {} + {source} == {source};
    assert LinkAt(after, source) == LinkAt(before, source);
    FinalLoops(before, after, dest, source, before[source].target, {source});
  }

  /** The same with `dest` made another name of the link it is reached through. */
  lemma CopiedBack(before: Names, after: Names, dest: Name, source: Name)
    requires forall m :: m in Trail(before, source, {}) && m != dest ==> LinkAt(after, m) == LinkAt(before, m)
    requires source in before && dest in after && after[dest] == before[source]
    requires source != dest && dest in Trail(before, source, {})
    ensures Identity(after, source).None?
  {
    assert {} + {source} == {source};
    var next := before[source].target;
    assert LinkAt(after, source) == LinkAt(before, source);
    assert Final(after, source, {}) == Final(after, next, {source});
    if next == dest {
      assert {source} + {dest} == {source, dest};
      assert Final(after, dest, {source}) == Final(after, dest, {source, dest}) == dest;
    } else {
      FinalLoops(before, after, dest, next, before[next].target, {source} + {next});
    }
  }

  lemma {:induction false} FinalOnTrail(names: Names, n: Name, visited: set<Name>)
    ensures Final(names, n, visited) in Trail(names, n, visited)
    decreases names.Keys - visited
  {
    if n in names && names[n].Link? && n !in visited {
      FinalOnTrail(names, names[n].target, visited + {n});
    }
  }

  /** The trail ends at the name where it cannot go on. */
  lemma {:induction false} TrailEnds(names: Names, n: Name, visited: set<Name>, m: Name)
    requires m in Trail(names, n, visited) && !(m in names && names[m].Link?)
    ensures Final(names, n, visited) == m
    decreases names.Keys - visited
  {
    if n in names && names[n].Link? && n !in visited {
      TrailEnds(names, names[n].target, visited + {n}, m);
    }
  }

  /** Without a name on its trail, opening ends there. */
  lemma {:induction false} FinalWithout(names: Names, n: Name, visited: set<Name>, gone: Name)
    requires gone in Trail(names, n, visited)
    ensures Final(names - {gone}, n, visited) == gone
    decreases names.Keys - visited
  {
    if n != gone {
      FinalWithout(names, names[n].target, visited + {n}, gone);
    }
  }

  lemma IdentityWithout(names: Names, n: Name, gone: Name)
    ensures Identity(names - {gone}, n).Some? <==> Identity(names, n).Some? && gone !in Trail(names, n, {})
    ensures Identity(names - {gone}, n).Some? ==> Identity(names - {gone}, n) == Identity(names, n)
  {
    if gone in Trail(names, n, {}) {
      FinalWithout(names, n, {}, gone);
    } else {
      FinalFrame(names, names - {gone}, gone, n, {});
      FinalOnTrail(names, n, {});
    }
  }

  lemma {:induction false} TrailFrame(before: Names, after: Names, dest: Name, n: Name, visited: set<Name>)
    requires forall m :: m != dest ==> (m in before <==> m in after) && (m in before ==> before[m] == after[m])
    requires dest !in Trail(before, n, visited)
    ensures Trail(after, n, visited) == Trail(before, n, visited)
    decreases before.Keys - visited
  {
    if n in before && before[n].Link? && n !in visited {
      TrailFrame(before, after, dest, before[n].target, visited + {n});
    }
  }

  /** Coming back to a name already passed ends there. */
  lemma {:induction false} FinalStops(before: Names, after: Names, dest: Name, n: Name, visited: set<Name>)
    requires forall m :: m != dest && m in before ==> m in after && after[m] == before[m]
    requires dest in Trail(before, n, visited)
    ensures Final(after, n, visited + {dest}) == dest
    decreases before.Keys - visited
  {
    if n != dest {
      assert visited + {dest} + {n} == visited + {n} + {dest};
      FinalStops(before, after, dest, before[n].target, visited + {n});
    }
  }

  lemma {:induction false} TrailVisited(names: Names, n: Name, visited: set<Name>, more: Name)
    requires more !in Trail(names, n, visited)
    ensures Trail(names, n, visited + {more}) == Trail(names, n, visited)
    decreases names.Keys - visited
  {
    if n in names && names[n].Link? && n !in visited {
      assert visited + {n} + {more} == visited + {more} + {n};
      TrailVisited(names, names[n].target, visited + {n}, more);
    }
  }

  /** Another name of the link at `user` opens as `user` does. */
  lemma CopiedOpens(names: Names, user: Name, dest: Name)
    requires user in names && dest in names && names[dest] == names[user] && !names[dest].Dir?
    requires Identity(names, user).Some? && dest !in Trail(names, user, {})
    ensures SameFile(names, user, dest)
  {
    if names[dest].Link? {
      var t := names[dest].target;
      assert Final(names, user, {}) == Final(names, t, {} + {user});
      assert Final(names, dest, {}) == Final(names, t, {} + {dest});
      assert user !in Trail(names, t, {}) by {
        if user in Trail(names, t, {}) {
          FinalStops(names, names, user, t, {});
        }
      }
      TrailVisited(names, t, {}, user);
      assert Trail(names, t, {} + {user}) <= Trail(names, user, {});
      FinalVisited(names, t, {}, user);
      FinalVisited(names, t, {}, dest);
    }
  }

  /** Exactly when a fresh hard link is the file its source opens as. */
  lemma HardLinkVerifies(before: Names, after: Names, source: Name, dest: Name)
    requires source != dest && source in before && !before[source].Dir? && dest !in before
    requires after == before[dest := before[source]]
    ensures SameFile(after, source, dest) <==> Identity(before, source).Some?
  {
    if dest in Trail(before, source, {}) {
      TrailEnds(before, source, {}, dest);
      CopiedBack(before, after, dest, source);
    } else {
      FinalFrame(before, after, dest, source, {});
      TrailFrame(before, after, dest, source, {});
      FinalOnTrail(before, source, {});
      if Identity(before, source).Some? {
        CopiedOpens(after, source, dest);
      }
    }
  }

  /** Where a fresh symbolic link leads. */
  lemma LinkLeads(before: Names, after: Names, source: Name, dest: Name)
    requires source != dest && dest in after && after[dest] == Link(source)
    requires forall m :: m != dest ==> (m in before <==> m in after) && (m in before ==> before[m] == after[m])
    ensures Opened(before, after, DirStore, source, dest, Symbolic)
  {
    if Identity(before, source).Some? {
      MirrorOpens(before, after, source, dest, Symbolic);
    }
    assert Final(after, dest, {}) == Final(after, source, {} + {dest});
    if dest in Trail(before, source, {}) {
      LinkedBack(before, after, dest, source);
      FinalStops(before, after, dest, source, {});
    } else {
      FinalFrame(before, after, dest, source, {});
      FinalOnTrail(before, source, {});
      TrailFrame(before, after, dest, source, {});
      FinalVisited(after, source, {}, dest);
    }
  }

  /** What a fresh mirror opens as. */
  lemma MirrorOpens(before: Names, after: Names, source: Name, dest: Name, files: FileLink)
    requires source != dest && Identity(before, source).Some?
    requires forall m :: m != dest ==> (m in before <==> m in after) && (m in before ==> before[m] == after[m])
    requires dest in after && source in after
    requires match files
             case Symbolic => after[dest] == Link(source)
             case Hard => after[dest] == after[source] && SameFile(after, source, dest)
    ensures SameFile(after, source, dest) && Identity(after, dest) == Identity(before, source)
       <==> files == Hard || dest !in Trail(before, source, {})
  {
    if dest in Trail(before, source, {}) {
      if files == Symbolic {
        LinkedBack(before, after, dest, source);
      } else {
        CopiedBack(before, after, dest, source);
        assert false;
      }
    } else {
      FinalFrame(before, after, dest, source, {});
      FinalOnTrail(before, source, {});
      if files == Symbolic {
        TrailFrame(before, after, dest, source, {});
        FinalVisited(after, source, {}, dest);
        assert Final(after, dest, {}) == Final(after, source, {} + {dest});
      }
    }
  }

  /** `dest` is a link to the user's file, or another name of it. */
  predicate Mirrors(names: Names, source: Name, dest: Name, files: FileLink) {
    dest in names &&
    match files
    case Symbolic => names[dest] == Link(source)
    case Hard =>
      && !names[dest].Dir? && SameFile(names, source, dest)
      && (source in names && names[source].Real? ==> names[dest] == names[source])
      && (names[dest].Link? ==> source in names && names[dest] == names[source])
  }

  /** The mirror is there already. */
  predicate InPlace(names: Names, user: Name, dest: Name, files: FileLink) {
    dest in names &&
    match files
    case Symbolic => names[dest] == Link(user)
    case Hard => names[dest].Real? && SameFile(names, user, dest)
  }

  /** No hard link can be made: the user's name opens no file once the window's is gone. */
  predicate Unlinkable(names: Names, user: Name, dest: Name, files: FileLink) {
    files == Hard && (Identity(names, user).None? || ThroughLink(names, FileStore, user, dest, files))
  }

  /**
   Mirroring a wanted file, or none: what each outcome means for the state it began with and the one it leaves,
   and which outcome it is when no call fails. Unlinked is a failure.
   */
  predicate MirrorOutcome(before: Names, after: Names, wanted: Option<Name>, dest: Name, files: FileLink, f: Faults,
                          outcome: Outcome) {
    && (outcome == KeptOwn ==> dest in before && before[dest].Dir? && after == before)
    && (outcome == Skipped ==> wanted.None? && after == before - {dest})
    && (outcome == Current ==> wanted.Some? && InPlace(before, wanted.value, dest, files) && after == before)
    && (outcome == Linked ==>
          wanted.Some? &&
          match files
          case Symbolic => after == before[dest := Link(wanted.value)]
          case Hard =>
            && Identity(before, wanted.value).Some? && dest !in Trail(before, wanted.value, {})
            && wanted.value in before && after == before[dest := before[wanted.value]])
    && (f == NO_FAULTS ==>
          outcome == if dest in before && before[dest].Dir? then KeptOwn
                     else if wanted.None? then Skipped
                     else if InPlace(before, wanted.value, dest, files) then Current
                     else if Unlinkable(before, wanted.value, dest, files) then Unlinked
                     else Linked)
  }

  /** A file reached through another name: that name is there, does not point back, and if real is the file itself. */
  lemma OnTheTrail(names: Names, source: Name, dest: Name)
    requires source != dest && Identity(names, source).Some? && dest in Trail(names, source, {})
    ensures dest in names && names[dest] != Link(source) && !names[dest].Dir?
    ensures names[dest].Real? ==> SameFile(names, source, dest)
  {
    if dest !in names || !names[dest].Link? {
      TrailEnds(names, source, {}, dest);
    } else if names[dest] == Link(source) {
      LinkedBack(names, names, dest, source);
    }
  }

  /** A file has one name exactly when there is no other. */
  lemma OnlyName(names: Names, dest: Name)
    ensures dest in names && names[dest].Real? ==>
              (|NamesOf(names, names[dest].inode)| <= 1
               <==> !(exists m :: m != dest && m in names && names[m] == names[dest]))
  {
    if dest in names && names[dest].Real? {
      var all := NamesOf(names, names[dest].inode);
      assert dest in all;
      assert |all - {dest}| == |all| - 1;
      if m :| m != dest && m in names && names[m] == names[dest] {
        assert m in all - {dest};
      } else {
        assert all - {dest} == {};
      }
    }
  }

  lemma OtherName(names: Names, dest: Name)
    requires dest in names && names[dest].Real? && |NamesOf(names, names[dest].inode)| > 1
    ensures exists m :: m != dest && m in names && names[m] == names[dest]
  {
    var all := NamesOf(names, names[dest].inode);
    assert |all - {dest}| == |all| - 1;
    var m :| m in all - {dest};
  }

  class FileSystem {
    var names: Names
    var data: map<Inode, seq<Byte>>

    /** Every named file has contents. */
    ghost predicate Valid()
      reads this
    {
      forall n :: n in names && names[n].Real? ==> names[n].inode in data
    }

    method PrepareStore(kind: Kind, source: Name, files: FileLink, fails: bool) returns (ok: bool)
      requires Valid()
      modifies this
      ensures Valid() && NothingLost(old(names), names, old(data), data)
      ensures forall n :: n in old(names) ==> n in names && names[n] == old(names)[n]
      ensures forall n :: n in names && n !in old(names) ==>
                n == Final(old(names), source, {})
                && (names[n].Dir? || (names[n].Real? && names[n].inode !in old(data)
                                      && names[n].inode in data && data[names[n].inode] == []))
      ensures kind == DirStore ==>
                names == old(names) || (source !in old(names) && names == old(names)[source := Dir])
      ensures ok ==> Prepared(names, kind, source, files)
      ensures PreparedFrom(old(names), names, old(data), kind, source, files)
      ensures ok <==> && Preparable(old(names), kind, source, files)
                      && (!fails || (kind == FileStore && files == Symbolic))
      ensures Prepared(old(names), kind, source, files) ==> names == old(names) && data == old(data)
      ensures Prepared(old(names), kind, source, files) && !fails ==> ok
      ensures kind == FileStore && files == Symbolic ==> ok && names == old(names) && data == old(data)
    {
      StillNamed(names);
      if kind == FileStore && files == Symbolic {
        return true;
      }
      var f := Final(names, source, {});
      ok := !fails;
      if ok && f !in names {
        if kind == DirStore && f != source {
          // A dangling link: the directory cannot be made through it.
          return false;
        }
        if kind == DirStore {
          names := names[f := Dir];
        } else {
          var i := FreshInode();
          data := data[i := []];
          names := names[f := Real(i)];
        }
        FinalOfCreated(old(names), names, source, f);
        KeepsNames(old(names), names, f);
      } else if ok {
        ok := if kind == DirStore then names[f].Dir? else names[f].Real?;
      }
    }

    /** Links a free name; success means the link names the source, and no other name changes. */
    method MakeLink(kind: Kind, files: FileLink, source: Name, dest: Name, f: Faults) returns (ok: bool)
      requires Valid() && source != dest && dest !in names
      modifies this`names
      ensures Valid()
      ensures forall n :: n != dest ==> (n in names <==> n in old(names)) && (n in names ==> names[n] == old(names)[n])
      ensures dest in names ==> !names[dest].Dir?
      ensures dest in names && names[dest].Real? ==> source in names && names[source] == names[dest]
      ensures ok ==> dest in names
      ensures ok && !(kind == FileStore && files == Hard) ==> names[dest] == Link(source)
      ensures ok && kind == FileStore && files == Hard ==>
                source in names && names[dest] == names[source] && SameFile(names, source, dest)
      ensures ok <==> && !f.link && !f.verify
                      && (kind == FileStore && files == Hard ==> Identity(old(names), source).Some?)
      ensures !ok && !f.cleanup ==> dest !in names
    {
      var hard := kind == FileStore && files == Hard;
      if f.link || (hard && (source !in names || names[source].Dir?)) {
        return false;
      }
      names := names[dest := if hard then names[source] else Link(source)];
      if hard {
        HardLinkVerifies(old(names), names, source, dest);
      }
      var verified := !f.verify && (if hard then SameFile(names, source, dest) else names[dest] == Link(source));
      if verified {
        return true;
      }
      if !f.cleanup {
        names := names - {dest};
      }
      return false;
    }

    /** Take away what is at `dest`, if anything, and link it. */
    method Relink(kind: Kind, source: Name, dest: Name, files: FileLink, f: Faults) returns (ok: bool)
      requires Valid() && source != dest && Prepared(names, kind, source, files)
      requires dest in names ==> !names[dest].Dir?
      requires dest in names && names[dest].Real? ==>
                 exists m :: m != dest && m in names && names[m] == names[dest]
      modifies this`names
      ensures Valid() && NothingLost(old(names), names, data, data)
      ensures forall n :: n != dest ==> (n in names <==> n in old(names)) && (n in names ==> names[n] == old(names)[n])
      ensures ok ==> dest in names && (Prepared(names, kind, source, files) || kind == DirStore)
      ensures ok ==> (StoreLinked(names, kind, source, dest, files)
                      <==> !Unsettled(old(names), kind, source, dest, files))
      ensures ok ==> Opened(old(names), names, kind, source, dest, files)
      ensures ok <==> && !f.link && !f.verify
                      && (kind == FileStore && files == Hard ==> dest !in Trail(old(names), source, {}))
    {
      IdentityWithout(names, source, dest);
      names := names - {dest};
      ok := MakeLink(kind, files, source, dest, f);
      KeepsNames(old(names), names, dest);
      if ok {
        if !(kind == FileStore && files == Hard) {
          LinkLeads(old(names), names, source, dest);
        }
        if dest in Trail(old(names), source, {}) {
          if names[dest] == Link(source) {
            LinkedBack(old(names), names, dest, source);
          }
        } else {
          FinalFrame(old(names), names, dest, source, {});
        }
      }
    }

    /** Loses nothing, creates at most the store's source, and links the name unless it holds the window's own data. */
    method LinkStore(kind: Kind, source: Name, dest: Name, files: FileLink, f: Faults)
      returns (r: Result<Outcome, ()>)
      requires Valid() && source != dest
      modifies this
      ensures Valid()
      ensures NothingLost(old(names), names, old(data), data)
      ensures OnlyCreates(old(names), names, old(data), data, kind, source, dest, files)
      ensures r.Ok? ==> r.value in {Linked, Current, KeptOwn}
      // A store that is already the user's stays exactly as it is.
      ensures StoreLinked(old(names), kind, source, dest, files) && f == NO_FAULTS ==>
                r == Ok(Current) && names == old(names) && data == old(data)
      ensures r == Ok(Current) ==> StoreLinked(names, kind, source, dest, files)
      ensures r == Ok(Linked) ==>
                (StoreLinked(names, kind, source, dest, files)
                 <==> !Unsettled(old(names), kind, source, dest, files))
      ensures r == Ok(Linked) ==> Prepared(names, kind, source, files) || kind == DirStore
      // What the window's store opens as, once it is linked and as long as it stays so.
      ensures r == Ok(Linked) ==> Opened(old(names), names, kind, source, dest, files)
      ensures r == Ok(Current) ==>
                || SameFile(names, source, dest)
                || (names[dest] == Link(source) && Leads(names, dest) == Leads(names, source))
      ensures (r == Ok(Current) && source in old(names)
               && (kind == DirStore || Prepared(old(names), kind, source, files))) ==> names == old(names)
      ensures r == Ok(KeptOwn) ==> dest in names && !names[dest].Link?
      ensures r in {Ok(Current), Ok(KeptOwn)} ==>
                if dest in old(names) then names[dest] == old(names)[dest] else dest == Final(old(names), source, {})
      ensures r in {Ok(Current), Ok(KeptOwn)} && Prepared(old(names), kind, source, files) ==>
                names == old(names) && data == old(data)
      // Which outcome it is, when no call fails.
      ensures f == NO_FAULTS ==>
                && (r.Err? <==> || !Preparable(old(names), kind, source, files)
                                || ThroughLink(old(names), kind, source, dest, files))
                && (r.Ok? ==> (r == Ok(KeptOwn) <==> OwnData(old(names), kind, source, dest)))
      // A file of the window's own is kept only if this is its only name.
      ensures (f == NO_FAULTS && kind == FileStore && dest in old(names) && old(names)[dest].Real? && r.Ok?
               && !SameFile(old(names), source, dest)) ==>
                (r == Ok(KeptOwn) <==> !(exists m :: m != dest && m in old(names) && old(names)[m] == old(names)[dest]))
    {
      var prepared := PrepareStore(kind, source, files, f.prepare);
      if !prepared || f.inspect {
        return Err(());
      }
      ghost var ready := names;
      r := LinkPrepared(kind, source, dest, files, f);
      LosesNothingInTwo(old(names), ready, names, old(data), data);
      OnlyName(old(names), dest);
      SameCircumstances(old(names), ready, old(data), kind, source, dest, files);
    }

    /** The same once the source is ready. */
    method LinkPrepared(kind: Kind, source: Name, dest: Name, files: FileLink, f: Faults)
      returns (r: Result<Outcome, ()>)
      requires Valid() && source != dest && Prepared(names, kind, source, files)
      modifies this`names
      ensures Valid() && NothingLost(old(names), names, data, data)
      ensures forall n :: n != dest ==> (n in names <==> n in old(names)) && (n in names ==> names[n] == old(names)[n])
      ensures r.Ok? ==> r.value in {Linked, Current, KeptOwn}
      ensures StoreLinked(old(names), kind, source, dest, files) && !f.inspect && !f.compare ==> r == Ok(Current)
      ensures r == Ok(Current) ==> names == old(names) && StoreLinked(names, kind, source, dest, files)
      ensures r == Ok(Current) && !SameFile(names, source, dest) ==>
                names[dest] == Link(source) && Leads(names, dest) == Leads(names, source)
      ensures r == Ok(Linked) ==>
                && (StoreLinked(names, kind, source, dest, files)
                    <==> !Unsettled(old(names), kind, source, dest, files))
                && (Prepared(names, kind, source, files) || kind == DirStore)
                && Opened(old(names), names, kind, source, dest, files)
      ensures r == Ok(KeptOwn) ==> dest in names && !names[dest].Link? && names == old(names)
      // Which outcome it is, when no call fails.
      ensures f == NO_FAULTS ==>
                && (r.Err? <==> ThroughLink(old(names), kind, source, dest, files))
                && (r == Ok(KeptOwn) <==> OwnData(old(names), kind, source, dest))
                && (r == Ok(Current) <==> StoreLinked(old(names), kind, source, dest, files))
    {
      StillNamed(names);
      if kind == FileStore && files == Hard && dest in Trail(names, source, {}) {
        OnTheTrail(names, source, dest);
      }
      if dest !in names {
        r := RelinkOutcome(kind, source, dest, files, f);
        return;
      }
      match names[dest] {
        case Link(target) =>
          if target == source && !f.compare {
            LinkLeads(names, names, source, dest);
            return Ok(Current);
          }
          if f.remove {
            return Err(());
          }
          r := RelinkOutcome(kind, source, dest, files, f);
        case Real(inode) =>
          if kind == DirStore {
            return Ok(KeptOwn);
          }
          if SameFile(names, source, dest) && !f.compare {
            return Ok(Current);
          }
          if f.count || |NamesOf(names, inode)| <= 1 {
            return Ok(KeptOwn);
          }
          if f.remove {
            return Err(());
          }
          OtherName(names, dest);
          r := RelinkOutcome(kind, source, dest, files, f);
        case Dir =>
          return Ok(KeptOwn);
      }
    }

    method RelinkOutcome(kind: Kind, source: Name, dest: Name, files: FileLink, f: Faults)
      returns (r: Result<Outcome, ()>)
      requires Valid() && source != dest && Prepared(names, kind, source, files)
      requires dest in names ==> !names[dest].Dir?
      requires dest in names && names[dest].Real? ==>
                 exists m :: m != dest && m in names && names[m] == names[dest]
      modifies this`names
      ensures Valid() && NothingLost(old(names), names, data, data)
      ensures forall n :: n != dest ==> (n in names <==> n in old(names)) && (n in names ==> names[n] == old(names)[n])
      ensures r in {Ok(Linked), Err(())}
      ensures r == Ok(Linked)
         <==> && !f.link && !f.verify
              && (kind == FileStore && files == Hard ==> dest !in Trail(old(names), source, {}))
      ensures r == Ok(Linked) ==>
                && (StoreLinked(names, kind, source, dest, files)
                    <==> !Unsettled(old(names), kind, source, dest, files))
                && (Prepared(names, kind, source, files) || kind == DirStore)
                && Opened(old(names), names, kind, source, dest, files)
    {
      var ok := Relink(kind, source, dest, files, f);
      return if ok then Ok(Linked) else Err(());
    }

    /** A second start on a store the first one linked: current, and nothing moves. */
    method LinkStoreTwice(kind: Kind, source: Name, dest: Name, files: FileLink, f: Faults)
      returns (first: Result<Outcome, ()>, second: Result<Outcome, ()>, ghost between: Names)
      requires Valid() && source != dest
      modifies this
      ensures first == Ok(Linked) ==>
                (second == Ok(Current) <==> !Unsettled(old(names), kind, source, dest, files))
      ensures first == Ok(Linked) && second == Ok(Current) ==> names == between
      ensures first == Ok(Current) ==> second == Ok(Current) && names == between
    {
      first := LinkStore(kind, source, dest, files, f);
      between := names;
      second := LinkStore(kind, source, dest, files, NO_FAULTS);
    }

    /** Frees the name if it is a link or one of several names of a file, and otherwise changes nothing. */
    method UnlinkStore(dest: Name, f: Faults) returns (ok: bool)
      requires Valid()
      modifies this`names
      ensures Valid() && NothingLost(old(names), names, data, data)
      ensures names == old(names) || names == old(names) - {dest}
      ensures ok && dest in old(names) && old(names)[dest].Link? ==> dest !in names
      ensures dest in names ==> names == old(names)
      ensures f == NO_FAULTS ==>
                && ok
                && (dest in names
                    <==> && dest in old(names) && !old(names)[dest].Link?
                         && (old(names)[dest].Real? ==> |NamesOf(old(names), old(names)[dest].inode)| <= 1))
                && (dest in old(names) && old(names)[dest].Real? ==>
                      (dest in names
                       <==> !(exists m :: m != dest && m in old(names) && old(names)[m] == old(names)[dest])))
    {
      OnlyName(names, dest);
      StillNamed(names);
      if f.inspect {
        return false;
      }
      if dest !in names {
        return true;
      }
      match names[dest] {
        case Link(_) =>
          if f.remove {
            return false;
          }
        case Real(inode) =>
          if f.count || |NamesOf(names, inode)| <= 1 {
            return true;
          }
          if f.remove {
            return false;
          }
          OtherName(names, dest);
        case Dir =>
          return true;
      }
      names := names - {dest};
      KeepsNames(old(names), names, dest);
      return true;
    }

    /** Leaves at the name the given file or nothing at all, unless a directory is there. */
    method MirrorFile(source: Option<Name>, dest: Name, files: FileLink, f: Faults)
      returns (r: Result<Outcome, ()>)
      requires Valid() && source != Some(dest)
      modifies this`names
      ensures Valid()
      ensures forall n :: n != dest ==> (n in names <==> n in old(names)) && (n in names ==> names[n] == old(names)[n])
      ensures dest in old(names) && old(names)[dest].Dir? ==>
                names == old(names) && (r.Ok? ==> r.value == KeptOwn)
      ensures r.Ok? ==> r.value in {Linked, Current, KeptOwn, Skipped}
      ensures r == Ok(KeptOwn) ==> dest in names && names[dest].Dir?
      // No user file: nothing is left at the name.
      ensures r.Ok? && source.None? && r.value != KeptOwn ==> r.value == Skipped && dest !in names
      // A user file: the name is that file and no file of the window's own.
      ensures r.Ok? && source.Some? && r.value != KeptOwn ==>
                r.value in {Linked, Current} && Mirrors(names, source.value, dest, files)
      // It opens as the user's file exactly when that file is not itself reached through the window's name.
      ensures r.Ok? && source.Some? && r.value != KeptOwn && Identity(old(names), source.value).Some? ==>
                (SameFile(names, source.value, dest) && Identity(names, dest) == Identity(old(names), source.value)
                 <==> files == Hard || dest !in Trail(old(names), source.value, {}))
      // Exactly what it does, and when it fails.
      ensures MirrorOutcome(old(names), names, source, dest, files, f, if r.Ok? then r.value else Unlinked)
    {
      if f.inspect {
        return Err(());
      }
      if source.Some? && Identity(names, source.value).Some? && dest in Trail(names, source.value, {}) {
        OnTheTrail(names, source.value, dest);
      }
      if dest in names && names[dest].Dir? {
        return Ok(KeptOwn);
      }
      if source.None? {
        if dest in names {
          if f.remove {
            return Err(());
          }
          names := names - {dest};
        }
        return Ok(Skipped);
      }
      if dest in names {
        var settled := if names[dest].Link? then files == Symbolic && names[dest].target == source.value
                       else files == Hard && SameFile(names, source.value, dest);
        if settled && !f.compare {
          if files == Symbolic && Identity(names, source.value).Some? {
            MirrorOpens(names, names, source.value, dest, Symbolic);
          }
          return Ok(Current);
        }
        if f.remove {
          return Err(());
        }
      }
      var ok := MirrorAfresh(source.value, dest, files, f);
      return if ok then Ok(Linked) else Err(());
    }

    /** Frees the name and links it to the user's. */
    method MirrorAfresh(user: Name, dest: Name, files: FileLink, f: Faults) returns (ok: bool)
      requires Valid() && user != dest
      modifies this`names
      ensures Valid()
      ensures forall n :: n != dest ==> (n in names <==> n in old(names)) && (n in names ==> names[n] == old(names)[n])
      ensures ok <==> && !f.link && !f.verify
                      && (files == Hard ==> Identity(old(names), user).Some? && dest !in Trail(old(names), user, {}))
      ensures ok ==> Mirrors(names, user, dest, files)
      ensures ok && files == Symbolic ==> names == old(names)[dest := Link(user)]
      ensures ok && files == Hard ==> user in old(names) && names == old(names)[dest := old(names)[user]]
      ensures ok && Identity(old(names), user).Some? ==>
                (SameFile(names, user, dest) && Identity(names, dest) == Identity(old(names), user)
                 <==> files == Hard || dest !in Trail(old(names), user, {}))
    {
      IdentityWithout(names, user, dest);
      names := names - {dest};
      ok := MakeLink(FileStore, files, user, dest, f);
      if ok && Identity(old(names), user).Some? {
        MirrorOpens(old(names), names, user, dest, files);
      }
    }

    method FreshInode() returns (i: Inode)
      ensures i !in data
    {
      i := 0;
      ghost var left := data.Keys;
      while i in data
        invariant forall k :: 0 <= k < i ==> k in data
        invariant left == set k | k in data && k >= i
        decreases left
      {
        left := left - {i};
        i := i + 1;
      }
    }
  }

  lemma {:induction false} FinalOfCreatedFrom(before: Names, after: Names, n: Name, f: Name, visited: set<Name>)
    requires f !in before && Final(before, n, visited) == f
    requires f in after && !after[f].Link? && after == before[f := after[f]]
    ensures Final(after, n, visited) == f
    decreases before.Keys - visited
  {
    if n in before && before[n].Link? && n !in visited {
      FinalOfCreatedFrom(before, after, before[n].target, f, visited + {n});
    }
  }

  lemma FinalOfCreated(before: Names, after: Names, n: Name, f: Name)
    requires f !in before && Final(before, n, {}) == f
    requires f in after && !after[f].Link? && after == before[f := after[f]]
    ensures Final(after, n, {}) == f
  {
    FinalOfCreatedFrom(before, after, n, f, {});
  }

  // ---- The arrangements that fail ---------------------------------------------------------

  /** A user's history file that is a symlink: hard-linking it never comes to rest. */
  lemma HardLinkOfLinkExample()
    ensures var user, window := Name("user", "history.jsonl"), Name("window", "history.jsonl");
            var target := Name("notes", "h");
            var linked := map[user := Link(target), target := Real(1), window := Link(target)];
            linked[window] == linked[user] && SameFile(linked, user, window)
            && Unsettled(linked, FileStore, user, window, Hard)
            && !StoreLinked(linked, FileStore, user, window, Hard)
  {
    var user, target, window := Name("user", "history.jsonl"), Name("notes", "h"), Name("window", "history.jsonl");
    var linked := map[user := Link(target), target := Real(1), window := Link(target)];
    assert Final(linked, user, {}) == Final(linked, target, {} + {user}) == target;
    assert Final(linked, window, {}) == Final(linked, target, {} + {window}) == target;
  }

  /** A user's missing history reached through the window's name: linked, current for ever, and a loop. */
  lemma StoreThroughWindowExample()
    ensures var user, window := Name("user", "history.jsonl"), Name("window", "history.jsonl");
            var before := map[user := Link(window)];
            var after := map[user := Link(window), window := Link(user)];
            && StoreLinked(after, FileStore, user, window, Symbolic)
            && !Unsettled(before, FileStore, user, window, Symbolic)
            && Leads(before, user) == Some(window) && Leads(after, user).None? && Leads(after, window).None?
  {
    var user, window := Name("user", "history.jsonl"), Name("window", "history.jsonl");
    var before := map[user := Link(window)];
    var after := map[user := Link(window), window := Link(user)];
    assert Final(before, user, {}) == Final(before, window, {} + {user}) == window;
    assert Final(after, user, {}) == Final(after, window, {} + {user}) == user by {
      assert Final(after, window, {} + {user}) == Final(after, user, {} + {user} + {window});
    }
    assert Final(after, window, {}) == Final(after, user, {} + {window}) == window by {
      assert Final(after, user, {} + {window}) == Final(after, window, {} + {window} + {user});
    }
  }

  /** A user's folder reached through the window's: relinking the window's name leaves both in a loop. */
  lemma FolderThroughWindowExample()
    ensures var user, window := Name("user", "sessions"), Name("window", "sessions");
            var target := Name("elsewhere", "d");
            var before := map[user := Link(window), window := Link(target), target := Dir];
            var after := before[window := Link(user)];
            && Prepared(before, DirStore, user, Symbolic) && Unsettled(before, DirStore, user, window, Symbolic)
            && !Prepared(after, DirStore, user, Symbolic) && !StoreLinked(after, DirStore, user, window, Symbolic)
            && Leads(after, user).None? && Leads(after, window).None?
  {
    var user, window := Name("user", "sessions"), Name("window", "sessions");
    var target := Name("elsewhere", "d");
    var before := map[user := Link(window), window := Link(target), target := Dir];
    var after := before[window := Link(user)];
    assert Final(before, user, {}) == Final(before, window, {} + {user});
    assert Final(before, window, {} + {user}) == Final(before, target, {} + {user} + {window});
    assert window in Trail(before, window, {} + {user});
    assert Final(after, user, {}) == Final(after, window, {} + {user});
    assert Final(after, window, {} + {user}) == Final(after, user, {} + {user} + {window});
    assert Final(after, window, {}) == Final(after, user, {} + {window});
    assert Final(after, user, {} + {window}) == Final(after, window, {} + {window} + {user});
  }

  /** A user's file reached through the window's link: no hard link to it can be made once that link is gone. */
  lemma HardThroughLinkExample()
    ensures var user, window := Name("user", "auth.json"), Name("window", "auth.json");
            var target := Name("elsewhere", "a");
            var before := map[user := Link(window), window := Link(target), target := Real(1)];
            && Identity(before, user) == Some(1) && ThroughLink(before, FileStore, user, window, Hard)
            && Identity(before - {window}, user).None?
  {
    var user, window := Name("user", "auth.json"), Name("window", "auth.json");
    var target := Name("elsewhere", "a");
    var before := map[user := Link(window), window := Link(target), target := Real(1)];
    assert Final(before, user, {}) == Final(before, window, {} + {user});
    assert Final(before, window, {} + {user}) == Final(before, target, {} + {user} + {window});
    assert window in Trail(before, window, {} + {user});
    IdentityWithout(before, user, window);
  }

  /** A user's sign-in that is a symlink to the window's: mirroring it leaves a loop, not a file. */
  lemma MirrorThroughWindowExample()
    ensures var user, window := Name("user", "auth.json"), Name("window", "auth.json");
            var before := map[user := Link(window), window := Real(1)];
            var after := map[user := Link(window), window := Link(user)];
            Identity(before, user) == Some(1) && Mirrors(after, user, window, Symbolic)
            && Identity(after, user).None? && Identity(after, window).None?
  {
    var user, window := Name("user", "auth.json"), Name("window", "auth.json");
    var before := map[user := Link(window), window := Real(1)];
    var after := map[user := Link(window), window := Link(user)];
    assert Final(before, user, {}) == Final(before, window, {} + {user}) == window;
    assert Final(after, user, {}) == Final(after, window, {} + {user});
    assert Final(after, window, {} + {user}) == Final(after, user, {} + {user} + {window}) == user;
    assert Final(after, window, {}) == Final(after, user, {} + {window});
    assert Final(after, user, {} + {window}) == Final(after, window, {} + {window} + {user}) == window;
  }
}
