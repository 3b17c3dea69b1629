/**
  engine/atomicfile: Stage, Replace, Create, Discard and WriteFile, with the other users of the disk acting between
  any two of their system calls.
 */
module AtomicFile {
  import opened Wrappers
  import opened FileSystem
  import opened Disks

  datatype Options = Options(perm: nat, sync: bool, backup: bool)

  datatype Error =
    | BadPerm
    | TempNotCreated
    | ModeNotSet
    | NotWritten
    | NotSynced
    | NotClosed
    | BackupUnsupported
    | AlreadyPlaced
    | NotInspected
    | IsSymlink
    | BackupUnread
    | BackupNotRegular
    | BackupNotStaged(cause: Error)
    | BackupNotPlaced(cause: Error)
    | NotRenamed
    | NotLinked(taken: bool)
    | DirNotFlushed

  datatype Result = Done | Failed(error: Error)

  // errors.Is(e, ErrDirNotFlushed).
  predicate IsDirNotFlushed(e: Error) {
    match e
    case DirNotFlushed => true
    case BackupNotStaged(c) => IsDirNotFlushed(c)
    case BackupNotPlaced(c) => IsDirNotFlushed(c)
    case _ => false
  }

  // A mode of zero asks for the private default.
  function NormalPerm(perm: nat): nat {
    if perm == 0 then 0x180 else perm
  }

  function PermBits(mode: nat): nat {
    mode % 0x200
  }

  // What a backup of a regular file holds.
  function BackupOf(n: Node): Node
    requires n.Regular?
  {
    Regular(NormalPerm(PermBits(n.mode)), n.data)
  }

  /** A backup keeps the data of the file, and its mode exactly when the file has permission bits and no other: a file
      of mode 0 is kept as a private file, and the set-ID and sticky bits are dropped. */
  lemma BackupKeepsModeIff(n: Node)
    requires n.Regular?
    ensures BackupOf(n).data == n.data
    ensures BackupOf(n).mode == n.mode <==> 0 < n.mode < 0x200
    ensures BackupOf(Regular(0, n.data)).mode == 0x180 // 0600 for 0000
    ensures BackupOf(Regular(0x9ED, n.data)).mode == 0x1ED // 0755 for 4755
  {
  }

  function Bak(p: Path): Path
    requires p.Name?
  {
    Name(p.dir, p.base + ".bak")
  }

  lemma BakDiffers(p: Path)
    requires p.Name?
    ensures Bak(p) != p
  {
    assert |Bak(p).base| == |p.base| + 4;
  }

  // Whatever is at p, it is no symlink.
  ghost predicate NoLink(fs: FS, p: Path) {
    Look(fs, p).Some? ==> !Look(fs, p).value.Symlink?
  }

  // The content of a name, when it is a regular file.
  ghost predicate WasRegular(was: FS, p: Path, o: Node) {
    o.Regular? && Look(was, p) == Some(o)
  }

  // The new content was put at the name.
  predicate Placed(r: Result) {
    r.Done? || r.error == DirNotFlushed
  }

  /** What a write of goal to p that ended in r did to the name between two moments, if no other program changes it. */
  ghost predicate Written(init: FS, s: Point, e: Point, quiet: set<Path>, p: Path, goal: Node, opts: Options, r: Result)
    requires p.Name?
  {
    && (p in quiet ==>
          // The old content or the new, for readers and after a crash at any moment; the new when it was placed.
          && OldOrNewRun(init, e.log, |s.log|, s.fs, p, goal, opts.sync)
          && (Placed(r) ==> Look(e.fs, p) == Some(goal))
          && (r.Done? && opts.sync ==> OnlyFinds(e.fs, p, Holds(goal)))
          && (!Placed(r) ==> CalmRun(init, e.log, |s.log|, s.fs, {p}))
          // A symlink is refused, and nothing else as one.
          && (!NoLink(s.fs, p) ==> !Placed(r)) && (r == Failed(IsSymlink) ==> !NoLink(s.fs, p))
          // An error that says a directory was not flushed and not the name's comes from the backup.
          && (!Placed(r) && IsDirNotFlushed(r.error) ==> opts.backup && exists o :: WasRegular(s.fs, p, o)))
    && (opts.backup && {p, Bak(p)} <= quiet ==>
          forall o :: WasRegular(s.fs, p, o) ==>
                        && (r.Done? || IsDirNotFlushed(r.error) ==> Look(e.fs, Bak(p)) == Some(BackupOf(o)))
                        // The old content is on the medium at one of the two names, at every moment.
                        && (opts.sync && OnlyFinds(s.fs, p, Holds(o)) ==>
                              SafeRun(init, e.log, |s.log|, p, o, Bak(p), BackupOf(o))))
  }

  datatype Staging = Ready(staged: Staged) | Refused(error: Error)

  // What stops a temporary file from being made ready.
  const UNSTAGED := {TempNotCreated, ModeNotSet, NotWritten, NotSynced, NotClosed}

  // Nothing was written to the file from call n on.
  ghost predicate Unfilled(log: seq<Event>, n: nat, i: nat) {
    forall k :: n <= k < |log| && log[k].Write? ==> log[k].inode != i
  }

  // From call n on, nothing was written to the file before its mode was set.
  ghost predicate ModeFirst(log: seq<Event>, n: nat, i: nat, mode: nat) {
    forall k :: n <= k < |log| && log[k].Write? && log[k].inode == i ==> Event.Chmod(i, mode) in log[n..k]
  }

  // Once the mode is set it was set before whatever comes.
  lemma ModeFirstLater(log: seq<Event>, n: nat, i: nat, mode: nat)
    requires n <= |log| && Unfilled(log, n, i) && Event.Chmod(i, mode) in log[n..]
    ensures forall later: seq<Event> :: log <= later ==> ModeFirst(later, n, i, mode)
  {
    forall later: seq<Event>, k | log <= later && n <= k < |later| && later[k].Write? && later[k].inode == i
      ensures Event.Chmod(i, mode) in later[n..k]
    {
      assert k >= |log|;
      var j :| 0 <= j < |log[n..]| && log[n..][j] == Event.Chmod(i, mode);
      assert later[n..k][j] == log[n + j];
    }
  }

  // Sets the mode, writes the data, flushes if asked, and closes: the mode first, on the open descriptor.
  method Fill(disk: Disk, tmp: Path, data: seq<bv8>, opts: Options) returns (failure: Option<Error>)
    requires disk.Valid() && tmp in disk.owned
    requires disk.File(tmp) == Inode(Regular(0x180, []), Regular(opts.perm, data), opts.sync, false, false)
    modifies disk`log, disk`fs
    ensures disk.Valid() && old(disk.log) <= disk.log && (disk.works ==> failure.None?)
    ensures CalmRun(disk.init, disk.log, |old(disk.log)|, old(disk.fs), disk.quiet) && PlacedKept(old(disk.fs), disk.fs)
    ensures Kept(old(disk.fs), disk.fs, disk.owned - {tmp})
    ensures failure.Some? ==> failure.value in {ModeNotSet, NotWritten, NotSynced, NotClosed}
    ensures failure.None? ==>
              Complete(disk.File(tmp)) && disk.File(tmp).goal == Regular(opts.perm, data)
                  && disk.File(tmp).sync == opts.sync
    // No content is in the file before it has its mode.
    ensures ModeFirst(disk.log, |old(disk.log)|, old(disk.fs.names[tmp]), opts.perm)
  {
    ghost var i := disk.fs.names[tmp];
    hide Legal, Replay, WellFormed, CalmRun, Kept, PlacedKept, Counted, Owns;
    ghost var start, rest := Point(disk.log, disk.fs), disk.owned - {tmp};
    var ok := disk.Chmod(tmp, opts.perm);
    ghost var a := disk.log;
    assert Unfilled(a, |start.log|, i);
    if !ok { return Some(ModeNotSet); }
    ModeFirstLater(a, |start.log|, i, opts.perm);
    ghost var p1 := Point(disk.log, disk.fs);
    ok := disk.Write(tmp, data);
    ghost var p2 := Point(disk.log, disk.fs);
    Join(disk.init, start, p1, p2, rest, rest, disk.quiet, disk.quiet, disk.quiet);
    if !ok { return Some(NotWritten); }
    assert [] + data == data;
    if opts.sync {
      ok := disk.SyncFile(tmp);
      Join(disk.init, start, p2, Point(disk.log, disk.fs), rest, rest, disk.quiet, disk.quiet, disk.quiet);
      if !ok { return Some(NotSynced); }
    }
    ok := *;
    if !ok && !disk.works { return Some(NotClosed); }
    return None;
  }

  // Writes data to a new temporary file in dir.
  method Stage(disk: Disk, dir: string, data: seq<bv8>, options: Options) returns (r: Staging)
    requires disk.Valid()
    modifies disk`log, disk`fs, disk`owned, disk`leaked, disk`made
    ensures disk.Valid() && old(disk.log) <= disk.log && old(disk.leaked) <= disk.leaked && old(disk.made) <= disk.made
    ensures CalmRun(disk.init, disk.log, |old(disk.log)|, old(disk.fs), disk.quiet) && PlacedKept(old(disk.fs), disk.fs)
    ensures Kept(old(disk.fs), disk.fs, old(disk.owned)) && old(disk.owned) <= disk.owned
    ensures r.Refused? ==> disk.owned <= old(disk.owned) + disk.leaked && !IsDirNotFlushed(r.error)
    ensures r.Refused? && disk.removes ==> disk.owned == old(disk.owned)
    ensures r.Refused? ==> disk.LeavesOnly(old(disk.owned) + disk.leaked)
    ensures r.Refused? && r.error == BadPerm <==> options.perm >= 0x200
    ensures r.Refused? ==> r.error == BadPerm || (!disk.works && r.error in UNSTAGED)
    ensures disk.MadeIn(old(disk.made), dir)
    ensures r.Ready? ==>
              fresh(r.staged) && r.staged.IsReady(disk, dir, options.(perm := NormalPerm(options.perm)), data)
    ensures r.Ready? ==> r.staged.tmp !in old(disk.owned) && disk.owned == old(disk.owned) + {r.staged.tmp}
  {
    assert Kept(disk.fs, disk.fs, disk.owned) && PlacedKept(disk.fs, disk.fs);
    hide CalmRun, WellFormed, Legal, Replay, Apply, Kept, PlacedKept, Counted, Owns, Disk.LeavesOnly, Staged.IsReady;
    if options.perm >= 0x200 {
      CalmRunStart(disk.init, disk.log, disk.quiet);
      disk.OwnedIsLeft(disk.owned + disk.leaked);
      return Refused(BadPerm);
    }
    r := StageNew(disk, dir, data, options.(perm := NormalPerm(options.perm)));
  }

  // The part of Stage after the look at the mode.
  method StageNew(disk: Disk, dir: string, data: seq<bv8>, opts: Options) returns (r: Staging)
    requires disk.Valid()
    modifies disk`log, disk`fs, disk`owned, disk`leaked, disk`made
    ensures disk.Valid() && old(disk.log) <= disk.log && old(disk.leaked) <= disk.leaked && old(disk.made) <= disk.made
    ensures CalmRun(disk.init, disk.log, |old(disk.log)|, old(disk.fs), disk.quiet) && PlacedKept(old(disk.fs), disk.fs)
    ensures Kept(old(disk.fs), disk.fs, old(disk.owned)) && old(disk.owned) <= disk.owned
    ensures r.Refused? ==> disk.owned <= old(disk.owned) + disk.leaked && !IsDirNotFlushed(r.error)
    ensures r.Refused? && disk.removes ==> disk.owned == old(disk.owned)
    ensures r.Refused? ==> disk.LeavesOnly(old(disk.owned) + disk.leaked) && r.error in UNSTAGED && !disk.works
    ensures disk.MadeIn(old(disk.made), dir)
    ensures r.Ready? ==> fresh(r.staged) && r.staged.IsReady(disk, dir, opts, data)
    ensures r.Ready? ==> r.staged.tmp !in old(disk.owned) && disk.owned == old(disk.owned) + {r.staged.tmp}
  {
    hide CalmRun, WellFormed, Legal, Replay, Apply, Kept, PlacedKept, Counted, Owns, Disk.LeavesOnly, Staged.IsReady;
    ghost var n, was := |disk.log|, disk.fs;
    var tmp := disk.CreateTemp(dir, Regular(opts.perm, data), opts.sync);
    if tmp.None? {
      disk.OwnedIsLeft(disk.owned + disk.leaked);
      return Refused(TempNotCreated);
    }
    ghost var a, mid := disk.log, disk.fs;
    r := StageIn(disk, dir, tmp.value, data, opts);
    KeptTrans(was, mid, disk.fs, old(disk.owned), old(disk.owned), old(disk.owned));
    PlacedTrans(was, mid, disk.fs);
    CalmRunChain(disk.init, a, disk.log, n, was, disk.quiet, disk.quiet);
    assert disk.quiet * disk.quiet == disk.quiet;
    if r.Refused? { disk.OwnedIsLeft(old(disk.owned) + disk.leaked); }
  }

  // The rest of Stage, once the temporary file is there: fills it, or discards it.
  method StageIn(disk: Disk, dir: string, tmp: Path, data: seq<bv8>, opts: Options) returns (r: Staging)
    requires disk.Valid() && tmp in disk.owned && tmp.Temp? && tmp in disk.made && tmp.dir == dir
    requires disk.File(tmp) == Inode(Regular(0x180, []), Regular(opts.perm, data), opts.sync, false, false)
    modifies disk`log, disk`fs, disk`owned, disk`leaked
    ensures disk.Valid() && old(disk.log) <= disk.log && old(disk.leaked) <= disk.leaked
    ensures CalmRun(disk.init, disk.log, |old(disk.log)|, old(disk.fs), disk.quiet) && PlacedKept(old(disk.fs), disk.fs)
    ensures Kept(old(disk.fs), disk.fs, old(disk.owned) - {tmp})
            && old(disk.owned) - {tmp} <= disk.owned <= old(disk.owned)
    ensures r.Refused? ==> (tmp in disk.owned ==> tmp in disk.leaked)
    ensures r.Refused? ==> r.error in UNSTAGED && !disk.works
    ensures r.Ready? ==> fresh(r.staged) && r.staged.IsReady(disk, dir, opts, data) && r.staged.tmp == tmp
    ensures r.Ready? ==> disk.owned == old(disk.owned)
  {
    hide CalmRun, WellFormed, Legal, Replay, Apply, Kept, Counted;
    ghost var n, was := |disk.log|, disk.fs;
    var failure := Fill(disk, tmp, data, opts);
    var s := new Staged(disk, opts, dir, tmp, data);
    if failure.None? { return Ready(s); }
    ghost var a, mid, rest := disk.log, disk.fs, old(disk.owned) - {tmp};
    s.Discard();
    KeptTrans(was, mid, disk.fs, rest, rest, rest);
    CalmRunChain(disk.init, a, disk.log, n, was, disk.quiet, disk.quiet);
    assert disk.quiet * disk.quiet == disk.quiet;
    return Refused(failure.value);
  }

  class Staged {
    const disk: Disk
    const opts: Options
    const dir: string
    const tmp: Path
    ghost const data: seq<bv8>
    var renamed: bool
    var used: bool

    ghost function Goal(): Node {
      Regular(opts.perm, data)
    }

    // A staged file that is not used yet is finished and waits at its temporary name; a renamed one has left it.
    ghost predicate Valid()
      reads this, disk
    {
      && disk.Valid() && tmp.Temp? && tmp in disk.made && tmp.dir == dir
      && (!used ==>
            && tmp in disk.owned && Complete(disk.File(tmp)) && disk.File(tmp).goal == Goal()
            && disk.File(tmp).sync == opts.sync)
      && (renamed ==> used && tmp !in disk.owned)
    }

    // A staged file as Stage returns it.
    ghost predicate IsReady(disk: Disk, dir: string, opts: Options, data: seq<bv8>)
      reads this, this.disk
    {
      && this.disk == disk && this.dir == dir && this.opts == opts && this.data == data
      && Valid() && !used && !renamed
    }

    constructor (disk: Disk, opts: Options, dir: string, tmp: Path, ghost data: seq<bv8>)
      ensures this.disk == disk && this.opts == opts && this.dir == dir && this.tmp == tmp && this.data == data
      ensures !renamed && !used
    {
      this.disk, this.opts, this.dir, this.tmp, this.data := disk, opts, dir, tmp, data;
      renamed, used := false, false;
    }

    // Removes the temporary file if it is still there.
    method Discard()
      requires disk.Valid() && tmp.Temp? && (renamed ==> tmp !in disk.owned)
      modifies disk`log, disk`fs, disk`owned, disk`leaked
      ensures disk.Valid() && old(disk.log) <= disk.log && old(disk.leaked) <= disk.leaked <= old(disk.leaked) + {tmp}
      ensures CalmRun(disk.init, disk.log, |old(disk.log)|, old(disk.fs), disk.quiet)
              && PlacedKept(old(disk.fs), disk.fs)
      ensures Kept(old(disk.fs), disk.fs, old(disk.owned) - {tmp})
      // The name is gone from the disk, or a removal of this call failed.
      ensures tmp in disk.made && tmp in disk.fs.names ==>
                Event.RemoveFailed(tmp) in disk.log[|old(disk.log)|..] && tmp in disk.leaked
      ensures tmp in disk.owned ==> tmp in disk.leaked
      ensures disk.owned - {tmp} == old(disk.owned) - {tmp} && (tmp !in old(disk.owned) ==> tmp !in disk.owned)
    {
      if renamed {
        CalmRunStart(disk.init, disk.log, disk.quiet);
        return;
      }
      disk.Remove(tmp);
    }

    method Claim() returns (ok: bool)
      modifies this`used
      ensures used && ok == !old(used)
    {
      ok := !used;
      used := true;
    }

    method FlushDir(p: Path) returns (r: Result)
      requires disk.Valid() && p.Name?
      modifies disk`log, disk`fs
      ensures disk.Valid() && old(disk.log) <= disk.log
      ensures CalmRun(disk.init, disk.log, |old(disk.log)|, old(disk.fs), disk.quiet)
              && PlacedKept(old(disk.fs), disk.fs)
      ensures Kept(old(disk.fs), disk.fs, disk.owned)
      ensures r == Done || (r == Failed(DirNotFlushed) && !disk.works)
      ensures r.Done? && opts.sync ==> Bindings(disk.fs, p) == {Bound(disk.fs, p)}
    {
      if !opts.sync {
        CalmRunStart(disk.init, disk.log, disk.quiet);
        return Done;
      }
      var ok := disk.SyncDir(p.dir);
      return if ok then Done else Failed(DirNotFlushed);
    }

    ghost function Touched(p: Path): set<Path>
      requires p.Name?
    {
      if opts.backup then {p, Bak(p)} else {p}
    }

    // Renames the finished file to p and flushes the directory: the part of Replace after the looks at the name.
    method Install(p: Path) returns (r: Result)
      requires disk.Valid() && p.Name? && tmp.Temp? && tmp in disk.made && tmp.dir == dir && used && !renamed
      requires tmp in disk.owned && Complete(disk.File(tmp)) && disk.File(tmp).goal == Goal()
               && disk.File(tmp).sync == opts.sync
      modifies this`renamed, disk`log, disk`fs, disk`owned
      ensures Valid() && old(disk.log) <= disk.log && PlacedKept(old(disk.fs), disk.fs)
      ensures Kept(old(disk.fs), disk.fs, old(disk.owned) - {tmp})
              && disk.owned == if renamed then old(disk.owned) - {tmp} else old(disk.owned)
      ensures r == Done || (!disk.works && r in {Failed(DirNotFlushed), Failed(NotRenamed)})
      ensures renamed <==> r != Failed(NotRenamed)
      ensures renamed ==> Event.Rename(tmp, p) in disk.log[|old(disk.log)|..]
      ensures CalmRun(disk.init, disk.log, |old(disk.log)|, old(disk.fs),
              if renamed then disk.quiet - {p} else disk.quiet)
      ensures p in disk.quiet ==> OldOrNewRun(disk.init, disk.log, |old(disk.log)|, old(disk.fs), p, Goal(), opts.sync)
      ensures p in disk.quiet && renamed ==> Look(disk.fs, p) == Some(Goal())
      ensures p in disk.quiet && r.Done? && opts.sync ==> OnlyFinds(disk.fs, p, Holds(Goal()))
    {
      hide Apply, Legal, Replay, CalmRun, OldOrNewRun, MayFind, WellFormed;
      ghost var n, was := |disk.log|, disk.fs;
      var ok := disk.Rename(tmp, p);
      if !ok {
        if p in disk.quiet {
          CalmFewer(disk.init, disk.log, n, was, disk.quiet, {p});
          CalmIsOldOrNew(disk.init, disk.log, n, was, p, Goal(), opts.sync);
        }
        return Failed(NotRenamed);
      }
      renamed := true;
      ghost var a := disk.log;
      r := FlushDir(p);
      InstallRun(disk.init, a, disk.log, n, was, Event.Rename(tmp, p), old(disk.File(tmp)), disk.quiet,
                 r.Done? && opts.sync);
      assert disk.log[|a| - 1] == Event.Rename(tmp, p);
    }

    // Copies the file at p to its backup name.
    method BackUp(p: Path) returns (r: Result)
      requires disk.Valid() && p.Name? && tmp in disk.owned
      modifies disk`log, disk`fs, disk`owned, disk`leaked, disk`made
      decreases 1, 0
      ensures disk.Valid() && old(disk.log) <= disk.log && old(disk.leaked) <= disk.leaked
              && PlacedKept(old(disk.fs), disk.fs)
      ensures Kept(old(disk.fs), disk.fs, old(disk.owned))
              && old(disk.owned) <= disk.owned <= old(disk.owned) + disk.leaked
      ensures old(disk.made) <= disk.made && disk.LeavesOnly(old(disk.owned) + disk.leaked)
      ensures CalmRun(disk.init, disk.log, |old(disk.log)|, old(disk.fs), disk.quiet - {Bak(p)})
      ensures disk.MadeIn(old(disk.made), dir)
      ensures r.Failed? ==> r.error != DirNotFlushed && r.error != BadPerm
      ensures p in disk.quiet && r == Failed(IsSymlink) ==> !NoLink(old(disk.fs), p)
      ensures disk.works && {p, Bak(p)} <= disk.quiet && NoLink(old(disk.fs), Bak(p)) ==>
                (exists o :: WasRegular(old(disk.fs), p, o)) ==> r.Done?
      ensures {p, Bak(p)} <= disk.quiet ==>
                forall o :: WasRegular(old(disk.fs), p, o) ==>
                            && (r.Done? || IsDirNotFlushed(r.error) ==> Look(disk.fs, Bak(p)) == Some(BackupOf(o)))
                            && (r.Done? && opts.sync ==> OnlyFinds(disk.fs, Bak(p), Holds(BackupOf(o))))
    {
      hide Apply, Legal, Replay, WellFormed, CalmRun, OldOrNewRun, SafeRun, OnlyFinds, MayFind, Kept, PlacedKept, Calm,
           Counted, Owns, Disk.LeavesOnly, Look;
      ghost var start := Point(disk.log, disk.fs);
      ghost var ts, quiet, rest := disk.owned, disk.quiet, disk.quiet - {Bak(p)};
      var ok, node := disk.ReadNoFollow(p);
      ghost var p1 := Point(disk.log, disk.fs);
      CalmFewer(disk.init, disk.log, |start.log|, start.fs, quiet, rest);
      assert CalmFrom(disk.init, start, p1, quiet);
      SeenIsBound(start.fs, p);
      if ok && p in quiet { ReadIsOld(disk.init, start, p1, quiet, p, node); }
      disk.OwnedIsLeft(ts + disk.leaked);
      if !ok { return Failed(BackupUnread); }
      if node.Symlink? { return Failed(IsSymlink); }
      if !node.Regular? { return Failed(BackupNotRegular); }
      var staging := Stage(disk, dir, node.data, opts.(perm := PermBits(node.mode), backup := false));
      ghost var p2 := Point(disk.log, disk.fs);
      Join(disk.init, start, p1, p2, ts, ts, quiet, quiet, quiet);
      if Bak(p) in quiet { StaysAt(disk.init, start, p2, quiet, Bak(p), Torn); }
      CalmFewer(disk.init, disk.log, |start.log|, start.fs, quiet, rest);
      if staging.Refused? { return Failed(BackupNotStaged(staging.error)); }
      var backup := staging.staged;
      ghost var us := disk.owned - {backup.tmp};
      r := backup.ReplaceAndDiscard(Bak(p));
      Join(disk.init, start, p2, Point(disk.log, disk.fs), ts, us, rest, rest, rest);
      disk.OwnedIsLeft(ts + disk.leaked);
      r := if r.Done? then Done else Failed(BackupNotPlaced(r.error));
    }

    // Puts the staged content at p, replacing the file that is there.
    method Replace(p: Path) returns (r: Result)
      requires Valid() && p.Name?
      modifies this`used, this`renamed, disk`log, disk`fs, disk`owned, disk`leaked, disk`made
      decreases if opts.backup then 2 else 0, 1
      // What is kept of everything else.
      ensures Valid() && old(disk.log) <= disk.log && old(disk.leaked) <= disk.leaked
              && PlacedKept(old(disk.fs), disk.fs)
      ensures Kept(old(disk.fs), disk.fs, old(disk.owned) - {tmp})
              && old(disk.owned) - {tmp} <= disk.owned <= old(disk.owned) + disk.leaked
      ensures old(disk.made) <= disk.made && disk.MadeIn(old(disk.made), dir)
      ensures CalmRun(disk.init, disk.log, |old(disk.log)|, old(disk.fs), disk.quiet - Touched(p))
      // When it places the file.
      ensures opts.backup && !disk.noFollow ==>
                r == Failed(BackupUnsupported) && disk.log == old(disk.log) && used == old(used)
      ensures !(opts.backup && !disk.noFollow) ==> used
      ensures old(used) && !(opts.backup && !disk.noFollow) ==> r == Failed(AlreadyPlaced) && disk.log == old(disk.log)
      ensures old(used) ==> renamed == old(renamed)
      ensures r != Failed(BadPerm)
      ensures !old(used) ==> (renamed <==> Placed(r))
      ensures !old(used) && renamed ==> Event.Rename(tmp, p) in disk.log[|old(disk.log)|..]
      // With no call that fails, nothing but a symlink stops it.
      ensures disk.works && !old(used) && MayWrite(disk, old(disk.fs), p, opts.backup) ==> r.Done?
      ensures disk.works && used && !old(used) && p in disk.quiet && !NoLink(old(disk.fs), p) ==> r == Failed(IsSymlink)
      // What is found at p and its backup name, now and after a crash at any moment of the call.
      ensures Written(disk.init, Point(old(disk.log), old(disk.fs)), Point(disk.log, disk.fs), disk.quiet, p, Goal(),
              opts, r)
    {
      hide Apply, Legal, Replay, WellFormed, CalmRun, OldOrNewRun, SafeRun, OnlyFinds, MayFind, Kept, PlacedKept, Calm,
           Counted, Owns, Disk.LeavesOnly, Look, Complete, Written;
      ghost var start := Point(disk.log, disk.fs);
      ghost var init, ts, quiet, rest := disk.init, disk.owned, disk.quiet,
          disk.quiet - (if opts.backup then {Bak(p)} else {});
      BakDiffers(p);
      assert quiet - Touched(p) == rest - {p};
      disk.OwnedIsLeft(ts);
      Still(init, start, quiet, ts);
      KeptFewer(start.fs, disk.fs, ts, ts - {tmp});
      NotPlaced(init, start, start, p, quiet, rest, Goal(), opts.sync);
      if opts.backup && !disk.noFollow {
        RefusedIsWritten(init, start, start, quiet, rest, p, Goal(), opts, BackupUnsupported);
        return Failed(BackupUnsupported);
      }
      var ok := Claim();
      if !ok {
        RefusedIsWritten(init, start, start, quiet, rest, p, Goal(), opts, AlreadyPlaced);
        return Failed(AlreadyPlaced);
      }
      var failure := Inspect(p);
      KeptFile(start.fs, disk.fs, ts, tmp);
      ghost var q := Point(disk.log, disk.fs);
      KeptFewer(start.fs, disk.fs, ts, ts - {tmp});
      NotPlaced(init, start, q, p, rest, rest, Goal(), opts.sync);
      if failure.Some? {
        RefusedIsWritten(init, start, q, quiet, rest, p, Goal(), opts, failure.value);
        return Failed(failure.value);
      }
      ghost var us := disk.owned - {tmp};
      r := Install(p);
      ghost var end := Point(disk.log, disk.fs);
      InstalledIsWritten(init, start, q, end, quiet, rest, p, Goal(), opts, r);
      Join(init, start, q, end, ts - {tmp}, us, rest, quiet - {p}, rest - {p});
    }

    // Replace, and then Discard.
    method ReplaceAndDiscard(p: Path) returns (r: Result)
      requires Valid() && p.Name? && !used && !renamed
      modifies this`used, this`renamed, disk`log, disk`fs, disk`owned, disk`leaked, disk`made
      decreases if opts.backup then 2 else 0, 2
      ensures disk.Valid() && old(disk.log) <= disk.log && old(disk.leaked) <= disk.leaked
              && PlacedKept(old(disk.fs), disk.fs)
      ensures Kept(old(disk.fs), disk.fs, old(disk.owned) - {tmp})
              && old(disk.owned) - {tmp} <= disk.owned <= old(disk.owned) - {tmp} + disk.leaked
      ensures old(disk.made) <= disk.made && disk.MadeIn(old(disk.made), dir)
      ensures CalmRun(disk.init, disk.log, |old(disk.log)|, old(disk.fs), disk.quiet - Touched(p))
      ensures r != Failed(BadPerm)
      ensures disk.works && MayWrite(disk, old(disk.fs), p, opts.backup) ==> r.Done?
      ensures disk.works && (opts.backup ==> disk.noFollow) ==>
                p in disk.quiet && !NoLink(old(disk.fs), p) ==> r == Failed(IsSymlink)
      ensures Written(disk.init, Point(old(disk.log), old(disk.fs)), Point(disk.log, disk.fs), disk.quiet, p, Goal(),
              opts, r)
    {
      hide Apply, Legal, Replay, WellFormed, CalmRun, OldOrNewRun, SafeRun, OnlyFinds, MayFind, Kept, PlacedKept, Calm,
           Counted, Owns, Disk.LeavesOnly, Look, Complete, Written;
      ghost var init, q, quiet, ts := disk.init, Point(disk.log, disk.fs), disk.quiet, disk.owned - {tmp};
      disk.OwnedIsLeft(disk.owned);
      Still(init, q, quiet, ts);
      r := Replace(p);
      ghost var e, rest := Point(disk.log, disk.fs), quiet - Touched(p);
      ghost var held, lost := disk.owned, disk.leaked;
      Discard();
      OwnedAfter(ts, tmp, held, disk.owned, lost, disk.leaked);
      ghost var end := Point(disk.log, disk.fs);
      Join(init, q, e, end, ts, held - {tmp}, rest, quiet, rest);
      WrittenBetween(init, q, q, e, end, quiet, p, Goal(), opts, opts, r);
    }

    // The part of Replace before the rename: refuses a symlink at p, and backs up a regular file if asked.
    method Inspect(p: Path) returns (failure: Option<Error>)
      requires disk.Valid() && p.Name? && tmp in disk.owned
      modifies disk`log, disk`fs, disk`owned, disk`leaked, disk`made
      decreases if opts.backup then 2 else 0, 0
      ensures disk.Valid() && old(disk.log) <= disk.log && old(disk.leaked) <= disk.leaked
              && PlacedKept(old(disk.fs), disk.fs)
      ensures Kept(old(disk.fs), disk.fs, old(disk.owned))
              && old(disk.owned) <= disk.owned <= old(disk.owned) + disk.leaked
      ensures old(disk.made) <= disk.made && disk.MadeIn(old(disk.made), dir)
      ensures CalmRun(disk.init, disk.log, |old(disk.log)|, old(disk.fs),
              disk.quiet - (if opts.backup then {Bak(p)} else {}))
      ensures failure.Some? ==> failure.value != DirNotFlushed && failure.value != BadPerm
      ensures failure.Some? && IsDirNotFlushed(failure.value) && p in disk.quiet ==>
                opts.backup && exists o :: WasRegular(old(disk.fs), p, o)
      ensures p in disk.quiet && !NoLink(old(disk.fs), p) ==> failure.Some?
      ensures p in disk.quiet && failure == Some(IsSymlink) ==> !NoLink(old(disk.fs), p)
      ensures disk.works && MayWrite(disk, old(disk.fs), p, opts.backup) ==> failure.None?
      ensures disk.works && p in disk.quiet && !NoLink(old(disk.fs), p) ==> failure == Some(IsSymlink)
      ensures opts.backup && {p, Bak(p)} <= disk.quiet ==>
                forall o :: WasRegular(old(disk.fs), p, o) ==>
                              && (failure.None? || IsDirNotFlushed(failure.value) ==>
                                Look(disk.fs, Bak(p)) == Some(BackupOf(o)))
                              && (failure.None? && opts.sync ==> OnlyFinds(disk.fs, Bak(p), Holds(BackupOf(o))))
    {
      hide Apply, Legal, Replay, WellFormed, CalmRun, OldOrNewRun, SafeRun, OnlyFinds, MayFind, Kept, PlacedKept, Calm,
           Counted;
      ghost var start := Point(disk.log, disk.fs);
      ghost var init, ts, quiet, rest := disk.init, disk.owned, disk.quiet,
          disk.quiet - (if opts.backup then {Bak(p)} else {});
      BakDiffers(p);
      var ok, node := disk.Lstat(p);
      ghost var q := Point(disk.log, disk.fs);
      NotPlaced(init, start, q, p, quiet, rest, Goal(), opts.sync);
      if Bak(p) in quiet { StaysAt(init, start, q, quiet, Bak(p), Torn); }
      if !ok { return Some(NotInspected); }
      if node.Some? && node.value.Symlink? { return Some(IsSymlink); }
      if opts.backup && node.Some? && node.value.Regular? {
        assert WasRegular(q.fs, p, node.value);
        var r := BackUp(p);
        Join(init, start, q, Point(disk.log, disk.fs), ts, ts, rest, rest, rest);
        assert p in quiet ==> WasRegular(start.fs, p, node.value);
        return if r.Failed? then Some(r.error) else None;
      }
      return None;
    }

    // Puts the staged content at p only if no file is there.
    method Create(p: Path) returns (r: Result)
      requires Valid() && p.Name?
      modifies this`used, disk`log, disk`fs
      ensures Valid() && used && renamed == old(renamed) && old(disk.log) <= disk.log
              && PlacedKept(old(disk.fs), disk.fs)
      ensures Kept(old(disk.fs), disk.fs, disk.owned - {tmp})
      ensures CalmRun(disk.init, disk.log, |old(disk.log)|, old(disk.fs), disk.quiet - {p})
      ensures old(used) ==> r == Failed(AlreadyPlaced) && disk.log == old(disk.log)
      ensures !old(used) ==>
                (Event.Link(tmp, p) in disk.log[|old(disk.log)|..] <==> r == Done || r == Failed(DirNotFlushed))
      ensures r.Failed? ==> r.error in {AlreadyPlaced, NotLinked(true), NotLinked(false), DirNotFlushed}
      ensures r == Failed(NotLinked(true)) ==> p in disk.fs.names
      ensures disk.works && !old(used) ==> r.Done? || r == Failed(NotLinked(true))
      ensures disk.works && !old(used) && p in disk.quiet ==> (r.Done? <==> p !in old(disk.fs.names))
      // A taken name is never replaced; a free one has the new content, now and after a crash.
      ensures p in disk.quiet && p in old(disk.fs.names) ==> r.Failed? && r.error != DirNotFlushed
      ensures p in disk.quiet && r.Failed? && r.error != DirNotFlushed ==>
                CalmRun(disk.init, disk.log, |old(disk.log)|, old(disk.fs), {p})
      ensures p in disk.quiet ==> OldOrNewRun(disk.init, disk.log, |old(disk.log)|, old(disk.fs), p, Goal(), opts.sync)
      ensures p in disk.quiet && (r.Done? || r.error == DirNotFlushed) ==> Look(disk.fs, p) == Some(Goal())
      ensures p in disk.quiet && r.Done? && opts.sync ==> OnlyFinds(disk.fs, p, Holds(Goal()))
    {
      hide Apply, Legal, Replay, WellFormed, CalmRun, OldOrNewRun, OnlyFinds, MayFind, Calm, Kept, PlacedKept, Counted;
      ghost var init, start, quiet := disk.init, Point(disk.log, disk.fs), disk.quiet;
      ghost var ts, rest := disk.owned, disk.owned - {tmp};
      Still(init, start, quiet, ts);
      KeptFewer(start.fs, disk.fs, ts, rest);
      NotPlaced(init, start, start, p, quiet, quiet, Goal(), opts.sync);
      var ok := Claim();
      if !ok { return Failed(AlreadyPlaced); }
      var taken;
      ok, taken := disk.Link(tmp, p);
      ghost var mid := disk.fs;
      if !ok {
        KeptFewer(start.fs, mid, ts, rest);
        NotPlaced(init, start, Point(disk.log, disk.fs), p, quiet, quiet, Goal(), opts.sync);
        if p in quiet { StaysBound(init, start, Point(disk.log, disk.fs), quiet, p); }
        return Failed(NotLinked(taken));
      }
      ghost var a := disk.log;
      LinkedFree(init, start, a, Event.Link(tmp, p), quiet);
      r := FlushDir(p);
      KeptFewer(mid, disk.fs, ts, rest);
      KeptTrans(start.fs, mid, disk.fs, rest, rest, rest);
      PlacedTrans(start.fs, mid, disk.fs);
      InstallRun(init, a, disk.log, |start.log|, start.fs, Event.Link(tmp, p), old(disk.File(tmp)), quiet,
                 r.Done? && opts.sync);
      assert disk.log[|a| - 1] == Event.Link(tmp, p);
    }
  }

  // A link that succeeds on a name nobody else changes finds it free from the start.
  lemma LinkedFree(init: FS, s: Point, a: seq<Event>, e: Event, ps: set<Path>)
    requires On(init, s) && e.Link? && |s.log| < |a|
    requires CalmRun(init, a[..|a| - 1], |s.log|, s.fs, ps) && Allowed(Replay(init, a[..|a| - 1]), e)
    ensures e.name in ps ==> e.name !in s.fs.names
  {
    if e.name in ps { CalmLast(init, a[..|a| - 1], |s.log|, s.fs, ps, e.name); }
  }

  // Writes data to p: stages it in the directory of p, puts it there, and removes what is left.
  method WriteFile(disk: Disk, p: Path, data: seq<bv8>, options: Options) returns (r: Result)
    requires disk.Valid() && p.Name?
    modifies disk`log, disk`fs, disk`owned, disk`leaked, disk`made
    ensures disk.Valid() && old(disk.log) <= disk.log && PlacedKept(old(disk.fs), disk.fs)
    ensures Kept(old(disk.fs), disk.fs, old(disk.owned))
    // Nothing is left behind but what could not be removed.
    ensures old(disk.owned) <= disk.owned <= old(disk.owned) + disk.leaked
    ensures disk.removes ==> disk.owned == old(disk.owned)
    ensures old(disk.made) <= disk.made && disk.LeavesOnly(old(disk.owned) + disk.leaked)
    // Its temporary files are in the directory of p.
    ensures disk.MadeIn(old(disk.made), p.dir)
    ensures CalmRun(disk.init, disk.log, |old(disk.log)|, old(disk.fs), disk.quiet - {p, Bak(p)})
    // What is found at p and its backup name, now and after a crash at any moment of the call.
    ensures Written(disk.init, Point(old(disk.log), old(disk.fs)), Point(disk.log, disk.fs), disk.quiet, p,
                    Regular(NormalPerm(options.perm), data), options, r)
    // With no call that fails, only what a caller can see stops it: a bad mode, a symlink at the name or the backup
    // name, or no no-follow open for a backup.
    ensures r == Failed(BadPerm) <==> options.perm >= 0x200
    ensures disk.works && options.perm < 0x200 && MayWrite(disk, old(disk.fs), p, options.backup) ==> r.Done?
    ensures disk.works && options.perm < 0x200 && (options.backup ==> disk.noFollow) ==>
              p in disk.quiet && !NoLink(old(disk.fs), p) ==> r == Failed(IsSymlink)
  {
    hide Apply, Legal, Replay, WellFormed, CalmRun, OldOrNewRun, OnlyFinds, MayFind, Calm, Kept, PlacedKept, SafeRun,
         Counted, Owns, Disk.LeavesOnly, Look, Written;
    ghost var init, start, quiet, ts := disk.init, Point(disk.log, disk.fs), disk.quiet, disk.owned;
    ghost var goal := Regular(NormalPerm(options.perm), data);
    BakDiffers(p);
    var staging := Stage(disk, p.dir, data, options);
    ghost var q := Point(disk.log, disk.fs);
    CalmFewer(init, q.log, |start.log|, start.fs, quiet, quiet - {p, Bak(p)});
    if p in quiet { StaysAt(init, start, q, quiet, p, Torn); }
    if Bak(p) in quiet { StaysAt(init, start, q, quiet, Bak(p), Torn); }
    if staging.Refused? {
      RefusedIsWritten(init, start, q, quiet, quiet, p, goal, options, staging.error);
      return Failed(staging.error);
    }
    var staged := staging.staged;
    ghost var us := disk.owned - {staged.tmp};
    r := staged.ReplaceAndDiscard(p);
    ghost var e := Point(disk.log, disk.fs);
    CalmFewer(init, e.log, |q.log|, q.fs, quiet - staged.Touched(p), quiet - {p, Bak(p)});
    Join(init, start, q, e, ts, us, quiet, quiet - {p, Bak(p)}, quiet - {p, Bak(p)});
    Still(init, e, quiet, {});
    disk.OwnedIsLeft(ts + disk.leaked);
    WrittenBetween(init, start, q, e, e, quiet, p, goal, options, staged.opts, r);
  }

  // Nothing at p stops a write, and nothing at its backup name when one is asked for.
  ghost predicate MayWrite(disk: Disk, fs: FS, p: Path, backup: bool)
    requires p.Name?
  {
    && p in disk.quiet && NoLink(fs, p)
    && (backup ==> disk.noFollow && Bak(p) in disk.quiet && NoLink(fs, Bak(p)))
  }

  // A write that is refused is one, when it leaves the name alone and says the truth.
  lemma RefusedIsWritten(init: FS, s: Point, q: Point, quiet: set<Path>, rest: set<Path>, p: Path, goal: Node,
          opts: Options, e: Error)
    requires WellFormed(init) && p.Name? && CalmFrom(init, s, q, rest) && rest <= quiet && (p in quiet ==> p in rest)
    requires e != DirNotFlushed && (p in quiet && e == IsSymlink ==> !NoLink(s.fs, p))
    requires p in quiet && IsDirNotFlushed(e) ==> opts.backup && exists o :: WasRegular(s.fs, p, o)
    requires opts.backup && {p, Bak(p)} <= quiet && IsDirNotFlushed(e) ==>
               forall o :: WasRegular(s.fs, p, o) ==> Look(q.fs, Bak(p)) == Some(BackupOf(o))
    ensures Written(init, s, q, quiet, p, goal, opts, Failed(e))
  {
    hide OldOrNewRun, OnlyFinds, SafeRun, Look, CalmRun, Legal, Replay, WellFormed;
    NotPlaced(init, s, q, p, rest, rest, goal, opts.sync);
  }

  // So is one that gets as far as the rename.
  lemma InstalledIsWritten(init: FS, s: Point, q: Point, e: Point, quiet: set<Path>, rest: set<Path>, p: Path,
          goal: Node, opts: Options, r: Result)
    requires WellFormed(init) && p.Name? && CalmFrom(init, s, q, rest) && rest <= quiet && (p in quiet ==> p in rest)
    requires r == Done || r in {Failed(DirNotFlushed), Failed(NotRenamed)}
    requires CalmFrom(init, q, e, if Placed(r) then quiet - {p} else quiet)
    requires p in quiet ==> NoLink(s.fs, p) && OldOrNewRun(init, e.log, |q.log|, q.fs, p, goal, opts.sync)
    requires p in quiet && Placed(r) ==> Look(e.fs, p) == Some(goal)
    requires p in quiet && r.Done? && opts.sync ==> OnlyFinds(e.fs, p, Holds(goal))
    requires opts.backup && {p, Bak(p)} <= quiet ==>
               forall o :: WasRegular(s.fs, p, o) ==>
                             && Look(q.fs, Bak(p)) == Some(BackupOf(o))
                             && (opts.sync ==> OnlyFinds(q.fs, Bak(p), Holds(BackupOf(o))))
    ensures CalmFrom(init, q, e, quiet - {p}) && Written(init, s, e, quiet, p, goal, opts, r)
  {
    hide OldOrNewRun, OnlyFinds, SafeRun, Look, CalmRun, Legal, Replay, WellFormed;
    InstallJoin(init, s, q, e, p, quiet, rest, Placed(r), goal, opts.sync);
  }

  // And one between two runs that leave the names alone.
  lemma WrittenBetween(init: FS, s: Point, q: Point, e: Point, end: Point, quiet: set<Path>, p: Path, goal: Node,
          opts: Options, used: Options, r: Result)
    requires WellFormed(init) && p.Name? && CalmFrom(init, s, q, quiet) && On(init, e) && q.log <= e.log
             && CalmFrom(init, e, end, quiet)
    requires Written(init, q, e, quiet, p, goal, used, r) && used.sync == opts.sync && used.backup == opts.backup
    ensures Written(init, s, end, quiet, p, goal, opts, r)
  {
    hide OldOrNewRun, OnlyFinds, SafeRun, Look, CalmRun, Legal, Replay, WellFormed;
    BakDiffers(p);
    WrittenThrough(init, s, q, e, end, quiet, p, goal, opts.sync, !Placed(r));
    SafeThrough(init, s, q, e, end, quiet, p);
    if p in quiet {
      assert forall o :: WasRegular(s.fs, p, o) <==> WasRegular(q.fs, p, o);
      assert NoLink(s.fs, p) <==> NoLink(q.fs, p);
    }
  }

  lemma SeenIsBound(fs: FS, p: Path)
    ensures Look(fs, p).Some? ==> p in fs.names
  {
  }

  lemma StaysBound(init: FS, s: Point, q: Point, ps: set<Path>, p: Path)
    requires CalmFrom(init, s, q, ps) && p in ps
    ensures p in q.fs.names <==> p in s.fs.names
  {
    CalmLast(init, q.log, |s.log|, s.fs, ps, p);
  }

  // A write between two runs that leave its name alone.
  lemma WrittenThrough(init: FS, s: Point, q: Point, e: Point, end: Point, ps: set<Path>, p: Path, goal: Node,
          sync: bool, calm: bool)
    requires p.Name? && CalmFrom(init, s, q, ps) && On(init, e) && q.log <= e.log && CalmFrom(init, e, end, ps)
    requires p in ps ==> OldOrNewRun(init, e.log, |q.log|, q.fs, p, goal, sync)
    requires p in ps && calm ==> CalmRun(init, e.log, |q.log|, q.fs, {p})
    ensures p in ps ==> OldOrNewRun(init, end.log, |s.log|, s.fs, p, goal, sync)
    ensures p in ps && calm ==> CalmRun(init, end.log, |s.log|, s.fs, {p})
    ensures p in ps ==> Look(end.fs, p) == Look(e.fs, p)
    ensures p in ps && OnlyFinds(e.fs, p, Holds(goal)) ==> OnlyFinds(end.fs, p, Holds(goal))
  {
    if p !in ps { return; }
    hide OldOrNewRun, OnlyFinds, MayFind;
    CalmFewer(init, q.log, |s.log|, s.fs, ps, {p});
    CalmFewer(init, end.log, |e.log|, e.fs, ps, {p});
    OldOrNewAfterCalm(init, s, q, e, p, goal, sync);
    OldOrNewCalmRun(init, e.log, end.log, |s.log|, s.fs, p, goal, sync);
    StaysAt(init, e, end, ps, p, Holds(goal));
    if calm {
      CalmRunChain(init, q.log, e.log, |s.log|, s.fs, {p}, {p});
      assert {p} * {p} == {p};
      CalmRunChain(init, e.log, end.log, |s.log|, s.fs, {p}, {p});
    }
  }

  lemma SafeThrough(init: FS, s: Point, q: Point, e: Point, end: Point, ps: set<Path>, p: Path)
    requires WellFormed(init) && p.Name? && CalmFrom(init, s, q, ps) && On(init, e) && q.log <= e.log
             && CalmFrom(init, e, end, ps)
    ensures {p, Bak(p)} <= ps ==>
              forall o: Node :: o.Regular? && OnlyFinds(s.fs, p, Holds(o))
                                && SafeRun(init, e.log, |q.log|, p, o, Bak(p), BackupOf(o)) ==>
                                  SafeRun(init, end.log, |s.log|, p, o, Bak(p), BackupOf(o))
    ensures p in ps ==> Look(q.fs, p) == Look(s.fs, p)
    ensures p in ps ==> forall o: Node :: OnlyFinds(s.fs, p, Holds(o)) ==> OnlyFinds(q.fs, p, Holds(o))
    ensures Bak(p) in ps ==> Look(end.fs, Bak(p)) == Look(e.fs, Bak(p))
  {
    hide OnlyFinds, MayFind;
    if Bak(p) in ps { StaysAt(init, e, end, ps, Bak(p), Torn); }
    if p !in ps { return; }
    StaysAt(init, s, q, ps, p, Torn);
    forall o: Node | OnlyFinds(s.fs, p, Holds(o))
      ensures OnlyFinds(q.fs, p, Holds(o))
    {
      StaysAt(init, s, q, ps, p, Holds(o));
    }
    if Bak(p) !in ps { return; }
    forall o: Node | o.Regular? && OnlyFinds(s.fs, p, Holds(o))
      && SafeRun(init, e.log, |q.log|, p, o, Bak(p), BackupOf(o))
      ensures SafeRun(init, end.log, |s.log|, p, o, Bak(p), BackupOf(o))
    {
      forall k: nat | |s.log| <= k <= |end.log|
        ensures OnlyFinds(At(init, end.log, k), p, Holds(o))
                || OnlyFinds(At(init, end.log, k), Bak(p), Holds(BackupOf(o)))
      {
        if k <= |q.log| {
          SafeAt(init, s, q, end.log, k, ps, p, o);
        } else if k <= |e.log| {
          assert e.log[..k] == end.log[..k];
          assert OnlyFinds(At(init, e.log, k), p, Holds(o))
                 || OnlyFinds(At(init, e.log, k), Bak(p), Holds(BackupOf(o)));
        } else {
          assert e.log[..|e.log|] == e.log;
          assert OnlyFinds(At(init, e.log, |e.log|), p, Holds(o))
                 || OnlyFinds(At(init, e.log, |e.log|), Bak(p), Holds(BackupOf(o)));
          if OnlyFinds(e.fs, p, Holds(o)) {
            SafeAt(init, e, end, end.log, k, ps, p, o);
          } else {
            SafeAt(init, e, end, end.log, k, ps, Bak(p), BackupOf(o));
          }
        }
      }
    }
  }

  // What only is found at a name is still only found at any moment of a run that leaves the name alone.
  lemma SafeAt(init: FS, s: Point, q: Point, log: seq<Event>, k: nat, ps: set<Path>, p: Path, o: Node)
    requires WellFormed(init) && CalmFrom(init, s, q, ps) && p in ps && Legal(init, log) && q.log <= log && k <= |q.log|
    requires |s.log| <= k && OnlyFinds(s.fs, p, Holds(o))
    ensures OnlyFinds(At(init, log, k), p, Holds(o))
  {
    hide OnlyFinds;
    assert q.log[..k] == log[..k];
    assert Calm(s.fs, At(init, q.log, k), p);
    AtWellFormed(init, q.log, k);
    CalmOnlyFinds(s.fs, At(init, q.log, k), p, Holds(o));
  }

  // A moment of a run.
  datatype Point = Point(log: seq<Event>, fs: FS)

  ghost predicate On(init: FS, q: Point) {
    Legal(init, q.log) && q.fs == Replay(init, q.log) && WellFormed(q.fs)
  }

  // The names ps were left alone from one moment to another.
  ghost predicate CalmFrom(init: FS, s: Point, q: Point, ps: set<Path>) {
    && On(init, s) && On(init, q) && s.log <= q.log
    && CalmRun(init, q.log, |s.log|, s.fs, ps)
  }

  lemma Still(init: FS, s: Point, ps: set<Path>, ts: set<Path>)
    requires On(init, s) && forall p :: p in ps ==> p.Name?
    requires forall t :: t in ts ==> t in s.fs.names
    ensures CalmFrom(init, s, s, ps) && Kept(s.fs, s.fs, ts) && PlacedKept(s.fs, s.fs)
  {
    CalmRunStart(init, s.log, ps);
  }

  lemma Join(init: FS, s: Point, q: Point, e: Point, ts: set<Path>, us: set<Path>, ps: set<Path>, qs: set<Path>,
          rs: set<Path>)
    requires CalmFrom(init, s, q, ps) && CalmFrom(init, q, e, qs) && rs <= ps && rs <= qs
    requires Kept(s.fs, q.fs, ts) && Kept(q.fs, e.fs, us) && ts <= us
    requires PlacedKept(s.fs, q.fs) && PlacedKept(q.fs, e.fs)
    ensures CalmFrom(init, s, e, rs) && Kept(s.fs, e.fs, ts) && PlacedKept(s.fs, e.fs)
  {
    CalmRunChain(init, q.log, e.log, |s.log|, s.fs, ps, qs);
    CalmFewer(init, e.log, |s.log|, s.fs, ps * qs, rs);
  }

  lemma KeptFewer(was: FS, now: FS, ts: set<Path>, us: set<Path>)
    requires Kept(was, now, ts) && us <= ts
    ensures Kept(was, now, us)
  {
  }

  lemma KeptFile(was: FS, now: FS, ts: set<Path>, t: Path)
    requires Kept(was, now, ts) && t in ts
    ensures t in was.names && t in now.names && was.names[t] < |was.inodes| && now.names[t] < |now.inodes|
    ensures now.inodes[now.names[t]] == was.inodes[was.names[t]]
  {
  }

  // The temporary files that are owned once a staged file was placed or not, and then discarded.
  lemma OwnedAfter(ts: set<Path>, tmp: Path, held: set<Path>, owned: set<Path>, lost: set<Path>, leaked: set<Path>)
    requires tmp !in ts && ts <= held <= ts + {tmp} + lost && lost <= leaked
    requires owned - {tmp} == held - {tmp} && (tmp in owned ==> tmp in leaked)
    ensures ts <= owned <= ts + leaked
  {
    forall x | x in owned
      ensures x in ts + leaked
    {
      if x != tmp { assert x in held - {tmp}; }
    }
    forall x | x in ts
      ensures x in owned
    {
      assert x in held - {tmp};
    }
  }

  lemma ReadIsOld(init: FS, s: Point, q: Point, ps: set<Path>, p: Path, node: Node)
    requires CalmFrom(init, s, q, ps) && p in ps
    requires exists k: nat :: |s.log| <= k <= |q.log| && Look(At(init, q.log, k), p) == Some(node)
    ensures Look(s.fs, p) == Some(node)
  {
    var k: nat :| |s.log| <= k <= |q.log| && Look(At(init, q.log, k), p) == Some(node);
    assert Calm(s.fs, At(init, q.log, k), p);
    CalmFinds(s.fs, At(init, q.log, k), p);
  }

  lemma StaysAt(init: FS, q: Point, e: Point, ps: set<Path>, p: Path, f: Found)
    requires CalmFrom(init, q, e, ps) && p in ps
    ensures Look(e.fs, p) == Look(q.fs, p)
    ensures OnlyFinds(q.fs, p, f) ==> OnlyFinds(e.fs, p, f)
  {
    hide OnlyFinds;
    CalmLast(init, e.log, |q.log|, q.fs, ps, p);
    CalmFinds(q.fs, e.fs, p);
    if OnlyFinds(q.fs, p, f) { CalmOnlyFinds(q.fs, e.fs, p, f); }
  }

  // As long as p was left alone it holds what it held, and a crash finds what it could find.
  lemma NotPlaced(init: FS, s: Point, q: Point, p: Path, ps: set<Path>, rs: set<Path>, goal: Node, sync: bool)
    requires WellFormed(init) && CalmFrom(init, s, q, ps) && rs <= ps && p.Name?
    ensures CalmFrom(init, s, q, rs) && CalmFrom(init, s, q, rs - {p})
    ensures p in ps ==>
              CalmRun(init, q.log, |s.log|, s.fs, {p}) && OldOrNewRun(init, q.log, |s.log|, s.fs, p, goal, sync)
    ensures p in ps ==> Look(q.fs, p) == Look(s.fs, p)
    ensures forall o: Node :: p in ps && o.Regular? && OnlyFinds(s.fs, p, Holds(o)) ==>
              SafeRun(init, q.log, |s.log|, p, o, Bak(p), BackupOf(o))
  {
    hide OldOrNewRun, OnlyFinds;
    CalmFewer(init, q.log, |s.log|, s.fs, ps, rs);
    CalmFewer(init, q.log, |s.log|, s.fs, ps, rs - {p});
    if p in ps {
      CalmFewer(init, q.log, |s.log|, s.fs, ps, {p});
      CalmIsOldOrNew(init, q.log, |s.log|, s.fs, p, goal, sync);
      CalmLast(init, q.log, |s.log|, s.fs, ps, p);
      CalmFinds(s.fs, q.fs, p);
      forall o: Node | o.Regular? && OnlyFinds(s.fs, p, Holds(o))
        ensures SafeRun(init, q.log, |s.log|, p, o, Bak(p), BackupOf(o))
      {
        CalmIsSafe(init, q.log, |s.log|, s.fs, p, o, Bak(p), BackupOf(o));
      }
    }
  }

  lemma OldOrNewAfterCalm(init: FS, s: Point, q: Point, e: Point, p: Path, goal: Node, sync: bool)
    requires CalmFrom(init, s, q, {p}) && q.log <= e.log && OldOrNewRun(init, e.log, |q.log|, q.fs, p, goal, sync)
    ensures OldOrNewRun(init, e.log, |s.log|, s.fs, p, goal, sync)
  {
    hide MayFind;
    CalmIsOldOrNew(init, q.log, |s.log|, s.fs, p, goal, sync);
    CalmLast(init, q.log, |s.log|, s.fs, {p}, p);
    CalmFinds(s.fs, q.fs, p);
    forall k: nat | |s.log| <= k <= |e.log|
      ensures OldOrNew(s.fs, At(init, e.log, k), p, goal, sync)
    {
      if k <= |q.log| {
        assert q.log[..k] == e.log[..k];
        assert OldOrNew(s.fs, At(init, q.log, k), p, goal, sync);
      } else {
        assert OldOrNew(q.fs, At(init, e.log, k), p, goal, sync);
      }
    }
  }

  // The run up to q left p alone, the run after it put the new file there or not.
  lemma InstallJoin(init: FS, s: Point, q: Point, e: Point, p: Path, quiet: set<Path>, rest: set<Path>, placed: bool,
          goal: Node, sync: bool)
    requires WellFormed(init) && CalmFrom(init, s, q, rest) && rest <= quiet && (p in quiet ==> p in rest) && p.Name?
    requires CalmFrom(init, q, e, if placed then quiet - {p} else quiet)
    requires p in quiet ==> OldOrNewRun(init, e.log, |q.log|, q.fs, p, goal, sync)
    ensures CalmFrom(init, q, e, quiet - {p})
    ensures p in quiet ==> OldOrNewRun(init, e.log, |s.log|, s.fs, p, goal, sync)
    ensures p in quiet && !placed ==> CalmRun(init, e.log, |s.log|, s.fs, {p})
    ensures p in quiet && Bak(p) in quiet ==>
              forall o: Node :: o.Regular? && OnlyFinds(s.fs, p, Holds(o)) &&
                                OnlyFinds(q.fs, Bak(p), Holds(BackupOf(o))) ==>
                                  SafeRun(init, e.log, |s.log|, p, o, Bak(p), BackupOf(o))
    ensures Bak(p) in quiet ==> Look(e.fs, Bak(p)) == Look(q.fs, Bak(p))
  {
    hide OldOrNewRun, OnlyFinds, MayFind, SafeRun;
    BakDiffers(p);
    var after := if placed then quiet - {p} else quiet;
    CalmFewer(init, e.log, |q.log|, q.fs, after, quiet - {p});
    if Bak(p) in quiet { StaysAt(init, q, e, after, Bak(p), Torn); }
    if p in quiet {
      CalmFewer(init, q.log, |s.log|, s.fs, rest, {p});
      OldOrNewAfterCalm(init, s, q, e, p, goal, sync);
      if !placed {
        CalmRunChain(init, q.log, e.log, |s.log|, s.fs, rest, quiet);
        CalmFewer(init, e.log, |s.log|, s.fs, rest * quiet, {p});
      }
      NotPlaced(init, s, q, p, rest, rest, goal, sync);
      forall o: Node | o.Regular? && OnlyFinds(s.fs, p, Holds(o)) && Bak(p) in quiet
        && OnlyFinds(q.fs, Bak(p), Holds(BackupOf(o)))
        ensures SafeRun(init, e.log, |s.log|, p, o, Bak(p), BackupOf(o))
      {
        CalmFewer(init, e.log, |q.log|, q.fs, after, {Bak(p)});
        SafeByCopy(init, q.log, e.log, |s.log|, p, o, Bak(p), BackupOf(o));
      }
    }
  }

  lemma CalmFewer(init: FS, log: seq<Event>, n: nat, was: FS, ps: set<Path>, qs: set<Path>)
    requires CalmRun(init, log, n, was, ps) && qs <= ps
    ensures CalmRun(init, log, n, was, qs)
  {
  }

  // A run that is calm up to the last call of a, which puts the file f at a name, and calm after it.
  lemma InstallRun(init: FS, a: seq<Event>, b: seq<Event>, n: nat, was: FS, e: Event, f: Inode, ps: set<Path>,
          flushed: bool)
    requires WellFormed(was) && Legal(init, a) && n < |a| && a[|a| - 1] == e && (e.Rename? || e.Link?) && e.name.Name?
    requires CalmRun(init, a[..|a| - 1], n, was, ps)
    requires var pre := Replay(init, a[..|a| - 1]);
             WellFormed(pre) && Allowed(pre, e) && pre.inodes[pre.names[e.tmp]] == f
    requires a <= b && WellFormed(Replay(init, a)) && CalmRun(init, b, |a|, Replay(init, a), ps)
    requires flushed ==> f.sync && Bindings(Replay(init, b), e.name) == {Bound(Replay(init, b), e.name)}
    ensures CalmRun(init, b, n, was, ps - {e.name})
    ensures e.name in ps ==> OldOrNewRun(init, b, n, was, e.name, f.goal, f.sync)
    ensures e.name in ps ==> Look(Replay(init, b), e.name) == Some(f.goal)
    ensures e.name in ps && flushed ==> OnlyFinds(Replay(init, b), e.name, Holds(f.goal))
  {
    hide Apply, OldOrNewRun, MayFind;
    var p := e.name;
    CalmFewer(init, a[..|a| - 1], n, was, ps, ps - {p});
    PlacedCalm(init, a, n, was, e, ps - {p});
    CalmRunChain(init, a, b, n, was, ps - {p}, ps);
    assert (ps - {p}) * ps == ps - {p};
    PlaceOldOrNew(Replay(init, a[..|a| - 1]), e, f);
    if p in ps {
      OldOrNewPlaced(init, a, n, was, e, f);
      OldOrNewCalmRun(init, a, b, n, was, p, f.goal, f.sync);
      CalmLast(init, b, |a|, Replay(init, a), ps, p);
      CalmFinds(Replay(init, a), Replay(init, b), p);
      assert Bound(Replay(init, b), p) in Bindings(Replay(init, b), p);
      if flushed { OnlyBound(Replay(init, b), p); }
    }
  }

  lemma CalmLast(init: FS, log: seq<Event>, n: nat, was: FS, ps: set<Path>, p: Path)
    requires CalmRun(init, log, n, was, ps) && p in ps
    ensures p.Name? && Calm(was, Replay(init, log), p)
  {
    assert log[..|log|] == log;
    assert Calm(was, At(init, log, |log|), p);
  }

  // A name with one flushed binding survives a crash as it is.
  lemma OnlyBound(fs: FS, p: Path)
    requires Bindings(fs, p) == {Bound(fs, p)} && Bound(fs, p).Some?
    requires var i := Bound(fs, p).value; i < |fs.inodes| && fs.inodes[i].flushed
    ensures OnlyFinds(fs, p, Holds(fs.inodes[Bound(fs, p).value].node))
  {
    assert Bound(fs, p) in Bindings(fs, p);
  }
}
