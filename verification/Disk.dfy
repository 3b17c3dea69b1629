/**
  The disk that engine/atomicfile runs on.

  Between any two system calls of ours any number of other programs act (Disk.Others), any system call may fail, and
  the log keeps every state passed through, so what is promised of all of them is promised of a crash at any moment.
  Names in Disk.quiet are those no other program changes.
 */
module Disks {
  import opened Wrappers
  import opened FileSystem

  // --- runs ---

  // From call n on, a run left the names ps alone as they were in was.
  ghost predicate CalmRun(init: FS, log: seq<Event>, n: nat, was: FS, ps: set<Path>) {
    && Legal(init, log) && n <= |log|
    && (forall p :: p in ps ==> p.Name?)
    && forall k: nat, p :: n <= k <= |log| && p in ps ==> Calm(was, At(init, log, k), p)
  }

  lemma CalmRunStart(init: FS, log: seq<Event>, ps: set<Path>)
    requires Legal(init, log) && WellFormed(Replay(init, log)) && forall p :: p in ps ==> p.Name?
    ensures CalmRun(init, log, |log|, Replay(init, log), ps)
  {
    assert log[..|log|] == log;
  }

  lemma CalmRunStep(init: FS, log: seq<Event>, n: nat, was: FS, ps: set<Path>, e: Event)
    requires CalmRun(init, log, n, was, ps) && WellFormed(was)
    requires WellFormed(Replay(init, log)) && Allowed(Replay(init, log), e)
    requires forall p :: p in ps ==> !Renames(e, p)
    ensures CalmRun(init, log + [e], n, was, ps)
  {
    hide Apply;
    AtExtend(init, log, e);
    assert log[..|log|] == log;
    forall k: nat, p | n <= k <= |log| + 1 && p in ps
      ensures Calm(was, At(init, log + [e], k), p)
    {
      if k <= |log| {
        assert At(init, log + [e], k) == At(init, log, k);
      } else {
        assert Calm(was, At(init, log, |log|), p);
        StepCalm(Replay(init, log), e, p);
        CalmTrans(was, Replay(init, log), Apply(Replay(init, log), e), p);
      }
    }
  }

  lemma CalmRunChain(init: FS, a: seq<Event>, b: seq<Event>, n: nat, was: FS, ps: set<Path>, qs: set<Path>)
    requires CalmRun(init, a, n, was, ps) && WellFormed(was) && a <= b
    requires CalmRun(init, b, |a|, Replay(init, a), qs)
    ensures CalmRun(init, b, n, was, ps * qs)
  {
    assert a[..|a|] == a;
    forall k: nat, p | n <= k <= |b| && p in ps * qs
      ensures Calm(was, At(init, b, k), p)
    {
      if k <= |a| {
        assert a[..k] == b[..k];
        assert Calm(was, At(init, a, k), p);
      } else {
        assert Calm(was, At(init, a, |a|), p);
        CalmTrans(was, Replay(init, a), At(init, b, k), p);
      }
    }
  }

  // The files of these temporary names are as they were.
  ghost predicate Kept(was: FS, now: FS, ts: set<Path>) {
    forall t :: t in ts ==>
                  && t in was.names && t in now.names && was.names[t] == now.names[t]
                  && was.names[t] < |was.inodes| && was.names[t] < |now.inodes|
                  && was.inodes[was.names[t]] == now.inodes[was.names[t]]
  }

  lemma KeptTrans(a: FS, b: FS, c: FS, ts: set<Path>, us: set<Path>, vs: set<Path>)
    requires Kept(a, b, us) && Kept(b, c, vs) && ts <= us && ts <= vs
    ensures Kept(a, c, ts)
  {
  }

  lemma CreateKeeps(fs: FS, t: Path, goal: Node, sync: bool, ts: set<Path>)
    requires Kept(fs, fs, ts) && Allowed(fs, Event.CreateTemp(t, goal, sync, true))
    ensures var post := Apply(fs, Event.CreateTemp(t, goal, sync, true));
            && t !in ts && Kept(fs, post, ts) && t in post.names && post.names[t] < |post.inodes|
            && post.inodes[post.names[t]] == Inode(Regular(0x180, []), goal, sync, false, false)
  {
  }

  lemma RemoveKeeps(fs: FS, t: Path, ts: set<Path>)
    requires t !in ts && Kept(fs, fs, ts) && Allowed(fs, Event.Remove(t))
    ensures Kept(fs, Apply(fs, Event.Remove(t)), ts)
  {
  }

  // From call n on, none of these temporary files was linked to a name.
  ghost predicate NoneLinked(log: seq<Event>, n: nat, ts: set<Path>) {
    n <= |log| && forall k :: n <= k < |log| && log[k].Link? ==> log[k].tmp !in ts
  }

  lemma WriteKeeps(fs: FS, t: Path, data: seq<bv8>, ts: set<Path>)
    requires WellFormed(fs) && Kept(fs, fs, ts) && t in ts && (forall u :: u in ts ==> u.Temp?)
    requires Allowed(fs, Event.Write(fs.names[t], data))
    ensures var post, i := Apply(fs, Event.Write(fs.names[t], data)), fs.inodes[fs.names[t]];
            && Kept(fs, post, ts - {t}) && post.names == fs.names && fs.names[t] < |post.inodes|
            && post.inodes[fs.names[t]] == i.(node := Regular(i.node.mode, i.node.data + data), flushed := false)
  {
  }

  // The calls that are kept count of: our creations of temporary files, and our removals that fail.
  predicate IsCounted(e: Event) {
    e.RemoveFailed? || (e.CreateTemp? && e.own)
  }

  predicate Creates(e: Event, t: Path) {
    e.CreateTemp? && e.own && e.tmp == t
  }

  // What the log counts: made are the temporary files we created, leaked those a removal of which failed.
  ghost predicate Counted(log: seq<Event>, made: set<Path>, leaked: set<Path>) {
    && (forall t :: t in made <==> exists k :: 0 <= k < |log| && Creates(log[k], t))
    && (forall t :: t in leaked <==> Event.RemoveFailed(t) in log)
  }

  lemma CountNext(log: seq<Event>, e: Event, made: set<Path>, leaked: set<Path>)
    requires Counted(log, made, leaked)
    ensures Counted(log + [e], if e.CreateTemp? && e.own then made + {e.tmp} else made,
                    if e.RemoveFailed? then leaked + {e.tmp} else leaked)
  {
    var now := log + [e];
    assert now[|log|] == e;
    forall t
      ensures (exists k :: 0 <= k < |now| && Creates(now[k], t)) <==>
              Creates(e, t) || exists k :: 0 <= k < |log| && Creates(log[k], t)
    {
      if k :| 0 <= k < |log| && Creates(log[k], t) { assert Creates(now[k], t); }
      if Creates(e, t) { assert Creates(now[|log|], t); }
    }
  }

  // Putting a temporary file at a name keeps the others.
  lemma PlaceKeeps(fs: FS, e: Event, ts: set<Path>)
    requires WellFormed(fs) && Kept(fs, fs, ts) && Allowed(fs, e) && (e.Rename? || e.Link?)
    requires forall t :: t in ts ==> t.Temp?
    ensures Kept(fs, Apply(fs, e), ts - {e.tmp})
  {
  }

  // From call n on, nothing was written to the files of these temporary names.
  ghost predicate Unwritten(log: seq<Event>, n: nat, fs: FS, ts: set<Path>) {
    forall k, t :: n <= k < |log| && log[k].Write? && t in ts && t in fs.names ==> log[k].inode != fs.names[t]
  }

  // What was put at a name keeps its content.
  ghost predicate PlacedKept(was: FS, now: FS) {
    && |was.inodes| <= |now.inodes|
    && forall i :: 0 <= i < |was.inodes| && was.inodes[i].placed ==>
      now.inodes[i].placed && now.inodes[i].node == was.inodes[i].node
  }

  lemma UnwrittenNext(log: seq<Event>, n: nat, was: FS, now: FS, ts: set<Path>, e: Event)
    requires Unwritten(log, n, was, ts) && Kept(was, now, ts)
    requires e.Write? ==> forall t :: t in ts ==> t in now.names && now.names[t] != e.inode
    ensures Unwritten(log + [e], n, was, ts)
  {
  }

  lemma PlacedTrans(a: FS, b: FS, c: FS)
    requires PlacedKept(a, b) && PlacedKept(b, c)
    ensures PlacedKept(a, c)
  {
  }

  lemma StepPlacedKept(fs: FS, e: Event)
    requires Allowed(fs, e)
    ensures PlacedKept(fs, Apply(fs, e))
  {
  }

  // Of the temporary files made, those that are still there are the ones owned.
  ghost predicate Owns(fs: FS, made: set<Path>, owned: set<Path>) {
    && made <= fs.spent && (forall t :: t in made ==> t.Temp?)
    && forall t :: t in owned <==> t in made && t in fs.names
  }

  lemma StepOwns(fs: FS, e: Event, made: set<Path>, owned: set<Path>)
    requires Owns(fs, made, owned) && Allowed(fs, e)
    ensures Owns(Apply(fs, e), made, set t | t in owned && t in Apply(fs, e).names)
  {
    forall t | t in made
      ensures t in Apply(fs, e).spent && (t in Apply(fs, e).names ==> t in fs.names)
    {
      SpentStays(fs, e, t);
    }
  }

  // A call of ours takes the temporary file away from its name.
  lemma GoneOwns(fs: FS, e: Event, made: set<Path>, owned: set<Path>)
    requires Owns(fs, made, owned) && Allowed(fs, e) && (e.Remove? || e.Rename?)
    ensures Owns(Apply(fs, e), made, owned - {e.tmp})
  {
    StepOwns(fs, e, made, owned);
    assert forall t :: t in owned ==> (t in Apply(fs, e).names <==> t != e.tmp);
    assert (set t | t in owned && t in Apply(fs, e).names) == owned - {e.tmp};
  }

  lemma CreatedOwns(fs: FS, t: Path, goal: Node, sync: bool, made: set<Path>, owned: set<Path>)
    requires Owns(fs, made, owned) && Allowed(fs, Event.CreateTemp(t, goal, sync, true))
    ensures t !in made && t !in owned && Owns(Apply(fs, Event.CreateTemp(t, goal, sync, true)), made + {t}, owned + {t})
  {
  }

  // From some number on no temporary name of the directory is in the set.
  lemma {:induction false} SerialsEnd(dir: string, ts: set<Path>) returns (n: nat)
    ensures forall k: nat :: k >= n ==> Temp(dir, k) !in ts
    decreases |ts|
  {
    if ts == {} { return 0; }
    var t :| t in ts;
    n := SerialsEnd(dir, ts - {t});
    if t.Temp? && t.serial >= n { n := t.serial + 1; }
  }

  /** The disk, its other users, and the temporary files of this process: made are all it ever made, owned those of them
      that are still there. */
  class Disk {
    const init: FS
    const quiet: set<Path>
    const noFollow: bool // the platform has a no-follow open
    const removes: bool  // no removal of a file of ours fails
    const works: bool    // no other call of ours fails
    var log: seq<Event>
    var fs: FS
    var owned: set<Path>
    ghost var made: set<Path>
    ghost var leaked: set<Path> // temporary files whose removal failed, as the log has it

    ghost predicate Valid()
      reads this
    {
      && WellFormed(init) && Legal(init, log) && fs == Replay(init, log) && WellFormed(fs)
      && Owns(fs, made, owned)
      && (forall p :: p in quiet ==> p.Name?)
      && Counted(log, made, leaked) && (removes ==> leaked == {})
    }

    // Of the temporary files we ever made, only these are still on the disk.
    ghost predicate LeavesOnly(ts: set<Path>)
      reads this
    {
      forall t :: t in made && t in fs.names ==> t in ts
    }

    // The temporary files made since are all in the directory.
    ghost predicate MadeIn(was: set<Path>, dir: string)
      reads this
    {
      forall t :: t in made - was ==> t.dir == dir
    }

    // What is owned is what is left.
    lemma OwnedIsLeft(ts: set<Path>)
      requires Valid() && owned <= ts
      ensures LeavesOnly(ts) && owned <= made && forall t :: t in owned ==> t.Temp? && t in fs.names
    {
    }

    constructor (init: FS, quiet: set<Path>, noFollow: bool, removes: bool, works: bool)
      requires WellFormed(init) && forall p :: p in quiet ==> p.Name?
      ensures Valid() && log == [] && owned == {} && made == {} && leaked == {}
      ensures this.init == init && this.quiet == quiet && this.noFollow == noFollow
      ensures this.removes == removes && this.works == works
    {
      this.init, this.quiet, this.noFollow, this.removes, this.works := init, quiet, noFollow, removes, works;
      log, fs, owned, made, leaked := [], init, {}, {}, {};
    }

    // A call other programs may make: not on our temporary files, and not on the quiet names. Only our own failed
    // removals are recorded.
    predicate Foreign(e: Event)
      reads this
      requires forall t :: t in owned ==> t in fs.names
    {
      match e
      case CreateTemp(_, _, _, own) => !own
      case Chmod(i, _) => forall t :: t in owned ==> fs.names[t] != i
      case Write(i, _) => forall t :: t in owned ==> fs.names[t] != i
      case SyncFile(i) => forall t :: t in owned ==> fs.names[t] != i
      case Rename(t, p) => t !in owned && p !in quiet
      case Link(t, p) => t !in owned && p !in quiet
      case Remove(t) => t !in owned
      case RemoveFailed(_) => false
      case SyncDir(_) => true
      case Swap(p, _, _) => p !in quiet
      case Unlink(p) => p !in quiet
    }

    // One call, by anyone.
    method Record(e: Event)
      requires Valid() && Allowed(fs, e) && !IsCounted(e)
      requires forall t :: t in owned ==> t in Apply(fs, e).names
      modifies this`log, this`fs
      ensures Valid() && log == old(log) + [e] && fs == Apply(old(fs), e)
      ensures PlacedKept(old(fs), fs)
    {
      hide Apply;
      Step(e);
      StepOwns(fs, e, made, owned);
      assert (set t | t in owned && t in Apply(fs, e).names) == owned;
      log, fs := log + [e], Apply(fs, e);
    }

    // One call of ours that takes a temporary file of ours away from its name.
    method RecordGone(e: Event)
      requires Valid() && Allowed(fs, e) && (e.Remove? || e.Rename?) && e.tmp in owned
      modifies this`log, this`fs, this`owned
      ensures Valid() && log == old(log) + [e] && fs == Apply(old(fs), e) && owned == old(owned) - {e.tmp}
      ensures PlacedKept(old(fs), fs)
    {
      hide Apply;
      Step(e);
      GoneOwns(fs, e, made, owned);
      log, fs, owned := log + [e], Apply(fs, e), owned - {e.tmp};
    }

    // What any call keeps.
    lemma Step(e: Event)
      requires Valid() && Allowed(fs, e)
      ensures Legal(init, log + [e]) && Replay(init, log + [e]) == Apply(fs, e) && WellFormed(Apply(fs, e))
      ensures PlacedKept(fs, Apply(fs, e)) && (!IsCounted(e) ==> Counted(log + [e], made, leaked))
    {
      hide Apply;
      AtExtend(init, log, e);
      StepWellFormed(fs, e);
      StepPlacedKept(fs, e);
      CountNext(log, e, made, leaked);
    }

    lemma ForeignKeeps(e: Event)
      requires Valid() && Allowed(fs, e) && Foreign(e)
      ensures Kept(fs, Apply(fs, e), owned)
    {
    }

    // The other programs make any number of calls.
    method Others()
      requires Valid()
      modifies this`log, this`fs
      ensures Valid() && old(log) <= log
      ensures CalmRun(init, log, |old(log)|, old(fs), quiet)
      ensures Kept(old(fs), fs, owned) && PlacedKept(old(fs), fs) && NoneLinked(log, |old(log)|, owned)
      ensures Unwritten(log, |old(log)|, old(fs), owned)
    {
      hide Apply;
      CalmRunStart(init, log, quiet);
      var n: int := *;
      while 0 < n
        invariant Valid() && old(log) <= log
        invariant CalmRun(init, log, |old(log)|, old(fs), quiet)
        invariant Kept(old(fs), fs, owned) && PlacedKept(old(fs), fs) && NoneLinked(log, |old(log)|, owned)
        invariant Unwritten(log, |old(log)|, old(fs), owned)
      {
        hide Legal, Replay, WellFormed, CalmRun, Kept, PlacedKept, Counted, Owns;
        var e: Event := *;
        if Allowed(fs, e) && Foreign(e) {
          ghost var mid := fs;
          ghost var before := log;
          OtherCall(|old(log)|, old(fs), e);
          UnwrittenNext(before, |old(log)|, old(fs), mid, owned, e);
          KeptTrans(old(fs), mid, fs, owned, owned, owned);
          PlacedTrans(old(fs), mid, fs);
        }
        n := n - 1;
      }
    }

    // One call of another program.
    method OtherCall(ghost n: nat, ghost was: FS, e: Event)
      requires Valid() && Allowed(fs, e) && Foreign(e) && WellFormed(was) && CalmRun(init, log, n, was, quiet)
      modifies this`log, this`fs
      ensures Valid() && log == old(log) + [e] && (e.Link? ==> e.tmp !in owned)
      ensures e.Write? ==> forall t :: t in owned ==> old(fs).names[t] != e.inode
      ensures CalmRun(init, log, n, was, quiet) && Kept(old(fs), fs, owned) && PlacedKept(old(fs), fs)
    {
      hide Apply;
      ForeignKeeps(e);
      CalmRunStep(init, log, n, was, quiet, e);
      Record(e);
    }

    // One call of ours that changes no name a caller chose.
    method RecordQuietly(ghost n: nat, ghost was: FS, e: Event)
      requires Valid() && Allowed(fs, e) && !IsCounted(e) && WellFormed(was) && CalmRun(init, log, n, was, quiet)
      requires forall p :: p in quiet ==> !Renames(e, p)
      requires forall t :: t in owned ==> t in Apply(fs, e).names
      modifies this`log, this`fs
      ensures Valid() && log == old(log) + [e] && fs == Apply(old(fs), e)
      ensures CalmRun(init, log, n, was, quiet) && PlacedKept(old(fs), fs)
    {
      hide Apply;
      CalmRunStep(init, log, n, was, quiet, e);
      Record(e);
    }

    // os.CreateTemp: a new name of our own, or a failure.
    method CreateTemp(dir: string, goal: Node, sync: bool) returns (tmp: Option<Path>)
      requires Valid() && goal.Regular?
      modifies this`log, this`fs, this`owned, this`made
      ensures Valid() && old(log) <= log
      ensures CalmRun(init, log, |old(log)|, old(fs), quiet) && PlacedKept(old(fs), fs)
      ensures Kept(old(fs), fs, old(owned))
      ensures tmp.None? ==> owned == old(owned) && made == old(made) && !works
      ensures tmp.Some? ==>
                tmp.value.Temp? && tmp.value.dir == dir && tmp.value !in old(made) && tmp.value !in old(owned)
      ensures tmp.Some? ==> owned == old(owned) + {tmp.value} && made == old(made) + {tmp.value}
      ensures tmp.Some? ==> fs.inodes[fs.names[tmp.value]] == Inode(Regular(0x180, []), goal, sync, false, false)
    {
      hide Apply, Legal, Replay, CalmRun, WellFormed, Counted, Kept;
      Others();
      var serial: int := *;
      if works { serial := FreeSerial(dir); }
      if serial < 0 || !Allowed(fs, Event.CreateTemp(Temp(dir, serial), goal, sync, true)) { return None; }
      ghost var mid := fs;
      RecordCreate(|old(log)|, old(fs), Temp(dir, serial), goal, sync);
      KeptTrans(old(fs), mid, fs, old(owned), old(owned), old(owned));
      return Some(Temp(dir, serial));
    }

    // A number no temporary file of the directory had, as os.CreateTemp looks for one.
    method FreeSerial(dir: string) returns (n: nat)
      ensures Temp(dir, n) !in fs.names && Temp(dir, n) !in fs.spent
    {
      ghost var bound := SerialsEnd(dir, fs.names.Keys + fs.spent);
      n := 0;
      while Temp(dir, n) in fs.names || Temp(dir, n) in fs.spent
        decreases bound - n
      {
        assert n < bound;
        n := n + 1;
      }
    }

    // The creation of a temporary file of ours.
    method RecordCreate(ghost n: nat, ghost was: FS, t: Path, goal: Node, sync: bool)
      requires Valid() && Allowed(fs, Event.CreateTemp(t, goal, sync, true)) && WellFormed(was)
               && CalmRun(init, log, n, was, quiet)
      modifies this`log, this`fs, this`owned, this`made
      ensures Valid() && log == old(log) + [Event.CreateTemp(t, goal, sync, true)] && t.Temp? && t !in old(made)
      ensures owned == old(owned) + {t} && made == old(made) + {t}
      ensures CalmRun(init, log, n, was, quiet) && PlacedKept(old(fs), fs) && Kept(old(fs), fs, old(owned))
      ensures fs.inodes[fs.names[t]] == Inode(Regular(0x180, []), goal, sync, false, false)
    {
      var e := Event.CreateTemp(t, goal, sync, true);
      OwnedAreKept();
      CreateKeeps(fs, t, goal, sync, owned);
      hide Apply, CalmRun, Legal, Replay, WellFormed, Counted;
      Step(e);
      CountNext(log, e, made, leaked);
      CalmRunStep(init, log, n, was, quiet, e);
      CreatedOwns(fs, t, goal, sync, made, owned);
      log, fs, owned, made := log + [e], Apply(fs, e), owned + {t}, made + {t};
    }

    lemma OwnedAreKept()
      requires Valid()
      ensures Kept(fs, fs, owned)
    {
    }

    // The record of the open temporary file t.
    function File(t: Path): Inode
      requires Valid() && t in owned
      reads this
    {
      fs.inodes[fs.names[t]]
    }

    // f.Chmod on the descriptor of t.
    method Chmod(t: Path, mode: nat) returns (ok: bool)
      requires Valid() && t in owned && !File(t).placed
      modifies this`log, this`fs
      ensures Valid() && old(log) <= log && (works ==> ok)
      ensures CalmRun(init, log, |old(log)|, old(fs), quiet) && PlacedKept(old(fs), fs)
      ensures Kept(old(fs), fs, owned - {t})
      ensures File(t) == if ok then old(File(t)).(node := Regular(mode, old(File(t)).node.data), flushed := false)
              else old(File(t))
      ensures Unwritten(log, |old(log)|, old(fs), owned)
      ensures ok ==> Event.Chmod(old(fs).names[t], mode) in log[|old(log)|..]
    {
      Others();
      ok := *;
      ok := ok || works;
      if ok {
        RecordQuietly(|old(log)|, old(fs), Event.Chmod(fs.names[t], mode));
      }
    }

    // f.Write on the descriptor of t: when it fails, any part of the data may have been written.
    method Write(t: Path, data: seq<bv8>) returns (ok: bool)
      requires Valid() && t in owned && !File(t).placed
      modifies this`log, this`fs
      ensures Valid() && old(log) <= log && (works ==> ok)
      ensures CalmRun(init, log, |old(log)|, old(fs), quiet) && PlacedKept(old(fs), fs)
      ensures Kept(old(fs), fs, owned - {t})
      ensures File(t).goal == old(File(t)).goal && File(t).sync == old(File(t)).sync && !File(t).placed
      ensures ok ==> File(t).node == Regular(old(File(t)).node.mode, old(File(t)).node.data + data)
    {
      Others();
      var n: int := *;
      if works { n := |data|; }
      ok := n == |data|;
      if 0 <= n <= |data| {
        ghost var mid := fs;
        assert ok ==> data[..n] == data;
        assert File(t) == old(File(t));
        hide Apply, Legal, Replay, CalmRun, WellFormed, Counted, Kept, Owns, PlacedKept;
        RecordWrite(|old(log)|, old(fs), t, data[..n]);
        KeptTrans(old(fs), mid, fs, owned - {t}, owned, owned - {t});
        PlacedTrans(old(fs), mid, fs);
      }
    }

    // A write of ours.
    method RecordWrite(ghost n: nat, ghost was: FS, t: Path, data: seq<bv8>)
      requires Valid() && t in owned && !File(t).placed && WellFormed(was) && CalmRun(init, log, n, was, quiet)
      modifies this`log, this`fs
      ensures Valid() && old(log) <= log && CalmRun(init, log, n, was, quiet) && PlacedKept(old(fs), fs)
      ensures Kept(old(fs), fs, owned - {t})
      ensures var i := old(File(t));
              File(t) == i.(node := Regular(i.node.mode, i.node.data + data), flushed := false)
    {
      OwnedAreKept();
      WriteKeeps(fs, t, data, owned);
      hide Apply, Legal, Replay, CalmRun, Counted, Kept, PlacedKept;
      RecordQuietly(n, was, Event.Write(fs.names[t], data));
    }

    // f.Sync on the descriptor of t.
    method SyncFile(t: Path) returns (ok: bool)
      requires Valid() && t in owned
      modifies this`log, this`fs
      ensures Valid() && old(log) <= log && (works ==> ok)
      ensures CalmRun(init, log, |old(log)|, old(fs), quiet) && PlacedKept(old(fs), fs)
      ensures Kept(old(fs), fs, owned - {t})
      ensures File(t) == if ok then old(File(t)).(flushed := true) else old(File(t))
    {
      Others();
      ok := *;
      ok := ok || works;
      if ok {
        RecordQuietly(|old(log)|, old(fs), Event.SyncFile(fs.names[t]));
      }
    }

    // os.Remove of a temporary file of ours, or of one that is gone.
    method Remove(t: Path)
      requires Valid() && t.Temp?
      modifies this`log, this`fs, this`owned, this`leaked
      ensures Valid() && old(log) <= log
      ensures CalmRun(init, log, |old(log)|, old(fs), quiet) && PlacedKept(old(fs), fs)
      ensures Kept(old(fs), fs, old(owned) - {t})
      ensures t in made ==> (t in owned <==> t in fs.names)
      ensures t in owned ==> Event.RemoveFailed(t) in log[|old(log)|..]
      ensures owned == (if t in owned then old(owned) else old(owned) - {t})
      ensures leaked == (if t in owned then old(leaked) + {t} else old(leaked))
    {
      Others();
      if t in owned {
        var ok: bool := *;
        ghost var mid := fs;
        hide Apply, Legal, Replay, CalmRun, WellFormed, Counted;
        if ok || removes {
          RecordRemoval(|old(log)|, old(fs), t);
          KeptTrans(old(fs), mid, fs, owned, old(owned), owned);
        } else {
          RecordFailure(|old(log)|, old(fs), t);
        }
      }
    }

    // A removal of ours.
    method RecordRemoval(ghost n: nat, ghost was: FS, t: Path)
      requires Valid() && t in owned && WellFormed(was) && CalmRun(init, log, n, was, quiet)
      modifies this`log, this`fs, this`owned
      ensures Valid() && log == old(log) + [Event.Remove(t)] && owned == old(owned) - {t}
      ensures CalmRun(init, log, n, was, quiet) && Kept(old(fs), fs, owned) && PlacedKept(old(fs), fs)
    {
      OwnedAreKept();
      RemoveKeeps(fs, t, owned - {t});
      hide CalmRun, Legal, Replay, Apply, Counted;
      CalmRunStep(init, log, n, was, quiet, Event.Remove(t));
      RecordGone(Event.Remove(t));
    }

    // A removal of ours that fails.
    method RecordFailure(ghost n: nat, ghost was: FS, t: Path)
      requires Valid() && !removes && t.Temp? && t in owned && WellFormed(was) && CalmRun(init, log, n, was, quiet)
      modifies this`log, this`leaked
      ensures Valid() && log == old(log) + [Event.RemoveFailed(t)] && leaked == old(leaked) + {t}
      ensures CalmRun(init, log, n, was, quiet)
    {
      CalmRunStep(init, log, n, was, quiet, Event.RemoveFailed(t));
      AtExtend(init, log, Event.RemoveFailed(t));
      CountNext(log, Event.RemoveFailed(t), made, leaked);
      log, leaked := log + [Event.RemoveFailed(t)], leaked + {t};
    }

    // SyncDir.
    method SyncDir(dir: string) returns (ok: bool)
      requires Valid()
      modifies this`log, this`fs
      ensures Valid() && old(log) <= log && (works ==> ok)
      ensures CalmRun(init, log, |old(log)|, old(fs), quiet) && PlacedKept(old(fs), fs)
      ensures Kept(old(fs), fs, owned) && NoneLinked(log, |old(log)|, owned)
      ensures ok ==> forall p: Path :: p.dir == dir ==> Bindings(fs, p) == {Bound(fs, p)}
    {
      Others();
      ok := *;
      ok := ok || works;
      if ok {
        RecordQuietly(|old(log)|, old(fs), Event.SyncDir(dir));
      }
    }

    // os.Lstat: what is at p at that moment, None for nothing; it may fail.
    method Lstat(p: Path) returns (ok: bool, node: Option<Node>)
      requires Valid()
      modifies this`log, this`fs
      ensures Valid() && old(log) <= log && (works ==> ok)
      ensures CalmRun(init, log, |old(log)|, old(fs), quiet) && PlacedKept(old(fs), fs)
      ensures Kept(old(fs), fs, owned)
      ensures node == Look(fs, p)
    {
      Others();
      ok, node := *, Look(fs, p);
      ok := ok || works;
    }

    // The no-follow open of p, the stat and the read of its descriptor. The file opened is the one at p then; what
    // happens to the name afterwards does not matter to the descriptor.
    method ReadNoFollow(p: Path) returns (ok: bool, node: Node)
      requires Valid() && p.Name?
      modifies this`log, this`fs
      ensures Valid() && old(log) <= log && (works && p in quiet && p in old(fs.names) ==> ok)
      ensures CalmRun(init, log, |old(log)|, old(fs), quiet) && PlacedKept(old(fs), fs)
      ensures Kept(old(fs), fs, owned)
      ensures ok ==> exists k: nat :: |old(log)| <= k <= |log| && Look(At(init, log, k), p) == Some(node)
    {
      Others();
      ok, node := *, Special;
      if p in quiet { CalmLooks(old(fs), log, |old(log)|, p); }
      if (ok || works) && p in fs.names {
        ok := true;
        var i := fs.names[p];
        ghost var a, mid := log, fs;
        assert mid.inodes[i].placed by { assert Some(i) in Bindings(mid, p); }
        hide Legal, WellFormed, Calm, CalmRun, Replay, At;
        Others();
        node := fs.inodes[i].node;
        ReadAt(init, a, log, |old(log)|, old(fs), p);
      } else {
        ok := false;
      }
    }

    // A quiet name that was bound still is.
    lemma CalmLooks(was: FS, log: seq<Event>, n: nat, p: Path)
      requires CalmRun(init, log, n, was, quiet) && p in quiet
      ensures Calm(was, Replay(init, log), p)
    {
      assert log[..|log|] == log;
      assert Calm(was, At(init, log, |log|), p);
    }

    lemma ReadAt(init: FS, a: seq<Event>, b: seq<Event>, n: nat, was: FS, p: Path)
      requires WellFormed(was) && CalmRun(init, a, n, was, quiet) && a <= b
               && CalmRun(init, b, |a|, Replay(init, a), quiet)
      ensures CalmRun(init, b, n, was, quiet)
      ensures At(init, b, |a|) == Replay(init, a)
    {
      CalmRunChain(init, a, b, n, was, quiet, quiet);
      assert quiet * quiet == quiet;
      assert b[..|a|] == a;
    }

    // os.Rename of a finished temporary file of ours to p.
    method Rename(t: Path, p: Path) returns (ok: bool)
      requires Valid() && t in owned && p.Name? && Complete(File(t))
      modifies this`log, this`fs, this`owned
      ensures Valid() && old(log) <= log && PlacedKept(old(fs), fs) && (works ==> ok)
      ensures !ok ==> CalmRun(init, log, |old(log)|, old(fs), quiet) && Kept(old(fs), fs, owned) && owned == old(owned)
      ensures ok ==> owned == old(owned) - {t} && Kept(old(fs), fs, owned)
      ensures ok ==> Placing(|old(log)|, old(fs), Event.Rename(t, p), old(File(t)))
    {
      var e := Event.Rename(t, p);
      Others();
      ok := *;
      ok := ok || works;
      if ok {
        MayPlace(old(fs), e, old(owned));
        ghost var mid := fs;
        hide Apply, Allowed, Legal, Replay, CalmRun, WellFormed, Counted, Owns, Kept;
        Move(|old(log)|, old(fs), e);
        PlaceKeeps(mid, e, old(owned));
        KeptTrans(old(fs), mid, fs, owned, old(owned), owned);
      }
    }

    // os.Link of a finished temporary file of ours to p. It fails when p is taken; taken says that is why.
    method Link(t: Path, p: Path) returns (ok: bool, taken: bool)
      requires Valid() && t in owned && p.Name? && Complete(File(t))
      modifies this`log, this`fs
      ensures Valid() && old(log) <= log && PlacedKept(old(fs), fs)
      ensures !ok ==> CalmRun(init, log, |old(log)|, old(fs), quiet) && Kept(old(fs), fs, owned)
      ensures !ok ==> NoneLinked(log, |old(log)|, owned)
      ensures ok ==> !taken && Kept(old(fs), fs, owned - {t})
      ensures ok ==> Placing(|old(log)|, old(fs), Event.Link(t, p), old(File(t)))
      ensures !ok ==> (taken <==> p in fs.names)
      ensures works ==> ok || taken
    {
      var e := Event.Link(t, p);
      Others();
      ok := *;
      taken := p in fs.names;
      ok := (ok || works) && !taken;
      if ok {
        MayPlace(old(fs), e, old(owned));
        ghost var mid := fs;
        hide Apply, Allowed, Legal, Replay, CalmRun, WellFormed, Counted, Owns, Kept;
        Place(|old(log)|, old(fs), e);
        PlaceKeeps(mid, e, old(owned));
        KeptTrans(old(fs), mid, fs, owned - {t}, old(owned), owned - {t});
      }
    }

    // A finished temporary file of ours may be put at a name, after others acted.
    lemma MayPlace(was: FS, e: Event, ts: set<Path>)
      requires Valid() && Kept(was, fs, ts) && (e.Rename? || e.Link?) && e.name.Name? && e.tmp in ts && e.tmp.Temp?
      requires Complete(was.inodes[was.names[e.tmp]]) && (e.Link? ==> e.name !in fs.names)
      ensures Allowed(fs, e) && Kept(fs, fs, ts)
      ensures fs.inodes[fs.names[e.tmp]] == was.inodes[was.names[e.tmp]]
    {
      hide Legal, Replay;
    }

    // The last call was ours and put the file f at a name, which was left alone until then.
    ghost predicate Placing(n: nat, was: FS, e: Event, f: Inode)
      reads this
    {
      && Valid() && n < |log| && log[|log| - 1] == e && (e.Rename? || e.Link?)
      && CalmRun(init, log[..|log| - 1], n, was, quiet)
      && var pre := Replay(init, log[..|log| - 1]);
         WellFormed(pre) && Allowed(pre, e) && fs == Apply(pre, e) && pre.inodes[pre.names[e.tmp]] == f
    }

    // A link of ours.
    method Place(ghost n: nat, ghost was: FS, e: Event)
      requires Valid() && Allowed(fs, e) && WellFormed(was) && CalmRun(init, log, n, was, quiet) && e.Link?
      modifies this`log, this`fs
      ensures Valid() && log == old(log) + [e] && fs == Apply(old(fs), e) && PlacedKept(old(fs), fs)
      ensures Placing(n, was, e, old(fs.inodes[fs.names[e.tmp]]))
    {
      OwnedStay(e);
      hide Apply;
      Record(e);
      assert log[..|log| - 1] == old(log);
    }

    // A rename of ours.
    method Move(ghost n: nat, ghost was: FS, e: Event)
      requires Valid() && Allowed(fs, e) && WellFormed(was) && CalmRun(init, log, n, was, quiet)
      requires e.Rename? && e.tmp in owned
      modifies this`log, this`fs, this`owned
      ensures Valid() && log == old(log) + [e] && fs == Apply(old(fs), e) && PlacedKept(old(fs), fs)
      ensures owned == old(owned) - {e.tmp}
      ensures Placing(n, was, e, old(fs.inodes[fs.names[e.tmp]]))
    {
      hide Apply;
      RecordGone(e);
      assert log[..|log| - 1] == old(log);
    }

    // A link takes no temporary file away from its name.
    lemma OwnedStay(e: Event)
      requires Valid() && Allowed(fs, e) && e.Link?
      ensures forall t :: t in owned ==> t in Apply(fs, e).names
    {
    }
  }

  // --- what a run does to the name it writes ---

  // The name holds the old content or the new, a crash leaves what it could leave before or the new content; only a
  // write without Sync can leave something torn.
  ghost predicate OldOrNew(was: FS, now: FS, p: Path, goal: Node, sync: bool) {
    && (Look(now, p) == Look(was, p) || Look(now, p) == Some(goal))
    && forall f :: MayFind(now, p, f) ==> MayFind(was, p, f) || f == Holds(goal) || (f == Torn && !sync)
  }

  ghost predicate OldOrNewRun(init: FS, log: seq<Event>, n: nat, was: FS, p: Path, goal: Node, sync: bool) {
    && Legal(init, log) && n <= |log|
    && forall k: nat :: n <= k <= |log| ==> OldOrNew(was, At(init, log, k), p, goal, sync)
  }

  lemma CalmIsOldOrNew(init: FS, log: seq<Event>, n: nat, was: FS, p: Path, goal: Node, sync: bool)
    requires CalmRun(init, log, n, was, {p}) && WellFormed(was)
    ensures OldOrNewRun(init, log, n, was, p, goal, sync)
  {
    forall k: nat | n <= k <= |log|
      ensures OldOrNew(was, At(init, log, k), p, goal, sync)
    {
      assert p.Name? && Calm(was, At(init, log, k), p);
      CalmFinds(was, At(init, log, k), p);
    }
  }

  lemma OldOrNewCalmRun(init: FS, a: seq<Event>, b: seq<Event>, n: nat, was: FS, p: Path, goal: Node, sync: bool)
    requires OldOrNewRun(init, a, n, was, p, goal, sync) && a <= b && WellFormed(Replay(init, a))
    requires CalmRun(init, b, |a|, Replay(init, a), {p})
    ensures OldOrNewRun(init, b, n, was, p, goal, sync)
  {
    assert a[..|a|] == a;
    forall k: nat | n <= k <= |b|
      ensures OldOrNew(was, At(init, b, k), p, goal, sync)
    {
      if k <= |a| {
        assert a[..k] == b[..k];
        assert OldOrNew(was, At(init, a, k), p, goal, sync);
      } else {
        assert OldOrNew(was, At(init, a, |a|), p, goal, sync);
        assert p.Name? && Calm(Replay(init, a), At(init, b, k), p);
        CalmFinds(Replay(init, a), At(init, b, k), p);
      }
    }
  }

  lemma PlaceOldOrNew(pre: FS, e: Event, f: Inode)
    requires WellFormed(pre) && Allowed(pre, e) && (e.Rename? || e.Link?) && f == pre.inodes[pre.names[e.tmp]]
    ensures OldOrNew(pre, Apply(pre, e), e.name, f.goal, f.sync) && Look(Apply(pre, e), e.name) == Some(f.goal)
    ensures Bound(Apply(pre, e), e.name).Some?
    ensures var i := Bound(Apply(pre, e), e.name).value;
            i < |Apply(pre, e).inodes| && Apply(pre, e).inodes[i] == f.(placed := true)
  {
    var post, p := Apply(pre, e), e.name;
    assert Bindings(post, p) == Bindings(pre, p) + {Bound(post, p)};
    forall g | MayFind(post, p, g) && !MayFind(pre, p, g)
      ensures g == Holds(f.goal) || (g == Torn && !f.sync)
    {
      if g.Holds? || g.Torn? {
        var i: nat :| Some(i) in Bindings(post, p) && i < |post.inodes|
            && (if g.Holds? then post.inodes[i].node == g.node else !post.inodes[i].flushed);
        if Some(i) in Bindings(pre, p) {
          assert false;
        }
      }
    }
  }

  lemma OldOrNewPlaced(init: FS, log: seq<Event>, n: nat, was: FS, e: Event, f: Inode)
    requires Legal(init, log) && n < |log| && log[|log| - 1] == e && (e.Rename? || e.Link?) && WellFormed(was)
    requires CalmRun(init, log[..|log| - 1], n, was, {e.name})
    requires var pre := Replay(init, log[..|log| - 1]);
             WellFormed(pre) && Allowed(pre, e) && pre.inodes[pre.names[e.tmp]] == f
    ensures OldOrNewRun(init, log, n, was, e.name, f.goal, f.sync)
  {
    hide Apply;
    var a := log[..|log| - 1];
    assert log == a + [e] && a[..|a|] == a;
    AtExtend(init, a, e);
    CalmIsOldOrNew(init, a, n, was, e.name, f.goal, f.sync);
    PlaceOldOrNew(Replay(init, a), e, f);
    assert Calm(was, At(init, a, |a|), e.name);
    CalmFinds(was, Replay(init, a), e.name);
    forall k: nat | n <= k <= |log|
      ensures OldOrNew(was, At(init, log, k), e.name, f.goal, f.sync)
    {
      if k <= |a| {
        assert At(init, log, k) == At(init, a, k);
      }
    }
  }

  lemma PlacedCalm(init: FS, log: seq<Event>, n: nat, was: FS, e: Event, ps: set<Path>)
    requires Legal(init, log) && n < |log| && log[|log| - 1] == e && (e.Rename? || e.Link?) && WellFormed(was)
    requires CalmRun(init, log[..|log| - 1], n, was, ps) && e.name !in ps
    requires WellFormed(Replay(init, log[..|log| - 1])) && Allowed(Replay(init, log[..|log| - 1]), e)
    ensures CalmRun(init, log, n, was, ps)
  {
    CalmRunStep(init, log[..|log| - 1], n, was, ps, e);
    assert log == log[..|log| - 1] + [e];
  }

  lemma CalmOnlyFinds(was: FS, now: FS, p: Path, f: Found)
    requires WellFormed(was) && WellFormed(now) && p.Name? && Calm(was, now, p) && OnlyFinds(was, p, f)
    ensures OnlyFinds(now, p, f)
  {
    CalmFinds(was, now, p);
    match Bound(now, p)
    case None => assert MayFind(now, p, Absent);
    case Some(i) =>
      assert Some(i) in Bindings(now, p);
      assert MayFind(now, p, Holds(now.inodes[i].node));
  }

  // One of two names has the old content on the medium, whatever crash comes.
  ghost predicate SafeRun(init: FS, log: seq<Event>, n: nat, p: Path, original: Node, q: Path, copy: Node) {
    && Legal(init, log) && n <= |log|
    && forall k: nat :: n <= k <= |log| ==>
      OnlyFinds(At(init, log, k), p, Holds(original)) || OnlyFinds(At(init, log, k), q, Holds(copy))
  }

  lemma CalmIsSafe(init: FS, log: seq<Event>, n: nat, was: FS, p: Path, original: Node, q: Path, copy: Node)
    requires WellFormed(init) && WellFormed(was) && CalmRun(init, log, n, was, {p})
             && OnlyFinds(was, p, Holds(original))
    ensures SafeRun(init, log, n, p, original, q, copy)
  {
    forall k: nat | n <= k <= |log|
      ensures OnlyFinds(At(init, log, k), p, Holds(original))
    {
      AtWellFormed(init, log, k);
      assert p.Name? && Calm(was, At(init, log, k), p);
      CalmOnlyFinds(was, At(init, log, k), p, Holds(original));
    }
  }

  lemma SafeByCopy(init: FS, a: seq<Event>, b: seq<Event>, n: nat, p: Path, original: Node, q: Path, copy: Node)
    requires SafeRun(init, a, n, p, original, q, copy) && a <= b && WellFormed(init) && WellFormed(Replay(init, a))
    requires CalmRun(init, b, |a|, Replay(init, a), {q}) && OnlyFinds(Replay(init, a), q, Holds(copy))
    ensures SafeRun(init, b, n, p, original, q, copy)
  {
    forall k: nat | n <= k <= |b|
      ensures OnlyFinds(At(init, b, k), p, Holds(original)) || OnlyFinds(At(init, b, k), q, Holds(copy))
    {
      if k <= |a| {
        assert a[..k] == b[..k];
        assert OnlyFinds(At(init, a, k), p, Holds(original)) || OnlyFinds(At(init, a, k), q, Holds(copy));
      } else {
        AtWellFormed(init, b, k);
        assert q.Name? && Calm(Replay(init, a), At(init, b, k), q);
        CalmOnlyFinds(Replay(init, a), At(init, b, k), q, Holds(copy));
      }
    }
  }
}
