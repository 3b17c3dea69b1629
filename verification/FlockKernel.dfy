/**
  The kernel's side of engine/filelock: open descriptors and advisory locks, and the files the locks protect, as a log
  of system calls of any number of processes. Discipline is what callers of the package keep to: a lock file is
  never removed, the guarded pair of files is written only under the exclusive lock on its lock file, and the
  exclusive lock is let go of only when the pair is not half written. A process may exit at any moment.
 */
module FlockKernel {
  import opened Wrappers

  datatype Held = Free | Shared | Exclusive

  // A descriptor number of a process. Numbers are used again after a close.
  datatype Fd = Fd(pid: nat, num: nat)

  datatype Descr = Descr(path: string, inode: nat, held: Held)

  // guard is the lock file of the pair (manifest, registry). abandoned: a writer exited between its two writes and
  // nobody has made the pair agree since.
  datatype Kernel = Kernel(
    guard: string, files: map<string, nat>, fds: map<Fd, Descr>, next: nat,
    manifest: int, registry: int, abandoned: bool)

  datatype Event =
    | Open(fd: Fd, path: string)
    | Create(fd: Fd, path: string)
    | Flock(fd: Fd, mode: Held)
    | Unflock(fd: Fd)
    | Close(fd: Fd)
    | WriteManifest(pid: nat, value: int)
    | WriteRegistry(pid: nat, value: int)
    | Exit(pid: nat)
    | Remove(path: string, pid: nat)

  function Actor(e: Event): nat {
    match e
    case Open(fd, _) => fd.pid
    case Create(fd, _) => fd.pid
    case Flock(fd, _) => fd.pid
    case Unflock(fd) => fd.pid
    case Close(fd) => fd.pid
    case WriteManifest(p, _) => p
    case WriteRegistry(p, _) => p
    case Exit(p) => p
    case Remove(_, p) => p
  }

  predicate Agrees(k: Kernel) {
    k.manifest == k.registry
  }

  // Nobody is between the two writes of the pair: the two agree, or a writer exited there.
  predicate Whole(k: Kernel) {
    Agrees(k) || k.abandoned
  }

  // flock grants a mode to a descriptor when no other descriptor of the inode holds a conflicting one.
  predicate Grantable(k: Kernel, fd: Fd, mode: Held) {
    && fd in k.fds
    && forall g :: g in k.fds && g != fd && k.fds[g].inode == k.fds[fd].inode ==>
                     k.fds[g].held == Free || (mode == Shared && k.fds[g].held == Shared)
  }

  // What the kernel lets happen.
  predicate Possible(k: Kernel, e: Event) {
    match e
    case Open(fd, p) => fd !in k.fds && p in k.files
    case Create(fd, p) => fd !in k.fds && p !in k.files
    case Flock(fd, m) => m != Free && Grantable(k, fd, m)
    case Unflock(fd) => fd in k.fds
    case Close(fd) => fd in k.fds
    case WriteManifest(_, _) => true
    case WriteRegistry(_, _) => true
    case Exit(_) => true
    case Remove(p, _) => p in k.files
  }

  // fd holds the exclusive lock on the file that is the guard now.
  predicate HoldsGuard(k: Kernel, fd: Fd) {
    fd in k.fds && k.guard in k.files && k.fds[fd].inode == k.files[k.guard] && k.fds[fd].held == Exclusive
  }

  predicate Writer(k: Kernel, pid: nat) {
    exists fd :: fd in k.fds && fd.pid == pid && HoldsGuard(k, fd)
  }

  predicate Disciplined(k: Kernel, e: Event) {
    match e
    case Flock(fd, _) => HoldsGuard(k, fd) ==> Whole(k)
    case Unflock(fd) => HoldsGuard(k, fd) ==> Whole(k)
    case Close(fd) => HoldsGuard(k, fd) ==> Whole(k)
    case WriteManifest(p, _) => Writer(k, p)
    case WriteRegistry(p, _) => Writer(k, p)
    case Remove(_, _) => false
    case _ => true
  }

  predicate Allowed(k: Kernel, e: Event) {
    Possible(k, e) && Disciplined(k, e)
  }

  function Hold(k: Kernel, fd: Fd, mode: Held): Kernel
    requires fd in k.fds
  {
    k.(fds := k.fds[fd := k.fds[fd].(held := mode)])
  }

  function Apply(k: Kernel, e: Event): Kernel
    requires Possible(k, e)
  {
    match e
    case Open(fd, p) => k.(fds := k.fds[fd := Descr(p, k.files[p], Free)])
    case Create(fd, p) => k.(files := k.files[p := k.next], next := k.next + 1,
      fds := k.fds[fd := Descr(p, k.next, Free)])
    case Flock(fd, m) => Hold(k, fd, m)
    case Unflock(fd) => Hold(k, fd, Free)
    case Close(fd) => k.(fds := k.fds - {fd})
    case WriteManifest(_, v) => k.(manifest := v, abandoned := k.abandoned && v != k.registry)
    case WriteRegistry(_, v) => k.(registry := v, abandoned := k.abandoned && k.manifest != v)
    case Exit(p) => k.(fds := map fd | fd in k.fds && fd.pid != p :: k.fds[fd],
                       abandoned := k.abandoned || (Writer(k, p) && !Agrees(k)))
    case Remove(p, _) => k.(files := k.files - {p})
  }

  // Every descriptor is on the file its path names.
  ghost predicate SoundFiles(k: Kernel) {
    && (forall p :: p in k.files ==> k.files[p] < k.next)
    && (forall p, q :: p in k.files && q in k.files && k.files[p] == k.files[q] ==> p == q)
    && (forall fd :: fd in k.fds ==> k.fds[fd].path in k.files && k.files[k.fds[fd].path] == k.fds[fd].inode)
  }

  // An exclusive holder of an inode is alone.
  ghost predicate SoundLocks(k: Kernel) {
    forall f, g :: f in k.fds && g in k.fds && f != g && k.fds[f].inode == k.fds[g].inode ==>
                     k.fds[f].held == Exclusive ==> k.fds[g].held == Free
  }

  // A pair that does not agree is being written or was abandoned.
  ghost predicate SoundPair(k: Kernel) {
    Agrees(k) || k.abandoned || exists fd :: HoldsGuard(k, fd)
  }

  ghost predicate Sound(k: Kernel) {
    SoundFiles(k) && SoundLocks(k) && SoundPair(k)
  }

  /** Per path: one exclusive holder and then no other, whatever the descriptors and the processes. */
  ghost predicate ExclusivePerPath(k: Kernel) {
    forall f, g :: f in k.fds && g in k.fds && f != g && k.fds[f].path == k.fds[g].path ==>
                     k.fds[f].held == Exclusive ==> k.fds[g].held == Free
  }

  lemma StepSoundPair(k: Kernel, e: Event)
    requires SoundFiles(k) && SoundPair(k) && Allowed(k, e)
    ensures SoundPair(Apply(k, e))
  {
    var post := Apply(k, e);
    if !Agrees(post) && !post.abandoned {
      if e.WriteManifest? || e.WriteRegistry? {
        var fd :| fd in k.fds && fd.pid == e.pid && HoldsGuard(k, fd);
        assert HoldsGuard(post, fd);
      } else {
        var fd :| HoldsGuard(k, fd);
        assert HoldsGuard(post, fd);
      }
    }
  }

  // No new file and no descriptor on another.
  ghost predicate SameFiles(k: Kernel, post: Kernel) {
    && post.files == k.files && post.next == k.next
    && forall fd :: fd in post.fds ==>
         fd in k.fds && post.fds[fd].path == k.fds[fd].path && post.fds[fd].inode == k.fds[fd].inode
  }

  lemma SameFilesSound(k: Kernel, post: Kernel)
    requires SoundFiles(k) && SameFiles(k, post)
    ensures SoundFiles(post)
  {
  }

  lemma OpenSound(k: Kernel, fd: Fd, p: string)
    requires SoundFiles(k) && p in k.files
    ensures SoundFiles(k.(fds := k.fds[fd := Descr(p, k.files[p], Free)]))
  {
  }

  lemma CreateSound(k: Kernel, p: string)
    requires SoundFiles(k) && p !in k.files
    ensures SoundFiles(k.(files := k.files[p := k.next], next := k.next + 1))
  {
  }

  lemma StepSoundFiles(k: Kernel, e: Event)
    requires SoundFiles(k) && Allowed(k, e)
    ensures SoundFiles(Apply(k, e))
  {
    assert !e.Remove?;
    hide SoundFiles, Disciplined, HoldsGuard, Whole, Grantable, Writer, Agrees;
    match e
    case Open(fd, p) => OpenSound(k, fd, p);
    case Create(fd, p) =>
      CreateSound(k, p);
      OpenSound(k.(files := k.files[p := k.next], next := k.next + 1), fd, p);
    case Flock(_, _) => SameFilesSound(k, Apply(k, e));
    case Unflock(_) => SameFilesSound(k, Apply(k, e));
    case Close(_) => SameFilesSound(k, Apply(k, e));
    case WriteManifest(_, _) => SameFilesSound(k, Apply(k, e));
    case WriteRegistry(_, _) => SameFilesSound(k, Apply(k, e));
    case Exit(_) => SameFilesSound(k, Apply(k, e));
    case Remove(_, _) =>
  }

  lemma StepSoundLocks(k: Kernel, e: Event)
    requires SoundFiles(k) && SoundLocks(k) && Allowed(k, e)
    ensures SoundLocks(Apply(k, e))
  {
    assert !e.Remove?;
    hide Disciplined, HoldsGuard, Whole, Writer, Agrees;
  }

  lemma StepSound(k: Kernel, e: Event)
    requires Sound(k) && Allowed(k, e)
    ensures Sound(Apply(k, e))
  {
    hide Apply, Allowed, SoundFiles, SoundLocks, SoundPair;
    StepSoundFiles(k, e);
    StepSoundLocks(k, e);
    StepSoundPair(k, e);
  }

  ghost predicate Legal(init: Kernel, log: seq<Event>)
    decreases |log|, 0
  {
    log == [] || (Legal(init, log[..|log| - 1]) && Allowed(Replay(init, log[..|log| - 1]), log[|log| - 1]))
  }

  ghost function Replay(init: Kernel, log: seq<Event>): Kernel
    requires Legal(init, log)
    decreases |log|, 1
  {
    if log == [] then init else Apply(Replay(init, log[..|log| - 1]), log[|log| - 1])
  }

  lemma {:induction false} LegalPrefix(init: Kernel, log: seq<Event>, k: nat)
    requires Legal(init, log) && k <= |log|
    ensures Legal(init, log[..k])
    decreases |log|
  {
    if k == |log| {
      assert log[..k] == log;
    } else {
      LegalPrefix(init, log[..|log| - 1], k);
      assert log[..|log| - 1][..k] == log[..k];
    }
  }

  // The state after the first k calls of a log.
  ghost function At(init: Kernel, log: seq<Event>, k: nat): Kernel
    requires Legal(init, log) && k <= |log|
  {
    LegalPrefix(init, log, k);
    Replay(init, log[..k])
  }

  lemma AtNext(init: Kernel, log: seq<Event>, k: nat)
    requires Legal(init, log) && k < |log|
    ensures Allowed(At(init, log, k), log[k]) && At(init, log, k + 1) == Apply(At(init, log, k), log[k])
  {
    LegalPrefix(init, log, k + 1);
    assert log[..k + 1][..k] == log[..k];
  }

  lemma Extend(init: Kernel, log: seq<Event>, e: Event)
    requires Legal(init, log) && Allowed(Replay(init, log), e)
    ensures Legal(init, log + [e]) && Replay(init, log + [e]) == Apply(Replay(init, log), e)
    ensures At(init, log + [e], |log|) == Replay(init, log) && At(init, log + [e], |log| + 1) == Replay(init, log + [e])
    ensures forall k :: 0 <= k <= |log| ==> At(init, log + [e], k) == At(init, log, k)
  {
    assert (log + [e])[..|log|] == log && (log + [e])[..|log| + 1] == log + [e] && log[..|log|] == log;
    forall k | 0 <= k <= |log|
      ensures At(init, log + [e], k) == At(init, log, k)
    {
      assert (log + [e])[..k] == log[..k];
    }
  }

  lemma AtLast(init: Kernel, log: seq<Event>)
    requires Legal(init, log)
    ensures At(init, log, |log|) == Replay(init, log)
  {
    assert log[..|log|] == log;
  }

  lemma AtLonger(init: Kernel, a: seq<Event>, b: seq<Event>, k: nat)
    requires Legal(init, a) && Legal(init, b) && a <= b && k <= |a|
    ensures At(init, b, k) == At(init, a, k)
  {
    assert a[..k] == b[..k];
  }

  lemma {:induction false} AtSound(init: Kernel, log: seq<Event>, k: nat)
    requires Legal(init, log) && Sound(init) && k <= |log|
    ensures Sound(At(init, log, k))
  {
    if k > 0 {
      AtSound(init, log, k - 1);
      AtNext(init, log, k - 1);
      StepSound(At(init, log, k - 1), log[k - 1]);
    }
  }

  /** Exclusion over all runs: at every moment of every run of disciplined processes, with exits at any time, the
      holders of one path hold one inode, and an exclusive one is alone. */
  lemma ExclusionAlways(init: Kernel, log: seq<Event>, k: nat)
    requires Legal(init, log) && Sound(init) && k <= |log|
    ensures ExclusivePerPath(At(init, log, k))
  {
    AtSound(init, log, k);
  }

  /** Why the lock file is never removed: one removal by a process that holds the lock, and two processes hold the
      exclusive lock on one path. */
  lemma RemovingTheLockFileBreaksExclusion(path: string, k: Kernel)
    requires k == Kernel(path, map[path := 0], map[Fd(1, 3) := Descr(path, 0, Exclusive)], 1, 0, 0, false)
    ensures Sound(k)
    ensures Possible(k, Remove(path, 1))
    ensures var k1 := Apply(k, Remove(path, 1));
            Possible(k1, Create(Fd(2, 3), path)) &&
            var k2 := Apply(k1, Create(Fd(2, 3), path));
            Possible(k2, Flock(Fd(2, 3), Exclusive)) && !ExclusivePerPath(Apply(k2, Flock(Fd(2, 3), Exclusive)))
  {
    assert HoldsGuard(k, Fd(1, 3));
    var k1 := Apply(k, Remove(path, 1));
    var k2 := Apply(k1, Create(Fd(2, 3), path));
    var k3 := Apply(k2, Flock(Fd(2, 3), Exclusive));
    assert Fd(1, 3) in k3.fds && Fd(2, 3) in k3.fds && Fd(1, 3) != Fd(2, 3);
  }

  // --- reads ---

  predicate SamePair(a: Kernel, b: Kernel) {
    a.manifest == b.manifest && a.registry == b.registry && a.abandoned == b.abandoned
  }

  // A descriptor of pid holds some lock on the guard.
  predicate Guarded(k: Kernel, pid: nat) {
    exists fd :: fd in k.fds && fd.pid == pid && k.fds[fd].path == k.guard && k.fds[fd].held != Free
  }

  // Nobody else writes while pid holds a lock on the guard, or while nobody has made the lock file.
  lemma QuietStep(k: Kernel, e: Event, pid: nat)
    requires Sound(k) && Allowed(k, e)
    requires (Guarded(k, pid) && Actor(e) != pid) || k.guard !in Apply(k, e).files
    ensures SamePair(k, Apply(k, e))
  {
  }

  lemma OneFileStays(k: Kernel, e: Event, p: string)
    requires Allowed(k, e) && p in k.files
    ensures p in Apply(k, e).files && Apply(k, e).files[p] == k.files[p]
  {
    assert !e.Remove?;
    hide Disciplined, Grantable, Writer, Agrees;
  }

  // The lock file is never removed.
  lemma {:induction false} LockFileStays(init: Kernel, log: seq<Event>, j: nat, k: nat, p: string)
    requires Legal(init, log) && j <= k <= |log| && p in At(init, log, j).files
    ensures p in At(init, log, k).files && At(init, log, k).files[p] == At(init, log, j).files[p]
    decreases k
  {
    if j < k {
      LockFileStays(init, log, j, k - 1, p);
      AtNext(init, log, k - 1);
      hide Legal, At;
      OneFileStays(At(init, log, k - 1), log[k - 1], p);
    }
  }

  lemma {:induction false} GuardStays(init: Kernel, log: seq<Event>, k: nat)
    requires Legal(init, log) && k <= |log|
    ensures At(init, log, k).guard == init.guard
  {
    if k > 0 {
      GuardStays(init, log, k - 1);
      AtNext(init, log, k - 1);
    }
  }

  // From call i to call j the pair does not change.
  ghost predicate Unchanging(init: Kernel, log: seq<Event>, i: nat, j: nat)
    requires Legal(init, log)
  {
    i <= j <= |log| && forall k :: i <= k <= j ==> SamePair(At(init, log, i), At(init, log, k))
  }

  lemma AbsentWhole(k: Kernel)
    requires Sound(k)
    ensures k.guard !in k.files ==> Whole(k)
  {
  }

  /** A provisional read stands when the lock file is still absent after it: until then no writer has written at all,
      so the pair did not change and nobody was in the middle of writing it. */
  lemma {:induction false} AbsentAfterRead(init: Kernel, log: seq<Event>, i: nat, j: nat)
    requires Legal(init, log) && Sound(init) && i <= j <= |log|
    requires init.guard !in At(init, log, j).files
    ensures Unchanging(init, log, i, j) && Whole(At(init, log, i))
    decreases j
  {
    hide Apply, Allowed, Sound;
    AtSound(init, log, i);
    AbsentWhole(At(init, log, i));
    GuardStays(init, log, i);
    if init.guard in At(init, log, i).files { LockFileStays(init, log, i, j, init.guard); }
    if i < j {
      if init.guard in At(init, log, j - 1).files { LockFileStays(init, log, j - 1, j, init.guard); }
      AbsentAfterRead(init, log, i, j - 1);
      AtNext(init, log, j - 1);
      AtSound(init, log, j - 1);
      GuardStays(init, log, j - 1);
      QuietStep(At(init, log, j - 1), log[j - 1], 0);
    }
  }

  /** A read under a real lock stands: while pid keeps a lock on the guard and does not write itself, nobody writes,
      and, under a shared lock, nobody was in the middle of writing. */
  lemma {:induction false} LockedRead(init: Kernel, log: seq<Event>, i: nat, j: nat, pid: nat)
    requires Legal(init, log) && Sound(init) && i <= j <= |log|
    requires forall k :: i <= k < j ==> Guarded(At(init, log, k), pid) && Actor(log[k]) != pid
    ensures Unchanging(init, log, i, j)
    decreases j
  {
    hide Apply, Allowed, Sound, At, Legal, Replay, Guarded;
    if i < j {
      LockedRead(init, log, i, j - 1, pid);
      AtNext(init, log, j - 1);
      AtSound(init, log, j - 1);
      GuardStays(init, log, j - 1);
      QuietStep(At(init, log, j - 1), log[j - 1], pid);
    }
  }

  // A process that holds a lock on the guard and is not between the two writes finds the pair whole.
  lemma GuardedWhole(k: Kernel, pid: nat)
    requires Sound(k) && Guarded(k, pid) && (Writer(k, pid) ==> Whole(k))
    ensures Whole(k)
  {
  }
}
