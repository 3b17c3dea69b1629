/**
  engine/filelock: the bounded advisory lock, as one process (System.me) takes it while others act between any two of
  its system calls.
 */
module FileLock {
  import opened Wrappers
  import opened FlockKernel

  const DEFAULT_WAIT := 2_000_000_000
  const POLL_INTERVAL := 5_000_000

  // The descriptors of one process.
  function Mine(k: Kernel, pid: nat): map<Fd, Descr> {
    map fd | fd in k.fds && fd.pid == pid :: k.fds[fd]
  }

  // From call n on every call is someone else's.
  ghost predicate Foreign(log: seq<Event>, n: nat, pid: nat) {
    n <= |log| && forall i :: n <= i < |log| ==> Actor(log[i]) != pid
  }

  // No lock file is removed, and none of the calls from n on created one for pid.
  ghost predicate NoneCreated(log: seq<Event>, n: nat, pid: nat) {
    n <= |log| && forall i :: n <= i < |log| && log[i].Create? ==> Actor(log[i]) != pid
  }

  // The numbers of the descriptors that pid closed, in order.
  ghost function Closes(log: seq<Event>, pid: nat): seq<int> {
    if log == [] then []
    else
      var e := log[|log| - 1];
      Closes(log[..|log| - 1], pid) + if e.Close? && e.fd.pid == pid then [e.fd.num] else []
  }

  lemma {:induction false} ClosesForeign(was: seq<Event>, log: seq<Event>, pid: nat)
    requires was <= log && Foreign(log, |was|, pid)
    ensures Closes(log, pid) == Closes(was, pid)
    decreases |log|
  {
    if |was| == |log| {
      assert was == log;
    } else {
      var n := |log| - 1;
      ClosesForeign(was, log[..n], pid);
      assert Actor(log[n]) != pid;
    }
  }

  // Others act, and then one call of pid.
  lemma ClosesNext(was: seq<Event>, log: seq<Event>, e: Event, pid: nat)
    requires was <= log && Foreign(log, |was|, pid)
    ensures Closes(log + [e], pid) == Closes(was, pid) + if e.Close? && e.fd.pid == pid then [e.fd.num] else []
  {
    ClosesForeign(was, log, pid);
    assert (log + [e])[..|log|] == log;
  }

  ghost predicate FilesStay(was: Kernel, now: Kernel) {
    forall p :: p in was.files ==> p in now.files && now.files[p] == was.files[p]
  }

  lemma StepMine(k: Kernel, e: Event, pid: nat)
    requires Allowed(k, e) && Actor(e) != pid
    ensures Mine(Apply(k, e), pid) == Mine(k, pid)
  {
  }

  lemma MineGuards(k: Kernel, l: Kernel, pid: nat)
    requires Mine(k, pid) == Mine(l, pid) && k.guard == l.guard
    ensures Guarded(k, pid) <==> Guarded(l, pid)
  {
    if Guarded(k, pid) {
      var fd :| fd in k.fds && fd.pid == pid && k.fds[fd].path == k.guard && k.fds[fd].held != Free;
      assert fd in Mine(k, pid);
    }
    if Guarded(l, pid) {
      var fd :| fd in l.fds && fd.pid == pid && l.fds[fd].path == l.guard && l.fds[fd].held != Free;
      assert fd in Mine(l, pid);
    }
  }

  // While others act, the descriptors of pid stay as they are.
  lemma {:induction false} ForeignMine(init: Kernel, log: seq<Event>, n: nat, k: nat, pid: nat)
    requires Legal(init, log) && Foreign(log, n, pid) && n <= k <= |log|
    ensures Mine(At(init, log, k), pid) == Mine(At(init, log, n), pid)
    ensures At(init, log, k).guard == At(init, log, n).guard
    decreases k
  {
    if n < k {
      ForeignMine(init, log, n, k - 1, pid);
      AtNext(init, log, k - 1);
      StepMine(At(init, log, k - 1), log[k - 1], pid);
    }
  }

  // While others act and pid holds a lock on the guard, the pair does not change.
  lemma ForeignPair(init: Kernel, log: seq<Event>, n: nat, pid: nat)
    requires Legal(init, log) && Sound(init) && Foreign(log, n, pid) && Guarded(At(init, log, n), pid)
    ensures Unchanging(init, log, n, |log|)
  {
    forall k | n <= k < |log|
      ensures Guarded(At(init, log, k), pid) && Actor(log[k]) != pid
    {
      ForeignMine(init, log, n, k, pid);
      MineGuards(At(init, log, n), At(init, log, k), pid);
    }
    LockedRead(init, log, n, |log|, pid);
  }

  predicate OwnsGuard(m: map<Fd, Descr>, guard: string) {
    exists fd :: fd in m && m[fd].path == guard && m[fd].held == Exclusive
  }

  // pid is not between the two writes of the pair, so it may let go of what it holds.
  ghost predicate MayRelease(k: Kernel, pid: nat) {
    OwnsGuard(Mine(k, pid), k.guard) ==> Whole(k)
  }

  lemma OwnerIsGuarded(k: Kernel, pid: nat)
    requires OwnsGuard(Mine(k, pid), k.guard)
    ensures Guarded(k, pid)
  {
    var m := Mine(k, pid);
    var fd :| fd in m && m[fd].path == k.guard && m[fd].held == Exclusive;
    assert fd in k.fds;
  }

  lemma HolderOwns(k: Kernel, fd: Fd)
    requires SoundFiles(k) && HoldsGuard(k, fd)
    ensures OwnsGuard(Mine(k, fd.pid), k.guard)
  {
    assert fd in Mine(k, fd.pid);
  }

  lemma SoundHasFiles(k: Kernel)
    requires Sound(k)
    ensures SoundFiles(k)
  {
  }

  lemma ReleaseStep(k: Kernel, fd: Fd, e: Event)
    requires SoundFiles(k) && fd in Mine(k, fd.pid) && (e == Unflock(fd) || e == Close(fd))
    requires MayRelease(k, fd.pid) || Mine(k, fd.pid)[fd].held == Free
    ensures Allowed(k, e) && (MayRelease(k, fd.pid) ==> MayRelease(Apply(k, e), fd.pid))
    ensures Mine(Apply(k, e), fd.pid) ==
            if e.Close? then Mine(k, fd.pid) - {fd} else Mine(k, fd.pid)[fd := Mine(k, fd.pid)[fd].(held := Free)]
  {
    if HoldsGuard(k, fd) { HolderOwns(k, fd); }
    var m, n := Mine(k, fd.pid), Mine(Apply(k, e), fd.pid);
    assert n == if e.Close? then m - {fd} else m[fd := m[fd].(held := Free)];
    if OwnsGuard(n, k.guard) {
      var g :| g in n && n[g].path == k.guard && n[g].held == Exclusive;
      assert g in m && m[g] == n[g];
    }
  }

  // A lock that is granted finds nobody else writing.
  lemma GrantStep(k: Kernel, fd: Fd, mode: Held)
    requires Sound(k) && fd in Mine(k, fd.pid) && Mine(k, fd.pid)[fd].held == Free && mode != Free
             && Grantable(k, fd, mode)
    ensures Allowed(k, Flock(fd, mode))
    ensures Mine(Apply(k, Flock(fd, mode)), fd.pid) == Mine(k, fd.pid)[fd := Mine(k, fd.pid)[fd].(held := mode)]
    ensures MayRelease(k, fd.pid) ==> MayRelease(Apply(k, Flock(fd, mode)), fd.pid)
  {
    var m, n := Mine(k, fd.pid), Mine(Apply(k, Flock(fd, mode)), fd.pid);
    assert n == m[fd := m[fd].(held := mode)];
    if OwnsGuard(n, k.guard) && !OwnsGuard(m, k.guard) {
      var g :| g in n && n[g].path == k.guard && n[g].held == Exclusive;
      assert g == fd;
      assert Whole(k);
    }
  }

  datatype Opened = Got(num: nat) | Missing | Broken
  datatype Flocked = Granted | WouldBlock | Interrupted | LockFailed
  datatype Presence = Present | Absent | Unknown

  // From some number on no descriptor number of pid is in use.
  lemma {:induction false} NumbersEnd(pid: nat, fds: set<Fd>) returns (n: nat)
    ensures forall num: nat :: num >= n ==> Fd(pid, num) !in fds
    decreases |fds|
  {
    if fds == {} { return 0; }
    var fd :| fd in fds;
    n := NumbersEnd(pid, fds - {fd});
    if fd.num >= n { n := fd.num + 1; }
  }

  // How often flock was called, found a conflicting lock, and failed.
  datatype Tally = Tally(calls: int, blocked: int, failures: int)

  // How often the clock was read, and how long it was asked to sleep each time.
  datatype ClockUse = ClockUse(looks: nat, pauses: seq<nat>)

  /** The kernel and the clock as one process meets them. */
  class System {
    const init: Kernel
    const me: nat
    const supported: bool
    const answers: bool // every stat is answered
    const works: bool   // an open fails only for want of the file, and a flock only for a conflicting lock or a signal
    var k: Kernel
    var log: seq<Event>
    var time: nat
    var interrupts: nat // how many system calls a signal will still interrupt
    // What the calls were, beside what they did: of the clock, of flock, reads of the pair, and the paths of the stats
    // that gave no answer.
    ghost var clock: ClockUse
    ghost var flocks: Tally
    ghost var pairReads: nat
    ghost var unanswered: seq<string>

    ghost predicate Valid()
      reads this
    {
      Sound(init) && Legal(init, log) && k == Replay(init, log) && Sound(k) && k.guard == init.guard
      && (answers ==> unanswered == [])
    }

    constructor (init: Kernel, me: nat, supported: bool, answers: bool, works: bool, time: nat,
                 interrupts: nat)
      requires Sound(init)
      ensures Valid() && k == init && log == [] && this.init == init && this.me == me && this.answers == answers
      ensures this.supported == supported && this.works == works
      ensures clock == ClockUse(0, []) && flocks == Tally(0, 0, 0) && pairReads == 0 && unanswered == []
    {
      this.init, this.me, this.supported, this.answers, this.works := init, me, supported, answers, works;
      k, log, this.time, this.interrupts := init, [], time, interrupts;
      clock, flocks, pairReads, unanswered := ClockUse(0, []), Tally(0, 0, 0), 0, [];
    }

    // One call, by anyone.
    method Record(e: Event)
      requires Valid() && Allowed(k, e)
      modifies this`k, this`log
      ensures Valid() && log == old(log) + [e] && k == Apply(old(k), e) && FilesStay(old(k), k)
      ensures Actor(e) != me ==> Mine(k, me) == Mine(old(k), me)
    {
      hide Sound;
      StepSound(k, e);
      if Actor(e) != me { StepMine(k, e, me); }
      assert (log + [e])[..|log|] == log;
      log, k := log + [e], Apply(k, e);
    }

    // The other processes make any number of calls.
    method Others()
      requires Valid()
      modifies this`k, this`log
      ensures Valid() && old(log) <= log && Foreign(log, |old(log)|, me)
      ensures Mine(k, me) == Mine(old(k), me) && FilesStay(old(k), k)
      ensures Guarded(old(k), me) ==> SamePair(old(k), k)
    {
      hide Apply, Sound;
      var n: int := *;
      while 0 < n
        invariant Valid() && old(log) <= log && Foreign(log, |old(log)|, me)
        invariant Mine(k, me) == Mine(old(k), me) && FilesStay(old(k), k)
      {
        var e: Event := *;
        if Allowed(k, e) && Actor(e) != me { Record(e); }
        n := n - 1;
      }
      if Guarded(old(k), me) {
        AtLast(init, old(log));
        AtLast(init, log);
        AtLonger(init, old(log), log, |old(log)|);
        ForeignPair(init, log, |old(log)|, me);
      }
    }

    // The open of a lock file, with O_CREATE or without.
    method OpenFile(path: string, create: bool) returns (r: Opened)
      requires Valid()
      modifies this`k, this`log
      ensures Valid() && old(log) <= log && FilesStay(old(k), k)
      ensures r.Got? ==> Fd(me, r.num) !in Mine(old(k), me) && path in k.files
      ensures r.Got? ==> Mine(k, me) == Mine(old(k), me)[Fd(me, r.num) := Descr(path, k.files[path], Free)]
      ensures !r.Got? ==> Mine(k, me) == Mine(old(k), me)
      ensures r.Missing? ==> !create && path !in k.files
      ensures works ==> !r.Broken? && (path in old(k.files) ==> r.Got?)
      ensures !create ==> NoneCreated(log, |old(log)|, me)
      ensures MayRelease(old(k), me) ==> MayRelease(k, me)
    {
      hide Sound, Legal, Replay;
      OthersMayRelease();
      var ok: bool := *;
      var num: int := *;
      if works {
        ok := true;
        num := FreeNumber();
      }
      if !ok || num < 0 || Fd(me, num) in k.fds { return Broken; }
      if path in k.files {
        Record(Event.Open(Fd(me, num), path));
      } else if create {
        Record(Event.Create(Fd(me, num), path));
      } else {
        return Missing;
      }
      return Got(num);
    }

    // A descriptor number that is not in use.
    method FreeNumber() returns (n: nat)
      ensures Fd(me, n) !in k.fds
    {
      ghost var bound := NumbersEnd(me, k.fds.Keys);
      n := 0;
      while Fd(me, n) in k.fds
        decreases bound - n
      {
        assert n < bound;
        n := n + 1;
      }
    }

    // One non-blocking flock on a descriptor number; -1 is the number of a closed file.
    method FlockCall(num: int, mode: Held) returns (r: Flocked)
      requires Valid() && mode != Free
      requires num >= 0 && Fd(me, num) in k.fds ==> k.fds[Fd(me, num)].held == Free
      modifies this`k, this`log, this`interrupts, this`flocks
      ensures Valid() && old(log) <= log && FilesStay(old(k), k) && NoneCreated(log, |old(log)|, me)
      ensures r.Granted? ==> num >= 0 && Fd(me, num) in Mine(old(k), me)
      ensures r.Granted? ==>
                Mine(k, me) == Mine(old(k), me)[Fd(me, num) := Mine(old(k), me)[Fd(me, num)].(held := mode)]
      ensures !r.Granted? ==> Mine(k, me) == Mine(old(k), me)
      ensures MayRelease(old(k), me) ==> MayRelease(k, me)
      ensures r.WouldBlock? ==> num >= 0 && !Grantable(k, Fd(me, num), mode)
      ensures interrupts == if r.Interrupted? then old(interrupts) - 1 else old(interrupts)
      ensures works && num >= 0 && Fd(me, num) in Mine(old(k), me) ==> !r.LockFailed?
      ensures var was := old(flocks);
              flocks == Tally(was.calls + 1, was.blocked + (if r.WouldBlock? then 1 else 0),
                              was.failures + if r.LockFailed? then 1 else 0)
    {
      hide Sound, SoundFiles, SoundLocks, SoundPair, Legal, Replay, Apply, Allowed, Grantable;
      assert forall fd :: fd in Mine(k, me) <==> fd in k.fds && fd.pid == me;
      OthersMayRelease();
      assert forall fd :: fd in Mine(k, me) <==> fd in k.fds && fd.pid == me;
      flocks := flocks.(calls := flocks.calls + 1);
      if num < 0 || Fd(me, num) !in k.fds {
        flocks := flocks.(failures := flocks.failures + 1);
        return LockFailed;
      }
      var interrupted: bool, failed: bool := *, *;
      if interrupts > 0 && interrupted {
        interrupts := interrupts - 1;
        return Interrupted;
      }
      if failed && !works {
        flocks := flocks.(failures := flocks.failures + 1);
        return LockFailed;
      }
      if !Grantable(k, Fd(me, num), mode) {
        flocks := flocks.(blocked := flocks.blocked + 1);
        return WouldBlock;
      }
      GrantStep(k, Fd(me, num), mode);
      Record(Event.Flock(Fd(me, num), mode));
      return Granted;
    }

    // The other processes act; a process that may release still may.
    method OthersMayRelease()
      requires Valid()
      modifies this`k, this`log
      ensures Valid() && old(log) <= log && Foreign(log, |old(log)|, me)
      ensures Mine(k, me) == Mine(old(k), me) && FilesStay(old(k), k)
      ensures MayRelease(old(k), me) ==> MayRelease(k, me)
    {
      hide Sound, Legal, Replay, Mine;
      if OwnsGuard(Mine(k, me), k.guard) { OwnerIsGuarded(k, me); }
      Others();
    }

    // LOCK_UN on a descriptor number; it does nothing on -1.
    method UnflockCall(num: int)
      requires Valid() && (num >= 0 ==> Fd(me, num) in Mine(k, me) && MayRelease(k, me))
      modifies this`k, this`log
      ensures Valid() && old(log) <= log && FilesStay(old(k), k)
      ensures MayRelease(old(k), me) ==> MayRelease(k, me)
      ensures NoneCreated(log, |old(log)|, me) && Closes(log, me) == Closes(old(log), me)
      ensures num < 0 ==> Foreign(log, |old(log)|, me) && Mine(k, me) == Mine(old(k), me)
      ensures num >= 0 ==> Mine(k, me) == Mine(old(k), me)[Fd(me, num) := Mine(old(k), me)[Fd(me, num)].(held := Free)]
    {
      hide Sound, SoundFiles, Legal, Replay, Apply, Allowed, MayRelease, Mine, Closes;
      OthersMayRelease();
      if num >= 0 {
        SoundHasFiles(k);
        ghost var before := log;
        ReleaseStep(k, Fd(me, num), Event.Unflock(Fd(me, num)));
        Record(Event.Unflock(Fd(me, num)));
        ClosesNext(old(log), before, Event.Unflock(Fd(me, num)), me);
      } else {
        ClosesForeign(old(log), log, me);
      }
    }

    // close on a descriptor number; it does nothing on -1.
    method CloseCall(num: int)
      requires Valid() && (num >= 0 ==> Fd(me, num) in Mine(k, me) && Mine(k, me)[Fd(me, num)].held == Free)
      modifies this`k, this`log
      ensures Valid() && old(log) <= log && FilesStay(old(k), k)
      ensures MayRelease(old(k), me) ==> MayRelease(k, me)
      ensures NoneCreated(log, |old(log)|, me)
      ensures num < 0 ==> Foreign(log, |old(log)|, me) && Mine(k, me) == Mine(old(k), me)
      ensures num >= 0 ==> Mine(k, me) == Mine(old(k), me) - {Fd(me, num)}
      ensures Closes(log, me) == Closes(old(log), me) + if num >= 0 then [num] else []
    {
      hide Sound, SoundFiles, Legal, Replay, Apply, Allowed, MayRelease, Mine, Closes;
      OthersMayRelease();
      if num >= 0 {
        SoundHasFiles(k);
        ghost var before := log;
        ReleaseStep(k, Fd(me, num), Event.Close(Fd(me, num)));
        Record(Event.Close(Fd(me, num)));
        ClosesNext(old(log), before, Event.Close(Fd(me, num)), me);
      } else {
        ClosesForeign(old(log), log, me);
      }
    }

    // A stat: whether path is there, or no answer.
    method Stat(path: string) returns (r: Presence)
      requires Valid()
      modifies this`k, this`log, this`unanswered
      ensures Valid() && old(log) <= log && Foreign(log, |old(log)|, me)
      ensures Mine(k, me) == Mine(old(k), me) && FilesStay(old(k), k)
      ensures MayRelease(old(k), me) ==> MayRelease(k, me)
      ensures r.Present? ==> path in k.files
      ensures r.Absent? ==> path !in k.files
      ensures unanswered == old(unanswered) + if r.Unknown? then [path] else []
    {
      OthersMayRelease();
      var ok: bool := *;
      r := if !ok && !answers then Unknown else if path in k.files then Present else Absent;
      if r.Unknown? { unanswered := unanswered + [path]; }
    }

    // Clock.Now, of a clock that does not go back.
    method Now() returns (now: nat)
      modifies this`time, this`clock
      ensures (old(Valid()) ==> Valid()) && now == time && time >= old(time)
      ensures clock == ClockUse(old(clock).looks + 1, old(clock).pauses)
    {
      var passed: int := *;
      time := time + if passed > 0 then passed else 0;
      now, clock := time, clock.(looks := clock.looks + 1);
    }

    // Clock.Sleep, which pauses for d at least.
    method Sleep(d: nat)
      modifies this`time, this`clock
      ensures (old(Valid()) ==> Valid()) && time >= old(time) + d
      ensures clock == ClockUse(old(clock).looks, old(clock).pauses + [d])
    {
      var late: int := *;
      time := time + d + if late > 0 then late else 0;
      clock := clock.(pauses := clock.pauses + [d]);
    }
  }

  // An open file. Its number is -1 once it is closed, so that a number something else was given since is not touched.
  class OsFile {
    var num: int

    constructor (num: int)
      ensures this.num == num
    {
      this.num := num;
    }
  }

  datatype Options = Options(mode: Held, wait: int, noWait: bool, perm: nat)

  datatype Error =
    | Unsupported
    | BadPerm
    | NotOpened(missing: bool)
    | NotLocked(dir: bool)
    | Busy(waited: int)

  // What a successful acquire returns: the function that lets go of the lock. Nothing is the provisional one.
  datatype Lock = Nothing | On(file: OsFile)

  datatype Acquired = Taken(lock: Lock) | Refused(error: Error)

  // How long an acquire waits for a taken lock.
  function WaitOf(opts: Options): nat {
    if opts.wait <= 0 then DEFAULT_WAIT else opts.wait
  }

  // The most attempts an acquire that waits makes: one, and one more after each pause that begins before the deadline.
  function MaxAttempts(wait: nat): nat {
    (wait + POLL_INTERVAL - 1) / POLL_INTERVAL + 1
  }

  // One attempt at the lock, made again for as long as signals interrupt it.
  method TryLock(sys: System, f: OsFile, mode: Held) returns (held: bool, failed: bool)
    requires sys.Valid() && mode != Free && f.num >= 0 && Fd(sys.me, f.num) in Mine(sys.k, sys.me)
    requires Mine(sys.k, sys.me)[Fd(sys.me, f.num)].held == Free
    modifies sys`k, sys`log, sys`interrupts, sys`flocks
    ensures sys.Valid() && old(sys.log) <= sys.log && FilesStay(old(sys.k), sys.k)
    ensures NoneCreated(sys.log, |old(sys.log)|, sys.me)
    ensures MayRelease(old(sys.k), sys.me) ==> MayRelease(sys.k, sys.me)
    ensures held ==> !failed && Mine(sys.k, sys.me) ==
                     var fd, mine := Fd(sys.me, f.num), Mine(old(sys.k), sys.me);
                     mine[fd := mine[fd].(held := mode)]
    ensures !held ==> Mine(sys.k, sys.me) == Mine(old(sys.k), sys.me)
    ensures !held && !failed ==> !Grantable(sys.k, Fd(sys.me, f.num), mode)
    ensures sys.works ==> !failed
    // One call, and one more for each that a signal interrupted.
    ensures var was := old(sys.flocks);
            sys.flocks == Tally(was.calls + 1 + (old(sys.interrupts) - sys.interrupts),
                                was.blocked + (if held || failed then 0 else 1), was.failures + if failed then 1 else 0)
    ensures sys.interrupts <= old(sys.interrupts)
  {
    hide Sound, Legal, Replay, MayRelease, Grantable;
    while true
      invariant sys.interrupts <= old(sys.interrupts)
      invariant var was := old(sys.flocks);
                sys.flocks == was.(calls := was.calls + (old(sys.interrupts) - sys.interrupts))
      invariant sys.Valid() && old(sys.log) <= sys.log && FilesStay(old(sys.k), sys.k)
      invariant NoneCreated(sys.log, |old(sys.log)|, sys.me)
      invariant Mine(sys.k, sys.me) == Mine(old(sys.k), sys.me)
      invariant MayRelease(old(sys.k), sys.me) ==> MayRelease(sys.k, sys.me)
      decreases sys.interrupts
    {
      assert Fd(sys.me, f.num) in Mine(sys.k, sys.me);
      var r := sys.FlockCall(f.num, mode);
      match r
      case Granted => return true, false;
      case Interrupted => continue;
      case WouldBlock => return false, false;
      case LockFailed => return false, true;
    }
  }

  // n pauses of the poll interval.
  function Pauses(n: nat): seq<nat> {
    seq(n, i => POLL_INTERVAL)
  }

  lemma PausesNext(was: seq<nat>, n: nat)
    requires n > 0
    ensures was + Pauses(n - 1) + [POLL_INTERVAL] == was + Pauses(n)
    ensures was + Pauses(0) == was
  {
  }

  /** What the attempts of an acquire were: each a call of flock, made again for each signal that interrupted one. All
      but the last found a conflicting lock; the last one too when the acquire ends busy, it failed when the acquire
      ends with a lock that cannot be taken, and otherwise it was granted. An acquire that waits reads the clock before
      the first attempt and after each that found a conflict, and pauses once for the poll interval between two
      attempts. */
  ghost predicate Tried(was: Tally, now: Tally, before: ClockUse, after: ClockUse, r: Acquired, attempts: nat,
          interrupted: int, opts: Options) {
    var failed := if r.Refused? && r.error.NotLocked? then 1 else 0;
    var granted := if r.Taken? && r.lock.On? then 1 else 0;
    var busy := if r.Refused? && r.error.Busy? then 1 else 0;
    && now.calls == was.calls + attempts + interrupted && now.failures == was.failures + failed
    && now.blocked == was.blocked + attempts - failed - granted
    && (attempts > 0 ==> failed + granted + busy == 1)
    && if opts.noWait || attempts == 0 then after == before
       else after == ClockUse(before.looks + attempts + busy, before.pauses + Pauses(attempts - 1))
  }

  // The attempts so far, all of which found a conflicting lock.
  ghost predicate Trying(was: Tally, now: Tally, before: ClockUse, after: ClockUse, attempts: nat, interrupted: int,
          noWait: bool) {
    && now == Tally(was.calls + attempts + interrupted, was.blocked + attempts, was.failures)
    && if noWait then attempts == 0 && after == before
       else after == ClockUse(before.looks + 1 + attempts, before.pauses + Pauses(attempts))
  }

  // When the next attempt may be made: an acquire that waits has paused between the attempts and is within its
  // deadline.
  ghost predicate Paced(noWait: bool, attempts: nat, start: nat, deadline: int, time: nat, wait: nat) {
    if noWait then attempts == 0 && time == start
    else
      && deadline >= start + wait && time >= deadline - wait + attempts * POLL_INTERVAL
      && (attempts > 0 ==> (attempts - 1) * POLL_INTERVAL < wait)
  }

  lemma PacedNow(noWait: bool, n: nat, start: nat, deadline: int, time: nat, wait: nat, now: nat)
    requires Paced(noWait, n, start, deadline, time, wait) && now >= time
    ensures n < if noWait then 1 else MaxAttempts(wait)
    ensures noWait ==> time == start
    ensures !noWait && now >= deadline ==> now >= start + wait
  {
    if !noWait { AttemptsBound(n + 1, wait); }
  }

  lemma PacedLater(n: nat, start: nat, deadline: int, time: nat, wait: nat, now: nat, later: nat)
    requires Paced(false, n, start, deadline, time, wait) && time <= now < deadline && later >= now + POLL_INTERVAL
    ensures Paced(false, n + 1, start, deadline, later, wait)
  {
  }

  lemma TryingStarts(was: Tally, before: ClockUse, noWait: bool, start: nat, deadline: int, time: nat, wait: nat)
    requires if noWait then time == start else time >= start && deadline == time + wait
    ensures Trying(was, was, before, if noWait then before else ClockUse(before.looks + 1, before.pauses), 0, 0, noWait)
    ensures Paced(noWait, 0, start, deadline, time, wait)
  {
    PausesNext(before.pauses, 1);
  }

  // One attempt more: it is the last, or a pause follows.
  lemma TryingNext(was: Tally, tally: Tally, now: Tally, before: ClockUse, after: ClockUse, n: nat, interrupted: int,
          more: int, opts: Options, r: Option<Acquired>)
    requires Trying(was, tally, before, after, n, interrupted, opts.noWait)
    requires OneTry(tally, now, more - interrupted, opts.noWait, r)
    ensures r.Some? ==> Tried(was, now, before, after, r.value, n + 1, more, opts)
    ensures r.None? ==>
              var looked := ClockUse(after.looks + 1, after.pauses);
              && (forall w :: Tried(was, now, before, looked, Refused(Busy(w)), n + 1, more, opts))
              && Trying(was, now, before, ClockUse(looked.looks, looked.pauses + [POLL_INTERVAL]), n + 1, more, false)
  {
    PausesNext(before.pauses, n + 1);
  }

  // What one attempt is, and how it ends when no other follows.
  ghost predicate OneTry(was: Tally, now: Tally, interrupted: int, noWait: bool, r: Option<Acquired>) {
    && now.calls == was.calls + 1 + interrupted
    && match r
       case Some(Taken(lock)) => lock.On? && now.blocked == was.blocked && now.failures == was.failures
       case Some(Refused(e)) =>
         if e.NotLocked? then now.blocked == was.blocked && now.failures == was.failures + 1
         else e.Busy? && noWait && now.blocked == was.blocked + 1 && now.failures == was.failures
       case None => !noWait && now.blocked == was.blocked + 1 && now.failures == was.failures
  }

  // The descriptors of the process, after a lock in mode was taken on path.
  ghost predicate Holding(was: map<Fd, Descr>, now: map<Fd, Descr>, fd: Fd, path: string, mode: Held) {
    && fd !in was && fd in now && now - {fd} == was
    && now[fd].path == path && now[fd].held == mode
  }

  lemma OpenedThenHeld(was: map<Fd, Descr>, mine: map<Fd, Descr>, fd: Fd, d: Descr, mode: Held)
    requires fd !in was && mine == was[fd := d]
    ensures fd in mine && mine[fd] == d && mine - {fd} == was
    ensures Holding(was, mine[fd := d.(held := mode)], fd, d.path, mode)
  {
    assert mine[fd := d.(held := mode)] - {fd} == was;
  }

  lemma AttemptsBound(attempts: nat, wait: nat)
    requires attempts > 1 ==> (attempts - 2) * POLL_INTERVAL < wait
    ensures attempts <= MaxAttempts(wait)
  {
  }

  /** Acquire (dir false) and AcquireDir (dir true). attempts counts the tries of the lock: the calls of flock but for
      those made again because a signal interrupted one. */
  method Acquire(sys: System, path: string, opts: Options, dir: bool) returns (r: Acquired, ghost attempts: nat)
    requires sys.Valid() && opts.mode != Free
    modifies sys`k, sys`log, sys`interrupts, sys`flocks, sys`time, sys`clock
    ensures sys.Valid() && old(sys.log) <= sys.log && FilesStay(old(sys.k), sys.k)
    ensures MayRelease(old(sys.k), sys.me) ==> MayRelease(sys.k, sys.me)
    // A refusal leaves no descriptor open, whatever refused.
    ensures r.Refused? ==> Mine(sys.k, sys.me) == Mine(old(sys.k), sys.me)
    // A lock taken is one new descriptor on the file at path, in the mode asked for, and no other.
    ensures r.Taken? && r.lock.On? ==> fresh(r.lock.file) && r.lock.file.num >= 0
    ensures r.Taken? && r.lock.On? ==>
              Holding(Mine(old(sys.k), sys.me), Mine(sys.k, sys.me), Fd(sys.me, r.lock.file.num), path, opts.mode)
    // The lock that holds nothing: only a shared one, on a file that was not there.
    ensures r.Taken? && r.lock.Nothing? ==>
              opts.mode == Shared && !dir && path !in sys.k.files && path !in old(sys.k.files)
    ensures r.Taken? && r.lock.Nothing? ==> Mine(sys.k, sys.me) == Mine(old(sys.k), sys.me) && attempts == 0
    ensures opts.mode == Shared || dir ==> NoneCreated(sys.log, |old(sys.log)|, sys.me)
    // The refusals.
    ensures r == Refused(Unsupported) <==> !sys.supported
    ensures r == Refused(BadPerm) <==> sys.supported && !dir && opts.mode != Shared && opts.perm >= 0x200
    ensures r.Refused? && (r.error.Unsupported? || r.error.BadPerm? || r.error.NotOpened?) ==> attempts == 0
    ensures r == Refused(NotOpened(true)) ==> dir || opts.mode != Shared
    ensures r == Refused(NotOpened(true)) ==> path !in old(sys.k.files)
    ensures r.Refused? && r.error.NotLocked? ==> r.error.dir == dir && attempts >= 1
    // With no call that fails: an absent file of a shared lock gives the lock that holds nothing, and nothing else
    // stops an acquire but a conflicting lock, or a directory that is not there.
    ensures sys.works && sys.supported && opts.mode == Shared && !dir && path !in sys.k.files ==> r == Taken(Nothing)
    ensures sys.works && r.Refused? ==>
              r.error in {Unsupported, BadPerm} || r.error.Busy? || (dir && r.error == NotOpened(true))
    // Busy is said after the wait: the one that was asked for, or two seconds.
    ensures r.Refused? && r.error.Busy? ==> attempts >= 1 && (opts.noWait ==> r.error.waited == 0)
    ensures r.Refused? && r.error.Busy? && !opts.noWait ==>
              && r.error.waited == (if opts.wait <= 0 then 2_000_000_000 else opts.wait)
              && sys.time >= old(sys.time) + r.error.waited
    // The bound.
    ensures attempts <= if opts.noWait then 1 else MaxAttempts(WaitOf(opts))
    ensures sys.interrupts <= old(sys.interrupts)
    ensures Tried(old(sys.flocks), sys.flocks, old(sys.clock), sys.clock, r, attempts,
                  old(sys.interrupts) - sys.interrupts, opts)
    ensures r.Taken? && r.lock.On? ==> attempts >= 1
    ensures opts.noWait ==> sys.clock == old(sys.clock) && sys.time == old(sys.time)
  {
    hide Sound, Legal, Replay, Mine, MayRelease, Grantable, Holding, MaxAttempts;
    attempts := 0;
    if !sys.supported { return Refused(Unsupported), 0; }
    if !dir && opts.mode != Shared && opts.perm >= 0x200 { return Refused(BadPerm), 0; }
    var handle := sys.OpenFile(path, !dir && opts.mode != Shared);
    if handle.Missing? && !dir && opts.mode == Shared { return Taken(Nothing), 0; }
    if !handle.Got? { return Refused(NotOpened(handle.Missing?)), 0; }
    var f := new OsFile(handle.num);
    ghost var fd, was, mine := Fd(sys.me, f.num), Mine(old(sys.k), sys.me), Mine(sys.k, sys.me);
    OpenedThenHeld(was, mine, fd, mine[fd], opts.mode);
    r, attempts := Poll(sys, f, opts, dir);
  }

  // The part of acquire after the open: tries the lock, and pauses and tries again until the deadline.
  method Poll(sys: System, f: OsFile, opts: Options, dir: bool) returns (r: Acquired, ghost attempts: nat)
    requires sys.Valid() && opts.mode != Free && f.num >= 0
    requires Fd(sys.me, f.num) in Mine(sys.k, sys.me) && Mine(sys.k, sys.me)[Fd(sys.me, f.num)].held == Free
    modifies sys`k, sys`log, sys`interrupts, sys`flocks, sys`time, sys`clock, f
    ensures sys.Valid() && old(sys.log) <= sys.log && FilesStay(old(sys.k), sys.k)
    ensures MayRelease(old(sys.k), sys.me) ==> MayRelease(sys.k, sys.me)
    ensures NoneCreated(sys.log, |old(sys.log)|, sys.me)
    ensures PolledMine(Mine(old(sys.k), sys.me), Mine(sys.k, sys.me), Fd(sys.me, old(f.num)), opts.mode, Some(r))
    ensures r.Taken? ==> r.lock == On(f) && f.num == old(f.num)
    ensures r.Refused? ==> r.error == NotLocked(dir) || r.error == Busy(if opts.noWait then 0 else WaitOf(opts))
    ensures r.Refused? && r.error.Busy? && !opts.noWait ==> sys.time >= old(sys.time) + WaitOf(opts)
    ensures 1 <= attempts <= if opts.noWait then 1 else MaxAttempts(WaitOf(opts))
    ensures sys.interrupts <= old(sys.interrupts)
    ensures Tried(old(sys.flocks), sys.flocks, old(sys.clock), sys.clock, r, attempts,
                  old(sys.interrupts) - sys.interrupts, opts)
    ensures sys.works && r.Refused? ==> r.error.Busy?
    ensures opts.noWait ==> sys.clock == old(sys.clock) && sys.time == old(sys.time)
  {
    hide Sound, Legal, Replay, Mine, MayRelease, Grantable, MaxAttempts, Tried, Pauses, OneTry, NoneCreated,
         FilesStay, SoundFiles, SoundLocks, SoundPair, OwnsGuard, Foreign, System.Valid,
         Trying, Paced;
    attempts := 0;
    var wait, deadline := WaitOf(opts), 0;
    if !opts.noWait {
      var now := sys.Now();
      deadline := now + wait;
    }
    PollStarts(sys.k, sys.log, sys.me);
    TryingStarts(sys.flocks, old(sys.clock), opts.noWait, old(sys.time), deadline, sys.time, wait);
    while true
      invariant sys.Valid() && old(sys.log) <= sys.log && FilesStay(old(sys.k), sys.k)
      invariant MayRelease(old(sys.k), sys.me) ==> MayRelease(sys.k, sys.me)
      invariant Mine(sys.k, sys.me) == Mine(old(sys.k), sys.me) && f.num == old(f.num)
      invariant NoneCreated(sys.log, |old(sys.log)|, sys.me)
      invariant Trying(old(sys.flocks), sys.flocks, old(sys.clock), sys.clock, attempts,
                       old(sys.interrupts) - sys.interrupts, opts.noWait)
      invariant sys.interrupts <= old(sys.interrupts)
      invariant opts.noWait ==> sys.clock == old(sys.clock)
      invariant Paced(opts.noWait, attempts, old(sys.time), deadline, sys.time, wait)
      decreases MaxAttempts(wait) - attempts
    {
      ghost var tally, interrupts, time := sys.flocks, sys.interrupts, sys.time;
      ghost var k, log := sys.k, sys.log;
      PacedNow(opts.noWait, attempts, old(sys.time), deadline, time, wait, time);
      var tried := TryOnce(sys, f, opts, dir);
      TryingNext(old(sys.flocks), tally, sys.flocks, old(sys.clock), sys.clock, attempts,
                 old(sys.interrupts) - interrupts, old(sys.interrupts) - sys.interrupts, opts, tried);
      StayAndNone(old(sys.k), k, sys.k, old(sys.log), log, sys.log, sys.me);
      attempts := attempts + 1;
      if tried.Some? { return tried.value, attempts; }
      k, log := sys.k, sys.log;
      var late := Pause(sys, f, deadline, wait, attempts - 1, old(sys.time));
      StayAndNone(old(sys.k), k, sys.k, old(sys.log), log, sys.log, sys.me);
      if late { return Refused(Busy(wait)), attempts; }
    }
  }

  // What an acquire does to the descriptors: a refusal closes the one it has, a lock taken is its mode, and otherwise
  // it is left alone.
  ghost predicate PolledMine(was: map<Fd, Descr>, now: map<Fd, Descr>, fd: Fd, mode: Held, r: Option<Acquired>) {
    match r
    case Some(Refused(_)) => now == was - {fd}
    case Some(Taken(_)) => fd in was && now == was[fd := was[fd].(held := mode)]
    case None => now == was
  }

  lemma PollStarts(k: Kernel, log: seq<Event>, me: nat)
    ensures FilesStay(k, k) && NoneCreated(log, |log|, me)
  {
  }

  lemma StayAndNone(a: Kernel, b: Kernel, c: Kernel, before: seq<Event>, log: seq<Event>, after: seq<Event>, me: nat)
    requires FilesStay(a, b) && FilesStay(b, c) && before <= log <= after
    requires NoneCreated(log, |before|, me) && NoneCreated(after, |log|, me)
    ensures FilesStay(a, c) && NoneCreated(after, |before|, me)
  {
  }

  // The rest of a turn of the loop: past the deadline the file is closed, otherwise the next attempt waits.
  method Pause(sys: System, f: OsFile, deadline: int, wait: nat, ghost n: nat, ghost start: nat) returns (late: bool)
    requires sys.Valid() && Paced(false, n, start, deadline, sys.time, wait) && f.num >= 0
    requires Fd(sys.me, f.num) in Mine(sys.k, sys.me) && Mine(sys.k, sys.me)[Fd(sys.me, f.num)].held == Free
    modifies sys`k, sys`log, sys`time, sys`clock, f
    ensures sys.Valid() && old(sys.log) <= sys.log && FilesStay(old(sys.k), sys.k)
    ensures MayRelease(old(sys.k), sys.me) ==> MayRelease(sys.k, sys.me)
    ensures NoneCreated(sys.log, |old(sys.log)|, sys.me)
    ensures var looked := ClockUse(old(sys.clock).looks + 1, old(sys.clock).pauses);
            sys.clock == if late then looked else looked.(pauses := looked.pauses + [POLL_INTERVAL])
    ensures late ==>
              sys.time >= start + wait && Mine(sys.k, sys.me) == Mine(old(sys.k), sys.me) - {Fd(sys.me, old(f.num))}
    ensures !late ==> f.num == old(f.num) && Mine(sys.k, sys.me) == Mine(old(sys.k), sys.me)
    ensures !late ==> Paced(false, n + 1, start, deadline, sys.time, wait)
  {
    PollStarts(sys.k, sys.log, sys.me);
    hide Sound, Legal, Replay, Mine, MayRelease, FilesStay, NoneCreated, Paced;
    ghost var time := sys.time;
    var now := sys.Now();
    PacedNow(false, n, start, deadline, time, wait, now);
    if now >= deadline {
      CloseFile(sys, f);
      return true;
    }
    sys.Sleep(POLL_INTERVAL);
    PacedLater(n, start, deadline, time, wait, now, sys.time);
    return false;
  }

  // One turn of the loop up to its pause: None says that the lock is taken and may be tried again.
  method TryOnce(sys: System, f: OsFile, opts: Options, dir: bool) returns (r: Option<Acquired>)
    requires sys.Valid() && opts.mode != Free && f.num >= 0
    requires Fd(sys.me, f.num) in Mine(sys.k, sys.me) && Mine(sys.k, sys.me)[Fd(sys.me, f.num)].held == Free
    modifies sys`k, sys`log, sys`interrupts, sys`flocks, f
    ensures sys.Valid() && old(sys.log) <= sys.log && FilesStay(old(sys.k), sys.k)
    ensures MayRelease(old(sys.k), sys.me) ==> MayRelease(sys.k, sys.me)
    ensures NoneCreated(sys.log, |old(sys.log)|, sys.me)
    ensures PolledMine(Mine(old(sys.k), sys.me), Mine(sys.k, sys.me), Fd(sys.me, old(f.num)), opts.mode, r)
    ensures r.None? || r.value.Taken? ==> f.num == old(f.num)
    ensures r.Some? ==> r.value in {Taken(On(f)), Refused(NotLocked(dir)), Refused(Busy(0))}
    ensures r == Some(Refused(Busy(0))) ==> opts.noWait
    ensures sys.interrupts <= old(sys.interrupts)
    ensures OneTry(old(sys.flocks), sys.flocks, old(sys.interrupts) - sys.interrupts, opts.noWait, r)
    ensures sys.works && r.Some? && r.value.Refused? ==> r.value.error.Busy?
  {
    hide Sound, Legal, Replay, Mine, MayRelease, Grantable, FilesStay;
    var held, failed := TryLock(sys, f, opts.mode);
    if held { return Some(Taken(On(f))); }
    if !failed && !opts.noWait { return None; }
    ghost var k := sys.k;
    CloseFile(sys, f);
    FilesStayOver(old(sys.k), k, sys.k);
    return Some(Refused(if failed then NotLocked(dir) else Busy(0)));
  }

  lemma FilesStayOver(a: Kernel, b: Kernel, c: Kernel)
    requires FilesStay(a, b) && FilesStay(b, c)
    ensures FilesStay(a, c)
  {
  }

  // f.Close.
  method CloseFile(sys: System, f: OsFile)
    requires sys.Valid()
    requires f.num >= 0 ==>
               Fd(sys.me, f.num) in Mine(sys.k, sys.me) && Mine(sys.k, sys.me)[Fd(sys.me, f.num)].held == Free
    modifies sys`k, sys`log, f
    ensures sys.Valid() && old(sys.log) <= sys.log && FilesStay(old(sys.k), sys.k) && f.num == -1
    ensures MayRelease(old(sys.k), sys.me) ==> MayRelease(sys.k, sys.me)
    ensures NoneCreated(sys.log, |old(sys.log)|, sys.me)
    ensures old(f.num) < 0 ==>
              Foreign(sys.log, |old(sys.log)|, sys.me) && Mine(sys.k, sys.me) == Mine(old(sys.k), sys.me)
    ensures old(f.num) >= 0 ==> Mine(sys.k, sys.me) == Mine(old(sys.k), sys.me) - {Fd(sys.me, old(f.num))}
    ensures Closes(sys.log, sys.me) == Closes(old(sys.log), sys.me) + if old(f.num) >= 0 then [old(f.num)] else []
  {
    sys.CloseCall(f.num);
    f.num := -1;
  }

  /** The function Acquire returns. The first call lets go of the lock and closes its file; a later one makes no
      system call that does anything, even when the number of the file was given to something else since. */
  method Release(sys: System, lock: Lock)
    requires sys.Valid()
    requires lock.On? && lock.file.num >= 0 ==>
              Fd(sys.me, lock.file.num) in Mine(sys.k, sys.me) && MayRelease(sys.k, sys.me)
    modifies sys`k, sys`log, if lock.On? then {lock.file} else {}
    ensures sys.Valid() && old(sys.log) <= sys.log && FilesStay(old(sys.k), sys.k)
    ensures MayRelease(old(sys.k), sys.me) ==> MayRelease(sys.k, sys.me)
    ensures NoneCreated(sys.log, |old(sys.log)|, sys.me)
    ensures lock.On? ==> lock.file.num == -1
    ensures lock.Nothing? || old(lock.file.num) < 0 ==>
              Foreign(sys.log, |old(sys.log)|, sys.me) && Mine(sys.k, sys.me) == Mine(old(sys.k), sys.me)
    ensures lock.On? && old(lock.file.num) >= 0 ==>
              Mine(sys.k, sys.me) == Mine(old(sys.k), sys.me) - {Fd(sys.me, old(lock.file.num))}
    ensures Closes(sys.log, sys.me) ==
            Closes(old(sys.log), sys.me) + if lock.On? && old(lock.file.num) >= 0 then [old(lock.file.num)] else []
  {
    hide Sound, Legal, Replay, MayRelease;
    if lock.On? {
      sys.UnflockCall(lock.file.num);
      CloseFile(sys, lock.file);
    }
  }
}
