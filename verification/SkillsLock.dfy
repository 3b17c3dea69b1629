/**
  engine/skills/lock.go: the locks of a verb, and the read that is made again when the lock file appears while it
  reads. The pair read is the one the lock file Kernel.guard guards, the registry and the manifest.
 */
module SkillsLock {
  import opened Wrappers
  import opened FlockKernel
  import opened FileLock

  const MAX_REREAD_ATTEMPTS := 3

  datatype Request = Request(path: string, dir: bool, mode: Held, registry: Option<string>, skipRegistryCheck: bool,
    rereads: bool)

  datatype LockFailure = NotConfigured | RegistryUnreadable | LockBusy | LockUnavailable

  datatype Locks = HeldLocks(locks: seq<Lock>, provisional: seq<string>) | NoLocks(failure: LockFailure)

  datatype Read =
    | Pair(manifest: int, registry: int)
    | NotLocked(failure: LockFailure)
    | Raced(inspection: bool, attempts: nat)

  // A shared lock whose read is made again when the lock file appears.
  predicate Rereads(r: Request) {
    r.rereads && !r.dir && r.mode == Shared
  }

  // A request whose read is guarded: an exclusive lock, or a shared one whose read is made again.
  predicate Guards(r: Request, guard: string) {
    r.path == guard && ((r.mode == Exclusive && !r.dir) || Rereads(r))
  }

  // The state an operation starts in: the descriptors of the process, and how many calls and unanswered stats there
  // were.
  datatype Start = Start(mine: map<Fd, Descr>, calls: nat, stats: nat, blocked: int)

  ghost function StartOf(sys: System): Start
    reads sys
  {
    Start(Mine(sys.k, sys.me), |sys.log|, |sys.unanswered|, sys.flocks.blocked)
  }

  // At some moment from call n on, p was not there.
  ghost predicate AbsentSince(init: Kernel, log: seq<Event>, n: nat, p: string) {
    Legal(init, log) && exists j :: n <= j <= |log| && p !in At(init, log, j).files
  }

  lemma AbsentLonger(init: Kernel, a: seq<Event>, b: seq<Event>, n: nat, ps: seq<string>)
    requires Legal(init, a) && Legal(init, b) && a <= b
    ensures forall p :: p in ps && AbsentSince(init, a, n, p) ==> AbsentSince(init, b, n, p)
  {
    forall p | p in ps && AbsentSince(init, a, n, p)
      ensures AbsentSince(init, b, n, p)
    {
      var j :| n <= j <= |a| && p !in At(init, a, j).files;
      AtLonger(init, a, b, j);
    }
  }

  /** Since the start a stat of the path gave no answer, and the path was absent at some moment: the one case in which
      a lock that holds nothing is not looked at again. */
  ghost predicate Missed(init: Kernel, log: seq<Event>, stats: seq<string>, start: Start, path: string) {
    start.stats <= |stats| && path in stats[start.stats..] && AbsentSince(init, log, start.calls, path)
  }

  /** What a refusal of the locks says is so: no lock is configured; the registry of a request was absent at some
      moment, or a stat of it gave no answer; a flock found a conflicting lock; or a lock cannot be taken, because the
      platform has none, a call failed, or it is one of a directory. */
  ghost predicate Justified(init: Kernel, log: seq<Event>, stats: seq<string>, blocked: int, start: Start,
          requests: seq<Request>, works: bool, failure: LockFailure) {
    match failure
    case NotConfigured => true
    case RegistryUnreadable =>
      exists j :: 0 <= j < |requests| && Asks(requests[j])
                  && (AbsentSince(init, log, start.calls, requests[j].registry.value)
                      || (start.stats <= |stats| && requests[j].registry.value in stats[start.stats..]))
    case LockBusy => blocked > start.blocked
    case LockUnavailable => works ==> exists j :: 0 <= j < |requests| && requests[j].dir
  }

  // The registry of the request is looked at first.
  predicate Asks(r: Request) {
    r.registry.Some? && !r.skipRegistryCheck
  }

  /** The registry of each of the first i requests that ask for one was there at some moment. */
  ghost predicate Shown(init: Kernel, log: seq<Event>, start: Start, requests: seq<Request>, i: nat) {
    forall j :: 0 <= j < i && j < |requests| && Asks(requests[j]) ==>
                  PresentSince(init, log, start.calls, requests[j].registry.value)
  }

  lemma ShownNone(init: Kernel, log: seq<Event>, start: Start, requests: seq<Request>)
    ensures Shown(init, log, start, requests, 0)
  {
  }

  lemma ShownNext(init: Kernel, a: seq<Event>, b: seq<Event>, start: Start, requests: seq<Request>, i: nat)
    requires Legal(init, a) && Legal(init, b) && a <= b && i < |requests| && Shown(init, a, start, requests, i)
    requires Asks(requests[i]) ==> PresentSince(init, b, start.calls, requests[i].registry.value)
    ensures Shown(init, b, start, requests, i + 1)
  {
    forall j | 0 <= j < i && Asks(requests[j])
      ensures PresentSince(init, b, start.calls, requests[j].registry.value)
    {
      PresentLonger(init, a, b, start.calls, requests[j].registry.value);
    }
  }

  lemma PresentLonger(init: Kernel, a: seq<Event>, b: seq<Event>, n: nat, p: string)
    requires Legal(init, b) && a <= b && PresentSince(init, a, n, p)
    ensures PresentSince(init, b, n, p)
  {
    var k :| n <= k <= |a| && p in At(init, a, k).files;
    AtLonger(init, a, b, k);
  }

  // A platform with locks, where no open and no flock fails.
  predicate CanLock(sys: System) {
    sys.supported && sys.works
  }

  /** A lock file that a request asks to be looked at again was absent, and then there. */
  ghost predicate Appeared(init: Kernel, log: seq<Event>, start: Start, requests: seq<Request>) {
    exists j :: 0 <= j < |requests| && Rereads(requests[j]) && AbsentSince(init, log, start.calls, requests[j].path)
                && PresentSince(init, log, start.calls, requests[j].path)
  }

  ghost predicate PresentSince(init: Kernel, log: seq<Event>, n: nat, p: string) {
    Legal(init, log) && exists j :: n <= j <= |log| && p in At(init, log, j).files
  }

  // Every path listed is that of one of the first i requests whose reads are made again, and it was absent.
  ghost predicate Listed(init: Kernel, log: seq<Event>, start: Start, requests: seq<Request>, i: nat,
          listed: seq<string>) {
    forall p :: p in listed ==>
      AbsentSince(init, log, start.calls, p) &&
      exists j :: 0 <= j < i && j < |requests| && Rereads(requests[j]) && requests[j].path == p
  }

  lemma MissedLonger(init: Kernel, a: seq<Event>, b: seq<Event>, was: seq<string>, now: seq<string>, start: Start,
          path: string)
    requires Legal(init, b) && a <= b && was <= now && Missed(init, a, was, start, path)
    ensures Missed(init, b, now, start, path)
  {
    AbsentLonger(init, a, b, start.calls, [path]);
    assert now[start.stats..] == was[start.stats..] + now[|was|..];
  }

  // What justified a refusal still does later, and from an earlier start.
  lemma JustifiedLonger(init: Kernel, a: seq<Event>, b: seq<Event>, was: seq<string>, now: seq<string>, blocked: int,
          later: int, here: Start, start: Start, requests: seq<Request>, works: bool, failure: LockFailure)
    requires Legal(init, b) && a <= b && was <= now && blocked <= later
    requires start.calls <= here.calls && start.stats <= here.stats && start.blocked <= here.blocked
    requires Justified(init, a, was, blocked, here, requests, works, failure)
    ensures Justified(init, b, now, later, start, requests, works, failure)
  {
    if failure.RegistryUnreadable? {
      var j :| 0 <= j < |requests| && Asks(requests[j])
               && (AbsentSince(init, a, here.calls, requests[j].registry.value)
                   || (here.stats <= |was| && requests[j].registry.value in was[here.stats..]));
      var p := requests[j].registry.value;
      if AbsentSince(init, a, here.calls, p) {
        AbsentLonger(init, a, b, here.calls, [p]);
        assert AbsentSince(init, b, start.calls, p);
      } else {
        assert now[start.stats..][here.stats - start.stats..] == was[here.stats..] + now[|was|..];
        assert p in now[start.stats..];
      }
    }
  }

  lemma AppearedLonger(init: Kernel, a: seq<Event>, b: seq<Event>, here: Start, start: Start, requests: seq<Request>)
    requires Legal(init, b) && a <= b && start.calls <= here.calls && Appeared(init, a, here, requests)
    ensures Appeared(init, b, start, requests)
  {
    var j :| 0 <= j < |requests| && Rereads(requests[j]) && AbsentSince(init, a, here.calls, requests[j].path)
             && PresentSince(init, a, here.calls, requests[j].path);
    var p := requests[j].path;
    AbsentLonger(init, a, b, here.calls, [p]);
    PresentLonger(init, a, b, here.calls, p);
    assert AbsentSince(init, b, start.calls, p) && PresentSince(init, b, start.calls, p);
  }

  // One of the paths listed is there.
  lemma AppearedNow(init: Kernel, a: seq<Event>, b: seq<Event>, start: Start, requests: seq<Request>,
          listed: seq<string>)
    requires Legal(init, a) && Legal(init, b) && a <= b && start.calls <= |b|
    requires Listed(init, a, start, requests, |requests|, listed)
    requires exists p :: p in listed && p in Replay(init, b).files
    ensures Appeared(init, b, start, requests)
  {
    var p :| p in listed && p in Replay(init, b).files;
    AbsentLonger(init, a, b, start.calls, listed);
    AtLast(init, b);
    assert PresentSince(init, b, start.calls, p);
  }

  lemma MissedEarlier(init: Kernel, log: seq<Event>, stats: seq<string>, here: Start, start: Start, path: string)
    requires Missed(init, log, stats, here, path) && start.calls <= here.calls && start.stats <= here.stats
    ensures Missed(init, log, stats, start, path)
  {
    assert stats[start.stats..][here.stats - start.stats..] == stats[here.stats..];
  }

  lemma MissedNone(init: Kernel, log: seq<Event>, stats: seq<string>, start: Start, path: string)
    ensures stats == [] ==> !Missed(init, log, stats, start, path)
  {
  }

  // A look at the path, later than the start, that failed.
  lemma MissedNow(init: Kernel, log: seq<Event>, stats: seq<string>, start: Start, n: nat, path: string)
    requires start.calls <= n && start.stats < |stats| && stats[|stats| - 1] == path && AbsentSince(init, log, n, path)
    ensures Missed(init, log, stats, start, path)
  {
    assert stats[start.stats..][|stats| - 1 - start.stats] == path;
  }

  lemma ListedNext(init: Kernel, a: seq<Event>, b: seq<Event>, start: Start, requests: seq<Request>, i: nat,
          listed: seq<string>, n: nat, more: seq<string>)
    requires Legal(init, a) && Legal(init, b) && a <= b && start.calls <= n && i < |requests|
    requires Listed(init, a, start, requests, i, listed)
    requires forall p :: p in more ==> Rereads(requests[i]) && requests[i].path == p && AbsentSince(init, b, n, p)
    ensures Listed(init, b, start, requests, i + 1, listed + more)
  {
    AbsentLonger(init, a, b, start.calls, listed);
  }

  // The descriptor number of a lock, -1 for one that holds nothing.
  function Num(lock: Lock): int
    reads if lock.On? then {lock.file} else {}
  {
    if lock.On? then lock.file.num else -1
  }

  ghost function Files(locks: seq<Lock>): set<OsFile> {
    set i | 0 <= i < |locks| && locks[i].On? :: locks[i].file
  }

  ghost function Nums(locks: seq<Lock>): (nums: seq<int>)
    reads Files(locks)
    ensures |nums| == |locks| && forall i :: 0 <= i < |locks| ==> nums[i] == Num(locks[i])
  {
    if locks == [] then []
    else
      assert Files(locks[..|locks| - 1]) <= Files(locks);
      assert locks[|locks| - 1].On? ==> locks[|locks| - 1].file in Files(locks);
      Nums(locks[..|locks| - 1]) + [Num(locks[|locks| - 1])]
  }

  ghost predicate OwnFiles(locks: seq<Lock>) {
    forall i, j :: 0 <= i < j < |locks| && locks[i].On? && locks[j].On? ==> locks[i].file != locks[j].file
  }

  // mine is base and the descriptors of these numbers, each new.
  ghost predicate Took(mine: map<Fd, Descr>, base: map<Fd, Descr>, me: nat, nums: seq<int>)
    decreases |nums|
  {
    if nums == [] then mine == base
    else
      var num, rest := nums[|nums| - 1], nums[..|nums| - 1];
      if num < 0 then Took(mine, base, me, rest)
      else Fd(me, num) in mine && Took(mine - {Fd(me, num)}, base, me, rest)
  }

  lemma TakeOne(mine: map<Fd, Descr>, now: map<Fd, Descr>, base: map<Fd, Descr>, me: nat, nums: seq<int>, num: int)
    requires Took(mine, base, me, nums)
    requires if num < 0 then now == mine else Fd(me, num) in now && now - {Fd(me, num)} == mine
    ensures Took(now, base, me, nums + [num])
  {
    assert (nums + [num])[..|nums|] == nums;
  }

  lemma FilesStayOn(a: Kernel, b: Kernel, c: Kernel)
    requires FilesStay(a, b) && FilesStay(b, c)
    ensures FilesStay(a, c)
  {
  }

  /** Lets go of every lock, the last taken first. */
  method ReleaseAll(sys: System, locks: seq<Lock>, ghost base: map<Fd, Descr>)
    requires sys.Valid() && MayRelease(sys.k, sys.me) && OwnFiles(locks)
             && Took(Mine(sys.k, sys.me), base, sys.me, Nums(locks))
    modifies sys`k, sys`log, Files(locks)
    ensures sys.Valid() && old(sys.log) <= sys.log && FilesStay(old(sys.k), sys.k) && MayRelease(sys.k, sys.me)
    ensures Mine(sys.k, sys.me) == base
    ensures Closes(sys.log, sys.me) == Closes(old(sys.log), sys.me) + LastFirst(old(Nums(locks)))
  {
    assert FilesStay(sys.k, sys.k);
    hide LastFirst, LeftToClose;
    hide Sound, Legal, Replay, Mine, MayRelease, Holding, FilesStay, Took, Nums, System.Valid;
    var i := |locks|;
    ghost var nums := Nums(locks);
    assert nums[..i] == nums;
    CloseAll(Closes(sys.log, sys.me), nums);
    while i > 0
      invariant 0 <= i <= |locks| && forall j :: 0 <= j < i ==> Num(locks[j]) == nums[j]
      invariant sys.Valid() && old(sys.log) <= sys.log && FilesStay(old(sys.k), sys.k) && MayRelease(sys.k, sys.me)
      invariant Took(Mine(sys.k, sys.me), base, sys.me, nums[..i])
      invariant LeftToClose(Closes(old(sys.log), sys.me), Closes(sys.log, sys.me), nums, nums[..i])
    {
      i := i - 1;
      ghost var was := sys.k;
      FrontAndLast(nums, i);
      ghost var closed := Closes(sys.log, sys.me);
      ReleaseLast(sys, locks, i, base, nums[..i], nums[i]);
      FilesStayOn(old(sys.k), was, sys.k);
      CloseNext(Closes(old(sys.log), sys.me), closed, Closes(sys.log, sys.me), nums, nums[..i], nums[i]);
    }
    TookNone(Mine(sys.k, sys.me), base, sys.me, nums[..i]);
    CloseNone(Closes(old(sys.log), sys.me), Closes(sys.log, sys.me), nums, nums[..i]);
  }

  method ReleaseLast(sys: System, locks: seq<Lock>, i: nat, ghost base: map<Fd, Descr>, ghost nums: seq<int>,
          ghost num: int)
    requires sys.Valid() && MayRelease(sys.k, sys.me) && OwnFiles(locks) && i < |locks| && Num(locks[i]) == num
    requires Took(Mine(sys.k, sys.me), base, sys.me, nums + [num])
    modifies sys`k, sys`log, if locks[i].On? then {locks[i].file} else {}
    ensures sys.Valid() && old(sys.log) <= sys.log && FilesStay(old(sys.k), sys.k) && MayRelease(sys.k, sys.me)
    ensures Took(Mine(sys.k, sys.me), base, sys.me, nums)
    ensures Closes(sys.log, sys.me) == Closes(old(sys.log), sys.me) + if num >= 0 then [num] else []
    ensures forall j :: 0 <= j < i ==> Num(locks[j]) == old(Num(locks[j]))
  {
    hide Sound, Legal, Replay, Mine, MayRelease, Holding, FilesStay, Took;
    TookLast(Mine(sys.k, sys.me), base, sys.me, nums + [num], nums, num);
    Release(sys, locks[i]);
  }

  // The numbers of real locks, the last taken first.
  ghost function LastFirst(nums: seq<int>): seq<int> {
    if nums == [] then []
    else (if nums[|nums| - 1] >= 0 then [nums[|nums| - 1]] else []) + LastFirst(nums[..|nums| - 1])
  }

  // Of all descriptors those of rest are still to close.
  ghost predicate LeftToClose(was: seq<int>, closed: seq<int>, all: seq<int>, rest: seq<int>) {
    closed + LastFirst(rest) == was + LastFirst(all)
  }

  lemma CloseAll(was: seq<int>, all: seq<int>)
    ensures LeftToClose(was, was, all, all)
  {
  }

  lemma CloseNone(was: seq<int>, closed: seq<int>, all: seq<int>, rest: seq<int>)
    requires LeftToClose(was, closed, all, rest) && rest == []
    ensures closed == was + LastFirst(all)
  {
    assert closed + [] == closed;
  }

  lemma CloseNext(was: seq<int>, closed: seq<int>, now: seq<int>, all: seq<int>, rest: seq<int>, num: int)
    requires LeftToClose(was, closed, all, rest + [num]) && now == closed + if num >= 0 then [num] else []
    ensures LeftToClose(was, now, all, rest)
  {
    assert (rest + [num])[..|rest|] == rest;
  }

  lemma FrontAndLast(nums: seq<int>, i: nat)
    requires i < |nums|
    ensures nums[..i + 1] == nums[..i] + [nums[i]]
  {
  }

  lemma TookNone(mine: map<Fd, Descr>, base: map<Fd, Descr>, me: nat, nums: seq<int>)
    requires Took(mine, base, me, nums) && nums == []
    ensures mine == base
  {
  }

  lemma TookLast(mine: map<Fd, Descr>, base: map<Fd, Descr>, me: nat, nums: seq<int>, rest: seq<int>, num: int)
    requires Took(mine, base, me, nums) && nums == rest + [num]
    ensures if num < 0 then Took(mine, base, me, rest)
            else Fd(me, num) in mine && Took(mine - {Fd(me, num)}, base, me, rest)
  {
    assert nums[..|nums| - 1] == rest;
  }

  predicate GuardIn(m: map<Fd, Descr>, guard: string) {
    exists fd :: fd in m && m[fd].path == guard && m[fd].held != Free
  }

  lemma GuardInHolding(was: map<Fd, Descr>, now: map<Fd, Descr>, fd: Fd, path: string, mode: Held, guard: string)
    requires Holding(was, now, fd, path, mode) && mode != Free
    ensures GuardIn(was, guard) || path == guard ==> GuardIn(now, guard)
  {
    if GuardIn(was, guard) {
      var g :| g in was && was[g].path == guard && was[g].held != Free;
      assert g in now - {fd} && now[g] == was[g];
    }
  }

  lemma GuardInIsGuarded(k: Kernel, pid: nat)
    requires GuardIn(Mine(k, pid), k.guard)
    ensures Guarded(k, pid)
  {
    var m := Mine(k, pid);
    var fd :| fd in m && m[fd].path == k.guard && m[fd].held != Free;
    assert fd in k.fds;
  }

  // The first i requests are locked, or listed to be looked at again.
  ghost predicate Covered(requests: seq<Request>, i: nat, guard: string, mine: map<Fd, Descr>,
          provisional: seq<string>) {
    forall j :: 0 <= j < i && j < |requests| && Guards(requests[j], guard) ==>
      GuardIn(mine, guard) || guard in provisional
  }

  // After one request more: calls a to b and stats was to now, of which those from call n on are Ask's.
  lemma Noted(init: Kernel, a: seq<Event>, b: seq<Event>, was: seq<string>, now: seq<string>, start: Start,
          requests: seq<Request>, i: nat, n: nat, mine: map<Fd, Descr>, held: map<Fd, Descr>, before: seq<string>,
          after: seq<string>, lock: Lock, absent: bool)
    requires Legal(init, a) && Legal(init, b) && a <= b && was <= now && start.calls <= n && start.stats <= |was|
    requires i < |requests| && Listed(init, a, start, requests, i, before)
    requires Covered(requests, i, init.guard, mine, before) || Missed(init, a, was, start, init.guard)
    requires after == if absent then before + [requests[i].path] else before
    requires absent ==> Rereads(requests[i]) && AbsentSince(init, b, n, requests[i].path)
    requires GuardIn(mine, init.guard) || (lock.On? && requests[i].path == init.guard) ==> GuardIn(held, init.guard)
    requires lock.Nothing? ==>
               requests[i].mode == Shared && !requests[i].dir && AbsentSince(init, b, n, requests[i].path)
    requires lock.Nothing? && Rereads(requests[i]) && !absent ==> |now| > |was| && now[|now| - 1] == requests[i].path
    ensures Listed(init, b, start, requests, i + 1, after)
    ensures Covered(requests, i + 1, init.guard, held, after) || Missed(init, b, now, start, init.guard)
  {
    hide Legal, Covered, GuardIn, Guards, Missed, Listed, AbsentSince;
    var req := requests[i];
    assert before + [] == before;
    ListedNext(init, a, b, start, requests, i, before, n, if absent then [req.path] else []);
    GuardsShared(req, init.guard);
    if Missed(init, a, was, start, init.guard) {
      MissedLonger(init, a, b, was, now, start, init.guard);
    } else if lock.Nothing? && Guards(req, init.guard) && !absent {
      MissedNow(init, b, now, start, n, init.guard);
    } else {
      CoveredNext(requests, i, init.guard, mine, held, before, after, lock, absent);
    }
  }

  lemma GuardsShared(r: Request, guard: string)
    ensures Guards(r, guard) && r.mode == Shared && !r.dir ==> Rereads(r) && r.path == guard
  {
  }

  lemma CoveredNone(requests: seq<Request>, guard: string, mine: map<Fd, Descr>)
    ensures Covered(requests, 0, guard, mine, [])
  {
  }

  lemma CoveredNext(requests: seq<Request>, i: nat, guard: string, was: map<Fd, Descr>, now: map<Fd, Descr>,
                    before: seq<string>, after: seq<string>, lock: Lock, absent: bool)
    requires i < |requests| && Covered(requests, i, guard, was, before)
    requires after == if absent then before + [requests[i].path] else before
    requires GuardIn(was, guard) || (lock.On? && requests[i].path == guard) ==> GuardIn(now, guard)
    requires lock.Nothing? && Guards(requests[i], guard) ==> absent
    ensures Covered(requests, i + 1, guard, now, after)
  {
    if absent { assert requests[i].path in after; }
  }

  /** Takes every lock of the requests in order, or none. Each request that guards the pair holds a lock on the lock
      file or has it listed to be looked at again, when no look at it failed. */
  method AcquireLocks(sys: System, configured: bool, requests: seq<Request>) returns (r: Locks)
    requires sys.Valid() && MayRelease(sys.k, sys.me) && forall i :: 0 <= i < |requests| ==> requests[i].mode != Free
    modifies sys`k, sys`log, sys`interrupts, sys`flocks, sys`time, sys`clock, sys`unanswered
    ensures sys.Valid() && old(sys.log) <= sys.log && FilesStay(old(sys.k), sys.k) && MayRelease(sys.k, sys.me)
    ensures old(sys.unanswered) <= sys.unanswered
    ensures r.NoLocks? ==> Mine(sys.k, sys.me) == Mine(old(sys.k), sys.me)
    ensures r == NoLocks(NotConfigured) <==> requests != [] && !configured
    ensures r.NoLocks? ==> Justified(sys.init, sys.log, sys.unanswered, sys.flocks.blocked, old(StartOf(sys)), requests,
                                     CanLock(sys), r.failure)
    ensures sys.flocks.blocked >= old(sys.flocks.blocked)
    ensures r.HeldLocks? ==> |r.locks| == |requests| && OwnFiles(r.locks) && fresh(Files(r.locks))
    ensures r.HeldLocks? ==> Took(Mine(sys.k, sys.me), Mine(old(sys.k), sys.me), sys.me, Nums(r.locks))
    ensures r.HeldLocks? ==> Listed(sys.init, sys.log, old(StartOf(sys)), requests, |requests|, r.provisional)
    ensures r.HeldLocks? ==> Shown(sys.init, sys.log, old(StartOf(sys)), requests, |requests|)
    ensures r.HeldLocks? ==> Covered(requests, |requests|, sys.init.guard, Mine(sys.k, sys.me), r.provisional) ||
                             Missed(sys.init, sys.log, sys.unanswered, old(StartOf(sys)), sys.init.guard)
  {
    assert Nums([]) == [] && Took(Mine(sys.k, sys.me), Mine(sys.k, sys.me), sys.me, []);
    hide Sound, Legal, Replay, Mine, MayRelease, Took, Nums, Covered, Missed, Shown;
    CoveredNone(requests, sys.init.guard, Mine(sys.k, sys.me));
    ShownNone(sys.init, sys.log, StartOf(sys), requests);
    if requests == [] { return HeldLocks([], []); }
    if !configured { return NoLocks(NotConfigured); }
    r := TakeAll(sys, StartOf(sys), requests);
  }

  method TakeAll(sys: System, ghost start: Start, requests: seq<Request>) returns (r: Locks)
    requires forall i :: 0 <= i < |requests| ==> requests[i].mode != Free
    requires TakenSoFar(sys, start, requests, 0, [], [])
    modifies sys`k, sys`log, sys`interrupts, sys`flocks, sys`time, sys`clock, sys`unanswered
    ensures old(sys.log) <= sys.log && FilesStay(old(sys.k), sys.k) && old(sys.unanswered) <= sys.unanswered
    ensures r.NoLocks? ==> sys.Valid() && MayRelease(sys.k, sys.me) && Mine(sys.k, sys.me) == start.mine
    ensures r.NoLocks? ==> r.failure != NotConfigured
    ensures r.NoLocks? ==> Justified(sys.init, sys.log, sys.unanswered, sys.flocks.blocked, start, requests,
                                     CanLock(sys), r.failure)
    ensures sys.flocks.blocked >= old(sys.flocks.blocked)
    ensures r.HeldLocks? ==>
              TakenSoFar(sys, start, requests, |requests|, r.locks, r.provisional) && fresh(Files(r.locks))
  {
    hide Sound, Legal, Replay, Mine, MayRelease, FilesStay, System.Valid, TakenSoFar, StartOf, Nums, Files, Justified;
    NothingTaken(sys.k);
    var locks: seq<Lock>, provisional: seq<string> := [], [];
    var i := 0;
    while i < |requests|
      invariant 0 <= i <= |requests| && TakenSoFar(sys, start, requests, i, locks, provisional)
      invariant old(sys.log) <= sys.log && FilesStay(old(sys.k), sys.k) && fresh(Files(locks))
      invariant old(sys.unanswered) <= sys.unanswered && sys.flocks.blocked >= old(sys.flocks.blocked)
    {
      var failure;
      ghost var was := sys.k;
      failure, locks, provisional := TakeOrRelease(sys, start, requests, i, locks, provisional);
      FilesStayOn(old(sys.k), was, sys.k);
      if failure.Some? { return NoLocks(failure.value); }
      i := i + 1;
    }
    return HeldLocks(locks, provisional);
  }

  lemma NothingTaken(k: Kernel)
    ensures FilesStay(k, k) && Files([]) == {}
  {
  }

  // The lock of one request more, or none at all.
  method TakeOrRelease(sys: System, ghost start: Start, requests: seq<Request>, i: nat, locks: seq<Lock>,
                       provisional: seq<string>)
    returns (failure: Option<LockFailure>, locks': seq<Lock>, provisional': seq<string>)
    requires i < |requests| && requests[i].mode != Free && TakenSoFar(sys, start, requests, i, locks, provisional)
    modifies sys`k, sys`log, sys`interrupts, sys`flocks, sys`time, sys`clock, sys`unanswered, Files(locks)
    ensures old(sys.log) <= sys.log && FilesStay(old(sys.k), sys.k) && old(sys.unanswered) <= sys.unanswered
    ensures failure.None? ==> TakenSoFar(sys, start, requests, i + 1, locks', provisional')
    ensures failure.None? ==> fresh(Files(locks') - Files(locks))
    ensures sys.flocks.blocked >= old(sys.flocks.blocked)
    ensures failure.Some? ==> sys.Valid() && MayRelease(sys.k, sys.me) && Mine(sys.k, sys.me) == start.mine
    ensures failure.Some? ==> failure.value != NotConfigured
    ensures failure.Some? ==> Justified(sys.init, sys.log, sys.unanswered, sys.flocks.blocked, start, requests,
                                        CanLock(sys), failure.value)
  {
    hide Sound, Legal, Replay, Mine, MayRelease, Took, Nums, Files, LastFirst, FilesStay, System.Valid, OwnFiles,
         TakenSoFar, Justified;
    failure, locks', provisional' := TakeNext(sys, start, requests, i, locks, provisional);
    if failure.Some? {
      ghost var was, log := sys.k, sys.log;
      ReleaseAll(sys, locks, start.mine);
      FilesStayOn(old(sys.k), was, sys.k);
      ValidIsLegal(sys);
      JustifiedLonger(sys.init, log, sys.log, sys.unanswered, sys.unanswered, sys.flocks.blocked, sys.flocks.blocked,
                      start, start, requests, CanLock(sys), failure.value);
    }
  }

  lemma ValidIsLegal(sys: System)
    requires sys.Valid()
    ensures Legal(sys.init, sys.log)
  {
  }

  // The state in the middle of AcquireLocks: the first i requests are locked.
  ghost predicate TakenSoFar(sys: System, start: Start, requests: seq<Request>, i: nat, locks: seq<Lock>,
          provisional: seq<string>)
    reads sys, Files(locks)
  {
    && |locks| == i && OwnFiles(locks)
    && sys.Valid() && MayRelease(sys.k, sys.me) && start.calls <= |sys.log|
    && start.stats <= |sys.unanswered| && start.blocked <= sys.flocks.blocked
    && Took(Mine(sys.k, sys.me), start.mine, sys.me, Nums(locks))
    && Listed(sys.init, sys.log, start, requests, i, provisional)
    && Shown(sys.init, sys.log, start, requests, i)
    && (Covered(requests, i, sys.init.guard, Mine(sys.k, sys.me), provisional) ||
        Missed(sys.init, sys.log, sys.unanswered, start, sys.init.guard))
  }

  // The lock of one request more.
  method TakeNext(sys: System, ghost start: Start, requests: seq<Request>, i: nat, locks: seq<Lock>,
                  provisional: seq<string>)
    returns (failure: Option<LockFailure>, locks': seq<Lock>, provisional': seq<string>)
    requires i < |requests| && requests[i].mode != Free && TakenSoFar(sys, start, requests, i, locks, provisional)
    modifies sys`k, sys`log, sys`interrupts, sys`flocks, sys`time, sys`clock, sys`unanswered
    ensures old(sys.log) <= sys.log && FilesStay(old(sys.k), sys.k) && old(sys.unanswered) <= sys.unanswered
    ensures failure.None? ==> TakenSoFar(sys, start, requests, i + 1, locks', provisional')
    ensures failure.None? ==> fresh(Files(locks') - Files(locks))
    ensures sys.flocks.blocked >= old(sys.flocks.blocked)
    ensures failure.Some? ==> sys.Valid() && MayRelease(sys.k, sys.me) && OwnFiles(locks)
    ensures failure.Some? ==>
              Took(Mine(sys.k, sys.me), start.mine, sys.me, Nums(locks)) && failure.value != NotConfigured
    ensures failure.Some? ==> Justified(sys.init, sys.log, sys.unanswered, sys.flocks.blocked, start, requests,
                                        CanLock(sys), failure.value)
  {
    hide Sound, Legal, Replay, Mine, MayRelease, Holding, Took, Nums, Covered, GuardIn, Guards, Missed, Listed,
         AbsentSince, Rereads, Justified, Shown, PresentSince;
    var req := requests[i];
    ghost var nums, log, stats, guard := Nums(locks), sys.log, sys.unanswered, sys.init.guard;
    locks', provisional' := locks, provisional;
    var found := FindRegistry(sys, start, requests, i);
    assert Nums(locks) == nums;
    if !found { return Some(RegistryUnreadable), locks', provisional'; }
    ghost var mine, n, looked := Mine(sys.k, sys.me), |sys.log|, sys.log;
    var acquired, absent := Ask(sys, req);
    assert Nums(locks) == nums;
    if acquired.Refused? {
      Unlocked(sys.init, sys.log, sys.unanswered, sys.flocks.blocked, start, requests, i, CanLock(sys), acquired.error);
      return Some(if acquired.error.Busy? then LockBusy else LockUnavailable), locks', provisional';
    }
    if absent { provisional' := provisional + [req.path]; }
    TookLock(mine, Mine(sys.k, sys.me), start.mine, sys.me, locks, acquired.lock, req.path, req.mode, guard);
    Append(locks, acquired.lock);
    ShownStep(sys.init, log, looked, sys.log, start, requests, i);
    Noted(sys.init, log, sys.log, stats, sys.unanswered, start, requests, i, n, mine, Mine(sys.k, sys.me), provisional,
          provisional', acquired.lock, absent);
    locks' := locks + [acquired.lock];
    failure := None;
  }

  // The look at the registry that a request asks for.
  method FindRegistry(sys: System, ghost start: Start, requests: seq<Request>, i: nat) returns (found: bool)
    requires sys.Valid() && MayRelease(sys.k, sys.me) && i < |requests|
    requires start.calls <= |sys.log| && start.stats <= |sys.unanswered|
    modifies sys`k, sys`log, sys`unanswered
    ensures sys.Valid() && MayRelease(sys.k, sys.me) && FilesStay(old(sys.k), sys.k)
    ensures old(sys.log) <= sys.log && old(sys.unanswered) <= sys.unanswered
    ensures Mine(sys.k, sys.me) == Mine(old(sys.k), sys.me)
    ensures found && Asks(requests[i]) ==>
              PresentSince(sys.init, sys.log, start.calls, requests[i].registry.value)
    ensures !found ==> forall blocked, works ::
                         Justified(sys.init, sys.log, sys.unanswered, blocked, start, requests, works,
                             RegistryUnreadable)
  {
    hide Sound, Legal, Replay, Mine, MayRelease, Justified, PresentSince;
    var req := requests[i];
    found := true;
    if req.registry.Some? && !req.skipRegistryCheck {
      ghost var log, stats := sys.log, sys.unanswered;
      var seen := sys.Stat(req.registry.value);
      Unreadable(sys.init, log, sys.log, stats, sys.unanswered, start, requests, i, seen);
      if seen.Present? { PresentNow(sys.init, sys.log, start, req.registry.value); }
      found := seen.Present?;
    }
  }

  lemma PresentNow(init: Kernel, log: seq<Event>, start: Start, p: string)
    requires Legal(init, log) && start.calls <= |log| && p in Replay(init, log).files
    ensures PresentSince(init, log, start.calls, p)
  {
    AtLast(init, log);
  }

  lemma ShownStep(init: Kernel, a: seq<Event>, looked: seq<Event>, b: seq<Event>, start: Start, requests: seq<Request>,
          i: nat)
    requires Legal(init, a) && Legal(init, b) && a <= looked <= b && i < |requests|
    requires Shown(init, a, start, requests, i)
    requires Asks(requests[i]) ==> PresentSince(init, looked, start.calls, requests[i].registry.value)
    ensures Shown(init, b, start, requests, i + 1)
  {
    hide Legal, PresentSince, Shown;
    if Asks(requests[i]) { PresentLonger(init, looked, b, start.calls, requests[i].registry.value); }
    ShownNext(init, a, b, start, requests, i);
  }

  // A look at a registry that does not show it.
  lemma Unreadable(init: Kernel, before: seq<Event>, log: seq<Event>, was: seq<string>, now: seq<string>, start: Start,
          requests: seq<Request>, i: nat, seen: Presence)
    requires i < |requests| && Asks(requests[i]) && Legal(init, log) && before <= log
    requires start.calls <= |before| && start.stats <= |was|
    requires seen.Absent? ==> requests[i].registry.value !in Replay(init, log).files
    requires now == was + if seen.Unknown? then [requests[i].registry.value] else []
    ensures forall blocked, works :: !seen.Present? ==>
                                       Justified(init, log, now, blocked, start, requests, works, RegistryUnreadable)
  {
    var p := requests[i].registry.value;
    AtLast(init, log);
    if seen.Absent? { assert AbsentSince(init, log, start.calls, p); }
    if seen.Unknown? { assert now[start.stats..] == was[start.stats..] + [p]; }
  }

  // A lock that is refused.
  lemma Unlocked(init: Kernel, log: seq<Event>, stats: seq<string>, blocked: int, start: Start, requests: seq<Request>,
          i: nat, works: bool, e: FileLock.Error)
    requires i < |requests| && (e.Busy? ==> blocked > start.blocked) && (!e.Busy? && works ==> requests[i].dir)
    ensures Justified(init, log, stats, blocked, start, requests, works, if e.Busy? then LockBusy else LockUnavailable)
  {
  }

  lemma TookLock(was: map<Fd, Descr>, now: map<Fd, Descr>, base: map<Fd, Descr>, me: nat, locks: seq<Lock>,
          lock: Lock, path: string, mode: Held, guard: string)
    requires Took(was, base, me, Nums(locks)) && mode != Free
    requires if lock.On? then lock.file.num >= 0 && Holding(was, now, Fd(me, lock.file.num), path, mode) else now == was
    ensures Took(now, base, me, Nums(locks) + [Num(lock)])
    ensures GuardIn(was, guard) || (lock.On? && path == guard) ==> GuardIn(now, guard)
  {
    TakeOne(was, now, base, me, Nums(locks), Num(lock));
    if lock.On? { GuardInHolding(was, now, Fd(me, lock.file.num), path, mode, guard); }
  }

  lemma Append(locks: seq<Lock>, lock: Lock)
    ensures Nums(locks + [lock]) == Nums(locks) + [Num(lock)]
    ensures Files(locks + [lock]) == Files(locks) + if lock.On? then {lock.file} else {}
  {
    var both := locks + [lock];
    assert both[..|locks|] == locks;
    forall f | f in Files(locks)
      ensures f in Files(both)
    {
      var i :| 0 <= i < |locks| && locks[i].On? && locks[i].file == f;
      assert both[i].On? && both[i].file == f;
    }
    assert both[|locks|] == lock;
  }

  /** One request: looks whether the lock file of a read that is made again is absent, and then takes the lock. A file
      it reports absent was absent. A lock that holds nothing on a file it does not report was looked at in vain. */
  method Ask(sys: System, req: Request) returns (acquired: Acquired, absent: bool)
    requires sys.Valid() && MayRelease(sys.k, sys.me) && req.mode != Free
    modifies sys`k, sys`log, sys`interrupts, sys`flocks, sys`time, sys`clock, sys`unanswered
    ensures sys.Valid() && old(sys.log) <= sys.log && FilesStay(old(sys.k), sys.k) && MayRelease(sys.k, sys.me)
    ensures acquired.Refused? || acquired.lock.Nothing? ==> Mine(sys.k, sys.me) == Mine(old(sys.k), sys.me)
    ensures acquired.Taken? && acquired.lock.On? ==> fresh(acquired.lock.file) && acquired.lock.file.num >= 0
    ensures acquired.Taken? && acquired.lock.On? ==>
              Holding(Mine(old(sys.k), sys.me), Mine(sys.k, sys.me), Fd(sys.me, acquired.lock.file.num), req.path,
                  req.mode)
    ensures absent ==> Rereads(req) && AbsentSince(sys.init, sys.log, |old(sys.log)|, req.path)
    ensures sys.unanswered == old(sys.unanswered)
            || (Rereads(req) && sys.unanswered == old(sys.unanswered) + [req.path])
    ensures acquired.Taken? && acquired.lock.Nothing? ==>
              req.mode == Shared && !req.dir && AbsentSince(sys.init, sys.log, |old(sys.log)|, req.path)
    ensures acquired.Taken? && acquired.lock.Nothing? && Rereads(req) && !absent ==>
              sys.unanswered == old(sys.unanswered) + [req.path]
    // Busy only for a conflicting lock, and otherwise refused only when locks do not work, or for a directory.
    ensures sys.flocks.blocked >= old(sys.flocks.blocked)
    ensures acquired.Refused? && acquired.error.Busy? ==> sys.flocks.blocked > old(sys.flocks.blocked)
    ensures acquired.Refused? && !acquired.error.Busy? && CanLock(sys) ==> req.dir
  {
    hide Sound, Legal, Replay, Mine, MayRelease, Holding;
    absent := false;
    if req.rereads && !req.dir && req.mode == Shared {
      var seen := sys.Stat(req.path);
      absent := seen.Absent?;
      AtLast(sys.init, sys.log);
    }
    ghost var looked := sys.log;
    ghost var attempts;
    acquired, attempts := Acquire(sys, req.path, Options(req.mode, 0, false, 0), req.dir);
    AtLast(sys.init, sys.log);
    AbsentLonger(sys.init, looked, sys.log, |old(sys.log)|, [req.path]);
  }

  // --- the read ---

  // Reads the registry and the manifest, one after the other, with other processes acting before each.
  method ReadPair(sys: System) returns (manifest: int, registry: int, ghost i: nat, ghost j: nat)
    requires sys.Valid()
    modifies sys`k, sys`log, sys`pairReads
    ensures sys.Valid() && old(sys.log) <= sys.log && FilesStay(old(sys.k), sys.k)
    ensures Foreign(sys.log, |old(sys.log)|, sys.me) && Mine(sys.k, sys.me) == Mine(old(sys.k), sys.me)
    ensures MayRelease(old(sys.k), sys.me) ==> MayRelease(sys.k, sys.me)
    ensures sys.pairReads == old(sys.pairReads) + 1
    ensures |old(sys.log)| <= i <= j <= |sys.log|
    ensures registry == At(sys.init, sys.log, i).registry && manifest == At(sys.init, sys.log, j).manifest
  {
    hide Sound, MayRelease, Mine;
    sys.pairReads := sys.pairReads + 1;
    sys.OthersMayRelease();
    registry, i := sys.k.registry, |sys.log|;
    ghost var a := sys.log;
    AtLast(sys.init, a);
    sys.OthersMayRelease();
    manifest, j := sys.k.manifest, |sys.log|;
    AtLast(sys.init, sys.log);
    AtLonger(sys.init, a, sys.log, i);
  }

  /** Looks at every provisional lock file again. appeared says that one was there, unknown that a look gave no answer:
      both signals are reported, neither hides the other, and without them every file was still absent. */
  method RereadsWhenTheLockFileAppears(sys: System, provisional: seq<string>) returns (appeared: bool, unknown: bool)
    requires sys.Valid()
    modifies sys`k, sys`log, sys`unanswered
    ensures sys.Valid() && old(sys.log) <= sys.log && FilesStay(old(sys.k), sys.k)
    ensures Foreign(sys.log, |old(sys.log)|, sys.me) && Mine(sys.k, sys.me) == Mine(old(sys.k), sys.me)
    ensures MayRelease(old(sys.k), sys.me) ==> MayRelease(sys.k, sys.me)
    ensures appeared ==> exists p :: p in provisional && p in sys.k.files
    ensures old(sys.unanswered) <= sys.unanswered
    ensures forall p :: p in sys.unanswered[|old(sys.unanswered)|..] ==> p in provisional
    ensures unknown <==> |sys.unanswered| > |old(sys.unanswered)|
    ensures !appeared ==> forall p :: p in provisional ==>
              AbsentSince(sys.init, sys.log, |old(sys.log)|, p) || p in sys.unanswered[|old(sys.unanswered)|..]
  {
    hide Sound, MayRelease, Mine, Legal, Replay;
    appeared, unknown := false, false;
    ghost var n := |sys.unanswered|;
    var i := 0;
    while i < |provisional|
      invariant 0 <= i <= |provisional|
      invariant sys.Valid() && old(sys.log) <= sys.log && FilesStay(old(sys.k), sys.k)
      invariant Foreign(sys.log, |old(sys.log)|, sys.me) && Mine(sys.k, sys.me) == Mine(old(sys.k), sys.me)
      invariant MayRelease(old(sys.k), sys.me) ==> MayRelease(sys.k, sys.me)
      invariant appeared ==> exists p :: p in provisional && p in sys.k.files
      invariant old(sys.unanswered) <= sys.unanswered && (unknown <==> |sys.unanswered| > n)
      invariant forall p :: p in sys.unanswered[n..] ==> p in provisional
      invariant !appeared ==> forall p :: p in provisional[..i] ==>
                  AbsentSince(sys.init, sys.log, |old(sys.log)|, p) || p in sys.unanswered[n..]
    {
      ghost var a, stats := sys.log, sys.unanswered;
      var seen := sys.Stat(provisional[i]);
      assert sys.unanswered[n..] == stats[n..] + if seen.Unknown? then [provisional[i]] else [];
      appeared, unknown := appeared || seen.Present?, unknown || seen.Unknown?;
      AbsentLonger(sys.init, a, sys.log, |old(sys.log)|, provisional[..i]);
      AtLast(sys.init, sys.log);
      assert seen.Absent? ==> AbsentSince(sys.init, sys.log, |old(sys.log)|, provisional[i]);
      i := i + 1;
    }
  }

  // What was read is the pair as it was, whole, from some moment of the run to another.
  ghost predicate Stands(init: Kernel, log: seq<Event>, n: nat, manifest: int, registry: int) {
    Legal(init, log) && exists i, j :: n <= i <= j <= |log| && StandsFrom(init, log, i, j, manifest, registry)
  }

  ghost predicate StandsFrom(init: Kernel, log: seq<Event>, i: nat, j: nat, manifest: int, registry: int)
    requires Legal(init, log) && i <= j <= |log|
  {
    Unchanging(init, log, i, j) && Whole(At(init, log, i)) && At(init, log, i).manifest == manifest
        && At(init, log, i).registry == registry
  }

  lemma StandsLonger(init: Kernel, a: seq<Event>, b: seq<Event>, n: nat, m: nat, manifest: int, registry: int)
    requires Legal(init, b) && a <= b && m <= n && Stands(init, a, n, manifest, registry)
    ensures Stands(init, b, m, manifest, registry)
  {
    var i, j :| n <= i <= j <= |a| && StandsFrom(init, a, i, j, manifest, registry);
    forall k | i <= k <= j
      ensures At(init, b, k) == At(init, a, k)
    {
      AtLonger(init, a, b, k);
    }
    assert StandsFrom(init, b, i, j, manifest, registry);
  }

  // The moments of one attempt: the locks are taken at n, the pair is read at i and j, and the lock files are looked
  // at from m on.
  lemma AttemptStands(init: Kernel, log: seq<Event>, n: nat, i: nat, j: nat, m: nat, pid: nat)
    requires Legal(init, log) && Sound(init) && Foreign(log, n, pid) && n <= i <= j <= m <= |log|
    requires MayRelease(At(init, log, n), pid)
    requires GuardIn(Mine(At(init, log, n), pid), init.guard) || AbsentSince(init, log, m, init.guard)
    ensures Stands(init, log, n, At(init, log, j).manifest, At(init, log, i).registry)
  {
    GuardStays(init, log, n);
    AtSound(init, log, n);
    var k := At(init, log, n);
    var last: nat;
    if AbsentSince(init, log, m, init.guard) {
      last :| m <= last <= |log| && init.guard !in At(init, log, last).files;
      AbsentAfterRead(init, log, n, last);
    } else {
      GuardInIsGuarded(k, pid);
      last := |log|;
      ForeignPair(init, log, n, pid);
      if Writer(k, pid) {
        var fd :| fd in k.fds && fd.pid == pid && HoldsGuard(k, fd);
        HolderOwns(k, fd);
      }
      GuardedWhole(k, pid);
    }
    assert SamePair(k, At(init, log, i)) && SamePair(k, At(init, log, j));
    assert StandsFrom(init, log, n, last, At(init, log, j).manifest, At(init, log, i).registry);
  }

  /** Reads the pair under the locks of the requests, again when a lock file appeared during a read, three times at
      most. A pair it returns was never torn: it is what the two files held together from some moment to another, and
      nobody was between writing one and the other. With looks that are answered this has no exception; the one there
      is wants a stat of the lock file that failed and a lock file that was absent. */
  method ReadConsistently(sys: System, configured: bool, requests: seq<Request>) returns (r: Read, ghost made: nat)
    requires sys.Valid() && MayRelease(sys.k, sys.me) && forall i :: 0 <= i < |requests| ==> requests[i].mode != Free
    requires exists i :: 0 <= i < |requests| && Guards(requests[i], sys.init.guard)
    modifies sys`k, sys`log, sys`interrupts, sys`flocks, sys`time, sys`clock, sys`unanswered, sys`pairReads
    ensures sys.Valid() && old(sys.log) <= sys.log && MayRelease(sys.k, sys.me)
    ensures Mine(sys.k, sys.me) == Mine(old(sys.k), sys.me)
    ensures r.Pair? ==> Stands(sys.init, sys.log, |old(sys.log)|, r.manifest, r.registry) ||
                        Missed(sys.init, sys.log, sys.unanswered, old(StartOf(sys)), sys.init.guard)
    ensures r.Pair? && sys.answers ==> Stands(sys.init, sys.log, |old(sys.log)|, r.manifest, r.registry)
    ensures made <= 3 && (r.Pair? ==> made >= 1) && sys.pairReads == old(sys.pairReads) + made
    ensures r.Raced? ==> r.attempts == made && (!r.inspection ==> made == 3)
    ensures r.Raced? && r.inspection ==> |sys.unanswered| > |old(sys.unanswered)|
    ensures r == Read.NotLocked(NotConfigured) <==> !configured
    // What a refusal says is so.
    ensures r.NotLocked? ==> Justified(sys.init, sys.log, sys.unanswered, sys.flocks.blocked, old(StartOf(sys)),
                                       requests, CanLock(sys), r.failure)
    ensures r.Raced? && !r.inspection ==> Appeared(sys.init, sys.log, old(StartOf(sys)), requests)
  {
    hide Sound, MayRelease, Mine, Legal, Replay, Stands, Guards, Missed, Justified, Appeared;
    ghost var start := StartOf(sys);
    var attempt := 1;
    made := 0;
    while true
      invariant 1 <= attempt <= MAX_REREAD_ATTEMPTS && made == attempt - 1
      invariant attempt > 1 ==> configured
      invariant sys.Valid() && old(sys.log) <= sys.log && MayRelease(sys.k, sys.me)
      invariant old(sys.unanswered) <= sys.unanswered && sys.pairReads == old(sys.pairReads) + made
      invariant Mine(sys.k, sys.me) == Mine(old(sys.k), sys.me) && sys.flocks.blocked >= start.blocked
      decreases MAX_REREAD_ATTEMPTS - attempt
    {
      var raced: bool, unknown: bool, manifest: int, registry: int, failure: Option<LockFailure>;
      failure, raced, unknown, manifest, registry := Attempt(sys, configured, requests, start);
      if failure.Some? { return Read.NotLocked(failure.value), made; }
      made := made + 1;
      if unknown { return Raced(true, attempt), made; }
      if !raced {
        MissedNone(sys.init, sys.log, sys.unanswered, start, sys.init.guard);
        return Pair(manifest, registry), made;
      }
      if attempt >= MAX_REREAD_ATTEMPTS { return Raced(false, attempt), made; }
      attempt := attempt + 1;
    }
  }

  // One attempt: takes the locks, reads, looks at the lock files again, and lets go.
  method Attempt(sys: System, configured: bool, requests: seq<Request>, ghost start: Start)
    returns (failure: Option<LockFailure>, raced: bool, unknown: bool, manifest: int, registry: int)
    requires sys.Valid() && MayRelease(sys.k, sys.me) && forall i :: 0 <= i < |requests| ==> requests[i].mode != Free
    requires exists i :: 0 <= i < |requests| && Guards(requests[i], sys.init.guard)
    requires start.calls <= |sys.log| && start.stats <= |sys.unanswered| && start.blocked <= sys.flocks.blocked
    modifies sys`k, sys`log, sys`interrupts, sys`flocks, sys`time, sys`clock, sys`unanswered, sys`pairReads
    ensures sys.Valid() && old(sys.log) <= sys.log && MayRelease(sys.k, sys.me)
    ensures old(sys.unanswered) <= sys.unanswered
    ensures sys.pairReads == old(sys.pairReads) + if failure.None? then 1 else 0
    ensures Mine(sys.k, sys.me) == Mine(old(sys.k), sys.me)
    ensures failure == Some(NotConfigured) <==> !configured
    ensures sys.flocks.blocked >= old(sys.flocks.blocked)
    ensures failure.Some? ==> Justified(sys.init, sys.log, sys.unanswered, sys.flocks.blocked, start, requests,
                                        CanLock(sys), failure.value)
    ensures failure.None? && raced ==> Appeared(sys.init, sys.log, start, requests)
    ensures failure.None? && unknown ==> |sys.unanswered| > |old(sys.unanswered)|
    ensures failure.None? && !raced && !unknown ==>
              Stands(sys.init, sys.log, start.calls, manifest, registry) ||
              Missed(sys.init, sys.log, sys.unanswered, start, sys.init.guard)
  {
    hide Sound, MayRelease, Mine, Legal, Replay, Guards, Took, Nums, Missed, Stands, Listed, Justified, Appeared;
    raced, unknown, manifest, registry := false, false, 0, 0;
    ghost var init, base, here := sys.init, Mine(sys.k, sys.me), StartOf(sys);
    var held := AcquireLocks(sys, configured, requests);
    if held.NoLocks? {
      JustifiedLonger(init, sys.log, sys.log, sys.unanswered, sys.unanswered, sys.flocks.blocked, sys.flocks.blocked,
                      here, start, requests, CanLock(sys), held.failure);
      return Some(held.failure), raced, unknown, manifest, registry;
    }
    ghost var a, stats, nums := sys.log, sys.unanswered, Nums(held.locks);
    AtLast(init, a);
    ghost var i, j;
    manifest, registry, i, j := ReadPair(sys);
    ghost var b := sys.log;
    raced, unknown := RereadsWhenTheLockFileAppears(sys, held.provisional);
    ghost var c := sys.log;
    AtLonger(init, a, c, |a|);
    AtLonger(init, b, c, i);
    AtLonger(init, b, c, j);
    if raced { AppearedNow(init, a, c, here, requests, held.provisional); }
    ghost var missed := Missed(init, a, stats, here, init.guard);
    if !raced && !unknown && !missed {
      ghost var g :| 0 <= g < |requests| && Guards(requests[g], init.guard);
      AttemptStands(init, c, |a|, i, j, |b|, sys.me);
      StandsLonger(init, c, c, |a|, start.calls, manifest, registry);
    }
    assert Nums(held.locks) == nums;
    ReleaseAll(sys, held.locks, base);
    if raced { AppearedLonger(init, c, sys.log, here, start, requests); }
    if missed {
      MissedEarlier(init, a, stats, here, start, init.guard);
      MissedLonger(init, a, sys.log, stats, sys.unanswered, start, init.guard);
    } else if !raced && !unknown {
      StandsLonger(init, c, sys.log, start.calls, start.calls, manifest, registry);
    }
    failure := None;
  }

  /** One read under a shared lock that holds nothing: the lock file is looked at (a), its open finds it missing (b),
      the registry and the manifest are read (i and j), and a file found absent at first is looked at again (m). */
  datatype Run = Run(init: Kernel, log: seq<Event>, pid: nat, a: nat, b: nat, i: nat, j: nat, m: nat)

  ghost predicate Reads(r: Run, look: Presence) {
    && Sound(r.init) && Legal(r.init, r.log) && Foreign(r.log, 0, r.pid) && MayRelease(r.init, r.pid)
    && r.a <= r.b <= r.i <= r.j <= r.m <= |r.log|
    && (look.Present? ==> r.init.guard in At(r.init, r.log, r.a).files)
    && (look.Absent? ==> r.init.guard !in At(r.init, r.log, r.a).files)
    && r.init.guard !in At(r.init, r.log, r.b).files
    && (look.Absent? ==> r.init.guard !in At(r.init, r.log, r.m).files)
  }

  ghost predicate ReadStands(r: Run)
    requires Legal(r.init, r.log) && r.i <= |r.log| && r.j <= |r.log|
  {
    Stands(r.init, r.log, 0, At(r.init, r.log, r.j).manifest, At(r.init, r.log, r.i).registry)
  }

  /** Such a read stands in every run exactly when the first look was answered. */
  lemma ReadStandsIffAnswered(look: Presence)
    ensures (forall r: Run :: Reads(r, look) ==> ReadStands(r)) <==> !look.Unknown?
  {
    if look.Unknown? {
      UncheckedReadCanTear("");
      var r := TornRun("");
      assert Reads(r, look) && !ReadStands(r);
    } else {
      forall r: Run | Reads(r, look)
        ensures ReadStands(r)
      {
        if look.Present? {
          LockFileStays(r.init, r.log, r.a, r.b, r.init.guard);
          assert false;
        } else {
          AbsentAfterRead(r.init, r.log, r.i, r.m);
          assert SamePair(At(r.init, r.log, r.i), At(r.init, r.log, r.j));
          assert StandsFrom(r.init, r.log, r.i, r.m, At(r.init, r.log, r.j).manifest, At(r.init, r.log, r.i).registry);
        }
      }
    }
  }

  // The first writer creates the lock file, takes the lock and writes the pair twice, between the read of the registry
  // and that of the manifest.
  function TornRun(guard: string): Run {
    var log := [Create(Fd(2, 3), guard), Flock(Fd(2, 3), Exclusive), WriteManifest(2, 1), WriteRegistry(2, 1),
                WriteManifest(2, 2), WriteRegistry(2, 2)];
    Run(Kernel(guard, map[], map[], 0, 0, 0, false), log, 1, 0, 0, 0, 6, 6)
  }

  // One write of a holder of the guard, as the call after the first i.
  lemma WriteStep(init: Kernel, log: seq<Event>, i: nat, k: Kernel)
    requires i < |log| && Legal(init, log[..i]) && Replay(init, log[..i]) == k
    requires HoldsGuard(k, Fd(2, 3)) && (log[i].WriteManifest? || log[i].WriteRegistry?) && log[i].pid == 2
    ensures Legal(init, log[..i + 1]) && Replay(init, log[..i + 1]) == Apply(k, log[i])
    ensures HoldsGuard(Apply(k, log[i]), Fd(2, 3))
  {
    Extend(init, log[..i], log[i]);
    assert log[..i + 1] == log[..i] + [log[i]];
  }

  /** What a look that gives no answer costs, at the steps of Ask and ReadPair: the pair read is one the two files never
      held together. */
  lemma UncheckedReadCanTear(guard: string)
    ensures var r := TornRun(guard);
            && Reads(r, Unknown) && !ReadStands(r)
            && forall k :: 0 <= k <= |r.log| ==>
                 At(r.init, r.log, k).manifest != At(r.init, r.log, r.j).manifest ||
                 At(r.init, r.log, k).registry != At(r.init, r.log, r.i).registry
  {
    var r := TornRun(guard);
    TornPairs(guard);
    assert Foreign(r.log, 0, 1) && MayRelease(r.init, 1);
    hide Sound, Stands, Legal, Replay, At, Foreign, MayRelease;
    NeverHeldNeverStands(r.init, r.log, 2, 0);
  }

  // The pair at each moment of the run.
  lemma TornPairs(guard: string)
    ensures var r := TornRun(guard);
            && Sound(r.init) && Legal(r.init, r.log) && |r.log| == 6 && At(r.init, r.log, 0) == r.init
            && At(r.init, r.log, 6).manifest == 2
            && forall k :: 0 <= k <= 6 ==> At(r.init, r.log, k).manifest < 2 || At(r.init, r.log, k).registry > 0
  {
    var r := TornRun(guard);
    var init, log, fd := r.init, r.log, Fd(2, 3);
    var k2 := Kernel(guard, map[guard := 0], map[fd := Descr(guard, 0, Exclusive)], 1, 0, 0, false);
    TornStart(guard, log);
    assert log[2..] == [WriteManifest(2, 1), WriteRegistry(2, 1), WriteManifest(2, 2), WriteRegistry(2, 2)];
    assert HoldsGuard(k2, fd);
    hide Sound, Legal, Replay, HoldsGuard, TornRun;
    TornWrites(init, log, k2);
    assert log[..6] == log;
    TornMoments(init, log);
  }

  lemma TornMoments(init: Kernel, log: seq<Event>)
    requires Legal(init, log) && |log| == 6
    requires At(init, log, 0).manifest < 2 && At(init, log, 1).manifest < 2 && At(init, log, 2).manifest < 2
    requires At(init, log, 3).manifest < 2 && At(init, log, 4).manifest < 2
    requires At(init, log, 5).registry > 0 && At(init, log, 6).registry > 0
    ensures forall k :: 0 <= k <= 6 ==> At(init, log, k).manifest < 2 || At(init, log, k).registry > 0
  {
    hide Legal, At;
  }

  // The four writes, and what the pair is after each.
  lemma TornWrites(init: Kernel, log: seq<Event>, k2: Kernel)
    requires |log| == 6 && Legal(init, log[..2]) && Replay(init, log[..2]) == k2 && HoldsGuard(k2, Fd(2, 3))
    requires k2.manifest == k2.registry == 0 && !k2.abandoned
    requires log[2..] == [WriteManifest(2, 1), WriteRegistry(2, 1), WriteManifest(2, 2), WriteRegistry(2, 2)]
    ensures Legal(init, log[..3]) && Replay(init, log[..3]) == k2.(manifest := 1)
    ensures Legal(init, log[..4]) && Replay(init, log[..4]) == k2.(manifest := 1, registry := 1)
    ensures Legal(init, log[..5]) && Replay(init, log[..5]) == k2.(manifest := 2, registry := 1)
    ensures Legal(init, log[..6]) && Replay(init, log[..6]) == k2.(manifest := 2, registry := 2)
  {
    hide Legal, Replay;
    assert log[2] == WriteManifest(2, 1) && log[3] == WriteRegistry(2, 1);
    assert log[4] == WriteManifest(2, 2) && log[5] == WriteRegistry(2, 2);
    WriteStep(init, log, 2, k2);
    WriteStep(init, log, 3, k2.(manifest := 1));
    WriteStep(init, log, 4, k2.(manifest := 1, registry := 1));
    WriteStep(init, log, 5, k2.(manifest := 2, registry := 1));
  }

  lemma TornStart(guard: string, log: seq<Event>)
    requires |log| >= 2 && log[0] == Create(Fd(2, 3), guard) && log[1] == Flock(Fd(2, 3), Exclusive)
    ensures var init := Kernel(guard, map[], map[], 0, 0, 0, false);
            && Sound(init) && Legal(init, log[..2])
            && Replay(init, log[..0]) == init && Replay(init, log[..1]) == Apply(init, log[0])
            && Replay(init, log[..2]) ==
              Kernel(guard, map[guard := 0], map[Fd(2, 3) := Descr(guard, 0, Exclusive)], 1, 0, 0, false)
  {
    var init := Kernel(guard, map[], map[], 0, 0, 0, false);
    assert Sound(init);
    hide Sound;
    Extend(init, [], log[0]);
    assert log[..1] == [] + [log[0]] && log[..2] == log[..1] + [log[1]] && log[..0] == [];
    Extend(init, log[..1], log[1]);
  }

  lemma NeverHeldNeverStands(init: Kernel, log: seq<Event>, manifest: int, registry: int)
    requires Legal(init, log)
    requires forall k :: 0 <= k <= |log| ==>
               At(init, log, k).manifest != manifest || At(init, log, k).registry != registry
    ensures !Stands(init, log, 0, manifest, registry)
  {
  }
}
