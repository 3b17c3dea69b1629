/**
  What the discipline of engine/atomicfile gives to every reader and after every crash, whatever number of writers
  make their system calls in whatever order: theorems about all legal logs.
 */
module Races {
  import opened Wrappers
  import opened FileSystem

  // The content the writer of a temporary file set out to put in it.
  ghost function GoalOf(init: FS, log: seq<Event>, t: Path): Node
    decreases |log|
  {
    if log == [] then
      if t in init.names && init.names[t] < |init.inodes| then init.inodes[init.names[t]].goal else Special
    else match log[|log| - 1]
      case CreateTemp(u, goal, _, _) => if u == t then goal else GoalOf(init, log[..|log| - 1], t)
      case _ => GoalOf(init, log[..|log| - 1], t)
  }

  // The name p as a register: each rename, link or swap at p writes a whole file to it in one go, an unlink empties it.
  ghost function Register(init: FS, log: seq<Event>, p: Path): Option<Node>
    decreases |log|
  {
    if log == [] then Look(init, p)
    else
      var before := log[..|log| - 1];
      match log[|log| - 1]
      case Rename(t, q) => if q == p then Some(GoalOf(init, before, t)) else Register(init, before, p)
      case Link(t, q) => if q == p then Some(GoalOf(init, before, t)) else Register(init, before, p)
      case Swap(q, n, _) => if q == p then Some(n) else Register(init, before, p)
      case Unlink(q) => if q == p then None else Register(init, before, p)
      case _ => Register(init, before, p)
  }

  // Every writer of the log flushes its file before it puts it at p.
  ghost predicate AllSync(init: FS, log: seq<Event>, p: Path) {
    && (forall t :: t in init.names && t.Temp? && init.names[t] < |init.inodes| ==> init.inodes[init.names[t]].sync)
    && (forall k :: 0 <= k < |log| && log[k].CreateTemp? ==> log[k].sync)
    && (forall k :: 0 <= k < |log| && log[k].Swap? && log[k].name == p ==> log[k].flushed)
  }

  lemma {:induction false} TempGoal(init: FS, log: seq<Event>, t: Path)
    requires WellFormed(init) && Legal(init, log) && t.Temp? && t in Replay(init, log).names
    ensures Replay(init, log).names[t] < |Replay(init, log).inodes|
    ensures Replay(init, log).inodes[Replay(init, log).names[t]].goal == GoalOf(init, log, t)
    decreases |log|
  {
    if log != [] {
      var before, e := log[..|log| - 1], log[|log| - 1];
      ReplayWellFormed(init, before);
      StepTemp(Replay(init, before), e, t);
      if !(e.CreateTemp? && e.tmp == t) {
        TempGoal(init, before, t);
      }
    }
  }

  lemma {:induction false} TempSync(init: FS, log: seq<Event>, t: Path, p: Path)
    requires WellFormed(init) && Legal(init, log) && AllSync(init, log, p) && t.Temp? && t in Replay(init, log).names
    ensures Replay(init, log).names[t] < |Replay(init, log).inodes|
    ensures Replay(init, log).inodes[Replay(init, log).names[t]].sync
    decreases |log|
  {
    if log != [] {
      var before, e := log[..|log| - 1], log[|log| - 1];
      ReplayWellFormed(init, before);
      StepTemp(Replay(init, before), e, t);
      if !(e.CreateTemp? && e.tmp == t) {
        AllSyncBefore(init, log, p);
        TempSync(init, before, t, p);
      }
    }
  }

  lemma ReplayWellFormed(init: FS, log: seq<Event>)
    requires WellFormed(init) && Legal(init, log)
    ensures WellFormed(Replay(init, log))
  {
    AtWellFormed(init, log, |log|);
    assert log[..|log|] == log;
  }

  lemma AllSyncBefore(init: FS, log: seq<Event>, p: Path)
    requires AllSync(init, log, p) && log != []
    ensures AllSync(init, log[..|log| - 1], p)
  {
    assert forall k :: 0 <= k < |log| - 1 ==> log[..|log| - 1][k] == log[k];
  }

  // What a reader finds at the name a call changes.
  lemma PutThere(fs: FS, e: Event, p: Path)
    requires WellFormed(fs) && Allowed(fs, e) && Renames(e, p) && p.Name?
    ensures e.Rename? || e.Link? ==> e.tmp.Temp? && e.tmp in fs.names && fs.names[e.tmp] < |fs.inodes|
    ensures e.Rename? || e.Link? ==> Look(Apply(fs, e), p) == Some(fs.inodes[fs.names[e.tmp]].goal)
    ensures e.Swap? ==> Look(Apply(fs, e), p) == Some(e.node)
    ensures e.Unlink? ==> Look(Apply(fs, e), p) == None
  {
  }

  /** A name is an atomic register: after any calls of any writers, a reader of p finds exactly what the last rename,
      link, swap or unlink of p made of it, wholly. */
  lemma {:induction false} NameIsAtomicRegister(init: FS, log: seq<Event>, p: Path)
    requires WellFormed(init) && Legal(init, log) && p.Name?
    ensures Look(Replay(init, log), p) == Register(init, log, p)
    decreases |log|
  {
    if log != [] {
      var before, e := log[..|log| - 1], log[|log| - 1];
      var fs := Replay(init, before);
      NameIsAtomicRegister(init, before, p);
      ReplayWellFormed(init, before);
      hide Apply, Allowed, WellFormed, Calm;
      if Renames(e, p) {
        PutThere(fs, e, p);
        if e.Rename? || e.Link? { TempGoal(init, before, e.tmp); }
      } else {
        StepCalm(fs, e, p);
        CalmFinds(fs, Apply(fs, e), p);
      }
    }
  }

  // f is what the register held after some number of the calls.
  ghost predicate Held(init: FS, log: seq<Event>, p: Path, f: Found) {
    exists k :: 0 <= k <= |log|
      && f == match Register(init, log[..k], p) { case Some(n) => Holds(n) case None => Absent }
  }

  lemma HeldLonger(init: FS, log: seq<Event>, p: Path, f: Found)
    requires log != [] && Held(init, log[..|log| - 1], p, f)
    ensures Held(init, log, p, f)
  {
    var before := log[..|log| - 1];
    var k :| 0 <= k <= |before|
        && f == match Register(init, before[..k], p) { case Some(n) => Holds(n) case None => Absent };
    assert before[..k] == log[..k];
  }

  lemma HeldNow(init: FS, log: seq<Event>, p: Path)
    ensures Held(init, log, p, match Register(init, log, p) { case Some(n) => Holds(n) case None => Absent })
  {
    assert log[..|log|] == log;
  }

  /** Crash safety under any race: when every writer flushes before it renames, a crash after any calls of any
      writers finds at p what it could find at the start, or a whole file that was at p, never a mix. */
  lemma {:induction false} CrashFindsWhatWasHeld(init: FS, log: seq<Event>, p: Path, f: Found)
    requires WellFormed(init) && Legal(init, log) && p.Name? && AllSync(init, log, p)
    requires MayFind(Replay(init, log), p, f)
    ensures MayFind(init, p, f) || (f != Torn && Held(init, log, p, f))
    decreases |log|
  {
    if log != [] {
      var before, e := log[..|log| - 1], log[|log| - 1];
      var fs := Replay(init, before);
      ReplayWellFormed(init, before);
      AllSyncBefore(init, log, p);
      if MayFind(fs, p, f) {
        CrashFindsWhatWasHeld(init, before, p, f);
        if f != Torn && Held(init, before, p, f) { HeldLonger(init, log, p, f); }
      } else if Renames(e, p) {
        if e.Rename? || e.Link? { TempSync(init, before, e.tmp, p); }
        NewFind(fs, e, p, f);
        NameIsAtomicRegister(init, log, p);
        HeldNow(init, log, p);
      } else {
        StepCalm(fs, e, p);
        CalmFinds(fs, Apply(fs, e), p);
      }
    }
  }

  // What one call on a name adds to what a crash may find there is what a reader finds there after it.
  lemma NewFind(fs: FS, e: Event, p: Path, f: Found)
    requires WellFormed(fs) && Allowed(fs, e) && p.Name? && Renames(e, p)
    requires MayFind(Apply(fs, e), p, f) && !MayFind(fs, p, f)
    requires e.Rename? || e.Link? ==> fs.inodes[fs.names[e.tmp]].sync
    requires e.Swap? ==> e.flushed
    ensures f != Torn && f == match Look(Apply(fs, e), p) { case Some(n) => Holds(n) case None => Absent }
  {
    var post := Apply(fs, e);
    assert Bindings(post, p) == Bindings(fs, p) + {Bound(post, p)};
    if f.Holds? || f.Torn? {
      var i: nat :| Some(i) in Bindings(post, p) && i < |post.inodes|
          && (if f.Holds? then post.inodes[i].node == f.node else !post.inodes[i].flushed);
      if Some(i) in Bindings(fs, p) {
        assert false;
      }
    }
  }

  // --- Create ---

  // The calls on p are links only: nobody replaces or removes what is there.
  ghost predicate OnlyLinks(log: seq<Event>, p: Path) {
    forall k :: 0 <= k < |log| && Renames(log[k], p) ==> log[k].Link?
  }

  predicate Wins(log: seq<Event>, p: Path, k: nat) {
    k < |log| && log[k].Link? && log[k].name == p
  }

  // A call that is not on p, or a link at p when p is free, as the readers of p see it.
  lemma StepOnlyLinks(fs: FS, e: Event, p: Path)
    requires WellFormed(fs) && Allowed(fs, e) && p.Name? && (Renames(e, p) ==> e.Link?)
    ensures Renames(e, p) ==> p !in fs.names && p in Apply(fs, e).names
    ensures Renames(e, p) ==>
              fs.names[e.tmp] < |fs.inodes| && Look(Apply(fs, e), p) == Some(fs.inodes[fs.names[e.tmp]].goal)
    ensures !Renames(e, p) ==> (p in Apply(fs, e).names <==> p in fs.names) && Look(Apply(fs, e), p) == Look(fs, p)
  {
    if !Renames(e, p) {
      StepCalm(fs, e, p);
      CalmFinds(fs, Apply(fs, e), p);
    }
  }

  // A link at p that succeeded is followed by no other, and what it put there stays.
  lemma {:induction false} WinnerStays(init: FS, log: seq<Event>, p: Path, k: nat, j: nat)
    requires WellFormed(init) && Legal(init, log) && p.Name? && OnlyLinks(log, p) && Wins(log, p, k)
    ensures Look(Replay(init, log), p) == Some(GoalOf(init, log[..k], log[k].tmp))
    ensures k < j ==> !Wins(log, p, j)
    decreases |log|
  {
    hide Apply;
    var before, e := log[..|log| - 1], log[|log| - 1];
    ReplayWellFormed(init, before);
    StepOnlyLinks(Replay(init, before), e, p);
    if k == |log| - 1 {
      TempGoal(init, before, e.tmp);
      assert log[..k] == before;
    } else {
      assert OnlyLinks(before, p) by { assert forall i :: 0 <= i < |before| ==> before[i] == log[i]; }
      WinnerStays(init, before, p, k, j);
      assert before[..k] == log[..k];
    }
  }

  lemma {:induction false} TakenByAWinner(init: FS, log: seq<Event>, p: Path) returns (k: nat)
    requires WellFormed(init) && Legal(init, log) && p.Name? && OnlyLinks(log, p)
    requires p !in init.names && p in Replay(init, log).names
    ensures Wins(log, p, k)
    decreases |log|
  {
    var before, e := log[..|log| - 1], log[|log| - 1];
    ReplayWellFormed(init, before);
    StepOnlyLinks(Replay(init, before), e, p);
    if Renames(e, p) {
      k := |log| - 1;
    } else {
      assert OnlyLinks(before, p) by { assert forall i :: 0 <= i < |before| ==> before[i] == log[i]; }
      k := TakenByAWinner(init, before, p);
    }
  }

  /** Of any number of Create calls on one free name exactly one wins: the name is taken after the calls if and only
      if one of them linked, no two did, and what the winner staged stays there whatever the others do. */
  lemma OneCreateWins(init: FS, log: seq<Event>, p: Path)
    requires WellFormed(init) && Legal(init, log) && p.Name? && p !in init.names && OnlyLinks(log, p)
    ensures forall j: nat, k: nat :: Wins(log, p, j) && Wins(log, p, k) ==> j == k
    ensures p in Replay(init, log).names <==> exists k: nat :: Wins(log, p, k)
    ensures forall k: nat :: Wins(log, p, k) ==> Look(Replay(init, log), p) == Some(GoalOf(init, log[..k], log[k].tmp))
  {
    forall j: nat, k: nat | Wins(log, p, j) && Wins(log, p, k)
      ensures j == k
    {
      WinnerStays(init, log, p, k, j);
      WinnerStays(init, log, p, j, k);
    }
    forall k: nat | Wins(log, p, k)
      ensures Look(Replay(init, log), p) == Some(GoalOf(init, log[..k], log[k].tmp))
    {
      WinnerStays(init, log, p, k, k);
    }
    if p in Replay(init, log).names {
      var k := TakenByAWinner(init, log, p);
    }
  }
}
