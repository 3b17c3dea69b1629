/**
  The file system that engine/atomicfile works on, as a log of system calls.

  A state keeps, beside what a reader sees now, everything a crash may bring back: for each name the bindings it
  had since its directory was last flushed, and for each inode whether its content is on the medium. A log of
  system calls made by any number of programs replays to a state, so a crash point is a prefix of a log.
 */
module FileSystem {
  import opened Wrappers

  // A name a caller chose, or the name of a temporary file. Temporary names are never names a caller uses.
  datatype Path = Name(dir: string, base: string) | Temp(dir: string, serial: nat)

  datatype Node = Regular(mode: nat, data: seq<bv8>) | Symlink(target: string) | Special

  // node is the present content; goal is what the writer of the file set out to put there; flushed says the
  // present content is on the medium; placed says the file was put at a name, after which nothing writes to it.
  datatype Inode = Inode(node: Node, goal: Node, sync: bool, flushed: bool, placed: bool)

  // stale holds the bindings a name had since its directory was last flushed; spent, the temporary names used so far.
  datatype FS = FS(names: map<Path, nat>, inodes: seq<Inode>, stale: map<Path, set<Option<nat>>>, spent: set<Path>)

  // What is found at a name after a crash. Torn stands for any content at all.
  datatype Found = Absent | Holds(node: Node) | Torn

  datatype Event =
    | CreateTemp(tmp: Path, goal: Node, sync: bool, own: bool) // own: by the process in question
    | Chmod(inode: nat, mode: nat)
    | Write(inode: nat, data: seq<bv8>)
    | SyncFile(inode: nat)
    | Rename(tmp: Path, name: Path)
    | Link(tmp: Path, name: Path)
    | Remove(tmp: Path)
    | RemoveFailed(tmp: Path) // a removal that failed, which changes nothing
    | SyncDir(dir: string)
    // another program puts a whole file, a link or a special file at a name
    | Swap(name: Path, node: Node, flushed: bool)
    | Unlink(name: Path)                          // another program removes a name

  function Bound(fs: FS, p: Path): Option<nat> {
    if p in fs.names then Some(fs.names[p]) else None
  }

  // The bindings of p that a crash may leave behind.
  function Bindings(fs: FS, p: Path): set<Option<nat>> {
    (if p in fs.stale then fs.stale[p] else {}) + {Bound(fs, p)}
  }

  // What a reader finds at p now.
  function Look(fs: FS, p: Path): Option<Node> {
    if p in fs.names && fs.names[p] < |fs.inodes| then Some(fs.inodes[fs.names[p]].node) else None
  }

  ghost predicate MayFind(fs: FS, p: Path, f: Found) {
    match f
    case Absent => None in Bindings(fs, p)
    case Holds(n) => exists i: nat :: Some(i) in Bindings(fs, p) && i < |fs.inodes| && fs.inodes[i].node == n
    case Torn => exists i: nat :: Some(i) in Bindings(fs, p) && i < |fs.inodes| && !fs.inodes[i].flushed
  }

  // A crash now leaves exactly f at p.
  ghost predicate OnlyFinds(fs: FS, p: Path, f: Found) {
    forall g :: MayFind(fs, p, g) <==> g == f
  }

  predicate Complete(i: Inode) {
    i.node == i.goal && (i.sync ==> i.flushed) && !i.placed
  }

  // The system calls that may happen: the kernel's own conditions, and the discipline of writers that go through
  // this package, which fill a temporary file, put it at a name once, and do not write to it afterwards.
  predicate Allowed(fs: FS, e: Event) {
    match e
    case CreateTemp(t, goal, _, _) => t.Temp? && t !in fs.names && t !in fs.spent && goal.Regular?
    case Chmod(i, _) => i < |fs.inodes| && !fs.inodes[i].placed && fs.inodes[i].node.Regular?
    case Write(i, _) => i < |fs.inodes| && !fs.inodes[i].placed && fs.inodes[i].node.Regular?
    case SyncFile(i) => i < |fs.inodes|
    case Rename(t, p) => t.Temp? && t in fs.names && p.Name? && fs.names[t] < |fs.inodes|
      && Complete(fs.inodes[fs.names[t]])
    case Link(t, p) => t.Temp? && t in fs.names && p.Name? && fs.names[t] < |fs.inodes|
      && Complete(fs.inodes[fs.names[t]])
                       && p !in fs.names
    case Remove(t) => t.Temp? && t in fs.names
    case RemoveFailed(t) => t.Temp? && t in fs.names
    case SyncDir(_) => true
    case Swap(p, _, _) => p.Name?
    case Unlink(p) => p.Name? && p in fs.names
  }

  function Bind(fs: FS, p: Path, b: Option<nat>): FS {
    fs.(names := if b.Some? then fs.names[p := b.value] else fs.names - {p}, stale := fs.stale[p := Bindings(fs, p)])
  }

  function Place(fs: FS, i: nat): FS
    requires i < |fs.inodes|
  {
    fs.(inodes := fs.inodes[i := fs.inodes[i].(placed := true)])
  }

  function Apply(fs: FS, e: Event): FS
    requires Allowed(fs, e)
  {
    match e
    case CreateTemp(t, goal, sync, _) =>
      Bind(fs.(inodes := fs.inodes + [Inode(Regular(0x180, []), goal, sync, false, false)], spent := fs.spent + {t}), t,
          Some(|fs.inodes|))
    case Chmod(i, m) =>
      fs.(inodes := fs.inodes[i := fs.inodes[i].(node := Regular(m, fs.inodes[i].node.data), flushed := false)])
    case Write(i, d) =>
      var n := fs.inodes[i].node;
      fs.(inodes := fs.inodes[i := fs.inodes[i].(node := Regular(n.mode, n.data + d), flushed := false)])
    case SyncFile(i) => fs.(inodes := fs.inodes[i := fs.inodes[i].(flushed := true)])
    case Rename(t, p) => Bind(Bind(Place(fs, fs.names[t]), p, Some(fs.names[t])), t, None)
    case Link(t, p) => Bind(Place(fs, fs.names[t]), p, Some(fs.names[t]))
    case Remove(t) => Bind(fs, t, None)
    case RemoveFailed(_) => fs
    case SyncDir(d) => fs.(stale := map q | q in fs.stale && q.dir != d :: fs.stale[q])
    case Swap(p, n, flushed) => Bind(fs.(inodes := fs.inodes + [Inode(n, n, false, flushed, true)]), p,
      Some(|fs.inodes|))
    case Unlink(p) => Bind(fs, p, None)
  }

  // Names and crash bindings of names lead to placed files; a temporary file is nobody else's.
  ghost predicate WellFormed(fs: FS) {
    && (forall p :: p in fs.names ==> fs.names[p] < |fs.inodes|)
    && (forall p: Path, i: nat :: p.Name? && Some(i) in Bindings(fs, p) ==> i < |fs.inodes| && fs.inodes[i].placed)
    && (forall t: Path, u: Path :: t in fs.names && u in fs.names && t.Temp? && u.Temp? && t != u ==>
      fs.names[t] != fs.names[u])
    && (forall i :: 0 <= i < |fs.inodes| && !fs.inodes[i].placed ==> fs.inodes[i].node.Regular?)
    && (forall t :: t in fs.names && t.Temp? ==> t in fs.spent)
  }

  lemma BindBindings(fs: FS, p: Path, b: Option<nat>, q: Path)
    ensures Bindings(Bind(fs, p, b), q) == if q == p then Bindings(fs, p) + {b} else Bindings(fs, q)
    ensures Bound(Bind(fs, p, b), q) == if q == p then b else Bound(fs, q)
  {
  }

  // Giving a name a placed inode, or none, or a temporary name an inode of its own, keeps the state well formed.
  lemma BindWellFormed(fs: FS, p: Path, b: Option<nat>)
    requires WellFormed(fs)
    requires b.Some? ==> b.value < |fs.inodes|
    requires b.Some? && p.Name? ==> fs.inodes[b.value].placed
    requires b.Some? && p.Temp? ==> p in fs.spent && forall t :: t in fs.names && t.Temp? ==> fs.names[t] != b.value
    ensures WellFormed(Bind(fs, p, b))
  {
    var post := Bind(fs, p, b);
    forall q: Path, i: nat | q.Name? && Some(i) in Bindings(post, q)
      ensures i < |post.inodes| && post.inodes[i].placed
    {
      BindBindings(fs, p, b, q);
    }
  }

  // Changing the record of one inode without unplacing it keeps the state well formed.
  lemma UpdateWellFormed(fs: FS, i: nat, r: Inode)
    requires WellFormed(fs) && i < |fs.inodes| && (fs.inodes[i].placed ==> r.placed) && (!r.placed ==> r.node.Regular?)
    ensures WellFormed(fs.(inodes := fs.inodes[i := r]))
  {
    var post := fs.(inodes := fs.inodes[i := r]);
    assert forall q :: Bindings(post, q) == Bindings(fs, q);
  }

  // So does adding an inode nothing leads to.
  lemma AddWellFormed(fs: FS, r: Inode, spent: set<Path>)
    requires WellFormed(fs) && (!r.placed ==> r.node.Regular?) && fs.spent <= spent
    ensures WellFormed(fs.(inodes := fs.inodes + [r], spent := spent))
  {
    var post := fs.(inodes := fs.inodes + [r], spent := spent);
    assert forall q :: Bindings(post, q) == Bindings(fs, q);
  }

  lemma StepWellFormed(fs: FS, e: Event)
    requires WellFormed(fs) && Allowed(fs, e)
    ensures WellFormed(Apply(fs, e))
  {
    match e
    case CreateTemp(t, goal, sync, _) =>
      var mid := fs.(inodes := fs.inodes + [Inode(Regular(0x180, []), goal, sync, false, false)],
          spent := fs.spent + {t});
      AddWellFormed(fs, Inode(Regular(0x180, []), goal, sync, false, false), fs.spent + {t});
      BindWellFormed(mid, t, Some(|fs.inodes|));
    case Chmod(i, m) => UpdateWellFormed(fs, i,
      fs.inodes[i].(node := Regular(m, fs.inodes[i].node.data), flushed := false));
    case Write(i, d) => UpdateWellFormed(fs, i,
      fs.inodes[i].(node := Regular(fs.inodes[i].node.mode, fs.inodes[i].node.data + d), flushed := false));
    case SyncFile(i) => UpdateWellFormed(fs, i, fs.inodes[i].(flushed := true));
    case Rename(t, p) =>
      var i := fs.names[t];
      UpdateWellFormed(fs, i, fs.inodes[i].(placed := true));
      BindWellFormed(Place(fs, i), p, Some(i));
      BindWellFormed(Bind(Place(fs, i), p, Some(i)), t, None);
    case Link(t, p) =>
      var i := fs.names[t];
      UpdateWellFormed(fs, i, fs.inodes[i].(placed := true));
      BindWellFormed(Place(fs, i), p, Some(i));
    case Remove(t) => BindWellFormed(fs, t, None);
    case RemoveFailed(_) =>
    case SyncDir(d) =>
      var post := Apply(fs, e);
      assert forall q :: Bindings(post, q) <= Bindings(fs, q);
    case Swap(p, n, flushed) =>
      var r := Inode(n, n, false, flushed, true);
      AddWellFormed(fs, r, fs.spent);
      assert fs.(inodes := fs.inodes + [r], spent := fs.spent) == fs.(inodes := fs.inodes + [r]);
      BindWellFormed(fs.(inodes := fs.inodes + [r]), p, Some(|fs.inodes|));
    case Unlink(p) => BindWellFormed(fs, p, None);
  }

  // A temporary name that was used once is never bound again, whoever calls.
  lemma SpentStays(fs: FS, e: Event, t: Path)
    requires Allowed(fs, e) && t.Temp? && t in fs.spent
    ensures t in Apply(fs, e).spent && (t in Apply(fs, e).names ==> t in fs.names)
  {
  }

  ghost predicate Legal(init: FS, log: seq<Event>)
    decreases |log|, 0
  {
    log == [] || (Legal(init, log[..|log| - 1]) && Allowed(Replay(init, log[..|log| - 1]), log[|log| - 1]))
  }

  ghost function Replay(init: FS, log: seq<Event>): FS
    requires Legal(init, log)
    decreases |log|, 1
  {
    if log == [] then init else Apply(Replay(init, log[..|log| - 1]), log[|log| - 1])
  }

  lemma {:induction false} LegalPrefix(init: FS, log: seq<Event>, k: nat)
    requires Legal(init, log) && k <= |log|
    ensures Legal(init, log[..k])
    decreases |log|
  {
    if k == |log| {
      assert log[..k] == log;
    } else {
      LegalPrefix(init, log[..|log| - 1], k);
      assert log[..|log| - 1][..k] == log[..k];
    }
  }

  // The state after the first k calls of a log.
  ghost function At(init: FS, log: seq<Event>, k: nat): FS
    requires Legal(init, log) && k <= |log|
  {
    LegalPrefix(init, log, k);
    Replay(init, log[..k])
  }

  lemma AtNext(init: FS, log: seq<Event>, k: nat)
    requires Legal(init, log) && k < |log|
    ensures Allowed(At(init, log, k), log[k]) && At(init, log, k + 1) == Apply(At(init, log, k), log[k])
  {
    LegalPrefix(init, log, k + 1);
    assert log[..k + 1][..k] == log[..k];
  }

  lemma AtExtend(init: FS, log: seq<Event>, e: Event)
    requires Legal(init, log) && Allowed(Replay(init, log), e)
    ensures Legal(init, log + [e]) && Replay(init, log + [e]) == Apply(Replay(init, log), e)
    ensures forall k :: 0 <= k <= |log| ==> At(init, log + [e], k) == At(init, log, k)
    ensures At(init, log + [e], |log| + 1) == Replay(init, log + [e])
  {
    assert (log + [e])[..|log|] == log;
    forall k | 0 <= k <= |log|
      ensures At(init, log + [e], k) == At(init, log, k)
    {
      assert (log + [e])[..k] == log[..k];
    }
    assert (log + [e])[..|log| + 1] == log + [e];
  }

  lemma {:induction false} AtWellFormed(init: FS, log: seq<Event>, k: nat)
    requires Legal(init, log) && WellFormed(init) && k <= |log|
    ensures WellFormed(At(init, log, k))
  {
    if k > 0 {
      AtWellFormed(init, log, k - 1);
      AtNext(init, log, k - 1);
      StepWellFormed(At(init, log, k - 1), log[k - 1]);
    }
  }

  // The calls that change what a name leads to.
  predicate Renames(e: Event, p: Path) {
    match e
    case Rename(_, q) => q == p
    case Link(_, q) => q == p
    case Swap(q, _, _) => q == p
    case Unlink(q) => q == p
    case _ => false
  }

  // From was to now a name was left alone: it leads where it led, a crash finds nothing there that it could not find
  // before.
  ghost predicate Calm(was: FS, now: FS, p: Path) {
    && Bound(now, p) == Bound(was, p)
    && Bindings(now, p) <= Bindings(was, p)
    && |was.inodes| <= |now.inodes|
    && forall i: nat :: Some(i) in Bindings(now, p) && i < |was.inodes| ==>
                          && now.inodes[i].node == was.inodes[i].node
                          && (was.inodes[i].flushed ==> now.inodes[i].flushed)
  }

  // What is placed keeps its content and stays flushed.
  ghost predicate PlacedStay(was: FS, now: FS) {
    && |was.inodes| <= |now.inodes|
    && forall i :: 0 <= i < |was.inodes| && was.inodes[i].placed ==>
         now.inodes[i].node == was.inodes[i].node && (was.inodes[i].flushed ==> now.inodes[i].flushed)
  }

  lemma StepPlacedStay(fs: FS, e: Event)
    requires Allowed(fs, e)
    ensures PlacedStay(fs, Apply(fs, e))
  {
  }

  lemma StepBindings(fs: FS, e: Event, p: Path)
    requires Allowed(fs, e) && p.Name? && !Renames(e, p)
    ensures var post := Apply(fs, e); Bound(post, p) == Bound(fs, p) && Bindings(post, p) <= Bindings(fs, p)
  {
    var post := Apply(fs, e);
    match e
    case SyncDir(d) => assert Bindings(post, p) <= Bindings(fs, p);
    case _ => assert Bindings(post, p) == Bindings(fs, p);
  }

  lemma StepCalm(fs: FS, e: Event, p: Path)
    requires WellFormed(fs) && Allowed(fs, e) && p.Name? && !Renames(e, p)
    ensures Calm(fs, Apply(fs, e), p)
  {
    StepPlacedStay(fs, e);
    StepBindings(fs, e, p);
    hide Apply, Allowed, Bindings, Bound;
  }

  lemma CalmTrans(a: FS, b: FS, c: FS, p: Path)
    requires WellFormed(a) && p.Name? && Calm(a, b, p) && Calm(b, c, p)
    ensures Calm(a, c, p)
  {
    forall i: nat | Some(i) in Bindings(c, p) && i < |a.inodes|
      ensures c.inodes[i].node == a.inodes[i].node && (a.inodes[i].flushed ==> c.inodes[i].flushed)
    {
      assert Some(i) in Bindings(b, p) && Some(i) in Bindings(a, p);
    }
  }

  lemma CalmFinds(was: FS, now: FS, p: Path)
    requires WellFormed(was) && p.Name? && Calm(was, now, p)
    ensures Look(now, p) == Look(was, p)
    ensures forall f :: MayFind(now, p, f) ==> MayFind(was, p, f)
  {
    assert Bound(now, p) in Bindings(now, p);
  }

  // What a temporary file is for is fixed when it is created.
  lemma StepTemp(fs: FS, e: Event, t: Path)
    requires WellFormed(fs) && Allowed(fs, e) && t.Temp? && t in Apply(fs, e).names
    ensures var post := Apply(fs, e);
            && post.names[t] < |post.inodes|
            && if e.CreateTemp? && e.tmp == t then
                 post.inodes[post.names[t]].goal == e.goal && post.inodes[post.names[t]].sync == e.sync
               else
                 && t in fs.names && fs.names[t] < |fs.inodes| && post.names[t] == fs.names[t]
                 && post.inodes[post.names[t]].goal == fs.inodes[fs.names[t]].goal
                 && post.inodes[post.names[t]].sync == fs.inodes[fs.names[t]].sync
  {
  }
}
