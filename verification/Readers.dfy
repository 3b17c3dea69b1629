/**
  telemetry/readers.go: the readers of usage logs. A log is text in lines; each line is a call or is not, as a function
  that is given says. Calls with the same ID are kept once: the last of a file for one source, the first of all files
  for the other. A file that cannot be read to its end counts for nothing.
 */
module Readers {
  import opened Wrappers
  import opened Text
  import opened Calls
  import opened Sorting

  // A call with its place in time, and its ID. The ID is local when it is unique only within its file.
  datatype Entry = Entry(call: Call, stamp: string, id: string, isLocal: bool)

  datatype Line = NotACall | IsCall(entry: Entry)

  // --- the physical lines of a log ---

  // Each line with its newline, and what follows the last newline when that is not empty.
  function Lines(content: string): seq<string>
    decreases |content|
  {
    if content == "" then []
    else
      var n := LineEnd(content);
      [content[..n]] + Lines(content[n..])
  }

  function LineEnd(content: string): (n: nat)
    requires content != ""
    ensures 0 < n <= |content|
    ensures '\n' !in content[..n - 1] && (content[n - 1] == '\n' || n == |content|)
  {
    if content[0] == '\n' || |content| == 1 then 1
    else
      var n := LineEnd(content[1..]) + 1;
      assert content[..n - 1] == [content[0]] + content[1..][..n - 2];
      n
  }

  function Together(lines: seq<string>): string {
    if lines == [] then "" else lines[0] + Together(lines[1..])
  }

  predicate IsLine(line: string, last: bool) {
    line != "" && '\n' !in line[..|line| - 1] && (!last ==> line[|line| - 1] == '\n')
  }

  ghost predicate AreLines(lines: seq<string>) {
    forall i :: 0 <= i < |lines| ==> IsLine(lines[i], i == |lines| - 1)
  }

  lemma OneLineMore(line: string, lines: seq<string>)
    requires AreLines(lines) && IsLine(line, lines == [])
    ensures AreLines([line] + lines)
  {
    hide IsLine;
  }

  /** The lines of a log are all of it, in order; each ends in its one newline, but the last, which may have none. */
  lemma {:induction false} LinesAreTheLog(content: string)
    ensures Together(Lines(content)) == content && AreLines(Lines(content))
    decreases |content|
  {
    if content != "" {
      var n := LineEnd(content);
      var line, rest := content[..n], content[n..];
      LinesAreTheLog(rest);
      assert content == line + rest && line[..n - 1] == content[..n - 1];
      assert Lines(content) == [line] + Lines(rest) && ([line] + Lines(rest))[1..] == Lines(rest);
      assert rest == "" <==> Lines(rest) == [];
      hide AreLines;
      OneLineMore(line, Lines(rest));
    }
  }

  datatype Ending = More | Eof | Broken

  // bufio.Reader over an open log: what is left to read, and whether its end can be reached.
  class LineReader {
    var rest: string
    const complete: bool

    constructor (content: string, complete: bool)
      ensures rest == content && this.complete == complete
    {
      rest, this.complete := content, complete;
    }

    // ReadBytes('\n'): a line with its newline, or what is left when there is no newline before the end.
    method ReadBytes() returns (line: string, ending: Ending)
      modifies this
      ensures old(rest) == line + rest
      ensures line != "" ==> Lines(old(rest)) == [line] + Lines(rest)
      ensures line == "" ==> old(rest) == ""
      ensures ending.More? ==> line != ""
      ensures !ending.More? ==> rest == "" && (ending.Eof? <==> complete)
    {
      if rest == "" { return "", if complete then Eof else Broken; }
      var n := LineEnd(rest);
      line := rest[..n];
      ending := if line[n - 1] == '\n' then More else if complete then Eof else Broken;
      rest := rest[n..];
    }
  }

  // --- what a run counts ---

  datatype Counts = Counts(files: nat, read: nat, lines: nat, calls: nat, skipped: nat, noId: nat, duplicates: nat,
    unreadable: nat)

  class Stats {
    var files: nat
    var read: nat
    var lines: nat
    var calls: nat
    var skipped: nat
    var noId: nat
    var duplicates: nat
    var unreadable: nat

    constructor ()
      ensures Get() == Counts(0, 0, 0, 0, 0, 0, 0, 0)
    {
      files, read, lines, calls, skipped, noId, duplicates, unreadable := 0, 0, 0, 0, 0, 0, 0, 0;
    }

    function Get(): Counts
      reads this
    {
      Counts(files, read, lines, calls, skipped, noId, duplicates, unreadable)
    }
  }

  // --- the two rules ---

  datatype Rule = KeepLast | KeepFirst(seen: set<string>)

  class Rows {
    var entries: map<string, Entry>

    constructor ()
      ensures entries == map[]
    {
      entries := map[];
    }

    // keepLast and keepFirst, as the rule says.
    method Keep(rule: Rule, e: Entry) returns (dup: bool)
      modifies this
      ensures dup <==> IsDup(rule, old(entries), e)
      ensures entries == Put(rule, old(entries), e)
    {
      match rule
      case KeepLast =>
        dup := e.id in entries;
        entries := entries[e.id := e];
      case KeepFirst(seen) =>
        if e.id in entries || (!e.isLocal && e.id in seen) { return true; }
        entries := entries[e.id := e];
        return false;
    }
  }

  predicate IsDup(rule: Rule, rows: map<string, Entry>, e: Entry) {
    e.id in rows || (rule.KeepFirst? && !e.isLocal && e.id in rule.seen)
  }

  function Put(rule: Rule, rows: map<string, Entry>, e: Entry): map<string, Entry> {
    if rule.KeepFirst? && IsDup(rule, rows, e) then rows else rows[e.id := e]
  }

  // --- one file ---

  // The calls that have an ID, in order.
  function Usable(parse: string -> Line, lines: seq<string>): seq<Entry> {
    if lines == [] then []
    else
      var n := |lines| - 1;
      var l := parse(lines[n]);
      Usable(parse, lines[..n]) + if l.IsCall? && l.entry.id != "" then [l.entry] else []
  }

  function Skipped(parse: string -> Line, lines: seq<string>): nat {
    if lines == [] then 0
    else Skipped(parse, lines[..|lines| - 1]) + if parse(lines[|lines| - 1]).NotACall? then 1 else 0
  }

  function NoId(parse: string -> Line, lines: seq<string>): nat {
    if lines == [] then 0
    else
      var l := parse(lines[|lines| - 1]);
      NoId(parse, lines[..|lines| - 1]) + if l.IsCall? && l.entry.id == "" then 1 else 0
  }

  function KeepAll(rule: Rule, es: seq<Entry>): map<string, Entry> {
    if es == [] then map[] else Put(rule, KeepAll(rule, es[..|es| - 1]), es[|es| - 1])
  }

  function Dups(rule: Rule, es: seq<Entry>): nat {
    if es == [] then 0
    else Dups(rule, es[..|es| - 1]) + if IsDup(rule, KeepAll(rule, es[..|es| - 1]), es[|es| - 1]) then 1 else 0
  }

  function CountFile(c: Counts, parse: string -> Line, lines: seq<string>, rule: Rule): (r: Counts)
    ensures r.files == c.files && r.read == c.read && r.calls == c.calls && r.unreadable == c.unreadable
  {
    c.(lines := c.lines + |lines|, skipped := c.skipped + Skipped(parse, lines), noId := c.noId + NoId(parse, lines),
       duplicates := c.duplicates + Dups(rule, Usable(parse, lines)))
  }

  // The rows after one more line, and what it counts as.
  ghost predicate Counted(l: Line, rule: Rule, rows: map<string, Entry>, before: Counts, now: map<string, Entry>,
          after: Counts) {
    match l
    case NotACall => now == rows && after == before.(lines := before.lines + 1, skipped := before.skipped + 1)
    case IsCall(e) =>
      if e.id == "" then now == rows && after == before.(lines := before.lines + 1, noId := before.noId + 1)
      else
        && now == Put(rule, rows, e)
        && after == before.(lines := before.lines + 1,
                            duplicates := before.duplicates + if IsDup(rule, rows, e) then 1 else 0)
  }

  lemma OneMoreLine(c: Counts, parse: string -> Line, done: seq<string>, line: string, rule: Rule)
    ensures Counted(parse(line), rule, KeepAll(rule, Usable(parse, done)), CountFile(c, parse, done, rule),
                    KeepAll(rule, Usable(parse, done + [line])), CountFile(c, parse, done + [line], rule))
  {
    var l, es := parse(line), Usable(parse, done);
    LineSteps(parse, done, line);
    hide IsDup, Put, Usable, Skipped, NoId, KeepAll, Dups;
    if l.IsCall? && l.entry.id != "" {
      assert Usable(parse, done + [line]) == es + [l.entry];
      EntryStep(rule, es, l.entry);
    } else {
      assert Usable(parse, done + [line]) == es;
    }
  }

  lemma LineSteps(parse: string -> Line, done: seq<string>, line: string)
    ensures var now, l := done + [line], parse(line);
            && Usable(parse, now) ==
              (if l.IsCall? && l.entry.id != "" then Usable(parse, done) + [l.entry] else Usable(parse, done))
            && Skipped(parse, now) == Skipped(parse, done) + (if l.NotACall? then 1 else 0)
            && NoId(parse, now) == NoId(parse, done) + (if l.IsCall? && l.entry.id == "" then 1 else 0)
  {
    var now := done + [line];
    assert now[..|now| - 1] == done && now[|now| - 1] == line;
    assert Usable(parse, done) + [] == Usable(parse, done);
  }

  lemma EntryStep(rule: Rule, es: seq<Entry>, e: Entry)
    ensures KeepAll(rule, es + [e]) == Put(rule, KeepAll(rule, es), e)
    ensures Dups(rule, es + [e]) == Dups(rule, es) + if IsDup(rule, KeepAll(rule, es), e) then 1 else 0
  {
    hide IsDup, Put;
    assert (es + [e])[..|es|] == es;
  }

  // One line of a log that has been read up to it.
  method TakeLine(line: string, parse: string -> Line, rule: Rule, rows: Rows, stats: Stats, ghost done: seq<string>,
          ghost start: Counts)
    requires rows.entries == KeepAll(rule, Usable(parse, done)) && stats.Get() == CountFile(start, parse, done, rule)
    modifies rows, stats
    ensures rows.entries == KeepAll(rule, Usable(parse, done + [line]))
    ensures stats.Get() == CountFile(start, parse, done + [line], rule)
  {
    OneMoreLine(start, parse, done, line, rule);
    hide Usable, KeepAll, CountFile, IsDup, Put;
    stats.lines := stats.lines + 1;
    var l := parse(line);
    if l.NotACall? {
      stats.skipped := stats.skipped + 1;
    } else if l.entry.id == "" {
      stats.noId := stats.noId + 1;
    } else {
      var dup := rows.Keep(rule, l.entry);
      if dup { stats.duplicates := stats.duplicates + 1; }
    }
  }

  method ReadFile(r: LineReader, parse: string -> Line, rule: Rule, stats: Stats) returns (rows: Rows, ok: bool)
    modifies r, stats
    ensures fresh(rows) && ok == r.complete
    ensures rows.entries == KeepAll(rule, Usable(parse, Lines(old(r.rest))))
    ensures stats.Get() == CountFile(old(stats.Get()), parse, Lines(old(r.rest)), rule)
  {
    hide KeepAll, Usable, CountFile, Lines, Stats.Get;
    ghost var start := stats.Get();
    ghost var all := Lines(r.rest);
    ghost var done: seq<string> := [];
    rows := new Rows();
    NothingRead(start, parse, rule);
    assert done + all == all;
    while true
      invariant all == done + Lines(r.rest)
      invariant rows.entries == KeepAll(rule, Usable(parse, done)) && fresh(rows)
      invariant stats.Get() == CountFile(start, parse, done, rule)
      decreases |r.rest|
    {
      var line, ending := r.ReadBytes();
      if line != "" {
        TakeLine(line, parse, rule, rows, stats, done, start);
        assert done + ([line] + Lines(r.rest)) == done + [line] + Lines(r.rest);
        done := done + [line];
      }
      if !ending.More? {
        NoLines();
        assert done + [] == done;
        return rows, ending.Eof?;
      }
    }
  }

  lemma NoLines()
    ensures Lines("") == []
  {
  }

  lemma NothingRead(c: Counts, parse: string -> Line, rule: Rule)
    ensures KeepAll(rule, Usable(parse, [])) == map[] && CountFile(c, parse, [], rule) == c
  {
  }

  // --- the rows of a file, tagged and in order ---

  datatype Source = Claude | Pi

  // A file under the root, by its path there and its last name; what its metadata file says of its agent; whether it
  // can be opened, and read to its end.
  datatype Log = Log(rel: string, name: string, agent: string, openable: bool, content: string, complete: bool)

  function SessionOf(name: string): string {
    Cut(TrimSuffix(name, ".jsonl"), "_").1
  }

  function Tag(source: Source, log: Log, e: Entry): Entry {
    match source
    case Claude =>
      var role := if Index("/" + log.rel, "/subagents/").Some? then "sub" else e.call.role;
      e.(call := e.call.(agentType := log.agent, role := role))
    case Pi => e.(call := e.call.(session := SessionOf(log.name)))
  }

  function Tagged(source: Source, log: Log, rows: map<string, Entry>): map<string, Entry> {
    map id | id in rows :: Tag(source, log, rows[id])
  }

  // The IDs of the rows that are unique across the root.
  function Shared(rows: map<string, Entry>): set<string> {
    set id | id in rows && !rows[id].isLocal
  }

  // Those of them that are not among the IDs still to do.
  function SharedBut(rows: map<string, Entry>, todo: set<string>): set<string> {
    set id | id in rows && id !in todo && !rows[id].isLocal
  }

  // The rows of which only those with the IDs still to do are as they were.
  function TaggedBut(source: Source, log: Log, rows: map<string, Entry>, todo: set<string>): map<string, Entry> {
    map id | id in rows :: if id in todo then rows[id] else Tag(source, log, rows[id])
  }

  lemma TaggedNone(source: Source, log: Log, rows: map<string, Entry>)
    ensures TaggedBut(source, log, rows, rows.Keys) == rows
  {
  }

  lemma TaggedNext(source: Source, log: Log, rows: map<string, Entry>, todo: set<string>, id: string)
    requires id in todo && id in rows
    ensures id in TaggedBut(source, log, rows, todo) && TaggedBut(source, log, rows, todo)[id] == rows[id]
    ensures TaggedBut(source, log, rows, todo - {id}) ==
              TaggedBut(source, log, rows, todo)[id := Tag(source, log, rows[id])]
  {
    hide Tag;
  }

  lemma SharedNext(rows: map<string, Entry>, todo: set<string>, id: string)
    requires id in todo && id in rows
    ensures SharedBut(rows, todo - {id}) == SharedBut(rows, todo) + if rows[id].isLocal then {} else {id}
  {
  }

  predicate Before(a: Entry, b: Entry) {
    if a.stamp == b.stamp then Less(a.id, b.id) else Less(a.stamp, b.stamp)
  }

  ghost predicate WellKeyed(rows: map<string, Entry>) {
    forall id :: id in rows ==> rows[id].id == id
  }

  lemma BeforeTotal(a: Entry, b: Entry)
    ensures a.id != b.id ==> Before(a, b) || Before(b, a)
    ensures !(Before(a, b) && Before(b, a)) && !Before(a, a)
  {
    LessTotal(a.stamp, b.stamp);
    LessTotal(a.id, b.id);
    LessTotal(a.id, a.id);
  }

  lemma BeforeTrans(a: Entry, b: Entry, c: Entry)
    requires Before(a, b) && Before(b, c)
    ensures Before(a, c)
  {
    if a.stamp == b.stamp == c.stamp {
      LessTrans(a.id, b.id, c.id);
    } else if a.stamp != b.stamp && b.stamp != c.stamp {
      LessTrans(a.stamp, b.stamp, c.stamp);
      LessTotal(a.stamp, b.stamp);
    }
  }

  lemma RowsAreTotal(rows: map<string, Entry>)
    requires WellKeyed(rows)
    ensures Total(Before, rows.Values)
  {
    forall a, b | a in rows.Values && b in rows.Values
      ensures a != b ==> Before(a, b) || Before(b, a)
      ensures !(Before(a, b) && Before(b, a))
    {
      BeforeTotal(a, b);
    }
    forall a, b, c | a in rows.Values && b in rows.Values && c in rows.Values && Before(a, b) && Before(b, c)
      ensures Before(a, c)
    {
      BeforeTrans(a, b, c);
    }
  }

  // The one order of the rows.
  ghost function TheOrder(rows: map<string, Entry>): (list: seq<Entry>)
    requires WellKeyed(rows)
    ensures Lists(Before, list, rows.Values)
  {
    RowsAreTotal(rows);
    Listing(Before, rows.Values)
  }

  // ordered: whatever order the map is gone through in, one list.
  method Ordered(rows: Rows) returns (list: seq<Entry>)
    requires WellKeyed(rows.entries)
    ensures list == TheOrder(rows.entries)
  {
    list := [];
    var todo := rows.entries.Keys;
    while todo != {}
      invariant todo <= rows.entries.Keys
      invariant forall e :: e in list <==> e.id in rows.entries.Keys - todo && rows.entries[e.id] == e
      invariant forall i, j :: 0 <= i < j < |list| ==> list[i] != list[j]
    {
      var id :| id in todo;
      todo := todo - {id};
      list := list + [rows.entries[id]];
    }
    RowsAreTotal(rows.entries);
    list := Sort(Before, list, rows.entries.Values);
  }

  // --- a run over a root ---

  datatype Visit = Unlistable | Directory | File(log: Log)

  datatype State = State(counts: Counts, seen: set<string>, emitted: seq<Entry>, dropped: nat)

  const START := State(Counts(0, 0, 0, 0, 0, 0, 0, 0), {}, [], 0)

  function RuleOf(source: Source, seen: set<string>): Rule {
    if source == Claude then KeepLast else KeepFirst(seen)
  }

  function Project(rel: string): string {
    Cut(rel, "/").0
  }

  function InProject(rel: string, list: seq<Entry>): (r: seq<Entry>)
    ensures |r| == |list|
    ensures forall i :: 0 <= i < |r| ==> r[i] == list[i].(call := list[i].call.(project := Project(rel)))
  {
    seq(|list|, i requires 0 <= i < |list| => list[i].(call := list[i].call.(project := Project(rel))))
  }

  function CallsOf(list: seq<Entry>): seq<Call> {
    seq(|list|, i requires 0 <= i < |list| => list[i].call)
  }

  lemma CallsOfPlus(a: seq<Entry>, b: seq<Entry>)
    ensures CallsOf(a + b) == CallsOf(a) + CallsOf(b)
  {
  }

  predicate IsLog(v: Visit) {
    v.File? && HasSuffix(v.log.name, ".jsonl")
  }

  // The calls of a log that have an ID.
  function EntriesOf(parse: string -> Line, log: Log): seq<Entry> {
    Usable(parse, Lines(log.content))
  }

  // The rows that are kept of a log that is opened, whether or not its end is reached.
  function RowsOf(source: Source, parse: string -> Line, seen: set<string>, log: Log): map<string, Entry> {
    KeepAll(RuleOf(source, seen), EntriesOf(parse, log))
  }

  lemma {:induction false} RowsAreKeyed(rule: Rule, es: seq<Entry>)
    ensures WellKeyed(KeepAll(rule, es))
  {
    if es != [] { RowsAreKeyed(rule, es[..|es| - 1]); }
  }

  // The rows a log that was read gives, tagged and in order.
  ghost function OrderOf(source: Source, parse: string -> Line, seen: set<string>, log: Log): (list: seq<Entry>)
    ensures var rows := RowsOf(source, parse, seen, log);
            WellKeyed(rows) && WellKeyed(Tagged(source, log, rows))
                && Lists(Before, list, Tagged(source, log, rows).Values)
  {
    RowsAreKeyed(RuleOf(source, seen), EntriesOf(parse, log));
    TheOrder(Tagged(source, log, RowsOf(source, parse, seen, log)))
  }

  // What one file, or a directory that cannot be listed, adds to a run.
  ghost function Step(source: Source, parse: string -> Line, s: State, v: Visit): State {
    if v.Unlistable? then s.(counts := s.counts.(unreadable := s.counts.unreadable + 1))
    else if !IsLog(v) then s
    else
      var c := s.counts.(files := s.counts.files + 1);
      if !v.log.openable then s.(counts := c.(unreadable := c.unreadable + 1))
      else
        var rule := RuleOf(source, s.seen);
        var rows := RowsOf(source, parse, s.seen, v.log);
        var d := CountFile(c, parse, Lines(v.log.content), rule);
        if !v.log.complete then s.(counts := d.(unreadable := d.unreadable + 1), dropped := s.dropped + |rows|)
        else
          var list := OrderOf(source, parse, s.seen, v.log);
          State(d.(read := d.read + 1, calls := d.calls + |list|),
                if source == Pi then s.seen + Shared(rows) else s.seen,
                s.emitted + InProject(v.log.rel, list),
                s.dropped)
  }

  ghost function Run(source: Source, parse: string -> Line, visits: seq<Visit>): State {
    if visits == [] then START
    else Step(source, parse, Run(source, parse, visits[..|visits| - 1]), visits[|visits| - 1])
  }

  // A run of a reader: the callback of the walk is Visit.
  class LogRun {
    const source: Source
    const parse: string -> Line
    const stats: Stats
    var seen: set<string>
    var emitted: seq<Call>
    ghost var state: State

    ghost predicate Valid()
      reads this, stats
    {
      stats.Get() == state.counts && seen == state.seen && emitted == CallsOf(state.emitted)
    }

    constructor (source: Source, parse: string -> Line)
      ensures Valid() && state == START && this.source == source && this.parse == parse && fresh(stats)
    {
      this.source, this.parse, this.seen, this.emitted := source, parse, {}, [];
      this.stats := new Stats();
      this.state := START;
      new;
    }

    method TagClaude(rows: Rows, log: Log)
      modifies rows
      ensures rows.entries == Tagged(Claude, log, old(rows.entries))
    {
      var sub := Index("/" + log.rel, "/subagents/").Some?;
      var todo := rows.entries.Keys;
      while todo != {}
        invariant todo <= rows.entries.Keys == old(rows.entries).Keys
        invariant forall id :: id in rows.entries ==>
                    rows.entries[id] ==
                    if id in todo then old(rows.entries)[id] else Tag(Claude, log, old(rows.entries)[id])
      {
        var id :| id in todo;
        todo := todo - {id};
        var e := rows.entries[id];
        e := e.(call := e.call.(agentType := log.agent));
        if sub { e := e.(call := e.call.(role := "sub")); }
        rows.entries := rows.entries[id := e];
      }
    }

    method TagPi(rows: Rows, log: Log)
      modifies rows, this`seen
      ensures rows.entries == Tagged(Pi, log, old(rows.entries)) && seen == old(seen) + Shared(old(rows.entries))
    {
      hide SessionOf;
      var session := SessionOf(log.name);
      var todo := rows.entries.Keys;
      ghost var before := rows.entries;
      TaggedNone(Pi, log, before);
      while todo != {}
        invariant todo <= before.Keys && rows.entries == TaggedBut(Pi, log, before, todo)
        invariant seen == old(seen) + SharedBut(before, todo)
      {
        var id :| id in todo;
        SharedNext(before, todo, id);
        TaggedNext(Pi, log, before, todo, id);
        hide SharedBut, TaggedBut;
        todo := todo - {id};
        var e := rows.entries[id];
        e := e.(call := e.call.(session := session));
        rows.entries := rows.entries[id := e];
        if !e.isLocal { seen := seen + {id}; }
      }
    }

    // What the walk does with one of its files.
    method Visit(v: Visit)
      requires Valid()
      modifies this, stats
      ensures Valid() && state == Step(source, parse, old(state), v)
    {
      hide RowsOf, CountFile, OrderOf, InProject, Lines, Shared, HasSuffix, CallsOf;
      if v.Unlistable? {
        state := Step(source, parse, state, v);
        stats.unreadable := stats.unreadable + 1;
        return;
      }
      if v.Directory? || !HasSuffix(v.log.name, ".jsonl") { return; }
      VisitLog(v.log);
    }

    method VisitLog(log: Log)
      requires Valid() && IsLog(File(log))
      modifies this, stats
      ensures Valid() && state == Step(source, parse, old(state), File(log))
    {
      hide RowsOf, CountFile, OrderOf, InProject, Lines, Shared, IsLog, CallsOf;
      state := Step(source, parse, state, File(log));
      stats.files := stats.files + 1;
      if !log.openable {
        stats.unreadable := stats.unreadable + 1;
        return;
      }
      ReadLog(log);
      if log.complete {
        CallsOfPlus(old(state).emitted, InProject(log.rel, OrderOf(source, parse, old(state).seen, log)));
      }
    }

    // A log that was opened.
    method ReadLog(log: Log)
      modifies this`seen, this`emitted, stats
      ensures var before, lines := old(seen), Lines(log.content);
              var c := CountFile(old(stats.Get()), parse, lines, RuleOf(source, before));
              if !log.complete then
                stats.Get() == c.(unreadable := c.unreadable + 1) && seen == before && emitted == old(emitted)
              else
                var list := OrderOf(source, parse, before, log);
                && stats.Get() == c.(read := c.read + 1, calls := c.calls + |list|)
                && seen == (if source == Pi then before + Shared(RowsOf(source, parse, before, log)) else before)
                && emitted == old(emitted) + CallsOf(InProject(log.rel, list))
    {
      hide Usable, KeepAll, CountFile, TheOrder, Tagged, Lines, Shared;
      var rule := RuleOf(source, seen);
      var r := new LineReader(log.content, log.complete);
      var rows, ok := ReadFile(r, parse, rule, stats);
      if !ok {
        stats.unreadable := stats.unreadable + 1;
        return;
      }
      ghost var list := OrderOf(source, parse, seen, log);
      if source == Claude { TagClaude(rows, log); } else { TagPi(rows, log); }
      stats.read := stats.read + 1;
      var sorted := Ordered(rows);
      Emit(log, sorted);
    }

    // Each entry of a file that was read, in order.
    method Emit(log: Log, list: seq<Entry>)
      modifies this`emitted, stats`calls
      ensures emitted == old(emitted) + CallsOf(InProject(log.rel, list)) && stats.calls == old(stats.calls) + |list|
    {
      ghost var sent := InProject(log.rel, list);
      for i := 0 to |list|
        invariant emitted == old(emitted) + CallsOf(sent[..i]) && stats.calls == old(stats.calls) + i
      {
        emitted := emitted + [list[i].call.(project := Project(log.rel))];
        stats.calls := stats.calls + 1;
        assert CallsOf(sent[..i + 1]) == CallsOf(sent[..i]) + [sent[i].call];
      }
      assert sent[..|list|] == sent;
    }
  }

  // --- readLogs ---

  datatype Root = Absent | NotADirectory | Tree(visits: seq<Visit>)

  // The walk of a root, its files in the order of the walk. The last result says whether the root is a directory.
  method ReadLogs(source: Source, root: Root, parse: string -> Line)
    returns (counts: Counts, emitted: seq<Call>, ok: bool)
    ensures ok <==> root.Tree?
    ensures !ok ==> counts == START.counts && emitted == []
    ensures ok ==>
              counts == Run(source, parse, root.visits).counts
                  && emitted == CallsOf(Run(source, parse, root.visits).emitted)
  {
    var run := new LogRun(source, parse);
    if !root.Tree? { return run.stats.Get(), [], false; }
    var visits := root.visits;
    for i := 0 to |visits|
      invariant run.Valid() && run.state == Run(source, parse, visits[..i]) && run.source == source
                && run.parse == parse
    {
      hide Step;
      assert visits[..i + 1][..i] == visits[..i];
      run.Visit(visits[i]);
    }
    assert visits[..|visits|] == visits;
    return run.stats.Get(), run.emitted, true;
  }

  // --- every line is accounted for ---

  lemma {:induction false} LinesSplit(parse: string -> Line, lines: seq<string>)
    ensures |lines| == Skipped(parse, lines) + NoId(parse, lines) + |Usable(parse, lines)|
  {
    if lines != [] { LinesSplit(parse, lines[..|lines| - 1]); }
  }

  lemma {:induction false} EntriesSplit(rule: Rule, es: seq<Entry>)
    ensures |es| == Dups(rule, es) + |KeepAll(rule, es)|
  {
    if es != [] {
      var n := |es| - 1;
      EntriesSplit(rule, es[..n]);
      var rows, e := KeepAll(rule, es[..n]), es[n];
      if e.id in rows {
        assert rows[e.id := e].Keys == rows.Keys;
        assert |rows[e.id := e].Keys| == |rows[e.id := e]| && |rows.Keys| == |rows|;
      } else {
        assert rows[e.id := e].Keys == rows.Keys + {e.id};
        assert |rows[e.id := e].Keys| == |rows[e.id := e]| && |rows.Keys| == |rows|;
      }
    }
  }

  lemma {:induction false} ValuesSize(rows: map<string, Entry>)
    requires WellKeyed(rows)
    ensures |rows.Values| == |rows|
    decreases |rows|
  {
    if rows != map[] {
      var id :| id in rows;
      var less := rows - {id};
      assert less.Keys == rows.Keys - {id};
      assert |less.Keys| == |less| && |rows.Keys| == |rows|;
      ValuesSize(less);
      assert rows.Values == less.Values + {rows[id]} by {
        forall e | e in rows.Values
          ensures e in less.Values + {rows[id]}
        {
          var k :| k in rows && rows[k] == e;
          if k != id { assert less[k] == e; }
        }
      }
      assert rows[id] !in less.Values;
    }
  }

  lemma OrderSize(list: seq<Entry>, rows: map<string, Entry>)
    requires Lists(Before, list, rows.Values) && WellKeyed(rows)
    ensures |list| == |rows|
  {
    RowsAreTotal(rows);
    ListingSize(Before, list, rows.Values);
    ValuesSize(rows);
  }

  function WalkErrors(visits: seq<Visit>): nat {
    if visits == [] then 0
    else WalkErrors(visits[..|visits| - 1]) + if visits[|visits| - 1].Unlistable? then 1 else 0
  }

  ghost predicate Conserved(s: State, walkErrors: nat) {
    && s.counts.lines == s.counts.skipped + s.counts.noId + s.counts.duplicates + s.counts.calls + s.dropped
    && s.counts.calls == |s.emitted|
    && s.counts.read <= s.counts.files
    && s.counts.unreadable == s.counts.files - s.counts.read + walkErrors
  }

  lemma StepConserves(source: Source, parse: string -> Line, s: State, v: Visit, walkErrors: nat)
    requires Conserved(s, walkErrors)
    ensures Conserved(Step(source, parse, s, v), walkErrors + if v.Unlistable? then 1 else 0)
  {
    if IsLog(v) && v.log.openable {
      var lines, rule := Lines(v.log.content), RuleOf(source, s.seen);
      var rows := RowsOf(source, parse, s.seen, v.log);
      var tagged := Tagged(source, v.log, rows);
      hide Lines, Usable, TheOrder;
      LinesSplit(parse, lines);
      EntriesSplit(rule, Usable(parse, lines));
      RowsAreKeyed(rule, Usable(parse, lines));
      OrderSize(OrderOf(source, parse, s.seen, v.log), tagged);
      assert tagged.Keys == rows.Keys;
      assert |tagged.Keys| == |tagged| && |rows.Keys| == |rows|;
    }
  }

  /** Over any run, each line is skipped, without an ID, a duplicate, a call that is emitted, or a row of a file that
      was not read to its end; and what is unreadable is the files that were not read and the directories. */
  lemma {:induction false} RunConserves(source: Source, parse: string -> Line, visits: seq<Visit>)
    ensures Conserved(Run(source, parse, visits), WalkErrors(visits))
  {
    if visits != [] {
      hide Step, Conserved;
      var n := |visits| - 1;
      RunConserves(source, parse, visits[..n]);
      StepConserves(source, parse, Run(source, parse, visits[..n]), visits[n], WalkErrors(visits[..n]));
    } else {
      assert Run(source, parse, visits) == START;
    }
  }

  // --- which row a rule keeps ---

  ghost predicate LastWith(es: seq<Entry>, id: string, i: int) {
    0 <= i < |es| && es[i].id == id && forall j :: i < j < |es| ==> es[j].id != id
  }

  lemma {:induction false} KeepLastRow(es: seq<Entry>, id: string, i: int)
    requires LastWith(es, id, i)
    ensures var rows := KeepAll(KeepLast, es); id in rows && rows[id] == es[i]
  {
    var n := |es| - 1;
    KeepsOneMore(KeepLast, es);
    hide KeepAll;
    if i < n { KeepLastRow(es[..n], id, i); }
  }

  lemma {:induction false} KeepLastDomain(es: seq<Entry>, id: string)
    requires id in KeepAll(KeepLast, es)
    ensures exists i :: LastWith(es, id, i)
  {
    var n := |es| - 1;
    KeepsOneMore(KeepLast, es);
    hide KeepAll;
    if es[n].id == id {
      assert LastWith(es, id, n);
    } else {
      KeepLastDomain(es[..n], id);
      var i :| LastWith(es[..n], id, i);
      assert LastWith(es, id, i);
    }
  }

  /** The last line with an ID is the row of the ID, and no other ID has a row. */
  lemma KeepLastIsLast(es: seq<Entry>, id: string)
    ensures var rows := KeepAll(KeepLast, es);
            && (id in rows <==> exists i :: LastWith(es, id, i))
            && forall i :: LastWith(es, id, i) ==> rows[id] == es[i]
  {
    hide KeepAll;
    forall i | LastWith(es, id, i)
      ensures id in KeepAll(KeepLast, es) && KeepAll(KeepLast, es)[id] == es[i]
    {
      KeepLastRow(es, id, i);
    }
    if id in KeepAll(KeepLast, es) { KeepLastDomain(es, id); }
  }

  // A line the rule of the first can keep: its ID is local, or no earlier file has it.
  predicate Fresh(seen: set<string>, e: Entry) {
    e.isLocal || e.id !in seen
  }

  ghost predicate FirstFresh(seen: set<string>, es: seq<Entry>, id: string, i: int) {
    && 0 <= i < |es| && es[i].id == id && Fresh(seen, es[i])
    && forall j :: 0 <= j < i ==> !(es[j].id == id && Fresh(seen, es[j]))
  }

  /** The first line with an ID, of those that an earlier file did not take, is the row of the ID, and no other ID has a
      row. */
  lemma {:induction false} KeepFirstIsFirst(seen: set<string>, es: seq<Entry>, id: string)
    ensures var rows := KeepAll(KeepFirst(seen), es);
            && (id in rows <==> exists i :: 0 <= i < |es| && es[i].id == id && Fresh(seen, es[i]))
            && forall i :: FirstFresh(seen, es, id, i) ==> id in rows && rows[id] == es[i]
  {
    if es != [] {
      var n := |es| - 1;
      var front, rows := es[..n], KeepAll(KeepFirst(seen), es[..n]);
      KeepFirstIsFirst(seen, front, id);
      assert es == front + [es[n]];
      hide KeepAll;
      assert KeepAll(KeepFirst(seen), es) == Put(KeepFirst(seen), rows, es[n]) by { KeepsOneMore(KeepFirst(seen), es); }
      forall i | FirstFresh(seen, es, id, i)
        ensures i < n ==> FirstFresh(seen, front, id, i)
        ensures i == n ==> id !in rows
      {
        assert i < n ==> front[i] == es[i];
        assert i == n ==> forall j :: 0 <= j < n ==> !(front[j].id == id && Fresh(seen, front[j]));
      }
      if i :| 0 <= i < |front| && front[i].id == id && Fresh(seen, front[i]) {
        assert es[i].id == id && Fresh(seen, es[i]);
      }
    }
  }

  lemma KeepsOneMore(rule: Rule, es: seq<Entry>)
    requires es != []
    ensures KeepAll(rule, es) == Put(rule, KeepAll(rule, es[..|es| - 1]), es[|es| - 1])
  {
  }

  // --- one response, one call, over all files ---

  predicate Complete(v: Visit) {
    IsLog(v) && v.log.openable && v.log.complete
  }

  // The k-th file keeps a row for the response.
  ghost predicate Keeps(parse: string -> Line, visits: seq<Visit>, k: int, id: string) {
    && 0 <= k < |visits| && Complete(visits[k])
    && var rows := RowsOf(Pi, parse, Run(Pi, parse, visits[..k]).seen, visits[k].log);
       id in rows && !rows[id].isLocal
  }

  lemma KeepsInFront(parse: string -> Line, visits: seq<Visit>, n: nat, k: int, id: string)
    requires k < n <= |visits|
    ensures Keeps(parse, visits[..n], k, id) <==> Keeps(parse, visits, k, id)
  {
    if 0 <= k { assert visits[..n][..k] == visits[..k]; }
  }

  // What a run remembers is the responses its files kept.
  lemma {:induction false} SeenIsKept(parse: string -> Line, visits: seq<Visit>, id: string)
    ensures id in Run(Pi, parse, visits).seen <==> exists k :: Keeps(parse, visits, k, id)
  {
    if visits != [] {
      var n := |visits| - 1;
      SeenIsKept(parse, visits[..n], id);
      forall k | k < n
        ensures Keeps(parse, visits[..n], k, id) <==> Keeps(parse, visits, k, id)
      {
        KeepsInFront(parse, visits, n, k, id);
      }
      var before := Run(Pi, parse, visits[..n]);
      hide RowsOf, OrderOf, Usable, CountFile;
      assert Run(Pi, parse, visits) == Step(Pi, parse, before, visits[n]);
      assert id in Step(Pi, parse, before, visits[n]).seen <==> id in before.seen || Keeps(parse, visits, n, id) by {
        SeenAfter(parse, before, visits[n], id);
      }
      if k :| Keeps(parse, visits[..n], k, id) { assert Keeps(parse, visits, k, id); }
      if k :| Keeps(parse, visits, k, id) { assert k == n || Keeps(parse, visits[..n], k, id); }
    }
  }

  lemma SeenAfter(parse: string -> Line, s: State, v: Visit, id: string)
    ensures id in Step(Pi, parse, s, v).seen <==>
            id in s.seen
                || (Complete(v) && var rows := RowsOf(Pi, parse, s.seen, v.log); id in rows && !rows[id].isLocal)
  {
    hide RowsOf, OrderOf, Usable, CountFile;
  }

  ghost predicate FirstWith(es: seq<Entry>, id: string, i: int) {
    0 <= i < |es| && es[i].id == id && forall j :: 0 <= j < i ==> es[j].id != id
  }

  /** A file keeps a row for a response if and only if it is read to its end, no earlier file kept one, and the first of
      its lines with that ID is a response; and the row is that line. A line whose own ID reads the same and comes first
      takes the place of the response in its file. */
  lemma KeptByFirstCompleteFile(parse: string -> Line, visits: seq<Visit>, k: int, id: string)
    requires 0 <= k < |visits| && IsLog(visits[k])
    ensures var es := EntriesOf(parse, visits[k].log);
            Keeps(parse, visits, k, id) <==>
            && Complete(visits[k])
            && (forall j :: 0 <= j < k ==> !Keeps(parse, visits, j, id))
            && exists i :: FirstWith(es, id, i) && !es[i].isLocal
    ensures Keeps(parse, visits, k, id) ==>
              var rows := RowsOf(Pi, parse, Run(Pi, parse, visits[..k]).seen, visits[k].log);
              forall i :: FirstWith(EntriesOf(parse, visits[k].log), id, i) ==>
                            rows[id] == EntriesOf(parse, visits[k].log)[i]
  {
    var es, seen := EntriesOf(parse, visits[k].log), Run(Pi, parse, visits[..k]).seen;
    SeenIsKept(parse, visits[..k], id);
    forall j | j < k
      ensures Keeps(parse, visits[..k], j, id) <==> Keeps(parse, visits, j, id)
    {
      KeepsInFront(parse, visits, k, j, id);
    }
    assert id in seen <==> exists j :: 0 <= j < k && Keeps(parse, visits, j, id) by {
      if j :| Keeps(parse, visits[..k], j, id) { assert Keeps(parse, visits, j, id); }
      if j :| 0 <= j < k && Keeps(parse, visits, j, id) { assert Keeps(parse, visits[..k], j, id); }
    }
    RowIsFirst(seen, es, id);
  }

  // A log of two lines, a call whose own ID is r and the response r, and what says so.
  const TWO_LINES := Log("s.jsonl", "s.jsonl", "", true, "a\nb\n", true)

  function OwnIdFirst(call: Call): string -> Line {
    line => IsCall(Entry(call, "", "r", line == "a\n"))
  }

  lemma LinesOfTwo()
    ensures Lines("a\nb\n") == ["a\n", "b\n"]
  {
    assert "a\nb\n"[2..] == "b\n" && "b\n"[2..] == "" && "a\nb\n"[..2] == "a\n" && "b\n"[..2] == "b\n";
    assert LineEnd("b\n") == 2 && LineEnd("a\nb\n") == 2 by { assert "b\n"[1..] == "\n" && "a\nb\n"[1..] == "\nb\n"; }
    assert Lines("b\n") == ["b\n"[..2]] + Lines("b\n"[2..]);
    assert Lines("a\nb\n") == ["a\nb\n"[..2]] + Lines("a\nb\n"[2..]);
  }

  lemma EntriesOfTwo(call: Call)
    ensures EntriesOf(OwnIdFirst(call), TWO_LINES) == [Entry(call, "", "r", true), Entry(call, "", "r", false)]
  {
    LinesOfTwo();
    hide Lines;
    var lines := ["a\n", "b\n"];
    assert lines[..1] == ["a\n"] && lines[..1][..0] == [];
    assert Usable(OwnIdFirst(call), lines[..1]) == [Entry(call, "", "r", true)];
  }

  /** Where the ID of a line that is not a response comes first, the response of the file is kept by no file. */
  lemma ResponseDisplaced(call: Call)
    ensures Complete(File(TWO_LINES)) && !EntriesOf(OwnIdFirst(call), TWO_LINES)[1].isLocal
    ensures !Keeps(OwnIdFirst(call), [File(TWO_LINES)], 0, "r")
    ensures EntriesOf(OwnIdFirst(call), TWO_LINES) == [Entry(call, "", "r", true), Entry(call, "", "r", false)]
  {
    EntriesOfTwo(call);
    assert IsLog(File(TWO_LINES));
    hide *;
    KeptByFirstCompleteFile(OwnIdFirst(call), [File(TWO_LINES)], 0, "r");
    var es := EntriesOf(OwnIdFirst(call), TWO_LINES);
    OnlyFirst(es);
  }

  lemma OnlyFirst(es: seq<Entry>)
    requires |es| > 0 && es[0].id == "r" && es[0].isLocal
    ensures !exists i :: FirstWith(es, "r", i) && !es[i].isLocal
  {
  }

  lemma RowIsFirst(seen: set<string>, es: seq<Entry>, id: string)
    ensures var rows := KeepAll(KeepFirst(seen), es);
            && ((id in rows && !rows[id].isLocal) <==>
              id !in seen && exists i :: FirstWith(es, id, i) && !es[i].isLocal)
            && (id !in seen ==> forall i :: FirstWith(es, id, i) ==> id in rows && rows[id] == es[i])
  {
    var rows := KeepAll(KeepFirst(seen), es);
    KeepFirstIsFirst(seen, es, id);
    hide KeepAll;
    if id in rows {
      var i := FindFresh(seen, es, id);
      assert rows[id] == es[i];
      if id !in seen { assert FirstWith(es, id, i); }
    }
    if id !in seen {
      forall i | FirstWith(es, id, i)
        ensures FirstFresh(seen, es, id, i)
      {
      }
    }
  }

  lemma FindFresh(seen: set<string>, es: seq<Entry>, id: string) returns (i: nat)
    requires exists j :: 0 <= j < |es| && es[j].id == id && Fresh(seen, es[j])
    ensures FirstFresh(seen, es, id, i)
  {
    var j :| 0 <= j < |es| && es[j].id == id && Fresh(seen, es[j]);
    i := 0;
    while !(es[i].id == id && Fresh(seen, es[i]))
      invariant i <= j && forall m :: 0 <= m < i ==> !(es[m].id == id && Fresh(seen, es[m]))
      decreases j - i
    {
      i := i + 1;
    }
  }

  ghost predicate EachOnce(emitted: seq<Entry>, seen: set<string>) {
    && (forall i :: 0 <= i < |emitted| && !emitted[i].isLocal ==> emitted[i].id in seen)
    && (forall i, j :: 0 <= i < j < |emitted| && !emitted[i].isLocal && !emitted[j].isLocal ==>
      emitted[i].id != emitted[j].id)
    && forall id :: id in seen ==> exists i :: 0 <= i < |emitted| && emitted[i].id == id && !emitted[i].isLocal
  }

  // The rows of one file.
  lemma EmitsShared(list: seq<Entry>, rows: map<string, Entry>, rel: string)
    requires Lists(Before, list, rows.Values) && WellKeyed(rows)
    ensures EachOnce(InProject(rel, list), Shared(rows))
  {
    hide Before;
    var out := InProject(rel, list);
    forall i, j | 0 <= i < j < |out|
      ensures out[i].id != out[j].id
    {
      assert list[i] in list && list[j] in list && Before(list[i], list[j]);
      BeforeTotal(list[i], list[j]);
    }
    forall i | 0 <= i < |out| && !out[i].isLocal
      ensures out[i].id in Shared(rows)
    {
      assert list[i] in list;
    }
    forall id | id in Shared(rows)
      ensures exists i :: 0 <= i < |out| && out[i].id == id && !out[i].isLocal
    {
      assert rows[id] in rows.Values;
      assert rows[id] in list;
      var i :| 0 <= i < |list| && list[i] == rows[id];
      assert out[i].id == id;
    }
  }

  lemma EachOnceJoins(a: seq<Entry>, b: seq<Entry>, s: set<string>, t: set<string>)
    requires EachOnce(a, s) && EachOnce(b, t) && s !! t
    ensures EachOnce(a + b, s + t)
  {
    var c := a + b;
    forall id | id in s + t
      ensures exists i :: 0 <= i < |c| && c[i].id == id && !c[i].isLocal
    {
      if id in s {
        var i :| 0 <= i < |a| && a[i].id == id && !a[i].isLocal;
        assert c[i] == a[i];
      } else {
        var i :| 0 <= i < |b| && b[i].id == id && !b[i].isLocal;
        assert c[|a| + i] == b[i];
      }
    }
    forall i, j | 0 <= i < j < |c| && !c[i].isLocal && !c[j].isLocal
      ensures c[i].id != c[j].id
    {
      if i < |a| <= j { assert a[i].id in s && b[j - |a|].id in t; }
    }
  }

  /** Over any run, a response is emitted once when some file kept it, and never otherwise. */
  lemma {:induction false} RespondsOnce(parse: string -> Line, visits: seq<Visit>)
    ensures EachOnce(Run(Pi, parse, visits).emitted, Run(Pi, parse, visits).seen)
    ensures forall id :: id in Run(Pi, parse, visits).seen <==> exists k :: Keeps(parse, visits, k, id)
  {
    forall id
      ensures id in Run(Pi, parse, visits).seen <==> exists k :: Keeps(parse, visits, k, id)
    {
      SeenIsKept(parse, visits, id);
    }
    if visits != [] {
      var n := |visits| - 1;
      RespondsOnce(parse, visits[..n]);
      StepRespondsOnce(parse, Run(Pi, parse, visits[..n]), visits[n]);
    } else {
      assert Run(Pi, parse, visits) == START;
    }
  }

  lemma StepRespondsOnce(parse: string -> Line, s: State, v: Visit)
    requires EachOnce(s.emitted, s.seen)
    ensures EachOnce(Step(Pi, parse, s, v).emitted, Step(Pi, parse, s, v).seen)
  {
    if Complete(v) {
      var es := Usable(parse, Lines(v.log.content));
      var rows := RowsOf(Pi, parse, s.seen, v.log);
      var tagged := Tagged(Pi, v.log, rows);
      RowsAreKeyed(KeepFirst(s.seen), es);
      forall id | id in Shared(rows)
        ensures id !in s.seen
      {
        RowIsFirst(s.seen, es, id);
      }
      assert Shared(tagged) == Shared(rows);
      hide EachOnce, Usable, Lines, TheOrder, CountFile;
      EmitsShared(OrderOf(Pi, parse, s.seen, v.log), tagged, v.log.rel);
      EachOnceJoins(s.emitted, InProject(v.log.rel, OrderOf(Pi, parse, s.seen, v.log)), s.seen, Shared(rows));
    }
  }

  // --- a file that fails leaves no trace in what is emitted ---

  function WithoutFailed(visits: seq<Visit>): seq<Visit> {
    if visits == [] then []
    else WithoutFailed(visits[..|visits| - 1]) + if Complete(visits[|visits| - 1]) then [visits[|visits| - 1]] else []
  }

  /** What is emitted, and what later files take for seen, is what it would be if the files that fail were not there. */
  lemma {:induction false} FailedFilesAreInvisible(source: Source, parse: string -> Line, visits: seq<Visit>)
    ensures var all, good := Run(source, parse, visits), Run(source, parse, WithoutFailed(visits));
            all.emitted == good.emitted && all.seen == good.seen
  {
    if visits != [] {
      var n := |visits| - 1;
      var front, v := visits[..n], visits[n];
      FailedFilesAreInvisible(source, parse, front);
      var a, b := Run(source, parse, front), Run(source, parse, WithoutFailed(front));
      hide RowsOf, OrderOf, Usable, CountFile;
      assert Run(source, parse, visits) == Step(source, parse, a, v);
      if !Complete(v) {
        assert WithoutFailed(visits) == WithoutFailed(front);
      } else {
        var good := WithoutFailed(front) + [v];
        assert good[..|good| - 1] == WithoutFailed(front);
        assert WithoutFailed(visits) == good;
        StepSame(source, parse, a, b, v);
      }
    }
  }

  lemma StepSame(source: Source, parse: string -> Line, a: State, b: State, v: Visit)
    requires a.seen == b.seen && a.emitted == b.emitted && Complete(v)
    ensures Step(source, parse, a, v).seen == Step(source, parse, b, v).seen
    ensures Step(source, parse, a, v).emitted == Step(source, parse, b, v).emitted
  {
  }

  // --- which calls are emitted, and what they say ---

  // A directory on the path, above the file, has the name.
  ghost predicate Under(rel: string, name: string) {
    exists i :: 0 <= i < |Split(rel, '/')| - 1 && Split(rel, '/')[i] == name
  }

  lemma OccursAfter(u: string, sub: string, w: string)
    ensures Index(u + (sub + w), sub).Some?
  {
    var s := u + (sub + w);
    IndexFirst(s, sub);
    hide Index;
    assert s[|u|..] == sub + w;
  }

  lemma SlashesRegroup(a: string, name: string, b: string)
    ensures "/" + (a + "/" + (name + "/" + b)) == ("/" + a) + (("/" + name + "/") + b)
    ensures "/" + (name + "/" + b) == "" + (("/" + name + "/") + b)
  {
  }

  lemma UnderOccurs(rel: string, name: string)
    requires Under(rel, name)
    ensures Index("/" + rel, "/" + name + "/").Some?
  {
    hide Split, Index, Join;
    var parts := Split(rel, '/');
    var i :| 0 <= i < |parts| - 1 && parts[i] == name;
    var a, b := parts[..i], parts[i + 1..];
    JoinSplit(rel, '/');
    assert parts == a + ([name] + b);
    JoinPlus([name], b, "/");
    JoinOne(name, "/");
    var rest := Join(b, "/");
    assert Join([name] + b, "/") == name + "/" + rest;
    SlashesRegroup(Join(a, "/"), name, rest);
    if a == [] {
      assert parts == [name] + b;
      assert rel == name + "/" + rest;
      OccursAfter("", "/" + name + "/", rest);
    } else {
      JoinPlus(a, [name] + b, "/");
      assert rel == Join(a, "/") + "/" + (name + "/" + rest);
      OccursAfter("/" + Join(a, "/"), "/" + name + "/", rest);
    }
  }

  lemma JoinOne(part: string, sep: string)
    ensures Join([part], sep) == part
  {
  }

  // The text around the first occurrence.
  lemma Around(s: string, sub: string) returns (u: string, w: string)
    requires Index(s, sub).Some?
    ensures s == u + (sub + w)
  {
    IndexFirst(s, sub);
    var at := Index(s, sub).value;
    u, w := s[..at], s[at..][|sub|..];
    hide Index;
    assert s[at..] == sub + w;
  }

  lemma AfterSlash(rel: string, u: string, name: string, w: string)
    requires "/" + rel == u + (("/" + name + "/") + w)
    ensures u == "" ==> rel == name + ['/'] + w
    ensures u != "" ==> rel == u[1..] + ['/'] + (name + ['/'] + w)
  {
    assert ("/" + rel)[1..] == rel;
    assert u == "" ==> (u + (("/" + name + "/") + w))[1..] == name + ['/'] + w;
    assert u != "" ==> (u + (("/" + name + "/") + w))[1..] == u[1..] + ['/'] + (name + ['/'] + w);
  }

  lemma OccursUnder(rel: string, name: string)
    requires Index("/" + rel, "/" + name + "/").Some? && '/' !in name
    ensures Under(rel, name)
  {
    hide Split, Index;
    var u, w := Around("/" + rel, "/" + name + "/");
    AfterSlash(rel, u, name, w);
    SplitPart(name, w, '/');
    if u == "" {
      assert Split(rel, '/')[0] == name;
    } else {
      SplitPlus(u[1..], name + ['/'] + w, '/');
      assert Split(rel, '/')[|Split(u[1..], '/')|] == name;
    }
  }

  // What follows the first "_" of the name without its ending.
  ghost predicate IsSession(name: string, session: string)
    requires HasSuffix(name, ".jsonl")
  {
    var base := name[..|name| - 6];
    if '_' in base then exists before :: '_' !in before && base == before + "_" + session else session == ""
  }

  lemma SessionIff(name: string, session: string)
    requires HasSuffix(name, ".jsonl")
    ensures IsSession(name, session) <==> session == SessionOf(name)
  {
    var base := name[..|name| - 6];
    CutParts(base, "_");
    hide Cut;
    if '_' in base {
      var (a, b, found) := Cut(base, "_");
      assert found && base == a + "_" + b;
      if before :| '_' !in before && base == before + "_" + session {
        assert base[..|before|] == before && base[|before| + 1..] == session;
        CutAt(base, "_", |before|);
      }
    } else {
      assert !Cut(base, "_").2;
      NothingAfterCut(base);
    }
  }

  lemma NothingAfterCut(base: string)
    requires !Cut(base, "_").2
    ensures Cut(base, "_").1 == ""
  {
  }

  lemma ProjectIsFirst(rel: string)
    ensures Project(rel) == Split(rel, '/')[0]
  {
    CutParts(rel, "/");
    var (first, rest, found) := Cut(rel, "/");
    hide Cut;
    if found { SplitPart(first, rest, '/'); } else { SplitOne(first, '/'); }
  }

  // The call of a line, as it is emitted: what the path and the metadata file say takes the place of what the line
  // says.
  ghost predicate Marked(source: Source, log: Log, line: Entry, e: Entry)
    requires HasSuffix(log.name, ".jsonl")
  {
    && e.stamp == line.stamp && e.id == line.id && e.isLocal == line.isLocal
    && e.call.(project := line.call.project, session := line.call.session, agentType := line.call.agentType,
               role := line.call.role) == line.call
    && e.call.project == Split(log.rel, '/')[0]
    && match source
       case Claude =>
         && e.call.session == line.call.session
         && e.call.agentType == log.agent
         && e.call.role == if Under(log.rel, "subagents") then "sub" else line.call.role
       case Pi =>
         && IsSession(log.name, e.call.session)
         && e.call.agentType == line.call.agentType
         && e.call.role == line.call.role
  }

  lemma MarkedIff(source: Source, log: Log, line: Entry, e: Entry)
    requires HasSuffix(log.name, ".jsonl")
    ensures Marked(source, log, line, e) <==> e == Sent(source, log, line)
  {
    ProjectIsFirst(log.rel);
    SessionIff(log.name, e.call.session);
    assert '/' !in "subagents" && "/" + "subagents" + "/" == "/subagents/";
    if Index("/" + log.rel, "/subagents/").Some? { OccursUnder(log.rel, "subagents"); }
    if Under(log.rel, "subagents") { UnderOccurs(log.rel, "subagents"); }
    hide Split, Index, Under, IsSession, SessionOf, Project;
  }

  // The line of an ID that a file is read for.
  ghost predicate Chosen(source: Source, seen: set<string>, es: seq<Entry>, j: int) {
    0 <= j < |es| && if source.Claude? then LastWith(es, es[j].id, j) else FirstFresh(seen, es, es[j].id, j)
  }

  lemma RowIffChosen(source: Source, seen: set<string>, es: seq<Entry>, e: Entry)
    ensures e in KeepAll(RuleOf(source, seen), es).Values <==> exists j :: Chosen(source, seen, es, j) && es[j] == e
  {
    var rows := KeepAll(RuleOf(source, seen), es);
    RowsAreKeyed(RuleOf(source, seen), es);
    if source.Claude? { KeepLastIsLast(es, e.id); } else { KeepFirstIsFirst(seen, es, e.id); }
    hide KeepAll;
    if e in rows.Values {
      assert e.id in rows && rows[e.id] == e;
      var j: int;
      if source.Claude? { j :| LastWith(es, e.id, j); } else { j := FindFresh(seen, es, e.id); }
      assert Chosen(source, seen, es, j) && es[j] == e;
    }
  }

  // A row as it is emitted.
  function Sent(source: Source, log: Log, r: Entry): Entry {
    var t := Tag(source, log, r);
    t.(call := t.call.(project := Project(log.rel)))
  }

  // The entries of the tagged rows, each with its project.
  lemma SentIff(source: Source, log: Log, rows: map<string, Entry>, list: seq<Entry>, e: Entry)
    requires Lists(Before, list, Tagged(source, log, rows).Values)
    ensures e in InProject(log.rel, list) <==>
            exists r :: r in rows.Values && e == Sent(source, log, r)
  {
    hide Tag, Before, Project;
    var out := InProject(log.rel, list);
    if e in out {
      var i :| 0 <= i < |out| && out[i] == e;
      assert list[i] in list;
      var id :| id in rows && list[i] == Tag(source, log, rows[id]);
      assert rows[id] in rows.Values;
    }
    if r :| r in rows.Values && e == Sent(source, log, r) {
      var id :| id in rows && rows[id] == r;
      assert Tagged(source, log, rows)[id] in Tagged(source, log, rows).Values;
      assert Tag(source, log, r) in list;
      var i :| 0 <= i < |list| && list[i] == Tag(source, log, r);
      assert out[i] == e;
    }
  }

  // What one file that is read gives: the chosen lines, marked.
  lemma FileEmits(source: Source, parse: string -> Line, seen: set<string>, log: Log, e: Entry)
    requires HasSuffix(log.name, ".jsonl")
    ensures var es := EntriesOf(parse, log);
            e in InProject(log.rel, OrderOf(source, parse, seen, log)) <==>
            exists j :: Chosen(source, seen, es, j) && Marked(source, log, es[j], e)
  {
    hide EntriesOf, OrderOf, Tag, Marked, Chosen, Before, Project, RuleOf, KeepAll, InProject, Tagged, HasSuffix;
    var es, rows := EntriesOf(parse, log), RowsOf(source, parse, seen, log);
    SentIff(source, log, rows, OrderOf(source, parse, seen, log), e);
    forall j | Chosen(source, seen, es, j)
      ensures 0 <= j < |es| && es[j] in rows.Values
      ensures Marked(source, log, es[j], e) <==> e == Sent(source, log, es[j])
    {
      ChosenIsThere(source, seen, es, j);
      RowIffChosen(source, seen, es, es[j]);
      MarkedIff(source, log, es[j], e);
    }
    forall r | r in rows.Values
      ensures exists j :: Chosen(source, seen, es, j) && es[j] == r
    {
      RowIffChosen(source, seen, es, r);
    }
  }

  lemma ChosenIsThere(source: Source, seen: set<string>, es: seq<Entry>, j: int)
    requires Chosen(source, seen, es, j)
    ensures 0 <= j < |es|
  {
  }

  // The entry is the j-th line of the k-th file, marked.
  ghost predicate Origin(source: Source, parse: string -> Line, visits: seq<Visit>, k: int, j: int, e: Entry) {
    && 0 <= k < |visits| && Complete(visits[k])
    && var es := EntriesOf(parse, visits[k].log);
       Chosen(source, Run(source, parse, visits[..k]).seen, es, j) && Marked(source, visits[k].log, es[j], e)
  }

  lemma OriginInFront(source: Source, parse: string -> Line, visits: seq<Visit>, n: nat, k: int, j: int, e: Entry)
    requires k < n <= |visits|
    ensures Origin(source, parse, visits[..n], k, j, e) <==> Origin(source, parse, visits, k, j, e)
  {
    if 0 <= k { assert visits[..n][..k] == visits[..k]; }
  }

  lemma StepEmits(source: Source, parse: string -> Line, s: State, v: Visit)
    ensures Step(source, parse, s, v).emitted ==
            s.emitted + if Complete(v) then InProject(v.log.rel, OrderOf(source, parse, s.seen, v.log)) else []
  {
    hide OrderOf, InProject, CountFile, Lines, RowsOf;
    assert s.emitted + [] == s.emitted;
  }

  /** Over any run, an entry is emitted if and only if it is a line of a file that is read to its end, the last with its
      ID for Claude and the first that no earlier file took for Pi; its project is the first element of the path, and
      its role, agent type and session are what the path and the metadata file say. */
  lemma {:induction false} EmittedIff(source: Source, parse: string -> Line, visits: seq<Visit>, e: Entry)
    ensures e in Run(source, parse, visits).emitted <==> exists k, j :: Origin(source, parse, visits, k, j, e)
  {
    if visits != [] {
      var n := |visits| - 1;
      var before, v := Run(source, parse, visits[..n]), visits[n];
      assert Run(source, parse, visits) == Step(source, parse, before, v);
      hide Origin, Step, InProject, OrderOf, Run;
      EmittedIff(source, parse, visits[..n], e);
      StepEmits(source, parse, before, v);
      LastIsOrigin(source, parse, visits, e);
      forall k, j | k < n
        ensures Origin(source, parse, visits[..n], k, j, e) <==> Origin(source, parse, visits, k, j, e)
      {
        OriginInFront(source, parse, visits, n, k, j, e);
      }
      forall k, j
        ensures Origin(source, parse, visits[..n], k, j, e) ==> k < n
        ensures Origin(source, parse, visits, k, j, e) ==> k <= n
      {
        OriginIsThere(source, parse, visits[..n], k, j, e);
        OriginIsThere(source, parse, visits, k, j, e);
      }
    } else {
      assert Run(source, parse, visits) == START;
    }
  }

  lemma OriginIsThere(source: Source, parse: string -> Line, visits: seq<Visit>, k: int, j: int, e: Entry)
    ensures Origin(source, parse, visits, k, j, e) ==> 0 <= k < |visits|
  {
  }

  lemma LastIsOrigin(source: Source, parse: string -> Line, visits: seq<Visit>, e: Entry)
    requires visits != []
    ensures var n := |visits| - 1;
            var seen := Run(source, parse, visits[..n]).seen;
            (exists j :: Origin(source, parse, visits, n, j, e)) <==>
            Complete(visits[n]) && e in InProject(visits[n].log.rel, OrderOf(source, parse, seen, visits[n].log))
  {
    hide Marked, InProject, OrderOf, Run, EntriesOf, LastWith, FirstFresh;
    var n := |visits| - 1;
    var seen := Run(source, parse, visits[..n]).seen;
    if Complete(visits[n]) {
      FileEmits(source, parse, seen, visits[n].log, e);
      var es := EntriesOf(parse, visits[n].log);
      if j :| Chosen(source, seen, es, j) && Marked(source, visits[n].log, es[j], e) {
        assert Origin(source, parse, visits, n, j, e);
      }
      if j :| Origin(source, parse, visits, n, j, e) {
        assert Chosen(source, seen, es, j) && Marked(source, visits[n].log, es[j], e);
      }
    }
  }

  /** The entries of a file come by their time, and those of one time by their ID; those of a file that was walked
      before come before. */
  lemma EmittedInOrder(source: Source, parse: string -> Line, visits: seq<Visit>, k: nat)
    requires k < |visits|
    ensures var was, now := Run(source, parse, visits[..k]).emitted, Run(source, parse, visits[..k + 1]).emitted;
            && was <= now
            && forall i, j :: |was| <= i < j < |now| ==>
                                Less(now[i].stamp, now[j].stamp)
                                || (now[i].stamp == now[j].stamp && Less(now[i].id, now[j].id))
  {
    var before, v := Run(source, parse, visits[..k]), visits[k];
    assert visits[..k + 1][..k] == visits[..k];
    hide Step, Less;
    StepEmits(source, parse, before, v);
    if Complete(v) {
      hide Run;
      var list := OrderOf(source, parse, before.seen, v.log);
      assert forall i, j :: 0 <= i < j < |list| ==> Before(list[i], list[j]);
      var sent, now := InProject(v.log.rel, list), before.emitted + InProject(v.log.rel, list);
      assert forall i :: |before.emitted| <= i < |now| ==> now[i] == sent[i - |before.emitted|];
    }
  }
}
