/**
  engine/gate/gate.go: the rewrite of a sub-agent's prompt. Contracts inject their path as a line under a heading, or
  strip it; a block of instructions ends the prompt. The prompt is text; its lines are what newlines separate.
 */
module Gate {
  import opened Wrappers
  import opened Text
  import opened Contracts

  datatype Managed = Managed(path: string, content: string)

  datatype Work = Work(trusted: bool, languages: seq<string>, activations: seq<string>, kinds: seq<string>)

  datatype Config = Config(contracts: seq<Managed>, work: Option<Work>, instructions: string)

  datatype Call = Call(subagent: string, prompt: string)

  const APPLICATION_CODE := "application-code"

  // --- the work a contract asks for ---

  predicate ContainsFold(items: seq<string>, want: string) {
    exists i :: 0 <= i < |items| && EqualFold(TrimSpace(items[i]), want)
  }

  predicate Intersects(want: seq<string>, got: seq<string>) {
    exists i :: 0 <= i < |want| && ContainsFold(got, want[i])
  }

  predicate WorkMatches(work: Option<Work>, c: Context) {
    && work.Some? && work.value.trusted
    && (|c.languages| > 0 ==> Intersects(c.languages, work.value.languages))
    && (|c.activations| > 0 ==> Intersects(c.activations, work.value.activations))
    && |work.value.kinds| > 0
    && ContainsFold(work.value.kinds, APPLICATION_CODE)
  }

  // --- lines ---

  // A line of p is entry when the white space around it is removed.
  predicate HasLine(p: string, entry: string) {
    exists i :: 0 <= i < |Split(p, '\n')| && TrimSpace(Split(p, '\n')[i]) == entry
  }

  // The lines that are not entry, in order.
  function Without(lines: seq<string>, entry: string): seq<string> {
    if lines == [] then []
    else
      var n := |lines| - 1;
      Without(lines[..n], entry) + if TrimSpace(lines[n]) == entry then [] else [lines[n]]
  }

  // Each line that is the header, followed by entry.
  function Under(lines: seq<string>, header: string, entry: string): seq<string> {
    if lines == [] then []
    else
      var n := |lines| - 1;
      Under(lines[..n], header, entry) + if TrimSpace(lines[n]) == header then [lines[n], entry] else [lines[n]]
  }

  function Separator(p: string): string {
    if !HasSuffix(p, "\n") then "\n\n" else "\n"
  }

  function Injected(p: string, path: string, header: string): string {
    if HasLine(p, path) then p
    else if HasLine(p, header) then Join(Under(Split(p, '\n'), header, path), "\n")
    else p + Separator(p) + header + "\n" + path + "\n"
  }

  function Stripped(p: string, path: string): string {
    if !HasLine(p, path) then p else Join(Without(Split(p, '\n'), path), "\n")
  }

  method HasExactLine(p: string, entry: string) returns (found: bool)
    ensures found <==> HasLine(p, entry)
  {
    var lines := Split(p, '\n');
    for i := 0 to |lines|
      invariant forall j :: 0 <= j < i ==> TrimSpace(lines[j]) != entry
    {
      if TrimSpace(lines[i]) == entry { return true; }
    }
    return false;
  }

  method Inject(p: string, path: string, header: string) returns (r: string)
    ensures r == Injected(p, path, header)
  {
    var present := HasExactLine(p, path);
    if present { return p; }
    var headed := HasExactLine(p, header);
    if headed {
      var lines, out := Split(p, '\n'), [];
      for i := 0 to |lines|
        invariant out == Under(lines[..i], header, path)
      {
        assert lines[..i + 1][..i] == lines[..i];
        out := out + [lines[i]];
        if TrimSpace(lines[i]) == header { out := out + [path]; }
      }
      assert lines[..|lines|] == lines;
      return Join(out, "\n");
    }
    var sep := "\n";
    if !HasSuffix(p, "\n") {
      sep := "\n\n";
    } else if !HasSuffix(p, "\n\n") {
      sep := "\n";
    }
    return p + sep + header + "\n" + path + "\n";
  }

  method Strip(p: string, path: string) returns (r: string)
    ensures r == Stripped(p, path)
  {
    var present := HasExactLine(p, path);
    if !present { return p; }
    var lines, out := Split(p, '\n'), [];
    for i := 0 to |lines|
      invariant out == Without(lines[..i], path)
    {
      assert lines[..i + 1][..i] == lines[..i];
      if TrimSpace(lines[i]) == path { continue; }
      out := out + [lines[i]];
    }
    assert lines[..|lines|] == lines;
    return Join(out, "\n");
  }

  // --- the instructions block ---

  function Appended(p: string, block: string): string {
    var trimmed := TrimRight(p, {'\n'});
    if block == "" || HasSuffix(trimmed, block) then p else trimmed + "\n\n" + block + "\n"
  }

  // --- the rewrite ---

  // What a contract does to the prompt of a sub-agent.
  datatype Action = Skip | StripIt | InjectIt(header: string)

  function Decide(m: Managed, subagent: string, work: Option<Work>): Action {
    match Both(m.content)
    case Err(_) => Skip
    case Ok(both) =>
      if subagent in both.0.excluded then StripIt
      else if subagent !in both.0.appliesTo then Skip
      else if both.1.Required() && !WorkMatches(work, both.1) then Skip
      else InjectIt(both.0.Header())
  }

  function Act(action: Action, p: string, path: string): string {
    match action
    case Skip => p
    case StripIt => Stripped(p, path)
    case InjectIt(header) => Injected(p, path, header)
  }

  // The contracts one after the other.
  function Fold(p: string, subagent: string, cs: seq<Managed>, work: Option<Work>): string {
    if cs == [] then p
    else
      var m := cs[|cs| - 1];
      Act(Decide(m, subagent, work), Fold(p, subagent, cs[..|cs| - 1], work), m.path)
  }

  function Rewritten(call: Call, cfg: Config): string {
    if call.prompt == "" then ""
    else
      var q := if call.subagent == "" then call.prompt else Fold(call.prompt, call.subagent, cfg.contracts, cfg.work);
      Appended(q, cfg.instructions)
  }

  method Evaluate(p: string, subagent: string, m: Managed, work: Option<Work>) returns (r: string, ok: bool)
    ensures ok <==> Both(m.content).Ok?
    ensures r == Act(Decide(m, subagent, work), p, m.path)
  {
    hide Injected, Stripped, Both;
    var both := ParseBoth(m.content);
    if both.Err? { return p, false; }
    var (c, needs) := both.value;
    if subagent in c.excluded {
      r := Strip(p, m.path);
      return r, true;
    }
    if subagent !in c.appliesTo { return p, true; }
    if needs.Required() && !WorkMatches(work, needs) { return p, true; }
    r := Inject(p, m.path, c.Header());
    return r, true;
  }

  method Rewrite(call: Call, cfg: Config) returns (prompt: string, changed: bool)
    ensures prompt == Rewritten(call, cfg) && (changed <==> prompt != call.prompt)
  {
    hide Decide, Act, Both, Appended;
    if call.prompt == "" { return call.prompt, false; }
    prompt := call.prompt;
    if call.subagent != "" {
      for i := 0 to |cfg.contracts|
        invariant prompt == Fold(call.prompt, call.subagent, cfg.contracts[..i], cfg.work)
      {
        assert cfg.contracts[..i + 1][..i] == cfg.contracts[..i];
        var candidate, ok := Evaluate(prompt, call.subagent, cfg.contracts[i], cfg.work);
        if !ok {
          SkipsUnreadable(prompt, call.subagent, cfg.contracts[i], cfg.work);
          continue;
        }
        prompt := candidate;
      }
      assert cfg.contracts[..|cfg.contracts|] == cfg.contracts;
    }
    prompt := Appended(prompt, cfg.instructions);
    return prompt, prompt != call.prompt;
  }

  lemma SkipsUnreadable(p: string, subagent: string, m: Managed, work: Option<Work>)
    requires Both(m.content).Err?
    ensures Act(Decide(m, subagent, work), p, m.path) == p
  {
  }

  // --- what each edit does to the lines ---

  ghost predicate Among(lines: seq<string>, entry: string) {
    exists i :: 0 <= i < |lines| && TrimSpace(lines[i]) == entry
  }

  // A text that can be a line of its own and be found again.
  ghost predicate IsEntry(path: string) {
    path != "" && TrimSpace(path) == path && '\n' !in path
  }

  lemma AmongPlus(a: seq<string>, b: seq<string>, entry: string)
    ensures Among(a + b, entry) <==> Among(a, entry) || Among(b, entry)
  {
    if i :| 0 <= i < |a| && TrimSpace(a[i]) == entry { assert (a + b)[i] == a[i]; }
    if i :| 0 <= i < |b| && TrimSpace(b[i]) == entry { assert (a + b)[|a| + i] == b[i]; }
  }

  lemma AmongOne(line: string, entry: string)
    ensures Among([line], entry) <==> TrimSpace(line) == entry
  {
    hide TrimSpace;
    assert [line][0] == line;
  }

  lemma LinePlus(a: string, b: string, entry: string)
    ensures HasLine(a + "\n" + b, entry) <==> HasLine(a, entry) || HasLine(b, entry)
  {
    hide TrimSpace;
    SplitPlus(a, b, '\n');
    assert a + "\n" + b == a + ['\n'] + b;
    AmongPlus(Split(a, '\n'), Split(b, '\n'), entry);
  }

  lemma EmptyLine(entry: string)
    ensures HasLine("", entry) <==> entry == ""
  {
    assert Split("", '\n')[0] == "" && TrimSpace("") == "";
  }

  lemma OneLine(line: string, entry: string)
    requires '\n' !in line
    ensures HasLine(line, entry) <==> TrimSpace(line) == entry
  {
    SplitOne(line, '\n');
    assert Split(line, '\n')[0] == line;
  }

  lemma {:induction false} WithoutLines(lines: seq<string>, e: string, f: string)
    ensures Among(Without(lines, e), f) <==> Among(lines, f) && f != e
    ensures !Among(lines, e) ==> Without(lines, e) == lines
    ensures forall line :: line in Without(lines, e) ==> line in lines
  {
    if lines == [] {
      assert Without(lines, e) == lines;
    } else {
      hide TrimSpace;
      var n := |lines| - 1;
      WithoutLines(lines[..n], e, f);
      assert lines == lines[..n] + [lines[n]];
      if TrimSpace(lines[n]) == e { assert Without(lines, e) == Without(lines[..n], e); }
      AmongPlus(lines[..n], [lines[n]], f);
      AmongPlus(lines[..n], [lines[n]], e);
      AmongOne(lines[n], f);
      AmongOne(lines[n], e);
      AmongPlus(Without(lines[..n], e), [lines[n]], f);
    }
  }

  lemma {:induction false} WithoutPlus(a: seq<string>, b: seq<string>, e: string)
    ensures Without(a + b, e) == Without(a, e) + Without(b, e)
  {
    hide TrimSpace;
    if b == [] {
      assert a + b == a;
    } else {
      var n := |b| - 1;
      var front := a + b[..n];
      WithoutPlus(a, b[..n], e);
      assert (a + b)[..|a| + n] == front && (a + b)[|a| + n] == b[n];
      assert Without(a + b, e) == Without(front, e) + if TrimSpace(b[n]) == e then [] else [b[n]];
    }
  }

  lemma AmongTwo(line: string, e: string, f: string)
    ensures Among([line, e], f) <==> TrimSpace(line) == f || TrimSpace(e) == f
  {
    AmongOne(line, f);
    AmongOne(e, f);
    AmongPlus([line], [e], f);
    assert [line] + [e] == [line, e];
  }

  lemma {:induction false} UnderMembers(lines: seq<string>, header: string, e: string)
    ensures forall line :: line in Under(lines, header, e) ==> line in lines || line == e
    ensures lines != [] ==> Under(lines, header, e) != []
  {
    if lines != [] {
      hide TrimSpace;
      UnderMembers(lines[..|lines| - 1], header, e);
    }
  }

  lemma {:induction false} UnderLines(lines: seq<string>, header: string, e: string, f: string)
    ensures Among(Under(lines, header, e), f) <==> Among(lines, f) || (Among(lines, header) && TrimSpace(e) == f)
  {
    if lines != [] {
      hide TrimSpace, Among;
      var n := |lines| - 1;
      var line, front := lines[n], Under(lines[..n], header, e);
      UnderLines(lines[..n], header, e, f);
      assert lines == lines[..n] + [line];
      AmongPlus(lines[..n], [line], f);
      AmongPlus(lines[..n], [line], header);
      AmongOne(line, f);
      AmongOne(line, header);
      AmongTwo(line, e, f);
      AmongPlus(front, [line], f);
      AmongPlus(front, [line, e], f);
    } else {
      assert Under(lines, header, e) == lines;
    }
  }

  /** Stripping leaves every other line, in order, and takes the path away. When nothing is left the prompt is empty. */
  lemma StripKeepsTheRest(p: string, e: string)
    ensures var rest := Without(Split(p, '\n'), e);
            if rest == [] then Stripped(p, e) == "" else Split(Stripped(p, e), '\n') == rest
    ensures e != "" ==> !HasLine(Stripped(p, e), e)
  {
    hide TrimSpace;
    var lines := Split(p, '\n');
    var rest := Without(lines, e);
    WithoutLines(lines, e, e);
    assert Among(lines, e) <==> HasLine(p, e);
    SplitHasNoSep(p, '\n');
    EmptyLine(e);
    if rest != [] {
      SplitJoin(rest, '\n');
      assert Among(rest, e) <==> HasLine(Join(rest, "\n"), e);
    }
  }

  lemma StripLines(p: string, e: string, f: string)
    requires f != ""
    ensures HasLine(Stripped(p, e), f) <==> HasLine(p, f) && f != e
  {
    hide TrimSpace;
    var lines := Split(p, '\n');
    var rest := Without(lines, e);
    StripKeepsTheRest(p, e);
    WithoutLines(lines, e, f);
    EmptyLine(f);
    assert Among(lines, f) <==> HasLine(p, f);
    assert Among(rest, f) <==> if rest == [] then false else HasLine(Stripped(p, e), f);
  }

  lemma UnderIsSplit(p: string, header: string, e: string)
    requires '\n' !in e
    ensures var out := Under(Split(p, '\n'), header, e); Split(Join(out, "\n"), '\n') == out
  {
    hide TrimSpace;
    UnderMembers(Split(p, '\n'), header, e);
    SplitHasNoSep(p, '\n');
    SplitJoin(Under(Split(p, '\n'), header, e), '\n');
  }

  // The path and the header, when they are put at the end of p.
  lemma AtEndLines(p: string, header: string, e: string, f: string)
    requires f != "" && '\n' !in e
    ensures HasLine(p + Separator(p) + header + "\n" + e + "\n", f) <==>
              HasLine(p, f) || HasLine(header, f) || TrimSpace(e) == f
  {
    var tail := header + "\n" + (e + "\n" + "");
    LinePlus(header, e + "\n" + "", f);
    LinePlus(e, "", f);
    OneLine(e, f);
    EmptyLine(f);
    if Separator(p) == "\n" {
      LinePlus(p, tail, f);
      assert p + Separator(p) + header + "\n" + e + "\n" == p + "\n" + tail;
    } else {
      LinePlus(p, "" + "\n" + tail, f);
      LinePlus("", tail, f);
      assert p + Separator(p) + header + "\n" + e + "\n" == p + "\n" + ("" + "\n" + tail);
    }
  }

  lemma InjectLines(p: string, e: string, header: string, f: string)
    requires f != "" && '\n' !in e
    ensures HasLine(Injected(p, e, header), f) <==>
            HasLine(p, f) || (!HasLine(p, e) && (TrimSpace(e) == f || (!HasLine(p, header) && HasLine(header, f))))
  {
    if !HasLine(p, e) && !HasLine(p, header) {
      AtEndLines(p, header, e, f);
    } else if !HasLine(p, e) {
      hide TrimSpace;
      var lines := Split(p, '\n');
      UnderIsSplit(p, header, e);
      UnderLines(lines, header, e, f);
      var out := Under(lines, header, e);
      assert Among(lines, f) <==> HasLine(p, f);
      assert Among(lines, header) <==> HasLine(p, header);
      assert Among(out, f) <==> HasLine(Join(out, "\n"), f);
    }
  }

  lemma {:induction false} TrimmedLines(p: string, f: string)
    requires f != ""
    ensures HasLine(TrimRight(p, {'\n'}), f) <==> HasLine(p, f)
    decreases |p|
  {
    if p != "" && p[|p| - 1] == '\n' {
      var q := p[..|p| - 1];
      TrimmedLines(q, f);
      assert p == q + "\n" + "";
      LinePlus(q, "", f);
      EmptyLine(f);
    }
  }

  lemma AppendLines(p: string, block: string, f: string)
    requires f != ""
    ensures HasLine(p, f) ==> HasLine(Appended(p, block), f)
    ensures HasLine(Appended(p, block), f) ==> HasLine(p, f) || HasLine(block, f)
  {
    var t := TrimRight(p, {'\n'});
    if Appended(p, block) != p {
      hide TrimRight;
      var tail := block + "\n" + "";
      TrimmedLines(p, f);
      assert t + "\n\n" + block + "\n" == t + "\n" + ("" + "\n" + tail);
      LinePlus(t, "" + "\n" + tail, f);
      LinePlus("", tail, f);
      LinePlus(block, "", f);
      EmptyLine(f);
    }
  }

  // --- rewriting a rewritten prompt ---

  // The contract has nothing left to do to q.
  ghost predicate Settled(q: string, m: Managed, subagent: string, work: Option<Work>) {
    match Decide(m, subagent, work)
    case Skip => true
    case StripIt => !HasLine(q, m.path)
    case InjectIt(_) => HasLine(q, m.path)
  }

  ghost predicate OtherPath(a: Managed, b: Managed, subagent: string, work: Option<Work>) {
    Decide(a, subagent, work).StripIt? && Decide(b, subagent, work).InjectIt? ==> a.path != b.path
  }

  // What b injects brings no line that a strips: neither its path nor, in its header, the path of a.
  ghost predicate Apart(a: Managed, b: Managed, subagent: string, work: Option<Work>) {
    && OtherPath(a, b, subagent, work)
    && (Decide(a, subagent, work).StripIt? && Decide(b, subagent, work).InjectIt? ==>
          !HasLine(Decide(b, subagent, work).header, a.path))
  }

  ghost predicate Entry(m: Managed, subagent: string, work: Option<Work>) {
    (Decide(m, subagent, work).InjectIt? ==> IsEntry(m.path)) && (Decide(m, subagent, work).StripIt? ==> m.path != "")
  }

  // No contract undoes what an earlier one did.
  ghost predicate Compatible(cs: seq<Managed>, subagent: string, work: Option<Work>) {
    && (forall i :: 0 <= i < |cs| ==> Entry(cs[i], subagent, work))
    && (forall i, j :: 0 <= i < j < |cs| ==> Apart(cs[i], cs[j], subagent, work))
    && (forall i, j :: 0 <= i < j < |cs| ==> OtherPath(cs[j], cs[i], subagent, work))
  }

  lemma ActSettles(q: string, m: Managed, subagent: string, work: Option<Work>)
    requires Entry(m, subagent, work)
    ensures Settled(Act(Decide(m, subagent, work), q, m.path), m, subagent, work)
  {
    hide Decide, HasLine, Stripped, Injected, TrimSpace;
    match Decide(m, subagent, work)
    case Skip =>
    case StripIt => StripLines(q, m.path, m.path);
    case InjectIt(header) => InjectLines(q, m.path, header, m.path);
  }

  lemma ActKeepsSettled(q: string, m: Managed, b: Managed, subagent: string, work: Option<Work>)
    requires Settled(q, m, subagent, work) && Entry(m, subagent, work) && Entry(b, subagent, work)
    requires Apart(m, b, subagent, work) && OtherPath(b, m, subagent, work)
    ensures Settled(Act(Decide(b, subagent, work), q, b.path), m, subagent, work)
  {
    hide Decide, HasLine, Stripped, Injected, TrimSpace;
    if !Decide(m, subagent, work).Skip? {
      match Decide(b, subagent, work)
      case Skip =>
      case StripIt => StripLines(q, b.path, m.path);
      case InjectIt(header) => InjectLines(q, b.path, header, m.path);
    }
  }

  lemma NextSettles(q: string, front: seq<Managed>, b: Managed, subagent: string, work: Option<Work>)
    requires Compatible(front + [b], subagent, work)
    requires forall i :: 0 <= i < |front| ==> Settled(q, front[i], subagent, work)
    ensures var r := Act(Decide(b, subagent, work), q, b.path);
            forall i :: 0 <= i < |front + [b]| ==> Settled(r, (front + [b])[i], subagent, work)
  {
    hide Decide, Act, Settled, Apart, OtherPath, Entry;
    var cs, n := front + [b], |front|;
    assert cs[n] == b;
    ActSettles(q, b, subagent, work);
    forall i | 0 <= i < n
      ensures Settled(Act(Decide(b, subagent, work), q, b.path), cs[i], subagent, work)
    {
      assert front[i] == cs[i] && Apart(cs[i], cs[n], subagent, work) && OtherPath(cs[n], cs[i], subagent, work);
      ActKeepsSettled(q, cs[i], b, subagent, work);
    }
  }

  lemma CompatibleFront(cs: seq<Managed>, n: nat, subagent: string, work: Option<Work>)
    requires n <= |cs| && Compatible(cs, subagent, work)
    ensures Compatible(cs[..n], subagent, work)
  {
    hide Apart, OtherPath, Entry;
  }

  // After the contracts have been applied in order, none has anything left to do.
  lemma {:induction false} FoldSettles(p: string, subagent: string, cs: seq<Managed>, work: Option<Work>)
    requires Compatible(cs, subagent, work)
    ensures forall i :: 0 <= i < |cs| ==> Settled(Fold(p, subagent, cs, work), cs[i], subagent, work)
  {
    hide Decide, Act, Settled, Compatible;
    if cs != [] {
      var front, b := cs[..|cs| - 1], cs[|cs| - 1];
      CompatibleFront(cs, |cs| - 1, subagent, work);
      FoldSettles(p, subagent, front, work);
      assert front + [b] == cs;
      NextSettles(Fold(p, subagent, front, work), front, b, subagent, work);
    }
  }

  lemma {:induction false} FoldOfSettled(q: string, subagent: string, cs: seq<Managed>, work: Option<Work>)
    requires forall i :: 0 <= i < |cs| ==> Settled(q, cs[i], subagent, work)
    ensures Fold(q, subagent, cs, work) == q
  {
    hide Decide, Settled, Act;
    if cs != [] {
      var n := |cs| - 1;
      FoldOfSettled(q, subagent, cs[..n], work);
      SettledIsLeft(q, cs[n], subagent, work);
    }
  }

  lemma SettledIsLeft(q: string, m: Managed, subagent: string, work: Option<Work>)
    requires Settled(q, m, subagent, work)
    ensures Act(Decide(m, subagent, work), q, m.path) == q
  {
    hide Decide, HasLine;
  }

  // --- the block, appended twice ---

  lemma {:induction false} TrimmedPlus(a: string, b: string)
    ensures TrimRight(b, {'\n'}) != "" ==> TrimRight(a + b, {'\n'}) == a + TrimRight(b, {'\n'})
    ensures TrimRight(b, {'\n'}) == "" ==> TrimRight(a + b, {'\n'}) == TrimRight(a, {'\n'})
    decreases |b|
  {
    if b == "" {
      assert a + b == a;
    } else if b[|b| - 1] == '\n' {
      TrimmedPlus(a, b[..|b| - 1]);
      assert (a + b)[..|a| + |b| - 1] == a + b[..|b| - 1];
    }
  }

  lemma {:induction false} TrimmedTwice(p: string)
    ensures TrimRight(TrimRight(p, {'\n'}), {'\n'}) == TrimRight(p, {'\n'})
    ensures |TrimRight(p, {'\n'})| <= |p|
  {
    if p != "" && p[|p| - 1] == '\n' { TrimmedTwice(p[..|p| - 1]); }
  }

  // The prompt with the block at its end, without its last newline.
  lemma TrimmedBlock(t: string, block: string)
    ensures var b := TrimRight(block, {'\n'});
            TrimRight(t + "\n\n" + block + "\n", {'\n'}) == if b == "" then TrimRight(t, {'\n'}) else t + "\n\n" + b
  {
    var q := t + "\n\n";
    TrimmedPlus(q, block + "\n");
    assert t + "\n\n" + block + "\n" == q + (block + "\n");
    assert (block + "\n")[..|block|] == block;
    TrimmedPlus(t, "\n\n");
    assert "\n\n"[..1] == "\n" && "\n"[..0] == "";
    assert TrimRight("\n\n", {'\n'}) == "";
  }

  ghost predicate BlockIsPutOnce(block: string) {
    TrimRight(block, {'\n'}) == block || TrimRight(block, {'\n'}) == ""
  }

  /** The block is said to be put once. Appending it to a prompt that already has it changes nothing if and only if the
      block does not end in a newline or is nothing but newlines: the end of a prompt is looked at without its newlines,
      so a block that ends in one is never found there. */
  lemma AppendTwice(p: string, block: string)
    ensures Appended(Appended(p, block), block) == Appended(p, block) <==> BlockIsPutOnce(block)
  {
    var t, b := TrimRight(p, {'\n'}), TrimRight(block, {'\n'});
    var r := Appended(p, block);
    TrimmedTwice(p);
    TrimmedTwice(block);
    if r != p {
      TrimmedBlock(t, block);
      hide TrimRight;
      if b == "" {
      } else if b == block {
        assert HasSuffix(t + "\n\n" + b, block);
      } else {
        AppendsAgain(t, block, b);
      }
    } else {
      FoundIsPutOnce(p, block);
    }
  }

  // A block that is found at the end of a prompt without its newlines does not end in one.
  lemma FoundIsPutOnce(p: string, block: string)
    requires Appended(p, block) == p
    ensures BlockIsPutOnce(block)
  {
    var t := TrimRight(p, {'\n'});
    TrimmedTwice(p);
    if block != "" && block[|block| - 1] == '\n' {
      if HasSuffix(t, block) {
        LastOfSuffix(t, block);
        LastNotNewline(p);
      } else {
        TrimmedBlock(t, block);
      }
    }
  }

  // A block that ends in a newline, and not only newlines, is put again each time.
  lemma AppendsAgain(t: string, block: string, b: string)
    requires b == TrimRight(block, {'\n'}) && b != block && b != ""
    requires TrimRight(t + "\n\n" + block + "\n", {'\n'}) == t + "\n\n" + b
    ensures Appended(t + "\n\n" + block + "\n", block) != t + "\n\n" + block + "\n"
  {
    var r, u := t + "\n\n" + block + "\n", t + "\n\n" + b;
    assert block[|block| - 1] == '\n';
    LastNotNewline(block);
    assert u[|u| - 1] == b[|b| - 1];
    if HasSuffix(u, block) { LastOfSuffix(u, block); }
    assert |u + "\n\n" + block + "\n"| > |r|;
  }

  lemma LastOfSuffix(s: string, suffix: string)
    requires HasSuffix(s, suffix) && suffix != ""
    ensures s[|s| - 1] == suffix[|suffix| - 1]
  {
    assert s[|s| - |suffix|..][|suffix| - 1] == s[|s| - 1];
  }

  lemma {:induction false} LastNotNewline(s: string)
    requires TrimRight(s, {'\n'}) != ""
    ensures var b := TrimRight(s, {'\n'}); b[|b| - 1] != '\n'
  {
    if s[|s| - 1] == '\n' { LastNotNewline(s[..|s| - 1]); }
  }

  // --- the guarantee ---

  ghost predicate BlockIsApart(block: string, cs: seq<Managed>, subagent: string, work: Option<Work>) {
    forall i :: 0 <= i < |cs| && Decide(cs[i], subagent, work).StripIt? ==> !HasLine(block, cs[i].path)
  }

  /** Rewriting a rewritten prompt changes nothing: for every prompt and any list of contracts that inject, strip, do
      nothing or cannot be read, when no contract undoes an earlier one, the block holds no stripped path as a line and
      the block is one that is put once. */
  lemma RewriteTwice(call: Call, cfg: Config)
    requires call.subagent != "" ==> Compatible(cfg.contracts, call.subagent, cfg.work)
    requires call.subagent != "" ==> BlockIsApart(cfg.instructions, cfg.contracts, call.subagent, cfg.work)
    requires BlockIsPutOnce(cfg.instructions)
    ensures var again := call.(prompt := Rewritten(call, cfg)); Rewritten(again, cfg) == again.prompt
  {
    var cs, block := cfg.contracts, cfg.instructions;
    var q := if call.subagent == "" then call.prompt else Fold(call.prompt, call.subagent, cs, cfg.work);
    var r := Appended(q, block);
    AppendTwice(q, block);
    if call.subagent != "" {
      FoldSettles(call.prompt, call.subagent, cs, cfg.work);
      forall i | 0 <= i < |cs|
        ensures Settled(r, cs[i], call.subagent, cfg.work)
      {
        assert Settled(q, cs[i], call.subagent, cfg.work);
        StaysSettled(q, block, cs[i], call.subagent, cfg.work);
      }
      FoldOfSettled(r, call.subagent, cs, cfg.work);
    }
  }

  lemma StaysSettled(q: string, block: string, m: Managed, subagent: string, work: Option<Work>)
    requires Settled(q, m, subagent, work) && Entry(m, subagent, work)
    requires Decide(m, subagent, work).StripIt? ==> !HasLine(block, m.path)
    ensures Settled(Appended(q, block), m, subagent, work)
  {
    hide Decide, HasLine, Appended;
    if !Decide(m, subagent, work).Skip? { AppendLines(q, block, m.path); }
  }

  // --- what injecting and stripping undo ---

  // The characters of the lines, with a newline for each.
  function Total(lines: seq<string>): nat {
    if lines == [] then 0 else Total(lines[..|lines| - 1]) + |lines[|lines| - 1]| + 1
  }

  lemma {:induction false} TotalPlus(a: seq<string>, b: seq<string>)
    ensures Total(a + b) == Total(a) + Total(b)
  {
    if b == [] {
      assert a + b == a;
    } else {
      var n := |b| - 1;
      TotalPlus(a, b[..n]);
      assert (a + b)[..|a| + n] == a + b[..n];
    }
  }

  lemma {:induction false} JoinTotal(lines: seq<string>)
    requires lines != []
    ensures |Join(lines, "\n")| + 1 == Total(lines)
  {
    assert Total(lines[..1]) == |lines[0]| + 1 by { assert lines[..1][..0] == []; }
    if |lines| > 1 {
      JoinTotal(lines[1..]);
      TotalPlus(lines[..1], lines[1..]);
      assert lines == lines[..1] + lines[1..];
    } else {
      assert lines[..1] == lines;
    }
  }

  lemma {:induction false} UnderIsLonger(lines: seq<string>, header: string, e: string)
    ensures Total(Under(lines, header, e)) >= Total(lines)
    ensures Among(lines, header) ==> Total(Under(lines, header, e)) > Total(lines)
  {
    if lines != [] {
      hide TrimSpace;
      var n := |lines| - 1;
      var front := Under(lines[..n], header, e);
      UnderIsLonger(lines[..n], header, e);
      assert lines == lines[..n] + [lines[n]];
      AmongPlus(lines[..n], [lines[n]], header);
      AmongOne(lines[n], header);
      TotalPlus(front, [lines[n], e]);
      TotalPlus(front, [lines[n]]);
      assert [lines[n], e][..1] == [lines[n]] && [lines[n]][..0] == [];
      assert Total([lines[n]]) == |lines[n]| + 1;
      assert Total([lines[n], e]) == Total([lines[n]]) + |e| + 1;
    }
  }

  lemma InjectLengthens(p: string, e: string, header: string)
    requires !HasLine(p, e)
    ensures |Injected(p, e, header)| > |p|
  {
    if HasLine(p, header) {
      hide TrimSpace;
      var lines := Split(p, '\n');
      assert Among(lines, header) <==> HasLine(p, header);
      UnderIsLonger(lines, header, e);
      UnderMembers(lines, header, e);
      JoinTotal(lines);
      JoinTotal(Under(lines, header, e));
      JoinSplit(p, '\n');
    }
  }

  lemma {:induction false} TrimLeftPart(s: string, cutset: set<char>)
    ensures var t := TrimLeft(s, cutset); TrimLeft(t, cutset) == t && (t != "" ==> t[0] !in cutset)
    ensures forall c :: c in TrimLeft(s, cutset) ==> c in s
  {
    if s != "" && s[0] in cutset { TrimLeftPart(s[1..], cutset); }
  }

  lemma {:induction false} TrimRightPart(s: string, cutset: set<char>)
    ensures var t := TrimRight(s, cutset);
            TrimRight(t, cutset) == t && t <= s && (s != "" && s[0] !in cutset ==> t != "")
  {
    if s != "" && s[|s| - 1] in cutset { TrimRightPart(s[..|s| - 1], cutset); }
  }

  lemma TrimSpaceTwice(s: string)
    ensures TrimSpace(TrimSpace(s)) == TrimSpace(s) && forall c :: c in TrimSpace(s) ==> c in s
  {
    var t := TrimLeft(s, SPACE);
    TrimLeftPart(s, SPACE);
    TrimRightPart(t, SPACE);
    var u := TrimRight(t, SPACE);
    if u != "" { assert u[0] == t[0]; }
  }

  /** Injecting twice is injecting once if and only if the path is a text a line can be recognised by: with no white
      space around it and no newline in it. Any other path is put again each time. */
  lemma InjectTwice(p: string, e: string, header: string)
    requires !HasLine(p, e)
    ensures var q := Injected(p, e, header); Injected(q, e, header) == q <==> TrimSpace(e) == e && '\n' !in e
  {
    var q := Injected(p, e, header);
    if TrimSpace(e) == e && '\n' !in e {
      if e == "" { InjectedBlank(p, header); } else { InjectLines(p, e, header, e); }
    } else {
      NeverALine(q, e);
      InjectLengthens(q, e, header);
    }
  }

  lemma NeverALine(p: string, e: string)
    requires TrimSpace(e) != e || '\n' in e
    ensures !HasLine(p, e)
  {
    hide TrimSpace;
    SplitHasNoSep(p, '\n');
    var lines := Split(p, '\n');
    forall i | 0 <= i < |lines|
      ensures TrimSpace(lines[i]) != e
    {
      TrimSpaceTwice(lines[i]);
      assert lines[i] in lines;
    }
  }

  lemma InjectedBlank(p: string, header: string)
    ensures HasLine(Injected(p, "", header), "")
  {
    hide TrimSpace;
    EmptyLine("");
    var lines := Split(p, '\n');
    if HasLine(p, "") {
    } else if HasLine(p, header) {
      UnderIsSplit(p, header, "");
      UnderLines(lines, header, "", "");
      assert Among(lines, header) <==> HasLine(p, header);
      assert TrimSpace("") == "" by { TrimsNothing(); }
      assert Among(Under(lines, header, ""), "") <==> HasLine(Injected(p, "", header), "");
    } else {
      var front := p + Separator(p) + header + "\n";
      LinePlus(front, "", "");
      assert Injected(p, "", header) == front + "\n" + "";
    }
  }

  lemma TrimsNothing()
    ensures TrimSpace("") == ""
  {
  }

  lemma WithoutOne(line: string, e: string)
    ensures Without([line], e) == if TrimSpace(line) == e then [] else [line]
  {
    hide TrimSpace;
    assert [line][..0] == [];
  }

  lemma WithoutPair(line: string, e: string)
    requires TrimSpace(line) != e && TrimSpace(e) == e
    ensures Without([line, e], e) == [line]
  {
    hide TrimSpace;
    WithoutOne(line, e);
    WithoutOne(e, e);
    WithoutPlus([line], [e], e);
    assert [line] + [e] == [line, e];
  }

  lemma {:induction false} WithoutUnder(lines: seq<string>, header: string, e: string)
    requires !Among(lines, e) && TrimSpace(e) == e
    ensures Without(Under(lines, header, e), e) == lines
  {
    if lines != [] {
      hide TrimSpace, Among, Without;
      var n := |lines| - 1;
      var line, front := lines[n], Under(lines[..n], header, e);
      assert lines == lines[..n] + [line];
      AmongPlus(lines[..n], [line], e);
      AmongOne(line, e);
      WithoutUnder(lines[..n], header, e);
      if TrimSpace(line) == header {
        WithoutPair(line, e);
        WithoutPlus(front, [line, e], e);
      } else {
        WithoutOne(line, e);
        WithoutPlus(front, [line], e);
      }
    }
  }

  lemma StripAtEnd(p: string, e: string, rest: string)
    requires IsEntry(e) && !HasLine(p, e)
    ensures |Stripped(p + "\n" + (rest + "\n" + ""), e)| > |p|
  {
    hide TrimSpace;
    var tail := rest + "\n" + "";
    var q := p + "\n" + tail;
    var a, b := Split(p, '\n'), Split(tail, '\n');
    assert q == p + ['\n'] + tail && tail == rest + ['\n'] + "";
    SplitPlus(p, tail, '\n');
    SplitPlus(rest, "", '\n');
    assert Among(a, e) <==> HasLine(p, e);
    WithoutLines(a, e, e);
    WithoutPlus(a, b, e);
    WithoutPlus(Split(rest, '\n'), [""], e);
    TrimsNothing();
    WithoutOne("", e);
    var kept := Without(b, e);
    assert kept != [] && a != [];
    JoinPlus(a, kept, "\n");
    JoinSplit(p, '\n');
    if !HasLine(q, e) {
    } else {
      assert Stripped(q, e) == Join(a + kept, "\n");
    }
  }

  lemma StripShortens(p: string, e: string)
    requires IsEntry(e) && HasLine(p, e)
    ensures Stripped(p, e) != p
  {
    hide TrimSpace;
    StripLines(p, e, e);
  }

  lemma InjectedAtEnd(p: string, e: string, header: string)
    requires IsEntry(e) && !HasLine(p, e) && !HasLine(p, header)
    ensures |Stripped(Injected(p, e, header), e)| > |p|
  {
    hide HasLine, Stripped, TrimSpace, HasSuffix;
    if Separator(p) == "\n" {
      StripAtEnd(p, e, header + "\n" + e);
      assert Injected(p, e, header) == p + "\n" + (header + "\n" + e + "\n" + "");
    } else {
      StripAtEnd(p, e, "\n" + header + "\n" + e);
      assert Injected(p, e, header) == p + "\n" + ("\n" + header + "\n" + e + "\n" + "");
    }
  }

  lemma StripUnder(p: string, e: string, header: string)
    requires IsEntry(e) && !HasLine(p, e) && HasLine(p, header)
    ensures Stripped(Injected(p, e, header), e) == p
  {
    hide TrimSpace;
    var lines := Split(p, '\n');
    var out := Under(lines, header, e);
    InjectLines(p, e, header, e);
    assert Among(lines, e) <==> HasLine(p, e);
    hide HasLine, Among, Under, Without;
    UnderIsSplit(p, header, e);
    WithoutUnder(lines, header, e);
    JoinSplit(p, '\n');
    assert Injected(p, e, header) == Join(out, "\n");
  }

  /** Stripping undoes injecting if and only if the path was not in the prompt and the header was: without the header,
      injecting puts it there too and stripping leaves it. */
  lemma StripUndoesInject(p: string, e: string, header: string)
    requires IsEntry(e)
    ensures Stripped(Injected(p, e, header), e) == p <==> !HasLine(p, e) && HasLine(p, header)
  {
    hide HasLine, Stripped, TrimSpace;
    if HasLine(p, e) {
      PresentIsLeft(p, e, header);
      StripShortens(p, e);
    } else if HasLine(p, header) {
      StripUnder(p, e, header);
    } else {
      InjectedAtEnd(p, e, header);
    }
  }

  // --- when a contract undoes an earlier one ---

  /** The path x is stripped, and then y is injected under a header that is x. Doing both again changes nothing if and
      only if y was there from the start: otherwise the first pass writes x as the header, and the second strips it. */
  lemma StrippedHeader(p: string, x: string, y: string)
    requires IsEntry(x) && IsEntry(y) && x != y
    ensures var once := Injected(Stripped(p, x), y, x);
            Injected(Stripped(once, x), y, x) == once <==> HasLine(p, y)
  {
    hide TrimSpace, Stripped, Injected;
    var s := Stripped(p, x);
    var once := Injected(s, y, x);
    StripLines(p, x, x);
    StripLines(p, x, y);
    InjectLines(s, y, x, x);
    InjectLines(s, y, x, y);
    OneLine(x, x);
    StripLines(once, x, x);
    StripLines(once, x, y);
    PresentIsLeft(Stripped(once, x), y, x);
    if HasLine(p, y) {
      PresentIsLeft(s, y, x);
      AbsentIsLeft(s, x);
    }
  }

  lemma PresentIsLeft(p: string, e: string, header: string)
    requires HasLine(p, e)
    ensures Injected(p, e, header) == p
  {
  }

  lemma AbsentIsLeft(p: string, e: string)
    requires !HasLine(p, e)
    ensures Stripped(p, e) == p
  {
  }

  lemma LinesWithBlock(t: string, block: string, e: string)
    ensures var r := t + "\n\n" + block + "\n";
            && Split(r, '\n') == Split(t, '\n') + ([""] + (Split(block, '\n') + [""]))
            && (HasLine(block, e) ==> HasLine(r, e))
  {
    var r := t + "\n\n" + block + "\n";
    var tail := "" + "\n" + (block + "\n" + "");
    assert r == t + "\n" + tail;
    assert tail == "" + ['\n'] + (block + ['\n'] + "") && t + "\n" + tail == t + ['\n'] + tail;
    assert Split("", '\n') == [""];
    hide Split, HasLine;
    SplitPlus(t, tail, '\n');
    SplitPlus("", block + ['\n'] + "", '\n');
    SplitPlus(block, "", '\n');
    LinePlus(t, tail, e);
    LinePlus("", block + "\n" + "", e);
    LinePlus(block, "", e);
  }

  lemma WithoutInBlock(a: seq<string>, b: seq<string>, e: string)
    requires !Among(a, e) && e != ""
    ensures Without(a + ([""] + (b + [""])), e) == a + ([""] + (Without(b, e) + [""]))
  {
    hide TrimSpace;
    TrimsNothing();
    WithoutOne("", e);
    WithoutLines(a, e, e);
    hide Without, Among;
    WithoutPlus(a, [""] + (b + [""]), e);
    WithoutPlus([""], b + [""], e);
    WithoutPlus(b, [""], e);
  }

  // What is left of a prompt that ends with a block.
  lemma StrippedWithBlock(t: string, block: string, e: string)
    requires IsEntry(e) && !HasLine(t, e) && HasLine(block, e)
    ensures Stripped(t + "\n\n" + block + "\n", e) ==
            if Without(Split(block, '\n'), e) == [] then t + "\n\n" else t + "\n\n" + Stripped(block, e) + "\n"
  {
    hide TrimSpace;
    var a, b := Split(t, '\n'), Split(block, '\n');
    var w := Without(b, e);
    assert Among(a, e) <==> HasLine(t, e);
    hide HasLine, Among, Split, Without, Join;
    LinesWithBlock(t, block, e);
    WithoutInBlock(a, b, e);
    JoinFour(a, w);
    JoinSplit(t, '\n');
    if w != [] { assert t + "\n\n" + (Join(w, "\n") + "\n") == t + "\n\n" + Join(w, "\n") + "\n"; }
  }

  lemma JoinFour(a: seq<string>, w: seq<string>)
    requires a != []
    ensures Join(a + ([""] + (w + [""])), "\n") == Join(a, "\n") + "\n\n" + if w == [] then "" else Join(w, "\n") + "\n"
  {
    JoinPlus(a, [""] + (w + [""]), "\n");
    JoinPlus([""], w + [""], "\n");
    if w == [] {
      assert w + [""] == [""];
    } else {
      JoinPlus(w, [""], "\n");
    }
  }

  // A block with a stripped path among its lines does not end a text without that path, when the text ends with what is
  // left of the block.
  lemma BlockIsNotLeft(t: string, block: string, e: string)
    requires IsEntry(e) && !HasLine(t, e) && HasLine(block, e) && block != ""
    requires TrimRight(Stripped(block, e), {'\n'}) != ""
    ensures !HasSuffix(t + "\n\n" + TrimRight(Stripped(block, e), {'\n'}), block)
  {
    if block[|block| - 1] == '\n' {
      NewlineIsNotFound(t + "\n\n", Stripped(block, e), block);
    } else {
      TextIsNotLeft(t, block, e);
    }
  }

  lemma NewlineIsNotFound(front: string, s: string, block: string)
    requires TrimRight(s, {'\n'}) != "" && block != "" && block[|block| - 1] == '\n'
    ensures !HasSuffix(front + TrimRight(s, {'\n'}), block)
  {
    var v := TrimRight(s, {'\n'});
    LastNotNewline(s);
    if HasSuffix(front + v, block) { LastOfSuffix(front + v, block); }
  }

  lemma TextIsNotLeft(t: string, block: string, e: string)
    requires IsEntry(e) && !HasLine(t, e) && HasLine(block, e)
    requires block != "" && block[|block| - 1] != '\n'
    requires TrimRight(Stripped(block, e), {'\n'}) != ""
    ensures !HasSuffix(t + "\n\n" + TrimRight(Stripped(block, e), {'\n'}), block)
  {
    assert TrimRight("", {'\n'}) == "";
    hide *;
    var u := t + "\n\n" + TrimRight(Stripped(block, e), {'\n'});
    NotLeft(t, block, e);
    var at := FirstBreak(block);
    if at == |block| {
      OnlyLine(block, e);
    } else {
      var b, c := block[..at], block[at + 1..];
      assert block == b + "\n" + c;
      EndsWithRest(t, b, c, e);
    }
  }

  lemma NotLeft(t: string, block: string, e: string)
    requires IsEntry(e) && !HasLine(t, e)
    ensures !HasLine(t + "\n\n" + TrimRight(Stripped(block, e), {'\n'}), e)
  {
    hide TrimSpace, HasLine, Stripped, TrimRight;
    var v := TrimRight(Stripped(block, e), {'\n'});
    TrimmedLines(Stripped(block, e), e);
    StripLines(block, e, e);
    EmptyLine(e);
    LinePlus(t, "" + "\n" + v, e);
    LinePlus("", v, e);
    assert t + "\n\n" + v == t + "\n" + ("" + "\n" + v);
  }

  // A text cannot end with a block, a line of which it has not, when what is left of the block ends it.
  lemma EndsWithRest(t: string, b: string, c: string, e: string)
    requires IsEntry(e) && '\n' !in b && HasLine(b + "\n" + c, e) && (c == "" || c[|c| - 1] != '\n')
    requires !HasLine(t + "\n\n" + TrimRight(Stripped(b + "\n" + c, e), {'\n'}), e)
    ensures !HasSuffix(t + "\n\n" + TrimRight(Stripped(b + "\n" + c, e), {'\n'}), b + "\n" + c)
  {
    hide TrimSpace, HasLine, Stripped, TrimRight;
    var u := t + "\n\n" + TrimRight(Stripped(b + "\n" + c, e), {'\n'});
    if HasSuffix(u, b + "\n" + c) {
      var w := u[..|u| - |b + "\n" + c|];
      assert u == (w + b) + "\n" + c;
      LinePlus(b, c, e);
      LinePlus(w + b, c, e);
      StrippedHead(b, c, e);
      OneLine(b, e);
      LastKept(c);
      TrimsNothing();
      SameTail(t, w, b, c, c);
    }
  }

  lemma FirstBreak(s: string) returns (at: nat)
    ensures at <= |s| && '\n' !in s[..at] && (at < |s| ==> s[at] == '\n')
  {
    at := 0;
    while at < |s| && s[at] != '\n'
      invariant at <= |s| && '\n' !in s[..at]
    {
      assert s[..at + 1] == s[..at] + [s[at]];
      at := at + 1;
    }
  }

  lemma OnlyLine(line: string, e: string)
    requires '\n' !in line[..|line|] && HasLine(line, e)
    ensures Stripped(line, e) == ""
  {
    hide TrimSpace;
    assert line[..|line|] == line;
    OneLine(line, e);
    SplitOne(line, '\n');
    WithoutOne(line, e);
  }

  // What is left when only the first line goes.
  lemma StrippedHead(b: string, c: string, e: string)
    requires '\n' !in b && IsEntry(e) && HasLine(b + "\n" + c, e) && !HasLine(c, e)
    ensures Stripped(b + "\n" + c, e) == c && HasLine(b, e)
  {
    hide TrimSpace;
    LinePlus(b, c, e);
    OneLine(b, e);
    assert b + "\n" + c == b + ['\n'] + c;
    SplitPart(b, c, '\n');
    var lines := Split(c, '\n');
    assert Among(lines, e) <==> HasLine(c, e);
    WithoutLines(lines, e, e);
    WithoutPlus([b], lines, e);
    WithoutOne(b, e);
    assert [] + lines == lines && [b] + lines == Split(b + "\n" + c, '\n');
    JoinSplit(c, '\n');
  }

  lemma LastKept(c: string)
    requires c == "" || c[|c| - 1] != '\n'
    ensures TrimRight(c, {'\n'}) == c
  {
  }

  lemma SameTail(t: string, w: string, b: string, c: string, v: string)
    requires t + "\n\n" + v == (w + b) + "\n" + c && v == c && '\n' !in b
    ensures b == ""
  {
    var front := t + "\n";
    assert front + "\n" + v == t + "\n\n" + v;
    assert |front| == |w + b|;
    assert front == (front + "\n" + v)[..|front|] == ((w + b) + "\n" + c)[..|front|] == w + b;
    assert HasSuffix(front, b);
    if b != "" { LastOfSuffix(front, b); }
  }

  // When stripping e and then putting the block, twice, is doing it once.
  ghost predicate BlockStays(p: string, block: string, e: string) {
    || HasSuffix(TrimRight(Stripped(p, e), {'\n'}), block)
    || if HasLine(block, e) then TrimRight(Stripped(block, e), {'\n'}) == "" else BlockIsPutOnce(block)
  }

  /** A path that is stripped, and then a block that is put at the end of the prompt. Doing both again changes nothing
      if and only if the prompt without the path ends with the block already; or the block holds the path, and nothing
      else but blank lines; or it does not hold the path and is one that is put once. */
  lemma StrippedBlock(p: string, block: string, e: string)
    requires IsEntry(e)
    ensures var once := Appended(Stripped(p, e), block);
            Appended(Stripped(once, e), block) == once <==> BlockStays(p, block, e)
  {
    hide TrimSpace, HasLine;
    var s := Stripped(p, e);
    var t := TrimRight(s, {'\n'});
    TrimmedTwice(s);
    StripLines(p, e, e);
    TrimmedLines(s, e);
    if HasSuffix(t, block) || block == "" {
      AbsentIsLeft(s, e);
    } else if HasLine(block, e) {
      BlockComesBack(t, block, e);
    } else {
      AppendLines(s, block, e);
      AbsentIsLeft(Appended(s, block), e);
      AppendTwice(s, block);
    }
  }

  lemma BlockComesBack(t: string, block: string, e: string)
    requires IsEntry(e) && !HasLine(t, e) && HasLine(block, e)
    requires block != "" && TrimRight(t, {'\n'}) == t && !HasSuffix(t, block)
    ensures var r := t + "\n\n" + block + "\n";
            Appended(Stripped(r, e), block) == r <==> TrimRight(Stripped(block, e), {'\n'}) == ""
  {
    hide HasLine, Stripped, TrimSpace, HasSuffix, Without, Split, IsEntry, TrimRight;
    var r, b := t + "\n\n" + block + "\n", Stripped(block, e);
    StripKeepsTheRest(block, e);
    StrippedWithBlock(t, block, e);
    TrimmedBlock(t, b);
    var v := TrimRight(b, {'\n'});
    if v != "" { BlockIsNotLeft(t, block, e); }
    if Stripped(r, e) == t + "\n\n" {
      TrimmedPlus(t, "\n\n");
      NewlinesAreTrimmed();
    }
  }

  lemma NewlinesAreTrimmed()
    ensures TrimRight("", {'\n'}) == "" && TrimRight("\n\n", {'\n'}) == ""
  {
    assert "\n\n"[..1] == "\n" && "\n"[..0] == "";
  }

  // --- the same of whole rewrites ---

  ghost predicate Again(call: Call, cfg: Config) {
    Rewritten(call.(prompt := Rewritten(call, cfg)), cfg) == Rewritten(call, cfg)
  }

  lemma {:induction false} IdleFold(p: string, subagent: string, cs: seq<Managed>, work: Option<Work>)
    requires forall i :: 0 <= i < |cs| ==> Decide(cs[i], subagent, work).Skip?
    ensures Fold(p, subagent, cs, work) == p
  {
    hide Decide;
    if cs != [] { IdleFold(p, subagent, cs[..|cs| - 1], work); }
  }

  /** When no contract acts, rewriting a rewritten prompt changes nothing if and only if the block is one that is put
      once: for every prompt that is not empty. */
  lemma IdleRewriteTwice(call: Call, cfg: Config)
    requires call.prompt != ""
    requires call.subagent != "" ==> forall i :: 0 <= i < |cfg.contracts| ==>
               Decide(cfg.contracts[i], call.subagent, cfg.work).Skip?
    ensures Again(call, cfg) <==> BlockIsPutOnce(cfg.instructions)
  {
    hide Decide, TrimRight, HasSuffix;
    var once := Appended(call.prompt, cfg.instructions);
    if call.subagent != "" {
      IdleFold(call.prompt, call.subagent, cfg.contracts, cfg.work);
      IdleFold(once, call.subagent, cfg.contracts, cfg.work);
    }
    AppendTwice(call.prompt, cfg.instructions);
  }

  lemma FoldOne(p: string, subagent: string, m: Managed, work: Option<Work>)
    ensures Fold(p, subagent, [m], work) == Act(Decide(m, subagent, work), p, m.path)
  {
    hide Decide, Act;
    assert [m][..0] == [];
  }

  lemma FoldTwo(p: string, subagent: string, a: Managed, b: Managed, work: Option<Work>)
    ensures Fold(p, subagent, [a, b], work) ==
            Act(Decide(b, subagent, work), Act(Decide(a, subagent, work), p, a.path), b.path)
  {
    hide Decide, Act;
    assert [a, b][..1] == [a];
    FoldOne(p, subagent, a, work);
  }

  /** A contract strips a path, and a later one has that path as its header: the rewrite settles if and only if the
      prompt had the path of the later one. */
  lemma HeaderRewriteTwice(call: Call, a: Managed, b: Managed, work: Option<Work>)
    requires call.prompt != "" && call.subagent != "" && IsEntry(a.path) && IsEntry(b.path) && a.path != b.path
    requires Decide(a, call.subagent, work) == StripIt && Decide(b, call.subagent, work) == InjectIt(a.path)
    ensures Again(call, Config([a, b], work, "")) <==> HasLine(call.prompt, b.path)
  {
    hide Decide, HasLine, Stripped, Injected, IsEntry, TrimRight, HasSuffix;
    var once := Injected(Stripped(call.prompt, a.path), b.path, a.path);
    FoldTwo(call.prompt, call.subagent, a, b, work);
    FoldTwo(once, call.subagent, a, b, work);
    StrippedHeader(call.prompt, a.path, b.path);
    InjectedIsThere(Stripped(call.prompt, a.path), b.path, a.path);
  }

  lemma InjectedIsThere(p: string, e: string, header: string)
    requires IsEntry(e)
    ensures Injected(p, e, header) != ""
  {
    InjectLines(p, e, header, e);
    EmptyLine(e);
  }

  /** A contract strips a path, and a block follows: the rewrite settles exactly as StrippedBlock says. */
  lemma BlockRewriteTwice(call: Call, a: Managed, work: Option<Work>, block: string)
    requires call.prompt != "" && call.subagent != "" && IsEntry(a.path) && Decide(a, call.subagent, work) == StripIt
    ensures Again(call, Config([a], work, block)) <==> BlockStays(call.prompt, block, a.path)
  {
    hide Decide, HasLine, Stripped, IsEntry, TrimRight, HasSuffix, BlockStays;
    var once := Appended(Stripped(call.prompt, a.path), block);
    FoldOne(call.prompt, call.subagent, a, work);
    FoldOne(once, call.subagent, a, work);
    StrippedBlock(call.prompt, block, a.path);
    if once == "" { EmptyBlockStays(call.prompt, block, a.path); }
  }

  lemma EmptyBlockStays(p: string, block: string, e: string)
    requires Appended(Stripped(p, e), block) == ""
    ensures BlockStays(p, block, e)
  {
  }

  // A contract document that excludes phase p, and one that applies to it under the header h.
  const EXCLUDES := Document(Contract(["q"], ["p"], ""))

  function AppliesUnder(header: string): string {
    Document(Contract(["p"], [], header))
  }

  lemma ActsOnPhase(path: string, header: string, work: Option<Work>)
    requires IsPlain(header) && header != ""
    ensures Decide(Managed(path, EXCLUDES), "p", work) == StripIt
    ensures Decide(Managed(path, AppliesUnder(header)), "p", work) == InjectIt(header)
  {
    hide Both, Document;
    DocumentIsRead(Contract(["q"], ["p"], ""));
    DocumentIsRead(Contract(["p"], [], header));
  }

  /** Three calls that are rewritten once more. */
  lemma RewrittenAgain()
    ensures !Again(Call("", "x"), Config([], None, "y\n"))
    ensures !Again(Call("p", "x"), Config([Managed("/a", EXCLUDES), Managed("/b", AppliesUnder("/a"))], None, ""))
    ensures !Again(Call("p", "x"), Config([Managed("/a", EXCLUDES)], None, "y\n/a"))
  {
    LoneLetters();
    ActsOnPhase("/a", "/a", None);
    ActsOnPhase("/b", "/a", None);
    hide *;
    IdleRewriteTwice(Call("", "x"), Config([], None, "y\n"));
    HeaderRewriteTwice(Call("p", "x"), Managed("/a", EXCLUDES), Managed("/b", AppliesUnder("/a")), None);
    BlockRewriteTwice(Call("p", "x"), Managed("/a", EXCLUDES), None, "y\n/a");
  }

  lemma LoneLetters()
    ensures IsPlain("/a") && IsEntry("/a") && IsEntry("/b")
    ensures !BlockIsPutOnce("y\n") && !HasLine("x", "/b") && !BlockStays("x", "y\n/a", "/a")
  {
    LetterWithNewline();
    hide HasLine, Stripped, TrimSpace, TrimRight, BlockIsPutOnce, IsEntry;
    LetterAndPath();
    LoneLetter();
  }

  lemma LetterWithNewline()
    ensures !BlockIsPutOnce("y\n")
  {
    assert "y\n"[..1] == "y";
  }

  lemma LoneLetter()
    ensures !HasLine("x", "/b") && Stripped("x", "/a") == "x" && IsEntry("/a") && IsEntry("/b")
    ensures TrimRight("x", {'\n'}) == "x" && TrimRight("y", {'\n'}) == "y"
  {
    assert TrimSpace("x") == "x" && TrimSpace("/a") == "/a" && TrimSpace("/b") == "/b";
    hide TrimSpace;
    OneLine("x", "/b");
    OneLine("x", "/a");
    AbsentIsLeft("x", "/a");
  }

  lemma LetterAndPath()
    ensures HasLine("y\n/a", "/a") && Stripped("y\n/a", "/a") == "y"
  {
    var lines := ["y", "/a"];
    assert "y\n/a" == "y" + ['\n'] + "/a" == "y" + "\n" + "/a";
    assert TrimSpace("/a") == "/a" && TrimSpace("y") == "y";
    hide TrimSpace;
    OneLine("/a", "/a");
    LinePlus("y", "/a", "/a");
    hide HasLine;
    SplitPart("y", "/a", '\n');
    SplitOne("/a", '\n');
    assert Split("y\n/a", '\n') == lines;
    hide Split;
    WithoutOne("y", "/a");
    WithoutOne("/a", "/a");
    WithoutPlus(["y"], ["/a"], "/a");
    assert lines == ["y"] + ["/a"] && ["y"] + [] == ["y"];
  }

  // --- which contracts act on a call ---

  // One of the texts got is one of those wanted, white space and case aside.
  ghost predicate Shares(want: seq<string>, got: seq<string>) {
    exists w, g :: w in want && g in got && EqualFold(TrimSpace(g), w)
  }

  /** The work is trusted work on application code, in a language the contract lists if it lists any, and with an
      activation it lists if it lists any. */
  ghost predicate Suits(work: Option<Work>, needs: Context) {
    && work.Some? && work.value.trusted && Shares(["application-code"], work.value.kinds)
    && (needs.languages == [] || Shares(needs.languages, work.value.languages))
    && (needs.activations == [] || Shares(needs.activations, work.value.activations))
  }

  // The document asks for a context of work.
  predicate AsksForContext(needs: Context) {
    needs.languages != [] || needs.activations != []
  }

  /** A contract has nothing to say to the sub-agent: it cannot be read, or it does not exclude the phase and does not
      apply to it, or it asks for a context that the work does not suit. */
  ghost predicate IsSilent(m: Managed, subagent: string, work: Option<Work>) {
    match Both(m.content)
    case Err(_) => true
    case Ok((scope, needs)) =>
      subagent !in scope.excluded && (subagent !in scope.appliesTo || (AsksForContext(needs) && !Suits(work, needs)))
  }

  lemma SharesAll(want: seq<string>, got: seq<string>)
    ensures Intersects(want, got) <==> Shares(want, got)
  {
    hide TrimSpace, EqualFold;
    if Intersects(want, got) {
      var i :| 0 <= i < |want| && ContainsFold(got, want[i]);
      var j :| 0 <= j < |got| && EqualFold(TrimSpace(got[j]), want[i]);
      assert want[i] in want && got[j] in got;
    }
    if w, g :| w in want && g in got && EqualFold(TrimSpace(g), w) {
      var i :| 0 <= i < |want| && want[i] == w;
      var j :| 0 <= j < |got| && got[j] == g;
      assert ContainsFold(got, want[i]);
    }
  }

  lemma SuitsWhenMatched(work: Option<Work>, needs: Context)
    ensures WorkMatches(work, needs) <==> Suits(work, needs)
  {
    if work.Some? {
      SharesAll(["application-code"], work.value.kinds);
      SharesAll(needs.languages, work.value.languages);
      SharesAll(needs.activations, work.value.activations);
      OneWanted(work.value.kinds);
    }
    hide Intersects, Shares, ContainsFold;
  }

  lemma OneWanted(kinds: seq<string>)
    ensures Intersects(["application-code"], kinds) <==> |kinds| > 0 && ContainsFold(kinds, APPLICATION_CODE)
  {
    hide TrimSpace, EqualFold;
    assert ["application-code"][0] == APPLICATION_CODE;
  }

  lemma SilentIsSkipped(m: Managed, subagent: string, work: Option<Work>)
    ensures IsSilent(m, subagent, work) <==> Decide(m, subagent, work) == Skip
  {
    hide Both, WorkMatches, Suits;
    if Both(m.content).Ok? { SuitsWhenMatched(work, Both(m.content).value.1); }
  }

  lemma {:induction false} FoldWithout(p: string, subagent: string, front: seq<Managed>, m: Managed, back: seq<Managed>,
          work: Option<Work>)
    requires Decide(m, subagent, work) == Skip
    ensures Fold(p, subagent, front + [m] + back, work) == Fold(p, subagent, front + back, work)
  {
    hide Decide, Act;
    var all, less := front + [m] + back, front + back;
    if back == [] {
      assert all[..|all| - 1] == front && less == front;
      ActSkips(p, subagent, front, m, work);
    } else {
      var n := |back| - 1;
      FoldWithout(p, subagent, front, m, back[..n], work);
      assert all[..|all| - 1] == front + [m] + back[..n] && less[..|less| - 1] == front + back[..n];
    }
  }

  lemma ActSkips(p: string, subagent: string, front: seq<Managed>, m: Managed, work: Option<Work>)
    ensures Act(Skip, Fold(p, subagent, front, work), m.path) == Fold(p, subagent, front, work)
  {
  }

  /** A silent contract changes nothing: the prompt is rewritten as if it were not there. So no contract that asks for a
      context acts without work, on work that is not trusted or not on application code, or on work that shares no
      language or no activation with the ones it lists. */
  lemma SilentChangesNothing(call: Call, cfg: Config, front: seq<Managed>, m: Managed, back: seq<Managed>)
    requires cfg.contracts == front + [m] + back && IsSilent(m, call.subagent, cfg.work)
    ensures Rewritten(call, cfg) == Rewritten(call, cfg.(contracts := front + back))
  {
    hide IsSilent, Decide, Fold, Appended;
    SilentIsSkipped(m, call.subagent, cfg.work);
    FoldWithout(call.prompt, call.subagent, front, m, back, cfg.work);
  }

  // No contract of the list takes the line away, and each that acts has a path that is a line.
  ghost predicate LeavesLine(cs: seq<Managed>, subagent: string, work: Option<Work>, line: string) {
    forall m :: m in cs ==>
      match Both(m.content)
      case Err(_) => true
      case Ok((scope, _)) =>
        || IsSilent(m, subagent, work)
        || (IsEntry(m.path) && (subagent in scope.excluded ==> m.path != line))
  }

  lemma {:induction false} LineStays(p: string, subagent: string, front: seq<Managed>, back: seq<Managed>,
          work: Option<Work>, line: string)
    requires HasLine(Fold(p, subagent, front, work), line) && LeavesLine(back, subagent, work, line) && line != ""
    ensures HasLine(Fold(p, subagent, front + back, work), line)
  {
    hide Act, HasLine, Both;
    var all := front + back;
    if back == [] {
      assert all == front;
    } else {
      var n := |back| - 1;
      assert back[n] in back && all[..|all| - 1] == front + back[..n];
      LineStays(p, subagent, front, back[..n], work, line);
      ActKeepsLine(Fold(p, subagent, front + back[..n], work), subagent, back[n], work, line);
    }
  }

  lemma ActKeepsLine(p: string, subagent: string, m: Managed, work: Option<Work>, line: string)
    requires HasLine(p, line) && LeavesLine([m], subagent, work, line) && line != ""
    ensures HasLine(Act(Decide(m, subagent, work), p, m.path), line)
  {
    assert m in [m];
    SilentIsSkipped(m, subagent, work);
    hide HasLine, Stripped, Injected, TrimSpace, Both, IsSilent, WorkMatches;
    match Decide(m, subagent, work)
    case Skip =>
    case StripIt => StripLines(p, m.path, line);
    case InjectIt(header) => InjectLines(p, m.path, header, line);
  }

  /** A contract that applies to the phase and does not exclude it, and whose context, if it asks for one, the work
      suits, has its path in the prompt, when no later contract takes it away. */
  lemma AppliedIsThere(call: Call, cfg: Config, front: seq<Managed>, m: Managed, back: seq<Managed>)
    requires cfg.contracts == front + [m] + back && call.prompt != "" && call.subagent != "" && Both(m.content).Ok?
    requires var (scope, needs) := Both(m.content).value;
             && call.subagent in scope.appliesTo && call.subagent !in scope.excluded
             && (AsksForContext(needs) ==> Suits(cfg.work, needs))
    requires IsEntry(m.path) && LeavesLine(back, call.subagent, cfg.work, m.path)
    ensures HasLine(Rewritten(call, cfg), m.path)
  {
    var (scope, needs) := Both(m.content).value;
    SuitsWhenMatched(cfg.work, needs);
    assert Decide(m, call.subagent, cfg.work) == InjectIt(scope.Header()) by { hide Both, WorkMatches, Suits; }
    hide Decide, HasLine, Injected, IsEntry, LeavesLine, Appended, TrimSpace;
    var q := Fold(call.prompt, call.subagent, front, cfg.work);
    assert (front + [m])[..|front|] == front;
    InjectedIsALine(q, m.path, scope.Header());
    LineStays(call.prompt, call.subagent, front + [m], back, cfg.work, m.path);
    AppendLines(Fold(call.prompt, call.subagent, cfg.contracts, cfg.work), cfg.instructions, m.path);
  }

  lemma InjectedIsALine(p: string, e: string, header: string)
    requires IsEntry(e)
    ensures HasLine(Injected(p, e, header), e) && e != ""
  {
    hide TrimSpace;
    InjectLines(p, e, header, e);
  }

  /** Under the heading of the contract, or the default one when it names none: when the path was not in the prompt it
      stands on the line below. */
  lemma InjectedUnderHeading(p: string, e: string, header: string)
    requires IsEntry(e) && IsEntry(header) && !HasLine(p, e)
    ensures IsBelow(Split(Injected(p, e, header), '\n'), header, e)
  {
    hide TrimSpace;
    var lines := Split(p, '\n');
    if HasLine(p, header) {
      UnderIsSplit(p, header, e);
      BelowUnder(lines, header, e);
    } else {
      AtEndIsBelow(p, header, e);
    }
  }

  ghost predicate IsBelow(lines: seq<string>, header: string, e: string) {
    exists i :: 0 <= i < |lines| - 1 && TrimSpace(lines[i]) == header && lines[i + 1] == e
  }

  lemma {:induction false} BelowUnder(lines: seq<string>, header: string, e: string)
    requires Among(lines, header)
    ensures IsBelow(Under(lines, header, e), header, e)
  {
    hide TrimSpace;
    var n := |lines| - 1;
    var front := Under(lines[..n], header, e);
    var out := Under(lines, header, e);
    if TrimSpace(lines[n]) == header {
      assert out[|front|] == lines[n] && out[|front| + 1] == e;
    } else {
      var k :| 0 <= k < |lines| && TrimSpace(lines[k]) == header;
      assert lines[..n][k] == lines[k];
      BelowUnder(lines[..n], header, e);
      var i :| 0 <= i < |front| - 1 && TrimSpace(front[i]) == header && front[i + 1] == e;
      assert out[i] == front[i] && out[i + 1] == front[i + 1];
    }
  }

  lemma AtEndIsBelow(p: string, header: string, e: string)
    requires IsEntry(e) && IsEntry(header)
    ensures IsBelow(Split(p + Separator(p) + header + "\n" + e + "\n", '\n'), header, e)
  {
    hide TrimSpace, Split;
    var front := if Separator(p) == "\n" then p else p + "\n";
    var text := front + ['\n'] + (header + ['\n'] + (e + ['\n'] + ""));
    assert p + Separator(p) + header + "\n" + e + "\n" == text;
    SplitPlus(front, header + ['\n'] + (e + ['\n'] + ""), '\n');
    SplitPart(header, e + ['\n'] + "", '\n');
    SplitPart(e, "", '\n');
    var a := Split(front, '\n');
    var out := Split(text, '\n');
    assert out == a + ([header] + ([e] + Split("", '\n')));
    assert out[|a|] == header && out[|a| + 1] == e;
  }

  /** A contract that excludes the phase has its path taken out of the prompt, whether or not it applies to the phase
      too and whatever the work is, when neither a later contract nor the block brings it back. */
  lemma ExcludedIsGone(call: Call, cfg: Config, front: seq<Managed>, m: Managed, back: seq<Managed>)
    requires cfg.contracts == front + [m] + back && call.prompt != "" && call.subagent != "" && Both(m.content).Ok?
    requires call.subagent in Both(m.content).value.0.excluded && m.path != ""
    requires BringsNot(back, call.subagent, cfg.work, m.path) && !HasLine(cfg.instructions, m.path)
    ensures !HasLine(Rewritten(call, cfg), m.path)
  {
    assert Decide(m, call.subagent, cfg.work) == StripIt by { hide Both; }
    hide Decide, HasLine, Stripped, Appended, TrimSpace, BringsNot;
    var q := Fold(call.prompt, call.subagent, front, cfg.work);
    assert (front + [m])[..|front|] == front;
    StripLines(q, m.path, m.path);
    LineStaysAway(call.prompt, call.subagent, front + [m], back, cfg.work, m.path);
    AppendLines(Fold(call.prompt, call.subagent, cfg.contracts, cfg.work), cfg.instructions, m.path);
  }

  // No contract of the list that applies to the phase has the line as its path or in its heading.
  ghost predicate BringsNot(cs: seq<Managed>, subagent: string, work: Option<Work>, line: string) {
    forall m :: m in cs ==>
      match Both(m.content)
      case Err(_) => true
      case Ok((scope, _)) =>
        || IsSilent(m, subagent, work) || subagent in scope.excluded
        || (IsEntry(m.path) && m.path != line && !HasLine(scope.Header(), line))
  }

  lemma {:induction false} LineStaysAway(p: string, subagent: string, front: seq<Managed>, back: seq<Managed>,
          work: Option<Work>, line: string)
    requires !HasLine(Fold(p, subagent, front, work), line) && BringsNot(back, subagent, work, line) && line != ""
    ensures !HasLine(Fold(p, subagent, front + back, work), line)
  {
    hide Act, HasLine, Both;
    var all := front + back;
    if back == [] {
      assert all == front;
    } else {
      var n := |back| - 1;
      assert back[n] in back && all[..|all| - 1] == front + back[..n];
      LineStaysAway(p, subagent, front, back[..n], work, line);
      ActBringsNot(Fold(p, subagent, front + back[..n], work), subagent, back[n], work, line);
    }
  }

  lemma ActBringsNot(p: string, subagent: string, m: Managed, work: Option<Work>, line: string)
    requires !HasLine(p, line) && BringsNot([m], subagent, work, line) && line != ""
    ensures !HasLine(Act(Decide(m, subagent, work), p, m.path), line)
  {
    assert m in [m];
    SilentIsSkipped(m, subagent, work);
    hide HasLine, Stripped, Injected, TrimSpace, Both, IsSilent, WorkMatches;
    match Decide(m, subagent, work)
    case Skip =>
    case StripIt => StripLines(p, m.path, line);
    case InjectIt(header) => InjectLines(p, m.path, header, line);
  }

  // --- where the path goes, and where the block goes ---

  /** The path of the last contract is put on the line below the heading its document names, or below the default one
      when it names none, when it was not in the prompt yet. */
  lemma AppliedUnderItsHeading(call: Call, cfg: Config, front: seq<Managed>, m: Managed)
    requires cfg.contracts == front + [m] && cfg.instructions == "" && call.prompt != "" && call.subagent != ""
    requires Both(m.content).Ok? && IsEntry(m.path)
    requires var (scope, needs) := Both(m.content).value;
             && call.subagent in scope.appliesTo && call.subagent !in scope.excluded
             && (AsksForContext(needs) ==> Suits(cfg.work, needs))
    requires !HasLine(Rewritten(call, cfg.(contracts := front)), m.path)
    ensures var named := Both(m.content).value.0.injectionPoint;
            var header := if named != "" then named else "## Skills to load before work";
            IsEntry(header) ==> IsBelow(Split(Rewritten(call, cfg), '\n'), header, m.path)
  {
    var (scope, needs) := Both(m.content).value;
    SuitsWhenMatched(cfg.work, needs);
    assert Decide(m, call.subagent, cfg.work) == InjectIt(scope.Header()) by { hide Both, WorkMatches, Suits; }
    hide Decide, HasLine, Injected, IsEntry, TrimSpace, IsBelow, Split;
    var before := Fold(call.prompt, call.subagent, front, cfg.work);
    assert (front + [m])[..|front|] == front;
    assert Rewritten(call, cfg.(contracts := front)) == before;
    assert Rewritten(call, cfg) == Injected(before, m.path, scope.Header());
    if IsEntry(scope.Header()) { InjectedUnderHeading(before, m.path, scope.Header()); }
  }

  /** A call to no sub-agent is rewritten as if there were no contracts, and an empty prompt stays empty. */
  lemma NoSubagentNoContract(call: Call, cfg: Config)
    ensures call.subagent == "" ==> Rewritten(call, cfg) == Rewritten(call, cfg.(contracts := []))
    ensures call.prompt == "" ==> Rewritten(call, cfg) == ""
  {
  }

  /** The block ends the prompt: after the text without the newlines at its end come an empty line, the block and a
      newline; a text that ends in the block is left alone. */
  lemma BlockEndsThePrompt(call: Call, cfg: Config, text: string, newlines: string)
    requires call.prompt != "" && cfg.instructions != ""
    requires Rewritten(call, cfg.(instructions := "")) == text + newlines && AllIn(newlines, {'\n'})
    requires text != "" ==> text[|text| - 1] != '\n'
    ensures Rewritten(call, cfg) ==
            if HasSuffix(text, cfg.instructions) then text + newlines else text + "\n\n" + cfg.instructions + "\n"
  {
    TrimRightSkips(text, newlines, {'\n'});
    hide Fold;
  }
}
