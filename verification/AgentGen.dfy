/**
  engine/agentgen: the projection of one source per role into the agent files of three runtimes, the two readers that
  take an instruction body back out of a generated file.
 */
module AgentGen {
  import opened Wrappers
  import opened Text
  import opened Toml

  datatype Role = Role(name: string, description: string, claude: string, pi: string, effort: string,
    tools: seq<string>)

  datatype Artifact = Artifact(path: string, content: string)

  // --- the body of a role ---

  const READ_FIRST := "Read every artifact the prompt locates "
  const FILE_OR_ID := "(file path, or memorycard "
  const BY_TOPIC := "topic via mem_search, then mem_get)"
  const BY_ID := "id via mem_get)"
  const THEN := " before acting. "
  const MISSING := "A missing required locator is a "
  const REPORT := "blocker: report it, never "
  const NO_OTHER := "substitute another store."

  const MEMORY_LINE := READ_FIRST + FILE_OR_ID + BY_TOPIC + THEN + MISSING + REPORT + NO_OTHER
  const BY_ID_LINE := READ_FIRST + FILE_OR_ID + BY_ID + THEN + MISSING + REPORT + NO_OTHER

  const SEARCH := "mcp__memorycard__mem_search"
  const GET := "mcp__memorycard__mem_get"

  predicate HasMemoryTool(tools: seq<string>) {
    exists i :: 0 <= i < |tools| && "mcp__memorycard__" <= tools[i]
  }

  predicate KeepsLine(r: Role) {
    HasMemoryTool(r.tools) && SEARCH in r.tools
  }

  // strings.Replace(s, before, after, 1).
  function ReplaceFirst(s: string, before: string, after: string): string {
    match Index(s, before)
    case Some(i) => IndexFirst(s, before); s[..i] + after + s[i + |before|..]
    case None => s
  }

  function Body(r: Role, source: string): Option<string> {
    if KeepsLine(r) then Some(source)
    else if Count(source, MEMORY_LINE + "\n") != 1 then None
    else Some(ReplaceFirst(source, MEMORY_LINE + "\n", if GET in r.tools then BY_ID_LINE + "\n" else ""))
  }

  predicate OccursAt(s: string, sub: string, i: nat) {
    i <= |s| && sub <= s[i..]
  }

  lemma NoNewlineInside(s: string, line: string, i: nat, k: nat)
    requires '\n' !in line && OccursAt(s, line + "\n", i) && i <= k < i + |line|
    ensures k < |s| && s[k] != '\n'
  {
    assert s[k] == s[i..][k - i] == (line + "\n")[k - i] == line[k - i];
  }

  // A line and its newline never overlap themselves.
  lemma LinesDoNotOverlap(s: string, line: string, i: nat, j: nat)
    requires '\n' !in line && OccursAt(s, line + "\n", i) && OccursAt(s, line + "\n", j) && i < j
    ensures i + |line| + 1 <= j
  {
    var k := i + |line|;
    assert s[k] == s[i..][|line|] == (line + "\n")[|line|] == '\n';
    if j <= k < j + |line| { NoNewlineInside(s, line, j, k); }
  }

  lemma {:induction false} CountIsZero(s: string, sub: string)
    requires sub != ""
    ensures Count(s, sub) == 0 <==> forall i :: 0 <= i <= |s| ==> !OccursAt(s, sub, i)
  {
    if s != "" {
      if sub <= s {
        assert s[0..] == s;
        assert OccursAt(s, sub, 0);
      } else {
        CountIsZero(s[1..], sub);
        forall i | 0 <= i < |s|
          ensures OccursAt(s[1..], sub, i) == OccursAt(s, sub, i + 1)
        {
          assert s[1..][i..] == s[i + 1..];
        }
        if Count(s, sub) == 0 {
          forall i | 0 <= i <= |s|
            ensures !OccursAt(s, sub, i)
          {
            if i > 0 { assert !OccursAt(s[1..], sub, i - 1); } else { assert s[0..] == s; }
          }
        } else {
          var i :| 0 <= i <= |s[1..]| && OccursAt(s[1..], sub, i);
          assert OccursAt(s, sub, i + 1);
        }
      }
    }
  }

  ghost predicate Once(s: string, sub: string) {
    exists i :: 0 <= i <= |s| && OccursAt(s, sub, i) && forall j :: 0 <= j <= |s| && OccursAt(s, sub, j) ==> j == i
  }

  // Counting the occurrences of a line that do not overlap counts its occurrences.
  lemma {:induction false} CountIsOne(s: string, line: string)
    requires '\n' !in line
    ensures Count(s, line + "\n") == 1 <==> Once(s, line + "\n")
  {
    var sub := line + "\n";
    if s != "" {
      if sub <= s {
        assert s[0..] == s;
        assert OccursAt(s, sub, 0);
        var n := |sub|;
        CountIsZero(s[n..], sub);
        forall i | 0 <= i <= |s| - n
          ensures OccursAt(s[n..], sub, i) == OccursAt(s, sub, i + n)
        {
          assert s[n..][i..] == s[i + n..];
        }
        forall j | 0 < j <= |s| && OccursAt(s, sub, j)
          ensures n <= j && OccursAt(s[n..], sub, j - n)
        {
          LinesDoNotOverlap(s, line, 0, j);
          var k := j - n;
          assert OccursAt(s[n..], sub, k) == OccursAt(s, sub, k + n);
        }
        if Count(s, sub) != 1 {
          var i :| 0 <= i <= |s[n..]| && OccursAt(s[n..], sub, i);
          assert OccursAt(s, sub, i + n);
        }
      } else {
        CountIsOne(s[1..], line);
        forall i | 0 <= i < |s|
          ensures OccursAt(s[1..], sub, i) == OccursAt(s, sub, i + 1)
        {
          assert s[1..][i..] == s[i + 1..];
        }
        OnceShifts(s, sub);
      }
    }
  }

  lemma OnceShifts(s: string, sub: string)
    requires s != "" && !(sub <= s)
    requires forall i :: 0 <= i < |s| ==> OccursAt(s[1..], sub, i) == OccursAt(s, sub, i + 1)
    ensures Once(s[1..], sub) <==> Once(s, sub)
  {
    assert s[0..] == s && !OccursAt(s, sub, 0);
    if Once(s[1..], sub) {
      var i :| 0 <= i <= |s[1..]| && OccursAt(s[1..], sub, i)
               && forall j :: 0 <= j <= |s[1..]| && OccursAt(s[1..], sub, j) ==> j == i;
      forall j | 0 <= j <= |s| && OccursAt(s, sub, j)
        ensures j == i + 1
      {
        assert OccursAt(s[1..], sub, j - 1);
      }
      assert OccursAt(s, sub, i + 1);
    }
    if Once(s, sub) {
      var i :| 0 <= i <= |s| && OccursAt(s, sub, i) && forall j :: 0 <= j <= |s| && OccursAt(s, sub, j) ==> j == i;
      forall j | 0 <= j <= |s[1..]| && OccursAt(s[1..], sub, j)
        ensures j == i - 1
      {
        assert OccursAt(s, sub, j + 1);
      }
      assert OccursAt(s[1..], sub, i - 1);
    }
  }

  lemma PartsAreOneLine()
    ensures '\n' !in READ_FIRST && '\n' !in FILE_OR_ID
  {
  }

  lemma MoreAreOneLine()
    ensures '\n' !in BY_TOPIC && '\n' !in THEN
  {
  }

  lemma OtherPartsAreOneLine()
    ensures '\n' !in MISSING && '\n' !in REPORT && '\n' !in NO_OTHER
  {
  }

  lemma MemoryLineIsOneLine()
    ensures '\n' !in MEMORY_LINE
  {
    PartsAreOneLine();
    MoreAreOneLine();
    OtherPartsAreOneLine();
    hide READ_FIRST, FILE_OR_ID, BY_TOPIC, THEN, MISSING, REPORT, NO_OTHER;
  }

  lemma KeepsToSearch(r: Role)
    ensures KeepsLine(r) <==> "mcp__memorycard__mem_search" in r.tools
  {
    if SEARCH in r.tools {
      var i :| 0 <= i < |r.tools| && r.tools[i] == SEARCH;
      assert "mcp__memorycard__" <= r.tools[i];
    }
  }

  /** A role that searches memory keeps its source. Any other has a body if and only if the memory line is in its source
      at exactly one place, and the body is the source with only that line taken out, or changed for the line that reads
      by id when the role can. */
  lemma BodyChangesOnlyTheMemoryLine(r: Role, source: string)
    ensures "mcp__memorycard__mem_search" in r.tools ==> Body(r, source) == Some(source)
    ensures "mcp__memorycard__mem_search" !in r.tools ==>
              (Body(r, source).Some? <==> Once(source, MEMORY_LINE + "\n"))
    ensures "mcp__memorycard__mem_search" !in r.tools && Body(r, source).Some? ==>
              exists i :: 0 <= i <= |source| && OccursAt(source, MEMORY_LINE + "\n", i) &&
                          Body(r, source).value ==
                            source[..i]
                            + (if "mcp__memorycard__mem_get" in r.tools then BY_ID_LINE + "\n" else "")
                            + source[i + |MEMORY_LINE| + 1..]
  {
    KeepsToSearch(r);
    MemoryLineIsOneLine();
    hide Count, Index, MEMORY_LINE, BY_ID_LINE, KeepsLine;
    var sub := MEMORY_LINE + "\n";
    CountIsOne(source, MEMORY_LINE);
    if !KeepsLine(r) && Body(r, source).Some? {
      IndexFirst(source, sub);
      var i :| 0 <= i <= |source| && OccursAt(source, sub, i);
      assert Index(source, sub).Some?;
      assert OccursAt(source, sub, Index(source, sub).value);
    }
  }

  // --- the tools of Pi ---

  const PI_TOOL_NAMES := map[
    "Read" := "read",
    "Edit" := "edit",
    "Write" := "write",
    "Glob" := "find",
    "Grep" := "grep",
    "Bash" := "bash",
    "mcp__memorycard__mem_search" := "mcp__memorycard__mem_search",
    "mcp__memorycard__mem_get" := "mcp__memorycard__mem_get",
    "mcp__memorycard__mem_save" := "mcp__memorycard__mem_save",
    "mcp__memorycard__mem_update" := "mcp__memorycard__mem_update",
    "mcp__codegraph__codegraph_explore" := "codegraph"
  ]

  predicate AllNamed(tools: seq<string>) {
    forall i :: 0 <= i < |tools| ==> tools[i] in PI_TOOL_NAMES
  }

  // The names of the tools on Pi, one for one.
  function Named(tools: seq<string>): seq<string>
    requires AllNamed(tools)
  {
    seq(|tools|, i requires 0 <= i < |tools| => PI_TOOL_NAMES[tools[i]])
  }

  // Each element of s once, where it comes first.
  function Firsts(s: seq<string>): seq<string> {
    if s == [] then []
    else
      var before, last := Firsts(s[..|s| - 1]), s[|s| - 1];
      if last in before then before else before + [last]
  }

  function FirstIndex(s: seq<string>, x: string): (i: nat)
    requires x in s
    ensures i < |s| && s[i] == x && forall k :: 0 <= k < i ==> s[k] != x
  {
    if s[0] == x then 0 else FirstIndex(s[1..], x) + 1
  }

  lemma FirstIndexUnique(s: seq<string>, x: string, i: nat)
    requires i < |s| && s[i] == x && forall k :: 0 <= k < i ==> s[k] != x
    ensures FirstIndex(s, x) == i
  {
  }

  lemma {:induction false} FirstsHold(s: seq<string>)
    ensures forall x :: x in Firsts(s) <==> x in s
  {
    if s != [] {
      FirstsHold(s[..|s| - 1]);
      assert s == s[..|s| - 1] + [s[|s| - 1]];
    }
  }

  lemma FirstIndexOfMore(s: seq<string>, last: string, x: string)
    requires x in s
    ensures FirstIndex(s + [last], x) == FirstIndex(s, x)
  {
    hide FirstIndex;
    FirstIndexUnique(s + [last], x, FirstIndex(s, x));
  }

  ghost predicate InOrder(names: seq<string>, s: seq<string>) {
    && (forall x :: x in names ==> x in s)
    && forall i, j :: 0 <= i < j < |names| ==> FirstIndex(s, names[i]) < FirstIndex(s, names[j])
  }

  lemma InOrderOfMore(names: seq<string>, s: seq<string>, last: string)
    requires InOrder(names, s)
    ensures InOrder(names, s + [last])
    ensures last !in s ==> InOrder(names + [last], s + [last])
  {
    hide FirstIndex;
    forall x | x in names
      ensures FirstIndex(s + [last], x) == FirstIndex(s, x)
    {
      FirstIndexOfMore(s, last, x);
    }
    if last !in s { FirstIndexUnique(s + [last], last, |s|); }
  }

  /** The list keeps every name, each once, in the order in which they first come. */
  lemma {:induction false} FirstsOnceInOrder(s: seq<string>)
    ensures forall x :: x in Firsts(s) <==> x in s
    ensures InOrder(Firsts(s), s)
  {
    hide FirstIndex;
    FirstsHold(s);
    if s != [] {
      var t, last := s[..|s| - 1], s[|s| - 1];
      hide InOrder;
      FirstsOnceInOrder(t);
      assert t + [last] == s;
      InOrderOfMore(Firsts(t), t, last);
    }
  }

  method PiTools(r: Role) returns (names: Option<string>)
    ensures names == if AllNamed(r.tools) then Some(Join(Firsts(Named(r.tools)), ", ")) else None
  {
    var list, seen: set<string> := [], {};
    for i := 0 to |r.tools|
      invariant AllNamed(r.tools[..i]) && list == Firsts(Named(r.tools[..i]))
      invariant forall name :: name in seen <==> name in list
    {
      var tool := r.tools[i];
      if tool !in PI_TOOL_NAMES {
        return None;
      }
      var name := PI_TOOL_NAMES[tool];
      ghost var before, now := r.tools[..i], r.tools[..i + 1];
      assert now == before + [tool] && Named(now) == Named(before) + [name];
      assert Named(now)[..|Named(now)| - 1] == Named(before);
      if name !in seen {
        seen := seen + {name};
        list := list + [name];
      }
    }
    assert r.tools[..|r.tools|] == r.tools;
    return Some(Join(list, ", "));
  }

  lemma NamedIsOneLine(tool: string)
    requires tool in PI_TOOL_NAMES
    ensures '\n' !in tool
  {
  }

  // --- the files of a role ---

  function Line(key: string, between: string, value: string): string {
    key + between + value + "\n"
  }

  function CodexFile(r: Role, body: string): Option<string> {
    if !Clean(r.name, false) || !Clean(r.description, false) || !Clean(body, true) || !Clean(r.effort, false) then None
    else
      Some(Line("name", " = ", TomlString(r.name).value)
           + (Line("description", " = ", TomlString(r.description).value)
              + (Line(INSTRUCTIONS, " = ", TomlMultiline(body).value)
                 + Line("model_reasoning_effort", " = ", TomlString(r.effort).value))))
  }

  function ClaudeFile(r: Role, body: string): string {
    "---\n"
    + (Line("name", ": ", r.name)
       + (Line("description", ": ", r.description)
          + (Line("model", ": ", r.claude)
             + (Line("tools", ": ", Join(r.tools, ", "))
                + ("---\n\n" + body)))))
  }

  function PiFile(r: Role, tools: string, body: string): string {
    "---\n"
    + (Line("name", ": ", r.name)
       + (Line("description", ": ", r.description)
          + (Line("model", ": ", r.pi)
             + (Line("thinking", ": ", r.effort)
                + (Line("tools", ": ", tools)
                   + ("---\n\n" + body))))))
  }

  function Project(r: Role, source: string): Option<seq<Artifact>> {
    var body := Body(r, source);
    if body.None? || !AllNamed(r.tools) then None
    else
      var codex := CodexFile(r, body.value);
      if codex.None? then None
      else Some([
        Artifact("agents/" + r.name + ".md", ClaudeFile(r, body.value)),
        Artifact("pi/agents/" + r.name + ".md", PiFile(r, Join(Firsts(Named(r.tools)), ", "), body.value)),
        Artifact("codex/agents/" + r.name + ".toml", codex.value)
      ])
  }

  // --- reading a Codex file ---

  const INSTRUCTIONS := "developer_instructions"
  const CODEX_KEYS := ["name", "description", INSTRUCTIONS, "model_reasoning_effort"]

  function ReadValue(key: string, s: string): Parsed {
    if key == INSTRUCTIONS then ReadMultiline(s) else SkipBasic(s)
  }

  // One line for each key and nothing after the last.
  function ReadCodex(keys: seq<string>, s: string, instructions: string): Option<string> {
    if keys == [] then if s == "" then Some(instructions) else None
    else
      var prefix := keys[0] + " = ";
      if !(prefix <= s) then None
      else
        var p := ReadValue(keys[0], s[|prefix|..]);
        if p.Bad? || !("\n" <= p.rest) then None
        else ReadCodex(keys[1..], p.rest[1..], if keys[0] == INSTRUCTIONS then p.value else instructions)
  }

  method CodexInstructions(data: string) returns (r: Option<string>)
    ensures r == ReadCodex(CODEX_KEYS, data, "")
  {
    var rest, instructions := data, "";
    for i := 0 to |CODEX_KEYS|
      invariant ReadCodex(CODEX_KEYS, data, "") == ReadCodex(CODEX_KEYS[i..], rest, instructions)
    {
      hide ReadMultiline, SkipBasic;
      var key := CODEX_KEYS[i];
      assert CODEX_KEYS[i..][1..] == CODEX_KEYS[i + 1..];
      var prefix := key + " = ";
      if !(prefix <= rest) { return None; }
      rest := rest[|prefix|..];
      var p: Parsed;
      if key == INSTRUCTIONS {
        p := ReadMultilineLoop(rest);
        if p.Ok? { instructions := p.value; }
      } else {
        p := SkipBasicLoop(rest);
      }
      if p.Bad? || !("\n" <= p.rest) { return None; }
      rest := p.rest[1..];
    }
    return if rest == "" then Some(instructions) else None;
  }

  lemma ReadCodexStep(key: string, keys: seq<string>, printed: string, value: string, tail: string,
          instructions: string)
    requires ReadValue(key, printed + "\n" + tail).Ok? && ReadValue(key, printed + "\n" + tail).rest == "\n" + tail
    requires key == INSTRUCTIONS ==> ReadValue(key, printed + "\n" + tail).value == value
    ensures ReadCodex([key] + keys, Line(key, " = ", printed) + tail, instructions) ==
            ReadCodex(keys, tail, if key == INSTRUCTIONS then value else instructions)
  {
    hide ReadValue, INSTRUCTIONS;
    var s, prefix := Line(key, " = ", printed) + tail, key + " = ";
    assert s == prefix + (printed + "\n" + tail);
    assert prefix <= s && s[|prefix|..] == printed + "\n" + tail;
    assert ("\n" + tail)[1..] == tail && ([key] + keys)[1..] == keys && ([key] + keys)[0] == key;
  }

  lemma ReadBasicValue(key: string, value: string, tail: string)
    requires key != INSTRUCTIONS && Clean(value, false)
    ensures ReadValue(key, TomlString(value).value + "\n" + tail) == Ok("", "\n" + tail)
  {
    var printed := TomlString(value).value;
    hide SkipBasic, TomlString, INSTRUCTIONS;
    BasicRoundTrip(value, "\n" + tail);
    assert printed + "\n" + tail == printed + ("\n" + tail);
  }

  lemma ReadBodyValue(value: string, tail: string)
    requires Clean(value, true)
    ensures ReadValue(INSTRUCTIONS, TomlMultiline(value).value + "\n" + tail) == Ok(value, "\n" + tail)
  {
    var printed := TomlMultiline(value).value;
    hide ReadMultiline, TomlMultiline, INSTRUCTIONS;
    MultilineRoundTrip(value, "\n" + tail);
    assert printed + "\n" + tail == printed + ("\n" + tail);
  }

  // The keys after the first line, and what the file holds after it.
  lemma ReadField(key: string, keys: seq<string>, value: string, tail: string, instructions: string)
    requires Clean(value, key == INSTRUCTIONS)
    ensures var printed := if key == INSTRUCTIONS then TomlMultiline(value).value else TomlString(value).value;
            ReadCodex([key] + keys, Line(key, " = ", printed) + tail, instructions) ==
            ReadCodex(keys, tail, if key == INSTRUCTIONS then value else instructions)
  {
    var printed := if key == INSTRUCTIONS then TomlMultiline(value).value else TomlString(value).value;
    hide ReadCodex, TomlMultiline, TomlString;
    if key == INSTRUCTIONS { ReadBodyValue(value, tail); } else { ReadBasicValue(key, value, tail); }
    ReadCodexStep(key, keys, printed, value, tail, instructions);
  }

  lemma CodexKeysDiffer()
    ensures CODEX_KEYS[0] != INSTRUCTIONS && CODEX_KEYS[1] != INSTRUCTIONS && CODEX_KEYS[3] != INSTRUCTIONS
  {
    assert CODEX_KEYS[0][0] == 'n' && CODEX_KEYS[1][2] == 's' && CODEX_KEYS[3][0] == 'm';
    assert INSTRUCTIONS[0] == 'd' && INSTRUCTIONS[2] == 'v';
  }

  /** Reading the Codex file of a role gives back exactly the body it was made from, and consumes the whole file. */
  lemma CodexRoundTrip(r: Role, body: string)
    requires CodexFile(r, body).Some?
    ensures ReadCodex(CODEX_KEYS, CodexFile(r, body).value, "") == Some(body)
  {
    CodexKeysDiffer();
    var k := CODEX_KEYS;
    assert k == [k[0]] + ([k[1]] + ([k[2]] + ([k[3]] + [])));
    hide TomlString, TomlMultiline, Line, INSTRUCTIONS, ReadCodex;
    var last := Line(k[3], " = ", TomlString(r.effort).value);
    var third := Line(k[2], " = ", TomlMultiline(body).value) + last;
    var second := Line(k[1], " = ", TomlString(r.description).value) + third;
    assert last + "" == last;
    ReadField(k[0], [k[1]] + ([k[2]] + ([k[3]] + [])), r.name, second, "");
    ReadField(k[1], [k[2]] + ([k[3]] + []), r.description, third, "");
    ReadField(k[2], [k[3]] + [], body, last, "");
    ReadField(k[3], [], r.effort, "", body);
    ReadEnd(body);
  }

  /** For every role and source on which the projection succeeds, the Codex file holds the body and nothing is lost. */
  lemma ProjectedInstructions(r: Role, source: string)
    requires Project(r, source).Some?
    ensures ReadCodex(CODEX_KEYS, Project(r, source).value[2].content, "") == Body(r, source)
  {
    CodexRoundTrip(r, Body(r, source).value);
  }

  lemma ReadEnd(body: string)
    ensures ReadCodex([], "", body) == Some(body)
  {
  }

  // --- which Codex files are printed ---

  // The text of the instructions from their first character on, as far as the lines before them can be read.
  function InstructionsText(keys: seq<string>, s: string): string {
    if keys == [] || !(keys[0] + " = " <= s) then ""
    else
      var after := s[|keys[0] + " = "|..];
      if keys[0] == INSTRUCTIONS then if |after| < 4 then "" else after[4..]
      else
        var p := SkipBasic(after);
        if p.Bad? || !("\n" <= p.rest) then "" else InstructionsText(keys[1..], p.rest[1..])
  }

  // The first line of what is read, and what follows it.
  lemma FirstLine(key: string, keys: seq<string>, s: string, instructions: string) returns (text: string, tail: string)
    requires ReadCodex([key] + keys, s, instructions).Some?
    ensures s == (key + " = ") + text && ReadValue(key, text).Ok? && ReadValue(key, text).rest == "\n" + tail
    ensures ReadCodex([key] + keys, s, instructions) ==
            ReadCodex(keys, tail, if key == INSTRUCTIONS then ReadValue(key, text).value else instructions)
    ensures key != INSTRUCTIONS ==> InstructionsText([key] + keys, s) == InstructionsText(keys, tail)
    ensures key == INSTRUCTIONS && |text| >= 4 ==> InstructionsText([key] + keys, s) == text[4..]
  {
    hide SkipBasic, ReadMultiline, INSTRUCTIONS;
    var prefix := key + " = ";
    text := s[|prefix|..];
    tail := ReadValue(key, text).rest[1..];
    assert ([key] + keys)[1..] == keys && ([key] + keys)[0] == key;
    assert s == prefix + text;
  }

  lemma BasicLine(key: string, keys: seq<string>, s: string, instructions: string) returns (v: string, tail: string)
    requires ReadCodex([key] + keys, s, instructions).Some? && key != INSTRUCTIONS && Clean(s, true)
    ensures Clean(v, false) && TomlString(v).Some? && Clean(tail, true)
    ensures s == Line(key, " = ", TomlString(v).value) + tail
    ensures ReadCodex([key] + keys, s, instructions) == ReadCodex(keys, tail, instructions)
    ensures InstructionsText([key] + keys, s) == InstructionsText(keys, tail)
  {
    var text;
    text, tail := FirstLine(key, keys, s, instructions);
    assert ReadValue(key, text) == SkipBasic(text);
    v := BasicIsPrinted(text);
    assert Clean(v, false) ==> TomlString(v).Some?;
    hide *;
    CleanPlus(key + " = ", text, true);
    CleanPlus("\n", tail, true);
    LineAndTail(key, TomlString(v).value, tail);
  }

  lemma LineAndTail(key: string, printed: string, tail: string)
    ensures (key + " = ") + (printed + ("\n" + tail)) == Line(key, " = ", printed) + tail
  {
  }

  lemma BodyLine(keys: seq<string>, s: string) returns (v: string, tail: string)
    requires ReadCodex([INSTRUCTIONS] + keys, s, "").Some? && Clean(s, true)
    requires OnlyThirds(InstructionsText([INSTRUCTIONS] + keys, s))
    ensures Clean(v, true) && s == Line(INSTRUCTIONS, " = ", TomlMultiline(v).value) + tail && Clean(tail, true)
    ensures ReadCodex([INSTRUCTIONS] + keys, s, "") == ReadCodex(keys, tail, v)
  {
    var text;
    text, tail := FirstLine(INSTRUCTIONS, keys, s, "");
    assert ReadValue(INSTRUCTIONS, text) == ReadMultiline(text);
    v := MultilineIsPrinted(text);
    hide *;
    CleanPlus(INSTRUCTIONS + " = ", text, true);
    CleanPlus("\n", tail, true);
    LineAndTail(INSTRUCTIONS, TomlMultiline(v).value, tail);
  }

  lemma MultilineIsPrinted(text: string) returns (v: string)
    requires ReadMultiline(text).Ok?
    ensures |text| >= 4 && v == ReadMultiline(text).value
    ensures OnlyThirds(text[4..]) && Clean(text, true) ==>
              Clean(v, true) && text == TomlMultiline(v).value + ReadMultiline(text).rest
                  && Clean(ReadMultiline(text).rest, true)
  {
    var s := text[4..];
    v := ReadBody(s).value;
    var rest := ReadBody(s).rest;
    assert text == (QUOTES + "\n") + s && ReadMultiline(text) == ReadBody(s);
    BodyIsAsCleanAsText(s);
    assert s == TextRead(s, rest) + rest;
    assert Clean(v, true) ==> TomlMultiline(v).Some?;
    hide *;
    CleanPlus(QUOTES + "\n", s, true);
    CleanPlus(TextRead(s, rest), rest, true);
    PrintedIffOnlyThirdsAndClean(s);
  }

  // A file that is read, clean, and with only thirds escaped in its instructions is that of some role.
  lemma ReadIsPrinted(data: string, body: string) returns (r: Role)
    requires ReadCodex(CODEX_KEYS, data, "") == Some(body) && Clean(data, true)
    requires OnlyThirds(InstructionsText(CODEX_KEYS, data))
    ensures CodexFile(r, body) == Some(data)
  {
    var k := CODEX_KEYS;
    CodexKeysDiffer();
    FourKeys();
    hide *;
    var name, a := BasicLine(k[0], [k[1]] + ([k[2]] + ([k[3]] + [])), data, "");
    var description, b := BasicLine(k[1], [k[2]] + ([k[3]] + []), a, "");
    var v, c := BodyLine([k[3]] + [], b);
    var effort, d := BasicLine(k[3], [], c, v);
    NothingAfter(d, v);
    r := Role(name, description, "", "", effort, []);
    assert c == Line(k[3], " = ", TomlString(effort).value);
    CodexFileIs(r, v);
  }

  lemma FourKeys()
    ensures var k := CODEX_KEYS; |k| == 4 && k == [k[0]] + ([k[1]] + ([k[2]] + ([k[3]] + []))) && k[2] == INSTRUCTIONS
  {
  }

  lemma CodexFileIs(r: Role, body: string)
    requires Clean(r.name, false) && Clean(r.description, false) && Clean(body, true) && Clean(r.effort, false)
    ensures var k := CODEX_KEYS;
            CodexFile(r, body) == Some(Line(k[0], " = ", TomlString(r.name).value)
                                       + (Line(k[1], " = ", TomlString(r.description).value)
                                          + (Line(k[2], " = ", TomlMultiline(body).value)
                                             + Line(k[3], " = ", TomlString(r.effort).value))))
  {
    hide TomlString, TomlMultiline, Line, Clean;
  }

  lemma NothingAfter(s: string, instructions: string)
    requires ReadCodex([], s, instructions).Some?
    ensures s == "" && ReadCodex([], s, instructions) == Some(instructions)
  {
  }

  // The instructions of a printed file start where those of its third line do.
  lemma TextAfterLine(key: string, keys: seq<string>, printed: string, tail: string)
    requires key != INSTRUCTIONS && SkipBasic(printed + ("\n" + tail)) == Ok("", "\n" + tail)
    ensures InstructionsText([key] + keys, Line(key, " = ", printed) + tail) == InstructionsText(keys, tail)
  {
    hide SkipBasic, INSTRUCTIONS;
    var s, text := Line(key, " = ", printed) + tail, printed + ("\n" + tail);
    LineAndTail(key, printed, tail);
    assert s[|key + " = "|..] == text;
    assert ("\n" + tail)[1..] == tail && ([key] + keys)[1..] == keys && ([key] + keys)[0] == key;
  }

  lemma TextOfBody(keys: seq<string>, body: string, tail: string)
    requires Clean(body, true)
    ensures OnlyThirds(InstructionsText([INSTRUCTIONS] + keys,
            Line(INSTRUCTIONS, " = ", TomlMultiline(body).value) + tail))
  {
    var key, printed, text := INSTRUCTIONS, TomlMultiline(body).value, EscapeMultiline(body) + QUOTES + ("\n" + tail);
    TwoPassesAreOne(body);
    BodyRoundTrip(body, "\n" + tail);
    EscapedIffOnlyThirds(text);
    assert (printed + ("\n" + tail))[4..] == text;
    hide OnlyThirds, INSTRUCTIONS, TomlMultiline;
    LineAndTail(key, printed, tail);
    assert (Line(key, " = ", printed) + tail)[|key + " = "|..] == printed + ("\n" + tail);
    assert ([key] + keys)[0] == key;
  }

  lemma LineIsClean(key: string, printed: string, tail: string)
    requires Clean(key, true) && Clean(printed, true) && Clean(tail, true)
    ensures Clean(Line(key, " = ", printed) + tail, true)
  {
    assert Clean(" = ", true) && Clean("\n", true);
    hide Clean;
    LineAndTail(key, printed, tail);
    CleanPlus(key, " = ", true);
    CleanPlus("\n", tail, true);
    CleanPlus(printed, "\n" + tail, true);
    CleanPlus(key + " = ", printed + ("\n" + tail), true);
  }

  lemma KeysAreClean()
    ensures forall i :: 0 <= i < 4 ==> Clean(CODEX_KEYS[i], true)
  {
  }

  // A printed file is clean, and its instructions have only thirds escaped.
  lemma PrintedIsPlain(r: Role, body: string)
    requires CodexFile(r, body).Some?
    ensures var data := CodexFile(r, body).value;
            Clean(data, true) && OnlyThirds(InstructionsText(CODEX_KEYS, data))
  {
    var k := CODEX_KEYS;
    CodexKeysDiffer();
    FourKeys();
    KeysAreClean();
    CodexFileIs(r, body);
    assert Clean(r.name, false) && Clean(r.description, false) && Clean(body, true) && Clean(r.effort, false);
    assert Clean("", true);
    hide *;
    var last := Line(k[3], " = ", TomlString(r.effort).value);
    var third := Line(k[2], " = ", TomlMultiline(body).value) + last;
    var second := Line(k[1], " = ", TomlString(r.description).value) + third;
    PrintedIsClean(r.effort);
    PrintedIsClean(body);
    PrintedIsClean(r.description);
    PrintedIsClean(r.name);
    assert last + "" == last;
    LineIsClean(k[3], TomlString(r.effort).value, "");
    LineIsClean(k[2], TomlMultiline(body).value, last);
    LineIsClean(k[1], TomlString(r.description).value, third);
    LineIsClean(k[0], TomlString(r.name).value, second);
    BasicRoundTrip(r.name, "\n" + second);
    BasicRoundTrip(r.description, "\n" + third);
    TextAfterLine(k[0], [k[1]] + ([k[2]] + ([k[3]] + [])), TomlString(r.name).value, second);
    TextAfterLine(k[1], [k[2]] + ([k[3]] + []), TomlString(r.description).value, third);
    TextOfBody([k[3]] + [], body, last);
  }

  /** The Codex reader is said to be the exact inverse of the printer. It takes more files than any role prints: one
      that is read is printed for its body and some role if and only if it has no control character the printer refuses,
      and each escaped quotation mark of its instructions is the third of three. */
  lemma CodexPrintedIff(data: string, body: string)
    ensures (exists r: Role :: CodexFile(r, body) == Some(data)) <==>
            && ReadCodex(CODEX_KEYS, data, "") == Some(body)
            && Clean(data, true) && OnlyThirds(InstructionsText(CODEX_KEYS, data))
  {
    hide *;
    if r: Role :| CodexFile(r, body) == Some(data) {
      CodexRoundTrip(r, body);
      PrintedIsPlain(r, body);
    }
    if ReadCodex(CODEX_KEYS, data, "") == Some(body) && Clean(data, true)
      && OnlyThirds(InstructionsText(CODEX_KEYS, data)) {
      var r := ReadIsPrinted(data, body);
    }
  }

  // --- reading a Claude file ---

  const CLAUDE_KEYS := ["name", "description", "model", "tools"]

  function ReadLines(keys: seq<string>, s: string): Option<string> {
    if keys == [] then Some(s)
    else
      var (line, after, found) := Cut(s, "\n");
      if !found || !(keys[0] + ": " <= line) then None else ReadLines(keys[1..], after)
  }

  function ReadAfter(s: string): Option<string> {
    if "---\n" <= s && "\n" <= s[4..] then Some(s[5..]) else None
  }

  function ReadClaude(data: string): Option<string> {
    if !("---\n" <= data) then None
    else match ReadLines(CLAUDE_KEYS, data[4..])
      case Some(rest) => ReadAfter(rest)
      case None => None
  }

  method ClaudeInstructions(data: string) returns (r: Option<string>)
    ensures r == ReadClaude(data)
  {
    if !("---\n" <= data) { return None; }
    var rest := data[4..];
    for i := 0 to |CLAUDE_KEYS|
      invariant ReadLines(CLAUDE_KEYS, data[4..]) == ReadLines(CLAUDE_KEYS[i..], rest)
    {
      hide Cut;
      assert CLAUDE_KEYS[i..][1..] == CLAUDE_KEYS[i + 1..];
      var (line, after, found) := Cut(rest, "\n");
      if !found || !(CLAUDE_KEYS[i] + ": " <= line) { return None; }
      rest := after;
    }
    if !("---\n" <= rest) { return None; }
    rest := rest[4..];
    if !("\n" <= rest) { return None; }
    return Some(rest[1..]);
  }

  lemma FirstNewline(s: string, k: nat) returns (i: nat)
    requires k < |s| && s[k] == '\n'
    ensures i <= k && s[i] == '\n' && '\n' !in s[..i]
  {
    i := 0;
    while s[i] != '\n'
      invariant i <= k && '\n' !in s[..i]
      decreases k - i
    {
      assert s[..i + 1] == s[..i] + [s[i]];
      i := i + 1;
    }
  }

  // A value on one line is read as one line.
  lemma ReadOneLine(key: string, keys: seq<string>, value: string, tail: string)
    requires '\n' !in key && '\n' !in value
    ensures ReadLines([key] + keys, Line(key, ": ", value) + tail) == ReadLines(keys, tail)
  {
    hide Cut;
    var line, s := key + ": " + value, Line(key, ": ", value) + tail;
    assert '\n' !in line;
    assert s[..|line|] == line && s[|line|] == '\n' && s[|line| + 1..] == tail;
    CutAt(s, "\n", |line|);
    assert line == (key + ": ") + value;
    assert ([key] + keys)[1..] == keys && ([key] + keys)[0] == key;
  }

  // A value on several lines ends its line at its first newline.
  lemma ReadFirstLine(key: string, keys: seq<string>, value: string, tail: string, i: nat)
    requires '\n' !in key && i < |value| && value[i] == '\n' && '\n' !in value[..i]
    ensures ReadLines([key] + keys, Line(key, ": ", value) + tail) == ReadLines(keys, value[i + 1..] + "\n" + tail)
  {
    var rest := value[i + 1..] + "\n" + tail;
    assert value == value[..i] + "\n" + value[i + 1..];
    assert Line(key, ": ", value) + tail == Line(key, ": ", value[..i]) + rest;
    ReadOneLine(key, keys, value[..i], rest);
  }

  // What is read after one line is at most that line shorter.
  lemma ReadLast(key: string, b: string, tail: string)
    requires ReadLines([key], b + "\n" + tail).Some?
    ensures |ReadLines([key], b + "\n" + tail).value| >= |tail|
  {
    hide Cut;
    var s := b + "\n" + tail;
    var i := FirstNewline(s, |b|);
    CutAt(s, "\n", i);
    assert ReadLines([key], s) == ReadLines([key][1..], s[i + 1..]);
  }

  lemma ClaudeKeysAreOneLine()
    ensures forall i :: 0 <= i < 4 ==> '\n' !in CLAUDE_KEYS[i]
  {
  }

  lemma JoinIsOneLine(parts: seq<string>)
    requires forall i :: 0 <= i < |parts| ==> '\n' !in parts[i]
    ensures '\n' !in Join(parts, ", ")
  {
    if |parts| > 1 { JoinIsOneLine(parts[1..]); }
  }

  lemma ReadEnding(body: string)
    ensures ReadAfter("---\n\n" + body) == Some(body)
  {
    var s := "---\n\n" + body;
    assert s[4..] == "\n" + body && s[5..] == body;
  }

  // Up to the model, whatever the model is.
  lemma ClaudeStart(r: Role, rest: string)
    requires '\n' !in r.name && '\n' !in r.description
    ensures var k := CLAUDE_KEYS;
            ReadLines(k, Line(k[0], ": ", r.name) + (Line(k[1], ": ", r.description) + rest)) ==
                ReadLines([k[2]] + [k[3]], rest)
  {
    ClaudeKeysAreOneLine();
    var k := CLAUDE_KEYS;
    assert k == [k[0]] + ([k[1]] + ([k[2]] + [k[3]]));
    hide ReadLines, Line;
    ReadOneLine(k[0], [k[1]] + ([k[2]] + [k[3]]), r.name, Line(k[1], ": ", r.description) + rest);
    ReadOneLine(k[1], [k[2]] + [k[3]], r.description, rest);
  }

  lemma ReadsBodyIffModelIsOneLine(k: seq<string>, model: string, tools: string, body: string)
    requires k == CLAUDE_KEYS && '\n' !in tools
    ensures var end := Line(k[3], ": ", tools) + ("---\n\n" + body);
            var rest := ReadLines([k[2]] + [k[3]], Line(k[2], ": ", model) + end);
            (rest.Some? && ReadAfter(rest.value) == Some(body)) <==> '\n' !in model
  {
    var ending := "---\n\n" + body;
    var end := Line(k[3], ": ", tools) + ending;
    var s := Line(k[2], ": ", model) + end;
    ClaudeKeysAreOneLine();
    if '\n' in model {
      var at :| 0 <= at < |model| && model[at] == '\n';
      var i := FirstNewline(model, at);
      hide CLAUDE_KEYS, ReadLines;
      ReadFirstLine(k[2], [k[3]], model, end, i);
      if ReadLines([k[3]], model[i + 1..] + "\n" + end).Some? {
        ReadLast(k[3], model[i + 1..], end);
        assert |end| > |ending| == |body| + 5;
      }
    } else {
      assert [k[3]] + [] == [k[3]];
      ReadOneLine(k[2], [k[3]], model, end);
      ReadOneLine(k[3], [], tools, ending);
      assert ReadLines([], ending) == Some(ending);
      ReadEnding(body);
    }
  }

  /** The body of a generated Claude file is read back if and only if the model alias is on one line: a newline in the
      name or the description is refused when the Codex file is printed, and the tools come from the table of Pi. */
  lemma ClaudeRoundTrip(r: Role, source: string)
    requires Project(r, source).Some?
    ensures ReadClaude(Project(r, source).value[0].content) == Some(Body(r, source).value) <==> '\n' !in r.claude
  {
    var body := Body(r, source).value;
    assert Clean(r.name, false) && Clean(r.description, false);
    assert '\n' !in r.name && '\n' !in r.description by {
      assert forall i :: 0 <= i < |r.name| ==> !Refused(r.name[i], false);
      assert forall i :: 0 <= i < |r.description| ==> !Refused(r.description[i], false);
    }
    forall i | 0 <= i < |r.tools|
      ensures '\n' !in r.tools[i]
    {
      NamedIsOneLine(r.tools[i]);
    }
    JoinIsOneLine(r.tools);
    var tools, file := Join(r.tools, ", "), ClaudeFile(r, body);
    var k := CLAUDE_KEYS;
    var rest := Line(k[2], ": ", r.claude) + (Line(k[3], ": ", tools) + ("---\n\n" + body));
    assert file[4..] == Line(k[0], ": ", r.name) + (Line(k[1], ": ", r.description) + rest);
    hide Line, ReadLines, ReadAfter, Body, AllNamed, CodexFile, Join;
    ClaudeStart(r, rest);
    ReadsBodyIffModelIsOneLine(k, r.claude, tools, body);
  }

  // --- which Claude files are printed ---

  // Every field of the frontmatter is on one line.
  predicate IsOneLine(r: Role) {
    && '\n' !in r.name && '\n' !in r.description && '\n' !in r.claude
    && forall i :: 0 <= i < |r.tools| ==> '\n' !in r.tools[i]
  }

  lemma OneLineIsRead(r: Role, body: string)
    requires IsOneLine(r)
    ensures ReadClaude(ClaudeFile(r, body)) == Some(body)
  {
    var k, tools, file := CLAUDE_KEYS, Join(r.tools, ", "), ClaudeFile(r, body);
    JoinIsOneLine(r.tools);
    var rest := Line(k[2], ": ", r.claude) + (Line(k[3], ": ", tools) + ("---\n\n" + body));
    assert file[4..] == Line(k[0], ": ", r.name) + (Line(k[1], ": ", r.description) + rest);
    hide Line, ReadLines, ReadAfter, Join;
    ClaudeStart(r, rest);
    ReadsBodyIffModelIsOneLine(k, r.claude, tools, body);
  }

  // The first line of what is read.
  lemma LineIsRead(key: string, keys: seq<string>, s: string) returns (value: string, tail: string)
    requires ReadLines([key] + keys, s).Some?
    ensures '\n' !in value && s == Line(key, ": ", value) + tail && ReadLines([key] + keys, s) == ReadLines(keys, tail)
  {
    var (line, after, found) := Cut(s, "\n");
    CutParts(s, "\n");
    hide Cut;
    value, tail := line[|key + ": "|..], after;
    assert ([key] + keys)[1..] == keys && ([key] + keys)[0] == key;
    assert line == key + ": " + value && s == line + "\n" + after;
    assert Line(key, ": ", value) + tail == line + "\n" + after;
  }

  // A file that is read is that of a role.
  lemma ReadIsOfRole(data: string, body: string) returns (r: Role)
    requires ReadClaude(data) == Some(body)
    ensures IsOneLine(r) && data == ClaudeFile(r, body)
  {
    var k := CLAUDE_KEYS;
    assert k == [k[0]] + ([k[1]] + ([k[2]] + ([k[3]] + [])));
    assert data == "---\n" + data[4..];
    var rest := ReadLines(k, data[4..]).value;
    assert rest == "---\n\n" + body by {
      assert rest[..4] == "---\n" && rest[4..][..1] == "\n" && rest[5..] == body;
      assert rest == rest[..4] + (rest[4..][..1] + rest[5..]);
    }
    hide ReadLines, Line;
    var name, a := LineIsRead(k[0], [k[1]] + ([k[2]] + ([k[3]] + [])), data[4..]);
    var description, b := LineIsRead(k[1], [k[2]] + ([k[3]] + []), a);
    var model, c := LineIsRead(k[2], [k[3]] + [], b);
    var tools, d := LineIsRead(k[3], [], c);
    NoKeysLeft(d);
    r := Role(name, description, model, "", "", [tools]);
    assert Join([tools], ", ") == tools;
  }

  lemma NoKeysLeft(s: string)
    ensures ReadLines([], s) == Some(s)
  {
  }

  /** The Claude reader takes exactly the files of roles whose fields are each on one line, with their bodies. */
  lemma ClaudeReadIff(data: string, body: string)
    ensures ReadClaude(data) == Some(body) <==> exists r: Role :: IsOneLine(r) && data == ClaudeFile(r, body)
  {
    hide *;
    if ReadClaude(data) == Some(body) { var r := ReadIsOfRole(data, body); }
    if r: Role :| IsOneLine(r) && data == ClaudeFile(r, body) { OneLineIsRead(r, body); }
  }

  // --- what a runtime reads in the files of a role ---

  datatype Header = Header(fields: seq<(string, string)>, rest: string)

  // The lines of a header up to its closing marker, each a key and a value, and the text after the marker.
  function ReadHeader(s: string): Option<Header>
    decreases |s|
  {
    var (line, after, found) := Cut(s, "\n");
    if !found then None
    else if line == "---" then Some(Header([], after))
    else
      var (key, value, colon) := Cut(line, ": ");
      CutIsShorter(s);
      match ReadHeader(after)
      case Some(h) => if colon then Some(Header([(key, value)] + h.fields, h.rest)) else None
      case None => None
  }

  function ReadMarkdown(file: string): Option<Header> {
    if "---\n" <= file then ReadHeader(file[4..]) else None
  }

  // The pairs of a TOML table with one key a line.
  function ReadTable(s: string): Option<seq<(string, string)>>
    decreases |s|
  {
    if s == "" then Some([])
    else
      var (key, after, found) := Cut(s, " = ");
      var p := if key == INSTRUCTIONS then ReadMultiline(after) else ReadBasic(after);
      if !found || p.Bad? || !("\n" <= p.rest) then None
      else
        TableIsShorter(s);
        match ReadTable(p.rest[1..])
        case Some(pairs) => Some([(key, p.value)] + pairs)
        case None => None
  }

  lemma CutIsShorter(s: string)
    ensures Cut(s, "\n").2 ==> |Cut(s, "\n").1| < |s|
  {
    CutParts(s, "\n");
  }

  lemma TableIsShorter(s: string)
    ensures var (key, after, found) := Cut(s, " = ");
            var p := if key == INSTRUCTIONS then ReadMultiline(after) else ReadBasic(after);
            found && p.Ok? ==> |p.rest| < |s|
  {
    hide INSTRUCTIONS;
    var (key, after, found) := Cut(s, " = ");
    IndexFirst(s, " = ");
    if ReadMultiline(after).Ok? { BodyIsAsCleanAsText(after[4..]); }
  }

  // A key without the first character of what follows it ends where that is.
  lemma CutAfterKey(key: string, between: string, value: string)
    requires between != "" && between[0] !in key
    ensures Cut(key + between + value, between) == (key, value, true)
  {
    hide Index;
    var s := key + between + value;
    IndexFirst(s, between);
    assert s[|key|..] == between + value;
    assert between <= s[|key|..];
    var i := Index(s, between).value;
    assert between[0] == s[i..][0] == s[i];
    assert forall k :: 0 <= k < |key| ==> s[k] == key[k];
    assert s[..|key|] == key && s[|key| + |between|..] == value;
  }

  lemma HeaderLine(key: string, value: string, tail: string)
    requires '\n' !in key && ':' !in key && '\n' !in value && key != ""
    requires ReadHeader(tail).Some?
    ensures var h := ReadHeader(tail).value;
            ReadHeader(Line(key, ": ", value) + tail) == Some(Header([(key, value)] + h.fields, h.rest))
  {
    hide Cut;
    var line, s := key + ": " + value, Line(key, ": ", value) + tail;
    assert '\n' !in line;
    assert s[..|line|] == line && s[|line|] == '\n' && s[|line| + 1..] == tail;
    CutAt(s, "\n", |line|);
    CutAfterKey(key, ": ", value);
    assert line[|key|] == ':' && ':' !in "---";
  }

  lemma HeaderEnds(body: string)
    ensures ReadHeader("---\n\n" + body) == Some(Header([], "\n" + body))
  {
    hide Cut;
    var s := "---\n\n" + body;
    assert s[..3] == "---" && s[4..] == "\n" + body;
    CutAt(s, "\n", 3);
  }

  lemma KeysAreWords()
    ensures forall key :: key in ["name", "description", "model", "thinking", "tools"] ==>
              key != "" && '\n' !in key && ':' !in key
  {
  }

  /** What is read of the Claude file of a role. */
  lemma ClaudeHeader(r: Role, body: string)
    requires IsOneLine(r)
    ensures ReadMarkdown(ClaudeFile(r, body)) ==
            Some(Header([("name", r.name), ("description", r.description), ("model", r.claude),
                         ("tools", Join(r.tools, ", "))], "\n" + body))
  {
    hide Line, ReadHeader, Join;
    var tools := Join(r.tools, ", ");
    JoinIsOneLine(r.tools);
    KeysAreWords();
    var d := "---\n\n" + body;
    var c := Line("tools", ": ", tools) + d;
    var b := Line("model", ": ", r.claude) + c;
    var a := Line("description", ": ", r.description) + b;
    var file := ClaudeFile(r, body);
    assert file[4..] == Line("name", ": ", r.name) + a;
    HeaderEnds(body);
    HeaderLine("tools", tools, d);
    HeaderLine("model", r.claude, c);
    HeaderLine("description", r.description, b);
    HeaderLine("name", r.name, a);
    assert file == "---\n" + file[4..];
    InALine([("name", r.name), ("description", r.description), ("model", r.claude), ("tools", tools)]);
  }

  lemma PiHeader(r: Role, tools: string, body: string)
    requires '\n' !in r.name && '\n' !in r.description && '\n' !in r.pi && '\n' !in r.effort && '\n' !in tools
    ensures ReadMarkdown(PiFile(r, tools, body)) ==
            Some(Header([("name", r.name), ("description", r.description), ("model", r.pi), ("thinking", r.effort),
                         ("tools", tools)], "\n" + body))
  {
    hide Line, ReadHeader;
    KeysAreWords();
    var e := "---\n\n" + body;
    var d := Line("tools", ": ", tools) + e;
    var c := Line("thinking", ": ", r.effort) + d;
    var b := Line("model", ": ", r.pi) + c;
    var a := Line("description", ": ", r.description) + b;
    var file := PiFile(r, tools, body);
    assert file[4..] == Line("name", ": ", r.name) + a;
    HeaderEnds(body);
    HeaderLine("tools", tools, e);
    HeaderLine("thinking", r.effort, d);
    HeaderLine("model", r.pi, c);
    HeaderLine("description", r.description, b);
    HeaderLine("name", r.name, a);
    assert file == "---\n" + file[4..];
    InALine([("name", r.name), ("description", r.description), ("model", r.pi), ("thinking", r.effort),
             ("tools", tools)]);
  }

  // A short sequence, one element put before the others at a time.
  lemma InALine(s: seq<(string, string)>)
    ensures |s| == 4 ==> s == [s[0]] + ([s[1]] + ([s[2]] + ([s[3]] + [])))
    ensures |s| == 5 ==> s == [s[0]] + ([s[1]] + ([s[2]] + ([s[3]] + ([s[4]] + []))))
  {
  }

  lemma TableLine(key: string, value: string, printed: string, tail: string)
    requires ' ' !in key && ReadTable(tail).Some?
    requires key == INSTRUCTIONS ==> ReadMultiline(printed + "\n" + tail) == Ok(value, "\n" + tail)
    requires key != INSTRUCTIONS ==> ReadBasic(printed + "\n" + tail) == Ok(value, "\n" + tail)
    ensures ReadTable(Line(key, " = ", printed) + tail) == Some([(key, value)] + ReadTable(tail).value)
  {
    hide Cut, ReadMultiline, ReadBasic, INSTRUCTIONS;
    var s := Line(key, " = ", printed) + tail;
    assert s == key + " = " + (printed + "\n" + tail);
    CutAfterKey(key, " = ", printed + "\n" + tail);
    assert ("\n" + tail)[1..] == tail;
  }

  lemma CodexTable(r: Role, body: string)
    requires CodexFile(r, body).Some?
    ensures ReadTable(CodexFile(r, body).value) ==
            Some([("name", r.name), ("description", r.description), ("developer_instructions", body),
                  ("model_reasoning_effort", r.effort)])
  {
    var k := CODEX_KEYS;
    CodexKeysDiffer();
    FourKeys();
    KeysHaveNoSpace();
    CodexFileIs(r, body);
    assert Clean(r.name, false) && Clean(r.description, false) && Clean(body, true) && Clean(r.effort, false);
    assert k[0] == "name" && k[1] == "description" && k[3] == "model_reasoning_effort";
    assert TomlString(r.name).Some? && TomlString(r.description).Some? && TomlString(r.effort).Some?;
    assert TomlMultiline(body).Some?;
    hide *;
    var last := Line(k[3], " = ", TomlString(r.effort).value);
    var third := Line(k[2], " = ", TomlMultiline(body).value) + last;
    var second := Line(k[1], " = ", TomlString(r.description).value) + third;
    assert last + "" == last;
    TableEnds();
    BasicLineIsRead(k[3], r.effort, TomlString(r.effort).value, "");
    MultilineRoundTrip(body, "\n" + last);
    assert TomlMultiline(body).value + "\n" + last == TomlMultiline(body).value + ("\n" + last);
    TableLine(k[2], body, TomlMultiline(body).value, last);
    BasicLineIsRead(k[1], r.description, TomlString(r.description).value, third);
    BasicLineIsRead(k[0], r.name, TomlString(r.name).value, second);
    InALine([(k[0], r.name), (k[1], r.description), (k[2], body), (k[3], r.effort)]);
  }

  lemma KeysHaveNoSpace()
    ensures forall i :: 0 <= i < 4 ==> ' ' !in CODEX_KEYS[i]
    ensures CODEX_KEYS[2] == "developer_instructions"
  {
  }

  lemma TableEnds()
    ensures ReadTable("") == Some([])
  {
  }

  lemma BasicLineIsRead(key: string, value: string, printed: string, tail: string)
    requires key != INSTRUCTIONS && ' ' !in key && Clean(value, false) && ReadTable(tail).Some?
    requires TomlString(value) == Some(printed)
    ensures ReadTable(Line(key, " = ", printed) + tail) == Some([(key, value)] + ReadTable(tail).value)
  {
    hide TomlString, Line, ReadTable, ReadBasic, INSTRUCTIONS;
    BasicRoundTrip(value, "\n" + tail);
    assert printed + "\n" + tail == printed + ("\n" + tail);
    TableLine(key, value, printed, tail);
  }

  // No value of a header holds a newline.
  lemma {:induction false} HeaderIsOneLine(s: string)
    requires ReadHeader(s).Some?
    ensures forall field :: field in ReadHeader(s).value.fields ==> '\n' !in field.1
    decreases |s|
  {
    var (line, after, found) := Cut(s, "\n");
    CutParts(s, "\n");
    if line != "---" {
      HeaderIsOneLine(after);
      var (key, value, colon) := Cut(line, ": ");
      IndexFirst(line, ": ");
      hide Cut, ReadHeader;
      assert '\n' !in line;
    }
  }

  lemma CleanIsOneLine(s: string)
    requires Clean(s, false)
    ensures '\n' !in s
  {
    assert forall i :: 0 <= i < |s| ==> !Refused(s[i], false);
  }

  lemma PiNameIsOneLine(tool: string)
    requires tool in PI_TOOL_NAMES
    ensures '\n' !in PI_TOOL_NAMES[tool]
  {
  }

  // Both lists of the tools of a role are on one line.
  lemma ToolsAreOneLine(r: Role)
    requires AllNamed(r.tools)
    ensures forall i :: 0 <= i < |r.tools| ==> '\n' !in r.tools[i]
    ensures '\n' !in Join(Firsts(Named(r.tools)), ", ")
  {
    hide PI_TOOL_NAMES;
    forall i | 0 <= i < |r.tools|
      ensures '\n' !in r.tools[i] && '\n' !in Named(r.tools)[i]
    {
      NamedIsOneLine(r.tools[i]);
      PiNameIsOneLine(r.tools[i]);
    }
    var names := Firsts(Named(r.tools));
    FirstsHold(Named(r.tools));
    forall i | 0 <= i < |names|
      ensures '\n' !in names[i]
    {
      assert names[i] in Named(r.tools);
    }
    JoinIsOneLine(names);
  }

  // A header is read with a value on several lines under no key.
  lemma ModelIsOneLine(file: string, h: Header, model: string)
    requires ReadMarkdown(file) == Some(h) && |h.fields| > 2 && h.fields[2].1 == model
    ensures '\n' !in model
  {
    HeaderIsOneLine(file[4..]);
    assert h.fields[2] in h.fields;
  }

  lemma ClaudeIff(r: Role, body: string)
    requires '\n' !in r.name && '\n' !in r.description && forall i :: 0 <= i < |r.tools| ==> '\n' !in r.tools[i]
    ensures '\n' !in r.claude <==>
            ReadMarkdown(ClaudeFile(r, body)) ==
            Some(Header([("name", r.name), ("description", r.description), ("model", r.claude),
                         ("tools", Join(r.tools, ", "))], "\n" + body))
  {
    var h := Header([("name", r.name), ("description", r.description), ("model", r.claude),
                     ("tools", Join(r.tools, ", "))], "\n" + body);
    hide ReadMarkdown, ClaudeFile, Join;
    if '\n' !in r.claude { ClaudeHeader(r, body); }
    if ReadMarkdown(ClaudeFile(r, body)) == Some(h) { ModelIsOneLine(ClaudeFile(r, body), h, r.claude); }
  }

  lemma PiIff(r: Role, tools: string, body: string)
    requires '\n' !in r.name && '\n' !in r.description && '\n' !in r.effort && '\n' !in tools
    ensures '\n' !in r.pi <==>
            ReadMarkdown(PiFile(r, tools, body)) ==
            Some(Header([("name", r.name), ("description", r.description), ("model", r.pi), ("thinking", r.effort),
                         ("tools", tools)], "\n" + body))
  {
    var h := Header([("name", r.name), ("description", r.description), ("model", r.pi), ("thinking", r.effort),
                     ("tools", tools)], "\n" + body);
    hide ReadMarkdown, PiFile;
    if '\n' !in r.pi { PiHeader(r, tools, body); }
    if ReadMarkdown(PiFile(r, tools, body)) == Some(h) { ModelIsOneLine(PiFile(r, tools, body), h, r.pi); }
  }

  /** What each of the three files of a role says under each key, for every projection that succeeds: the Claude file
      and the Pi file if and only if their model is on one line, the Codex file always. The body is all that follows the
      blank line, or the instructions. */
  lemma ProjectedFields(r: Role, source: string)
    requires Project(r, source).Some?
    ensures var files := Project(r, source).value;
            && |files| == 3
            && files[0].path == "agents/" + r.name + ".md"
            && files[1].path == "pi/agents/" + r.name + ".md"
            && files[2].path == "codex/agents/" + r.name + ".toml"
    ensures var files, body := Project(r, source).value, Body(r, source).value;
            '\n' !in r.claude <==>
            ReadMarkdown(files[0].content) ==
            Some(Header([("name", r.name), ("description", r.description), ("model", r.claude),
                         ("tools", Join(r.tools, ", "))], "\n" + body))
    ensures var files, body := Project(r, source).value, Body(r, source).value;
            '\n' !in r.pi <==>
            ReadMarkdown(files[1].content) ==
            Some(Header([("name", r.name), ("description", r.description), ("model", r.pi), ("thinking", r.effort),
                         ("tools", Join(Firsts(Named(r.tools)), ", "))], "\n" + body))
    ensures var files, body := Project(r, source).value, Body(r, source).value;
            ReadTable(files[2].content) ==
            Some([("name", r.name), ("description", r.description), ("developer_instructions", body),
                  ("model_reasoning_effort", r.effort)])
  {
    hide PI_TOOL_NAMES, KeepsLine, Count, Clean, Line;
    var files, body, tools := Project(r, source).value, Body(r, source).value, Join(Firsts(Named(r.tools)), ", ");
    assert files[0].content == ClaudeFile(r, body) && files[1].content == PiFile(r, tools, body);
    assert CodexFile(r, body) == Some(files[2].content);
    assert Clean(r.name, false) && Clean(r.description, false) && Clean(r.effort, false);
    hide *;
    ToolsAreOneLine(r);
    CleanIsOneLine(r.name);
    CleanIsOneLine(r.description);
    CleanIsOneLine(r.effort);
    ClaudeIff(r, body);
    PiIff(r, tools, body);
    CodexTable(r, body);
  }
}
