/**
  engine/contract/contract.go: the parser of a contract document. A document is text; its frontmatter is the lines
  between its first two delimiter lines.
 */
module Contracts {
  import opened Wrappers
  import opened Text

  const APPLIES_TO := "applies_to_phases"
  const EXCLUDED := "excluded_phases"
  const INJECTION_POINT := "injection_point"
  const LANGUAGE_CONTEXT := "language_context"
  const ACTIVATION_CONTEXT := "activation_context"
  const CONTEXT_OPERATOR := "context_operator"
  const DEFAULT_INJECTION_POINT := "## Skills to load before work"

  datatype Contract = Contract(appliesTo: seq<string>, excluded: seq<string>, injectionPoint: string)
  {
    function Header(): string {
      if injectionPoint != "" then injectionPoint else DEFAULT_INJECTION_POINT
    }
  }

  datatype Context = Context(languages: seq<string>, activations: seq<string>)
  {
    predicate Required() {
      |languages| > 0 || |activations| > 0
    }
  }

  datatype Error =
    | NoFrontmatter
    | NoAppliesTo
    | UnsupportedContextOperator
    | MalformedList(key: string, value: string)

  datatype Result<T> = Ok(value: T) | Err(error: Error)

  const QUOTE := {'\"', '\''}

  // --- the lines of the frontmatter ---

  predicate IsDelimiter(line: string) {
    TrimRight(line, {' ', '\t', '\r'}) == "---"
  }

  // slices.IndexFunc(lines, isDelimiter).
  function FirstDelimiter(lines: seq<string>): (r: Option<nat>)
    ensures r.Some? ==> r.value < |lines| && IsDelimiter(lines[r.value])
    ensures forall i :: 0 <= i < (if r.Some? then r.value else |lines|) ==> !IsDelimiter(lines[i])
  {
    if lines == [] then None
    else if IsDelimiter(lines[0]) then Some(0)
    else match FirstDelimiter(lines[1..])
      case Some(i) => Some(i + 1)
      case None => None
  }

  function Between(lines: seq<string>): Option<seq<string>> {
    match FirstDelimiter(lines)
    case None => None
    case Some(opening) =>
      var body := lines[opening + 1..];
      match FirstDelimiter(body)
      case None => None
      case Some(closing) => Some(body[..closing])
  }

  function FrontmatterLines(content: string): Option<seq<string>> {
    Between(Split(content, '\n'))
  }

  // --- a list ---

  function Item(part: string): string {
    Trim(TrimSpace(part), QUOTE)
  }

  // The items that are not empty, in order.
  function Items(parts: seq<string>): seq<string> {
    if parts == [] then []
    else
      var item := Item(parts[|parts| - 1]);
      Items(parts[..|parts| - 1]) + if item != "" then [item] else []
  }

  predicate IsList(value: string) {
    "[" <= value && HasSuffix(value, "]") && '[' !in Inner(value) && ']' !in Inner(value)
  }

  function Inner(value: string): string {
    TrimPrefix(TrimSuffix(value, "]"), "[")
  }

  function ListOf(key: string, value: string): Result<seq<string>> {
    var v := TrimSpace(value);
    if IsList(v) then Ok(Items(Split(Inner(v), ','))) else Err(MalformedList(key, v))
  }

  method ParseList(key: string, value: string) returns (r: Result<seq<string>>)
    ensures r == ListOf(key, value)
  {
    var v := TrimSpace(value);
    if !("[" <= v) || !HasSuffix(v, "]") { return Err(MalformedList(key, v)); }
    var inner := TrimPrefix(TrimSuffix(v, "]"), "[");
    if '[' in inner || ']' in inner { return Err(MalformedList(key, v)); }
    var parts, items := Split(inner, ','), [];
    for i := 0 to |parts|
      invariant items == Items(parts[..i])
    {
      assert parts[..i + 1][..i] == parts[..i];
      var item := Trim(TrimSpace(parts[i]), QUOTE);
      if item != "" { items := items + [item]; }
    }
    assert parts[..|parts|] == parts;
    return Ok(items);
  }

  // --- the scope and the context ---

  // One line of the frontmatter: its key and its value, if it has a colon.
  function KeyOf(line: string): Option<string> {
    var (key, _, found) := Cut(TrimSpace(line), ":");
    if found then Some(key) else None
  }

  function ValueOf(line: string): string {
    Cut(TrimSpace(line), ":").1
  }

  function ScopeLine(line: string, c: Contract): Result<Contract> {
    if KeyOf(line) == Some(APPLIES_TO) then
      match ListOf(APPLIES_TO, ValueOf(line))
      case Ok(list) => Ok(c.(appliesTo := list))
      case Err(e) => Err(e)
    else if KeyOf(line) == Some(EXCLUDED) then
      match ListOf(EXCLUDED, ValueOf(line))
      case Ok(list) => Ok(c.(excluded := list))
      case Err(e) => Err(e)
    else if KeyOf(line) == Some(INJECTION_POINT) then Ok(c.(injectionPoint := Trim(TrimSpace(ValueOf(line)), QUOTE)))
    else Ok(c)
  }

  function ScopeOf(lines: seq<string>): Result<Contract> {
    if lines == [] then Ok(Contract([], [], ""))
    else match ScopeOf(lines[..|lines| - 1])
      case Ok(c) => ScopeLine(lines[|lines| - 1], c)
      case Err(e) => Err(e)
  }

  function Scope(lines: seq<string>): Result<Contract> {
    match ScopeOf(lines)
    case Ok(c) => if c.appliesTo == [] then Err(NoAppliesTo) else Ok(c)
    case Err(e) => Err(e)
  }

  method ParseScope(lines: seq<string>) returns (r: Result<Contract>)
    ensures r == Scope(lines)
  {
    hide ListOf, KeyOf, ValueOf;
    var c := Contract([], [], "");
    for i := 0 to |lines|
      invariant ScopeOf(lines[..i]) == Ok(c)
    {
      var line := lines[i];
      assert lines[..i + 1][..i] == lines[..i];
      var key, value := KeyOf(line), ValueOf(line);
      if key.None? { continue; }
      if key == Some(APPLIES_TO) || key == Some(EXCLUDED) {
        var list := ParseList(key.value, value);
        if list.Err? {
          ScopeErrs(lines, i + 1);
          return Err(list.error);
        }
        c := if key.value == APPLIES_TO then c.(appliesTo := list.value) else c.(excluded := list.value);
      } else if key == Some(INJECTION_POINT) {
        c := c.(injectionPoint := Trim(TrimSpace(value), QUOTE));
      }
    }
    assert lines[..|lines|] == lines;
    return if c.appliesTo == [] then Err(NoAppliesTo) else Ok(c);
  }

  // The first error is the error of the whole.
  lemma {:induction false} ScopeErrs(lines: seq<string>, n: nat)
    requires n <= |lines| && ScopeOf(lines[..n]).Err?
    ensures ScopeOf(lines) == ScopeOf(lines[..n])
  {
    if n == |lines| {
      assert lines[..n] == lines;
    } else {
      var m := |lines| - 1;
      assert lines[..m][..n] == lines[..n];
      ScopeErrs(lines[..m], n);
    }
  }

  function ContextLine(line: string, c: Context): Result<Context> {
    if KeyOf(line) == Some(LANGUAGE_CONTEXT) then
      match ListOf(LANGUAGE_CONTEXT, ValueOf(line))
      case Ok(list) => Ok(c.(languages := list))
      case Err(e) => Err(e)
    else if KeyOf(line) == Some(ACTIVATION_CONTEXT) then
      match ListOf(ACTIVATION_CONTEXT, ValueOf(line))
      case Ok(list) => Ok(c.(activations := list))
      case Err(e) => Err(e)
    else if KeyOf(line) == Some(CONTEXT_OPERATOR) then Err(UnsupportedContextOperator)
    else Ok(c)
  }

  function ContextOf(lines: seq<string>): Result<Context> {
    if lines == [] then Ok(Context([], []))
    else match ContextOf(lines[..|lines| - 1])
      case Ok(c) => ContextLine(lines[|lines| - 1], c)
      case Err(e) => Err(e)
  }

  method ParseContextLines(lines: seq<string>) returns (r: Result<Context>)
    ensures r == ContextOf(lines)
  {
    hide ListOf, KeyOf, ValueOf;
    var c := Context([], []);
    for i := 0 to |lines|
      invariant ContextOf(lines[..i]) == Ok(c)
    {
      var line := lines[i];
      assert lines[..i + 1][..i] == lines[..i];
      var key, value := KeyOf(line), ValueOf(line);
      var err: Option<Error> := None;
      if key == Some(LANGUAGE_CONTEXT) || key == Some(ACTIVATION_CONTEXT) {
        var list := ParseList(key.value, value);
        if list.Err? {
          err := Some(list.error);
        } else {
          c := if key.value == LANGUAGE_CONTEXT then c.(languages := list.value) else c.(activations := list.value);
        }
      } else if key == Some(CONTEXT_OPERATOR) {
        err := Some(UnsupportedContextOperator);
      }
      if err.Some? {
        ContextErrs(lines, i + 1);
        return Err(err.value);
      }
    }
    assert lines[..|lines|] == lines;
    return Ok(c);
  }

  lemma {:induction false} ContextErrs(lines: seq<string>, n: nat)
    requires n <= |lines| && ContextOf(lines[..n]).Err?
    ensures ContextOf(lines) == ContextOf(lines[..n])
  {
    if n == |lines| {
      assert lines[..n] == lines;
    } else {
      var m := |lines| - 1;
      assert lines[..m][..n] == lines[..n];
      ContextErrs(lines[..m], n);
    }
  }

  // --- the three parses ---

  function Parsed(content: string): Result<Contract> {
    match FrontmatterLines(content)
    case None => Err(NoFrontmatter)
    case Some(lines) => Scope(lines)
  }

  function ParsedContext(content: string): Result<Context> {
    match FrontmatterLines(content)
    case None => Err(NoFrontmatter)
    case Some(lines) => ContextOf(lines)
  }

  method Parse(content: string) returns (r: Result<Contract>)
    ensures r == Parsed(content)
  {
    var lines := FrontmatterLines(content);
    if lines.None? { return Err(NoFrontmatter); }
    r := ParseScope(lines.value);
  }

  method ParseContext(content: string) returns (r: Result<Context>)
    ensures r == ParsedContext(content)
  {
    var lines := FrontmatterLines(content);
    if lines.None? { return Err(NoFrontmatter); }
    r := ParseContextLines(lines.value);
  }

  // Both parses, the error of the scope first.
  function Both(content: string): Result<(Contract, Context)> {
    match Parsed(content)
    case Err(e) => Err(e)
    case Ok(c) =>
      match ParsedContext(content)
      case Err(e) => Err(e)
      case Ok(needs) => Ok((c, needs))
  }

  method ParseBoth(content: string) returns (r: Result<(Contract, Context)>)
    ensures r == Both(content)
  {
    hide Scope, ContextOf, FrontmatterLines;
    var lines := FrontmatterLines(content);
    if lines.None? { return Err(NoFrontmatter); }
    var c := ParseScope(lines.value);
    if c.Err? { return Err(c.error); }
    var needs := ParseContextLines(lines.value);
    if needs.Err? { return Err(needs.error); }
    return Ok((c.value, needs.value));
  }

  // --- the frontmatter is what is between the first two delimiter lines ---

  ghost predicate FirstTwo(lines: seq<string>, i: int, j: int) {
    && 0 <= i < j < |lines| && IsDelimiter(lines[i]) && IsDelimiter(lines[j])
    && forall k :: 0 <= k < j && k != i ==> !IsDelimiter(lines[k])
  }

  /** There is a frontmatter if and only if two lines are delimiters, and it is the lines between the first two. */
  lemma FrontmatterIsBetween(lines: seq<string>)
    ensures Between(lines).Some? <==>
              exists i, j :: 0 <= i < j < |lines| && IsDelimiter(lines[i]) && IsDelimiter(lines[j])
    ensures Between(lines).Some? ==> exists i, j :: FirstTwo(lines, i, j) && Between(lines) == Some(lines[i + 1..j])
  {
    hide IsDelimiter;
    var opening := FirstDelimiter(lines);
    if opening.Some? {
      var i := opening.value;
      var body := lines[i + 1..];
      var closing := FirstDelimiter(body);
      assert forall k :: 0 <= k < |body| ==> body[k] == lines[i + 1 + k];
      if closing.Some? {
        var j := i + 1 + closing.value;
        assert body[..closing.value] == lines[i + 1..j];
        forall k | 0 <= k < j && k != i
          ensures !IsDelimiter(lines[k])
        {
          if k > i { assert lines[k] == body[k - i - 1]; }
        }
        assert FirstTwo(lines, i, j);
      } else {
        forall k | i < k < |lines|
          ensures !IsDelimiter(lines[k])
        {
          assert lines[k] == body[k - i - 1];
        }
      }
    }
  }

  // --- a list is exactly what is between one pair of brackets ---

  lemma ListIsBracketed(key: string, value: string)
    ensures ListOf(key, value).Ok? <==>
            exists inner :: '[' !in inner && ']' !in inner && TrimSpace(value) == "[" + inner + "]"
    ensures forall inner :: '[' !in inner && ']' !in inner && TrimSpace(value) == "[" + inner + "]" ==>
              ListOf(key, value) == Ok(Items(Split(inner, ',')))
    ensures ListOf(key, value).Err? ==> ListOf(key, value).error == MalformedList(key, TrimSpace(value))
  {
    var v := TrimSpace(value);
    hide Items, Trim;
    if IsList(v) {
      assert v == "[" + Inner(v) + "]" by {
        var front := v[..|v| - 1];
        assert v == front + "]" && v[0] == '[' && |v| > 1;
        assert "[" <= front;
      }
    }
    forall inner | '[' !in inner && ']' !in inner && v == "[" + inner + "]"
      ensures Inner(v) == inner && IsList(v)
    {
      assert v[..|v| - 1] == "[" + inner && v[|v| - 1..] == "]";
      assert "[" <= v && "[" <= "[" + inner && ("[" + inner)[1..] == inner;
    }
  }

  // --- the later of two lines for a key wins ---

  function LastValue(lines: seq<string>, key: string): Option<string> {
    if lines == [] then None
    else
      var n := |lines| - 1;
      if KeyOf(lines[n]) == Some(key) then Some(ValueOf(lines[n])) else LastValue(lines[..n], key)
  }

  function ListOrNone(key: string, value: Option<string>): Result<seq<string>> {
    if value.Some? then ListOf(key, value.value) else Ok([])
  }

  predicate Readable(line: string) {
    && (KeyOf(line) == Some(APPLIES_TO) ==> ListOf(APPLIES_TO, ValueOf(line)).Ok?)
    && (KeyOf(line) == Some(EXCLUDED) ==> ListOf(EXCLUDED, ValueOf(line)).Ok?)
  }

  lemma ScopeKeysDiffer()
    ensures APPLIES_TO != EXCLUDED && APPLIES_TO != INJECTION_POINT && EXCLUDED != INJECTION_POINT
  {
    assert APPLIES_TO[0] == 'a' && EXCLUDED[0] == 'e' && INJECTION_POINT[0] == 'i';
  }

  /** A scope is read if and only if every line of its lists can be, even those a later line overrides; and each field
      is what the last line for its key says, or empty when no line has the key. */
  lemma {:induction false} ScopeIsLastLines(lines: seq<string>)
    ensures ScopeOf(lines).Ok? <==> forall i :: 0 <= i < |lines| ==> Readable(lines[i])
    ensures ScopeOf(lines).Ok? ==>
              var c := ScopeOf(lines).value;
              && Ok(c.appliesTo) == ListOrNone(APPLIES_TO, LastValue(lines, APPLIES_TO))
              && Ok(c.excluded) == ListOrNone(EXCLUDED, LastValue(lines, EXCLUDED))
              && c.injectionPoint == match LastValue(lines, INJECTION_POINT)
                                     case Some(v) => Trim(TrimSpace(v), QUOTE)
                                     case None => ""
  {
    ScopeKeysDiffer();
    hide ListOf, KeyOf, ValueOf, Trim, TrimSpace, APPLIES_TO, EXCLUDED, INJECTION_POINT;
    if lines != [] {
      var n := |lines| - 1;
      ScopeIsLastLines(lines[..n]);
      assert lines == lines[..n] + [lines[n]];
    }
  }

  // --- white space before the colon ---

  /** White space around a key is said to be ignored. Before the colon it is not: a line is read for its key if and only
      if nothing stands between the key and the colon. */
  lemma SpaceBeforeColonHidesKey(before: string, key: string, between: string, value: string)
    requires forall i :: 0 <= i < |before| ==> before[i] in SPACE
    requires forall i :: 0 <= i < |between| ==> between[i] in SPACE
    requires key != "" && key[0] !in SPACE && ':' !in key
    ensures KeyOf(before + key + between + ":" + value) == Some(key) <==> between == ""
  {
    var line, rest := before + key + between + ":" + value, key + between + ":" + value;
    var mark := |key| + |between|;
    assert line == before + rest;
    TrimLeftSkips(before, rest, SPACE);
    TrimLeftStops(rest, SPACE);
    TrimRightKeeps(rest, mark, SPACE);
    var kept := TrimSpace(line);
    assert kept[..mark] == key + between;
    CutAt(kept, ":", mark);
    assert between != "" ==> |key + between| > |key|;
    assert between == "" ==> key + between == key;
  }

  /** A line is a delimiter if and only if it is three dashes and then nothing but spaces, tabs and carriage returns. */
  lemma DelimiterIff(line: string)
    ensures IsDelimiter(line) <==>
            "---" <= line && forall i :: 3 <= i < |line| ==> line[i] in {' ', '\t', '\r'}
  {
    var cutset := {' ', '\t', '\r'};
    if "---" <= line && forall i :: 3 <= i < |line| ==> line[i] in cutset {
      assert line == "---" + line[3..];
      TrimRightSkips("---", line[3..], cutset);
      assert TrimRight("---", cutset) == "---";
    }
    var rest := TrimRightParts(line, cutset);
  }

  // --- an item is what is left of its part without the white space around it, and then without the quotes ---

  // The part is the word, some quotes around it and some white space around those.
  ghost predicate Wraps(part: string, word: string) {
    exists a, b, c, d :: AllIn(a, SPACE) && AllIn(b, QUOTE) && AllIn(c, QUOTE) && AllIn(d, SPACE)
                         && part == a + (b + word + c) + d
  }

  lemma WrappedIsTheItem(part: string, word: string)
    requires Wraps(part, word)
    requires word != "" ==> IsBare(word, SPACE + QUOTE)
    ensures Item(part) == word
  {
    var a, b, c, d :| AllIn(a, SPACE) && AllIn(b, QUOTE) && AllIn(c, QUOTE) && AllIn(d, SPACE)
                      && part == a + (b + word + c) + d;
    QuoteIsNoSpace();
    hide TrimLeft, TrimRight, SPACE, QUOTE;
    var quoted := b + word + c;
    assert quoted != "" ==> quoted[0] !in SPACE && quoted[|quoted| - 1] !in SPACE by {
      assert b != "" ==> quoted[0] == b[0];
      assert b == "" && word != "" ==> quoted[0] == word[0];
      assert b == "" && word == "" ==> quoted == c;
      assert c != "" ==> quoted[|quoted| - 1] == c[|c| - 1];
      assert c == "" && word != "" ==> quoted[|quoted| - 1] == word[|word| - 1];
      assert c == "" && word == "" ==> quoted == b;
    }
    TrimOff(a, quoted, d, SPACE);
    TrimOff(b, word, c, QUOTE);
  }

  lemma QuoteIsNoSpace()
    ensures SPACE !! QUOTE
  {
  }

  lemma {:induction false} ItemsOfWrapped(parts: seq<string>, words: seq<string>)
    requires |parts| == |words| && forall i :: 0 <= i < |parts| ==> Wraps(parts[i], words[i])
    requires forall i :: 0 <= i < |words| ==> IsBare(words[i], SPACE + QUOTE)
    ensures Items(parts) == words
  {
    hide Wraps, Item, SPACE, QUOTE;
    if words != [] {
      var n := |words| - 1;
      ItemsOfWrapped(parts[..n], words[..n]);
      WrappedIsTheItem(parts[n], words[n]);
    }
  }

  lemma BracketedIsRead(key: string, inner: string)
    requires '[' !in inner && ']' !in inner
    ensures ListOf(key, "[" + inner + "]") == Ok(Items(Split(inner, ',')))
  {
    TrimPlain("[" + inner + "]", SPACE);
    hide ListOf;
    ListIsBracketed(key, "[" + inner + "]");
  }

  /** A list is read as its words, whatever quotes and white space are around each. */
  lemma WrappedListIsRead(key: string, parts: seq<string>, words: seq<string>)
    requires |parts| == |words| > 0 && forall i :: 0 <= i < |parts| ==> Wraps(parts[i], words[i])
    requires forall i :: 0 <= i < |words| ==> IsBare(words[i], SPACE + QUOTE)
    requires forall i :: 0 <= i < |parts| ==> ',' !in parts[i] && '[' !in parts[i] && ']' !in parts[i]
    ensures ListOf(key, "[" + Join(parts, ",") + "]") == Ok(words)
  {
    var inner := Join(parts, ",");
    JoinFree(parts, ",", '[');
    JoinFree(parts, ",", ']');
    hide *;
    BracketedIsRead(key, inner);
    SplitJoin(parts, ',');
    ItemsOfWrapped(parts, words);
  }

  // --- the context is what the last lines say ---

  predicate ContextReadable(line: string) {
    && KeyOf(line) != Some(CONTEXT_OPERATOR)
    && (KeyOf(line) == Some(LANGUAGE_CONTEXT) ==> ListOf(LANGUAGE_CONTEXT, ValueOf(line)).Ok?)
    && (KeyOf(line) == Some(ACTIVATION_CONTEXT) ==> ListOf(ACTIVATION_CONTEXT, ValueOf(line)).Ok?)
  }

  lemma ContextKeysDiffer()
    ensures LANGUAGE_CONTEXT != ACTIVATION_CONTEXT && LANGUAGE_CONTEXT != CONTEXT_OPERATOR
            && ACTIVATION_CONTEXT != CONTEXT_OPERATOR
  {
    assert LANGUAGE_CONTEXT[0] == 'l' && ACTIVATION_CONTEXT[0] == 'a' && CONTEXT_OPERATOR[0] == 'c';
  }

  /** A context is read if and only if no line asks for an operator and every line of its lists can be read; and each
      list is what the last line for its key says, or empty when no line has the key. */
  lemma {:induction false} ContextIsLastLines(lines: seq<string>)
    ensures ContextOf(lines).Ok? <==> forall i :: 0 <= i < |lines| ==> ContextReadable(lines[i])
    ensures ContextOf(lines).Ok? ==>
              var c := ContextOf(lines).value;
              && Ok(c.languages) == ListOrNone(LANGUAGE_CONTEXT, LastValue(lines, LANGUAGE_CONTEXT))
              && Ok(c.activations) == ListOrNone(ACTIVATION_CONTEXT, LastValue(lines, ACTIVATION_CONTEXT))
  {
    ContextKeysDiffer();
    hide ListOf, KeyOf, ValueOf, LANGUAGE_CONTEXT, ACTIVATION_CONTEXT, CONTEXT_OPERATOR;
    if lines != [] {
      var n := |lines| - 1;
      ContextIsLastLines(lines[..n]);
      assert lines == lines[..n] + [lines[n]];
    }
  }

  // --- what is written plainly is read back ---

  // A text that trimming leaves as it is.
  predicate IsPlain(s: string) {
    '\n' !in s && (s != "" ==> s[0] !in SPACE + QUOTE && s[|s| - 1] !in SPACE + QUOTE)
  }

  predicate IsWord(s: string) {
    s != "" && IsPlain(s) && ',' !in s && '[' !in s && ']' !in s
  }

  predicate AreWords(words: seq<string>) {
    forall w :: w in words ==> IsWord(w)
  }

  function ListLine(key: string, words: seq<string>): string {
    key + ":" + ("[" + Join(words, ",") + "]")
  }

  // The lines of a document of a scope and no context.
  function LinesFor(c: Contract): seq<string> {
    [ListLine(APPLIES_TO, c.appliesTo), ListLine(EXCLUDED, c.excluded), INJECTION_POINT + ":" + c.injectionPoint]
  }

  function Document(c: Contract): string {
    Join(["---"] + LinesFor(c) + ["---"], "\n")
  }

  lemma {:induction false} JoinFree(parts: seq<string>, sep: string, c: char)
    requires c !in sep && forall part :: part in parts ==> c !in part
    ensures c !in Join(parts, sep)
  {
    if |parts| > 1 { JoinFree(parts[1..], sep, c); }
  }

  lemma {:induction false} ItemsOfWords(words: seq<string>)
    requires AreWords(words)
    ensures Items(words) == words
  {
    if words != [] {
      var n := |words| - 1;
      assert words[n] in words;
      ItemsOfWords(words[..n]);
      TrimPlain(words[n], SPACE);
      TrimPlain(words[n], QUOTE);
    }
  }

  lemma ListIsRead(key: string, words: seq<string>)
    requires AreWords(words)
    ensures ListOf(key, "[" + Join(words, ",") + "]") == Ok(words)
  {
    var inner := Join(words, ",");
    JoinFree(words, ",", '[');
    JoinFree(words, ",", ']');
    TrimPlain("[" + inner + "]", SPACE);
    ListIsBracketed(key, "[" + inner + "]");
    if words == [] {
      assert Split("", ',') == [""];
      TrimPlain("", SPACE);
      TrimPlain("", QUOTE);
      assert [""][..0] == [];
      assert Items([""]) == [];
    } else {
      SplitJoin(words, ',');
      ItemsOfWords(words);
    }
  }

  // A line of a key and a value, neither of which has white space at its ends.
  lemma LineIsRead(key: string, value: string)
    requires key != "" && key[0] !in SPACE && ':' !in key
    requires value != "" ==> value[|value| - 1] !in SPACE
    ensures KeyOf(key + ":" + value) == Some(key) && ValueOf(key + ":" + value) == value
  {
    var line := key + ":" + value;
    assert value != "" ==> line[|line| - 1] == value[|value| - 1];
    TrimPlain(line, SPACE);
    assert line[..|key|] == key && line[|key| + 1..] == value;
    CutAt(line, ":", |key|);
  }

  // A line that is no delimiter, because of its first character.
  predicate IsInner(line: string) {
    line != "" && line[0] !in {' ', '\t', '\r', '-'} && '\n' !in line
  }

  lemma InnerIsNoDelimiter(line: string)
    requires IsInner(line)
    ensures !IsDelimiter(line)
  {
    TrimRightKeeps(line, 0, {' ', '\t', '\r'});
  }

  lemma FrontmatterOfDocument(lines: seq<string>)
    requires forall line :: line in lines ==> IsInner(line)
    ensures FrontmatterLines(Join(["---"] + lines + ["---"], "\n")) == Some(lines)
  {
    var all := ["---"] + lines + ["---"];
    SplitJoin(all, '\n');
    assert IsDelimiter("---");
    forall line | line in lines
      ensures !IsDelimiter(line)
    {
      InnerIsNoDelimiter(line);
    }
    hide IsDelimiter, Split;
    assert all[0] == "---";
    var body := all[1..];
    assert body == lines + ["---"] && body[|lines|] == "---";
    assert FirstDelimiter(body) == Some(|lines|);
    assert body[..|lines|] == lines;
  }

  predicate IsScopeKey(key: string) {
    key == APPLIES_TO || key == EXCLUDED || key == INJECTION_POINT
  }

  lemma KeyIsApart(key: string)
    requires IsScopeKey(key)
    ensures key != "" && key[0] !in SPACE + {'-'} && ':' !in key && '\n' !in key
    ensures key != LANGUAGE_CONTEXT && key != ACTIVATION_CONTEXT && key != CONTEXT_OPERATOR
  {
    assert APPLIES_TO[1] == 'p' && ACTIVATION_CONTEXT[1] == 'c';
    assert EXCLUDED[0] == 'e' && INJECTION_POINT[0] == 'i' && LANGUAGE_CONTEXT[0] == 'l' && CONTEXT_OPERATOR[0] == 'c';
  }

  lemma KeyLineIsRead(key: string, value: string)
    requires IsScopeKey(key) && '\n' !in value && (value != "" ==> value[|value| - 1] !in SPACE)
    ensures KeyOf(key + ":" + value) == Some(key) && ValueOf(key + ":" + value) == value && IsInner(key + ":" + value)
  {
    KeyIsApart(key);
    hide IsScopeKey, KeyOf, ValueOf;
    LineIsRead(key, value);
  }

  lemma ListLineIsRead(key: string, words: seq<string>)
    requires IsScopeKey(key) && AreWords(words)
    ensures var line := ListLine(key, words);
            KeyOf(line) == Some(key) && ListOf(key, ValueOf(line)) == Ok(words) && IsInner(line)
  {
    JoinFree(words, ",", '\n');
    ListIsRead(key, words);
    hide IsScopeKey, KeyOf, ValueOf, ListOf, IsInner;
    KeyLineIsRead(key, "[" + Join(words, ",") + "]");
  }

  lemma PlainIsTrimmed(s: string)
    requires IsPlain(s)
    ensures TrimSpace(s) == s && Trim(s, QUOTE) == s && '\n' !in s && (s != "" ==> s[|s| - 1] !in SPACE)
  {
    TrimPlain(s, SPACE);
    TrimPlain(s, QUOTE);
  }

  lemma ScopeOfThree(lines: seq<string>, c: Contract)
    requires |lines| == 3
    requires KeyOf(lines[0]) == Some(APPLIES_TO) && ListOf(APPLIES_TO, ValueOf(lines[0])) == Ok(c.appliesTo)
    requires KeyOf(lines[1]) == Some(EXCLUDED) && ListOf(EXCLUDED, ValueOf(lines[1])) == Ok(c.excluded)
    requires KeyOf(lines[2]) == Some(INJECTION_POINT) && Trim(TrimSpace(ValueOf(lines[2])), QUOTE) == c.injectionPoint
    ensures ScopeOf(lines) == Ok(c)
  {
    ScopeKeysDiffer();
    hide APPLIES_TO, EXCLUDED, INJECTION_POINT, ListOf, KeyOf, ValueOf, Trim, TrimSpace;
    assert lines[..2][..1] == lines[..1] && lines[..1][..0] == [];
    assert ScopeOf(lines[..1]) == Ok(Contract(c.appliesTo, [], ""));
    assert ScopeOf(lines[..2]) == Ok(Contract(c.appliesTo, c.excluded, ""));
  }

  // Lines with keys of a scope have no context.
  lemma {:induction false} NoContext(lines: seq<string>)
    requires forall i :: 0 <= i < |lines| ==> KeyOf(lines[i]).Some? && IsScopeKey(KeyOf(lines[i]).value)
    ensures ContextOf(lines) == Ok(Context([], []))
  {
    if lines != [] {
      var n := |lines| - 1;
      KeyIsApart(KeyOf(lines[n]).value);
      hide LANGUAGE_CONTEXT, ACTIVATION_CONTEXT, CONTEXT_OPERATOR, KeyOf, ListOf, IsScopeKey;
      NoContext(lines[..n]);
    }
  }

  lemma BothOfLines(content: string, lines: seq<string>, c: Contract)
    requires FrontmatterLines(content) == Some(lines) && ScopeOf(lines) == Ok(c)
             && ContextOf(lines) == Ok(Context([], []))
    ensures Both(content) == if c.appliesTo == [] then Err(NoAppliesTo) else Ok((c, Context([], [])))
  {
    hide FrontmatterLines, ScopeOf, ContextOf;
  }

  // The three lines of a scope.
  lemma ThreeLines(a: string, b: string, d: string, c: Contract)
    requires KeyOf(a) == Some(APPLIES_TO) && ListOf(APPLIES_TO, ValueOf(a)) == Ok(c.appliesTo) && IsInner(a)
    requires KeyOf(b) == Some(EXCLUDED) && ListOf(EXCLUDED, ValueOf(b)) == Ok(c.excluded) && IsInner(b)
    requires KeyOf(d) == Some(INJECTION_POINT) && Trim(TrimSpace(ValueOf(d)), QUOTE) == c.injectionPoint && IsInner(d)
    ensures Both(Join(["---"] + [a, b, d] + ["---"], "\n")) ==
            if c.appliesTo == [] then Err(NoAppliesTo) else Ok((c, Context([], [])))
  {
    assert IsScopeKey(APPLIES_TO) && IsScopeKey(EXCLUDED) && IsScopeKey(INJECTION_POINT);
    hide *;
    var lines := [a, b, d];
    FrontmatterOfDocument(lines);
    ScopeOfThree(lines, c);
    NoContext(lines);
    BothOfLines(Join(["---"] + lines + ["---"], "\n"), lines, c);
  }

  /** Every scope of plain words can be written as a document that is read back as it, with no context. */
  lemma DocumentIsRead(c: Contract)
    requires AreWords(c.appliesTo) && AreWords(c.excluded) && IsPlain(c.injectionPoint)
    ensures Both(Document(c)) == if c.appliesTo == [] then Err(NoAppliesTo) else Ok((c, Context([], [])))
  {
    PlainIsTrimmed(c.injectionPoint);
    assert IsScopeKey(APPLIES_TO) && IsScopeKey(EXCLUDED) && IsScopeKey(INJECTION_POINT);
    assert Document(c) == Join(["---"] + [ListLine(APPLIES_TO, c.appliesTo), ListLine(EXCLUDED, c.excluded),
                                          INJECTION_POINT + ":" + c.injectionPoint] + ["---"], "\n");
    hide *;
    ListLineIsRead(APPLIES_TO, c.appliesTo);
    ListLineIsRead(EXCLUDED, c.excluded);
    KeyLineIsRead(INJECTION_POINT, c.injectionPoint);
    ThreeLines(ListLine(APPLIES_TO, c.appliesTo), ListLine(EXCLUDED, c.excluded),
        INJECTION_POINT + ":" + c.injectionPoint, c);
  }

  // --- carriage returns change nothing ---

  // s with every newline written as a carriage return and a newline.
  function Crlf(s: string): string {
    ReplaceAll(s, "\n", "\r\n")
  }

  // b is a, some of its lines with a carriage return at their end.
  ghost predicate SameButReturns(a: seq<string>, b: seq<string>) {
    |a| == |b| && forall i :: 0 <= i < |a| ==> b[i] == a[i] || b[i] == a[i] + "\r"
  }

  lemma {:induction false} CrlfLines(s: string)
    ensures SameButReturns(Split(s, '\n'), Split(Crlf(s), '\n'))
  {
    if s != "" {
      var c, t := s[0], s[1..];
      CrlfLines(t);
      assert s == [c] + t;
      SplitHead(c, t, '\n');
      if c == '\n' {
        assert "\n" <= s;
        assert Crlf(s) == "\r\n" + Crlf(t) == ['\r'] + (['\n'] + Crlf(t));
        SplitHead('\n', Crlf(t), '\n');
        SplitHead('\r', ['\n'] + Crlf(t), '\n');
      } else {
        assert Crlf(s) == [c] + Crlf(t);
        SplitHead(c, Crlf(t), '\n');
      }
    }
  }

  lemma {:induction false} TrimLeftMore(s: string, c: char, cutset: set<char>)
    requires c in cutset
    ensures TrimLeft(s + [c], cutset) == if TrimLeft(s, cutset) == "" then "" else TrimLeft(s, cutset) + [c]
  {
    if s == "" {
      assert s + [c] == [c];
    } else {
      assert (s + [c])[1..] == s[1..] + [c];
      TrimLeftMore(s[1..], c, cutset);
    }
  }

  lemma TrimRightMore(s: string, c: char, cutset: set<char>)
    requires c in cutset
    ensures TrimRight(s + [c], cutset) == TrimRight(s, cutset)
  {
    assert (s + [c])[..|s|] == s;
  }

  lemma ReturnIsTrimmed(line: string)
    ensures TrimSpace(line + "\r") == TrimSpace(line) && (IsDelimiter(line + "\r") <==> IsDelimiter(line))
  {
    TrimLeftMore(line, '\r', SPACE);
    TrimRightMore(TrimLeft(line, SPACE), '\r', SPACE);
    TrimRightMore(line, '\r', {' ', '\t', '\r'});
  }

  lemma {:induction false} SameDelimiter(a: seq<string>, b: seq<string>)
    requires SameButReturns(a, b)
    ensures FirstDelimiter(a) == FirstDelimiter(b)
  {
    hide IsDelimiter;
    if a != [] {
      ReturnIsTrimmed(a[0]);
      SameDelimiter(a[1..], b[1..]);
    }
  }

  lemma {:induction false} SameScope(a: seq<string>, b: seq<string>)
    requires SameButReturns(a, b)
    ensures ScopeOf(a) == ScopeOf(b) && ContextOf(a) == ContextOf(b)
  {
    if a != [] {
      var n := |a| - 1;
      ReturnIsTrimmed(a[n]);
      SameScope(a[..n], b[..n]);
      assert TrimSpace(a[n]) == TrimSpace(b[n]);
      assert KeyOf(a[n]) == KeyOf(b[n]) && ValueOf(a[n]) == ValueOf(b[n]);
      hide KeyOf, ValueOf, ListOf, TrimSpace, IsDelimiter;
    }
  }

  lemma SameBetween(a: seq<string>, b: seq<string>)
    requires SameButReturns(a, b)
    ensures Between(a).Some? <==> Between(b).Some?
    ensures Between(a).Some? ==> SameButReturns(Between(a).value, Between(b).value)
  {
    hide IsDelimiter;
    SameDelimiter(a, b);
    var from := FirstDelimiter(a);
    if from.Some? { SameDelimiter(a[from.value + 1..], b[from.value + 1..]); }
  }

  /** A document says the same, or is refused with the same error, when its lines end in CRLF. */
  lemma CrlfParsesTheSame(content: string)
    ensures Parsed(Crlf(content)) == Parsed(content)
    ensures ParsedContext(Crlf(content)) == ParsedContext(content)
    ensures Both(Crlf(content)) == Both(content)
  {
    hide Split, Crlf, ScopeOf, ContextOf, Between, SameButReturns;
    var a, b := Split(content, '\n'), Split(Crlf(content), '\n');
    CrlfLines(content);
    SameBetween(a, b);
    if Between(a).Some? { SameScope(Between(a).value, Between(b).value); }
  }
}
