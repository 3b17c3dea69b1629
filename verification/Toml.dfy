/**
  engine/agentgen/toml.go: the two forms of TOML string the generator prints, and the reader of the files it prints.
  The printer escapes in two passes over the text; the reader counts runs of quotation marks, and a run of three to
  five both ends the string and adds to it.
 */
module Toml {
  import opened Wrappers
  import opened Text

  // What a reader returns: a value and the text after it.
  datatype Parsed = Ok(value: string, rest: string) | Bad

  const QUOTES := "\"\"\""

  // --- printing ---

  predicate Refused(c: char, multiline: bool) {
    c != '\t' && !(c == '\n' && multiline) && (c < ' ' || c == '\U{7F}')
  }

  // Whether s holds a control character TOML does not allow.
  method RefuseControlCharacters(s: string, multiline: bool) returns (refused: bool)
    ensures refused <==> exists i :: 0 <= i < |s| && Refused(s[i], multiline)
  {
    for i := 0 to |s|
      invariant forall j :: 0 <= j < i ==> !Refused(s[j], multiline)
    {
      if s[i] == '\t' || (s[i] == '\n' && multiline) { continue; }
      if s[i] < ' ' || s[i] == '\U{7F}' { return true; }
    }
    return false;
  }

  predicate Clean(s: string, multiline: bool) {
    forall i :: 0 <= i < |s| ==> !Refused(s[i], multiline)
  }

  function EscapeBasic(s: string): string {
    ReplaceAll(ReplaceAll(s, "\\", "\\\\"), "\"", "\\\"")
  }

  function EscapeMultiline(s: string): string {
    ReplaceAll(ReplaceAll(s, "\\", "\\\\"), QUOTES, "\"\"\\\"")
  }

  function TomlString(s: string): Option<string> {
    if Clean(s, false) then Some("\"" + EscapeBasic(s) + "\"") else None
  }

  function TomlMultiline(s: string): Option<string> {
    if Clean(s, true) then Some(QUOTES + "\n" + EscapeMultiline(s) + QUOTES) else None
  }

  // --- reading ---

  // The number of quotation marks s starts with.
  function Run(s: string): (n: nat)
    ensures n <= |s| && forall i :: 0 <= i < n ==> s[i] == '\"'
    ensures n < |s| ==> s[n] != '\"'
  {
    if s != "" && s[0] == '\"' then 1 + Run(s[1..]) else 0
  }

  function Quotes(n: nat): string {
    seq(n, i => '\"')
  }

  function Prepend(a: string, p: Parsed): Parsed {
    if p.Ok? then Ok(a + p.value, p.rest) else Bad
  }

  // The inside of a multi-line string and what follows its closing delimiter.
  function ReadBody(s: string): Parsed {
    if s == "" then Bad
    else if s[0] == '\\' then
      if |s| < 2 || (s[1] != '\\' && s[1] != '\"') then Bad else Prepend([s[1]], ReadBody(s[2..]))
    else if s[0] == '\"' then
      var n := Run(s);
      if n < 3 then Prepend(Quotes(n), ReadBody(s[n..]))
      else if n <= 5 then Ok(Quotes(n - 3), s[n..])
      else Bad
    else Prepend([s[0]], ReadBody(s[1..]))
  }

  function ReadMultiline(s: string): Parsed {
    if QUOTES + "\n" <= s then ReadBody(s[4..]) else Bad
  }

  // What follows a basic string on one line.
  function SkipInside(s: string): Parsed {
    if s == "" then Bad
    else if s[0] == '\\' then
      if |s| < 2 || (s[1] != '\\' && s[1] != '\"') then Bad else SkipInside(s[2..])
    else if s[0] == '\"' then Ok("", s[1..])
    else if s[0] == '\n' then Bad
    else SkipInside(s[1..])
  }

  function SkipBasic(s: string): Parsed {
    if "\"" <= s then SkipInside(s[1..]) else Bad
  }

  // A basic string as TOML reads it: its characters, and what follows its closing quotation mark.
  function ReadInside(s: string): (p: Parsed)
    ensures p.Ok? ==> |p.rest| < |s|
  {
    if s == "" || s[0] == '\n' then Bad
    else if s[0] == '\"' then Ok("", s[1..])
    else if s[0] != '\\' then Prepend([s[0]], ReadInside(s[1..]))
    else if |s| < 2 || (s[1] != '\\' && s[1] != '\"') then Bad
    else Prepend([s[1]], ReadInside(s[2..]))
  }

  function ReadBasic(s: string): (p: Parsed)
    ensures p.Ok? ==> |p.rest| < |s|
  {
    if "\"" <= s then ReadInside(s[1..]) else Bad
  }

  // readMultiline: one pass with an index and a builder.
  method ReadMultilineLoop(s: string) returns (r: Parsed)
    ensures r == ReadMultiline(s)
  {
    if !(QUOTES + "\n" <= s) { return Bad; }
    var b, i := "", 4;
    while i < |s|
      invariant 4 <= i <= |s|
      invariant ReadBody(s[4..]) == Prepend(b, ReadBody(s[i..]))
    {
      ghost var rest := s[i..];
      if s[i] == '\\' {
        if i + 1 >= |s| || (s[i + 1] != '\\' && s[i + 1] != '\"') { return Bad; }
        PrependTwice(b, [s[i + 1]], ReadBody(s[i + 2..]));
        assert rest[2..] == s[i + 2..];
        b, i := b + [s[i + 1]], i + 2;
      } else if s[i] == '\"' {
        var n := CountRun(s, i);
        assert rest[n..] == s[i + n..];
        if n < 3 {
          PrependTwice(b, Quotes(n), ReadBody(s[i + n..]));
          b, i := b + Quotes(n), i + n;
        } else if n <= 5 {
          return Ok(b + Quotes(n - 3), s[i + n..]);
        } else {
          return Bad;
        }
      } else {
        PrependTwice(b, [s[i]], ReadBody(s[i + 1..]));
        assert rest[1..] == s[i + 1..];
        b, i := b + [s[i]], i + 1;
      }
    }
    return Bad;
  }

  // The length of the run of quotation marks at i.
  method CountRun(s: string, i: nat) returns (n: nat)
    requires i <= |s|
    ensures n == Run(s[i..])
  {
    n := 0;
    while i + n < |s| && s[i + n] == '\"'
      invariant i + n <= |s| && n + Run(s[i + n..]) == Run(s[i..])
    {
      assert s[i + n..][1..] == s[i + n + 1..];
      n := n + 1;
    }
  }

  lemma PrependTwice(a: string, b: string, p: Parsed)
    ensures Prepend(a, Prepend(b, p)) == Prepend(a + b, p)
  {
    if p.Ok? { assert a + (b + p.value) == a + b + p.value; }
  }

  // skipBasic: one pass with an index.
  method SkipBasicLoop(s: string) returns (r: Parsed)
    ensures r == SkipBasic(s)
  {
    if !("\"" <= s) { return Bad; }
    var i := 1;
    while i < |s|
      invariant 1 <= i <= |s| && SkipBasic(s) == SkipInside(s[i..])
    {
      ghost var rest := s[i..];
      if s[i] == '\\' {
        if i + 1 >= |s| || (s[i + 1] != '\\' && s[i + 1] != '\"') { return Bad; }
        assert rest[2..] == s[i + 2..];
        i := i + 1;
      } else if s[i] == '\"' {
        assert rest[1..] == s[i + 1..];
        return Ok("", s[i + 1..]);
      } else if s[i] == '\n' {
        return Bad;
      } else {
        assert rest[1..] == s[i + 1..];
      }
      i := i + 1;
    }
    return Bad;
  }

  // --- the reader undoes the printer ---

  lemma {:induction false} Doubled(s: string)
    ensures s != "" ==>
              ReplaceAll(s, "\\", "\\\\") == (if s[0] == '\\' then "\\\\" else [s[0]])
                  + ReplaceAll(s[1..], "\\", "\\\\")
  {
  }

  // Escaping for a multi-line string in one pass.
  function Escape(s: string): string {
    if s == "" then ""
    else if QUOTES <= s then "\"\"\\\"" + Escape(s[3..])
    else if s[0] == '\\' then "\\\\" + Escape(s[1..])
    else [s[0]] + Escape(s[1..])
  }

  // Doubling backslashes moves no quotation mark.
  lemma DoubledMark(s: string)
    ensures s == "" <==> ReplaceAll(s, "\\", "\\\\") == ""
    ensures var d := ReplaceAll(s, "\\", "\\\\"); s != "" ==> (d[0] == '\"' <==> s[0] == '\"')
    ensures s != "" && s[0] == '\"' ==> ReplaceAll(s, "\\", "\\\\")[1..] == ReplaceAll(s[1..], "\\", "\\\\")
  {
    Doubled(s);
  }

  lemma DoubledRun(s: string)
    ensures QUOTES <= s <==> QUOTES <= ReplaceAll(s, "\\", "\\\\")
    ensures QUOTES <= s ==> ReplaceAll(s, "\\", "\\\\")[3..] == ReplaceAll(s[3..], "\\", "\\\\")
  {
    hide ReplaceAll;
    var d := ReplaceAll(s, "\\", "\\\\");
    DoubledMark(s);
    if s != "" && s[0] == '\"' {
      DoubledMark(s[1..]);
      if |s| > 1 && s[1] == '\"' {
        assert s[1..][1..] == s[2..] && d[1..][1..] == d[2..];
        DoubledMark(s[2..]);
        if |s| > 2 && s[2] == '\"' {
          assert s[2..][1..] == s[3..] && d[2..][1..] == d[3..];
        }
      }
    }
  }

  lemma {:induction false} TwoPassesAreOne(s: string)
    ensures EscapeMultiline(s) == Escape(s)
  {
    var d := ReplaceAll(s, "\\", "\\\\");
    DoubledRun(s);
    Doubled(s);
    if s == "" {
    } else if QUOTES <= s {
      TwoPassesAreOne(s[3..]);
      assert d[3..] == ReplaceAll(s[3..], "\\", "\\\\");
    } else {
      TwoPassesAreOne(s[1..]);
      var e := ReplaceAll(s[1..], "\\", "\\\\");
      if s[0] == '\\' {
        assert d == "\\\\" + e && d[1..] == "\\" + e && d[1..][1..] == e;
        assert ReplaceAll(d, QUOTES, "\"\"\\\"") == "\\" + ReplaceAll(d[1..], QUOTES, "\"\"\\\"");
      } else {
        assert d == [s[0]] + e && d[1..] == e;
      }
    }
  }

  lemma RunOf(n: nat, s: string)
    requires s != "" ==> s[0] != '\"'
    ensures Run(Quotes(n) + s) == n
  {
    if n > 0 {
      RunOf(n - 1, s);
      assert (Quotes(n) + s)[1..] == Quotes(n - 1) + s;
    } else {
      assert Quotes(0) + s == s;
    }
  }

  lemma SplitRun(s: string)
    ensures s == Quotes(Run(s)) + s[Run(s)..]
  {
  }

  lemma EscapeMark(s: string)
    requires s != "" && s[0] == '\"' && Run(s) < 3
    ensures Escape(s) == ['\"'] + Escape(s[1..])
  {
    hide Run;
    ThreeIsRun(s);
  }

  // A run of one or two quotation marks is written as it is.
  lemma {:induction false} EscapeShortRun(n: nat, s: string)
    requires n < 3 && (s != "" ==> s[0] != '\"')
    ensures Escape(Quotes(n) + s) == Quotes(n) + Escape(s)
  {
    hide Run, Escape;
    var t := Quotes(n) + s;
    if n > 0 {
      RunOf(n, s);
      EscapeMark(t);
      assert t[1..] == Quotes(n - 1) + s;
      EscapeShortRun(n - 1, s);
      assert Quotes(n) == ['\"'] + Quotes(n - 1);
    } else {
      assert t == s;
    }
  }

  lemma ThreeIsRun(s: string)
    ensures QUOTES <= s <==> Run(s) >= 3
  {
    if QUOTES <= s {
      assert s[0] == QUOTES[0] && s[1] == QUOTES[1] && s[2] == QUOTES[2];
    }
  }

  // How the reader takes each piece of a body.

  lemma ReadRun(n: nat, t: string)
    requires n > 0 && (t != "" ==> t[0] != '\"')
    ensures ReadBody(Quotes(n) + t) ==
            if n < 3 then Prepend(Quotes(n), ReadBody(t)) else if n <= 5 then Ok(Quotes(n - 3), t) else Bad
  {
    RunOf(n, t);
    assert (Quotes(n) + t)[n..] == t;
  }

  lemma ReadEscaped(c: char, t: string)
    requires c == '\\' || c == '\"'
    ensures ReadBody(['\\', c] + t) == Prepend([c], ReadBody(t))
  {
    assert (['\\', c] + t)[2..] == t;
  }

  lemma ReadPlain(c: char, t: string)
    requires c != '\\' && c != '\"'
    ensures ReadBody([c] + t) == Prepend([c], ReadBody(t))
  {
    assert ([c] + t)[1..] == t;
  }

  lemma EscapeRun(s: string)
    requires Run(s) >= 3
    ensures Escape(s) == Quotes(2) + (['\\', '\"'] + Escape(s[3..])) && s == Quotes(2) + (['\"'] + s[3..])
  {
    ThreeIsRun(s);
    hide Run;
    assert Escape(s) == "\"\"\\\"" + Escape(s[3..]) && s == QUOTES + s[3..];
    assert Quotes(2) == "\"\"" && "\"\"\\\"" == "\"\"" + ['\\', '\"'] && QUOTES == "\"\"" + ['\"'];
  }

  lemma EscapeChar(c: char, t: string)
    requires c != '\"'
    ensures Escape([c] + t) == (if c == '\\' then ['\\', '\\'] else [c]) + Escape(t)
  {
    var s := [c] + t;
    assert s[1..] == t && Run(s) == 0;
    hide Run;
    ThreeIsRun(s);
  }

  lemma EscapeStart(s: string)
    ensures Escape(s) == "" <==> s == ""
    ensures s != "" ==> (Escape(s)[0] == '\"' <==> s[0] == '\"')
  {
  }

  lemma ReadLongRun(s: string, rest: string)
    requires Run(s) >= 3 && ReadBody(Escape(s[3..]) + QUOTES + rest) == Ok(s[3..], rest)
    ensures ReadBody(Escape(s) + QUOTES + rest) == Ok(s, rest)
  {
    hide ReadBody, Escape, Run;
    var tail := Escape(s[3..]) + QUOTES + rest;
    EscapeRun(s);
    ReadEscaped('\"', tail);
    ReadRun(2, ['\\', '\"'] + tail);
    assert Escape(s) + QUOTES + rest == Quotes(2) + (['\\', '\"'] + tail);
  }

  lemma ReadLastRun(n: nat, rest: string)
    requires 0 < n < 3 && (rest != "" ==> rest[0] != '\"')
    ensures ReadBody(Escape(Quotes(n)) + QUOTES + rest) == Ok(Quotes(n), rest)
  {
    hide ReadBody, Escape;
    EscapeShortRun(n, "");
    EscapeStart("");
    assert Quotes(n) + "" == Quotes(n);
    ReadRun(n + 3, rest);
    assert Quotes(n + 3) + rest == Quotes(n) + QUOTES + rest;
    assert Quotes(n + 3 - 3) == Quotes(n);
  }

  lemma ReadShortRun(n: nat, t: string, rest: string)
    requires 0 < n < 3 && t != "" && t[0] != '\"'
    requires ReadBody(Escape(t) + QUOTES + rest) == Ok(t, rest)
    ensures ReadBody(Escape(Quotes(n) + t) + QUOTES + rest) == Ok(Quotes(n) + t, rest)
  {
    hide ReadBody, Escape;
    EscapeShortRun(n, t);
    EscapeStart(t);
    var tail := Escape(t) + QUOTES + rest;
    ReadRun(n, tail);
    assert Escape(Quotes(n) + t) + QUOTES + rest == Quotes(n) + tail;
  }

  lemma ReadChar(c: char, s: string, rest: string)
    requires c != '\"' && ReadBody(Escape(s) + QUOTES + rest) == Ok(s, rest)
    ensures ReadBody(Escape([c] + s) + QUOTES + rest) == Ok([c] + s, rest)
  {
    hide ReadBody, Escape;
    var tail := Escape(s) + QUOTES + rest;
    EscapeChar(c, s);
    if c == '\\' {
      ReadEscaped(c, tail);
      assert Escape([c] + s) + QUOTES + rest == ['\\', '\\'] + tail;
    } else {
      ReadPlain(c, tail);
      assert Escape([c] + s) + QUOTES + rest == [c] + tail;
    }
  }

  /** The closing delimiter of a multi-line string is found exactly at its end and its body is read back, whatever
      backslashes and runs of quotation marks it holds, at its end too. */
  lemma {:induction false} BodyRoundTrip(s: string, rest: string)
    requires rest != "" ==> rest[0] != '\"'
    ensures ReadBody(Escape(s) + QUOTES + rest) == Ok(s, rest)
    decreases |s|
  {
    hide ReadBody, Escape;
    var n := Run(s);
    if n >= 3 {
      BodyRoundTrip(s[3..], rest);
      ReadLongRun(s, rest);
    } else if n > 0 {
      var t := s[n..];
      SplitRun(s);
      if t == "" {
        ReadLastRun(n, rest);
        assert s == Quotes(n);
      } else {
        BodyRoundTrip(t, rest);
        ReadShortRun(n, t, rest);
      }
    } else if s == "" {
      EscapeStart(s);
      ReadRun(3, rest);
      assert Escape(s) + QUOTES + rest == Quotes(3) + rest;
    } else {
      BodyRoundTrip(s[1..], rest);
      ReadChar(s[0], s[1..], rest);
      assert s == [s[0]] + s[1..];
    }
  }

  lemma MultilineRoundTrip(s: string, rest: string)
    requires Clean(s, true) && (rest != "" ==> rest[0] != '\"')
    ensures ReadMultiline(TomlMultiline(s).value + rest) == Ok(s, rest)
  {
    TwoPassesAreOne(s);
    BodyRoundTrip(s, rest);
    var text := TomlMultiline(s).value + rest;
    assert text == (QUOTES + "\n") + (Escape(s) + QUOTES + rest);
    assert text[4..] == Escape(s) + QUOTES + rest;
  }

  /** Two different texts are never printed alike. */
  lemma MultilineInjective(s: string, t: string)
    requires Clean(s, true) && Clean(t, true) && TomlMultiline(s) == TomlMultiline(t)
    ensures s == t
  {
    MultilineRoundTrip(s, "");
    MultilineRoundTrip(t, "");
  }

  lemma EscapeBasicStep(c: char, s: string)
    ensures EscapeBasic([c] + s) == (if c == '\\' then "\\\\" else if c == '\"' then "\\\"" else [c]) + EscapeBasic(s)
  {
    var e := ReplaceAll(s, "\\", "\\\\");
    ReplaceOne(c, s, '\\', "\\\\");
    if c == '\\' {
      assert "\\\\" + e == ['\\'] + (['\\'] + e);
      ReplaceOne('\\', ['\\'] + e, '\"', "\\\"");
      ReplaceOne('\\', e, '\"', "\\\"");
    } else {
      ReplaceOne(c, e, '\"', "\\\"");
    }
  }

  lemma {:induction false} BasicInside(s: string, rest: string)
    requires Clean(s, false)
    ensures ReadInside(EscapeBasic(s) + "\"" + rest) == Ok(s, rest)
  {
    if s == "" {
      assert ("\"" + rest)[1..] == rest;
    } else {
      CleanFirst(s);
      hide *;
      BasicInside(s[1..], rest);
      EscapeBasicStep(s[0], s[1..]);
      var piece := if s[0] == '\\' then "\\\\" else if s[0] == '\"' then "\\\"" else [s[0]];
      var tail := EscapeBasic(s[1..]) + "\"" + rest;
      InsideChar(s[0], s[1..], tail, rest);
      assert s == [s[0]] + s[1..];
      Regroup(piece, EscapeBasic(s[1..]), "\"", rest);
    }
  }

  lemma CleanFirst(s: string)
    requires Clean(s, false) && s != ""
    ensures s[0] != '\n' && Clean(s[1..], false)
  {
    assert !Refused(s[0], false);
    assert forall i :: 0 <= i < |s| - 1 ==> s[1..][i] == s[i + 1];
  }

  lemma InsideChar(c: char, s: string, tail: string, rest: string)
    requires c != '\n' && ReadInside(tail) == Ok(s, rest)
    ensures var piece := if c == '\\' then "\\\\" else if c == '\"' then "\\\"" else [c];
            ReadInside(piece + tail) == Ok([c] + s, rest)
  {
    if c == '\\' {
      assert ("\\\\" + tail)[2..] == tail;
    } else if c == '\"' {
      assert ("\\\"" + tail)[2..] == tail;
    } else {
      assert ([c] + tail)[1..] == tail;
    }
  }

  /** A printed basic string is read back with its rest, and skipped to its end. */
  lemma BasicRoundTrip(s: string, rest: string)
    requires Clean(s, false)
    ensures ReadBasic(TomlString(s).value + rest) == Ok(s, rest)
    ensures SkipBasic(TomlString(s).value + rest) == Ok("", rest)
  {
    BasicInside(s, rest);
    var text := TomlString(s).value + rest;
    assert text[1..] == EscapeBasic(s) + "\"" + rest;
    SkipsWhatIsRead(text[1..]);
  }

  // What is skipped is what a reader of the string takes.
  lemma {:induction false} SkipsWhatIsRead(s: string)
    ensures SkipInside(s) == if ReadInside(s).Ok? then Ok("", ReadInside(s).rest) else Bad
  {
    if s != "" && s[0] != '\n' && s[0] != '\"' {
      if s[0] != '\\' { SkipsWhatIsRead(s[1..]); } else if |s| >= 2 { SkipsWhatIsRead(s[2..]); }
    }
  }

  // --- what the reader takes beside what the printer prints ---

  // Every escaped quotation mark of the text up to the closing delimiter is the third of a run of three.
  predicate OnlyThirds(s: string) {
    if s == "" then true
    else if s[0] == '\\' then |s| >= 2 && s[1] == '\\' && OnlyThirds(s[2..])
    else if s[0] == '\"' then
      var n := Run(s);
      if n >= 3 then true
      else if n == 2 && |s| >= 4 && s[2..4] == "\\\"" then OnlyThirds(s[4..])
      else OnlyThirds(s[n..])
    else OnlyThirds(s[1..])
  }

  lemma ThirdsRun(n: nat, t: string)
    requires n > 0 && (t != "" ==> t[0] != '\"')
    ensures OnlyThirds(Quotes(n) + t) <==>
            n >= 3 || (if n == 2 && ['\\', '\"'] <= t then OnlyThirds(t[2..]) else OnlyThirds(t))
  {
    var s := Quotes(n) + t;
    RunOf(n, t);
    assert s[n..] == t;
    if n == 2 && |s| >= 4 { assert s[2..4] == t[..2] && s[4..] == t[2..]; }
  }

  lemma ThirdsChar(c: char, t: string)
    requires c != '\"'
    ensures c != '\\' ==> (OnlyThirds([c] + t) <==> OnlyThirds(t))
    ensures OnlyThirds(['\\', '\\'] + t) <==> OnlyThirds(t)
    ensures !OnlyThirds(['\\', '\"'] + t)
  {
    assert ([c] + t)[1..] == t && (['\\', '\\'] + t)[2..] == t;
  }

  lemma LongRunHasOnlyThirds(s: string, u: string)
    requires Run(s) >= 3 && OnlyThirds(Escape(s[3..]) + u)
    ensures OnlyThirds(Escape(s) + u)
  {
    hide OnlyThirds, Escape, Run;
    var tail := Escape(s[3..]) + u;
    EscapeRun(s);
    ThirdsRun(2, ['\\', '\"'] + tail);
    assert (['\\', '\"'] + tail)[2..] == tail;
    assert Escape(s) + u == Quotes(2) + (['\\', '\"'] + tail);
  }

  lemma ShortRunHasOnlyThirds(n: nat, t: string, u: string)
    requires 0 < n < 3 && t != "" && t[0] != '\"' && OnlyThirds(Escape(t) + u)
    ensures OnlyThirds(Escape(Quotes(n) + t) + u)
  {
    hide OnlyThirds, Escape;
    var tail := Escape(t) + u;
    EscapeShortRun(n, t);
    EscapeStart(t);
    ThirdsRun(n, tail);
    EscapeNoMark(t, u);
    assert Escape(Quotes(n) + t) + u == Quotes(n) + tail;
  }

  lemma LastRunHasOnlyThirds(n: nat, rest: string)
    requires n < 3 && (rest != "" ==> rest[0] != '\"')
    ensures OnlyThirds(Escape(Quotes(n)) + (QUOTES + rest))
  {
    hide OnlyThirds, Escape;
    EscapeShortRun(n, "");
    EscapeStart("");
    assert Quotes(n) + "" == Quotes(n);
    ThirdsRun(n + 3, rest);
    assert Quotes(n + 3) + rest == Quotes(n) + (QUOTES + rest);
  }

  lemma CharHasOnlyThirds(c: char, s: string, u: string)
    requires c != '\"' && OnlyThirds(Escape(s) + u)
    ensures OnlyThirds(Escape([c] + s) + u)
  {
    hide OnlyThirds, Escape;
    EscapeChar(c, s);
    ThirdsChar(c, Escape(s) + u);
    assert Escape([c] + s) + u == (if c == '\\' then ['\\', '\\'] else [c]) + (Escape(s) + u);
  }

  lemma {:induction false} EscapeHasOnlyThirds(s: string, rest: string)
    requires rest != "" ==> rest[0] != '\"'
    ensures OnlyThirds(Escape(s) + (QUOTES + rest))
    decreases |s|
  {
    hide OnlyThirds, Escape;
    var n, u := Run(s), QUOTES + rest;
    SplitRun(s);
    if n >= 3 {
      EscapeHasOnlyThirds(s[3..], rest);
      LongRunHasOnlyThirds(s, u);
    } else if s[n..] == "" {
      assert s == Quotes(n);
      LastRunHasOnlyThirds(n, rest);
    } else if n > 0 {
      EscapeHasOnlyThirds(s[n..], rest);
      ShortRunHasOnlyThirds(n, s[n..], u);
    } else {
      EscapeHasOnlyThirds(s[1..], rest);
      CharHasOnlyThirds(s[0], s[1..], u);
      assert s == [s[0]] + s[1..];
    }
  }

  // The escape of a text that starts with no quotation mark does not start with an escaped one.
  lemma EscapeNoMark(t: string, u: string)
    requires t != "" && t[0] != '\"'
    ensures !(['\\', '\"'] <= Escape(t) + u)
  {
    var e := Escape(t) + u;
    assert t == [t[0]] + t[1..];
    EscapeChar(t[0], t[1..]);
    if t[0] == '\\' { assert e[1] == '\\'; } else { assert e[0] == t[0]; }
  }

  lemma PrintedChar(c: char, t: string)
    requires c != '\\' && c != '\"' && ReadBody(t).Ok? && t == Escape(ReadBody(t).value) + QUOTES + ReadBody(t).rest
    ensures var r := ReadBody([c] + t); r.Ok? && [c] + t == Escape(r.value) + QUOTES + r.rest
  {
    hide ReadBody, Escape;
    ReadPlain(c, t);
    EscapeChar(c, ReadBody(t).value);
  }

  lemma PrintedBackslash(t: string)
    requires ReadBody(t).Ok? && t == Escape(ReadBody(t).value) + QUOTES + ReadBody(t).rest
    ensures var r := ReadBody(['\\', '\\'] + t); r.Ok? && ['\\', '\\'] + t == Escape(r.value) + QUOTES + r.rest
  {
    hide ReadBody, Escape;
    ReadEscaped('\\', t);
    EscapeChar('\\', ReadBody(t).value);
  }

  lemma PrintedThird(u: string)
    requires ReadBody(u).Ok? && u == Escape(ReadBody(u).value) + QUOTES + ReadBody(u).rest
    ensures var s := Quotes(2) + (['\\', '\"'] + u); var r := ReadBody(s);
            r.Ok? && s == Escape(r.value) + QUOTES + r.rest
  {
    hide ReadBody, Escape;
    ReadEscaped('\"', u);
    ReadRun(2, ['\\', '\"'] + u);
    var body := Quotes(2) + (['\"'] + ReadBody(u).value);
    assert QUOTES <= body && body[3..] == ReadBody(u).value;
    ThreeIsRun(body);
    EscapeRun(body);
  }

  lemma PrintedRun(n: nat, t: string)
    requires 0 < n < 3 && t != "" && t[0] != '\"'
    requires ReadBody(t).Ok? && t == Escape(ReadBody(t).value) + QUOTES + ReadBody(t).rest
    requires ReadBody(t).value != "" && ReadBody(t).value[0] != '\"'
    ensures var s := Quotes(n) + t; var r := ReadBody(s); r.Ok? && s == Escape(r.value) + QUOTES + r.rest
  {
    hide ReadBody, Escape;
    ReadRun(n, t);
    EscapeShortRun(n, ReadBody(t).value);
  }

  lemma PrintedClose(n: nat, t: string)
    requires 3 <= n <= 5 && (t != "" ==> t[0] != '\"')
    ensures var s := Quotes(n) + t; var r := ReadBody(s); r.Ok? && s == Escape(r.value) + QUOTES + r.rest
  {
    hide ReadBody, Escape;
    ReadRun(n, t);
    EscapeShortRun(n - 3, "");
    EscapeStart("");
    assert Quotes(n - 3) + "" == Quotes(n - 3) && Quotes(n - 3) + QUOTES == Quotes(n);
  }

  // Read text with only such escapes is what the printer prints for its body.
  lemma {:induction false} OnlyThirdsIsPrinted(s: string)
    requires ReadBody(s).Ok? && OnlyThirds(s)
    ensures s == Escape(ReadBody(s).value) + QUOTES + ReadBody(s).rest
    decreases |s|
  {
    if s[0] == '\\' {
      OnlyThirdsIsPrinted(s[2..]);
      PrintedBackslash(s[2..]);
      assert s == ['\\', '\\'] + s[2..];
    } else if s[0] == '\"' {
      OnlyThirdsRun(s);
    } else {
      OnlyThirdsIsPrinted(s[1..]);
      PrintedChar(s[0], s[1..]);
      assert s == [s[0]] + s[1..];
    }
  }

  lemma {:induction false} OnlyThirdsRun(s: string)
    requires ReadBody(s).Ok? && OnlyThirds(s) && s[0] == '\"'
    ensures s == Escape(ReadBody(s).value) + QUOTES + ReadBody(s).rest
    decreases |s|, 0
  {
    var n, t := Run(s), s[Run(s)..];
    assert n > 0;
    hide ReadBody, OnlyThirds, Escape;
    SplitRun(s);
    ReadRun(n, t);
    ThirdsRun(n, t);
    if n >= 3 {
      PrintedClose(n, t);
    } else if n == 2 && ['\\', '\"'] <= t {
      var u := t[2..];
      assert t == ['\\', '\"'] + u;
      ReadEscaped('\"', u);
      OnlyThirdsIsPrinted(u);
      PrintedThird(u);
    } else {
      OnlyThirdsIsPrinted(t);
      ReadStart(t);
      PrintedRun(n, t);
    }
  }

  lemma ReadStart(s: string)
    requires ReadBody(s).Ok? && OnlyThirds(s) && s[0] != '\"'
    ensures ReadBody(s).value != "" && ReadBody(s).value[0] == s[0]
  {
  }

  // What follows a closing delimiter is not a quotation mark.
  lemma {:induction false} RestAfterClose(s: string)
    requires ReadBody(s).Ok?
    ensures ReadBody(s).rest != "" ==> ReadBody(s).rest[0] != '\"'
    decreases |s|
  {
    if s[0] == '\\' {
      RestAfterClose(s[2..]);
    } else if s[0] == '\"' {
      if Run(s) < 3 { RestAfterClose(s[Run(s)..]); }
    } else {
      RestAfterClose(s[1..]);
    }
  }

  // A text that is read is the escape of its body, delimited, if and only if each escaped quotation mark is a third.
  lemma EscapedIffOnlyThirds(s: string)
    requires ReadBody(s).Ok?
    ensures s == EscapeMultiline(ReadBody(s).value) + QUOTES + ReadBody(s).rest <==> OnlyThirds(s)
  {
    hide ReadBody, Escape, EscapeMultiline, OnlyThirds;
    var body, rest := ReadBody(s).value, ReadBody(s).rest;
    TwoPassesAreOne(body);
    if OnlyThirds(s) { OnlyThirdsIsPrinted(s); }
    if s == Escape(body) + QUOTES + rest {
      RestAfterClose(s);
      EscapeHasOnlyThirds(body, rest);
      assert Escape(body) + QUOTES + rest == Escape(body) + (QUOTES + rest);
    }
  }

  lemma CleanPlus(a: string, b: string, multiline: bool)
    ensures Clean(a + b, multiline) <==> Clean(a, multiline) && Clean(b, multiline)
  {
    hide Refused;
    var s := a + b;
    assert forall i :: 0 <= i < |a| ==> s[i] == a[i];
    assert forall i :: 0 <= i < |b| ==> s[|a| + i] == b[i];
  }

  // The text a reader took: all of s but what it left.
  function TextRead(s: string, rest: string): string {
    if |rest| <= |s| then s[..|s| - |rest|] else s
  }

  // The piece a of a text is read, and then the others.
  lemma PieceRead(a: string, t: string, rest: string)
    requires |rest| <= |t| && t[|t| - |rest|..] == rest
    ensures TextRead(a + t, rest) == a + TextRead(t, rest) && (a + t)[|a + t| - |rest|..] == rest
  {
  }

  lemma MarksAreClean(n: nat)
    ensures Clean(Quotes(n), true) && Clean(['\\', '\"'], true) && Clean(['\\', '\\'], true)
    ensures Clean(['\"'], true) && Clean(['\\'], true)
  {
  }

  /** What is read of a text is as clean as the text up to the end of its closing delimiter. */
  lemma {:induction false} BodyIsAsCleanAsText(s: string)
    requires ReadBody(s).Ok?
    ensures var p := ReadBody(s);
            && |p.rest| <= |s| && s[|s| - |p.rest|..] == p.rest
            && (Clean(p.value, true) <==> Clean(TextRead(s, p.rest), true))
    decreases |s|
  {
    hide Clean, TextRead;
    if s[0] == '\\' {
      BodyIsAsCleanAsText(s[2..]);
      MarksAreClean(0);
      AsCleanNext([s[0], s[1]], [s[1]], s, s[2..]);
    } else if s[0] == '\"' {
      var n := Run(s);
      SplitRun(s);
      MarksAreClean(n);
      if n < 3 {
        BodyIsAsCleanAsText(s[n..]);
        AsCleanNext(Quotes(n), Quotes(n), s, s[n..]);
      } else {
        ClosingMarks(n, s[n..]);
        MarksAreClean(n - 3);
      }
    } else {
      BodyIsAsCleanAsText(s[1..]);
      AsCleanNext([s[0]], [s[0]], s, s[1..]);
    }
  }

  lemma ClosingMarks(n: nat, rest: string)
    ensures TextRead(Quotes(n) + rest, rest) == Quotes(n)
  {
  }

  // One piece of the text, and what is read of it.
  lemma AsCleanNext(piece: string, value: string, s: string, t: string)
    requires s == piece + t && ReadBody(t).Ok? && ReadBody(s) == Prepend(value, ReadBody(t))
    requires Clean(piece, true) <==> Clean(value, true)
    requires var p := ReadBody(t);
             && |p.rest| <= |t| && t[|t| - |p.rest|..] == p.rest
             && (Clean(p.value, true) <==> Clean(TextRead(t, p.rest), true))
    ensures var p := ReadBody(s);
            && |p.rest| <= |s| && s[|s| - |p.rest|..] == p.rest
            && (Clean(p.value, true) <==> Clean(TextRead(s, p.rest), true))
  {
    var p := ReadBody(t);
    hide *;
    assert Prepend(value, p) == Ok(value + p.value, p.rest) by { PrependOk(value, p); }
    PieceRead(piece, t, p.rest);
    CleanPlus(piece, TextRead(t, p.rest), true);
    CleanPlus(value, p.value, true);
  }

  lemma PrependOk(a: string, p: Parsed)
    requires p.Ok?
    ensures Prepend(a, p) == Ok(a + p.value, p.rest)
  {
  }

  /** The reader is said to be the exact inverse of the printer, and to take a backslash only before another or as the
      third mark of three quotation marks. It takes more: a string it reads is one the printer prints if and only if
      each of its escaped quotation marks is the third of three and its text has no control character that the printer
      refuses. */
  lemma PrintedIffOnlyThirdsAndClean(s: string)
    requires ReadBody(s).Ok?
    ensures TomlMultiline(ReadBody(s).value).Some? &&
            QUOTES + "\n" + s == TomlMultiline(ReadBody(s).value).value + ReadBody(s).rest
            <==> OnlyThirds(s) && Clean(TextRead(s, ReadBody(s).rest), true)
  {
    BodyIsAsCleanAsText(s);
    hide ReadBody, EscapeMultiline, OnlyThirds, Clean;
    var body, rest := ReadBody(s).value, ReadBody(s).rest;
    EscapedIffOnlyThirds(s);
    var head, text := QUOTES + "\n", EscapeMultiline(body) + QUOTES + rest;
    assert head + EscapeMultiline(body) + QUOTES + rest == head + text;
    assert (head + s)[|head|..] == s && (head + text)[|head|..] == text;
  }

  // A basic string that is read is one the printer prints, when its text is clean.
  lemma {:induction false} InsideIsPrinted(s: string) returns (v: string)
    requires SkipInside(s).Ok?
    ensures s == EscapeBasic(v) + "\"" + SkipInside(s).rest
    ensures Clean(TextRead(s, SkipInside(s).rest), true) ==> Clean(v, false)
    decreases |s|
  {
    var rest := SkipInside(s).rest;
    if s[0] == '\\' {
      v := InsideIsPrinted(s[2..]);
      EscapeBasicStep(s[1], v);
      InsideNext(s[..2], s[1], s, s[2..], v, rest);
      v := [s[1]] + v;
    } else if s[0] == '\"' {
      v := "";
      assert s == "\"" + rest && EscapeBasic("") == "";
    } else {
      v := InsideIsPrinted(s[1..]);
      EscapeBasicStep(s[0], v);
      InsideNext(s[..1], s[0], s, s[1..], v, rest);
      v := [s[0]] + v;
    }
  }

  lemma InsideNext(piece: string, c: char, s: string, t: string, v: string, rest: string)
    requires s == piece + t && t == EscapeBasic(v) + "\"" + rest && c != '\n'
    requires EscapeBasic([c] + v) == piece + EscapeBasic(v)
    requires c == '\\' || c == '\"' || piece == [c]
    requires Clean(TextRead(t, rest), true) ==> Clean(v, false)
    ensures s == EscapeBasic([c] + v) + "\"" + rest
    ensures Clean(TextRead(s, rest), true) ==> Clean([c] + v, false)
  {
    assert s == EscapeBasic([c] + v) + "\"" + rest;
    assert t[|t| - |rest|..] == rest;
    MarksAreClean(0);
    hide EscapeBasic;
    if Clean(TextRead(s, rest), true) {
      PieceRead(piece, t, rest);
      CleanPlus(piece, TextRead(t, rest), true);
      if piece == [c] { assert !Refused([c][0], true); }
      assert !Refused(c, false);
      assert Clean([c], false);
      CleanPlus([c], v, false);
    }
  }

  lemma BasicIsPrinted(s: string) returns (v: string)
    requires SkipBasic(s).Ok?
    ensures Clean(s, true) ==> Clean(v, false) && s == TomlString(v).value + SkipBasic(s).rest
    ensures Clean(s, true) ==> Clean(SkipBasic(s).rest, true)
  {
    var t := s[1..];
    v := InsideIsPrinted(t);
    var rest := SkipInside(t).rest;
    var text := EscapeBasic(v) + "\"";
    assert s == ("\"" + text) + rest && t == text + rest && TextRead(t, rest) == text;
    hide Clean, EscapeBasic, SkipInside;
    CleanPlus("\"" + text, rest, true);
    CleanPlus("\"", text, true);
    assert "\"" + text == "\"" + EscapeBasic(v) + "\"";
  }

  // What is printed is clean.
  lemma {:induction false} PrintedBasicIsClean(v: string)
    requires Clean(v, false)
    ensures Clean(EscapeBasic(v), true)
  {
    if v != "" {
      assert v == [v[0]] + v[1..];
      CleanPlus([v[0]], v[1..], false);
      PrintedBasicIsClean(v[1..]);
      EscapeBasicStep(v[0], v[1..]);
      var piece := if v[0] == '\\' then "\\\\" else if v[0] == '\"' then "\\\"" else [v[0]];
      assert !Refused(v[0], false);
      assert Clean(piece, true);
      hide Clean, EscapeBasic;
      CleanPlus(piece, EscapeBasic(v[1..]), true);
    }
  }

  lemma PrintedIsClean(v: string)
    ensures Clean(v, false) ==> Clean(TomlString(v).value, true)
    ensures Clean(v, true) ==> Clean(TomlMultiline(v).value, true)
  {
    if Clean(v, false) {
      PrintedBasicIsClean(v);
      CleanPlus("\"" + EscapeBasic(v), "\"", true);
      CleanPlus("\"", EscapeBasic(v), true);
    }
    if Clean(v, true) {
      var s := EscapeMultiline(v) + QUOTES;
      TwoPassesAreOne(v);
      assert Escape(v) + QUOTES + "" == s;
      BodyRoundTrip(v, "");
      BodyIsAsCleanAsText(s);
      assert TextRead(s, "") == s;
      CleanPlus(QUOTES + "\n", s, true);
      assert QUOTES + "\n" + EscapeMultiline(v) + QUOTES == (QUOTES + "\n") + s;
    }
  }

  /** Two that are read and never printed: a single quotation mark, escaped, and a control character. */
  lemma ReadButNeverPrinted()
    ensures var s := "\\\"" + QUOTES;
            ReadBody(s) == Ok("\"", "") && !OnlyThirds(s) && s != EscapeMultiline("\"") + QUOTES
    ensures var s := ['\U{01}'] + QUOTES;
            ReadBody(s) == Ok(['\U{01}'], "") && OnlyThirds(s) && TomlMultiline(['\U{01}']) == None
  {
    var s, c := "\\\"" + QUOTES, ['\U{01}'] + QUOTES;
    assert QUOTES == Quotes(3) + "";
    RunOf(3, "");
    assert QUOTES[3..] == "" && s[2..] == QUOTES && c[1..] == QUOTES;
    assert ReadBody(QUOTES) == Ok("", "");
    EscapedIffOnlyThirds(s);
    assert Refused(['\U{01}'][0], true);
  }
}
