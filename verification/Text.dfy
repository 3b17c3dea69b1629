/**
  The string functions of the Go standard library that the modelled code calls, on sequences of characters. A
  character stands for a byte wherever the code looks at bytes. White space is the ASCII white space.
 */
module Text {
  import opened Wrappers

  // strings.Replace(s, old, new, -1) for a non-empty old: leftmost occurrences that do not overlap.
  function ReplaceAll(s: string, before: string, after: string): string
    requires before != ""
  {
    if s == "" then ""
    else if before <= s then after + ReplaceAll(s[|before|..], before, after)
    else [s[0]] + ReplaceAll(s[1..], before, after)
  }

  lemma ReplaceOne(c: char, s: string, x: char, after: string)
    ensures ReplaceAll([c] + s, [x], after) == (if c == x then after else [c]) + ReplaceAll(s, [x], after)
  {
    var t := [c] + s;
    assert t[0] == c && t[1..] == s && |[x]| == 1;
    if c == x {
      assert [x] <= t;
    }
  }

  lemma Associates(a: string, b: string, c: string)
    ensures (a + b) + c == a + (b + c)
  {
  }

  lemma {:induction false} ReplacePlus(a: string, b: string, x: char, after: string)
    ensures ReplaceAll(a + b, [x], after) == ReplaceAll(a, [x], after) + ReplaceAll(b, [x], after)
  {
    if a == "" {
      assert a + b == b;
    } else {
      hide ReplaceAll;
      ReplacePlus(a[1..], b, x, after);
      ReplaceOne(a[0], a[1..] + b, x, after);
      ReplaceOne(a[0], a[1..], x, after);
      assert a + b == [a[0]] + (a[1..] + b) && a == [a[0]] + a[1..];
      var first := if a[0] == x then after else [a[0]];
      Associates(first, ReplaceAll(a[1..], [x], after), ReplaceAll(b, [x], after));
    }
  }

  lemma {:induction false} NothingToReplace(s: string, x: char, after: string)
    requires x !in s
    ensures ReplaceAll(s, [x], after) == s
  {
    if s != "" {
      NothingToReplace(s[1..], x, after);
      ReplaceOne(s[0], s[1..], x, after);
      assert s == [s[0]] + s[1..];
    }
  }

  lemma ReplaceFirstOne(a: string, b: string, x: char, after: string)
    requires x !in a
    ensures ReplaceAll(a + [x] + b, [x], after) == a + after + ReplaceAll(b, [x], after)
  {
    hide ReplaceAll;
    ReplacePlus(a, [x] + b, x, after);
    ReplaceOne(x, b, x, after);
    NothingToReplace(a, x, after);
    assert a + [x] + b == a + ([x] + b);
  }

  // strings.Count for a non-empty sub.
  function Count(s: string, sub: string): nat
    requires sub != ""
  {
    if s == "" then 0
    else if sub <= s then 1 + Count(s[|sub|..], sub)
    else Count(s[1..], sub)
  }

  // strings.Index.
  function Index(s: string, sub: string): Option<nat>
  {
    if sub <= s then Some(0)
    else if s == "" then None
    else match Index(s[1..], sub)
      case Some(i) => Some(i + 1)
      case None => None
  }

  lemma {:induction false} IndexFirst(s: string, sub: string)
    ensures Index(s, sub).Some? ==> var i := Index(s, sub).value; i <= |s| && sub <= s[i..]
    ensures forall k :: 0 <= k < (if Index(s, sub).Some? then Index(s, sub).value else |s| + 1) && k <= |s| ==>
              !(sub <= s[k..])
  {
    if !(sub <= s) && s != "" {
      IndexFirst(s[1..], sub);
      forall k | 0 < k <= |s|
        ensures s[k..] == s[1..][k - 1..]
      {
      }
      if Index(s, sub).Some? { assert s[Index(s, sub).value..] == s[1..][Index(s[1..], sub).value..]; }
    }
  }

  // strings.Cut: what is before and after the first sep, and whether there is one.
  function Cut(s: string, sep: string): (string, string, bool)
  {
    IndexFirst(s, sep);
    match Index(s, sep)
    case Some(i) => (s[..i], s[i + |sep|..], true)
    case None => (s, "", false)
  }

  lemma Rejoined(s: string, at: nat, sep: string)
    requires at < |s| && |sep| == 1 && s[at] == sep[0]
    ensures s[..at] + sep + s[at + 1..] == s
  {
  }

  // What Cut gives, put together again; and the first part has no separator of one character.
  lemma CutParts(s: string, sep: string)
    requires |sep| == 1
    ensures Cut(s, sep).2 ==> Cut(s, sep).0 + sep + Cut(s, sep).1 == s && sep[0] in s
    ensures !Cut(s, sep).2 ==> Cut(s, sep).0 == s
    ensures sep[0] !in Cut(s, sep).0
  {
    IndexFirst(s, sep);
    hide Index;
    var at := if Cut(s, sep).2 then Index(s, sep).value else |s|;
    if Cut(s, sep).2 {
      OneChar(s, at, sep);
      Rejoined(s, at, sep);
    }
    forall k | 0 <= k < at
      ensures s[k] != sep[0]
    {
      assert !(sep <= s[k..]);
      OneChar(s, k, sep);
    }
  }

  lemma OneChar(s: string, k: nat, sep: string)
    requires k < |s| && |sep| == 1
    ensures sep <= s[k..] <==> s[k] == sep[0]
  {
    assert s[k..][0] == s[k];
    if s[k] == sep[0] { assert sep == s[k..][..1]; }
  }

  // Where the first separator of one character is, s is cut.
  lemma CutAt(s: string, sep: string, at: nat)
    requires |sep| == 1 && at < |s| && s[at] == sep[0] && sep[0] !in s[..at]
    ensures Cut(s, sep) == (s[..at], s[at + 1..], true)
  {
    forall k | 0 <= k < at
      ensures s[k] != sep[0]
    {
      assert s[..at][k] == s[k];
    }
    IndexFirst(s, sep);
    OneChar(s, at, sep);
    OneChar(s, Index(s, sep).value, sep);
  }

  predicate HasSuffix(s: string, suffix: string) {
    |suffix| <= |s| && s[|s| - |suffix|..] == suffix
  }

  function TrimPrefix(s: string, prefix: string): string {
    if prefix <= s then s[|prefix|..] else s
  }

  function TrimSuffix(s: string, suffix: string): string {
    if HasSuffix(s, suffix) then s[..|s| - |suffix|] else s
  }

  function TrimLeft(s: string, cutset: set<char>): string {
    if s != "" && s[0] in cutset then TrimLeft(s[1..], cutset) else s
  }

  function TrimRight(s: string, cutset: set<char>): string {
    if s != "" && s[|s| - 1] in cutset then TrimRight(s[..|s| - 1], cutset) else s
  }

  function Trim(s: string, cutset: set<char>): string {
    TrimRight(TrimLeft(s, cutset), cutset)
  }

  lemma {:induction false} TrimLeftSkips(a: string, b: string, cutset: set<char>)
    requires forall i :: 0 <= i < |a| ==> a[i] in cutset
    ensures TrimLeft(a + b, cutset) == TrimLeft(b, cutset)
  {
    if a == "" {
      assert a + b == b;
    } else {
      assert (a + b)[1..] == a[1..] + b;
      TrimLeftSkips(a[1..], b, cutset);
    }
  }

  lemma TrimLeftStops(s: string, cutset: set<char>)
    requires s != "" && s[0] !in cutset
    ensures TrimLeft(s, cutset) == s
  {
  }

  lemma {:induction false} TrimRightKeeps(s: string, at: nat, cutset: set<char>)
    requires at < |s| && s[at] !in cutset
    ensures at < |TrimRight(s, cutset)| && TrimRight(s, cutset) <= s
  {
    if s[|s| - 1] in cutset { TrimRightKeeps(s[..|s| - 1], at, cutset); }
  }

  lemma TrimPlain(s: string, cutset: set<char>)
    requires s != "" ==> s[0] !in cutset && s[|s| - 1] !in cutset
    ensures Trim(s, cutset) == s
  {
  }

  predicate AllIn(s: string, cutset: set<char>) {
    forall i :: 0 <= i < |s| ==> s[i] in cutset
  }

  lemma {:induction false} TrimRightSkips(a: string, b: string, cutset: set<char>)
    requires AllIn(b, cutset)
    ensures TrimRight(a + b, cutset) == TrimRight(a, cutset)
  {
    if b == "" {
      assert a + b == a;
    } else {
      var n := |b| - 1;
      assert (a + b)[..|a| + n] == a + b[..n] && (a + b)[|a| + n] == b[n];
      TrimRightSkips(a, b[..n], cutset);
    }
  }

  // Trimming takes nothing off s.
  predicate IsBare(s: string, cutset: set<char>) {
    s != "" && s[0] !in cutset && s[|s| - 1] !in cutset
  }

  // Trimming leaves the middle of a text, when what is around it is cut and it neither starts nor ends so.
  lemma TrimOff(a: string, s: string, b: string, cutset: set<char>)
    requires AllIn(a, cutset) && AllIn(b, cutset) && (s != "" ==> IsBare(s, cutset))
    ensures Trim(a + s + b, cutset) == s
  {
    assert a + s + b == a + (s + b);
    TrimLeftSkips(a, s + b, cutset);
    if s == "" {
      assert s + b == b && b + "" == b;
      TrimLeftSkips(b, "", cutset);
    } else {
      assert (s + b)[0] == s[0];
      TrimLeftStops(s + b, cutset);
      TrimRightSkips(s, b, cutset);
    }
  }

  lemma {:induction false} TrimLeftParts(s: string, cutset: set<char>) returns (a: string)
    ensures s == a + TrimLeft(s, cutset) && AllIn(a, cutset)
    ensures TrimLeft(s, cutset) != "" ==> TrimLeft(s, cutset)[0] !in cutset
  {
    a := "";
    if s != "" && s[0] in cutset {
      a := TrimLeftParts(s[1..], cutset);
      a := [s[0]] + a;
    }
  }

  lemma {:induction false} TrimRightParts(s: string, cutset: set<char>) returns (b: string)
    ensures s == TrimRight(s, cutset) + b && AllIn(b, cutset)
    ensures var t := TrimRight(s, cutset); t != "" ==> t[|t| - 1] !in cutset
  {
    b := "";
    if s != "" && s[|s| - 1] in cutset {
      b := TrimRightParts(s[..|s| - 1], cutset);
      b := b + [s[|s| - 1]];
    }
  }

  // What Trim takes off.
  lemma TrimParts(s: string, cutset: set<char>) returns (a: string, b: string)
    requires Trim(s, cutset) != ""
    ensures s == a + Trim(s, cutset) + b && AllIn(a, cutset) && AllIn(b, cutset) && IsBare(Trim(s, cutset), cutset)
  {
    var t := TrimLeft(s, cutset);
    a := TrimLeftParts(s, cutset);
    b := TrimRightParts(t, cutset);
    hide TrimLeft, TrimRight;
    assert t == TrimRight(t, cutset) + b && t[0] == TrimRight(t, cutset)[0];
    assert a + t == a + TrimRight(t, cutset) + b;
  }

  const SPACE := {' ', '\t', '\n', '\r', '\U{0B}', '\U{0C}'}

  function TrimSpace(s: string): string {
    Trim(s, SPACE)
  }

  // strings.ToLower and strings.EqualFold, of ASCII letters.
  function LowerChar(c: char): char {
    if 'A' <= c <= 'Z' then (c as int + 32) as char else c
  }

  function ToLower(s: string): string {
    seq(|s|, i requires 0 <= i < |s| => LowerChar(s[i]))
  }

  predicate EqualFold(a: string, b: string) {
    ToLower(a) == ToLower(b)
  }

  // strings.Split on one character.
  function Split(s: string, sep: char): (parts: seq<string>)
    ensures parts != []
  {
    if s == "" then [""]
    else
      var rest := Split(s[1..], sep);
      if s[0] == sep then [""] + rest else [[s[0]] + rest[0]] + rest[1..]
  }

  // strings.Join.
  function Join(parts: seq<string>, sep: string): string {
    if parts == [] then ""
    else if |parts| == 1 then parts[0]
    else parts[0] + sep + Join(parts[1..], sep)
  }

  lemma {:induction false} JoinSplit(s: string, sep: char)
    ensures Join(Split(s, sep), [sep]) == s
  {
    if s != "" {
      JoinSplit(s[1..], sep);
      var rest, all := Split(s[1..], sep), Split(s, sep);
      if s[0] == sep {
        assert all[1..] == rest;
      } else {
        assert all[1..] == rest[1..];
      }
    }
  }

  lemma {:induction false} SplitHasNoSep(s: string, sep: char)
    ensures forall part :: part in Split(s, sep) ==> sep !in part
  {
    if s != "" {
      SplitHasNoSep(s[1..], sep);
      var rest := Split(s[1..], sep);
      assert rest[0] in rest;
      forall part | part in Split(s, sep)
        ensures sep !in part
      {
        if s[0] != sep && part != [s[0]] + rest[0] { assert part in rest[1..]; assert part in rest; }
      }
    }
  }

  lemma SplitHead(c: char, s: string, sep: char)
    ensures c == sep ==> Split([c] + s, sep) == [""] + Split(s, sep)
    ensures c != sep ==> Split([c] + s, sep) == [[c] + Split(s, sep)[0]] + Split(s, sep)[1..]
  {
    assert ([c] + s)[1..] == s;
  }

  lemma SplitPlusHead(c: char, t: string, u: string, sep: char, more: seq<string>)
    requires Split(u, sep) == Split(t, sep) + more
    ensures Split([c] + u, sep) == Split([c] + t, sep) + more
  {
    hide Split;
    SplitHead(c, u, sep);
    SplitHead(c, t, sep);
  }

  lemma {:induction false} SplitPlus(a: string, b: string, sep: char)
    ensures Split(a + [sep] + b, sep) == Split(a, sep) + Split(b, sep)
  {
    if a == "" {
      assert a + [sep] + b == [sep] + b;
      SplitHead(sep, b, sep);
    } else {
      hide Split;
      var t := a[1..];
      SplitPlus(t, b, sep);
      SplitPlusHead(a[0], t, t + [sep] + b, sep, Split(b, sep));
      assert a + [sep] + b == [a[0]] + (t + [sep] + b) && a == [a[0]] + t;
    }
  }

  lemma {:induction false} SplitOne(a: string, sep: char)
    requires sep !in a
    ensures Split(a, sep) == [a]
  {
    if a != "" {
      SplitOne(a[1..], sep);
      assert [a[0]] + a[1..] == a;
    }
  }

  // A part without the separator, then the separator, then the rest.
  lemma SplitPart(a: string, b: string, sep: char)
    requires sep !in a
    ensures Split(a + [sep] + b, sep) == [a] + Split(b, sep)
  {
    SplitPlus(a, b, sep);
    SplitOne(a, sep);
  }

  lemma {:induction false} SplitJoin(parts: seq<string>, sep: char)
    requires parts != [] && forall part :: part in parts ==> sep !in part
    ensures Split(Join(parts, [sep]), sep) == parts
  {
    if |parts| == 1 {
      SplitOne(parts[0], sep);
    } else {
      SplitJoin(parts[1..], sep);
      SplitPart(parts[0], Join(parts[1..], [sep]), sep);
      assert Join(parts, [sep]) == parts[0] + [sep] + Join(parts[1..], [sep]);
    }
  }

  lemma JoinTwo(parts: seq<string>, sep: string)
    requires |parts| > 1
    ensures Join(parts, sep) == parts[0] + sep + Join(parts[1..], sep)
  {
  }

  lemma Regroup(a: string, b: string, c: string, d: string)
    ensures (a + b) + c + d == a + (b + c + d)
  {
  }

  lemma {:induction false} JoinPlus(a: seq<string>, b: seq<string>, sep: string)
    requires a != [] && b != []
    ensures Join(a + b, sep) == Join(a, sep) + sep + Join(b, sep)
  {
    if |a| == 1 {
      assert (a + b)[1..] == b;
    } else {
      hide Join;
      JoinPlus(a[1..], b, sep);
      assert (a + b)[1..] == a[1..] + b && (a + b)[0] == a[0];
      JoinTwo(a + b, sep);
      JoinTwo(a, sep);
      Regroup(a[0] + sep, Join(a[1..], sep), sep, Join(b, sep));
    }
  }

  // a < b, byte by byte.
  predicate Less(a: string, b: string) {
    b != "" && (a == "" || a[0] < b[0] || (a[0] == b[0] && Less(a[1..], b[1..])))
  }

  lemma {:induction false} LessTotal(a: string, b: string)
    ensures Less(a, b) || a == b || Less(b, a)
    ensures !(Less(a, b) && Less(b, a)) && !Less(a, a)
  {
    if a != "" {
      LessTotal(a[1..], a[1..]);
      if b != "" && a[0] == b[0] {
        LessTotal(a[1..], b[1..]);
        assert a == [a[0]] + a[1..] && b == [b[0]] + b[1..];
      }
    }
  }

  lemma {:induction false} LessTrans(a: string, b: string, c: string)
    requires Less(a, b) && Less(b, c)
    ensures Less(a, c)
  {
    if a != "" && a[0] == b[0] == c[0] {
      LessTrans(a[1..], b[1..], c[1..]);
    }
  }
}
