/**
  engine/cmd/skills_flags.go: the one parser of command lines. What a verb reads is a specification; the parser splits
  words into flags with values, switches, flags that are read by no one, and words that are no flag.
 */
module SkillsFlags {
  import opened Wrappers

  datatype Spec = Spec(
    verb: string, values: seq<string>, switches: seq<string>, wrapper: seq<string>,
    words: int,
    endOfOptions: bool, skipDoubleDash: bool, valueIsNeverAFlag: bool)

  datatype Args = Args(values: map<string, string>, repeated: map<string, seq<string>>, switches: set<string>,
    words: seq<string>)
  {
    function AllValues(flag: string): seq<string> {
      if flag in repeated then repeated[flag] else []
    }
  }

  const NOTHING := Args(map[], map[], {}, [])

  datatype Usage =
    | UnknownFlag(flag: string)
    | ExtraWord(word: string)
    | NoValue(flag: string)
    | FlagToken(flag: string, value: string)

  datatype Result = Ok(args: Args) | Err(usage: Usage)

  predicate Dashed(word: string) {
    "-" <= word
  }

  // --- takeValue ---

  datatype Taken = Taken(value: string) | NoneLeft | Refused(usage: Usage)

  // The value of the flag at the start of args.
  function TakeValue(s: Spec, args: seq<string>): Taken
    requires args != []
  {
    if |args| == 1 then if s.valueIsNeverAFlag then Refused(NoValue(args[0])) else NoneLeft
    else if s.valueIsNeverAFlag && Dashed(args[1]) then Refused(FlagToken(args[0], args[1]))
    else Taken(args[1])
  }

  function WithValue(out: Args, flag: string, value: string): Args {
    out.(values := out.values[flag := value], repeated := out.repeated[flag := out.AllValues(flag) + [value]])
  }

  // --- parse ---

  // What the word at the front is, when options have not ended.
  datatype Kind = EndsOptions | Skipped | ReadFlag | Switch | UnreadFlag | Unknown | Word

  function KindOf(s: Spec, arg: string): Kind {
    if s.endOfOptions && arg == "--" then EndsOptions
    else if s.skipDoubleDash && arg == "--" then Skipped
    else if arg in s.values then ReadFlag
    else if arg in s.switches then Switch
    else if arg in s.wrapper then UnreadFlag
    else if Dashed(arg) then Unknown
    else Word
  }

  // What the parser does with the front of what is left: it stops, or goes on past n words.
  datatype Move = Stop(result: Result) | Go(n: nat, verbNext: bool, ended: bool, out: Args)

  function MoveOf(s: Spec, args: seq<string>, verbNext: bool, ended: bool, out: Args): (m: Move)
    requires args != []
    ensures m.Go? ==> 0 < m.n <= |args|
  {
    match if ended then Word else KindOf(s, args[0])
    case EndsOptions => Go(1, verbNext, true, out)
    case Skipped => Go(1, verbNext, ended, out)
    case ReadFlag =>
      (match TakeValue(s, args)
       case Refused(usage) => Stop(Err(usage))
       case NoneLeft => Go(1, verbNext, ended, out)
       case Taken(value) => Go(2, verbNext, ended, WithValue(out, args[0], value)))
    case Switch => Go(1, verbNext, ended, out.(switches := out.switches + {args[0]}))
    case UnreadFlag =>
      (match TakeValue(s, args)
       case Refused(usage) => Stop(Err(usage))
       case NoneLeft => Go(1, verbNext, ended, out)
       case Taken(_) => Go(2, verbNext, ended, out))
    case Unknown => Stop(Err(UnknownFlag(args[0])))
    case Word =>
      if verbNext && args[0] == s.verb then Go(1, false, ended, out)
      else if s.words >= 0 && |out.words| >= s.words then Stop(Err(ExtraWord(args[0])))
      else Go(1, false, ended, out.(words := out.words + [args[0]]))
  }

  // The parse of what is left of a command line: whether the verb may be the next word, whether options have ended, and
  // what was read so far.
  function ParseRest(s: Spec, args: seq<string>, verbNext: bool, ended: bool, out: Args): Result
    decreases |args|
  {
    if args == [] then Ok(out)
    else match MoveOf(s, args, verbNext, ended, out)
      case Stop(result) => result
      case Go(n, v, e, o) => ParseRest(s, args[n..], v, e, o)
  }

  function Parsed(s: Spec, args: seq<string>): Result {
    ParseRest(s, args, false, false, NOTHING)
  }

  function ParsedAfterVerb(s: Spec, args: seq<string>): Result {
    ParseRest(s, args, true, false, NOTHING)
  }

  // The switch at the top of the loop, over the word at i: what it does, or None when it is left to be a word.
  method FlagAt(s: Spec, args: seq<string>, i: nat, verbNext: bool, out: Args) returns (m: Option<Move>)
    requires i < |args|
    ensures m.None? <==> KindOf(s, args[i]).Word?
    ensures m.Some? ==> m.value == MoveOf(s, args[i..], verbNext, false, out)
  {
    var arg := args[i];
    if s.endOfOptions && arg == "--" { return Some(Go(1, verbNext, true, out)); }
    if s.skipDoubleDash && arg == "--" { return Some(Go(1, verbNext, false, out)); }
    if arg in s.values {
      var taken := TakeValue(s, args[i..]);
      if taken.Refused? { return Some(Stop(Err(taken.usage))); }
      if taken.Taken? { return Some(Go(2, verbNext, false, WithValue(out, arg, taken.value))); }
      return Some(Go(1, verbNext, false, out));
    }
    if arg in s.switches { return Some(Go(1, verbNext, false, out.(switches := out.switches + {arg}))); }
    if arg in s.wrapper {
      var taken := TakeValue(s, args[i..]);
      if taken.Refused? { return Some(Stop(Err(taken.usage))); }
      return Some(Go(if taken.Taken? then 2 else 1, verbNext, false, out));
    }
    if Dashed(arg) { return Some(Stop(Err(UnknownFlag(arg)))); }
    return None;
  }

  method ParseArgs(s: Spec, args: seq<string>, verbAmongArgs: bool) returns (r: Result)
    ensures r == if verbAmongArgs then ParsedAfterVerb(s, args) else Parsed(s, args)
  {
    var out, firstWord, ended, i := NOTHING, true, false, 0;
    while i < |args|
      invariant 0 <= i <= |args|
      invariant ParseRest(s, args, verbAmongArgs, false, NOTHING) ==
                ParseRest(s, args[i..], verbAmongArgs && firstWord, ended, out)
      decreases |args| - i
    {
      var arg := args[i];
      ghost var rest := args[i..];
      assert rest[0] == arg && rest[1..] == args[i + 1..] && (|rest| > 1 ==> rest[2..] == args[i + 2..]);
      if !ended {
        var flag := FlagAt(s, args, i, verbAmongArgs && firstWord, out);
        hide KindOf;
        if flag.Some? {
          if flag.value.Stop? { return flag.value.result; }
          i, ended, out := i + flag.value.n, flag.value.ended, flag.value.out;
          FlagKeepsVerb(s, rest, verbAmongArgs && firstWord, flag.value);
          assert rest[flag.value.n..] == args[i..];
          continue;
        }
      }
      i := i + 1;
      if verbAmongArgs && firstWord {
        firstWord := false;
        if arg == s.verb { continue; }
      }
      if s.words >= 0 && |out.words| >= s.words { return Err(ExtraWord(arg)); }
      out := out.(words := out.words + [arg]);
    }
    return Ok(out);
  }

  lemma FlagKeepsVerb(s: Spec, args: seq<string>, verbNext: bool, move: Move)
    requires args != [] && !KindOf(s, args[0]).Word? && move.Go?
    requires exists out :: move == MoveOf(s, args, verbNext, false, out)
    ensures move.verbNext == verbNext
  {
  }

  // --- the verb among the arguments ---

  // Where the first word is that is no flag and no flag's value, when nothing is refused before it.
  function FirstWord(s: Spec, args: seq<string>, ended: bool): (k: Option<nat>)
    ensures k.Some? ==> k.value < |args|
    decreases |args|
  {
    if args == [] then None
    else if ended || KindOf(s, args[0]).Word? then Some(0)
    else match MoveOf(s, args, false, ended, NOTHING)
      case Stop(_) => None
      case Go(n, _, e, _) =>
        match FirstWord(s, args[n..], e)
        case Some(k) => Some(n + k)
        case None => None
  }

  function Drop(args: seq<string>, k: nat): seq<string>
    requires k < |args|
  {
    args[..k] + args[k + 1..]
  }

  lemma DropAhead(args: seq<string>, n: nat, k: nat)
    requires 0 < n <= k < |args|
    ensures Drop(args, k)[..n] == args[..n] && Drop(args, k)[n..] == Drop(args[n..], k - n)
  {
  }

  // Whether the verb may be next, and what was read, do not matter to how a flag is read.
  lemma FlagMove(s: Spec, args: seq<string>, ended: bool, out: Args)
    requires args != [] && !ended && !KindOf(s, args[0]).Word?
    ensures var move := MoveOf(s, args, false, ended, out);
            && MoveOf(s, args, true, ended, out) == (if move.Go? then move.(verbNext := true) else move)
            && (move.Go? ==> !move.verbNext)
            && var plain := MoveOf(s, args, false, ended, NOTHING);
               if move.Stop? then plain == move else plain.Go? && plain.n == move.n && plain.ended == move.ended
  {
  }

  lemma FirstIsWord(s: Spec, args: seq<string>, ended: bool, out: Args)
    requires args != [] && (ended || KindOf(s, args[0]).Word?)
    ensures ParseRest(s, args, true, ended, out) ==
            if args[0] == s.verb then ParseRest(s, Drop(args, 0), false, ended, out)
            else ParseRest(s, args, false, ended, out)
  {
    assert Drop(args, 0) == args[1..];
  }

  /** Parsing with the verb among the arguments is parsing without the first word, when that word is the verb. */
  lemma {:induction false} VerbIsTheFirstWord(s: Spec, args: seq<string>, ended: bool, out: Args)
    ensures var k := FirstWord(s, args, ended);
            ParseRest(s, args, true, ended, out) ==
            if k.Some? && args[k.value] == s.verb then ParseRest(s, Drop(args, k.value), false, ended, out)
            else ParseRest(s, args, false, ended, out)
    decreases |args|
  {
    if args == [] {
    } else if ended || KindOf(s, args[0]).Word? {
      hide MoveOf, KindOf;
      FirstIsWord(s, args, ended, out);
    } else {
      hide MoveOf, KindOf, Drop;
      var k, move := FirstWord(s, args, ended), MoveOf(s, args, false, ended, out);
      FlagMove(s, args, ended, out);
      if move.Go? {
        VerbIsTheFirstWord(s, args[move.n..], move.ended, move.out);
        if k.Some? && args[k.value] == s.verb { DroppedMove(s, args, k.value, ended, out); }
      }
    }
  }

  // The move before the verb is the same without it.
  lemma DroppedMove(s: Spec, args: seq<string>, k: nat, ended: bool, out: Args)
    requires args != [] && FirstWord(s, args, ended) == Some(k) && k > 0
    requires MoveOf(s, args, false, ended, out).Go?
    ensures var n := MoveOf(s, args, false, ended, out).n;
            n <= k && MoveOf(s, Drop(args, k), false, ended, out) == MoveOf(s, args, false, ended, out)
            && Drop(args, k)[n..] == Drop(args[n..], k - n)
  {
    var n, d := MoveOf(s, args, false, ended, out).n, Drop(args, k);
    MoveEndsBefore(s, args, k, ended, out);
    hide FirstWord, MoveOf, KindOf;
    DropAhead(args, n, k);
    assert d[0] == args[0] && |d| >= n && (n == 2 ==> d[1] == d[..2][1] == args[..2][1]);
    hide Drop;
    MoveLooksBehind(s, args, d, ended, out);
  }

  // The first word is not in the move before it, which is of a flag.
  lemma MoveEndsBefore(s: Spec, args: seq<string>, k: nat, ended: bool, out: Args)
    requires args != [] && FirstWord(s, args, ended) == Some(k) && k > 0
    requires MoveOf(s, args, false, ended, out).Go?
    ensures 0 < MoveOf(s, args, false, ended, out).n <= 2 && MoveOf(s, args, false, ended, out).n <= k
    ensures !ended && !KindOf(s, args[0]).Word?
  {
    FlagMove(s, args, ended, out);
    hide KindOf;
  }

  // With more words to come, a move of a flag looks at no word after those it takes.
  lemma MoveLooksBehind(s: Spec, args: seq<string>, d: seq<string>, ended: bool, out: Args)
    requires args != [] && d != [] && !ended && !KindOf(s, args[0]).Word? && d[0] == args[0]
    requires var m := MoveOf(s, args, false, ended, out);
             m.Go? && |d| >= m.n && |args| > 1 && (m.n == 2 ==> d[1] == args[1])
    ensures MoveOf(s, d, false, ended, out) == MoveOf(s, args, false, ended, out)
  {
    hide KindOf;
  }

  /** parseAfterVerb is parse of the arguments without their first word, when it is the verb. */
  lemma AfterVerb(s: Spec, args: seq<string>)
    ensures var k := FirstWord(s, args, false);
            ParsedAfterVerb(s, args) ==
                Parsed(s, if k.Some? && args[k.value] == s.verb then Drop(args, k.value) else args)
  {
    VerbIsTheFirstWord(s, args, false, NOTHING);
  }

  // --- what the wrapper appends ---

  // How a command line ends: with its options still on and no flag left without a value, or not.
  datatype End = Clean | Pending | OptionsEnded | Refusal

  // A flag with a value is the last word.
  predicate LeavesFlag(s: Spec, args: seq<string>, ended: bool) {
    |args| == 1 && !ended && (KindOf(s, args[0]).ReadFlag? || KindOf(s, args[0]).UnreadFlag?)
  }

  function EndOf(s: Spec, args: seq<string>, ended: bool, out: Args): End
    decreases |args|
  {
    if args == [] then if ended then OptionsEnded else Clean
    else if LeavesFlag(s, args, ended) then Pending
    else match MoveOf(s, args, false, ended, out)
      case Stop(_) => Refusal
      case Go(n, _, e, o) => EndOf(s, args[n..], e, o)
  }

  lemma MoveBeforeMore(s: Spec, args: seq<string>, more: seq<string>, ended: bool, out: Args)
    requires args != [] && !LeavesFlag(s, args, ended)
    ensures MoveOf(s, args + more, false, ended, out) == MoveOf(s, args, false, ended, out)
  {
    assert (args + more)[0] == args[0] && (|args| > 1 ==> (args + more)[1] == args[1]);
  }

  lemma AppendedAtEnd(s: Spec, w: string, v: string, ended: bool, out: Args)
    requires KindOf(s, w).UnreadFlag? && KindOf(s, v).Word?
    ensures ParseRest(s, [w, v], false, ended, out) == Ok(out) <==> !ended
  {
    var more := [w, v];
    assert more[2..] == [] && more[1..] == [v] && [v][1..] == [];
    if ended {
      var move := MoveOf(s, more, false, true, out);
      if move.Go? {
        assert ParseRest(s, more, false, true, out) == ParseRest(s, [v], false, true, move.out);
        var next := MoveOf(s, [v], false, true, move.out);
        assert ParseRest(s, [v], false, true, move.out) == if next.Go? then Ok(next.out) else next.result;
        assert next.Go? ==> |next.out.words| == |out.words| + 2;
      }
    }
  }

  lemma AppendedToFlag(s: Spec, f: string, w: string, v: string, out: Args)
    requires LeavesFlag(s, [f], false) && KindOf(s, w).UnreadFlag? && Dashed(w) && KindOf(s, v).Word?
    ensures ParseRest(s, [f, w, v], false, false, out) != ParseRest(s, [f], false, false, out)
  {
    var all := [f, w, v];
    var move, last := MoveOf(s, all, false, false, out), MoveOf(s, [f], false, false, out);
    assert all[2..] == [v] && [v][1..] == [] && [f][1..] == [];
    if !s.valueIsNeverAFlag {
      assert move.Go? && move.n == 2 && last == Go(1, false, false, out);
      var next := MoveOf(s, [v], false, false, move.out);
      assert next.Go? ==> |next.out.words| == |out.words| + 1;
      assert ParseRest(s, [v], false, false, move.out) == if next.Go? then Ok(next.out) else next.result;
      assert ParseRest(s, [f], false, false, out) == Ok(out);
    }
  }

  /** A flag the verb does not read and a value, put after a command line, change nothing if and only if the command
      line was refused already, or ends with its options on and no flag left without a value. */
  lemma {:induction false} AppendedChangesNothing(s: Spec, args: seq<string>, w: string, v: string, ended: bool,
          out: Args)
    requires KindOf(s, w).UnreadFlag? && Dashed(w) && KindOf(s, v).Word?
    ensures ParseRest(s, args + [w, v], false, ended, out) == ParseRest(s, args, false, ended, out) <==>
            EndOf(s, args, ended, out) in {Clean, Refusal}
    decreases |args|
  {
    if args == [] {
      assert args + [w, v] == [w, v];
      AppendedAtEnd(s, w, v, ended, out);
    } else if LeavesFlag(s, args, ended) {
      assert args == [args[0]] && args + [w, v] == [args[0], w, v];
      AppendedToFlag(s, args[0], w, v, out);
    } else {
      MoveBeforeMore(s, args, [w, v], ended, out);
      var move := MoveOf(s, args, false, ended, out);
      hide MoveOf, KindOf, LeavesFlag;
      if move.Go? {
        MoveKeepsVerb(s, args, ended, out);
        AppendedChangesNothing(s, args[move.n..], w, v, move.ended, move.out);
        assert (args + [w, v])[move.n..] == args[move.n..] + [w, v];
      }
    }
  }

  lemma MoveKeepsVerb(s: Spec, args: seq<string>, ended: bool, out: Args)
    requires args != []
    ensures var move := MoveOf(s, args, false, ended, out); move.Go? ==> !move.verbNext
  {
  }

  /** As a whole: what `labdrian` appends to every verb is harmless to one that does not read it, exactly then. */
  lemma WrapperFlagsAreHarmless(s: Spec, args: seq<string>, w: string, v: string)
    requires KindOf(s, w).UnreadFlag? && Dashed(w) && KindOf(s, v).Word?
    ensures Parsed(s, args + [w, v]) == Parsed(s, args) <==> EndOf(s, args, false, NOTHING) in {Clean, Refusal}
  {
    AppendedChangesNothing(s, args, w, v, false, NOTHING);
  }

  // --- switches ---

  // The word is there, before options end.
  ghost predicate Given(s: Spec, args: seq<string>, x: string) {
    exists i :: 0 <= i < |args| && args[i] == x && (s.endOfOptions ==> "--" !in args[..i])
  }

  lemma GivenStep(s: Spec, args: seq<string>, x: string)
    requires args != []
    ensures Given(s, args, x) <==> args[0] == x || (!(s.endOfOptions && args[0] == "--") && Given(s, args[1..], x))
  {
    var rest := args[1..];
    forall i | 0 <= i < |rest|
      ensures "--" in args[..i + 1] <==> args[0] == "--" || "--" in rest[..i]
    {
      assert args[..i + 1] == [args[0]] + rest[..i];
    }
    if args[0] == x { assert args[..0] == []; }
    if i :| 0 <= i < |rest| && rest[i] == x && (s.endOfOptions ==> "--" !in rest[..i]) {
      assert args[i + 1] == x;
      if !(s.endOfOptions && args[0] == "--") { assert Given(s, args, x); }
    }
    if i :| 0 <= i < |args| && args[i] == x && (s.endOfOptions ==> "--" !in args[..i]) {
      if i > 0 { assert rest[i - 1] == x; }
    }
  }

  // Once options have ended, no switch is set.
  lemma {:induction false} NoSwitchAfterEnd(s: Spec, args: seq<string>, verbNext: bool, out: Args)
    ensures ParseRest(s, args, verbNext, true, out).Ok? ==>
              ParseRest(s, args, verbNext, true, out).args.switches == out.switches
    decreases |args|
  {
    if args != [] {
      var move := MoveOf(s, args, verbNext, true, out);
      if move.Go? { NoSwitchAfterEnd(s, args[move.n..], move.verbNext, move.out); }
    }
  }

  // What one move does to a switch, when a value is never a flag.
  lemma SwitchMove(s: Spec, args: seq<string>, verbNext: bool, out: Args, x: string)
    requires args != [] && s.valueIsNeverAFlag && KindOf(s, x).Switch? && Dashed(x)
    requires MoveOf(s, args, verbNext, false, out).Go?
    ensures var move := MoveOf(s, args, verbNext, false, out);
            && (move.ended <==> s.endOfOptions && args[0] == "--")
            && (x in move.out.switches <==> x in out.switches || args[0] == x)
            && (move.n == 2 ==> !Dashed(args[1]) && args[1] != x && args[1] != "--")
  {
    assert Dashed("--");
  }

  lemma {:induction false} SwitchIsSet(s: Spec, args: seq<string>, verbNext: bool, out: Args, x: string)
    requires s.valueIsNeverAFlag && KindOf(s, x).Switch? && Dashed(x)
    ensures var r := ParseRest(s, args, verbNext, false, out);
            r.Ok? ==> (x in r.args.switches <==> x in out.switches || Given(s, args, x))
    decreases |args|
  {
    if args != [] {
      var move := MoveOf(s, args, verbNext, false, out);
      GivenStep(s, args, x);
      if move.Go? {
        SwitchMove(s, args, verbNext, out, x);
        hide MoveOf, KindOf, Given, Dashed;
        if move.ended {
          NoSwitchAfterEnd(s, args[move.n..], move.verbNext, move.out);
        } else {
          if move.n == 2 {
            GivenStep(s, args[1..], x);
            assert args[1..][1..] == args[2..];
          }
          SwitchIsSet(s, args[move.n..], move.verbNext, move.out, x);
        }
      }
    }
  }

  /** When a value is never a flag, a switch such as --dry-run is set by a parse that succeeds if and only if it is
      among the words before the options end: no flag can have taken it as its value. */
  lemma SwitchIsNeverAValue(s: Spec, args: seq<string>, x: string)
    requires s.valueIsNeverAFlag && KindOf(s, x).Switch? && Dashed(x)
    ensures Parsed(s, args).Ok? ==> (x in Parsed(s, args).args.switches <==> Given(s, args, x))
    ensures ParsedAfterVerb(s, args).Ok? ==> (x in ParsedAfterVerb(s, args).args.switches <==> Given(s, args, x))
  {
    SwitchIsSet(s, args, false, NOTHING, x);
    SwitchIsSet(s, args, true, NOTHING, x);
  }

  /** Without that rule a flag takes the switch after it as its value, and the switch is not set. */
  lemma SwitchTakenAsValue(s: Spec, f: string, x: string)
    requires !s.valueIsNeverAFlag && KindOf(s, f).ReadFlag?
    ensures Parsed(s, [f, x]) == Ok(WithValue(NOTHING, f, x))
  {
    var args := [f, x];
    assert MoveOf(s, args, false, false, NOTHING) == Go(2, false, false, WithValue(NOTHING, f, x));
    assert args[2..] == [];
    assert Parsed(s, args) == ParseRest(s, [], false, false, WithValue(NOTHING, f, x));
  }

  // --- values ---

  ghost predicate LastWins(out: Args) {
    && out.values.Keys == out.repeated.Keys
    && forall f :: f in out.values ==> out.repeated[f] != [] && out.values[f] == out.repeated[f][|out.repeated[f]| - 1]
  }

  lemma MoveKeepsValues(s: Spec, args: seq<string>, verbNext: bool, ended: bool, out: Args)
    requires args != [] && LastWins(out) && (s.words >= 0 ==> |out.words| <= s.words)
    ensures var move := MoveOf(s, args, verbNext, ended, out);
            move.Go? ==> LastWins(move.out) && (s.words >= 0 ==> |move.out.words| <= s.words)
  {
    hide KindOf, LastWins, WithValue;
    if |args| > 1 { ValueKeepsLast(out, args[0], args[1]); }
    OthersKeepLast(out, out.switches + {args[0]}, out.words);
    OthersKeepLast(out, out.switches, out.words + [args[0]]);
  }

  lemma OthersKeepLast(out: Args, switches: set<string>, words: seq<string>)
    requires LastWins(out)
    ensures LastWins(out.(switches := switches)) && LastWins(out.(words := words))
  {
  }

  lemma ValueKeepsLast(out: Args, flag: string, value: string)
    requires LastWins(out)
    ensures LastWins(WithValue(out, flag, value)) && WithValue(out, flag, value).words == out.words
  {
  }

  /** The value of a flag is the last of the values that are kept for it, and it has one when any is kept; no more words
      are kept than the verb accepts. */
  lemma {:induction false} ValuesAreKept(s: Spec, args: seq<string>, verbNext: bool, ended: bool, out: Args)
    requires LastWins(out) && (s.words >= 0 ==> |out.words| <= s.words)
    ensures var r := ParseRest(s, args, verbNext, ended, out);
            r.Ok? ==> LastWins(r.args) && (s.words >= 0 ==> |r.args.words| <= s.words)
    decreases |args|
  {
    if args != [] {
      var move := MoveOf(s, args, verbNext, ended, out);
      MoveKeepsValues(s, args, verbNext, ended, out);
      hide MoveOf, LastWins;
      if move.Go? { ValuesAreKept(s, args[move.n..], move.verbNext, move.ended, move.out); }
    }
  }

  // --- a command line is read as what it says ---

  // What a piece of a command line says.
  datatype Piece = Value(flag: string, value: string) | On(flag: string) | Ignored(flag: string, value: string)
                 | Plain(word: string)

  function Spelled(pieces: seq<Piece>): seq<string> {
    if pieces == [] then []
    else
      (match pieces[0]
       case Value(f, v) => [f, v]
       case On(f) => [f]
       case Ignored(f, v) => [f, v]
       case Plain(w) => [w]) + Spelled(pieces[1..])
  }

  // The piece can be said to the verb: a flag that is in its list and in none before it, a value that is no flag where
  // one may not be.
  predicate Fits(s: Spec, piece: Piece) {
    match piece
    case Value(f, v) => f in s.values && f != "--" && (s.valueIsNeverAFlag ==> !("-" <= v))
    case On(f) => f in s.switches && f !in s.values && f != "--"
    case Ignored(f, v) =>
      f in s.wrapper && f !in s.switches && f !in s.values && f != "--" && (s.valueIsNeverAFlag ==> !("-" <= v))
    case Plain(w) => w !in s.wrapper && w !in s.switches && w !in s.values && !("-" <= w)
  }

  function WordsOf(pieces: seq<Piece>): seq<string> {
    if pieces == [] then []
    else (if pieces[0].Plain? then [pieces[0].word] else []) + WordsOf(pieces[1..])
  }

  function ValuesOf(pieces: seq<Piece>, flag: string): seq<string> {
    if pieces == [] then []
    else (if pieces[0].Value? && pieces[0].flag == flag then [pieces[0].value] else []) + ValuesOf(pieces[1..], flag)
  }

  // What is read so far and the pieces say, together.
  ghost predicate Adds(out: Args, pieces: seq<Piece>, now: Args) {
    && now.words == out.words + WordsOf(pieces)
    && (forall f :: f in now.switches <==> f in out.switches || On(f) in pieces)
    && (forall f :: now.AllValues(f) == out.AllValues(f) + ValuesOf(pieces, f))
  }

  predicate HasRoom(s: Spec, out: Args, pieces: seq<Piece>) {
    s.words >= 0 ==> |out.words| + |WordsOf(pieces)| <= s.words
  }

  function After(out: Args, piece: Piece): Args {
    match piece
    case Value(f, v) => WithValue(out, f, v)
    case On(f) => out.(switches := out.switches + {f})
    case Ignored(_, _) => out
    case Plain(w) => out.(words := out.words + [w])
  }

  lemma SpelledOne(piece: Piece, more: seq<string>)
    ensures var args := Spelled([piece]) + more;
            match piece
            case Value(f, v) => |args| > 1 && args[0] == f && args[1] == v && args[2..] == more
            case Ignored(f, v) => |args| > 1 && args[0] == f && args[1] == v && args[2..] == more
            case On(f) => args != [] && args[0] == f && args[1..] == more
            case Plain(w) => args != [] && args[0] == w && args[1..] == more
  {
    assert [piece][1..] == [] && Spelled([]) == [];
  }

  // One piece is one move.
  lemma PieceMoves(s: Spec, piece: Piece, args: seq<string>, out: Args)
    requires args != [] && Fits(s, piece) && (piece.Plain? && s.words >= 0 ==> |out.words| < s.words)
    requires match piece
             case Value(f, v) => |args| > 1 && args[0] == f && args[1] == v
             case Ignored(f, v) => |args| > 1 && args[0] == f && args[1] == v
             case On(f) => args[0] == f
             case Plain(w) => args[0] == w
    ensures MoveOf(s, args, false, false, out) ==
            Go(if piece.Value? || piece.Ignored? then 2 else 1, false, false, After(out, piece))
  {
    assert Dashed("--");
  }

  lemma AfterAdds(out: Args, piece: Piece)
    ensures Adds(out, [piece], After(out, piece)) && (LastWins(out) ==> LastWins(After(out, piece)))
  {
    var now := After(out, piece);
    WordOfOne(piece);
    ValueOfOne(piece);
    hide WordsOf, ValuesOf, LastWins;
    match piece
    case Value(f, v) =>
      assert now.words == out.words + [] && now.AllValues(f) == out.AllValues(f) + [v];
      if LastWins(out) { ValueKeepsLast(out, f, v); }
    case On(f) =>
      if LastWins(out) { OthersKeepLast(out, out.switches + {f}, out.words); }
    case Ignored(_, _) =>
      assert now.words == out.words + [];
    case Plain(w) =>
      if LastWins(out) { OthersKeepLast(out, out.switches, out.words + [w]); }
  }

  lemma WordOfOne(piece: Piece)
    ensures WordsOf([piece]) == if piece.Plain? then [piece.word] else []
  {
    assert [piece][1..] == [];
  }

  lemma ValueOfOne(piece: Piece)
    ensures forall f :: ValuesOf([piece], f) == if piece.Value? && piece.flag == f then [piece.value] else []
  {
    assert [piece][1..] == [];
  }

  lemma PieceIsRead(s: Spec, piece: Piece, more: seq<string>, out: Args) returns (next: Args)
    requires Fits(s, piece) && HasRoom(s, out, [piece])
    ensures ParseRest(s, Spelled([piece]) + more, false, false, out) == ParseRest(s, more, false, false, next)
    ensures Adds(out, [piece], next) && (LastWins(out) ==> LastWins(next))
  {
    next := After(out, piece);
    assert [piece][1..] == [] && |WordsOf([piece])| == if piece.Plain? then 1 else 0;
    hide Fits, MoveOf, Adds, LastWins, After, Spelled;
    SpelledOne(piece, more);
    PieceMoves(s, piece, Spelled([piece]) + more, out);
    AfterAdds(out, piece);
  }

  lemma AddsTwice(out: Args, piece: Piece, pieces: seq<Piece>, next: Args, now: Args)
    requires Adds(out, [piece], next) && Adds(next, pieces, now)
    ensures Adds(out, [piece] + pieces, now)
  {
    var all := [piece] + pieces;
    assert all[1..] == pieces && [piece][1..] == [];
    assert WordsOf(all) == WordsOf([piece]) + WordsOf(pieces);
    forall f
      ensures ValuesOf(all, f) == ValuesOf([piece], f) + ValuesOf(pieces, f)
    {
    }
  }

  lemma {:induction false} PiecesAreRead(s: Spec, pieces: seq<Piece>, more: seq<string>, out: Args) returns (now: Args)
    requires (forall piece :: piece in pieces ==> Fits(s, piece)) && HasRoom(s, out, pieces) && LastWins(out)
    ensures ParseRest(s, Spelled(pieces) + more, false, false, out) == ParseRest(s, more, false, false, now)
    ensures Adds(out, pieces, now) && LastWins(now)
  {
    if pieces == [] {
      now := out;
      assert Spelled(pieces) + more == more;
    } else {
      hide ParseRest, Fits, LastWins;
      var piece, rest := pieces[0], pieces[1..];
      assert pieces == [piece] + rest && [piece][1..] == [];
      assert |WordsOf(pieces)| == |WordsOf([piece])| + |WordsOf(rest)|;
      assert Spelled(pieces) + more == Spelled([piece]) + (Spelled(rest) + more);
      var next := PieceIsRead(s, piece, Spelled(rest) + more, out);
      assert |next.words| == |out.words| + |WordsOf([piece])|;
      now := PiecesAreRead(s, rest, more, next);
      hide Adds, HasRoom;
      AddsTwice(out, piece, rest, next, now);
    }
  }

  /** A command line spelled from pieces that fit the verb, no more words than it takes, is read as exactly what they
      say: the words in order, the switches that are on, all values of each flag in order, and of each flag the last. */
  lemma CommandLineIsRead(s: Spec, pieces: seq<Piece>)
    requires (forall piece :: piece in pieces ==> Fits(s, piece)) && (s.words >= 0 ==> |WordsOf(pieces)| <= s.words)
    ensures var r := Parsed(s, Spelled(pieces));
            && r.Ok?
            && r.args.words == WordsOf(pieces)
            && (forall f :: f in r.args.switches <==> On(f) in pieces)
            && (forall f :: r.args.AllValues(f) == ValuesOf(pieces, f))
            && (forall f :: f in r.args.values <==> ValuesOf(pieces, f) != [])
            && forall f :: f in r.args.values ==>
                             r.args.values[f] == ValuesOf(pieces, f)[|ValuesOf(pieces, f)| - 1]
  {
    var now := PiecesAreRead(s, pieces, [], NOTHING);
    assert Spelled(pieces) + [] == Spelled(pieces);
    assert Parsed(s, Spelled(pieces)) == Ok(now);
    forall f
      ensures now.AllValues(f) == ValuesOf(pieces, f)
    {
      assert NOTHING.AllValues(f) == [];
    }
  }

  lemma FaultStops(s: Spec, w: string, more: seq<string>, out: Args)
    requires w != "--" && w !in s.switches
    ensures var r := ParseRest(s, [w] + more, false, false, out);
            if w in s.values || w in s.wrapper then
              s.valueIsNeverAFlag ==>
                && (more == [] ==> r == Err(NoValue(w)))
                && (more != [] && "-" <= more[0] ==> r == Err(FlagToken(w, more[0])))
            else if "-" <= w then r == Err(UnknownFlag(w))
            else s.words >= 0 && |out.words| >= s.words ==> r == Err(ExtraWord(w))
  {
    var args := [w] + more;
    assert args[0] == w && (more != [] ==> args[1] == more[0]);
  }

  /** The first word that does not fit is refused for what it is, whatever comes after. */
  lemma FirstFaultIsNamed(s: Spec, pieces: seq<Piece>, w: string, more: seq<string>)
    requires (forall piece :: piece in pieces ==> Fits(s, piece)) && (s.words >= 0 ==> |WordsOf(pieces)| <= s.words)
    requires w != "--" && w !in s.switches
    ensures var r := Parsed(s, Spelled(pieces) + ([w] + more));
            if w in s.values || w in s.wrapper then
              s.valueIsNeverAFlag ==>
                && (more == [] ==> r == Err(NoValue(w)))
                && (more != [] && "-" <= more[0] ==> r == Err(FlagToken(w, more[0])))
            else if "-" <= w then r == Err(UnknownFlag(w))
            else |WordsOf(pieces)| == s.words ==> r == Err(ExtraWord(w))
  {
    hide Adds, ParseRest, Fits, Spelled, WordsOf;
    var now := PiecesAreRead(s, pieces, [w] + more, NOTHING);
    WordsAdded(NOTHING, pieces, now);
    FaultStops(s, w, more, now);
  }

  lemma WordsAdded(out: Args, pieces: seq<Piece>, now: Args)
    requires Adds(out, pieces, now)
    ensures |now.words| == |out.words| + |WordsOf(pieces)|
  {
  }

  // --- the verbs that take --dry-run ---

  const REGISTER := Spec("project-register", ["--project-root", "--registry", "--candidate"], ["--dry-run"],
                         ["--manifest", "--source-root"], 1, true, false, true)

  const REVISE := REGISTER.(verb := "project-revise")

  const RETIRE := Spec("project-retire", ["--project-root", "--registry", "--reason", "--absorbed-into"], ["--dry-run"],
                       ["--manifest", "--source-root"], 1, true, false, true)

  const UNINSTALL :=
          Spec("uninstall", [], ["--dry-run"], ["--registry", "--manifest", "--source-root"], 1, true, false, true)

  /** A verb that writes and was given --dry-run before any "--" is told so whenever its command line is accepted. */
  lemma DryRunIsHeard(s: Spec, args: seq<string>)
    requires s in {REGISTER, REVISE, RETIRE, UNINSTALL} && Parsed(s, args).Ok?
    ensures "--dry-run" in Parsed(s, args).args.switches <==> Given(s, args, "--dry-run")
  {
    var x := "--dry-run";
    assert Dashed(x) && x != "--" && x !in s.values && x in s.switches by {
      assert x[2] == 'd' && forall f :: f in s.values ==> f[2] != 'd';
      assert s.switches[0] == x;
    }
    assert KindOf(s, x).Switch?;
    SwitchIsNeverAValue(s, args, x);
  }
}
