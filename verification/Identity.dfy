/**
  identity/identity.go: the name of a project, taken from the remote of its repository. Case is folded for ASCII
  letters.
 */
module Identity {
  import opened Wrappers
  import opened Text

  // --- NormalizeRemote ---

  datatype Parts = Parts(host: string, path: string)

  // The host and the path as they are written, when there is a host to key on.
  function RawParts(url: string): Option<Parts> {
    var (scheme, rest, ok) := Cut(url, "://");
    if ok then
      if EqualFold(scheme, "file") then None
      else Some(Parts(Cut(rest, "/").0, Cut(rest, "/").1))
    else
      var (before, after, found) := Cut(url, ":");
      if found && '/' !in before then Some(Parts(before, after)) else None
  }

  function HostOf(host: string): string {
    var (_, h, ok) := Cut(host, "@");
    ToLower(TrimSpace(if ok then h else host))
  }

  function PathOf(path: string): string {
    Trim(TrimSuffix(Trim(TrimSpace(path), {'/'}), ".git"), {'/'})
  }

  // The lowercased host and the stripped path, when neither is empty.
  function RemoteParts(url: string): Option<Parts> {
    match RawParts(TrimSpace(url))
    case None => None
    case Some(raw) =>
      var p := Parts(HostOf(raw.host), PathOf(raw.path));
      if p.host == "" || p.path == "" then None else Some(p)
  }

  // "" when there is no name to take.
  function NormalizeRemote(url: string): string {
    match RemoteParts(url)
    case None => ""
    case Some(p) => p.host + "/" + p.path
  }

  lemma {:induction false} TrimmedIsPart(s: string, cutset: set<char>)
    ensures forall c :: c in TrimLeft(s, cutset) ==> c in s
    ensures forall c :: c in TrimRight(s, cutset) ==> c in s
    decreases |s|
  {
    if s != "" {
      TrimmedIsPart(s[1..], cutset);
      TrimmedIsPart(s[..|s| - 1], cutset);
    }
  }

  lemma LowerKeeps(s: string, c: char)
    requires c !in s && !('a' <= c <= 'z')
    ensures c !in ToLower(s)
  {
  }

  // The host of a name holds no slash.
  lemma HostHasNoSlash(url: string)
    ensures RemoteParts(url).Some? ==> '/' !in RemoteParts(url).value.host
  {
    var u := TrimSpace(url);
    var raw := RawParts(u);
    if raw.Some? {
      var host := raw.value.host;
      assert '/' !in host by {
        var (scheme, rest, ok) := Cut(u, "://");
        if ok { CutParts(rest, "/"); }
      }
      var (_, h, ok) := Cut(host, "@");
      CutParts(host, "@");
      var name := if ok then h else host;
      assert '/' !in name by { if ok { SuffixHolds(Cut(host, "@").0 + "@", h, host); } }
      TrimmedIsPart(name, SPACE);
      TrimmedIsPart(TrimLeft(name, SPACE), SPACE);
      LowerKeeps(TrimSpace(name), '/');
    }
  }

  // No "://" starts before the place.
  ghost predicate NoSchemeBefore(url: string, at: nat) {
    forall i :: 0 <= i < at && i <= |url| ==> !("://" <= url[i..])
  }

  // The url is written with a host and a path: after a scheme that is not file, or in the form of scp.
  ghost predicate Spells(url: string, p: Parts) {
    '/' !in p.host && (SpellsAfterScheme(url, p) || SpellsScp(url, p))
  }

  ghost predicate SpellsAfterScheme(url: string, p: Parts) {
    exists scheme, rest :: url == scheme + "://" + rest && NoSchemeBefore(url, |scheme|) && !EqualFold(scheme, "file")
                           && (rest == p.host + "/" + p.path || (rest == p.host && p.path == ""))
  }

  ghost predicate SpellsScp(url: string, p: Parts) {
    NoSchemeBefore(url, |url| + 1) && ':' !in p.host && url == p.host + ":" + p.path
  }

  // Where the first separator is.
  lemma CutFirst(url: string, sep: string)
    requires sep != ""
    ensures var (a, b, found) := Cut(url, sep);
            if found then url == a + sep + b && forall i :: 0 <= i < |a| ==> !(sep <= url[i..])
            else forall i :: 0 <= i <= |url| ==> !(sep <= url[i..])
    ensures forall a, b :: url == a + sep + b && (forall i :: 0 <= i < |a| ==> !(sep <= url[i..])) ==>
                             Cut(url, sep) == (a, b, true)
  {
    IndexFirst(url, sep);
    hide Index;
    if Index(url, sep).Some? {
      var at := Index(url, sep).value;
      assert url == url[..at] + url[at..] && url[at..] == sep + url[at..][|sep|..];
    }
    forall a, b | url == a + sep + b && forall i :: 0 <= i < |a| ==> !(sep <= url[i..])
      ensures Cut(url, sep) == (a, b, true)
    {
      assert url[|a|..] == sep + b && url[..|a|] == a && url[|a| + |sep|..] == b;
      assert Index(url, sep) == Some(|a|);
    }
  }

  lemma AfterScheme(url: string, scheme: string, rest: string, p: Parts)
    requires Cut(url, "://") == (scheme, rest, true)
    ensures SpellsAfterScheme(url, p) <==>
            !EqualFold(scheme, "file") && (rest == p.host + "/" + p.path || (rest == p.host && p.path == ""))
    ensures !SpellsScp(url, p)
  {
    CutFirst(url, "://");
    hide Cut, EqualFold;
    if SpellsAfterScheme(url, p) {
      var s, r :| url == s + "://" + r && NoSchemeBefore(url, |s|) && !EqualFold(s, "file")
                  && (r == p.host + "/" + p.path || (r == p.host && p.path == ""));
      assert Cut(url, "://") == (s, r, true);
    }
    assert NoSchemeBefore(url, |scheme|);
    assert url[|scheme|..] == "://" + rest;
    assert "://" <= url[|scheme|..];
  }

  lemma WithoutScheme(url: string, p: Parts)
    requires !Cut(url, "://").2
    ensures !SpellsAfterScheme(url, p)
    ensures SpellsScp(url, p) <==> ':' !in p.host && url == p.host + ":" + p.path
  {
    CutFirst(url, "://");
    hide Cut;
  }

  /** Which texts have a host to key on, and which host and path they write. A file and a path of this machine have
      none. */
  lemma RawPartsIff(url: string, p: Parts)
    ensures RawParts(url) == Some(p) <==> Spells(url, p)
  {
    var (scheme, rest, found) := Cut(url, "://");
    hide Cut, EqualFold, SpellsAfterScheme, SpellsScp;
    if found {
      AfterScheme(url, scheme, rest, p);
      CutOne(rest, '/');
      assert rest == p.host + "/" + p.path ==> rest == p.host + ['/'] + p.path;
    } else {
      WithoutScheme(url, p);
      CutOne(url, ':');
      assert url == p.host + ":" + p.path ==> url == p.host + [':'] + p.path;
    }
  }

  lemma CutOne(s: string, sep: char)
    ensures var (a, b, found) := Cut(s, [sep]);
            sep !in a && if found then s == a + [sep] + b else a == s && b == ""
    ensures forall a, b :: sep !in a && s == a + [sep] + b ==> Cut(s, [sep]) == (a, b, true)
    ensures sep !in s ==> Cut(s, [sep]) == (s, "", false)
  {
    CutParts(s, [sep]);
    forall a, b | sep !in a && s == a + [sep] + b
      ensures Cut(s, [sep]) == (a, b, true)
    {
      assert s[..|a|] == a && s[|a|] == sep && s[|a| + 1..] == b;
      CutAt(s, [sep], |a|);
    }
  }

  lemma SuffixHolds(a: string, b: string, s: string)
    requires a + b == s
    ensures forall c :: c in b ==> c in s
  {
    forall c | c in b
      ensures c in s
    {
      var i :| 0 <= i < |b| && b[i] == c;
      assert s[|a| + i] == c;
    }
  }

  /** Two remotes have one name if and only if they have the same host and the same path, as the two are stripped. */
  lemma OneNameOneRepository(u: string, v: string)
    requires NormalizeRemote(u) != ""
    ensures NormalizeRemote(u) == NormalizeRemote(v) <==> RemoteParts(u) == RemoteParts(v)
  {
    HostHasNoSlash(u);
    HostHasNoSlash(v);
    hide RemoteParts;
    if NormalizeRemote(u) == NormalizeRemote(v) {
      var a, b := RemoteParts(u).value, RemoteParts(v).value;
      SlashTellsApart(a.host, a.path, b.host, b.path);
    }
  }

  lemma SlashTellsApart(a: string, p: string, b: string, q: string)
    requires '/' !in a && '/' !in b && a + "/" + p == b + "/" + q
    ensures a == b && p == q
  {
    var s := a + "/" + p;
    assert s[|a|] == '/' && s[|b|] == '/';
    assert forall k :: 0 <= k < |a| ==> s[k] == a[k] && a[k] != '/';
    assert forall k :: 0 <= k < |b| ==> s[k] == b[k] && b[k] != '/';
    assert |a| == |b|;
    assert a == s[..|a|] && b == s[..|b|] && p == s[|a| + 1..] && q == s[|b| + 1..];
  }

  // --- the spellings of one remote ---

  // A host and a path as they are in a name.
  predicate Plain(h: string, p: string) {
    && h != "" && (forall i :: 0 <= i < |h| ==> h[i] !in SPACE + {'/', ':', '@'} && !('A' <= h[i] <= 'Z'))
    && p != "" && (forall i :: 0 <= i < |p| ==> p[i] !in SPACE + {':'})
    && p[0] != '/' && p[|p| - 1] != '/' && !HasSuffix(p, ".git")
  }

  lemma LowerIsLower(s: string)
    requires forall i :: 0 <= i < |s| ==> !('A' <= s[i] <= 'Z')
    ensures ToLower(s) == s
  {
  }

  lemma PlainHost(h: string, p: string)
    requires Plain(h, p)
    ensures HostOf(h) == h && HostOf("git@" + h) == h
  {
    TrimPlain(h, SPACE);
    LowerIsLower(h);
    CutParts(h, "@");
    assert '@' !in h;
    var s := "git@" + h;
    assert s[3] == '@' && s[4..] == h && s[..3] == "git";
    CutAt(s, "@", 3);
  }

  lemma PlainPath(h: string, p: string)
    requires Plain(h, p)
    ensures PathOf(p) == p && PathOf(p + ".git") == p
  {
    TrimPlain(p, SPACE);
    TrimPlain(p, {'/'});
    TrimPlain(p + ".git", SPACE);
    TrimPlain(p + ".git", {'/'});
    assert (p + ".git")[|p|..] == ".git" && (p + ".git")[..|p|] == p;
  }

  // The colon of a text where no other is.
  lemma OneColon(a: string, b: string)
    requires ':' !in a && ':' !in b
    ensures Cut(a + ":" + b, ":") == (a, b, true)
    ensures Cut(a + ":" + b, "://") == if "//" <= b then (a, b[2..], true) else (a + ":" + b, "", false)
  {
    var s := a + ":" + b;
    CutAt(s, ":", |a|);
    assert s[..|a|] == a && s[|a| + 1..] == b;
    IndexFirst(s, "://");
    forall k | 0 <= k <= |s|
      ensures "://" <= s[k..] <==> k == |a| && "//" <= b
    {
      if k < |s| && s[k] == ':' { ColonThen(s, k, b); } else if "://" <= s[k..] { StartsWithColon(s, k); }
    }
    var at := Index(s, "://");
    if "//" <= b {
      assert "://" <= s[|a|..];
      assert at == Some(|a|);
      assert s[|a| + 3..] == b[2..];
    }
  }

  lemma StartsWithColon(s: string, k: nat)
    requires k <= |s| && "://" <= s[k..]
    ensures k < |s| && s[k] == ':'
  {
    assert s[k] == s[k..][0] == "://"[0];
  }

  lemma ColonThen(s: string, k: nat, b: string)
    requires k < |s| && s[k] == ':' && s[k + 1..] == b
    ensures "://" <= s[k..] <==> "//" <= b
  {
    var t := s[k..];
    assert t == [':'] + b;
    if "//" <= b { assert b == "//" + b[2..] && t == "://" + b[2..]; }
    if "://" <= t { assert t == "://" + t[3..] && b == t[1..] == "//" + t[3..]; }
  }

  lemma NoFile(scheme: string)
    requires scheme in {"https", "ssh"}
    ensures !EqualFold(scheme, "file") && ':' !in scheme
  {
    assert ToLower(scheme)[0] != 'f' && ToLower("file")[0] == 'f';
  }

  lemma NoneInScheme(scheme: string, rest: string)
    requires ':' !in scheme
    ensures NoSchemeBefore(scheme + "://" + rest, |scheme|)
  {
    var url := scheme + "://" + rest;
    forall i | 0 <= i < |scheme|
      ensures !("://" <= url[i..])
    {
      assert url[i..][0] == scheme[i];
    }
  }

  lemma SpelledAfter(scheme: string, rest: string, p: Parts)
    requires ':' !in scheme && !EqualFold(scheme, "file") && '/' !in p.host && rest == p.host + "/" + p.path
    ensures Spells(scheme + "://" + rest, p)
  {
    hide NoSchemeBefore, EqualFold, SpellsScp;
    NoneInScheme(scheme, rest);
    assert SpellsAfterScheme(scheme + "://" + rest, p);
  }

  lemma SpelledRaw(scheme: string, host: string, path: string)
    requires scheme in {"https", "ssh"} && '/' !in host
    ensures RawParts(scheme + "://" + host + "/" + path) == Some(Parts(host, path))
  {
    hide *;
    NoFile(scheme);
    var rest := host + "/" + path;
    Regroup(scheme + "://", host, "/", path);
    SpelledAfter(scheme, rest, Parts(host, path));
    RawPartsIff(scheme + "://" + rest, Parts(host, path));
  }

  lemma PlainParts(h: string, p: string, host: string, path: string)
    requires Plain(h, p) && host in {h, "git@" + h} && path in {p, p + ".git"}
    ensures HostOf(host) == h && PathOf(path) == p && h != "" && p != ""
    ensures '/' !in host && ':' !in host && ':' !in path && path[0] != '/'
    ensures host[0] !in SPACE && path[|path| - 1] !in SPACE
  {
    hide HostOf, PathOf;
    PlainHost(h, p);
    PlainPath(h, p);
    assert path[0] == p[0];
  }

  lemma SpelledParts(scheme: string, h: string, p: string, host: string, path: string)
    requires Plain(h, p) && host in {h, "git@" + h} && path in {p, p + ".git"}
    requires scheme in {"https", "ssh"}
    ensures NormalizeRemote(scheme + "://" + host + "/" + path) == h + "/" + p
  {
    PlainParts(h, p, host, path);
    var url := scheme + "://" + host + "/" + path;
    assert url[0] == scheme[0] && url[|url| - 1] == path[|path| - 1] && scheme[0] !in SPACE;
    hide Plain, HostOf, PathOf, RawParts, Trim, SPACE;
    SpelledRaw(scheme, host, path);
    TrimPlain(url, SPACE);
    assert TrimSpace(url) == url;
  }

  lemma ScpParts(h: string, p: string, host: string, path: string)
    requires Plain(h, p) && host in {h, "git@" + h} && path in {p, p + ".git"}
    ensures NormalizeRemote(host + ":" + path) == h + "/" + p
  {
    PlainParts(h, p, host, path);
    hide Plain, HostOf, PathOf;
    TrimPlain(host + ":" + path, SPACE);
    OneColon(host, path);
    assert !("//" <= path);
  }

  /** The four spellings that are documented give one name. */
  lemma FourSpellings(h: string, p: string)
    requires Plain(h, p)
    ensures NormalizeRemote("git@" + h + ":" + p + ".git") == h + "/" + p
    ensures NormalizeRemote("https://" + h + "/" + p) == h + "/" + p
    ensures NormalizeRemote("https://" + h + "/" + p + ".git") == h + "/" + p
    ensures NormalizeRemote("ssh://" + "git@" + h + "/" + p + ".git") == h + "/" + p
  {
    hide NormalizeRemote, Plain;
    ScpParts(h, p, "git@" + h, p + ".git");
    SpelledParts("https", h, p, h, p);
    SpelledParts("https", h, p, h, p + ".git");
    SpelledParts("ssh", h, p, "git@" + h, p + ".git");
    assert "git@" + h + ":" + p + ".git" == "git@" + h + ":" + (p + ".git");
    assert "https://" + h + "/" + p == "https" + "://" + h + "/" + p;
    assert "https://" + h + "/" + p + ".git" == "https" + "://" + h + "/" + (p + ".git");
    assert "ssh://" + "git@" + h + "/" + p + ".git" == "ssh" + "://" + ("git@" + h) + "/" + (p + ".git");
  }

  /** A text has a name if and only if it spells a host and a path neither of which is empty when stripped; and then the
      name is the two with a slash between. */
  lemma NameIff(url: string, name: string)
    requires name != ""
    ensures NormalizeRemote(url) == name <==>
              exists raw :: Spells(TrimSpace(url), raw) && HostOf(raw.host) != "" && PathOf(raw.path) != ""
                            && name == HostOf(raw.host) + "/" + PathOf(raw.path)
  {
    var u := TrimSpace(url);
    hide RawParts, HostOf, PathOf, Spells;
    forall raw
      ensures RawParts(u) == Some(raw) <==> Spells(u, raw)
    {
      RawPartsIff(u, raw);
    }
    if RawParts(u).Some? { assert Spells(u, RawParts(u).value); }
  }

  // --- what a name forgets ---

  // host is the name with white space around it, after a user and the first at sign or with no at sign at all.
  ghost predicate SpellsHost(host: string, user: string, a: string, name: string, b: string) {
    && host == user + (a + name + b) && IsBare(name, SPACE) && AllIn(a, SPACE) && AllIn(b, SPACE)
    && if user == "" then '@' !in host else user[|user| - 1] == '@' && '@' !in user[..|user| - 1]
  }

  /** All a name forgets of a host: the user, the white space around it, and the case of its letters. */
  lemma HostIff(host: string, h: string)
    requires h != ""
    ensures HostOf(host) == h <==> exists user, a, name, b :: SpellsHost(host, user, a, name, b) && ToLower(name) == h
  {
    hide Cut, Trim, SPACE;
    if HostOf(host) == h {
      var (before, after, ok) := Cut(host, "@");
      CutParts(host, "@");
      var rest := if ok then after else host;
      var a, b := TrimParts(rest, SPACE);
      var user := if ok then before + "@" else "";
      assert ok ==> user[..|user| - 1] == before;
      assert SpellsHost(host, user, a, TrimSpace(rest), b);
    }
    if user, a, name, b :| SpellsHost(host, user, a, name, b) && ToLower(name) == h {
      TrimOff(a, name, b, SPACE);
      if user == "" {
        CutParts(host, "@");
        assert host == a + name + b;
      } else {
        assert host[..|user| - 1] == user[..|user| - 1] && host[|user|..] == a + name + b;
        CutAt(host, "@", |user| - 1);
      }
    }
  }

  // path is p with slashes and then white space around it, perhaps with slashes and one ".git" after it.
  ghost predicate SpellsPath(path: string, p: string, a: string, c: string, git: bool, b: string) {
    && TrimSpace(path) == a + (p + c + (if git then ".git" else "")) + b
    && AllIn(a, {'/'}) && AllIn(b, {'/'}) && AllIn(c, {'/'}) && IsBare(p, {'/'})
    && (!git ==> c == "" && !HasSuffix(p, ".git"))
  }

  /** All a name forgets of a path: the white space and the slashes around it, and one ".git" with the slashes before
      it. */
  lemma PathIff(path: string, p: string)
    requires p != ""
    ensures PathOf(path) == p <==> exists a, c, git, b :: SpellsPath(path, p, a, c, git, b)
  {
    var s := TrimSpace(path);
    hide TrimSpace;
    if PathOf(path) == p {
      var q := Trim(s, {'/'});
      var git := HasSuffix(q, ".git");
      var r := TrimSuffix(q, ".git");
      assert q == r + (if git then ".git" else "");
      TrimOfNothing({'/'});
      assert q != "";
      var a, b := TrimParts(s, {'/'});
      var d, c := TrimParts(r, {'/'});
      WholePath(q, r, d, p, c, git);
      assert SpellsPath(path, p, a, c, git, b);
    }
    if a, c, git, b :| SpellsPath(path, p, a, c, git, b) {
      PathSpelled(s, p, a, c, git, b);
    }
  }

  lemma TrimOfNothing(cutset: set<char>)
    ensures Trim("", cutset) == "" && TrimSuffix("", ".git") == ""
  {
  }

  // The path without its ".git" starts with no slash, and ends with one only before a ".git".
  lemma WholePath(q: string, r: string, d: string, p: string, c: string, git: bool)
    requires IsBare(q, {'/'}) && q == r + (if git then ".git" else "") && (git <==> HasSuffix(q, ".git"))
    requires r == d + p + c && AllIn(d, {'/'}) && AllIn(c, {'/'}) && IsBare(p, {'/'})
    ensures d == "" && q == p + c + (if git then ".git" else "") && (!git ==> c == "" && !HasSuffix(p, ".git"))
  {
    assert r == d + (p + c);
    assert q[0] == r[0];
    assert !git ==> q == r;
  }

  lemma PathSpelled(s: string, p: string, a: string, c: string, git: bool, b: string)
    requires s == a + (p + c + (if git then ".git" else "")) + b
    requires AllIn(a, {'/'}) && AllIn(b, {'/'}) && AllIn(c, {'/'}) && IsBare(p, {'/'})
    requires !git ==> c == "" && !HasSuffix(p, ".git")
    ensures Trim(TrimSuffix(Trim(s, {'/'}), ".git"), {'/'}) == p
  {
    var q := p + c + (if git then ".git" else "");
    assert q[0] == p[0] && q[|q| - 1] == if git then 't' else p[|p| - 1];
    TrimOff(a, q, b, {'/'});
    hide Trim;
    if git {
      assert q[|q| - 4..] == ".git" && q[..|q| - 4] == p + c;
    } else {
      assert q == p;
    }
    TrimOff("", p, c, {'/'});
    assert "" + p + c == p + c;
  }

  predicate IsUser(user: string) {
    user != "" && forall i :: 0 <= i < |user| ==> user[i] !in SPACE + {'/', ':', '@'}
  }

  lemma PlainIsBare(h: string, p: string)
    requires Plain(h, p)
    ensures IsBare(h, SPACE) && ToLower(h) == h && '/' !in h && ':' !in h
  {
    LowerIsLower(h);
  }

  lemma UserIsBare(user: string, h: string)
    requires IsUser(user) && '/' !in h && ':' !in h
    ensures var host := user + "@" + h; host[0] !in SPACE && '/' !in host && ':' !in host && '@' !in user
  {
    assert (user + "@" + h)[0] == user[0];
  }

  lemma UserHost(user: string, h: string, p: string)
    requires Plain(h, p) && IsUser(user)
    ensures var host := user + "@" + h;
            HostOf(host) == h && h != "" && host[0] !in SPACE && '/' !in host && ':' !in host
  {
    hide Plain, IsUser, SPACE, Cut, Trim, ToLower;
    PlainIsBare(h, p);
    UserIsBare(user, h);
    var host := user + "@" + h;
    TrimPlain(h, SPACE);
    assert host[..|user|] == user && host[|user| + 1..] == h;
    CutAt(host, "@", |user|);
  }

  /** The name is said never to merge two repositories. It forgets the user, and a path after a colon is relative to the
      home of the user: all users of a host have one name for their repositories at one path. */
  lemma UsersAreMerged(user: string, h: string, p: string)
    requires Plain(h, p) && IsUser(user)
    ensures NormalizeRemote(user + "@" + h + ":" + p) == h + "/" + p
    ensures RawParts(user + "@" + h + ":" + p) == Some(Parts(user + "@" + h, p))
  {
    var host := user + "@" + h;
    UserHost(user, h, p);
    PlainParts(h, p, h, p);
    hide Plain, HostOf, PathOf, IsUser;
    TrimPlain(host + ":" + p, SPACE);
    OneColon(host, p);
    assert !("//" <= p);
  }

  lemma TwoUsersOneName()
    ensures NormalizeRemote("alice" + "@" + "h" + ":" + "w") == "h" + "/" + "w"
    ensures NormalizeRemote("bob" + "@" + "h" + ":" + "w") == "h" + "/" + "w"
    ensures RawParts("alice" + "@" + "h" + ":" + "w") != RawParts("bob" + "@" + "h" + ":" + "w")
  {
    assert Plain("h", "w") && IsUser("alice") && IsUser("bob");
    assert |"alice" + "@" + "h"| == 7 && |"bob" + "@" + "h"| == 5;
    hide *;
    UsersAreMerged("alice", "h", "w");
    UsersAreMerged("bob", "h", "w");
  }

  // --- OriginRemote ---

  function Fields(s: string): seq<string> {
    NonEmpty(SplitSpace(s))
  }

  function SplitSpace(s: string): (parts: seq<string>)
    ensures parts != []
  {
    if s == "" then [""]
    else
      var rest := SplitSpace(s[1..]);
      if s[0] in SPACE then [""] + rest else [[s[0]] + rest[0]] + rest[1..]
  }

  function NonEmpty(parts: seq<string>): seq<string> {
    if parts == [] then [] else (if parts[0] != "" then [parts[0]] else []) + NonEmpty(parts[1..])
  }

  predicate SectionIsOrigin(header: string) {
    var inner := TrimSpace(Trim(header, {'[', ']'}));
    var fields := Fields(ReplaceAll(ReplaceAll(inner, "\"", ""), ".", " "));
    |fields| == 2 && EqualFold(fields[0], "remote") && fields[1] == "origin"
  }

  // A text with nothing in it that a header is read by.
  predicate IsName(s: string) {
    s != "" && forall i :: 0 <= i < |s| ==> s[i] !in SPACE + {'\"', '.', '[', ']'}
  }

  lemma {:induction false} SplitSpacePlus(a: string, b: string, c: char)
    requires c in SPACE && forall i :: 0 <= i < |a| ==> a[i] !in SPACE
    ensures SplitSpace(a + [c] + b) == [a] + SplitSpace(b)
  {
    var s := a + [c] + b;
    if a == "" {
      assert s[1..] == b;
    } else {
      SplitSpacePlus(a[1..], b, c);
      assert s[1..] == a[1..] + [c] + b && [a[0]] + a[1..] == a;
    }
  }

  lemma {:induction false} SplitSpaceOne(a: string)
    requires forall i :: 0 <= i < |a| ==> a[i] !in SPACE
    ensures SplitSpace(a) == [a]
  {
    if a != "" {
      SplitSpaceOne(a[1..]);
      assert [a[0]] + a[1..] == a;
    }
  }

  lemma TwoFields(section: string, name: string)
    requires IsName(section) && IsName(name)
    ensures Fields(section + " " + name) == [section, name]
  {
    SplitSpacePlus(section, name, ' ');
    SplitSpaceOne(name);
    assert section + " " + name == section + [' '] + name;
    assert NonEmpty([name]) == [name];
    assert ([section] + [name])[1..] == [name];
  }

  lemma HeaderOf(inner: string, section: string, name: string)
    requires IsName(section) && IsName(name)
    requires IsBare(inner, {'[', ']'}) && IsBare(inner, SPACE)
    requires ReplaceAll(ReplaceAll(inner, "\"", ""), ".", " ") == section + " " + name
    ensures SectionIsOrigin("[" + inner + "]") <==> EqualFold(section, "remote") && name == "origin"
  {
    TrimOff("[", inner, "]", {'[', ']'});
    TrimPlain(inner, SPACE);
    TwoFields(section, name);
    hide Trim, ReplaceAll, Fields, EqualFold;
  }

  lemma NameIsPlain(s: string)
    requires IsName(s)
    ensures '\"' !in s && '.' !in s
  {
  }

  lemma QuotedName(section: string, name: string)
    requires IsName(section) && IsName(name)
    ensures ReplaceAll(ReplaceAll(section + " \"" + name + "\"", "\"", ""), ".", " ") == section + " " + name
  {
    NameIsPlain(section);
    NameIsPlain(name);
    hide *;
    var a, rest := section + " ", name + ['\"'] + "";
    assert section + " \"" + name + "\"" == a + ['\"'] + rest;
    ReplaceFirstOne(a, rest, '\"', "");
    ReplaceFirstOne(name, "", '\"', "");
    NothingToReplace("", '\"', "");
    assert a + "" + (name + "" + "") == a + name;
    NothingToReplace(a + name, '.', " ");
  }

  lemma DottedName(section: string, name: string)
    requires IsName(section) && IsName(name)
    ensures ReplaceAll(ReplaceAll(section + "." + name, "\"", ""), ".", " ") == section + " " + name
  {
    NameIsPlain(section);
    NameIsPlain(name);
    hide *;
    var s := section + "." + name;
    assert s == section + ['.'] + name;
    NothingToReplace(s, '\"', "");
    ReplaceFirstOne(section, name, '.', " ");
    NothingToReplace(name, '.', " ");
  }

  /** A header in either spelling is that of the origin if and only if its section is remote, in any case, and its name
      is origin, as it is written. */
  lemma HeaderIff(section: string, name: string)
    requires IsName(section) && IsName(name)
    ensures SectionIsOrigin("[" + (section + " \"" + name + "\"") + "]") <==>
            EqualFold(section, "remote") && name == "origin"
    ensures SectionIsOrigin("[" + (section + "." + name) + "]") <==> EqualFold(section, "remote") && name == "origin"
  {
    hide SectionIsOrigin, ReplaceAll, EqualFold;
    QuotedName(section, name);
    DottedName(section, name);
    HeaderOf(section + " \"" + name + "\"", section, name);
    HeaderOf(section + "." + name, section, name);
  }

  // What a line of a config is.
  datatype ConfigLine = Nothing | Section(origin: bool) | Url(name: string) | Other

  function ReadLine(line: string): ConfigLine {
    var l := TrimSpace(line);
    if l == "" || "#" <= l || ";" <= l then Nothing
    else if "[" <= l then Section(SectionIsOrigin(l))
    else
      var (key, value, ok) := Cut(l, "=");
      if !ok || ToLower(TrimSpace(key)) != "url" then Other else Url(NormalizeRemote(value))
  }

  // Whether the section the lines end in is that of the origin.
  function InOrigin(lines: seq<string>): bool {
    if lines == [] then false
    else match ReadLine(lines[|lines| - 1])
      case Section(origin) => origin
      case _ => InOrigin(lines[..|lines| - 1])
  }

  // The line gives the name of the origin.
  predicate Names(lines: seq<string>, i: nat)
    requires i < |lines|
  {
    ReadLine(lines[i]).Url? && ReadLine(lines[i]).name != "" && InOrigin(lines[..i])
  }

  function LinesOf(config: string): seq<string> {
    Split(config, '\n')
  }

  /** The name is that of the first url in a section of the origin that has one, and there is none if and only if no
      such line is there. */
  method OriginRemote(config: string) returns (name: string, ok: bool)
    ensures var lines := LinesOf(config);
            ok <==> exists i :: 0 <= i < |lines| && Names(lines, i)
    ensures var lines := LinesOf(config);
            ok ==> exists i :: 0 <= i < |lines| && Names(lines, i) && ReadLine(lines[i]) == Url(name)
                               && forall j :: 0 <= j < i ==> !Names(lines, j)
    ensures !ok ==> name == ""
  {
    hide SectionIsOrigin, NormalizeRemote, ToLower, Cut, TrimSpace;
    var lines, inOrigin := LinesOf(config), false;
    for i := 0 to |lines|
      invariant inOrigin == InOrigin(lines[..i])
      invariant forall j :: 0 <= j < i ==> !Names(lines, j)
    {
      assert lines[..i + 1][..i] == lines[..i];
      var line := TrimSpace(lines[i]);
      if line == "" || "#" <= line || ";" <= line { continue; }
      if "[" <= line {
        inOrigin := SectionIsOrigin(line);
        continue;
      }
      if !inOrigin { continue; }
      var (key, value, found) := Cut(line, "=");
      if !found || ToLower(TrimSpace(key)) != "url" { continue; }
      var normalized := NormalizeRemote(value);
      if normalized != "" {
        assert Names(lines, i);
        return normalized, true;
      }
    }
    return "", false;
  }
}
