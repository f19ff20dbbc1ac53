/** Lexical path resolution: split, resolve dots on a stack, join. */
module Paths {

  /** The components between slashes; there is always at least one, perhaps empty. */
  function Split(s: string): (cs: seq<string>)
    ensures cs != []
  {
    if s == "" then [""]
    else if s[0] == '/' then [""] + Split(s[1..])
    else
      var rest := Split(s[1..]);
      [[s[0]] + rest[0]] + rest[1..]
  }

  function Join(cs: seq<string>): string {
    if cs == [] then ""
    else if |cs| == 1 then cs[0]
    else cs[0] + "/" + Join(cs[1..])
  }

  /** One component on the stack of those kept so far. */
  function Push(stack: seq<string>, c: string): seq<string> {
    if c == "" || c == "." then stack
    else if c == ".." then (if stack == [] then [] else stack[..|stack| - 1])
    else stack + [c]
  }

  function Resolve(stack: seq<string>, cs: seq<string>): seq<string>
    decreases |cs|
  {
    if cs == [] then stack else Resolve(Push(stack, cs[0]), cs[1..])
  }

  function TrimEnd(s: string): (t: string)
    ensures t <= s && (t == "" || t[|t| - 1] != '/')
    ensures forall i :: |t| <= i < |s| ==> s[i] == '/'
  {
    if s != "" && s[|s| - 1] == '/' then TrimEnd(s[..|s| - 1]) else s
  }

  predicate IsAbsolute(path: string) {
    path != "" && path[0] == '/'
  }

  function Absolute(path: string, cwd: string): string {
    if IsAbsolute(path) then path else TrimEnd(cwd) + "/" + path
  }

  function Root(cs: seq<string>): string {
    "/" + Join(cs)
  }

  /** The chroot grate's form: an empty path stays empty. */
  function Normalize(path: string, cwd: string): string {
    if path == "" then "" else Root(Resolve([], Split(Absolute(path, cwd))))
  }

  /** The routing grate's form: an empty path names the current directory. */
  function ResolveFor(cwd: string, path: string): string {
    Root(Resolve([], Split(Absolute(path, cwd))))
  }

  // ------------------------------------------------------------------
  // Split and join are inverse
  // ------------------------------------------------------------------

  lemma {:induction false} SplitCat(a: string, b: string)
    ensures Split(a + "/" + b) == Split(a) + Split(b)
    decreases |a|
  {
    var s := a + "/" + b;
    if a == "" {
      assert s[1..] == b;
    } else {
      assert s[1..] == a[1..] + "/" + b;
      SplitCat(a[1..], b);
    }
  }

  ghost predicate Plain(c: string) {
    '/' !in c
  }

  lemma {:induction false} SplitPlain(c: string)
    requires Plain(c)
    ensures Split(c) == [c]
    decreases |c|
  {
    if c != "" {
      SplitPlain(c[1..]);
      assert c[0] in c && [c[0]] + c[1..] == c;
    }
  }

  lemma {:induction false} SplitPieces(s: string)
    ensures forall c :: c in Split(s) ==> Plain(c)
    decreases |s|
  {
    if s != "" {
      SplitPieces(s[1..]);
      var rest := Split(s[1..]);
      assert Plain(rest[0]);
    }
  }

  lemma {:induction false} SplitJoin(cs: seq<string>)
    requires cs != [] && forall c :: c in cs ==> Plain(c)
    ensures Split(Join(cs)) == cs
    decreases |cs|
  {
    SplitPlain(cs[0]);
    if |cs| > 1 {
      SplitJoin(cs[1..]);
      SplitCat(cs[0], Join(cs[1..]));
    }
  }

  lemma {:induction false} JoinSplit(s: string)
    ensures Join(Split(s)) == s
    decreases |s|
  {
    if s != "" {
      JoinSplit(s[1..]);
      var rest := Split(s[1..]);
      if s[0] != '/' {
        var cs := [[s[0]] + rest[0]] + rest[1..];
        assert cs[1..] == rest[1..];
        assert Join(cs) == [s[0]] + Join(rest);
      } else {
        assert Split(s)[1..] == rest;
      }
    }
  }

  // ------------------------------------------------------------------
  // The stack
  // ------------------------------------------------------------------

  /** A name that stands for itself. */
  ghost predicate Proper(c: string) {
    Plain(c) && c != "" && c != "." && c != ".."
  }

  ghost predicate AllProper(cs: seq<string>) {
    forall c :: c in cs ==> Proper(c)
  }

  lemma {:induction false} ResolveCat(stack: seq<string>, a: seq<string>, b: seq<string>)
    ensures Resolve(stack, a + b) == Resolve(Resolve(stack, a), b)
    decreases |a|
  {
    if a == [] {
      assert a + b == b;
    } else {
      assert (a + b)[1..] == a[1..] + b;
      ResolveCat(Push(stack, a[0]), a[1..], b);
    }
  }

  lemma {:induction false} ResolveKeepsProper(stack: seq<string>, cs: seq<string>)
    requires AllProper(stack) && forall c :: c in cs ==> Plain(c)
    ensures AllProper(Resolve(stack, cs))
    decreases |cs|
  {
    if cs != [] {
      ResolveKeepsProper(Push(stack, cs[0]), cs[1..]);
    }
  }

  lemma {:induction false} ResolveProper(stack: seq<string>, cs: seq<string>)
    requires AllProper(cs)
    ensures Resolve(stack, cs) == stack + cs
    decreases |cs|
  {
    if cs != [] {
      assert cs[0] in cs;
      ResolveProper(stack + [cs[0]], cs[1..]);
      assert stack + [cs[0]] + cs[1..] == stack + cs;
    }
  }

  /** What the components of a path resolve to. */
  function Names(s: string): seq<string> {
    Resolve([], Split(s))
  }

  lemma NamesProper(s: string)
    ensures AllProper(Names(s))
  {
    SplitPieces(s);
    ResolveKeepsProper([], Split(s));
  }

  lemma NamesCat(a: string, b: string)
    ensures Names(a + "/" + b) == Resolve(Names(a), Split(b))
  {
    SplitCat(a, b);
    ResolveCat([], Split(a), Split(b));
  }

  /** Reading a normal path back gives its names. */
  lemma NamesOfRoot(cs: seq<string>)
    requires AllProper(cs)
    ensures Names(Root(cs)) == cs
  {
    assert Root(cs) == "" + "/" + Join(cs);
    NamesCat("", Join(cs));
    if cs != [] {
      SplitJoin(cs);
      ResolveProper([], cs);
    }
  }

  lemma {:induction false} JoinEndsPlain(cs: seq<string>)
    requires AllProper(cs) && cs != []
    ensures Join(cs) != "" && Join(cs)[|Join(cs)| - 1] != '/'
    decreases |cs|
  {
    assert cs[0] in cs;
    if |cs| > 1 {
      JoinEndsPlain(cs[1..]);
    }
  }

  /** A normal path loses nothing but a lone slash when trailing slashes go. */
  lemma TrimRoot(cs: seq<string>)
    requires AllProper(cs)
    ensures TrimEnd(Root(cs)) == if cs == [] then "" else Root(cs)
  {
    if cs != [] {
      JoinEndsPlain(cs);
    }
  }

  // ------------------------------------------------------------------
  // Normal paths
  // ------------------------------------------------------------------

  /** Absolute, and no component is empty, a dot or a double dot. */
  ghost predicate IsNormal(s: string) {
    s != "" && s[0] == '/' && (s == "/" || AllProper(Split(s[1..])))
  }

  lemma NormalRoot(cs: seq<string>)
    requires AllProper(cs)
    ensures IsNormal(Root(cs))
  {
    if cs != [] {
      SplitJoin(cs);
    }
  }

  lemma NormalizeIsNormal(path: string, cwd: string)
    requires path != ""
    ensures IsNormal(Normalize(path, cwd))
  {
    NamesProper(Absolute(path, cwd));
    NormalRoot(Names(Absolute(path, cwd)));
  }

  /** A normal path is a fixed point, whatever the current directory. */
  lemma NormalIsFixed(s: string, cwd: string)
    requires IsNormal(s)
    ensures Normalize(s, cwd) == s
  {
    if s != "/" {
      var cs := Split(s[1..]);
      JoinSplit(s[1..]);
      assert s == Root(cs);
      NamesOfRoot(cs);
    } else {
      assert s == Root([]);
      NamesOfRoot([]);
    }
  }

  /** So normalising twice is normalising once. */
  lemma NormalizeIdempotent(path: string, cwd: string, cwd2: string)
    ensures Normalize(Normalize(path, cwd), cwd2) == Normalize(path, cwd)
  {
    if path != "" {
      NormalizeIsNormal(path, cwd);
      NormalIsFixed(Normalize(path, cwd), cwd2);
    }
  }

  lemma NamesOfStep(cs: seq<string>, p: string)
    requires AllProper(cs)
    ensures Names(TrimEnd(Root(cs)) + "/" + p) == Resolve(cs, Split(p))
  {
    NamesCat(TrimEnd(Root(cs)), p);
    TrimRoot(cs);
    NamesOfRoot(cs);
  }

  lemma AbsoluteStep(p1: string, p2: string, cwd: string)
    ensures Absolute(p1 + "/" + p2, cwd) == if p1 == "" then "/" + p2 else Absolute(p1, cwd) + "/" + p2
  {
    if p1 != "" && !IsAbsolute(p1) {
      assert TrimEnd(cwd) + "/" + (p1 + "/" + p2) == TrimEnd(cwd) + "/" + p1 + "/" + p2;
    }
  }

  /** Resolving p2 from where p1 leads is resolving p1/p2. */
  lemma NormalizeComposes(p1: string, p2: string, cwd: string)
    requires p2 != "" && !IsAbsolute(p2)
    ensures Normalize(p2, Normalize(p1, cwd)) == Normalize(p1 + "/" + p2, cwd)
  {
    AbsoluteStep(p1, p2, cwd);
    if p1 == "" {
      assert TrimEnd("") + "/" + p2 == "/" + p2;
    } else {
      var abs := Absolute(p1, cwd);
      NamesProper(abs);
      NamesOfStep(Names(abs), p2);
      NamesCat(abs, p2);
    }
  }

  /** The routing grate's resolution composes too; there an empty first path is the current directory. */
  lemma ResolveForComposes(p1: string, p2: string, cwd: string)
    requires !IsAbsolute(p2)
    ensures ResolveFor(ResolveFor(cwd, p1), p2)
         == if p1 == "" then ResolveFor(cwd, p2) else ResolveFor(cwd, p1 + "/" + p2)
    ensures IsNormal(ResolveFor(cwd, p1)) && ResolveFor(cwd, ResolveFor(cwd, p1)) == ResolveFor(cwd, p1)
  {
    AbsoluteStep(p1, p2, cwd);
    var abs := Absolute(p1, cwd);
    NamesProper(abs);
    NamesOfStep(Names(abs), p2);
    if p1 == "" {
      NamesCat(TrimEnd(cwd), "");
      NamesCat(TrimEnd(cwd), p2);
    } else {
      NamesCat(abs, p2);
    }
    NormalRoot(Names(abs));
    NormalIsFixed(Root(Names(abs)), cwd);
  }

  // ------------------------------------------------------------------
  // Dots
  // ------------------------------------------------------------------

  lemma DotsSplit()
    ensures Split("..") == [".."] && Split(".") == ["."]
  {
    SplitPlain("..");
    SplitPlain(".");
  }

  /** A double dot takes the last name away, and stays at the root; a dot changes nothing. */
  lemma NamesOfDots(s: string)
    ensures Names(s + "/..") == if Names(s) == [] then [] else Names(s)[..|Names(s)| - 1]
    ensures Names(s + "/.") == Names(s)
  {
    DotsSplit();
    assert s + "/.." == s + "/" + ".." && s + "/." == s + "/" + ".";
    NamesCat(s, "..");
    NamesCat(s, ".");
  }

  lemma NamesOfName(s: string, c: string)
    requires Proper(c)
    ensures Names(s + "/" + c) == Names(s) + [c]
  {
    NamesCat(s, c);
    SplitPlain(c);
  }

  /** From a normal path, a double dot leads to its parent. */
  lemma DotDotIsParent(cs: seq<string>, c: string, cwd: string)
    requires AllProper(cs + [c])
    ensures Normalize(Root(cs + [c]) + "/..", cwd) == Root(cs) == ResolveFor(cwd, Root(cs + [c]) + "/..")
  {
    var s := Root(cs + [c]);
    NamesOfRoot(cs + [c]);
    NamesOfDots(s);
    assert (cs + [c])[..|cs|] == cs;
  }

  /** There is nothing above the root. */
  lemma DotDotAtRoot(cwd: string)
    ensures Normalize("/..", cwd) == "/" == ResolveFor(cwd, "/..")
  {
    NamesOfDots("");
    assert "" + "/.." == "/..";
  }

  lemma AbsoluteCat(p: string, q: string, cwd: string)
    requires p != ""
    ensures Absolute(p + "/" + q, cwd) == Absolute(p, cwd) + "/" + q
  {
    AbsoluteStep(p, q, cwd);
  }

  /** Into a name and out again is where one was, and so is a dot. */
  lemma DotDotUndoes(p: string, c: string, cwd: string)
    requires p != "" && Proper(c)
    ensures Normalize(p + "/" + c + "/..", cwd) == Normalize(p + "/.", cwd) == Normalize(p, cwd)
    ensures ResolveFor(cwd, p + "/" + c + "/..") == ResolveFor(cwd, p + "/.") == ResolveFor(cwd, p)
  {
    var abs := Absolute(p, cwd);
    AbsoluteCat(p, c, cwd);
    AbsoluteCat(p, ".", cwd);
    AbsoluteCat(p + "/" + c, "..", cwd);
    assert p + "/" + c + "/.." == p + "/" + c + "/" + ".." && p + "/." == p + "/" + ".";
    assert abs + "/" + c + "/" + ".." == abs + "/" + c + "/.." && abs + "/" + "." == abs + "/.";
    NamesOfName(abs, c);
    NamesOfDots(abs + "/" + c);
    NamesOfDots(abs);
  }

  /** An absolute path does not look at the current directory. */
  lemma AbsoluteIgnoresCwd(path: string, cwd: string, cwd2: string)
    requires IsAbsolute(path)
    ensures Normalize(path, cwd) == Normalize(path, cwd2) == ResolveFor(cwd, path) == ResolveFor(cwd2, path)
  {
  }

  // ------------------------------------------------------------------
  // The loop
  // ------------------------------------------------------------------

  /** Resolve the components with a stack of names, as both grates do. */
  method ResolveNames(path: string) returns (components: seq<string>)
    ensures components == Names(path)
  {
    var parts := Split(path);
    components := [];
    for i := 0 to |parts|
      invariant Resolve(components, parts[i..]) == Names(path)
    {
      var c := parts[i];
      assert parts[i..][1..] == parts[i + 1..];
      if c == "" || c == "." {
        continue;
      }
      if c == ".." {
        if components != [] {
          components := components[..|components| - 1];
        }
      } else {
        components := components + [c];
      }
    }
  }

  method NormalizePath(path: string, cwd: string) returns (s: string)
    ensures s == Normalize(path, cwd) && (path != "" ==> IsNormal(s))
  {
    if path == "" {
      return "";
    }
    NormalizeIsNormal(path, cwd);
    var components := ResolveNames(Absolute(path, cwd));
    return "/" + Join(components);
  }
}

/** The chroot grate: virtual paths, host paths and socket addresses. */
module Chroots {
  import opened Paths

  /** A virtual path as a host path. */
  function ChrootPath(path: string, cwd: string, chroot: string): string {
    if path == "" then "" else TrimEnd(chroot) + Normalize(path, cwd)
  }

  /** A host directory as a virtual one. */
  function VirtualizeCwd(host: string, chroot: string): string {
    var dir := TrimEnd(chroot);
    if dir == "" || dir == "/" then Normalize(host, "/")
    else if host == dir then "/"
    else if dir <= host && IsAbsolute(host[|dir|..]) then Normalize(host[|dir|..], "/")
    else Normalize(host, "/")
  }

  /** Mapping into the chroot and back gives the normal form, for every chroot directory. */
  lemma VirtualizeInverts(path: string, cwd: string, chroot: string)
    requires path != ""
    ensures VirtualizeCwd(ChrootPath(path, cwd, chroot), chroot) == Normalize(path, cwd)
  {
    var dir, normal := TrimEnd(chroot), Normalize(path, cwd);
    NormalizeIsNormal(path, cwd);
    NormalIsFixed(normal, "/");
    assert (dir + normal)[|dir|..] == normal;
    assert dir == "" ==> dir + normal == normal;
  }

  /** A host path is the chroot directory and then a normal path, so no dots lead out of it. */
  lemma Confined(path: string, cwd: string, chroot: string)
    requires path != ""
    ensures var dir, host := TrimEnd(chroot), ChrootPath(path, cwd, chroot);
            dir <= host && host[|dir|..] == Normalize(path, cwd) && IsNormal(host[|dir|..])
  {
    NormalizeIsNormal(path, cwd);
    assert (TrimEnd(chroot) + Normalize(path, cwd))[|TrimEnd(chroot)|..] == Normalize(path, cwd);
  }

  /** A host directory outside the chroot is shown as it is, in normal form. */
  lemma VirtualizeOutside(host: string, chroot: string)
    requires var dir := TrimEnd(chroot); host != dir && !(dir + "/" <= host)
    ensures VirtualizeCwd(host, chroot) == Normalize(host, "/")
  {
    var dir := TrimEnd(chroot);
    assert dir <= host && |host| > |dir| && host[|dir|] == '/' ==> dir + "/" <= host;
  }

  // ------------------------------------------------------------------
  // AF_UNIX addresses: two family bytes, then a path up to its NUL
  // ------------------------------------------------------------------

  const NUL := '\0'
  const AF_UNIX: seq<char> := ['\U{0001}', NUL]

  /** The length of the text before the first NUL. */
  function TextLen(s: seq<char>): (n: nat)
    ensures n <= |s| && (forall i :: 0 <= i < n ==> s[i] != NUL) && (n < |s| ==> s[n] == NUL)
  {
    if s == [] || s[0] == NUL then 0 else 1 + TextLen(s[1..])
  }

  function Text(s: seq<char>): string {
    s[..TextLen(s)]
  }

  lemma TextOf(s: seq<char>, n: nat)
    requires n <= |s| && (forall i :: 0 <= i < n ==> s[i] != NUL) && (n < |s| ==> s[n] == NUL)
    ensures TextLen(s) == n && Text(s) == s[..n]
  {
  }

  predicate HasPath(addr: seq<char>) {
    |addr| > 2 && addr[..2] == AF_UNIX
  }

  function Translate(addr: seq<char>, cwd: string, chroot: string): seq<char> {
    if !HasPath(addr) || addr[2] == NUL then addr
    else addr[..2] + ChrootPath(Text(addr[2..]), cwd, chroot) + [NUL]
  }

  /** Takes the chroot directory off as it is written, trailing slashes and all. */
  function Strip(path: string, chroot: string): string {
    if chroot <= path then (if path == chroot then "/" else path[|chroot|..]) else path
  }

  /** Only AF_UNIX addresses with a name of their own are touched, and those name a path inside the chroot. */
  lemma TranslateMeans(addr: seq<char>, cwd: string, chroot: string)
    ensures |addr| <= 2 || addr[0] != '\U{0001}' || addr[1] != '\0' ==>
              Translate(addr, cwd, chroot) == addr == Untranslated(addr, chroot)
    ensures |addr| > 2 && addr[0] == '\U{0001}' && addr[1] == '\0' && addr[2] != '\0' ==>
              Translate(addr, cwd, chroot)
              == AF_UNIX + (TrimEnd(chroot) + Normalize(Text(addr[2..]), cwd)) + [NUL]
  {
    hide Normalize, TrimEnd, Text, HasPath;
    FamilyOf(addr);
    if |addr| > 2 && addr[2] != '\0' {
      SomeText(addr[2..]);
    }
  }

  lemma SomeText(s: seq<char>)
    requires s != [] && s[0] != '\0'
    ensures Text(s) != ""
  {
  }

  lemma FamilyOf(addr: seq<char>)
    ensures HasPath(addr) <==> |addr| > 2 && addr[0] == '\U{0001}' && addr[1] == '\0'
    ensures HasPath(addr) ==> addr[..2] == AF_UNIX
  {
    if |addr| > 2 {
      assert addr[..2] == [addr[0], addr[1]];
    }
  }

  /** The name is cut to leave room for its NUL; what follows stays. */
  function Untranslated(addr: seq<char>, chroot: string): seq<char> {
    if !HasPath(addr) then addr
    else
      var name := Strip(Text(addr[2..]), chroot);
      var n := if |name| <= |addr| - 3 then |name| else |addr| - 3;
      addr[..2] + name[..n] + [NUL] + addr[n + 3..]
  }

  method Untranslate(buf: array<char>, chroot: string)
    modifies buf
    ensures buf[..] == Untranslated(old(buf[..]), chroot)
  {
    if buf.Length <= 2 || buf[..2] != AF_UNIX {
      return;
    }
    ghost var before := buf[..];
    assert buf[2..] == before[2..];
    var name := Strip(Text(buf[2..]), chroot);
    var n := if |name| <= buf.Length - 3 then |name| else buf.Length - 3;
    forall k | 0 <= k < n {
      buf[2 + k] := name[k];
    }
    buf[2 + n] := NUL;
    assert buf[..] == before[..2] + name[..n] + [NUL] + before[n + 3..];
  }

  lemma {:induction false} SplitChars(s: string, x: char)
    requires x !in s
    ensures forall c :: c in Split(s) ==> x !in c
    decreases |s|
  {
    if s != "" {
      SplitChars(s[1..], x);
    }
  }

  lemma {:induction false} ResolveChars(stack: seq<string>, cs: seq<string>, x: char)
    requires (forall c :: c in stack ==> x !in c) && forall c :: c in cs ==> x !in c
    ensures forall c :: c in Resolve(stack, cs) ==> x !in c
    decreases |cs|
  {
    if cs != [] {
      ResolveChars(Push(stack, cs[0]), cs[1..], x);
    }
  }

  lemma {:induction false} JoinChars(cs: seq<string>, x: char)
    requires x != '/' && forall c :: c in cs ==> x !in c
    ensures x !in Join(cs)
    decreases |cs|
  {
    if |cs| > 1 {
      JoinChars(cs[1..], x);
    }
  }

  /** Normalising brings in no character but the slash. */
  lemma NormalizeChars(path: string, cwd: string, x: char)
    requires x != '/' && x !in path && x !in cwd
    ensures x !in Normalize(path, cwd)
  {
    var abs := Absolute(path, cwd);
    assert x !in abs;
    SplitChars(abs, x);
    ResolveChars([], Split(abs), x);
    JoinChars(Names(abs), x);
  }

  lemma OneSlash(s: string)
    requires IsNormal(s)
    ensures s != "" && s[0] == '/' && (|s| > 1 ==> s[1] != '/')
  {
    if |s| > 1 {
      assert Split(s[1..])[0] in Split(s[1..]);
    }
  }

  /** When the name written back is the virtual one: as many slashes are taken off as were put on. */
  ghost predicate StripsBack(chroot: string, normal: string) {
    var slashes := |chroot| - |TrimEnd(chroot)|;
    slashes == 0 || (slashes == 1 && normal == "/") || (slashes > 1 && TrimEnd(chroot) == "")
  }

  lemma StripExact(chroot: string, normal: string)
    requires IsNormal(normal)
    ensures Strip(TrimEnd(chroot) + normal, chroot) == normal <==> StripsBack(chroot, normal)
    ensures |Strip(TrimEnd(chroot) + normal, chroot)| <= |TrimEnd(chroot) + normal|
  {
    hide TrimEnd, IsNormal;
    OneSlash(normal);
    var dir := TrimEnd(chroot);
    var host, slashes := dir + normal, |chroot| - |dir|;
    if slashes == 0 {
      assert chroot == dir && host[|dir|..] == normal;
    } else if slashes == 1 {
      assert chroot == dir + "/" && host[|chroot|..] == normal[1..];
    } else {
      assert chroot[|dir| + 1] == '/' && (|normal| > 1 ==> host[|dir| + 1] == normal[1]);
      assert !(chroot <= host) && (dir == "" ==> host == normal);
    }
  }

  /** What is under the directory as written loses it, the directory itself is the root, the rest stays. */
  lemma StripMeans(chroot: string, rest: string, path: string)
    ensures Strip(chroot + rest, chroot) == if rest == "" then "/" else rest
    ensures !(chroot <= path) ==> Strip(path, chroot) == path
  {
    assert (chroot + rest)[|chroot|..] == rest;
    assert rest == "" ==> chroot + rest == chroot;
  }

  lemma StripChars(path: string, chroot: string)
    requires NUL !in path
    ensures NUL !in Strip(path, chroot)
  {
  }

  lemma TextBeforeNul(head: seq<char>, name: string, rest: seq<char>)
    requires |head| == 2 && NUL !in name
    ensures var s := head + name + [NUL] + rest; s[..2] == head && Text(s[2..]) == name && TextLen(s[2..]) < |s[2..]|
  {
    var s := head + name + [NUL] + rest;
    assert s[2..] == name + [NUL] + rest;
    TextOf(s[2..], |name|);
  }

  /** The buffer with a NUL-terminated host name, rewritten in place. */
  lemma UntranslatedName(host: string, chroot: string)
    requires NUL !in host && |Strip(host, chroot)| <= |host|
    ensures var back := Untranslated(AF_UNIX + host + [NUL], chroot);
            && |back| > 2 && back[..2] == AF_UNIX
            && Text(back[2..]) == Strip(host, chroot) && TextLen(back[2..]) < |back[2..]|
  {
    hide Text, TextLen, Strip;
    var there, name := AF_UNIX + host + [NUL], Strip(host, chroot);
    assert there == AF_UNIX + host + [NUL] + [];
    TextBeforeNul(AF_UNIX, host, []);
    StripChars(host, chroot);
    assert name[..|name|] == name;
    TextBeforeNul(AF_UNIX, name, there[|name| + 3..]);
  }

  /**
   An address translated for the host and back: its name is the normal form of the one given,
   with its NUL inside the buffer, exactly when the chroot directory is written without a
   trailing slash, or one of the two special cases applies.
   */
  lemma SockAddrRoundTrip(addr: seq<char>, cwd: string, chroot: string)
    requires HasPath(addr) && addr[2] != NUL && NUL !in cwd && NUL !in chroot
    ensures var back := Untranslated(Translate(addr, cwd, chroot), chroot);
            var normal := Normalize(Text(addr[2..]), cwd);
            && |back| > 2 && back[..2] == AF_UNIX
            && (Text(back[2..]) == normal <==> StripsBack(chroot, normal))
            && TextLen(back[2..]) < |back[2..]|
  {
    hide Strip, Untranslated, Normalize, TrimEnd;
    var path := Text(addr[2..]);
    var normal, dir := Normalize(path, cwd), TrimEnd(chroot);
    NormalizeIsNormal(path, cwd);
    NormalizeChars(path, cwd, NUL);
    assert NUL !in dir + normal;
    assert Translate(addr, cwd, chroot) == AF_UNIX + (dir + normal) + [NUL];
    StripExact(chroot, normal);
    UntranslatedName(dir + normal, chroot);
  }

  /** An abstract address, whose name starts with a NUL, survives unless the chroot directory is empty. */
  lemma AbstractKept(addr: seq<char>, cwd: string, chroot: string)
    requires HasPath(addr) && addr[2] == NUL
    ensures Untranslated(Translate(addr, cwd, chroot), chroot) == addr <==> chroot != "" || |addr| == 3
  {
    assert TextLen(addr[2..]) == 0;
    var back := Untranslated(addr, chroot);
    if chroot != "" || |addr| == 3 {
      assert back == addr;
    } else {
      assert back[2] == '/';
    }
  }

  lemma TrimJail()
    ensures TrimEnd("/jail/") == "/jail"
  {
    assert "/jail/"[..5] == "/jail";
  }

  lemma NormalX()
    ensures Normalize("/x", "/") == "/x"
  {
    SplitPlain("x");
    assert "/x"[1..] == "x";
    NormalIsFixed("/x", "/");
  }

  /** With the chroot directory written "/jail/", the address "/x" does not come back. */
  lemma TrailingSlashLosesName()
    ensures var addr := AF_UNIX + "/x" + [NUL];
            Text(Untranslated(Translate(addr, "/", "/jail/"), "/jail/")[2..]) != "/x" == Normalize(Text(addr[2..]), "/")
  {
    hide Normalize, TrimEnd, Untranslated, Translate, Strip;
    var addr := AF_UNIX + "/x" + [NUL];
    assert addr[..2] == AF_UNIX && addr[2..] == "/x" + [NUL];
    TextOf(addr[2..], 2);
    assert Text(addr[2..]) == "/x";
    TrimJail();
    NormalX();
    SockAddrRoundTrip(addr, "/", "/jail/");
  }

  /** With an empty chroot directory, an abstract address does not survive. */
  lemma EmptyChrootDamagesAbstract(cwd: string)
    ensures var addr := AF_UNIX + [NUL] + "a"; Untranslated(Translate(addr, cwd, ""), "") != addr
  {
    var addr := AF_UNIX + [NUL] + "a";
    assert addr[..2] == AF_UNIX;
    AbstractKept(addr, cwd, "");
  }
}
