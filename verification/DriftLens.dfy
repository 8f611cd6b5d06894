/**
 * The drift lens (`buildDriftLens` and its path helpers, src/delivery/drift-lens.ts): does
 * every file a build changed lie under a path its intent allowed? Paths follow POSIX; what
 * counts as white space for trimming is a parameter.
 */
module DriftLens {
  import opened Wrappers

  // ---- Paths and components --------------------------------------------------------------

  type Components = seq<string>

  function Split(s: string, separator: char): (parts: Components)
    ensures |parts| >= 1
  {
    if s == [] then [[]]
    else
      var rest := Split(s[1..], separator);
      if s[0] == separator then [[]] + rest else [[s[0]] + rest[0]] + rest[1..]
  }

  predicate StartsWith(s: string, prefix: string) {
    |prefix| <= |s| && s[..|prefix|] == prefix
  }

  /** The source's test for one prefix. */
  predicate UnderPrefix(file: string, prefix: string) {
    file == prefix || StartsWith(file, prefix + "/")
  }

  predicate IsPrefix(p: Components, q: Components) {
    |p| <= |q| && q[..|p|] == p
  }

  lemma StartsWithStep(c: char, s: string, p: string)
    ensures StartsWith([c] + s, [c] + p) <==> StartsWith(s, p)
  {
    if |p| <= |s| {
      assert ([c] + s)[..|[c] + p|] == [c] + s[..|p|];
      assert ([c] + p)[1..] == p && ([c] + s[..|p|])[1..] == s[..|p|];
    }
  }

  /**
   * The string test is a test on whole path components: `src` covers `src` and `src/a`, and
   * never `srcs` or `src2/a`.
   */
  lemma {:induction false} PrefixIsComponentPrefix(file: string, prefix: string)
    ensures UnderPrefix(file, prefix) <==> IsPrefix(Split(prefix, '/'), Split(file, '/'))
  {
    var p, f := Split(prefix, '/'), Split(file, '/');
    if prefix == "" {
      assert prefix + "/" == "/";
      if file != "" {
        assert file[..1] == [file[0]];
        assert f[..1] == [f[0]];
      }
    } else if file != "" && file[0] == prefix[0] {
      var c, s, t := file[0], file[1..], prefix[1..];
      PrefixIsComponentPrefix(s, t);
      assert file == [c] + s && prefix == [c] + t && prefix + "/" == [c] + (t + "/");
      StartsWithStep(c, s, t + "/");
      if c == '/' {
        PrefixUnderCons([], Split(t, '/'), Split(s, '/'));
      } else {
        PrefixUnderHead(c, Split(t, '/'), Split(s, '/'));
      }
    } else {
      DifferentHeads(file, prefix);
    }
  }

  lemma PrefixUnderCons(x: string, p: Components, q: Components)
    ensures IsPrefix([x] + p, [x] + q) <==> IsPrefix(p, q)
  {
    if |p| <= |q| {
      assert ([x] + q)[..|p| + 1] == [x] + q[..|p|];
      assert ([x] + p)[1..] == p && ([x] + q[..|p|])[1..] == q[..|p|];
    }
  }

  lemma PrefixUnderHead(c: char, p: Components, q: Components)
    requires |p| >= 1 && |q| >= 1
    ensures IsPrefix([[c] + p[0]] + p[1..], [[c] + q[0]] + q[1..]) <==> IsPrefix(p, q)
  {
    assert p == [p[0]] + p[1..] && q == [q[0]] + q[1..];
    assert ([c] + p[0])[1..] == p[0] && ([c] + q[0])[1..] == q[0];
    if p[0] == q[0] {
      PrefixUnderCons(p[0], p[1..], q[1..]);
      PrefixUnderCons([c] + p[0], p[1..], q[1..]);
    } else if |p| <= |q| {
      assert q[..|p|][0] == q[0];
      assert ([[c] + q[0]] + q[1..])[..|p|][0] == [c] + q[0];
    }
  }

  lemma {:induction false} DifferentHeads(file: string, prefix: string)
    requires prefix != "" && (file == "" || file[0] != prefix[0])
    ensures !UnderPrefix(file, prefix)
    ensures !IsPrefix(Split(prefix, '/'), Split(file, '/'))
  {
    var p, f := Split(prefix, '/'), Split(file, '/');
    assert (prefix + "/")[0] == prefix[0];
    HeadOfSplit(prefix);
    HeadOfSplit(file);
    if |p| <= |f| {
      assert f[..|p|][0] == f[0];
    }
  }

  lemma {:induction false} HeadOfSplit(s: string)
    ensures var parts := Split(s, '/');
      && (s == "" ==> parts == [""])
      && (s != "" && s[0] == '/' ==> parts[0] == "" && |parts| >= 2)
      && (s != "" && s[0] != '/' ==> parts[0] != "" && parts[0][0] == s[0])
  {
  }

  /** The parts with the separator between them. */
  function Glue(parts: Components, separator: char): string {
    if parts == [] then ""
    else if |parts| == 1 then parts[0]
    else parts[0] + [separator] + Glue(parts[1..], separator)
  }

  ghost predicate SplitsInto(s: string, separator: char, parts: Components) {
    parts != [] && Glue(parts, separator) == s && forall i | 0 <= i < |parts| :: separator !in parts[i]
  }

  /** The split is the only way to write the string with separator-free parts. */
  lemma {:induction false} SplitExactly(s: string, separator: char, parts: Components)
    ensures SplitsInto(s, separator, parts) <==> parts == Split(s, separator)
  {
    SplitIsOne(s, separator);
    if SplitsInto(s, separator, parts) {
      SplitOfGlue(parts, separator);
    }
  }

  lemma {:induction false} SplitIsOne(s: string, separator: char)
    ensures SplitsInto(s, separator, Split(s, separator))
  {
    if s != "" {
      var rest := Split(s[1..], separator);
      SplitIsOne(s[1..], separator);
      assert s == [s[0]] + s[1..];
      if s[0] == separator {
        assert ([""] + rest)[1..] == rest;
        assert Glue([""] + rest, separator) == "" + [separator] + Glue(rest, separator);
      } else {
        var head := [s[0]] + rest[0];
        assert ([head] + rest[1..])[1..] == rest[1..];
        if |rest| > 1 {
          assert head + [separator] + Glue(rest[1..], separator)
            == [s[0]] + (rest[0] + [separator] + Glue(rest[1..], separator));
        }
      }
    }
  }

  lemma {:induction false} SplitOfGlue(parts: Components, separator: char)
    requires parts != [] && forall i | 0 <= i < |parts| :: separator !in parts[i]
    ensures Split(Glue(parts, separator), separator) == parts
    decreases |parts|, |parts[0]|
  {
    var first, rest := parts[0], parts[1..];
    var s := Glue(parts, separator);
    if first == "" {
      if rest != [] {
        SplitOfGlue(rest, separator);
        assert s == [separator] + Glue(rest, separator);
        assert s[1..] == Glue(rest, separator);
      }
      assert parts == [first] + rest;
    } else {
      var shorter := [first[1..]] + rest;
      assert forall i | 1 <= i < |parts| :: shorter[i] == parts[i];
      assert shorter[1..] == rest;
      SplitOfGlue(shorter, separator);
      assert first == [first[0]] + first[1..];
      assert s == [first[0]] + Glue(shorter, separator);
      assert s[1..] == Glue(shorter, separator) && s[0] == first[0];
      assert parts == [[first[0]] + shorter[0]] + shorter[1..];
    }
  }

  // ---- Where an accepted file lies -----------------------------------------------------------

  lemma {:induction false} SplitCons(c: char, s: string)
    ensures Split([c] + s, '/')
      == (if c == '/' then [""] + Split(s, '/') else [[c] + Split(s, '/')[0]] + Split(s, '/')[1..])
  {
    assert ([c] + s)[1..] == s;
  }

  /** One character before a separator is a component of its own. */
  lemma {:induction false} SplitOne(c: char, s: string)
    requires c != '/'
    ensures Split([c], '/') == [[c]]
    ensures Split([c] + (['/'] + s), '/') == [[c]] + Split(s, '/')
  {
    SplitCons(c, "");
    SplitCons('/', s);
    SplitCons(c, ['/'] + s);
    assert [c] + "" == [c];
  }

  /** Walk components from a directory, as a file system does; None above the root. */
  function Resolve(at: Components, parts: Components): Option<Components>
    decreases parts
  {
    if parts == [] then Some(at)
    else if parts[0] == "" || parts[0] == "." then Resolve(at, parts[1..])
    else if parts[0] == ".." then if at == [] then None else Resolve(at[..|at| - 1], parts[1..])
    else Resolve(at + [parts[0]], parts[1..])
  }

  lemma {:induction false} ResolveOnlyDescends(at: Components, parts: Components)
    requires ".." !in parts
    ensures Resolve(at, parts).Some? && IsPrefix(at, Resolve(at, parts).value)
    decreases parts
  {
    if parts == [] {
    } else if parts[0] == "" || parts[0] == "." {
      ResolveOnlyDescends(at, parts[1..]);
    } else {
      ResolveOnlyDescends(at + [parts[0]], parts[1..]);
      var r := Resolve(at + [parts[0]], parts[1..]).value;
      assert r[..|at|] == r[..|at| + 1][..|at|];
    }
  }

  lemma {:induction false} ResolveInTwo(at: Components, a: Components, b: Components)
    requires ".." !in a
    ensures Resolve(at, a).Some? && Resolve(at, a + b) == Resolve(Resolve(at, a).value, b)
    decreases a
  {
    if a == [] {
      assert a + b == b;
    } else {
      assert (a + b)[1..] == a[1..] + b;
      ResolveInTwo(if a[0] == "" || a[0] == "." then at else at + [a[0]], a[1..], b);
    }
  }

  function Normal(raw: string): string {
    if |raw| > 0 && raw[|raw| - 1] == '/' then raw[..|raw| - 1] else raw
  }

  predicate Relative(path: string) {
    !(|path| > 0 && path[0] == '/')
  }

  predicate Covers(raw: string, file: string) {
    IsPrefix(Split(Normal(raw), '/'), Split(file, '/'))
  }

  /** The file is the path itself or lies below it. */
  predicate AtOrBelow(file: string, path: string) {
    file == path || (|file| > |path| && file[..|path|] == path && file[|path|] == '/')
  }

  /** One slash at the end of an allowed path makes no difference. */
  lemma TrailingSlashIsIgnored(path: string, file: string)
    ensures Covers(path + "/", file) <==> AtOrBelow(file, path)
    ensures path == "" || path[|path| - 1] != '/' ==> (Covers(path, file) <==> AtOrBelow(file, path))
  {
    assert (path + "/")[..|path|] == path;
    assert Normal(path + "/") == path;
    PrefixIsComponentPrefix(file, path);
    if StartsWith(file, path + "/") {
      assert file[|path|] == (path + "/")[|path|];
      assert file[..|path|] == file[..|path + "/"|][..|path|];
    }
    if |file| > |path| && file[..|path|] == path && file[|path|] == '/' {
      assert file[..|path + "/"|] == file[..|path|] + [file[|path|]];
    }
  }

  /** The requirement on one changed file, in terms of path components. */
  ghost predicate InScope(file: string, allowed: seq<string>) {
    && Relative(file)
    && ".." !in Split(file, '/')
    && exists raw | raw in allowed :: Covers(raw, file)
  }

  /**
   * A file in scope stays in scope once the path is walked: from any worktree it ends inside
   * the directory that the allowed path covering it names.
   */
  lemma ScopeIsContainment(worktree: Components, file: string, allowed: seq<string>)
    returns (raw: string)
    requires InScope(file, allowed)
    ensures raw in allowed && Covers(raw, file)
    ensures var dir, place := Resolve(worktree, Split(Normal(raw), '/')), Resolve(worktree, Split(file, '/'));
      dir.Some? && place.Some? && IsPrefix(worktree, dir.value) && IsPrefix(dir.value, place.value)
  {
    raw :| raw in allowed && Covers(raw, file);
    var p, f := Split(Normal(raw), '/'), Split(file, '/');
    assert f == p + f[|p|..];
    assert ".." !in p && ".." !in f[|p|..];
    ResolveInTwo(worktree, p, f[|p|..]);
    ResolveOnlyDescends(worktree, p);
    ResolveOnlyDescends(Resolve(worktree, p).value, f[|p|..]);
  }

  lemma SplitExamples()
    ensures Split("a", '/') == ["a"]
    ensures Split("a/b", '/') == ["a", "b"]
    ensures Split("./a/b", '/') == [".", "a", "b"]
  {
    SplitOne('a', "b");
    SplitOne('b', "");
    SplitOne('.', "a/b");
    assert "b" == ['b'] && "a" == ['a'] && "." == ['.'];
    assert "a/b" == ['a'] + (['/'] + "b") && "./a/b" == ['.'] + (['/'] + "a/b");
  }

  /** The converse fails: a detour through `.` names the same file and is out of scope. */
  lemma ContainmentIsNotScope()
    ensures Resolve([], Split("./a/b", '/')) == Some(["a", "b"])
    ensures !InScope("./a/b", ["a"]) && InScope("a/b", ["a"])
  {
    SplitExamples();
    assert [] + ["a"] == ["a"];
    assert Resolve([], [".", "a", "b"]) == Resolve([], ["a", "b"]) == Resolve(["a"], ["b"]) == Resolve(["a", "b"], []) by {
      assert [".", "a", "b"][1..] == ["a", "b"] && ["a", "b"][1..] == ["b"] && ["b"][1..] == [];
      assert ["a"] + ["b"] == ["a", "b"];
    }
    assert "a" in ["a"] && Covers("a", "a/b");
  }

  /** No component that walking skips or takes back. */
  ghost predicate Canonical(parts: Components) {
    forall i | 0 <= i < |parts| :: parts[i] != "" && parts[i] != "." && parts[i] != ".."
  }

  lemma {:induction false} CanonicalPlace(at: Components, parts: Components)
    requires Canonical(parts)
    ensures Resolve(at, parts) == Some(at + parts)
    decreases parts
  {
    if parts == [] {
      assert at + parts == at;
    } else {
      CanonicalPlace(at + [parts[0]], parts[1..]);
      assert (at + [parts[0]]) + parts[1..] == at + parts;
    }
  }

  /** Between canonical paths the test is containment, both ways, wherever the worktree is. */
  lemma {:induction false} CanonicalScopeIsContainment(worktree: Components, raw: string, file: string)
    requires Canonical(Split(Normal(raw), '/')) && Canonical(Split(file, '/'))
    ensures var dir, place := Resolve(worktree, Split(Normal(raw), '/')), Resolve(worktree, Split(file, '/'));
      dir.Some? && place.Some? && (Covers(raw, file) <==> IsPrefix(dir.value, place.value))
  {
    var p, f := Split(Normal(raw), '/'), Split(file, '/');
    CanonicalPlace(worktree, p);
    CanonicalPlace(worktree, f);
    CommonFront(worktree, p, f);
  }

  lemma CommonFront(w: Components, p: Components, f: Components)
    ensures IsPrefix(w + p, w + f) <==> IsPrefix(p, f)
  {
    if |p| <= |f| {
      assert (w + f)[..|w + p|] == w + f[..|p|];
      assert (w + p)[|w|..] == p && (w + f[..|p|])[|w|..] == f[..|p|];
    }
  }

  method NormaliseGitPath(p: string) returns (r: Option<string>)
    ensures r == if Relative(p) && ".." !in Split(p, '/') then Some(p) else None
  {
    if |p| > 0 && p[0] == '/' {
      return None;
    }
    var parts := Split(p, '/');
    for i := 0 to |parts|
      invariant ".." !in parts[..i]
    {
      if parts[i] == ".." {
        return None;
      }
    }
    return Some(p);
  }

  method MatchesAllowedPrefix(filePath: string, allowedPaths: seq<string>) returns (r: bool)
    ensures r <==> exists raw | raw in allowedPaths :: Covers(raw, filePath)
  {
    for i := 0 to |allowedPaths|
      invariant forall raw | raw in allowedPaths[..i] :: !Covers(raw, filePath)
    {
      var raw := allowedPaths[i];
      var prefix := if |raw| > 0 && raw[|raw| - 1] == '/' then raw[..|raw| - 1] else raw;
      PrefixIsComponentPrefix(filePath, prefix);
      if filePath == prefix || StartsWith(filePath, prefix + "/") {
        assert raw in allowedPaths && Covers(raw, filePath);
        return true;
      }
    }
    return false;
  }

  // ---- The changed files ---------------------------------------------------------------------

  function TrimStart(s: string, isSpace: char -> bool): string {
    if s != [] && isSpace(s[0]) then TrimStart(s[1..], isSpace) else s
  }

  function TrimEnd(s: string, isSpace: char -> bool): string {
    if s != [] && isSpace(s[|s| - 1]) then TrimEnd(s[..|s| - 1], isSpace) else s
  }

  function Trim(s: string, isSpace: char -> bool): string {
    TrimEnd(TrimStart(s, isSpace), isSpace)
  }

  predicate Blank(s: string, isSpace: char -> bool) {
    forall i | 0 <= i < |s| :: isSpace(s[i])
  }

  lemma {:induction false} TrimStartEmpty(s: string, isSpace: char -> bool)
    ensures TrimStart(s, isSpace) == "" <==> Blank(s, isSpace)
    ensures TrimStart(s, isSpace) != "" ==> !isSpace(TrimStart(s, isSpace)[0])
  {
    if s != [] && isSpace(s[0]) {
      TrimStartEmpty(s[1..], isSpace);
      assert Blank(s, isSpace) <==> Blank(s[1..], isSpace);
    }
  }

  lemma {:induction false} TrimEndEmpty(s: string, isSpace: char -> bool)
    ensures TrimEnd(s, isSpace) == "" <==> Blank(s, isSpace)
  {
    if s != [] && isSpace(s[|s| - 1]) {
      TrimEndEmpty(s[..|s| - 1], isSpace);
      assert Blank(s, isSpace) <==> Blank(s[..|s| - 1], isSpace);
    }
  }

  lemma TrimEmpty(s: string, isSpace: char -> bool)
    ensures Trim(s, isSpace) == "" <==> Blank(s, isSpace)
  {
    TrimStartEmpty(s, isSpace);
    TrimEndEmpty(TrimStart(s, isSpace), isSpace);
  }

  /** What trimming leaves has no space at either end, and what it takes is blank. */
  lemma {:induction false} TrimExactly(s: string, isSpace: char -> bool) returns (before: string, after: string)
    ensures s == before + Trim(s, isSpace) + after && Blank(before, isSpace) && Blank(after, isSpace)
    ensures var t := Trim(s, isSpace); t == "" || (!isSpace(t[0]) && !isSpace(t[|t| - 1]))
  {
    before := StartTaken(s, isSpace);
    TrimStartEmpty(s, isSpace);
    var rest := TrimStart(s, isSpace);
    after := EndTaken(rest, isSpace);
    assert s == before + (Trim(s, isSpace) + after);
  }

  lemma {:induction false} StartTaken(s: string, isSpace: char -> bool) returns (before: string)
    ensures s == before + TrimStart(s, isSpace) && Blank(before, isSpace)
  {
    if s != [] && isSpace(s[0]) {
      before := StartTaken(s[1..], isSpace);
      before := [s[0]] + before;
    } else {
      before := "";
    }
  }

  lemma {:induction false} EndTaken(s: string, isSpace: char -> bool) returns (after: string)
    ensures s == TrimEnd(s, isSpace) + after && Blank(after, isSpace)
    ensures TrimEnd(s, isSpace) != "" ==>
      TrimEnd(s, isSpace)[0] == s[0] && !isSpace(TrimEnd(s, isSpace)[|TrimEnd(s, isSpace)| - 1])
  {
    if s != [] && isSpace(s[|s| - 1]) {
      var m := |s| - 1;
      after := EndTaken(s[..m], isSpace);
      after := after + [s[m]];
      assert s == s[..m] + [s[m]];
    } else {
      after := "";
    }
  }

  /** Trimmed lines without the empty ones. */
  function RawFiles(lines: seq<string>, isSpace: char -> bool): seq<string> {
    if lines == [] then []
    else
      var rest := RawFiles(lines[..|lines| - 1], isSpace);
      var line := Trim(lines[|lines| - 1], isSpace);
      if line != "" then rest + [line] else rest
  }

  lemma {:induction false} RawFilesAre(lines: seq<string>, isSpace: char -> bool)
    ensures forall f :: f in RawFiles(lines, isSpace) <==>
      (exists i :: 0 <= i < |lines| && !Blank(lines[i], isSpace) && f == Trim(lines[i], isSpace))
  {
    if lines != [] {
      var m := |lines| - 1;
      RawFilesAre(lines[..m], isSpace);
      TrimEmpty(lines[m], isSpace);
      forall f | f in RawFiles(lines[..m], isSpace)
        ensures exists i :: 0 <= i < |lines| && !Blank(lines[i], isSpace) && f == Trim(lines[i], isSpace)
      {
        var i :| 0 <= i < m && !Blank(lines[..m][i], isSpace) && f == Trim(lines[..m][i], isSpace);
        assert lines[i] == lines[..m][i];
      }
      forall i | 0 <= i < |lines| && !Blank(lines[i], isSpace)
        ensures Trim(lines[i], isSpace) in RawFiles(lines, isSpace)
      {
        if i < m {
          assert lines[..m][i] == lines[i];
        }
      }
    }
  }

  // ---- The lens ---------------------------------------------------------------------------------

  datatype Outcome = Threw | Exited(code: int, stdout: string)

  type Exec = (string, string) -> Outcome

  datatype Artifact = Artifact(worktree: Option<string>, diffBase: Option<string>, diffHead: Option<string>)

  datatype Inputs = Inputs(
    allowedPaths: Option<Option<seq<string>>>,  // None: no intent; Some(None): no allowed paths in it
    artifact: Option<Artifact>,
    exec: Option<Exec>,
    expectedHead: Option<string>)

  datatype Reason =
    | NoIntent | NoAllowedPaths | NoArtifact | BadWorktree | BadBase | BadHead | BadExpectedHead
    | HeadMismatch | EmptyRange | NoExecutor | ExecutorThrew | GitFailed(code: int)
    | OutOfScope(files: seq<string>) | AllInScope(count: nat)

  datatype Verdict = Verdict(score: nat, reason: Reason)

  predicate IsHex(c: char) {
    '0' <= c <= '9' || 'a' <= c <= 'f'
  }

  predicate IsHexRef(s: Option<string>) {
    s.Some? && 7 <= |s.value| <= 40 && forall i | 0 <= i < |s.value| :: IsHex(s.value[i])
  }

  /** Everything asked of the inputs before the diff is taken. */
  predicate Validates(x: Inputs) {
    && x.allowedPaths.Some? && x.allowedPaths.value.Some? && x.allowedPaths.value.value != []
    && x.artifact.Some?
    && var a := x.artifact.value;
      && a.worktree.Some? && a.worktree.value != "" && !Relative(a.worktree.value)
      && IsHexRef(a.diffBase) && IsHexRef(a.diffHead) && a.diffBase != a.diffHead
      && (x.expectedHead.Some? ==> a.diffHead == x.expectedHead)
      && x.exec.Some?
  }

  function Command(diffBase: string, diffHead: string): string {
    "git diff --name-only " + diffBase + ".." + diffHead
  }

  function Diff(x: Inputs): Outcome
    requires Validates(x)
  {
    var a := x.artifact.value;
    x.exec.value(Command(a.diffBase.value, a.diffHead.value), a.worktree.value)
  }

  /** What is executed: the names changed from the base to the head, in the worktree. */
  lemma DiffIsOfTheRange(x: Inputs, base: string, head: string, worktree: string)
    requires Validates(x) && x.artifact == Some(Artifact(Some(worktree), Some(base), Some(head)))
    ensures Diff(x) == x.exec.value("git diff --name-only " + base + ".." + head, worktree)
  {
  }

  ghost predicate LineInScope(line: string, allowed: seq<string>, isSpace: char -> bool) {
    Blank(line, isSpace) || InScope(Trim(line, isSpace), allowed)
  }

  /** The promise of the lens: valid inputs, a clean diff, and every changed file in scope. */
  ghost predicate NoDrift(x: Inputs, isSpace: char -> bool) {
    && Validates(x)
    && Diff(x).Exited? && Diff(x).code == 0
    && forall i | 0 <= i < |Split(Diff(x).stdout, '\n')| ::
      LineInScope(Split(Diff(x).stdout, '\n')[i], x.allowedPaths.value.value, isSpace)
  }

  /** A commit reference is 7 to 40 of the characters 0 to 9 and a to f. */
  lemma HexRefExactly(s: string)
    ensures IsHexRef(Some(s)) <==> 7 <= |s| <= 40 && forall i | 0 <= i < |s| :: s[i] in "0123456789abcdef"
    ensures !IsHexRef(None)
  {
    forall c: char
      ensures IsHex(c) <==> c in "0123456789abcdef"
    {
      HexDigit(c);
    }
  }

  lemma HexDigit(c: char)
    ensures IsHex(c) <==> c in "0123456789abcdef"
  {
    var digits := "0123456789abcdef";
    if '0' <= c <= '9' {
      assert digits[c as int - '0' as int] == c;
    } else if 'a' <= c <= 'f' {
      assert digits[10 + (c as int - 'a' as int)] == c;
    }
  }

  /** What is asked of the inputs, in the order it is checked. */
  ghost function FirstFailure(x: Inputs): Option<Reason> {
    var a := if x.artifact.Some? then x.artifact.value else Artifact(None, None, None);
    if x.allowedPaths == None then Some(NoIntent)
    else if x.allowedPaths.value == None || x.allowedPaths.value.value == [] then Some(NoAllowedPaths)
    else if x.artifact == None then Some(NoArtifact)
    else if !(a.worktree.Some? && a.worktree.value != "" && !Relative(a.worktree.value)) then Some(BadWorktree)
    else if !IsHexRef(a.diffBase) then Some(BadBase)
    else if !IsHexRef(a.diffHead) then Some(BadHead)
    else if x.expectedHead.Some? && !IsHexRef(x.expectedHead) then Some(BadExpectedHead)
    else if x.expectedHead.Some? && a.diffHead != x.expectedHead then Some(HeadMismatch)
    else if a.diffBase == a.diffHead then Some(EmptyRange)
    else if x.exec == None then Some(NoExecutor)
    else None
  }

  /** What each reason says about the inputs: its own guard failed, and those before it held. */
  lemma ReasonIsFirst(x: Inputs)
    ensures var a := if x.artifact.Some? then x.artifact.value else Artifact(None, None, None);
      match FirstFailure(x)
      case None => Validates(x)
      case Some(NoIntent) => x.allowedPaths == None
      case Some(NoAllowedPaths) => x.allowedPaths == Some(None) || x.allowedPaths == Some(Some([]))
      case Some(NoArtifact) => x.allowedPaths.Some? && x.allowedPaths.value.Some? && x.artifact == None
      case Some(BadWorktree) => x.artifact.Some? && (a.worktree == None || Relative(a.worktree.value))
      case Some(BadBase) => a.worktree.Some? && !Relative(a.worktree.value) && !IsHexRef(a.diffBase)
      case Some(BadHead) => IsHexRef(a.diffBase) && !IsHexRef(a.diffHead)
      case Some(BadExpectedHead) => IsHexRef(a.diffHead) && x.expectedHead.Some? && !IsHexRef(x.expectedHead)
      case Some(HeadMismatch) => IsHexRef(a.diffHead) && IsHexRef(x.expectedHead) && a.diffHead != x.expectedHead
      case Some(EmptyRange) => IsHexRef(a.diffBase) && a.diffBase == a.diffHead && x.expectedHead in {None, a.diffHead}
      case Some(NoExecutor) => a.diffBase != a.diffHead && x.exec == None
      case Some(_) => false
  {
  }

  /** The guards in order; the first that fails is the reason. */
  method CheckInputs(x: Inputs) returns (failed: Option<Reason>)
    ensures failed == None <==> Validates(x)
    ensures failed == FirstFailure(x)
  {
    if x.allowedPaths == None {
      return Some(NoIntent);
    }
    if x.allowedPaths.value == None || |x.allowedPaths.value.value| == 0 {
      return Some(NoAllowedPaths);
    }
    if x.artifact == None {
      return Some(NoArtifact);
    }
    var a := x.artifact.value;
    if a.worktree == None || |a.worktree.value| == 0 || Relative(a.worktree.value) {
      return Some(BadWorktree);
    }
    if !IsHexRef(a.diffBase) {
      return Some(BadBase);
    }
    if !IsHexRef(a.diffHead) {
      return Some(BadHead);
    }
    if x.expectedHead.Some? {
      if !IsHexRef(x.expectedHead) {
        return Some(BadExpectedHead);
      }
      if a.diffHead != x.expectedHead {
        return Some(HeadMismatch);
      }
    }
    if a.diffBase == a.diffHead {
      return Some(EmptyRange);
    }
    if x.exec == None {
      return Some(NoExecutor);
    }
    return None;
  }

  /** The files out of scope, in diff order. */
  ghost function Violations(files: seq<string>, allowed: seq<string>): seq<string> {
    if files == [] then []
    else
      var rest := Violations(files[..|files| - 1], allowed);
      if InScope(files[|files| - 1], allowed) then rest else rest + [files[|files| - 1]]
  }

  lemma {:induction false} NoViolations(files: seq<string>, allowed: seq<string>)
    ensures Violations(files, allowed) == [] <==> forall f | f in files :: InScope(f, allowed)
  {
    if files != [] {
      NoViolations(files[..|files| - 1], allowed);
      assert files == files[..|files| - 1] + [files[|files| - 1]];
    }
  }

  lemma {:induction false} ViolationsExactly(files: seq<string>, allowed: seq<string>)
    ensures forall f :: f in Violations(files, allowed) <==> f in files && !InScope(f, allowed)
  {
    if files != [] {
      ViolationsExactly(files[..|files| - 1], allowed);
      assert files == files[..|files| - 1] + [files[|files| - 1]];
    }
  }

  method FindViolations(rawFiles: seq<string>, allowed: seq<string>) returns (violations: seq<string>)
    ensures violations == Violations(rawFiles, allowed)
  {
    violations := [];
    for i := 0 to |rawFiles|
      invariant violations == Violations(rawFiles[..i], allowed)
    {
      assert rawFiles[..i + 1][..i] == rawFiles[..i];
      var file := NormaliseGitPath(rawFiles[i]);
      if file == None {
        violations := violations + [rawFiles[i]];
        continue;
      }
      var ok := MatchesAllowedPrefix(file.value, allowed);
      if !ok {
        violations := violations + [file.value];
      }
    }
    assert rawFiles[..|rawFiles|] == rawFiles;
  }

  /** The first failing guard, or what went wrong with git, or the files out of scope. */
  ghost function ReasonFor(x: Inputs, isSpace: char -> bool): Reason {
    if !Validates(x) then assert FirstFailure(x).Some?; FirstFailure(x).value
    else
      match Diff(x)
      case Threw => ExecutorThrew
      case Exited(code, stdout) =>
        if code != 0 then GitFailed(code)
        else
          var files := RawFiles(Split(stdout, '\n'), isSpace);
          var violations := Violations(files, x.allowedPaths.value.value);
          if violations != [] then OutOfScope(violations) else AllInScope(|files|)
  }

  /** Score 1 exactly when there is no drift, and 0 otherwise. */
  method Evaluate(x: Inputs, isSpace: char -> bool) returns (r: Verdict)
    ensures r.score == 1 <==> NoDrift(x, isSpace)
    ensures r.score == 0 || r.score == 1
    ensures r.reason == ReasonFor(x, isSpace)
  {
    var failed := CheckInputs(x);
    if failed.Some? {
      return Verdict(0, failed.value);
    }
    var outcome := Diff(x);
    if outcome == Threw {
      return Verdict(0, ExecutorThrew);
    }
    if outcome.code != 0 {
      return Verdict(0, GitFailed(outcome.code));
    }
    var lines := Split(outcome.stdout, '\n');
    var rawFiles := RawFiles(lines, isSpace);
    var allowed := x.allowedPaths.value.value;
    var violations := FindViolations(rawFiles, allowed);
    LinesInScope(lines, allowed, isSpace);
    if |violations| > 0 {
      return Verdict(0, OutOfScope(violations));
    }
    return Verdict(1, AllInScope(|rawFiles|));
  }

  lemma {:induction false} LinesInScope(lines: seq<string>, allowed: seq<string>, isSpace: char -> bool)
    ensures Violations(RawFiles(lines, isSpace), allowed) == []
      <==> forall i | 0 <= i < |lines| :: LineInScope(lines[i], allowed, isSpace)
  {
    NoViolations(RawFiles(lines, isSpace), allowed);
    RawFilesAre(lines, isSpace);
    forall i | 0 <= i < |lines| && !Blank(lines[i], isSpace)
      ensures Trim(lines[i], isSpace) in RawFiles(lines, isSpace)
    {
    }
  }
}
