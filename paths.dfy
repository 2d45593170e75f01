/**
 * The parts of Python's `os.path` (POSIX flavour) the benchmark driver
 * uses: `join` of a directory and a relative name, `basename`, and the
 * root returned by `splitext`.
 */
module Paths {
  import opened Text

  predicate NoSlash(s: string) { forall i :: 0 <= i < |s| ==> s[i] != '/' }

  /** `os.path.join(a, b)` for a relative `b`. */
  function PathJoin(a: string, b: string): string
    requires b == [] || b[0] != '/'
  {
    if a == [] || a[|a| - 1] == '/' then a + b else a + "/" + b
  }

  /** Index just past the last `c` in `s`, or 0 when `c` does not occur. */
  function AfterLast(s: string, c: char): (k: nat)
    ensures k <= |s|
  {
    if s == [] then 0
    else if s[|s| - 1] == c then |s|
    else AfterLast(s[..|s| - 1], c)
  }

  /** The index found is just past an occurrence of `c`, and none follows it. */
  lemma {:induction false} AfterLastSpec(s: string, c: char)
    ensures var k := AfterLast(s, c);
      && (k > 0 ==> s[k - 1] == c)
      && forall i :: k <= i < |s| ==> s[i] != c
    decreases |s|
  {
    if s != [] && s[|s| - 1] != c {
      AfterLastSpec(s[..|s| - 1], c);
    }
  }

  /** `os.path.basename(p)`: what follows the last slash. */
  function Basename(p: string): string
  {
    p[AfterLast(p, '/')..]
  }

  /** A base name holds no slash. */
  lemma BasenameNoSlash(p: string)
    ensures NoSlash(Basename(p))
  {
    AfterLastSpec(p, '/');
  }

  /** The first component of `os.path.splitext(p)`. */
  function SplitextRoot(p: string): (r: string)
    ensures |r| <= |p| && r == p[..|r|]
  {
    var sep := AfterLast(p, '/');
    var dot := AfterLast(p, '.');
    if dot > sep + 1 && HasNonDot(p[sep..dot - 1]) then p[..dot - 1] else p
  }

  predicate HasNonDot(s: string) { exists i :: 0 <= i < |s| && s[i] != '.' }

  predicate NoDot(s: string) { forall i :: 0 <= i < |s| ==> s[i] != '.' }

  lemma AfterLastAppend(s: string, t: string, c: char)
    requires forall i :: 0 <= i < |t| ==> t[i] != c
    ensures AfterLast(s + t, c) == AfterLast(s, c)
    decreases |t|
  {
    if t == [] {
      assert s + t == s;
    } else {
      assert (s + t)[..|s + t| - 1] == s + t[..|t| - 1];
      AfterLastAppend(s, t[..|t| - 1], c);
    }
  }

  /** The base name of a path built by `join` is the name joined on. */
  lemma BasenameOfJoin(dir: string, name: string)
    requires NoSlash(name) && (name == [] || name[0] != '/')
    ensures Basename(PathJoin(dir, name)) == name
  {
    var d := if dir == [] || dir[|dir| - 1] == '/' then dir else dir + "/";
    assert PathJoin(dir, name) == d + name;
    AfterLastAppend(d, name, '/');
    if d != [] {
      assert d[|d| - 1] == '/';
    }
  }

  /** `splitext` of `stem.ext` keeps `stem` when it is not made of dots only. */
  lemma SplitextRootOfName(stem: string, ext: string)
    requires NoSlash(stem) && HasNonDot(stem)
    requires NoSlash(ext) && NoDot(ext)
    ensures SplitextRoot(stem + "." + ext) == stem
  {
    var name := stem + "." + ext;
    AfterLastAppend(stem + ".", ext, '.');
    assert name == (stem + ".") + ext;
    assert AfterLast(stem + ".", '.') == |stem| + 1;
    assert NoSlash(name);
    AfterLastAppend([], name, '/');
    assert [] + name == name;
    assert name[0..|stem|] == stem;
    var i :| 0 <= i < |stem| && stem[i] != '.';
    assert name[0..|stem|][i] != '.';
  }

  /** `splitext(basename(log_file))[0]`: the tmux session a background launch runs in. */
  function SessionName(logFile: string): string
  {
    SplitextRoot(Basename(logFile))
  }

  /**
   * A log file `dir/stem.ext` runs in the session `stem`, whatever the
   * directory, provided the stem is not made of dots only; so distinct
   * stems give distinct sessions.
   */
  lemma SessionNameOfLogFile(dir: string, stem: string, ext: string)
    requires NoSlash(stem) && HasNonDot(stem)
    requires NoSlash(ext) && NoDot(ext)
    ensures SessionName(PathJoin(dir, stem + "." + ext)) == stem
  {
    var name := stem + "." + ext;
    assert NoSlash(name);
    assert name[0] != '/' by {
      var i :| 0 <= i < |stem| && stem[i] != '.';
      assert name[0] == stem[0];
    }
    BasenameOfJoin(dir, name);
    SplitextRootOfName(stem, ext);
  }

  /** A bare `stem.ext`, with no directory, runs in the session `stem`. */
  lemma SessionNameOfBareName(stem: string, ext: string)
    requires NoSlash(stem) && HasNonDot(stem)
    requires NoSlash(ext) && NoDot(ext)
    ensures SessionName(stem + "." + ext) == stem
  {
    var name := stem + "." + ext;
    assert NoSlash(name);
    SplitextRootOfName(stem, ext);
    assert [] + name == name;
    AfterLastAppend([], name, '/');
  }
}
