/** POSIX path joining and the last path component, as Python's `posixpath` computes them. */
module Paths {

  /** `os.path.join(a, b)`: an absolute `b` replaces `a`; otherwise one `/` separates them. */
  function Join(a: string, b: string): (p: string)
    ensures |b| > 0 && b[0] == '/' ==> p == b
  {
    if |b| > 0 && b[0] == '/' then b
    else if a == [] || a[|a| - 1] == '/' then a + b
    else a + "/" + b
  }

  /** A relative component ends the joined path, right after a separator (or alone). */
  lemma JoinShape(a: string, b: string)
    requires !(|b| > 0 && b[0] == '/')
    ensures exists x :: Join(a, b) == x + b && (x == [] || x[|x| - 1] == '/')
  {
    if !(a == [] || a[|a| - 1] == '/') {
      var x := a + "/";
      assert Join(a, b) == x + b;
    }
  }

  /** `os.path.basename(p)`: everything after the last `/`. */
  function BaseName(p: string): (name: string)
    ensures '/' !in name && |name| <= |p|
  {
    if p == [] || p[|p| - 1] == '/' then []
    else BaseName(p[..|p| - 1]) + [p[|p| - 1]]
  }

  /** A component without `/` written after a separator is what `BaseName` reads back. */
  lemma {:induction false} BaseNameAfterSeparator(x: string, name: string)
    requires x == [] || x[|x| - 1] == '/'
    requires '/' !in name
    ensures BaseName(x + name) == name
    decreases |name|
  {
    if name != [] {
      var p := x + name;
      var init := name[..|name| - 1];
      var c := name[|name| - 1];
      assert c in name;
      assert p[..|p| - 1] == x + init;
      assert p[|p| - 1] == c && c != '/';
      assert BaseName(p) == BaseName(x + init) + [c];
      BaseNameAfterSeparator(x, init);
      assert init + [c] == name;
    } else {
      assert x + name == x;
    }
  }

  /** Joining a relative component without `/` onto any directory keeps it as the base name. */
  lemma BaseNameOfJoin(dir: string, name: string)
    requires name != [] && '/' !in name
    ensures BaseName(Join(dir, name)) == name
  {
    assert name[0] != '/';
    JoinShape(dir, name);
    var x :| Join(dir, name) == x + name && (x == [] || x[|x| - 1] == '/');
    BaseNameAfterSeparator(x, name);
  }
}
