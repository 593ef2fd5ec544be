/** Node's POSIX `path.extname`, which the document guards and the upload filename builder use:
    the last `.`-suffix of the last path segment, ignoring trailing slashes, except that a segment
    whose only dot is its first character, and the segment `..`, have no extension. */
module Paths {
  import opened Wrappers

  /** `p` without its trailing slashes. */
  function TrimTrailingSlashes(p: string): (r: string)
    ensures |r| <= |p| && r == p[..|r|]
    ensures r == [] || r[|r| - 1] != '/'
    ensures forall i | |r| <= i < |p| :: p[i] == '/'
  {
    if p == [] || p[|p| - 1] != '/' then p else TrimTrailingSlashes(p[..|p| - 1])
  }

  /** The part of `p` after its last slash. */
  function Basename(p: string): (r: string)
    ensures '/' !in r
    ensures |r| <= |p| && r == p[|p| - |r|..]
    ensures |r| < |p| ==> p[|p| - |r| - 1] == '/'
  {
    if p == [] || p[|p| - 1] == '/' then [] else Basename(p[..|p| - 1]) + [p[|p| - 1]]
  }

  /** The position of the last dot. */
  function LastDot(b: string): (r: Option<nat>)
    ensures r.Some? ==> r.value < |b| && b[r.value] == '.' && forall i | r.value < i < |b| :: b[i] != '.'
    ensures r.None? ==> forall i | 0 <= i < |b| :: b[i] != '.'
  {
    if b == [] then None else if b[|b| - 1] == '.' then Some(|b| - 1) else LastDot(b[..|b| - 1])
  }

  /** `path.extname(p)`: empty, or a dot followed by neither a dot nor a slash. */
  function Extname(p: string): (r: string)
    ensures r == [] || (r[0] == '.' && '.' !in r[1..] && '/' !in r)
  {
    var b := Basename(TrimTrailingSlashes(p));
    match LastDot(b)
    case None => ""
    case Some(d) => if d == 0 || b == ".." then "" else b[d..]
  }

  lemma {:induction false} BasenameAfterSlash(dir: string, name: string)
    requires '/' !in name
    ensures Basename(dir + "/" + name) == name
  {
    if name != [] {
      var init := name[..|name| - 1];
      assert (dir + "/" + name)[..|dir + "/" + name| - 1] == dir + "/" + init;
      BasenameAfterSlash(dir, init);
      assert init + [name[|name| - 1]] == name;
    } else {
      assert (dir + "/" + name)[..|dir + "/" + name| - 1] == dir;
    }
  }

  /** A file name joined under a directory keeps its extension. */
  lemma ExtnameUnderDirectory(dir: string, name: string)
    requires '/' !in name && name != []
    ensures Extname(dir + "/" + name) == Extname(name)
  {
    var p := dir + "/" + name;
    assert p[|p| - 1] == name[|name| - 1];
    assert TrimTrailingSlashes(p) == p;
    assert TrimTrailingSlashes(name) == name;
    BasenameAfterSlash(dir, name);
    BasenameOfPlain(name);
  }

  lemma {:induction false} BasenameOfPlain(name: string)
    requires '/' !in name
    ensures Basename(name) == name
  {
    if name != [] {
      BasenameOfPlain(name[..|name| - 1]);
      assert name[..|name| - 1] + [name[|name| - 1]] == name;
    }
  }

  lemma NoSlashAppend(a: string, b: string)
    requires '/' !in a && '/' !in b
    ensures '/' !in a + b
  {
    forall i | 0 <= i < |a + b| ensures (a + b)[i] != '/' {
      if i < |a| {
        assert (a + b)[i] == a[i];
      } else {
        assert (a + b)[i] == b[i - |a|];
      }
    }
  }

  /** After a dot-free prefix, the last dot is the extension's leading dot. */
  lemma LastDotOfExtension(prefix: string, e: string)
    requires '.' !in prefix && e != [] && e[0] == '.' && '.' !in e[1..]
    ensures LastDot(prefix + e) == Some(|prefix|)
  {
    var b := prefix + e;
    assert b[|prefix|] == '.';
    forall i | |prefix| < i < |b| ensures b[i] != '.' {
      assert b[i] == e[1..][i - |prefix| - 1];
    }
    forall i | 0 <= i < |prefix| ensures b[i] != '.' {
      assert b[i] == prefix[i];
    }
  }

  /** A name with no dot or slash, followed by an extension, has exactly that extension. */
  lemma ExtnameAfterPlainPrefix(prefix: string, e: string)
    requires prefix != [] && '.' !in prefix && '/' !in prefix
    requires e == [] || (e[0] == '.' && '.' !in e[1..] && '/' !in e)
    ensures Extname(prefix + e) == e
  {
    var b := prefix + e;
    NoSlashAppend(prefix, e);
    assert TrimTrailingSlashes(b) == b by {
      assert b[|b| - 1] in b;
    }
    BasenameOfPlain(b);
    assert Basename(TrimTrailingSlashes(b)) == b;
    if e == [] {
      assert b == prefix;
      assert LastDot(b) == None;
    } else {
      LastDotOfExtension(prefix, e);
      assert b[0] == prefix[0] != '.';
      assert b != "..";
      assert b[|prefix|..] == e;
    }
  }
}
