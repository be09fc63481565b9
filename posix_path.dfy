/** The parts of `os.path` (POSIX flavour) the service and the router use, and
    the filesystem as a map from existing paths to their sizes. */
module PosixPath {
  import opened Text

  /** `os.path.join(a, b)`: an absolute `b` replaces `a`; otherwise a single
      separator is put between them unless `a` is empty or already ends in one. */
  function Join(a: string, b: string): string
  {
    if StartsWith(b, "/") then b
    else if a == [] || a[|a| - 1] == '/' then a + b
    else a + "/" + b
  }

  /** `os.path.basename(p)`: everything after the last separator. */
  function Basename(p: string): (r: string)
    ensures '/' !in r
    ensures EndsWith(p, r)
    ensures |r| < |p| ==> p[|p| - |r| - 1] == '/'
  {
    if p == [] || p[|p| - 1] == '/' then [] else Basename(p[..|p| - 1]) + [p[|p| - 1]]
  }

  /** An absolute path with no empty, "." or ".." component and no trailing
      separator: what `Path.resolve()` produces. */
  predicate IsNormalAbsPath(p: string)
  {
    |p| > 1 && p[0] == '/' && forall i :: 0 <= i < |p| && p[i] == '/' ==> ComponentAfterIsPlain(p, i)
  }

  /** The component that follows the separator at `i` is not empty, "." or "..". */
  predicate ComponentAfterIsPlain(p: string, i: nat)
    requires i < |p|
  {
    && i + 1 < |p| && p[i + 1] != '/'
    && !(p[i + 1] == '.' && (i + 2 == |p| || p[i + 2] == '/'))
    && !(p[i + 1] == '.' && i + 2 < |p| && p[i + 2] == '.' && (i + 3 == |p| || p[i + 3] == '/'))
  }

  /** A normal absolute path does not end in a separator. */
  lemma NormalHasNoTrailingSlash(p: string)
    requires IsNormalAbsPath(p)
    ensures p[|p| - 1] != '/'
  {
  }

  /** A single path component that normalisation leaves alone. */
  predicate IsPlainComponent(c: string)
  {
    c != [] && '/' !in c && c != "." && c != ".."
  }

  /** `os.path.relpath(path, start)` for a path that lies below `start`, where
      `start` is a normal absolute path and every further component is plain:
      the components after `start`.  Other paths are not part of this model. */
  function RelPathBelow(path: string, start: string): (r: string)
    requires StartsWith(path, start + "/")
    ensures path == start + "/" + r
  {
    path[|start| + 1..]
  }

  /** Joining a plain component onto a normal directory appends "/" and the component. */
  lemma JoinBelow(dir: string, name: string)
    requires dir != [] && dir[|dir| - 1] != '/'
    requires '/' !in name
    ensures Join(dir, name) == dir + "/" + name
    ensures Basename(Join(dir, name)) == name
  {
    BasenameOfSuffix(dir + "/", name);
  }

  lemma {:induction false} BasenameOfSuffix(prefix: string, name: string)
    requires prefix != [] && prefix[|prefix| - 1] == '/'
    requires '/' !in name
    ensures Basename(prefix + name) == name
  {
    if name != [] {
      var p := prefix + name;
      assert p[..|p| - 1] == prefix + name[..|name| - 1];
      BasenameOfSuffix(prefix, name[..|name| - 1]);
    } else {
      assert prefix + name == prefix;
    }
  }

  /** A normal absolute path extended by a component that has no separator
      and does not start with a dot is again a normal absolute path. */
  lemma AppendComponent(base: string, name: string)
    requires IsNormalAbsPath(base)
    requires name != [] && '/' !in name && name[0] != '.'
    ensures IsNormalAbsPath(base + "/" + name)
  {
    var d := base + "/" + name;
    var n := |base|;
    forall i | 0 <= i < |d| && d[i] == '/'
      ensures ComponentAfterIsPlain(d, i)
    {
      if i < n {
        assert d[i] == base[i];
        assert ComponentAfterIsPlain(base, i);
        if i + 1 < n { assert d[i + 1] == base[i + 1]; }
        if i + 2 < n { assert d[i + 2] == base[i + 2]; }
        if i + 3 < n { assert d[i + 3] == base[i + 3]; }
        if i + 1 == n - 1 { assert d[i + 2] == '/'; }
        if i + 2 == n - 1 { assert d[i + 3] == '/'; }
      } else if i == n {
        assert d[i + 1] == name[0];
      }
    }
  }

  /** An absolute second argument discards the first: joining a root with a
      requested path never confines the result to the root. */
  lemma JoinAbsoluteEscapes(root: string, requested: string)
    requires StartsWith(requested, "/")
    ensures Join(root, requested) == requested
  {
  }
}

module FileSystem {
  /** The filesystem seen by the service: every existing path with its size in
      bytes (`os.path.exists`, `os.path.getsize`). */
  datatype FileSystem = FileSystem(entries: map<string, nat>)

  predicate Exists(fs: FileSystem, p: string) { p in fs.entries }

  /** `os.makedirs(p, exist_ok=True)`: afterwards `p` exists and every entry
      that existed before is kept with its size.  A new directory is recorded
      with size 0. */
  function MakeDirs(fs: FileSystem, p: string): (r: FileSystem)
    ensures Exists(r, p)
    ensures forall q :: q in fs.entries ==> q in r.entries && r.entries[q] == fs.entries[q]
    ensures forall q :: q in r.entries ==> q in fs.entries || q == p
  {
    if p in fs.entries then fs else FileSystem(fs.entries[p := 0])
  }
}
