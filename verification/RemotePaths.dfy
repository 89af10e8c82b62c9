/** Absolute POSIX paths as component lists, and the overlap test that write leases rest on. */
module RemotePaths {
  type Path = seq<string>

  /** The ancestors of a path, nearest first, as PurePosixPath.parents lists them. */
  function Parents(path: Path): seq<Path> {
    seq(|path|, i requires 0 <= i < |path| => path[..|path| - 1 - i])
  }

  predicate Inside(path: Path, root: Path) {
    path == root || root in Parents(path)
  }

  predicate Overlap(a: Path, b: Path) {
    Inside(a, b) || Inside(b, a)
  }

  lemma InsideIsPrefix(path: Path, root: Path)
    ensures Inside(path, root) <==> root <= path
  {
    if root < path {
      assert Parents(path)[|path| - 1 - |root|] == root;
    }
  }

  /** The overlap test is exact: it fires if and only if some file lies below both directories. */
  lemma OverlapIffSharedFile(a: Path, b: Path)
    ensures Overlap(a, b) <==> exists file: Path :: Inside(file, a) && Inside(file, b)
  {
    InsideIsPrefix(a, b);
    InsideIsPrefix(b, a);
    if Overlap(a, b) {
      var deeper := if Inside(a, b) then a else b;
      assert Inside(deeper, a) && Inside(deeper, b);
    }
    forall file: Path | Inside(file, a) && Inside(file, b) ensures Overlap(a, b) {
      InsideIsPrefix(file, a);
      InsideIsPrefix(file, b);
      if |a| <= |b| {
        assert a == file[..|a|] == b[..|a|];
      } else {
        assert b == file[..|b|] == a[..|b|];
      }
    }
  }
}
