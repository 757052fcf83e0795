/** Paths as plain strings: `os.path.join` and the separator count used as a depth key. */
module Paths {

  /** `os.sep`, fixed to the POSIX separator. */
  const Sep: char := '/'

  /** `os.path.join(root, name)` for a relative `name`. */
  function Join(root: string, name: string): string
  {
    root + [Sep] + name
  }

  /** `path.count(os.sep)`: the number of separators in `path`. */
  function Depth(path: string): nat
  {
    if |path| == 0 then 0
    else Depth(path[..|path| - 1]) + (if path[|path| - 1] == Sep then 1 else 0)
  }

  /** `path` names an entry strictly inside the directory `dir`. */
  predicate Inside(path: string, dir: string)
  {
    |dir| < |path| && path[..|dir| + 1] == dir + [Sep]
  }

  /** Counting separators distributes over concatenation. */
  lemma {:induction false} DepthAppend(a: string, b: string)
    ensures Depth(a + b) == Depth(a) + Depth(b)
    decreases |b|
  {
    if |b| == 0 {
      assert a + b == a;
    } else {
      var b' := b[..|b| - 1];
      assert (a + b)[..|a + b| - 1] == a + b';
      DepthAppend(a, b');
      assert Depth(b) == Depth(b') + (if b[|b| - 1] == Sep then 1 else 0);
    }
  }

  /** A joined path lies inside its root and is exactly one separator deeper than root and name together. */
  lemma JoinDepth(root: string, name: string)
    ensures Inside(Join(root, name), root)
    ensures Depth(Join(root, name)) == Depth(root) + 1 + Depth(name)
  {
    DepthAppend(root, [Sep]);
    DepthAppend(root + [Sep], name);
    assert Depth([Sep]) == Depth([]) + 1;
    assert Join(root, name)[..|root| + 1] == root + [Sep];
  }

  /** Joining the same root with different names gives different paths. */
  lemma JoinInjective(root: string, a: string, b: string)
    ensures Join(root, a) == Join(root, b) <==> a == b
  {
    if Join(root, a) == Join(root, b) {
      assert a == Join(root, a)[|root| + 1..];
      assert b == Join(root, b)[|root| + 1..];
    }
  }

  /** Anything inside a directory has more separators than the directory itself. */
  lemma InsideIsDeeper(path: string, dir: string)
    requires Inside(path, dir)
    ensures Depth(path) > Depth(dir)
  {
    var rest := path[|dir| + 1..];
    assert path == (dir + [Sep]) + rest;
    DepthAppend(dir + [Sep], rest);
    DepthAppend(dir, [Sep]);
    assert Depth([Sep]) == Depth([]) + 1;
  }
}
