/**
  `collect_items` of rename_optimized.py: the entries the filesystem reports, minus `.DS_Store`,
  tagged as files or folders, and in recursive mode stable-sorted deepest first.
  The listing (`os.listdir` with `os.path.isdir`) and the walk (`os.walk(topdown=False)`)
  are inputs; only what the function does with them is modelled.
*/
module Collect {
  import opened Paths

  datatype Kind = File | Folder

  /** One tuple `(item_type, root, itemname, old_path)` of the collected list. */
  datatype Item = Item(kind: Kind, root: string, name: string, path: string)

  /** One name from `os.listdir`, with what `os.path.isdir` says of its path. */
  datatype Listed = Listed(name: string, isDir: bool)

  /** One `(root, dirs, files)` triple produced by `os.walk`. */
  datatype WalkStep = WalkStep(root: string, dirs: seq<string>, files: seq<string>)

  /** The macOS bookkeeping entry skipped in both modes. */
  const Bookkeeping: string := ".DS_Store"

  /** The item an entry `name` of directory `root` becomes. */
  function ItemFor(kind: Kind, root: string, name: string): Item
  {
    Item(kind, root, name, Join(root, name))
  }

  /** Sort key of the recursive mode: `old_path.count(os.sep)`. */
  function Key(item: Item): nat
  {
    Depth(item.path)
  }

  // ---------------------------------------------------------------- non-recursive mode

  /** Tagging of one listed name, `'folder'` exactly for directories. */
  function Classify(folder: string, entry: Listed): Item
  {
    ItemFor(if entry.isDir then Folder else File, folder, entry.name)
  }

  /** The direct children of `folder`, in listing order, without `.DS_Store`; `'folder'` exactly for directories. */
  function CollectFlat(folder: string, listing: seq<Listed>): (r: seq<Item>)
    ensures |r| <= |listing|
    ensures forall item :: item in r ==>
              && item.name != Bookkeeping
              && item.root == folder
              && item.path == Join(folder, item.name)
              && Listed(item.name, item.kind == Folder) in listing
    ensures forall entry :: entry in listing && entry.name != Bookkeeping ==> Classify(folder, entry) in r
  {
    if |listing| == 0 then []
    else if listing[0].name == Bookkeeping then CollectFlat(folder, listing[1..])
    else [Classify(folder, listing[0])] + CollectFlat(folder, listing[1..])
  }

  /** Collection keeps the listing order: entries listed earlier are collected earlier. */
  lemma {:induction false} CollectFlatAppend(folder: string, a: seq<Listed>, b: seq<Listed>)
    ensures CollectFlat(folder, a + b) == CollectFlat(folder, a) + CollectFlat(folder, b)
    decreases |a|
  {
    if |a| == 0 {
      assert a + b == b;
    } else {
      assert (a + b)[1..] == a[1..] + b;
      CollectFlatAppend(folder, a[1..], b);
    }
  }

  // ---------------------------------------------------------------- recursive mode

  /** The items for the names of one walk step, all of one kind, without `.DS_Store`. */
  function Tagged(kind: Kind, root: string, names: seq<string>): (r: seq<Item>)
    ensures |r| <= |names|
    ensures forall item :: item in r ==>
              && item == ItemFor(kind, root, item.name)
              && item.name in names
              && item.name != Bookkeeping
    ensures forall name :: name in names && name != Bookkeeping ==> ItemFor(kind, root, name) in r
  {
    if |names| == 0 then []
    else if names[0] == Bookkeeping then Tagged(kind, root, names[1..])
    else [ItemFor(kind, root, names[0])] + Tagged(kind, root, names[1..])
  }

  /** A single name becomes one item, unless it is `.DS_Store`. */
  lemma TaggedOne(kind: Kind, root: string, name: string)
    ensures Tagged(kind, root, [name]) == (if name == Bookkeeping then [] else [ItemFor(kind, root, name)])
  {
  }

  /** Tagging keeps the order of the names: names listed earlier become items earlier. */
  lemma {:induction false} TaggedAppend(kind: Kind, root: string, a: seq<string>, b: seq<string>)
    ensures Tagged(kind, root, a + b) == Tagged(kind, root, a) + Tagged(kind, root, b)
    decreases |a|
  {
    if |a| == 0 {
      assert a + b == b;
    } else {
      assert (a + b)[1..] == a[1..] + b;
      TaggedAppend(kind, root, a[1..], b);
    }
  }

  /** `all_items`: for every walk step in walk order, its folders and then its files. */
  function Gather(walk: seq<WalkStep>): (r: seq<Item>)
    ensures forall item :: item in r ==>
              && item == ItemFor(item.kind, item.root, item.name)
              && item.name != Bookkeeping
              && exists w :: w in walk && w.root == item.root
                             && item.name in (if item.kind == Folder then w.dirs else w.files)
    ensures forall w, name :: w in walk && name in w.dirs && name != Bookkeeping ==>
              ItemFor(Folder, w.root, name) in r
    ensures forall w, name :: w in walk && name in w.files && name != Bookkeeping ==>
              ItemFor(File, w.root, name) in r
  {
    if |walk| == 0 then []
    else
      var w := walk[0];
      Tagged(Folder, w.root, w.dirs) + Tagged(File, w.root, w.files) + Gather(walk[1..])
  }

  /** One walk step contributes its folders, then its files. */
  lemma GatherOne(w: WalkStep)
    ensures Gather([w]) == Tagged(Folder, w.root, w.dirs) + Tagged(File, w.root, w.files)
  {
  }

  /** Gathering keeps the walk order: earlier walk steps contribute earlier items. */
  lemma {:induction false} GatherAppend(a: seq<WalkStep>, b: seq<WalkStep>)
    ensures Gather(a + b) == Gather(a) + Gather(b)
    decreases |a|
  {
    if |a| == 0 {
      assert a + b == b;
    } else {
      assert (a + b)[0] == a[0];
      assert (a + b)[1..] == a[1..] + b;
      GatherAppend(a[1..], b);
    }
  }

  /** No item is followed by a deeper one. */
  predicate DeepestFirst(s: seq<Item>)
  {
    forall i, j :: 0 <= i < j < |s| ==> Key(s[j]) <= Key(s[i])
  }

  /** The items of `s` at depth `d`, in their order in `s`. */
  function AtDepth(s: seq<Item>, d: nat): seq<Item>
  {
    if |s| == 0 then []
    else (if Key(s[0]) == d then [s[0]] else []) + AtDepth(s[1..], d)
  }

  /** Inserts `x` in front of the first item that is not deeper than it. */
  function Insert(x: Item, t: seq<Item>): (r: seq<Item>)
    ensures multiset(r) == multiset(t) + multiset{x}
    ensures forall y :: y in r ==> y == x || y in t
  {
    if |t| == 0 || Key(x) >= Key(t[0]) then [x] + t
    else
      assert t == [t[0]] + t[1..];
      [t[0]] + Insert(x, t[1..])
  }

  /** A head at least as deep as everything after it keeps a deepest-first sequence so. */
  lemma ConsSorted(a: Item, s: seq<Item>)
    requires DeepestFirst(s)
    requires forall y :: y in s ==> Key(y) <= Key(a)
    ensures DeepestFirst([a] + s)
  {
  }

  /** Inserting into a deepest-first sequence keeps it deepest-first. */
  lemma {:induction false} InsertSorted(x: Item, t: seq<Item>)
    requires DeepestFirst(t)
    ensures DeepestFirst(Insert(x, t))
    decreases |t|
  {
    if |t| == 0 || Key(x) >= Key(t[0]) {
      ConsSorted(x, t);
    } else {
      var rest := t[1..];
      var r' := Insert(x, rest);
      assert Insert(x, t) == [t[0]] + r';
      InsertSorted(x, rest);
      forall y | y in rest
        ensures Key(y) <= Key(t[0])
      {
        var m :| 0 <= m < |rest| && rest[m] == y;
        assert t[m + 1] == y;
      }
      ConsSorted(t[0], r');
    }
  }

  /** `x` joins the items of its own depth in front; the other depths are untouched. */
  lemma {:induction false} InsertAtDepth(x: Item, t: seq<Item>, d: nat)
    ensures AtDepth(Insert(x, t), d) == (if Key(x) == d then [x] else []) + AtDepth(t, d)
    decreases |t|
  {
    if |t| == 0 || Key(x) >= Key(t[0]) {
      assert ([x] + t)[1..] == t;
    } else {
      var r' := Insert(x, t[1..]);
      var r := [t[0]] + r';
      assert Insert(x, t) == r;
      assert r[0] == t[0] && r[1..] == r';
      InsertAtDepth(x, t[1..], d);
      assert AtDepth(t, d) == (if Key(t[0]) == d then [t[0]] else []) + AtDepth(t[1..], d);
      if Key(x) == d {
        assert AtDepth(r, d) == AtDepth(r', d);
        assert AtDepth(t, d) == AtDepth(t[1..], d);
      } else {
        assert AtDepth(r', d) == AtDepth(t[1..], d);
      }
    }
  }

  /** The sort step: `x` before the sorted rest, for every depth at once. */
  lemma InsertKeepsOrder(x: Item, t: seq<Item>)
    requires DeepestFirst(t)
    ensures DeepestFirst(Insert(x, t))
    ensures forall d :: AtDepth(Insert(x, t), d) == AtDepth([x] + t, d)
  {
    InsertSorted(x, t);
    forall d ensures AtDepth(Insert(x, t), d) == AtDepth([x] + t, d) {
      InsertAtDepth(x, t, d);
      assert ([x] + t)[1..] == t;
    }
  }

  /**
    `sorted(all_items, key=lambda x: x[3].count(os.sep), reverse=True)`: the same items,
    deepest first, and, as Python's sort is stable also with `reverse=True`, items of equal
    depth in their original order.
  */
  function SortDeepestFirst(s: seq<Item>): (r: seq<Item>)
    ensures multiset(r) == multiset(s)
    ensures DeepestFirst(r)
    ensures forall d :: AtDepth(r, d) == AtDepth(s, d)
  {
    if |s| == 0 then []
    else
      var rest := SortDeepestFirst(s[1..]);
      assert s == [s[0]] + s[1..];
      InsertKeepsOrder(s[0], rest);
      assert forall d :: AtDepth([s[0]] + rest, d) == AtDepth(s, d) by {
        assert ([s[0]] + rest)[1..] == rest;
      }
      Insert(s[0], rest)
  }

  /** Deepest-first order never puts a folder before anything inside it. */
  lemma ContentsBeforeContainer(s: seq<Item>)
    requires DeepestFirst(s)
    ensures forall i, j :: 0 <= i < j < |s| ==> !Inside(s[j].path, s[i].path)
  {
    forall i, j | 0 <= i < j < |s|
      ensures !Inside(s[j].path, s[i].path)
    {
      if Inside(s[j].path, s[i].path) {
        InsideIsDeeper(s[j].path, s[i].path);
      }
    }
  }

  /**
    The recursive mode: a stable deepest-first permutation of the walk's entries, so no
    folder comes before an item inside it.
  */
  function CollectRecursive(walk: seq<WalkStep>): (r: seq<Item>)
    ensures multiset(r) == multiset(Gather(walk))
    ensures DeepestFirst(r)
    ensures forall d :: AtDepth(r, d) == AtDepth(Gather(walk), d)
    ensures forall i, j :: 0 <= i < j < |r| ==> !Inside(r[j].path, r[i].path)
    ensures forall item :: item in r ==> item.name != Bookkeeping && item.path == Join(item.root, item.name)
  {
    var all := Gather(walk);
    var sorted := SortDeepestFirst(all);
    ContentsBeforeContainer(sorted);
    assert forall item :: item in sorted ==> item in multiset(all);
    sorted
  }

  // ---------------------------------------------------------------- both modes

  /**
    `collect_items(folder_path, recursive)`: in both modes no `.DS_Store` and every path is
    its root joined with its name.
  */
  function CollectItems(folder: string, recursive: bool, listing: seq<Listed>, walk: seq<WalkStep>)
    : (r: seq<Item>)
    ensures forall item :: item in r ==> item.name != Bookkeeping && item.path == Join(item.root, item.name)
    ensures !recursive ==> r == CollectFlat(folder, listing)
    ensures recursive ==> r == CollectRecursive(walk)
  {
    if recursive then CollectRecursive(walk) else CollectFlat(folder, listing)
  }
}
