/**
  `batch_rename_files_and_folders` of rename_optimized.py: check the folder, collect the
  items, and process them one after another. The loop is a fold over the item list whose
  state is the set of existing paths.
*/
module Batch {
  import opened Wrappers
  import opened Paths
  import opened Patterns
  import opened Collect
  import opened Execute
  import opened Planner

  /**
    The processing loop. Every item is processed, whatever happened to the ones before,
    and a rename is attempted only from an item's own path to the target its pattern gives.
  */
  function RunItems(items: seq<Item>, fs: set<string>, ok: RenameOracle,
                    fileMatch: FileMatcher, folderMatch: FolderMatcher): (r: Report)
    ensures |r.outcomes| == |items|
    ensures forall k :: 0 <= k < |items| && (r.outcomes[k].Renamed? || r.outcomes[k].Failed?) ==>
              && TargetFor(items[k], fileMatch, folderMatch).Some?
              && r.outcomes[k].from == items[k].path
              && r.outcomes[k].to == TargetFor(items[k], fileMatch, folderMatch).value.newPath
    decreases |items|
  {
    if |items| == 0 then Report([], fs)
    else
      var step := ProcessItem(items[0], fs, ok, fileMatch, folderMatch);
      var rest := RunItems(items[1..], step.fs, ok, fileMatch, folderMatch);
      var outcomes := [step.outcome] + rest.outcomes;
      assert outcomes[1..] == rest.outcomes;
      Report(outcomes, rest.fs)
  }

  /**
    The loop's invariant: no entry is ever lost or overwritten, so the number of paths
    stays the same; a path disappears only by being renamed away, and only items' own
    paths are renamed away; a path appears only by being renamed onto.
  */
  lemma {:induction false} RunItemsKeepsEntries(items: seq<Item>, fs: set<string>, ok: RenameOracle,
                                                fileMatch: FileMatcher, folderMatch: FolderMatcher)
    ensures var r := RunItems(items, fs, ok, fileMatch, folderMatch);
            && |r.fs| == |fs|
            && fs - Sources(r.outcomes) <= r.fs
            && r.fs <= fs + Targets(r.outcomes)
            && Sources(r.outcomes) <= PathsOf(items)
    decreases |items|
  {
    if |items| > 0 {
      var step := ProcessItem(items[0], fs, ok, fileMatch, folderMatch);
      var rest := RunItems(items[1..], step.fs, ok, fileMatch, folderMatch);
      RunItemsKeepsEntries(items[1..], step.fs, ok, fileMatch, folderMatch);
      var outcomes := [step.outcome] + rest.outcomes;
      assert outcomes[1..] == rest.outcomes;
      assert RunItems(items, fs, ok, fileMatch, folderMatch) == Report(outcomes, rest.fs);
    }
  }

  /** The paths of a list of items. */
  function PathsOf(items: seq<Item>): set<string>
  {
    if |items| == 0 then {} else {items[0].path} + PathsOf(items[1..])
  }

  /** A path is among the items' paths exactly when some item has it. */
  lemma {:induction false} PathsOfIff(items: seq<Item>, p: string)
    ensures p in PathsOf(items) <==> exists i :: 0 <= i < |items| && items[i].path == p
    decreases |items|
  {
    if |items| > 0 {
      PathsOfIff(items[1..], p);
      if p in PathsOf(items[1..]) {
        var i :| 0 <= i < |items[1..]| && items[1..][i].path == p;
        assert items[i + 1].path == p;
      }
      if exists i :: 0 <= i < |items| && items[i].path == p {
        var i :| 0 <= i < |items| && items[i].path == p;
        if i > 0 {
          assert items[1..][i - 1].path == p;
        }
      }
    }
  }

  /** No two items share a path, as for the entries of one listing or one walk. */
  predicate DistinctPaths(items: seq<Item>)
  {
    forall i, j :: 0 <= i < j < |items| ==> items[i].path != items[j].path
  }

  /**
    Every item's path still exists when its turn comes: the items before it can only have
    renamed their own paths away.
  */
  lemma PendingPathPresent(items: seq<Item>, k: nat, fs: set<string>, ok: RenameOracle,
                           fileMatch: FileMatcher, folderMatch: FolderMatcher)
    requires k < |items| && DistinctPaths(items) && PathsOf(items) <= fs
    ensures items[k].path in RunItems(items[..k], fs, ok, fileMatch, folderMatch).fs
  {
    RunItemsKeepsEntries(items[..k], fs, ok, fileMatch, folderMatch);
    PathsOfIff(items, items[k].path);
    PathsOfIff(items[..k], items[k].path);
  }

  /** No item lies inside a folder listed before it: the order `CollectRecursive` produces. */
  predicate ContainersAfter(items: seq<Item>)
  {
    forall i, j :: 0 <= i < j < |items| ==> !Inside(items[j].path, items[i].path)
  }

  /**
    In the path-set model a folder rename moves only the folder's own path. On a real
    filesystem a pending item's path stays valid when it is still present and no folder
    containing it has been renamed before its turn. When containers come after their
    contents, the items before the k-th have renamed away only their own paths, none of
    which contains the k-th item's path.
  */
  lemma PendingPathValid(items: seq<Item>, k: nat, fs: set<string>, ok: RenameOracle,
                         fileMatch: FileMatcher, folderMatch: FolderMatcher)
    requires k < |items| && DistinctPaths(items) && PathsOf(items) <= fs && ContainersAfter(items)
    ensures var before := RunItems(items[..k], fs, ok, fileMatch, folderMatch);
            && items[k].path in before.fs
            && forall s :: s in Sources(before.outcomes) ==> !Inside(items[k].path, s)
  {
    PendingPathPresent(items, k, fs, ok, fileMatch, folderMatch);
    var before := RunItems(items[..k], fs, ok, fileMatch, folderMatch);
    RunItemsKeepsEntries(items[..k], fs, ok, fileMatch, folderMatch);
    forall s | s in Sources(before.outcomes)
      ensures !Inside(items[k].path, s)
    {
      PathsOfIff(items[..k], s);
      var i :| 0 <= i < k && items[..k][i].path == s;
      assert items[i].path == s;
    }
  }

  /**
    In recursive mode the deepest-first order keeps every pending path valid: whatever
    was renamed before an item's turn, its path is present and no folder around it moved.
  */
  lemma RecursiveOrderKeepsPathsValid(walk: seq<WalkStep>, k: nat, fs: set<string>, ok: RenameOracle,
                                      fileMatch: FileMatcher, folderMatch: FolderMatcher)
    requires var items := CollectRecursive(walk);
             k < |items| && DistinctPaths(items) && PathsOf(items) <= fs
    ensures var items := CollectRecursive(walk);
            var before := RunItems(items[..k], fs, ok, fileMatch, folderMatch);
            && items[k].path in before.fs
            && forall s :: s in Sources(before.outcomes) ==> !Inside(items[k].path, s)
  {
    PendingPathValid(CollectRecursive(walk), k, fs, ok, fileMatch, folderMatch);
  }

  /**
    The whole run: nothing is collected or renamed when the folder does not exist;
    otherwise every collected item gets exactly one outcome.
  */
  function BatchRenameFilesAndFolders(folder: string, recursive: bool, fs: set<string>,
                                      listing: seq<Listed>, walk: seq<WalkStep>, ok: RenameOracle,
                                      fileMatch: FileMatcher, folderMatch: FolderMatcher): (r: Run)
    ensures r.PathNotFound? <==> folder !in fs
    ensures r.Processed? ==>
              r.report == RunItems(CollectItems(folder, recursive, listing, walk), fs, ok, fileMatch, folderMatch)
    ensures r.Processed? ==> |r.report.outcomes| == |CollectItems(folder, recursive, listing, walk)|
    ensures r.Processed? ==> |r.report.fs| == |fs|
  {
    if folder !in fs then PathNotFound
    else
      var items := CollectItems(folder, recursive, listing, walk);
      RunItemsKeepsEntries(items, fs, ok, fileMatch, folderMatch);
      Processed(RunItems(items, fs, ok, fileMatch, folderMatch))
  }

  /** One item, then the rest on the state it left behind. */
  lemma RunCons(x: Item, rest: seq<Item>, fs: set<string>, ok: RenameOracle,
                fileMatch: FileMatcher, folderMatch: FolderMatcher)
    ensures var s := ProcessItem(x, fs, ok, fileMatch, folderMatch);
            var r := RunItems(rest, s.fs, ok, fileMatch, folderMatch);
            RunItems([x] + rest, fs, ok, fileMatch, folderMatch) == Report([s.outcome] + r.outcomes, r.fs)
  {
    assert ([x] + rest)[1..] == rest;
  }

  /** Two items in a row: the second is processed on the state the first left behind. */
  lemma RunTwo(a: Item, b: Item, fs: set<string>, ok: RenameOracle,
               fileMatch: FileMatcher, folderMatch: FolderMatcher)
    ensures var s1 := ProcessItem(a, fs, ok, fileMatch, folderMatch);
            var s2 := ProcessItem(b, s1.fs, ok, fileMatch, folderMatch);
            RunItems([a, b], fs, ok, fileMatch, folderMatch) == Report([s1.outcome, s2.outcome], s2.fs)
  {
    var s1 := ProcessItem(a, fs, ok, fileMatch, folderMatch);
    var s2 := ProcessItem(b, s1.fs, ok, fileMatch, folderMatch);
    var last := RunItems([], s2.fs, ok, fileMatch, folderMatch);
    assert last == Report([], s2.fs);
    RunCons(b, [], s1.fs, ok, fileMatch, folderMatch);
    assert [b] + [] == [b];
    var second := RunItems([b], s1.fs, ok, fileMatch, folderMatch);
    assert second == Report([s2.outcome], s2.fs);
    RunCons(a, [b], fs, ok, fileMatch, folderMatch);
    assert [a] + [b] == [a, b];
  }

  /**
    Two items headed for the same target (so two items of one folder): the first in list
    order is renamed, and the second then finds the target taken and is skipped.
  */
  lemma SameTargetFirstWins(a: Item, b: Item, t: Target, fs: set<string>, ok: RenameOracle,
                            fileMatch: FileMatcher, folderMatch: FolderMatcher)
    requires TargetFor(a, fileMatch, folderMatch) == Some(t) == TargetFor(b, fileMatch, folderMatch)
    requires t.newName != a.name && t.newName != b.name && t.newPath !in fs
    requires a.path in fs && ok(a.path, t.newPath)
    ensures RunItems([a, b], fs, ok, fileMatch, folderMatch)
              == Report([Renamed(a.path, t.newPath), Collision], fs - {a.path} + {t.newPath})
  {
    var fs1 := fs - {a.path} + {t.newPath};
    assert PlanItem(a, fs, fileMatch, folderMatch) == Apply(t);
    assert ProcessItem(a, fs, ok, fileMatch, folderMatch) == Step(Renamed(a.path, t.newPath), fs1);
    assert PlanItem(b, fs1, fileMatch, folderMatch) == SkipCollision;
    RunTwo(a, b, fs, ok, fileMatch, folderMatch);
  }

  /**
    A failed rename does not stop the loop, and the target it left free is still free for
    the next item with the same target.
  */
  lemma FailureThenNextRenamed(a: Item, b: Item, t: Target, fs: set<string>, ok: RenameOracle,
                               fileMatch: FileMatcher, folderMatch: FolderMatcher)
    requires TargetFor(a, fileMatch, folderMatch) == Some(t) == TargetFor(b, fileMatch, folderMatch)
    requires t.newName != a.name && t.newName != b.name && t.newPath !in fs
    requires !ok(a.path, t.newPath) && b.path in fs && ok(b.path, t.newPath)
    ensures RunItems([a, b], fs, ok, fileMatch, folderMatch)
              == Report([Failed(a.path, t.newPath), Renamed(b.path, t.newPath)], fs - {b.path} + {t.newPath})
  {
    assert PlanItem(a, fs, fileMatch, folderMatch) == Apply(t);
    assert ProcessItem(a, fs, ok, fileMatch, folderMatch) == Step(Failed(a.path, t.newPath), fs);
    assert PlanItem(b, fs, fileMatch, folderMatch) == Apply(t);
    RunTwo(a, b, fs, ok, fileMatch, folderMatch);
  }

  /** A file `<stamp><middle><ext>` is headed for `<stamp><ext>` in its own folder. */
  lemma StampTarget(stamp: string, middle: string, ext: string, root: string, folderMatch: FolderMatcher)
    requires |stamp| == StampLength && AllDigits(stamp) && NoNewline(middle) && IsExtension(ext)
    ensures TargetFor(ItemFor(File, root, stamp + middle + ext), Match, folderMatch)
              == Some(Target(stamp + ext, Join(root, stamp + ext)))
  {
    MatchParts(stamp, middle, ext);
  }

  /**
    Two files `<stamp><a><ext>` and `<stamp><b><ext>` in one folder, as `20240115103000_a.jpg`
    and `20240115103000_b.jpg`: the first becomes `<stamp><ext>` and the second is skipped.
  */
  lemma TwoFilesOneTarget(stamp: string, a: string, b: string, ext: string, root: string,
                          fs: set<string>, ok: RenameOracle, folderMatch: FolderMatcher)
    requires |stamp| == StampLength && AllDigits(stamp) && IsExtension(ext)
    requires NoNewline(a) && NoNewline(b) && |a| > 0 && |b| > 0
    requires Join(root, stamp + a + ext) in fs && Join(root, stamp + ext) !in fs
    requires ok(Join(root, stamp + a + ext), Join(root, stamp + ext))
    ensures RunItems([ItemFor(File, root, stamp + a + ext), ItemFor(File, root, stamp + b + ext)],
                     fs, ok, Match, folderMatch).outcomes
              == [Renamed(Join(root, stamp + a + ext), Join(root, stamp + ext)), Collision]
  {
    StampTarget(stamp, a, ext, root, folderMatch);
    StampTarget(stamp, b, ext, root, folderMatch);
    var t := Target(stamp + ext, Join(root, stamp + ext));
    SameTargetFirstWins(ItemFor(File, root, stamp + a + ext), ItemFor(File, root, stamp + b + ext),
                        t, fs, ok, Match, folderMatch);
  }
}
