/**
  The per-item decision of rename_optimized.py: `process_file`, `process_folder`,
  `should_skip_rename` and `process_item`. The two compiled patterns are parameters;
  the file pattern is instantiated with `Patterns.Match`, the folder pattern stays abstract.
*/
module Planner {
  import opened Wrappers
  import opened Paths
  import opened Patterns
  import opened Collect
  import opened Execute

  /** Groups 1 to 3 of a folder-pattern match: timestamp, dropped part, kept label. */
  datatype FolderGroups = FolderGroups(stamp: string, extra: string, trailer: string)

  /** `file_pattern.match`: groups 1 and 2, or no match. */
  type FileMatcher = string -> Option<FileGroups>

  /** `folder_pattern.match`: groups 1 to 3, or no match. */
  type FolderMatcher = string -> Option<FolderGroups>

  /** The `(new_name, new_path)` pair. */
  datatype Target = Target(newName: string, newPath: string)

  /** The decision taken for one item. */
  datatype Decision = Ignore | SkipUnchanged | SkipCollision | Apply(target: Target)

  /** `process_file`: None exactly on no match, otherwise group 1 + group 2 next to the file. */
  function ProcessFile(name: string, root: string, fileMatch: FileMatcher): (r: Option<Target>)
    ensures r.None? <==> fileMatch(name).None?
    ensures r.Some? ==> r.value.newPath == Join(root, r.value.newName)
    ensures r.Some? ==> r.value.newName == fileMatch(name).value.stamp + fileMatch(name).value.ext
  {
    match fileMatch(name)
    case None => None
    case Some(g) => Some(Target(g.stamp + g.ext, Join(root, g.stamp + g.ext)))
  }

  /** `process_folder`: None exactly on no match, otherwise group 1 + group 3 next to the folder. */
  function ProcessFolder(name: string, root: string, folderMatch: FolderMatcher): (r: Option<Target>)
    ensures r.None? <==> folderMatch(name).None?
    ensures r.Some? ==> r.value.newPath == Join(root, r.value.newName)
    ensures r.Some? ==> r.value.newName == folderMatch(name).value.stamp + folderMatch(name).value.trailer
  {
    match folderMatch(name)
    case None => None
    case Some(g) => Some(Target(g.stamp + g.trailer, Join(root, g.stamp + g.trailer)))
  }

  /**
    `should_skip_rename`, with the decision it leads to: an unchanged name is skipped
    before the existence test is made, so it is never reported as a collision.
  */
  function CheckTarget(oldName: string, t: Target, fs: set<string>): (d: Decision)
    ensures d != Ignore
    ensures d == SkipUnchanged <==> t.newName == oldName
    ensures d == SkipCollision <==> t.newName != oldName && t.newPath in fs
    ensures d.Apply? <==> t.newName != oldName && t.newPath !in fs
    ensures d.Apply? ==> d.target == t
  {
    if t.newName == oldName then SkipUnchanged
    else if t.newPath in fs then SkipCollision
    else Apply(t)
  }

  /**
    The match the item's kind selects: the file pattern for files, the folder pattern for
    folders, with the new name in the item's own directory.
  */
  function TargetFor(item: Item, fileMatch: FileMatcher, folderMatch: FolderMatcher): (r: Option<Target>)
    ensures r.None? <==> (if item.kind == File then fileMatch(item.name).None?
                          else folderMatch(item.name).None?)
    ensures r.Some? ==> r.value.newPath == Join(item.root, r.value.newName)
    ensures r.Some? && item.kind == File ==>
              r.value.newName == fileMatch(item.name).value.stamp + fileMatch(item.name).value.ext
    ensures r.Some? && item.kind == Folder ==>
              r.value.newName == folderMatch(item.name).value.stamp + folderMatch(item.name).value.trailer
  {
    if item.kind == File then ProcessFile(item.name, item.root, fileMatch)
    else ProcessFolder(item.name, item.root, folderMatch)
  }

  /** The decision half of `process_item`: match first, then the unchanged name, then existence. */
  function PlanItem(item: Item, fs: set<string>, fileMatch: FileMatcher, folderMatch: FolderMatcher)
    : (d: Decision)
    ensures d == Ignore <==> TargetFor(item, fileMatch, folderMatch).None?
    ensures d == SkipUnchanged <==>
              TargetFor(item, fileMatch, folderMatch).Some?
              && TargetFor(item, fileMatch, folderMatch).value.newName == item.name
    ensures d == SkipCollision <==>
              TargetFor(item, fileMatch, folderMatch).Some?
              && TargetFor(item, fileMatch, folderMatch).value.newName != item.name
              && TargetFor(item, fileMatch, folderMatch).value.newPath in fs
    ensures d.Apply? ==> Some(d.target) == TargetFor(item, fileMatch, folderMatch)
    ensures d.Apply? ==> d.target.newPath !in fs && d.target.newName != item.name
    ensures d.Apply? ==> d.target.newPath == Join(item.root, d.target.newName)
  {
    match TargetFor(item, fileMatch, folderMatch)
    case None => Ignore
    case Some(t) => CheckTarget(item.name, t, fs)
  }

  /**
    `process_item`: the rename is attempted only when the target does not exist, so an
    existing entry is never overwritten; a completed rename moves the item's own path and
    nothing else, and any other outcome leaves every path as it was.
  */
  function ProcessItem(item: Item, fs: set<string>, ok: RenameOracle,
                       fileMatch: FileMatcher, folderMatch: FolderMatcher): (r: Step)
    ensures |r.fs| == |fs|
    ensures r.outcome.Renamed? ==> r.outcome.from == item.path && item.path in fs
    ensures r.outcome.Renamed? ==> r.outcome.to !in fs && r.fs == fs - {item.path} + {r.outcome.to}
    ensures !r.outcome.Renamed? ==> r.fs == fs
    ensures r.outcome == Ignored <==> PlanItem(item, fs, fileMatch, folderMatch) == Ignore
    ensures r.outcome == Unchanged <==> PlanItem(item, fs, fileMatch, folderMatch) == SkipUnchanged
    ensures r.outcome == Collision <==> PlanItem(item, fs, fileMatch, folderMatch) == SkipCollision
    ensures PlanItem(item, fs, fileMatch, folderMatch).Apply? ==>
              var dst := PlanItem(item, fs, fileMatch, folderMatch).target.newPath;
              && (r.outcome == Renamed(item.path, dst) <==> ok(item.path, dst) && item.path in fs)
              && (!r.outcome.Renamed? ==> r.outcome == Failed(item.path, dst))
  {
    match PlanItem(item, fs, fileMatch, folderMatch)
    case Ignore => Step(Ignored, fs)
    case SkipUnchanged => Step(Unchanged, fs)
    case SkipCollision => Step(Collision, fs)
    case Apply(t) => PerformRename(fs, item.path, t.newPath, ok)
  }

  /**
    With the `datetime_fourteen` file pattern a file is ignored exactly when the regex does
    not match; otherwise its new name is its canonical name, which is a fixed point of
    canonicalisation, in the same directory.
  */
  lemma ProcessFileCanonical(name: string, root: string)
    ensures ProcessFile(name, root, Match).Some? <==> Accepts(name)
    ensures ProcessFile(name, root, Match).Some? ==>
              var t := ProcessFile(name, root, Match).value;
              && t.newName == Canonicalize(name)
              && t.newName[..StampLength] == name[..StampLength]
              && Canonicalize(t.newName) == t.newName
              && Inside(t.newPath, root)
  {
    MatchIff(name);
    CanonicalizeIdempotent(name);
    if Match(name).Some? {
      JoinDepth(root, Canonicalize(name));
    }
  }

  /** Group 2 of a folder name never reaches the new name: names differing only there share a target. */
  lemma ProcessFolderDropsExtra(a: string, b: string, root: string, folderMatch: FolderMatcher)
    requires folderMatch(a).Some? && folderMatch(b).Some?
    requires folderMatch(a).value.stamp == folderMatch(b).value.stamp
    requires folderMatch(a).value.trailer == folderMatch(b).value.trailer
    ensures ProcessFolder(a, root, folderMatch) == ProcessFolder(b, root, folderMatch)
  {
  }

  /**
    An already-canonical file (14 digits directly followed by an extension) is reported
    unchanged, never as a collision, though its own path exists.
  */
  lemma CanonicalFileUnchanged(item: Item, fs: set<string>, folderMatch: FolderMatcher)
    requires item.kind == File && |item.name| >= StampLength
    requires AllDigits(item.name[..StampLength]) && IsExtension(item.name[StampLength..])
    requires item.path == Join(item.root, item.name) && item.path in fs
    ensures PlanItem(item, fs, Match, folderMatch) == SkipUnchanged
  {
    CanonicalIff(item.name);
  }
}
