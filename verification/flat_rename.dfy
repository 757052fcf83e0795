/**
  `batch_rename_files` of rename.py: the older script. It looks only at the direct
  children of one folder, skips directories, and renames matching files to their
  canonical name. Unlike rename_optimized.py it has no "already canonical" case: the
  existence test is made only for a target different from the source, so a canonical
  name goes on to `os.rename(p, p)`.
*/
module FlatRename {
  import opened Paths
  import opened Patterns
  import opened Collect
  import opened Execute
  import Planner

  /** The loop body for one listed name. */
  function RenameEntry(folder: string, entry: Listed, fs: set<string>, ok: RenameOracle): (r: Step)
    ensures entry.isDir ==> r == Step(DirSkipped, fs)
    ensures !entry.isDir && Match(entry.name).None? ==> r == Step(Ignored, fs)
    ensures r.outcome == Collision <==>
              !entry.isDir && Match(entry.name).Some? && Canonicalize(entry.name) != entry.name
              && Join(folder, Canonicalize(entry.name)) in fs
    ensures r.outcome.Renamed? || r.outcome.Failed? ==>
              && !entry.isDir && Match(entry.name).Some?
              && r.outcome.from == Join(folder, entry.name)
              && r.outcome.to == Join(folder, Canonicalize(entry.name))
    ensures r.outcome.Renamed? ==> r.outcome.to !in fs || r.outcome.to == r.outcome.from
    ensures !entry.isDir && Match(entry.name).Some?
            && (Join(folder, Canonicalize(entry.name)) !in fs || Canonicalize(entry.name) == entry.name) ==>
              var src := Join(folder, entry.name);
              var dst := Join(folder, Canonicalize(entry.name));
              && (r.outcome == Renamed(src, dst) <==> ok(src, dst) && src in fs)
              && (!r.outcome.Renamed? ==> r.outcome == Failed(src, dst))
    ensures r.outcome.Renamed? ==> r.fs == fs - {r.outcome.from} + {r.outcome.to}
    ensures |r.fs| == |fs|
    ensures !r.outcome.Renamed? ==> r.fs == fs
  {
    JoinInjective(folder, entry.name, Canonicalize(entry.name));
    if entry.isDir then Step(DirSkipped, fs)
    else if Match(entry.name).None? then Step(Ignored, fs)
    else
      var src := Join(folder, entry.name);
      var dst := Join(folder, Canonicalize(entry.name));
      if dst in fs && src != dst then Step(Collision, fs)
      else PerformRename(fs, src, dst, ok)
  }

  /**
    The loop over `os.listdir(folder_path)`: every listed name gets an outcome, an error
    on one does not stop the others, no directory is ever renamed, and the number of
    paths stays the same.
  */
  function RenameEntries(folder: string, listing: seq<Listed>, fs: set<string>, ok: RenameOracle)
    : (r: Report)
    ensures |r.outcomes| == |listing|
    ensures |r.fs| == |fs|
    ensures fs - Sources(r.outcomes) <= r.fs
    ensures r.fs <= fs + Targets(r.outcomes)
    ensures forall k :: 0 <= k < |listing| && listing[k].isDir ==> r.outcomes[k] == DirSkipped
    ensures forall k :: 0 <= k < |listing| && r.outcomes[k].Renamed? ==>
              && !listing[k].isDir
              && r.outcomes[k].from == Join(folder, listing[k].name)
              && r.outcomes[k].to == Join(folder, Canonicalize(listing[k].name))
    decreases |listing|
  {
    if |listing| == 0 then Report([], fs)
    else
      var step := RenameEntry(folder, listing[0], fs, ok);
      var rest := RenameEntries(folder, listing[1..], step.fs, ok);
      var outcomes := [step.outcome] + rest.outcomes;
      assert outcomes[1..] == rest.outcomes;
      Report(outcomes, rest.fs)
  }

  /** The first listed name is handled on the given paths, the rest on the paths it left. */
  lemma EntriesCons(folder: string, e: Listed, rest: seq<Listed>, fs: set<string>, ok: RenameOracle)
    ensures var s := RenameEntry(folder, e, fs, ok);
            var r := RenameEntries(folder, rest, s.fs, ok);
            RenameEntries(folder, [e] + rest, fs, ok) == Report([s.outcome] + r.outcomes, r.fs)
  {
  }

  /** The loop's outcomes are the first entry's outcome followed by the rest's, on the paths it left. */
  lemma EntriesHead(folder: string, listing: seq<Listed>, fs: set<string>, ok: RenameOracle)
    requires |listing| > 0
    ensures var s := RenameEntry(folder, listing[0], fs, ok);
            RenameEntries(folder, listing, fs, ok).outcomes
              == [s.outcome] + RenameEntries(folder, listing[1..], s.fs, ok).outcomes
  {
  }

  /** The paths left by the first k entries are those the next k - 1 leave after the first one. */
  lemma EntriesPrefix(folder: string, listing: seq<Listed>, k: nat, fs: set<string>, ok: RenameOracle)
    requires 0 < k <= |listing|
    ensures var s := RenameEntry(folder, listing[0], fs, ok);
            RenameEntries(folder, listing[..k], fs, ok).fs
              == RenameEntries(folder, listing[1..][..k - 1], s.fs, ok).fs
  {
    assert listing[..k] == [listing[0]] + listing[1..][..k - 1];
    EntriesCons(folder, listing[0], listing[1..][..k - 1], fs, ok);
  }

  /**
    Entry k gets the loop body's decision on the paths the entries before it left, whatever
    happened to them: a failed rename does not end the loop.
  */
  lemma {:induction false} EntryOnEarlierState(folder: string, listing: seq<Listed>, k: nat,
                                               fs: set<string>, ok: RenameOracle)
    requires k < |listing|
    ensures var before := RenameEntries(folder, listing[..k], fs, ok);
            RenameEntries(folder, listing, fs, ok).outcomes[k]
              == RenameEntry(folder, listing[k], before.fs, ok).outcome
    decreases k
  {
    var s := RenameEntry(folder, listing[0], fs, ok);
    if k == 0 {
      EntriesHead(folder, listing, fs, ok);
      assert listing[..0] == [];
    } else {
      var tail := listing[1..];
      EntriesHead(folder, listing, fs, ok);
      EntriesPrefix(folder, listing, k, fs, ok);
      EntryOnEarlierState(folder, tail, k - 1, s.fs, ok);
      assert tail[k - 1] == listing[k];
    }
  }

  /** Two names in a row: the second is handled on the paths the first left behind. */
  lemma EntriesTwo(folder: string, e1: Listed, e2: Listed, fs: set<string>, ok: RenameOracle)
    ensures var s1 := RenameEntry(folder, e1, fs, ok);
            var s2 := RenameEntry(folder, e2, s1.fs, ok);
            RenameEntries(folder, [e1, e2], fs, ok) == Report([s1.outcome, s2.outcome], s2.fs)
  {
    var s1 := RenameEntry(folder, e1, fs, ok);
    var s2 := RenameEntry(folder, e2, s1.fs, ok);
    EntriesHead(folder, [e1, e2], fs, ok);
    assert [e1, e2][1..] == [e2];
    EntriesHead(folder, [e2], s1.fs, ok);
    assert [e2][1..] == [];
    assert RenameEntries(folder, [e1, e2], fs, ok).fs == RenameEntries(folder, [e2], s1.fs, ok).fs;
  }

  /** A file `<stamp><middle><ext>` whose canonical path is free is renamed onto it when `os.rename` completes. */
  lemma StampRenamed(stamp: string, middle: string, ext: string, folder: string, fs: set<string>, ok: RenameOracle)
    requires |stamp| == StampLength && AllDigits(stamp) && IsExtension(ext) && NoNewline(middle)
    requires Join(folder, stamp + middle + ext) in fs && Join(folder, stamp + ext) !in fs
    requires ok(Join(folder, stamp + middle + ext), Join(folder, stamp + ext))
    ensures RenameEntry(folder, Listed(stamp + middle + ext, false), fs, ok).outcome
              == Renamed(Join(folder, stamp + middle + ext), Join(folder, stamp + ext))
    ensures Join(folder, stamp + ext) in RenameEntry(folder, Listed(stamp + middle + ext, false), fs, ok).fs
  {
    MatchParts(stamp, middle, ext);
  }

  /** A file `<stamp><middle><ext>`, middle non-empty, whose canonical path is taken gets `Collision`. */
  lemma StampCollides(stamp: string, middle: string, ext: string, folder: string, fs: set<string>, ok: RenameOracle)
    requires |stamp| == StampLength && AllDigits(stamp) && IsExtension(ext) && NoNewline(middle) && |middle| > 0
    requires Join(folder, stamp + ext) in fs
    ensures RenameEntry(folder, Listed(stamp + middle + ext, false), fs, ok).outcome == Collision
  {
    MatchParts(stamp, middle, ext);
    assert |stamp + middle + ext| > |stamp + ext|;
  }

  /**
    rename.py on two files of one folder with the same stamp and extension: the first is
    renamed onto the canonical name, and the second then finds it taken.
  */
  lemma TwoFilesOneTarget(stamp: string, a: string, b: string, ext: string, folder: string,
                          fs: set<string>, ok: RenameOracle)
    requires |stamp| == StampLength && AllDigits(stamp) && IsExtension(ext)
    requires NoNewline(a) && NoNewline(b) && |a| > 0 && |b| > 0
    requires Join(folder, stamp + a + ext) in fs && Join(folder, stamp + ext) !in fs
    requires ok(Join(folder, stamp + a + ext), Join(folder, stamp + ext))
    ensures RenameEntries(folder, [Listed(stamp + a + ext, false), Listed(stamp + b + ext, false)], fs, ok).outcomes
              == [Renamed(Join(folder, stamp + a + ext), Join(folder, stamp + ext)), Collision]
  {
    var ea := Listed(stamp + a + ext, false);
    var eb := Listed(stamp + b + ext, false);
    StampRenamed(stamp, a, ext, folder, fs, ok);
    StampCollides(stamp, b, ext, folder, RenameEntry(folder, ea, fs, ok).fs, ok);
    EntriesTwo(folder, ea, eb, fs, ok);
  }

  /**
    rename.py goes on after a failed rename: when `os.rename` raises for the first file, the
    canonical name stays free and the next file with the same stamp and extension is renamed
    onto it.
  */
  lemma FailureThenNextRenamed(stamp: string, a: string, b: string, ext: string, folder: string,
                               fs: set<string>, ok: RenameOracle)
    requires |stamp| == StampLength && AllDigits(stamp) && IsExtension(ext)
    requires NoNewline(a) && NoNewline(b)
    requires Join(folder, stamp + b + ext) in fs && Join(folder, stamp + ext) !in fs
    requires !ok(Join(folder, stamp + a + ext), Join(folder, stamp + ext))
    requires ok(Join(folder, stamp + b + ext), Join(folder, stamp + ext))
    ensures RenameEntries(folder, [Listed(stamp + a + ext, false), Listed(stamp + b + ext, false)], fs, ok).outcomes
              == [Failed(Join(folder, stamp + a + ext), Join(folder, stamp + ext)),
                  Renamed(Join(folder, stamp + b + ext), Join(folder, stamp + ext))]
  {
    var ea := Listed(stamp + a + ext, false);
    var eb := Listed(stamp + b + ext, false);
    assert RenameEntry(folder, ea, fs, ok) == Step(Failed(Join(folder, stamp + a + ext), Join(folder, stamp + ext)), fs) by {
      MatchParts(stamp, a, ext);
    }
    StampRenamed(stamp, b, ext, folder, fs, ok);
    EntriesTwo(folder, ea, eb, fs, ok);
  }

  /** `batch_rename_files`: nothing is listed or renamed when the folder does not exist. */
  function BatchRenameFiles(folder: string, listing: seq<Listed>, fs: set<string>, ok: RenameOracle)
    : (r: Run)
    ensures r.PathNotFound? <==> folder !in fs
    ensures r.Processed? ==> r.report == RenameEntries(folder, listing, fs, ok)
    ensures r.Processed? ==> |r.report.outcomes| == |listing| && |r.report.fs| == |fs|
  {
    if folder !in fs then PathNotFound
    else Processed(RenameEntries(folder, listing, fs, ok))
  }

  /**
    rename.py on an already-canonical file (14 digits directly followed by an extension):
    `os.rename(p, p)`, which moves nothing.
  */
  lemma CanonicalRenamedInPlace(folder: string, name: string, fs: set<string>, ok: RenameOracle)
    requires |name| >= StampLength && AllDigits(name[..StampLength]) && IsExtension(name[StampLength..])
    requires Join(folder, name) in fs
    ensures var p := Join(folder, name);
            RenameEntry(folder, Listed(name, false), fs, ok)
              == Step(if ok(p, p) then Renamed(p, p) else Failed(p, p), fs)
  {
    CanonicalIff(name);
    var p := Join(folder, name);
    assert RenameEntry(folder, Listed(name, false), fs, ok) == PerformRename(fs, p, p, ok);
    RenameInPlace(fs, p, ok);
  }

  /**
    The two scripts part ways on an already-canonical file: rename.py attempts
    `os.rename(p, p)`, while rename_optimized.py reports the name as unchanged without
    renaming. Both leave the filesystem as it was.
  */
  lemma CanonicalNameBehaviours(folder: string, name: string, fs: set<string>, ok: RenameOracle,
                                folderMatch: Planner.FolderMatcher)
    requires |name| >= StampLength && AllDigits(name[..StampLength]) && IsExtension(name[StampLength..])
    requires Join(folder, name) in fs
    ensures var p := Join(folder, name);
            RenameEntry(folder, Listed(name, false), fs, ok)
              == Step(if ok(p, p) then Renamed(p, p) else Failed(p, p), fs)
    ensures Planner.ProcessItem(ItemFor(File, folder, name), fs, ok, Match, folderMatch) == Step(Unchanged, fs)
  {
    CanonicalRenamedInPlace(folder, name, fs, ok);
    CanonicalIff(name);
    Planner.CanonicalFileUnchanged(ItemFor(File, folder, name), fs, folderMatch);
  }
}
