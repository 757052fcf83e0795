# Timestamp renamer, modelled in Dafny

The repository renames files, and in its newer script also folders, whose names start with a
14-digit `YYYYMMDDHHMMSS` timestamp. Each name is rewritten to its canonical form: the timestamp
followed by the suffix, with everything in between dropped. There are two scripts:

- `rename.py` (`batch_rename_files`) renames the matching files directly inside one folder.
- `rename_optimized.py` (`batch_rename_files_and_folders`) collects files and folders,
  optionally from the whole tree (deepest first). It plans each item, skipping unchanged
  names and taken targets, then renames.

The model is functional. The filesystem is a `set<string>` of existing paths. Renaming moves
one path to another. Whether `os.rename` raises is an oracle `ok(src, dst)`, and a rename
whose source is gone always fails. Each batch loop is a fold over the ordered entries and
yields one outcome per entry plus the final path set.

Modules, leaf to root:

| file | module | models |
|---|---|---|
| `wrappers.dfy` | `Wrappers` | `Option` |
| `paths.dfy` | `Paths` | `os.path.join` with `/`, `path.count(os.sep)`, "inside a directory" |
| `patterns.dfy` | `Patterns` | the `datetime_fourteen` regex as Python's `re.match` applies it |
| `collect.dfy` | `Collect` | `collect_items`: filtering, tagging, the deepest-first stable sort |
| `execute.dfy` | `Execute` | `perform_rename`, the outcome tags, the state |
| `planner.dfy` | `Planner` | `process_file`, `process_folder`, `should_skip_rename`, `process_item` |
| `batch.dfy` | `Batch` | the loop of `batch_rename_files_and_folders` |
| `flat_rename.dfy` | `FlatRename` | `batch_rename_files` of `rename.py` |

The regex `^(\d{14}).*(\.[a-zA-Z0-9]+)$` is stated twice. `Patterns.MatchesAt` reads it off
piece by piece. `Patterns.Match` computes the groups from the last dot, as the greedy `.*` and
the dot-free class force. The two definitions are proved to agree in both directions. Python's
`$` also matches before one final newline, and `.` does not match a newline. Both are modelled
rather than excluded.

`rename_optimized.py` compiles two patterns, `datetime_fourteen_file` and
`datetime_fourteen_folder`. It imports them from `packages/patterns.py`, which defines only
`datetime_fourteen`. So the planner takes both matchers as parameters:
- the file matcher is instantiated with `Patterns.Match`, the pattern `rename.py` uses;
- the folder matcher stays abstract, any function to an optional triple of groups, of which
  the new name keeps groups 1 and 3.

Points of the code worth knowing:
- A name may carry more than 14 leading digits. The extra digits fall into the discarded `.*`
  (`Patterns.ExampleExtraDigits`).
- `rename.py` has no unchanged-name check. An already-canonical file goes on to
  `os.rename(p, p)`, while `rename_optimized.py` reports it unchanged. Both behaviours are
  modelled (`FlatRename.CanonicalNameBehaviours`).
- The missing-folder check is made by the callers (`validate_path`, `rename.py:7-9`), not by
  `collect_items`.

## Model

| member | source | states |
|---|---|---|
| Patterns.Match | packages/patterns.py:6 | On a match the name has at least 16 characters. Group 1 is the name's first 14 characters, all digits. Group 2 is a dot plus one or more ASCII letters or digits, and it is the tail of the name up to `$`. |
| Patterns.Canonicalize | rename.py:27 | The canonical name `group(1) + group(2)`: a non-matching name is left as it is. A matching name keeps its 14-digit prefix, is followed by an extension that is the tail of the name, and is never longer than the name. |
| Patterns.MatchSound | packages/patterns.py:6 | Every result of `Match` is a real match of the regex, with group 2 spanning the reported positions. |
| Patterns.MatchComplete | packages/patterns.py:6 | Every way the regex can match a name yields exactly the groups `Match` reports. |
| Patterns.MatchIff | packages/patterns.py:6 | `Match` succeeds if and only if the regex matches. |
| Patterns.MatchEndsAtBody | packages/patterns.py:5-6 | Group 2 always ends where `$` closes the name: at the end, or before one final newline. |
| Patterns.GroupsUnique | packages/patterns.py:4-6 | The split between `.*` and group 2 is forced: any two matches of the same name place group 2 identically. |
| Patterns.CanonicalMatchesItself | packages/patterns.py:6 | The canonical name (group 1 + group 2) of a matching name matches again, with the same groups. |
| Patterns.CanonicalizeIdempotent | packages/patterns.py:6 | Canonicalising twice equals canonicalising once, for every name. A canonical name matches exactly when the original did. |
| Patterns.CanonicalIff | packages/patterns.py:6 | A name is its own canonical form exactly when it is 14 digits directly followed by a dot-extension. |
| Patterns.NoMatchWithoutStamp | packages/patterns.py:3-6 | A non-digit among the first 14 characters rules out a match. |
| Patterns.NoMatchWithBadSuffix | packages/patterns.py:4-6 | A non-alphanumeric character in the last dot-segment, or a final dot, rules out a match. |
| Patterns.NoMatchWithInnerNewline | packages/patterns.py:4-6 | A newline anywhere but at the very end rules out a match. |
| Patterns.MatchParts | packages/patterns.py:3-6 | Fourteen digits, any newline-free middle, and an extension match. The groups are the digits and the extension, so the middle is dropped. |
| Patterns.ExampleMiddleDropped | packages/patterns.py:6 | `<stamp>_IMG_extra.jpg` (as `20240115103000_IMG_extra.jpg`) yields the stamp and `.jpg` and canonicalises to `<stamp>.jpg`. |
| Patterns.ExampleExtraDigits | packages/patterns.py:3-6 | Digits past the fourteenth are dropped: `<stamp>99.png` becomes `<stamp>.png`. |
| Patterns.ExampleShortest | packages/patterns.py:4-6 | A 16-character name (`<stamp>.a`) matches, with the stamp and `.a` as its groups, and is its own canonical form. The regex accepts no shorter name. |
| Patterns.ExampleNoMatch | packages/patterns.py:6 | `notadate.jpg`, a 13-digit prefix, a final dot and a `-` in the extension all fail to match. |
| Patterns.ExampleFinalNewline | packages/patterns.py:6 | `$` matches before a final newline, and the canonical name leaves that newline behind. |
| Paths.DepthAppend | rename_optimized.py:54 | The separator count of a concatenation is the sum of the counts. |
| Paths.JoinDepth | rename_optimized.py:43-54 | A joined path lies inside its root and has one separator more than root and name together. |
| Paths.JoinInjective | rename.py:31 | Two names joined to the same folder give the same path if and only if the names are equal. |
| Paths.InsideIsDeeper | rename_optimized.py:53-54 | Anything inside a directory has a strictly larger separator count than the directory. |
| Collect.CollectFlat | rename_optimized.py:56-65 | Every collected item is a non-`.DS_Store` listed name, rooted at the folder, with its joined path, tagged `Folder` exactly when listed as a directory. Every non-`.DS_Store` listed entry is collected with that tag. |
| Collect.CollectFlatAppend | rename_optimized.py:57-65 | Collection keeps listing order: it distributes over concatenation of listings. |
| Collect.Tagged | rename_optimized.py:40-51 | The items of one walk step are exactly its non-`.DS_Store` names, of one kind, joined to the step's root. There are never more items than names. |
| Collect.TaggedOne | rename_optimized.py:40-51 | A single name becomes exactly one item, unless it is `.DS_Store`, which becomes none. |
| Collect.TaggedAppend | rename_optimized.py:40-51 | Tagging keeps name order and adds nothing: it distributes over concatenation of name lists. |
| Collect.Gather | rename_optimized.py:37-51 | `all_items` holds exactly the non-`.DS_Store` folders and files of the walk, each under the root of the step that reported it. |
| Collect.GatherOne | rename_optimized.py:38-51 | One walk step contributes its folders, in order, followed by its files, in order. |
| Collect.GatherAppend | rename_optimized.py:38-51 | Walk steps contribute in walk order: gathering distributes over concatenation of walks. |
| Collect.Insert | rename_optimized.py:54 | One insertion step of the sort adds exactly the inserted item (as a multiset). |
| Collect.InsertSorted | rename_optimized.py:54 | Inserting into a deepest-first sequence keeps it deepest-first. |
| Collect.InsertAtDepth | rename_optimized.py:54 | The inserted item goes in front of the items of its own depth; every other depth keeps its items in order. |
| Collect.InsertKeepsOrder | rename_optimized.py:54 | Inserting an item gives the same per-depth order as putting it first. |
| Collect.SortDeepestFirst | rename_optimized.py:54 | The sort yields a permutation of its input with non-increasing separator count. Items of equal depth keep their input order, as Python's stable sort with `reverse=True` does. |
| Collect.ContentsBeforeContainer | rename_optimized.py:53-54 | In deepest-first order, no item comes after a folder it lies inside. |
| Collect.CollectRecursive | rename_optimized.py:35-54 | The recursive result is a stable deepest-first permutation of the walk's entries. No folder precedes anything inside it, and no `.DS_Store` is kept. |
| Collect.CollectItems | rename_optimized.py:27-67 | In both modes, no `.DS_Store` is collected and every path is its root joined with its name. The flag selects the listing mode or the walk mode. |
| Execute.PerformRename | rename_optimized.py:113-124 | A rename completes exactly when `os.rename` does not raise and the source exists. It then moves the source to the target. Otherwise the outcome is a failure and every path stays as it was. |
| Execute.RenameInPlace | rename.py:36 | Renaming an existing path onto itself leaves the path set unchanged, whether it succeeds or fails. |
| Planner.ProcessFile | rename_optimized.py:70-81 | None exactly when the file pattern fails. Otherwise the new name is group 1 + group 2, joined to the item's root. |
| Planner.ProcessFolder | rename_optimized.py:84-95 | None exactly when the folder pattern fails. Otherwise the new name is group 1 + group 3, joined to the item's root. |
| Planner.CheckTarget | rename_optimized.py:98-110 | Skip as unchanged exactly when the new name equals the old one. Skip as a collision exactly when the names differ and the target exists. Rename exactly when the names differ and the target is free. |
| Planner.TargetFor | rename_optimized.py:129-134 | Files go to the file pattern and folders to the folder pattern. There is no target exactly when that pattern fails. Otherwise the new name is groups 1 + 2 for a file, or groups 1 + 3 for a folder, in the item's own directory. |
| Planner.PlanItem | rename_optimized.py:127-143 | Ignore exactly when the kind's pattern fails. Unchanged exactly when the target name equals the item's name. Collision exactly when the names differ and the target exists. A planned rename goes to exactly the pattern's target, which is absent, differently named and in the same folder. |
| Planner.ProcessItem | rename_optimized.py:127-146 | A rename is attempted only onto a path that does not exist, so nothing is overwritten. A completed rename removes the item's own path, adds the target and changes nothing else. Every other outcome leaves the state as it was. Ignored, unchanged and collision outcomes correspond exactly to the plan. A planned rename is always attempted from the item's path to the target: it completes exactly when `os.rename` does not raise and the source exists, and otherwise is reported failed. |
| Planner.ProcessFileCanonical | rename_optimized.py:70-81 | With the `datetime_fourteen` matcher, a file gets a target exactly when the regex matches. The new name is its canonical name, keeps the 14-digit prefix, is a fixed point of canonicalisation and lies in the same folder. |
| Planner.ProcessFolderDropsExtra | rename_optimized.py:92 | Group 2 of a folder name never reaches the new name: names agreeing in groups 1 and 3 get the same target. |
| Planner.CanonicalFileUnchanged | rename_optimized.py:98-103 | An already-canonical file (14 digits directly followed by an extension) is reported unchanged, never as a collision, even though its own path exists. |
| Batch.RunItems | rename_optimized.py:167-168 | Every collected item gets exactly one outcome, whatever happened before it. A rename, completed or failed, always goes from the item's own path to the target its pattern gives. |
| Batch.RunItemsKeepsEntries | rename_optimized.py:127-168 | Over the whole loop, no entry is lost or overwritten, so the number of paths is unchanged. A path disappears only by being renamed away, and only items' own paths are. A path appears only by being renamed onto. |
| Batch.PendingPathPresent | rename_optimized.py:164-168 | For items with distinct existing paths, every item's path is still in the path set when its turn comes. |
| Batch.PendingPathValid | rename_optimized.py:164-168 | When no item lies inside a folder listed before it, every item's path is still present when its turn comes, and none of the paths renamed away before it is a folder containing it. |
| Batch.RecursiveOrderKeepsPathsValid | rename_optimized.py:38-54 | In recursive mode, the deepest-first order keeps every item's path valid at its turn. The path is present, and no folder around it has been renamed. |
| Batch.BatchRenameFilesAndFolders | rename_optimized.py:151-168 | Nothing is collected or renamed exactly when the folder does not exist. Otherwise the report is the processing loop run over the collected items in collected order, so every item gets one outcome, and the number of paths is unchanged. |
| Batch.RunTwo | rename_optimized.py:167-168 | The second item is processed on the state the first one left. |
| Batch.SameTargetFirstWins | rename_optimized.py:139-168 | Of two items with the same free target, the first in list order is renamed and the second is skipped as a collision. |
| Batch.FailureThenNextRenamed | rename_optimized.py:115-124 | A failed rename does not stop the loop and leaves the target free for the next item. |
| Batch.StampTarget | rename_optimized.py:70-81 | A file `<stamp><middle><ext>` is headed for `<stamp><ext>` in its own folder. |
| Batch.TwoFilesOneTarget | rename_optimized.py:98-110 | Two files `<stamp>_a<ext>` and `<stamp>_b<ext>` in one folder: the first is renamed to `<stamp><ext>` and the second is skipped as a collision. |
| FlatRename.RenameEntry | rename.py:17-41 | A directory is skipped and a non-matching name ignored. A collision is reported exactly for a matching, non-canonical name whose canonical path exists. A rename goes only from the entry's path to its canonical path in the same folder, and only onto a free target or onto itself. A matching file whose canonical path is free, or is its own path, gets the rename attempted. That rename completes exactly when `os.rename` does not raise and the source exists, and then moves exactly that one path. The number of paths is unchanged. |
| FlatRename.RenameEntries | rename.py:17-41 | Every listed name gets an outcome and no directory is ever renamed. The number of paths is unchanged. A path disappears only by being renamed away and appears only by being renamed onto. |
| FlatRename.EntriesCons | rename.py:17-41 | The first listed name is handled on the paths as given, and the rest of the listing on the paths it left: its outcome comes first, then the rest's outcomes. |
| FlatRename.EntriesHead | rename.py:17-41 | For a non-empty listing, the outcomes are the first name's outcome followed by the outcomes of the rest, run on the paths the first left. |
| FlatRename.EntriesPrefix | rename.py:17-41 | The paths left after the first k names are the paths the next k - 1 names leave, starting from what the first name left. |
| FlatRename.EntryOnEarlierState | rename.py:17-41 | The k-th listed name gets exactly the loop body's decision, made on the paths the names before it left, whatever their outcomes were, so a failed rename never ends the loop. |
| FlatRename.EntriesTwo | rename.py:17-41 | Two names in a row: the second is handled on the paths the first left, and the loop ends with the paths the second left. |
| FlatRename.StampRenamed | rename.py:24-37 | A file `<stamp><middle><ext>` whose canonical path `<stamp><ext>` is free is renamed onto it when `os.rename` completes. |
| FlatRename.StampCollides | rename.py:24-33 | A file `<stamp><middle><ext>` with a non-empty middle whose canonical path is taken gets `Collision`. |
| FlatRename.TwoFilesOneTarget | rename.py:17-37 | Two files `<stamp><a><ext>` and `<stamp><b><ext>` in one folder: the first is renamed to `<stamp><ext>` and the second then finds it taken and is skipped as a collision. |
| FlatRename.FailureThenNextRenamed | rename.py:31-39 | When `os.rename` raises for the first of two same-stamp, same-extension files, the canonical name stays free, the loop goes on, and the second file is renamed onto it. |
| FlatRename.BatchRenameFiles | rename.py:5-41 | Nothing is listed or renamed exactly when the folder does not exist. Otherwise the report is the loop over the listing in listing order, so every listed name gets one outcome, and the number of paths is unchanged. |
| FlatRename.CanonicalRenamedInPlace | rename.py:31-37 | An already-canonical file (14 digits directly followed by an extension) is renamed onto itself, reported as renamed or failed, and the path set stays as it was. |
| FlatRename.CanonicalNameBehaviours | rename.py:31-36 | On an already-canonical file (14 digits directly followed by an extension), `rename.py` attempts `os.rename(p, p)` while `rename_optimized.py` reports it unchanged. Both leave the path set as it was. |

## Left out

- Filesystem calls are not modelled as calls. `os.path.exists` is membership in the path set. The `os.listdir`/`os.path.isdir` listing and the `os.walk(topdown=False)` triples are inputs. `os.rename` raising is the oracle `ok`.
- The walk order of `os.walk` is an arbitrary input; only what the sort does with it is modelled.
- Console output (`log_message`, every `print`) is left out; it is logging only. The outcome tags stand for the printed categories.
- The `__main__` example (`rename_optimized.py:173-176`) and the module-level call (`rename.py:46-47`) are left out, being side-effecting glue.
- The concrete folder regex is not in the repository's files, so the folder matcher is a parameter.
- Patterns.IsDigit: `\d` is taken as ASCII `0`-`9`, while Python's `re` on `str` also accepts other Unicode decimal digits.
- Paths.Join: the separator is fixed to `/`, and `Join` always inserts one. `os.path.join` adds none after a root that already ends in a separator and discards the root for an absolute name.
- Execute.PerformRename: renaming a folder removes only the folder's own path from the state, not the paths of its descendants. `Batch.PendingPathValid` and `Batch.RecursiveOrderKeepsPathsValid` prove that, in the collected order, no folder containing a pending item is renamed before that item. So the paths left behind are never the ones still to be processed. What the state says about descendants after their folder moved is not modelled.
- Paths are compared as exact strings. `os.path.exists` is string membership in the path set: case-sensitive, with no Unicode normalisation. On a case-insensitive volume, such as the macOS default, the existence test of `rename_optimized.py:106` and `rename.py:31` also finds a target differing only in case, for example `20240115103000.JPG` for a new name `20240115103000.jpg`. That gives a collision, where the model plans a rename.
- FlatRename.BatchRenameFiles: `os.listdir` raising is not modelled. The only early stop is a folder that does not exist. When `os.path.exists` holds for a regular file or an unreadable directory, `os.listdir` (`rename.py:17`) raises outside any `try` and the script stops; the model processes the given listing.
- Batch.BatchRenameFilesAndFolders: likewise, the same error from `os.listdir` in the non-recursive mode (`rename_optimized.py:57`) ends the script and is not modelled. In recursive mode `os.walk` swallows it and yields nothing, which the model covers as an empty walk.
- The time-of-check/time-of-use gap between the existence test and `os.rename` is left out; the model has a single actor. A rename that fails for any reason is covered by the oracle.
- FlatRename.RenameEntry: whether an entry is a directory comes from the listing snapshot. Within one folder the loop only renames files onto file names, so no directory appears or disappears during the loop.
- A concrete folder example needs the concrete folder regex, so none is instantiated. `Planner.ProcessFolderDropsExtra` states the general fact that group 2 is dropped.
