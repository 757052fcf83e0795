/**
  The rename step shared by both scripts: `os.rename` inside a `try`, on a filesystem
  modelled as the set of its paths. Whether `os.rename` raises is an oracle; a rename
  whose source path is gone always raises (`FileNotFoundError`).
*/
module Execute {

  /** What happened to one processed entry (the tags the scripts print). */
  datatype Outcome =
    | Ignored                          // the name does not match the pattern
    | Unchanged                        // the name is already canonical
    | Collision                        // the target already exists
    | Renamed(from: string, to: string)
    | Failed(from: string, to: string) // `os.rename` raised; the loop goes on
    | DirSkipped                       // rename.py passes over directories silently

  /** Whether `os.rename(old, new)` completes; false stands for any exception it raises. */
  type RenameOracle = (string, string) -> bool

  /** One processed entry: its outcome and the paths that exist afterwards. */
  datatype Step = Step(outcome: Outcome, fs: set<string>)

  /** The outcomes of a loop, in item order, and the paths that exist at its end. */
  datatype Report = Report(outcomes: seq<Outcome>, fs: set<string>)

  /** A run either stops at the missing folder or processes every collected entry. */
  datatype Run = PathNotFound | Processed(report: Report)

  /**
    `perform_rename`: moves `src` to `dst` when the rename completes, and otherwise
    reports the failure and leaves every path as it was. The rename itself does not
    look at `dst`: keeping it from overwriting is the caller's check.
  */
  function PerformRename(fs: set<string>, src: string, dst: string, ok: RenameOracle): (r: Step)
    ensures r.outcome == Renamed(src, dst) <==> ok(src, dst) && src in fs
    ensures r.outcome.Renamed? ==> r.fs == fs - {src} + {dst}
    ensures !r.outcome.Renamed? ==> r.outcome == Failed(src, dst) && r.fs == fs
    ensures r.outcome.Renamed? ==> dst in r.fs && (src !in r.fs <==> src != dst)
    ensures dst !in fs || dst == src ==> |r.fs| == |fs|
  {
    if ok(src, dst) && src in fs then Step(Renamed(src, dst), fs - {src} + {dst})
    else Step(Failed(src, dst), fs)
  }

  /** A rename onto its own source, when it completes, leaves every path as it was. */
  lemma RenameInPlace(fs: set<string>, p: string, ok: RenameOracle)
    requires p in fs
    ensures PerformRename(fs, p, p, ok) == Step(if ok(p, p) then Renamed(p, p) else Failed(p, p), fs)
  {
    assert fs - {p} + {p} == fs;
  }

  /** The paths a sequence of outcomes renamed away. */
  function Sources(outcomes: seq<Outcome>): set<string>
  {
    if |outcomes| == 0 then {}
    else (if outcomes[0].Renamed? then {outcomes[0].from} else {}) + Sources(outcomes[1..])
  }

  /** The paths a sequence of outcomes renamed onto. */
  function Targets(outcomes: seq<Outcome>): set<string>
  {
    if |outcomes| == 0 then {}
    else (if outcomes[0].Renamed? then {outcomes[0].to} else {}) + Targets(outcomes[1..])
  }
}
