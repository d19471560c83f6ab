/**
 * `rotate_log_file`: a log longer than `max_lines` keeps its last
 * `max_lines` lines and the older ones go to a backup file whose name
 * replaces `.csv` with `_backup.csv`.  The files are a map from name to
 * lines; a missing name is the `FileNotFoundError` the code ignores.
 */
module Rotation {
  import opened PyStr

  /** Python's `lines[-k:]`; for `k == 0` that is the whole list. */
  function KeepLast(lines: seq<string>, k: nat): (r: seq<string>)
    ensures |r| <= |lines| && r == lines[|lines| - |r|..]
    ensures 0 < k <= |lines| ==> |r| == k
    ensures k == 0 || k >= |lines| ==> r == lines
  {
    if k == 0 || k >= |lines| then lines else lines[|lines| - k..]
  }

  /** Python's `lines[:-k]`; for `k == 0` that is the empty list. */
  function DropLast(lines: seq<string>, k: nat): (r: seq<string>)
    ensures |r| <= |lines| && r == lines[..|r|]
    ensures k == 0 || k >= |lines| ==> r == []
  {
    if k == 0 || k >= |lines| then [] else lines[..|lines| - k]
  }

  /** Whatever `k` is, the two slices put back together give the list. */
  lemma SlicesPartition(lines: seq<string>, k: nat)
    ensures DropLast(lines, k) + KeepLast(lines, k) == lines
  {
    if 0 < k < |lines| {
      assert lines[..|lines| - k] + lines[|lines| - k..] == lines;
    }
  }

  /** The backup file's name. */
  function BackupName(filename: string): (r: string)
    ensures !Contains(filename, ".csv") ==> r == filename
    ensures Contains(filename, ".csv") ==> r != filename
  {
    if Contains(filename, ".csv") then
      ReplaceLength(filename, ".csv", "_backup.csv");
      Replace(filename, ".csv", "_backup.csv")
    else
      ReplaceAbsent(filename, ".csv", "_backup.csv");
      Replace(filename, ".csv", "_backup.csv")
  }

  /** The effect of one call on the files: backup written first, then the log rewritten. */
  function RotateSpec(files: map<string, seq<string>>, filename: string, maxLines: nat): (r: map<string, seq<string>>)
    ensures filename !in files || |files[filename]| <= maxLines ==> r == files
    ensures filename in files && |files[filename]| > maxLines ==>
      r.Keys == files.Keys + {BackupName(filename)}
      && r[filename] == KeepLast(files[filename], maxLines)
      && (BackupName(filename) != filename ==> r[BackupName(filename)] == DropLast(files[filename], maxLines))
      && forall f :: f in files && f != filename && f != BackupName(filename) ==> r[f] == files[f]
  {
    if filename !in files then files
    else
      var lines := files[filename];
      if |lines| > maxLines then
        files[BackupName(filename) := DropLast(lines, maxLines)][filename := KeepLast(lines, maxLines)]
      else files
  }

  /**
   * For a `.csv` log over the limit, with a positive limit, the log keeps
   * exactly `maxLines` lines and backup followed by log is the old log.
   */
  lemma RotationSplits(files: map<string, seq<string>>, filename: string, maxLines: nat)
    requires filename in files && |files[filename]| > maxLines > 0
    requires Contains(filename, ".csv")
    ensures var r := RotateSpec(files, filename, maxLines);
      |r[filename]| == maxLines && r[BackupName(filename)] + r[filename] == files[filename]
  {
    SlicesPartition(files[filename], maxLines);
  }

  /** With a limit of zero a non-empty log is rewritten unchanged and the backup is empty. */
  lemma ZeroLimitKeepsAll(files: map<string, seq<string>>, filename: string)
    requires filename in files && |files[filename]| > 0
    requires Contains(filename, ".csv")
    ensures var r := RotateSpec(files, filename, 0);
      r[filename] == files[filename] && r[BackupName(filename)] == []
  {
  }

  /** A name without `.csv` is its own backup name, so the older lines are lost. */
  lemma NoCsvLosesBackup(files: map<string, seq<string>>, filename: string, maxLines: nat)
    requires filename in files && |files[filename]| > maxLines > 0
    requires !Contains(filename, ".csv")
    ensures RotateSpec(files, filename, maxLines) == files[filename := KeepLast(files[filename], maxLines)]
  {
  }

  /** The log files on disk. */
  class LogFiles {
    var files: map<string, seq<string>>

    constructor (initial: map<string, seq<string>>)
      ensures files == initial
    {
      files := initial;
    }

    /** `rotate_log_file(filename, max_lines)`. */
    method RotateLogFile(filename: string, maxLines: nat)
      modifies this
      ensures files == RotateSpec(old(files), filename, maxLines)
    {
      if filename !in files {
        return;
      }
      var lines := files[filename];
      if |lines| > maxLines {
        var linesToKeep := KeepLast(lines, maxLines);
        var backupFilename := BackupName(filename);
        files := files[backupFilename := DropLast(lines, maxLines)];
        files := files[filename := linesToKeep];
      }
    }
  }
}
