/**
 `self_replace` of `src/cli/update.rs`: rename the running binary aside, copy the new one in,
 remove the backup. Which calls fail, and how far a copy gets, is a parameter; every state
 the file system passes through is recorded, so stopping anywhere is covered.
 */
module SelfUpdate {
  import opened Utils

  type Path = string
  type Files = map<Path, string>

  // ------------------------------------------------------------ backup path

  /** The length of the directory part, up to and including the last slash. */
  function DirLength(p: Path): (n: nat)
    ensures n <= |p|
    ensures forall i :: n <= i < |p| ==> p[i] != '/'
  {
    if p == [] then 0
    else if p[|p| - 1] == '/' then |p|
    else DirLength(p[..|p| - 1])
  }

  /** The position of the last dot at or after `from`, or the end if there is none. */
  function LastDot(p: Path, from: nat): (n: nat)
    requires from <= |p|
    ensures from <= n <= |p|
    ensures n < |p| ==> p[n] == '.'
    ensures forall i :: n < i < |p| ==> p[i] != '.'
    ensures n == |p| ==> forall i :: from <= i < |p| ==> p[i] != '.'
    decreases |p|
  {
    if |p| == from then |p|
    else if p[|p| - 1] == '.' then |p| - 1
    else
      var n := LastDot(p[..|p| - 1], from);
      if n == |p| - 1 then |p| else n
  }

  /** The path without its extension; a dot that starts the file name is part of the name. */
  function Stem(p: Path): Path
  {
    var d := DirLength(p);
    var n := LastDot(p, d);
    if n == d then p else p[..n]
  }

  /** `current_exe.with_extension("bak")` */
  function BackupOf(exe: Path): Path { Stem(exe) + ".bak" }

  predicate EndsWith(p: Path, suffix: string) { |suffix| <= |p| && p[|p| - |suffix|..] == suffix }

  /** The backup path is the path itself exactly for a file name that has something before `.bak`. */
  lemma {:induction false} BackupIsSelf(exe: Path)
    ensures BackupOf(exe) == exe <==> EndsWith(exe, ".bak") && |exe| - DirLength(exe) > 4
  {
    var d := DirLength(exe);
    var n := LastDot(exe, d);
    if EndsWith(exe, ".bak") {
      var k := |exe| - 4;
      assert exe[k] == ".bak"[0] && exe[k + 1] == ".bak"[1] && exe[k + 2] == ".bak"[2] && exe[k + 3] == ".bak"[3];
      if |exe| - d > 4 {
        assert n == k;
        assert exe == exe[..k] + exe[k..];
      } else if d < |exe| {
        assert n >= k;
        assert d == k || n == |exe| || n == k;
      }
    } else {
      var s := Stem(exe);
      assert EndsWith(s + ".bak", ".bak") by {
        assert (s + ".bak")[|s|..] == ".bak";
      }
    }
  }

  predicate IsDirectory(dir: Path) { dir == "" || dir[|dir| - 1] == '/' }

  predicate FileName(name: string) { name != "" && forall i :: 0 <= i < |name| ==> name[i] != '/' }

  predicate Undotted(s: string) { forall i :: 0 <= i < |s| ==> s[i] != '.' }

  lemma {:induction false} DirLengthIs(dir: Path, name: string)
    requires IsDirectory(dir) && forall i :: 0 <= i < |name| ==> name[i] != '/'
    ensures DirLength(dir + name) == |dir|
    decreases |name|
  {
    var p := dir + name;
    if name == "" {
      assert p == dir;
    } else {
      assert p[|p| - 1] == name[|name| - 1];
      assert p[..|p| - 1] == dir + name[..|name| - 1];
      DirLengthIs(dir, name[..|name| - 1]);
    }
  }

  /** The extension after the last dot of a file name is replaced; a name without one gets one. */
  lemma {:induction false} BackupReplacesExtension(dir: Path, name: string, ext: string)
    requires IsDirectory(dir) && FileName(name) && Undotted(ext) && FileName(name + ext)
    ensures BackupOf(dir + name + "." + ext) == dir + name + ".bak"
    ensures Undotted(name[1..]) ==> BackupOf(dir + name) == dir + name + ".bak"
  {
    var file := name + "." + ext;
    var p := dir + file;
    assert p == dir + name + "." + ext;
    assert forall i :: 0 <= i < |ext| ==> ext[i] == (name + ext)[|name| + i];
    DirLengthIs(dir, file);
    var k := |dir + name|;
    assert p[k] == '.' && p[..k] == dir + name;
    assert forall i :: k < i < |p| ==> p[i] == ext[i - k - 1];
    assert LastDot(p, |dir|) == k;
    if Undotted(name[1..]) {
      var q := dir + name;
      DirLengthIs(dir, name);
      assert forall i :: |dir| < i < |q| ==> q[i] == name[1..][i - |dir| - 1];
      var n := LastDot(q, |dir|);
      assert n == |dir| || n == |q|;
      assert q[..|q|] == q;
    }
  }

  // ----------------------------------------------------------------- faults

  /** How a copy ends: before the target is opened, part-way through, or complete. */
  datatype CopyEnd = NotOpened | Stopped(written: nat) | Complete

  datatype Faults = Faults(renameWorks: bool, copy: CopyEnd, restoreWorks: bool, removeWorks: bool)

  datatype Outcome = Replaced | NotMoved | NotInstalled

  function Renamed(fs: Files, a: Path, b: Path): Files
    requires a in fs
  {
    (fs - {a})[b := fs[a]]
  }

  /** The states of a copy that writes `n` bytes: an empty target, then one byte more each. */
  function CopyStates(fs: Files, target: Path, content: string, n: nat): (r: seq<Files>)
    requires n <= |content|
    ensures |r| == n + 1
    ensures forall i :: 0 <= i < |r| ==> r[i] == fs[target := content[..i]]
  {
    seq(n + 1, i requires 0 <= i < n + 1 => fs[target := content[..i]])
  }

  /** What there is to copy once the target has been emptied: nothing, if it is the source itself. */
  function Source(fs: Files, source: Path, target: Path): string
    requires source in fs
  {
    if source == target then [] else fs[source]
  }

  /** The states of the copy, none if it does not start, and whether it completes. */
  function Copying(fs: Files, source: Path, target: Path, end: CopyEnd): (seq<Files>, bool)
  {
    if source !in fs || end.NotOpened? then ([], false)
    else
      var content := Source(fs, source, target);
      match end
      case Complete => (CopyStates(fs, target, content, |content|), true)
      case Stopped(k) => (CopyStates(fs, target, content, if k < |content| then k else |content|), false)
      case NotOpened => ([], false)
  }

  function Last(fs: Files, states: seq<Files>): Files { if states == [] then fs else states[|states| - 1] }

  /** A file copied onto itself is lost once the target has been opened, even if the copy completes. */
  lemma CopyOntoItself(fs: Files, path: Path, end: CopyEnd)
    requires path in fs && !end.NotOpened?
    ensures Last(fs, Copying(fs, path, path, end).0) == fs[path := ""]
  {
    var empty: string := "";
    assert empty[..0] == "";
  }

  /** A file copied onto another is there in full exactly if the copy completes, or stops after the last byte. */
  lemma CopyOntoOther(fs: Files, source: Path, target: Path, end: CopyEnd)
    requires source in fs && source != target && !end.NotOpened?
    ensures var last := Last(fs, Copying(fs, source, target, end).0);
            && source in last && target in last && last[source] == fs[source] && last[target] <= fs[source]
            && (last[target] == fs[source] <==> end.Complete? || end.written >= |fs[source]|)
            && (end.Stopped? && end.written < |fs[source]| ==> |last[target]| == end.written)
  {
    var content := fs[source];
    assert content[..|content|] == content;
  }

  /** Every state in order, the first being the one at the start, and how the call ends. */
  function Run(fs: Files, newBin: Path, exe: Path, f: Faults): (r: (Outcome, seq<Files>))
    ensures |r.1| > 0
  {
    var backup := BackupOf(exe);
    if !f.renameWorks || exe !in fs then (NotMoved, [fs])
    else
      var moved := Renamed(fs, exe, backup);
      var (states, done) := Copying(moved, newBin, exe, f.copy);
      var now := Last(moved, states);
      if done then (Replaced, [fs, moved] + states + [if f.removeWorks then now - {backup} else now])
      else
        var end := if f.restoreWorks && backup in now then Renamed(now, backup, exe) else now;
        (NotInstalled, [fs, moved] + states + [end])
  }

  // ---------------------------------------------------------- the call itself

  class FileSystem {
    var files: Files
    ghost var trace: seq<Files>

    constructor (files: Files)
      ensures this.files == files && trace == [files]
    {
      this.files := files;
      trace := [files];
    }

    method Rename(a: Path, b: Path, works: bool) returns (ok: bool)
      modifies this
      ensures ok == (works && a in old(files))
      ensures ok ==> files == Renamed(old(files), a, b) && trace == old(trace) + [files]
      ensures !ok ==> files == old(files) && trace == old(trace)
    {
      ok := works && a in files;
      if ok {
        files := Renamed(files, a, b);
        trace := trace + [files];
      }
    }

    method Copy(source: Path, target: Path, end: CopyEnd) returns (ok: bool)
      modifies this
      ensures var (states, done) := Copying(old(files), source, target, end);
              ok == done && trace == old(trace) + states && files == Last(old(files), states)
    {
      if source !in files || end.NotOpened? {
        return false;
      }
      var content := Source(files, source, target);
      var n := match end case Stopped(k) => (if k < |content| then k else |content|) case _ => |content|;
      files := files[target := []];
      trace := trace + [files];
      ghost var all := CopyStates(old(files), target, content, n);
      assert all[..1] == [files] by { assert content[..0] == []; }
      for i := 0 to n
        invariant files == old(files)[target := content[..i]]
        invariant trace == old(trace) + all[..i + 1]
      {
        files := files[target := content[..i + 1]];
        trace := trace + [files];
        assert files == old(files)[target := content[..i + 1]] == all[i + 1];
        assert all[..i + 2] == all[..i + 1] + [all[i + 1]];
      }
      assert all[..n + 1] == all;
      ok := end.Complete?;
    }

    method Remove(p: Path, works: bool)
      modifies this
      ensures files == (if works then old(files) - {p} else old(files)) && trace == old(trace) + [files]
    {
      if works {
        files := files - {p};
      }
      trace := trace + [files];
    }

    method SelfReplace(newBin: Path, exe: Path, f: Faults) returns (r: Outcome)
      requires trace == [files]
      modifies this
      ensures (r, trace) == Run(old(files), newBin, exe, f) && files == trace[|trace| - 1]
    {
      var backup := BackupOf(exe);
      var moved := Rename(exe, backup, f.renameWorks);
      if !moved {
        return NotMoved;
      }
      ghost var aside := files;
      assert trace == [old(files), aside];
      var copied := Copy(newBin, exe, f.copy);
      ghost var states := Copying(aside, newBin, exe, f.copy).0;
      assert trace == [old(files), aside] + states;
      if !copied {
        var restored := Rename(backup, exe, f.restoreWorks);
        if !restored {
          trace := trace + [files];
        }
        assert trace == [old(files), aside] + states + [files];
        return NotInstalled;
      }
      Remove(backup, f.removeWorks);
      r := Replaced;
    }
  }

  // ------------------------------------------------------------ crash safety

  /** A complete binary is where it can be found: the old one at either path, or the new one installed. */
  predicate Safe(state: Files, exe: Path, before: string, after: Option<string>)
  {
    || (exe in state && state[exe] == before)
    || (BackupOf(exe) in state && state[BackupOf(exe)] == before)
    || (after.Some? && exe in state && state[exe] == after.value)
  }

  function ContentAt(fs: Files, p: Path): Option<string> { if p in fs then Some(fs[p]) else None }

  predicate OthersSame(fs: Files, state: Files, exe: Path)
  {
    forall p :: p in fs.Keys + state.Keys && p != exe && p != BackupOf(exe) ==> ContentAt(state, p) == ContentAt(fs, p)
  }

  /** Every state in which the call can be stopped is safe. */
  predicate AllSafe(fs: Files, newBin: Path, exe: Path, f: Faults)
    requires exe in fs
  {
    var states := Run(fs, newBin, exe, f).1;
    forall i :: 0 <= i < |states| ==> Safe(states[i], exe, fs[exe], ContentAt(fs, newBin))
  }

  /**
   With a backup path of its own, every state in which the call can be stopped is safe and
   touches no other file, wherever the new binary is. A failed first rename changes nothing; a
   failed copy leaves the old binary in place if its restore works, and at the backup path if
   not; success means the new binary is in place, unless it was at the backup path.
   */
  lemma CrashSafe(fs: Files, newBin: Path, exe: Path, f: Faults)
    requires exe in fs && BackupOf(exe) != exe
    ensures AllSafe(fs, newBin, exe, f)
    ensures var (r, states) := Run(fs, newBin, exe, f);
            var last := states[|states| - 1];
            && (forall i :: 0 <= i < |states| ==> OthersSame(fs, states[i], exe))
            && (r == NotMoved ==> states == [fs])
            && (r == NotInstalled && f.restoreWorks ==> ContentAt(last, exe) == Some(fs[exe]) && BackupOf(exe) !in last)
            && (r == NotInstalled && !f.restoreWorks ==> ContentAt(last, BackupOf(exe)) == Some(fs[exe]))
    ensures var (r, states) := Run(fs, newBin, exe, f);
            var last := states[|states| - 1];
            r == Replaced ==>
              if newBin == BackupOf(exe) then ContentAt(last, exe) == Some(fs[exe])
              else newBin in fs && newBin != exe && ContentAt(last, exe) == Some(fs[newBin])
  {
    StatesSafe(fs, newBin, exe, f);
    Outcomes(fs, newBin, exe, f);
  }

  lemma StatesSafe(fs: Files, newBin: Path, exe: Path, f: Faults)
    requires exe in fs && BackupOf(exe) != exe
    ensures AllSafe(fs, newBin, exe, f)
    ensures forall i :: 0 <= i < |Run(fs, newBin, exe, f).1| ==> OthersSame(fs, Run(fs, newBin, exe, f).1[i], exe)
  {
    var all := Run(fs, newBin, exe, f).1;
    forall i | 0 <= i < |all|
      ensures Safe(all[i], exe, fs[exe], ContentAt(fs, newBin)) && OthersSame(fs, all[i], exe)
    {
      if f.renameWorks && i == |all| - 1 {
        LastSafe(fs, newBin, exe, f);
      } else if i > 0 {
        MiddleSafe(fs, newBin, exe, f, i);
      }
    }
  }

  /** Until the backup is touched again it holds the old binary. */
  lemma MiddleSafe(fs: Files, newBin: Path, exe: Path, f: Faults, i: nat)
    requires exe in fs && BackupOf(exe) != exe && f.renameWorks && 0 < i < |Run(fs, newBin, exe, f).1| - 1
    ensures var state := Run(fs, newBin, exe, f).1[i];
            ContentAt(state, BackupOf(exe)) == Some(fs[exe]) && OthersSame(fs, state, exe)
  {
    var backup := BackupOf(exe);
    var moved := Renamed(fs, exe, backup);
    var states := Copying(moved, newBin, exe, f.copy).0;
    CopyKeepsBackup(moved, newBin, exe, backup, f.copy);
    if i >= 2 {
      assert Run(fs, newBin, exe, f).1[i] == states[i - 2];
    }
  }

  lemma LastSafe(fs: Files, newBin: Path, exe: Path, f: Faults)
    requires exe in fs && BackupOf(exe) != exe && f.renameWorks
    ensures var all := Run(fs, newBin, exe, f).1;
            var last := all[|all| - 1];
            Safe(last, exe, fs[exe], ContentAt(fs, newBin)) && OthersSame(fs, last, exe)
  {
    var backup := BackupOf(exe);
    var moved := Renamed(fs, exe, backup);
    CopyKeepsBackup(moved, newBin, exe, backup, f.copy);
    CopyResult(moved, newBin, exe, f.copy);
    var now := Last(moved, Copying(moved, newBin, exe, f.copy).0);
    assert ContentAt(now, backup) == Some(fs[exe]);
  }

  lemma Outcomes(fs: Files, newBin: Path, exe: Path, f: Faults)
    requires exe in fs && BackupOf(exe) != exe
    ensures var (r, states) := Run(fs, newBin, exe, f);
            var last := states[|states| - 1];
            && (r == NotMoved ==> states == [fs])
            && (r == NotInstalled && f.restoreWorks ==> ContentAt(last, exe) == Some(fs[exe]) && BackupOf(exe) !in last)
            && (r == NotInstalled && !f.restoreWorks ==> ContentAt(last, BackupOf(exe)) == Some(fs[exe]))
            && (r == Replaced ==>
                  if newBin == BackupOf(exe) then ContentAt(last, exe) == Some(fs[exe])
                  else newBin in fs && newBin != exe && ContentAt(last, exe) == Some(fs[newBin]))
  {
    if f.renameWorks {
      var backup := BackupOf(exe);
      var moved := Renamed(fs, exe, backup);
      CopyKeepsBackup(moved, newBin, exe, backup, f.copy);
      CopyResult(moved, newBin, exe, f.copy);
      var now := Last(moved, Copying(moved, newBin, exe, f.copy).0);
      assert ContentAt(now, backup) == Some(fs[exe]);
    }
  }

  lemma CopyResult(fs: Files, source: Path, target: Path, end: CopyEnd)
    ensures var (states, done) := Copying(fs, source, target, end);
            done ==> source in fs && Last(fs, states) == fs[target := Source(fs, source, target)]
  {
    if source in fs {
      var content := Source(fs, source, target);
      assert content[..|content|] == content;
    }
  }

  /**
   Crash safety, exactly: it holds for every combination of failures if and only if the backup
   path is not the executable's own, or there is no new binary to copy.
   */
  lemma CrashSafeIff(fs: Files, newBin: Path, exe: Path)
    requires exe in fs
    ensures (forall f :: AllSafe(fs, newBin, exe, f)) <==> BackupOf(exe) != exe || newBin !in fs
  {
    var backup := BackupOf(exe);
    if backup != exe {
      forall f ensures AllSafe(fs, newBin, exe, f) {
        CrashSafe(fs, newBin, exe, f);
      }
    } else if newBin !in fs {
      forall f ensures AllSafe(fs, newBin, exe, f) {
        IdleRename(fs, exe);
        assert Run(fs, newBin, exe, f).1 == [fs] || Run(fs, newBin, exe, f).1 == [fs, fs] + [] + [fs];
      }
    } else {
      OwnBackupIsLost(fs, newBin, exe);
    }
  }

  lemma IdleRename(fs: Files, exe: Path)
    requires exe in fs
    ensures Renamed(fs, exe, exe) == fs
  {
  }

  /**
   An executable that is its own backup: the rename is idle, the copy starts by emptying the
   only binary there is, and a call in which nothing fails ends by removing it.
   */
  lemma OwnBackupIsLost(fs: Files, newBin: Path, exe: Path)
    requires exe in fs && newBin in fs && BackupOf(exe) == exe
    ensures var f := Faults(true, Complete, true, true);
            var (r, states) := Run(fs, newBin, exe, f);
            r == Replaced && exe !in states[|states| - 1] && !AllSafe(fs, newBin, exe, f)
    ensures Run(fs, newBin, exe, Faults(true, Stopped(0), true, true)).1[2] == fs[exe := []]
    ensures fs[exe] != "" && fs[newBin] != "" ==> !AllSafe(fs, newBin, exe, Faults(true, Stopped(0), true, true))
  {
    IdleRename(fs, exe);
    var states := Run(fs, newBin, exe, Faults(true, Complete, true, true)).1;
    assert exe !in states[|states| - 1];
    var emptied := Copying(fs, newBin, exe, Stopped(0)).0;
    assert emptied == [fs[exe := []]];
  }

  lemma CopyKeepsBackup(fs: Files, source: Path, exe: Path, backup: Path, end: CopyEnd)
    requires backup in fs && backup != exe
    ensures var states := Copying(fs, source, exe, end).0;
            forall i :: 0 <= i < |states| ==>
              && ContentAt(states[i], backup) == Some(fs[backup])
              && forall p :: p != exe ==> ContentAt(states[i], p) == ContentAt(fs, p)
  {
  }

  /** A successful call has the new binary in place. */
  predicate OkMeansInstalled(fs: Files, newBin: Path, exe: Path, f: Faults)
  {
    var (r, states) := Run(fs, newBin, exe, f);
    r == Replaced ==> newBin in fs && ContentAt(states[|states| - 1], exe) == Some(fs[newBin])
  }

  /**
   Success means installed, whatever fails, exactly when the backup path is neither the
   executable's own path (a name ending in `.bak`) nor the new binary's path.
   */
  lemma InstalledIffPathsDiffer(fs: Files, newBin: Path, exe: Path)
    requires exe in fs && newBin in fs && fs[newBin] != fs[exe]
    ensures (forall f :: OkMeansInstalled(fs, newBin, exe, f)) <==> BackupOf(exe) != exe && newBin != BackupOf(exe)
  {
    var f := Faults(true, Complete, true, true);
    var backup := BackupOf(exe);
    if backup != exe && newBin != backup {
      forall f ensures OkMeansInstalled(fs, newBin, exe, f) {
        CrashSafe(fs, newBin, exe, f);
      }
    } else {
      var moved := Renamed(fs, exe, backup);
      var (states, done) := Copying(moved, newBin, exe, Complete);
      var content := moved[newBin];
      assert content[..|content|] == content;
      assert done && Last(moved, states) == moved[exe := content];
      assert !OkMeansInstalled(fs, newBin, exe, f);
    }
  }
}
