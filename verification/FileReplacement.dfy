/**
 Replacing several files as one transaction: every new text is staged beside its file, then file by file
 the old text is renamed to a backup and the staged text to the file; a failure rolls the backups back.
 Any command on the file system may fail, and a failed command leaves the files alone (a failed write may
 leave part of the text in the staged file).
 */
module FileReplacement {
  import opened Wrappers
  import opened TextEdits

  type Path = string

  type Files = map<Path, string>

  ghost predicate IsRename(before: Files, after: Files, from: Path, to: Path) {
    from != to && from in before && after == (before - {from})[to := before[from]]
  }

  ghost predicate IsRemoval(before: Files, after: Files, path: Path) {
    after == before - {path}
  }

  ghost predicate IsCreation(before: Files, after: Files, path: Path) {
    path !in before && path in after && after == before[path := after[path]]
  }

  /** One command leads from the first files to the second: a rename, a removal, a creation, or one that failed. */
  ghost predicate OneCommand(before: Files, after: Files) {
    || after == before
    || (exists from, to :: IsRename(before, after, from, to))
    || (exists path :: IsRemoval(before, after, path))
    || (exists path :: IsCreation(before, after, path))
  }

  /** The moments follow each other command by command, up to the present. */
  ghost predicate Logged(history: seq<Files>, files: Files) {
    && history != [] && history[|history| - 1] == files
    && forall k | 0 < k < |history| :: OneCommand(history[k - 1], history[k])
  }

  /**
   A file system whose commands may fail. `history` holds the files at the beginning and after every changing command,
   `faults` counts the commands that failed.
   */
  class FileSystem {
    var files: Files
    ghost var history: seq<Files>
    ghost var faults: nat

    ghost predicate Valid()
      reads this`files, this`history
    {
      Logged(history, files)
    }

    constructor (files: Files)
      ensures Valid() && this.files == files && history == [files] && faults == 0
    {
      this.files, history, faults := files, [files], 0;
    }

    ghost method Note(ok: bool)
      requires history != [] && Logged(history, history[|history| - 1])
      requires OneCommand(history[|history| - 1], files)
      modifies this`history, this`faults
      ensures Valid()
      ensures history == old(history) + [files]
      ensures faults == old(faults) + if ok then 0 else 1
    {
      history := history + [files];
      faults := faults + if ok then 0 else 1;
    }

    method Stat(path: Path) returns (ok: bool)
      modifies this`faults
      ensures ok ==> path in files
      ensures faults == old(faults) + if ok then 0 else 1
    {
      ok := *;
      ok := ok && path in files;
      faults := faults + if ok then 0 else 1;
    }

    method Rename(from: Path, to: Path) returns (ok: bool)
      requires Valid() && from != to
      modifies this
      ensures Valid()
      ensures ok ==> from in old(files) && files == (old(files) - {from})[to := old(files)[from]]
      ensures !ok ==> files == old(files)
      ensures history == old(history) + [files]
      ensures faults == old(faults) + if ok then 0 else 1
    {
      ok := *;
      ok := ok && from in files;
      if ok {
        files := (files - {from})[to := files[from]];
        assert IsRename(old(files), files, from, to);
      }
      Note(ok);
    }

    /** Removal that does not mind a missing file. */
    method Remove(path: Path) returns (ok: bool)
      requires Valid()
      modifies this
      ensures Valid()
      ensures files == if ok then old(files) - {path} else old(files)
      ensures history == old(history) + [files]
      ensures faults == old(faults) + if ok then 0 else 1
    {
      ok := *;
      if ok {
        files := files - {path};
        assert IsRemoval(old(files), files, path);
      }
      Note(ok);
    }

    /** Creates a new file; writing may fail half way. */
    method Create(path: Path, text: string) returns (created: bool, written: bool)
      requires Valid()
      modifies this
      ensures Valid()
      ensures written ==> created
      ensures created ==> path !in old(files) && path in files && files == old(files)[path := files[path]]
      ensures written ==> files[path] == text
      ensures !created ==> files == old(files)
      ensures history == old(history) + [files]
      ensures faults == old(faults) + if written then 0 else 1
    {
      created, written := *, *;
      created := created && path !in files;
      written := written && created;
      if created {
        var part: string := *;
        files := files[path := if written then text else part];
        assert IsCreation(old(files), files, path);
      }
      Note(written);
    }

    method Read(path: Path) returns (r: Option<string>)
      modifies this`faults
      ensures r.Some? ==> path in files && r.value == files[path]
      ensures faults == old(faults) + if r.Some? then 0 else 1
    {
      var ok := Stat(path);
      r := if ok then Some(files[path]) else None;
    }
  }

  datatype Update = Update(path: Path, content: string, updated: string, staged: Path, backup: Path)

  datatype Failure =
    | ReadFailed
    | DuplicateTargets
    | BadEdits(error: EditError)
    | StagingFailed
    | ChangedWhileStaged
    | CommitFailed

  datatype Outcome = Replaced | Failed(failure: Failure) | RollbackIncomplete

  // ---- What the transaction promises -------------------------------------------------------------

  ghost predicate SameAt(a: Files, b: Files, p: Path) {
    (p in a <==> p in b) && (p in a ==> a[p] == b[p])
  }

  ghost predicate Holds(files: Files, p: Path, text: string) {
    p in files && files[p] == text
  }

  /** The paths of the updates do not collide, and the temporary names are not in use. */
  ghost predicate Disjoint(us: seq<Update>) {
    && (forall i, j | 0 <= i < |us| && 0 <= j < |us| ::
          us[i].path != us[j].staged && us[i].path != us[j].backup && us[i].staged != us[j].backup)
    && (forall i, j | 0 <= i < j < |us| ::
          us[i].path != us[j].path && us[i].staged != us[j].staged && us[i].backup != us[j].backup)
  }

  ghost predicate Unused(files: Files, us: seq<Update>) {
    forall i | 0 <= i < |us| :: us[i].staged !in files && us[i].backup !in files
  }

  ghost function Targets(us: seq<Update>): set<Path> {
    set i | 0 <= i < |us| :: us[i].path
  }

  ghost function StagedNames(us: seq<Update>): set<Path> {
    set i | 0 <= i < |us| :: us[i].staged
  }

  ghost function BackupNames(us: seq<Update>): set<Path> {
    set i | 0 <= i < |us| :: us[i].backup
  }

  lemma NamesApart(us: seq<Update>, i: nat)
    requires Disjoint(us) && i < |us|
    ensures us[i].path in Targets(us) && us[i].path !in StagedNames(us) && us[i].path !in BackupNames(us)
    ensures us[i].backup in BackupNames(us) && us[i].backup !in StagedNames(us)
    ensures us[i].staged in StagedNames(us)
  {
  }

  ghost predicate SameExcept(files: Files, before: Files, names: set<Path>) {
    forall p | p !in names :: SameAt(files, before, p)
  }

  lemma SameExceptTwice(c: Files, b: Files, a: Files, names: set<Path>)
    requires SameExcept(c, b, names) && SameExcept(b, a, names)
    ensures SameExcept(c, a, names)
  {
    forall p | p !in names ensures SameAt(c, a, p) {
      assert SameAt(c, b, p) && SameAt(b, a, p);
    }
  }

  /** Files that no update names are as before. */
  ghost predicate OthersKept(files: Files, before: Files, us: seq<Update>) {
    SameExcept(files, before, Targets(us) + StagedNames(us) + BackupNames(us))
  }

  ghost predicate OldTextSafe(files: Files, before: Files, u: Update) {
    u.path in before ==> Holds(files, u.path, before[u.path]) || Holds(files, u.backup, before[u.path])
  }

  ghost predicate AllOldTextsSafe(files: Files, before: Files, us: seq<Update>) {
    forall i | 0 <= i < |us| :: OldTextSafe(files, before, us[i])
  }

  ghost predicate AllNew(files: Files, us: seq<Update>) {
    forall i | 0 <= i < |us| :: Holds(files, us[i].path, us[i].updated)
  }

  ghost predicate TargetsKept(files: Files, before: Files, us: seq<Update>) {
    forall i | 0 <= i < |us| :: SameAt(files, before, us[i].path)
  }

  /** At every moment from `from` on, all old texts can be found or all new texts are in place. */
  ghost predicate NeverTorn(history: seq<Files>, from: nat, before: Files, us: seq<Update>) {
    forall k | from <= k < |history| :: AllOldTextsSafe(history[k], before, us) || AllNew(history[k], us)
  }

  ghost predicate OldTextsSafeSince(history: seq<Files>, from: nat, before: Files, us: seq<Update>) {
    forall k | from <= k < |history| :: AllOldTextsSafe(history[k], before, us)
  }

  // ---- Temporary files that stay -----------------------------------------------------------------

  /** How many of the names are in use. */
  ghost function Left(files: Files, names: set<Path>): nat {
    |files.Keys * names|
  }

  lemma SubsetIsSmaller<T>(a: set<T>, b: set<T>)
    requires a <= b
    ensures |a| <= |b|
  {
    assert b == a + (b - a);
  }

  lemma LeftMore(files: Files, names: set<Path>, p: Path)
    ensures Left(files, names + {p}) <= Left(files, names) + if p in files then 1 else 0
  {
    if p in files {
      SubsetIsSmaller(files.Keys * (names + {p}), files.Keys * names + {p});
    } else {
      assert files.Keys * (names + {p}) == files.Keys * names;
    }
  }

  lemma LeftFewer(files: Files, more: Files, names: set<Path>)
    requires forall p | p in names && p in files :: p in more
    ensures Left(files, names) <= Left(more, names)
  {
    SubsetIsSmaller(files.Keys * names, more.Keys * names);
  }

  lemma LeftSum(files: Files, a: set<Path>, b: set<Path>)
    ensures Left(files, a + b) <= Left(files, a) + Left(files, b)
  {
    assert files.Keys * (a + b) == files.Keys * a + files.Keys * b;
  }

  lemma NothingLeft(files: Files, names: set<Path>)
    requires forall p | p in names :: p !in files
    ensures Left(files, names) == 0
  {
    assert files.Keys * names == {};
  }

  /** The staged names of the first `n` updates, and of the others. */
  lemma StagedInTwo(us: seq<Update>, n: nat)
    requires n <= |us|
    ensures StagedNames(us) == StagedNames(us[..n]) + StagedNames(us[n..])
  {
    forall i | 0 <= i < |us| ensures us[i].staged in StagedNames(us[..n]) + StagedNames(us[n..]) {
      if i < n {
        assert us[..n][i] == us[i];
      } else {
        assert us[n..][i - n] == us[i];
      }
    }
  }

  lemma OneMoreStaged(us: seq<Update>, n: nat)
    requires n < |us|
    ensures StagedNames(us[..n + 1]) == StagedNames(us[..n]) + {us[n].staged}
  {
    assert us[..n + 1] == us[..n] + [us[n]];
    forall i | 0 <= i < n ensures us[i].staged in StagedNames(us[..n + 1]) {
      assert us[..n + 1][i] == us[i];
    }
    assert us[..n + 1][n] == us[n];
  }

  /** The updates from `n` on have not been staged. */
  ghost predicate Unstaged(files: Files, us: seq<Update>, n: nat) {
    forall i | n <= i < |us| :: us[i].staged !in files
  }

  lemma UnstagedStays(files: Files, next: Files, us: seq<Update>, n: nat)
    requires Disjoint(us) && n < |us| && Unstaged(files, us, n) && SameExcept(next, files, {us[n].staged})
    ensures Unstaged(next, us, n + 1)
    ensures us[n].staged !in files
  {
    forall i | n + 1 <= i < |us| ensures us[i].staged !in next {
      assert us[i].staged != us[n].staged;
      assert SameAt(next, files, us[i].staged);
    }
  }

  lemma OneLeftAtMost(files: Files, us: seq<Update>, n: nat)
    requires n <= |us| && Unstaged(files, us, n + 1)
    ensures Left(files, StagedNames(us[n..])) <= if n < |us| && us[n].staged in files then 1 else 0
  {
    forall i | 0 < i < |us| - n ensures us[n..][i].staged !in files {
      assert us[n..][i] == us[n + i];
    }
    if n < |us| && us[n].staged in files {
      SubsetIsSmaller(files.Keys * StagedNames(us[n..]), {us[n].staged});
    } else {
      NothingLeft(files, StagedNames(us[n..]));
    }
  }

  /** Removing the first `n` staged files and what was left of the others account for all that stay. */
  lemma StagedLeft(files: Files, dirty: Files, us: seq<Update>, n: nat)
    requires Disjoint(us) && n <= |us| && SameExcept(files, dirty, StagedNames(us[..n]))
    ensures Left(files, StagedNames(us)) <= Left(files, StagedNames(us[..n])) + Left(dirty, StagedNames(us[n..]))
  {
    StagedInTwo(us, n);
    LeftSum(files, StagedNames(us[..n]), StagedNames(us[n..]));
    forall p | p in StagedNames(us[n..]) && p in files ensures p in dirty {
      var i :| 0 <= i < |us| - n && us[n..][i].staged == p;
      assert us[n..][i] == us[n + i];
      assert p !in StagedNames(us[..n]);
      assert SameAt(files, dirty, p);
    }
    LeftFewer(files, dirty, StagedNames(us[n..]));
  }

  lemma OneMoreBackup(us: seq<Update>, n: nat)
    requires n < |us|
    ensures BackupNames(us[..n + 1]) == BackupNames(us[..n]) + {us[n].backup}
  {
    assert us[..n + 1] == us[..n] + [us[n]];
    forall i | 0 <= i < n ensures us[i].backup in BackupNames(us[..n + 1]) {
      assert us[..n + 1][i] == us[i];
    }
    assert us[..n + 1][n] == us[n];
  }

  // ---- Staging -----------------------------------------------------------------------------------

  method StageWorkspaceFile(fs: FileSystem, u: Update) returns (ok: bool)
    requires fs.Valid() && u.path != u.staged
    modifies fs
    ensures fs.Valid() && old(fs.history) <= fs.history
    ensures ok ==> u.path in old(fs.files) && fs.files == old(fs.files)[u.staged := u.updated]
    ensures SameExcept(fs.files, old(fs.files), {u.staged})
    ensures forall k | |old(fs.history)| <= k < |fs.history| :: SameExcept(fs.history[k], old(fs.files), {u.staged})
    ensures if ok then fs.faults == old(fs.faults) else fs.faults > old(fs.faults)
    ensures !ok && u.staged in fs.files && u.staged !in old(fs.files) ==> fs.faults > old(fs.faults) + 1
  {
    var present := fs.Stat(u.path);
    if !present {
      return false;
    }
    var created, written := fs.Create(u.staged, u.updated);
    if created && !written {
      var _ := fs.Remove(u.staged);
    }
    return written;
  }

  /** A file system that differs only in staged files keeps the old texts where they were. */
  lemma StagingIsSafe(files: Files, next: Files, before: Files, us: seq<Update>)
    requires Disjoint(us) && AllOldTextsSafe(files, before, us)
    requires SameExcept(next, files, StagedNames(us))
    ensures AllOldTextsSafe(next, before, us)
  {
    hide StagedNames, Targets, BackupNames, Logged;
    forall i | 0 <= i < |us| ensures OldTextSafe(next, before, us[i]) {
      NamesApart(us, i);
      assert OldTextSafe(files, before, us[i]);
      assert SameAt(next, files, us[i].path) && SameAt(next, files, us[i].backup);
    }
  }

  /** Best-effort removal of the staged files of the first `n` updates. */
  method RemoveStaged(fs: FileSystem, us: seq<Update>, n: nat, ghost before: Files, ghost from: nat)
    requires fs.Valid() && n <= |us| && Disjoint(us) && from <= |fs.history|
    requires OldTextsSafeSince(fs.history, from, before, us) && AllOldTextsSafe(fs.files, before, us)
    modifies fs
    ensures SameExcept(fs.files, old(fs.files), StagedNames(us)) && fs.faults >= old(fs.faults)
    ensures SameExcept(fs.files, old(fs.files), StagedNames(us[..n]))
    ensures old(fs.faults) + Left(fs.files, StagedNames(us[..n])) <= fs.faults
    ensures fs.Valid() && old(fs.history) <= fs.history
    ensures OldTextsSafeSince(fs.history, from, before, us)
  {
    hide StagedNames, Targets, BackupNames, Logged, Left;
    NoStagedNames(fs.files, us);
    for i := 0 to n
      invariant SameExcept(fs.files, old(fs.files), StagedNames(us[..i])) && fs.faults >= old(fs.faults)
      invariant old(fs.faults) + Left(fs.files, StagedNames(us[..i])) <= fs.faults
      invariant fs.Valid() && old(fs.history) <= fs.history
      invariant OldTextsSafeSince(fs.history, from, before, us)
    {
      ghost var files := fs.files;
      var _ := fs.Remove(us[i].staged);
      OneMoreStaged(us, i);
      LeftMore(fs.files, StagedNames(us[..i]), us[i].staged);
      LeftFewer(fs.files, files, StagedNames(us[..i]));
      SameExceptTwice(fs.files, files, old(fs.files), StagedNames(us[..i + 1]));
      StagedInTwo(us, i + 1);
      StagingIsSafe(old(fs.files), fs.files, before, us);
    }
    StagedInTwo(us, n);
  }

  lemma NoStagedNames(files: Files, us: seq<Update>)
    ensures StagedNames(us[..0]) == {} && Left(files, {}) == 0
  {
    assert us[..0] == [];
  }

  lemma ChangedBefore(files: Files, before: Files, us: seq<Update>)
    requires Disjoint(us) && SameExcept(files, before, StagedNames(us))
    requires exists i | 0 <= i < |us| :: !Holds(files, us[i].path, us[i].content)
    ensures exists i | 0 <= i < |us| :: !Holds(before, us[i].path, us[i].content)
  {
    hide StagedNames, Targets, BackupNames, Logged;
    var i :| 0 <= i < |us| && !Holds(files, us[i].path, us[i].content);
    NamesApart(us, i);
    assert SameAt(files, before, us[i].path);
  }

  /** The failures that are due to a failed command. */
  function FailedCommand(failure: Failure): nat {
    if failure.ReadFailed? || failure.StagingFailed? || failure.CommitFailed? then 1 else 0
  }

  /** Stages every update and checks that no file changed since its text was read. */
  method StageAll(fs: FileSystem, us: seq<Update>) returns (r: Option<Failure>)
    requires fs.Valid() && Disjoint(us) && Unused(fs.files, us)
    modifies fs
    ensures SameExcept(fs.files, old(fs.files), StagedNames(us))
    ensures r.None? ==> forall i | 0 <= i < |us| ::
      Holds(fs.files, us[i].staged, us[i].updated) && Holds(fs.files, us[i].path, us[i].content)
    ensures fs.faults >= old(fs.faults)
    ensures r.Some? && fs.faults == old(fs.faults) ==>
      r.value == ChangedWhileStaged && exists i | 0 <= i < |us| :: !Holds(old(fs.files), us[i].path, us[i].content)
    // What stays beside the targets are staged files whose removal failed.
    ensures r.Some? ==> old(fs.faults) + FailedCommand(r.value) + Left(fs.files, StagedNames(us)) <= fs.faults
    ensures fs.Valid() && old(fs.history) <= fs.history
    ensures OldTextsSafeSince(fs.history, |old(fs.history)|, old(fs.files), us)
  {
    hide StagedNames, Targets, BackupNames, Logged, Left, Disjoint;
    ghost var from := |fs.history|;
    ghost var before := fs.files;
    r := None;
    var staged := 0;
    assert Unstaged(before, us, 0);
    while staged < |us| && r.None?
      invariant 0 <= staged <= |us|
      invariant SameExcept(fs.files, before, StagedNames(us))
      invariant r.Some? ==> fs.faults > old(fs.faults)
      invariant fs.faults >= old(fs.faults)
      invariant r.None? ==> forall i | 0 <= i < staged :: Holds(fs.files, us[i].staged, us[i].updated)
      invariant r.None? ==> Unstaged(fs.files, us, staged)
      invariant r.Some? ==>
        staged < |us| && Unstaged(fs.files, us, staged + 1) &&
        (us[staged].staged in fs.files ==> fs.faults > old(fs.faults) + 1)
      invariant fs.Valid() && old(fs.history) <= fs.history
      invariant OldTextsSafeSince(fs.history, from, before, us)
      decreases |us| - staged, r.None?
    {
      ghost var files := fs.files;
      var ok := StageOne(fs, us, staged, before, from);
      UnstagedStays(files, fs.files, us, staged);
      if ok {
        staged := staged + 1;
      } else {
        r := Some(StagingFailed);
      }
    }
    if r.None? {
      assert Unstaged(fs.files, us, staged + 1);
      r := CompareContents(fs, us);
      if r == Some(ChangedWhileStaged) {
        ChangedBefore(fs.files, before, us);
      }
    }
    if r.Some? {
      ghost var files := fs.files;
      OneLeftAtMost(files, us, staged);
      StagingIsSafe(before, files, before, us);
      RemoveStaged(fs, us, staged, before, from);
      SameExceptTwice(fs.files, files, before, StagedNames(us));
      StagedLeft(fs.files, files, us, staged);
    }
  }

  /** One round of the staging loop. */
  method StageOne(fs: FileSystem, us: seq<Update>, n: nat, ghost before: Files, ghost from: nat) returns (ok: bool)
    requires fs.Valid() && Disjoint(us) && n < |us| && from <= |fs.history|
    requires SameExcept(fs.files, before, StagedNames(us)) && OldTextsSafeSince(fs.history, from, before, us)
    modifies fs
    ensures SameExcept(fs.files, before, StagedNames(us))
    ensures ok ==> fs.files == old(fs.files)[us[n].staged := us[n].updated]
    ensures if ok then fs.faults == old(fs.faults) else fs.faults > old(fs.faults)
    ensures SameExcept(fs.files, old(fs.files), {us[n].staged})
    ensures !ok && us[n].staged in fs.files && us[n].staged !in old(fs.files) ==> fs.faults > old(fs.faults) + 1
    ensures fs.Valid() && old(fs.history) <= fs.history
    ensures OldTextsSafeSince(fs.history, from, before, us)
  {
    hide StagedNames, Targets, BackupNames, Logged;
    NamesApart(us, n);
    ok := StageWorkspaceFile(fs, us[n]);
    SameExceptTwice(fs.files, old(fs.files), before, StagedNames(us));
    forall k | from <= k < |fs.history| ensures AllOldTextsSafe(fs.history[k], before, us) {
      if k < |old(fs.history)| {
        assert fs.history[k] == old(fs.history)[k];
      } else {
        SameExceptTwice(fs.history[k], old(fs.files), before, StagedNames(us));
        StagingIsSafe(before, fs.history[k], before, us);
      }
    }
  }

  /** All files are read first, then compared with the texts that the edits were made for. */
  method CompareContents(fs: FileSystem, us: seq<Update>) returns (r: Option<Failure>)
    modifies fs`faults
    ensures r.None? ==> forall i | 0 <= i < |us| :: Holds(fs.files, us[i].path, us[i].content)
    ensures fs.faults >= old(fs.faults) && (r.Some? ==> r.value == ChangedWhileStaged || fs.faults > old(fs.faults))
    ensures r == Some(ChangedWhileStaged) ==> exists i | 0 <= i < |us| :: !Holds(fs.files, us[i].path, us[i].content)
  {
    var currentContents := [];
    for index := 0 to |us|
      invariant |currentContents| == index && fs.faults == old(fs.faults)
      invariant forall i | 0 <= i < index :: Holds(fs.files, us[i].path, currentContents[i])
    {
      var text := fs.Read(us[index].path);
      if text.None? {
        return Some(StagingFailed);
      }
      currentContents := currentContents + [text.value];
    }
    for index := 0 to |us|
      invariant forall i | 0 <= i < index :: Holds(fs.files, us[i].path, us[i].content)
    {
      if currentContents[index] != us[index].content {
        return Some(ChangedWhileStaged);
      }
    }
    return None;
  }

  // ---- Rolling back ------------------------------------------------------------------------------

  /** Where the rollback of one file stands. The rollbacks of several files run side by side. */
  datatype Phase = RemovingTarget | RenamingBackup | Restored | Rejected

  function StepsLeft(phases: seq<Phase>): nat {
    if phases == [] then
      0
    else
      (match phases[0] case RemovingTarget => 2 case RenamingBackup => 1 case _ => 0) + StepsLeft(phases[1..])
  }

  lemma {:induction false} StepsLeftDrops(phases: seq<Phase>, i: nat, next: Phase)
    requires i < |phases|
    requires (phases[i].RemovingTarget? && !next.RemovingTarget?) ||
      (phases[i].RenamingBackup? && (next.Restored? || next.Rejected?))
    ensures StepsLeft(phases[i := next]) < StepsLeft(phases)
  {
    if i > 0 {
      assert phases[i := next][1..] == phases[1..][i - 1 := next];
      StepsLeftDrops(phases[1..], i - 1, next);
    } else {
      assert phases[i := next][1..] == phases[1..];
    }
  }

  ghost predicate PhaseOk(files: Files, before: Files, u: Update, phase: Phase) {
    && u.path in before
    && match phase
       case RemovingTarget => Holds(files, u.backup, before[u.path])
       case RenamingBackup => Holds(files, u.backup, before[u.path]) && u.path !in files
       case Restored => Holds(files, u.path, before[u.path]) && u.backup !in files
       case Rejected => Holds(files, u.backup, before[u.path])
  }

  /** The first `|phases|` updates are being rolled back; the others still have their old text. */
  ghost predicate RollbackOk(files: Files, before: Files, us: seq<Update>, phases: seq<Phase>) {
    && |phases| <= |us|
    && (forall i | 0 <= i < |phases| :: PhaseOk(files, before, us[i], phases[i]))
    && (forall i | |phases| <= i < |us| :: SameAt(files, before, us[i].path))
  }

  lemma RollbackKeepsOldTexts(files: Files, before: Files, us: seq<Update>, phases: seq<Phase>)
    requires RollbackOk(files, before, us, phases)
    ensures AllOldTextsSafe(files, before, us)
  {
    forall i | 0 <= i < |us| ensures OldTextSafe(files, before, us[i]) {
      if i < |phases| {
        assert PhaseOk(files, before, us[i], phases[i]);
      } else {
        assert SameAt(files, before, us[i].path);
      }
    }
  }

  /** A change to the target and backup of one update does not disturb the others. */
  lemma RollbackStep(files: Files, next: Files, before: Files, us: seq<Update>, phases: seq<Phase>, i: nat,
      phase: Phase)
    requires Disjoint(us) && RollbackOk(files, before, us, phases) && i < |phases|
    requires SameExcept(next, files, {us[i].path, us[i].backup})
    requires PhaseOk(next, before, us[i], phase)
    ensures RollbackOk(next, before, us, phases[i := phase])
  {
    var phases' := phases[i := phase];
    forall k | 0 <= k < |phases| ensures PhaseOk(next, before, us[k], phases'[k]) {
      if k != i {
        assert PhaseOk(files, before, us[k], phases[k]);
        assert us[k].path != us[i].path && us[k].backup != us[i].backup;
        assert SameAt(next, files, us[k].path) && SameAt(next, files, us[k].backup);
      }
    }
    forall k | |phases| <= k < |us| ensures SameAt(next, before, us[k].path) {
      assert SameAt(files, before, us[k].path);
      assert SameAt(next, files, us[k].path);
    }
  }

  /** The next command of one rollback. */
  method RollbackCommand(fs: FileSystem, u: Update, phase: Phase, ghost before: Files) returns (next: Phase)
    requires fs.Valid() && u.path != u.backup && (phase.RemovingTarget? || phase.RenamingBackup?)
    requires PhaseOk(fs.files, before, u, phase)
    modifies fs
    ensures PhaseOk(fs.files, before, u, next)
    ensures next.Rejected? || next == if phase.RemovingTarget? then RenamingBackup else Restored
    ensures SameExcept(fs.files, old(fs.files), {u.path, u.backup})
    ensures fs.faults == old(fs.faults) + if next.Rejected? then 1 else 0
    ensures fs.Valid() && fs.history == old(fs.history) + [fs.files]
  {
    if phase.RemovingTarget? {
      var ok := fs.Remove(u.path);
      return if ok then RenamingBackup else Rejected;
    } else {
      var ok := fs.Rename(u.backup, u.path);
      return if ok then Restored else Rejected;
    }
  }

  /** The updates from `n` on have no backup. */
  ghost predicate Unbacked(files: Files, us: seq<Update>, n: nat) {
    forall i | n <= i < |us| :: us[i].backup !in files
  }

  /** Some old text can be found in its backup. */
  ghost predicate OldTextBackedUp(files: Files, before: Files, us: seq<Update>) {
    exists i | 0 <= i < |us| :: us[i].path in before && Holds(files, us[i].backup, before[us[i].path])
  }

  lemma UnbackedStays(files: Files, next: Files, us: seq<Update>, n: nat, i: nat)
    requires Disjoint(us) && i < n <= |us| && Unbacked(files, us, n)
    requires SameExcept(next, files, {us[i].path, us[i].backup})
    ensures Unbacked(next, us, n)
  {
    forall k | n <= k < |us| ensures us[k].backup !in next {
      assert us[k].backup != us[i].backup && us[k].backup != us[i].path;
      assert SameAt(next, files, us[k].backup);
    }
  }

  ghost function Rejections(phases: seq<Phase>): set<nat> {
    set i: nat | i < |phases| && phases[i].Rejected?
  }

  lemma NoRejections(n: nat)
    ensures Rejections(seq(n, i => RemovingTarget)) == {}
  {
  }

  lemma RejectionsAfter(phases: seq<Phase>, i: nat, next: Phase)
    requires i < |phases| && !phases[i].Rejected?
    ensures |Rejections(phases[i := next])| == |Rejections(phases)| + if next.Rejected? then 1 else 0
  {
    var now := Rejections(phases[i := next]);
    assert i !in Rejections(phases);
    if next.Rejected? {
      assert now == Rejections(phases) + {i};
    } else {
      assert now == Rejections(phases);
    }
  }

  lemma RejectedLeft(files: Files, before: Files, us: seq<Update>, phases: seq<Phase>)
    requires RollbackOk(files, before, us, phases) && Unbacked(files, us, |phases|)
    requires forall i | 0 <= i < |phases| :: phases[i].Restored? || phases[i].Rejected?
    ensures Left(files, BackupNames(us)) <= |Rejections(phases)|
  {
    var backups := set i | i in Rejections(phases) :: us[i].backup;
    ImageIsSmaller(us, Rejections(phases));
    forall i | 0 <= i < |us| && us[i].backup in files ensures us[i].backup in backups {
      if i < |phases| {
        assert PhaseOk(files, before, us[i], phases[i]);
      }
    }
    SubsetIsSmaller(files.Keys * BackupNames(us), backups);
  }

  /** Once every rollback has come to its end, the backups that stay are those of the rejected ones. */
  lemma RejectedStay(files: Files, before: Files, us: seq<Update>, phases: seq<Phase>)
    requires RollbackOk(files, before, us, phases) && Unbacked(files, us, |phases|)
    requires forall i | 0 <= i < |phases| :: phases[i].Restored? || phases[i].Rejected?
    ensures Left(files, BackupNames(us)) <= |Rejections(phases)|
    ensures if Rejected in phases then
              OldTextBackedUp(files, before, us)
            else
              Unbacked(files, us, 0) && TargetsKept(files, before, us)
  {
    RejectedLeft(files, before, us, phases);
    hide Left, BackupNames, Rejections;
    forall i | 0 <= i < |phases| ensures PhaseOk(files, before, us[i], phases[i]) {
    }
    if Rejected in phases {
      var i :| 0 <= i < |phases| && phases[i] == Rejected;
      assert us[i].path in before && Holds(files, us[i].backup, before[us[i].path]);
    }
  }

  lemma ImageIsSmaller(us: seq<Update>, indices: set<nat>)
    requires forall i | i in indices :: i < |us|
    ensures |set i | i in indices :: us[i].backup| <= |indices|
    decreases |indices|
  {
    if indices != {} {
      var k :| k in indices;
      ImageIsSmaller(us, indices - {k});
      var rest := set i | i in indices - {k} :: us[i].backup;
      assert (set i | i in indices :: us[i].backup) == rest + {us[k].backup};
    }
  }

  /** Rolls back the first `n` updates, in any interleaving of their commands. */
  method Rollback(fs: FileSystem, us: seq<Update>, n: nat, ghost before: Files, ghost from: nat)
    returns (complete: bool)
    requires fs.Valid() && Disjoint(us) && n <= |us| && from <= |fs.history|
    requires RollbackOk(fs.files, before, us, seq(n, i => RemovingTarget))
    requires OldTextsSafeSince(fs.history, from, before, us)
    requires Unbacked(fs.files, us, n)
    modifies fs
    ensures AllOldTextsSafe(fs.files, before, us)
    ensures complete ==> TargetsKept(fs.files, before, us) && Unbacked(fs.files, us, 0)
    ensures !complete ==> OldTextBackedUp(fs.files, before, us)
    ensures old(fs.faults) + Left(fs.files, BackupNames(us)) <= fs.faults
    ensures SameExcept(fs.files, old(fs.files), Targets(us) + BackupNames(us)) && fs.faults >= old(fs.faults)
    ensures fs.Valid() && old(fs.history) <= fs.history
    ensures OldTextsSafeSince(fs.history, from, before, us)
  {
    hide StagedNames, Targets, BackupNames, Logged, Left, Unbacked, OldTextBackedUp, Rejections, AllOldTextsSafe,
         PhaseOk, TargetsKept;
    var phases := seq(n, i => RemovingTarget);
    RollbackKeepsOldTexts(fs.files, before, us, phases);
    NoRejections(n);
    while exists i :: 0 <= i < n && (phases[i].RemovingTarget? || phases[i].RenamingBackup?)
      invariant |phases| == n && RollbackOk(fs.files, before, us, phases)
      invariant SameExcept(fs.files, old(fs.files), Targets(us) + BackupNames(us)) && fs.faults >= old(fs.faults)
      invariant fs.Valid() && old(fs.history) <= fs.history
      invariant OldTextsSafeSince(fs.history, from, before, us)
      invariant AllOldTextsSafe(fs.files, before, us)
      invariant Unbacked(fs.files, us, n) && fs.faults == old(fs.faults) + |Rejections(phases)|
      decreases StepsLeft(phases)
    {
      var i :| 0 <= i < n && (phases[i].RemovingTarget? || phases[i].RenamingBackup?);
      ghost var files := fs.files;
      assert PhaseOk(files, before, us[i], phases[i]);
      var next := RollbackCommand(fs, us[i], phases[i], before);
      NamesApart(us, i);
      SameExceptTwice(fs.files, files, old(fs.files), Targets(us) + BackupNames(us));
      StepsLeftDrops(phases, i, next);
      RejectionsAfter(phases, i, next);
      UnbackedStays(files, fs.files, us, n, i);
      RollbackStep(files, fs.files, before, us, phases, i, next);
      phases := phases[i := next];
      RollbackKeepsOldTexts(fs.files, before, us, phases);
    }
    complete := forall i | 0 <= i < n :: phases[i] != Rejected;
    RejectedStay(fs.files, before, us, phases);
  }

  // ---- Committing --------------------------------------------------------------------------------

  /** The first `n` targets hold their new text, the others their old one and a staged new one. */
  ghost predicate CommittedUpTo(files: Files, before: Files, us: seq<Update>, n: nat) {
    && n <= |us|
    && (forall i | 0 <= i < |us| :: us[i].path in before)
    && (forall i | 0 <= i < n ::
          Holds(files, us[i].path, us[i].updated) && Holds(files, us[i].backup, before[us[i].path]))
    && (forall i | n <= i < |us| ::
          SameAt(files, before, us[i].path) && Holds(files, us[i].staged, us[i].updated))
  }

  lemma CommittedKeepsOldTexts(files: Files, before: Files, us: seq<Update>, n: nat)
    requires CommittedUpTo(files, before, us, n)
    ensures AllOldTextsSafe(files, before, us)
  {
    forall i | 0 <= i < |us| ensures OldTextSafe(files, before, us[i]) {
    }
  }

  lemma BackedUp(files: Files, next: Files, before: Files, us: seq<Update>, n: nat)
    requires Disjoint(us) && n < |us| && CommittedUpTo(files, before, us, n)
    requires us[n].path in files && next == (files - {us[n].path})[us[n].backup := files[us[n].path]]
    ensures RollbackOk(next, before, us, seq(n + 1, i => RemovingTarget))
    ensures AllOldTextsSafe(next, before, us)
    ensures us[n].path !in next && Holds(next, us[n].staged, us[n].updated)
  {
    var phases := seq(n + 1, i => RemovingTarget);
    forall i | 0 <= i < n + 1 ensures PhaseOk(next, before, us[i], phases[i]) {
    }
    forall i | n < i < |us| ensures SameAt(next, before, us[i].path) {
      assert us[i].path != us[n].path && us[i].path != us[n].backup;
      assert SameAt(files, before, us[i].path);
    }
    RollbackKeepsOldTexts(next, before, us, phases);
    assert us[n].staged != us[n].path && us[n].staged != us[n].backup;
  }

  lemma CommittedOne(files: Files, backed: Files, next: Files, before: Files, us: seq<Update>, n: nat)
    requires Disjoint(us) && n < |us| && CommittedUpTo(files, before, us, n)
    requires us[n].path in files && backed == (files - {us[n].path})[us[n].backup := files[us[n].path]]
    requires us[n].staged in backed && next == (backed - {us[n].staged})[us[n].path := backed[us[n].staged]]
    ensures CommittedUpTo(next, before, us, n + 1)
  {
    forall i | 0 <= i < |us| && i != n
      ensures SameAt(next, files, us[i].path) && SameAt(next, files, us[i].backup) && SameAt(next, files, us[i].staged)
    {
    }
  }

  /** The first `n` updates have left no staged file, and the others have no backup. */
  ghost predicate TidyUpTo(files: Files, us: seq<Update>, n: nat) {
    (forall i | 0 <= i < n && i < |us| :: us[i].staged !in files) && Unbacked(files, us, n)
  }

  lemma TidyOne(files: Files, backed: Files, next: Files, us: seq<Update>, n: nat)
    requires Disjoint(us) && n < |us| && TidyUpTo(files, us, n)
    requires us[n].path in files && backed == (files - {us[n].path})[us[n].backup := files[us[n].path]]
    requires us[n].staged in backed && next == (backed - {us[n].staged})[us[n].path := backed[us[n].staged]]
    ensures TidyUpTo(next, us, n + 1)
  {
  }

  lemma TidyBackup(files: Files, backed: Files, us: seq<Update>, n: nat)
    requires Disjoint(us) && n < |us| && TidyUpTo(files, us, n)
    requires us[n].path in files && backed == (files - {us[n].path})[us[n].backup := files[us[n].path]]
    ensures Unbacked(backed, us, n + 1)
  {
  }

  /** One round of the swap. On failure the first `undo` updates have to be rolled back. */
  method CommitOne(fs: FileSystem, us: seq<Update>, n: nat, ghost before: Files, ghost from: nat)
    returns (committed: bool, undo: nat)
    requires Disjoint(us) && n < |us| && CommittedUpTo(fs.files, before, us, n) && OthersKept(fs.files, before, us)
    requires fs.Valid() && from <= |fs.history| && OldTextsSafeSince(fs.history, from, before, us)
    requires TidyUpTo(fs.files, us, n)
    modifies fs
    ensures committed ==> CommittedUpTo(fs.files, before, us, n + 1) && TidyUpTo(fs.files, us, n + 1)
    ensures !committed ==> Unbacked(fs.files, us, undo)
    ensures if committed then fs.faults == old(fs.faults) else fs.faults > old(fs.faults)
    ensures !committed ==> undo <= |us| && RollbackOk(fs.files, before, us, seq(undo, i => RemovingTarget))
    ensures OthersKept(fs.files, before, us)
    ensures fs.Valid() && old(fs.history) <= fs.history
    ensures OldTextsSafeSince(fs.history, from, before, us)
  {
    hide StagedNames, Targets, BackupNames, Logged, Unbacked;
    NamesApart(us, n);
    CommittedKeepsOldTexts(fs.files, before, us, n);
    ghost var files := fs.files;
    ghost var names := Targets(us) + StagedNames(us) + BackupNames(us);
    var backedUp := fs.Rename(us[n].path, us[n].backup);
    if !backedUp {
      forall i | 0 <= i < n ensures PhaseOk(fs.files, before, us[i], RemovingTarget) {
      }
      return false, n;
    }
    ghost var backed := fs.files;
    BackedUp(files, backed, before, us, n);
    TidyBackup(files, backed, us, n);
    SameExceptTwice(backed, files, before, names);
    committed := fs.Rename(us[n].staged, us[n].path);
    undo := n + 1;
    if committed {
      CommittedOne(files, backed, fs.files, before, us, n);
      TidyOne(files, backed, fs.files, us, n);
      CommittedKeepsOldTexts(fs.files, before, us, n + 1);
      SameExceptTwice(fs.files, backed, before, names);
    }
  }

  /** The swap itself, with its rollback. */
  method CommitAll(fs: FileSystem, us: seq<Update>, ghost from: nat) returns (r: Outcome)
    requires Disjoint(us) && CommittedUpTo(fs.files, fs.files, us, 0)
    requires fs.Valid() && from <= |fs.history| && OldTextsSafeSince(fs.history, from, fs.files, us)
    requires TidyUpTo(fs.files, us, 0)
    modifies fs
    ensures r.Replaced? ==> CommittedUpTo(fs.files, old(fs.files), us, |us|) && TidyUpTo(fs.files, us, |us|)
    ensures r.Failed? ==> TargetsKept(fs.files, old(fs.files), us) && r.failure == CommitFailed
    ensures r.Failed? ==> Unbacked(fs.files, us, 0)
    ensures r.RollbackIncomplete? ==> OldTextBackedUp(fs.files, old(fs.files), us)
    ensures !r.Replaced? ==>
      old(fs.faults) + 1 + Left(fs.files, StagedNames(us)) + Left(fs.files, BackupNames(us)) <= fs.faults
    ensures if r.Replaced? then fs.faults == old(fs.faults) else fs.faults > old(fs.faults)
    ensures AllOldTextsSafe(fs.files, old(fs.files), us) && OthersKept(fs.files, old(fs.files), us)
    ensures fs.Valid() && old(fs.history) <= fs.history
    ensures OldTextsSafeSince(fs.history, from, old(fs.files), us)
  {
    hide TidyUpTo, Unbacked, OldTextBackedUp, Left;
    ghost var before := fs.files;
    for n := 0 to |us|
      invariant CommittedUpTo(fs.files, before, us, n) && OthersKept(fs.files, before, us)
      invariant TidyUpTo(fs.files, us, n)
      invariant fs.faults == old(fs.faults)
      invariant fs.Valid() && old(fs.history) <= fs.history
      invariant OldTextsSafeSince(fs.history, from, before, us)
    {
      var committed, undo := CommitOne(fs, us, n, before, from);
      if !committed {
        r := Undo(fs, us, undo, before, from);
        return;
      }
    }
    CommittedKeepsOldTexts(fs.files, before, us, |us|);
    return Outcome.Replaced;
  }

  /** The failure path of the swap: roll back, then drop the staged files. */
  method Undo(fs: FileSystem, us: seq<Update>, n: nat, ghost before: Files, ghost from: nat) returns (r: Outcome)
    requires fs.Valid() && Disjoint(us) && n <= |us| && from <= |fs.history|
    requires RollbackOk(fs.files, before, us, seq(n, i => RemovingTarget))
    requires OldTextsSafeSince(fs.history, from, before, us) && OthersKept(fs.files, before, us)
    requires Unbacked(fs.files, us, n)
    modifies fs
    ensures (r == Failed(CommitFailed) || r == RollbackIncomplete) && fs.faults >= old(fs.faults)
    ensures r.Failed? ==> TargetsKept(fs.files, before, us) && Unbacked(fs.files, us, 0)
    ensures r.RollbackIncomplete? ==> OldTextBackedUp(fs.files, before, us)
    ensures old(fs.faults) + Left(fs.files, StagedNames(us)) + Left(fs.files, BackupNames(us)) <= fs.faults
    ensures AllOldTextsSafe(fs.files, before, us) && OthersKept(fs.files, before, us)
    ensures fs.Valid() && old(fs.history) <= fs.history
    ensures OldTextsSafeSince(fs.history, from, before, us)
  {
    hide StagedNames, Targets, BackupNames, Logged, Left, Unbacked, OldTextBackedUp;
    var complete := Rollback(fs, us, n, before, from);
    ghost var rolledBack := fs.files;
    RemoveStaged(fs, us, |us|, before, from);
    StagingIsSafe(rolledBack, fs.files, before, us);
    assert us[..|us|] == us;
    SameBackups(fs.files, rolledBack, before, us);
    forall i | 0 <= i < |us| ensures SameAt(fs.files, rolledBack, us[i].path) {
      NamesApart(us, i);
    }
    ghost var names := Targets(us) + StagedNames(us) + BackupNames(us);
    SameExceptTwice(rolledBack, old(fs.files), before, names);
    SameExceptTwice(fs.files, rolledBack, before, names);
    return if complete then Failed(CommitFailed) else RollbackIncomplete;
  }

  /** Removing staged files leaves the backups as they are. */
  lemma SameBackups(files: Files, next: Files, before: Files, us: seq<Update>)
    requires Disjoint(us) && SameExcept(files, next, StagedNames(us))
    ensures Left(files, BackupNames(us)) <= Left(next, BackupNames(us))
    ensures Unbacked(next, us, 0) ==> Unbacked(files, us, 0)
    ensures OldTextBackedUp(next, before, us) ==> OldTextBackedUp(files, before, us)
  {
    forall i | 0 <= i < |us| ensures SameAt(files, next, us[i].backup) {
      NamesApart(us, i);
    }
    LeftFewer(files, next, BackupNames(us));
    if OldTextBackedUp(next, before, us) {
      var i :| 0 <= i < |us| && us[i].path in before && Holds(next, us[i].backup, before[us[i].path]);
      assert Holds(files, us[i].backup, before[us[i].path]);
    }
  }

  lemma NoBackupNames(files: Files, us: seq<Update>)
    ensures Left(files, BackupNames(us[..0])) == 0
  {
    assert us[..0] == [];
    NothingLeft(files, BackupNames(us[..0]));
  }

  lemma BackupStep(files: Files, next: Files, before: Files, us: seq<Update>, i: nat)
    requires Disjoint(us) && i < |us| && AllNew(files, us) && OthersKept(files, before, us)
    requires next == files || next == files - {us[i].backup}
    ensures AllNew(next, us) && OthersKept(next, before, us)
    ensures Left(next, BackupNames(us[..i + 1])) <=
      Left(files, BackupNames(us[..i])) + if us[i].backup in next then 1 else 0
  {
    hide Left;
    OneMoreBackup(us, i);
    LeftMore(next, BackupNames(us[..i]), us[i].backup);
    LeftFewer(next, files, BackupNames(us[..i]));
    forall p | p !in Targets(us) + StagedNames(us) + BackupNames(us) ensures SameAt(next, before, p) {
      assert SameAt(files, before, p);
    }
  }

  /** Best-effort removal of the backups: one stays only if its removal fails. */
  method RemoveBackups(fs: FileSystem, us: seq<Update>, ghost before: Files, ghost from: nat)
    requires Disjoint(us) && AllNew(fs.files, us) && OthersKept(fs.files, before, us)
    requires fs.Valid() && from <= |fs.history| && NeverTorn(fs.history, from, before, us)
    modifies fs
    ensures AllNew(fs.files, us) && OthersKept(fs.files, before, us)
    ensures old(fs.faults) + Left(fs.files, BackupNames(us)) <= fs.faults
    ensures Left(fs.files, StagedNames(us)) <= Left(old(fs.files), StagedNames(us))
    ensures fs.Valid() && old(fs.history) <= fs.history
    ensures NeverTorn(fs.history, from, before, us)
  {
    hide AllNew, OthersKept, BackupNames, StagedNames, Left, Disjoint, Logged, AllOldTextsSafe;
    NoBackupNames(fs.files, us);
    for i := 0 to |us|
      invariant AllNew(fs.files, us) && OthersKept(fs.files, before, us)
      invariant old(fs.faults) + Left(fs.files, BackupNames(us[..i])) <= fs.faults
      invariant fs.files.Keys <= old(fs.files).Keys
      invariant fs.Valid() && old(fs.history) <= fs.history
      invariant NeverTorn(fs.history, from, before, us)
    {
      ghost var files := fs.files;
      var _ := fs.Remove(us[i].backup);
      BackupStep(files, fs.files, before, us, i);
    }
    assert us[..|us|] == us;
    LeftFewer(fs.files, old(fs.files), StagedNames(us));
  }

  // ---- The whole transaction ---------------------------------------------------------------------

  function FailedCommands(r: Outcome): nat {
    match r
    case Replaced => 0
    case Failed(failure) => FailedCommand(failure)
    case RollbackIncomplete => 1
  }

  method ReplaceWorkspaceFiles(fs: FileSystem, us: seq<Update>) returns (r: Outcome)
    requires fs.Valid() && Disjoint(us) && Unused(fs.files, us)
    modifies fs
    // All or nothing: a normal return means that every target changed from the text that was read to its new text.
    ensures r.Replaced? ==> forall i | 0 <= i < |us| ::
      Holds(old(fs.files), us[i].path, us[i].content) && Holds(fs.files, us[i].path, us[i].updated)
    ensures r.Failed? ==> TargetsKept(fs.files, old(fs.files), us)
    // It happens unless a command fails or a file changed since its text was read.
    ensures !r.Replaced? && fs.faults == old(fs.faults) ==>
      r == Failed(ChangedWhileStaged) && exists i | 0 <= i < |us| :: !Holds(old(fs.files), us[i].path, us[i].content)
    // Even an incomplete rollback loses no old text.
    ensures r.RollbackIncomplete? ==> AllOldTextsSafe(fs.files, old(fs.files), us)
    // It is reported only if some old text is in its backup still.
    ensures r.RollbackIncomplete? ==> OldTextBackedUp(fs.files, old(fs.files), us)
    ensures r.Failed? ==> Unbacked(fs.files, us, 0)
    // Every staged file and backup that stays is due to a command of its own that failed while cleaning up.
    ensures old(fs.faults) + FailedCommands(r) + Left(fs.files, StagedNames(us) + BackupNames(us)) <= fs.faults
    ensures OthersKept(fs.files, old(fs.files), us)
    ensures fs.Valid() && old(fs.history) <= fs.history
    ensures NeverTorn(fs.history, |old(fs.history)|, old(fs.files), us)
  {
    hide Targets, StagedNames, BackupNames, Logged, Left, Disjoint, Unused, AllOldTextsSafe, AllNew, NeverTorn,
         Unbacked, OldTextsSafeSince, OldTextBackedUp, TidyUpTo, TargetsKept, OthersKept, SameExcept, CommittedUpTo;
    ghost var from := |fs.history|;
    ghost var before := fs.files;
    var failure := StageAll(fs, us);
    ghost var staged := fs.files;
    AfterStaging(staged, before, us);
    SafeIsNotTorn(fs.history, from, before, us);
    if failure.Some? {
      LeftSum(staged, StagedNames(us), BackupNames(us));
      return Failed(failure.value);
    }
    ReadyToCommit(staged, before, us);
    SafetyFromStaged(fs.history, from, before, staged, us);
    r := CommitAll(fs, us, from);
    SafetyFromStaged(fs.history, from, staged, before, us);
    SafeIsNotTorn(fs.history, from, before, us);
    AfterCommit(fs.files, staged, before, us);
    if r.Replaced? {
      AllCommitted(fs.files, staged, us);
      RemoveBackups(fs, us, before, from);
      NewTextsHeld(fs.files, us);
    }
    LeftSum(fs.files, StagedNames(us), BackupNames(us));
  }

  lemma SafeIsNotTorn(history: seq<Files>, from: nat, before: Files, us: seq<Update>)
    requires OldTextsSafeSince(history, from, before, us)
    ensures NeverTorn(history, from, before, us)
  {
  }

  /** Staging touches no target, no backup and no other file. */
  lemma AfterStaging(files: Files, before: Files, us: seq<Update>)
    requires Disjoint(us) && Unused(before, us) && SameExcept(files, before, StagedNames(us))
    ensures TargetsKept(files, before, us) && OthersKept(files, before, us)
    ensures Unbacked(files, us, 0) && Left(files, BackupNames(us)) == 0
  {
    forall i | 0 <= i < |us| ensures SameAt(files, before, us[i].path) && SameAt(files, before, us[i].backup) {
      NamesApart(us, i);
    }
    NothingLeft(files, BackupNames(us));
  }

  lemma ReadyToCommit(files: Files, before: Files, us: seq<Update>)
    requires TargetsKept(files, before, us) && Unbacked(files, us, 0)
    requires forall i | 0 <= i < |us| ::
      Holds(files, us[i].staged, us[i].updated) && Holds(files, us[i].path, us[i].content)
    ensures CommittedUpTo(files, files, us, 0) && TidyUpTo(files, us, 0)
    ensures forall i | 0 <= i < |us| :: us[i].path in files && SameAt(files, before, us[i].path)
    ensures forall i | 0 <= i < |us| :: Holds(before, us[i].path, us[i].content)
  {
  }

  /** What was so in comparison with the files after staging is so in comparison with those before. */
  lemma AfterCommit(files: Files, staged: Files, before: Files, us: seq<Update>)
    requires forall i | 0 <= i < |us| :: us[i].path in staged && SameAt(staged, before, us[i].path)
    requires OthersKept(files, staged, us) && OthersKept(staged, before, us) && AllOldTextsSafe(files, staged, us)
    ensures OthersKept(files, before, us) && AllOldTextsSafe(files, before, us)
    ensures TargetsKept(files, staged, us) ==> TargetsKept(files, before, us)
    ensures OldTextBackedUp(files, staged, us) ==> OldTextBackedUp(files, before, us)
  {
    SameExceptTwice(files, staged, before, Targets(us) + StagedNames(us) + BackupNames(us));
    forall i | 0 <= i < |us| ensures OldTextSafe(files, before, us[i]) {
      assert OldTextSafe(files, staged, us[i]);
    }
  }

  lemma AllCommitted(files: Files, staged: Files, us: seq<Update>)
    requires CommittedUpTo(files, staged, us, |us|) && TidyUpTo(files, us, |us|)
    ensures AllNew(files, us) && Left(files, StagedNames(us)) == 0
  {
    NothingLeft(files, StagedNames(us));
  }

  lemma NewTextsHeld(files: Files, us: seq<Update>)
    requires AllNew(files, us)
    ensures forall i | 0 <= i < |us| :: Holds(files, us[i].path, us[i].updated)
  {
  }

  /** Old texts mean the same before and after staging. */
  lemma SafetyFromStaged(history: seq<Files>, from: nat, before: Files, staged: Files, us: seq<Update>)
    requires OldTextsSafeSince(history, from, before, us)
    requires forall i | 0 <= i < |us| :: us[i].path in staged && SameAt(staged, before, us[i].path)
    ensures OldTextsSafeSince(history, from, staged, us)
  {
    forall k | from <= k < |history| ensures AllOldTextsSafe(history[k], staged, us) {
      forall i | 0 <= i < |us| ensures OldTextSafe(history[k], staged, us[i]) {
        assert OldTextSafe(history[k], before, us[i]);
      }
    }
  }

  datatype FileEdits = FileEdits(path: Path, edits: seq<TextEdit>, staged: Path, backup: Path)

  ghost predicate FreshNames(files: Files, fs: seq<FileEdits>) {
    && (forall i, j | 0 <= i < |fs| && 0 <= j < |fs| ::
          fs[i].path != fs[j].staged && fs[i].path != fs[j].backup && fs[i].staged != fs[j].backup)
    && (forall i, j | 0 <= i < j < |fs| :: fs[i].staged != fs[j].staged && fs[i].backup != fs[j].backup)
    && (forall i | 0 <= i < |fs| :: fs[i].staged !in files && fs[i].backup !in files)
  }

  predicate DistinctTargets(targets: seq<FileEdits>) {
    forall i, j | 0 <= i < j < |targets| :: targets[i].path != targets[j].path
  }

  ghost predicate IsNameOf(fs: seq<FileEdits>, p: Path) {
    exists i | 0 <= i < |fs| :: p == fs[i].path || p == fs[i].staged || p == fs[i].backup
  }

  /** The number of different paths is compared with the number of paths. */
  method AllDistinct(targets: seq<FileEdits>) returns (r: bool)
    ensures r <==> DistinctTargets(targets)
  {
    var paths := seq(|targets|, i requires 0 <= i < |targets| => targets[i].path);
    DistinctPaths(paths);
    NoDuplicatesMeaning(paths);
    forall i, j | 0 <= i < j < |targets| ensures paths[i] == targets[i].path && paths[j] == targets[j].path {
    }
    if DistinctTargets(targets) {
      assert forall i, j | 0 <= i < j < |paths| :: paths[i] != paths[j];
    } else {
      var i, j :| 0 <= i < j < |targets| && targets[i].path == targets[j].path;
      assert paths[i] == paths[j];
    }
    r := |set p | p in paths| == |targets|;
  }

  /** The texts of all files, unless one cannot be read. */
  method ReadAll(fs: FileSystem, targets: seq<FileEdits>) returns (r: Option<seq<string>>)
    modifies fs`faults
    ensures if r.Some? then fs.faults == old(fs.faults) else fs.faults > old(fs.faults)
    ensures r.Some? ==> |r.value| == |targets|
    ensures r.Some? ==> forall i | 0 <= i < |targets| :: Holds(fs.files, targets[i].path, r.value[i])
  {
    var contents: seq<string> := [];
    for i := 0 to |targets|
      invariant fs.faults == old(fs.faults)
      invariant |contents| == i && forall k | 0 <= k < i :: Holds(fs.files, targets[k].path, contents[k])
    {
      var text := fs.Read(targets[i].path);
      if text.None? {
        return None;
      }
      contents := contents + [text.value];
    }
    return Some(contents);
  }

  ghost predicate IsUpdateFor(u: Update, f: FileEdits, content: string) {
    && u.path == f.path && u.content == content && u.staged == f.staged && u.backup == f.backup
    && EditedText(content, f.edits) == Ok(u.updated)
  }

  method PrepareUpdates(targets: seq<FileEdits>, contents: seq<string>) returns (r: Result<seq<Update>, EditError>)
    requires |contents| == |targets|
    ensures r.Ok? ==> |r.value| == |targets|
    ensures r.Ok? ==> forall i | 0 <= i < |targets| :: IsUpdateFor(r.value[i], targets[i], contents[i])
    ensures r.Err? ==> exists i | 0 <= i < |targets| :: EditedText(contents[i], targets[i].edits) == Err(r.error)
  {
    var updates: seq<Update> := [];
    for i := 0 to |targets|
      invariant |updates| == i && forall k | 0 <= k < i :: IsUpdateFor(updates[k], targets[k], contents[k])
    {
      var f := targets[i];
      var edited := ApplyTextEdits(contents[i], f.edits);
      if edited.Err? {
        return Err(edited.error);
      }
      updates := updates + [Update(f.path, contents[i], edited.value, f.staged, f.backup)];
    }
    return Ok(updates);
  }

  /** The file at the path of `f` went from its old text to that text with all edits done. */
  ghost predicate Edited(files: Files, before: Files, f: FileEdits) {
    f.path in before && f.path in files && EditedText(before[f.path], f.edits) == Ok(files[f.path])
  }

  ghost predicate OldTextFound(files: Files, before: Files, f: FileEdits) {
    f.path in before ==> Holds(files, f.path, before[f.path]) || Holds(files, f.backup, before[f.path])
  }

  /** At every moment from `from` on, all old texts can be found or all edits are done. */
  ghost predicate NeverHalfEdited(history: seq<Files>, from: nat, before: Files, targets: seq<FileEdits>) {
    forall k | from <= k < |history| ::
      || (forall i | 0 <= i < |targets| :: OldTextFound(history[k], before, targets[i]))
      || (forall i | 0 <= i < |targets| :: Edited(history[k], before, targets[i]))
  }

  ghost function TemporaryNames(targets: seq<FileEdits>): set<Path> {
    (set i | 0 <= i < |targets| :: targets[i].staged) + (set i | 0 <= i < |targets| :: targets[i].backup)
  }

  lemma NoTemporaryFiles(files: Files, targets: seq<FileEdits>)
    requires FreshNames(files, targets)
    ensures Left(files, TemporaryNames(targets)) == 0
  {
    NothingLeft(files, TemporaryNames(targets));
  }

  lemma SameTemporaryNames(targets: seq<FileEdits>, contents: seq<string>, us: seq<Update>)
    requires |us| == |targets| == |contents|
    requires forall i | 0 <= i < |targets| :: IsUpdateFor(us[i], targets[i], contents[i])
    ensures TemporaryNames(targets) == StagedNames(us) + BackupNames(us)
  {
    hide EditedText;
    forall i | 0 <= i < |targets| ensures us[i].staged == targets[i].staged && us[i].backup == targets[i].backup {
      assert IsUpdateFor(us[i], targets[i], contents[i]);
    }
  }

  lemma NothingHappened(history: seq<Files>, files: Files, targets: seq<FileEdits>)
    ensures NeverHalfEdited(history, |history|, files, targets)
    ensures forall p :: SameAt(files, files, p)
  {
  }

  /** Edits several files at once: each file ends with all its edits done, or every file stays as it was. */
  method ApplyWorkspaceEdit(fs: FileSystem, targets: seq<FileEdits>) returns (r: Outcome)
    requires fs.Valid() && FreshNames(fs.files, targets)
    modifies fs
    ensures r.Replaced? ==> DistinctTargets(targets)
    ensures r.Replaced? ==> forall i | 0 <= i < |targets| :: Edited(fs.files, old(fs.files), targets[i])
    ensures r.Failed? ==> forall i | 0 <= i < |targets| :: SameAt(fs.files, old(fs.files), targets[i].path)
    ensures !r.Replaced? && fs.faults == old(fs.faults) ==>
      || (r == Failed(DuplicateTargets) && !DistinctTargets(targets))
      || (r.Failed? && r.failure.BadEdits? && exists i | 0 <= i < |targets| && targets[i].path in old(fs.files) ::
            EditedText(old(fs.files)[targets[i].path], targets[i].edits) == Err(r.failure.error))
    ensures r.RollbackIncomplete? ==> forall i | 0 <= i < |targets| :: OldTextFound(fs.files, old(fs.files), targets[i])
    ensures r.RollbackIncomplete? ==> exists i | 0 <= i < |targets| ::
      targets[i].path in old(fs.files) && Holds(fs.files, targets[i].backup, old(fs.files)[targets[i].path])
    ensures old(fs.faults) + FailedCommands(r) + Left(fs.files, TemporaryNames(targets)) <= fs.faults
    ensures forall p | !IsNameOf(targets, p) :: SameAt(fs.files, old(fs.files), p)
    ensures fs.Valid() && old(fs.history) <= fs.history
    ensures NeverHalfEdited(fs.history, |old(fs.history)|, old(fs.files), targets)
  {
    hide EditedText, NeverTorn, NeverHalfEdited, Logged, AllOldTextsSafe, Disjoint, Unused, OthersKept, OldTextBackedUp,
         Unbacked, Left, TemporaryNames, StagedNames, BackupNames, FreshNames, TargetsKept;
    var contents := ReadAll(fs, targets);
    NoTemporaryFiles(fs.files, targets);
    NothingHappened(fs.history, fs.files, targets);
    if contents.None? {
      return Failed(ReadFailed);
    }
    var distinct := AllDistinct(targets);
    if !distinct {
      return Failed(DuplicateTargets);
    }
    var updates := PrepareUpdates(targets, contents.value);
    if updates.Err? {
      assert forall i | 0 <= i < |targets| :: Holds(fs.files, targets[i].path, contents.value[i]);
      return Failed(BadEdits(updates.error));
    }
    UpdatesAreDisjoint(fs.files, targets, contents.value, updates.value);
    r := ReplaceWorkspaceFiles(fs, updates.value);
    SameTemporaryNames(targets, contents.value, updates.value);
    UpdatesMeanEdits(fs.files, old(fs.files), targets, contents.value, updates.value);
    NeverTornMeansEdits(fs.history, |old(fs.history)|, old(fs.files), targets, contents.value, updates.value);
  }

  lemma UpdatesAreDisjoint(files: Files, targets: seq<FileEdits>, contents: seq<string>, us: seq<Update>)
    requires FreshNames(files, targets) && |us| == |targets| == |contents|
    requires DistinctTargets(targets)
    requires forall i | 0 <= i < |targets| :: IsUpdateFor(us[i], targets[i], contents[i])
    ensures Disjoint(us) && Unused(files, us)
  {
    hide EditedText;
    forall i | 0 <= i < |us|
      ensures us[i].path == targets[i].path && us[i].staged == targets[i].staged && us[i].backup == targets[i].backup
    {
      assert IsUpdateFor(us[i], targets[i], contents[i]);
    }
  }

  /** What the replacement says of the updates, said of the files and their edits. */
  lemma UpdatesMeanEdits(files: Files, before: Files, targets: seq<FileEdits>, contents: seq<string>, us: seq<Update>)
    requires |us| == |targets| == |contents|
    requires forall i | 0 <= i < |targets| :: IsUpdateFor(us[i], targets[i], contents[i])
    requires OthersKept(files, before, us)
    ensures (forall i | 0 <= i < |us| ::
               Holds(before, us[i].path, us[i].content) && Holds(files, us[i].path, us[i].updated)) ==>
      forall i | 0 <= i < |targets| :: Edited(files, before, targets[i])
    ensures TargetsKept(files, before, us) ==> forall i | 0 <= i < |targets| :: SameAt(files, before, targets[i].path)
    ensures AllOldTextsSafe(files, before, us) ==>
      forall i | 0 <= i < |targets| :: OldTextFound(files, before, targets[i])
    ensures forall p | !IsNameOf(targets, p) :: SameAt(files, before, p)
    ensures OldTextBackedUp(files, before, us) ==> exists i | 0 <= i < |targets| ::
      targets[i].path in before && Holds(files, targets[i].backup, before[targets[i].path])
  {
    hide EditedText;
    forall i | 0 <= i < |us|
      ensures us[i].path == targets[i].path && us[i].staged == targets[i].staged && us[i].backup == targets[i].backup
    {
      assert IsUpdateFor(us[i], targets[i], contents[i]);
    }
    forall i | 0 <= i < |targets|
      ensures Holds(before, us[i].path, us[i].content) && Holds(files, us[i].path, us[i].updated)
          ==> Edited(files, before, targets[i])
      ensures OldTextSafe(files, before, us[i]) ==> OldTextFound(files, before, targets[i])
    {
      assert IsUpdateFor(us[i], targets[i], contents[i]);
    }
    if OldTextBackedUp(files, before, us) {
      var i :| 0 <= i < |us| && us[i].path in before && Holds(files, us[i].backup, before[us[i].path]);
      assert targets[i].path in before && Holds(files, targets[i].backup, before[targets[i].path]);
    }
    forall p | !IsNameOf(targets, p) ensures SameAt(files, before, p) {
      assert p !in Targets(us) + StagedNames(us) + BackupNames(us);
    }
  }

  lemma NeverTornMeansEdits(
    history: seq<Files>, from: nat, before: Files, targets: seq<FileEdits>, contents: seq<string>, us: seq<Update>)
    requires |us| == |targets| == |contents| && NeverTorn(history, from, before, us)
    requires forall i | 0 <= i < |targets| ::
      IsUpdateFor(us[i], targets[i], contents[i]) && Holds(before, targets[i].path, contents[i])
    ensures NeverHalfEdited(history, from, before, targets)
  {
    hide EditedText;
    forall k, i | from <= k < |history| && 0 <= i < |targets|
      ensures OldTextSafe(history[k], before, us[i]) ==> OldTextFound(history[k], before, targets[i])
      ensures Holds(history[k], us[i].path, us[i].updated) ==> Edited(history[k], before, targets[i])
    {
      assert IsUpdateFor(us[i], targets[i], contents[i]) && Holds(before, targets[i].path, contents[i]);
    }
  }

  predicate NoDuplicates(paths: seq<Path>) {
    paths == [] || (paths[0] !in paths[1..] && NoDuplicates(paths[1..]))
  }

  lemma {:induction false} NoDuplicatesMeaning(paths: seq<Path>)
    ensures NoDuplicates(paths) <==> forall i, j | 0 <= i < j < |paths| :: paths[i] != paths[j]
  {
    if paths == [] {
    } else {
      var rest := paths[1..];
      NoDuplicatesMeaning(rest);
      assert forall i | 0 <= i < |rest| :: rest[i] == paths[i + 1];
      if forall i, j | 0 <= i < j < |paths| :: paths[i] != paths[j] {
        assert paths[0] !in rest;
      }
    }
  }

  /** Comparing the number of different paths with the number of paths finds every duplicate. */
  lemma {:induction false} DistinctPaths(paths: seq<Path>)
    ensures |set p | p in paths| <= |paths|
    ensures |set p | p in paths| == |paths| <==> NoDuplicates(paths)
  {
    if paths == [] {
    } else {
      var rest := paths[1..];
      DistinctPaths(rest);
      var all, some := set p | p in paths, set p | p in rest;
      assert paths == [paths[0]] + rest;
      assert all == some + {paths[0]};
      if paths[0] in rest {
        assert all == some;
      }
    }
  }
}
