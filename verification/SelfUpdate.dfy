/**
 Replacing the running binary: replaceFile, BackupAndApply and Rollback of
 internal/selfupdate/selfupdate.go over a small file system.

 The functions are the specification; the class BinaryDir is the directory itself.
 Every file operation has its own fate.  A copy that fails or is cut off may leave
 anything at its destination.
 */
module SelfUpdate {
  import opened Wrappers
  import opened Durable
  import opened Versions

  type Content = nat

  /** The executable, its siblings .new and .old, the backup clank-agent.prev, the unpacked download. */
  datatype Path = Exec | ExecNew | ExecOld | Prev | Download

  type Files = map<Path, Content>

  /** What an unfinished copy left at its destination. */
  datatype Leftover = Untouched | Holds(content: Content)

  datatype CopyFate = Copied | CopyFailed(left: Leftover) | CopyDied(left: Leftover)

  datatype ReplaceFaults = ReplaceFaults(
    stage: CopyFate, chmod: Fate, unstageUnset: Fate,
    dropStale: Fate, moveOld: Fate, unstageUnmoved: Fate,
    moveNew: Fate, moveBack: Fate, cleanup: Fate)

  datatype On = On(files: Files, outcome: Outcome)

  // ---------- single operations ----------

  function LeaveAt(fs: Files, p: Path, left: Leftover): Files {
    match left
    case Untouched => fs
    case Holds(c) => fs[p := c]
  }

  function Copy(fs: Files, src: Path, dst: Path, f: CopyFate): On {
    if src !in fs then On(fs, if f.CopyDied? then Crashed else Failed)
    else
      match f
      case Copied => On(fs[dst := fs[src]], Done)
      case CopyFailed(left) => On(LeaveAt(fs, dst, left), Failed)
      case CopyDied(left) => On(LeaveAt(fs, dst, left), Crashed)
  }

  function Rename(fs: Files, src: Path, dst: Path, f: Fate): On {
    if f.Works? && src !in fs then On(fs, Failed)
    else if !f.Works? then On(fs, OutcomeOf(f))
    else On((fs - {src})[dst := fs[src]], Done)
  }

  /** os.Remove with its error ignored: only dying is noticed. */
  function Remove(fs: Files, p: Path, f: Fate): On {
    On(if f.Works? then fs - {p} else fs, if f.Dies? then Crashed else Done)
  }

  /** A best-effort removal on the way out of a failing call. */
  function RemoveAndFail(fs: Files, p: Path, f: Fate): On {
    var removed := Remove(fs, p, f);
    On(removed.files, if removed.outcome.Crashed? then Crashed else Failed)
  }

  // ---------- replaceFile ----------

  function Replace(fs: Files, src: Path, f: ReplaceFaults): On {
    var staged := Copy(fs, src, ExecNew, f.stage);
    if !staged.outcome.Done? then staged
    else if f.chmod.Dies? then On(staged.files, Crashed)
    else if f.chmod.Fails? then RemoveAndFail(staged.files, ExecNew, f.unstageUnset)
    else
      var cleared := Remove(staged.files, ExecOld, f.dropStale);
      if cleared.outcome.Crashed? then cleared else MoveIn(cleared.files, f)
  }

  function MoveIn(fs: Files, f: ReplaceFaults): On {
    var aside := Rename(fs, Exec, ExecOld, f.moveOld);
    match aside.outcome
    case Crashed => aside
    case Failed => RemoveAndFail(aside.files, ExecNew, f.unstageUnmoved)
    case Done =>
      var placed := Rename(aside.files, ExecNew, Exec, f.moveNew);
      match placed.outcome
      case Crashed => placed
      case Failed =>
        var back := Rename(placed.files, ExecOld, Exec, f.moveBack);
        On(back.files, if back.outcome.Crashed? then Crashed else Failed)
      case Done => Remove(placed.files, ExecOld, f.cleanup)
  }

  /** Failed copies, permission changes and renames (removals are best effort). */
  function FailedOps(f: ReplaceFaults): nat {
    (if f.stage.CopyFailed? then 1 else 0) + Failure(f.chmod) + Failure(f.moveOld) + Failure(f.moveNew) +
    Failure(f.moveBack)
  }

  function Holding(fs: Files, p: Path, c: Content): bool {
    p in fs && fs[p] == c
  }

  /** The old program is at the executable path or beside it, or the complete new one is in place;
      no step leaves a partial program at the executable path. */
  predicate ProgramSafe(fs: Files, before: Content, new': Content) {
    && (Holding(fs, Exec, before) || Holding(fs, ExecOld, before) || Holding(fs, Exec, new'))
    && (Exec in fs ==> fs[Exec] in {before, new'})
  }

  /** From the staged copy on. */
  lemma MoveInKeepsTheProgram(fs: Files, f: ReplaceFaults)
    requires Exec in fs && ExecNew in fs
    ensures var r := MoveIn(fs, f);
            && ProgramSafe(r.files, fs[Exec], fs[ExecNew])
            && (r.outcome.Done? ==> Holding(r.files, Exec, fs[ExecNew]))
            && (r.outcome.Failed? ==> (Exec in r.files ==> r.files[Exec] == fs[Exec]))
            && (r.outcome.Failed? && FailedOps(f) <= 1 ==> Exec in r.files)
            && (forall p :: p in {Prev, Download} ==> (p in r.files <==> p in fs) && (p in fs ==> r.files[p] == fs[p]))
  {
  }

  /** Whatever fails and wherever the process dies. */
  lemma ReplaceNeverLosesTheProgram(fs: Files, src: Path, f: ReplaceFaults)
    requires Exec in fs && src in fs && src in {Prev, Download}
    ensures var r := Replace(fs, src, f);
            && ProgramSafe(r.files, fs[Exec], fs[src])
            && (r.outcome.Done? ==> Holding(r.files, Exec, fs[src]))
            && (r.outcome.Failed? && FailedOps(f) <= 1 ==> Holding(r.files, Exec, fs[Exec]))
            && (forall p :: p in {Prev, Download} ==> (p in r.files <==> p in fs) && (p in fs ==> r.files[p] == fs[p]))
  {
    var staged := Copy(fs, src, ExecNew, f.stage);
    if staged.outcome.Done? && f.chmod.Works? {
      MoveInKeepsTheProgram(Remove(staged.files, ExecOld, f.dropStale).files, f);
    }
  }

  /** The old program has been moved aside, the new one was not moved in, and the old one was not moved back. */
  predicate Vacates(f: ReplaceFaults) {
    && f.stage.Copied? && f.chmod.Works? && !f.dropStale.Dies? && f.moveOld.Works?
    && !f.moveNew.Works? && !(f.moveNew.Fails? && f.moveBack.Works?)
  }

  /** The replacement returns an error with the old program where it was. */
  predicate FailsInPlace(f: ReplaceFaults) {
    || f.stage.CopyFailed?
    || (f.stage.Copied? && f.chmod.Fails? && !f.unstageUnset.Dies?)
    || (f.stage.Copied? && f.chmod.Works? && !f.dropStale.Dies? &&
        ((f.moveOld.Fails? && !f.unstageUnmoved.Dies?) ||
         (f.moveOld.Works? && f.moveNew.Fails? && f.moveBack.Works?)))
  }

  /** Replacement is not atomic: these are exactly the faults that leave nothing at the executable path,
      and those that fail without harm. */
  lemma ExecutableMissingExactlyWhen(fs: Files, src: Path, f: ReplaceFaults)
    requires Exec in fs && src in fs && src in {Prev, Download}
    ensures Exec !in Replace(fs, src, f).files <==> Vacates(f)
    ensures Replace(fs, src, f).outcome.Failed? && Exec in Replace(fs, src, f).files <==> FailsInPlace(f)
  {
    var staged := Copy(fs, src, ExecNew, f.stage).files;
    var cleared := Remove(staged, ExecOld, f.dropStale).files;
    assert Exec in staged && Exec in cleared;
    if f.stage.Copied? { assert ExecNew in cleared; }
  }

  /** The faults, all but failed removals being none, with which a replacement succeeds. */
  predicate Replaces(f: ReplaceFaults) {
    f.stage.Copied? && f.chmod.Works? && !f.dropStale.Dies? && f.moveOld.Works? && f.moveNew.Works? && !f.cleanup.Dies?
  }

  /** A replacement succeeds exactly when its copy, mode change and renames work and it does not die; then
      the new program is in place, and with working removals nothing else has changed. */
  lemma ReplaceSucceedsExactlyWhen(fs: Files, src: Path, f: ReplaceFaults)
    requires Exec in fs && src in fs && src in {Prev, Download}
    ensures Replace(fs, src, f).outcome.Done? <==> Replaces(f)
    ensures Replaces(f) && f.cleanup.Works? ==> Replace(fs, src, f).files == (fs - {ExecNew, ExecOld})[Exec := fs[src]]
  {
    if Replaces(f) {
      var staged := Copy(fs, src, ExecNew, f.stage).files;
      var cleared := Remove(staged, ExecOld, f.dropStale).files;
      assert Exec in cleared && ExecNew in cleared;
      if f.cleanup.Works? {
        assert Replace(fs, src, f).files == (((cleared - {Exec})[ExecOld := fs[Exec]] - {ExecNew})[Exec := fs[src]]) - {ExecOld};
      }
    }
  }

  /** A replacement that fails in place removes what it staged, if that removal works. */
  lemma FailedReplaceCleansUp(fs: Files, src: Path, f: ReplaceFaults)
    requires Exec in fs && src in fs && src in {Prev, Download} && FailsInPlace(f) && f.stage.Copied?
    requires f.unstageUnset.Works? && f.unstageUnmoved.Works? && !f.moveOld.Works?
    ensures ExecNew !in Replace(fs, src, f).files
  {
  }

  /** A replacement puts nothing where nothing was. */
  lemma MissingStaysMissing(fs: Files, src: Path, f: ReplaceFaults)
    requires Exec !in fs && src in {Prev, Download}
    ensures Exec !in Replace(fs, src, f).files
    ensures src in Replace(fs, src, f).files <==> src in fs
    ensures src in fs ==> Replace(fs, src, f).files[src] == fs[src]
  {
  }

  // ---------- BackupAndApply ----------

  /** The part of an update before the file replacement: the unpacked binary, or the phase that failed. */
  datatype Fetch = Fetched(content: Content) | NotFetched(phase: string)

  datatype BackupFaults = BackupFaults(copy: CopyFate, chmod: Fate, dropBackup: Fate,
                                       install: ReplaceFaults, restore: ReplaceFaults)

  datatype Answer = Updated | Skipped | PhaseError(phase: string) | Died

  datatype Applied = Applied(files: Files, answer: Answer)

  predicate IsRetryable(answer: Answer) {
    answer.PhaseError? && answer.phase == "download"
  }

  function BackupAndApply(fs: Files, current: string, next: string, fetch: Fetch, f: BackupFaults): Applied {
    if current == next then Applied(fs, Skipped)
    else if IsDowngrade(current, next) then Applied(fs, PhaseError("version"))
    else BackUpAndInstall(fs, fetch, f)
  }

  function BackUpAndInstall(fs: Files, fetch: Fetch, f: BackupFaults): Applied {
    var saved := Copy(fs, Exec, Prev, f.copy);
    match saved.outcome
    case Crashed => Applied(saved.files, Died)
    case Failed => Applied(saved.files, PhaseError("backup"))
    case Done =>
      if f.chmod.Dies? then Applied(saved.files, Died)
      else if f.chmod.Fails? then
        var dropped := Remove(saved.files, Prev, f.dropBackup);
        Applied(dropped.files, if dropped.outcome.Crashed? then Died else PhaseError("backup"))
      else InstallOrRestore(saved.files, fetch, f)
  }

  function InstallOrRestore(fs: Files, fetch: Fetch, f: BackupFaults): Applied {
    match fetch
    case NotFetched(phase) => RestoreBackup(fs, phase, f)
    case Fetched(content) =>
      var placed := Replace(fs[Download := content], Download, f.install);
      match placed.outcome
      case Crashed => Applied(placed.files, Died)
      case Failed => RestoreBackup(placed.files - {Download}, "replace", f)
      case Done => Applied(placed.files - {Download}, Updated)
  }

  function RestoreBackup(fs: Files, phase: string, f: BackupFaults): Applied {
    var back := Replace(fs, Prev, f.restore);
    Applied(back.files, if back.outcome.Crashed? then Died else PhaseError(phase))
  }

  function FailedUpdateOps(f: BackupFaults): nat {
    (if f.copy.CopyFailed? then 1 else 0) + Failure(f.chmod) + FailedOps(f.install) + FailedOps(f.restore)
  }

  /** A replacement that returns an error has not put the new program in place. */
  lemma FailedReplaceLeavesOld(fs: Files, src: Path, f: ReplaceFaults)
    requires Exec in fs && src in fs && src in {Prev, Download} && Replace(fs, src, f).outcome.Failed?
    ensures Exec in Replace(fs, src, f).files ==> Replace(fs, src, f).files[Exec] == fs[Exec]
  {
  }

  lemma RestoreKeepsTheProgram(fs: Files, phase: string, f: BackupFaults, before: Content)
    requires Holding(fs, Prev, before)
    requires Exec in fs ==> fs[Exec] == before
    ensures var r := RestoreBackup(fs, phase, f);
            && Holding(r.files, Prev, before)
            && (Exec in r.files ==> r.files[Exec] == before)
            && (Exec in fs && r.answer.PhaseError? && FailedOps(f.restore) <= 1 ==> Exec in r.files)
            && (Exec !in r.files <==> Exec !in fs || Vacates(f.restore))
  {
    if Exec in fs {
      ReplaceNeverLosesTheProgram(fs, Prev, f.restore);
      ExecutableMissingExactlyWhen(fs, Prev, f.restore);
    } else {
      MissingStaysMissing(fs, Prev, f.restore);
    }
  }

  /** Exactly the faults that, once the backup is taken, leave nothing at the executable path. */
  predicate InstallVacates(fetch: Fetch, f: BackupFaults) {
    if fetch.NotFetched? then Vacates(f.restore)
    else Vacates(f.install) || (FailsInPlace(f.install) && Vacates(f.restore))
  }

  /** From the backup on. */
  lemma InstallKeepsTheProgram(fs: Files, fetch: Fetch, f: BackupFaults, before: Content)
    requires Holding(fs, Exec, before) && Holding(fs, Prev, before)
    ensures var r := InstallOrRestore(fs, fetch, f);
            && Holding(r.files, Prev, before)
            && !r.answer.Skipped?
            && (r.answer.Updated? ==> fetch.Fetched? && Holding(r.files, Exec, fetch.content))
            && (Exec in r.files ==> r.files[Exec] == before || fetch == Fetched(r.files[Exec]))
            && (r.answer.PhaseError? && Exec in r.files ==> r.files[Exec] == before)
            && (r.answer.PhaseError? && FailedOps(f.install) + FailedOps(f.restore) <= 1 ==> Exec in r.files)
            && (Exec !in r.files <==> InstallVacates(fetch, f))
  {
    match fetch
    case NotFetched(phase) => RestoreKeepsTheProgram(fs, phase, f, before);
    case Fetched(content) =>
      var unpacked := fs[Download := content];
      var placed := Replace(unpacked, Download, f.install);
      ReplaceNeverLosesTheProgram(unpacked, Download, f.install);
      ExecutableMissingExactlyWhen(unpacked, Download, f.install);
      if placed.outcome.Failed? {
        FailedReplaceLeavesOld(unpacked, Download, f.install);
        RestoreKeepsTheProgram(placed.files - {Download}, "replace", f, before);
      }
  }

  /** The program in the backup file, if there is one. */
  function BackupOf(fs: Files): Option<Content> {
    if Prev in fs then Some(fs[Prev]) else None
  }

  /** What a try that dies leaves in the backup file: the old program, unless the copy itself was cut off. */
  function BackupLeft(fs: Files, copy: CopyFate, before: Content): Option<Content> {
    match copy
    case CopyDied(Holds(content)) => Some(content)
    case CopyDied(Untouched) => BackupOf(fs)
    case _ => Some(before)
  }

  /** Exactly the faults of one try that leave nothing at the executable path. */
  predicate TryVacates(fetch: Fetch, f: BackupFaults) {
    f.copy.Copied? && f.chmod.Works? && InstallVacates(fetch, f)
  }

  /** Everything about one try from a program in place. */
  ghost predicate TryEnds(fs: Files, r: Applied, fetch: Fetch, f: BackupFaults, before: Content) {
    && !r.answer.Skipped?
    && (r.answer.Updated? ==> fetch.Fetched? && Holding(r.files, Exec, fetch.content) && Holding(r.files, Prev, before))
    && (Exec in r.files ==> r.files[Exec] == before || fetch == Fetched(r.files[Exec]))
    && (r.answer.PhaseError? && Exec in r.files ==> r.files[Exec] == before)
    && (Holding(r.files, Exec, before) || Holding(r.files, Prev, before) ||
        (fetch.Fetched? && Holding(r.files, Exec, fetch.content)))
    && (r.answer.PhaseError? && FailedUpdateOps(f) <= 1 ==> Holding(r.files, Exec, before))
    && (r.answer.Died? ==> BackupOf(r.files) == BackupLeft(fs, f.copy, before))
    && (IsRetryable(r.answer) ==> BackupOf(r.files) == Some(before))
  }

  lemma TryKeepsTheProgram(fs: Files, fetch: Fetch, f: BackupFaults)
    requires Exec in fs
    ensures var r := BackUpAndInstall(fs, fetch, f);
            TryEnds(fs, r, fetch, f, fs[Exec]) && (Exec !in r.files <==> TryVacates(fetch, f))
  {
    var saved := Copy(fs, Exec, Prev, f.copy).files;
    if f.copy.Copied? && f.chmod.Works? {
      InstallKeepsTheProgram(saved, fetch, f, fs[Exec]);
    }
  }

  /** The error of a failed try names the step that failed, and a death before the install is a death in the
      backup's copy, its mode change or its removal. */
  lemma PhaseSaysWhatFailed(fs: Files, fetch: Fetch, f: BackupFaults)
    requires Exec in fs
    ensures var r := BackUpAndInstall(fs, fetch, f);
            && (r.answer.PhaseError? ==>
                  r.answer.phase == if !f.copy.Copied? || f.chmod.Fails? then "backup"
                                    else if fetch.Fetched? then "replace" else fetch.phase)
            && (!(f.copy.Copied? && f.chmod.Works?) ==>
                  (r.answer.Died? <==> f.copy.CopyDied? || (f.copy.Copied? && (f.chmod.Dies? || f.dropBackup.Dies?))))
  {
  }

  /** A failed update puts the program back; at no point is it lost. */
  lemma UpdateNeverLosesTheProgram(fs: Files, current: string, next: string, fetch: Fetch, f: BackupFaults)
    requires Exec in fs
    ensures var r := BackupAndApply(fs, current, next, fetch, f);
            if current == next then r == Applied(fs, Skipped)
            else if IsDowngrade(current, next) then r == Applied(fs, PhaseError("version"))
            else TryEnds(fs, r, fetch, f, fs[Exec]) && (Exec !in r.files <==> TryVacates(fetch, f))
  {
    TryKeepsTheProgram(fs, fetch, f);
  }

  /** Without a program to back up, a try changes nothing. */
  lemma NothingToBackUp(fs: Files, current: string, next: string, fetch: Fetch, f: BackupFaults)
    requires Exec !in fs && current != next
    ensures var r := BackupAndApply(fs, current, next, fetch, f);
            r.files == fs && !IsRetryable(r.answer) && (r.answer.Died? || r.answer.PhaseError?)
  {
  }

  // ---------- Rollback ----------

  function Rollback(fs: Files, f: ReplaceFaults): On {
    if Prev !in fs then On(fs, Failed) else Replace(fs, Prev, f)
  }

  // ---------- the directory, changed file by file ----------

  class BinaryDir {
    var files: Files

    constructor (fs: Files)
      ensures files == fs
    {
      files := fs;
    }

    method CopyFile(src: Path, dst: Path, f: CopyFate) returns (outcome: Outcome)
      modifies this
      ensures On(files, outcome) == Copy(old(files), src, dst, f)
    {
      if src !in files { return if f.CopyDied? then Crashed else Failed; }
      match f {
        case Copied =>
          files := files[dst := files[src]];
          return Done;
        case CopyFailed(left) =>
          if left.Holds? { files := files[dst := left.content]; }
          return Failed;
        case CopyDied(left) =>
          if left.Holds? { files := files[dst := left.content]; }
          return Crashed;
      }
    }

    method RenameFile(src: Path, dst: Path, f: Fate) returns (outcome: Outcome)
      modifies this
      ensures On(files, outcome) == Rename(old(files), src, dst, f)
    {
      if !f.Works? { return OutcomeOf(f); }
      if src !in files { return Failed; }
      var content := files[src];
      files := files - {src};
      files := files[dst := content];
      return Done;
    }

    method RemoveFile(p: Path, f: Fate) returns (outcome: Outcome)
      modifies this
      ensures On(files, outcome) == Remove(old(files), p, f)
    {
      if f.Works? { files := files - {p}; }
      return if f.Dies? then Crashed else Done;
    }

    /** replaceFile, onto the executable path. */
    method ReplaceFile(src: Path, f: ReplaceFaults) returns (outcome: Outcome)
      modifies this
      ensures On(files, outcome) == Replace(old(files), src, f)
    {
      outcome := CopyFile(src, ExecNew, f.stage);
      if !outcome.Done? { return; }
      if f.chmod.Dies? { return Crashed; }
      if f.chmod.Fails? {
        outcome := RemoveFile(ExecNew, f.unstageUnset);
        return if outcome.Crashed? then Crashed else Failed;
      }
      outcome := RemoveFile(ExecOld, f.dropStale);
      if outcome.Crashed? { return; }
      outcome := RenameFile(Exec, ExecOld, f.moveOld);
      if outcome.Crashed? { return; }
      if outcome.Failed? {
        outcome := RemoveFile(ExecNew, f.unstageUnmoved);
        return if outcome.Crashed? then Crashed else Failed;
      }
      outcome := RenameFile(ExecNew, Exec, f.moveNew);
      if outcome.Crashed? { return; }
      if outcome.Failed? {
        outcome := RenameFile(ExecOld, Exec, f.moveBack);
        return if outcome.Crashed? then Crashed else Failed;
      }
      outcome := RemoveFile(ExecOld, f.cleanup);
    }

    /** BackupAndApply, with Apply's download and checks answered by `fetch`. */
    method BackupThenApply(current: string, next: string, fetch: Fetch, f: BackupFaults) returns (answer: Answer)
      modifies this
      ensures Applied(files, answer) == BackupAndApply(old(files), current, next, fetch, f)
    {
      if current == next { return Skipped; }
      if IsDowngrade(current, next) { return PhaseError("version"); }
      var outcome := CopyFile(Exec, Prev, f.copy);
      if outcome.Crashed? { return Died; }
      if outcome.Failed? { return PhaseError("backup"); }
      if f.chmod.Dies? { return Died; }
      if f.chmod.Fails? {
        outcome := RemoveFile(Prev, f.dropBackup);
        return if outcome.Crashed? then Died else PhaseError("backup");
      }
      var phase := "replace";
      match fetch {
        case NotFetched(at) => phase := at;
        case Fetched(content) =>
          files := files[Download := content];
          outcome := ReplaceFile(Download, f.install);
          if outcome.Crashed? { return Died; }
          files := files - {Download};
          if outcome.Done? { return Updated; }
      }
      outcome := ReplaceFile(Prev, f.restore);
      return if outcome.Crashed? then Died else PhaseError(phase);
    }

    method RollbackBinary(f: ReplaceFaults) returns (outcome: Outcome)
      modifies this
      ensures On(files, outcome) == Rollback(old(files), f)
    {
      if Prev !in files { return Failed; }
      outcome := ReplaceFile(Prev, f);
    }
  }
}
