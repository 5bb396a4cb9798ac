/**
 A self-update over restarts: the retry loop of HandleUpdate, the persisted attempt counter
 of internal/selfupdate/state.go, and checkPendingUpdate at every startup.
 */
module UpdateLifecycle {
  import opened Wrappers
  import opened Durable
  import opened SelfUpdate
  import opened Versions

  const MAX_ATTEMPTS := 3

  /** The state file; the agent only ever writes the status "pending". */
  datatype UpdateState = UpdateState(fromVersion: string, toVersion: string, attempts: nat)

  datatype Host = Host(files: Files, state: Option<UpdateState>)

  /** What one try meets; `cancelled`: the context ended during the wait before it. */
  datatype Try = Try(cancelled: bool, fetch: Fetch, faults: BackupFaults)

  /** How HandleUpdate ends, and at which try; a dying process is Interrupted, a context that ends Cancelled. */
  datatype Ending = AlreadyCurrent | Installed(at: nat) | GaveUp(at: nat, phase: string) | Cancelled(at: nat) | Interrupted(at: nat)

  datatype Ran = Ran(files: Files, ending: Ending)

  /** Tries from number `k` on: a download error is retried, anything else ends the loop. */
  function Attempts(fs: Files, current: string, next: string, tries: seq<Try>, k: nat): (r: Ran)
    requires k < |tries|
    decreases |tries| - k, 1
  {
    if k > 0 && tries[k].cancelled then Ran(fs, Cancelled(k))
    else AfterTry(BackupAndApply(fs, current, next, tries[k].fetch, tries[k].faults), current, next, tries, k)
  }

  function AfterTry(a: Applied, current: string, next: string, tries: seq<Try>, k: nat): (r: Ran)
    requires k < |tries|
    decreases |tries| - k, 0
  {
    match a.answer
    case Died => Ran(a.files, Interrupted(k))
    case PhaseError(phase) =>
      if IsRetryable(a.answer) && k + 1 < |tries| then Attempts(a.files, current, next, tries, k + 1)
      else Ran(a.files, GaveUp(k, phase))
    case _ => Ran(a.files, Installed(k))
  }

  /** HandleUpdate, its state saves succeeding: one try, and a retry after each of three waits. */
  function Update(h: Host, current: string, next: string, tries: seq<Try>): (Host, Ending)
    requires |tries| == 4
  {
    if current == next then (h, AlreadyCurrent)
    else
      var ran := Attempts(h.files, current, next, tries, 0);
      var state := if ran.ending.GaveUp? then None else Some(UpdateState(current, next, 0));
      (Host(ran.files, state), ran.ending)
  }

  /** Try `j` was begun. */
  predicate Begun(j: int, ending: Ending) {
    !ending.AlreadyCurrent? && (j < ending.at || (j == ending.at && !ending.Cancelled?))
  }

  /** Some try from number `k` on left nothing at the executable path. */
  predicate VacatedFrom(tries: seq<Try>, k: nat, ending: Ending) {
    exists j :: k <= j < |tries| && Begun(j, ending) && TryVacates(tries[j].fetch, tries[j].faults)
  }

  /** What tries from number `k` on leave: an installed update is the complete new program with the old
      one in the backup; any other ending leaves the old program, nothing, or, if the process died, the
      complete new one; the backup of a cancelled update is the old program, that of an interrupted one
      whatever the copy that was cut off left. */
  ghost predicate TriesEnd(fs: Files, r: Ran, tries: seq<Try>, k: nat, before: Content) {
    && !r.ending.AlreadyCurrent? && k <= r.ending.at < |tries|
    && (r.ending.Installed? ==>
          && tries[r.ending.at].fetch.Fetched?
          && Holding(r.files, Exec, tries[r.ending.at].fetch.content)
          && BackupOf(r.files) == Some(before))
    && (Exec in r.files ==> r.files[Exec] == before || tries[r.ending.at].fetch == Fetched(r.files[Exec]))
    && ((r.ending.GaveUp? || r.ending.Cancelled?) && Exec in r.files ==> r.files[Exec] == before)
    && (r.ending.Cancelled? ==> BackupOf(r.files) == Some(before))
    && (r.ending.Interrupted? && Exec in r.files ==>
          BackupOf(r.files) ==
            BackupLeft(if r.ending.at == k then fs else map[Prev := before], tries[r.ending.at].faults.copy, before))
  }

  /** However many tries it takes and whatever fails on the way. */
  lemma {:induction false} AttemptsKeepTheProgram(fs: Files, current: string, next: string, tries: seq<Try>,
                                                  k: nat, before: Content)
    requires k < |tries| && current != next
    requires Exec in fs ==> fs[Exec] == before
    requires k > 0 ==> BackupOf(fs) == Some(before)
    ensures TriesEnd(fs, Attempts(fs, current, next, tries, k), tries, k, before)
    ensures Exec in fs ==>
              (Exec !in Attempts(fs, current, next, tries, k).files <==>
               !IsDowngrade(current, next) && VacatedFrom(tries, k, Attempts(fs, current, next, tries, k).ending))
    decreases |tries| - k, 1
  {
    if !(k > 0 && tries[k].cancelled) {
      var a := BackupAndApply(fs, current, next, tries[k].fetch, tries[k].faults);
      if Exec in fs {
        UpdateNeverLosesTheProgram(fs, current, next, tries[k].fetch, tries[k].faults);
      } else {
        NothingToBackUp(fs, current, next, tries[k].fetch, tries[k].faults);
      }
      AfterTryKeeps(fs, a, current, next, tries, k, before);
    }
  }

  /** What one try may answer, in both cases: the program in place, or nothing there. */
  ghost predicate TryAnswers(fs: Files, a: Applied, current: string, next: string, t: Try, before: Content) {
    if Exec in fs && !IsDowngrade(current, next) then
      && TryEnds(fs, a, t.fetch, t.faults, before)
      && (Exec !in a.files <==> TryVacates(t.fetch, t.faults))
    else
      && a.files == fs && !IsRetryable(a.answer)
      && (a.answer.PhaseError? || (Exec !in fs && a.answer.Died?))
  }

  lemma {:induction false} AfterTryKeeps(fs: Files, a: Applied, current: string, next: string, tries: seq<Try>,
                                         k: nat, before: Content)
    requires k < |tries| && current != next
    requires Exec in fs ==> fs[Exec] == before
    requires TryAnswers(fs, a, current, next, tries[k], before)
    ensures var r := AfterTry(a, current, next, tries, k);
            && TriesEnd(fs, r, tries, k, before)
            && (Exec in fs ==> (Exec !in r.files <==> !IsDowngrade(current, next) && VacatedFrom(tries, k, r.ending)))
    decreases |tries| - k, 0
  {
    var r := AfterTry(a, current, next, tries, k);
    if IsRetryable(a.answer) && k + 1 < |tries| {
      AttemptsKeepTheProgram(a.files, current, next, tries, k + 1, before);
      EndsTheSame(fs, a.files, r, tries, k, before);
      if Exec !in a.files {
        MissingProgramEndsTries(a.files, current, next, tries, k + 1);
      }
      VacatedHereOrLater(tries, k, r.ending);
    } else {
      assert forall j :: Begun(j, r.ending) <==> j <= k;
    }
  }

  lemma EndsTheSame(fs: Files, later: Files, r: Ran, tries: seq<Try>, k: nat, before: Content)
    requires TriesEnd(later, r, tries, k + 1, before) && BackupOf(later) == Some(before)
    ensures TriesEnd(fs, r, tries, k, before)
  {
  }

  lemma VacatedHereOrLater(tries: seq<Try>, k: nat, ending: Ending)
    requires k < |tries|
    ensures VacatedFrom(tries, k, ending) <==>
              (Begun(k, ending) && TryVacates(tries[k].fetch, tries[k].faults)) || VacatedFrom(tries, k + 1, ending)
  {
  }

  lemma MissingProgramEndsTries(fs: Files, current: string, next: string, tries: seq<Try>, k: nat)
    requires k < |tries| && Exec !in fs && current != next
    ensures Attempts(fs, current, next, tries, k).files == fs
  {
    NothingToBackUp(fs, current, next, tries[k].fetch, tries[k].faults);
  }

  // ---------- which tries are made ----------

  /** The files before try `j`, if the tries from number `k` on are made one after the other. */
  function FilesBefore(fs: Files, current: string, next: string, tries: seq<Try>, k: nat, j: nat): Files
    requires k <= j <= |tries|
    decreases j - k
  {
    if j == k then fs
    else FilesBefore(BackupAndApply(fs, current, next, tries[k].fetch, tries[k].faults).files, current, next, tries, k + 1, j)
  }

  function AnswerAt(fs: Files, current: string, next: string, tries: seq<Try>, k: nat, j: nat): Answer
    requires k <= j < |tries|
  {
    BackupAndApply(FilesBefore(fs, current, next, tries, k, j), current, next, tries[j].fetch, tries[j].faults).answer
  }

  /** How the loop ends after an answer that is not followed by another try. */
  function EndsWith(answer: Answer, at: nat): Ending {
    match answer
    case Died => Interrupted(at)
    case PhaseError(phase) => GaveUp(at, phase)
    case _ => Installed(at)
  }

  /** Every try before the last one failed in its download and was not cancelled; the ending is the last
      try's answer, unless the context ended in the wait before it; and a failed download ends the loop only
      at the last of all tries. */
  ghost predicate RetriesDownloads(fs: Files, current: string, next: string, tries: seq<Try>, k: nat, ending: Ending)
    requires k <= |tries|
  {
    && !ending.AlreadyCurrent? && k <= ending.at < |tries|
    && (forall j :: k <= j < ending.at ==>
          AnswerAt(fs, current, next, tries, k, j) == PhaseError("download") && !(0 < j && tries[j].cancelled))
    && (if ending.at > 0 && tries[ending.at].cancelled then ending == Cancelled(ending.at)
        else
          && ending == EndsWith(AnswerAt(fs, current, next, tries, k, ending.at), ending.at)
          && (ending == GaveUp(ending.at, "download") ==> ending.at == |tries| - 1))
  }

  lemma {:induction false} RetriesExactlyDownloads(fs: Files, current: string, next: string, tries: seq<Try>, k: nat)
    requires k < |tries|
    ensures RetriesDownloads(fs, current, next, tries, k, Attempts(fs, current, next, tries, k).ending)
    decreases |tries| - k, 1
  {
    if !(k > 0 && tries[k].cancelled) {
      RetriesAfter(fs, BackupAndApply(fs, current, next, tries[k].fetch, tries[k].faults), current, next, tries, k);
    }
  }

  lemma {:induction false} RetriesAfter(fs: Files, a: Applied, current: string, next: string, tries: seq<Try>, k: nat)
    requires k < |tries| && !(k > 0 && tries[k].cancelled)
    requires a == BackupAndApply(fs, current, next, tries[k].fetch, tries[k].faults)
    ensures RetriesDownloads(fs, current, next, tries, k, AfterTry(a, current, next, tries, k).ending)
    decreases |tries| - k, 0
  {
    AfterTryEnding(a, current, next, tries, k);
    if a.answer == PhaseError("download") && k + 1 < |tries| {
      RetriesExactlyDownloads(a.files, current, next, tries, k + 1);
      OneMoreRetry(fs, current, next, tries, k, Attempts(a.files, current, next, tries, k + 1).ending);
    } else {
      NoMoreRetry(fs, a.answer, current, next, tries, k);
    }
  }

  lemma NoMoreRetry(fs: Files, answer: Answer, current: string, next: string, tries: seq<Try>, k: nat)
    requires k < |tries| && !(k > 0 && tries[k].cancelled) && answer == AnswerAt(fs, current, next, tries, k, k)
    requires answer == PhaseError("download") ==> k == |tries| - 1
    ensures RetriesDownloads(fs, current, next, tries, k, EndsWith(answer, k))
  {
  }

  lemma OneMoreRetry(fs: Files, current: string, next: string, tries: seq<Try>, k: nat, ending: Ending)
    requires k + 1 < |tries| && !(k > 0 && tries[k].cancelled)
    requires AnswerAt(fs, current, next, tries, k, k) == PhaseError("download")
    requires RetriesDownloads(BackupAndApply(fs, current, next, tries[k].fetch, tries[k].faults).files, current, next, tries, k + 1, ending)
    ensures RetriesDownloads(fs, current, next, tries, k, ending)
  {
    var later := BackupAndApply(fs, current, next, tries[k].fetch, tries[k].faults).files;
    assert forall j :: k < j < |tries| ==>
      AnswerAt(fs, current, next, tries, k, j) == AnswerAt(later, current, next, tries, k + 1, j);
  }

  /** The download fails, and the backup is put back or stays beside an untouched program. */
  predicate OnlyDownloadFails(t: Try) {
    && t.faults.copy.Copied? && t.faults.chmod.Works? && t.fetch == NotFetched("download")
    && (Replaces(t.faults.restore) || FailsInPlace(t.faults.restore))
  }

  /** Everything works. */
  predicate Installs(t: Try) {
    t.faults.copy.Copied? && t.faults.chmod.Works? && t.fetch.Fetched? && Replaces(t.faults.install)
  }

  /** Try `at` works, each try from `k` to it fails only in its download, and the context lives through the waits. */
  predicate InstallsAt(tries: seq<Try>, k: nat, at: nat) {
    && k <= at < |tries| && Installs(tries[at])
    && (forall j :: k <= j < at ==> OnlyDownloadFails(tries[j]))
    && (forall j :: k <= j <= at && 0 < j ==> !tries[j].cancelled)
  }

  /** An update is installed at try `at` exactly then. */
  lemma {:induction false} InstalledExactlyWhen(fs: Files, current: string, next: string, tries: seq<Try>, k: nat, at: nat)
    requires k < |tries| && Exec in fs && current != next && !IsDowngrade(current, next)
    ensures Attempts(fs, current, next, tries, k).ending == Installed(at) <==> InstallsAt(tries, k, at)
    decreases |tries| - k, 1
  {
    if !(k > 0 && tries[k].cancelled) {
      var a := BackupAndApply(fs, current, next, tries[k].fetch, tries[k].faults);
      UpdateNeverLosesTheProgram(fs, current, next, tries[k].fetch, tries[k].faults);
      TryAnswersExactlyWhen(fs, tries[k].fetch, tries[k].faults);
      InstalledAfter(a, current, next, tries, k, at);
    }
  }

  lemma InstallsHereOrLater(tries: seq<Try>, k: nat, at: nat)
    requires k < |tries| && !(k > 0 && tries[k].cancelled)
    ensures InstallsAt(tries, k, at) <==>
              if at == k then Installs(tries[k]) else OnlyDownloadFails(tries[k]) && InstallsAt(tries, k + 1, at)
  {
  }

  /** One try, given how the ones after it would end. */
  lemma InstalledHereOrLater(answer: Answer, left: bool, later: Ending, tries: seq<Try>, k: nat, at: nat)
    requires k < |tries| && !(k > 0 && tries[k].cancelled) && !answer.Skipped?
    requires answer.Updated? <==> Installs(tries[k])
    requires answer == PhaseError("download") && left <==> OnlyDownloadFails(tries[k])
    requires k + 1 < |tries| && left ==> (later == Installed(at) <==> InstallsAt(tries, k + 1, at))
    requires k + 1 < |tries| && !left ==> !later.Installed?
    ensures (if answer == PhaseError("download") && k + 1 < |tries| then later else EndsWith(answer, k)) == Installed(at) <==>
              InstallsAt(tries, k, at)
  {
    InstallsHereOrLater(tries, k, at);
  }

  lemma {:induction false} InstalledAfter(a: Applied, current: string, next: string, tries: seq<Try>, k: nat, at: nat)
    requires k < |tries| && current != next && !IsDowngrade(current, next) && !(k > 0 && tries[k].cancelled)
    requires !a.answer.Skipped?
    requires a.answer.Updated? <==> Installs(tries[k])
    requires a.answer == PhaseError("download") && Exec in a.files <==> OnlyDownloadFails(tries[k])
    ensures AfterTry(a, current, next, tries, k).ending == Installed(at) <==> InstallsAt(tries, k, at)
    decreases |tries| - k, 0
  {
    var later := Cancelled(0);
    if k + 1 < |tries| {
      later := Attempts(a.files, current, next, tries, k + 1).ending;
      if Exec in a.files {
        InstalledExactlyWhen(a.files, current, next, tries, k + 1, at);
      } else {
        NothingInstalled(a.files, current, next, tries, k + 1);
      }
    }
    InstalledHereOrLater(a.answer, Exec in a.files, later, tries, k, at);
    AfterTryEnding(a, current, next, tries, k);
  }

  /** What AfterTry does with an answer. */
  lemma AfterTryEnding(a: Applied, current: string, next: string, tries: seq<Try>, k: nat)
    requires k < |tries|
    ensures AfterTry(a, current, next, tries, k).ending ==
              if a.answer == PhaseError("download") && k + 1 < |tries| then Attempts(a.files, current, next, tries, k + 1).ending
              else EndsWith(a.answer, k)
  {
  }

  lemma NothingInstalled(fs: Files, current: string, next: string, tries: seq<Try>, k: nat)
    requires k < |tries| && Exec !in fs && current != next
    ensures !Attempts(fs, current, next, tries, k).ending.Installed?
  {
    NothingToBackUp(fs, current, next, tries[k].fetch, tries[k].faults);
  }

  /** When one try installs, and when only its download fails. */
  lemma TryAnswersExactlyWhen(fs: Files, fetch: Fetch, f: BackupFaults)
    requires Exec in fs
    ensures var a := BackUpAndInstall(fs, fetch, f);
            && (a.answer.Updated? <==> Installs(Try(false, fetch, f)))
            && (a.answer == PhaseError("download") && Exec in a.files <==> OnlyDownloadFails(Try(false, fetch, f)))
  {
    TryKeepsTheProgram(fs, fetch, f);
    var saved := Copy(fs, Exec, Prev, f.copy).files;
    if f.copy.Copied? && f.chmod.Works? {
      match fetch
      case NotFetched(_) =>
        ReplaceSucceedsExactlyWhen(saved, Prev, f.restore);
        ExecutableMissingExactlyWhen(saved, Prev, f.restore);
      case Fetched(content) =>
        ReplaceSucceedsExactlyWhen(saved[Download := content], Download, f.install);
    }
  }

  // ---------- startups ----------

  /** checkPendingUpdate: `reachable` is the answer of the connectivity check, `f` the fates of a rollback. */
  function Startup(h: Host, reachable: bool, f: ReplaceFaults): Host {
    match h.state
    case None => h
    case Some(state) =>
      var attempts := state.attempts + 1;
      if attempts > MAX_ATTEMPTS then
        var back := SelfUpdate.Rollback(h.files, f);
        Host(back.files, if back.outcome.Crashed? then h.state else None)
      else if reachable then Host(h.files - {Prev}, None)
      else h.(state := Some(state.(attempts := attempts)))
  }

  const NO_REPLACE_FAULTS := ReplaceFaults(Copied, Works, Works, Works, Works, Works, Works, Works, Works)

  function Startups(h: Host, checks: seq<bool>): Host {
    if checks == [] then h
    else Startup(Startups(h, checks[..|checks| - 1]), checks[|checks| - 1], NO_REPLACE_FAULTS)
  }

  /** Some of the first `n` checks passed. */
  predicate PassedWithin(checks: seq<bool>, n: nat) {
    exists k :: 0 <= k < |checks| && k < n && checks[k]
  }

  /** A fourth startup comes and none of the first three checks passed. */
  predicate RollsBack(checks: seq<bool>) {
    |checks| > 3 && !PassedWithin(checks, 3)
  }

  /** From any pending update: up to three failed checks only count; one passed check among the first
      three keeps what is installed for good; otherwise the fourth startup puts the backup in place,
      whatever it holds, and forgets the update. */
  lemma {:induction false} StartupsDecideTheUpdate(h: Host, checks: seq<bool>)
    requires h.state.Some? && h.state.value.attempts == 0
    ensures var t := Startups(h, checks);
            if PassedWithin(checks, 3) then t == Host(h.files - {Prev}, None)
            else if |checks| <= 3 then t == h.(state := Some(h.state.value.(attempts := |checks|)))
            else
              && t.state.None?
              && (Exec in t.files <==> Exec in h.files)
              && (Exec in h.files ==> t.files[Exec] == if Prev in h.files then h.files[Prev] else h.files[Exec])
  {
    if checks != [] {
      var front, last := checks[..|checks| - 1], checks[|checks| - 1];
      StartupsDecideTheUpdate(h, front);
      if PassedWithin(front, 3) {
        var k :| 0 <= k < |front| && k < 3 && front[k];
        assert checks[k];
      } else {
        assert forall k :: 0 <= k < |front| && k < 3 ==> !checks[k] by {
          forall k | 0 <= k < |front| && k < 3 ensures !checks[k] { assert front[k] == checks[k]; }
        }
        if |front| == 3 {
          FourthStartup(Startups(h, front), last);
        } else if |front| < 3 && last {
          assert checks[|front|];
        }
      }
    }
  }

  lemma FourthStartup(h: Host, reachable: bool)
    requires h.state.Some? && h.state.value.attempts == 3
    ensures var t := Startup(h, reachable, NO_REPLACE_FAULTS);
            && t.state.None?
            && (Exec in t.files <==> Exec in h.files)
            && (Exec in h.files ==> t.files[Exec] == if Prev in h.files then h.files[Prev] else h.files[Exec])
  {
    if Prev in h.files {
      if Exec in h.files {
        ReplaceNeverLosesTheProgram(h.files, Prev, NO_REPLACE_FAULTS);
        assert Replace(h.files, Prev, NO_REPLACE_FAULTS).outcome.Done?;
      } else {
        MissingStaysMissing(h.files, Prev, NO_REPLACE_FAULTS);
      }
    }
  }

  // ---------- an update and the startups after it ----------

  /** The host as an update finds it: the program in place and, if the command is for the version that
      runs already, no earlier update pending. */
  predicate Ready(h: Host, current: string, next: string) {
    Exec in h.files && (current == next ==> h.state.None?)
  }

  /** The update left nothing at the executable path. */
  predicate Vacated(current: string, next: string, tries: seq<Try>, ending: Ending) {
    !IsDowngrade(current, next) && VacatedFrom(tries, 0, ending)
  }

  /** Old program or a complete new one. */
  predicate IsProgram(c: Content, before: Content, tries: seq<Try>) {
    c == before || exists j :: 0 <= j < |tries| && tries[j].fetch == Fetched(c)
  }

  /** What the last try of an interrupted update left in the backup file. */
  function BackupAtDeath(h: Host, tries: seq<Try>, at: nat): Option<Content>
    requires Exec in h.files && at < |tries|
  {
    BackupLeft(if at == 0 then h.files else map[Prev := h.files[Exec]], tries[at].faults.copy, h.files[Exec])
  }

  /** The process died in the backup copy, with something else than a program of this update in the backup
      file: a torn copy, or, before the first try touched it, the leftover of an earlier update. */
  predicate BackupSpoiled(h: Host, tries: seq<Try>, ending: Ending)
    requires Exec in h.files
  {
    && ending.Interrupted? && ending.at < |tries|
    && tries[ending.at].faults.copy.CopyDied?
    && BackupAtDeath(h, tries, ending.at).Some?
    && !IsProgram(BackupAtDeath(h, tries, ending.at).value, h.files[Exec], tries)
  }

  /** What each ending of an update leaves: the pending state stays except when it gave up, and the
      backup is the old program unless the process died in the copy. */
  ghost predicate UpdateLeaves(h: Host, current: string, next: string, tries: seq<Try>, after: Host, ending: Ending)
    requires Exec in h.files
  {
    if current == next then ending.AlreadyCurrent? && after == h
    else
      && TriesEnd(h.files, Ran(after.files, ending), tries, 0, h.files[Exec])
      && after.state == (if ending.GaveUp? then None else Some(UpdateState(current, next, 0)))
      && (Exec !in after.files <==> Vacated(current, next, tries, ending))
  }

  lemma UpdateEndings(h: Host, current: string, next: string, tries: seq<Try>)
    requires |tries| == 4 && Exec in h.files
    ensures UpdateLeaves(h, current, next, tries, Update(h, current, next, tries).0, Update(h, current, next, tries).1)
  {
    if current != next {
      AttemptsKeepTheProgram(h.files, current, next, tries, 0, h.files[Exec]);
    }
  }

  /** Whatever way an update ends and whatever its later startups find: the old or the complete new
      program is at the executable path, unless the update left nothing there, or the process died
      in the backup copy, spoiling the backup, and the fourth startup rolls back to it. */
  lemma UpdateKeepsAProgramExactlyWhen(h: Host, current: string, next: string, tries: seq<Try>, checks: seq<bool>)
    requires |tries| == 4 && Ready(h, current, next)
    ensures var (after, ending) := Update(h, current, next, tries);
            var files := Startups(after, checks).files;
            Exec in files && IsProgram(files[Exec], h.files[Exec], tries) <==>
              !Vacated(current, next, tries, ending) && !(BackupSpoiled(h, tries, ending) && RollsBack(checks))
  {
    var (after, ending) := Update(h, current, next, tries);
    UpdateEndings(h, current, next, tries);
    KeepsAProgram(h, current, next, tries, after, ending, checks);
  }

  lemma KeepsAProgram(h: Host, current: string, next: string, tries: seq<Try>, after: Host, ending: Ending, checks: seq<bool>)
    requires Ready(h, current, next) && UpdateLeaves(h, current, next, tries, after, ending)
    ensures var files := Startups(after, checks).files;
            Exec in files && IsProgram(files[Exec], h.files[Exec], tries) <==>
              !Vacated(current, next, tries, ending) && !(BackupSpoiled(h, tries, ending) && RollsBack(checks))
  {
    if after.state.Some? {
      StartupsDecideTheUpdate(after, checks);
      if Exec in after.files {
        KeptOrRolledBack(h, tries, after.files, ending, Startups(after, checks).files, RollsBack(checks));
      }
    } else {
      NothingPending(after, checks);
    }
  }

  lemma KeptOrRolledBack(h: Host, tries: seq<Try>, updated: Files, ending: Ending, files: Files, rolled: bool)
    requires Exec in h.files && TriesEnd(h.files, Ran(updated, ending), tries, 0, h.files[Exec]) && !ending.GaveUp?
    requires Exec in updated && Exec in files
    requires files[Exec] == if rolled && Prev in updated then updated[Prev] else updated[Exec]
    ensures IsProgram(files[Exec], h.files[Exec], tries) <==> !(BackupSpoiled(h, tries, ending) && rolled)
  {
    assert IsProgram(updated[Exec], h.files[Exec], tries);
    if ending.Interrupted? {
      assert BackupOf(updated) == BackupAtDeath(h, tries, ending.at);
    }
  }

  lemma {:induction false} NothingPending(h: Host, checks: seq<bool>)
    requires h.state.None?
    ensures Startups(h, checks) == h
  {
    if checks != [] { NothingPending(h, checks[..|checks| - 1]); }
  }

  /** The successful case: three failed checks keep the new program, the fourth startup restores the old
      one, and one passed check among the first three keeps the new one for good. */
  lemma InstalledUpdateIsKeptOrUndone(h: Host, current: string, next: string, tries: seq<Try>, checks: seq<bool>)
    requires |tries| == 4 && Exec in h.files && Update(h, current, next, tries).1.Installed?
    ensures var (after, ending) := Update(h, current, next, tries);
            var t := Startups(after, checks);
            && ending.at < |tries| && tries[ending.at].fetch.Fetched?
            && Holding(t.files, Exec, if RollsBack(checks) then h.files[Exec] else tries[ending.at].fetch.content)
            && t.state == (if PassedWithin(checks, 3) || RollsBack(checks) then None
                           else Some(UpdateState(current, next, |checks|)))
  {
    UpdateEndings(h, current, next, tries);
    StartupsDecideTheUpdate(Update(h, current, next, tries).0, checks);
  }

  /** The pending state is saved before the backup is taken: when the process dies in the first backup
      copy, what the copy left, or what an earlier, failed update left, ends up installed. */
  lemma SpoiledBackupIsInstalled(h: Host, current: string, next: string, tries: seq<Try>, checks: seq<bool>, spoiled: Content)
    requires |tries| == 4 && Exec in h.files && current != next && !IsDowngrade(current, next)
    requires tries[0].faults.copy == CopyDied(Holds(spoiled)) ||
             (tries[0].faults.copy == CopyDied(Untouched) && Holding(h.files, Prev, spoiled))
    requires RollsBack(checks)
    ensures Update(h, current, next, tries).1 == Interrupted(0)
    ensures Holding(Startups(Update(h, current, next, tries).0, checks).files, Exec, spoiled)
  {
    var left := tries[0].faults.copy.left;
    DyingCopy(h.files, current, next, tries, 0);
    StartupsDecideTheUpdate(Host(LeaveAt(h.files, Prev, left), Some(UpdateState(current, next, 0))), checks);
  }

  lemma DyingCopy(fs: Files, current: string, next: string, tries: seq<Try>, k: nat)
    requires Exec in fs && current != next && !IsDowngrade(current, next)
    requires k < |tries| && tries[k].faults.copy.CopyDied? && (k > 0 ==> !tries[k].cancelled)
    ensures Attempts(fs, current, next, tries, k) == Ran(LeaveAt(fs, Prev, tries[k].faults.copy.left), Interrupted(k))
  {
    var a := BackupAndApply(fs, current, next, tries[k].fetch, tries[k].faults);
    assert a == BackUpAndInstall(fs, tries[k].fetch, tries[k].faults);
    assert a == Applied(LeaveAt(fs, Prev, tries[k].faults.copy.left), Died);
  }

  /** So program 1, updated to program 2, ends as neither: 7 is what the torn copy left. */
  lemma TornBackupIsInstalled(current: string, next: string, tries: seq<Try>)
    requires |tries| == 4 && current != next && !IsDowngrade(current, next)
    requires tries[0].faults.copy == CopyDied(Holds(7)) && (forall t :: t in tries ==> t.fetch == Fetched(2))
    ensures var files := Startups(Update(Host(map[Exec := 1], None), current, next, tries).0, [false, false, false, false]).files;
            Holding(files, Exec, 7) && !IsProgram(7, 1, tries)
  {
    SpoiledBackupIsInstalled(Host(map[Exec := 1], None), current, next, tries, [false, false, false, false], 7);
  }

  /** Whatever else fails, the fourth startup restores the old program exactly when its staging copy,
      its mode change and its two renames work; a failed rollback is not tried again. */
  lemma FourthStartupRestoresExactlyWhen(h: Host, before: Content, after: Content, reachable: bool, f: ReplaceFaults)
    requires Holding(h.files, Exec, after) && Holding(h.files, Prev, before) && before != after
    requires h.state.Some? && h.state.value.attempts == 3
    ensures var t := Startup(h, reachable, f);
            && (Holding(t.files, Exec, before) <==>
                  f.stage.Copied? && f.chmod.Works? && !f.dropStale.Dies? && f.moveOld.Works? && f.moveNew.Works?)
            && (t.state.Some? <==> Replace(h.files, Prev, f).outcome.Crashed?)
            && ProgramSafe(t.files, after, before)
  {
    ReplaceNeverLosesTheProgram(h.files, Prev, f);
  }

  // ---------- the agent's side, step by step ----------

  class Updates {
    const dir: BinaryDir
    var state: Option<UpdateState>

    constructor (h: Host)
      ensures fresh(dir) && View() == h
    {
      dir := new BinaryDir(h.files);
      state := h.state;
    }

    ghost function View(): Host
      reads this, dir
    {
      Host(dir.files, state)
    }

    /** HandleUpdate's loop over the backoffs. */
    method HandleUpdate(current: string, next: string, tries: seq<Try>) returns (ending: Ending)
      requires |tries| == 4
      modifies this, dir
      ensures (View(), ending) == Update(old(View()), current, next, tries)
    {
      if current == next { return AlreadyCurrent; }
      state := Some(UpdateState(current, next, 0));
      var k := 0;
      while true
        invariant k < |tries|
        invariant Attempts(dir.files, current, next, tries, k) == Attempts(old(dir.files), current, next, tries, 0)
        invariant state == Some(UpdateState(current, next, 0))
        decreases |tries| - k
      {
        var ended := TryOnce(current, next, tries, k);
        if ended.Some? { return ended.value; }
        k := k + 1;
      }
    }

    /** One turn of the loop: the wait, the try, and what becomes of its answer. */
    method TryOnce(current: string, next: string, tries: seq<Try>, k: nat) returns (ended: Option<Ending>)
      requires k < |tries|
      modifies this, dir
      ensures ended.Some? ==>
                && Ran(dir.files, ended.value) == Attempts(old(dir.files), current, next, tries, k)
                && state == if ended.value.GaveUp? then None else old(state)
      ensures ended.None? ==>
                && k + 1 < |tries| && state == old(state)
                && Attempts(dir.files, current, next, tries, k + 1) == Attempts(old(dir.files), current, next, tries, k)
    {
      if k > 0 && tries[k].cancelled { return Some(Cancelled(k)); }
      var answer := dir.BackupThenApply(current, next, tries[k].fetch, tries[k].faults);
      match answer {
        case Died => return Some(Interrupted(k));
        case PhaseError(phase) =>
          if !IsRetryable(answer) || k + 1 == |tries| {
            state := None;
            return Some(GaveUp(k, phase));
          }
          return None;
        case _ => return Some(Installed(k));
      }
    }

    /** checkPendingUpdate. */
    method CheckPendingUpdate(reachable: bool, f: ReplaceFaults)
      modifies this, dir
      ensures View() == Startup(old(View()), reachable, f)
    {
      if state.None? { return; }
      var attempts := state.value.attempts + 1;
      if attempts > 3 {
        var outcome := dir.RollbackBinary(f);
        if outcome.Crashed? { return; }
        state := None;
        return;
      }
      state := Some(state.value.(attempts := attempts));
      if reachable {
        state := None;
        var _ := dir.RemoveFile(Prev, Works);
      }
    }
  }
}
