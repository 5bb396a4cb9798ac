/**
 What survives any number of failed writes and crashes, with requests, responses, resumes,
 failure records and tunnel updates in any order: the active pointer never names an
 incomplete bundle, and credential values of different grants never mix.
 The only assumption is that request identifiers are fresh.
 */
module Survival {
  import opened Wrappers
  import opened Durable
  import opened CertStore
  import opened Credentials
  import opened Runs
  import opened Cutover

  predicate PointerComplete(c: Certs) {
    PointerOf(c.pointer).Some? ==> Complete(c, PointerOf(c.pointer).value)
  }

  predicate RecordedPreviousComplete(d: Disk) {
    d.config.pendingHadPointer ==>
      && Complete(d.certs, d.config.pendingPrevious)
      && (d.config.pendingPrevious == d.config.pendingId ==> PointerOf(d.certs.pointer) == Some(d.config.pendingId))
  }

  predicate Inv(r: Run) {
    var d := r.sys.disk;
    && r.sys.mem == d.config
    && PointerComplete(d.certs)
    && RecordedPreviousComplete(d)
    && (d.config.pendingId == "" ==> !d.config.pendingHadPointer)
    && "" in r.used && d.config.pendingId in r.used
    && (PointerOf(d.certs.pointer).Some? ==> PointerOf(d.certs.pointer).value in r.used)
    && (d.config.pendingHadPointer ==> d.config.pendingPrevious in r.used)
  }

  /** No operation removes a complete bundle that the pointer file names afterwards. */
  ghost predicate Kept(c: Certs, d: Certs, id: string) {
    && OthersKept(c, d, id)
    && (PointerOf(d.pointer) == Some(id) && Complete(c, id) ==> Complete(d, id))
  }

  lemma DiscardKeeps(c: Certs, id: string, rm: Removal)
    ensures Kept(c, Discard(c, id, rm).certs, id)
    ensures Discard(c, id, rm).certs.pointer == c.pointer
  {
  }

  lemma AnyCommit(s: Sys, c: Certs, before: Config, pending: Config, now: int, id: string, f: ApplyFaults)
    requires s.mem == s.disk.config == pending && SameFixed(before, pending)
    requires PointerOf(s.disk.certs.pointer) == Some(id)
    ensures var a := Commit(s, before, pending, now, id, CurrentPointer(c), f);
            var t := a.sys;
            && t.mem == t.disk.config
            && t.disk.config == (if a.outcome.Done? then WithEndpoint(Promoted(pending, now))
                                 else if t.disk.config == before then before else pending)
            && PointerOf(t.disk.certs.pointer) in {PointerOf(c.pointer), Some(id)}
            && Kept(s.disk.certs, t.disk.certs, id)
  {
    SaveKeepsMemory(s, WithEndpoint(Promoted(pending, now)), f.commit);
    if f.commit.Fails? {
      var back := Rollback(s.disk.certs, CurrentPointer(c), f.undoPointer);
      PointerAfter(s.disk.certs, id, CurrentPointer(c), f.undoPointer);
      if !f.undoPointer.Dies? {
        var u := WithCerts(s, back.certs);
        SaveKeepsMemory(u, before, f.undoConfig);
        if f.undoConfig.Works? {
          DiscardKeeps(back.certs, id, f.discardUncommitted);
        }
      }
    }
  }

  /** Whatever fails: an apply leaves one of three configurations and at most moves the pointer to its own bundle. */
  lemma AnyApply(s: Sys, now: int, r: Rotation, f: ApplyFaults)
    requires s.mem == s.disk.config && Accepts(s, now, r)
    ensures var a := Apply(s, now, r, f);
            var t := a.sys;
            var pending := WithPending(s.mem, r, CurrentPointer(s.disk.certs));
            && t.mem == t.disk.config
            && t.disk.config == (if a.outcome.Done? then WithEndpoint(Promoted(pending, now))
                                 else if t.disk.config == s.mem then s.mem else pending)
            && PointerOf(t.disk.certs.pointer) in {PointerOf(s.disk.certs.pointer), Some(r.requestId)}
            && OthersKept(s.disk.certs, t.disk.certs, r.requestId)
            && (PointerComplete(s.disk.certs) ==> PointerComplete(t.disk.certs))
  {
    var id := r.requestId;
    var staged := Stage(s.disk.certs, id, s.mem.serverId, r.cert.value, r.ca.value, now, f.stageCert, f.stageCa);
    var c := staged.certs;
    assert SameExcept(s.disk.certs, c, id);
    assert PointerComplete(s.disk.certs) ==> PointerComplete(c);
    if staged.outcome.Done? {
      var s1 := WithCerts(s, c);
      var pending := WithPending(s.mem, r, CurrentPointer(c));
      SaveKeepsMemory(s1, pending, f.savePending);
      match f.savePending {
        case Dies =>
        case Fails => DiscardKeeps(c, id, f.discardStaged);
        case Works => AnySwitch(Sys(Disk(pending, c), pending), s.mem, pending, now, id, f);
      }
    }
  }

  lemma AnySwitch(s: Sys, before: Config, pending: Config, now: int, id: string, f: ApplyFaults)
    requires s.mem == s.disk.config == pending && SameFixed(before, pending)
    ensures var a := SwitchPointer(s, before, pending, now, id, f);
            var t := a.sys;
            && t.mem == t.disk.config
            && t.disk.config == (if a.outcome.Done? then WithEndpoint(Promoted(pending, now))
                                 else if t.disk.config == before then before else pending)
            && PointerOf(t.disk.certs.pointer) in {PointerOf(s.disk.certs.pointer), Some(id)}
            && OthersKept(s.disk.certs, t.disk.certs, id)
            && (PointerComplete(s.disk.certs) ==> PointerComplete(t.disk.certs))
  {
    var c := s.disk.certs;
    var active := Activate(c, id, f.activate);
    PointerAfter(c, id, CurrentPointer(c), f.activate);
    match active.outcome {
      case Crashed =>
      case Failed =>
        SaveKeepsMemory(s, before, f.undoPending);
        if f.undoPending.Works? { DiscardKeeps(c, id, f.discardInactive); }
      case Done =>
        AnyCommit(WithCerts(s, active.certs), c, before, pending, now, id, f);
    }
  }

  lemma BeginSurvives(r: Run, step: Step)
    requires Inv(r) && step.BeginStep? && Fresh(r, step)
    ensures Inv(Advance(r, step))
  {
    BeginShape(r.sys, step.now, step.freshId, step.key, step.beginFaults);
  }

  lemma AppliedRecordComplete(s: Sys, t: Sys, rot: Rotation)
    requires s.mem == s.disk.config && rot.requestId == s.mem.pendingId
    requires PointerComplete(s.disk.certs) && RecordedPreviousComplete(s.disk) && PointerComplete(t.disk.certs)
    requires OthersKept(s.disk.certs, t.disk.certs, rot.requestId)
    requires PointerOf(t.disk.certs.pointer) in {PointerOf(s.disk.certs.pointer), Some(rot.requestId)}
    requires t.disk.config in {s.mem, WithPending(s.mem, rot, CurrentPointer(s.disk.certs))}
    ensures RecordedPreviousComplete(t.disk)
  {
    assert t.disk.config.pendingId == s.mem.pendingId;
    if t.disk.config.pendingHadPointer {
      var prev := t.disk.config.pendingPrevious;
      assert Complete(s.disk.certs, prev);
      assert prev != rot.requestId ==> BundleAt(t.disk.certs, prev) == BundleAt(s.disk.certs, prev);
    }
  }

  lemma ApplySurvives(r: Run, step: Step)
    requires Inv(r) && step.ApplyStep?
    ensures Inv(Advance(r, step))
  {
    var s := r.sys;
    if Accepts(s, step.now, step.rotation) {
      AnyApply(s, step.now, step.rotation, step.applyFaults);
      var t := Apply(s, step.now, step.rotation, step.applyFaults).sys;
      assert Advance(r, step).sys == t by { assert Restart(t) == t; }
      var pending := WithPending(s.mem, step.rotation, CurrentPointer(s.disk.certs));
      if t.disk.config == WithEndpoint(Promoted(pending, step.now)) {
        assert !t.disk.config.pendingHadPointer && t.disk.config.pendingId == "";
      } else {
        assert t.disk.config.pendingId == s.mem.pendingId == step.rotation.requestId;
        AppliedRecordComplete(s, t, step.rotation);
      }
    }
  }

  lemma ResumeSurvives(r: Run, step: Step)
    requires Inv(r) && step.ResumeStep?
    ensures Inv(Advance(r, step))
  {
    if CompletePending(r.sys.mem) {
      ResumeShape(r.sys, step.now, step.resumeFaults);
      ResumedPointer(r.sys, step.now, step.resumeFaults);
    }
  }

  lemma RecordSurvives(r: Run, step: Step)
    requires Inv(r) && step.RecordStep?
    ensures Inv(Advance(r, step))
  {
    RecordShape(r.sys, step.now, step.code, step.clear, step.recordFaults);
  }

  lemma StepKeeps(r: Run, step: Step)
    requires Inv(r) && Fresh(r, step)
    ensures Inv(Advance(r, step))
  {
    match step
    case BeginStep(_, _, _, _) => BeginSurvives(r, step);
    case ApplyStep(_, _, _) => ApplySurvives(r, step);
    case ResumeStep(_, _) => ResumeSurvives(r, step);
    case RecordStep(_, _, _, _) => RecordSurvives(r, step);
    case _ =>
  }

  /** A resume that switches the pointer found the pending bundle complete. */
  lemma ResumedPointer(s: Sys, now: int, f: ResumeFaults)
    requires s.mem == s.disk.config && CompletePending(s.mem)
    ensures var c := Resume(s, now, f).sys.disk.certs;
            c.pointer == s.disk.certs.pointer || Complete(s.disk.certs, s.mem.pendingId)
    ensures s.mem.pendingHadPointer && s.mem.pendingPrevious == s.mem.pendingId
            && PointerOf(s.disk.certs.pointer) == Some(s.mem.pendingId) ==>
              PointerOf(Resume(s, now, f).sys.disk.certs.pointer) == Some(s.mem.pendingId)
  {
    ResumeShape(s, now, f);
  }

  /** The active pointer never names an incomplete bundle. */
  lemma {:induction false} PointerNeverIncomplete(r: Run, grant: Grant, steps: seq<Step>)
    requires Enrolled(r, grant) && AllFresh(r, steps)
    ensures PointerComplete(AdvanceAll(r, steps).sys.disk.certs)
    ensures Inv(AdvanceAll(r, steps))
  {
    if steps != [] {
      PointerNeverIncomplete(r, grant, steps[..|steps| - 1]);
      StepKeeps(AdvanceAll(r, steps[..|steps| - 1]), steps[|steps| - 1]);
    }
  }

  // ---------- values never mix ----------

  ghost predicate Sourced(c: Config, granted: set<Grant>) {
    && (exists g :: g in granted && Live(c) == g.values)
    && (c.pendingRenewalToken != "" ==>
          exists g :: g in granted && g.id == Some(c.pendingId) && PendingValues(c) == g.values)
  }

  ghost predicate Unmixed(r: Run) {
    && r.sys.mem == r.sys.disk.config
    && Sourced(r.sys.mem, r.granted)
    && (r.sys.mem.pendingId == "" ==> r.sys.mem.pendingRenewalToken == "")
  }

  lemma SourcedGrows(c: Config, d: Config, granted: set<Grant>, more: set<Grant>)
    requires Sourced(c, granted) && granted <= more && Live(c) == Live(d)
    requires d.pendingRenewalToken != "" ==> d.pendingId == c.pendingId && PendingValues(d) == PendingValues(c)
    ensures Sourced(d, more)
  {
  }

  lemma StepKeepsUnmixed(r: Run, step: Step)
    requires Unmixed(r)
    ensures Unmixed(Advance(r, step))
  {
    var s, t := r.sys, Advance(r, step);
    match step
    case ApplyStep(now, rot, f) =>
      if Accepts(s, now, rot) {
        AnyApply(s, now, rot, f);
        var g := GrantOf(s, rot);
        assert g in t.granted;
        if t.sys.mem == s.mem {
          SourcedGrows(s.mem, t.sys.mem, r.granted, t.granted);
        } else if t.sys.mem == WithPending(s.mem, rot, CurrentPointer(s.disk.certs)) {
          assert PendingValues(t.sys.mem) == g.values;
        } else {
          assert Live(t.sys.mem) == g.values;
        }
      } else {
        SourcedGrows(s.mem, t.sys.mem, r.granted, t.granted);
      }
    case ResumeStep(now, f) =>
      if CompletePending(s.mem) {
        ResumeShape(s, now, f);
        if t.sys.mem == s.mem {
          SourcedGrows(s.mem, t.sys.mem, r.granted, t.granted);
        }
      }
    case RecordStep(now, code, clear, f) =>
      RecordShape(s, now, code, clear, f);
      SourcedGrows(s.mem, t.sys.mem, r.granted, t.granted);
    case BeginStep(now, freshId, key, f) =>
      BeginShape(s, now, freshId, key, f);
      SourcedGrows(s.mem, t.sys.mem, r.granted, t.granted);
    case _ =>
      SourcedGrows(s.mem, t.sys.mem, r.granted, t.granted);
  }

  /** The four live values come from one grant; so do the four values of a pending record. */
  lemma {:induction false} ValuesNeverMix(r: Run, grant: Grant, steps: seq<Step>)
    requires Enrolled(r, grant) && AllFresh(r, steps)
    ensures Sourced(AdvanceAll(r, steps).sys.disk.config, AdvanceAll(r, steps).granted)
    ensures Unmixed(AdvanceAll(r, steps))
  {
    if steps == [] {
      assert grant in r.granted;
    } else {
      ValuesNeverMix(r, grant, steps[..|steps| - 1]);
      StepKeepsUnmixed(AdvanceAll(r, steps[..|steps| - 1]), steps[|steps| - 1]);
    }
  }
}
