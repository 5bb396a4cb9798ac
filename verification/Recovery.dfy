/**
 Single calls seen from outside: a failed apply undoes itself, and a resume after a crash
 ends where the uninterrupted apply would have ended.
 */
module Recovery {
  import opened Wrappers
  import opened Durable
  import opened CertStore
  import opened Credentials
  import opened Runs
  import opened Cutover

  const NO_REMOVAL_FAULT := Removal(Works, {})
  const NO_APPLY_FAULTS := ApplyFaults(Works, Works, Works, NO_REMOVAL_FAULT, Works, Works, NO_REMOVAL_FAULT,
                                       Works, Works, Works, NO_REMOVAL_FAULT)
  const NO_RESUME_FAULTS := ResumeFaults(Works, Works, Works, Works)

  predicate NoDeath(f: ApplyFaults) {
    && !f.stageCert.Dies? && !f.stageCa.Dies? && !f.savePending.Dies? && !f.activate.Dies?
    && !f.undoPending.Dies? && !f.commit.Dies? && !f.undoPointer.Dies? && !f.undoConfig.Dies?
    && !f.discardStaged.fate.Dies? && !f.discardInactive.fate.Dies? && !f.discardUncommitted.fate.Dies?
  }

  predicate ForwardWritesWork(f: ApplyFaults) {
    f.stageCert.Works? && f.stageCa.Works? && f.savePending.Works? && f.activate.Works? && f.commit.Works?
  }

  /** With contained failures, so with any single one, an accepted apply succeeds or leaves configuration,
      pointer and every other bundle as they were, in every state. */
  lemma FailedApplyUndoesItself(s: Sys, now: int, r: Rotation, f: ApplyFaults)
    requires s.mem == s.disk.config && Accepts(s, now, r) && NoDeath(f) && Contained(f)
    ensures var a := Apply(s, now, r, f);
            && a.outcome == (if ForwardWritesWork(f) then Done else Failed)
            && (a.outcome.Done? ==>
                  && PointerOf(a.sys.disk.certs.pointer) == Some(r.requestId)
                  && FilesAt(a.sys.disk.certs, Some(r.requestId)) == Some(GrantOf(s, r).files)
                  && Live(a.sys.mem) == GrantOf(s, r).values
                  && a.sys.mem == a.sys.disk.config && a.sys.mem == ClearPending(a.sys.mem)
                  && a.sys.mem.renewalStatus.Healthy? && a.sys.mem.renewalLastSuccess == now
                  && a.sys.mem.renewalAttempts == 0 && a.sys.mem.renewalNextRetry == 0)
            && (a.outcome.Failed? ==>
                  && a.sys.mem == s.mem && a.sys.disk.config == s.disk.config
                  && PointerOf(a.sys.disk.certs.pointer) == PointerOf(s.disk.certs.pointer))
            && OthersKept(s.disk.certs, a.sys.disk.certs, r.requestId)
  {
    var id := r.requestId;
    var staged := Stage(s.disk.certs, id, s.mem.serverId, r.cert.value, r.ca.value, now, f.stageCert, f.stageCa);
    if staged.outcome.Done? {
      var c := staged.certs;
      assert FilesAt(c, Some(id)) == Some(GrantOf(s, r).files);
      var pending := WithPending(s.mem, r, CurrentPointer(c));
      var s1 := WithCerts(s, c);
      SaveKeepsMemory(s1, pending, f.savePending);
      if f.savePending.Works? {
        FailedSwitchUndoesItself(Sys(Disk(pending, c), pending), s.mem, pending, now, id, f);
      }
    }
  }

  /** In the states of a run those are exactly the failures an apply undoes, deaths in its other writes included. */
  lemma FailedApplyUndoesItselfExactlyWhen(s: Sys, now: int, r: Rotation, f: ApplyFaults)
    requires s.mem == s.disk.config && !CompletePending(s.mem) && s.mem.pendingRenewalToken == ""
    requires PointerOf(s.disk.certs.pointer) != Some(s.mem.pendingId)
    requires Accepts(s, now, r) && Apply(s, now, r, f).outcome.Failed?
    ensures Undone(s, Apply(s, now, r, f).sys) <==> Contained(f)
  {
    ApplyShape(s, now, r, f);
  }

  lemma FailedSwitchUndoesItself(s: Sys, before: Config, pending: Config, now: int, id: string, f: ApplyFaults)
    requires s.mem == s.disk.config == pending && SameFixed(before, pending)
    requires IsBundleId(id) && Complete(s.disk.certs, id) && NoDeath(f) && ReachesSwitch(f) && Contained(f)
    ensures var a := SwitchPointer(s, before, pending, now, id, f);
            && a.outcome == (if f.activate.Works? && f.commit.Works? then Done else Failed)
            && (a.outcome.Done? ==>
                  a.sys.disk.certs == s.disk.certs.(pointer := Some(PointerText(id)))
                  && PointerOf(a.sys.disk.certs.pointer) == Some(id)
                  && a.sys.mem == a.sys.disk.config == WithEndpoint(Promoted(pending, now)))
            && (a.outcome.Failed? ==>
                  && a.sys.mem == a.sys.disk.config == before
                  && PointerOf(a.sys.disk.certs.pointer) == PointerOf(s.disk.certs.pointer))
            && OthersKept(s.disk.certs, a.sys.disk.certs, id)
  {
    var c := s.disk.certs;
    PointerAfter(c, id, CurrentPointer(c), f.activate);
    if f.activate.Fails? {
      SaveKeepsMemory(s, before, f.undoPending);
    } else {
      var switched := Activate(c, id, f.activate).certs;
      SaveKeepsMemory(WithCerts(s, switched), WithEndpoint(Promoted(pending, now)), f.commit);
      if f.commit.Fails? {
        PointerAfter(switched, id, CurrentPointer(c), f.undoPointer);
        var back := Rollback(switched, CurrentPointer(c), f.undoPointer).certs;
        SaveKeepsMemory(WithCerts(WithCerts(s, switched), back), before, f.undoConfig);
      }
    }
  }

  /** Equal but for the success time and a renewal endpoint that may still be defaulted. */
  predicate SameButTimeAndEndpoint(a: Config, b: Config) {
    && a.(renewalLastSuccess := b.renewalLastSuccess, renewalEndpoint := b.renewalEndpoint) == b
    && EffectiveEndpoint(a) == EffectiveEndpoint(b)
  }

  /** However an apply was cut off, if it left its record behind then a fault-free resume in the
      next process reaches the disk an uninterrupted apply reaches. */
  lemma ResumeFinishesApply(s: Sys, now: int, r: Rotation, f: ApplyFaults, later: int)
    requires s.mem == s.disk.config && !CompletePending(s.mem) && s.mem.pendingRenewalToken == ""
    requires PointerOf(s.disk.certs.pointer) != Some(s.mem.pendingId)
    requires Accepts(s, now, r)
    requires CompletePending(Apply(s, now, r, f).sys.disk.config)
    ensures var resumed := Resume(Restart(Apply(s, now, r, f).sys), later, NO_RESUME_FAULTS);
            var whole := Apply(s, now, r, NO_APPLY_FAULTS);
            && resumed.outcome == whole.outcome == Done
            && resumed.sys.disk.certs == whole.sys.disk.certs
            && SameButTimeAndEndpoint(resumed.sys.disk.config, whole.sys.disk.config)
            && resumed.sys.mem == resumed.sys.disk.config && whole.sys.mem == whole.sys.disk.config
  {
    var id := r.requestId;
    ApplyShape(s, now, r, f);
    var staged := Stage(s.disk.certs, id, s.mem.serverId, r.cert.value, r.ca.value, now, Works, Works);
    var pending := WithPending(s.mem, r, CurrentPointer(s.disk.certs));
    LeftRecord(s, now, r, f);
    var t := Restart(Apply(s, now, r, f).sys);
    assert t.mem == pending;
    var switched := staged.certs.(pointer := Some(PointerText(id)));
    assert Activate(t.disk.certs, id, Works) == Held(switched, Done);
    assert Activate(staged.certs, id, Works) == Held(switched, Done);
    SaveKeepsMemory(WithCerts(t, switched), Promoted(pending, later), Works);
    var s1 := WithCerts(s, staged.certs);
    SaveKeepsMemory(s1, pending, Works);
    var s2 := Sys(Disk(pending, staged.certs), pending);
    SaveKeepsMemory(WithCerts(s2, switched), WithEndpoint(Promoted(pending, now)), Works);
  }

  lemma LeftRecord(s: Sys, now: int, r: Rotation, f: ApplyFaults)
    requires s.mem == s.disk.config && !CompletePending(s.mem) && s.mem.pendingRenewalToken == ""
    requires PointerOf(s.disk.certs.pointer) != Some(s.mem.pendingId)
    requires Accepts(s, now, r)
    requires CompletePending(Apply(s, now, r, f).sys.disk.config)
    ensures var t := Apply(s, now, r, f).sys;
            var staged := Stage(s.disk.certs, r.requestId, s.mem.serverId, r.cert.value, r.ca.value, now, Works, Works);
            && staged.outcome.Done?
            && t.disk.config == WithPending(s.mem, r, CurrentPointer(s.disk.certs))
            && t.disk.certs.bundles == staged.certs.bundles && t.disk.certs.legacy == staged.certs.legacy
            && Complete(staged.certs, r.requestId)
  {
    var id := r.requestId;
    var staged := Stage(s.disk.certs, id, s.mem.serverId, r.cert.value, r.ca.value, now, f.stageCert, f.stageCa);
    var pending := WithPending(s.mem, r, CurrentPointer(s.disk.certs));
    if staged.outcome.Done? {
      SaveKeepsMemory(WithCerts(s, staged.certs), pending, f.savePending);
      if f.savePending.Works? {
        SwitchShape(Sys(Disk(pending, staged.certs), pending), s.mem, pending, now, id, f);
        assert WithEndpoint(Promoted(pending, now)).pendingId == "";
      }
    }
  }
}
