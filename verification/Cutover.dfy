/**
 The two-phase cutover is atomic: over every run in which no apply meets one of two named
 patterns of failed writes, with a crash possible before any write, the active bundle and
 the live values always come from one grant, or a complete record says which two grants the
 switch is between.  Both patterns need two failures; both can break it.
 */
module Cutover {
  import opened Wrappers
  import opened Durable
  import opened CertStore
  import opened Credentials
  import opened Runs

  function RecordedPrevious(c: Config): Option<string> {
    if c.pendingHadPointer then Some(c.pendingPrevious) else None
  }

  /** The switch from grant `p` to grant `n` is recorded and not finished. */
  predicate Switching(d: Disk, p: Grant, n: Grant) {
    && Live(d.config) == p.values
    && RecordedPrevious(d.config) == p.id
    && FilesAt(d.certs, p.id) == Some(p.files)
    && PendingValues(d.config) == n.values
    && n.id == Some(d.config.pendingId)
    && FilesAt(d.certs, n.id) == Some(n.files)
    && n.id != p.id
    && (PointerOf(d.certs.pointer) == p.id || PointerOf(d.certs.pointer) == n.id)
  }

  ghost predicate AtomicCutover(d: Disk, granted: set<Grant>) {
    if CompletePending(d.config)
    then exists p, n :: p in granted && n in granted && Switching(d, p, n)
    else exists g :: g in granted && InForce(d, g)
  }

  ghost predicate Inv(r: Run) {
    var c := r.sys.disk.config;
    var pointer := PointerOf(r.sys.disk.certs.pointer);
    && r.sys.mem == c
    && (r.resumed ==> !CompletePending(c))
    && AtomicCutover(r.sys.disk, r.granted)
    && (!CompletePending(c) ==> c.pendingRenewalToken == "" && pointer != Some(c.pendingId))
    && "" in r.used && c.pendingId in r.used
    && (pointer.Some? ==> pointer.value in r.used)
    && (c.pendingHadPointer ==> c.pendingPrevious in r.used)
  }

  // ---------- what each store operation leaves alone ----------

  ghost predicate SameExcept(c: Certs, d: Certs, id: string) {
    && d.legacy == c.legacy
    && d.pointer == c.pointer
    && (forall k :: k != id ==> BundleAt(d, k) == BundleAt(c, k))
  }

  /** The fields no credential save changes. */
  predicate SameFixed(a: Config, b: Config) {
    && a.serverId == b.serverId && a.grpcEndpoint == b.grpcEndpoint && a.certDir == b.certDir
    && a.authMode == b.authMode && a.tunnelToken == b.tunnelToken && a.tunnelId == b.tunnelId
    && a.registryUrl == b.registryUrl && a.registryUsername == b.registryUsername
    && a.registryPassword == b.registryPassword && a.maxConcurrentBuilds == b.maxConcurrentBuilds
  }

  lemma SaveKeepsMemory(s: Sys, c: Config, f: Fate)
    requires s.mem == s.disk.config && SameFixed(s.mem, c)
    ensures Save(s, c, f) == if f.Works? then After(Sys(Disk(c, s.disk.certs), c), Done) else After(s, OutcomeOf(f))
  {
  }

  lemma BeginShape(s: Sys, now: int, freshId: string, key: nat, f: BeginFaults)
    requires s.mem == s.disk.config
    ensures var id := if s.mem.pendingId == "" then freshId else s.mem.pendingId;
            var a := Begin(s, now, freshId, key, f);
            && a.sys.mem == a.sys.disk.config == (if a.outcome.Done? then Requested(s.mem, id, now) else s.mem)
            && SameExcept(s.disk.certs, a.sys.disk.certs, id)
            && (forall k :: Complete(s.disk.certs, k) ==> Complete(a.sys.disk.certs, k))
  {
    var id := if s.mem.pendingId == "" then freshId else s.mem.pendingId;
    var p := Prepare(s.disk.certs, id, s.mem.serverId, key, f.prepare);
    SaveKeepsMemory(WithCerts(s, p.certs), Requested(s.mem, id, now), f.save);
  }

  lemma RecordShape(s: Sys, now: int, code: string, clear: bool, f: RecordFaults)
    requires s.mem == s.disk.config
    ensures var t := Record(s, now, code, clear, f).sys;
            && t.mem == t.disk.config == (if f.save.Works? then FailureRecorded(s.mem, now, code, clear) else s.mem)
            && SameExcept(s.disk.certs, t.disk.certs, s.mem.pendingId)
            && (!clear ==> t.disk.certs == s.disk.certs)
            && (PointerOf(s.disk.certs.pointer) == Some(s.mem.pendingId) ==> t.disk.certs == s.disk.certs)
  {
    SaveKeepsMemory(s, FailureRecorded(s.mem, now, code, clear), f.save);
  }

  // ---------- the steps ----------

  lemma BeginKeeps(r: Run, step: Step)
    requires Inv(r) && step.BeginStep? && Admitted(r, step)
    ensures Inv(Advance(r, step))
  {
    BeginShape(r.sys, step.now, step.freshId, step.key, step.beginFaults);
    var g :| g in r.granted && InForce(r.sys.disk, g);
    assert InForce(Advance(r, step).sys.disk, g);
  }

  lemma TunnelKeeps(r: Run, step: Step)
    requires Inv(r) && (step.TunnelStep? || step.RestartStep?)
    ensures Inv(Advance(r, step))
  {
    var t := Advance(r, step);
    if CompletePending(r.sys.disk.config) {
      var p, n :| p in r.granted && n in r.granted && Switching(r.sys.disk, p, n);
      assert Switching(t.sys.disk, p, n);
    } else {
      var g :| g in r.granted && InForce(r.sys.disk, g);
      assert InForce(t.sys.disk, g);
    }
  }

  lemma RecordKeeps(r: Run, step: Step)
    requires Inv(r) && step.RecordStep? && Admitted(r, step)
    ensures Inv(Advance(r, step))
  {
    RecordShape(r.sys, step.now, step.code, step.clear, step.recordFaults);
    var t := Advance(r, step);
    if CompletePending(r.sys.disk.config) {
      var p, n :| p in r.granted && n in r.granted && Switching(r.sys.disk, p, n);
      assert Switching(t.sys.disk, p, n);
    } else {
      var g :| g in r.granted && InForce(r.sys.disk, g);
      assert InForce(t.sys.disk, g);
    }
  }

  /** A resume touches only the pointer and, if it finishes, the configuration. */
  lemma ResumeShape(s: Sys, now: int, f: ResumeFaults)
    requires s.mem == s.disk.config && CompletePending(s.mem)
    ensures var t := Resume(s, now, f).sys;
            && t.disk.certs.bundles == s.disk.certs.bundles && t.disk.certs.legacy == s.disk.certs.legacy
            && t.mem == t.disk.config
            && (t.disk.config == s.mem || t.disk.config == Promoted(s.mem, now))
            && (t.disk.config == s.mem ==>
                  PointerOf(t.disk.certs.pointer) in
                    {PointerOf(s.disk.certs.pointer), Some(s.mem.pendingId), RecordedPrevious(s.mem)})
            && (t.disk.config == Promoted(s.mem, now) ==> PointerOf(t.disk.certs.pointer) == Some(s.mem.pendingId))
            && (Resume(s, now, f).outcome.Done? <==> t.disk.config == Promoted(s.mem, now))
  {
    var prev := Activation(s.mem.pendingPrevious, s.mem.pendingHadPointer);
    var active := Activate(s.disk.certs, s.mem.pendingId, f.activate);
    PointerAfter(s.disk.certs, s.mem.pendingId, prev, f.activate);
    PointerAfter(active.certs, s.mem.pendingId, prev, f.undoPointer);
    assert Promoted(s.mem, now).pendingId == "";
    if active.outcome.Done? {
      var c := WithCerts(s, active.certs);
      if f.commit.Fails? {
        var back := Rollback(active.certs, prev, f.undoPointer);
        assert WithCerts(c, back.certs) == WithCerts(s, back.certs);
      }
    }
  }

  lemma ResumeKeeps(r: Run, step: Step)
    requires Inv(r) && step.ResumeStep?
    ensures Inv(Advance(r, step))
  {
    var s := r.sys;
    if CompletePending(s.mem) {
      ResumeShape(s, step.now, step.resumeFaults);
      var t := Advance(r, step);
      assert t.sys.mem == t.sys.disk.config;
      var p, n :| p in r.granted && n in r.granted && Switching(s.disk, p, n);
      if t.sys.disk.config == s.mem {
        assert Switching(t.sys.disk, p, n);
      } else {
        assert Live(t.sys.disk.config) == PendingValues(s.mem);
        assert InForce(t.sys.disk, n);
      }
    }
  }

  // ---------- apply: the four ways it can leave the disk ----------

  /** Only the request's own bundle and the pointer file may differ. */
  ghost predicate OthersKept(c: Certs, d: Certs, id: string) {
    d.legacy == c.legacy && forall k :: k != id ==> BundleAt(d, k) == BundleAt(c, k)
  }

  /** Configuration and pointer are as before. */
  predicate Undone(s: Sys, t: Sys) {
    t.disk.config == s.mem && PointerOf(t.disk.certs.pointer) == PointerOf(s.disk.certs.pointer)
  }

  /** The pointer moved, the values did not, and nothing records it. */
  predicate Torn(s: Sys, t: Sys, id: string) {
    t.disk.config == s.mem && PointerOf(t.disk.certs.pointer) == Some(id)
  }

  /** The switch is recorded: a resume can finish it. */
  predicate Recorded(s: Sys, t: Sys, r: Rotation, g: Grant) {
    && t.disk.config == WithPending(s.mem, r, CurrentPointer(s.disk.certs))
    && FilesAt(t.disk.certs, g.id) == Some(g.files)
    && (PointerOf(t.disk.certs.pointer) == PointerOf(s.disk.certs.pointer) ||
        PointerOf(t.disk.certs.pointer) == g.id)
  }

  predicate Finished(s: Sys, t: Sys, r: Rotation, now: int, g: Grant) {
    && t.disk.config == WithEndpoint(Promoted(WithPending(s.mem, r, CurrentPointer(s.disk.certs)), now))
    && FilesAt(t.disk.certs, g.id) == Some(g.files)
    && PointerOf(t.disk.certs.pointer) == g.id
  }

  /** The end of an apply, entered with `pending` saved and the pointer switched from `c`. */
  lemma CommitShape(s: Sys, c: Certs, before: Config, pending: Config, now: int, id: string, f: ApplyFaults)
    requires s.mem == s.disk.config == pending && SameFixed(before, pending)
    requires PointerOf(s.disk.certs.pointer) == Some(id) && PointerOf(c.pointer) != Some(id)
    ensures var a := Commit(s, before, pending, now, id, CurrentPointer(c), f);
            var t := a.sys;
            var pointer := PointerOf(t.disk.certs.pointer);
            && t.mem == t.disk.config
            && OthersKept(s.disk.certs, t.disk.certs, id)
            && (a.outcome.Done? <==> f.commit.Works?)
            && (f.commit.Works? ==>
                  t.disk.certs == s.disk.certs && t.disk.config == WithEndpoint(Promoted(pending, now)))
            && (f.commit.Fails? && !f.undoPointer.Dies? && f.undoConfig.Works? ==>
                  && t.disk.config == before
                  && pointer == (if f.undoPointer.Works? then PointerOf(c.pointer) else Some(id)))
            && (!f.commit.Works? && !(f.commit.Fails? && !f.undoPointer.Dies? && f.undoConfig.Works?) ==>
                  && t.disk.config == pending && t.disk.certs.bundles == s.disk.certs.bundles
                  && pointer in {PointerOf(c.pointer), Some(id)})
            && (a.outcome.Failed? ==> f.commit.Fails? && !f.undoPointer.Dies? && !f.undoConfig.Dies?)
  {
    SaveKeepsMemory(s, WithEndpoint(Promoted(pending, now)), f.commit);
    if f.commit.Fails? {
      CommitUndone(s, c, before, pending, now, id, f);
    }
  }

  lemma CommitUndone(s: Sys, c: Certs, before: Config, pending: Config, now: int, id: string, f: ApplyFaults)
    requires s.mem == s.disk.config == pending && SameFixed(before, pending) && f.commit.Fails?
    requires PointerOf(s.disk.certs.pointer) == Some(id) && PointerOf(c.pointer) != Some(id)
    ensures var a := Commit(s, before, pending, now, id, CurrentPointer(c), f);
            var undone := !f.undoPointer.Dies? && f.undoConfig.Works?;
            && a.sys.mem == a.sys.disk.config == (if undone then before else pending)
            && OthersKept(s.disk.certs, a.sys.disk.certs, id)
            && (!undone ==> a.sys.disk.certs.bundles == s.disk.certs.bundles)
            && PointerOf(a.sys.disk.certs.pointer) ==
                 (if f.undoPointer.Works? then PointerOf(c.pointer) else Some(id))
            && !a.outcome.Done?
            && (a.outcome.Failed? ==> !f.undoPointer.Dies? && !f.undoConfig.Dies?)
  {
    var back := Rollback(s.disk.certs, CurrentPointer(c), f.undoPointer);
    PointerAfter(s.disk.certs, id, CurrentPointer(c), f.undoPointer);
    if !f.undoPointer.Dies? {
      var u := WithCerts(s, back.certs);
      SaveKeepsMemory(u, before, f.undoConfig);
      assert OthersKept(s.disk.certs, back.certs, id);
      assert SameExcept(back.certs, Discard(back.certs, id, f.discardUncommitted).certs, id);
    }
  }

  /** From the saved pending record on: entered with `pending` on disk and the pointer not yet switched. */
  lemma SwitchShape(s: Sys, before: Config, pending: Config, now: int, id: string, f: ApplyFaults)
    requires s.mem == s.disk.config == pending && SameFixed(before, pending) && before != pending
    requires before.pendingId == pending.pendingId == id
    requires PointerOf(s.disk.certs.pointer) != Some(id) && IsBundleId(id) && Complete(s.disk.certs, id)
    ensures var a := SwitchPointer(s, before, pending, now, id, f);
            var t := a.sys;
            var pointer := PointerOf(t.disk.certs.pointer);
            var from := PointerOf(s.disk.certs.pointer);
            && t.mem == t.disk.config
            && OthersKept(s.disk.certs, t.disk.certs, id)
            && (t.disk.config in {before, pending, WithEndpoint(Promoted(pending, now))})
            && (t.disk.config == before ==> pointer in {from, Some(id)})
            && (t.disk.config == before && pointer == Some(id) <==>
                  f.activate.Works? && f.commit.Fails? && f.undoPointer.Fails? && f.undoConfig.Works?)
            && (t.disk.config != before ==> t.disk.certs.bundles == s.disk.certs.bundles)
            && (t.disk.config == pending ==> pointer in {from, Some(id)})
            && (a.outcome.Done? ==> t.disk.config == WithEndpoint(Promoted(pending, now)) && pointer == Some(id))
            && (t.disk.config == WithEndpoint(Promoted(pending, now)) ==>
                  f.activate.Works? && a.outcome.Done? && pointer == Some(id))
            && (a.outcome.Failed? && t.disk.config == pending <==>
                  || (f.activate.Fails? && f.undoPending.Fails?)
                  || (f.activate.Works? && f.commit.Fails? && !f.undoPointer.Dies? && f.undoConfig.Fails?))
  {
    var c := s.disk.certs;
    assert WithEndpoint(Promoted(pending, now)).pendingId == "" != id;
    PointerAfter(c, id, CurrentPointer(c), f.activate);
    match f.activate {
      case Dies =>
      case Fails =>
        SaveKeepsMemory(s, before, f.undoPending);
        if f.undoPending.Works? {
          assert SameExcept(c, Discard(c, id, f.discardInactive).certs, id);
        }
      case Works =>
        CommitShape(WithCerts(s, Activate(c, id, f.activate).certs), c, before, pending, now, id, f);
    }
  }

  /** Everything an accepted apply can leave behind, for every combination of faults. */
  lemma ApplyShape(s: Sys, now: int, r: Rotation, f: ApplyFaults)
    requires s.mem == s.disk.config && !CompletePending(s.mem) && s.mem.pendingRenewalToken == ""
    requires PointerOf(s.disk.certs.pointer) != Some(s.mem.pendingId)
    requires Accepts(s, now, r)
    ensures var a := Apply(s, now, r, f);
            && a.sys.mem == a.sys.disk.config
            && OthersKept(s.disk.certs, a.sys.disk.certs, r.requestId)
            && (Undone(s, a.sys) || Torn(s, a.sys, r.requestId) || Recorded(s, a.sys, r, GrantOf(s, r))
                || Finished(s, a.sys, r, now, GrantOf(s, r)))
            && (Torn(s, a.sys, r.requestId) <==> Diverges(f))
            && (a.outcome.Done? ==> Finished(s, a.sys, r, now, GrantOf(s, r)))
            && (a.outcome.Failed? && Recorded(s, a.sys, r, GrantOf(s, r)) <==> KeepsRecord(f))
  {
    var id := r.requestId;
    var staged := Stage(s.disk.certs, id, s.mem.serverId, r.cert.value, r.ca.value, now, f.stageCert, f.stageCa);
    var s1 := WithCerts(s, staged.certs);
    if staged.outcome.Done? {
      assert FilesAt(s1.disk.certs, Some(id)) == Some(GrantOf(s, r).files);
      var pending := WithPending(s.mem, r, CurrentPointer(s.disk.certs));
      SaveKeepsMemory(s1, pending, f.savePending);
      if f.savePending.Works? {
        SwitchShape(Sys(Disk(pending, s1.disk.certs), pending), s.mem, pending, now, id, f);
      }
    }
  }

  /** An accepted apply keeps the cutover atomic unless exactly the tearing failures occur. */
  lemma ApplyTearsExactlyWhen(r: Run, step: Step)
    requires Inv(r) && step.ApplyStep? && r.resumed && Accepts(r.sys, step.now, step.rotation)
    ensures var id := step.rotation.requestId;
            var t := Advance(r, step);
            && (Torn(r.sys, t.sys, id) <==> Diverges(step.applyFaults))
            && (!Diverges(step.applyFaults) ==> AtomicCutover(t.sys.disk, t.granted))
            && (Diverges(step.applyFaults) && (forall g | g in t.granted && g.id == Some(id) :: g.values != Live(r.sys.mem)) ==>
                  !AtomicCutover(t.sys.disk, t.granted))
  {
    var s, rot, t := r.sys, step.rotation, Advance(r, step);
    var n := GrantOf(s, rot);
    ApplyShape(s, step.now, rot, step.applyFaults);
    var p :| p in r.granted && InForce(s.disk, p);
    assert FilesAt(t.sys.disk.certs, p.id) == Some(p.files);
    if Undone(s, t.sys) {
      assert InForce(t.sys.disk, p);
    } else if Recorded(s, t.sys, rot, n) {
      assert Switching(t.sys.disk, p, n);
    } else if Finished(s, t.sys, rot, step.now, n) {
      assert InForce(t.sys.disk, n);
    }
  }

  /** An apply that keeps its record returned an error, is still atomic, and has its certificate staged. */
  lemma RecordKept(r: Run, step: Step)
    requires Inv(r) && step.ApplyStep? && r.resumed && Accepts(r.sys, step.now, step.rotation)
    requires KeepsRecord(step.applyFaults)
    ensures var t := Advance(r, step);
            && Recorded(r.sys, t.sys, step.rotation, GrantOf(r.sys, step.rotation))
            && CompletePending(t.sys.disk.config) && t.resumed && t.sys.mem == t.sys.disk.config
            && AtomicCutover(t.sys.disk, t.granted)
            && (step.applyFaults.activate.Works? && step.applyFaults.undoPointer.Fails? ==>
                  PointerOf(t.sys.disk.certs.pointer) == Some(step.rotation.requestId))
  {
    ApplyShape(r.sys, step.now, step.rotation, step.applyFaults);
    ApplyTearsExactlyWhen(r, step);
    var a := Apply(r.sys, step.now, step.rotation, step.applyFaults);
    assert Advance(r, step).sys == a.sys;
    if step.applyFaults.activate.Works? && step.applyFaults.undoPointer.Fails? {
      KeptPointer(r.sys, step.now, step.rotation, step.applyFaults);
    }
  }

  lemma KeptPointer(s: Sys, now: int, r: Rotation, f: ApplyFaults)
    requires s.mem == s.disk.config && Accepts(s, now, r) && KeepsRecord(f)
    requires f.activate.Works? && f.undoPointer.Fails?
    requires PointerOf(s.disk.certs.pointer) != Some(r.requestId)
    ensures PointerOf(Apply(s, now, r, f).sys.disk.certs.pointer) == Some(r.requestId)
  {
    var id := r.requestId;
    var c := Stage(s.disk.certs, id, s.mem.serverId, r.cert.value, r.ca.value, now, Works, Works).certs;
    var pending := WithPending(s.mem, r, CurrentPointer(c));
    SaveKeepsMemory(WithCerts(s, c), pending, Works);
    PointerAfter(c, id, CurrentPointer(c), Works);
    CommitUndone(Sys(Disk(pending, Activate(c, id, Works).certs), pending), c, s.mem, pending, now, id, f);
  }

  /** The second way to break the cutover takes two calls: an apply that keeps its record, and, in the
      same process, another response for the same request, of which only the certificate is written
      before the process dies. */
  lemma SecondResponseBreaksAKeptRecord(r: Run, first: Step, second: Step)
    requires Inv(r) && r.resumed && first.ApplyStep? && second.ApplyStep?
    requires Accepts(r.sys, first.now, first.rotation) && KeepsRecord(first.applyFaults)
    requires Accepts(Advance(r, first).sys, second.now, second.rotation)
    requires second.applyFaults.stageCert.Works? && second.applyFaults.stageCa.Dies?
    requires first.rotation.cert != second.rotation.cert && first.rotation.renewalToken != second.rotation.renewalToken
    requires forall g :: g in r.granted ==> g.id != Some(first.rotation.requestId)
    ensures var t := Advance(Advance(r, first), second);
            Contained(second.applyFaults) && !AtomicCutover(t.sys.disk, t.granted)
  {
    RecordKept(r, first);
    var s := Advance(r, first).sys;
    var t := Advance(Advance(r, first), second);
    var id := first.rotation.requestId;
    assert second.rotation.requestId == id == s.mem.pendingId;
    assert t.sys.disk.config == s.disk.config;
    assert BundleAt(t.sys.disk.certs, id).cert == second.rotation.cert;
    assert PendingValues(s.disk.config).renewalToken == first.rotation.renewalToken;
    forall p, n | p in t.granted && n in t.granted ensures !Switching(t.sys.disk, p, n) {
      assert n in r.granted || n == GrantOf(r.sys, first.rotation) || n == GrantOf(s, second.rotation);
    }
  }

  /** The third: an apply that keeps its record with the pointer switched, and then a rejection, which
      clears the record. */
  lemma RejectionBreaksAKeptRecord(r: Run, first: Step, reject: Step)
    requires Inv(r) && r.resumed && first.ApplyStep? && reject.RecordStep? && reject.clear
    requires Accepts(r.sys, first.now, first.rotation) && KeepsRecord(first.applyFaults)
    requires first.applyFaults.activate.Works? && first.applyFaults.undoPointer.Fails? && reject.recordFaults.save.Works?
    requires first.rotation.renewalToken != r.sys.mem.renewalToken
    requires forall g :: g in r.granted ==> g.id != Some(first.rotation.requestId)
    ensures var t := Advance(Advance(r, first), reject);
            Admitted(Advance(r, first), reject) && !AtomicCutover(t.sys.disk, t.granted)
  {
    RecordKept(r, first);
    var s := Advance(r, first).sys;
    RecordShape(s, reject.now, reject.code, true, reject.recordFaults);
    var t := Advance(Advance(r, first), reject);
    assert t.sys.disk.config == FailureRecorded(s.mem, reject.now, reject.code, true);
    assert PointerOf(t.sys.disk.certs.pointer) == Some(first.rotation.requestId);
    forall g | g in t.granted ensures !InForce(t.sys.disk, g) {
      assert g in r.granted || g == GrantOf(r.sys, first.rotation);
    }
  }

  /** The bookkeeping part of Inv after an apply that did not tear. */
  lemma AppliedTracked(s: Sys, t: Sys, now: int, r: Rotation)
    requires s.mem == s.disk.config && Accepts(s, now, r)
    requires !CompletePending(s.mem) && s.mem.pendingRenewalToken == ""
    requires PointerOf(s.disk.certs.pointer) != Some(s.mem.pendingId)
    requires Undone(s, t) || Recorded(s, t, r, GrantOf(s, r)) || Finished(s, t, r, now, GrantOf(s, r))
    ensures var c := t.disk.config;
            var pointer := PointerOf(t.disk.certs.pointer);
            && (CompletePending(c) <==> Recorded(s, t, r, GrantOf(s, r)))
            && (!CompletePending(c) ==> c.pendingRenewalToken == "" && pointer != Some(c.pendingId))
            && c.pendingId in {s.mem.pendingId, ""}
            && pointer in {PointerOf(s.disk.certs.pointer), Some(s.mem.pendingId)}
            && (c.pendingHadPointer ==>
                  (s.mem.pendingHadPointer && c.pendingPrevious == s.mem.pendingPrevious)
                  || PointerOf(s.disk.certs.pointer) == Some(c.pendingPrevious))
  {
  }

  lemma ApplyKeeps(r: Run, step: Step)
    requires Inv(r) && step.ApplyStep? && Admitted(r, step)
    ensures Inv(Advance(r, step))
  {
    var s, rot, f := r.sys, step.rotation, step.applyFaults;
    if Accepts(s, step.now, rot) {
      ApplyTearsExactlyWhen(r, step);
      ApplyShape(s, step.now, rot, f);
      assert !Diverges(f);
      var t := Advance(r, step);
      var a := Apply(s, step.now, rot, f);
      assert t.sys == a.sys by { assert Restart(a.sys) == a.sys; }
      AppliedTracked(s, a.sys, step.now, rot);
      assert t.resumed ==> !a.outcome.Crashed?;
    } else {
      var g :| g in r.granted && InForce(s.disk, g);
      assert InForce(Advance(r, step).sys.disk, g);
    }
  }

  lemma StepKeeps(r: Run, step: Step)
    requires Inv(r) && Admitted(r, step)
    ensures Inv(Advance(r, step))
  {
    match step
    case BeginStep(_, _, _, _) => BeginKeeps(r, step);
    case ApplyStep(_, _, _) => ApplyKeeps(r, step);
    case ResumeStep(_, _) => ResumeKeeps(r, step);
    case RecordStep(_, _, _, _) => RecordKeeps(r, step);
    case _ => TunnelKeeps(r, step);
  }

  lemma {:induction false} RunKeeps(r: Run, grant: Grant, steps: seq<Step>)
    requires Enrolled(r, grant) && AllAdmitted(r, steps)
    ensures Inv(AdvanceAll(r, steps))
  {
    if steps == [] {
      assert InForce(r.sys.disk, grant);
    } else {
      RunKeeps(r, grant, steps[..|steps| - 1]);
      StepKeeps(AdvanceAll(r, steps[..|steps| - 1]), steps[|steps| - 1]);
    }
  }

  // ---------- main results ----------

  /** Which files the agent connects with and which values it presents, at any moment of any run. */
  lemma CutoverIsAtomic(r: Run, grant: Grant, steps: seq<Step>)
    requires Enrolled(r, grant) && AllAdmitted(r, steps)
    ensures var t := AdvanceAll(r, steps);
            var d := t.sys.disk;
            && AtomicCutover(d, t.granted)
            && (!CompletePending(d.config) ==>
                  exists g :: g in t.granted && Live(d.config) == g.values && FilesOf(Active(d.certs)) == Some(g.files))
            && (CompletePending(d.config) ==>
                  exists p, n :: p in t.granted && n in t.granted && Switching(d, p, n)
                                 && FilesOf(Active(d.certs)) in {Some(p.files), Some(n.files)})
  {
    RunKeeps(r, grant, steps);
    var t := AdvanceAll(r, steps);
    var d := t.sys.disk;
    if CompletePending(d.config) {
      var p, n :| p in t.granted && n in t.granted && Switching(d, p, n);
      assert FilesOf(Active(d.certs)) in {Some(p.files), Some(n.files)};
    } else {
      var g :| g in t.granted && InForce(d, g);
      assert FilesOf(Active(d.certs)) == Some(g.files);
    }
  }
}
