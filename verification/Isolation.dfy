/**
 No lost update: credential steps and tunnel updates share one configuration file and one
 in-memory copy, yet over any interleaving, with saves failing and processes dying anywhere,
 each kind of update evolves as if the other did not exist.
 */
module Isolation {
  import opened Durable
  import opened CertStore
  import opened Credentials
  import opened Runs
  import opened Pacing
  import Cutover
  import Survival

  datatype Tunnel = Tunnel(token: string, id: string)

  function TunnelOf(c: Config): Tunnel {
    Tunnel(c.tunnelToken, c.tunnelId)
  }

  /** The configuration as if no tunnel had ever been configured. */
  function Erase(c: Config): Config {
    c.(tunnelToken := "", tunnelId := "")
  }

  function EraseSys(s: Sys): Sys {
    Sys(Disk(Erase(s.disk.config), s.disk.certs), Erase(s.mem))
  }

  function EraseAfter(a: After): After {
    After(EraseSys(a.sys), a.outcome)
  }

  function WithoutTunnel(steps: seq<Step>): seq<Step> {
    if steps == [] then []
    else
      var rest := WithoutTunnel(steps[..|steps| - 1]);
      if steps[|steps| - 1].TunnelStep? then rest else rest + [steps[|steps| - 1]]
  }

  /** The last tunnel update whose save worked. */
  function LastTunnel(initial: Tunnel, steps: seq<Step>): Tunnel {
    if steps == [] then initial
    else
      var last := steps[|steps| - 1];
      if last.TunnelStep? && last.fate.Works? then Tunnel(last.token, last.tunnel)
      else LastTunnel(initial, steps[..|steps| - 1])
  }

  /** Identity and settings that neither kind of update touches. */
  predicate SameIdentity(a: Config, b: Config) {
    && a.serverId == b.serverId && a.grpcEndpoint == b.grpcEndpoint && a.certDir == b.certDir
    && a.authMode == b.authMode && a.registryUrl == b.registryUrl
    && a.registryUsername == b.registryUsername && a.registryPassword == b.registryPassword
    && a.maxConcurrentBuilds == b.maxConcurrentBuilds
  }

  // ---------- credential steps do not see the tunnel fields ----------

  lemma SaveErases(s: Sys, c: Config, f: Fate)
    ensures Save(EraseSys(s), Erase(c), f) == EraseAfter(Save(s, c, f))
  {
  }

  lemma CommitErases(s: Sys, before: Config, pending: Config, now: int, id: string, a: Activation, f: ApplyFaults)
    ensures Commit(EraseSys(s), Erase(before), Erase(pending), now, id, a, f) ==
            EraseAfter(Commit(s, before, pending, now, id, a, f))
  {
    var final := WithEndpoint(Promoted(pending, now));
    assert WithEndpoint(Promoted(Erase(pending), now)) == Erase(final);
    SaveErases(s, final, f.commit);
    var saved := Save(s, final, f.commit);
    var back := Rollback(saved.sys.disk.certs, a, f.undoPointer);
    SaveErases(WithCerts(saved.sys, back.certs), before, f.undoConfig);
  }

  lemma SwitchErases(s: Sys, before: Config, pending: Config, now: int, id: string, f: ApplyFaults)
    ensures SwitchPointer(EraseSys(s), Erase(before), Erase(pending), now, id, f) ==
            EraseAfter(SwitchPointer(s, before, pending, now, id, f))
  {
    SaveErases(s, before, f.undoPending);
    var active := Activate(s.disk.certs, id, f.activate);
    CommitErases(WithCerts(s, active.certs), before, pending, now, id, CurrentPointer(s.disk.certs), f);
  }

  lemma ApplyErases(s: Sys, now: int, r: Rotation, f: ApplyFaults)
    ensures Apply(EraseSys(s), now, r, f) == EraseAfter(Apply(s, now, r, f))
  {
    if Accepts(s, now, r) {
      var staged := Stage(s.disk.certs, r.requestId, s.mem.serverId, r.cert.value, r.ca.value, now,
                          f.stageCert, f.stageCa);
      var t := WithCerts(s, staged.certs);
      assert WithCerts(EraseSys(s), staged.certs) == EraseSys(t);
      var pending := WithPending(t.mem, r, CurrentPointer(t.disk.certs));
      assert WithPending(Erase(t.mem), r, CurrentPointer(t.disk.certs)) == Erase(pending);
      SaveErases(t, pending, f.savePending);
      SwitchErases(Save(t, pending, f.savePending).sys, t.mem, pending, now, r.requestId, f);
    }
  }

  lemma ResumeErases(s: Sys, now: int, f: ResumeFaults)
    ensures Resume(EraseSys(s), now, f) == EraseAfter(Resume(s, now, f))
  {
    var active := Activate(s.disk.certs, s.mem.pendingId, f.activate);
    var final := Promoted(s.mem, now);
    assert Promoted(Erase(s.mem), now) == Erase(final);
    SaveErases(WithCerts(s, active.certs), final, f.commit);
    var back := Rollback(active.certs, Activation(s.mem.pendingPrevious, s.mem.pendingHadPointer), f.undoPointer);
    SaveErases(WithCerts(s, back.certs), s.mem, f.undoConfig);
  }

  lemma StepErases(s: Sys, step: Step)
    requires !step.TunnelStep?
    ensures Next(EraseSys(s), step) == EraseSys(Next(s, step))
  {
    match step
    case BeginStep(now, freshId, key, f) =>
      var id := if s.mem.pendingId == "" then freshId else s.mem.pendingId;
      var p := Prepare(s.disk.certs, id, s.mem.serverId, key, f.prepare);
      SaveErases(WithCerts(s, p.certs), Requested(s.mem, id, now), f.save);
    case ApplyStep(now, r, f) => ApplyErases(s, now, r, f);
    case ResumeStep(now, f) => ResumeErases(s, now, f);
    case RecordStep(now, code, clear, f) =>
      var next := FailureRecorded(s.mem, now, code, clear);
      assert FailureRecorded(Erase(s.mem), now, code, clear) == Erase(next);
      SaveErases(s, next, f.save);
    case RestartStep =>
  }

  // ---------- every step keeps memory equal to disk, and the other part as it was ----------

  lemma StepFrames(s: Sys, step: Step)
    requires s.mem == s.disk.config
    ensures var t := Next(s, step);
            && t.mem == t.disk.config
            && SameIdentity(s.mem, t.mem)
            && TunnelOf(t.mem) == LastTunnel(TunnelOf(s.mem), [step])
            && (step.TunnelStep? ==> EraseSys(t) == EraseSys(s))
  {
    assert LastTunnel(TunnelOf(s.mem), [step][..0]) == TunnelOf(s.mem);
    match step
    case BeginStep(now, freshId, key, f) => Cutover.BeginShape(s, now, freshId, key, f);
    case RecordStep(now, code, clear, f) => Cutover.RecordShape(s, now, code, clear, f);
    case ApplyStep(now, r, f) =>
      if Accepts(s, now, r) { Survival.AnyApply(s, now, r, f); }
    case ResumeStep(now, f) =>
      ResumeFrames(s, now, f);
    case _ =>
  }

  lemma ResumeFrames(s: Sys, now: int, f: ResumeFaults)
    requires s.mem == s.disk.config
    ensures var t := Resume(s, now, f).sys;
            t.mem == t.disk.config && (t.mem == s.mem || t.mem == Promoted(s.mem, now))
  {
  }

  /** Credential state is that of the run without its tunnel updates; the tunnel fields are those of
      the last successful update; memory equals disk; identity never changes. */
  lemma {:induction false} NoLostUpdate(s: Sys, steps: seq<Step>)
    requires s.mem == s.disk.config
    ensures var t := NextAll(s, steps);
            && t.mem == t.disk.config
            && EraseSys(t) == NextAll(EraseSys(s), WithoutTunnel(steps))
            && TunnelOf(t.mem) == LastTunnel(TunnelOf(s.mem), steps)
            && SameIdentity(s.mem, t.mem)
  {
    if steps != [] {
      var front, last := steps[..|steps| - 1], steps[|steps| - 1];
      NoLostUpdate(s, front);
      var u := NextAll(s, front);
      StepFrames(u, last);
      assert LastTunnel(TunnelOf(u.mem), [last][..0]) == TunnelOf(u.mem);
      if !last.TunnelStep? {
        StepErases(u, last);
        var rest := WithoutTunnel(front);
        assert (rest + [last])[..|rest + [last]| - 1] == rest;
      }
    }
  }
}
