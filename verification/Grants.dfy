/**
 What every grant of a run is worth, and where a run starts: the certificate in use always
 belongs to the key beside it, and a rotation's certificate to this server.
 */
module Grants {
  import opened Wrappers
  import opened Durable
  import opened CertStore
  import opened Credentials
  import opened Runs
  import Cutover
  import Isolation

  predicate Matching(f: Files) {
    f.cert.publicKey == f.key && f.cert.issuer == f.ca
  }

  /** What an accepted response guarantees: the certificate fits, and so does the token in token mode. */
  predicate Trustworthy(g: Grant, c: Config) {
    && Matching(g.files)
    && (c.serverId == "" || g.files.cert.server == c.serverId)
    && g.values.renewalToken != "" && g.values.expires != 0
    && (c.authMode == "token" ==>
          && g.values.authToken.claims.Some?
          && g.values.authToken.claims.value.expires == g.values.expires
          && g.values.authToken.claims.value.generation == g.values.generation
          && g.values.authToken.claims.value.subject == "server:" + c.serverId)
  }

  /** The step at which the grant was accepted; its certificate, and in token mode its token, then had at
      least a day left. */
  predicate AcceptedAt(g: Grant, step: Step, authMode: string) {
    && step.ApplyStep? && g.id == Some(step.rotation.requestId)
    && step.rotation.cert == Some(g.files.cert) && step.rotation.ca == Some(g.files.ca)
    && g.values == Values(step.rotation.authToken, step.rotation.renewalToken, step.rotation.expires, step.rotation.generation)
    && step.now + 24 * 60 * 60 <= g.files.cert.notAfter
    && (authMode == "token" ==> step.now + 24 * 60 * 60 <= g.values.expires)
  }

  /** Over any run, with any failures: every grant but the enrollment passed the checks of this server. */
  lemma {:induction false} GrantsAreTrustworthy(r: Run, grant: Grant, steps: seq<Step>)
    requires Enrolled(r, grant) && AllFresh(r, steps)
    ensures var t := AdvanceAll(r, steps);
            && Isolation.SameIdentity(r.sys.mem, t.sys.mem)
            && t.sys.mem == t.sys.disk.config
            && forall g :: g in t.granted ==>
                 g == grant || (Trustworthy(g, t.sys.mem) && exists k :: 0 <= k < |steps| && AcceptedAt(g, steps[k], t.sys.mem.authMode))
  {
    if steps != [] {
      var front, last := steps[..|steps| - 1], steps[|steps| - 1];
      GrantsAreTrustworthy(r, grant, front);
      var u := AdvanceAll(r, front);
      Isolation.StepFrames(u.sys, last);
      forall g | g in AdvanceAll(r, steps).granted && g != grant
        ensures Trustworthy(g, u.sys.mem) && exists k :: 0 <= k < |steps| && AcceptedAt(g, steps[k], u.sys.mem.authMode)
      {
        if g in u.granted {
          var k :| 0 <= k < |front| && AcceptedAt(g, front[k], u.sys.mem.authMode);
          assert steps[k] == front[k];
        } else {
          assert AcceptedAt(g, steps[|steps| - 1], u.sys.mem.authMode);
        }
      }
    }
  }

  /** Whatever moment an admitted run is stopped at, the agent connects with a certificate that matches
      its key and its CA. */
  lemma ActiveFilesAlwaysMatch(r: Run, grant: Grant, steps: seq<Step>)
    requires Enrolled(r, grant) && Matching(grant.files) && AllAdmitted(r, steps)
    ensures var active := FilesOf(Active(AdvanceAll(r, steps).sys.disk.certs));
            active.Some? && Matching(active.value)
  {
    Cutover.CutoverIsAtomic(r, grant, steps);
    AdmittedIsFresh(r, steps);
    GrantsAreTrustworthy(r, grant, steps);
  }

  lemma {:induction false} AdmittedIsFresh(r: Run, steps: seq<Step>)
    requires AllAdmitted(r, steps)
    ensures AllFresh(r, steps)
  {
    if steps != [] { AdmittedIsFresh(r, steps[..|steps| - 1]); }
  }

  /** Saving an enrollment bundle and then a configuration without pending values starts a run. */
  lemma EnrollmentStartsARun(c: Certs, id: string, key: nat, cert: Cert, ca: nat, now: int, f: SaveFaults, cfg: Config)
    requires IsBundleId(id) && WritesAll(f.order) && PointerOf(c.pointer) != Some(id)
    requires SaveEnrollment(c, id, key, cert, ca, now, f).outcome.Done? && cfg == ClearPending(cfg)
    ensures var grant := Grant(Some(id), Files(key, cert, ca), Live(cfg));
            var certs := SaveEnrollment(c, id, key, cert, ca, now, f).certs;
            && Enrolled(Run(Sys(Disk(cfg, certs), cfg), {grant}, {"", id}, false), grant)
            && Matching(grant.files)
  {
    EnrollmentActivatesAllOrNothing(c, id, key, cert, ca, now, f);
    var certs := SaveEnrollment(c, id, key, cert, ca, now, f).certs;
    WriteFilesTouchOneBundle(WithBundle(c, id, BundleAt(c, id)), id, key, cert, ca, f, 0);
    var b := BundleAt(certs, id);
    assert PutFile(b, KeyFile, key, cert, ca) == PutFile(b, CertFile, key, cert, ca) == PutFile(b, CaFile, key, cert, ca) == b;
  }
}
