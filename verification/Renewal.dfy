/**
 Renewal from request to use: which responses are accepted, what a request holds, that the
 certificate issued for it fits, how long new credentials last, and what a failure leaves.

 The conditions here are written out on the fields of configuration, bundle and response.
 */
module Renewal {
  import opened Wrappers
  import opened Durable
  import opened CertStore
  import opened Credentials
  import opened Runs
  import opened Pacing
  import opened FailureCodes
  import Cutover
  import Isolation
  import Survival
  import Recovery
  import Agents

  // ---------- which responses are accepted ----------

  /** A complete answer to the pending request, with a certificate for the local key, from the given
      CA, for this server and good for a day, and in token mode a token that agrees and lasts as long. */
  ghost predicate Deserves(s: Sys, now: int, r: Rotation) {
    && r.requestId != "" && r.requestId == s.mem.pendingId
    && |r.requestId| <= 64
    && (forall i :: 0 <= i < |r.requestId| ==>
          var c := r.requestId[i]; 'a' <= c <= 'z' || 'A' <= c <= 'Z' || '0' <= c <= '9' || c == '-' || c == '_')
    && r.renewalToken != "" && r.expires != 0
    && r.cert.Some? && r.ca == Some(r.cert.value.issuer)
    && r.requestId in s.disk.certs.bundles
    && s.disk.certs.bundles[r.requestId].key == Some(r.cert.value.publicKey)
    && (s.mem.serverId == "" || s.mem.serverId == r.cert.value.server)
    && now + 24 * 60 * 60 <= r.cert.value.notAfter
    && (s.mem.authMode == "token" ==>
          && r.authToken.claims == Some(Claims("server:" + s.mem.serverId, r.expires, r.generation))
          && now + 24 * 60 * 60 <= r.expires)
  }

  /** With working writes an apply succeeds exactly on the responses that deserve it; on any other, with
      whatever faults, it fails and changes nothing. */
  lemma ApplySucceedsExactlyWhen(s: Sys, now: int, r: Rotation, f: ApplyFaults)
    ensures !Deserves(s, now, r) ==> Apply(s, now, r, f) == After(s, Failed)
    ensures f.stageCert.Works? && f.stageCa.Works? && f.savePending.Works? && f.activate.Works? && f.commit.Works? ==>
              (Apply(s, now, r, f).outcome.Done? <==> Deserves(s, now, r))
  {
    if Deserves(s, now, r) {
      assert Accepts(s, now, r);
    }
  }

  // ---------- what a request holds ----------

  /** The request in the bundle, if there is one, is for this server and for the key beside it. */
  predicate RequestFits(b: Bundle, server: string) {
    b.csr.Some? ==> b.csr.value.server == server && (b.key.Some? ==> b.key.value == b.csr.value.publicKey)
  }

  /** A request is made for the new key and this server, once: an existing one is kept, and a call that
      fails leaves none. */
  lemma PrepareMakesAFittingRequest(c: Certs, id: string, server: string, key: nat, f: PrepareFaults)
    ensures var p := Prepare(c, id, server, key, f);
            var before, after := BundleAt(c, id), BundleAt(p.certs, id);
            && (p.outcome.Done? <==> IsBundleId(id) && (before.csr.Some? || (f.mkdir.Works? && f.key.Works? && f.csr.Works?)))
            && (before.csr.Some? ==> p.certs == c)
            && (before.csr.None? && p.outcome.Done? ==>
                  after == Bundle(Some(key), Some(Csr(key, server)), before.cert, before.ca))
            && (!p.outcome.Done? ==> after.csr == before.csr && after.cert == before.cert && after.ca == before.ca)
            && (RequestFits(before, server) ==> RequestFits(after, server))
  {
  }

  /** Nothing but the preparation of a request writes a key or a request: other operations keep them,
      or remove them with their bundle. */
  ghost predicate Shrinks(c: Certs, d: Certs) {
    forall id :: && (BundleAt(d, id).key.Some? ==> BundleAt(d, id).key == BundleAt(c, id).key)
                 && (BundleAt(d, id).csr.Some? ==> BundleAt(d, id).csr == BundleAt(c, id).csr)
  }

  lemma StageShrinks(c: Certs, id: string, server: string, cert: Cert, ca: nat, now: int, w1: Fate, w2: Fate)
    ensures Shrinks(c, Stage(c, id, server, cert, ca, now, w1, w2).certs)
  {
  }

  lemma DiscardShrinks(b: Certs, c: Certs, id: string, rm: Removal)
    requires Shrinks(b, c)
    ensures Shrinks(b, Discard(c, id, rm).certs)
  {
    DiscardRemovesOneBundle(c, id, rm);
    var d := Discard(c, id, rm).certs;
    forall k
      ensures BundleAt(d, k).key.Some? ==> BundleAt(d, k).key == BundleAt(b, k).key
      ensures BundleAt(d, k).csr.Some? ==> BundleAt(d, k).csr == BundleAt(b, k).csr
    {
      assert k != id ==> BundleAt(d, k) == BundleAt(c, k);
    }
  }

  /** Moving the pointer leaves the bundles alone. */
  lemma PointerShrinks(b: Certs, c: Certs, d: Certs)
    requires Shrinks(b, c) && d.bundles == c.bundles
    ensures Shrinks(b, d)
  {
    assert forall k :: BundleAt(d, k) == BundleAt(c, k);
  }

  lemma CommitShrinks(b: Certs, s: Sys, before: Config, pending: Config, now: int, id: string, a: Activation, f: ApplyFaults)
    requires Shrinks(b, s.disk.certs)
    ensures Shrinks(b, Commit(s, before, pending, now, id, a, f).sys.disk.certs)
  {
    var back := Rollback(s.disk.certs, a, f.undoPointer).certs;
    PointerShrinks(b, s.disk.certs, back);
    DiscardShrinks(b, back, id, f.discardUncommitted);
  }

  lemma SwitchShrinks(b: Certs, s: Sys, before: Config, pending: Config, now: int, id: string, f: ApplyFaults)
    requires Shrinks(b, s.disk.certs)
    ensures Shrinks(b, SwitchPointer(s, before, pending, now, id, f).sys.disk.certs)
  {
    var c := s.disk.certs;
    var active := Activate(c, id, f.activate).certs;
    DiscardShrinks(b, c, id, f.discardInactive);
    PointerShrinks(b, c, active);
    CommitShrinks(b, WithCerts(s, active), before, pending, now, id, CurrentPointer(c), f);
  }

  lemma ApplyShrinks(s: Sys, now: int, r: Rotation, f: ApplyFaults)
    ensures Shrinks(s.disk.certs, Apply(s, now, r, f).sys.disk.certs)
  {
    if Accepts(s, now, r) {
      var b := s.disk.certs;
      StageShrinks(b, r.requestId, s.mem.serverId, r.cert.value, r.ca.value, now, f.stageCert, f.stageCa);
      var c := Stage(b, r.requestId, s.mem.serverId, r.cert.value, r.ca.value, now, f.stageCert, f.stageCa).certs;
      DiscardShrinks(b, c, r.requestId, f.discardStaged);
      var pending := WithPending(s.mem, r, CurrentPointer(c));
      SwitchShrinks(b, Save(WithCerts(s, c), pending, f.savePending).sys, s.mem, pending, now, r.requestId, f);
    }
  }

  lemma ResumeKeepsBundles(s: Sys, now: int, f: ResumeFaults)
    ensures Resume(s, now, f).sys.disk.certs.bundles == s.disk.certs.bundles
  {
  }

  /** One step keeps every request that fits, and every request it makes fits. */
  lemma StepKeepsRequests(s: Sys, step: Step, id: string)
    requires s.mem == s.disk.config && RequestFits(BundleAt(s.disk.certs, id), s.mem.serverId)
    ensures RequestFits(BundleAt(Next(s, step).disk.certs, id), s.mem.serverId)
  {
    match step
    case BeginStep(now, freshId, key, f) =>
      var request := if s.mem.pendingId == "" then freshId else s.mem.pendingId;
      PrepareMakesAFittingRequest(s.disk.certs, request, s.mem.serverId, key, f.prepare);
      BeginKeepsOtherBundles(s, now, freshId, key, f, id);
    case ApplyStep(now, r, f) => ApplyShrinks(s, now, r, f);
    case ResumeStep(now, f) => ResumeKeepsBundles(s, now, f);
    case RecordStep(now, code, clear, f) => DiscardShrinks(s.disk.certs, s.disk.certs, s.mem.pendingId, f.discard);
    case _ =>
  }

  lemma BeginKeepsOtherBundles(s: Sys, now: int, freshId: string, key: nat, f: BeginFaults, id: string)
    ensures var request := if s.mem.pendingId == "" then freshId else s.mem.pendingId;
            var t := Begin(s, now, freshId, key, f).sys;
            && t.disk.certs == Prepare(s.disk.certs, request, s.mem.serverId, key, f.prepare).certs
            && (id != request ==> BundleAt(t.disk.certs, id) == BundleAt(s.disk.certs, id))
  {
  }

  /** Over any run, with any failures: every request made in it is for this server and for the key beside it. */
  lemma {:induction false} RequestsAlwaysFit(s: Sys, steps: seq<Step>, id: string)
    requires s.mem == s.disk.config && RequestFits(BundleAt(s.disk.certs, id), s.mem.serverId)
    ensures RequestFits(BundleAt(NextAll(s, steps).disk.certs, id), s.mem.serverId)
  {
    if steps != [] {
      var front := steps[..|steps| - 1];
      RequestsAlwaysFit(s, front, id);
      Isolation.NoLostUpdate(s, front);
      StepKeepsRequests(NextAll(s, front), steps[|steps| - 1], id);
    }
  }

  // ---------- from a request to new credentials ----------

  /** What a request changes in the configuration. */
  lemma BeginWrites(s: Sys, now: int, freshId: string, key: nat, f: BeginFaults)
    requires s.mem == s.disk.config
    ensures var a := Begin(s, now, freshId, key, f);
            && (a.outcome.Done? ==>
                  a.sys.mem == s.mem.(pendingId := if s.mem.pendingId == "" then freshId else s.mem.pendingId,
                                      renewalStatus := Pending, renewalAttempts := s.mem.renewalAttempts + 1,
                                      renewalLastError := "", renewalNextRetry := now + 5 * 60))
            && (!a.outcome.Done? ==> a.sys.mem == s.mem)
            && a.sys.disk.config == a.sys.mem
  {
    Cutover.BeginShape(s, now, freshId, key, f);
  }

  /** The answer the control plane gives to a request: a certificate for its key and its server. */
  predicate Answers(request: Csr, r: Rotation, serial: nat, notAfter: int) {
    r.ca.Some? && r.cert == Some(Cert(serial, request.publicKey, r.ca.value, request.server, notAfter))
  }

  /** The round trip: the answer to the request that was sent, if it is complete, agrees with its token and
      lasts a day, is accepted exactly when the key of the request is still there, and after that the
      agent presents that certificate with that key and those values. */
  lemma RequestRoundTrip(s: Sys, now: int, freshId: string, key: nat, f: BeginFaults, later: int, r: Rotation,
                         serial: nat, notAfter: int)
    requires s.mem == s.disk.config && Begin(s, now, freshId, key, f).outcome.Done?
    requires var t := Begin(s, now, freshId, key, f).sys;
             var b := BundleAt(t.disk.certs, t.mem.pendingId);
             && RequestFits(b, t.mem.serverId)
             && b.csr.Some? && Answers(b.csr.value, r, serial, notAfter) && notAfter >= later + 86400
             && r.requestId == t.mem.pendingId && r.renewalToken != "" && r.expires >= later + 86400 && r.expires != 0
             && r.authToken.claims == Some(Claims("server:" + t.mem.serverId, r.expires, r.generation))
    ensures var t := Begin(s, now, freshId, key, f).sys;
            var b := BundleAt(t.disk.certs, t.mem.pendingId);
            var a := Apply(t, later, r, Recovery.NO_APPLY_FAULTS);
            && (b.key.Some? <==> a.outcome.Done?)
            && (b.key.Some? ==>
                  && FilesOf(Active(a.sys.disk.certs)) == Some(Files(b.key.value, r.cert.value, r.ca.value))
                  && Live(a.sys.mem) == Values(r.authToken, r.renewalToken, r.expires, r.generation))
            && (BundleAt(s.disk.certs, t.mem.pendingId).csr.None? ==> b.key == Some(key))
  {
    var id := if s.mem.pendingId == "" then freshId else s.mem.pendingId;
    PrepareMakesAFittingRequest(s.disk.certs, id, s.mem.serverId, key, f.prepare);
    BeginWrites(s, now, freshId, key, f);
    var t := Begin(s, now, freshId, key, f).sys;
    assert Deserves(t, later, r) <==> BundleAt(t.disk.certs, id).key.Some?;
    ApplySucceedsExactlyWhen(t, later, r, Recovery.NO_APPLY_FAULTS);
    if Deserves(t, later, r) { Recovery.FailedApplyUndoesItself(t, later, r, Recovery.NO_APPLY_FAULTS); }
  }

  // ---------- how long new credentials last ----------

  /** After an apply that worked the credential the agent presents expires when the response says, at least
      a day later: recoverCredentials has nothing to do until then. */
  lemma AppliedCredentialsLast(s: Sys, now: int, r: Rotation, f: ApplyFaults)
    requires s.mem == s.disk.config && Recovery.ForwardWritesWork(f) && Recovery.NoDeath(f) && Deserves(s, now, r)
    ensures var t := Apply(s, now, r, f).sys;
            var expiry := Expiry(t.mem, t.disk.certs);
            && expiry == Some(if s.mem.authMode == "token" then r.expires else r.cert.value.notAfter)
            && expiry.value >= now + 86400
            && (RenewalDue(t.mem, expiry.value, now) <==> expiry.value <= now + 30 * 86400)
  {
    ApplySucceedsExactlyWhen(s, now, r, f);
    Recovery.FailedApplyUndoesItself(s, now, r, f);
    var t := Apply(s, now, r, f).sys;
    assert SameMode(s, t) by { Isolation.StepFrames(s, ApplyStep(now, r, f)); }
    assert FilesOf(Active(t.disk.certs)).Some?;
  }

  predicate SameMode(s: Sys, t: Sys) {
    t.mem.authMode == s.mem.authMode
  }

  /** In token mode a token whose claims name a subject and an expiry counts, in any other mode the active
      certificate; without them the configured expiry counts, if there is one. */
  lemma ExpiryFallsBack(c: Config, certs: Certs, subject: string, expires: int, generation: int)
    requires subject != "" && expires != 0
    ensures c.authMode == "token" && c.authToken.claims == Some(Claims(subject, expires, generation)) ==>
              Expiry(c, certs) == Some(expires)
    ensures c.authMode != "token" && Active(certs).cert.Some? ==> Expiry(c, certs) == Some(Active(certs).cert.value.notAfter)
    ensures (if c.authMode == "token"
             then c.authToken.claims in {None, Some(Claims("", expires, generation)), Some(Claims(subject, 0, generation))}
             else Active(certs).cert.None?) ==>
              Expiry(c, certs) == if c.credentialExpires > 0 then Some(c.credentialExpires) else None
  {
  }

  // ---------- recovery as a whole ----------

  /** An agent with expired credentials and working writes, whose request is answered, presents the
      answer's certificate and values when recoverCredentials returns. */
  lemma RecoveryRenews(s: Sys, x: Agents.Recovery, steps: seq<Step>, outcome: Outcome, serial: nat, notAfter: int)
    requires s.mem == s.disk.config && s.mem.pendingId == "" && s.mem.renewalToken != "" && s.mem.renewalNextRetry <= x.now
    requires Expiry(s.mem, s.disk.certs).Some? && Expiry(s.mem, s.disk.certs).value <= x.now
    requires x.beginFaults == BeginFaults(PrepareFaults(Works, Works, Works), Works)
    requires x.applyFaults == Recovery.NO_APPLY_FAULTS
    requires IsBundleId(x.freshId) && BundleAt(s.disk.certs, x.freshId) == EMPTY_BUNDLE
    requires x.response.Some? && x.response.value.requestId == x.freshId
    requires Answers(Csr(x.key, s.mem.serverId), x.response.value, serial, notAfter) && notAfter >= x.now + 86400
    requires x.response.value.renewalToken != "" && x.response.value.expires >= x.now + 86400
    requires x.response.value.expires != 0
    requires x.response.value.authToken.claims ==
               Some(Claims("server:" + s.mem.serverId, x.response.value.expires, x.response.value.generation))
    requires Agents.Recovers(s, false, x, steps, outcome)
    ensures outcome.Done? && |steps| == 3
    ensures var t := NextAll(s, steps);
            var r := x.response.value;
            && FilesOf(Active(t.disk.certs)) == Some(Files(x.key, r.cert.value, r.ca.value))
            && Live(t.mem) == Values(r.authToken, r.renewalToken, r.expires, r.generation)
  {
    var r := x.response.value;
    var resume, begin, apply := steps[0], BeginStep(x.now, x.freshId, x.key, x.beginFaults), ApplyStep(x.now, r, x.applyFaults);
    PrepareMakesAFittingRequest(s.disk.certs, x.freshId, s.mem.serverId, x.key, x.beginFaults.prepare);
    BeginWrites(s, x.now, x.freshId, x.key, x.beginFaults);
    RequestRoundTrip(s, x.now, x.freshId, x.key, x.beginFaults, x.now, r, serial, notAfter);
    assert steps == [ResumeStep(x.now, x.resumeFaults), begin, apply];
    ThreeSteps(s, ResumeStep(x.now, x.resumeFaults), begin, apply);
  }

  lemma OneMoreStep(s: Sys, steps: seq<Step>, step: Step)
    ensures NextAll(s, steps + [step]) == Next(NextAll(s, steps), step)
  {
    assert (steps + [step])[..|steps|] == steps;
  }

  lemma ThreeSteps(s: Sys, a: Step, b: Step, c: Step)
    ensures NextAll(s, [a, b, c]) == Next(Next(Next(s, a), b), c)
  {
    var one := [] + [a];
    var two := one + [b];
    OneMoreStep(s, [], a);
    OneMoreStep(s, one, b);
    OneMoreStep(s, two, c);
    assert two + [c] == [a, b, c];
  }

  /** While the credential is valid, recoverCredentials without force only resumes. */
  lemma ValidCredentialsAreLeftAlone(s: Sys, x: Agents.Recovery, steps: seq<Step>, outcome: Outcome)
    requires s.mem.pendingId == "" && Expiry(s.mem, s.disk.certs).Some? && x.now < Expiry(s.mem, s.disk.certs).value
    requires Agents.Recovers(s, false, x, steps, outcome)
    ensures outcome.Done? && NextAll(s, steps) == s
  {
    assert steps == [ResumeStep(x.now, x.resumeFaults)];
    assert steps[..0] == [];
  }

  // ---------- what a resume needs, and what it leaves ----------

  /** Nothing of a request or a switch is left. */
  predicate NothingPending(c: Config) {
    && c.pendingId == "" && c.pendingAuthToken == Token("", None) && c.pendingRenewalToken == ""
    && c.pendingExpires == 0 && c.pendingGeneration == 0 && c.pendingPrevious == "" && !c.pendingHadPointer
  }

  /** A resume does something exactly when id, renewal token and expiry of a record are there; with working
      writes and a complete bundle it then installs the record's values and clears the record. */
  lemma ResumeActsExactlyWhen(s: Sys, now: int, f: ResumeFaults)
    requires s.mem == s.disk.config
    ensures var a := Resume(s, now, f);
            var c := s.mem;
            if c.pendingId == "" || c.pendingRenewalToken == "" || c.pendingExpires == 0 then a == After(s, Done)
            else
              (f.activate.Works? && f.commit.Works? && IsBundleId(c.pendingId) && Complete(s.disk.certs, c.pendingId)
               <==> a.outcome.Done?) &&
              (a.outcome.Done? ==>
                && NothingPending(a.sys.mem) && a.sys.disk.config == a.sys.mem
                && Live(a.sys.mem) == PendingValues(c)
                && a.sys.mem.renewalStatus.Healthy? && a.sys.mem.renewalAttempts == 0 && a.sys.mem.renewalLastError == ""
                && a.sys.mem.renewalLastSuccess == now && a.sys.mem.renewalNextRetry == 0
                && PointerOf(a.sys.disk.certs.pointer) == Some(c.pendingId)) &&
              (IsBundleId(c.pendingId) && Complete(s.disk.certs, c.pendingId) && (c.pendingHadPointer ==> IsBundleId(c.pendingPrevious)) ==>
                (a.outcome.Crashed? <==>
                  || f.activate.Dies?
                  || (f.activate.Works? && (f.commit.Dies? || (f.commit.Fails? && (f.undoPointer.Dies? || f.undoConfig.Dies?))))))
  {
    if Complete(s.disk.certs, s.mem.pendingId) && IsBundleId(s.mem.pendingId) {
      PointerRoundTrip(s.mem.pendingId);
    }
  }

  /** The same fields after an apply that worked. */
  lemma ApplyClearsTheRequest(s: Sys, now: int, r: Rotation, f: ApplyFaults)
    requires s.mem == s.disk.config && Apply(s, now, r, f).outcome.Done?
    ensures var t := Apply(s, now, r, f).sys;
            NothingPending(t.mem) && t.mem.renewalLastError == "" && t.mem.renewalEndpoint != ""
  {
    assert Accepts(s, now, r);
    Survival.AnyApply(s, now, r, f);
  }

  // ---------- what a failure leaves ----------

  /** The record of a failure: the retry waits one, two, four, ... minutes by the number of attempts, at most
      a day; clearing forgets the request. */
  lemma FailureIsRecorded(s: Sys, now: int, code: string, clear: bool, f: RecordFaults)
    requires s.mem == s.disk.config && f.save.Works? && !f.discard.fate.Dies?
    ensures var t := Record(s, now, code, clear, f).sys;
            && t.disk.config == t.mem
            && t.mem.renewalStatus.Broken?
            && t.mem.renewalAttempts == (if s.mem.renewalAttempts < 1 then 1 else s.mem.renewalAttempts)
            && t.mem.renewalNextRetry == now + RenewalBackoff(t.mem.renewalAttempts)
            && t.mem.renewalLastError == code
            && (if clear then NothingPending(t.mem)
                else t.mem.pendingId == s.mem.pendingId && PendingValues(t.mem) == PendingValues(s.mem))
            && Live(t.mem) == Live(s.mem)
            && (clear && f.discard.fate.Works? && IsBundleId(s.mem.pendingId)
                && PointerOf(s.disk.certs.pointer) != Some(s.mem.pendingId) ==>
                  BundleAt(t.disk.certs, s.mem.pendingId) == EMPTY_BUNDLE)
  {
    Cutover.RecordShape(s, now, code, clear, f);
  }

  predicate HoldsNoText(c: Config) {
    c.renewalLastError == "" || IsKnown(c.renewalLastError)
  }

  lemma StepStoresAKnownCode(s: Sys, step: Step)
    requires s.mem == s.disk.config && HoldsNoText(s.mem) && (step.RecordStep? ==> IsKnown(step.code))
    ensures HoldsNoText(Next(s, step).mem)
  {
    match step
    case BeginStep(now, freshId, key, f) => BeginWrites(s, now, freshId, key, f);
    case ApplyStep(now, r, f) => if Accepts(s, now, r) { Survival.AnyApply(s, now, r, f); }
    case ResumeStep(now, f) => Isolation.ResumeFrames(s, now, f);
    case RecordStep(now, code, clear, f) => Cutover.RecordShape(s, now, code, clear, f);
    case _ =>
  }

  /** Over any run that records only known codes, as every call of the agent does, the configuration holds no
      other error text. */
  lemma {:induction false} StoredCodesAreKnown(s: Sys, steps: seq<Step>)
    requires s.mem == s.disk.config && HoldsNoText(s.mem)
    requires forall k :: 0 <= k < |steps| && steps[k].RecordStep? ==> IsKnown(steps[k].code)
    ensures HoldsNoText(NextAll(s, steps).mem)
  {
    if steps != [] {
      var front := steps[..|steps| - 1];
      StoredCodesAreKnown(s, front);
      Isolation.NoLostUpdate(s, front);
      StepStoresAKnownCode(NextAll(s, front), steps[|steps| - 1]);
    }
  }

  /** An apply that fails after its certificate was staged, with failures it can undo, and whose removals
      work, removes the bundle of its request: key and request are gone too. */
  lemma FailedApplyDropsItsBundle(s: Sys, now: int, r: Rotation, f: ApplyFaults)
    requires s.mem == s.disk.config && PointerOf(s.disk.certs.pointer) != Some(s.mem.pendingId)
    requires Deserves(s, now, r) && Contained(f) && Apply(s, now, r, f).outcome.Failed?
    requires f.discardStaged.fate.Works? && f.discardInactive.fate.Works? && f.discardUncommitted.fate.Works?
    ensures var b := BundleAt(Apply(s, now, r, f).sys.disk.certs, r.requestId);
            if f.stageCert.Works? && f.stageCa.Works? then b == EMPTY_BUNDLE
            else b.key == BundleAt(s.disk.certs, r.requestId).key && b.csr == BundleAt(s.disk.certs, r.requestId).csr
  {
    ApplySucceedsExactlyWhen(s, now, r, f.(stageCert := Works, stageCa := Works, savePending := Works, activate := Works, commit := Works));
    assert Accepts(s, now, r);
    var id := r.requestId;
    var c := Stage(s.disk.certs, id, s.mem.serverId, r.cert.value, r.ca.value, now, f.stageCert, f.stageCa).certs;
    if f.stageCert.Works? && f.stageCa.Works? {
      DiscardRemovesOneBundle(c, id, f.discardStaged);
      if f.savePending.Works? {
        var pending := WithPending(s.mem, r, CurrentPointer(c));
        Cutover.SaveKeepsMemory(WithCerts(s, c), pending, Works);
        FailedSwitchDrops(Sys(Disk(pending, c), pending), s.mem, pending, now, id, f);
      }
    }
  }

  lemma FailedSwitchDrops(s: Sys, before: Config, pending: Config, now: int, id: string, f: ApplyFaults)
    requires s.mem == s.disk.config == pending && Cutover.SameFixed(before, pending)
    requires IsBundleId(id) && Complete(s.disk.certs, id) && PointerOf(s.disk.certs.pointer) != Some(id)
    requires ReachesSwitch(f) && Contained(f) && SwitchPointer(s, before, pending, now, id, f).outcome.Failed?
    requires f.discardInactive.fate.Works? && f.discardUncommitted.fate.Works?
    ensures BundleAt(SwitchPointer(s, before, pending, now, id, f).sys.disk.certs, id) == EMPTY_BUNDLE
  {
    var c := s.disk.certs;
    PointerAfter(c, id, CurrentPointer(c), f.activate);
    match f.activate {
      case Dies =>
      case Fails => DiscardRemovesOneBundle(c, id, f.discardInactive);
      case Works =>
        var switched := Activate(c, id, Works).certs;
        PointerAfter(switched, id, CurrentPointer(c), f.undoPointer);
        var back := Rollback(switched, CurrentPointer(c), f.undoPointer).certs;
        DiscardRemovesOneBundle(back, id, f.discardUncommitted);
    }
  }

  /** A rejection whose save fails still removes the bundle.  If that removal stops after the key, the request
      stays pending with a request file and no key: it is sent again, and no answer to it is accepted. */
  lemma HalfRemovedRequestStalls(s: Sys, now: int, code: string, gone: set<File>, next: int, freshId: string, key: nat,
                                 later: int, r: Rotation, f: ApplyFaults)
    requires s.mem == s.disk.config && IsBundleId(s.mem.pendingId)
    requires PointerOf(s.disk.certs.pointer) != Some(s.mem.pendingId)
    requires BundleAt(s.disk.certs, s.mem.pendingId).csr.Some? && KeyFile in gone && CsrFile !in gone
    ensures var t := Record(s, now, code, true, RecordFaults(Fails, Removal(Fails, gone))).sys;
            var begun := Begin(t, next, freshId, key, BeginFaults(PrepareFaults(Works, Works, Works), Works));
            && begun.outcome.Done? && begun.sys.mem.pendingId == s.mem.pendingId
            && BundleAt(begun.sys.disk.certs, s.mem.pendingId).csr == BundleAt(s.disk.certs, s.mem.pendingId).csr
            && Apply(begun.sys, later, r, f) == After(begun.sys, Failed)
  {
    var t := Record(s, now, code, true, RecordFaults(Fails, Removal(Fails, gone))).sys;
    PrepareMakesAFittingRequest(t.disk.certs, s.mem.pendingId, t.mem.serverId, key, PrepareFaults(Works, Works, Works));
    BeginWrites(t, next, freshId, key, BeginFaults(PrepareFaults(Works, Works, Works), Works));
    var begun := Begin(t, next, freshId, key, BeginFaults(PrepareFaults(Works, Works, Works), Works)).sys;
    assert BundleAt(begun.disk.certs, s.mem.pendingId).key.None?;
    ApplySucceedsExactlyWhen(begun, later, r, f);
  }

  // ---------- where renewal goes ----------

  /** Without a configured endpoint the host of the control channel is asked, less a leading "grpc.". */
  lemma RenewalGoesToTheHost(c: Config, host: string)
    requires c.renewalEndpoint == ""
    requires (c.grpcEndpoint.host == host && !("grpc." <= host)) || c.grpcEndpoint.host == "grpc." + host
    ensures EffectiveEndpoint(c) == "https://" + host + "/api/agent/renew"
  {
    assert ("grpc." + host)[5..] == host;
    assert "grpc." <= "grpc." + host;
  }

  // ---------- where a call can be cut off ----------

  /** The fates of an apply's writes and removals, in its order, with which it is cut off. */
  predicate CutOff(f: ApplyFaults) {
    || f.stageCert.Dies?
    || (f.stageCert.Works? &&
        (|| f.stageCa.Dies?
         || (f.stageCa.Works? &&
             (|| f.savePending.Dies?
              || (f.savePending.Fails? && f.discardStaged.fate.Dies?)
              || (f.savePending.Works? && CutOffInSwitch(f))))))
  }

  predicate CutOffInSwitch(f: ApplyFaults) {
    || f.activate.Dies?
    || (f.activate.Fails? && (f.undoPending.Dies? || (f.undoPending.Works? && f.discardInactive.fate.Dies?)))
    || (f.activate.Works? &&
        (|| f.commit.Dies?
         || (f.commit.Fails? &&
             (|| f.undoPointer.Dies? || f.undoConfig.Dies?
              || (f.undoConfig.Works? && f.undoPointer.Works? && f.discardUncommitted.fate.Dies?)))))
  }

  /** An apply of a deserving response is cut off exactly then; a removal is not even tried while the pointer
      file names the bundle. */
  lemma ApplyDiesExactlyWhen(s: Sys, now: int, r: Rotation, f: ApplyFaults)
    requires s.mem == s.disk.config && PointerOf(s.disk.certs.pointer) != Some(s.mem.pendingId) && Deserves(s, now, r)
    ensures Apply(s, now, r, f).outcome.Crashed? <==> CutOff(f)
  {
    assert Accepts(s, now, r);
    var id := r.requestId;
    var c := Stage(s.disk.certs, id, s.mem.serverId, r.cert.value, r.ca.value, now, f.stageCert, f.stageCa).certs;
    if f.stageCert.Works? && f.stageCa.Works? && f.savePending.Works? {
      var pending := WithPending(s.mem, r, CurrentPointer(c));
      Cutover.SaveKeepsMemory(WithCerts(s, c), pending, Works);
      SwitchDiesExactlyWhen(Sys(Disk(pending, c), pending), s.mem, pending, now, id, f);
    }
  }

  lemma SwitchDiesExactlyWhen(s: Sys, before: Config, pending: Config, now: int, id: string, f: ApplyFaults)
    requires s.mem == s.disk.config == pending
    requires IsBundleId(id) && Complete(s.disk.certs, id) && PointerOf(s.disk.certs.pointer) != Some(id)
    ensures SwitchPointer(s, before, pending, now, id, f).outcome.Crashed? <==> CutOffInSwitch(f)
  {
    var c := s.disk.certs;
    PointerAfter(c, id, CurrentPointer(c), f.activate);
    var switched := Activate(c, id, Works).certs;
    PointerAfter(switched, id, CurrentPointer(c), f.undoPointer);
  }

  /** A record is cut off in its save, or in a removal it tries. */
  lemma RecordDiesExactlyWhen(s: Sys, now: int, code: string, clear: bool, f: RecordFaults)
    ensures Record(s, now, code, clear, f).outcome.Crashed? <==>
              || f.save.Dies?
              || (clear && f.discard.fate.Dies? && IsBundleId(s.mem.pendingId)
                  && PointerOf(s.disk.certs.pointer) != Some(s.mem.pendingId))
  {
  }
}
