/**
 The agent object: the in-memory configuration, the saved one and the certificate store,
 changed step by step as internal/agent/credentials.go does.  Each method is proved
 against the function of the same call in module Credentials.
 */
module Agents {
  import opened Wrappers
  import opened Durable
  import opened CertStore
  import opened Credentials
  import opened Runs
  import opened FailureCodes

  /** The answers and faults one call that renews credentials meets. */
  datatype Recovery = Recovery(
    now: int, freshId: string, key: nat, response: Option<Rotation>,
    resumeFaults: ResumeFaults, beginFaults: BeginFaults, applyFaults: ApplyFaults, recordFaults: RecordFaults)

  /** The credential steps of one call, continued from run `r`: admitted one after the other, and
      every request made only when the retry time has come. */
  ghost predicate Behaves(r: Run, steps: seq<Step>) {
    && AllAdmitted(r, steps)
    && forall k :: 0 <= k < |steps| && steps[k].BeginStep? ==>
         AdvanceAll(r, steps[..k]).sys.mem.renewalNextRetry <= steps[k].now
  }

  lemma Behaved(r: Run, steps: seq<Step>, step: Step)
    requires Behaves(r, steps) && Admitted(AdvanceAll(r, steps), step)
    requires step.BeginStep? ==> AdvanceAll(r, steps).sys.mem.renewalNextRetry <= step.now
    ensures Behaves(r, steps + [step])
    ensures AdvanceAll(r, steps + [step]) == Advance(AdvanceAll(r, steps), step)
  {
    var all := steps + [step];
    assert all[..|all| - 1] == steps;
    forall k | 0 <= k < |all| && all[k].BeginStep?
      ensures AdvanceAll(r, all[..k]).sys.mem.renewalNextRetry <= all[k].now
    {
      assert all[..k] == steps[..k];
    }
  }

  /** A call that ends by recording failure `code`, from `s`: with `outcome`, unless the process dies in that too. */
  ghost predicate Notes(s: Sys, x: Recovery, before: seq<Step>, code: string, clear: bool, steps: seq<Step>,
                        outcome: Outcome, otherwise: Outcome) {
    var record := RecordStep(x.now, SafeCode(code), clear, x.recordFaults);
    && steps == before + [record]
    && outcome == if Call(s, record).outcome.Crashed? then Crashed else otherwise
  }

  /** What recoverCredentials does from `s`: which steps it takes, and how it ends.  After a resume that
      works it requests if forced, or if the credential has expired, provided it has a renewal token and
      the retry time has come. */
  ghost predicate Recovers(s: Sys, force: bool, x: Recovery, steps: seq<Step>, outcome: Outcome) {
    var resume := ResumeStep(x.now, x.resumeFaults);
    var resumed := Call(s, resume);
    var expiry := Expiry(resumed.sys.mem, resumed.sys.disk.certs);
    var expired := expiry.Some? && x.now >= expiry.value;
    match resumed.outcome
    case Crashed => steps == [resume] && outcome.Crashed?
    case Failed => Notes(resumed.sys, x, [resume], "resume_failed", false, steps, outcome, Failed)
    case Done =>
      if (force || expired) && resumed.sys.mem.renewalToken != "" && resumed.sys.mem.renewalNextRetry <= x.now
      then Exchanges(resumed.sys, x, [resume], steps, outcome)
      else steps == [resume] && outcome == if expiry.Some? && !expired && !force then Done else Failed
  }

  /** The exchange: a request, and the apply of the answer if one came.  A failed request, exchange or
      apply is recorded under its own code; only a failed request clears what is pending. */
  ghost predicate Exchanges(s: Sys, x: Recovery, before: seq<Step>, steps: seq<Step>, outcome: Outcome) {
    var begin := BeginStep(x.now, x.freshId, x.key, x.beginFaults);
    var begun := Call(s, begin);
    match begun.outcome
    case Crashed => steps == before + [begin] && outcome.Crashed?
    case Failed => Notes(begun.sys, x, before + [begin], "prepare_failed", true, steps, outcome, Failed)
    case Done =>
      match x.response
      case None => Notes(begun.sys, x, before + [begin], "recovery_failed", false, steps, outcome, Failed)
      case Some(response) => Applies(begun.sys, x, response, before + [begin], steps, outcome, Failed)
  }

  /** The apply of a response; if it fails, that is recorded and the call ends with `otherwise`. */
  ghost predicate Applies(s: Sys, x: Recovery, response: Rotation, before: seq<Step>, steps: seq<Step>, outcome: Outcome,
                          otherwise: Outcome) {
    var apply := ApplyStep(x.now, response, x.applyFaults);
    var applied := Call(s, apply);
    if applied.outcome.Failed?
    then Notes(applied.sys, x, before + [apply], "activation_failed", false, steps, outcome, otherwise)
    else steps == before + [apply] && outcome == applied.outcome
  }

  /** What maybeRequestCredentialRenewal does: a request goes out if one is pending, there is no renewal
      token yet, or the expiry is at most thirty days away, and the retry time has come. */
  ghost predicate Requests(s: Sys, x: Recovery, sendWorks: bool, requested: bool, steps: seq<Step>, outcome: Outcome) {
    var begin := BeginStep(x.now, x.freshId, x.key, x.beginFaults);
    var begun := Call(s, begin);
    match Expiry(s.mem, s.disk.certs)
    case None => !requested && Notes(s, x, [], "expiry_unavailable", false, steps, outcome, Done)
    case Some(expiry) =>
      if (s.mem.pendingId != "" || s.mem.renewalToken == "" || expiry <= x.now + 30 * 24 * 60 * 60)
         && s.mem.renewalNextRetry <= x.now
      then
        match begun.outcome
        case Crashed => !requested && steps == [begin] && outcome.Crashed?
        case Failed => !requested && Notes(begun.sys, x, [begin], "prepare_failed", true, steps, outcome, Done)
        case Done =>
          if sendWorks then requested && steps == [begin] && outcome.Done?
          else !requested && Notes(begun.sys, x, [begin], "send_failed", false, steps, outcome, Failed)
      else !requested && steps == [] && outcome.Done?
  }

  /** What handleCredentialRotation does: a rejection is recorded and clears what is pending; a response is
      applied, and the stream reconnects exactly when that worked. */
  ghost predicate Handles(s: Sys, x: Recovery, rejected: Option<string>, reconnect: bool, steps: seq<Step>, outcome: Outcome)
    requires rejected.None? ==> x.response.Some?
  {
    match rejected
    case Some(code) => !reconnect && Notes(s, x, [], code, true, steps, outcome, Done)
    case None =>
      && (reconnect <==> Call(s, ApplyStep(x.now, x.response.value, x.applyFaults)).outcome.Done?)
      && Applies(s, x, x.response.value, [], steps, outcome, Done)
  }

  class Agent {
    var cfg: Config      // a.cfg
    var saved: Config    // config.yaml
    const store: Store

    constructor (d: Disk)
      ensures fresh(store) && View() == Sys(d, d.config)
    {
      cfg, saved := d.config, d.config;
      store := new Store(d.certs);
    }

    ghost function View(): Sys
      reads this, store
    {
      Sys(Disk(saved, store.View()), cfg)
    }

    /** saveCredentialConfig. */
    method SaveCredentialConfig(c: Config, f: Fate) returns (outcome: Outcome)
      modifies this
      ensures After(View(), outcome) == Save(old(View()), c, f)
    {
      if !f.Works? { return OutcomeOf(f); }
      saved := c;
      cfg := CopyCredentialFields(cfg, c);
      return Done;
    }

    /** beginCredentialRequest. */
    method BeginCredentialRequest(now: int, freshId: string, key: nat, f: BeginFaults)
      returns (request: Config, csr: Option<Csr>, outcome: Outcome)
      modifies this, store
      ensures After(View(), outcome) == Begin(old(View()), now, freshId, key, f)
      ensures outcome.Done? ==> csr.Some? && csr == BundleAt(store.View(), request.pendingId).csr && request == saved
    {
      request := cfg;
      if request.pendingId == "" {
        request := request.(pendingId := freshId);
      }
      csr, outcome := store.PrepareRotation(request.pendingId, request.serverId, key, f.prepare);
      if !outcome.Done? { return; }
      request := request.(renewalStatus := Pending);
      request := request.(renewalAttempts := request.renewalAttempts + 1);
      request := request.(renewalLastError := "");
      request := request.(renewalNextRetry := now + RESPONSE_RETRY_SECONDS);
      outcome := SaveCredentialConfig(request, f.save);
    }

    /** applyCredentialRotation. */
    method ApplyCredentialRotation(now: int, r: Rotation, f: ApplyFaults) returns (outcome: Outcome)
      modifies this, store
      ensures After(View(), outcome) == Apply(old(View()), now, r, f)
    {
      var before := cfg;
      if r.requestId == "" || r.requestId != before.pendingId { return Failed; }
      if r.cert.None? || r.ca.None? || r.renewalToken == "" || r.expires == 0 { return Failed; }
      if NormalizedMode(before.authMode) == "token" {
        if !ValidJwt(r.authToken, before.serverId, r.generation, r.expires, now) { return Failed; }
      }
      outcome := store.StageRotation(r.requestId, before.serverId, r.cert.value, r.ca.value, now,
                                     f.stageCert, f.stageCa);
      if !outcome.Done? { return; }

      var pending := before;
      pending := pending.(pendingAuthToken := r.authToken, pendingRenewalToken := r.renewalToken,
                          pendingExpires := r.expires, pendingGeneration := r.generation);
      var previous, hadPointer := store.ReadPointer();
      pending := pending.(pendingPrevious := previous, pendingHadPointer := hadPointer);
      outcome := SaveCredentialConfig(pending, f.savePending);
      if outcome.Crashed? { return; }
      if outcome.Failed? {
        var gone := store.DiscardRotation(r.requestId, f.discardStaged);
        return if gone.Crashed? then Crashed else Failed;
      }

      outcome := ActivateStaged(before, pending, now, r.requestId, f);
    }

    /** The middle of applyCredentialRotation: from the saved pending record to the switched pointer. */
    method ActivateStaged(before: Config, pending: Config, now: int, id: string, f: ApplyFaults)
      returns (outcome: Outcome)
      modifies this, store
      ensures After(View(), outcome) == SwitchPointer(old(View()), before, pending, now, id, f)
    {
      var activation;
      activation, outcome := store.ActivateRotation(id, f.activate);
      if outcome.Crashed? { return; }
      if outcome.Failed? {
        outcome := SaveCredentialConfig(before, f.undoPending);
        if !outcome.Done? { return; }
        var gone := store.DiscardRotation(id, f.discardInactive);
        return if gone.Crashed? then Crashed else Failed;
      }
      outcome := CommitActivated(before, pending, now, id, activation, f);
    }

    /** The end of applyCredentialRotation: the final save, or its two-step rollback. */
    method CommitActivated(before: Config, pending: Config, now: int, id: string, activation: Activation,
                           f: ApplyFaults)
      returns (outcome: Outcome)
      modifies this, store
      ensures After(View(), outcome) == Commit(old(View()), before, pending, now, id, activation, f)
    {
      var final := pending;
      final := final.(authToken := pending.pendingAuthToken, renewalToken := pending.pendingRenewalToken);
      if final.renewalEndpoint == "" {
        final := final.(renewalEndpoint := DefaultRenewalEndpoint(final.grpcEndpoint));
      }
      final := final.(credentialExpires := pending.pendingExpires, authGeneration := pending.pendingGeneration);
      final := final.(renewalStatus := Healthy, renewalAttempts := 0, renewalLastError := "",
                      renewalLastSuccess := now, renewalNextRetry := 0);
      final := ClearPending(final);
      outcome := SaveCredentialConfig(final, f.commit);
      if outcome.Failed? {
        var pointerBack := store.RollbackTo(activation, f.undoPointer);
        if pointerBack.Crashed? { return Crashed; }
        outcome := SaveCredentialConfig(before, f.undoConfig);
        if !outcome.Done? { return; }
        var gone := store.DiscardRotation(id, f.discardUncommitted);
        return if gone.Crashed? then Crashed else Failed;
      }
    }

    /** resumePendingCredentialCutover. */
    method ResumePendingCredentialCutover(now: int, f: ResumeFaults) returns (outcome: Outcome)
      modifies this, store
      ensures After(View(), outcome) == Resume(old(View()), now, f)
    {
      var next := cfg;
      if next.pendingId == "" || next.pendingRenewalToken == "" || next.pendingExpires == 0 { return Done; }
      var _, activated := store.ActivateRotation(next.pendingId, f.activate);
      if !activated.Done? { return activated; }
      var activation := Activation(next.pendingPrevious, next.pendingHadPointer);
      var before := next;
      next := next.(authToken := next.pendingAuthToken, renewalToken := next.pendingRenewalToken,
                    credentialExpires := next.pendingExpires, authGeneration := next.pendingGeneration);
      next := next.(renewalStatus := Healthy, renewalAttempts := 0, renewalLastError := "",
                    renewalLastSuccess := now, renewalNextRetry := 0);
      next := ClearPending(next);
      outcome := SaveCredentialConfig(next, f.commit);
      if outcome.Failed? {
        var pointerBack := store.RollbackTo(activation, f.undoPointer);
        if pointerBack.Crashed? { return Crashed; }
        var undone := SaveCredentialConfig(before, f.undoConfig);
        return if undone.Crashed? then Crashed else Failed;
      }
    }

    /** recordCredentialFailure. */
    method RecordCredentialFailure(now: int, code: string, clearPending: bool, f: RecordFaults)
      returns (outcome: Outcome)
      modifies this, store
      ensures After(View(), outcome) == Record(old(View()), now, SafeCode(code), clearPending, f)
    {
      var next := cfg;
      next := next.(renewalStatus := Broken, renewalLastError := SafeCode(code));
      if next.renewalAttempts < 1 {
        next := next.(renewalAttempts := 1);
      }
      next := next.(renewalNextRetry := now + RenewalBackoff(next.renewalAttempts));
      var requestId := next.pendingId;
      if clearPending {
        next := ClearPending(next);
      }
      outcome := SaveCredentialConfig(next, f.save);
      if outcome.Crashed? { return; }
      if clearPending && requestId != "" {
        var gone := store.DiscardRotation(requestId, f.discard);
        if gone.Crashed? { return Crashed; }
      }
      return Done;
    }

    /** HandleTunnelConfig, the part under the config lock. */
    method HandleTunnelConfig(token: string, id: string, f: Fate) returns (outcome: Outcome)
      modifies this
      ensures After(View(), outcome) == TunnelUpdate(old(View()), token, id, f)
    {
      var updated := cfg.(tunnelToken := token, tunnelId := id);
      if !f.Works? { return OutcomeOf(f); }
      saved := updated;
      cfg := cfg.(tunnelToken := token, tunnelId := id);
      return Done;
    }

    /** Expiry, on the active certificate of the store. */
    method CredentialExpiry() returns (expiry: Option<int>)
      ensures expiry == Expiry(cfg, store.View())
    {
      var configured := if cfg.credentialExpires > 0 then Some(cfg.credentialExpires) else None;
      if cfg.authMode == "token" {
        if cfg.authToken.claims.None? { return configured; }
        var claims := cfg.authToken.claims.value;
        if claims.subject == "" || claims.expires == 0 { return configured; }
        return Some(claims.expires);
      }
      var cert := store.ActiveCert();
      return if cert.None? then configured else Some(cert.value.notAfter);
    }

    /** recordCredentialFailure as the last step of a longer call, which then ends with `otherwise`. */
    method NoteFailure(x: Recovery, code: string, clear: bool, otherwise: Outcome, ghost r: Run, ghost before: seq<Step>)
      returns (outcome: Outcome, ghost steps: seq<Step>)
      requires Behaves(r, before) && AdvanceAll(r, before).sys == View() && !otherwise.Crashed?
      requires clear ==> AdvanceAll(r, before).resumed
      modifies this, store
      ensures Behaves(r, steps)
      ensures Notes(old(View()), x, before, code, clear, steps, outcome, otherwise)
      ensures AdvanceAll(r, steps).sys == if outcome.Crashed? then Restart(View()) else View()
      ensures AdvanceAll(r, steps).resumed <==> !outcome.Crashed? && AdvanceAll(r, before).resumed
    {
      outcome := RecordCredentialFailure(x.now, code, clear, x.recordFaults);
      Behaved(r, before, RecordStep(x.now, SafeCode(code), clear, x.recordFaults));
      steps := before + [RecordStep(x.now, SafeCode(code), clear, x.recordFaults)];
      if !outcome.Crashed? { outcome := otherwise; }
    }

    /** recoverCredentials: resume first, then, if due, request and apply new credentials. */
    method RecoverCredentials(force: bool, x: Recovery, ghost r: Run)
      returns (outcome: Outcome, ghost steps: seq<Step>)
      requires r.sys == View()
      requires IsBundleId(x.freshId) && x.freshId !in r.used && Contained(x.applyFaults)
      modifies this, store
      ensures Behaves(r, steps)
      ensures AdvanceAll(r, steps).sys == if outcome.Crashed? then Restart(View()) else View()
      ensures outcome.Done? ==> AdvanceAll(r, steps).resumed
      ensures Recovers(old(View()), force, x, steps, outcome)
    {
      ghost var resume := ResumeStep(x.now, x.resumeFaults);
      outcome := ResumePendingCredentialCutover(x.now, x.resumeFaults);
      Behaved(r, [], resume);
      steps := [] + [resume];
      assert steps == [resume];
      if outcome.Crashed? { return; }
      if outcome.Failed? {
        outcome, steps := NoteFailure(x, "resume_failed", false, Failed, r, steps);
        return;
      }
      var c := cfg;
      var expiry := CredentialExpiry();
      if expiry.None? && !force { outcome := Failed; return; }
      if !force && x.now < expiry.value { return; }
      if c.renewalToken == "" || c.renewalNextRetry > x.now { outcome := Failed; return; }
      outcome, steps := RequestAndApply(x, r, steps);
    }

    /** The exchange: request, answer, apply. */
    method RequestAndApply(x: Recovery, ghost r: Run, ghost before: seq<Step>)
      returns (outcome: Outcome, ghost steps: seq<Step>)
      requires Behaves(r, before) && AdvanceAll(r, before).sys == View() && AdvanceAll(r, before).resumed
      requires cfg.renewalNextRetry <= x.now
      requires IsBundleId(x.freshId) && x.freshId !in AdvanceAll(r, before).used && Contained(x.applyFaults)
      modifies this, store
      ensures Behaves(r, steps)
      ensures AdvanceAll(r, steps).sys == if outcome.Crashed? then Restart(View()) else View()
      ensures outcome.Done? ==> AdvanceAll(r, steps).resumed
      ensures Exchanges(old(View()), x, before, steps, outcome)
    {
      outcome, steps := TakeBegin(x, r, before);
      if outcome.Crashed? { return; }
      if outcome.Failed? {
        outcome, steps := NoteFailure(x, "prepare_failed", true, Failed, r, steps);
      } else if x.response.None? {
        outcome, steps := NoteFailure(x, "recovery_failed", false, Failed, r, steps);
      } else {
        outcome, steps := ApplyAnswer(x, Failed, r, steps);
      }
    }

    /** beginCredentialRequest as a step of a longer call. */
    method TakeBegin(x: Recovery, ghost r: Run, ghost before: seq<Step>) returns (outcome: Outcome, ghost steps: seq<Step>)
      requires Behaves(r, before) && AdvanceAll(r, before).sys == View() && AdvanceAll(r, before).resumed
      requires cfg.renewalNextRetry <= x.now
      requires IsBundleId(x.freshId) && x.freshId !in AdvanceAll(r, before).used
      modifies this, store
      ensures steps == before + [BeginStep(x.now, x.freshId, x.key, x.beginFaults)] && Behaves(r, steps)
      ensures After(View(), outcome) == Call(old(View()), BeginStep(x.now, x.freshId, x.key, x.beginFaults))
      ensures AdvanceAll(r, steps).sys == if outcome.Crashed? then Restart(View()) else View()
      ensures AdvanceAll(r, steps).resumed <==> !outcome.Crashed?
    {
      var request, csr;
      request, csr, outcome := BeginCredentialRequest(x.now, x.freshId, x.key, x.beginFaults);
      Behaved(r, before, BeginStep(x.now, x.freshId, x.key, x.beginFaults));
      steps := before + [BeginStep(x.now, x.freshId, x.key, x.beginFaults)];
    }

    /** applyCredentialRotation as a step of a longer call, with the record of its failure. */
    method ApplyAnswer(x: Recovery, otherwise: Outcome, ghost r: Run, ghost before: seq<Step>)
      returns (outcome: Outcome, ghost steps: seq<Step>)
      requires Behaves(r, before) && AdvanceAll(r, before).sys == View() && AdvanceAll(r, before).resumed
      requires x.response.Some? && Contained(x.applyFaults) && !otherwise.Crashed?
      modifies this, store
      ensures Behaves(r, steps)
      ensures AdvanceAll(r, steps).sys == if outcome.Crashed? then Restart(View()) else View()
      ensures AdvanceAll(r, steps).resumed <==> !outcome.Crashed?
      ensures Applies(old(View()), x, x.response.value, before, steps, outcome, otherwise)
    {
      outcome := ApplyCredentialRotation(x.now, x.response.value, x.applyFaults);
      Behaved(r, before, ApplyStep(x.now, x.response.value, x.applyFaults));
      steps := before + [ApplyStep(x.now, x.response.value, x.applyFaults)];
      if outcome.Failed? {
        outcome, steps := NoteFailure(x, "activation_failed", false, otherwise, r, steps);
      }
    }

    /** maybeRequestCredentialRenewal, on a live stream: a request only if renewal is due. */
    method MaybeRequestCredentialRenewal(x: Recovery, sendWorks: bool, ghost r: Run)
      returns (requested: bool, outcome: Outcome, ghost steps: seq<Step>)
      requires r.sys == View() && r.resumed
      requires IsBundleId(x.freshId) && x.freshId !in r.used
      modifies this, store
      ensures Behaves(r, steps)
      ensures AdvanceAll(r, steps).sys == if outcome.Crashed? then Restart(View()) else View()
      ensures Requests(old(View()), x, sendWorks, requested, steps, outcome)
    {
      steps, requested, outcome := [], false, Done;
      var expiry := CredentialExpiry();
      if expiry.None? {
        outcome, steps := NoteFailure(x, "expiry_unavailable", false, Done, r, steps);
        return;
      }
      if !RenewalDue(cfg, expiry.value, x.now) { return; }
      if cfg.renewalNextRetry > x.now { return; }
      outcome, steps := TakeBegin(x, r, []);
      if outcome.Crashed? { return; }
      if outcome.Failed? {
        outcome, steps := NoteFailure(x, "prepare_failed", true, Done, r, steps);
      } else if sendWorks {
        requested := true;
      } else {
        outcome, steps := NoteFailure(x, "send_failed", false, Failed, r, steps);
      }
    }

    /** handleCredentialRotation, on a live stream: true when the stream should reconnect. */
    method HandleCredentialRotation(x: Recovery, rejected: Option<string>, ghost r: Run)
      returns (reconnect: bool, outcome: Outcome, ghost steps: seq<Step>)
      requires r.sys == View() && r.resumed && Contained(x.applyFaults)
      requires rejected.None? ==> x.response.Some?
      modifies this, store
      ensures Behaves(r, steps)
      ensures AdvanceAll(r, steps).sys == if outcome.Crashed? then Restart(View()) else View()
      ensures Handles(old(View()), x, rejected, reconnect, steps, outcome)
    {
      steps, reconnect := [], false;
      if rejected.Some? {
        outcome, steps := NoteFailure(x, rejected.value, true, Done, r, steps);
        return;
      }
      outcome := ApplyCredentialRotation(x.now, x.response.value, x.applyFaults);
      Behaved(r, [], ApplyStep(x.now, x.response.value, x.applyFaults));
      steps := [] + [ApplyStep(x.now, x.response.value, x.applyFaults)];
      reconnect := outcome.Done?;
      if outcome.Failed? {
        outcome, steps := NoteFailure(x, "activation_failed", false, Done, r, steps);
      }
    }
  }
}
