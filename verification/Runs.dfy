/**
 Runs of the agent: any sequence of lock-protected credential calls, tunnel updates and
 process restarts.  A call that dies is followed by a restart from what is on disk.
 */
module Runs {
  import opened Wrappers
  import opened Durable
  import opened CertStore
  import opened Credentials

  datatype Step =
    | BeginStep(now: int, freshId: string, key: nat, beginFaults: BeginFaults)
    | ApplyStep(now: int, rotation: Rotation, applyFaults: ApplyFaults)
    | ResumeStep(now: int, resumeFaults: ResumeFaults)
    | RecordStep(now: int, code: string, clear: bool, recordFaults: RecordFaults)
    | TunnelStep(token: string, tunnel: string, fate: Fate)
    | RestartStep

  function Call(s: Sys, step: Step): After {
    match step
    case BeginStep(now, freshId, key, f) => Begin(s, now, freshId, key, f)
    case ApplyStep(now, r, f) => Apply(s, now, r, f)
    case ResumeStep(now, f) => Resume(s, now, f)
    case RecordStep(now, code, clear, f) => Record(s, now, code, clear, f)
    case TunnelStep(token, id, f) => TunnelUpdate(s, token, id, f)
    case RestartStep => After(s, Crashed)
  }

  function Landed(a: After): Sys {
    if a.outcome.Crashed? then Restart(a.sys) else a.sys
  }

  function Next(s: Sys, step: Step): Sys {
    Landed(Call(s, step))
  }

  // ---------- where credentials come from ----------

  datatype Files = Files(key: nat, cert: Cert, ca: nat)
  datatype Values = Values(authToken: Token, renewalToken: string, expires: int, generation: int)

  /** One enrollment or rotation response: the bundle it fills (None: the legacy files) and its values. */
  datatype Grant = Grant(id: Option<string>, files: Files, values: Values)

  function Live(c: Config): Values {
    Values(c.authToken, c.renewalToken, c.credentialExpires, c.authGeneration)
  }

  function PendingValues(c: Config): Values {
    Values(c.pendingAuthToken, c.pendingRenewalToken, c.pendingExpires, c.pendingGeneration)
  }

  function FilesOf(b: Bundle): Option<Files> {
    if CompleteBundle(b) then Some(Files(b.key.value, b.cert.value, b.ca.value)) else None
  }

  function FilesAt(c: Certs, id: Option<string>): Option<Files> {
    match id
    case None => FilesOf(c.legacy)
    case Some(name) => FilesOf(BundleAt(c, name))
  }

  function GrantOf(s: Sys, r: Rotation): Grant
    requires r.cert.Some? && r.ca.Some? && BundleAt(s.disk.certs, r.requestId).key.Some?
  {
    Grant(Some(r.requestId),
          Files(BundleAt(s.disk.certs, r.requestId).key.value, r.cert.value, r.ca.value),
          Values(r.authToken, r.renewalToken, r.expires, r.generation))
  }

  // ---------- runs with their history ----------

  /** `granted`: enrollment and every accepted response; `used`: every bundle id so far;
      `resumed`: this process has already got a nil answer from the resume step. */
  datatype Run = Run(sys: Sys, granted: set<Grant>, used: set<string>, resumed: bool)

  function NewGrants(s: Sys, step: Step): set<Grant> {
    if step.ApplyStep? && Accepts(s, step.now, step.rotation) then {GrantOf(s, step.rotation)} else {}
  }

  function NewIds(step: Step): set<string> {
    if step.BeginStep? then {step.freshId} else {}
  }

  function Advance(r: Run, step: Step): Run {
    var a := Call(r.sys, step);
    Run(Landed(a), r.granted + NewGrants(r.sys, step), r.used + NewIds(step),
        !a.outcome.Crashed? && (r.resumed || (step.ResumeStep? && a.outcome.Done?)))
  }

  function AdvanceAll(r: Run, steps: seq<Step>): Run {
    if steps == [] then r else Advance(AdvanceAll(r, steps[..|steps| - 1]), steps[|steps| - 1])
  }

  /** newRotationID never repeats an identifier. */
  predicate Fresh(r: Run, step: Step) {
    step.BeginStep? ==> IsBundleId(step.freshId) && step.freshId !in r.used
  }

  /** Failed writes among those an apply may perform (its removals are not counted). */
  function FailedWrites(f: ApplyFaults): nat {
    Failure(f.stageCert) + Failure(f.stageCa) + Failure(f.savePending) + Failure(f.activate) +
    Failure(f.undoPending) + Failure(f.commit) + Failure(f.undoPointer) + Failure(f.undoConfig)
  }

  /** Everything before the pointer is switched works. */
  predicate ReachesSwitch(f: ApplyFaults) {
    f.stageCert.Works? && f.stageCa.Works? && f.savePending.Works?
  }

  /** The failures that tear the cutover in one apply: the final save fails, restoring the pointer
      fails, and restoring the configuration works. */
  predicate Diverges(f: ApplyFaults) {
    && ReachesSwitch(f) && f.activate.Works?
    && f.commit.Fails? && f.undoPointer.Fails? && f.undoConfig.Works?
  }

  /** The failures after which an apply returns an error to a process that goes on, with the record of
      the switch still saved: the configuration could not be restored either. */
  predicate KeepsRecord(f: ApplyFaults) {
    && ReachesSwitch(f)
    && ((f.activate.Fails? && f.undoPending.Fails?) ||
        (f.activate.Works? && f.commit.Fails? && !f.undoPointer.Dies? && f.undoConfig.Fails?))
  }

  /** Neither of the two. */
  predicate Contained(f: ApplyFaults) {
    !Diverges(f) && !KeepsRecord(f)
  }

  /** Both take two failed writes. */
  lemma OneFailureIsContained(f: ApplyFaults)
    requires FailedWrites(f) <= 1
    ensures Contained(f)
  {
  }

  /** The order Run imposes: a request, a response or a rejection is handled only after the
      resume step has succeeded in this process; and the failures of an apply are contained. */
  predicate Admitted(r: Run, step: Step) {
    && Fresh(r, step)
    && (step.BeginStep? || (step.RecordStep? && step.clear) ==> r.resumed)
    && (step.ApplyStep? ==> r.resumed && Contained(step.applyFaults))
  }

  predicate AllAdmitted(r: Run, steps: seq<Step>) {
    steps == [] ||
    (AllAdmitted(r, steps[..|steps| - 1]) &&
     Admitted(AdvanceAll(r, steps[..|steps| - 1]), steps[|steps| - 1]))
  }

  predicate AllFresh(r: Run, steps: seq<Step>) {
    steps == [] ||
    (AllFresh(r, steps[..|steps| - 1]) &&
     Fresh(AdvanceAll(r, steps[..|steps| - 1]), steps[|steps| - 1]))
  }

  /** The state after `grant` was enrolled: nothing pending, its files active, its values live. */
  predicate Enrolled(r: Run, grant: Grant) {
    && r.granted == {grant}
    && r.sys.mem == r.sys.disk.config
    && r.sys.disk.config == ClearPending(r.sys.disk.config)
    && InForce(r.sys.disk, grant)
    && (grant.id.Some? ==> grant.id.value in r.used)
    && "" in r.used
    && !r.resumed
  }

  /** The files the pointer file selects and the live values are those of one grant. */
  predicate InForce(d: Disk, g: Grant) {
    && Live(d.config) == g.values
    && PointerOf(d.certs.pointer) == g.id
    && FilesAt(d.certs, g.id) == Some(g.files)
  }
}
