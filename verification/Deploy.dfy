/**
 Deploy of internal/deploy/deployer.go as a machine that asks Docker and the network
 questions and leaves a trace of what it started, stopped and reported.

 Every answer is an input, so the contracts hold for every sequence of answers.  A loop
 asks its n-th question of a function of n; a deadline is the number of polls it allows.
 */
module Deploys {
  import opened Wrappers

  type Id = nat

  datatype Status = Deploying | HealthChecking | Active

  datatype Event =
    | Reported(status: Status, about: Option<Id>)
    | Started(id: Id)
    | Adopted(id: Id)
    | Stopped(id: Id)
    | Checked(passed: bool)  // one HTTP health check

  datatype HealthConfig = HealthConfig(hasPath: bool, retries: int, intervalSeconds: int, graceSeconds: int)

  /** `pulls`: the image is named and was not built locally; `slowStart`: retries an image handler asks for. */
  datatype Opts = Opts(health: HealthConfig, volumes: nat, pulls: bool, companions: nat, databaseImage: bool,
                       slowStart: nat)

  datatype ImageMeta = ImageMeta(hasHealthcheck: bool)

  datatype RunAnswer = Ran(id: Id) | NameInUse | RunFailed

  datatype Inspection = Unknown | Alive | Exited

  datatype Protocol = Http | Tcp | Closed | Other

  datatype DockerHealth = Healthy | Unhealthy | Undecided

  /** One question of the port-opening loop. */
  datatype PortPoll = PortPoll(cancelled: bool, inspection: Inspection, protocol: Protocol)

  /** One poll of Docker's own health check. */
  datatype HealthPoll = HealthPoll(cancelled: bool, inspection: Inspection, health: DockerHealth)

  datatype HttpAnswers = HttpAnswers(graceCancelled: bool, healthy: nat -> bool, waitCancelled: nat -> bool)

  datatype Answers = Answers(
    networkOk: bool, former: Option<Id>, pullOk: bool, meta: Option<ImageMeta>,
    named: Option<Id>, namedInspection: Inspection,
    companionsReady: nat -> bool, companionsCancelled: nat -> bool, companionPolls: nat,
    run: RunAnswer, adoptable: Option<Id>,
    settleCancelled: bool, settled: Inspection,
    ip: nat -> bool, ipInspection: nat -> Inspection,
    protocol: Protocol, autoPath: bool, http: HttpAnswers,
    portGraceCancelled: bool, ports: nat -> PortPoll,
    dockerHealth: nat -> HealthPoll, dockerHealthPolls: nat)

  /** Why a deploy failed. */
  datatype Failure =
    | NoNetwork | NoImage | NoCompanions | NotStarted        // before there is a container
    | Interrupted                                             // the context ended
    | CrashedOnStart | ExitedWaiting | ChecksExhausted | NeverOpened
    | NoAddress | DatabaseUnhealthy

  /** Blue-green: an explicit health path and no configured volumes. */
  predicate ShouldBlueGreen(opts: Opts) {
    opts.health.hasPath && opts.volumes == 0
  }

  ghost function Actives(trace: seq<Event>): nat {
    if trace == [] then 0
    else Actives(trace[..|trace| - 1]) +
         if trace[|trace| - 1].Reported? && trace[|trace| - 1].status.Active? then 1 else 0
  }

  lemma {:induction false} ActivesConcat(left: seq<Event>, right: seq<Event>)
    ensures Actives(left + right) == Actives(left) + Actives(right)
  {
    if right == [] {
      assert left + right == left;
    } else {
      ActivesConcat(left, right[..|right| - 1]);
      assert (left + right)[..|left + right| - 1] == left + right[..|right| - 1];
    }
  }

  lemma ActivesSnoc(trace: seq<Event>, e: Event)
    ensures Actives(trace + [e]) == Actives(trace) + if e.Reported? && e.status.Active? then 1 else 0
  {
    assert (trace + [e])[..|trace|] == trace;
  }

  lemma ActivesOne(e: Event)
    ensures Actives([e]) == if e.Reported? && e.status.Active? then 1 else 0
  {
    assert [e][..0] == [];
  }

  /** No event of `effects` happens before one of `causes`. */
  ghost predicate Before(trace: seq<Event>, causes: set<Event>, effects: set<Event>) {
    forall k :: 0 <= k < |trace| && trace[k] in effects ==> exists j :: 0 <= j < k && trace[j] in causes
  }

  lemma BeforeStays(left: seq<Event>, right: seq<Event>, causes: set<Event>, effects: set<Event>)
    requires Before(right, causes, effects) && forall k :: 0 <= k < |left| ==> left[k] !in effects
    ensures Before(left + right, causes, effects)
  {
    var all := left + right;
    assert forall k :: 0 <= k < |left| ==> all[k] == left[k];
    forall k | 0 <= k < |all| && all[k] in effects ensures exists j :: 0 <= j < k && all[j] in causes {
      assert right[k - |left|] in effects;
      var j :| 0 <= j < k - |left| && right[j] in causes;
      assert all[|left| + j] in causes;
    }
  }

  /** A cause in front covers everything after it. */
  lemma BeforeAll(left: seq<Event>, right: seq<Event>, causes: set<Event>, effects: set<Event>)
    requires left != [] && left[|left| - 1] in causes && forall k :: 0 <= k < |left| ==> left[k] !in effects
    ensures Before(left + right, causes, effects)
  {
    var all := left + right;
    assert all[|left| - 1] in causes;
    assert forall k :: 0 <= k < |left| ==> all[k] == left[k];
  }

  lemma BeforeSnoc(trace: seq<Event>, e: Event, causes: set<Event>, effects: set<Event>)
    requires Before(trace, causes, effects)
    requires e in effects ==> exists j :: 0 <= j < |trace| && trace[j] in causes
    ensures Before(trace + [e], causes, effects)
  {
    var all := trace + [e];
    forall k | 0 <= k < |all| && all[k] in effects ensures exists j :: 0 <= j < k && all[j] in causes {
      if k < |trace| {
        assert trace[k] in effects;
        var j :| 0 <= j < k && trace[j] in causes;
        assert all[j] in causes;
      } else {
        var j :| 0 <= j < |trace| && trace[j] in causes;
        assert all[j] in causes;
      }
    }
  }

  /** The events that bring the container up, and those of its judgement. */
  ghost function LaunchOf(id: Id): set<Event> {
    {Started(id), Adopted(id)}
  }

  ghost function Judgements(id: Id): set<Event> {
    {Checked(true), Checked(false), Reported(Active, Some(id))}
  }

  // ---------- the waiting loops ----------

  /** The first health check to pass, if one does before the retries or the context run out. */
  ghost predicate PassesAt(http: HttpAnswers, retries: int, k: nat) {
    k < retries && http.healthy(k) && forall j: nat :: j < k ==> !http.healthy(j) && !http.waitCancelled(j)
  }

  function Retries(hc: HealthConfig): int {
    if hc.retries <= 0 then 3 else hc.retries
  }

  ghost predicate HttpPasses(hc: HealthConfig, http: HttpAnswers) {
    !(hc.graceSeconds > 0 && http.graceCancelled) && exists k: nat :: PassesAt(http, Retries(hc), k)
  }

  /** Every check fails and the context lives to the last of them. */
  ghost predicate HttpExhausts(hc: HealthConfig, http: HttpAnswers) {
    && !(hc.graceSeconds > 0 && http.graceCancelled)
    && (forall j: nat :: j < Retries(hc) ==> !http.healthy(j))
    && (forall j: nat :: j + 1 < Retries(hc) ==> !http.waitCancelled(j))
  }

  /** `n` health checks that did not pass. */
  function FailedChecks(n: nat): seq<Event> {
    if n == 0 then [] else FailedChecks(n - 1) + [Checked(false)]
  }

  /** How a health-checking loop ends its trace. */
  function Ending(id: Id, failure: Option<Failure>): seq<Event> {
    if failure.None? then [Checked(true), Reported(Active, Some(id))]
    else if failure == Some(ChecksExhausted) then [Stopped(id)]
    else []
  }

  /** runHTTPHealthChecks: `failed` checks, then a pass and the report, the removal, or nothing. */
  method RunHttpHealthChecks(id: Id, hc: HealthConfig, http: HttpAnswers)
    returns (failure: Option<Failure>, failed: nat, trace: seq<Event>)
    ensures failure.None? <==> HttpPasses(hc, http)
    ensures trace == FailedChecks(failed) + Ending(id, failure)
    ensures failure in {None, Some(ChecksExhausted), Some(Interrupted)}
    ensures failed <= Retries(hc) && (failure == Some(ChecksExhausted) <==> failed == Retries(hc))
    ensures failure == Some(ChecksExhausted) <==> HttpExhausts(hc, http)
    ensures (forall j: nat :: j < failed ==> !http.healthy(j)) && (failure.None? ==> PassesAt(http, Retries(hc), failed))
  {
    trace, failed := [], 0;
    var retries := hc.retries;
    if retries <= 0 { retries := 3; }
    if hc.graceSeconds > 0 && http.graceCancelled { return Some(Interrupted), failed, trace; }
    for attempt := 0 to retries
      invariant failed == attempt && trace == FailedChecks(attempt)
      invariant forall j: nat :: j < attempt ==> !http.healthy(j)
      invariant forall j: nat :: j < attempt && j + 1 < retries ==> !http.waitCancelled(j)
    {
      if http.healthy(attempt) {
        assert PassesAt(http, Retries(hc), attempt);
        trace := trace + [Checked(true), Reported(Active, Some(id))];
        return None, failed, trace;
      }
      trace := trace + [Checked(false)];
      failed := failed + 1;
      if attempt + 1 < retries {
        if http.waitCancelled(attempt) {
          assert trace + [] == trace;
          return Some(Interrupted), failed, trace;
        }
      }
    }
    trace := trace + [Stopped(id)];
    return Some(ChecksExhausted), failed, trace;
  }

  /** All companions are ready at some poll before the deadline and the end of the context. */
  ghost predicate CompanionsCome(ready: nat -> bool, cancelled: nat -> bool, polls: nat) {
    exists k: nat :: k <= polls && ready(k) && forall j: nat :: j < k ==> !ready(j) && !cancelled(j)
  }

  /** waitForCompanions: polls until ready, the deadline or the end of the context. */
  method WaitForCompanions(ready: nat -> bool, cancelled: nat -> bool, polls: nat) returns (ok: bool)
    ensures ok <==> CompanionsCome(ready, cancelled, polls)
  {
    var k := 0;
    while true
      invariant k <= polls
      invariant forall j: nat :: j < k ==> !ready(j) && !cancelled(j)
      decreases polls - k
    {
      if ready(k) { return true; }
      if k == polls || cancelled(k) { return false; }
      k := k + 1;
    }
  }

  /** Neither the container, Docker nor the context decides poll `k`. */
  predicate Pending(p: HealthPoll) {
    !p.cancelled && !p.inspection.Exited? && p.health.Undecided?
  }

  /** The first decisive poll of Docker's health check before the deadline says healthy. */
  ghost predicate DockerConfirms(polls: nat -> HealthPoll, deadline: nat) {
    exists k: nat :: k < deadline && !polls(k).cancelled && !polls(k).inspection.Exited?
                     && polls(k).health.Healthy? && forall j: nat :: j < k ==> Pending(polls(j))
  }

  /** waitForDockerHealthy. */
  method WaitForDockerHealthy(polls: nat -> HealthPoll, deadline: nat) returns (ok: bool)
    ensures ok <==> DockerConfirms(polls, deadline)
  {
    for k := 0 to deadline
      invariant forall j: nat :: j < k ==> Pending(polls(j))
    {
      var p := polls(k);
      if p.cancelled { return false; }
      if p.inspection.Exited? { return false; }
      match p.health {
        case Healthy => return true;
        case Unhealthy => return false;
        case Undecided =>
      }
    }
    return false;
  }

  function StartupRetries(opts: Opts): nat {
    if opts.slowStart > 0 then opts.slowStart else if opts.health.retries > 6 then opts.health.retries else 6
  }

  /** The port is still closed and nothing else happened. */
  predicate StillClosed(p: PortPoll) {
    !p.cancelled && !p.inspection.Exited? && !p.protocol.Http? && !p.protocol.Tcp?
  }

  /** Poll `k` is the first at which the port is open or the wait ends early. */
  ghost predicate DecidedAt(a: Answers, retries: nat, k: nat) {
    k < retries && !StillClosed(a.ports(k)) && forall j: nat :: j < k ==> StillClosed(a.ports(j))
  }

  ghost predicate PortOpens(opts: Opts, injected: bool, a: Answers) {
    && !(opts.health.graceSeconds > 0 && a.portGraceCancelled)
    && exists k: nat :: DecidedAt(a, StartupRetries(opts), k)
         && !a.ports(k).cancelled && !a.ports(k).inspection.Exited?
         && (a.ports(k).protocol.Tcp? && injected ==> DockerConfirms(a.dockerHealth, a.dockerHealthPolls))
  }

  /** The container exits while its port is still closed. */
  ghost predicate PortDies(opts: Opts, a: Answers) {
    && !(opts.health.graceSeconds > 0 && a.portGraceCancelled)
    && exists k: nat :: DecidedAt(a, StartupRetries(opts), k) && !a.ports(k).cancelled && a.ports(k).inspection.Exited?
  }

  ghost predicate PortStaysClosed(opts: Opts, a: Answers) {
    && !(opts.health.graceSeconds > 0 && a.portGraceCancelled)
    && forall j: nat :: j < StartupRetries(opts) ==> StillClosed(a.ports(j))
  }

  /** The closed-port branch: wait for the port, for a container that dies, or for the end of the retries. */
  method WaitForPort(id: Id, opts: Opts, injected: bool, a: Answers) returns (failure: Option<Failure>, trace: seq<Event>)
    ensures failure.None? <==> PortOpens(opts, injected, a)
    ensures failure.None? <==> trace == [Reported(Active, Some(id))]
    ensures failure.Some? ==> failure.value in {Interrupted, ExitedWaiting, NeverOpened, DatabaseUnhealthy}
    ensures failure.Some? ==> trace == if failure.value in {ExitedWaiting, NeverOpened} then [Stopped(id)] else []
    ensures failure == Some(ExitedWaiting) <==> PortDies(opts, a)
    ensures failure == Some(NeverOpened) <==> PortStaysClosed(opts, a)
  {
    trace := [];
    var retries := 6;
    if opts.health.retries > retries { retries := opts.health.retries; }
    if opts.slowStart > 0 { retries := opts.slowStart; }
    if opts.health.graceSeconds > 0 && a.portGraceCancelled { return Some(Interrupted), trace; }
    for attempt := 0 to retries
      invariant forall j: nat :: j < attempt ==> StillClosed(a.ports(j))
    {
      var p := a.ports(attempt);
      assert !StillClosed(p) ==> DecidedAt(a, StartupRetries(opts), attempt);
      if p.cancelled { return Some(Interrupted), trace; }
      if p.inspection.Exited? { return Some(ExitedWaiting), [Stopped(id)]; }
      if p.protocol.Http? || (p.protocol.Tcp? && !injected) {
        return None, [Reported(Active, Some(id))];
      }
      if p.protocol.Tcp? && injected {
        var ok := WaitForDockerHealthy(a.dockerHealth, a.dockerHealthPolls);
        if !ok { return Some(DatabaseUnhealthy), trace; }
        return None, [Reported(Active, Some(id))];
      }
    }
    return Some(NeverOpened), [Stopped(id)];
  }

  ghost predicate HasAddress(a: Answers) {
    exists k: nat :: k < 3 && a.ip(k) && forall j: nat :: j < k ==> !a.ip(j) && !a.ipInspection(j).Exited?
  }

  /** The container exits before it has an address. */
  ghost predicate ExitsUnaddressed(a: Answers) {
    exists k: nat :: k < 3 && !a.ip(k) && a.ipInspection(k).Exited? && forall j: nat :: j < k ==> !a.ip(j) && !a.ipInspection(j).Exited?
  }

  /** The three tries at the container's address. */
  method FindAddress(id: Id, a: Answers) returns (failure: Option<Failure>, trace: seq<Event>)
    ensures failure.None? <==> HasAddress(a)
    ensures failure.Some? ==> failure.value in {CrashedOnStart, NoAddress}
    ensures failure == Some(CrashedOnStart) <==> ExitsUnaddressed(a)
    ensures trace == if failure == Some(CrashedOnStart) then [Stopped(id)] else []
  {
    for attempt := 0 to 3
      invariant forall j: nat :: j < attempt ==> !a.ip(j) && !a.ipInspection(j).Exited?
    {
      if a.ip(attempt) { return None, []; }
      if a.ipInspection(attempt).Exited? { return Some(CrashedOnStart), [Stopped(id)]; }
    }
    return Some(NoAddress), [];
  }

  // ---------- the phases of Deploy ----------

  /** What the port probe and the configured checks must show. */
  ghost predicate PassesItsChecks(opts: Opts, injected: bool, a: Answers) {
    if opts.health.hasPath || (a.protocol.Http? && a.autoPath) then HttpPasses(opts.health, a.http)
    else
      match a.protocol
      case Http => true
      case Tcp => injected ==> DockerConfirms(a.dockerHealth, a.dockerHealthPolls)
      case Closed => PortOpens(opts, injected, a)
      case Other => true
  }

  ghost predicate ComesUp(opts: Opts, injected: bool, a: Answers) {
    !a.settleCancelled && !a.settled.Exited? && HasAddress(a) && PassesItsChecks(opts, injected, a)
  }

  /** The configured check or the port says that the container is of no use. */
  ghost predicate FailsItsChecks(opts: Opts, a: Answers) {
    if opts.health.hasPath || (a.protocol.Http? && a.autoPath) then HttpExhausts(opts.health, a.http)
    else a.protocol.Closed? && (PortDies(opts, a) || PortStaysClosed(opts, a))
  }

  /** Exactly the answers on which a failing deploy removes the container it started. */
  ghost predicate IsHopeless(opts: Opts, a: Answers) {
    && !a.settleCancelled
    && (a.settled.Exited? || ExitsUnaddressed(a) || (HasAddress(a) && FailsItsChecks(opts, a)))
  }

  /** Failures after which the deploy has removed its own container. */
  predicate Removes(f: Failure) {
    f in {CrashedOnStart, ExitedWaiting, ChecksExhausted, NeverOpened}
  }

  /** A trace that judges container `id`: one report that it is active, exactly on success; no container but
      this one stopped, and this one exactly after a failure that removes it; nothing started. */
  ghost predicate JudgedOn(id: Id, failure: Option<Failure>, trace: seq<Event>) {
    && Actives(trace) == (if failure.None? then 1 else 0)
    && (failure.None? ==> Reported(Active, Some(id)) in trace)
    && (forall k :: 0 <= k < |trace| && trace[k].Stopped? ==> trace[k] == Stopped(id))
    && (forall k :: 0 <= k < |trace| ==> !trace[k].Started? && !trace[k].Adopted?)
    && (Stopped(id) in trace <==> failure.Some? && Removes(failure.value))
    && (failure.Some? ==> !(failure.value in {NoNetwork, NoImage, NoCompanions, NotStarted}))
  }

  lemma ReportedThenJudged(id: Id, failure: Option<Failure>, more: seq<Event>)
    requires JudgedOn(id, failure, more)
    ensures JudgedOn(id, failure, [Reported(HealthChecking, Some(id))] + more)
    ensures Before([Reported(HealthChecking, Some(id))] + more, {Reported(HealthChecking, Some(id))}, Judgements(id))
  {
    var first := [Reported(HealthChecking, Some(id))];
    var all := first + more;
    ActivesOne(first[0]);
    ActivesConcat(first, more);
    InConcat(first, more, Reported(Active, Some(id)));
    InConcat(first, more, Stopped(id));
    BeforeAll(first, more, {first[0]}, Judgements(id));
    assert forall k :: 0 <= k < |all| ==> all[k] == if k == 0 then first[0] else more[k - 1];
  }

  /** A container is up: from the crash check to the verdict, before any old container is stopped. */
  method Judge(id: Id, opts: Opts, injected: bool, a: Answers) returns (failure: Option<Failure>, trace: seq<Event>)
    ensures JudgedOn(id, failure, trace)
    ensures failure.None? <==> ComesUp(opts, injected, a)
    ensures failure.Some? ==> (Removes(failure.value) <==> IsHopeless(opts, a))
    ensures opts.health.hasPath && failure.None? ==> Checked(true) in trace
    ensures forall k :: 0 <= k < |trace| && trace[k].Reported? ==> trace[k].about == Some(id) && !trace[k].status.Deploying?
    ensures Before(trace, {Reported(HealthChecking, Some(id))}, Judgements(id))
  {
    trace := [];
    if a.settleCancelled { return Some(Interrupted), trace; }
    if a.settled.Exited? { return Some(CrashedOnStart), [Stopped(id)]; }
    var first := Reported(HealthChecking, Some(id));
    var more;
    failure, more := FindAddress(id, a);
    if failure.None? {
      failure, more := CheckHealth(id, opts, injected, a);
    }
    ReportedThenJudged(id, failure, more);
    InConcat([first], more, Checked(true));
    trace := [first] + more;
  }

  /** The port probe decides which check makes the deploy active. */
  method CheckHealth(id: Id, opts: Opts, injected: bool, a: Answers) returns (failure: Option<Failure>, trace: seq<Event>)
    ensures JudgedOn(id, failure, trace)
    ensures failure.None? <==> PassesItsChecks(opts, injected, a)
    ensures failure.Some? ==> (Removes(failure.value) <==> FailsItsChecks(opts, a))
    ensures opts.health.hasPath && failure.None? ==> Checked(true) in trace
    ensures forall k :: 0 <= k < |trace| && trace[k].Reported? ==> trace[k] == Reported(Active, Some(id))
  {
    if opts.health.hasPath || (a.protocol.Http? && a.autoPath) {
      var failed;
      failure, failed, trace := RunHttpHealthChecks(id, opts.health, a.http);
      HttpTrace(id, failure, failed);
      return;
    }
    failure, trace := None, [Reported(Active, Some(id))];
    match a.protocol {
      case Http =>
      case Tcp =>
        if injected {
          var ok := WaitForDockerHealthy(a.dockerHealth, a.dockerHealthPolls);
          if !ok { failure, trace := Some(DatabaseUnhealthy), []; }
        }
      case Closed =>
        failure, trace := WaitForPort(id, opts, injected, a);
      case Other =>
    }
    ShortTrace(id, failure, trace);
  }

  lemma {:induction false} FailedChecksOnly(n: nat)
    ensures Actives(FailedChecks(n)) == 0
    ensures |FailedChecks(n)| == n && forall k :: 0 <= k < n ==> FailedChecks(n)[k] == Checked(false)
  {
    if n > 0 {
      FailedChecksOnly(n - 1);
      ActivesSnoc(FailedChecks(n - 1), Checked(false));
    }
  }

  lemma EndingReports(id: Id, failure: Option<Failure>)
    ensures Actives(Ending(id, failure)) == if failure.None? then 1 else 0
  {
    if failure.None? {
      ActivesSnoc([Checked(true)], Reported(Active, Some(id)));
      ActivesOne(Checked(true));
    } else if failure == Some(ChecksExhausted) {
      ActivesOne(Stopped(id));
    }
  }

  lemma InConcat(left: seq<Event>, right: seq<Event>, e: Event)
    ensures e in left + right <==> e in left || e in right
  {
  }

  /** Failed checks in front do not change a judgement. */
  lemma ChecksThenJudged(id: Id, failure: Option<Failure>, checks: seq<Event>, rest: seq<Event>)
    requires Actives(checks) == 0 && (forall k :: 0 <= k < |checks| ==> checks[k] == Checked(false))
    requires JudgedOn(id, failure, rest)
    requires forall k :: 0 <= k < |rest| && rest[k].Reported? ==> rest[k] == Reported(Active, Some(id))
    ensures JudgedOn(id, failure, checks + rest)
    ensures forall k :: 0 <= k < |checks + rest| && (checks + rest)[k].Reported? ==> (checks + rest)[k] == Reported(Active, Some(id))
  {
    var all := checks + rest;
    ActivesConcat(checks, rest);
    InConcat(checks, rest, Stopped(id));
    InConcat(checks, rest, Reported(Active, Some(id)));
    assert forall k :: 0 <= k < |all| ==> all[k] == if k < |checks| then checks[k] else rest[k - |checks|];
  }

  /** What the trace of the HTTP checks contains. */
  lemma HttpTrace(id: Id, failure: Option<Failure>, n: nat)
    requires failure in {None, Some(ChecksExhausted), Some(Interrupted)}
    ensures var trace := FailedChecks(n) + Ending(id, failure);
            && JudgedOn(id, failure, trace)
            && (failure.None? ==> Checked(true) in trace)
            && (forall k :: 0 <= k < |trace| && trace[k].Reported? ==> trace[k] == Reported(Active, Some(id)))
  {
    var rest := Ending(id, failure);
    EndingReports(id, failure);
    EndingHolds(id, failure);
    FailedChecksOnly(n);
    ChecksThenJudged(id, failure, FailedChecks(n), rest);
    InConcat(FailedChecks(n), rest, Checked(true));
  }

  /** A judgement without HTTP checks: the report, the removal, or nothing. */
  lemma ShortTrace(id: Id, failure: Option<Failure>, trace: seq<Event>)
    requires trace == if failure.None? then [Reported(Active, Some(id))] else if Removes(failure.value) then [Stopped(id)] else []
    requires failure.Some? ==> !(failure.value in {NoNetwork, NoImage, NoCompanions, NotStarted})
    ensures JudgedOn(id, failure, trace)
  {
    if trace != [] { ActivesOne(trace[0]); }
  }

  lemma EndingHolds(id: Id, failure: Option<Failure>)
    ensures Stopped(id) in Ending(id, failure) <==> failure == Some(ChecksExhausted)
    ensures Checked(true) in Ending(id, failure) <==> failure.None?
    ensures Reported(Active, Some(id)) in Ending(id, failure) <==> failure.None?
  {
    if failure.None? { assert Ending(id, failure)[1] == Reported(Active, Some(id)); }
    if failure.None? { assert Ending(id, failure)[0] == Checked(true); }
    if failure == Some(ChecksExhausted) { assert Ending(id, failure)[0] == Stopped(id); }
  }

  // ---------- Deploy ----------

  /** Nothing in the trace touches a container, checks one or reports on one. */
  predicate Quiet(trace: seq<Event>) {
    forall k :: 0 <= k < |trace| ==> trace[k].Reported? && trace[k].status.Deploying?
  }

  lemma {:induction false} QuietReportsNothing(trace: seq<Event>)
    requires Quiet(trace)
    ensures Actives(trace) == 0
  {
    if trace != [] { QuietReportsNothing(trace[..|trace| - 1]); }
  }

  ghost predicate Launches(opts: Opts, a: Answers) {
    && (opts.companions > 0 ==> CompanionsCome(a.companionsReady, a.companionsCancelled, a.companionPolls))
    && (a.run.Ran? || (a.run.NameInUse? && a.adoptable.Some?))
  }

  /** Docker runs the known database images under a health check of the agent's when they have none. */
  predicate Injected(opts: Opts, a: Answers) {
    opts.databaseImage && (a.meta.None? || !a.meta.value.hasHealthcheck)
  }

  predicate AlreadyRunning(a: Answers) {
    a.named.Some? && a.namedInspection.Alive?
  }

  /** Exactly the answers on which a deploy succeeds. */
  ghost predicate Succeeds(opts: Opts, a: Answers) {
    && a.networkOk
    && (opts.pulls ==> a.pullOk)
    && (AlreadyRunning(a) || (Launches(opts, a) && ComesUp(opts, Injected(opts, a), a)))
  }

  /** The wait for the companions, if there are any, and what it reports. */
  method AwaitCompanions(opts: Opts, a: Answers) returns (ok: bool, trace: seq<Event>)
    ensures Quiet(trace)
    ensures trace == if opts.companions == 0 then [] else if ok then [Reported(Deploying, None), Reported(Deploying, None)] else [Reported(Deploying, None)]
    ensures ok <==> (opts.companions > 0 ==> CompanionsCome(a.companionsReady, a.companionsCancelled, a.companionPolls))
  {
    if opts.companions == 0 { return true, []; }
    ok := WaitForCompanions(a.companionsReady, a.companionsCancelled, a.companionPolls);
    trace := if ok then [Reported(Deploying, None), Reported(Deploying, None)] else [Reported(Deploying, None)];
  }

  /** The part of Deploy that produces a container: companions, run or adopt. */
  method Launch(opts: Opts, a: Answers) returns (failure: Option<Failure>, id: Id, trace: seq<Event>)
    ensures failure.Some? ==> failure.value in {NoImage, NoCompanions, NotStarted} && Quiet(trace)
    ensures failure.None? ==>
              && trace != [] && Quiet(trace[..|trace| - 1])
              && trace[|trace| - 1] == (if a.run.Ran? then Started(id) else Adopted(id))
    ensures failure.None? ==> (a.run == Ran(id) || (a.run.NameInUse? && a.adoptable == Some(id)))
    ensures failure.None? <==> Launches(opts, a)
    ensures failure == Some(NoCompanions) <==>
              opts.companions > 0 && !CompanionsCome(a.companionsReady, a.companionsCancelled, a.companionPolls)
    ensures failure != Some(NoImage)
  {
    id := 0;
    var ok;
    ok, trace := AwaitCompanions(opts, a);
    if !ok { return Some(NoCompanions), id, trace; }
    var launched;
    match a.run {
      case Ran(new') => id, launched := new', Started(new');
      case NameInUse =>
        if a.adoptable.None? { return Some(NotStarted), id, trace; }
        id, launched := a.adoptable.value, Adopted(a.adoptable.value);
      case RunFailed => return Some(NotStarted), id, trace;
    }
    ghost var before := trace;
    trace := trace + [launched];
    assert trace[..|trace| - 1] == before;
    return None, id, trace;
  }

  lemma LaunchReportsNothing(launch: seq<Event>)
    requires launch != [] && Quiet(launch[..|launch| - 1])
    requires launch[|launch| - 1].Started? || launch[|launch| - 1].Adopted?
    ensures Actives(launch) == 0
    ensures forall k :: 0 <= k < |launch| ==> !launch[k].Stopped? && !launch[k].Checked?
    ensures forall k :: 0 <= k < |launch| && launch[k].Reported? ==> launch[k].status.Deploying?
    ensures forall k :: 0 <= k < |launch| - 1 ==> launch[k].Reported?
  {
    QuietReportsNothing(launch[..|launch| - 1]);
    forall k | 0 <= k < |launch| - 1 ensures launch[k].Reported? && launch[k].status.Deploying? {
      assert launch[..|launch| - 1][k] == launch[k];
    }
  }

  /** What a trace may stop, and what stopping the old container takes, in every ending. */
  ghost predicate Orderly(failure: Option<Failure>, container: Option<Id>, former: Option<Id>, trace: seq<Event>) {
    && Actives(trace) == (if failure.None? then 1 else 0)
    && (failure.None? ==> container.Some? && Reported(Active, container) in trace)
    && (forall k :: 0 <= k < |trace| && trace[k].Stopped? ==> Some(trace[k].id) in {former, container})
    && (former.Some? && container != former ==>
          && Before(trace, {Checked(true)}, {Stopped(former.value)})
          && Before(trace, {Reported(Active, container)}, {Stopped(former.value)})
          && (failure.Some? ==> Stopped(former.value) !in trace))
    && (failure.Some? && container.Some? && container != former ==>
          (Stopped(container.value) in trace <==> Removes(failure.value)))
    && (failure.None? && container != former ==> Stopped(container.value) !in trace)
  }

  /** What happens to the new container, in order: it is started or adopted, as Docker answered, then
      reported as being checked, and only then checked and reported active. */
  ghost predicate InOrder(a: Answers, container: Option<Id>, trace: seq<Event>) {
    && (forall k :: 0 <= k < |trace| && trace[k].Started? ==> a.run == Ran(trace[k].id) && container == Some(trace[k].id))
    && (forall k :: 0 <= k < |trace| && trace[k].Adopted? ==>
          a.run.NameInUse? && a.adoptable == Some(trace[k].id) && container == Some(trace[k].id))
    && (forall k :: 0 <= k < |trace| && trace[k].Reported? && !trace[k].status.Deploying? ==>
          container.Some? && trace[k].about == container)
    && (forall k :: 0 <= k < |trace| && trace[k].Checked? ==> container.Some?)
    && (container.Some? ==>
          && (Started(container.value) in trace || Adopted(container.value) in trace)
          && Before(trace, LaunchOf(container.value), {Reported(HealthChecking, container)})
          && Before(trace, {Reported(HealthChecking, container)}, Judgements(container.value)))
  }

  lemma QuietInOrder(a: Answers, trace: seq<Event>)
    requires Quiet(trace)
    ensures InOrder(a, None, trace)
  {
  }

  lemma LaunchedInOrder(a: Answers, id: Id, launch: seq<Event>, verdict: seq<Event>)
    requires launch != [] && Quiet(launch[..|launch| - 1])
    requires launch[|launch| - 1] == (if a.run.Ran? then Started(id) else Adopted(id))
    requires a.run == Ran(id) || (a.run.NameInUse? && a.adoptable == Some(id))
    requires forall k :: 0 <= k < |verdict| ==> !verdict[k].Started? && !verdict[k].Adopted?
    requires forall k :: 0 <= k < |verdict| && verdict[k].Reported? ==>
               verdict[k].about == Some(id) && !verdict[k].status.Deploying?
    requires Before(verdict, {Reported(HealthChecking, Some(id))}, Judgements(id))
    ensures InOrder(a, Some(id), launch + verdict)
  {
    LaunchReportsNothing(launch);
    var all := launch + verdict;
    BeforeAll(launch, verdict, LaunchOf(id), {Reported(HealthChecking, Some(id))});
    BeforeStays(launch, verdict, {Reported(HealthChecking, Some(id))}, Judgements(id));
    assert all[|launch| - 1] == launch[|launch| - 1];
    forall k | 0 <= k < |all|
      ensures k != |launch| - 1 ==> !all[k].Started? && !all[k].Adopted?
      ensures all[k].Reported? && !all[k].status.Deploying? ==> all[k].about == Some(id)
    {
      assert all[k] == if k < |launch| then launch[k] else verdict[k - |launch|];
    }
  }

  /** Events that are neither launches nor reports on a container nor checks may come first. */
  lemma OpenedInOrder(a: Answers, container: Option<Id>, opening: seq<Event>, rest: seq<Event>)
    requires InOrder(a, container, rest)
    requires forall k :: 0 <= k < |opening| ==> opening[k].Stopped? || (opening[k].Reported? && opening[k].status.Deploying?)
    ensures InOrder(a, container, opening + rest)
  {
    var all := opening + rest;
    assert forall k :: 0 <= k < |all| ==> all[k] == if k < |opening| then opening[k] else rest[k - |opening|];
    if container.Some? {
      BeforeStays(opening, rest, LaunchOf(container.value), {Reported(HealthChecking, container)});
      BeforeStays(opening, rest, {Reported(HealthChecking, container)}, Judgements(container.value));
      InConcat(opening, rest, Started(container.value));
      InConcat(opening, rest, Adopted(container.value));
    }
  }

  /** Such an event may also come last. */
  lemma ClosedInOrder(a: Answers, container: Option<Id>, trace: seq<Event>, e: Event)
    requires InOrder(a, container, trace) && (e.Stopped? || (e.Reported? && e.status.Deploying?))
    ensures InOrder(a, container, trace + [e])
  {
    var all := trace + [e];
    assert forall k :: 0 <= k < |all| ==> all[k] == if k < |trace| then trace[k] else e;
    if container.Some? {
      BeforeSnoc(trace, e, LaunchOf(container.value), {Reported(HealthChecking, container)});
      BeforeSnoc(trace, e, {Reported(HealthChecking, container)}, Judgements(container.value));
      InConcat(trace, [e], Started(container.value));
      InConcat(trace, [e], Adopted(container.value));
    }
  }

  /** Launch, judge and, if the new container took over, stop the old one (`former`: only in blue-green mode). */
  method Replace(opts: Opts, a: Answers, former: Option<Id>) returns (failure: Option<Failure>, container: Option<Id>, trace: seq<Event>)
    requires former.Some? ==> opts.health.hasPath
    ensures failure.None? <==> Launches(opts, a) && ComesUp(opts, Injected(opts, a), a)
    ensures Orderly(failure, container, former, trace) && InOrder(a, container, trace)
    ensures failure.Some? && container.Some? ==> (Removes(failure.value) <==> IsHopeless(opts, a))
    ensures failure != Some(NoImage)
    ensures failure.Some? ==> (container.None? <==> failure.value in {NoImage, NoCompanions, NotStarted})
    ensures failure.Some? ==> failure.value != NoNetwork
    ensures failure.None? && former.Some? && container != former ==> Stopped(former.value) in trace
  {
    var injected := opts.databaseImage && (a.meta.None? || !a.meta.value.hasHealthcheck);
    var id, launch, verdict;
    failure, id, launch := Launch(opts, a);
    if failure.Some? {
      QuietReportsNothing(launch);
      QuietInOrder(a, launch);
      return failure, None, launch;
    }
    LaunchReportsNothing(launch);
    container := Some(id);
    failure, verdict := Judge(id, opts, injected, a);
    trace := launch + verdict;
    LaunchedInOrder(a, id, launch, verdict);
    JudgedOrderly(failure, id, launch, verdict);
    if failure.None? && former.Some? && former != Some(id) {
      if opts.health.hasPath { InConcat(launch, verdict, Checked(true)); }
      trace := RetireFormer(a, container, former.value, trace);
    } else if former.Some? {
      assert former != container ==> Stopped(former.value) !in trace;
    }
  }

  lemma JudgedOrderly(failure: Option<Failure>, id: Id, launch: seq<Event>, verdict: seq<Event>)
    requires Actives(launch) == 0 && (forall k :: 0 <= k < |launch| ==> !launch[k].Stopped?)
    requires Actives(verdict) == if failure.None? then 1 else 0
    requires failure.None? ==> Reported(Active, Some(id)) in verdict && Stopped(id) !in verdict
    requires forall k :: 0 <= k < |verdict| && verdict[k].Stopped? ==> verdict[k] == Stopped(id)
    requires failure.Some? ==> (Stopped(id) in verdict <==> Removes(failure.value))
    ensures Orderly(failure, Some(id), None, launch + verdict)
    ensures forall other :: other != id ==> Stopped(other) !in launch + verdict
  {
    ActivesConcat(launch, verdict);
    InConcat(launch, verdict, Stopped(id));
    InConcat(launch, verdict, Reported(Active, Some(id)));
    forall other ensures Stopped(other) in launch + verdict <==> Stopped(other) in verdict {
      InConcat(launch, verdict, Stopped(other));
    }
    var all := launch + verdict;
    assert forall k :: 0 <= k < |all| ==> all[k] == if k < |launch| then launch[k] else verdict[k - |launch|];
  }

  /** Stopping the old container after an orderly success. */
  lemma RetiredOrderly(container: Option<Id>, former: Id, before: seq<Event>)
    requires Orderly(None, container, None, before) && container != Some(former)
    requires Checked(true) in before && Stopped(former) !in before
    ensures Orderly(None, container, Some(former), before + [Stopped(former)])
  {
    var trace := before + [Stopped(former)];
    ActivesSnoc(before, Stopped(former));
    BeforeSnoc(before, Stopped(former), {Checked(true)}, {Stopped(former)});
    BeforeSnoc(before, Stopped(former), {Reported(Active, container)}, {Stopped(former)});
    InConcat(before, [Stopped(former)], Reported(Active, container));
    InConcat(before, [Stopped(former)], Stopped(container.value));
    assert forall k :: 0 <= k < |trace| ==> trace[k] == if k < |before| then before[k] else Stopped(former);
  }

  lemma ReportedOrderly(container: Option<Id>, former: Option<Id>, before: seq<Event>)
    requires Orderly(None, container, former, before)
    ensures Orderly(None, container, former, before + [Reported(Deploying, None)])
  {
    var e := Reported(Deploying, None);
    var trace := before + [e];
    ActivesSnoc(before, e);
    InConcat(before, [e], Reported(Active, container));
    InConcat(before, [e], Stopped(container.value));
    if former.Some? && container != former {
      BeforeSnoc(before, e, {Checked(true)}, {Stopped(former.value)});
      BeforeSnoc(before, e, {Reported(Active, container)}, {Stopped(former.value)});
    }
    assert forall k :: 0 <= k < |trace| ==> trace[k] == if k < |before| then before[k] else e;
  }

  /** Blue-green success: the old container goes last. */
  method RetireFormer(ghost a: Answers, container: Option<Id>, former: Id, before: seq<Event>) returns (trace: seq<Event>)
    requires Orderly(None, container, None, before) && container != Some(former) && Checked(true) in before
    requires InOrder(a, container, before) && Stopped(former) !in before
    ensures Orderly(None, container, Some(former), trace) && InOrder(a, container, trace)
    ensures Stopped(former) in trace
  {
    trace := before + [Stopped(former)];
    RetiredOrderly(container, former, before);
    ClosedInOrder(a, container, before, Stopped(former));
    ReportedOrderly(container, Some(former), trace);
    ClosedInOrder(a, container, trace, Reported(Deploying, None));
    assert trace[|before|] == Stopped(former);
    InConcat(trace, [Reported(Deploying, None)], Stopped(former));
    trace := trace + [Reported(Deploying, None)];
  }

  /** The old container is replaced in two ways only: before anything is started, or, if there is an
      explicit health path and no volume, after the new one passed an HTTP check and was reported active. */
  ghost predicate ReplacesInOrder(opts: Opts, a: Answers, failure: Option<Failure>, container: Option<Id>, trace: seq<Event>) {
    && (if a.networkOk && (opts.pulls ==> a.pullOk) && AlreadyRunning(a)
        then container == a.named && (forall k :: 0 <= k < |trace| ==> trace[k].Stopped? || trace[k].Reported?)
        else InOrder(a, container, trace))
    && (if opts.health.hasPath && opts.volumes == 0 && a.former.Some? then
          && Orderly(failure, container, a.former, trace)
          && (failure.None? && container != a.former ==> Stopped(a.former.value) in trace || container == a.named)
        else if a.networkOk && a.former.Some? then
          && |trace| >= 2 && trace[..2] == [Reported(Deploying, None), Stopped(a.former.value)]
          && Orderly(failure, container, None, trace[2..])
        else Orderly(failure, container, None, trace))
  }

  /** What comes before the pull and what comes after make up such a trace. */
  lemma TraceReplacesInOrder(opts: Opts, a: Answers, useBlueGreen: bool, opening: seq<Event>, rest: seq<Event>,
                             failure: Option<Failure>, container: Option<Id>)
    requires a.networkOk && (useBlueGreen <==> opts.health.hasPath && opts.volumes == 0 && a.former.Some?)
    requires forall k :: 0 <= k < |opening| ==> opening[k].Stopped? || (opening[k].Reported? && opening[k].status.Deploying?)
    requires if a.former.Some? && !useBlueGreen then opening == [Reported(Deploying, None), Stopped(a.former.value)] else Quiet(opening)
    requires Orderly(failure, container, if useBlueGreen then a.former else None, rest)
    requires if (opts.pulls ==> a.pullOk) && AlreadyRunning(a) then container == a.named && rest == [Reported(Active, a.named)]
             else InOrder(a, container, rest)
    requires failure.None? && useBlueGreen && container != a.former ==> Stopped(a.former.value) in rest || container == a.named
    requires Actives(opening) == 0
    ensures ReplacesInOrder(opts, a, failure, container, opening + rest)
    ensures Actives(opening + rest) == if failure.None? then 1 else 0
    ensures failure.None? ==> Reported(Active, container) in opening + rest
  {
    ActivesConcat(opening, rest);
    OrderlyAfter(opening, rest, failure, container, if useBlueGreen then a.former else None);
    if (opts.pulls ==> a.pullOk) && AlreadyRunning(a) {
      OpenedAlive(opening, rest);
    } else {
      OpenedInOrder(a, container, opening, rest);
    }
    if a.former.Some? { InConcat(opening, rest, Stopped(a.former.value)); }
    assert (opening + rest)[|opening|..] == rest && (opening + rest)[..|opening|] == opening;
  }

  lemma NothingReplaced(opts: Opts, a: Answers, opening: seq<Event>)
    requires !a.networkOk && Quiet(opening) && InOrder(a, None, opening)
    ensures ReplacesInOrder(opts, a, Some(NoNetwork), None, opening)
  {
    QuietReportsNothing(opening);
    assert Orderly(Some(NoNetwork), None, None, opening);
    assert Orderly(Some(NoNetwork), None, a.former, opening);
  }

  method Deploy(opts: Opts, a: Answers) returns (failure: Option<Failure>, container: Option<Id>, trace: seq<Event>)
    ensures failure.None? <==> Succeeds(opts, a)
    ensures Actives(trace) == if failure.None? then 1 else 0
    ensures failure.None? ==> container.Some? && Reported(Active, container) in trace
    ensures failure.Some? ==> (container.None? <==> failure.value in {NoNetwork, NoImage, NoCompanions, NotStarted})
    ensures failure.Some? && container.Some? ==> (Removes(failure.value) <==> IsHopeless(opts, a))
    ensures (failure == Some(NoNetwork) <==> !a.networkOk) && (failure == Some(NoImage) <==> a.networkOk && opts.pulls && !a.pullOk)
    ensures ReplacesInOrder(opts, a, failure, container, trace)
  {
    var useBlueGreen := ShouldBlueGreen(opts) && a.former.Some?;
    container := None;
    var opening := Open(a, useBlueGreen);
    if !a.networkOk {
      NothingReplaced(opts, a, opening);
      return Some(NoNetwork), container, opening;
    }
    failure, container, trace := PullAndReplace(opts, a, if useBlueGreen then a.former else None);
    TraceReplacesInOrder(opts, a, useBlueGreen, opening, trace, failure, container);
    trace := opening + trace;
  }

  /** What comes before the pull: the first report and, unless it stays up, the end of the old container. */
  method Open(a: Answers, useBlueGreen: bool) returns (opening: seq<Event>)
    ensures Actives(opening) == 0 && InOrder(a, None, opening)
    ensures forall k :: 0 <= k < |opening| ==> opening[k].Stopped? || (opening[k].Reported? && opening[k].status.Deploying?)
    ensures if a.networkOk && a.former.Some? && !useBlueGreen
            then opening == [Reported(Deploying, None), Stopped(a.former.value)] else Quiet(opening)
  {
    opening := [Reported(Deploying, None)];
    ActivesOne(Reported(Deploying, None));
    if a.networkOk && a.former.Some? {
      var next := if useBlueGreen then Reported(Deploying, None) else Stopped(a.former.value);
      ActivesSnoc(opening, next);
      opening := opening + [next];
    }
  }

  lemma OpenedAlive(opening: seq<Event>, rest: seq<Event>)
    requires forall k :: 0 <= k < |opening| ==> opening[k].Stopped? || opening[k].Reported?
    requires |rest| == 1 && rest[0].Reported?
    ensures forall k :: 0 <= k < |opening + rest| ==> (opening + rest)[k].Stopped? || (opening + rest)[k].Reported?
  {
  }

  lemma OrderlyAfter(opening: seq<Event>, rest: seq<Event>, failure: Option<Failure>, container: Option<Id>, former: Option<Id>)
    requires Orderly(failure, container, former, rest)
    ensures Quiet(opening) ==> Orderly(failure, container, former, opening + rest)
    ensures Reported(Active, container) in rest ==> Reported(Active, container) in opening + rest
  {
    InConcat(opening, rest, Reported(Active, container));
    if Quiet(opening) {
      QuietReportsNothing(opening);
      ActivesConcat(opening, rest);
      forall id ensures Stopped(id) in opening + rest <==> Stopped(id) in rest { InConcat(opening, rest, Stopped(id)); }
      var all := opening + rest;
      assert forall k :: 0 <= k < |all| ==> all[k] == if k < |opening| then opening[k] else rest[k - |opening|];
      if former.Some? && container != former {
        BeforeStays(opening, rest, {Checked(true)}, {Stopped(former.value)});
        BeforeStays(opening, rest, {Reported(Active, container)}, {Stopped(former.value)});
      }
    }
  }

  /** The middle of Deploy: the pull, the fast path for a deploy already running, and the replacement. */
  method PullAndReplace(opts: Opts, a: Answers, former: Option<Id>)
    returns (failure: Option<Failure>, container: Option<Id>, trace: seq<Event>)
    requires former.Some? ==> opts.health.hasPath
    ensures failure.None? <==>
              (opts.pulls ==> a.pullOk) && (AlreadyRunning(a) || (Launches(opts, a) && ComesUp(opts, Injected(opts, a), a)))
    ensures Orderly(failure, container, former, trace)
    ensures failure.Some? && container.Some? ==> (Removes(failure.value) <==> IsHopeless(opts, a))
    ensures failure == Some(NoImage) <==> opts.pulls && !a.pullOk
    ensures if (opts.pulls ==> a.pullOk) && AlreadyRunning(a) then container == a.named && trace == [Reported(Active, a.named)]
            else InOrder(a, container, trace)
    ensures failure.Some? ==> (container.None? <==> failure.value in {NoImage, NoCompanions, NotStarted})
    ensures failure.Some? ==> failure.value != NoNetwork
    ensures failure.None? && former.Some? && container != former ==> Stopped(former.value) in trace || container == a.named
  {
    trace := [];
    if opts.pulls && !a.pullOk { return Some(NoImage), None, trace; }
    if a.named.Some? && a.namedInspection.Alive? {
      trace := [Reported(Active, a.named)];
      ActivesSnoc([], Reported(Active, a.named));
      assert [] + trace == trace;
      return None, a.named, trace;
    }
    failure, container, trace := Replace(opts, a, former);
  }
}
