/**
 Credential renewal: internal/agent/credentials.go and the save discipline of
 internal/agent/config.go and HandleTunnelConfig.

 Every function here is one call made under the credential and config locks, so a run of
 the agent is a sequence of such calls (module Runs).  A call takes the fate of each write
 it may perform; a write that Dies ends the call with the disk as it then is.
 */
module Credentials {
  import opened Wrappers
  import opened Durable
  import opened CertStore
  import opened Strings

  const RESPONSE_RETRY_SECONDS := 300
  const MINUTE_SECONDS := 60
  const BACKOFF_CAP_SECONDS := 86400
  const RENEWAL_WINDOW_SECONDS := 2592000

  datatype Claims = Claims(subject: string, expires: int, generation: int)

  /** A control token and the claims it parses to, if it parses. */
  datatype Token = Token(text: string, claims: Option<Claims>)

  const NO_TOKEN := Token("", None)

  /** An address and the host name found in it by SplitHostPort or url.Parse. */
  datatype Endpoint = Endpoint(text: string, host: string)

  datatype Status = Unset | Pending | Broken | Healthy

  datatype Config = Config(
    serverId: string, grpcEndpoint: Endpoint, certDir: string, authMode: string,
    authToken: Token, renewalToken: string, renewalEndpoint: string,
    credentialExpires: int, authGeneration: int,
    renewalStatus: Status, renewalAttempts: int, renewalLastError: string,
    renewalLastSuccess: int, renewalNextRetry: int,
    pendingId: string, pendingAuthToken: Token, pendingRenewalToken: string,
    pendingExpires: int, pendingGeneration: int, pendingPrevious: string, pendingHadPointer: bool,
    tunnelToken: string, tunnelId: string,
    registryUrl: string, registryUsername: string, registryPassword: string,
    maxConcurrentBuilds: int)

  /** A credential rotation response; an empty certificate or CA is None. */
  datatype Rotation = Rotation(requestId: string, cert: Option<Cert>, ca: Option<nat>,
                               authToken: Token, renewalToken: string, expires: int, generation: int)

  /** What survives a crash, and the configuration held by the running process. */
  datatype Disk = Disk(config: Config, certs: Certs)
  datatype Sys = Sys(disk: Disk, mem: Config)

  datatype After = After(sys: Sys, outcome: Outcome)

  datatype BeginFaults = BeginFaults(prepare: PrepareFaults, save: Fate)
  datatype ApplyFaults = ApplyFaults(
    stageCert: Fate, stageCa: Fate,
    savePending: Fate, discardStaged: Removal,
    activate: Fate, undoPending: Fate, discardInactive: Removal,
    commit: Fate, undoPointer: Fate, undoConfig: Fate, discardUncommitted: Removal)
  datatype ResumeFaults = ResumeFaults(activate: Fate, commit: Fate, undoPointer: Fate, undoConfig: Fate)
  datatype RecordFaults = RecordFaults(save: Fate, discard: Removal)

  // ---------- pure computations ----------

  function Pow2(n: nat): nat {
    if n == 0 then 1 else 2 * Pow2(n - 1)
  }

  function RenewalBackoff(attempt: int): int {
    var low := if attempt < 1 then 1 else attempt;
    var clamped := if low > 12 then 12 else low;
    var delay := MINUTE_SECONDS * Pow2(clamped - 1);
    if delay > BACKOFF_CAP_SECONDS then BACKOFF_CAP_SECONDS else delay
  }

  function NormalizedMode(mode: string): string {
    if mode == "token" then "token" else "mtls"
  }

  function DefaultRenewalEndpoint(e: Endpoint): string {
    "https://" + TrimPrefix(e.host, "grpc.") + "/api/agent/renew"
  }

  /** The endpoint recoverCredentials would call. */
  function EffectiveEndpoint(c: Config): string {
    if c.renewalEndpoint == "" then DefaultRenewalEndpoint(c.grpcEndpoint) else c.renewalEndpoint
  }

  /** Expiry of internal/credentials/status.go: the credential the configured mode presents expires when
      its own claims or certificate say, or, if they say nothing, when the configuration says. */
  function Expiry(c: Config, certs: Certs): Option<int> {
    var configured := if c.credentialExpires > 0 then Some(c.credentialExpires) else None;
    if c.authMode == "token" then
      match c.authToken.claims
      case Some(claims) => if claims.subject != "" && claims.expires != 0 then Some(claims.expires) else configured
      case None => configured
    else
      match Active(certs).cert
      case Some(cert) => Some(cert.notAfter)
      case None => configured
  }

  /** credentialRenewalDue: within thirty days of the expiry, or at once. */
  predicate RenewalDue(c: Config, expires: int, now: int) {
    c.pendingId != "" || c.renewalToken == "" || expires - now <= RENEWAL_WINDOW_SECONDS
  }

  predicate ValidJwt(token: Token, server: string, generation: int, expires: int, now: int) {
    && token.claims.Some?
    && token.claims.value.subject != ""
    && token.claims.value.expires != 0
    && token.claims.value.subject == "server:" + server
    && token.claims.value.generation == generation
    && token.claims.value.expires == expires
    && expires - now >= DAY_SECONDS
  }

  function ClearPending(c: Config): Config {
    c.(pendingId := "", pendingAuthToken := NO_TOKEN, pendingRenewalToken := "", pendingExpires := 0,
       pendingGeneration := 0, pendingPrevious := "", pendingHadPointer := false)
  }

  /** The test of resumePendingCredentialCutover: an activation was recorded and not finished. */
  predicate CompletePending(c: Config) {
    c.pendingId != "" && c.pendingRenewalToken != "" && c.pendingExpires != 0
  }

  /** copyCredentialFields: field by field, as the source lists them. */
  function CopyCredentialFields(dst: Config, src: Config): Config {
    dst.(authToken := src.authToken,
         renewalToken := src.renewalToken,
         renewalEndpoint := src.renewalEndpoint,
         credentialExpires := src.credentialExpires,
         authGeneration := src.authGeneration,
         renewalStatus := src.renewalStatus,
         renewalAttempts := src.renewalAttempts,
         renewalLastError := src.renewalLastError,
         renewalLastSuccess := src.renewalLastSuccess,
         renewalNextRetry := src.renewalNextRetry,
         pendingId := src.pendingId,
         pendingAuthToken := src.pendingAuthToken,
         pendingRenewalToken := src.pendingRenewalToken,
         pendingExpires := src.pendingExpires,
         pendingGeneration := src.pendingGeneration,
         pendingPrevious := src.pendingPrevious,
         pendingHadPointer := src.pendingHadPointer)
  }

  // ---------- saving ----------

  /** saveCredentialConfig: the whole configuration goes to disk, then its credential fields to memory. */
  function Save(s: Sys, cfg: Config, f: Fate): After {
    if f.Works? then After(Sys(s.disk.(config := cfg), CopyCredentialFields(s.mem, cfg)), Done)
    else After(s, OutcomeOf(f))
  }

  function WithCerts(s: Sys, c: Certs): Sys {
    s.(disk := s.disk.(certs := c))
  }

  /** A new process starts from what is on disk. */
  function Restart(s: Sys): Sys {
    s.(mem := s.disk.config)
  }

  // ---------- begin ----------

  function Begin(s: Sys, now: int, freshId: string, key: nat, f: BeginFaults): After {
    var id := if s.mem.pendingId == "" then freshId else s.mem.pendingId;
    var p := Prepare(s.disk.certs, id, s.mem.serverId, key, f.prepare);
    if !p.outcome.Done? then After(WithCerts(s, p.certs), p.outcome)
    else Save(WithCerts(s, p.certs), Requested(s.mem, id, now), f.save)
  }

  function Requested(c: Config, id: string, now: int): Config {
    c.(pendingId := id, renewalStatus := Pending, renewalAttempts := c.renewalAttempts + 1,
       renewalLastError := "", renewalNextRetry := now + RESPONSE_RETRY_SECONDS)
  }

  // ---------- apply ----------

  /** Every check applyCredentialRotation makes before its first write. */
  predicate Accepts(s: Sys, now: int, r: Rotation) {
    && r.requestId != "" && r.requestId == s.mem.pendingId
    && r.cert.Some? && r.ca.Some? && r.renewalToken != "" && r.expires != 0
    && (NormalizedMode(s.mem.authMode) == "token" ==>
          ValidJwt(r.authToken, s.mem.serverId, r.generation, r.expires, now))
    && Stageable(s.disk.certs, r.requestId, s.mem.serverId, r.cert.value, r.ca.value, now)
  }

  function WithPending(c: Config, r: Rotation, prev: Activation): Config {
    c.(pendingAuthToken := r.authToken, pendingRenewalToken := r.renewalToken,
       pendingExpires := r.expires, pendingGeneration := r.generation,
       pendingPrevious := prev.previous, pendingHadPointer := prev.hadPointer)
  }

  /** The pending values become the live ones. */
  function Promoted(c: Config, now: int): Config {
    ClearPending(
      c.(authToken := c.pendingAuthToken, renewalToken := c.pendingRenewalToken,
         credentialExpires := c.pendingExpires, authGeneration := c.pendingGeneration,
         renewalStatus := Healthy, renewalAttempts := 0, renewalLastError := "",
         renewalLastSuccess := now, renewalNextRetry := 0))
  }

  function WithEndpoint(c: Config): Config {
    c.(renewalEndpoint := EffectiveEndpoint(c))
  }

  function Apply(s: Sys, now: int, r: Rotation, f: ApplyFaults): After {
    if !Accepts(s, now, r) then After(s, Failed)
    else
      var staged := Stage(s.disk.certs, r.requestId, s.mem.serverId, r.cert.value, r.ca.value, now,
                          f.stageCert, f.stageCa);
      if !staged.outcome.Done? then After(WithCerts(s, staged.certs), staged.outcome)
      else RecordPending(WithCerts(s, staged.certs), now, r, f)
  }

  function RecordPending(s: Sys, now: int, r: Rotation, f: ApplyFaults): After {
    var pending := WithPending(s.mem, r, CurrentPointer(s.disk.certs));
    var saved := Save(s, pending, f.savePending);
    match saved.outcome
    case Crashed => saved
    case Failed => AndDiscard(saved.sys, r.requestId, f.discardStaged)
    case Done => SwitchPointer(saved.sys, s.mem, pending, now, r.requestId, f)
  }

  function SwitchPointer(s: Sys, before: Config, pending: Config, now: int, id: string, f: ApplyFaults): After {
    var active := Activate(s.disk.certs, id, f.activate);
    match active.outcome
    case Crashed => After(s, Crashed)
    case Failed =>
      var undone := Save(s, before, f.undoPending);
      if undone.outcome.Done? then AndDiscard(undone.sys, id, f.discardInactive) else undone
    case Done =>
      Commit(WithCerts(s, active.certs), before, pending, now, id, CurrentPointer(s.disk.certs), f)
  }

  function Commit(s: Sys, before: Config, pending: Config, now: int, id: string, a: Activation,
                  f: ApplyFaults): After {
    var saved := Save(s, WithEndpoint(Promoted(pending, now)), f.commit);
    if !saved.outcome.Failed? then saved
    else
      var back := Rollback(saved.sys.disk.certs, a, f.undoPointer);
      if back.outcome.Crashed? then After(WithCerts(saved.sys, back.certs), Crashed)
      else
        var undone := Save(WithCerts(saved.sys, back.certs), before, f.undoConfig);
        if undone.outcome.Done? then AndDiscard(undone.sys, id, f.discardUncommitted) else undone
  }

  /** A failing call discards the request's bundle and still returns its error. */
  function AndDiscard(s: Sys, id: string, rm: Removal): After {
    var gone := Discard(s.disk.certs, id, rm);
    After(WithCerts(s, gone.certs), if gone.outcome.Crashed? then Crashed else Failed)
  }

  // ---------- resume ----------

  function Resume(s: Sys, now: int, f: ResumeFaults): After {
    if !CompletePending(s.mem) then After(s, Done)
    else
      var active := Activate(s.disk.certs, s.mem.pendingId, f.activate);
      if !active.outcome.Done? then After(WithCerts(s, active.certs), active.outcome)
      else
        var saved := Save(WithCerts(s, active.certs), Promoted(s.mem, now), f.commit);
        if !saved.outcome.Failed? then saved
        else
          var back := Rollback(active.certs, Activation(s.mem.pendingPrevious, s.mem.pendingHadPointer), f.undoPointer);
          if back.outcome.Crashed? then After(WithCerts(s, back.certs), Crashed)
          else
            var undone := Save(WithCerts(s, back.certs), s.mem, f.undoConfig);
            After(undone.sys, if undone.outcome.Crashed? then Crashed else Failed)
  }

  // ---------- failure records, tunnel configuration ----------

  /** recordCredentialFailure, with the code that safeCode makes of what went wrong. */
  function Record(s: Sys, now: int, code: string, clear: bool, f: RecordFaults): After {
    var id := s.mem.pendingId;
    var saved := Save(s, FailureRecorded(s.mem, now, code, clear), f.save);
    if saved.outcome.Crashed? then saved
    else if !clear || id == "" then After(saved.sys, Done)
    else
      var gone := Discard(saved.sys.disk.certs, id, f.discard);
      After(WithCerts(saved.sys, gone.certs), if gone.outcome.Crashed? then Crashed else Done)
  }

  function FailureRecorded(c: Config, now: int, code: string, clear: bool): Config {
    var attempts := if c.renewalAttempts < 1 then 1 else c.renewalAttempts;
    var failed := c.(renewalStatus := Broken, renewalLastError := code, renewalAttempts := attempts,
                     renewalNextRetry := now + RenewalBackoff(attempts));
    if clear then ClearPending(failed) else failed
  }

  function TunnelUpdate(s: Sys, token: string, id: string, f: Fate): After {
    if !f.Works? then After(s, OutcomeOf(f))
    else
      After(Sys(s.disk.(config := s.mem.(tunnelToken := token, tunnelId := id)),
                s.mem.(tunnelToken := token, tunnelId := id)), Done)
  }
}
