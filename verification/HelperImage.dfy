/**
 The helper-image coordinator of internal/backup/executor.go: a one-token channel shared by
 all backups, so that however many run at once, one of them pulls the image.
 */
module HelperImage {
  import opened Wrappers
  import opened Sums

  /** Where one runAlpineHelper call stands; Checking, Pulling and Leaving hold the token. */
  datatype Caller =
    | Waiting
    | Checking
    | Pulling
    | Leaving(ok: bool)
    | Ensured
    | Refused
    | Started

  /** `present`: the image is on the host.  The counters are history. */
  datatype World = World(tokens: nat, callers: seq<Caller>, present: bool, pullsDone: nat)

  datatype Action =
    | Arrive
    | Cancel(id: nat)                 // the context ends while waiting for the token
    | Take(id: nat)
    | Check(id: nat, failed: bool)    // ImageExists answers truthfully, or fails
    | EndPull(id: nat, ok: bool)
    | Release(id: nat)                // the deferred send of the token
    | Start(id: nat)                  // RunContainer
    | Appear                          // someone else brings the image

  predicate IsAt(w: World, id: nat, c: Caller) {
    id < |w.callers| && w.callers[id] == c
  }

  predicate Enabled(w: World, a: Action) {
    match a
    case Arrive => true
    case Cancel(id) => IsAt(w, id, Waiting)
    case Take(id) => IsAt(w, id, Waiting) && w.tokens > 0
    case Check(id, _) => IsAt(w, id, Checking)
    case EndPull(id, _) => IsAt(w, id, Pulling)
    case Release(id) => id < |w.callers| && w.callers[id].Leaving?
    case Start(id) => IsAt(w, id, Ensured)
    case Appear => true
  }

  function At(w: World, id: nat, c: Caller): World
    requires id < |w.callers|
  {
    w.(callers := w.callers[id := c])
  }

  function Step(w: World, a: Action): World
    requires Enabled(w, a)
  {
    match a
    case Arrive => w.(callers := w.callers + [Waiting])
    case Cancel(id) => At(w, id, Refused)
    case Take(id) => At(w, id, Checking).(tokens := w.tokens - 1)
    case Check(id, failed) => At(w, id, if failed then Leaving(false) else if w.present then Leaving(true) else Pulling)
    case EndPull(id, ok) =>
      At(w, id, Leaving(ok)).(present := w.present || ok, pullsDone := w.pullsDone + if ok then 1 else 0)
    case Release(id) => At(w, id, if w.callers[id].ok then Ensured else Refused).(tokens := w.tokens + 1)
    case Start(id) => At(w, id, Started)
    case Appear => w.(present := true)
  }

  predicate Runs(w: World, actions: seq<Action>)
    decreases |actions|, 0
  {
    actions == [] ||
    (Runs(w, actions[..|actions| - 1]) && Enabled(After(w, actions[..|actions| - 1]), actions[|actions| - 1]))
  }

  function After(w: World, actions: seq<Action>): World
    requires Runs(w, actions)
    decreases |actions|, 1
  {
    if actions == [] then w else Step(After(w, actions[..|actions| - 1]), actions[|actions| - 1])
  }

  /** newHelperImageCoordinator: the channel starts with its one token. */
  predicate Initial(w: World) {
    w.tokens == 1 && w.callers == [] && w.pullsDone == 0
  }

  function Holding(c: Caller): nat {
    if c.Checking? || c.Pulling? || c.Leaving? then 1 else 0
  }

  predicate Inv(w: World) {
    && w.tokens + Total(w.callers, Holding) == 1
    && w.pullsDone <= 1
    && (w.pullsDone == 1 ==> w.present)
    && (forall i :: 0 <= i < |w.callers| ==> Fits(w, w.callers[i]))
  }

  /** The caller's own part of Inv. */
  predicate Fits(w: World, c: Caller) {
    && (c.Pulling? ==> w.pullsDone == 0)
    && (c == Leaving(true) || c.Ensured? || c.Started? ==> w.present)
  }

  lemma OneMoved(w: World, u: World, id: nat, c: Caller)
    requires Inv(w) && id < |w.callers| && u.callers == w.callers[id := c]
    requires u.present == w.present && u.pullsDone == w.pullsDone && Fits(w, c)
    requires u.tokens + Holding(c) == w.tokens + Holding(w.callers[id])
    ensures Inv(u)
  {
    TotalUpdate(w.callers, Holding, id, c);
  }

  lemma PullEnds(w: World, id: nat, ok: bool)
    requires Inv(w) && Enabled(w, EndPull(id, ok))
    ensures Inv(Step(w, EndPull(id, ok)))
  {
    TotalUpdate(w.callers, Holding, id, Leaving(ok));
    forall i | 0 <= i < |w.callers| && i != id ensures !w.callers[i].Pulling? {
      if i < id { TotalAtLeastBoth(w.callers, Holding, i, id); } else { TotalAtLeastBoth(w.callers, Holding, id, i); }
    }
  }

  lemma StepKeeps(w: World, a: Action)
    requires Inv(w) && Enabled(w, a)
    ensures Inv(Step(w, a))
  {
    match a
    case Arrive => TotalAppend(w.callers, Holding, Waiting);
    case Appear =>
    case EndPull(id, ok) => PullEnds(w, id, ok);
    case _ => OtherKeeps(w, a);
  }

  /** Actions of one caller that neither bring the image nor finish a pull. */
  lemma OtherKeeps(w: World, a: Action)
    requires Inv(w) && Enabled(w, a) && !a.Arrive? && !a.Appear? && !a.EndPull?
    ensures Inv(Step(w, a))
  {
    var u := Step(w, a);
    var c := u.callers[a.id];
    assert u.callers == w.callers[a.id := c];
    assert u.present == w.present && u.pullsDone == w.pullsDone;
    assert Fits(w, w.callers[a.id]);
    assert Fits(w, c);
    OneMoved(w, u, a.id, c);
  }

  /** In every interleaving: one token or one holder, at most one completed pull, and every backup
      whose ensure succeeded, started or not, finds the image present. */
  lemma {:induction false} OnePullForAllBackups(w: World, actions: seq<Action>)
    requires Initial(w) && Runs(w, actions)
    ensures Inv(After(w, actions))
  {
    if actions != [] {
      OnePullForAllBackups(w, actions[..|actions| - 1]);
      StepKeeps(After(w, actions[..|actions| - 1]), actions[|actions| - 1]);
    }
  }

  /** How many pulls of the run worked. */
  function PullsDone(actions: seq<Action>): nat {
    if actions == [] then 0
    else PullsDone(actions[..|actions| - 1]) + if actions[|actions| - 1].EndPull? && actions[|actions| - 1].ok then 1 else 0
  }

  /** However many backups run, at most one pull of the whole run works. */
  lemma {:induction false} AtMostOnePull(w: World, actions: seq<Action>)
    requires Initial(w) && Runs(w, actions)
    ensures PullsDone(actions) == After(w, actions).pullsDone <= 1
  {
    OnePullForAllBackups(w, actions);
    if actions != [] { AtMostOnePull(w, actions[..|actions| - 1]); }
  }

  /** Nobody waits for a token that is not held: if no caller holds it, any waiting one can take it, and
      a caller that holds it can always go on. */
  lemma TheTokenComesBack(w: World, actions: seq<Action>, id: nat)
    requires Initial(w) && Runs(w, actions) && id < |After(w, actions).callers|
    ensures var u := After(w, actions);
            && (u.callers[id].Waiting? && (forall i :: 0 <= i < |u.callers| ==> Holding(u.callers[i]) == 0) ==>
                  Enabled(u, Take(id)))
            && (u.callers[id].Checking? ==> forall failed :: Enabled(u, Check(id, failed)))
            && (u.callers[id].Pulling? ==> forall ok :: Enabled(u, EndPull(id, ok)))
            && (u.callers[id].Leaving? ==> Enabled(u, Release(id)))
  {
    OnePullForAllBackups(w, actions);
    var u := After(w, actions);
    if forall i :: 0 <= i < |u.callers| ==> Holding(u.callers[i]) == 0 { TotalZero(u.callers, Holding); }
  }

  /** At most one image check or pull is in progress. */
  lemma OneHolder(w: World, actions: seq<Action>, i: nat, j: nat)
    requires Initial(w) && Runs(w, actions)
    requires i < |After(w, actions).callers| && Holding(After(w, actions).callers[i]) == 1
    requires j < |After(w, actions).callers| && Holding(After(w, actions).callers[j]) == 1
    ensures i == j && After(w, actions).tokens == 0
  {
    OnePullForAllBackups(w, actions);
    var callers := After(w, actions).callers;
    TotalAtLeast(callers, Holding, i);
    if i < j { TotalAtLeastBoth(callers, Holding, i, j); }
    if j < i { TotalAtLeastBoth(callers, Holding, j, i); }
  }

  /** Action `k` gave caller `id` its image: its own check found it, or its own pull worked. */
  ghost predicate Provided(w: World, actions: seq<Action>, k: nat, id: nat)
    requires k < |actions|
  {
    && Runs(w, actions[..k])
    && (actions[k] == EndPull(id, true) || (actions[k] == Check(id, false) && After(w, actions[..k]).present))
  }

  /** Action `k` gave the token back for caller `id`, its ensure having succeeded. */
  ghost predicate Succeeded(w: World, actions: seq<Action>, k: nat, id: nat)
    requires k < |actions|
  {
    actions[k] == Release(id) && Runs(w, actions[..k]) && IsAt(After(w, actions[..k]), id, Leaving(true))
  }

  /** Caller `id` was provided for, and after that its own ensure succeeded. */
  ghost predicate EnsuredBefore(w: World, actions: seq<Action>, id: nat) {
    exists j: nat, k: nat :: j < k < |actions| && Provided(w, actions, j, id) && Succeeded(w, actions, k, id)
  }

  lemma {:induction false} LeavesOnlyProvided(w: World, actions: seq<Action>, id: nat)
    requires Initial(w) && Runs(w, actions) && IsAt(After(w, actions), id, Leaving(true))
    ensures exists j: nat :: j < |actions| && Provided(w, actions, j, id)
  {
    var last := |actions| - 1;
    var front := actions[..last];
    if IsAt(After(w, front), id, Leaving(true)) {
      LeavesOnlyProvided(w, front, id);
      var j: nat :| j < |front| && Provided(w, front, j, id);
      assert front[..j] == actions[..j];
      assert Provided(w, actions, j, id);
    } else {
      assert Provided(w, actions, last, id);
    }
  }

  predicate MayStart(w: World, id: nat) {
    IsAt(w, id, Ensured) || IsAt(w, id, Started)
  }

  /** Only giving the token back after a successful ensure lets a caller start. */
  lemma LetIn(w: World, a: Action, id: nat)
    requires Enabled(w, a) && MayStart(Step(w, a), id) && !MayStart(w, id)
    ensures a == Release(id) && IsAt(w, id, Leaving(true))
  {
  }

  lemma StaysEnsured(w: World, actions: seq<Action>, id: nat)
    requires actions != [] && EnsuredBefore(w, actions[..|actions| - 1], id)
    ensures EnsuredBefore(w, actions, id)
  {
    var front := actions[..|actions| - 1];
    var j: nat, k: nat :| j < k < |front| && Provided(w, front, j, id) && Succeeded(w, front, k, id);
    assert front[..j] == actions[..j] && front[..k] == actions[..k];
    assert Provided(w, actions, j, id) && Succeeded(w, actions, k, id);
  }

  /** No helper container starts before its own check found the image or its own pull worked, and its
      own ensure returned success. */
  lemma {:induction false} StartsOnlyAfterItsOwnEnsure(w: World, actions: seq<Action>, id: nat)
    requires Initial(w) && Runs(w, actions) && MayStart(After(w, actions), id)
    ensures EnsuredBefore(w, actions, id)
  {
    var last := |actions| - 1;
    var front := actions[..last];
    if MayStart(After(w, front), id) {
      StartsOnlyAfterItsOwnEnsure(w, front, id);
      StaysEnsured(w, actions, id);
    } else {
      LetIn(After(w, front), actions[last], id);
      assert Succeeded(w, actions, last, id);
      LeavesOnlyProvided(w, front, id);
      var j: nat :| j < last && Provided(w, front, j, id);
      assert front[..j] == actions[..j];
      assert Provided(w, actions, j, id);
    }
  }

  // ---------- one call, step by step ----------

  /** What one ensure meets: its context's state, ImageExists, PullImage. */
  datatype Meets = Meets(expired: bool, cancelledWaiting: bool, exists': Option<bool>, pullWorks: bool)

  /** The image is needed and can be pulled. */
  predicate Pulls(m: Meets) {
    !m.expired && !m.cancelledWaiting && m.exists' == Some(false) && m.pullWorks
  }

  /** The calls after which the image is on the host. */
  predicate Succeeds(m: Meets) {
    !m.expired && !m.cancelledWaiting && (m.exists' == Some(true) || (m.exists' == Some(false) && m.pullWorks))
  }

  class Coordinator {
    var lock: nat  // tokens in the channel

    constructor ()
      ensures lock == 1
    {
      lock := 1;
    }

    /** ensure: the token comes back on every path; success means present or pulled. */
    method Ensure(m: Meets) returns (ok: bool, pulled: bool)
      requires lock == 1
      modifies this
      ensures lock == 1
      ensures pulled <==> Pulls(m)
      ensures ok <==> Succeeds(m)
    {
      ok, pulled := false, false;
      if m.expired || m.cancelledWaiting { return; }
      lock := lock - 1;
      if m.exists'.Some? {
        if m.exists'.value {
          ok := true;
        } else {
          pulled := m.pullWorks;
          ok := pulled;
        }
      }
      lock := lock + 1;
    }

    /** runAlpineHelper: no container without a successful ensure. */
    method RunAlpineHelper(m: Meets, runWorks: bool) returns (started: bool)
      requires lock == 1
      modifies this
      ensures lock == 1
      ensures started <==> runWorks && Succeeds(m)
    {
      var ok, _ := Ensure(m);
      started := ok && runWorks;
    }
  }
}
