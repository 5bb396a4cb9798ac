/**
 Senders, drains, attaches and detaches interleaved: one action at a time, each as small as
 a critical section of the source (the router lock, a stream's send lock, the queue lock)
 or one call to a stream.
 */
module Relay {
  import opened Wrappers
  import opened LiveStreams
  import opened Sums

  /** Where one goroutine stands. */
  datatype Thread =
    | Idle
    | Picked(msg: Msg, stream: Option<nat>)              // has read the live stream, if any
    | Sending(msg: Msg, on: nat)                         // holds that stream's send lock
    | ToQueue(msg: Msg)                                  // its send failed
    | Draining(on: nat, rest: seq<Msg>)                  // has taken a batch off the queue
    | DrainSending(on: nat, msg: Msg, rest: seq<Msg>)    // holds the send lock
    | DrainToQueue(on: nat, msg: Msg, rest: seq<Msg>)

  datatype Event = Attached(stream: nat) | Detached(stream: nat)

  /** Streams are numbered in the order they attach.  The last five fields are the history. */
  datatype State = State(
    current: Option<nat>, attached: nat, holder: map<nat, nat>, threads: seq<Thread>, queue: seq<Msg>,
    events: seq<Event>, reported: multiset<Msg>, accepted: multiset<Msg>, poisoned: multiset<Msg>,
    dropped: multiset<Msg>)

  datatype Action =
    | Attach
    | Detach(stream: nat)
    | Report(tid: nat, msg: Msg)              // router.send: read the live stream
    | Direct(tid: nat, msg: Msg, stream: nat) // a heartbeat on its own connection's stream
    | NoStream(tid: nat)                      // errNoLiveStream
    | Lock(tid: nat)
    | Finish(tid: nat, result: SendResult)    // the stream answers; the lock is released
    | Enqueue(tid: nat)
    | Drain(tid: nat, stream: nat)            // take the whole queue
    | Drained(tid: nat)

  // ---------- steps ----------

  predicate Enabled(s: State, a: Action) {
    match a
    case Attach => true
    case Detach(stream) => stream < s.attached
    case Report(t, _) => t < |s.threads| && s.threads[t].Idle?
    case Direct(t, msg, stream) => t < |s.threads| && s.threads[t].Idle? && stream < s.attached && !msg.queueable
    case NoStream(t) => t < |s.threads| && s.threads[t].Picked? && s.threads[t].stream.None?
    case Lock(t) =>
      && t < |s.threads|
      && match s.threads[t] {
           case Picked(_, Some(stream)) => stream !in s.holder
           case Draining(on, rest) => rest != [] && on !in s.holder
           case _ => false
         }
    case Finish(t, _) => t < |s.threads| && (s.threads[t].Sending? || s.threads[t].DrainSending?)
    case Enqueue(t) => t < |s.threads| && (s.threads[t].ToQueue? || s.threads[t].DrainToQueue?)
    case Drain(t, stream) => t < |s.threads| && s.threads[t].Idle? && stream < s.attached
    case Drained(t) => t < |s.threads| && s.threads[t].Draining? && s.threads[t].rest == []
  }

  function Failing(msg: Msg): Thread {
    if msg.queueable then ToQueue(msg) else Idle
  }

  function At(s: State, t: nat, thread: Thread): State
    requires t < |s.threads|
  {
    s.(threads := s.threads[t := thread])
  }

  function Step(s: State, a: Action): State
    requires Enabled(s, a)
  {
    match a
    case Attach => s.(current := Some(s.attached), attached := s.attached + 1, events := s.events + [Attached(s.attached)])
    case Detach(stream) =>
      s.(current := Cleared(s.current, stream), events := s.events + [Detached(stream)])
    case Report(t, msg) =>
      At(s, t, Picked(msg, s.current)).(reported := if msg.queueable then s.reported + multiset{msg} else s.reported)
    case Direct(t, msg, stream) => At(s, t, Picked(msg, Some(stream)))
    case NoStream(t) => At(s, t, Failing(s.threads[t].msg))
    case Lock(t) => LockStep(s, t)
    case Finish(t, result) => FinishStep(s, t, result)
    case Enqueue(t) => EnqueueStep(s, t)
    case Drain(t, stream) => At(s, t, Draining(stream, s.queue)).(queue := [])
    case Drained(t) => At(s, t, Idle)
  }

  function LockStep(s: State, t: nat): State
    requires Enabled(s, Lock(t))
  {
    match s.threads[t]
    case Picked(msg, Some(stream)) => At(s, t, Sending(msg, stream)).(holder := s.holder[stream := t])
    case Draining(on, rest) => At(s, t, DrainSending(on, rest[0], rest[1..])).(holder := s.holder[on := t])
  }

  function FinishStep(s: State, t: nat, result: SendResult): State
    requires Enabled(s, Finish(t, result))
  {
    var u := s.(holder := s.holder - {s.threads[t].on});
    match s.threads[t]
    case Sending(msg, on) =>
      if result.Sent? then At(Accept(u, msg), t, Idle) else At(u, t, Failing(msg))
    case DrainSending(on, msg, rest) =>
      match result
      case Sent => At(Accept(u, msg), t, Draining(on, rest))
      case Poison => At(u, t, Draining(on, rest)).(poisoned := s.poisoned + multiset{msg})
      case Broken => At(u, t, DrainToQueue(on, msg, rest))
  }

  function EnqueueStep(s: State, t: nat): State
    requires Enabled(s, Enqueue(t))
  {
    var msg := s.threads[t].msg;
    var next := if s.threads[t].ToQueue? then Idle else Draining(s.threads[t].on, s.threads[t].rest);
    At(s, t, next).(queue := Queued(s.queue, msg),
                    dropped := if |s.queue| < QUEUE_CAP then s.dropped else s.dropped + multiset{msg})
  }

  function Accept(s: State, msg: Msg): State {
    s.(accepted := if msg.queueable then s.accepted + multiset{msg} else s.accepted)
  }

  predicate Initial(s: State) {
    && s.current.None? && s.attached == 0 && s.holder == map[] && s.queue == [] && s.events == []
    && (forall t :: 0 <= t < |s.threads| ==> s.threads[t].Idle?)
    && s.reported == s.accepted == s.poisoned == s.dropped == multiset{}
  }

  predicate Runs(s: State, actions: seq<Action>)
    decreases |actions|, 0
  {
    actions == [] ||
    (Runs(s, actions[..|actions| - 1]) && Enabled(After(s, actions[..|actions| - 1]), actions[|actions| - 1]))
  }

  function After(s: State, actions: seq<Action>): State
    requires Runs(s, actions)
    decreases |actions|, 1
  {
    if actions == [] then s else Step(After(s, actions[..|actions| - 1]), actions[|actions| - 1])
  }

  // ---------- conservation ----------

  function One(msg: Msg, m: Msg): nat {
    if msg == m && msg.queueable then 1 else 0
  }

  /** How many copies of the report `m` one goroutine is responsible for. */
  function Copies(t: Thread, m: Msg): nat {
    match t
    case Idle => 0
    case Picked(msg, _) => One(msg, m)
    case Sending(msg, _) => One(msg, m)
    case ToQueue(msg) => One(msg, m)
    case Draining(_, rest) => multiset(rest)[m]
    case DrainSending(_, msg, rest) => One(msg, m) + multiset(rest)[m]
    case DrainToQueue(_, msg, rest) => One(msg, m) + multiset(rest)[m]
  }

  /** How many reports one goroutine is responsible for. */
  function Load(t: Thread): nat {
    match t
    case Idle => 0
    case Picked(msg, _) => if msg.queueable then 1 else 0
    case Sending(msg, _) => if msg.queueable then 1 else 0
    case ToQueue(_) => 1
    case Draining(_, rest) => |rest|
    case DrainSending(_, _, rest) => 1 + |rest|
    case DrainToQueue(_, _, rest) => 1 + |rest|
  }

  function CopiesOf(m: Msg): Thread -> nat {
    t => Copies(t, m)
  }

  function InFlight(s: State, m: Msg): nat {
    Total(s.threads, CopiesOf(m))
  }

  predicate OnlyQueueable(msgs: seq<Msg>) {
    forall i :: 0 <= i < |msgs| ==> msgs[i].queueable
  }

  predicate ThreadQueueable(t: Thread) {
    match t
    case ToQueue(msg) => msg.queueable
    case Draining(_, rest) => OnlyQueueable(rest)
    case DrainSending(_, msg, rest) => msg.queueable && OnlyQueueable(rest)
    case DrainToQueue(_, msg, rest) => msg.queueable && OnlyQueueable(rest)
    case _ => true
  }

  /** The queue and the batches hold nothing but reports, and the queue keeps its bound. */
  predicate Tidy(s: State) {
    && |s.queue| <= 64
    && OnlyQueueable(s.queue)
    && (forall t :: 0 <= t < |s.threads| ==> ThreadQueueable(s.threads[t]))
  }

  /** Every copy of `m` handed in is queued, in flight, accepted by a stream, dropped as poison or dropped for room. */
  predicate Conserved(s: State, m: Msg) {
    s.reported[m] == multiset(s.queue)[m] + InFlight(s, m) + s.accepted[m] + s.poisoned[m] + s.dropped[m]
  }

  lemma TidyUpdate(s: State, u: State, t: nat, thread: Thread)
    requires Tidy(s) && t < |s.threads| && u.threads == s.threads[t := thread] && ThreadQueueable(thread)
    requires |u.queue| <= QUEUE_CAP && OnlyQueueable(u.queue)
    ensures Tidy(u)
  {
  }

  lemma StepTidies(s: State, a: Action)
    requires Tidy(s) && Enabled(s, a)
    ensures Tidy(Step(s, a))
  {
    var u := Step(s, a);
    match a
    case Attach =>
    case Detach(_) =>
    case Lock(t) => TidyUpdate(s, u, t, LockStep(s, t).threads[t]);
    case Finish(t, result) => TidyUpdate(s, u, t, FinishStep(s, t, result).threads[t]);
    case Enqueue(t) =>
      assert s.threads[t].msg.queueable;
      TidyUpdate(s, u, t, EnqueueStep(s, t).threads[t]);
    case _ => TidyUpdate(s, u, a.tid, u.threads[a.tid]);
  }

  lemma LockConserves(s: State, t: nat, m: Msg)
    requires Tidy(s) && Conserved(s, m) && Enabled(s, Lock(t))
    ensures Conserved(LockStep(s, t), m)
  {
    var u := LockStep(s, t);
    TotalUpdate(s.threads, CopiesOf(m), t, u.threads[t]);
    assert u.queue == s.queue && u.reported == s.reported && u.accepted == s.accepted;
    assert Copies(u.threads[t], m) == Copies(s.threads[t], m) by {
      if s.threads[t].Draining? {
        var rest := s.threads[t].rest;
        assert rest == [rest[0]] + rest[1..] && rest[0].queueable;
      }
    }
  }

  lemma FinishConserves(s: State, t: nat, result: SendResult, m: Msg)
    requires Tidy(s) && Conserved(s, m) && Enabled(s, Finish(t, result))
    ensures Conserved(FinishStep(s, t, result), m)
  {
    var u := FinishStep(s, t, result);
    TotalUpdate(s.threads, CopiesOf(m), t, u.threads[t]);
    FinishAccounts(s, t, result, m);
  }

  /** A finished send moves its report from the goroutine to where the answer puts it. */
  lemma FinishAccounts(s: State, t: nat, result: SendResult, m: Msg)
    requires Tidy(s) && Enabled(s, Finish(t, result))
    ensures var u := FinishStep(s, t, result);
            && u.threads == s.threads[t := u.threads[t]]
            && u.queue == s.queue && u.reported == s.reported && u.dropped == s.dropped
            && Copies(s.threads[t], m) == Copies(u.threads[t], m) + (u.accepted[m] - s.accepted[m]) + (u.poisoned[m] - s.poisoned[m])
  {
    match s.threads[t]
    case Sending(msg, on) =>
    case DrainSending(on, msg, rest) => assert msg.queueable;
  }

  lemma EnqueueConserves(s: State, t: nat, m: Msg)
    requires Tidy(s) && Conserved(s, m) && Enabled(s, Enqueue(t))
    ensures Conserved(EnqueueStep(s, t), m)
  {
    var u := EnqueueStep(s, t);
    TotalUpdate(s.threads, CopiesOf(m), t, u.threads[t]);
    assert Copies(s.threads[t], m) - Copies(u.threads[t], m) ==
           multiset(u.queue)[m] + u.dropped[m] - multiset(s.queue)[m] - s.dropped[m];
  }

  lemma StepConserves(s: State, a: Action, m: Msg)
    requires Tidy(s) && Conserved(s, m) && Enabled(s, a)
    ensures Conserved(Step(s, a), m)
  {
    match a
    case Lock(t) => LockConserves(s, t, m);
    case Finish(t, result) => FinishConserves(s, t, result, m);
    case Enqueue(t) => EnqueueConserves(s, t, m);
    case _ => OtherConserves(s, a, m);
  }

  lemma OtherConserves(s: State, a: Action, m: Msg)
    requires Tidy(s) && Conserved(s, m) && Enabled(s, a) && !a.Lock? && !a.Finish? && !a.Enqueue?
    ensures Conserved(Step(s, a), m)
  {
    if !a.Attach? && !a.Detach? {
      TotalUpdate(s.threads, CopiesOf(m), a.tid, Step(s, a).threads[a.tid]);
    }
  }

  /** At every moment every report handed in is in exactly one place, and the queue holds at most 64. */
  lemma {:induction false} ReportsAreConserved(s: State, actions: seq<Action>)
    requires Initial(s) && Runs(s, actions)
    ensures Tidy(After(s, actions))
    ensures forall m :: Conserved(After(s, actions), m)
  {
    if actions == [] {
      forall m ensures Conserved(s, m) { TotalZero(s.threads, CopiesOf(m)); }
    } else {
      var u := After(s, actions[..|actions| - 1]);
      ReportsAreConserved(s, actions[..|actions| - 1]);
      StepTidies(u, actions[|actions| - 1]);
      forall m ensures Conserved(After(s, actions), m) { StepConserves(u, actions[|actions| - 1], m); }
    }
  }

  /** Reports outstanding: queued, in a batch, being sent or being added. */
  function Outstanding(s: State): nat {
    |s.queue| + Total(s.threads, Load)
  }

  /** Along the whole run no more than 64 reports are outstanding. */
  predicate NeverOverloaded(s: State, actions: seq<Action>)
    requires Runs(s, actions)
  {
    && Outstanding(After(s, actions)) <= 64
    && (actions != [] ==> NeverOverloaded(s, actions[..|actions| - 1]))
  }

  /** Nothing is dropped for room unless more than 64 reports were outstanding at once. */
  lemma {:induction false} DropsNeedOverload(s: State, actions: seq<Action>)
    requires Initial(s) && Runs(s, actions) && NeverOverloaded(s, actions)
    ensures After(s, actions).dropped == multiset{}
  {
    if actions != [] {
      var front, a := actions[..|actions| - 1], actions[|actions| - 1];
      DropsNeedOverload(s, front);
      var u := After(s, front);
      if a.Enqueue? {
        TotalAtLeast(u.threads, Load, a.tid);
        assert Load(u.threads[a.tid]) >= 1;
      }
    }
  }

  /** No send of the run got this answer. */
  predicate NeverAnswered(actions: seq<Action>, result: SendResult) {
    forall k :: 0 <= k < |actions| && actions[k].Finish? ==> actions[k].result != result
  }

  /** A report is accepted only by a send that worked, and dropped as poison only by a drain's send that
      got that answer. */
  lemma {:induction false} EachEndHasItsCause(s: State, actions: seq<Action>)
    requires Initial(s) && Runs(s, actions)
    ensures NeverAnswered(actions, Sent) ==> After(s, actions).accepted == multiset{}
    ensures NeverAnswered(actions, Poison) ==> After(s, actions).poisoned == multiset{}
  {
    if actions != [] {
      var front, a := actions[..|actions| - 1], actions[|actions| - 1];
      EachEndHasItsCause(s, front);
      assert forall result :: NeverAnswered(actions, result) ==>
        NeverAnswered(front, result) && (a.Finish? ==> actions[|actions| - 1].result != result);
      StepEnds(After(s, front), a);
    }
  }

  lemma StepEnds(s: State, a: Action)
    requires Enabled(s, a)
    ensures !(a.Finish? && a.result.Sent?) ==> Step(s, a).accepted == s.accepted
    ensures !(a.Finish? && a.result.Poison?) ==> Step(s, a).poisoned == s.poisoned
  {
  }

  predicate AllIdle(s: State) {
    forall t :: 0 <= t < |s.threads| ==> s.threads[t].Idle?
  }

  /** Once every goroutine has returned, each report was accepted by a stream, is queued, was
      dropped as poison, or was dropped at a full queue; one reported once is in one place once. */
  lemma EveryReportIsAccountedFor(s: State, actions: seq<Action>, m: Msg)
    requires Initial(s) && Runs(s, actions) && AllIdle(After(s, actions))
    ensures var t := After(s, actions);
            t.reported[m] == multiset(t.queue)[m] + t.accepted[m] + t.poisoned[m] + t.dropped[m]
  {
    ReportsAreConserved(s, actions);
    var t := After(s, actions);
    assert Conserved(t, m);
    TotalZero(t.threads, CopiesOf(m));
  }

  // ---------- the live stream and the send locks ----------

  /** Stream `n` attached at some moment, and since then nothing attached and `n` was not detached. */
  predicate IsLive(events: seq<Event>, n: nat) {
    exists k :: 0 <= k < |events| && events[k] == Attached(n) &&
                forall j :: k < j < |events| ==> !events[j].Attached? && events[j] != Detached(n)
  }

  predicate SendsOn(t: Thread, stream: nat) {
    (t.Sending? || t.DrainSending?) && t.on == stream
  }

  ghost predicate CurrentIsLive(s: State) {
    forall n: nat :: s.current == Some(n) <==> IsLive(s.events, n)
  }

  /** A thread is sending on a stream exactly when it holds that stream's lock. */
  predicate LocksHeld(s: State) {
    && (forall t :: 0 <= t < |s.threads| && (s.threads[t].Sending? || s.threads[t].DrainSending?) ==>
          s.threads[t].on in s.holder && s.holder[s.threads[t].on] == t)
    && (forall n :: n in s.holder ==> s.holder[n] < |s.threads| && SendsOn(s.threads[s.holder[n]], n))
  }

  lemma LiveAfter(events: seq<Event>, e: Event, n: nat)
    ensures IsLive(events + [e], n) <==>
              e == Attached(n) || (!e.Attached? && e != Detached(n) && IsLive(events, n))
  {
    var all := events + [e];
    if e == Attached(n) {
      assert all[|events|] == Attached(n);
    } else if !e.Attached? && e != Detached(n) && IsLive(events, n) {
      var k :| 0 <= k < |events| && events[k] == Attached(n) &&
               forall j :: k < j < |events| ==> !events[j].Attached? && events[j] != Detached(n);
      assert all[k] == Attached(n);
    }
    if IsLive(all, n) && e != Attached(n) {
      var k :| 0 <= k < |all| && all[k] == Attached(n) &&
               forall j :: k < j < |all| ==> !all[j].Attached? && all[j] != Detached(n);
      assert events[k] == Attached(n) && all[|events|] == e;
      forall j | k < j < |events|
        ensures !events[j].Attached? && events[j] != Detached(n)
      {
        assert events[j] == all[j];
      }
    }
  }

  lemma StepRoutes(s: State, a: Action)
    requires CurrentIsLive(s) && Enabled(s, a)
    ensures CurrentIsLive(Step(s, a))
  {
    if a.Attach? || a.Detach? {
      var e := if a.Attach? then Attached(s.attached) else Detached(a.stream);
      forall n: nat ensures Step(s, a).current == Some(n) <==> IsLive(Step(s, a).events, n) {
        LiveAfter(s.events, e, n);
      }
    }
  }

  predicate HoldsLock(t: Thread) {
    t.Sending? || t.DrainSending?
  }

  lemma LockTaken(s: State, t: nat)
    requires LocksHeld(s) && Enabled(s, Lock(t))
    ensures LocksHeld(LockStep(s, t))
  {
    var u := LockStep(s, t);
    assert HoldsLock(u.threads[t]) && u.holder == s.holder[u.threads[t].on := t];
    assert u.threads == s.threads[t := u.threads[t]];
  }

  lemma LockReleased(s: State, t: nat, result: SendResult)
    requires LocksHeld(s) && Enabled(s, Finish(t, result))
    ensures LocksHeld(FinishStep(s, t, result))
  {
    var u := FinishStep(s, t, result);
    assert !HoldsLock(u.threads[t]) && u.holder == s.holder - {s.threads[t].on};
    assert u.threads == s.threads[t := u.threads[t]];
  }

  lemma StepLocks(s: State, a: Action)
    requires LocksHeld(s) && Enabled(s, a)
    ensures LocksHeld(Step(s, a))
  {
    match a
    case Lock(t) => LockTaken(s, t);
    case Finish(t, result) => LockReleased(s, t, result);
    case Attach =>
    case Detach(_) =>
    case _ => OtherLocks(s, a);
  }

  lemma OtherLocks(s: State, a: Action)
    requires LocksHeld(s) && Enabled(s, a) && !a.Lock? && !a.Finish? && !a.Attach? && !a.Detach?
    ensures LocksHeld(Step(s, a))
  {
    var u := Step(s, a);
    assert !HoldsLock(s.threads[a.tid]) && !HoldsLock(u.threads[a.tid]);
    assert u.holder == s.holder && u.threads == s.threads[a.tid := u.threads[a.tid]];
  }

  /** The current stream is the most recently attached one unless that one was detached; no stream
      has two sends in progress. */
  lemma {:induction false} SendsFollowTheLiveStream(s: State, actions: seq<Action>)
    requires Initial(s) && Runs(s, actions)
    ensures CurrentIsLive(After(s, actions))
    ensures LocksHeld(After(s, actions))
  {
    if actions != [] {
      SendsFollowTheLiveStream(s, actions[..|actions| - 1]);
      StepRoutes(After(s, actions[..|actions| - 1]), actions[|actions| - 1]);
      StepLocks(After(s, actions[..|actions| - 1]), actions[|actions| - 1]);
    }
  }

  /** Stream numbers are identities: each is attached once, detached only afterwards, and locked only then. */
  predicate StreamsAreFresh(s: State) {
    && (forall k :: 0 <= k < |s.events| ==> s.events[k].stream < s.attached)
    && (forall j, k :: 0 <= j < k < |s.events| && s.events[k].Attached? ==> s.events[j].stream != s.events[k].stream)
    && (forall n :: n in s.holder ==> n < s.attached)
    && (forall t :: 0 <= t < |s.threads| ==> UsesAttached(s.threads[t], s.attached))
    && (s.current.Some? ==> s.current.value < s.attached)
  }

  predicate UsesAttached(t: Thread, attached: nat) {
    match t
    case Picked(_, Some(stream)) => stream < attached
    case Sending(_, on) => on < attached
    case Draining(on, _) => on < attached
    case DrainSending(on, _, _) => on < attached
    case DrainToQueue(on, _, _) => on < attached
    case _ => true
  }

  lemma StepKeepsFresh(s: State, a: Action)
    requires StreamsAreFresh(s) && Enabled(s, a)
    ensures StreamsAreFresh(Step(s, a))
  {
    var u := Step(s, a);
    assert u.attached >= s.attached;
    StepKeepsThreads(s, a);
    forall t | 0 <= t < |u.threads| ensures UsesAttached(u.threads[t], u.attached) {
      if IsBy(a, t) { OwnStepKeepsFresh(s, a); } else { OthersUntouched(s, a, t); }
    }
    EventsStayFresh(s, a);
    assert a.Lock? ==> u.holder == s.holder[u.threads[a.tid].on := a.tid];
  }

  lemma EventsStayFresh(s: State, a: Action)
    requires StreamsAreFresh(s) && Enabled(s, a)
    ensures var u := Step(s, a);
            && (forall k :: 0 <= k < |u.events| ==> u.events[k].stream < u.attached)
            && (forall j, k :: 0 <= j < k < |u.events| && u.events[k].Attached? ==> u.events[j].stream != u.events[k].stream)
  {
    var u := Step(s, a);
    if a.Attach? || a.Detach? {
      assert forall k :: 0 <= k < |s.events| ==> u.events[k] == s.events[k];
    }
  }

  lemma OwnStepKeepsFresh(s: State, a: Action)
    requires StreamsAreFresh(s) && Enabled(s, a) && !a.Attach? && !a.Detach?
    ensures UsesAttached(Step(s, a).threads[a.tid], s.attached)
  {
    assert UsesAttached(s.threads[a.tid], s.attached);
  }

  lemma {:induction false} EveryStreamIsFresh(s: State, actions: seq<Action>)
    requires Initial(s) && Runs(s, actions)
    ensures StreamsAreFresh(After(s, actions))
  {
    if actions != [] {
      EveryStreamIsFresh(s, actions[..|actions| - 1]);
      StepKeepsFresh(After(s, actions[..|actions| - 1]), actions[|actions| - 1]);
    }
  }

  /** No stream ever has two sends in progress. */
  lemma OneSendPerStream(s: State, actions: seq<Action>, t: nat, u: nat, stream: nat)
    requires Initial(s) && Runs(s, actions)
    requires t < |After(s, actions).threads| && SendsOn(After(s, actions).threads[t], stream)
    requires u < |After(s, actions).threads| && SendsOn(After(s, actions).threads[u], stream)
    ensures t == u
  {
    SendsFollowTheLiveStream(s, actions);
    assert LocksHeld(After(s, actions));
  }

  predicate IsBy(a: Action, t: nat) {
    !a.Attach? && !a.Detach? && a.tid == t
  }

  /** Exactly `stream` is live in `s`; None: no stream is. */
  ghost predicate LiveIs(s: State, stream: Option<nat>) {
    forall n: nat :: stream == Some(n) <==> IsLive(s.events, n)
  }

  /** Thread `t` handed in `msg` at step `k`, when exactly `stream` was live, and has since done nothing
      but take that stream's send lock. */
  ghost predicate HandedInAt(s: State, actions: seq<Action>, k: nat, t: nat, msg: Msg, stream: Option<nat>) {
    && k < |actions| && actions[k] == Report(t, msg)
    && Runs(s, actions[..k]) && LiveIs(After(s, actions[..k]), stream)
    && forall j :: k < j < |actions| && IsBy(actions[j], t) ==> actions[j] == Lock(t)
  }

  /** The report a thread is about to send or is sending, and the stream it does that on. */
  predicate Carries(t: Thread, msg: Msg, stream: Option<nat>) {
    t == Picked(msg, stream) || (stream.Some? && t == Sending(msg, stream.value))
  }

  lemma HandedInStays(s: State, actions: seq<Action>, k: nat, t: nat, msg: Msg, stream: Option<nat>)
    requires actions != [] && HandedInAt(s, actions[..|actions| - 1], k, t, msg, stream)
    requires IsBy(actions[|actions| - 1], t) ==> actions[|actions| - 1] == Lock(t)
    ensures HandedInAt(s, actions, k, t, msg, stream)
  {
    var front := actions[..|actions| - 1];
    assert front[..k] == actions[..k];
    forall j | k < j < |actions| && IsBy(actions[j], t) ensures actions[j] == Lock(t) {
      if j < |front| { assert front[j] == actions[j]; }
    }
  }

  /** A step leaves every goroutine alone but the one that takes it. */
  lemma OthersUntouched(s: State, a: Action, t: nat)
    requires Enabled(s, a) && t < |s.threads| && !IsBy(a, t)
    ensures |Step(s, a).threads| == |s.threads| && Step(s, a).threads[t] == s.threads[t]
  {
    match a
    case Lock(u) => assert LockStep(s, u).threads == s.threads[u := LockStep(s, u).threads[u]];
    case Finish(u, result) => assert FinishStep(s, u, result).threads == s.threads[u := FinishStep(s, u, result).threads[u]];
    case _ =>
  }

  /** A goroutine comes to carry a report only by handing it in, and keeps it only by taking the lock. */
  lemma CarriedBefore(s: State, a: Action, t: nat, msg: Msg, stream: Option<nat>)
    requires Enabled(s, a) && t < |s.threads| && IsBy(a, t)
    requires msg.queueable && Carries(Step(s, a).threads[t], msg, stream)
    ensures (a == Report(t, msg) && stream == s.current) || (Carries(s.threads[t], msg, stream) && a == Lock(t))
  {
  }

  lemma StepKeepsThreads(s: State, a: Action)
    requires Enabled(s, a)
    ensures |Step(s, a).threads| == |s.threads|
  {
  }

  /** In every reachable state, a report about to be sent or being sent was handed in at a moment when
      exactly the stream it goes to was live; with no stream to go to, none was live at that moment. */
  lemma {:induction false} ReportsGoToTheStreamThatWasLive(s: State, actions: seq<Action>, t: nat, msg: Msg, stream: Option<nat>)
    requires Initial(s) && Runs(s, actions) && msg.queueable
    requires t < |After(s, actions).threads| && Carries(After(s, actions).threads[t], msg, stream)
    ensures exists k: nat :: HandedInAt(s, actions, k, t, msg, stream)
  {
    if actions != [] {
      var front, a := actions[..|actions| - 1], actions[|actions| - 1];
      var u := After(s, front);
      StepKeepsThreads(u, a);
      if IsBy(a, t) { CarriedBefore(u, a, t, msg, stream); } else { OthersUntouched(u, a, t); }
      if a == Report(t, msg) && stream == u.current {
        SendsFollowTheLiveStream(s, front);
        assert HandedInAt(s, actions, |front|, t, msg, stream);
      } else {
        ReportsGoToTheStreamThatWasLive(s, front, t, msg, stream);
        var k: nat :| HandedInAt(s, front, k, t, msg, stream);
        HandedInStays(s, actions, k, t, msg, stream);
      }
    }
  }

  /** A send fails for want of a stream only if none was live when the report was handed in. */
  lemma NoStreamOnlyIfNoneWasLive(s: State, actions: seq<Action>, t: nat)
    requires Initial(s) && Runs(s, actions) && Enabled(After(s, actions), NoStream(t))
    requires After(s, actions).threads[t].msg.queueable
    ensures exists k: nat :: HandedInAt(s, actions, k, t, After(s, actions).threads[t].msg, None)
  {
    ReportsGoToTheStreamThatWasLive(s, actions, t, After(s, actions).threads[t].msg, None);
  }

  /** The router's promise is about the moment of the handing in: a report waiting for the send lock is
      sent on the stream it picked also when a newer connection is live by then. */
  lemma TheStreamMayBeReplacedMeanwhile(s: State, t: nat, msg: Msg, n: nat)
    requires CurrentIsLive(s) && s.current == Some(n) && n < s.attached && n !in s.holder
    requires t < |s.threads| && s.threads[t].Idle?
    ensures var s1 := Step(s, Report(t, msg));
            Enabled(s1, Detach(n)) &&
            var s2 := Step(s1, Detach(n));
            var s3 := Step(s2, Attach);
            Enabled(s3, Lock(t)) &&
            var s4 := Step(s3, Lock(t));
            s4.threads[t] == Sending(msg, n) && LiveIs(s4, Some(s.attached)) && s.attached != n
  {
    var s1 := Step(s, Report(t, msg));
    var s2 := Step(s1, Detach(n));
    var s3 := Step(s2, Attach);
    assert s3.threads[t] == Picked(msg, Some(n)) && s3.holder == s.holder && s3.current == Some(s.attached);
    var s4 := Step(s3, Lock(t));
    StepRoutes(s, Report(t, msg));
    StepRoutes(s1, Detach(n));
    StepRoutes(s2, Attach);
    StepRoutes(s3, Lock(t));
  }
}
