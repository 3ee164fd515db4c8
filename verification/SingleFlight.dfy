/**
 The scheduling loop shared by the inventory and attestation managers
 (internal/inventory/manager.go, internal/attestation/manager.go): TryLock, a
 worker goroutine, a one-slot result channel, a timeout, and a retry schedule.
 Durations are nanoseconds of virtual time; timers fire exactly when due.
 */
module SingleFlight {
  import opened Prelude
  import Jitter

  datatype Config = Config(interval: int, retryInterval: int, timeout: int, startupJitter: int)

  function NextInterval(cfg: Config, failed: bool): int
  {
    if failed && cfg.retryInterval > 0 then cfg.retryInterval else cfg.interval
  }

  /** One attempt of the loop, as it happened. */
  datatype Attempt = Attempt(start: int, end: int, failed: bool)

  /** The loop's schedule: attempt `k+1` starts the next interval after attempt `k` ends. */
  ghost predicate Chain(cfg: Config, jitter: int, log: seq<Attempt>)
  {
    && (|log| > 0 ==> log[0].start == jitter)
    && (forall k :: 0 <= k < |log| ==> log[k].start <= log[k].end)
    && (forall k :: 0 < k < |log| ==> log[k].start == log[k - 1].end + NextInterval(cfg, log[k - 1].failed))
  }

  /** No attempt outlasts the timeout. */
  ghost predicate WithinTimeout(cfg: Config, log: seq<Attempt>)
  {
    forall k :: 0 <= k < |log| ==> log[k].end <= log[k].start + cfg.timeout
  }

  /** When the next attempt is due. */
  function Due(cfg: Config, jitter: int, log: seq<Attempt>): int
  {
    if log == [] then jitter else log[|log| - 1].end + NextInterval(cfg, log[|log| - 1].failed)
  }

  lemma ChainExtends(cfg: Config, jitter: int, log: seq<Attempt>, a: Attempt)
    requires Chain(cfg, jitter, log) && a.start == Due(cfg, jitter, log) <= a.end
    ensures Chain(cfg, jitter, log + [a])
  {
  }

  // ------------------------------------------------------------ the two Run loops

  /** What the environment decides about one attempt: how long it takes and whether it fails. */
  datatype Outcome = Outcome(duration: nat, failed: bool)

  /** `Run` of the attestation manager, until the context is cancelled before attempt `|outcomes|`. */
  method RunAttestation(cfg: Config, drawn: nat, outcomes: seq<Outcome>) returns (jitter: int, log: seq<Attempt>)
    ensures jitter == if cfg.interval > 0 && cfg.startupJitter > 0 then Jitter.Calculate(cfg.startupJitter, drawn) else 0
    ensures |log| == if cfg.interval <= 0 then 0 else |outcomes|
    ensures Chain(cfg, jitter, log)
    ensures |log| > 0 ==> log[0].start == jitter
    ensures forall k :: 0 < k < |log| ==>
      log[k].start - log[k - 1].end == if outcomes[k - 1].failed && cfg.retryInterval > 0 then cfg.retryInterval else cfg.interval
    ensures forall k :: 0 <= k < |log| ==> log[k].end == log[k].start + outcomes[k].duration && log[k].failed == outcomes[k].failed
  {
    jitter, log := 0, [];
    if cfg.interval <= 0 {
      return;
    }
    if cfg.startupJitter > 0 {
      jitter := Jitter.Calculate(cfg.startupJitter, drawn);
    }
    var now, k := jitter, 0;
    while k < |outcomes|
      invariant 0 <= k <= |outcomes| && |log| == k
      invariant Chain(cfg, jitter, log)
      invariant now == Due(cfg, jitter, log)
      invariant forall i :: 0 <= i < k ==> log[i].end == log[i].start + outcomes[i].duration && log[i].failed == outcomes[i].failed
    {
      var attempt := Attempt(now, now + outcomes[k].duration, outcomes[k].failed);
      ChainExtends(cfg, jitter, log, attempt);
      log := log + [attempt];
      now := attempt.end + NextInterval(cfg, attempt.failed);
      k := k + 1;
    }
  }

  /** `Run` of the inventory manager: one attempt before the loop, none after it when the interval is not positive. */
  method RunInventory(cfg: Config, drawn: nat, outcomes: seq<Outcome>) returns (jitter: int, log: seq<Attempt>)
    ensures jitter == if cfg.startupJitter > 0 then Jitter.Calculate(cfg.startupJitter, drawn) else 0
    ensures |log| == if cfg.interval <= 0 && |outcomes| > 0 then 1 else |outcomes|
    ensures Chain(cfg, jitter, log)
    ensures |log| > 0 ==> log[0].start == jitter
    ensures forall k :: 0 < k < |log| ==>
      log[k].start - log[k - 1].end == if outcomes[k - 1].failed && cfg.retryInterval > 0 then cfg.retryInterval else cfg.interval
    ensures forall k :: 0 <= k < |log| ==> log[k].end == log[k].start + outcomes[k].duration && log[k].failed == outcomes[k].failed
  {
    log := [];
    jitter := if cfg.startupJitter > 0 then Jitter.Calculate(cfg.startupJitter, drawn) else 0;
    if outcomes == [] {
      return;
    }
    var now := jitter + outcomes[0].duration;
    var failed := outcomes[0].failed;
    log := [Attempt(jitter, now, failed)];
    if cfg.interval <= 0 {
      return;
    }
    var nextInterval, k := NextInterval(cfg, failed), 1;
    while k < |outcomes|
      invariant 1 <= k <= |outcomes| && |log| == k
      invariant Chain(cfg, jitter, log)
      invariant now == log[k - 1].end && nextInterval == NextInterval(cfg, log[k - 1].failed)
      invariant forall i :: 0 <= i < k ==> log[i].end == log[i].start + outcomes[i].duration && log[i].failed == outcomes[i].failed
    {
      now := now + nextInterval;
      var attempt := Attempt(now, now + outcomes[k].duration, outcomes[k].failed);
      ChainExtends(cfg, jitter, log, attempt);
      log := log + [attempt];
      now := attempt.end;
      nextInterval := NextInterval(cfg, attempt.failed);
      k := k + 1;
    }
  }

  // ------------------------------------------------------------ single flight

  datatype Phase = Running | Sent | Unlocked

  /** A result tagged with the worker that computed it. */
  datatype Delivery = Delivery(worker: nat, failed: bool)

  datatype Loop =
    | Sleeping(until: int)
    | Waiting(worker: nat, start: int)
    | Stopped

  /** Worker `i` is the goroutine of the i-th accepted attempt; `channels[i]` is its one-slot channel. */
  datatype State = State(
    now: int,
    runMu: Option<nat>,
    workers: seq<Phase>,
    channels: seq<Option<Delivery>>,
    loop: Loop,
    log: seq<Attempt>)

  datatype Step =
    | Advance(to: int)
    | Begin                            // runAttempt up to the go statement, or the TryLock failure
    | Send(w: nat, failed: bool)       // the worker's send on done
    | Unlock(w: nat)                   // the worker's deferred unlock
    | Receive                          // case result := <-done
    | TimeOut                          // case <-runCtx.Done()
    | Cancel                           // the caller's context ends

  predicate Enabled(cfg: Config, s: State, e: Step)
  {
    match e
    case Advance(to) =>
      && s.now <= to
      && (s.loop.Sleeping? ==> to <= s.loop.until)
      && (s.loop.Waiting? ==> to <= s.loop.start + cfg.timeout)
    case Begin => s.loop.Sleeping? && s.now >= s.loop.until
    case Send(w, _) => w < |s.workers| && s.workers[w].Running? && w < |s.channels| && s.channels[w].None?
    case Unlock(w) => w < |s.workers| && s.workers[w].Sent?
    case Receive => s.loop.Waiting? && s.loop.worker < |s.channels| && s.channels[s.loop.worker].Some?
    case TimeOut => s.loop.Waiting? && s.now >= s.loop.start + cfg.timeout
    case Cancel => !s.loop.Stopped?
  }

  /** The attempt is over: record it and sleep for the next interval. */
  function Finish(cfg: Config, s: State, start: int, failed: bool): State
  {
    s.(log := s.log + [Attempt(start, s.now, failed)], loop := Sleeping(s.now + NextInterval(cfg, failed)))
  }

  function Apply(cfg: Config, s: State, e: Step): State
    requires Enabled(cfg, s, e)
  {
    match e
    case Advance(to) => s.(now := to)
    case Begin =>
      if s.runMu.Some? then Finish(cfg, s, s.now, true)
      else s.(runMu := Some(|s.workers|), workers := s.workers + [Running], channels := s.channels + [None],
              loop := Waiting(|s.workers|, s.now))
    case Send(w, failed) => s.(workers := s.workers[w := Sent], channels := s.channels[w := Some(Delivery(w, failed))])
    case Unlock(w) => s.(workers := s.workers[w := Unlocked], runMu := None)
    case Receive =>
      var w := s.loop.worker;
      Finish(cfg, s, s.loop.start, s.channels[w].value.failed).(channels := s.channels[w := None])
    case TimeOut => Finish(cfg, s, s.loop.start, true)
    case Cancel => s.(loop := Stopped)
  }

  predicate Init(cfg: Config, jitter: int, s: State)
  {
    && 0 <= jitter && (jitter == 0 || jitter < cfg.startupJitter)
    && s == State(0, None, [], [], Sleeping(jitter), [])
  }

  datatype Run = Run(jitter: int, states: seq<State>, steps: seq<Step>)

  ghost predicate Follows(cfg: Config, s: State, e: Step, s': State)
  {
    Enabled(cfg, s, e) && s' == Apply(cfg, s, e)
  }

  ghost predicate IsRun(cfg: Config, r: Run)
  {
    && cfg.timeout > 0 && cfg.interval > 0
    && |r.states| == |r.steps| + 1
    && Init(cfg, r.jitter, r.states[0])
    && forall i :: 0 <= i < |r.steps| ==> Follows(cfg, r.states[i], r.steps[i], r.states[i + 1])
  }

  // ------------------------------------------------------------ invariant

  /** A worker that has not yet run its deferred unlock. */
  predicate Live(s: State, w: int)
  {
    0 <= w < |s.workers| && !s.workers[w].Unlocked?
  }

  ghost predicate Locking(s: State)
  {
    && |s.channels| == |s.workers|
    && (s.runMu.Some? ==> Live(s, s.runMu.value))
    && (forall w :: Live(s, w) ==> s.runMu == Some(w))
    && (s.loop.Waiting? ==> s.loop.worker < |s.workers|)
  }

  ghost predicate Channels(s: State)
    requires |s.channels| == |s.workers|
  {
    forall w :: 0 <= w < |s.workers| ==>
      && (s.workers[w].Running? ==> s.channels[w].None?)
      && (s.channels[w].Some? ==> s.channels[w].value.worker == w)
  }

  ghost predicate Timing(cfg: Config, jitter: int, s: State)
  {
    && Chain(cfg, jitter, s.log) && WithinTimeout(cfg, s.log)
    && (s.loop.Sleeping? ==> s.now <= s.loop.until == Due(cfg, jitter, s.log))
    && (s.loop.Waiting? ==> Due(cfg, jitter, s.log) == s.loop.start <= s.now <= s.loop.start + cfg.timeout)
  }

  ghost predicate Inv(cfg: Config, jitter: int, s: State)
  {
    Locking(s) && Channels(s) && Timing(cfg, jitter, s)
  }

  lemma FinishKeepsTiming(cfg: Config, jitter: int, s: State, start: int, failed: bool)
    requires cfg.timeout > 0 && cfg.interval > 0
    requires Chain(cfg, jitter, s.log) && WithinTimeout(cfg, s.log)
    requires Due(cfg, jitter, s.log) == start <= s.now <= start + cfg.timeout
    ensures Timing(cfg, jitter, Finish(cfg, s, start, failed))
  {
    ChainExtends(cfg, jitter, s.log, Attempt(start, s.now, failed));
  }

  lemma LockStepKeepsInv(cfg: Config, jitter: int, s: State, e: Step)
    requires cfg.timeout > 0 && cfg.interval > 0 && Inv(cfg, jitter, s) && Enabled(cfg, s, e)
    requires e.Send? || e.Unlock? || (e.Begin? && s.runMu.None?)
    ensures Inv(cfg, jitter, Apply(cfg, s, e))
  {
    var s' := Apply(cfg, s, e);
    forall w | Live(s', w)
      ensures s'.runMu == Some(w)
    {
      if e.Unlock? {
        assert Live(s, e.w);
      }
      if w < |s.workers| {
        assert Live(s, w);
      }
    }
    if e.Send? {
      assert Live(s, e.w);
    }
  }

  lemma StepKeepsInv(cfg: Config, jitter: int, s: State, e: Step)
    requires cfg.timeout > 0 && cfg.interval > 0 && Inv(cfg, jitter, s) && Enabled(cfg, s, e)
    ensures Inv(cfg, jitter, Apply(cfg, s, e))
  {
    var s' := Apply(cfg, s, e);
    if e.Send? || e.Unlock? || (e.Begin? && s.runMu.None?) {
      LockStepKeepsInv(cfg, jitter, s, e);
    } else {
      assert forall w :: Live(s', w) ==> Live(s, w);
      assert s.runMu.Some? ==> Live(s', s.runMu.value);
      if e.Begin? {
        FinishKeepsTiming(cfg, jitter, s, s.now, true);
      } else if e.Receive? {
        FinishKeepsTiming(cfg, jitter, s, s.loop.start, s.channels[s.loop.worker].value.failed);
      } else if e.TimeOut? {
        FinishKeepsTiming(cfg, jitter, s, s.loop.start, true);
      }
    }
  }

  lemma {:induction false} RunInv(cfg: Config, r: Run, i: nat)
    requires IsRun(cfg, r) && i < |r.states|
    ensures Inv(cfg, r.jitter, r.states[i])
  {
    if i > 0 {
      RunInv(cfg, r, i - 1);
      assert Follows(cfg, r.states[i - 1], r.steps[i - 1], r.states[i]);
      StepKeepsInv(cfg, r.jitter, r.states[i - 1], r.steps[i - 1]);
    }
  }

  // ------------------------------------------------------------ what every run guarantees

  /** `runMu` is held exactly while one worker has not run its deferred unlock, so workflows never overlap. */
  lemma WorkflowsNeverOverlap(cfg: Config, r: Run, i: nat)
    requires IsRun(cfg, r) && i < |r.states|
    ensures var s := r.states[i];
      && (forall w :: Live(s, w) <==> w >= 0 && s.runMu == Some(w))
      && (forall v, w :: Live(s, v) && Live(s, w) ==> v == w)
  {
    RunInv(cfg, r, i);
  }

  /** A worker with a result can always send it: its one-slot channel is empty. */
  lemma WorkersNeverBlock(cfg: Config, r: Run, i: nat, w: nat, failed: bool)
    requires IsRun(cfg, r) && i < |r.states|
    requires w < |r.states[i].workers| && r.states[i].workers[w].Running?
    ensures Enabled(cfg, r.states[i], Send(w, failed))
  {
    RunInv(cfg, r, i);
  }

  /** Step `k` is worker `w` delivering its own outcome. */
  predicate Delivers(r: Run, k: int, w: nat, failed: bool)
  {
    0 <= k < |r.steps| && r.steps[k] == Send(w, failed)
  }

  /** Step `b` began the attempt that the loop is waiting for at state `i`: it started that worker, at that time. */
  predicate Began(r: Run, b: int, i: int)
  {
    && 0 <= b < i < |r.states| && |r.states| == |r.steps| + 1
    && r.steps[b].Begin? && r.states[i].loop.Waiting?
    && r.states[b].now == r.states[i].loop.start
    && |r.states[b].workers| == r.states[i].loop.worker < |r.states[b + 1].workers|
  }

  /**
   Step `b` began an attempt, its own worker delivered at step `k`, and step `i`
   records that outcome as the attempt's.
   */
  predicate OwnResult(r: Run, b: int, k: int, i: int)
  {
    && Began(r, b, i) && b < k < i < |r.steps|
    && |r.states[i + 1].log| == |r.states[i].log| + 1
    && r.states[i + 1].log[|r.states[i].log|].start == r.states[i].loop.start
    && Delivers(r, k, r.states[i].loop.worker, r.states[i + 1].log[|r.states[i].log|].failed)
  }

  lemma {:induction false} WaitingBegan(cfg: Config, r: Run, i: nat) returns (b: nat)
    requires IsRun(cfg, r) && i < |r.states| && r.states[i].loop.Waiting?
    ensures Began(r, b, i)
  {
    assert i > 0;
    assert Follows(cfg, r.states[i - 1], r.steps[i - 1], r.states[i]);
    if r.steps[i - 1].Begin? {
      b := i - 1;
    } else {
      b := WaitingBegan(cfg, r, i - 1);
    }
  }

  lemma {:induction false} WorkersGrow(cfg: Config, r: Run, i: nat, j: nat)
    requires IsRun(cfg, r) && i <= j < |r.states|
    ensures |r.states[i].workers| <= |r.states[j].workers|
    decreases j
  {
    if i < j {
      WorkersGrow(cfg, r, i, j - 1);
      assert Follows(cfg, r.states[j - 1], r.steps[j - 1], r.states[j]);
    }
  }

  lemma {:induction false} DeliveryWasSent(cfg: Config, r: Run, i: nat, w: nat) returns (k: nat)
    requires IsRun(cfg, r) && i < |r.states| && w < |r.states[i].channels| && r.states[i].channels[w].Some?
    ensures k < i && Delivers(r, k, w, r.states[i].channels[w].value.failed)
  {
    assert i > 0;
    var s, e := r.states[i - 1], r.steps[i - 1];
    assert Follows(cfg, s, e, r.states[i]);
    if e.Send? && e.w == w {
      k := i - 1;
    } else {
      k := DeliveryWasSent(cfg, r, i - 1, w);
    }
  }

  /** The result an accepted attempt receives was sent, after it began, by the worker it started, and is the result it records. */
  lemma AttemptsReceiveTheirOwnResult(cfg: Config, r: Run, i: nat)
    requires IsRun(cfg, r) && i < |r.steps| && r.steps[i].Receive?
    ensures exists b, k :: OwnResult(r, b, k, i)
  {
    var s := r.states[i];
    assert Follows(cfg, s, r.steps[i], r.states[i + 1]);
    var b := WaitingBegan(cfg, r, i);
    var k := DeliveryWasSent(cfg, r, i, s.loop.worker);
    assert Follows(cfg, r.states[k], r.steps[k], r.states[k + 1]);
    if k <= b {
      WorkersGrow(cfg, r, k, b);
    }
    assert OwnResult(r, b, k, i);
  }

  // ------------------------------------------------------------ the schedule

  /**
   After a failed attempt the next one starts between the retry interval and the
   timeout more after its start, if there is a retry interval; otherwise, and after
   a success, the same with the normal interval.
   */
  lemma GapsAreBounded(cfg: Config, r: Run, i: nat, k: nat)
    requires IsRun(cfg, r) && i < |r.states| && k + 1 < |r.states[i].log|
    ensures var a, b := r.states[i].log[k], r.states[i].log[k + 1];
      var d := if a.failed && cfg.retryInterval > 0 then cfg.retryInterval else cfg.interval;
      b.start == a.end + d && a.start + d <= b.start <= a.start + cfg.timeout + d
  {
    RunInv(cfg, r, i);
  }

  /** Step `i` adds one attempt to the log. */
  predicate Records(r: Run, i: nat, a: Attempt)
  {
    i + 1 < |r.states| && r.states[i + 1].log == r.states[i].log + [a]
  }

  /** An attempt that times out, or that finds the previous worker still running, is recorded as failed at once. */
  lemma UnservedAttemptsFail(cfg: Config, r: Run, i: nat)
    requires IsRun(cfg, r) && i < |r.steps|
    ensures r.steps[i].TimeOut? ==>
      r.states[i].loop.Waiting? && Records(r, i, Attempt(r.states[i].loop.start, r.states[i].now, true))
      && r.states[i].now == r.states[i].loop.start + cfg.timeout
    ensures r.steps[i].Begin? && r.states[i].runMu.Some? ==>
      Records(r, i, Attempt(r.states[i].now, r.states[i].now, true)) && r.states[i + 1].workers == r.states[i].workers
  {
    RunInv(cfg, r, i);
    assert Follows(cfg, r.states[i], r.steps[i], r.states[i + 1]);
  }

  /** An attempt starts a worker exactly when no earlier worker is still to unlock, and then waits for that one. */
  lemma AttemptsStartWorkersIff(cfg: Config, r: Run, i: nat)
    requires IsRun(cfg, r) && i < |r.steps| && r.steps[i].Begin?
    ensures |r.states[i + 1].workers| == |r.states[i].workers| + 1 <==> forall w :: !Live(r.states[i], w)
    ensures (forall w :: !Live(r.states[i], w)) ==> r.states[i + 1].loop == Waiting(|r.states[i].workers|, r.states[i].now)
  {
    RunInv(cfg, r, i);
    assert Follows(cfg, r.states[i], r.steps[i], r.states[i + 1]);
    assert r.states[i].runMu.Some? ==> Live(r.states[i], r.states[i].runMu.value);
  }

  /** Nothing is stuck: the loop can act or time can pass, and a worker that has not unlocked can send or unlock. */
  lemma SomethingCanHappen(cfg: Config, r: Run, i: nat)
    requires IsRun(cfg, r) && i < |r.states|
    ensures var s := r.states[i];
      && (s.loop.Sleeping? ==> Enabled(cfg, s, Begin) || Enabled(cfg, s, Advance(s.now + 1)))
      && (s.loop.Waiting? ==> Enabled(cfg, s, TimeOut) || Enabled(cfg, s, Advance(s.now + 1)))
      && (s.loop.Waiting? ==> s.loop.worker < |s.channels| && (s.channels[s.loop.worker].Some? ==> Enabled(cfg, s, Receive)))
      && forall w: nat, failed :: Live(s, w) ==> Enabled(cfg, s, Send(w, failed)) || Enabled(cfg, s, Unlock(w))
  {
    RunInv(cfg, r, i);
  }

  lemma OneMore(k: int, x: int)
    ensures k * x == (k - 1) * x + x
  {
  }

  /** Both intervals the configuration can use lie between `lo` and `hi`. */
  predicate Between(cfg: Config, lo: int, hi: int)
  {
    lo <= cfg.interval <= hi && (cfg.retryInterval > 0 ==> lo <= cfg.retryInterval <= hi)
  }

  lemma {:induction false} ChainBounds(cfg: Config, jitter: int, log: seq<Attempt>, lo: int, hi: int, k: nat)
    requires Chain(cfg, jitter, log) && WithinTimeout(cfg, log) && Between(cfg, lo, hi) && k < |log|
    ensures jitter + k * lo <= log[k].start <= jitter + k * (cfg.timeout + hi)
  {
    if k > 0 {
      ChainBounds(cfg, jitter, log, lo, hi, k - 1);
      OneMore(k, lo);
      OneMore(k, cfg.timeout + hi);
    }
  }

  /** In every run attempt `k` starts within explicit bounds, startup jitter included. */
  lemma StartsAreBounded(cfg: Config, r: Run, i: nat, lo: int, hi: int, k: nat)
    requires IsRun(cfg, r) && i < |r.states| && Between(cfg, lo, hi) && k < |r.states[i].log|
    ensures k * lo <= r.states[i].log[k].start
    ensures r.states[i].log[k].start <= (if cfg.startupJitter > 0 then cfg.startupJitter - 1 else 0) + k * (cfg.timeout + hi)
  {
    RunInv(cfg, r, i);
    ChainBounds(cfg, r.jitter, r.states[i].log, lo, hi, k);
  }
}
