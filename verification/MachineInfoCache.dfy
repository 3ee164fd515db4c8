/**
 The machine-info cache (internal/exporter/collector/machine_info_provider.go):
 asynchronous refreshes that deduplicate, a staleness bound, and a signal that
 closes once.  Times are nanoseconds.
 */
module MachineInfoCache {
  import opened Prelude

  const DEFAULT_STALE_AFTER: int := 300_000_000_000

  /** The fields guarded by `mu`, and whether `initialRefreshDone` is closed. */
  datatype Fields<I> = Fields(
    cached: Option<I>,
    lastUpdate: Option<int>,
    refreshing: bool,
    initialWaited: bool,
    doneClosed: bool)

  function StaleAfter(configured: int): (r: int)
    ensures r > 0
  {
    if configured <= 0 then DEFAULT_STALE_AFTER else configured
  }

  predicate ShouldRefresh<I>(f: Fields<I>, staleAfter: int, now: int)
  {
    f.cached.None? || f.lastUpdate.None? || now - f.lastUpdate.value >= staleAfter
  }

  predicate Starts<I>(f: Fields<I>, staleAfter: int, now: int)
  {
    !f.refreshing && ShouldRefresh(f, staleAfter, now)
  }

  // ------------------------------------------------------------ the object

  /** The provider, one method per critical section. */
  class Provider<I> {
    var cached: Option<I>
    var lastUpdate: Option<int>
    var refreshing: bool
    var initialWaited: bool
    var doneClosed: bool
    const staleAfter: int
    const hasDCGM: bool

    ghost function View(): Fields<I>
      reads this
    {
      Fields(cached, lastUpdate, refreshing, initialWaited, doneClosed)
    }

    constructor (hasDCGM: bool, configured: int)
      ensures View() == Fields(None, None, false, false, false)
      ensures this.hasDCGM == hasDCGM
      ensures staleAfter == if configured <= 0 then 300_000_000_000 else configured
    {
      this.hasDCGM := hasDCGM;
      cached, lastUpdate := None, None;
      refreshing, initialWaited, doneClosed := false, false, false;
      staleAfter := StaleAfter(configured);
    }

    /** `Get`. */
    method Get() returns (info: Option<I>)
      ensures info == View().cached
    {
      info := cached;
    }

    /** The locked section of `RefreshAsync`; the caller spawns the goroutine when it returns true. */
    method TryBeginRefresh(now: int) returns (started: bool)
      modifies this
      ensures started == Starts(old(View()), staleAfter, now)
      ensures started <==> !old(refreshing) && (cached.None? || lastUpdate.None? || now - lastUpdate.value >= staleAfter)
      ensures View() == old(View()).(refreshing := old(refreshing) || started)
    {
      if refreshing || !(cached.None? || lastUpdate.None? || now - lastUpdate.value >= staleAfter) {
        return false;
      }
      refreshing := true;
      started := true;
    }

    /** The goroutine's locked store after a successful collection. */
    method StoreResult(info: I, now: int)
      modifies this
      ensures View() == old(View()).(cached := Some(info), lastUpdate := Some(now))
    {
      cached := Some(info);
      lastUpdate := Some(now);
    }

    /** The first half of the goroutine's deferred function. */
    method EndRefresh()
      modifies this
      ensures View() == old(View()).(refreshing := false)
    {
      refreshing := false;
    }

    /** `markInitialRefreshDone`: true when this call is the one that closed the channel. */
    method MarkInitialRefreshDone() returns (closed: bool)
      modifies this
      ensures closed == !old(doneClosed)
      ensures View() == old(View()).(doneClosed := true)
    {
      closed := !doneClosed;
      doneClosed := true;
    }

    /**
     `RefreshAsync` with its goroutine run to the end and nothing in between: without a
     DCGM instance, while a refresh is marked, or while the cache is fresh, nothing
     happens; otherwise the mark is gone again, the signal is given, a failed collection
     leaves the cache as it was, and a successful one is what `Get` returns, with no
     refresh due until it is stale.
     */
    method RefreshToEnd(now: int, outcome: Option<I>, end: int) returns (started: bool)
      modifies this
      ensures started <==> (hasDCGM && !old(refreshing) &&
        (old(cached).None? || old(lastUpdate).None? || now - old(lastUpdate).value >= staleAfter))
      ensures !started ==> View() == old(View())
      ensures started ==> !refreshing && doneClosed && initialWaited == old(initialWaited)
      ensures started && outcome.None? ==> cached == old(cached) && lastUpdate == old(lastUpdate)
      ensures started && outcome.Some? ==>
        cached == outcome && lastUpdate == Some(end) &&
        forall later :: Starts(View(), staleAfter, later) <==> later - end >= staleAfter
    {
      if !hasDCGM {
        return false;
      }
      started := TryBeginRefresh(now);
      if started {
        if outcome.Some? {
          StoreResult(outcome.value, end);
        }
        EndRefresh();
        var _ := MarkInitialRefreshDone();
      }
    }

    /** The locked section of `WaitForInitialRefresh`: only the first caller goes on to wait. */
    method TryBeginWait(maxWait: int) returns (waiting: bool)
      modifies this
      ensures waiting == (maxWait > 0 && !old(initialWaited))
      ensures View() == old(View()).(initialWaited := old(initialWaited) || waiting)
    {
      if maxWait <= 0 || initialWaited {
        return false;
      }
      initialWaited := true;
      waiting := true;
    }
  }

  // ------------------------------------------------------------ the interleaving

  datatype Phase = Collecting | Stored | Failed | Cleared | Ended

  /** One refresh goroutine; refreshes are numbered in the order they started. */
  datatype Refresh<I> = Refresh(phase: Phase, result: Option<I>)

  datatype State<I> = State(
    now: int,
    f: Fields<I>,
    refreshes: seq<Refresh<I>>,
    waiting: bool)

  datatype Step<I> =
    | Advance(to: int)
    | TryRefresh                    // RefreshAsync, 85-91
    | Succeed(id: nat, info: I)     // 101, 107-110
    | Fail(id: nat)                 // 101-105
    | Clear(id: nat)                // 95-97
    | Mark(id: nat)                 // 98, 152-156
    | BeginWait(maxWait: int)       // 117-127
    | WaitTrue                      // 133-134
    | WaitFalse                     // 135-138

  predicate InPhase<I>(s: State<I>, id: nat, phase: Phase)
  {
    id < |s.refreshes| && s.refreshes[id].phase == phase
  }

  predicate Enabled<I>(s: State<I>, e: Step<I>)
  {
    match e
    case Advance(to) => s.now <= to
    case TryRefresh => true
    case Succeed(id, _) => InPhase(s, id, Collecting)
    case Fail(id) => InPhase(s, id, Collecting)
    case Clear(id) => InPhase(s, id, Stored) || InPhase(s, id, Failed)
    case Mark(id) => InPhase(s, id, Cleared)
    case BeginWait(_) => true
    case WaitTrue => s.waiting && s.f.doneClosed
    case WaitFalse => s.waiting
  }

  function Goto<I>(s: State<I>, id: nat, r: Refresh<I>): State<I>
    requires id < |s.refreshes|
  {
    s.(refreshes := s.refreshes[id := r])
  }

  function Apply<I>(staleAfter: int, s: State<I>, e: Step<I>): State<I>
    requires Enabled(s, e)
  {
    match e
    case Advance(to) => s.(now := to)
    case TryRefresh =>
      if Starts(s.f, staleAfter, s.now) then
        s.(f := s.f.(refreshing := true), refreshes := s.refreshes + [Refresh(Collecting, None)])
      else s
    case Succeed(id, info) =>
      Goto(s, id, Refresh(Stored, Some(info))).(f := s.f.(cached := Some(info), lastUpdate := Some(s.now)))
    case Fail(id) => Goto(s, id, Refresh(Failed, None))
    case Clear(id) => Goto(s, id, s.refreshes[id].(phase := Cleared)).(f := s.f.(refreshing := false))
    case Mark(id) => Goto(s, id, s.refreshes[id].(phase := Ended)).(f := s.f.(doneClosed := true))
    case BeginWait(maxWait) =>
      if maxWait > 0 && !s.f.initialWaited
      then s.(f := s.f.(initialWaited := true), waiting := true) else s
    case WaitTrue => s.(waiting := false)
    case WaitFalse => s.(waiting := false)
  }

  predicate Init<I>(s: State<I>)
  {
    s.f == Fields(None, None, false, false, false) && s.refreshes == [] && !s.waiting
  }

  datatype Run<I> = Run(states: seq<State<I>>, steps: seq<Step<I>>)

  ghost predicate Follows<I>(staleAfter: int, s: State<I>, e: Step<I>, s': State<I>)
  {
    Enabled(s, e) && s' == Apply(staleAfter, s, e)
  }

  ghost predicate IsRun<I>(staleAfter: int, r: Run<I>)
  {
    && |r.states| == |r.steps| + 1
    && Init(r.states[0])
    && forall i :: 0 <= i < |r.steps| ==> Follows(staleAfter, r.states[i], r.steps[i], r.states[i + 1])
  }

  // ------------------------------------------------------------ invariant

  /** A refresh is in flight until its deferred function has cleared the flag. */
  predicate InFlight<I>(r: Refresh<I>)
  {
    r.phase.Collecting? || r.phase.Stored? || r.phase.Failed?
  }

  predicate Completed<I>(r: Refresh<I>)
  {
    r.phase.Cleared? || r.phase.Ended?
  }

  /** The result of the latest-started refresh that succeeded. */
  function Latest<I>(refreshes: seq<Refresh<I>>): Option<I>
  {
    if refreshes == [] then None
    else
      var last := refreshes[|refreshes| - 1];
      if last.result.Some? then last.result else Latest(refreshes[..|refreshes| - 1])
  }

  ghost predicate Flight<I>(s: State<I>)
  {
    && (forall id :: 0 <= id < |s.refreshes| && InFlight(s.refreshes[id]) ==>
          s.f.refreshing && id == |s.refreshes| - 1)
    && (s.f.refreshing ==> |s.refreshes| > 0 && InFlight(s.refreshes[|s.refreshes| - 1]))
  }

  ghost predicate Results<I>(s: State<I>)
  {
    && s.f.cached == Latest(s.refreshes)
    && (forall id :: 0 <= id < |s.refreshes| ==>
          var r := s.refreshes[id];
          && (r.phase.Collecting? || r.phase.Failed? ==> r.result.None?)
          && (r.phase.Stored? ==> r.result.Some?))
  }

  ghost predicate Signals<I>(s: State<I>)
  {
    && (s.f.lastUpdate.Some? <==> s.f.cached.Some?)
    && (s.f.lastUpdate.Some? ==> s.f.lastUpdate.value <= s.now)
    && (s.f.doneClosed ==> exists id :: 0 <= id < |s.refreshes| && s.refreshes[id].phase.Ended?)
    && (!s.f.doneClosed ==> forall id :: 0 <= id < |s.refreshes| ==> !s.refreshes[id].phase.Ended?)
    && (s.waiting ==> s.f.initialWaited)
  }

  ghost predicate Inv<I>(s: State<I>)
  {
    Flight(s) && Results(s) && Signals(s)
  }

  lemma LatestOfUpdate<I>(refreshes: seq<Refresh<I>>, id: nat, r: Refresh<I>)
    requires id < |refreshes|
    requires r.result == refreshes[id].result || (id == |refreshes| - 1 && r.result.Some?)
    ensures Latest(refreshes[id := r]) ==
      if r.result == refreshes[id].result then Latest(refreshes) else r.result
  {
    var k := |refreshes| - 1;
    if id < k {
      assert refreshes[id := r][..k] == refreshes[..k][id := r];
      LatestOfUpdate(refreshes[..k], id, r);
    } else {
      assert refreshes[id := r][..k] == refreshes[..k];
    }
  }

  lemma GotoKeepsSignals<I>(s: State<I>, id: nat, r: Refresh<I>)
    requires Signals(s) && id < |s.refreshes| && !s.refreshes[id].phase.Ended? && !r.phase.Ended?
    ensures Signals(Goto(s, id, r))
  {
    if s.f.doneClosed {
      var e :| 0 <= e < |s.refreshes| && s.refreshes[e].phase.Ended?;
      assert Goto(s, id, r).refreshes[e].phase.Ended?;
    }
  }

  lemma TryRefreshKeepsInv<I>(staleAfter: int, s: State<I>)
    requires Inv(s)
    ensures Inv(Apply(staleAfter, s, TryRefresh))
  {
  }

  lemma SettleKeepsInv<I>(staleAfter: int, s: State<I>, e: Step<I>)
    requires Inv(s) && Enabled(s, e) && (e.Succeed? || e.Fail? || e.Clear? || e.Mark?)
    ensures Inv(Apply(staleAfter, s, e))
  {
    var s' := Apply(staleAfter, s, e);
    var r := s'.refreshes[e.id];
    assert InFlight(s.refreshes[e.id]) || e.Mark?;
    LatestOfUpdate(s.refreshes, e.id, r);
    if e.Mark? {
      assert s'.refreshes[e.id].phase.Ended?;
    } else {
      GotoKeepsSignals(s, e.id, r);
    }
  }

  lemma StepKeepsInv<I>(staleAfter: int, s: State<I>, e: Step<I>)
    requires Inv(s) && Enabled(s, e)
    ensures Inv(Apply(staleAfter, s, e))
  {
    match e
    case TryRefresh => TryRefreshKeepsInv(staleAfter, s);
    case Succeed(_, _) => SettleKeepsInv(staleAfter, s, e);
    case Fail(_) => SettleKeepsInv(staleAfter, s, e);
    case Clear(_) => SettleKeepsInv(staleAfter, s, e);
    case Mark(_) => SettleKeepsInv(staleAfter, s, e);
    case _ =>
  }

  lemma {:induction false} RunInv<I>(staleAfter: int, r: Run<I>, i: nat)
    requires IsRun(staleAfter, r) && i < |r.states|
    ensures Inv(r.states[i])
  {
    if i > 0 {
      RunInv(staleAfter, r, i - 1);
      StepKeepsInv(staleAfter, r.states[i - 1], r.steps[i - 1]);
      assert Follows(staleAfter, r.states[i - 1], r.steps[i - 1], r.states[i]);
    }
  }

  // ------------------------------------------------------------ what every run guarantees

  /** `refreshing` holds exactly while one refresh is in flight, and then only one. */
  lemma RefreshingIsSingleFlight<I>(staleAfter: int, r: Run<I>, i: nat)
    requires IsRun(staleAfter, r) && i < |r.states|
    ensures var s := r.states[i];
      && (s.f.refreshing <==> exists id :: 0 <= id < |s.refreshes| && InFlight(s.refreshes[id]))
      && forall a, b :: 0 <= a < b < |s.refreshes| ==> !InFlight(s.refreshes[a]) || !InFlight(s.refreshes[b])
  {
    RunInv(staleAfter, r, i);
  }

  /** The cache holds the latest-started successful refresh, and only a success changes it. */
  lemma CacheIsLatestSuccess<I>(staleAfter: int, r: Run<I>, i: nat)
    requires IsRun(staleAfter, r) && i < |r.states|
    ensures r.states[i].f.cached == Latest(r.states[i].refreshes)
    ensures i < |r.steps| && !r.steps[i].Succeed? ==> r.states[i + 1].f.cached == r.states[i].f.cached
    ensures i < |r.steps| && r.steps[i].Succeed? ==> r.states[i + 1].f.cached == Some(r.steps[i].info)
    ensures i < |r.steps| && r.states[i].f.cached.Some? ==> r.states[i + 1].f.cached.Some?
  {
    RunInv(staleAfter, r, i);
    if i < |r.steps| {
      assert Follows(staleAfter, r.states[i], r.steps[i], r.states[i + 1]);
    }
  }

  predicate Begins<I>(r: Run<I>, j: nat)
    requires |r.states| == |r.steps| + 1
  {
    j < |r.steps| && |r.states[j + 1].refreshes| > |r.states[j].refreshes|
  }

  lemma {:induction false} UpdatesAreMonotone<I>(staleAfter: int, r: Run<I>, i: nat, j: nat)
    requires IsRun(staleAfter, r) && i < j < |r.states| && r.steps[i].Succeed?
    ensures r.states[j].f.cached.Some? && r.states[j].f.lastUpdate.Some?
    ensures r.states[i].now <= r.states[j].f.lastUpdate.value <= r.states[j].now
    decreases j
  {
    assert Follows(staleAfter, r.states[j - 1], r.steps[j - 1], r.states[j]);
    if i + 1 < j {
      UpdatesAreMonotone(staleAfter, r, i, j - 1);
    }
  }

  /** The cache's time is that of some success. */
  lemma {:induction false} UpdateIsASuccess<I>(staleAfter: int, r: Run<I>, j: nat) returns (i: nat)
    requires IsRun(staleAfter, r) && j < |r.states| && r.states[j].f.lastUpdate.Some?
    ensures i < j && r.steps[i].Succeed? && r.states[j].f.lastUpdate == Some(r.states[i].now)
  {
    assert j > 0;
    assert Follows(staleAfter, r.states[j - 1], r.steps[j - 1], r.states[j]);
    if r.steps[j - 1].Succeed? {
      i := j - 1;
    } else {
      i := UpdateIsASuccess(staleAfter, r, j - 1);
    }
  }

  /** Every success is at least `staleAfter` old at state `j`; so it is if there has been none. */
  ghost predicate AllStale<I>(staleAfter: int, r: Run<I>, j: nat)
    requires j < |r.states| == |r.steps| + 1
  {
    forall i :: 0 <= i < j && r.steps[i].Succeed? ==> r.states[j].now - r.states[i].now >= staleAfter
  }

  /** A call starts a refresh if and only if none is in flight and every success so far, if any, is stale. */
  lemma RefreshStartsIff<I>(staleAfter: int, r: Run<I>, j: nat)
    requires IsRun(staleAfter, r) && j < |r.steps| && r.steps[j].TryRefresh?
    ensures Begins(r, j) <==> AllStale(staleAfter, r, j) && forall id :: 0 <= id < |r.states[j].refreshes| ==> !InFlight(r.states[j].refreshes[id])
  {
    var f := r.states[j].f;
    RunInv(staleAfter, r, j);
    assert Follows(staleAfter, r.states[j], r.steps[j], r.states[j + 1]);
    if f.cached.Some? {
      var i := UpdateIsASuccess(staleAfter, r, j);
      forall k | 0 <= k < j && r.steps[k].Succeed?
        ensures r.states[k].now <= f.lastUpdate.value
      {
        UpdatesAreMonotone(staleAfter, r, k, j);
      }
    } else {
      forall k | 0 <= k < j
        ensures !r.steps[k].Succeed?
      {
        if r.steps[k].Succeed? {
          UpdatesAreMonotone(staleAfter, r, k, j);
          assert false;
        }
      }
    }
  }

  /** A refresh that has not ended can go on, and it gives the signal when it ends. */
  lemma RefreshesCanGoOn<I>(staleAfter: int, r: Run<I>, j: nat, id: nat, info: I)
    requires IsRun(staleAfter, r) && j < |r.states| && id < |r.states[j].refreshes|
    ensures var s, phase := r.states[j], r.states[j].refreshes[id].phase;
      && (phase.Collecting? ==> Enabled(s, Succeed(id, info)) && Enabled(s, Step<I>.Fail(id)))
      && (phase.Stored? || phase.Failed? ==> Enabled(s, Step<I>.Clear(id)))
      && (phase.Cleared? ==> Enabled(s, Step<I>.Mark(id)))
      && (phase.Ended? ==> s.f.doneClosed)
  {
    RunInv(staleAfter, r, j);
  }

  predicate Asks<I>(e: Step<I>)
  {
    e.BeginWait? && e.maxWait > 0
  }

  lemma {:induction false} NobodyWaitedYet<I>(staleAfter: int, r: Run<I>, j: nat)
    requires IsRun(staleAfter, r) && j < |r.states|
    ensures r.states[j].f.initialWaited <==> exists i :: 0 <= i < j && Asks(r.steps[i])
  {
    if j > 0 {
      NobodyWaitedYet(staleAfter, r, j - 1);
      assert Follows(staleAfter, r.states[j - 1], r.steps[j - 1], r.states[j]);
      if Asks(r.steps[j - 1]) {
        assert r.states[j].f.initialWaited;
      }
    }
  }

  /** The first call with a positive wait waits, and no other does; it returns true only once the signal was given. */
  lemma OnlyTheFirstWaits<I>(staleAfter: int, r: Run<I>, j: nat)
    requires IsRun(staleAfter, r) && j < |r.steps|
    ensures Asks(r.steps[j]) && (forall i :: 0 <= i < j ==> !Asks(r.steps[i])) ==> r.states[j + 1].waiting
    ensures !r.states[j].waiting && r.states[j + 1].waiting ==> Asks(r.steps[j]) && forall i :: 0 <= i < j ==> !Asks(r.steps[i])
    ensures r.states[j].waiting && r.states[j].f.doneClosed ==> Enabled(r.states[j], Step<I>.WaitTrue)
    ensures r.steps[j].WaitTrue? ==> r.states[j].f.doneClosed
  {
    NobodyWaitedYet(staleAfter, r, j);
    assert Follows(staleAfter, r.states[j], r.steps[j], r.states[j + 1]);
  }

  /** No refresh starts until `staleAfter` has passed since every earlier success. */
  lemma NoRefreshWhileFresh<I>(staleAfter: int, r: Run<I>, i: nat, j: nat)
    requires IsRun(staleAfter, r) && i < j < |r.steps| && r.steps[i].Succeed? && Begins(r, j)
    ensures r.states[j].now >= r.states[i].now + staleAfter
  {
    UpdatesAreMonotone(staleAfter, r, i, j);
    assert Follows(staleAfter, r.states[j], r.steps[j], r.states[j + 1]);
  }

  /** Step `k` is a call that closed the channel. */
  predicate Closes<I>(r: Run<I>, k: int)
    requires |r.states| == |r.steps| + 1
  {
    0 <= k < |r.steps| && r.steps[k].Mark? && !r.states[k].f.doneClosed
  }

  lemma {:induction false} ClosedStaysClosed<I>(staleAfter: int, r: Run<I>, i: nat, j: nat)
    requires IsRun(staleAfter, r) && i <= j < |r.states| && r.states[i].f.doneClosed
    ensures r.states[j].f.doneClosed
    decreases j
  {
    if i < j {
      ClosedStaysClosed(staleAfter, r, i, j - 1);
      assert Follows(staleAfter, r.states[j - 1], r.steps[j - 1], r.states[j]);
    }
  }

  /** The done channel is closed at most once in a run. */
  lemma ClosesAtMostOnce<I>(staleAfter: int, r: Run<I>)
    requires IsRun(staleAfter, r)
    ensures forall a, b :: Closes(r, a) && Closes(r, b) ==> a == b
  {
    forall a, b | Closes(r, a) && Closes(r, b) && a < b
      ensures false
    {
      assert Follows(staleAfter, r.states[a], r.steps[a], r.states[a + 1]);
      ClosedStaysClosed(staleAfter, r, a + 1, b);
    }
  }

  lemma {:induction false} NoneLatest<I>(refreshes: seq<Refresh<I>>, id: nat)
    requires id < |refreshes| && Latest(refreshes).None?
    ensures refreshes[id].result.None?
  {
    if id < |refreshes| - 1 {
      NoneLatest(refreshes[..|refreshes| - 1], id);
    }
  }

  /** When the cache is read empty at state `j` after a wait that returned true, every refresh completed so far failed, and one did complete. */
  lemma TrueWaitOnEmptyCacheMeansFailures<I>(staleAfter: int, r: Run<I>, i: nat, j: nat)
    requires IsRun(staleAfter, r) && i < |r.steps| && r.steps[i].WaitTrue?
    requires i <= j < |r.states| && r.states[j].f.cached.None?
    ensures var s := r.states[j];
      && (exists id :: 0 <= id < |s.refreshes| && Completed(s.refreshes[id]))
      && (forall id :: 0 <= id < |s.refreshes| && Completed(s.refreshes[id]) ==> s.refreshes[id].result.None?)
  {
    var s := r.states[j];
    assert Follows(staleAfter, r.states[i], r.steps[i], r.states[i + 1]);
    ClosedStaysClosed(staleAfter, r, i, j);
    RunInv(staleAfter, r, j);
    var e :| 0 <= e < |s.refreshes| && s.refreshes[e].phase.Ended?;
    assert Completed(s.refreshes[e]);
    forall id | 0 <= id < |s.refreshes|
      ensures s.refreshes[id].result.None?
    {
      NoneLatest(s.refreshes, id);
    }
  }

  lemma {:induction false} WaitedStays<I>(staleAfter: int, r: Run<I>, i: nat, j: nat)
    requires IsRun(staleAfter, r) && i <= j < |r.states|
    requires r.states[i].f.initialWaited && !r.states[i].waiting
    ensures r.states[j].f.initialWaited && !r.states[j].waiting
    decreases j
  {
    if i < j {
      WaitedStays(staleAfter, r, i, j - 1);
      assert Follows(staleAfter, r.states[j - 1], r.steps[j - 1], r.states[j]);
    }
  }

  /** At most one wait in a run ever returns true. */
  lemma WaitsTrueAtMostOnce<I>(staleAfter: int, r: Run<I>, a: nat, b: nat)
    requires IsRun(staleAfter, r) && a < |r.steps| && b < |r.steps|
    requires r.steps[a].WaitTrue? && r.steps[b].WaitTrue?
    ensures a == b
  {
    if a != b {
      var i, j := if a < b then a else b, if a < b then b else a;
      RunInv(staleAfter, r, i);
      assert Follows(staleAfter, r.states[i], r.steps[i], r.states[i + 1]);
      assert Follows(staleAfter, r.states[j], r.steps[j], r.states[j + 1]);
      WaitedStays(staleAfter, r, i + 1, j);
    }
  }
}
