/**
 The bounded retry loop of the HTTP writer, with one free retry after a token
 refresh (internal/exporter/writer/http.go). What the network, the refresh
 function, the context and the random source decide is a `World`; everything a
 call does is a history of events.
 */
module RetryWriter {
  import opened Prelude
  import Jitter

  const RETRY_DELAY: int := 5_000_000_000
  const HALF_DELAY: int := 2_500_000_000
  const UNAUTHORIZED: int := 401

  /** How one request ends: a 2xx with its `jwt_assertion` header, a non-2xx status, or no valid response. */
  datatype Reply = Accepted(header: string) | Status(code: int) | Broken

  datatype World = World(
    reply: (nat, string) -> Reply,
    canRefresh: bool,
    refresh: nat -> Option<string>,
    draw: nat -> nat,
    cut: nat -> bool)

  datatype Event =
    | Sent(token: string, reply: Reply)
    | Refreshed(jwt: Option<string>)
    | Waited(delay: int, completed: bool)

  type History = seq<Event>

  /** How many requests, successful and failed refresh calls, and waits. */
  datatype Tally = Tally(sends: nat, good: nat, bad: nat, waits: nat)

  function Add(t: Tally, e: Event): Tally
  {
    match e
    case Sent(_, _) => t.(sends := t.sends + 1)
    case Refreshed(jwt) => if jwt.Some? then t.(good := t.good + 1) else t.(bad := t.bad + 1)
    case Waited(_, _) => t.(waits := t.waits + 1)
  }

  function TallyOf(h: History): Tally
  {
    if h == [] then Tally(0, 0, 0, 0) else Add(TallyOf(h[..|h| - 1]), h[|h| - 1])
  }

  predicate IsGood(e: Event)
  {
    e.Refreshed? && e.jwt.Some?
  }

  function TotalWait(h: History): int
  {
    if h == [] then 0
    else TotalWait(h[..|h| - 1]) + if h[|h| - 1].Waited? then h[|h| - 1].delay else 0
  }

  /** The token of the latest successful refresh, or the caller's. */
  function TokenOf(auth: string, h: History): string
  {
    if h == [] then auth
    else if IsGood(h[|h| - 1]) then h[|h| - 1].jwt.value
    else TokenOf(auth, h[..|h| - 1])
  }

  // ------------------------------------------------------------ the protocol, as a rule on histories

  /** `Limit(maxRetries)`: at least one attempt. */
  function Limit(maxRetries: int): (m: int)
    ensures maxRetries >= 1 ==> m == maxRetries
    ensures maxRetries < 1 ==> m == 1
  {
    if maxRetries <= 0 then 1 else maxRetries
  }

  function Request(w: World, token: string, t: Tally): Event
  {
    Sent(token, w.reply(t.sends, token))
  }

  function Delay(drawn: nat): (d: int)
    ensures 5_000_000_000 <= d < 7_500_000_000
    ensures drawn < 2_500 ==> d == 5_000_000_000 + drawn * 1_000_000
  {
    RETRY_DELAY + Jitter.Calculate(HALF_DELAY, drawn)
  }

  /** After a failure: stop when the sends that were not free number `m`, otherwise wait. */
  function Pause(w: World, m: int, t: Tally): Option<Event>
  {
    if t.sends - t.good >= m then None else Some(Waited(Delay(w.draw(t.waits)), !w.cut(t.waits)))
  }

  /** What may follow the event `e`, given the token in use and the tally up to and with `e`. */
  function After(w: World, m: int, token: string, t: Tally, e: Event): Option<Event>
  {
    match e
    case Sent(_, Accepted(_)) => None
    case Sent(_, reply) =>
      if reply == Status(UNAUTHORIZED) && w.canRefresh && t.good == 0 then Some(Refreshed(w.refresh(t.bad)))
      else Pause(w, m, t)
    case Refreshed(jwt) => if jwt.Some? then Some(Request(w, token, t)) else Pause(w, m, t)
    case Waited(_, completed) => if completed then Some(Request(w, token, t)) else None
  }

  /** The one event that may follow a history; none once the call is over. */
  function Next(w: World, m: int, auth: string, h: History): Option<Event>
  {
    if h == [] then Some(Request(w, auth, TallyOf(h)))
    else After(w, m, TokenOf(auth, h), TallyOf(h), h[|h| - 1])
  }

  ghost predicate Legal(w: World, m: int, auth: string, h: History)
  {
    h == [] || (Legal(w, m, auth, h[..|h| - 1]) && Next(w, m, auth, h[..|h| - 1]) == Some(h[|h| - 1]))
  }

  ghost predicate Complete(w: World, m: int, auth: string, h: History)
  {
    Legal(w, m, auth, h) && Next(w, m, auth, h) == None
  }

  lemma {:induction false} LegalAt(w: World, m: int, auth: string, h: History, i: nat)
    requires Legal(w, m, auth, h) && i < |h|
    ensures Legal(w, m, auth, h[..i]) && Next(w, m, auth, h[..i]) == Some(h[i])
  {
    var last := |h| - 1;
    if i < last {
      LegalAt(w, m, auth, h[..last], i);
      assert h[..last][..i] == h[..i];
    }
  }

  lemma Extend(w: World, m: int, auth: string, h: History, e: Event)
    requires Legal(w, m, auth, h) && Next(w, m, auth, h) == Some(e)
    ensures Legal(w, m, auth, h + [e])
    ensures TallyOf(h + [e]) == Add(TallyOf(h), e)
    ensures TokenOf(auth, h + [e]) == if IsGood(e) then e.jwt.value else TokenOf(auth, h)
    ensures Next(w, m, auth, h + [e]) == After(w, m, TokenOf(auth, h + [e]), TallyOf(h + [e]), e)
  {
    assert (h + [e])[..|h|] == h;
  }

  // ------------------------------------------------------------ what every history keeps

  /** Sends, refreshes and waits, in step with each other, right after the event `e`. */
  ghost predicate InStep(m: int, t: Tally, e: Event)
  {
    && t.good <= 1 && t.waits <= m - 1
    && match e
       case Sent(_, _) => t.sends == t.waits + 1 + t.good && t.bad <= t.waits
       case Refreshed(None) => t.sends == t.waits + 1 && t.good == 0 && t.bad <= t.waits + 1
       case Refreshed(Some(_)) => t.sends == t.waits + 1 && t.good == 1 && t.bad <= t.waits
       case Waited(_, _) => t.sends == t.waits + t.good && t.bad <= t.waits
  }

  ghost predicate Balanced(m: int, h: History)
  {
    h != [] ==> InStep(m, TallyOf(h), h[|h| - 1])
  }

  lemma BalancedExtends(w: World, m: int, auth: string, h: History, e: Event)
    requires m >= 1 && Legal(w, m, auth, h) && Next(w, m, auth, h) == Some(e) && Balanced(m, h)
    ensures Balanced(m, h + [e])
  {
    Extend(w, m, auth, h, e);
  }

  lemma {:induction false} LegalIsBalanced(w: World, m: int, auth: string, h: History)
    requires m >= 1 && Legal(w, m, auth, h)
    ensures Balanced(m, h)
  {
    if h != [] {
      var last := |h| - 1;
      LegalIsBalanced(w, m, auth, h[..last]);
      BalancedExtends(w, m, auth, h[..last], h[last]);
      assert h[..last] + [h[last]] == h;
    }
  }

  lemma {:induction false} KindsCoverHistory(h: History)
    ensures |h| == TallyOf(h).sends + TallyOf(h).good + TallyOf(h).bad + TallyOf(h).waits
  {
    if h != [] {
      KindsCoverHistory(h[..|h| - 1]);
    }
  }

  lemma {:induction false} WaitsAddUp(w: World, m: int, auth: string, h: History)
    requires Legal(w, m, auth, h)
    ensures RETRY_DELAY * TallyOf(h).waits <= TotalWait(h)
    ensures if TallyOf(h).waits == 0 then TotalWait(h) == 0 else TotalWait(h) < (RETRY_DELAY + HALF_DELAY) * TallyOf(h).waits
  {
    if h != [] {
      var last := |h| - 1;
      WaitsAddUp(w, m, auth, h[..last]);
    }
  }

  /**
   The retry bounds, for every history however far it got: at most m+1 sends,
   at most m refresh calls of which at most one succeeds, at most m-1 waits, and
   less than 7.5 seconds of waiting for each of them.
   */
  lemma RetriesAreBounded(w: World, m: int, auth: string, h: History)
    requires m >= 1 && Legal(w, m, auth, h)
    ensures TallyOf(h).sends <= m + 1
    ensures TallyOf(h).good + TallyOf(h).bad <= m && TallyOf(h).good <= 1
    ensures TallyOf(h).waits <= m - 1
    ensures |h| <= 3 * m
    ensures if m == 1 then TotalWait(h) == 0 else TotalWait(h) < 7_500_000_000 * (m - 1)
  {
    LegalIsBalanced(w, m, auth, h);
    KindsCoverHistory(h);
    WaitsAddUp(w, m, auth, h);
  }

  /** Two histories of the same call are the same up to how far they got. */
  lemma {:induction false} HistoriesAgree(w: World, m: int, auth: string, h: History, h': History)
    requires Legal(w, m, auth, h) && Complete(w, m, auth, h')
    ensures h <= h'
  {
    if h != [] {
      var last := |h| - 1;
      HistoriesAgree(w, m, auth, h[..last], h');
      if last < |h'| {
        LegalAt(w, m, auth, h', last);
      }
      OneMoreAgrees((x: History) => Next(w, m, auth, x), h, h');
    }
  }

  lemma OneMoreAgrees<E>(next: seq<E> -> Option<E>, h: seq<E>, h': seq<E>)
    requires h != [] && h[..|h| - 1] <= h'
    requires next(h[..|h| - 1]) == Some(h[|h| - 1]) && next(h') == None
    requires |h| <= |h'| ==> next(h'[..|h| - 1]) == Some(h'[|h| - 1])
    ensures h <= h'
  {
    assert h'[..|h| - 1] == h[..|h| - 1];
    assert h' == h'[..|h'|];
  }

  // ------------------------------------------------------------ what a complete history means

  ghost predicate SomeSendAccepted(h: History)
  {
    exists i :: 0 <= i < |h| && h[i].Sent? && h[i].reply.Accepted?
  }

  ghost predicate SomeWaitCut(h: History)
  {
    exists i :: 0 <= i < |h| && h[i].Waited? && !h[i].completed
  }

  lemma FinalEventIsLast(w: World, m: int, auth: string, h: History, i: nat)
    requires Legal(w, m, auth, h) && i < |h|
    requires (h[i].Sent? && h[i].reply.Accepted?) || (h[i].Waited? && !h[i].completed)
    ensures i == |h| - 1
  {
    assert h[..i + 1][i] == h[i];
    if i + 1 < |h| {
      LegalAt(w, m, auth, h, i + 1);
      assert false;
    }
  }

  /**
   Every complete call ends in exactly one of three ways: a send was accepted
   and was the last event; or a wait was cut short and was the last event; or
   all m attempts failed, each but the last followed by a full wait.
   */
  lemma EndsInOneWay(w: World, m: int, auth: string, h: History)
    requires m >= 1 && Complete(w, m, auth, h)
    ensures h != []
    ensures SomeSendAccepted(h) <==> h[|h| - 1].Sent? && h[|h| - 1].reply.Accepted?
    ensures SomeWaitCut(h) <==> h[|h| - 1].Waited?
    ensures !SomeSendAccepted(h) && !SomeWaitCut(h) ==>
      TallyOf(h).sends == m + TallyOf(h).good && TallyOf(h).waits == m - 1
  {
    LegalIsBalanced(w, m, auth, h);
    var last := |h| - 1;
    if SomeSendAccepted(h) {
      var i: nat :| i < |h| && h[i].Sent? && h[i].reply.Accepted?;
      FinalEventIsLast(w, m, auth, h, i);
    }
    if SomeWaitCut(h) {
      var i: nat :| i < |h| && h[i].Waited? && !h[i].completed;
      FinalEventIsLast(w, m, auth, h, i);
    }
  }

  // ------------------------------------------------------------ tokens

  lemma {:induction false} NoRefreshKeepsToken(auth: string, h: History)
    ensures TallyOf(h).good == 0 ==> TokenOf(auth, h) == auth
    ensures forall i :: 0 <= i < |h| && IsGood(h[i]) ==> TallyOf(h).good >= 1
  {
    if h != [] {
      NoRefreshKeepsToken(auth, h[..|h| - 1]);
    }
  }

  lemma {:induction false} OneRefreshDecides(w: World, m: int, auth: string, h: History, i: nat)
    requires m >= 1 && Legal(w, m, auth, h) && i < |h| && IsGood(h[i])
    ensures TokenOf(auth, h) == h[i].jwt.value
  {
    var last := |h| - 1;
    if i < last {
      OneRefreshDecides(w, m, auth, h[..last], i);
      NoRefreshKeepsToken(auth, h[..last]);
      LegalIsBalanced(w, m, auth, h);
    }
  }

  /** Every send before the successful refresh carries the caller's token and every send after it the refreshed one. */
  lemma SendsCarryTheRightToken(w: World, m: int, auth: string, h: History, j: nat)
    requires m >= 1 && Legal(w, m, auth, h) && j < |h| && h[j].Sent?
    ensures forall i :: 0 <= i < j && IsGood(h[i]) ==> h[j].token == h[i].jwt.value
    ensures (forall i :: 0 <= i < j ==> !IsGood(h[i])) ==> h[j].token == auth
  {
    var before := h[..j];
    LegalAt(w, m, auth, h, j);
    forall i | 0 <= i < j && IsGood(h[i])
      ensures h[j].token == h[i].jwt.value
    {
      OneRefreshDecides(w, m, auth, before, i);
    }
    if forall i :: 0 <= i < j ==> !IsGood(h[i]) {
      TokenWithoutRefresh(auth, before);
    }
  }

  lemma {:induction false} TokenWithoutRefresh(auth: string, h: History)
    requires forall i :: 0 <= i < |h| ==> !IsGood(h[i])
    ensures TokenOf(auth, h) == auth
  {
    if h != [] {
      TokenWithoutRefresh(auth, h[..|h| - 1]);
    }
  }

  /** The refresh function is called only right after a 401, only if there is one, and never after it has succeeded. */
  lemma RefreshesAreJustified(w: World, m: int, auth: string, h: History, j: nat)
    requires m >= 1 && Legal(w, m, auth, h) && j < |h| && h[j].Refreshed?
    ensures w.canRefresh && j > 0 && h[j - 1].Sent? && h[j - 1].reply == Status(401)
    ensures forall i :: 0 <= i < j ==> !IsGood(h[i])
  {
    var before := h[..j];
    LegalAt(w, m, auth, h, j);
    NoRefreshKeepsToken(auth, before);
    forall i | 0 <= i < j
      ensures !IsGood(h[i])
    {
      assert h[i] == before[i];
    }
  }

  /** The request at `j` failed, and a refresh may answer it: a 401, with a refresh function that has not succeeded yet. */
  predicate Refreshable(w: World, h: History, j: nat)
    requires j < |h|
  {
    h[j].Sent? && h[j].reply == Status(401) && w.canRefresh && forall i :: 0 <= i < j ==> !IsGood(h[i])
  }

  predicate Fails(e: Event)
  {
    (e.Sent? && !e.reply.Accepted?) || e == Refreshed(None)
  }

  /**
   What follows each event of a complete call: a refresh after exactly the refreshable
   failures, a request right after a new token or a full wait, a wait after any other
   failure as long as attempts are left, and nothing after the rest.
   */
  lemma WhatFollows(w: World, m: int, auth: string, h: History, j: nat)
    requires m >= 1 && Complete(w, m, auth, h) && j < |h|
    ensures j + 1 < |h| && h[j + 1].Refreshed? <==> Refreshable(w, h, j)
    ensures j + 1 < |h| && h[j + 1].Sent? <==> IsGood(h[j]) || (h[j].Waited? && h[j].completed)
    ensures j + 1 < |h| && h[j + 1].Waited? <==>
      Fails(h[j]) && !Refreshable(w, h, j) && TallyOf(h[..j + 1]).waits < m - 1
  {
    var before := h[..j + 1];
    NextIsAfter(w, m, auth, h, j);
    LegalIsBalanced(w, m, auth, before);
    if h[j].Sent? {
      GoodSoFar(h, j);
    }
  }

  lemma NextIsAfter(w: World, m: int, auth: string, h: History, j: nat)
    requires Complete(w, m, auth, h) && j < |h|
    ensures Legal(w, m, auth, h[..j + 1])
    ensures After(w, m, TokenOf(auth, h[..j + 1]), TallyOf(h[..j + 1]), h[j]) == if j + 1 < |h| then Some(h[j + 1]) else None
  {
    if j + 1 < |h| {
      LegalAt(w, m, auth, h, j + 1);
    } else {
      assert h[..j + 1] == h;
    }
  }

  /** No refresh had succeeded before the request at `j` exactly when none is in the tally. */
  lemma GoodSoFar(h: History, j: nat)
    requires j < |h| && h[j].Sent?
    ensures TallyOf(h[..j + 1]).good == 0 <==> forall i :: 0 <= i < j ==> !IsGood(h[i])
  {
    var before := h[..j + 1];
    TallyCounts(before);
    if TallyOf(before).good == 0 {
      assert forall i :: 0 <= i < j ==> (IsGood(h[i]) ==> i in Where(before, IsGood));
    } else {
      var i :| i in Where(before, IsGood);
      assert before[i] == h[i] && i != j;
    }
  }

  predicate IsSend(e: Event) { e.Sent? }
  predicate IsBad(e: Event) { e == Refreshed(None) }
  predicate IsWait(e: Event) { e.Waited? }

  /** Where in the history the events of a kind are. */
  function Where(h: History, p: Event -> bool): set<int>
  {
    set i | 0 <= i < |h| && p(h[i])
  }

  /** The tally counts the events of each kind. */
  lemma {:induction false} TallyCounts(h: History)
    ensures TallyOf(h) == Tally(|Where(h, IsSend)|, |Where(h, IsGood)|, |Where(h, IsBad)|, |Where(h, IsWait)|)
  {
    if h != [] {
      TallyCounts(h[..|h| - 1]);
      CountLast(h, IsSend);
      CountLast(h, IsGood);
      CountLast(h, IsBad);
      CountLast(h, IsWait);
    }
  }

  lemma CountLast(h: History, p: Event -> bool)
    requires h != []
    ensures |Where(h, p)| == |Where(h[..|h| - 1], p)| + if p(h[|h| - 1]) then 1 else 0
  {
    var last := |h| - 1;
    var init := Where(h[..last], p);
    assert Where(h, p) == if p(h[last]) then init + {last} else init;
  }

  /**
   The world is asked in order: each request is answered by the world's next reply for
   the token it carries, and the calls of the refresh function and the waits likewise.
   */
  lemma WorldIsAskedInOrder(w: World, m: int, auth: string, h: History, j: nat)
    requires m >= 1 && Legal(w, m, auth, h) && j < |h|
    ensures var t := TallyOf(h[..j]);
      match h[j]
      case Sent(token, reply) => reply == w.reply(t.sends, token)
      case Refreshed(jwt) => jwt == w.refresh(t.good + t.bad)
      case Waited(delay, completed) => delay == Delay(w.draw(t.waits)) && completed == !w.cut(t.waits)
  {
    LegalAt(w, m, auth, h, j);
  }

  /**
   The retry after a refresh is free: when the backend rejects the caller's
   token with a 401, the refresh succeeds and the backend takes the new token,
   the call succeeds with two sends and no wait, even with a single attempt.
   */
  lemma RefreshIsFree(w: World, m: int, auth: string, h: History, jwt: string, header: string)
    requires m >= 1 && Complete(w, m, auth, h) && w.canRefresh
    requires w.reply(0, auth) == Status(401) && w.refresh(0) == Some(jwt) && w.reply(1, jwt) == Accepted(header)
    ensures h == [Sent(auth, Status(401)), Refreshed(Some(jwt)), Sent(jwt, Accepted(header))]
  {
    var h0: History := [];
    var e1, e2, e3 := Sent(auth, Status(UNAUTHORIZED)), Refreshed(Some(jwt)), Sent(jwt, Accepted(header));
    Extend(w, m, auth, h0, e1);
    var h1 := h0 + [e1];
    Extend(w, m, auth, h1, e2);
    var h2 := h1 + [e2];
    Extend(w, m, auth, h2, e3);
    var h3 := h2 + [e3];
    HistoriesAgree(w, m, auth, h3, h);
    HistoriesAgree(w, m, auth, h, h3);
  }

  // ------------------------------------------------------------ the code

  datatype Failure = NilData | Marshal | Cancelled | Exhausted

  datatype Result = Ok(token: string) | Err(failure: Failure)

  /** The last request was accepted, and its response carried `header`. */
  predicate AcceptedWith(h: History, header: string)
  {
    h != [] && h[|h| - 1].Sent? && h[|h| - 1].reply == Accepted(header)
  }

  /** What the call answers: the header of the accepted response, the cancellation, or that all attempts failed. */
  ghost predicate Answers(h: History, result: Result)
  {
    match result
    case Ok(token) => AcceptedWith(h, token)
    case Err(failure) =>
      && h != [] && !(h[|h| - 1].Sent? && h[|h| - 1].reply.Accepted?)
      && failure == if h[|h| - 1].Waited? then Cancelled else Exhausted
  }

  function TokenAfter(token: string, e: Event): string
  {
    if IsGood(e) then e.jwt.value else token
  }

  /** A point of a call: the history so far, its tally, the token in use, and the event that comes next, if any. */
  type Points = (History, Tally, string, Option<Event>) -> bool

  /** From each point with a next event the call goes on to the point after it. */
  ghost predicate GoesOn(w: World, m: int, points: Points)
  {
    forall h, t, token, e :: points(h, t, token, Some(e)) ==>
      && InStep(m, Add(t, e), e)
      && points(h + [e], Add(t, e), TokenAfter(token, e), After(w, m, TokenAfter(token, e), Add(t, e), e))
  }

  /** The points that the rule on histories allows. */
  ghost predicate Allowed(w: World, m: int, auth: string, h: History, t: Tally, token: string, next: Option<Event>)
  {
    && Legal(w, m, auth, h) && Balanced(m, h)
    && t == TallyOf(h) && token == TokenOf(auth, h) && next == Next(w, m, auth, h)
  }

  lemma AllowedGoesOn(w: World, m: int, auth: string, h: History, t: Tally, token: string, e: Event)
    requires m >= 1 && Allowed(w, m, auth, h, t, token, Some(e))
    ensures InStep(m, Add(t, e), e)
    ensures Allowed(w, m, auth, h + [e], Add(t, e), TokenAfter(token, e), After(w, m, TokenAfter(token, e), Add(t, e), e))
  {
    Extend(w, m, auth, h, e);
    BalancedExtends(w, m, auth, h, e);
  }

  /** `sendOTLPRequestWithRetry`. */
  method SendWithRetry(w: World, maxRetries: int, auth: string) returns (result: Result, h: History)
    ensures Complete(w, Limit(maxRetries), auth, h) && h != []
    ensures result.Ok? ==> h[|h| - 1].Sent? && h[|h| - 1].reply == Accepted(result.token)
    ensures forall token :: result == Ok(token) <==> AcceptedWith(h, token)
    ensures result.Ok? <==> SomeSendAccepted(h)
    ensures result == Err(Cancelled) <==> SomeWaitCut(h)
    ensures result.Ok? || result == Err(Cancelled) || result == Err(Exhausted)
  {
    var m := if maxRetries <= 0 then 1 else maxRetries;
    ghost var points := (h: History, t: Tally, token: string, next: Option<Event>) => Allowed(w, m, auth, h, t, token, next);
    forall h, t, token, e | points(h, t, token, Some(e))
      ensures InStep(m, Add(t, e), e)
      ensures points(h + [e], Add(t, e), TokenAfter(token, e), After(w, m, TokenAfter(token, e), Add(t, e), e))
    {
      AllowedGoesOn(w, m, auth, h, t, token, e);
    }
    result, h := RetryLoop(w, m, auth, points);
    EndsInOneWay(w, m, auth, h);
  }

  /** The loop, over the points of a call; `t` counts what the world has been asked so far. */
  method RetryLoop(w: World, m: int, auth: string, ghost points: Points) returns (result: Result, h: History)
    requires m >= 1 && GoesOn(w, m, points)
    requires points([], Tally(0, 0, 0, 0), auth, Some(Request(w, auth, Tally(0, 0, 0, 0))))
    ensures h != [] && Answers(h, result)
    ensures exists t, token :: points(h, t, token, None)
  {
    var currentAuthToken, jwtRefreshAttempted := auth, false;
    var t := Tally(0, 0, 0, 0);
    h := [];
    var attempt := 1;
    while attempt <= m
      invariant 1 <= attempt <= m
      invariant points(h, t, currentAuthToken, Some(Request(w, currentAuthToken, t)))
      invariant attempt == t.waits + 1 && t.good == if jwtRefreshAttempted then 1 else 0
      decreases m - attempt, if jwtRefreshAttempted then 0 else 1
    {
      var reply := w.reply(t.sends, currentAuthToken);
      h, t := h + [Sent(currentAuthToken, reply)], Add(t, Sent(currentAuthToken, reply));
      if reply.Accepted? {
        return Ok(reply.header), h;
      }
      if reply == Status(UNAUTHORIZED) && !jwtRefreshAttempted && w.canRefresh {
        var newJWT := w.refresh(t.bad);
        h, t := h + [Refreshed(newJWT)], Add(t, Refreshed(newJWT));
        if newJWT.Some? {
          currentAuthToken := newJWT.value;
          jwtRefreshAttempted := true;
          attempt := attempt - 1;
          attempt := attempt + 1;
          continue;
        }
      }
      if attempt >= m {
        break;
      }
      var delay, cut := Delay(w.draw(t.waits)), w.cut(t.waits);
      h, t := h + [Waited(delay, !cut)], Add(t, Waited(delay, !cut));
      if cut {
        return Err(Cancelled), h;
      }
      attempt := attempt + 1;
    }
    result := Err(Exhausted);
  }

  // ------------------------------------------------------------ metrics, then logs

  /** One half of the converted data: nothing to send, not serialisable, or ready. */
  datatype Part = Absent | Unmarshalable | Ready

  /** The half handed back `token`. */
  predicate HandsBack(h: History, token: string)
  {
    token != "" && AcceptedWith(h, token)
  }

  /**
   `Send`. Both halves start from the caller's token. The logs go out whatever
   became of the metrics, and they alone decide success. The returned token is
   the last one handed back by an accepted request.
   */
  method SendData(present: bool, metrics: Part, logs: Part, forMetrics: World, forLogs: World, maxRetries: int, auth: string)
    returns (newToken: string, failure: Option<Failure>, mh: History, lh: History)
    ensures mh != [] <==> present && metrics.Ready?
    ensures lh != [] <==> present && !metrics.Unmarshalable? && logs.Ready?
    ensures mh != [] ==> Complete(forMetrics, Limit(maxRetries), auth, mh)
    ensures lh != [] ==> Complete(forLogs, Limit(maxRetries), auth, lh)
    ensures failure == None <==> present && !metrics.Unmarshalable? && !logs.Unmarshalable? && (logs.Ready? ==> SomeSendAccepted(lh))
    ensures failure == Some(NilData) <==> !present
    ensures failure == Some(Cancelled) <==> SomeWaitCut(lh)
    ensures failure == Some(Marshal) <==> present && (metrics.Unmarshalable? || logs.Unmarshalable?)
    ensures forall token :: HandsBack(lh, token) ==> newToken == token
    ensures forall token :: HandsBack(mh, token) && (forall other :: !HandsBack(lh, other)) ==> newToken == token
    ensures (forall token :: !HandsBack(lh, token) && !HandsBack(mh, token)) ==> newToken == ""
  {
    newToken, mh, lh := "", [], [];
    if !present {
      return newToken, Some(NilData), mh, lh;
    }
    if metrics.Unmarshalable? {
      return newToken, Some(Marshal), mh, lh;
    }
    if metrics.Ready? {
      var result;
      result, mh := SendWithRetry(forMetrics, maxRetries, auth);
      if result.Ok? && result.token != "" {
        newToken := result.token;
        assert HandsBack(mh, newToken);
      }
    }
    assert forall token :: HandsBack(mh, token) ==> newToken == token;
    if logs.Unmarshalable? {
      return newToken, Some(Marshal), mh, lh;
    }
    if logs.Ready? {
      var result;
      result, lh := SendWithRetry(forLogs, maxRetries, auth);
      EndsInOneWay(forLogs, Limit(maxRetries), auth, lh);
      if result.Err? {
        return newToken, Some(result.failure), mh, lh;
      }
      if result.token != "" {
        newToken := result.token;
        assert HandsBack(lh, newToken);
      }
    }
    failure := None;
  }
}
