/**
 The shared-JWT protocol of the collector's SAK authenticator
 (otelcol/auth/sakauth/extension.go), as atomic steps of any number of
 concurrent round trips over one stored token.

 A token is the string the backend issued.  The state also carries what the
 program cannot see: the issue number of every token minted so far, and the set
 of tokens that have ever been stored.  The hypotheses on the backend are in
 `Enabled`: a minted token is a new non-empty string, and a token carried by a
 response header is either absent, an echo of the token the request used, or
 minted for that one response.  `Init` says that `Start` has completed.
 */
module SakAuth {
  import opened Prelude

  type Token = string
  type TripId = nat

  /** What held when a holder of `refreshMu` passed the stale check. */
  datatype Window = Window(clock: nat, stored: Token)

  /** Where one round trip is.  `used` is the token its first request carried. */
  datatype Pc =
    | Sending(used: Token)
    | Replied(used: Token, header: Token, unauthorized: bool)
    | Rejected(used: Token)
    | Locked(used: Token)
    | Enrolling(used: Token, open: Window)
    | Minted(used: Token, open: Window, token: Token)
    | Refreshed(used: Token, token: Token)
    | EnrollFailed(used: Token)
    | Retrying(used: Token, token: Token)
    | Finished(used: Token)

  datatype State = State(
    stored: Token,
    lock: Option<TripId>,
    trips: map<TripId, Pc>,
    issue: map<Token, nat>,
    clock: nat,
    history: set<Token>)

  datatype Step =
    | Begin(t: TripId)                                      // 203-206: read the token, send
    | BaseError(t: TripId)                                  // 207-209
    | Reply(t: TripId, header: Token, unauthorized: bool)   // the backend answers
    | HeaderSection(t: TripId)                              // 219-229: compare-and-swap, then the status test
    | Abandon(t: TripId)                                    // 237-243: the body cannot be replayed
    | Lock(t: TripId)                                       // 130
    | StaleCheck(t: TripId)                                 // 135-137
    | EnrollMint(t: TripId, token: Token)                   // 139, success
    | EnrollError(t: TripId)                                // 139-142, failure
    | Store(t: TripId)                                      // 149-151
    | Unlock(t: TripId)                                     // 131
    | Retry(t: TripId)                                      // 250-253
    | ForeignMint(token: Token)                             // a token issued to nobody modelled here

  /** The header refresh installs only over the token the request used. */
  function AfterHeader(stored: Token, used: Token, header: Token): (r: Token)
  {
    if header != "" && header != used && stored == used then header else stored
  }

  predicate Current(stored: Token, stale: Token)
  {
    stored != "" && stored != stale
  }

  predicate Fresh(s: State, token: Token)
  {
    token != "" && token !in s.issue
  }

  predicate Holds(pc: Pc)
  {
    pc.Locked? || pc.Enrolling? || pc.Minted? || pc.Refreshed? || pc.EnrollFailed?
  }

  predicate At(s: State, t: TripId)
  {
    t in s.trips
  }

  predicate Enabled(s: State, e: Step)
  {
    match e
    case Begin(t) => t !in s.trips
    case BaseError(t) => At(s, t) && s.trips[t].Sending?
    case Reply(t, header, _) =>
      && At(s, t) && s.trips[t].Sending?
      && (header == "" || header == s.trips[t].used || Fresh(s, header))
    case HeaderSection(t) => At(s, t) && s.trips[t].Replied?
    case Abandon(t) => At(s, t) && s.trips[t].Rejected?
    case Lock(t) => At(s, t) && s.trips[t].Rejected? && s.lock.None?
    case StaleCheck(t) => At(s, t) && s.trips[t].Locked?
    case EnrollMint(t, token) => At(s, t) && s.trips[t].Enrolling? && Fresh(s, token)
    case EnrollError(t) => At(s, t) && (s.trips[t].Enrolling? || s.trips[t].Minted?)
    case Store(t) => At(s, t) && s.trips[t].Minted?
    case Unlock(t) => At(s, t) && (s.trips[t].Refreshed? || s.trips[t].EnrollFailed?)
    case Retry(t) => At(s, t) && s.trips[t].Retrying?
    case ForeignMint(token) => Fresh(s, token)
  }

  function Goto(s: State, t: TripId, pc: Pc): State
  {
    s.(trips := s.trips[t := pc])
  }

  function Mint(s: State, token: Token): State
  {
    s.(issue := s.issue[token := s.clock], clock := s.clock + 1)
  }

  function Write(s: State, token: Token): State
  {
    s.(stored := token, history := s.history + {token})
  }

  function Apply(s: State, e: Step): State
    requires Enabled(s, e)
  {
    match e
    case Begin(t) => Goto(s, t, Sending(s.stored))
    case BaseError(t) => Goto(s, t, Finished(s.trips[t].used))
    case Reply(t, header, unauthorized) =>
      var s1 := if Fresh(s, header) then Mint(s, header) else s;
      Goto(s1, t, Replied(s.trips[t].used, header, unauthorized))
    case HeaderSection(t) =>
      var pc := s.trips[t];
      var s1 := Write(s, AfterHeader(s.stored, pc.used, pc.header));
      Goto(s1, t, if pc.unauthorized then Rejected(pc.used) else Finished(pc.used))
    case Abandon(t) => Goto(s, t, Finished(s.trips[t].used))
    case Lock(t) => Goto(s, t, Locked(s.trips[t].used)).(lock := Some(t))
    case StaleCheck(t) =>
      var used := s.trips[t].used;
      Goto(s, t,
        if Current(s.stored, used) then Refreshed(used, s.stored)
        else Enrolling(used, Window(s.clock, s.stored)))
    case EnrollMint(t, token) =>
      Goto(Mint(s, token), t, Minted(s.trips[t].used, s.trips[t].open, token))
    case EnrollError(t) => Goto(s, t, EnrollFailed(s.trips[t].used))
    case Store(t) =>
      Goto(Write(s, s.trips[t].token), t, Refreshed(s.trips[t].used, s.trips[t].token))
    case Unlock(t) =>
      var pc := s.trips[t];
      Goto(s, t, if pc.Refreshed? then Retrying(pc.used, pc.token) else Finished(pc.used)).(lock := None)
    case Retry(t) => Goto(s, t, Finished(s.trips[t].used))
    case ForeignMint(token) => Mint(s, token)
  }

  /** `Start` has enrolled and stored its token; no round trip has begun. */
  predicate Init(s: State)
  {
    && s.trips == map[] && s.lock.None?
    && s.stored != ""
    && s.clock == 1 && s.issue == map[s.stored := 0] && s.history == {s.stored}
  }

  datatype Run = Run(states: seq<State>, steps: seq<Step>)

  ghost predicate IsRun(r: Run)
  {
    && |r.states| == |r.steps| + 1
    && Init(r.states[0])
    && forall i :: 0 <= i < |r.steps| ==> Follows(r.states[i], r.steps[i], r.states[i + 1])
  }

  ghost predicate Follows(s: State, e: Step, s': State)
  {
    Enabled(s, e) && s' == Apply(s, e)
  }

  // ---------------------------------------------------------------- invariant

  /** The token minted for this round trip that it has neither stored nor dropped, or "". */
  function Pending(pc: Pc): Token
  {
    match pc
    case Replied(used, header, _) => if header == used then "" else header
    case Minted(_, _, token) => token
    case _ => ""
  }

  ghost predicate Ledger(s: State)
  {
    && s.stored in s.history
    && s.history <= s.issue.Keys
    && (forall x :: x in s.issue ==> x != "" && s.issue[x] < s.clock)
    && (forall x, y :: x in s.issue && y in s.issue && s.issue[x] == s.issue[y] ==> x == y)
  }

  ghost predicate TripOk(issue: map<Token, nat>, clock: nat, history: set<Token>, pc: Pc)
  {
    && pc.used in history && pc.used in issue
    && (Pending(pc) != "" ==>
          && Pending(pc) in issue && Pending(pc) !in history
          && issue[pc.used] < issue[Pending(pc)])
    && (pc.Enrolling? || pc.Minted? ==>
          pc.open.stored == pc.used && issue[pc.used] < pc.open.clock <= clock)
    && (pc.Minted? ==> pc.token in issue && pc.token != "" && issue[pc.token] >= pc.open.clock)
    && (pc.Refreshed? || pc.Retrying? ==> pc.token in history && pc.token != pc.used)
  }

  ghost predicate TripsOk(s: State)
  {
    forall t :: t in s.trips ==> TripOk(s.issue, s.clock, s.history, s.trips[t])
  }

  ghost predicate PendingApart(trips: map<TripId, Pc>)
  {
    forall t, u :: t in trips && u in trips && t != u && Pending(trips[t]) != "" ==>
      Pending(trips[t]) != Pending(trips[u])
  }

  ghost predicate LockOk(lock: Option<TripId>, trips: map<TripId, Pc>)
  {
    && (lock.Some? ==> lock.value in trips)
    && forall t :: t in trips ==> (Holds(trips[t]) <==> lock == Some(t))
  }

  ghost predicate Inv(s: State)
  {
    Ledger(s) && TripsOk(s) && PendingApart(s.trips) && LockOk(s.lock, s.trips)
  }

  ghost predicate Carried(s: State, token: Token)
  {
    exists t :: t in s.trips && Pending(s.trips[t]) == token
  }

  ghost predicate Ok(s: State, pc: Pc)
  {
    TripOk(s.issue, s.clock, s.history, pc)
  }

  lemma InitKeepsInv(s: State)
    requires Init(s)
    ensures Inv(s)
  {
  }

  /** A round trip moves on without touching the lock; a token it now carries was its own or nobody's. */
  lemma MoveKeepsInv(s: State, t: TripId, pc: Pc)
    requires Inv(s) && t in s.trips && Ok(s, pc)
    requires Pending(pc) == "" || Pending(pc) == Pending(s.trips[t]) || !Carried(s, Pending(pc))
    requires Holds(pc) <==> Holds(s.trips[t])
    ensures Inv(Goto(s, t, pc))
  {
    var trips := s.trips[t := pc];
    assert PendingApart(trips) by {
      forall u, v | u in trips && v in trips && u != v && Pending(trips[u]) != ""
        ensures Pending(trips[u]) != Pending(trips[v])
      {
      }
    }
    assert LockOk(s.lock, trips);
  }

  lemma MintKeepsInv(s: State, token: Token)
    requires Inv(s) && Fresh(s, token)
    ensures Inv(Mint(s, token)) && !Carried(Mint(s, token), token)
  {
    var s' := Mint(s, token);
    forall t | t in s.trips
      ensures Ok(s', s.trips[t]) && token != Pending(s.trips[t])
    {
      assert Ok(s, s.trips[t]);
    }
  }

  /** Storing a minted token that no round trip still carries. */
  lemma WriteKeepsInv(s: State, token: Token)
    requires Inv(s) && token in s.issue && !Carried(s, token)
    ensures Inv(Write(s, token))
  {
  }

  /** Where a round trip waits once it has let go of its pending token. */
  function Parked(pc: Pc): Pc
  {
    if Holds(pc) then EnrollFailed(pc.used) else Finished(pc.used)
  }

  /** Once dropped, a stored token or the dropped one is carried by nobody. */
  lemma ParkKeepsInv(s: State, t: TripId, token: Token)
    requires Inv(s) && t in s.trips && token in s.issue
    requires token in s.history || token == Pending(s.trips[t])
    ensures Inv(Goto(s, t, Parked(s.trips[t])))
    ensures !Carried(Goto(s, t, Parked(s.trips[t])), token)
  {
    assert Ok(s, s.trips[t]);
    MoveKeepsInv(s, t, Parked(s.trips[t]));
    forall u | u in s.trips && u != t
      ensures token != Pending(s.trips[u])
    {
      assert Ok(s, s.trips[u]);
    }
  }

  /** A round trip drops its pending token and, perhaps, stores it. */
  lemma SettleKeepsInv(s: State, t: TripId, pc: Pc, token: Token)
    requires Inv(s) && t in s.trips && token in s.issue
    requires token in s.history || token == Pending(s.trips[t])
    requires Pending(pc) == "" && (Holds(pc) <==> Holds(s.trips[t]))
    requires Ok(Write(s, token), pc)
    ensures Inv(Goto(Write(s, token), t, pc))
  {
    ParkKeepsInv(s, t, token);
    var s1 := Goto(s, t, Parked(s.trips[t]));
    var s2 := Write(s1, token);
    WriteKeepsInv(s1, token);
    assert Ok(s2, pc);
    MoveKeepsInv(s2, t, pc);
    GotoOverwrites(s, t, Parked(s.trips[t]), pc, token);
  }

  lemma GotoOverwrites(s: State, t: TripId, first: Pc, second: Pc, token: Token)
    ensures Goto(Write(Goto(s, t, first), token), t, second) == Goto(Write(s, token), t, second)
  {
    assert s.trips[t := first][t := second] == s.trips[t := second];
  }

  /** A token minted for a round trip is newer than the one its request used, and not stored. */
  lemma MintedIsNewer(s: State, used: Token, token: Token)
    requires Ledger(s) && used in s.history && Fresh(s, token)
    ensures var s' := Mint(s, token);
      used in s'.issue && token in s'.issue && token !in s'.history && s'.issue[used] < s'.issue[token] == s.clock
  {
  }

  lemma FreshReplyKeepsInv(s: State, t: TripId, header: Token, unauthorized: bool)
    requires Inv(s) && t in s.trips && s.trips[t].Sending? && Fresh(s, header)
    ensures Inv(Goto(Mint(s, header), t, Replied(s.trips[t].used, header, unauthorized)))
  {
    MintKeepsInv(s, header);
    var s' := Mint(s, header);
    assert Ok(s', s'.trips[t]);
    MintedIsNewer(s, s.trips[t].used, header);
    MoveKeepsInv(s', t, Replied(s.trips[t].used, header, unauthorized));
  }

  lemma ReplyKeepsInv(s: State, t: TripId, header: Token, unauthorized: bool)
    requires Inv(s) && Enabled(s, Reply(t, header, unauthorized))
    ensures Inv(Apply(s, Reply(t, header, unauthorized)))
  {
    if Fresh(s, header) {
      FreshReplyKeepsInv(s, t, header, unauthorized);
    } else {
      assert Ok(s, s.trips[t]);
      MoveKeepsInv(s, t, Replied(s.trips[t].used, header, unauthorized));
    }
  }

  lemma HeaderKeepsInv(s: State, t: TripId)
    requires Inv(s) && Enabled(s, HeaderSection(t))
    ensures Inv(Apply(s, HeaderSection(t)))
  {
    var pc := s.trips[t];
    assert Ok(s, pc);
    SettleKeepsInv(s, t, if pc.unauthorized then Rejected(pc.used) else Finished(pc.used),
      AfterHeader(s.stored, pc.used, pc.header));
  }

  lemma BeginKeepsInv(s: State, t: TripId)
    requires Inv(s) && t !in s.trips
    ensures Inv(Goto(s, t, Sending(s.stored)))
  {
    assert LockOk(s.lock, s.trips[t := Sending(s.stored)]);
  }

  /** `refreshMu` passes to `t`, or back from it; nobody else holds it before or after. */
  lemma HandOverKeepsInv(s: State, t: TripId, pc: Pc, lock: Option<TripId>)
    requires Inv(s) && t in s.trips && Ok(s, pc) && Pending(pc) == ""
    requires lock == if Holds(pc) then Some(t) else None
    requires s.lock == None || s.lock == Some(t)
    ensures Inv(Goto(s, t, pc).(lock := lock))
  {
    var s' := Goto(s, t, pc).(lock := lock);
    assert PendingApart(s'.trips);
    assert LockOk(s'.lock, s'.trips) by {
      forall u | u in s'.trips
        ensures Holds(s'.trips[u]) <==> s'.lock == Some(u)
      {
        assert u != t ==> !Holds(s.trips[u]);
      }
    }
  }

  lemma LockKeepsInv(s: State, t: TripId)
    requires Inv(s) && Enabled(s, Lock(t))
    ensures Inv(Apply(s, Lock(t)))
  {
    assert Ok(s, s.trips[t]);
    HandOverKeepsInv(s, t, Locked(s.trips[t].used), Some(t));
  }

  lemma UnlockKeepsInv(s: State, t: TripId)
    requires Inv(s) && Enabled(s, Unlock(t))
    ensures Inv(Apply(s, Unlock(t)))
  {
    assert Ok(s, s.trips[t]);
    assert Holds(s.trips[t]);
    HandOverKeepsInv(s, t, Apply(s, Unlock(t)).trips[t], None);
  }

  lemma StaleCheckKeepsInv(s: State, t: TripId)
    requires Inv(s) && Enabled(s, StaleCheck(t))
    ensures Inv(Apply(s, StaleCheck(t)))
  {
    assert Ok(s, s.trips[t]);
    MoveKeepsInv(s, t, Apply(s, StaleCheck(t)).trips[t]);
  }

  lemma EnrollKeepsInv(s: State, t: TripId, token: Token)
    requires Inv(s) && Enabled(s, EnrollMint(t, token))
    ensures Inv(Apply(s, EnrollMint(t, token)))
  {
    MintKeepsInv(s, token);
    var s', pc := Mint(s, token), s.trips[t];
    assert Ok(s', s'.trips[t]);
    MintedIsNewer(s, pc.used, token);
    MoveKeepsInv(s', t, Minted(pc.used, pc.open, token));
  }

  lemma StoreKeepsInv(s: State, t: TripId)
    requires Inv(s) && Enabled(s, Store(t))
    ensures Inv(Apply(s, Store(t)))
  {
    var pc := s.trips[t];
    assert Ok(s, pc);
    SettleKeepsInv(s, t, Refreshed(pc.used, pc.token), pc.token);
  }

  lemma FinishKeepsInv(s: State, t: TripId, pc: Pc)
    requires Inv(s) && t in s.trips
    requires pc == Finished(s.trips[t].used) || pc == EnrollFailed(s.trips[t].used)
    requires Holds(pc) <==> Holds(s.trips[t])
    ensures Inv(Goto(s, t, pc))
  {
    assert Ok(s, s.trips[t]);
    MoveKeepsInv(s, t, pc);
  }

  /** Every step of every round trip keeps the invariant. */
  lemma StepKeepsInv(s: State, e: Step)
    requires Inv(s) && Enabled(s, e)
    ensures Inv(Apply(s, e))
  {
    match e
    case Begin(t) => BeginKeepsInv(s, t);
    case BaseError(t) => FinishKeepsInv(s, t, Finished(s.trips[t].used));
    case Reply(t, header, unauthorized) => ReplyKeepsInv(s, t, header, unauthorized);
    case HeaderSection(t) => HeaderKeepsInv(s, t);
    case Abandon(t) => FinishKeepsInv(s, t, Finished(s.trips[t].used));
    case Lock(t) => LockKeepsInv(s, t);
    case StaleCheck(t) => StaleCheckKeepsInv(s, t);
    case EnrollMint(t, token) => EnrollKeepsInv(s, t, token);
    case EnrollError(t) => FinishKeepsInv(s, t, EnrollFailed(s.trips[t].used));
    case Store(t) => StoreKeepsInv(s, t);
    case Unlock(t) => UnlockKeepsInv(s, t);
    case Retry(t) => FinishKeepsInv(s, t, Finished(s.trips[t].used));
    case ForeignMint(token) => MintKeepsInv(s, token);
  }

  // ---------------------------------------------------------------- the object

  /** The extension's own field and the critical sections that touch it. */
  class Extension {
    var jwt: Token

    constructor ()
      ensures jwt == ""
    {
      jwt := "";
    }

    /** `Start`: a failed enrollment leaves the field as it was. */
    method Start(enrollment: Option<Token>) returns (ok: bool)
      modifies this
      ensures ok <==> enrollment.Some?
      ensures jwt == if ok then enrollment.value else old(jwt)
    {
      if enrollment.None? {
        return false;
      }
      jwt := enrollment.value;
      ok := true;
    }

    method GetJwt() returns (token: Token)
      ensures token == jwt
    {
      token := jwt;
    }

    /** The section of `RoundTrip` guarded by `mu`: the machine's `HeaderSection`. */
    method InstallHeaderToken(used: Token, header: Token)
      modifies this
      ensures jwt == AfterHeader(old(jwt), used, header)
      ensures header != "" && header != used && old(jwt) == used ==> jwt == header
      ensures header == "" || header == used || old(jwt) != used ==> jwt == old(jwt)
    {
      if header != "" && header != used {
        if jwt == used {
          jwt := header;
        }
      }
    }

    /**
     `refreshJWT` from lock to unlock; `landing` are the header sections that run
     while its enrollment is in flight.  The enrollment's token wins over them.
     */
    method RefreshJwt(stale: Token, landing: seq<Header>, enrollment: Option<Token>) returns (token: Option<Token>)
      modifies this
      ensures old(jwt) != "" && old(jwt) != stale ==> jwt == old(jwt) && token == Some(jwt)
      ensures old(jwt) == "" || old(jwt) == stale ==> token == enrollment
      ensures old(jwt) == "" || old(jwt) == stale ==>
        jwt == if enrollment.Some? then enrollment.value else Installed(old(jwt), landing)
      ensures token.Some? ==> token.value == jwt
    {
      var current := GetJwt();
      if Current(current, stale) {
        return Some(current);
      }
      ghost var before := jwt;
      var i := 0;
      while i < |landing|
        invariant 0 <= i <= |landing| && jwt == Installed(before, landing[..i])
      {
        assert landing[..i + 1][..i] == landing[..i];
        InstallHeaderToken(landing[i].used, landing[i].token);
        i := i + 1;
      }
      assert landing[..i] == landing;
      if enrollment.None? {
        return None;
      }
      jwt := enrollment.value;
      token := enrollment;
    }
  }

  /** A response header with the token its request used. */
  datatype Header = Header(used: Token, token: Token)

  /** The stored token after a series of header sections. */
  function Installed(stored: Token, headers: seq<Header>): Token
  {
    if headers == [] then stored
    else
      var last := headers[|headers| - 1];
      AfterHeader(Installed(stored, headers[..|headers| - 1]), last.used, last.token)
  }

  /** However many responses to requests that used one token come back, only the first new token is installed. */
  lemma {:induction false} FirstHeaderWins(stored: Token, headers: seq<Header>)
    requires forall i :: 0 <= i < |headers| ==> headers[i].used == stored
    ensures Installed(stored, headers) == stored || exists i :: FirstNew(stored, headers, i, Installed(stored, headers))
    ensures Installed(stored, headers) == stored ==> forall i :: 0 <= i < |headers| ==> headers[i].token in {"", stored}
  {
    if headers != [] {
      var last := |headers| - 1;
      var before := headers[..last];
      FirstHeaderWins(stored, before);
      var now := Installed(stored, headers);
      if Installed(stored, before) != stored {
        var i :| FirstNew(stored, before, i, Installed(stored, before));
        assert FirstNew(stored, headers, i, now);
      } else if now != stored {
        assert FirstNew(stored, headers, last, now);
      }
    }
  }

  /** The header at `i` carries `token` and no earlier one carries a new token. */
  ghost predicate FirstNew(stored: Token, headers: seq<Header>, i: int, token: Token)
  {
    && 0 <= i < |headers| && headers[i].token == token && token != "" && token != stored
    && forall k :: 0 <= k < i ==> headers[k].token in {"", stored}
  }
}
