/**
 The attestation workflow (internal/attestation/manager.go, CollectOnce) as the
 sequence of external actions one attempt performs, and runs in which any number
 of attempts interleave and may be cut off anywhere by a timeout.
 */
module Attestation {
  import opened Prelude

  datatype Nonce = Nonce(value: string, refreshTS: int, refreshedJWT: string)

  /** The outcome of the evidence collector: an error message or none, and a response if there is one. */
  datatype Evidence = Evidence(error: Option<string>, response: Option<string>)

  /** What the providers answer during one attempt. */
  datatype Env = Env(
    agentUUID: Option<string>,
    jwt: Option<string>,
    nonce: Option<Nonce>,
    persists: bool,
    evidence: Evidence,
    submits: bool,
    now: int)

  datatype Result = Result(
    collectedAt: int,
    agentUUID: string,
    nonceRefreshTS: int,
    success: bool,
    errorMessage: string,
    response: Option<string>)

  datatype Event =
    | Persist(jwt: string)
    | Collect(nonce: string)
    | Submit(result: Result, jwt: string)

  /** What `CollectOnce` returns. */
  datatype Returned = Returned(result: Option<Result>, failed: bool)

  predicate HasNonce(env: Env)
  {
    env.agentUUID.Some? && env.jwt.Some? && env.nonce.Some?
  }

  /** The nonce reply carries a token that differs from the one just used. */
  predicate Rotates(env: Env)
  {
    HasNonce(env) && env.nonce.value.refreshedJWT != "" && env.nonce.value.refreshedJWT != env.jwt.value
  }

  /** The attempt gets as far as collecting evidence. */
  predicate Collects(env: Env)
  {
    HasNonce(env) && (Rotates(env) ==> env.persists)
  }

  function EffectiveJWT(env: Env): string
    requires HasNonce(env)
  {
    if Rotates(env) then env.nonce.value.refreshedJWT else env.jwt.value
  }

  function ResultOf(env: Env): Result
    requires HasNonce(env)
  {
    Result(env.now, env.agentUUID.value, env.nonce.value.refreshTS, env.evidence.error.None?,
           if env.evidence.error.Some? then env.evidence.error.value else "", env.evidence.response)
  }

  /** The external actions of one attempt, in order. */
  function Events(env: Env): seq<Event>
  {
    (if Rotates(env) then [Persist(env.nonce.value.refreshedJWT)] else [])
    + (if Collects(env) then [Collect(env.nonce.value.value), Submit(ResultOf(env), EffectiveJWT(env))] else [])
  }

  /** What the result must say, from what the providers answered. */
  function Report(env: Env, uuid: string, nonce: Nonce): Result
  {
    match env.evidence.error
    case None => Result(env.now, uuid, nonce.refreshTS, true, "", env.evidence.response)
    case Some(message) => Result(env.now, uuid, nonce.refreshTS, false, message, env.evidence.response)
  }

  /**
   An attempt with an identity, a token and a nonce.  A refreshed token that differs is
   persisted first, and if that fails nothing else happens.  Then the nonce's own value
   goes to the collector, and the result is recorded and submitted with the token now in
   force, whether or not the collection succeeded.
   */
  ghost predicate Performs(before: seq<Event>, env: Env, jwt: string, nonce: Nonce, events: seq<Event>,
                           lastResult: Option<Result>, r: Returned)
    requires env.agentUUID.Some?
  {
    var report := Report(env, env.agentUUID.value, nonce);
    if nonce.refreshedJWT == "" || nonce.refreshedJWT == jwt then
      && events == before + [Collect(nonce.value), Submit(report, jwt)]
      && lastResult == Some(report)
      && r == Returned(if env.submits then Some(report) else None, env.evidence.error.Some? || !env.submits)
    else if !env.persists then
      events == before + [Persist(nonce.refreshedJWT)] && r == Returned(None, true)
    else
      && events == before + [Persist(nonce.refreshedJWT), Collect(nonce.value), Submit(report, nonce.refreshedJWT)]
      && lastResult == Some(report)
      && r == Returned(if env.submits then Some(report) else None, env.evidence.error.Some? || !env.submits)
  }

  class Manager {
    var lastResult: Option<Result>
    var lastUpdated: Option<int>
    var events: seq<Event>

    constructor ()
      ensures lastResult.None? && lastUpdated.None? && events == []
    {
      lastResult, lastUpdated, events := None, None, [];
    }

    method CollectOnce(env: Env) returns (r: Returned)
      modifies this
      ensures events == old(events) + Events(env)
      ensures env.agentUUID.None? || env.jwt.None? || env.nonce.None? ==>
        events == old(events) && r == Returned(None, true) && lastResult == old(lastResult)
      ensures env.agentUUID.Some? && env.jwt.Some? && env.nonce.Some? ==>
        Performs(old(events), env, env.jwt.value, env.nonce.value, events, lastResult, r)
      ensures lastResult == if Collects(env) then Some(ResultOf(env)) else old(lastResult)
      ensures lastUpdated == if Collects(env) then Some(env.now) else old(lastUpdated)
      ensures !r.failed <==> Collects(env) && env.evidence.error.None? && env.submits
      ensures r.result == if Collects(env) && env.submits then Some(ResultOf(env)) else None
    {
      var fail := Returned(None, true);
      if env.agentUUID.None? {
        return fail;
      }
      if env.jwt.None? {
        return fail;
      }
      if env.nonce.None? {
        return fail;
      }
      var jwt, nonce := env.jwt.value, env.nonce.value;
      if nonce.refreshedJWT != "" && nonce.refreshedJWT != jwt {
        events := events + [Persist(nonce.refreshedJWT)];
        if !env.persists {
          return fail;
        }
        jwt := nonce.refreshedJWT;
      }
      events := events + [Collect(nonce.value)];
      var result := Result(env.now, env.agentUUID.value, nonce.refreshTS, false, "", None);
      if env.evidence.error.Some? {
        result := result.(errorMessage := env.evidence.error.value);
      } else {
        result := result.(success := true);
      }
      if env.evidence.response.Some? {
        result := result.(response := env.evidence.response);
      }
      lastResult, lastUpdated := Some(result), Some(env.now);
      events := events + [Submit(result, jwt)];
      if !env.submits {
        return fail;
      }
      r := Returned(Some(result), env.evidence.error.Some?);
    }
  }

  // ------------------------------------------------------------ runs of attempts

  /** The workflow submits exactly when it has what it needs and no rotated token is lost: a failed collection does not stop it. */
  lemma SubmitsIff(env: Env)
    ensures (exists p :: 0 <= p < |Events(env)| && Events(env)[p].Submit?) <==>
      && env.agentUUID.Some? && env.jwt.Some? && env.nonce.Some?
      && (env.nonce.value.refreshedJWT in {"", env.jwt.value} || env.persists)
  {
    if Collects(env) {
      assert Events(env)[|Events(env)| - 1].Submit?;
    }
  }

  datatype Action = Action(attempt: nat, event: Event)

  /** The actions of one attempt, in the order they happened. */
  function Project(run: seq<Action>, k: nat): seq<Event>
  {
    if run == [] then []
    else
      var last := run[|run| - 1];
      Project(run[..|run| - 1], k) + if last.attempt == k then [last.event] else []
  }

  /** Attempts interleave freely; each has performed some prefix of its own workflow. */
  ghost predicate IsRun(run: seq<Action>, envs: map<nat, Env>)
  {
    && (forall i :: 0 <= i < |run| ==> run[i].attempt in envs)
    && (forall k :: k in envs ==> Project(run, k) <= Events(envs[k]))
  }

  lemma {:induction false} ProjectPrefix(run: seq<Action>, i: nat, k: nat)
    requires i <= |run|
    ensures Project(run[..i], k) <= Project(run, k)
    decreases |run|
  {
    if i < |run| {
      assert run[..|run| - 1][..i] == run[..i];
      ProjectPrefix(run[..|run| - 1], i, k);
    } else {
      assert run[..i] == run;
    }
  }

  /** Where the action at index `i` sits in its attempt's own workflow. */
  function Position(run: seq<Action>, i: nat): nat
    requires i < |run|
  {
    |Project(run[..i], run[i].attempt)|
  }

  lemma PositionHolds(run: seq<Action>, i: nat, envs: map<nat, Env>)
    requires IsRun(run, envs) && i < |run|
    ensures run[i].attempt in envs
    ensures var evs := Events(envs[run[i].attempt]);
      Position(run, i) < |evs| && evs[Position(run, i)] == run[i].event
  {
    var k := run[i].attempt;
    assert run[..i + 1][..i] == run[..i];
    assert Project(run[..i + 1], k) == Project(run[..i], k) + [run[i].event];
    ProjectPrefix(run, i + 1, k);
  }

  lemma PositionsRise(run: seq<Action>, i: nat, j: nat)
    requires i < j < |run| && run[i].attempt == run[j].attempt
    ensures Position(run, i) < Position(run, j)
  {
    var k := run[i].attempt;
    assert run[..j][..i + 1] == run[..i + 1];
    assert run[..i + 1][..i] == run[..i];
    ProjectPrefix(run[..j], i + 1, k);
  }

  /** The index at which attempt `k` performed the action at position `p`, when some later action has been performed. */
  lemma {:induction false} EarlierAction(run: seq<Action>, k: nat, p: nat) returns (i: nat)
    requires p < |Project(run, k)|
    ensures i < |run| && run[i] == Action(k, Project(run, k)[p]) && Position(run, i) == p
    decreases |run|
  {
    var shorter := run[..|run| - 1];
    if p < |Project(shorter, k)| {
      i := EarlierAction(shorter, k, p);
      assert run[..i] == shorter[..i];
    } else {
      i := |run| - 1;
    }
  }

  /** Each attempt submits at most once. */
  lemma SubmitsAtMostOnce(run: seq<Action>, envs: map<nat, Env>, i: nat, j: nat)
    requires IsRun(run, envs) && i < |run| && j < |run|
    requires run[i].event.Submit? && run[j].event.Submit? && run[i].attempt == run[j].attempt
    ensures i == j
  {
    PositionHolds(run, i, envs);
    PositionHolds(run, j, envs);
    EventShape(envs[run[i].attempt], Position(run, i));
    EventShape(envs[run[i].attempt], Position(run, j));
    if i < j {
      PositionsRise(run, i, j);
    } else if j < i {
      PositionsRise(run, j, i);
    }
  }

  /** Where the actions of a workflow can stand. */
  lemma EventShape(env: Env, p: nat)
    requires p < |Events(env)|
    ensures var e := Events(env)[p];
      && (e.Collect? ==> Collects(env) && p == if Rotates(env) then 1 else 0)
      && (e.Submit? ==> Collects(env) && e == Submit(ResultOf(env), EffectiveJWT(env)) && p == if Rotates(env) then 2 else 1)
      && (Rotates(env) ==> Events(env)[0] == Persist(env.nonce.value.refreshedJWT))
  {
  }

  /** At index `p`, before `c`, attempt `k` persisted `jwt`. */
  predicate PersistedBefore(run: seq<Action>, k: nat, jwt: string, p: int, c: int)
  {
    0 <= p < c <= |run| && run[p] == Action(k, Persist(jwt))
  }

  /** A rotated token is persisted before the evidence is collected. */
  lemma CollectsAfterPersisting(run: seq<Action>, envs: map<nat, Env>, c: nat)
    requires IsRun(run, envs) && c < |run| && run[c].event.Collect?
    ensures run[c].attempt in envs
    ensures var env := envs[run[c].attempt];
      Rotates(env) ==> exists p :: PersistedBefore(run, run[c].attempt, env.nonce.value.refreshedJWT, p, c)
  {
    var k := run[c].attempt;
    PositionHolds(run, c, envs);
    EventShape(envs[k], Position(run, c));
    if Rotates(envs[k]) {
      ProjectPrefix(run, c, k);
      var p := EarlierAction(run[..c], k, 0);
      assert PersistedBefore(run, k, envs[k].nonce.value.refreshedJWT, p, c);
    }
  }

  /**
   A submission carries its own attempt's agent UUID and nonce timestamp, reports
   failure exactly when collection failed, and carries the rotated token exactly
   when there is one.
   */
  lemma SubmissionsAreFaithful(run: seq<Action>, envs: map<nat, Env>, i: nat)
    requires IsRun(run, envs) && i < |run| && run[i].event.Submit?
    ensures run[i].attempt in envs && HasNonce(envs[run[i].attempt])
    ensures var env, sent := envs[run[i].attempt], run[i].event;
      && sent.result.agentUUID == env.agentUUID.value
      && sent.result.nonceRefreshTS == env.nonce.value.refreshTS
      && sent.result.collectedAt == env.now && sent.result.response == env.evidence.response
      && sent.result.errorMessage == (if env.evidence.error.Some? then env.evidence.error.value else "")
      && (sent.result.success <==> env.evidence.error.None?)
      && sent.jwt == (if env.nonce.value.refreshedJWT != "" then env.nonce.value.refreshedJWT else env.jwt.value)
  {
    PositionHolds(run, i, envs);
    EventShape(envs[run[i].attempt], Position(run, i));
  }

  /** Attempt `k` submitted, at index `i`, a result that reports the collection's failure with its message. */
  predicate SubmitsFailure(run: seq<Action>, k: nat, message: string, i: int)
  {
    && 0 <= i < |run| && run[i].attempt == k && run[i].event.Submit?
    && !run[i].event.result.success && run[i].event.result.errorMessage == message
  }

  /** An attempt that ran to its end after a failed collection has submitted that failure. */
  lemma FailuresAreSubmitted(run: seq<Action>, envs: map<nat, Env>, k: nat, c: nat)
    requires IsRun(run, envs) && k in envs && Project(run, k) == Events(envs[k])
    requires c < |run| && run[c].attempt == k && run[c].event.Collect? && envs[k].evidence.error.Some?
    ensures exists i :: SubmitsFailure(run, k, envs[k].evidence.error.value, i)
  {
    PositionHolds(run, c, envs);
    EventShape(envs[k], Position(run, c));
    var last := |Events(envs[k])| - 1;
    var i := EarlierAction(run, k, last);
    assert SubmitsFailure(run, k, envs[k].evidence.error.value, i);
  }

  /** Evidence is collected for the attempt's own nonce. */
  lemma CollectsOwnNonce(run: seq<Action>, envs: map<nat, Env>, c: nat)
    requires IsRun(run, envs) && c < |run| && run[c].event.Collect?
    ensures run[c].attempt in envs && envs[run[c].attempt].nonce.Some?
    ensures run[c].event == Collect(envs[run[c].attempt].nonce.value.value)
  {
    PositionHolds(run, c, envs);
    EventShape(envs[run[c].attempt], Position(run, c));
  }

  /** At index `c`, before `i`, attempt `k` collected its evidence. */
  predicate CollectedBefore(run: seq<Action>, k: nat, c: int, i: int)
  {
    0 <= c < i <= |run| && run[c].attempt == k && run[c].event.Collect?
  }

  /** Nothing is submitted before that attempt's evidence was collected. */
  lemma SubmitsAfterCollecting(run: seq<Action>, envs: map<nat, Env>, i: nat)
    requires IsRun(run, envs) && i < |run| && run[i].event.Submit?
    ensures exists c :: CollectedBefore(run, run[i].attempt, c, i)
  {
    var k := run[i].attempt;
    PositionHolds(run, i, envs);
    var env, p := envs[k], Position(run, i);
    EventShape(env, p);
    ProjectPrefix(run, i, k);
    var c := EarlierAction(run[..i], k, p - 1);
    assert Events(env)[p - 1].Collect?;
    assert CollectedBefore(run, k, c, i);
  }
}
