/** What every run of the shared-JWT protocol guarantees, whatever the interleaving. */
module SakAuthRuns {
  import opened Prelude
  import opened SakAuth

  /** The issue number of the stored token. */
  function Rank(s: State): nat
  {
    if s.stored in s.issue then s.issue[s.stored] else 0
  }

  ghost predicate Grows(s: State, s': State)
  {
    && s.clock <= s'.clock
    && s.history <= s'.history
    && forall x :: x in s.issue ==> x in s'.issue && s'.issue[x] == s.issue[x]
  }

  lemma {:induction false} RunInv(r: Run, i: nat)
    requires IsRun(r) && i < |r.states|
    ensures Inv(r.states[i])
  {
    if i == 0 {
      InitKeepsInv(r.states[0]);
    } else {
      RunInv(r, i - 1);
      assert Follows(r.states[i - 1], r.steps[i - 1], r.states[i]);
      StepKeepsInv(r.states[i - 1], r.steps[i - 1]);
    }
  }

  lemma StepGrows(s: State, e: Step, s': State)
    requires Follows(s, e, s')
    ensures Grows(s, s')
  {
  }

  lemma {:induction false} RunGrows(r: Run, i: nat, j: nat)
    requires IsRun(r) && i <= j < |r.states|
    ensures Grows(r.states[i], r.states[j])
    decreases j
  {
    if i < j {
      RunGrows(r, i, j - 1);
      StepGrows(r.states[j - 1], r.steps[j - 1], r.states[j]);
    }
  }

  lemma RankIsIssued(r: Run, i: nat)
    requires IsRun(r) && i < |r.states|
    ensures var s := r.states[i];
      s.stored in s.history && s.stored in s.issue && Rank(s) == s.issue[s.stored] < s.clock
    ensures forall x :: x in r.states[i].issue ==> r.states[i].issue[x] < r.states[i].clock
  {
    RunInv(r, i);
  }

  // ------------------------------------------------------- how the token moves

  /** Only a header install and a re-enrollment change the stored token, and both store a token never stored before. */
  lemma StoredChanges(s: State, e: Step)
    requires Inv(s) && Enabled(s, e)
    ensures var s' := Apply(s, e);
      s'.stored != s.stored ==> s'.stored !in s.history && (e.HeaderSection? || e.Store?)
  {
    match e
    case HeaderSection(t) => assert Ok(s, s.trips[t]);
    case Store(t) => assert Ok(s, s.trips[t]);
    case _ =>
  }

  /** A header install strictly raises the issue number; no other step but a re-enrollment changes it. */
  lemma HeaderInstallRaises(s: State, e: Step)
    requires Inv(s) && Enabled(s, e) && !e.Store?
    ensures var s' := Apply(s, e);
      if s'.stored == s.stored then Rank(s') == Rank(s) else e.HeaderSection? && Rank(s') > Rank(s)
  {
    match e
    case HeaderSection(t) => assert Ok(s, s.trips[t]);
    case _ =>
  }

  lemma StepRaises(r: Run, i: nat)
    requires IsRun(r) && i < |r.steps| && !r.steps[i].Store?
    ensures Rank(r.states[i]) <= Rank(r.states[i + 1])
  {
    RunInv(r, i);
    assert Follows(r.states[i], r.steps[i], r.states[i + 1]);
    HeaderInstallRaises(r.states[i], r.steps[i]);
  }

  // ------------------------------------------------------- enrollment windows

  predicate InWindow(s: State, t: TripId)
  {
    t in s.trips && (s.trips[t].Enrolling? || s.trips[t].Minted?)
  }

  /** Between two states `t` stays in one window and nobody stores. */
  lemma WindowStep(s: State, e: Step, s': State, t: TripId)
    requires LockOk(s.lock, s.trips) && LockOk(s'.lock, s'.trips) && Follows(s, e, s') && InWindow(s', t)
    ensures s'.lock == Some(t) && !e.Store?
    ensures if InWindow(s, t) then s'.trips[t].open == s.trips[t].open
            else e == StaleCheck(t) && s'.trips[t].open == Window(s.clock, s.stored)
  {
    assert Holds(s'.trips[t]);
    assert e.Store? ==> e.t in s.trips && Holds(s.trips[e.t]);
  }

  /** Step `o` is the stale check that opened the window `t` is in at state `k`; `t` has held `refreshMu` since. */
  ghost predicate OpenedAt(r: Run, t: TripId, o: nat, k: nat)
    requires IsRun(r)
  {
    && o < k < |r.states|
    && r.steps[o] == StaleCheck(t)
    && InWindow(r.states[k], t)
    && r.states[k].trips[t].open == Window(r.states[o].clock, r.states[o].stored)
    && (forall i :: o < i <= k ==> r.states[i].lock == Some(t))
    && (forall i :: o <= i < k ==> !r.steps[i].Store?)
  }

  lemma RunWindowStep(r: Run, t: TripId, k: nat)
    requires IsRun(r) && k < |r.states| && InWindow(r.states[k], t)
    ensures k > 0 && r.states[k].lock == Some(t) && !r.steps[k - 1].Store?
    ensures var s, s' := r.states[k - 1], r.states[k];
      if InWindow(s, t) then s'.trips[t].open == s.trips[t].open
      else r.steps[k - 1] == StaleCheck(t) && s'.trips[t].open == Window(s.clock, s.stored)
  {
    RunInv(r, k);
    RunInv(r, k - 1);
    WindowStep(r.states[k - 1], r.steps[k - 1], r.states[k], t);
  }

  lemma {:induction false} WindowOpening(r: Run, t: TripId, k: nat) returns (o: nat)
    requires IsRun(r) && k < |r.states| && InWindow(r.states[k], t)
    ensures OpenedAt(r, t, o, k)
  {
    RunWindowStep(r, t, k);
    if InWindow(r.states[k - 1], t) {
      o := WindowOpening(r, t, k - 1);
    } else {
      o := k - 1;
    }
  }

  /** The round trip whose re-enrollment step `w` stores is in its window just before. */
  lemma StoreStep(r: Run, w: nat)
    requires IsRun(r) && w < |r.steps| && r.steps[w].Store?
    ensures var s, t := r.states[w], r.steps[w].t;
      && InWindow(s, t) && s.trips[t].used == s.trips[t].open.stored
      && s.trips[t].open.clock <= Rank(r.states[w + 1])
      && r.states[w + 1].stored !in s.history
  {
    RunInv(r, w);
    assert Follows(r.states[w], r.steps[w], r.states[w + 1]);
    assert Ok(r.states[w], r.states[w].trips[r.steps[w].t]);
  }

  /** The token a re-enrollment stores is newer than every token minted before its stale check. */
  lemma EnrolledTokenIsNewer(r: Run, w: nat) returns (o: nat)
    requires IsRun(r) && w < |r.steps| && r.steps[w].Store?
    ensures OpenedAt(r, r.steps[w].t, o, w)
    ensures Rank(r.states[w + 1]) >= r.states[o].clock
    ensures forall x :: x in r.states[o].issue ==> r.states[o].issue[x] < Rank(r.states[w + 1])
  {
    StoreStep(r, w);
    o := WindowOpening(r, r.steps[w].t, w);
    RankIsIssued(r, o);
  }

  /** After a re-enrollment is stored, nothing older than its window is ever stored again. */
  lemma {:induction false} NeverBelowAWindow(r: Run, o: nat, w: nat, j: nat)
    requires IsRun(r) && w < |r.steps| && w < j < |r.states|
    requires r.steps[w].Store? && OpenedAt(r, r.steps[w].t, o, w)
    ensures Rank(r.states[j]) >= r.states[o].clock
    decreases j
  {
    if j == w + 1 {
      StoreStep(r, w);
    } else if r.steps[j - 1].Store? {
      var o' := EnrolledTokenIsNewer(r, j - 1);
      assert w < o';
      RunGrows(r, o, o');
    } else {
      NeverBelowAWindow(r, o, w, j - 1);
      StepRaises(r, j - 1);
    }
  }

  lemma {:induction false} SomeStore(r: Run, i: nat, j: nat) returns (w: nat)
    requires IsRun(r) && i < j < |r.states|
    requires Rank(r.states[j]) < Rank(r.states[i])
    ensures i <= w < j && r.steps[w].Store?
    decreases j
  {
    if r.steps[j - 1].Store? {
      w := j - 1;
    } else {
      StepRaises(r, j - 1);
      w := SomeStore(r, i, j - 1);
    }
  }

  /**
   State `i` lies in, and `j` after, one enrollment window, opened by step `o`
   and stored by step `w`: both tokens were minted in that window, and the later
   one is newer than what was stored when the window opened.
   */
  ghost predicate DropInWindow(r: Run, o: nat, w: nat, i: nat, j: nat)
    requires IsRun(r)
  {
    && o < i <= w < j < |r.states|
    && r.steps[w].Store? && OpenedAt(r, r.steps[w].t, o, w)
    && r.states[o].clock <= Rank(r.states[j]) < Rank(r.states[i]) < r.states[w].clock
    && Rank(r.states[o]) < Rank(r.states[j])
  }

  /** The stored issue number drops only between two tokens minted in one enrollment window. */
  lemma DropsOnlyInsideOneWindow(r: Run, i: nat, j: nat)
    requires IsRun(r) && i < j < |r.states|
    requires Rank(r.states[j]) < Rank(r.states[i])
    ensures exists o, w :: DropInWindow(r, o, w, i, j)
  {
    var w := SomeStore(r, i, j);
    var o := EnrolledTokenIsNewer(r, w);
    NeverBelowAWindow(r, o, w, j);
    RankIsIssued(r, i);
    RankIsIssued(r, o);
    if i <= o {
      RunGrows(r, i, o);
    }
    RunGrows(r, i, w);
    assert DropInWindow(r, o, w, i, j);
  }

  // ------------------------------------------------------- exactly when it drops

  /** How far a round trip has got. */
  function Progress(pc: Pc): nat
  {
    match pc
    case Sending(_) => 0
    case Replied(_, _, _) => 1
    case Rejected(_) => 2
    case Locked(_) => 3
    case Enrolling(_, _) => 4
    case Minted(_, _, _) => 5
    case Refreshed(_, _) => 6
    case EnrollFailed(_) => 6
    case Retrying(_, _) => 7
    case Finished(_) => 8
  }

  /** A step leaves a round trip where it is or moves it forward. */
  lemma ProgressStep(s: State, e: Step, s': State, t: TripId)
    requires Follows(s, e, s') && t in s.trips
    ensures t in s'.trips && (s'.trips[t] == s.trips[t] || Progress(s.trips[t]) < Progress(s'.trips[t]))
  {
  }

  lemma {:induction false} ProgressRun(r: Run, t: TripId, i: nat, j: nat)
    requires IsRun(r) && i <= j < |r.states| && t in r.states[i].trips
    ensures var s, s' := r.states[i], r.states[j];
      t in s'.trips && (s'.trips[t] == s.trips[t] || Progress(s.trips[t]) < Progress(s'.trips[t]))
    decreases j
  {
    if i < j {
      ProgressRun(r, t, i, j - 1);
      ProgressStep(r.states[j - 1], r.steps[j - 1], r.states[j], t);
    }
  }

  /** A round trip that is about to store the same token at `i` and at `j` is so in between, and nobody stores. */
  lemma MintedInBetween(r: Run, t: TripId, i: nat, k: nat, j: nat)
    requires IsRun(r) && i <= k < j < |r.states|
    requires t in r.states[i].trips && r.states[i].trips[t].Minted? && t in r.states[j].trips && r.states[j].trips[t].Minted?
    ensures r.states[j].trips[t] == r.states[i].trips[t]
    ensures !r.steps[k].Store?
  {
    ProgressRun(r, t, i, j);
    ProgressRun(r, t, i, k + 1);
    ProgressRun(r, t, k + 1, j);
    RunWindowStep(r, t, k + 1);
  }

  lemma {:induction false} RanksRise(r: Run, i: nat, j: nat)
    requires IsRun(r) && i <= j < |r.states| && forall k :: i <= k < j ==> !r.steps[k].Store?
    ensures Rank(r.states[i]) <= Rank(r.states[j])
    decreases j
  {
    if i < j {
      RanksRise(r, i, j - 1);
      StepRaises(r, j - 1);
    }
  }

  lemma MintOrigin(s: State, e: Step, s': State, t: TripId)
    requires Follows(s, e, s') && t in s'.trips && s'.trips[t].Minted?
    ensures t in s.trips && (e == EnrollMint(t, s'.trips[t].token) || s.trips[t] == s'.trips[t])
  {
  }

  /** The step that minted the token a round trip is about to store. */
  lemma {:induction false} MintStep(r: Run, t: TripId, k: nat) returns (m: nat)
    requires IsRun(r) && k < |r.states| && t in r.states[k].trips && r.states[k].trips[t].Minted?
    ensures m < k && r.steps[m] == EnrollMint(t, r.states[k].trips[t].token)
    ensures t in r.states[m + 1].trips && r.states[m + 1].trips[t] == r.states[k].trips[t]
  {
    assert k > 0;
    MintOrigin(r.states[k - 1], r.steps[k - 1], r.states[k], t);
    if r.steps[k - 1].EnrollMint? && r.steps[k - 1].t == t {
      m := k - 1;
    } else {
      m := MintStep(r, t, k - 1);
    }
  }

  lemma ReplyOrigin(s: State, e: Step, s': State, t: TripId)
    requires Follows(s, e, s') && t in s'.trips && s'.trips[t].Replied?
    ensures t in s.trips && s.trips[t].used == s'.trips[t].used
    ensures s.trips[t] == s'.trips[t] || (e.Reply? && e.t == t && e.header == s'.trips[t].header && s.trips[t].Sending?)
  {
  }

  /** The reply behind a response header. */
  lemma {:induction false} ReplyStep(r: Run, t: TripId, k: nat) returns (p: nat)
    requires IsRun(r) && k < |r.states| && t in r.states[k].trips && r.states[k].trips[t].Replied?
    ensures p < k && r.steps[p].Reply? && r.steps[p].t == t && r.steps[p].header == r.states[k].trips[t].header
    ensures t in r.states[p].trips && r.states[p].trips[t] == Sending(r.states[k].trips[t].used)
  {
    assert k > 0;
    ReplyOrigin(r.states[k - 1], r.steps[k - 1], r.states[k], t);
    if r.states[k - 1].trips[t] == r.states[k].trips[t] {
      p := ReplyStep(r, t, k - 1);
    } else {
      p := k - 1;
    }
  }

  /** The last change of the stored token before state `j`. */
  lemma {:induction false} LastChange(r: Run, i: nat, j: nat) returns (h: nat)
    requires IsRun(r) && i <= j < |r.states| && r.states[i].stored != r.states[j].stored
    ensures i <= h < j && r.states[h].stored != r.states[h + 1].stored == r.states[j].stored
    decreases j
  {
    if r.states[j - 1].stored != r.states[j].stored {
      h := j - 1;
    } else {
      h := LastChange(r, i, j - 1);
    }
  }

  /**
   Between its mint (step `m`) and its store (step `w`) an enrollment is overtaken:
   a reply (step `p`) carries a token not issued before, and its header section
   (step `h`) installs that token.
   */
  ghost predicate Overtakes(r: Run, w: int, m: int, p: int, h: int)
    requires IsRun(r)
  {
    && 0 <= m < p < h < w < |r.steps|
    && r.steps[w].Store?
    && r.steps[m].EnrollMint? && r.steps[m].t == r.steps[w].t
    && r.steps[p].Reply? && r.steps[p].header !in r.states[p].issue
    && r.steps[h] == HeaderSection(r.steps[p].t)
    && r.states[h].stored != r.states[h + 1].stored == r.steps[p].header
  }

  /** What a mint and the store that follows it have to do with each other. */
  lemma MintAndStore(r: Run, m: nat, w: nat)
    requires IsRun(r) && m < w < |r.steps| && r.steps[w].Store?
    requires r.steps[m].EnrollMint? && r.steps[m].t == r.steps[w].t
    ensures Rank(r.states[w + 1]) == r.states[m].clock < r.states[m + 1].clock
    ensures forall k :: m < k < w ==> !r.steps[k].Store?
  {
    var t := r.steps[w].t;
    assert Follows(r.states[m], r.steps[m], r.states[m + 1]);
    assert Follows(r.states[w], r.steps[w], r.states[w + 1]);
    ProgressRun(r, t, m + 1, w);
    RunGrows(r, m + 1, w);
    forall k | m < k < w
      ensures !r.steps[k].Store?
    {
      MintedInBetween(r, t, m + 1, k, w);
    }
  }

  /** A token a reply brings is issued then and there. */
  lemma ReplyIssues(r: Run, p: nat, j: nat)
    requires IsRun(r) && p < j < |r.states| && r.steps[p].Reply?
    requires r.steps[p].header !in r.states[p].issue && r.steps[p].header == r.states[j].stored
    ensures Rank(r.states[j]) == r.states[p].clock
  {
    assert Follows(r.states[p], r.steps[p], r.states[p + 1]);
    RunGrows(r, p + 1, j);
    RunInv(r, j);
  }

  lemma OvertakingDrops(r: Run, w: nat, m: nat, p: nat, h: nat)
    requires IsRun(r) && Overtakes(r, w, m, p, h)
    ensures Rank(r.states[w + 1]) < Rank(r.states[w])
  {
    MintAndStore(r, m, w);
    ReplyIssues(r, p, h + 1);
    RunGrows(r, m + 1, p);
    RanksRise(r, h + 1, w);
  }

  /** The install that changed the stored token at step `h`, and the reply that brought it. */
  lemma InstallHasReply(r: Run, h: nat) returns (p: nat)
    requires IsRun(r) && h < |r.steps| && !r.steps[h].Store? && r.states[h].stored != r.states[h + 1].stored
    ensures p < h && r.steps[p].Reply? && r.steps[p].header !in r.states[p].issue
    ensures r.steps[h] == HeaderSection(r.steps[p].t) && r.states[h + 1].stored == r.steps[p].header
  {
    RunInv(r, h);
    assert Follows(r.states[h], r.steps[h], r.states[h + 1]);
    StoredChanges(r.states[h], r.steps[h]);
    p := ReplyStep(r, r.steps[h].t, h);
    assert Follows(r.states[p], r.steps[p], r.states[p + 1]);
  }

  lemma DropIsOvertaken(r: Run, w: nat)
    requires IsRun(r) && w < |r.steps| && r.steps[w].Store? && Rank(r.states[w + 1]) < Rank(r.states[w])
    ensures exists m, p, h :: Overtakes(r, w, m, p, h)
  {
    StoreStep(r, w);
    assert Follows(r.states[w], r.steps[w], r.states[w + 1]);
    var m := MintStep(r, r.steps[w].t, w);
    MintAndStore(r, m, w);
    assert Follows(r.states[m], r.steps[m], r.states[m + 1]);
    RankIsIssued(r, m);
    RankIsIssued(r, w);
    RunGrows(r, m, w);
    var h := LastChange(r, m + 1, w);
    var p := InstallHasReply(r, h);
    ReplyIssues(r, p, w);
    if p <= m {
      RunGrows(r, p, m);
    }
    assert Overtakes(r, w, m, p, h);
  }

  /** A re-enrollment lowers the stored issue number if and only if a header token overtook it between its mint and its store. */
  lemma StoreDropsIff(r: Run, w: nat)
    requires IsRun(r) && w < |r.steps| && r.steps[w].Store?
    ensures Rank(r.states[w + 1]) < Rank(r.states[w]) <==> exists m, p, h :: Overtakes(r, w, m, p, h)
  {
    if Rank(r.states[w + 1]) < Rank(r.states[w]) {
      DropIsOvertaken(r, w);
    }
    forall m, p, h | Overtakes(r, w, m, p, h)
      ensures Rank(r.states[w + 1]) < Rank(r.states[w])
    {
      OvertakingDrops(r, w, m, p, h);
    }
  }

  /** No state holds an older token than an earlier state. */
  ghost predicate Monotone(r: Run)
  {
    forall i, j :: 0 <= i <= j < |r.states| ==> Rank(r.states[i]) <= Rank(r.states[j])
  }

  lemma {:induction false} NeverOvertakenRises(r: Run, i: nat, j: nat)
    requires IsRun(r) && i <= j < |r.states| && !exists w, m, p, h :: Overtakes(r, w, m, p, h)
    ensures Rank(r.states[i]) <= Rank(r.states[j])
    decreases j
  {
    if i < j {
      NeverOvertakenRises(r, i, j - 1);
      if r.steps[j - 1].Store? {
        StoreDropsIff(r, j - 1);
      } else {
        StepRaises(r, j - 1);
      }
    }
  }

  /** In a run the stored issue number never drops if and only if no enrollment is overtaken. */
  lemma MonotoneIffNeverOvertaken(r: Run)
    requires IsRun(r)
    ensures Monotone(r) <==> !exists w, m, p, h :: Overtakes(r, w, m, p, h)
  {
    if exists w, m, p, h :: Overtakes(r, w, m, p, h) {
      var w, m, p, h :| Overtakes(r, w, m, p, h);
      OvertakingDrops(r, w, m, p, h);
    } else {
      forall i, j | 0 <= i <= j < |r.states|
        ensures Rank(r.states[i]) <= Rank(r.states[j])
      {
        NeverOvertakenRises(r, i, j);
      }
    }
  }

  // ------------------------------------------------------- replaced tokens

  lemma StepStoresNew(r: Run, i: nat)
    requires IsRun(r) && i < |r.steps|
    ensures r.states[i + 1].stored == r.states[i].stored || r.states[i + 1].stored !in r.states[i].history
  {
    RunInv(r, i);
    assert Follows(r.states[i], r.steps[i], r.states[i + 1]);
    StoredChanges(r.states[i], r.steps[i]);
  }

  /** A token that has been replaced never becomes the stored token again. */
  lemma {:induction false} ReplacedNeverReturns(r: Run, i: nat, j: nat, k: nat)
    requires IsRun(r) && i < j <= k < |r.states|
    requires r.states[j].stored != r.states[i].stored
    ensures r.states[k].stored != r.states[i].stored
    decreases k
  {
    if j < k {
      ReplacedNeverReturns(r, i, j, k - 1);
      RankIsIssued(r, i);
      RunGrows(r, i, k - 1);
      StepStoresNew(r, k - 1);
    }
  }

  /** The token whose rejection led to the re-enrollment stored by step `w`. */
  function StaleToken(r: Run, w: nat): Token
    requires IsRun(r) && w < |r.steps| && r.steps[w].Store?
  {
    var s, t := r.states[w], r.steps[w].t;
    assert Follows(s, r.steps[w], r.states[w + 1]);
    s.trips[t].used
  }

  /** Step `w` stores a re-enrollment made because `token` was rejected. */
  ghost predicate RefreshesToken(r: Run, token: Token, w: int)
    requires IsRun(r)
  {
    0 <= w < |r.steps| && r.steps[w].Store? && StaleToken(r, w) == token
  }

  lemma StaleTokensDiffer(r: Run, w1: nat, w2: nat)
    requires IsRun(r) && w1 < w2 < |r.steps|
    requires r.steps[w1].Store? && r.steps[w2].Store?
    ensures StaleToken(r, w1) != StaleToken(r, w2)
  {
    StoreStep(r, w1);
    StoreStep(r, w2);
    var o1 := WindowOpening(r, r.steps[w1].t, w1);
    var o2 := WindowOpening(r, r.steps[w2].t, w2);
    assert w1 < o2;
    RankIsIssued(r, o1);
    RunGrows(r, o1, w1);
    ReplacedNeverReturns(r, o1, w1 + 1, o2);
  }

  /** However many round trips are rejected with one token, at most one re-enrollment is stored for it. */
  lemma OneEnrollmentPerStaleToken(r: Run, token: Token)
    requires IsRun(r)
    ensures forall w1, w2 :: RefreshesToken(r, token, w1) && RefreshesToken(r, token, w2) ==> w1 == w2
  {
    forall w1, w2 | RefreshesToken(r, token, w1) && RefreshesToken(r, token, w2)
      ensures w1 == w2
    {
      if w1 < w2 {
        StaleTokensDiffer(r, w1, w2);
      } else if w2 < w1 {
        StaleTokensDiffer(r, w2, w1);
      }
    }
  }

  // ------------------------------------------------------- one round trip

  predicate Sends(e: Step, t: TripId)
  {
    e == Begin(t) || e == Retry(t)
  }

  /** How many of `steps` are requests that round trip `t` hands to the base transport. */
  function SendCount(steps: seq<Step>, t: TripId): nat
  {
    if steps == [] then 0
    else SendCount(steps[..|steps| - 1], t) + if Sends(steps[|steps| - 1], t) then 1 else 0
  }

  /** How many of `steps` decide for round trip `t` whether to enroll. */
  function CheckCount(steps: seq<Step>, t: TripId): nat
  {
    if steps == [] then 0
    else CheckCount(steps[..|steps| - 1], t) + if steps[|steps| - 1] == StaleCheck(t) then 1 else 0
  }

  function MintCount(steps: seq<Step>, t: TripId): nat
  {
    if steps == [] then 0
    else MintCount(steps[..|steps| - 1], t) +
         var e := steps[|steps| - 1]; if e.EnrollMint? && e.t == t then 1 else 0
  }

  predicate CountsFit(s: State, t: TripId, sends: nat, checks: nat, mints: nat)
  {
    if t !in s.trips then sends == checks == mints == 0
    else
      var pc := s.trips[t];
      && (if pc.Finished? then 1 <= sends <= 2 else sends == 1)
      && (if pc.Sending? || pc.Replied? || pc.Rejected? || pc.Locked? then checks == 0 else checks <= 1)
      && mints <= checks
      && (pc.Enrolling? ==> mints == 0 && checks == 1)
  }

  lemma CountsFitStep(s: State, e: Step, s': State, t: TripId, sends: nat, checks: nat, mints: nat)
    requires Follows(s, e, s') && CountsFit(s, t, sends, checks, mints)
    ensures CountsFit(s', t,
      sends + (if Sends(e, t) then 1 else 0),
      checks + (if e == StaleCheck(t) then 1 else 0),
      mints + (if e.EnrollMint? && e.t == t then 1 else 0))
  {
  }

  lemma {:induction false} CountsFitRun(r: Run, t: TripId, k: nat)
    requires IsRun(r) && k <= |r.steps|
    ensures var p := r.steps[..k];
      CountsFit(r.states[k], t, SendCount(p, t), CheckCount(p, t), MintCount(p, t))
  {
    if k > 0 {
      CountsFitRun(r, t, k - 1);
      var p := r.steps[..k - 1];
      assert r.steps[..k][..k - 1] == p;
      CountsFitStep(r.states[k - 1], r.steps[k - 1], r.states[k], t,
        SendCount(p, t), CheckCount(p, t), MintCount(p, t));
    }
  }

  /** In every run each round trip makes at most two sends, at most one stale check and at most one enrollment. */
  lemma RoundTripIsBounded(r: Run, t: TripId)
    requires IsRun(r)
    ensures SendCount(r.steps, t) <= 2
    ensures MintCount(r.steps, t) <= CheckCount(r.steps, t) <= 1
  {
    CountsFitRun(r, t, |r.steps|);
    assert r.steps[..|r.steps|] == r.steps;
  }

  predicate PastRejection(pc: Pc)
  {
    pc.Rejected? || pc.Locked? || pc.Enrolling? || pc.Minted? || pc.Refreshed? || pc.Retrying?
  }

  predicate WasRejected(e: Step, t: TripId)
  {
    e.Reply? && e.t == t && e.unauthorized
  }

  predicate KnowsRejection(s: State, t: TripId)
  {
    t in s.trips && (PastRejection(s.trips[t]) || (s.trips[t].Replied? && s.trips[t].unauthorized))
  }

  lemma RejectionStep(s: State, e: Step, s': State, t: TripId)
    requires Follows(s, e, s') && KnowsRejection(s', t)
    ensures t in s.trips && s.trips[t].used == s'.trips[t].used
    ensures if WasRejected(e, t) then s.trips[t].Sending? else KnowsRejection(s, t)
  {
  }

  lemma RunRejectionStep(r: Run, t: TripId, k: nat)
    requires IsRun(r) && k < |r.states| && KnowsRejection(r.states[k], t)
    ensures k > 0 && t in r.states[k - 1].trips && r.states[k - 1].trips[t].used == r.states[k].trips[t].used
    ensures if WasRejected(r.steps[k - 1], t) then r.states[k - 1].trips[t].Sending? else KnowsRejection(r.states[k - 1], t)
  {
    RejectionStep(r.states[k - 1], r.steps[k - 1], r.states[k], t);
  }

  lemma {:induction false} RejectedBefore(r: Run, t: TripId, k: nat) returns (i: nat)
    requires IsRun(r) && k < |r.states| && KnowsRejection(r.states[k], t)
    ensures i < k && WasRejected(r.steps[i], t)
    ensures t in r.states[i].trips && r.states[i].trips[t] == Sending(r.states[k].trips[t].used)
  {
    RunRejectionStep(r, t, k);
    if WasRejected(r.steps[k - 1], t) {
      i := k - 1;
    } else {
      i := RejectedBefore(r, t, k - 1);
    }
  }

  predicate HasToken(s: State, t: TripId)
  {
    t in s.trips && (s.trips[t].Refreshed? || s.trips[t].Retrying?)
  }

  ghost predicate SeenBy(s: State, t: TripId, token: Token)
  {
    s.lock == Some(t) && s.stored == token
  }

  lemma TokenStep(s: State, e: Step, s': State, t: TripId)
    requires LockOk(s.lock, s.trips) && Follows(s, e, s') && HasToken(s', t)
    ensures var token := s'.trips[t].token;
      SeenBy(s, t, token) || SeenBy(s', t, token) || (HasToken(s, t) && s.trips[t].token == token)
  {
    if e == StaleCheck(t) || e == Store(t) {
      assert Holds(s.trips[t]);
    }
  }

  lemma {:induction false} TokenWasStored(r: Run, t: TripId, k: nat) returns (h: nat)
    requires IsRun(r) && k < |r.states| && HasToken(r.states[k], t)
    ensures h <= k && SeenBy(r.states[h], t, r.states[k].trips[t].token)
  {
    assert k > 0;
    RunLock(r, k - 1);
    TokenStep(r.states[k - 1], r.steps[k - 1], r.states[k], t);
    var token := r.states[k].trips[t].token;
    if SeenBy(r.states[k - 1], t, token) {
      h := k - 1;
    } else if SeenBy(r.states[k], t, token) {
      h := k;
    } else {
      h := TokenWasStored(r, t, k - 1);
    }
  }

  lemma RunLock(r: Run, k: nat)
    requires IsRun(r) && k < |r.states|
    ensures LockOk(r.states[k].lock, r.states[k].trips)
  {
    RunInv(r, k);
  }

  /** Step `k` retries with `token`: the trip was rejected at step `i` with another token, and held `refreshMu` at state `h` while `token` was stored. */
  ghost predicate RetryIsJustified(r: Run, t: TripId, k: nat, i: nat, h: nat)
    requires IsRun(r)
  {
    && i < k < |r.steps| && h <= k
    && t in r.states[k].trips && r.states[k].trips[t].Retrying?
    && WasRejected(r.steps[i], t)
    && t in r.states[i].trips && r.states[i].trips[t].used != r.states[k].trips[t].token
    && SeenBy(r.states[h], t, r.states[k].trips[t].token)
  }

  /** A round trip retries only after a 401, with a token other than the rejected one that was stored while it held `refreshMu`. */
  lemma RetriesAreJustified(r: Run, t: TripId, k: nat)
    requires IsRun(r) && k < |r.steps| && r.steps[k] == Retry(t)
    ensures exists i, h :: RetryIsJustified(r, t, k, i, h)
  {
    assert Follows(r.states[k], r.steps[k], r.states[k + 1]);
    var i := RejectedBefore(r, t, k);
    var h := TokenWasStored(r, t, k);
    RunInv(r, k);
    assert Ok(r.states[k], r.states[k].trips[t]);
    assert RetryIsJustified(r, t, k, i, h);
  }

  // ------------------------------------------------------- every rejection is answered

  /** Step `i` is `t` sending again, giving up because its body cannot be replayed, or failing to enroll. */
  predicate Answers(r: Run, i: int, t: TripId)
  {
    0 <= i < |r.steps| && r.steps[i] in {Retry(t), Abandon(t), EnrollError(t)}
  }

  lemma KnowledgeStep(s: State, e: Step, s': State, t: TripId)
    requires Follows(s, e, s') && KnowsRejection(s, t)
    ensures KnowsRejection(s', t)
         || (t in s'.trips && (s'.trips[t].EnrollFailed? || s'.trips[t].Finished?) && e in {Retry(t), Abandon(t), EnrollError(t)})
  {
  }

  lemma GivingUpStep(s: State, e: Step, s': State, t: TripId)
    requires Follows(s, e, s') && t in s.trips && (s.trips[t].EnrollFailed? || s.trips[t].Finished?)
    ensures t in s'.trips && (s'.trips[t].EnrollFailed? || s'.trips[t].Finished?)
  {
  }

  lemma {:induction false} AfterRejection(r: Run, t: TripId, i: nat, k: nat)
    requires IsRun(r) && i < k < |r.states| && WasRejected(r.steps[i], t)
    ensures t in r.states[k].trips
    ensures KnowsRejection(r.states[k], t)
         || ((r.states[k].trips[t].EnrollFailed? || r.states[k].trips[t].Finished?) && exists a :: a < k && Answers(r, a, t))
    decreases k
  {
    var s, e := r.states[k - 1], r.steps[k - 1];
    assert Follows(s, e, r.states[k]);
    if i + 1 < k {
      AfterRejection(r, t, i, k - 1);
      if KnowsRejection(s, t) {
        KnowledgeStep(s, e, r.states[k], t);
        assert !KnowsRejection(r.states[k], t) ==> Answers(r, k - 1, t);
      } else {
        GivingUpStep(s, e, r.states[k], t);
      }
    }
  }

  /** A round trip that was rejected and has finished has retried, unless it could not replay its body or failed to enroll. */
  lemma RejectedTripsRetry(r: Run, t: TripId, i: nat, k: nat)
    requires IsRun(r) && i < k < |r.states| && WasRejected(r.steps[i], t)
    requires t in r.states[k].trips && r.states[k].trips[t].Finished?
    ensures exists a :: a < k && Answers(r, a, t)
  {
    AfterRejection(r, t, i, k);
  }

  /** Step `e` is enabled and moves `t` forward. */
  predicate Moves(s: State, e: Step, t: TripId)
  {
    Enabled(s, e) && t in s.trips && t in Apply(s, e).trips && Progress(s.trips[t]) < Progress(Apply(s, e).trips[t])
  }

  ghost predicate CanMove(s: State, t: TripId)
  {
    exists e :: Moves(s, e, t)
  }

  lemma MoveOf(s: State, t: TripId)
    requires t in s.trips && !s.trips[t].Finished? && (s.trips[t].Rejected? ==> s.lock.None?)
    ensures CanMove(s, t)
  {
    var e := match s.trips[t]
      case Sending(_) => Reply(t, "", false)
      case Replied(_, _, _) => HeaderSection(t)
      case Rejected(_) => Lock(t)
      case Locked(_) => StaleCheck(t)
      case Enrolling(_, _) => EnrollError(t)
      case Minted(_, _, _) => Store(t)
      case Retrying(_, _) => Retry(t)
      case _ => Unlock(t);
    assert Moves(s, e, t);
  }

  /**
   Nobody is stuck: an unfinished round trip can move, or waits for `refreshMu` while
   its holder can.  A trip moves at most eight times, so all finish if all that can move do.
   */
  lemma NobodyIsStuck(r: Run, k: nat, t: TripId)
    requires IsRun(r) && k < |r.states| && t in r.states[k].trips && !r.states[k].trips[t].Finished?
    ensures CanMove(r.states[k], t) || (r.states[k].lock.Some? && CanMove(r.states[k], r.states[k].lock.value))
    ensures Progress(r.states[k].trips[t]) <= 8
  {
    RunLock(r, k);
    var s := r.states[k];
    if s.trips[t].Rejected? && s.lock.Some? {
      MoveOf(s, s.lock.value);
    } else {
      MoveOf(s, t);
    }
  }

  // ------------------------------------------------------- the bound is tight

  ghost predicate Drops(r: Run, i: int, j: int)
  {
    IsRun(r) && 0 <= i < j < |r.states| && Rank(r.states[j]) < Rank(r.states[i])
  }

  function Last(r: Run): State
    requires |r.states| > 0
  {
    r.states[|r.states| - 1]
  }

  /** Extends a run by one enabled step. */
  lemma Extend(r: Run, e: Step) returns (r': Run)
    requires IsRun(r) && Enabled(Last(r), e)
    ensures IsRun(r') && r'.states == r.states + [Apply(Last(r), e)]
    ensures Last(r') == Apply(Last(r), e)
  {
    r' := Run(r.states + [Apply(Last(r), e)], r.steps + [e]);
    forall i | 0 <= i < |r'.steps|
      ensures Follows(r'.states[i], r'.steps[i], r'.states[i + 1])
    {
      if i < |r.steps| {
        assert Follows(r.states[i], r.steps[i], r.states[i + 1]);
      }
    }
  }

  /** Two round trips have sent with `a`; the first has been rejected and holds `refreshMu`. */
  lemma WindowIsReachable(a: Token) returns (r: Run)
    requires a != ""
    ensures IsRun(r) && Last(r).stored == a && Last(r).issue == map[a := 0] && Last(r).clock == 1
    ensures var trips := Last(r).trips; 0 in trips && 1 in trips && trips[0] == Locked(a) && trips[1] == Sending(a)
  {
    r := Run([State(a, None, map[], map[a := 0], 1, {a})], []);
    r := Extend(r, Begin(0));
    r := Extend(r, Begin(1));
    r := Extend(r, Reply(0, "", true));
    r := Extend(r, HeaderSection(0));
    r := Extend(r, Lock(0));
  }

  /** The enrollment mints `b`, then a response header carrying `c` overtakes it. */
  lemma HeaderOvertakesEnrollment(r0: Run, a: Token, b: Token, c: Token) returns (r: Run)
    requires a != b && b != c && c != a && b != "" && c != ""
    requires IsRun(r0) && Last(r0).stored == a && Last(r0).issue == map[a := 0] && Last(r0).clock == 1
    requires var trips := Last(r0).trips; 0 in trips && 1 in trips && trips[0] == Locked(a) && trips[1] == Sending(a)
    ensures IsRun(r) && Last(r).stored == c
    ensures var issue := Last(r).issue; b in issue && c in issue && issue[b] == 1 && issue[c] == 2
    ensures var trips := Last(r).trips; 0 in trips && trips[0].Minted? && trips[0].token == b
  {
    r := Extend(r0, StaleCheck(0));
    r := Extend(r, EnrollMint(0, b));
    r := Extend(r, Reply(1, c, false));
    r := Extend(r, HeaderSection(1));
  }

  /**
   Plain monotonicity is false: a response header minted while an enrollment is
   in flight is installed, and the enrollment then stores its slightly older token.
   */
  lemma StoredIssueCanDrop()
    ensures exists r, i, j :: Drops(r, i, j)
  {
    var a, b, c := "a", "b", "c";
    assert a[0] != b[0] && a[0] != c[0] && b[0] != c[0];
    var r0 := WindowIsReachable(a);
    var r1 := HeaderOvertakesEnrollment(r0, a, b, c);
    var r := Extend(r1, Store(0));
    assert Drops(r, |r1.states| - 1, |r1.states|);
  }
}
