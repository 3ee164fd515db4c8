/**
 Any number of `GetOrCreateAgentUUIDMetadata` callers and inventory exports,
 interleaved statement by statement with enrollment, un-enrollment and placement
 writes over one metadata table.
 */
module MetadataRuns {
  import opened Prelude
  import opened Metadata

  /** One call of `GetOrCreateAgentUUIDMetadata`. */
  datatype Caller =
    | Reading
    | NeedsCandidate
    | HasCandidate(candidate: string)
    | Written(candidate: string)
    | Returned(value: string, created: bool, proposed: Option<string>)
    | NotCommitted
    | Errored

  /** One inventory export, once it has read the placement. */
  datatype ExportPc = Asked(sent: Placement) | Done(resolved: Placement) | Gone

  datatype State = State(rows: Rows, callers: map<nat, Caller>, exports: map<nat, ExportPc>)

  datatype Step =
    | Call(c: nat)
    | FirstRead(c: nat)                          // sqlite.go 141-146
    | Create(c: nat, candidate: string)          // 148-154
    | Upsert(c: nat)                             // 155-163
    | ReRead(c: nat)                             // 165-173
    | CallerError(c: nat)                        // any failed statement or callback
    | SetKey(key: string, value: string)         // enrollment.go 170-179, and single-key setters
    | UpdatePlacement(group: Option<string>, zone: Option<string>)   // sqlite.go 268-290
    | Unenroll                                   // unenroll.go 67-91
    | ExportRead(x: nat)                         // backend.go 84
    | ExportReply(x: nat, resolved: Placement)   // backend.go 105-116
    | ExportError(x: nat)

  predicate CallerAt(s: State, c: nat)
  {
    c in s.callers
  }

  predicate Enabled(s: State, e: Step)
  {
    match e
    case Call(c) => c !in s.callers
    case FirstRead(c) => CallerAt(s, c) && s.callers[c].Reading?
    case Create(c, _) => CallerAt(s, c) && s.callers[c].NeedsCandidate?
    case Upsert(c) => CallerAt(s, c) && s.callers[c].HasCandidate?
    case ReRead(c) => CallerAt(s, c) && s.callers[c].Written?
    case CallerError(c) => CallerAt(s, c) && !s.callers[c].Returned?
    case SetKey(key, _) => key != MACHINE_ID
    case ExportRead(x) => x !in s.exports
    case ExportReply(x, _) => x in s.exports && s.exports[x].Asked?
    case ExportError(x) => x in s.exports && s.exports[x].Asked?
    case _ => true
  }

  function Goto(s: State, c: nat, pc: Caller): State
  {
    s.(callers := s.callers[c := pc])
  }

  function Apply(s: State, e: Step): State
    requires Enabled(s, e)
  {
    match e
    case Call(c) => Goto(s, c, Reading)
    case FirstRead(c) =>
      Goto(s, c, match Identity(s.rows) case Some(v) => Returned(v, false, None) case None => NeedsCandidate)
    case Create(c, candidate) => Goto(s, c, if candidate == "" then Errored else HasCandidate(candidate))
    case Upsert(c) =>
      Goto(s, c, Written(s.callers[c].candidate)).(rows := UpsertIdentity(s.rows, s.callers[c].candidate))
    case ReRead(c) =>
      var candidate := s.callers[c].candidate;
      Goto(s, c, match Identity(s.rows)
                 case Some(v) => Returned(v, v == candidate, Some(candidate))
                 case None => NotCommitted)
    case CallerError(c) => Goto(s, c, Errored)
    case SetKey(key, value) => s.(rows := s.rows[key := value])
    case UpdatePlacement(group, zone) => s.(rows := WritePlacement(s.rows, group, zone))
    case Unenroll => s.(rows := RemoveEnrollment(s.rows))
    case ExportRead(x) => s.(exports := s.exports[x := Asked(ReadPlacement(s.rows))])
    case ExportReply(x, resolved) =>
      s.(exports := s.exports[x := Done(resolved)],
         rows := if resolved == s.exports[x].sent then s.rows
                 else WritePlacement(s.rows, Some(resolved.nodeGroup), Some(resolved.computeZone)))
    case ExportError(x) => s.(exports := s.exports[x := Gone])
  }

  datatype Run = Run(states: seq<State>, steps: seq<Step>)

  ghost predicate Follows(s: State, e: Step, s': State)
  {
    Enabled(s, e) && s' == Apply(s, e)
  }

  /** The table may hold anything at first, including an empty or a committed identity. */
  ghost predicate IsRun(r: Run)
  {
    && |r.states| == |r.steps| + 1
    && r.states[0].callers == map[] && r.states[0].exports == map[]
    && forall i :: 0 <= i < |r.steps| ==> Follows(r.states[i], r.steps[i], r.states[i + 1])
  }

  // ------------------------------------------------------------ the identity row

  ghost predicate CallerOk(rows: Rows, pc: Caller)
  {
    match pc
    case HasCandidate(candidate) => candidate != ""
    case Written(candidate) => Identity(rows).Some?
    case Returned(value, created, proposed) =>
      && Identity(rows) == Some(value)
      && (created <==> proposed == Some(value))
    case NotCommitted => false
    case _ => true
  }

  ghost predicate Inv(s: State)
  {
    forall c :: c in s.callers ==> CallerOk(s.rows, s.callers[c])
  }

  /** No step replaces a committed identity; only an upsert commits one. */
  lemma IdentityStep(s: State, e: Step, s': State)
    requires Follows(s, e, s') && Inv(s)
    ensures Identity(s.rows).Some? ==> Identity(s'.rows) == Identity(s.rows)
    ensures Identity(s.rows).None? && Identity(s'.rows).Some? ==>
      e.Upsert? && Identity(s'.rows) == Some(s.callers[e.c].candidate)
    ensures e.Upsert? ==> Identity(s'.rows).Some?
  {
  }

  lemma StepKeepsInv(s: State, e: Step, s': State)
    requires Follows(s, e, s') && Inv(s)
    ensures Inv(s')
  {
    IdentityStep(s, e, s');
    forall c | c in s'.callers
      ensures CallerOk(s'.rows, s'.callers[c])
    {
      if c in s.callers {
        assert CallerOk(s.rows, s.callers[c]);
      }
    }
  }

  lemma {:induction false} RunInv(r: Run, i: nat)
    requires IsRun(r) && i < |r.states|
    ensures Inv(r.states[i])
  {
    if i > 0 {
      RunInv(r, i - 1);
      StepKeepsInv(r.states[i - 1], r.steps[i - 1], r.states[i]);
    }
  }

  lemma IdentityKept(r: Run, k: nat)
    requires IsRun(r) && k < |r.steps| && Identity(r.states[k].rows).Some?
    ensures Identity(r.states[k + 1].rows) == Identity(r.states[k].rows)
  {
    RunInv(r, k);
    IdentityStep(r.states[k], r.steps[k], r.states[k + 1]);
  }

  /** Once the identity is non-empty it never changes. */
  lemma {:induction false} IdentityIsStable(r: Run, i: nat, j: nat)
    requires IsRun(r) && i <= j < |r.states| && Identity(r.states[i].rows).Some?
    ensures Identity(r.states[j].rows) == Identity(r.states[i].rows)
    decreases j
  {
    if i < j {
      IdentityIsStable(r, i, j - 1);
      IdentityKept(r, j - 1);
    }
  }

  predicate ReturnedAt(r: Run, i: int, c: nat)
  {
    0 <= i < |r.states| && c in r.states[i].callers && r.states[i].callers[c].Returned?
  }

  /** What caller `c`, which has returned by state `i`, got. */
  function Result(r: Run, i: nat, c: nat): Caller
    requires ReturnedAt(r, i, c)
  {
    r.states[i].callers[c]
  }

  /** All callers that return agree on one non-empty value. */
  lemma CallersAgree(r: Run, i: nat, c: nat, j: nat, d: nat)
    requires IsRun(r) && ReturnedAt(r, i, c) && ReturnedAt(r, j, d)
    ensures Result(r, i, c).value == Result(r, j, d).value != ""
  {
    RunInv(r, i);
    RunInv(r, j);
    assert CallerOk(r.states[i].rows, r.states[i].callers[c]);
    assert CallerOk(r.states[j].rows, r.states[j].callers[d]);
    if i <= j {
      IdentityIsStable(r, i, j);
    } else {
      IdentityIsStable(r, j, i);
    }
  }

  /** Step `k` is some caller proposing `value`. */
  predicate Proposes(r: Run, k: int, value: string)
  {
    0 <= k < |r.steps| && r.steps[k].Create? && r.steps[k].candidate == value
  }

  lemma {:induction false} CandidateWasProposed(r: Run, i: nat, c: nat) returns (k: nat)
    requires IsRun(r) && i < |r.states| && c in r.states[i].callers && r.states[i].callers[c].HasCandidate?
    ensures k < i && Proposes(r, k, r.states[i].callers[c].candidate)
  {
    assert i > 0;
    assert Follows(r.states[i - 1], r.steps[i - 1], r.states[i]);
    if r.steps[i - 1].Create? && r.steps[i - 1].c == c {
      k := i - 1;
    } else {
      k := CandidateWasProposed(r, i - 1, c);
    }
  }

  /** A committed identity is the initial row or some caller's candidate. */
  lemma {:induction false} IdentityHasAnOrigin(r: Run, i: nat)
    requires IsRun(r) && i < |r.states| && Identity(r.states[i].rows).Some?
    ensures Identity(r.states[0].rows) == Identity(r.states[i].rows)
         || exists k :: k < i && Proposes(r, k, Identity(r.states[i].rows).value)
  {
    if i > 0 {
      var s, e := r.states[i - 1], r.steps[i - 1];
      RunInv(r, i - 1);
      assert Follows(s, e, r.states[i]);
      IdentityStep(s, e, r.states[i]);
      if Identity(s.rows).Some? {
        IdentityHasAnOrigin(r, i - 1);
      } else {
        var k := CandidateWasProposed(r, i - 1, e.c);
        assert k < i && Proposes(r, k, Identity(r.states[i].rows).value);
      }
    }
  }

  /** Whatever a caller returns is the initial identity or a candidate some caller proposed. */
  lemma ResultHasAnOrigin(r: Run, i: nat, c: nat)
    requires IsRun(r) && ReturnedAt(r, i, c)
    ensures var v := Result(r, i, c).value;
      Identity(r.states[0].rows) == Some(v) || exists k :: k < i && Proposes(r, k, v)
  {
    RunInv(r, i);
    assert CallerOk(r.states[i].rows, r.states[i].callers[c]);
    IdentityHasAnOrigin(r, i);
  }

  /** The "not committed" branch is unreachable. */
  lemma AlwaysCommitted(r: Run, i: nat, c: nat)
    requires IsRun(r) && i < |r.states| && c in r.states[i].callers
    ensures !r.states[i].callers[c].NotCommitted?
  {
    RunInv(r, i);
    assert CallerOk(r.states[i].rows, r.states[i].callers[c]);
  }

  /** Step `k` is caller `c` proposing `value`. */
  predicate ProposesAs(r: Run, k: int, c: nat, value: string)
  {
    0 <= k < |r.steps| && r.steps[k] == Create(c, value)
  }

  /** The candidate a caller holds or held, if it got that far and was not cut off. */
  function Proposal(pc: Caller): Option<string>
  {
    match pc
    case HasCandidate(candidate) => Some(candidate)
    case Written(candidate) => Some(candidate)
    case Returned(_, _, proposed) => proposed
    case _ => None
  }

  predicate CutOff(pc: Caller)
  {
    pc.Errored? || pc.NotCommitted?
  }

  lemma ProposalStep(s: State, e: Step, s': State, c: nat)
    requires Follows(s, e, s') && c in s'.callers && !CutOff(s'.callers[c])
    ensures if e.Create? && e.c == c then Proposal(s'.callers[c]) == Some(e.candidate) && c in s.callers && s.callers[c].NeedsCandidate?
            else if c in s.callers then !CutOff(s.callers[c]) && Proposal(s'.callers[c]) == Proposal(s.callers[c])
            else Proposal(s'.callers[c]) == None
  {
  }

  lemma {:induction false} UnproposedSoFar(r: Run, i: nat, c: nat)
    requires IsRun(r) && i < |r.states|
    requires c in r.states[i].callers ==> !CutOff(r.states[i].callers[c]) && Proposal(r.states[i].callers[c]) == None
    ensures forall k, v :: k < i ==> !ProposesAs(r, k, c, v)
  {
    if i > 0 {
      assert Follows(r.states[i - 1], r.steps[i - 1], r.states[i]);
      if c in r.states[i].callers {
        ProposalStep(r.states[i - 1], r.steps[i - 1], r.states[i], c);
      }
      UnproposedSoFar(r, i - 1, c);
    }
  }

  /** What a caller that was not cut off holds is the candidate of its own proposing step. */
  lemma {:induction false} ProposalIsOwn(r: Run, i: nat, c: nat, v: string)
    requires IsRun(r) && i < |r.states| && c in r.states[i].callers && !CutOff(r.states[i].callers[c])
    ensures Proposal(r.states[i].callers[c]) == Some(v) <==> exists k :: k < i && ProposesAs(r, k, c, v)
  {
    if Proposal(r.states[i].callers[c]) == None {
      UnproposedSoFar(r, i, c);
    } else {
      assert i > 0;
      var e := r.steps[i - 1];
      ProposalStep(r.states[i - 1], e, r.states[i], c);
      if e.Create? && e.c == c {
        UnproposedSoFar(r, i - 1, c);
        assert ProposesAs(r, i - 1, c, e.candidate);
      } else {
        ProposalIsOwn(r, i - 1, c, v);
        assert forall k :: k < i && ProposesAs(r, k, c, v) ==> k < i - 1;
      }
    }
  }

  /** A caller reports created if and only if it proposed the value that was committed. */
  lemma CreatedIffProposed(r: Run, i: nat, c: nat)
    requires IsRun(r) && ReturnedAt(r, i, c)
    ensures Identity(r.states[i].rows) == Some(Result(r, i, c).value)
    ensures Result(r, i, c).created <==> exists k :: k < i && ProposesAs(r, k, c, Result(r, i, c).value)
  {
    RunInv(r, i);
    assert CallerOk(r.states[i].rows, r.states[i].callers[c]);
    ProposalIsOwn(r, i, c, Result(r, i, c).value);
  }

  /** Caller `c`, returned by state `i`, had proposed `value`. */
  ghost predicate HadProposed(r: Run, i: nat, c: nat, value: string)
  {
    exists k :: k < i && ProposesAs(r, k, c, value)
  }

  /** Two callers both report created if and only if both proposed the one committed value. */
  lemma BothCreatedIff(r: Run, i: nat, c: nat, j: nat, d: nat, value: string)
    requires IsRun(r) && ReturnedAt(r, i, c) && ReturnedAt(r, j, d)
    requires Identity(r.states[i].rows) == Some(value)
    ensures Result(r, i, c).created && Result(r, j, d).created <==> HadProposed(r, i, c, value) && HadProposed(r, j, d, value)
  {
    CallersAgree(r, i, c, j, d);
    CreatedIffProposed(r, i, c);
    CreatedIffProposed(r, j, d);
  }

  /** So with distinct candidates at most one caller reports created. */
  lemma CreatedOnceForDistinctCandidates(r: Run, i: nat, c: nat, j: nat, d: nat)
    requires IsRun(r) && ReturnedAt(r, i, c) && ReturnedAt(r, j, d)
    requires forall v :: !(HadProposed(r, i, c, v) && HadProposed(r, j, d, v))
    ensures !(Result(r, i, c).created && Result(r, j, d).created)
  {
    CreatedIffProposed(r, i, c);
    BothCreatedIff(r, i, c, j, d, Result(r, i, c).value);
  }

  // ------------------------------------------------------------ created twice

  function Last(r: Run): State
    requires |r.states| > 0
  {
    r.states[|r.states| - 1]
  }

  lemma Extend(r: Run, e: Step) returns (r': Run)
    requires IsRun(r) && Enabled(Last(r), e)
    ensures IsRun(r') && r'.states == r.states + [Apply(Last(r), e)]
  {
    r' := Run(r.states + [Apply(Last(r), e)], r.steps + [e]);
    forall i | 0 <= i < |r'.steps|
      ensures Follows(r'.states[i], r'.steps[i], r'.states[i + 1])
    {
      if i < |r.steps| {
        assert Follows(r.states[i], r.steps[i], r.states[i + 1]);
      }
    }
  }

  predicate BothCreated(r: Run, i: int, c: nat, d: nat)
  {
    && c != d && ReturnedAt(r, i, c) && ReturnedAt(r, i, d)
    && r.states[i].callers[c].created && r.states[i].callers[d].created
  }

  lemma TwoCallersHoldCandidate(candidate: string) returns (r: Run)
    requires candidate != ""
    ensures IsRun(r) && Last(r).rows == map[] && 0 in Last(r).callers && 1 in Last(r).callers
    ensures Last(r).callers[0] == Last(r).callers[1] == HasCandidate(candidate)
  {
    r := Run([State(map[], map[], map[])], []);
    r := Extend(r, Call(0));
    r := Extend(r, Call(1));
    r := Extend(r, FirstRead(0));
    r := Extend(r, FirstRead(1));
    r := Extend(r, Create(0, candidate));
    r := Extend(r, Create(1, candidate));
  }

  /** `created` means "the committed value equals my candidate": with one hardware UUID two callers report it. */
  lemma BothCanReportCreated(candidate: string)
    requires candidate != ""
    ensures exists r, i, c, d :: IsRun(r) && BothCreated(r, i, c, d)
  {
    var r := TwoCallersHoldCandidate(candidate);
    r := Extend(r, Upsert(0));
    r := Extend(r, Upsert(1));
    r := Extend(r, ReRead(0));
    r := Extend(r, ReRead(1));
    assert BothCreated(r, |r.states| - 1, 0, 1);
  }

  // ------------------------------------------------------------ one call on its own

  /** The states of one call that nobody interrupts, from its start to its last statement. */
  function SoloCall(s: State, c: nat, candidate: string): State
    requires c !in s.callers
  {
    var read := Apply(Apply(s, Call(c)), FirstRead(c));
    if !read.callers[c].NeedsCandidate? then read
    else
      var proposed := Apply(read, Create(c, candidate));
      if !proposed.callers[c].HasCandidate? then proposed
      else Apply(Apply(proposed, Upsert(c)), ReRead(c))
  }

  /** A non-empty row is returned as it is; otherwise a non-empty candidate is stored and returned, and an empty one is an error. */
  lemma SoloCallReturns(s: State, c: nat, candidate: string)
    requires c !in s.callers
    ensures var s', found := SoloCall(s, c, candidate), MACHINE_ID in s.rows && s.rows[MACHINE_ID] != "";
      && (found ==> s'.rows == s.rows && s'.callers[c] == Returned(s.rows[MACHINE_ID], false, None))
      && (!found && candidate == "" ==> s'.rows == s.rows && s'.callers[c] == Errored)
      && (!found && candidate != "" ==>
            s'.rows == s.rows[MACHINE_ID := candidate] && s'.callers[c] == Returned(candidate, true, Some(candidate)))
  {
  }

  /** A caller whose first read finds an identity proposes nothing, ever. */
  lemma {:induction false} ReadersDoNotPropose(r: Run, i: nat, k: nat, c: nat)
    requires IsRun(r) && i < k < |r.states| && r.steps[i] == FirstRead(c) && Identity(r.states[i].rows).Some?
    ensures c in r.states[k].callers && r.states[k].callers[c] == Returned(Identity(r.states[i].rows).value, false, None)
    ensures forall j, v :: i <= j < k ==> !ProposesAs(r, j, c, v)
    decreases k
  {
    assert Follows(r.states[k - 1], r.steps[k - 1], r.states[k]);
    if i + 1 < k {
      ReadersDoNotPropose(r, i, k - 1, c);
    }
  }

  predicate Waiting(pc: Caller)
  {
    pc.Reading? || pc.NeedsCandidate? || pc.HasCandidate? || pc.Written?
  }

  /** A caller that has not returned or failed has a statement to run, whatever the others do. */
  lemma CallersCanGoOn(s: State, c: nat, candidate: string)
    requires c in s.callers && Waiting(s.callers[c])
    ensures Enabled(s, FirstRead(c)) || Enabled(s, Create(c, candidate)) || Enabled(s, Upsert(c)) || Enabled(s, ReRead(c))
  {
  }

  // ------------------------------------------------------------ node placement

  /** What one committed statement does to the placement pair. */
  datatype Change = Keep | Override(group: Option<string>, zone: Option<string>) | Clear

  function Change1(s: State, e: Step): Change
    requires Enabled(s, e)
  {
    match e
    case SetKey(key, value) =>
      if key == NODE_GROUP then Override(Some(value), None)
      else if key == COMPUTE_ZONE then Override(None, Some(value))
      else Keep
    case UpdatePlacement(group, zone) => Override(group, zone)
    case Unenroll => Clear
    case ExportReply(x, resolved) =>
      if resolved == s.exports[x].sent then Keep else Override(Some(resolved.nodeGroup), Some(resolved.computeZone))
    case _ => Keep
  }

  /** An override replaces exactly the fields it supplies. */
  function Changed(p: Placement, change: Change): Placement
  {
    match change
    case Keep => p
    case Override(group, zone) =>
      Placement(if group.Some? then group.value else p.nodeGroup, if zone.Some? then zone.value else p.computeZone)
    case Clear => Placement("", "")
  }

  /** The fold of the changes committed by the first `i` steps. */
  function Folded(r: Run, i: nat): Placement
    requires IsRun(r) && i < |r.states|
  {
    if i == 0 then ReadPlacement(r.states[0].rows)
    else
      assert Follows(r.states[i - 1], r.steps[i - 1], r.states[i]);
      Changed(Folded(r, i - 1), Change1(r.states[i - 1], r.steps[i - 1]))
  }

  lemma PlacementStep(s: State, e: Step, s': State)
    requires Follows(s, e, s')
    ensures ReadPlacement(s'.rows) == Changed(ReadPlacement(s.rows), Change1(s, e))
  {
    KeysDiffer();
  }

  /** At every moment of every run the placement a reader gets is the fold of the changes committed so far. */
  lemma {:induction false} PlacementIsFold(r: Run, i: nat)
    requires IsRun(r) && i < |r.states|
    ensures ReadPlacement(r.states[i].rows) == Folded(r, i)
  {
    if i > 0 {
      PlacementIsFold(r, i - 1);
      PlacementStep(r.states[i - 1], r.steps[i - 1], r.states[i]);
    }
  }

  lemma {:induction false} AskedReadsAPrefix(r: Run, j: nat, x: nat) returns (i: nat)
    requires IsRun(r) && j < |r.states| && x in r.states[j].exports && r.states[j].exports[x].Asked?
    ensures i < j && r.steps[i] == ExportRead(x)
    ensures r.states[j].exports[x].sent == ReadPlacement(r.states[i].rows)
  {
    assert j > 0;
    assert Follows(r.states[j - 1], r.steps[j - 1], r.states[j]);
    if r.steps[j - 1] == ExportRead(x) {
      i := j - 1;
    } else {
      i := AskedReadsAPrefix(r, j - 1, x);
    }
  }

  /** Every placement an export sends is the fold of a prefix of the committed changes: no torn pair. */
  lemma ExportSendsAFoldedPair(r: Run, j: nat, x: nat)
    requires IsRun(r) && j < |r.states| && x in r.states[j].exports && r.states[j].exports[x].Asked?
    ensures exists i :: 0 <= i < j && r.steps[i] == ExportRead(x) && r.states[j].exports[x].sent == Folded(r, i)
  {
    var i := AskedReadsAPrefix(r, j, x);
    PlacementIsFold(r, i);
  }

  /** No statement between states `i` and `j` touches the placement. */
  ghost predicate Quiet(r: Run, i: nat, j: nat)
    requires IsRun(r)
  {
    forall k :: i <= k < j && k < |r.steps| ==> Unmoved(r.states[k], r.steps[k])
  }

  predicate Unmoved(s: State, e: Step)
  {
    Enabled(s, e) && Change1(s, e).Keep?
  }

  lemma {:induction false} QuietKeepsPlacement(r: Run, i: nat, j: nat)
    requires IsRun(r) && i <= j < |r.states| && Quiet(r, i, j)
    ensures ReadPlacement(r.states[j].rows) == ReadPlacement(r.states[i].rows)
    decreases j
  {
    if i < j {
      QuietKeepsPlacement(r, i, j - 1);
      PlacementStep(r.states[j - 1], r.steps[j - 1], r.states[j]);
      assert Unmoved(r.states[j - 1], r.steps[j - 1]);
    }
  }

  /** The step at which export `x` read the placement it sent. */
  ghost predicate ReadsAt(r: Run, x: nat, i: nat)
    requires IsRun(r)
  {
    i < |r.steps| && r.steps[i] == ExportRead(x)
  }

  lemma {:induction false} ReadsOnce(r: Run, x: nat, i: nat, j: nat)
    requires IsRun(r) && ReadsAt(r, x, i) && i < j < |r.states|
    ensures x in r.states[j].exports
    ensures r.states[j].exports[x].Asked? ==> r.states[j].exports[x].sent == ReadPlacement(r.states[i].rows)
    decreases j
  {
    assert Follows(r.states[j - 1], r.steps[j - 1], r.states[j]);
    if i + 1 < j {
      ReadsOnce(r, x, i, j - 1);
    }
  }

  /**
   An export whose reply is handled at step `j` leaves the store equal to the
   backend's pair exactly when it wrote, or the placement at that moment is still
   what it read; with no other placement writer since the read, always.
   */
  lemma ExportStoresTheReply(r: Run, x: nat, i: nat, j: nat)
    requires IsRun(r) && ReadsAt(r, x, i) && i < j < |r.steps|
    requires r.steps[j].ExportReply? && r.steps[j].x == x
    ensures var sent, now := ReadPlacement(r.states[i].rows), ReadPlacement(r.states[j].rows);
      ReadPlacement(r.states[j + 1].rows) == r.steps[j].resolved
      <==> r.steps[j].resolved != sent || now == sent
    ensures Quiet(r, i, j) ==> ReadPlacement(r.states[j + 1].rows) == r.steps[j].resolved
  {
    ReadsOnce(r, x, i, j);
    assert Follows(r.states[j], r.steps[j], r.states[j + 1]);
    PlacementStep(r.states[j], r.steps[j], r.states[j + 1]);
    if Quiet(r, i, j) {
      QuietKeepsPlacement(r, i, j);
    }
  }
}
