/** The approval machine for learning candidates of one project.

    A candidate's identifier is its position in the candidate table plus one. */
module Learning {

  datatype State = Draft | Scored | Approved | Rejected | Ingested

  datatype Observation = Observation(hash: string, confidence: real, evidence: nat)

  datatype Candidate = Candidate(hash: string, state: State, version: nat, memoryId: string)

  datatype Decision = Approval | Rejection | Ingestion

  datatype Review = Review(candidate: nat, decision: Decision)

  datatype Tables = Tables(candidates: seq<Candidate>, reviews: seq<Review>)

  datatype Error = NotFound | WrongState(state: State) | ReasonRequired | NoMemory

  datatype Result = Done(value: nat) | Failed(error: Error)

  /** What the memory engine does with a candidate: there is none, it stores it, or it raises. */
  datatype Memory = Missing | Stores(id: string) | Raises(message: string)

  // ---------------------------------------------------------------------------------------------
  // Operations
  // ---------------------------------------------------------------------------------------------

  predicate Qualifies(o: Observation, threshold: real, minEvidence: int) {
    o.evidence > 0 && o.evidence >= minEvidence && o.confidence >= threshold
  }

  /** A candidate with this hash that is not rejected. */
  predicate Taken(cs: seq<Candidate>, hash: string) {
    exists c :: c in cs && c.hash == hash && !c.state.Rejected?
  }

  function NewCandidate(o: Observation): Candidate { Candidate(o.hash, Scored, 0, "") }

  function ExtractOne(cs: seq<Candidate>, o: Observation, threshold: real, minEvidence: int): seq<Candidate> {
    if Qualifies(o, threshold, minEvidence) && !Taken(cs, o.hash) then cs + [NewCandidate(o)] else cs
  }

  function Extracted(cs: seq<Candidate>, os: seq<Observation>, threshold: real, minEvidence: int): seq<Candidate> {
    if os == [] then cs
    else ExtractOne(Extracted(cs, os[..|os| - 1], threshold, minEvidence), os[|os| - 1], threshold, minEvidence)
  }

  predicate Known(t: Tables, id: nat) { 1 <= id <= |t.candidates| }

  function Get(t: Tables, id: nat): Candidate
    requires Known(t, id)
  {
    t.candidates[id - 1]
  }

  predicate Decided(s: State) { s.Approved? || s.Rejected? || s.Ingested? }

  function Move(t: Tables, id: nat, c: Candidate, decision: Decision): Tables
    requires Known(t, id)
  {
    Tables(t.candidates[id - 1 := c], t.reviews + [Review(id, decision)])
  }

  function Judge(t: Tables, id: nat, state: State, decision: Decision): (Tables, Result) {
    if !Known(t, id) then (t, Failed(NotFound))
    else if Decided(Get(t, id).state) then (t, Failed(WrongState(Get(t, id).state)))
    else (Move(t, id, Get(t, id).(state := state), decision), Done(|t.reviews| + 1))
  }

  function ApproveResult(t: Tables, id: nat): (Tables, Result) { Judge(t, id, Approved, Approval) }

  function RejectResult(t: Tables, id: nat, reason: string): (Tables, Result) {
    if reason == "" then (t, Failed(ReasonRequired)) else Judge(t, id, Rejected, Rejection)
  }

  function MemoryId(m: Memory): string
    requires !m.Missing?
  {
    match m
    case Stores(id) => id
    case Raises(message) => "error:" + message
  }

  function IngestResult(t: Tables, id: nat, m: Memory): (Tables, Result) {
    if !Known(t, id) then (t, Failed(NotFound))
    else
      var c := Get(t, id);
      if !c.state.Approved? then (t, Failed(WrongState(c.state)))
      else if m.Missing? then (t, Failed(NoMemory))
      else (Move(t, id, Candidate(c.hash, Ingested, c.version + 1, MemoryId(m)), Ingestion), Done(c.version + 1))
  }

  datatype Step =
    | Extraction(observations: seq<Observation>, threshold: real, minEvidence: int)
    | Approving(id: nat)
    | Rejecting(id: nat, reason: string)
    | Ingesting(id: nat, memory: Memory)

  function Next(t: Tables, step: Step): Tables {
    match step
    case Extraction(os, threshold, minEvidence) =>
      t.(candidates := Extracted(t.candidates, os, threshold, minEvidence))
    case Approving(id) => ApproveResult(t, id).0
    case Rejecting(id, reason) => RejectResult(t, id, reason).0
    case Ingesting(id, memory) => IngestResult(t, id, memory).0
  }

  function After(steps: seq<Step>): Tables {
    if steps == [] then Tables([], []) else Next(After(steps[..|steps| - 1]), steps[|steps| - 1])
  }

  // ---------------------------------------------------------------------------------------------
  // What every run keeps
  // ---------------------------------------------------------------------------------------------

  /** At most one candidate for each hash is not rejected. */
  ghost predicate Unique(cs: seq<Candidate>) {
    forall i, j :: 0 <= i < j < |cs| && cs[i].hash == cs[j].hash ==> cs[i].state.Rejected? || cs[j].state.Rejected?
  }

  /** The decisions about a candidate, in order. */
  function LogOf(reviews: seq<Review>, id: nat): seq<Decision> {
    if reviews == [] then []
    else
      var rest, last := LogOf(reviews[..|reviews| - 1], id), reviews[|reviews| - 1];
      if last.candidate == id then rest + [last.decision] else rest
  }

  /** The log that belongs to a state. */
  function LogFor(s: State): seq<Decision> {
    match s
    case Draft => []
    case Scored => []
    case Approved => [Approval]
    case Rejected => [Rejection]
    case Ingested => [Approval, Ingestion]
  }

  ghost predicate Versioned(cs: seq<Candidate>) {
    forall i :: 0 <= i < |cs| ==> cs[i].version == if cs[i].state.Ingested? then 1 else 0
  }

  ghost predicate Logged(t: Tables) {
    && (forall i :: 0 <= i < |t.candidates| ==> LogOf(t.reviews, i + 1) == LogFor(t.candidates[i].state))
    && forall id :: id > |t.candidates| ==> LogOf(t.reviews, id) == []
  }

  ghost predicate Sound(t: Tables) { Unique(t.candidates) && Versioned(t.candidates) && Logged(t) }

  lemma {:induction false} ExtractedKeeps(cs: seq<Candidate>, os: seq<Observation>, threshold: real, minEvidence: int)
    requires Unique(cs) && Versioned(cs)
    ensures var r := Extracted(cs, os, threshold, minEvidence);
      && Unique(r) && Versioned(r) && |cs| <= |r| && r[..|cs|] == cs
      && forall i :: |cs| <= i < |r| ==> r[i].state.Scored?
  {
    if os == [] {
      assert cs[..|cs|] == cs;
    } else {
      ExtractedKeeps(cs, os[..|os| - 1], threshold, minEvidence);
    }
  }

  lemma LogSnoc(reviews: seq<Review>, r: Review, id: nat)
    ensures LogOf(reviews + [r], id)
         == if r.candidate == id then LogOf(reviews, id) + [r.decision] else LogOf(reviews, id)
  {
    assert (reviews + [r])[..|reviews|] == reviews;
  }

  lemma MoveKeeps(t: Tables, id: nat, c: Candidate, decision: Decision)
    requires Sound(t) && Known(t, id)
    requires c.hash == Get(t, id).hash && !Get(t, id).state.Rejected?
    requires c.version == (if c.state.Ingested? then 1 else 0)
    requires LogFor(c.state) == LogFor(Get(t, id).state) + [decision]
    ensures Sound(Move(t, id, c, decision))
  {
    hide LogOf, LogFor;
    forall i: nat { LogSnoc(t.reviews, Review(id, decision), i); }
  }

  lemma NextKeepsSound(t: Tables, step: Step)
    requires Sound(t)
    ensures Sound(Next(t, step))
  {
    hide Extracted, LogOf, MemoryId;
    match step
    case Extraction(os, threshold, minEvidence) =>
      ExtractedKeeps(t.candidates, os, threshold, minEvidence);
      var r := Extracted(t.candidates, os, threshold, minEvidence);
      assert forall i :: 0 <= i < |t.candidates| ==> r[..|t.candidates|][i] == r[i];
    case Approving(id) =>
      if Known(t, id) && !Decided(Get(t, id).state) {
        MoveKeeps(t, id, Get(t, id).(state := Approved), Approval);
      }
    case Rejecting(id, reason) =>
      if Known(t, id) && !Decided(Get(t, id).state) {
        MoveKeeps(t, id, Get(t, id).(state := Rejected), Rejection);
      }
    case Ingesting(id, m) =>
      if Known(t, id) && Get(t, id).state.Approved? && !m.Missing? {
        var c := Get(t, id);
        MoveKeeps(t, id, Candidate(c.hash, Ingested, c.version + 1, MemoryId(m)), Ingestion);
      }
  }

  /** Over every run: hashes are unique among what is not rejected, versions count ingestions, and each review log is
      the one that belongs to the candidate's state. */
  lemma {:induction false} RunsAreSound(steps: seq<Step>)
    ensures Sound(After(steps))
  {
    if steps != [] {
      RunsAreSound(steps[..|steps| - 1]);
      hide Sound, Next;
      NextKeepsSound(After(steps[..|steps| - 1]), steps[|steps| - 1]);
    }
  }

  // ---------------------------------------------------------------------------------------------
  // What is final
  // ---------------------------------------------------------------------------------------------

  lemma {:induction false} ExtractedExtends(cs: seq<Candidate>, os: seq<Observation>, threshold: real, minEvidence: int)
    ensures cs <= Extracted(cs, os, threshold, minEvidence)
  {
    if os != [] {
      ExtractedExtends(cs, os[..|os| - 1], threshold, minEvidence);
    }
  }

  /** The ways a state may go in one step. */
  predicate Follows(s: State, s': State) {
    s == s' || (!Decided(s) && (s'.Approved? || s'.Rejected?)) || (s.Approved? && s'.Ingested?)
  }

  /** A step forgets no candidate, changes no hash, and moves states only forward. */
  lemma NextFollows(t: Tables, step: Step, i: nat)
    requires i < |t.candidates|
    ensures var c, cs' := t.candidates[i], Next(t, step).candidates;
      && i < |cs'| && cs'[i].hash == c.hash && Follows(c.state, cs'[i].state)
      && (cs'[i].state == c.state ==> cs'[i] == c)
  {
    hide Extracted, MemoryId;
    match step
    case Extraction(os, threshold, minEvidence) => ExtractedExtends(t.candidates, os, threshold, minEvidence);
    case Approving(id) =>
    case Rejecting(id, reason) =>
    case Ingesting(id, m) =>
  }

  /** Rejected and ingested candidates never change again. */
  lemma {:induction false} RejectedAndIngestedAreFinal(before: seq<Step>, behind: seq<Step>, i: nat)
    requires i < |After(before).candidates|
    requires After(before).candidates[i].state.Rejected? || After(before).candidates[i].state.Ingested?
    ensures i < |After(before + behind).candidates|
    ensures After(before + behind).candidates[i] == After(before).candidates[i]
  {
    if behind == [] {
      assert before + behind == before;
    } else {
      var init, step := behind[..|behind| - 1], behind[|behind| - 1];
      assert (before + behind)[..|before + behind| - 1] == before + init;
      RejectedAndIngestedAreFinal(before, init, i);
      NextFollows(After(before + init), step, i);
      hide Next;
    }
  }

  // ---------------------------------------------------------------------------------------------
  // Extraction
  // ---------------------------------------------------------------------------------------------

  lemma {:induction false} ExtractedTakes(cs: seq<Candidate>, os: seq<Observation>, threshold: real, minEvidence: int,
                                          o: Observation)
    requires o in os && Qualifies(o, threshold, minEvidence)
    ensures Taken(Extracted(cs, os, threshold, minEvidence), o.hash)
  {
    hide Qualifies;
    var init, last := os[..|os| - 1], os[|os| - 1];
    var r := Extracted(cs, init, threshold, minEvidence);
    if o == last {
      assert NewCandidate(o) in r + [NewCandidate(o)];
    } else {
      ExtractedTakes(cs, init, threshold, minEvidence, o);
      var c :| c in r && c.hash == o.hash && !c.state.Rejected?;
      assert c in Extracted(cs, os, threshold, minEvidence);
    }
  }

  lemma {:induction false} ExtractsNothing(cs: seq<Candidate>, os: seq<Observation>, threshold: real, minEvidence: int)
    requires forall o :: o in os && Qualifies(o, threshold, minEvidence) ==> Taken(cs, o.hash)
    ensures Extracted(cs, os, threshold, minEvidence) == cs
  {
    hide Qualifies, Taken;
    if os != [] {
      ExtractsNothing(cs, os[..|os| - 1], threshold, minEvidence);
      assert os[|os| - 1] in os;
    }
  }

  /** Extracting from the same observations again finds nothing new. */
  lemma ExtractTwice(cs: seq<Candidate>, os: seq<Observation>, threshold: real, minEvidence: int)
    ensures var r := Extracted(cs, os, threshold, minEvidence); Extracted(r, os, threshold, minEvidence) == r
  {
    hide Extracted, Qualifies, Taken;
    var r := Extracted(cs, os, threshold, minEvidence);
    forall o | o in os && Qualifies(o, threshold, minEvidence) ensures Taken(r, o.hash) {
      ExtractedTakes(cs, os, threshold, minEvidence, o);
    }
    ExtractsNothing(r, os, threshold, minEvidence);
  }

  // ---------------------------------------------------------------------------------------------
  // Ingestion
  // ---------------------------------------------------------------------------------------------

  /** An approved candidate becomes ingested exactly if there is a memory engine, whether or not that stores it. */
  lemma IngestedIffMemory(t: Tables, id: nat, m: Memory)
    requires Known(t, id) && Get(t, id).state.Approved?
    ensures var (t', r) := IngestResult(t, id, m);
      && (Get(t', id).state.Ingested? <==> !m.Missing?) && (r.Done? <==> !m.Missing?)
      && (m.Raises? ==> Get(t', id).memoryId == "error:" + m.message)
  {
  }

  // ---------------------------------------------------------------------------------------------
  // The engine
  // ---------------------------------------------------------------------------------------------

  class LearningEngine {
    var candidates: seq<Candidate>
    var reviews: seq<Review>

    constructor ()
      ensures State() == After([])
    {
      candidates, reviews := [], [];
    }

    function State(): Tables
      reads this
    {
      Tables(candidates, reviews)
    }

    method InsertCandidate(c: Candidate) returns (id: nat)
      modifies `candidates
      ensures candidates == old(candidates) + [c] && id == |candidates|
    {
      candidates := candidates + [c];
      id := |candidates|;
    }

    method UpdateCandidateState(id: nat, state: State)
      requires Known(State(), id)
      modifies `candidates
      ensures candidates == old(candidates)[id - 1 := old(candidates)[id - 1].(state := state)]
    {
      candidates := candidates[id - 1 := candidates[id - 1].(state := state)];
    }

    method UpdateIngested(id: nat, version: nat, memoryId: string)
      requires Known(State(), id)
      modifies `candidates
      ensures candidates
           == old(candidates)[id - 1 := Candidate(old(candidates)[id - 1].hash, Ingested, version, memoryId)]
    {
      var ingested := candidates[id - 1].(state := Ingested, version := version, memoryId := memoryId);
      candidates := candidates[id - 1 := ingested];
    }

    method InsertReview(id: nat, decision: Decision) returns (reviewId: nat)
      modifies `reviews
      ensures reviews == old(reviews) + [Review(id, decision)] && reviewId == |reviews|
    {
      reviews := reviews + [Review(id, decision)];
      reviewId := |reviews|;
    }

    /** Returns the identifiers of the new candidates. */
    method Extract(observations: seq<Observation>, threshold: real, minEvidence: int) returns (ids: seq<nat>)
      modifies `candidates
      ensures State() == Next(old(State()), Extraction(observations, threshold, minEvidence))
      ensures |ids| == |candidates| - |old(candidates)|
      ensures forall k :: 0 <= k < |ids| ==> ids[k] == |old(candidates)| + 1 + k
    {
      hide Qualifies, Taken;
      ids := [];
      for i := 0 to |observations|
        invariant candidates == Extracted(old(candidates), observations[..i], threshold, minEvidence)
        invariant |ids| == |candidates| - |old(candidates)|
        invariant forall k :: 0 <= k < |ids| ==> ids[k] == |old(candidates)| + 1 + k
      {
        var o := observations[i];
        assert observations[..i + 1][..i] == observations[..i];
        if !Qualifies(o, threshold, minEvidence) {
          continue;
        }
        if Taken(candidates, o.hash) {
          continue;
        }
        var id := InsertCandidate(NewCandidate(o));
        ids := ids + [id];
      }
      assert observations[..|observations|] == observations;
    }

    method Approve(id: nat) returns (r: Result)
      modifies this
      ensures (State(), r) == ApproveResult(old(State()), id)
    {
      if !Known(State(), id) {
        return Failed(NotFound);
      }
      var state := candidates[id - 1].state;
      if Decided(state) {
        return Failed(WrongState(state));
      }
      UpdateCandidateState(id, Approved);
      var reviewId := InsertReview(id, Approval);
      r := Done(reviewId);
    }

    method Reject(id: nat, reason: string) returns (r: Result)
      modifies this
      ensures (State(), r) == RejectResult(old(State()), id, reason)
    {
      if reason == "" {
        return Failed(ReasonRequired);
      }
      if !Known(State(), id) {
        return Failed(NotFound);
      }
      var state := candidates[id - 1].state;
      if Decided(state) {
        return Failed(WrongState(state));
      }
      UpdateCandidateState(id, Rejected);
      var reviewId := InsertReview(id, Rejection);
      r := Done(reviewId);
    }

    method Ingest(id: nat, memory: Memory) returns (r: Result)
      modifies this
      ensures (State(), r) == IngestResult(old(State()), id, memory)
    {
      if !Known(State(), id) {
        return Failed(NotFound);
      }
      var candidate := candidates[id - 1];
      if !candidate.state.Approved? {
        return Failed(WrongState(candidate.state));
      }
      if memory.Missing? {
        return Failed(NoMemory);
      }
      var memoryId := MemoryId(memory);
      var version := candidate.version + 1;
      UpdateIngested(id, version, memoryId);
      var _ := InsertReview(id, Ingestion);
      r := Done(version);
    }
  }
}
