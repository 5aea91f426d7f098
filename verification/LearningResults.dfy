/** What extraction yields and when decisions succeed, in terms of the observations and of the review log. */
module LearningResults {
  import opened Learning

  // ---------------------------------------------------------------------------------------------
  // Extraction
  // ---------------------------------------------------------------------------------------------

  /** There is evidence, enough of it, and the confidence reaches the threshold. */
  predicate Strong(o: Observation, threshold: real, minEvidence: int) {
    0 < o.evidence && minEvidence <= o.evidence && threshold <= o.confidence
  }

  ghost predicate Observed(os: seq<Observation>, hash: string, threshold: real, minEvidence: int) {
    exists o :: o in os && o.hash == hash && Strong(o, threshold, minEvidence)
  }

  ghost predicate Open(cs: seq<Candidate>, hash: string) {
    forall c :: c in cs && c.hash == hash ==> c.state == Rejected
  }

  ghost predicate Present(cs: seq<Candidate>, from: nat, hash: string) {
    exists i :: from <= i < |cs| && cs[i] == Candidate(hash, Scored, 0, "")
  }

  /** One observation adds a scored candidate exactly if it is strong and every candidate with its hash is rejected. */
  lemma ExtractsOne(cs: seq<Candidate>, o: Observation, threshold: real, minEvidence: int)
    ensures Extracted(cs, [o], threshold, minEvidence)
         == if Strong(o, threshold, minEvidence) && Open(cs, o.hash) then cs + [Candidate(o.hash, Scored, 0, "")]
            else cs
  {
    assert [o][..0] == [];
  }

  /** Observations are taken one after the other. */
  lemma {:induction false} ExtractsInTurn(cs: seq<Candidate>, a: seq<Observation>, b: seq<Observation>, threshold: real,
                                          minEvidence: int)
    ensures Extracted(cs, a + b, threshold, minEvidence)
         == Extracted(Extracted(cs, a, threshold, minEvidence), b, threshold, minEvidence)
  {
    hide ExtractOne;
    if b == [] {
      assert a + b == a;
    } else {
      ExtractsInTurn(cs, a, b[..|b| - 1], threshold, minEvidence);
      assert (a + b)[..|a + b| - 1] == a + b[..|b| - 1];
    }
  }

  lemma NoneTwice(cs: seq<Candidate>, from: nat, hash: string)
    requires from <= |cs| && Open(cs, hash)
    ensures !Present(cs, from, hash)
  {
    forall i | from <= i < |cs| && cs[i].hash == hash ensures cs[i].state == Rejected {
      assert cs[i] in cs;
    }
  }

  lemma PresentSnoc(cs: seq<Candidate>, from: nat, hash: string, added: string)
    requires from <= |cs|
    ensures Present(cs + [Candidate(added, Scored, 0, "")], from, hash) <==> Present(cs, from, hash) || hash == added
  {
    var r := cs + [Candidate(added, Scored, 0, "")];
    assert r[|cs|] == Candidate(added, Scored, 0, "");
    forall i | from <= i < |cs| && cs[i] == Candidate(hash, Scored, 0, "")
      ensures r[i] == Candidate(hash, Scored, 0, "")
    {
    }
  }

  lemma OpenSnoc(cs: seq<Candidate>, hash: string, added: string)
    ensures Open(cs + [Candidate(added, Scored, 0, "")], hash) <==> Open(cs, hash) && hash != added
  {
    var r := cs + [Candidate(added, Scored, 0, "")];
    assert r[|cs|] in r;
    assert forall c :: c in r <==> c in cs || c == Candidate(added, Scored, 0, "");
  }

  lemma ObservedSnoc(os: seq<Observation>, o: Observation, hash: string, threshold: real, minEvidence: int)
    ensures Observed(os + [o], hash, threshold, minEvidence)
      <==> Observed(os, hash, threshold, minEvidence) || (o.hash == hash && Strong(o, threshold, minEvidence))
  {
    hide Strong;
    var all := os + [o];
    assert all[|os|] in all;
    assert forall x :: x in all <==> x in os || x == o;
  }

  lemma ExtractsNothingFromNothing(cs: seq<Candidate>, hash: string, threshold: real, minEvidence: int)
    ensures Extracted(cs, [], threshold, minEvidence) == cs
    ensures !Observed([], hash, threshold, minEvidence) && !Present(cs, |cs|, hash)
  {
  }

  /** Extraction adds a candidate for a hash exactly if some strong observation has that hash and every candidate with
      it so far is rejected; afterwards the hash is taken exactly if it was, or was so observed. */
  lemma {:induction false} ExtractedIff(cs: seq<Candidate>, os: seq<Observation>, threshold: real, minEvidence: int,
                                        hash: string)
    ensures var r := Extracted(cs, os, threshold, minEvidence);
      && |cs| <= |r|
      && (Present(r, |cs|, hash) <==> Observed(os, hash, threshold, minEvidence) && Open(cs, hash))
      && (Open(r, hash) <==> Open(cs, hash) && !Observed(os, hash, threshold, minEvidence))
  {
    hide *;
    if os == [] {
      ExtractsNothingFromNothing(cs, hash, threshold, minEvidence);
    } else {
      var init, o := os[..|os| - 1], os[|os| - 1];
      assert os == init + [o];
      ExtractedIff(cs, init, threshold, minEvidence, hash);
      var q := Extracted(cs, init, threshold, minEvidence);
      ExtractsInTurn(cs, init, [o], threshold, minEvidence);
      ExtractsOne(q, o, threshold, minEvidence);
      ObservedSnoc(init, o, hash, threshold, minEvidence);
      PresentSnoc(q, |cs|, hash, o.hash);
      OpenSnoc(q, hash, o.hash);
    }
  }

  // ---------------------------------------------------------------------------------------------
  // Decisions
  // ---------------------------------------------------------------------------------------------

  /** Candidate `id` replaced, and the decision logged. */
  ghost predicate Changed(t: Tables, t': Tables, id: nat, c: Candidate, decision: Decision) {
    && 1 <= id <= |t.candidates| && t'.candidates == t.candidates[id - 1 := c]
    && t'.reviews == t.reviews + [Review(id, decision)]
  }

  lemma LogTellsState(t: Tables, id: nat)
    requires Sound(t)
    ensures var log := LogOf(t.reviews, id);
      1 <= id <= |t.candidates| ==>
        && (t.candidates[id - 1].state in {Draft, Scored} <==> log == [])
        && (t.candidates[id - 1].state == Approved <==> log == [Approval])
        && t.candidates[id - 1].version == |log| / 2
  {
    hide LogOf;
    if 1 <= id <= |t.candidates| {
      assert LogOf(t.reviews, (id - 1) + 1) == LogFor(t.candidates[id - 1].state);
    }
  }

  /** In every run: a candidate is approved exactly if it exists and nothing was decided about it yet, and the result
      is the number of the new review; otherwise nothing changes. */
  lemma ApprovesIff(steps: seq<Step>, id: nat)
    ensures var t := After(steps); var (t', r) := ApproveResult(t, id);
      if 1 <= id <= |t.candidates| && LogOf(t.reviews, id) == [] then
        && Changed(t, t', id, t.candidates[id - 1].(state := Approved), Approval) && r == Done(|t'.reviews|)
      else
        t' == t && r == Failed(if 1 <= id <= |t.candidates| then WrongState(t.candidates[id - 1].state) else NotFound)
  {
    RunsAreSound(steps);
    LogTellsState(After(steps), id);
    hide After, LogOf, Sound;
  }

  /** A candidate is rejected exactly if it could be approved and there is a reason, which is asked for first. */
  lemma RejectsIff(steps: seq<Step>, id: nat, reason: string)
    ensures var t := After(steps); var (t', r) := RejectResult(t, id, reason);
      if reason != "" && 1 <= id <= |t.candidates| && LogOf(t.reviews, id) == [] then
        && Changed(t, t', id, t.candidates[id - 1].(state := Rejected), Rejection) && r == Done(|t'.reviews|)
      else
        && t' == t
        && r == Failed(
             if reason == "" then ReasonRequired
             else if 1 <= id <= |t.candidates| then WrongState(t.candidates[id - 1].state) else NotFound)
  {
    RunsAreSound(steps);
    LogTellsState(After(steps), id);
    hide After, LogOf, Sound;
  }

  /** A candidate is ingested exactly if its approval is all that was decided about it and there is a memory engine.
      Its version is then 1, and it names its memory entry, or the error with which storing it failed. */
  lemma IngestsIff(steps: seq<Step>, id: nat, m: Memory)
    ensures var t := After(steps); var (t', r) := IngestResult(t, id, m);
      if 1 <= id <= |t.candidates| && LogOf(t.reviews, id) == [Approval] && m != Missing then
        && Changed(t, t', id, Candidate(t.candidates[id - 1].hash, Ingested, 1,
                                        if m.Stores? then m.id else "error:" + m.message), Ingestion)
        && r == Done(1)
      else
        && t' == t
        && r == Failed(
             if !(1 <= id <= |t.candidates|) then NotFound
             else if LogOf(t.reviews, id) == [Approval] then NoMemory
             else WrongState(t.candidates[id - 1].state))
  {
    RunsAreSound(steps);
    LogTellsState(After(steps), id);
    hide After, LogOf, Sound;
  }
}
