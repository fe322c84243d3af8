/** What a pass over the reviews of a round decides, claim by claim: what waits behind it, and exactly which
    claims it retires. */
module RetirementResults {
  import opened CouncilTypes
  import opened ClaimLedger

  // ----- The survey, claim by claim

  lemma JudgingOne(s: Survey, id: ClaimId, assessments: seq<Assessment>, n: nat, round: nat, commit: bool, other: ClaimId)
    requires other != id
    ensures
      var after := Judge(s, id, assessments, n, round, commit);
      Lookup(after.pending, other) == Lookup(s.pending, other) && forall c: Candidate :: c.id == other ==> (c in after.candidates <==> c in s.candidates)
  {
  }

  /** What becomes of a claim depends on its own assessments and its own wait. */
  lemma JudgingAlone(
    s: Survey, pending: map<ClaimId, Confirmation>, id: ClaimId, assessments: seq<Assessment>, n: nat, round: nat, commit: bool)
    requires Lookup(s.pending, id) == Lookup(pending, id) && forall c :: c in s.candidates ==> c.id != id
    ensures
      var after, alone := Judge(s, id, assessments, n, round, commit), Judge(Survey([], pending), id, assessments, n, round, commit);
      Lookup(after.pending, id) == Lookup(alone.pending, id) && forall c: Candidate :: c.id == id ==> (c in after.candidates <==> c in alone.candidates)
  {
  }

  lemma {:induction false} SurveyJudges(
    claims: seq<Claim>, reviews: seq<seq<Assessment>>, round: nat, commit: bool, pending: map<ClaimId, Confirmation>, id: ClaimId)
    requires DistinctIds(claims)
    ensures
      var s := Surveyed(claims, reviews, round, commit, pending);
      var alone := Judge(Survey([], pending), id, AssessmentsOf(reviews, id), |reviews|, round, commit);
      if id in Ids(claims)
      then Lookup(s.pending, id) == Lookup(alone.pending, id) && forall c: Candidate :: c.id == id ==> (c in s.candidates <==> c in alone.candidates)
      else Lookup(s.pending, id) == Lookup(pending, id) && forall c :: c in s.candidates ==> c.id != id
  {
    if claims != [] {
      var rest, last := claims[..|claims| - 1], claims[|claims| - 1];
      SurveyJudges(rest, reviews, round, commit, pending, id);
      var s := Surveyed(rest, reviews, round, commit, pending);
      assert Ids(claims) == Ids(rest) + {last.id};
      if id == last.id {
        assert id !in Ids(rest);
        JudgingAlone(s, pending, id, AssessmentsOf(reviews, id), |reviews|, round, commit);
      } else {
        JudgingOne(s, last.id, AssessmentsOf(reviews, last.id), |reviews|, round, commit, id);
      }
    }
  }

  // ----- Everyone's assessments

  lemma {:induction false} PickOne(review: seq<Assessment>, id: ClaimId)
    requires exists a :: a in review && a.claim == id
    ensures Pick(review, id) != []
  {
    var a :| a in review && a.claim == id;
    PickMembers(review, id, a);
  }

  /** The review assesses the claim, and no claim twice. */
  predicate Assesses(review: seq<Assessment>, id: ClaimId) {
    ReviewDistinct(review) && exists a :: a in review && a.claim == id
  }

  /** If each review assesses the claim, once, there are as many assessments as reviews. */
  lemma {:induction false} EveryoneOnce(reviews: seq<seq<Assessment>>, id: ClaimId)
    requires forall i :: 0 <= i < |reviews| ==> Assesses(reviews[i], id)
    ensures |AssessmentsOf(reviews, id)| == |reviews|
  {
    if reviews != [] {
      EveryoneOnce(reviews[..|reviews| - 1], id);
      PickAtMostOne(reviews[|reviews| - 1], id);
      PickOne(reviews[|reviews| - 1], id);
    }
  }

  ghost predicate CallsDuplicate(review: seq<Assessment>, id: ClaimId, target: ClaimId) {
    exists a :: a in review && a.claim == id && a.duplicateOf == Some(target)
  }

  ghost predicate CallsNonmaterial(review: seq<Assessment>, id: ClaimId) {
    exists a :: a in review && a.claim == id && a.position == Nonmaterial
  }

  ghost predicate EveryoneCallsDuplicate(reviews: seq<seq<Assessment>>, id: ClaimId, target: ClaimId) {
    forall i: nat :: i < |reviews| ==> CallsDuplicate(reviews[i], id, target)
  }

  ghost predicate EveryoneCallsNonmaterial(reviews: seq<seq<Assessment>>, id: ClaimId) {
    forall i: nat :: i < |reviews| ==> CallsNonmaterial(reviews[i], id)
  }

  ghost predicate SomeoneHasEvidence(reviews: seq<seq<Assessment>>, id: ClaimId) {
    exists i: nat, a :: i < |reviews| && a in reviews[i] && a.claim == id && a.evidence != []
  }

  lemma OneAssessment(review: seq<Assessment>, a: Assessment, b: Assessment)
    requires ReviewDistinct(review) && a in review && b in review && a.claim == b.claim
    ensures a == b
  {
  }

  predicate AllDistinct(reviews: seq<seq<Assessment>>) {
    forall i :: 0 <= i < |reviews| ==> ReviewDistinct(reviews[i])
  }

  lemma Given(reviews: seq<seq<Assessment>>, id: ClaimId)
    ensures forall a :: a in AssessmentsOf(reviews, id) <==> a.claim == id && exists i: nat :: i < |reviews| && a in reviews[i]
  {
    forall a ensures a in AssessmentsOf(reviews, id) <==> a.claim == id && exists i: nat :: i < |reviews| && a in reviews[i] {
      AssessmentMembers(reviews, id, a);
    }
  }

  /** Where no review assesses a claim twice, what all assessments say, as many as reviews, is what everyone
      says. */
  lemma DuplicateToEveryone(reviews: seq<seq<Assessment>>, id: ClaimId, target: ClaimId)
    requires reviews != [] && AllDistinct(reviews)
    ensures DuplicateIn(reviews, id, target) <==> EveryoneCallsDuplicate(reviews, id, target)
  {
    Given(reviews, id);
    if DuplicateIn(reviews, id, target) {
      forall i: nat | i < |reviews| ensures CallsDuplicate(reviews[i], id, target) {
        EveryoneGave(reviews, id, i);
      }
    }
    if EveryoneCallsDuplicate(reviews, id, target) {
      forall i: nat | i < |reviews| ensures Assesses(reviews[i], id) {
        assert CallsDuplicate(reviews[i], id, target);
      }
      EveryoneOnce(reviews, id);
      forall a | a in AssessmentsOf(reviews, id) ensures a.duplicateOf == Some(target) {
        var i: nat :| i < |reviews| && a in reviews[i];
        assert CallsDuplicate(reviews[i], id, target);
        var b :| b in reviews[i] && b.claim == id && b.duplicateOf == Some(target);
        OneAssessment(reviews[i], a, b);
      }
    }
  }

  lemma NonmaterialToEveryone(reviews: seq<seq<Assessment>>, id: ClaimId)
    requires reviews != [] && AllDistinct(reviews)
    ensures NonmaterialIn(reviews, id) <==> EveryoneCallsNonmaterial(reviews, id)
  {
    Given(reviews, id);
    if NonmaterialIn(reviews, id) {
      forall i: nat | i < |reviews| ensures CallsNonmaterial(reviews[i], id) {
        EveryoneGave(reviews, id, i);
      }
    }
    if EveryoneCallsNonmaterial(reviews, id) {
      forall i: nat | i < |reviews| ensures Assesses(reviews[i], id) {
        assert CallsNonmaterial(reviews[i], id);
      }
      EveryoneOnce(reviews, id);
      forall a | a in AssessmentsOf(reviews, id) ensures a.position == Nonmaterial {
        var i: nat :| i < |reviews| && a in reviews[i];
        assert CallsNonmaterial(reviews[i], id);
        var b :| b in reviews[i] && b.claim == id && b.position == Nonmaterial;
        OneAssessment(reviews[i], a, b);
      }
    }
  }

  lemma EvidenceOfSomeone(reviews: seq<seq<Assessment>>, id: ClaimId)
    ensures HasEvidence(AssessmentsOf(reviews, id)) <==> SomeoneHasEvidence(reviews, id)
  {
    Given(reviews, id);
  }

  // ----- What waits behind a pass

  predicate AllAssessed(active: seq<Claim>, reviews: seq<seq<Assessment>>) {
    reviews != [] && forall id :: id in Ids(active) ==> |AssessmentsOf(reviews, id)| == |reviews|
  }

  /** Unanimity about a duplicate, whatever the duplicate is of. */
  lemma UnanimousIsDuplicate(reviews: seq<seq<Assessment>>, id: ClaimId)
    requires reviews != [] && |AssessmentsOf(reviews, id)| == |reviews|
    ensures UnanimousDuplicate(AssessmentsOf(reviews, id)) <==> exists target :: DuplicateIn(reviews, id, target)
    ensures forall target :: DuplicateIn(reviews, id, target) ==> AssessmentsOf(reviews, id)[0].duplicateOf == Some(target)
  {
    var assessments := AssessmentsOf(reviews, id);
    if UnanimousDuplicate(assessments) {
      assert DuplicateIn(reviews, id, assessments[0].duplicateOf.value);
    }
    forall target | DuplicateIn(reviews, id, target) ensures assessments[0].duplicateOf == Some(target) {
      assert assessments[0] in assessments;
    }
  }

  lemma JudgingWaits(h: History, round: nat, id: ClaimId, pending: map<ClaimId, Confirmation>, commit: bool)
    requires round > 0 && round in h && 0 !in h && h[round] != [] && |AssessmentsOf(h[round], id)| == |h[round]|
    requires if !commit && round == 1 then id !in pending else WaitsRight(h, if commit then round else round - 1, id, Lookup(pending, id))
    ensures WaitsRight(h, round, id, Lookup(Judge(Survey([], pending), id, AssessmentsOf(h[round], id), |h[round]|, round, commit).pending, id))
  {
    UnanimousIsDuplicate(h[round], id);
  }

  /** Behind every pass, committed or not, the waits are exact for its round. */
  lemma PassWaits(l: Ledger, h: History, round: nat, commit: bool)
    requires round > 0 && round in h && 0 !in h && DistinctIds(l.active) && AllAssessed(l.active, h[round])
    requires WaitsExactly(h, if commit then round else round - 1, l)
    ensures WaitsExactly(h, round, Retirement(l, h[round], round, commit))
  {
    var l', s := Retirement(l, h[round], round, commit), Surveyed(l.active, h[round], round, commit, l.pending);
    forall id | id in Ids(l'.active) ensures WaitsRight(h, round, id, Lookup(l'.pending, id)) {
      var c :| c in l'.active && c.id == id;
      assert c in l.active && id in Ids(l.active);
      SurveyJudges(l.active, h[round], round, commit, l.pending, id);
      JudgingWaits(h, round, id, l.pending, commit);
    }
  }

  /** A ledger that the rounds justify, behind the pass of one of them. */
  ghost predicate Justifies(h: History, passed: nat, l: Ledger, ceiling: nat) {
    && LedgerInv(l) && Backed(h, l.pending) && RetiredWithGrounds(h, l.retired)
    && |l.active| <= ceiling && WaitsExactly(h, passed, l)
  }

  /** Every pass leaves the ledger sound, with grounds for what it retired and for what waits. */
  lemma PassJustifies(l: Ledger, h: History, reviews: seq<seq<Assessment>>, passed: nat, round: nat, commit: bool, ceiling: nat)
    requires Justifies(h, passed, l, ceiling) && (if commit then passed == round else passed + 1 == round)
    requires round > 0 && round in h && 0 !in h && h[round] == reviews && AllAssessed(l.active, reviews) && TargetsActive(l.active, reviews)
    ensures Justifies(h, round, Retirement(l, reviews, round, commit), ceiling)
  {
    RetirementKeepsLedger(l, reviews, round, commit);
    RetirementHasGrounds(l, h, round, commit);
    PassWaits(l, h, round, commit);
  }

  /** With exact waits, the pass takes a claim up if everyone called it a duplicate of one other, or
      nonmaterial, with evidence or after the same without evidence in the round before. */
  lemma TakenUpBy(l: Ledger, h: History, round: nat, id: ClaimId)
    requires round > 0 && round in h && h[round] != [] && id in Ids(l.active) && WaitsExactly(h, round, l)
    ensures
      TakenUp(l, h[round], round, id) <==>
        || (exists target :: DuplicateIn(h[round], id, target))
        || (NonmaterialIn(h[round], id) && (HasEvidence(AssessmentsOf(h[round], id)) || PlainAt(h, round - 1, id)))
  {
    assert WaitsRight(h, round, id, Lookup(l.pending, id));
  }

  // ----- Which claims a committed pass retires

  /** The grounds on which the pass takes a claim up. */
  ghost predicate TakenUp(l: Ledger, reviews: seq<seq<Assessment>>, round: nat, id: ClaimId) {
    || (exists target :: DuplicateIn(reviews, id, target))
    || (&& NonmaterialIn(reviews, id)
        && (|| HasEvidence(AssessmentsOf(reviews, id))
            || (id in l.pending && (l.pending[id].round == round - 1 || (l.pending[id].round == round && l.pending[id].confirmed)))))
  }

  /** Some active claim is, to everyone, a duplicate of this one. */
  ghost predicate IsTarget(active: seq<Claim>, reviews: seq<seq<Assessment>>, id: ClaimId) {
    exists other :: other in Ids(active) && DuplicateIn(reviews, other, id)
  }

  /** To everyone it is a duplicate of a claim that is itself, to everyone, a duplicate. */
  ghost predicate IsInChain(active: seq<Claim>, reviews: seq<seq<Assessment>>, id: ClaimId) {
    exists target, further :: DuplicateIn(reviews, id, target) && target in Ids(active) && DuplicateIn(reviews, target, further)
  }

  lemma CandidatesOf(l: Ledger, reviews: seq<seq<Assessment>>, round: nat, c: Candidate)
    requires DistinctIds(l.active) && AllAssessed(l.active, reviews)
    ensures
      var all := Surveyed(l.active, reviews, round, true, l.pending).candidates;
      c in all <==> c.id in Ids(l.active) && TakenUp(l, reviews, round, c.id) && CallsFor(reviews, c)
  {
    SurveyJudges(l.active, reviews, round, true, l.pending, c.id);
    if c.id in Ids(l.active) {
      UnanimousIsDuplicate(reviews, c.id);
    }
  }

  /** The candidate is a duplicate of what everyone called it one of, if they did. */
  ghost predicate CallsFor(reviews: seq<seq<Assessment>>, c: Candidate) {
    match c.duplicateOf
    case None => forall target :: !DuplicateIn(reviews, c.id, target)
    case Some(target) => DuplicateIn(reviews, c.id, target)
  }

  lemma FewerOrigins(active: seq<Claim>, gone: set<ClaimId>, more: set<ClaimId>)
    requires gone <= more && TwoOrigins(Without(active, more))
    ensures TwoOrigins(Without(active, gone))
  {
    var a, b :| a in Without(active, more) && b in Without(active, more) && a.origin != b.origin;
    assert a in Without(active, gone) && b in Without(active, gone);
  }

  /** The candidates are taken in order; each one retires but for the spared ones. */
  lemma {:induction false} RetiringDecides(active: seq<Claim>, all: seq<Candidate>, candidates: seq<Candidate>, c: Candidate)
    requires c in candidates && (forall x :: x in candidates ==> x in all)
    ensures
      var done := Retiring(active, all, candidates);
      if c in done then c.id !in Targets(all) && (c.duplicateOf.Some? ==> c.duplicateOf.value !in DuplicateIds(all))
      else
        || c.id in Targets(all) || (c.duplicateOf.Some? && c.duplicateOf.value in DuplicateIds(all))
        || !TwoOrigins(Without(active, CandidateIds(done) + {c.id}))
  {
    var rest, last := candidates[..|candidates| - 1], candidates[|candidates| - 1];
    var before, done := Retiring(active, all, rest), Retiring(active, all, candidates);
    assert done == if MayRetire(active, all, CandidateIds(before), last) then before + [last] else before;
    RetiringSubset(active, all, rest);
    if c in rest {
      RetiringDecides(active, all, rest, c);
    }
    if c in rest && c !in done && TwoOrigins(Without(active, CandidateIds(done) + {c.id})) {
      FewerOrigins(active, CandidateIds(before) + {c.id}, CandidateIds(done) + {c.id});
    }
    if c == last && c.duplicateOf.Some? && c.duplicateOf.value in CandidateIds(before) {
      var d :| d in before && d.id == c.duplicateOf.value;
      RetiringSpares(active, all, rest, d);
    }
  }

  /** The claims that stay keep two origins without one that is gone already. */
  lemma GoneIsSpared(active: seq<Claim>, gone: set<ClaimId>, id: ClaimId)
    ensures
      var rest := Without(active, gone);
      id in gone && TwoOrigins(rest) ==> TwoOrigins(Without(rest, {id}))
    ensures
      var rest := Without(active, gone);
      TwoOrigins(Without(rest, {id})) <==> TwoOrigins(Without(active, gone + {id}))
  {
    var rest := Without(active, gone);
    assert forall c :: c in Without(rest, {id}) <==> c in Without(active, gone + {id});
    if id in gone && TwoOrigins(rest) {
      var a, b :| a in rest && b in rest && a.origin != b.origin;
      assert a in Without(rest, {id}) && b in Without(rest, {id});
    }
  }

  lemma TargetsAre(l: Ledger, reviews: seq<seq<Assessment>>, round: nat, id: ClaimId)
    requires DistinctIds(l.active) && AllAssessed(l.active, reviews)
    ensures
      var all := Surveyed(l.active, reviews, round, true, l.pending).candidates;
      && (id in Targets(all) <==> IsTarget(l.active, reviews, id))
      && (id in DuplicateIds(all) <==> id in Ids(l.active) && exists target :: DuplicateIn(reviews, id, target))
  {
    var all := Surveyed(l.active, reviews, round, true, l.pending).candidates;
    forall c: Candidate ensures c in all <==> c.id in Ids(l.active) && TakenUp(l, reviews, round, c.id) && CallsFor(reviews, c) {
      CandidatesOf(l, reviews, round, c);
    }
    if IsTarget(l.active, reviews, id) {
      var other :| other in Ids(l.active) && DuplicateIn(reviews, other, id);
      assert Candidate(other, Some(id)) in all;
    }
    if id in Ids(l.active) && exists target :: DuplicateIn(reviews, id, target) {
      var target :| DuplicateIn(reviews, id, target);
      assert Candidate(id, Some(target)) in all;
    }
  }

  /** The claim's candidate, if it is taken up. */
  ghost function CandidateFor(reviews: seq<seq<Assessment>>, id: ClaimId): (c: Candidate)
    ensures c.id == id && CallsFor(reviews, c)
  {
    if target :| DuplicateIn(reviews, id, target) then Candidate(id, Some(target)) else Candidate(id, None)
  }

  /** Two claims that everyone called this one a duplicate of are one. */
  lemma OneTarget(reviews: seq<seq<Assessment>>, c: Candidate, d: Candidate)
    requires c.id == d.id && CallsFor(reviews, c) && CallsFor(reviews, d)
    ensures c == d
  {
    if c.duplicateOf.Some? {
      UnanimousIsDuplicate(reviews, c.id);
      assert DuplicateIn(reviews, c.id, c.duplicateOf.value);
    }
  }

  /** A committed pass retires a claim if and only if everyone called it a duplicate of one other claim, or
      nonmaterial on the grounds asked for; unless it is such a target itself, or its target is another's
      duplicate, or no two origins would stay active. */
  lemma PassRetiresExactly(l: Ledger, reviews: seq<seq<Assessment>>, round: nat, id: ClaimId)
    requires LedgerInv(l) && TargetsActive(l.active, reviews) && AllAssessed(l.active, reviews) && id in Ids(l.active)
    ensures
      var after := Retirement(l, reviews, round, true).active;
      id !in Ids(after) <==>
        && TakenUp(l, reviews, round, id) && !IsTarget(l.active, reviews, id) && !IsInChain(l.active, reviews, id)
        && TwoOrigins(Without(after, {id}))
  {
    var all := Surveyed(l.active, reviews, round, true, l.pending).candidates;
    var done := Retiring(l.active, all, all);
    var c, after := CandidateFor(reviews, id), Retirement(l, reviews, round, true).active;
    CandidatesOf(l, reviews, round, c);
    RetiringSubset(l.active, all, all);
    Leaving(l, done, after, id);
    forall d | d in done && d.id == id ensures d == c {
      CandidatesOf(l, reviews, round, d);
      OneTarget(reviews, c, d);
    }
    assert id in CandidateIds(done) <==> c in done;
    RetiringKeepsOrigins(l.active, all, all);
    GoneIsSpared(l.active, CandidateIds(done), id);
    if c in all {
      RetiringDecides(l.active, all, all, c);
      TargetsAre(l, reviews, round, id);
      ChainIs(l, reviews, round, c);
    }
  }

  lemma Leaving(l: Ledger, done: seq<Candidate>, after: seq<Claim>, id: ClaimId)
    requires id in Ids(l.active) && after == Without(l.active, CandidateIds(done))
    ensures id !in Ids(after) <==> id in CandidateIds(done)
  {
    var a :| a in l.active && a.id == id;
    assert a in after <==> id !in CandidateIds(done);
  }

  lemma ChainIs(l: Ledger, reviews: seq<seq<Assessment>>, round: nat, c: Candidate)
    requires DistinctIds(l.active) && AllAssessed(l.active, reviews) && CallsFor(reviews, c)
    ensures
      var all := Surveyed(l.active, reviews, round, true, l.pending).candidates;
      IsInChain(l.active, reviews, c.id) <==> c.duplicateOf.Some? && c.duplicateOf.value in DuplicateIds(all)
  {
    if c.duplicateOf.Some? {
      TargetsAre(l, reviews, round, c.duplicateOf.value);
    }
    forall target | DuplicateIn(reviews, c.id, target) ensures c.duplicateOf == Some(target) {
      OneTarget(reviews, c, Candidate(c.id, Some(target)));
    }
  }
}
