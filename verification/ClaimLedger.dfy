/** The claim ledger: building it from the proposals, `_build_claim_ledger`, and retiring claims
    from it, `_apply_safe_retirements`. */
module ClaimLedger {
  import opened CouncilTypes
  import opened FairActivation

  datatype Retired = Retired(claim: Claim, round: nat, duplicateOf: Option<ClaimId>)

  /** An evidence-free unanimous nonmaterial judgement waiting for the next round. */
  datatype Confirmation = Confirmation(round: nat, confirmed: bool)

  datatype Ledger = Ledger(
    raw: seq<Claim>,
    active: seq<Claim>,
    parked: seq<Claim>,
    retired: seq<Retired>,
    pending: map<ClaimId, Confirmation>)

  const EMPTY_LEDGER := Ledger([], [], [], [], map[])

  function Ids(claims: seq<Claim>): set<ClaimId> {
    set c | c in claims :: c.id
  }

  function RetiredIds(retired: seq<Retired>): set<ClaimId> {
    set r | r in retired :: r.claim.id
  }

  predicate DistinctIds(claims: seq<Claim>) {
    forall i, j :: 0 <= i < j < |claims| ==> claims[i].id != claims[j].id
  }

  predicate DistinctRetired(retired: seq<Retired>) {
    forall i, j :: 0 <= i < j < |retired| ==> retired[i].claim.id != retired[j].claim.id
  }

  predicate TwoOrigins(claims: seq<Claim>) {
    exists a, b :: a in claims && b in claims && a.origin != b.origin
  }

  // ----- The ledger's invariant

  /** Every raw claim is in exactly one of the three lists, and nothing else is in them. */
  ghost predicate Conserved(l: Ledger) {
    && DistinctIds(l.raw) && DistinctIds(l.active) && DistinctIds(l.parked) && DistinctRetired(l.retired)
    && Ids(l.active) !! Ids(l.parked) !! RetiredIds(l.retired)
    && Ids(l.raw) == Ids(l.active) + Ids(l.parked) + RetiredIds(l.retired)
    && (forall c :: c in l.active || c in l.parked ==> c in l.raw)
    && (forall r :: r in l.retired ==> r.claim in l.raw)
  }

  /** A retired duplicate points at a claim that is active or was retired after it. */
  ghost predicate LinksForward(l: Ledger) {
    forall i :: 0 <= i < |l.retired| && l.retired[i].duplicateOf.Some? ==>
      Onward(l, i, l.retired[i].duplicateOf.value)
  }

  ghost predicate Onward(l: Ledger, i: nat, target: ClaimId) {
    target in Ids(l.active) || exists j :: i < j < |l.retired| && l.retired[j].claim.id == target
  }

  ghost predicate LedgerInv(l: Ledger) {
    Conserved(l) && TwoOrigins(l.active) && LinksForward(l)
  }

  // ----- Building

  /** The claims of one participant's proposal, under their canonical identities. */
  function OwnClaims(participant: Participant, claims: seq<LocalClaim>): (own: seq<Claim>)
    ensures |own| == |claims|
    ensures forall k :: 0 <= k < |own| ==>
      own[k] == Claim(ClaimId(participant, claims[k].local), participant, claims[k].text)
  {
    seq(|claims|, k requires 0 <= k < |claims| =>
      Claim(ClaimId(participant, claims[k].local), participant, claims[k].text))
  }

  function Without(claims: seq<Claim>, ids: set<ClaimId>): (kept: seq<Claim>)
    ensures forall c :: c in kept <==> c in claims && c.id !in ids
    ensures |kept| <= |claims|
    ensures DistinctIds(claims) ==> DistinctIds(kept)
  {
    if claims == [] then [] else
      var kept := Without(claims[..|claims| - 1], ids);
      var last := claims[|claims| - 1];
      if last.id in ids then kept else kept + [last]
  }

  function BuiltLedger(orders: seq<seq<Claim>>, ceiling: nat): Ledger {
    var raw := Raw(orders);
    var active := Activated(orders, ceiling);
    Ledger(raw, active, Without(raw, Ids(active)), [], map[])
  }

  /** The broker's construction: activate round-robin, then park what was not activated. */
  method BuildClaimLedger(orders: seq<seq<Claim>>, ceiling: nat) returns (l: Ledger)
    ensures l == BuiltLedger(orders, ceiling)
  {
    var raw := [];
    for i := 0 to |orders|
      invariant raw == Raw(orders[..i])
    {
      assert orders[..i + 1][..i] == orders[..i];
      raw := raw + orders[i];
    }
    assert orders[..|orders|] == orders;
    var active := Activate(orders, ceiling);
    var activeIds := Ids(active);
    var parked := [];
    for i := 0 to |raw|
      invariant parked == Without(raw[..i], activeIds)
    {
      assert raw[..i + 1][..i] == raw[..i];
      if raw[i].id !in activeIds {
        parked := parked + [raw[i]];
      }
    }
    assert raw[..|raw|] == raw;
    l := Ledger(raw, active, parked, [], map[]);
  }

  lemma {:induction false} RawMembers(orders: seq<seq<Claim>>, c: Claim)
    ensures c in Raw(orders) <==> exists i :: 0 <= i < |orders| && c in orders[i]
  {
    if orders != [] {
      var rest := orders[..|orders| - 1];
      RawMembers(rest, c);
      if c in Raw(rest) {
        var i :| 0 <= i < |rest| && c in rest[i];
        assert c in orders[i];
      }
      forall i | 0 <= i < |orders| && c in orders[i]
        ensures c in Raw(orders)
      {
        if i < |rest| { assert c in rest[i]; }
      }
    }
  }

  lemma {:induction false} RawDistinct(orders: seq<seq<Claim>>)
    requires Distinct(orders)
    ensures DistinctIds(Raw(orders))
  {
    if orders != [] {
      var rest, last := orders[..|orders| - 1], orders[|orders| - 1];
      assert Distinct(rest);
      RawDistinct(rest);
      forall c, k | c in Raw(rest) && 0 <= k < |last|
        ensures c.id != last[k].id
      {
        RawMembers(rest, c);
        var i :| 0 <= i < |rest| && c in rest[i];
        var m :| 0 <= m < |rest[i]| && rest[i][m] == c;
        assert orders[i][m].id == c.id;
      }
    }
  }

  lemma ActivatedMembers(orders: seq<seq<Claim>>, ceiling: nat)
    requires Distinct(orders)
    ensures DistinctIds(Activated(orders, ceiling))
    ensures forall c :: c in Activated(orders, ceiling) ==> c in Raw(orders)
  {
    var active := Activated(orders, ceiling);
    var all := Levels(orders, Longest(orders));
    forall q | 0 <= q < |active|
      ensures active[q] in Raw(orders)
    {
      var i, k := RankOwner(orders, Longest(orders), q);
      RankHolds(orders, i, k);
      RawMembers(orders, active[q]);
      assert orders[i][k] in orders[i];
    }
    forall q, p | 0 <= q < p < |active|
      ensures active[q].id != active[p].id
    {
      var i, k := RankOwner(orders, Longest(orders), q);
      var j, m := RankOwner(orders, Longest(orders), p);
      RankHolds(orders, i, k);
      RankHolds(orders, j, m);
    }
  }

  /** A ledger built from at least two participants' claims, under a ceiling that admits one claim
      each, conserves the raw claims and leaves two origins active. */
  lemma BuiltLedgerIsSound(orders: seq<seq<Claim>>, ceiling: nat)
    requires Distinct(orders) && 2 <= |orders| <= ceiling
    requires forall i, k :: 0 <= i < |orders| && 0 <= k < |orders[i]| ==> orders[i][k].origin == orders[i][0].origin
    requires forall i :: 0 <= i < |orders| ==> orders[i] != []
    requires orders[0][0].origin != orders[1][0].origin
    ensures LedgerInv(BuiltLedger(orders, ceiling))
  {
    RawDistinct(orders);
    ActivatedMembers(orders, ceiling);
    EveryoneKeepsOne(orders, ceiling, 0);
    EveryoneKeepsOne(orders, ceiling, 1);
    var l := BuiltLedger(orders, ceiling);
    assert orders[0][0] in l.active && orders[1][0] in l.active;
    assert Ids(l.active) !! Ids(l.parked);
    forall id | id in Ids(l.raw)
      ensures id in Ids(l.active) + Ids(l.parked)
    {
      var c :| c in l.raw && c.id == id;
    }
  }

  // ----- Judging the claims of a round

  /** The assessments of one claim, over all participants' reviews in order. */
  function Pick(review: seq<Assessment>, id: ClaimId): seq<Assessment> {
    if review == [] then [] else
      var last := review[|review| - 1];
      Pick(review[..|review| - 1], id) + if last.claim == id then [last] else []
  }

  function AssessmentsOf(reviews: seq<seq<Assessment>>, id: ClaimId): seq<Assessment> {
    if reviews == [] then [] else
      AssessmentsOf(reviews[..|reviews| - 1], id) + Pick(reviews[|reviews| - 1], id)
  }

  predicate UnanimousDuplicate(assessments: seq<Assessment>) {
    && assessments != []
    && assessments[0].duplicateOf.Some?
    && forall a :: a in assessments ==> a.duplicateOf == assessments[0].duplicateOf
  }

  predicate UnanimousNonmaterial(assessments: seq<Assessment>) {
    forall a :: a in assessments ==> a.position == Nonmaterial
  }

  predicate HasEvidence(assessments: seq<Assessment>) {
    exists a :: a in assessments && a.evidence != []
  }

  predicate ConfirmedBy(prior: Option<Confirmation>, round: nat) {
    && prior.Some?
    && (prior.value.round + 1 == round || (prior.value.round == round && prior.value.confirmed))
  }

  datatype Candidate = Candidate(id: ClaimId, duplicateOf: Option<ClaimId>)

  datatype Survey = Survey(candidates: seq<Candidate>, pending: map<ClaimId, Confirmation>)

  function Lookup(pending: map<ClaimId, Confirmation>, id: ClaimId): Option<Confirmation> {
    if id in pending then Some(pending[id]) else None
  }

  /** One claim's judgement: it becomes a candidate, waits for confirmation, or loses its wait. */
  function Judge(s: Survey, id: ClaimId, assessments: seq<Assessment>, n: nat, round: nat, commit: bool): Survey {
    if |assessments| != n then
      s
    else if UnanimousDuplicate(assessments) then
      s.(candidates := s.candidates + [Candidate(id, assessments[0].duplicateOf)])
    else if !UnanimousNonmaterial(assessments) then
      s.(pending := s.pending - {id})
    else if HasEvidence(assessments) || ConfirmedBy(Lookup(s.pending, id), round) then
      Survey(s.candidates + [Candidate(id, None)],
             if !commit && !HasEvidence(assessments) then s.pending[id := Confirmation(round, true)] else s.pending)
    else
      s.(pending := s.pending[id := Confirmation(round, false)])
  }

  function Surveyed(
    claims: seq<Claim>, reviews: seq<seq<Assessment>>, round: nat, commit: bool,
    pending: map<ClaimId, Confirmation>): Survey
  {
    if claims == [] then Survey([], pending) else
      var id := claims[|claims| - 1].id;
      Judge(Surveyed(claims[..|claims| - 1], reviews, round, commit, pending),
            id, AssessmentsOf(reviews, id), |reviews|, round, commit)
  }

  // ----- Retiring the candidates

  function CandidateIds(candidates: seq<Candidate>): set<ClaimId> {
    set c | c in candidates :: c.id
  }

  function DuplicateIds(candidates: seq<Candidate>): set<ClaimId> {
    set c | c in candidates && c.duplicateOf.Some? :: c.id
  }

  function Targets(candidates: seq<Candidate>): set<ClaimId> {
    set c | c in candidates && c.duplicateOf.Some? :: c.duplicateOf.value
  }

  /** Neither the target of a duplicate, nor a duplicate of something that is going, nor one of
      the last claims of two origins. */
  predicate MayRetire(active: seq<Claim>, all: seq<Candidate>, gone: set<ClaimId>, c: Candidate) {
    && c.id !in Targets(all)
    && (c.duplicateOf.Some? ==> c.duplicateOf.value !in DuplicateIds(all) && c.duplicateOf.value !in gone)
    && TwoOrigins(Without(active, gone + {c.id}))
  }

  /** The candidates that do retire, taken in order. */
  function Retiring(active: seq<Claim>, all: seq<Candidate>, candidates: seq<Candidate>): seq<Candidate> {
    if candidates == [] then [] else
      var done := Retiring(active, all, candidates[..|candidates| - 1]);
      var c := candidates[|candidates| - 1];
      if MayRetire(active, all, CandidateIds(done), c) then done + [c] else done
  }

  function Find(claims: seq<Claim>, id: ClaimId): (c: Claim)
    requires id in Ids(claims)
    ensures c in claims && c.id == id
  {
    if claims[0].id == id then claims[0] else Find(claims[1..], id)
  }

  function RetiredRecords(active: seq<Claim>, round: nat, done: seq<Candidate>): (r: seq<Retired>)
    requires CandidateIds(done) <= Ids(active)
    ensures |r| == |done|
    ensures forall k :: 0 <= k < |r| ==>
      r[k].claim in active && r[k].claim.id == done[k].id && r[k].duplicateOf == done[k].duplicateOf && r[k].round == round
  {
    seq(|done|, k requires 0 <= k < |done| =>
      assert done[k].id in CandidateIds(done);
      Retired(Find(active, done[k].id), round, done[k].duplicateOf))
  }

  lemma {:induction false} SurveyCandidates(
    claims: seq<Claim>, reviews: seq<seq<Assessment>>, round: nat, commit: bool, pending: map<ClaimId, Confirmation>)
    ensures CandidateIds(Surveyed(claims, reviews, round, commit, pending).candidates) <= Ids(claims)
  {
    if claims != [] {
      var rest, id := claims[..|claims| - 1], claims[|claims| - 1].id;
      SurveyCandidates(rest, reviews, round, commit, pending);
      assert id in Ids(claims) by { assert claims[|claims| - 1] in claims; }
      assert Ids(rest) <= Ids(claims);
      forall c | c in Surveyed(claims, reviews, round, commit, pending).candidates
        ensures c.id in Ids(claims)
      {
        if c in Surveyed(rest, reviews, round, commit, pending).candidates {
          assert c.id in CandidateIds(Surveyed(rest, reviews, round, commit, pending).candidates);
        }
      }
    }
  }

  lemma {:induction false} RetiringSubset(active: seq<Claim>, all: seq<Candidate>, candidates: seq<Candidate>)
    ensures forall c :: c in Retiring(active, all, candidates) ==> c in candidates
    ensures CandidateIds(Retiring(active, all, candidates)) <= CandidateIds(candidates)
  {
    if candidates != [] {
      RetiringSubset(active, all, candidates[..|candidates| - 1]);
    }
  }

  /** A pass over the reviews of a round: without commit it only updates the confirmations. */
  function Retirement(l: Ledger, reviews: seq<seq<Assessment>>, round: nat, commit: bool): Ledger {
    var s := Surveyed(l.active, reviews, round, commit, l.pending);
    if !commit then l.(pending := s.pending) else
      var done := Retiring(l.active, s.candidates, s.candidates);
      SurveyCandidates(l.active, reviews, round, commit, l.pending);
      RetiringSubset(l.active, s.candidates, s.candidates);
      l.(active := Without(l.active, CandidateIds(done)),
         retired := l.retired + RetiredRecords(l.active, round, done),
         pending := s.pending - CandidateIds(done))
  }

  /** The first loop of the pass: it judges the active claims one by one. */
  method SurveyActive(
    active: seq<Claim>, reviews: seq<seq<Assessment>>, round: nat, commit: bool, before: map<ClaimId, Confirmation>)
    returns (candidates: seq<Candidate>, pending: map<ClaimId, Confirmation>)
    ensures Survey(candidates, pending) == Surveyed(active, reviews, round, commit, before)
  {
    pending, candidates := before, [];
    for i := 0 to |active|
      invariant Survey(candidates, pending) == Surveyed(active[..i], reviews, round, commit, before)
    {
      assert active[..i + 1][..i] == active[..i];
      var id := active[i].id;
      var assessments := AssessmentsOf(reviews, id);
      if |assessments| == |reviews| {
        if UnanimousDuplicate(assessments) {
          candidates := candidates + [Candidate(id, assessments[0].duplicateOf)];
        } else if UnanimousNonmaterial(assessments) {
          var hasEvidence := HasEvidence(assessments);
          if hasEvidence || ConfirmedBy(Lookup(pending, id), round) {
            candidates := candidates + [Candidate(id, None)];
            if !commit && !hasEvidence {
              pending := pending[id := Confirmation(round, true)];
            }
          } else {
            pending := pending[id := Confirmation(round, false)];
          }
        } else {
          pending := pending - {id};
        }
      }
    }
    assert active[..|active|] == active;
  }

  /** The broker's pass: one loop judges the active claims, a second one retires the candidates. */
  method ApplySafeRetirements(l: Ledger, reviews: seq<seq<Assessment>>, round: nat, commit: bool)
    returns (after: Ledger)
    ensures after == Retirement(l, reviews, round, commit)
  {
    var candidates, pending := SurveyActive(l.active, reviews, round, commit, l.pending);
    if !commit {
      return l.(pending := pending);
    }
    var done := [];
    for i := 0 to |candidates|
      invariant done == Retiring(l.active, candidates, candidates[..i])
    {
      assert candidates[..i + 1][..i] == candidates[..i];
      if MayRetire(l.active, candidates, CandidateIds(done), candidates[i]) {
        done := done + [candidates[i]];
      }
    }
    assert candidates[..|candidates|] == candidates;
    SurveyCandidates(l.active, reviews, round, commit, l.pending);
    RetiringSubset(l.active, candidates, candidates);
    after := l.(active := Without(l.active, CandidateIds(done)),
                retired := l.retired + RetiredRecords(l.active, round, done),
                pending := pending - CandidateIds(done));
  }

  // ----- What retirement keeps

  /** Every assessment's duplicate target is another active claim, as validation demands. */
  ghost predicate TargetsActive(active: seq<Claim>, reviews: seq<seq<Assessment>>) {
    forall i, a :: 0 <= i < |reviews| && a in reviews[i] && a.duplicateOf.Some? ==>
      a.duplicateOf.value in Ids(active)
  }

  lemma {:induction false} PickMembers(review: seq<Assessment>, id: ClaimId, a: Assessment)
    ensures a in Pick(review, id) <==> a in review && a.claim == id
  {
    if review != [] {
      PickMembers(review[..|review| - 1], id, a);
    }
  }

  lemma {:induction false} AssessmentMembers(reviews: seq<seq<Assessment>>, id: ClaimId, a: Assessment)
    ensures a in AssessmentsOf(reviews, id) ==> a.claim == id && exists i :: 0 <= i < |reviews| && a in reviews[i]
    ensures forall i :: 0 <= i < |reviews| && a in reviews[i] && a.claim == id ==> a in AssessmentsOf(reviews, id)
  {
    if reviews != [] {
      var rest, last := reviews[..|reviews| - 1], reviews[|reviews| - 1];
      AssessmentMembers(rest, id, a);
      PickMembers(last, id, a);
      if a in AssessmentsOf(rest, id) {
        var i :| 0 <= i < |rest| && a in rest[i];
        assert a in reviews[i];
      } else if a in AssessmentsOf(reviews, id) {
        assert a in reviews[|reviews| - 1];
      }
      forall i | 0 <= i < |reviews| && a in reviews[i] && a.claim == id
        ensures a in AssessmentsOf(reviews, id)
      {
        if i < |rest| { assert a in rest[i]; }
      }
    }
  }

  lemma {:induction false} CandidatesDistinct(
    claims: seq<Claim>, reviews: seq<seq<Assessment>>, round: nat, commit: bool, pending: map<ClaimId, Confirmation>)
    requires DistinctIds(claims)
    ensures
      var cs := Surveyed(claims, reviews, round, commit, pending).candidates;
      forall i, j :: 0 <= i < j < |cs| ==> cs[i].id != cs[j].id
  {
    if claims != [] {
      var rest := claims[..|claims| - 1];
      CandidatesDistinct(rest, reviews, round, commit, pending);
      SurveyCandidates(rest, reviews, round, commit, pending);
      var cs := Surveyed(rest, reviews, round, commit, pending).candidates;
      forall c | c in cs
        ensures c.id != claims[|claims| - 1].id
      {
        assert c.id in CandidateIds(cs);
      }
    }
  }

  lemma {:induction false} CandidateTargets(
    claims: seq<Claim>, active: seq<Claim>, reviews: seq<seq<Assessment>>, round: nat, commit: bool,
    pending: map<ClaimId, Confirmation>)
    requires TargetsActive(active, reviews)
    ensures Targets(Surveyed(claims, reviews, round, commit, pending).candidates) <= Ids(active)
  {
    if claims != [] {
      var rest, id := claims[..|claims| - 1], claims[|claims| - 1].id;
      CandidateTargets(rest, active, reviews, round, commit, pending);
      var before := Surveyed(rest, reviews, round, commit, pending).candidates;
      var assessments := AssessmentsOf(reviews, id);
      if assessments != [] {
        AssessmentMembers(reviews, id, assessments[0]);
      }
      forall c | c in Surveyed(claims, reviews, round, commit, pending).candidates && c.duplicateOf.Some?
        ensures c.duplicateOf.value in Ids(active)
      {
        if c in before {
          assert c.duplicateOf.value in Targets(before);
        }
      }
    }
  }

  lemma {:induction false} RetiringKeepsOrigins(active: seq<Claim>, all: seq<Candidate>, candidates: seq<Candidate>)
    requires TwoOrigins(active)
    ensures TwoOrigins(Without(active, CandidateIds(Retiring(active, all, candidates))))
  {
    if candidates == [] {
      var a, b :| a in active && b in active && a.origin != b.origin;
      assert a in Without(active, CandidateIds([])) && b in Without(active, CandidateIds([]));
    } else {
      var rest, c := candidates[..|candidates| - 1], candidates[|candidates| - 1];
      RetiringKeepsOrigins(active, all, rest);
      var done := Retiring(active, all, rest);
      assert CandidateIds(done + [c]) == CandidateIds(done) + {c.id};
    }
  }

  lemma {:induction false} RetiringDistinct(active: seq<Claim>, all: seq<Candidate>, candidates: seq<Candidate>)
    requires forall i, j :: 0 <= i < j < |candidates| ==> candidates[i].id != candidates[j].id
    ensures
      var done := Retiring(active, all, candidates);
      forall i, j :: 0 <= i < j < |done| ==> done[i].id != done[j].id
  {
    if candidates != [] {
      var rest := candidates[..|candidates| - 1];
      RetiringDistinct(active, all, rest);
      RetiringSubset(active, all, rest);
    }
  }

  /** What is retired is neither a target nor, if a duplicate, linked to something that goes. */
  lemma {:induction false} RetiringSpares(active: seq<Claim>, all: seq<Candidate>, candidates: seq<Candidate>, c: Candidate)
    requires c in Retiring(active, all, candidates)
    ensures c.id !in Targets(all)
  {
    var rest := candidates[..|candidates| - 1];
    if c in Retiring(active, all, rest) {
      RetiringSpares(active, all, rest, c);
    }
  }

  /** Moving a set of active claims to the end of the retired list conserves the ledger. */
  lemma MoveConserves(l: Ledger, l': Ledger, gone: set<ClaimId>, records: seq<Retired>)
    requires Conserved(l)
    requires l'.raw == l.raw && l'.parked == l.parked
    requires l'.active == Without(l.active, gone) && l'.retired == l.retired + records
    requires DistinctRetired(records) && RetiredIds(records) == gone
    requires forall r :: r in records ==> r.claim in l.active
    ensures Conserved(l')
  {
    assert RetiredIds(l'.retired) == RetiredIds(l.retired) + gone;
    assert gone <= Ids(l.active);
    assert Ids(l'.active) == Ids(l.active) - gone by {
      forall id | id in Ids(l.active) - gone
        ensures id in Ids(l'.active)
      {
        var c :| c in l.active && c.id == id;
        assert c in l'.active;
      }
    }
    forall i, j | 0 <= i < j < |l'.retired|
      ensures l'.retired[i].claim.id != l'.retired[j].claim.id
    {
      if i < |l.retired| <= j {
        assert l.retired[i] in l.retired && l.retired[i].claim.id in RetiredIds(l.retired);
        assert records[j - |l.retired|] in records && records[j - |l.retired|].claim.id in gone;
      }
    }
  }

  lemma RetirementConserves(l: Ledger, reviews: seq<seq<Assessment>>, round: nat, commit: bool)
    requires Conserved(l)
    ensures Conserved(Retirement(l, reviews, round, commit))
  {
    if commit {
      var s := Surveyed(l.active, reviews, round, commit, l.pending);
      var done := Retiring(l.active, s.candidates, s.candidates);
      SurveyCandidates(l.active, reviews, round, commit, l.pending);
      RetiringSubset(l.active, s.candidates, s.candidates);
      CandidatesDistinct(l.active, reviews, round, commit, l.pending);
      RetiringDistinct(l.active, s.candidates, s.candidates);
      var records := RetiredRecords(l.active, round, done);
      RecordedIds(l.active, round, done);
      MoveConserves(l, Retirement(l, reviews, round, commit), CandidateIds(done), records);
    }
  }

  lemma RecordedIds(active: seq<Claim>, round: nat, done: seq<Candidate>)
    requires CandidateIds(done) <= Ids(active)
    ensures RetiredIds(RetiredRecords(active, round, done)) == CandidateIds(done)
  {
    var records := RetiredRecords(active, round, done);
    forall id | id in CandidateIds(done)
      ensures id in RetiredIds(records)
    {
      var k :| 0 <= k < |done| && done[k].id == id;
      assert records[k] in records;
    }
    forall id | id in RetiredIds(records)
      ensures id in CandidateIds(done)
    {
      var k :| 0 <= k < |records| && records[k].claim.id == id;
      assert done[k] in done;
    }
  }

  /** An older link survives a move to the retired list. */
  lemma OldLinkKept(l: Ledger, l': Ledger, i: nat, target: ClaimId, gone: set<ClaimId>, records: seq<Retired>)
    requires l'.active == Without(l.active, gone) && l'.retired == l.retired + records
    requires RetiredIds(records) == gone
    requires i < |l.retired| && Onward(l, i, target)
    ensures Onward(l', i, target)
  {
    if target in gone {
      var k :| 0 <= k < |records| && records[k].claim.id == target;
      assert l'.retired[|l.retired| + k].claim.id == target;
    } else if target in Ids(l.active) {
      var c :| c in l.active && c.id == target;
      assert c in l'.active;
    } else {
      var j :| i < j < |l.retired| && l.retired[j].claim.id == target;
      assert l'.retired[j].claim.id == target;
    }
  }

  /** A claim that retires as a duplicate points at a claim that stays. */
  lemma NewLinkKept(active: seq<Claim>, all: seq<Candidate>, c: Candidate)
    requires Targets(all) <= Ids(active)
    requires c in Retiring(active, all, all) && c.duplicateOf.Some?
    ensures c.duplicateOf.value in Ids(Without(active, CandidateIds(Retiring(active, all, all))))
  {
    var done, target := Retiring(active, all, all), c.duplicateOf.value;
    RetiringSubset(active, all, all);
    assert target in Targets(all);
    if target in CandidateIds(done) {
      var d :| d in done && d.id == target;
      RetiringSpares(active, all, all, d);
    }
    var a :| a in active && a.id == target;
    assert a in Without(active, CandidateIds(done));
  }

  /** Moving claims to the retired list keeps every link: the old ones, and those of the new records. */
  lemma MoveLinks(l: Ledger, l': Ledger, done: seq<Candidate>, round: nat)
    requires LinksForward(l) && l'.active == Without(l.active, CandidateIds(done)) && CandidateIds(done) <= Ids(l.active)
    requires l'.retired == l.retired + RetiredRecords(l.active, round, done)
    requires forall c :: c in done && c.duplicateOf.Some? ==> c.duplicateOf.value in Ids(l'.active)
    ensures LinksForward(l')
  {
    var records := RetiredRecords(l.active, round, done);
    RecordedIds(l.active, round, done);
    forall i | 0 <= i < |l'.retired| && l'.retired[i].duplicateOf.Some?
      ensures Onward(l', i, l'.retired[i].duplicateOf.value)
    {
      if i < |l.retired| {
        OldLinkKept(l, l', i, l'.retired[i].duplicateOf.value, CandidateIds(done), records);
      } else {
        assert done[i - |l.retired|] in done;
      }
    }
  }

  lemma RetirementLinks(l: Ledger, reviews: seq<seq<Assessment>>, round: nat)
    requires LedgerInv(l) && TargetsActive(l.active, reviews)
    ensures LinksForward(Retirement(l, reviews, round, true))
  {
    var all := Surveyed(l.active, reviews, round, true, l.pending).candidates;
    var done := Retiring(l.active, all, all);
    SurveyCandidates(l.active, reviews, round, true, l.pending);
    RetiringSubset(l.active, all, all);
    CandidateTargets(l.active, l.active, reviews, round, true, l.pending);
    forall c | c in done && c.duplicateOf.Some?
      ensures c.duplicateOf.value in Ids(Without(l.active, CandidateIds(done)))
    {
      NewLinkKept(l.active, all, c);
    }
    MoveLinks(l, Retirement(l, reviews, round, true), done, round);
  }

  /** Retirement, committed or not, keeps the ledger sound. */
  lemma RetirementKeepsLedger(l: Ledger, reviews: seq<seq<Assessment>>, round: nat, commit: bool)
    requires LedgerInv(l) && TargetsActive(l.active, reviews)
    ensures LedgerInv(Retirement(l, reviews, round, commit))
  {
    RetirementConserves(l, reviews, round, commit);
    var s := Surveyed(l.active, reviews, round, commit, l.pending);
    RetiringKeepsOrigins(l.active, s.candidates, s.candidates);
    if commit {
      RetirementLinks(l, reviews, round);
    } else {
      var l' := Retirement(l, reviews, round, commit);
      forall i | 0 <= i < |l'.retired| && l'.retired[i].duplicateOf.Some?
        ensures Onward(l', i, l'.retired[i].duplicateOf.value)
      {
        assert Onward(l, i, l.retired[i].duplicateOf.value);
      }
    }
  }

  /** Whoever a participant is, some active claim is an opponent's. */
  lemma OpponentClaimExists(l: Ledger, p: Participant)
    requires LedgerInv(l)
    ensures exists c :: c in l.active && c.origin != p
  {
  }

  // ----- Duplicate links end

  /** Follows the duplicate links from a retired claim. */
  ghost function Root(l: Ledger, i: nat): (root: ClaimId)
    requires LedgerInv(l) && i < |l.retired|
    ensures root in Ids(l.active)
         || exists j :: i <= j < |l.retired| && l.retired[j].claim.id == root && l.retired[j].duplicateOf.None?
    decreases |l.retired| - i
  {
    if l.retired[i].duplicateOf.None? then l.retired[i].claim.id
    else if l.retired[i].duplicateOf.value in Ids(l.active) then l.retired[i].duplicateOf.value
    else
      assert Onward(l, i, l.retired[i].duplicateOf.value);
      var j :| i < j < |l.retired| && l.retired[j].claim.id == l.retired[i].duplicateOf.value;
      Root(l, j)
  }

  // ----- Retirement needs grounds

  /** The reviews of every completed exchange round. */
  type History = map<nat, seq<seq<Assessment>>>

  /** In these reviews, as many assessments of the claim as participants, all nonmaterial. */
  predicate NonmaterialIn(reviews: seq<seq<Assessment>>, id: ClaimId) {
    && |AssessmentsOf(reviews, id)| == |reviews|
    && UnanimousNonmaterial(AssessmentsOf(reviews, id))
  }

  predicate NonmaterialAt(h: History, round: nat, id: ClaimId) {
    round in h && NonmaterialIn(h[round], id)
  }

  /** A waiting confirmation is backed by its round's reviews, a given one by those of two rounds. */
  ghost predicate Backed(h: History, pending: map<ClaimId, Confirmation>) {
    forall id :: id in pending ==>
      && NonmaterialAt(h, pending[id].round, id)
      && (pending[id].confirmed ==> pending[id].round > 0 && NonmaterialAt(h, pending[id].round - 1, id))
  }

  /** Grounds for a retirement without a duplicate: evidence, or two consecutive rounds. */
  predicate Grounds(h: History, round: nat, id: ClaimId) {
    && NonmaterialAt(h, round, id)
    && (HasEvidence(AssessmentsOf(h[round], id)) || (round > 0 && NonmaterialAt(h, round - 1, id)))
  }

  /** In these reviews, as many assessments of the claim as participants, all as a duplicate of one other. */
  ghost predicate DuplicateIn(reviews: seq<seq<Assessment>>, id: ClaimId, target: ClaimId) {
    && reviews != [] && |AssessmentsOf(reviews, id)| == |reviews|
    && forall a :: a in AssessmentsOf(reviews, id) ==> a.duplicateOf == Some(target)
  }

  /** Grounds for a retirement as a duplicate, or without one. */
  ghost predicate Grounded(h: History, round: nat, id: ClaimId, duplicateOf: Option<ClaimId>) {
    match duplicateOf
    case None => Grounds(h, round, id)
    case Some(target) => round in h && DuplicateIn(h[round], id, target)
  }

  ghost predicate RetiredWithGrounds(h: History, retired: seq<Retired>) {
    forall r :: r in retired ==> Grounded(h, r.round, r.claim.id, r.duplicateOf)
  }

  ghost predicate SurveyBacked(h: History, round: nat, s: Survey) {
    Backed(h, s.pending) && forall c :: c in s.candidates ==> Grounded(h, round, c.id, c.duplicateOf)
  }

  lemma ConfirmingIsBacked(h: History, pending: map<ClaimId, Confirmation>, id: ClaimId, c: Confirmation)
    requires Backed(h, pending) && NonmaterialAt(h, c.round, id)
    requires c.confirmed ==> c.round > 0 && NonmaterialAt(h, c.round - 1, id)
    ensures Backed(h, pending[id := c])
  {
  }

  lemma ConfirmedIsBacked(h: History, pending: map<ClaimId, Confirmation>, id: ClaimId, round: nat)
    requires Backed(h, pending) && NonmaterialAt(h, round, id) && ConfirmedBy(Lookup(pending, id), round)
    ensures round > 0 && NonmaterialAt(h, round - 1, id)
  {
  }

  lemma JudgingIsBacked(h: History, round: nat, s: Survey, id: ClaimId, assessments: seq<Assessment>, commit: bool)
    requires round in h && h[round] != [] && SurveyBacked(h, round, s) && assessments == AssessmentsOf(h[round], id)
    ensures SurveyBacked(h, round, Judge(s, id, assessments, |h[round]|, round, commit))
  {
    if |assessments| == |h[round]| && UnanimousDuplicate(assessments) {
      assert DuplicateIn(h[round], id, assessments[0].duplicateOf.value);
    } else if |assessments| == |h[round]| && UnanimousNonmaterial(assessments) {
      assert NonmaterialAt(h, round, id);
      if ConfirmedBy(Lookup(s.pending, id), round) {
        ConfirmedIsBacked(h, s.pending, id, round);
        ConfirmingIsBacked(h, s.pending, id, Confirmation(round, true));
      }
      ConfirmingIsBacked(h, s.pending, id, Confirmation(round, false));
    }
  }

  lemma {:induction false} SurveyIsBacked(
    claims: seq<Claim>, h: History, round: nat, commit: bool, pending: map<ClaimId, Confirmation>)
    requires round in h && h[round] != [] && Backed(h, pending)
    ensures SurveyBacked(h, round, Surveyed(claims, h[round], round, commit, pending))
  {
    if claims != [] {
      SurveyIsBacked(claims[..|claims| - 1], h, round, commit, pending);
      var before := Surveyed(claims[..|claims| - 1], h[round], round, commit, pending);
      var id := claims[|claims| - 1].id;
      JudgingIsBacked(h, round, before, id, AssessmentsOf(h[round], id), commit);
    }
  }

  /** A claim leaves as a duplicate only if every participant called it one of the same claim, and as
      nonmaterial only with evidence, or after every participant called it nonmaterial in this round and in
      the one before it. */
  lemma RetirementHasGrounds(l: Ledger, h: History, round: nat, commit: bool)
    requires round in h && h[round] != [] && Backed(h, l.pending) && RetiredWithGrounds(h, l.retired)
    ensures
      var l' := Retirement(l, h[round], round, commit);
      Backed(h, l'.pending) && RetiredWithGrounds(h, l'.retired)
  {
    SurveyIsBacked(l.active, h, round, commit, l.pending);
    if commit {
      var all := Surveyed(l.active, h[round], round, commit, l.pending).candidates;
      var done := Retiring(l.active, all, all);
      SurveyCandidates(l.active, h[round], round, commit, l.pending);
      RetiringSubset(l.active, all, all);
      var records := RetiredRecords(l.active, round, done);
      forall k | 0 <= k < |records|
        ensures Grounded(h, round, records[k].claim.id, records[k].duplicateOf)
      {
        assert done[k] in all;
      }
    }
  }

  /** Grounds found in a history stay grounds in a longer one. */
  lemma GroundsLast(h: History, h': History, l: Ledger)
    requires forall r :: r in h ==> r in h' && h'[r] == h[r]
    requires Backed(h, l.pending) && RetiredWithGrounds(h, l.retired)
    ensures Backed(h', l.pending) && RetiredWithGrounds(h', l.retired)
  {
    forall r | r in l.retired
      ensures Grounded(h', r.round, r.claim.id, r.duplicateOf)
    {
      assert Grounded(h, r.round, r.claim.id, r.duplicateOf);
    }
  }

  predicate ReviewDistinct(review: seq<Assessment>) {
    forall i, j :: 0 <= i < j < |review| ==> review[i].claim != review[j].claim
  }

  lemma {:induction false} PickAtMostOne(review: seq<Assessment>, id: ClaimId)
    requires ReviewDistinct(review)
    ensures |Pick(review, id)| <= 1
  {
    if review != [] {
      var rest := review[..|review| - 1];
      PickAtMostOne(rest, id);
      if Pick(rest, id) != [] {
        PickMembers(rest, id, Pick(rest, id)[0]);
      }
    }
  }

  /** As many assessments as reviews, none repeated within a review: everyone assessed the claim. */
  lemma {:induction false} EveryoneGave(reviews: seq<seq<Assessment>>, id: ClaimId, i: nat)
    requires forall k :: 0 <= k < |reviews| ==> ReviewDistinct(reviews[k])
    requires i < |reviews|
    ensures |AssessmentsOf(reviews, id)| <= |reviews|
    ensures |AssessmentsOf(reviews, id)| == |reviews| ==> exists a :: a in reviews[i] && a.claim == id && a in AssessmentsOf(reviews, id)
  {
    var rest, last := reviews[..|reviews| - 1], reviews[|reviews| - 1];
    PickAtMostOne(last, id);
    if rest != [] {
      EveryoneGave(rest, id, if i < |rest| then i else 0);
    }
    if |AssessmentsOf(reviews, id)| == |reviews| {
      assert forall a :: a in AssessmentsOf(rest, id) ==> a in AssessmentsOf(reviews, id);
      if i == |rest| {
        assert Pick(last, id)[0] in AssessmentsOf(reviews, id);
        PickMembers(last, id, Pick(last, id)[0]);
      }
    }
  }

  /** So what all assessments say, every participant said. */
  lemma EveryoneAssessed(reviews: seq<seq<Assessment>>, id: ClaimId, i: nat)
    requires forall k :: 0 <= k < |reviews| ==> ReviewDistinct(reviews[k])
    requires i < |reviews|
    ensures NonmaterialIn(reviews, id) ==> exists a :: a in reviews[i] && a.claim == id && a.position == Nonmaterial
    ensures forall target :: DuplicateIn(reviews, id, target) ==> exists a :: a in reviews[i] && a.claim == id && a.duplicateOf == Some(target)
  {
    EveryoneGave(reviews, id, i);
  }

  // ----- What waits

  /** Everyone called the claim nonmaterial, without evidence and not as a duplicate of one other. */
  ghost predicate PlainIn(reviews: seq<seq<Assessment>>, id: ClaimId) {
    NonmaterialIn(reviews, id) && !HasEvidence(AssessmentsOf(reviews, id)) && forall target :: !DuplicateIn(reviews, id, target)
  }

  ghost predicate PlainAt(h: History, round: nat, id: ClaimId) {
    round in h && PlainIn(h[round], id)
  }

  /** Behind the pass of a round: an active claim waits from that round if and only if it was plain there,
      and is confirmed if and only if it was plain in the round before too. */
  ghost predicate WaitsExactly(h: History, round: nat, l: Ledger) {
    if round == 0 then l.pending == map[] else
      forall id :: id in Ids(l.active) ==> WaitsRight(h, round, id, Lookup(l.pending, id))
  }

  ghost predicate WaitsRight(h: History, round: nat, id: ClaimId, wait: Option<Confirmation>) {
    && (wait.Some? ==> wait.value.round <= round)
    && (wait.Some? && wait.value.round == round <==> PlainAt(h, round, id))
    && (wait.Some? && wait.value.round == round ==> (wait.value.confirmed <==> round > 0 && PlainAt(h, round - 1, id)))
  }
}
