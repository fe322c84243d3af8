/** What a full phase leads to, said over the recorded responses alone: which phase comes next, which claims
    retire with it, what an extension does, and what the final record holds. */
module PhaseOutcomes {
  import opened CouncilTypes
  import opened FairActivation
  import opened ClaimLedger
  import opened RetirementResults
  import opened PhaseMachine
  import opened PhaseInvariants
  import opened PhaseResults
  import opened PhaseDecisions

  // ----- What was recorded

  /** The recorded response is what its slot holds. */
  lemma SaysIsBody(d: Dialogue, files: Files, kind: Kind, p: Participant)
    requires d.participants != [] && Responses(d, files) && Slot(kind, SlotRound(kind, d.round), p) in d.submissions
    ensures Says(d, files, kind, d.round, p, Body(d, files, Slot(kind, SlotRound(kind, d.round), p)))
  {
    var s := Slot(kind, SlotRound(kind, d.round), p);
    assert SlotOf(d.submissions[s]) == s && d.submissions[s] == Path(kind, d.round, p);
  }

  lemma SaidIsBody(d: Dialogue, files: Files, kind: Kind, round: nat, p: Participant, payload: Payload)
    requires d.participants != [] && Responses(d, files) && Says(d, files, kind, round, p, payload)
    ensures Slot(kind, SlotRound(kind, round), p) in d.submissions
    ensures Body(d, files, Slot(kind, SlotRound(kind, round), p)) == payload
  {
    SlotHoldsPath(d, files, kind, round, p);
  }

  /** The participant's assessment of a claim, in the exchange of the round. */
  ghost predicate Assessing(d: Dialogue, files: Files, round: nat, p: Participant, a: Assessment) {
    exists payload :: Says(d, files, Exchange, round, p, payload) && payload.ExchangeBody? && a in payload.assessments
  }

  // ----- What the proposals become

  /** The claims as everyone proposed them, participant by participant. */
  ghost predicate Proposes(d: Dialogue, files: Files, orders: seq<seq<Claim>>) {
    && |orders| == |d.participants|
    && forall i :: 0 <= i < |orders| ==> ProposesAs(d, files, d.participants[i], orders[i])
  }

  /** The participant proposed these claims, in this order. */
  ghost predicate ProposesAs(d: Dialogue, files: Files, p: Participant, order: seq<Claim>) {
    exists payload ::
      && Says(d, files, Proposal, 0, p, payload) && payload.ProposalBody? && |order| == |payload.claims|
      && forall k :: 0 <= k < |order| ==>
           order[k] == Claim(ClaimId(p, payload.claims[k].local), p, payload.claims[k].text)
  }

  lemma OrdersAreProposed(d: Dialogue, files: Files)
    requires Policy(d) && Responses(d, files) && FullAt(d, Proposal, 0)
    ensures Proposes(d, files, Orders(d, files))
  {
    forall i | 0 <= i < |d.participants| ensures ProposesAs(d, files, d.participants[i], Orders(d, files)[i]) {
      var s := Slot(Proposal, 0, d.participants[i]);
      assert s in d.submissions && SlotOf(d.submissions[s]) == s;
      assert Says(d, files, Proposal, 0, d.participants[i], Body(d, files, s));
    }
  }

  /** All these claims are in the ledger and no other, and one is active if and only if fewer claims than the
      ceiling come before it, place by place and participant by participant. */
  ghost predicate LedgerOf(l: Ledger, orders: seq<seq<Claim>>, ceiling: nat) {
    && (forall c :: c in l.raw <==> exists i :: 0 <= i < |orders| && c in orders[i])
    && (forall i: nat, k: nat :: i < |orders| && k < |orders[i]| ==> (orders[i][k] in l.active <==> |Earlier(orders, i, k)| < ceiling))
    && (forall c :: c in l.parked <==> c in l.raw && c !in l.active) && l.retired == []
  }

  /** The proposals make the ledger. */
  lemma ProposalsBecomeClaims(d: Dialogue, files: Files) returns (orders: seq<seq<Claim>>)
    requires Sound(d, files) && d.phase == Collecting(Proposal) && BarrierReached(d)
    ensures Proposes(d, files, orders) && LedgerOf(Advanced(d, files).dialogue.ledger, orders, d.ceiling)
  {
    BarrierIsFull(d, files);
    orders := Orders(d, files);
    OrdersAreProposed(d, files);
    ProposalClaims(d, files);
    BuiltFrom(orders, d.ceiling);
    ProposalLedger(d, files);
    assert Advanced(d, files) == Next(d, files);
  }

  lemma ProposalLedger(d: Dialogue, files: Files)
    requires CanAdvance(d, files) && d.phase == Collecting(Proposal)
    ensures Next(d, files).dialogue.ledger == BuiltLedger(Orders(d, files), d.ceiling)
  {
  }

  lemma BuiltFrom(orders: seq<seq<Claim>>, ceiling: nat)
    requires Distinct(orders)
    ensures LedgerOf(BuiltLedger(orders, ceiling), orders, ceiling)
  {
    var l := BuiltLedger(orders, ceiling);
    forall c ensures c in l.raw <==> exists i :: 0 <= i < |orders| && c in orders[i] {
      RawMembers(orders, c);
    }
    forall i: nat, k: nat | i < |orders| && k < |orders[i]| ensures orders[i][k] in l.active <==> |Earlier(orders, i, k)| < ceiling {
      ActiveByCount(orders, ceiling, i, k);
    }
    ParkedFrom(orders, ceiling);
  }

  lemma ParkedFrom(orders: seq<seq<Claim>>, ceiling: nat)
    requires Distinct(orders)
    ensures
      var l := BuiltLedger(orders, ceiling);
      forall c :: c in l.parked <==> c in l.raw && c !in l.active
  {
    var l := BuiltLedger(orders, ceiling);
    ActivatedMembers(orders, ceiling);
    RawDistinct(orders);
    forall c ensures c in l.parked <==> c in l.raw && c !in l.active {
      if c in l.raw && c.id in Ids(l.active) {
        var a :| a in l.active && a.id == c.id;
        assert a in l.raw;
      }
    }
  }

  // ----- When the exchange has earned a challenge

  /** The participant offers to converge: nothing material is new and nothing is left to disagree on. */
  ghost predicate Offers(d: Dialogue, files: Files, p: Participant) {
    exists payload ::
      && Says(d, files, Exchange, d.round, p, payload)
      && payload.ExchangeBody? && payload.candidate && !payload.materialDelta && payload.disagreements == []
  }

  /** Whoever assesses the claim in this round has this position on it. */
  ghost predicate AllHold(d: Dialogue, files: Files, id: ClaimId, position: Position) {
    forall p, a :: p in d.participants && Assessing(d, files, d.round, p, a) && a.claim == id ==> a.position == position
  }

  /** Everyone holds one position on the claim, and a certain one. */
  ghost predicate Held(d: Dialogue, files: Files, id: ClaimId) {
    AllHold(d, files, id, Accept) || AllHold(d, files, id, Reject) || AllHold(d, files, id, Nonmaterial)
  }

  /** Everyone offers to converge, and on each active claim they hold one position that is not uncertain. */
  ghost predicate Agreed(d: Dialogue, files: Files) {
    && (forall p :: p in d.participants ==> Offers(d, files, p))
    && (forall c :: c in d.ledger.active ==> Held(d, files, c.id))
  }

  lemma OfferIsBody(d: Dialogue, files: Files, p: Participant)
    requires d.participants != [] && Responses(d, files) && Slot(Exchange, d.round, p) in d.submissions
    ensures
      var body := Body(d, files, Slot(Exchange, d.round, p));
      Offers(d, files, p) <==> body.ExchangeBody? && body.candidate && !body.materialDelta && body.disagreements == []
  {
    SaysIsBody(d, files, Exchange, p);
    forall payload | Says(d, files, Exchange, d.round, p, payload) ensures payload == Body(d, files, Slot(Exchange, d.round, p)) {
      SaidIsBody(d, files, Exchange, d.round, p, payload);
    }
  }

  lemma AssessingIsReview(d: Dialogue, files: Files, round: nat, i: nat, a: Assessment)
    requires d.participants != [] && Responses(d, files) && FullAt(d, Exchange, round) && i < |d.participants|
    ensures Assessing(d, files, round, d.participants[i], a) <==> a in Reviews(d, files, round)[i]
  {
    var p := d.participants[i];
    var s := Slot(Exchange, round, p);
    assert s in d.submissions && SlotOf(d.submissions[s]) == s;
    assert Says(d, files, Exchange, round, p, Body(d, files, s));
    if Assessing(d, files, round, p, a) {
      var payload :| Says(d, files, Exchange, round, p, payload) && payload.ExchangeBody? && a in payload.assessments;
      SaidIsBody(d, files, Exchange, round, p, payload);
    }
  }

  /** A position that all hold is that of all assessments. */
  lemma HeldIsAssessed(d: Dialogue, files: Files, id: ClaimId, position: Position)
    requires d.participants != [] && Responses(d, files) && FullAt(d, Exchange, d.round)
    ensures
      AllHold(d, files, id, position) <==>
        forall a :: a in AssessmentsOf(Reviews(d, files, d.round), id) ==> a.position == position
  {
    var reviews: seq<seq<Assessment>> := Reviews(d, files, d.round);
    if AllHold(d, files, id, position) {
      forall a | a in AssessmentsOf(reviews, id) ensures a.position == position {
        AssessmentMembers(reviews, id, a);
        var i :| 0 <= i < |reviews| && a in reviews[i];
        AssessingIsReview(d, files, d.round, i, a);
        assert Assessing(d, files, d.round, d.participants[i], a);
      }
    }
    if forall a :: a in AssessmentsOf(reviews, id) ==> a.position == position {
      forall p, a | p in d.participants && Assessing(d, files, d.round, p, a) && a.claim == id ensures a.position == position {
        var i :| 0 <= i < |d.participants| && d.participants[i] == p;
        AssessingIsReview(d, files, d.round, i, a);
        AssessmentMembers(reviews, id, a);
      }
    }
  }

  lemma OnePositionIsHeld(d: Dialogue, files: Files, id: ClaimId)
    requires d.participants != [] && Responses(d, files) && FullAt(d, Exchange, d.round)
    requires AssessmentsOf(Reviews(d, files, d.round), id) != []
    ensures
      var assessments := AssessmentsOf(Reviews(d, files, d.round), id);
      (forall a :: a in assessments ==> a.position == assessments[0].position && a.position != Uncertain) <==>
        Held(d, files, id)
  {
    var assessments := AssessmentsOf(Reviews(d, files, d.round), id);
    HeldIsAssessed(d, files, id, Accept);
    HeldIsAssessed(d, files, id, Reject);
    HeldIsAssessed(d, files, id, Nonmaterial);
    assert assessments[0] in assessments;
  }

  /** What convergence asks of the recorded bodies, and of the positions on each active claim. */
  ghost predicate Offering(d: Dialogue, files: Files)
    requires d.participants != [] && FilesPresent(d, files) && FullAt(d, Exchange, d.round)
  {
    forall p :: p in d.participants ==>
      var body := Body(d, files, Slot(Exchange, d.round, p));
      body.ExchangeBody? && body.candidate && !body.materialDelta && body.disagreements == []
  }

  ghost predicate OnePosition(reviews: seq<seq<Assessment>>, active: seq<Claim>) {
    forall id :: id in Ids(active) ==>
      && AssessmentsOf(reviews, id) != []
      && forall a :: a in AssessmentsOf(reviews, id) ==> a.position == AssessmentsOf(reviews, id)[0].position && a.position != Uncertain
  }

  lemma ConvergedIs(d: Dialogue, files: Files)
    requires d.participants != [] && FilesPresent(d, files) && FullAt(d, Exchange, d.round)
    requires forall i, a: Assessment :: 0 <= i < |d.participants| && a in Reviews(d, files, d.round)[i] ==> a.claim in Ids(d.ledger.active)
    ensures
      Converged(d, files) <==> d.minimum <= d.round && Offering(d, files) && OnePosition(Reviews(d, files, d.round), d.ledger.active)
  {
  }

  lemma OfferingIs(d: Dialogue, files: Files)
    requires d.participants != [] && Responses(d, files) && FullAt(d, Exchange, d.round)
    ensures Offering(d, files) <==> forall p :: p in d.participants ==> Offers(d, files, p)
  {
    forall p | p in d.participants
      ensures
        var body := Body(d, files, Slot(Exchange, d.round, p));
        Offers(d, files, p) <==> body.ExchangeBody? && body.candidate && !body.materialDelta && body.disagreements == []
    {
      OfferIsBody(d, files, p);
    }
  }

  lemma PositionsAre(d: Dialogue, files: Files)
    requires d.participants != [] && Responses(d, files) && FullAt(d, Exchange, d.round)
    requires AllAssessed(d.ledger.active, Reviews(d, files, d.round))
    ensures OnePosition(Reviews(d, files, d.round), d.ledger.active) <==> forall c :: c in d.ledger.active ==> Held(d, files, c.id)
  {
    var reviews: seq<seq<Assessment>> := Reviews(d, files, d.round);
    forall id | id in Ids(d.ledger.active)
      ensures
        (forall a :: a in AssessmentsOf(reviews, id) ==> a.position == AssessmentsOf(reviews, id)[0].position && a.position != Uncertain) <==>
          Held(d, files, id)
    {
      OnePositionIsHeld(d, files, id);
    }
    forall c | c in d.ledger.active ensures c.id in Ids(d.ledger.active) {
    }
  }

  lemma AgreedIsConverged(d: Dialogue, files: Files)
    requires Sound(d, files) && d.phase == Collecting(Exchange) && FullAt(d, Exchange, d.round)
    ensures Converged(d, files) <==> d.minimum <= d.round && Agreed(d, files)
  {
    CurrentAssessed(d, files);
    forall i, a: Assessment | 0 <= i < |d.participants| && a in Reviews(d, files, d.round)[i] ensures a.claim in Ids(d.ledger.active) {
      CoveredClaim(d, files, i, a);
    }
    ConvergedIs(d, files);
    OfferingIs(d, files);
    PositionsAre(d, files);
  }

  lemma CoveredClaim(d: Dialogue, files: Files, i: nat, a: Assessment)
    requires d.participants != [] && FilesPresent(d, files) && ReviewsCurrent(d, files) && d.phase == Collecting(Exchange)
    requires FullAt(d, Exchange, d.round) && i < |d.participants| && a in Reviews(d, files, d.round)[i]
    ensures a.claim in Ids(d.ledger.active)
  {
    var s := Slot(Exchange, d.round, d.participants[i]);
    var review: seq<Assessment> := ReviewOf(Body(d, files, s));
    assert s in d.submissions && ReviewCovers(d.ledger.active, review);
    assert a.claim in (set x | x in review :: x.claim);
  }

  /** At a full exchange the challenge comes next if and only if the authorized rounds are used up, or the
      policy stops on convergence, the minimum of rounds is reached and everyone agrees; otherwise the next
      exchange round does. */
  lemma ExchangeLeadsTo(d: Dialogue, files: Files)
    requires Sound(d, files) && d.phase == Collecting(Exchange) && BarrierReached(d)
    ensures
      var next := Advanced(d, files).dialogue;
      if d.round == d.authorized || (d.stopOnConvergence && d.minimum <= d.round && Agreed(d, files))
      then next.phase == Collecting(Challenge) && next.round == d.round
      else next.phase == Collecting(Exchange) && next.round == d.round + 1
  {
    BarrierIsFull(d, files);
    AgreedIsConverged(d, files);
    ExchangeOpens(d, files);
    assert Advanced(d, files) == Next(d, files);
  }

  lemma ExchangeOpens(d: Dialogue, files: Files)
    requires CanAdvance(d, files) && d.phase == Collecting(Exchange) && FullAt(d, Exchange, d.round)
    ensures
      var next := Next(d, files).dialogue;
      if ChallengeIsDue(d, files)
      then next.phase == Collecting(Challenge) && next.round == d.round
      else next.phase == Collecting(Exchange) && next.round == d.round + 1
  {
  }

  // ----- What the other phases lead to

  ghost predicate RaisesIssue(d: Dialogue, files: Files, p: Participant) {
    exists payload :: Says(d, files, Challenge, d.round, p, payload) && payload.ChallengeBody? && payload.materialIssue
  }

  ghost predicate Corrected(d: Dialogue, files: Files, p: Participant) {
    exists payload :: Says(d, files, Check, d.round, p, payload) && payload.CheckBody? && (!payload.accurate || payload.corrections != [])
  }

  lemma IssueIsRaised(d: Dialogue, files: Files)
    requires d.participants != [] && Responses(d, files)
    ensures MaterialIssue(d, files) <==> exists p :: p in d.participants && RaisesIssue(d, files, p)
  {
    if MaterialIssue(d, files) {
      var s :| s in d.submissions && s.kind == Challenge && s.round == d.round &&
               Body(d, files, s).ChallengeBody? && Body(d, files, s).materialIssue;
      assert Belongs(d, s) && s == Slot(Challenge, d.round, s.participant);
      SaysIsBody(d, files, Challenge, s.participant);
    }
    if p :| p in d.participants && RaisesIssue(d, files, p) {
      var payload :| Says(d, files, Challenge, d.round, p, payload) && payload.ChallengeBody? && payload.materialIssue;
      SaidIsBody(d, files, Challenge, d.round, p, payload);
    }
  }

  lemma CorrectionIsMade(d: Dialogue, files: Files)
    requires Policy(d) && Responses(d, files)
    ensures MaterialCorrection(d.submissions, files) <==> exists p :: p in d.participants && p != d.participants[0] && Corrected(d, files, p)
  {
    if MaterialCorrection(d.submissions, files) {
      var s :| s in d.submissions && s.kind == Check && d.submissions[s] in files && Corrects(files[d.submissions[s]]);
      assert Belongs(d, s) && s == Slot(Check, 0, s.participant);
      ResponsibleIsRequired(d.participants, Check, s.participant);
      SaysIsBody(d, files, Check, s.participant);
    }
    if p :| p in d.participants && Corrected(d, files, p) {
      var payload :| Says(d, files, Check, d.round, p, payload) && payload.CheckBody? && (!payload.accurate || payload.corrections != []);
      SaidIsBody(d, files, Check, d.round, p, payload);
    }
  }

  /** What a full phase leads to. */
  lemma PhaseLeadsTo(d: Dialogue, files: Files)
    requires Sound(d, files) && d.phase.Collecting? && !d.phase.kind.Exchange? && BarrierReached(d)
    ensures
      var next := Advanced(d, files).dialogue;
      match d.phase.kind
      case Proposal => next.phase == Collecting(Exchange) && next.round == 1
      case Exchange => true
      case Challenge =>
        if (exists p :: p in d.participants && RaisesIssue(d, files, p)) && d.round < d.authorized
        then next.phase == Collecting(Exchange) && next.round == d.round + 1
        else next.phase == Collecting(Synthesis) && next.round == d.round
      case Synthesis => next.phase == Collecting(Check) && next.round == d.round
      case Check =>
        && next.round == d.round
        && next.phase == (if |d.participants| == 3 && exists p :: p in d.participants && p != d.participants[0] && Corrected(d, files, p)
                          then Collecting(Revision) else Complete)
      case Revision => next.phase == Collecting(RevisionCheck) && next.round == d.round
      case RevisionCheck => next.phase == Complete && next.round == d.round
  {
    BarrierIsFull(d, files);
    IssueIsRaised(d, files);
    CorrectionIsMade(d, files);
    OthersOpen(d, files);
    assert Advanced(d, files) == Next(d, files);
  }

  lemma OthersOpen(d: Dialogue, files: Files)
    requires CanAdvance(d, files) && !d.phase.kind.Exchange?
    ensures
      var next := Next(d, files).dialogue;
      match d.phase.kind
      case Proposal => next.phase == Collecting(Exchange) && next.round == 1
      case Exchange => true
      case Challenge =>
        if MaterialIssue(d, files) && d.round < d.authorized then next.phase == Collecting(Exchange) && next.round == d.round + 1
        else next.phase == Collecting(Synthesis) && next.round == d.round
      case Synthesis => next.phase == Collecting(Check) && next.round == d.round
      case Check =>
        next.round == d.round && next.phase == (if |d.participants| == 3 && MaterialCorrection(d.submissions, files) then Collecting(Revision) else Complete)
      case Revision => next.phase == Collecting(RevisionCheck) && next.round == d.round
      case RevisionCheck => next.phase == Complete && next.round == d.round
  {
  }

  // ----- Which claims retire

  ghost predicate DeemsDuplicate(d: Dialogue, files: Files, round: nat, p: Participant, id: ClaimId, target: ClaimId) {
    exists a :: Assessing(d, files, round, p, a) && a.claim == id && a.duplicateOf == Some(target)
  }

  ghost predicate DeemsNonmaterial(d: Dialogue, files: Files, round: nat, p: Participant, id: ClaimId) {
    exists a :: Assessing(d, files, round, p, a) && a.claim == id && a.position == Nonmaterial
  }

  ghost predicate AllCallDuplicate(d: Dialogue, files: Files, round: nat, id: ClaimId, target: ClaimId) {
    forall p :: p in d.participants ==> DeemsDuplicate(d, files, round, p, id, target)
  }

  ghost predicate AllCallNonmaterial(d: Dialogue, files: Files, round: nat, id: ClaimId) {
    forall p :: p in d.participants ==> DeemsNonmaterial(d, files, round, p, id)
  }

  ghost predicate SomeEvidence(d: Dialogue, files: Files, round: nat, id: ClaimId) {
    exists p, a :: p in d.participants && Assessing(d, files, round, p, a) && a.claim == id && a.evidence != []
  }

  /** Everyone called it nonmaterial, without evidence and not as a duplicate of one other claim. */
  ghost predicate AllDismiss(d: Dialogue, files: Files, round: nat, id: ClaimId) {
    && AllCallNonmaterial(d, files, round, id) && !SomeEvidence(d, files, round, id)
    && forall target :: !AllCallDuplicate(d, files, round, id, target)
  }

  /** The grounds for a retirement at the challenge of the round. */
  ghost predicate HasGrounds(d: Dialogue, files: Files, round: nat, id: ClaimId) {
    || (exists target :: AllCallDuplicate(d, files, round, id, target))
    || (AllCallNonmaterial(d, files, round, id) && (SomeEvidence(d, files, round, id) || (round > 1 && AllDismiss(d, files, round - 1, id))))
  }

  /** What the participants say of a claim is what the reviews say. */
  lemma DuplicateIsSaid(d: Dialogue, files: Files, round: nat, id: ClaimId, target: ClaimId)
    requires d.participants != [] && Responses(d, files) && FullAt(d, Exchange, round)
    ensures AllCallDuplicate(d, files, round, id, target) <==> EveryoneCallsDuplicate(Reviews(d, files, round), id, target)
  {
    var reviews: seq<seq<Assessment>> := Reviews(d, files, round);
    if AllCallDuplicate(d, files, round, id, target) {
      forall i: nat | i < |reviews| ensures CallsDuplicate(reviews[i], id, target) {
        assert DeemsDuplicate(d, files, round, d.participants[i], id, target);
        var a :| Assessing(d, files, round, d.participants[i], a) && a.claim == id && a.duplicateOf == Some(target);
        AssessingIsReview(d, files, round, i, a);
      }
    }
    if EveryoneCallsDuplicate(reviews, id, target) {
      forall p | p in d.participants ensures DeemsDuplicate(d, files, round, p, id, target) {
        var i: nat :| i < |d.participants| && d.participants[i] == p;
        assert CallsDuplicate(reviews[i], id, target);
        var a :| a in reviews[i] && a.claim == id && a.duplicateOf == Some(target);
        AssessingIsReview(d, files, round, i, a);
      }
    }
  }

  lemma NonmaterialIsSaid(d: Dialogue, files: Files, round: nat, id: ClaimId)
    requires d.participants != [] && Responses(d, files) && FullAt(d, Exchange, round)
    ensures AllCallNonmaterial(d, files, round, id) <==> EveryoneCallsNonmaterial(Reviews(d, files, round), id)
  {
    var reviews: seq<seq<Assessment>> := Reviews(d, files, round);
    if AllCallNonmaterial(d, files, round, id) {
      forall i: nat | i < |reviews| ensures CallsNonmaterial(reviews[i], id) {
        assert DeemsNonmaterial(d, files, round, d.participants[i], id);
        var a :| Assessing(d, files, round, d.participants[i], a) && a.claim == id && a.position == Nonmaterial;
        AssessingIsReview(d, files, round, i, a);
      }
    }
    if EveryoneCallsNonmaterial(reviews, id) {
      forall p | p in d.participants ensures DeemsNonmaterial(d, files, round, p, id) {
        var i: nat :| i < |d.participants| && d.participants[i] == p;
        assert CallsNonmaterial(reviews[i], id);
        var a :| a in reviews[i] && a.claim == id && a.position == Nonmaterial;
        AssessingIsReview(d, files, round, i, a);
      }
    }
  }

  lemma EvidenceIsSaid(d: Dialogue, files: Files, round: nat, id: ClaimId)
    requires d.participants != [] && Responses(d, files) && FullAt(d, Exchange, round)
    ensures SomeEvidence(d, files, round, id) <==> SomeoneHasEvidence(Reviews(d, files, round), id)
  {
    var reviews: seq<seq<Assessment>> := Reviews(d, files, round);
    if SomeEvidence(d, files, round, id) {
      var p, a :| p in d.participants && Assessing(d, files, round, p, a) && a.claim == id && a.evidence != [];
      var i: nat :| i < |d.participants| && d.participants[i] == p;
      AssessingIsReview(d, files, round, i, a);
    }
    if SomeoneHasEvidence(reviews, id) {
      var i: nat, a :| i < |reviews| && a in reviews[i] && a.claim == id && a.evidence != [];
      AssessingIsReview(d, files, round, i, a);
    }
  }

  lemma ReviewsDistinct(d: Dialogue, files: Files, round: nat)
    requires d.participants != [] && Responses(d, files) && FullAt(d, Exchange, round)
    ensures AllDistinct(Reviews(d, files, round))
  {
    forall i | 0 <= i < |d.participants| ensures ReviewDistinct(Reviews(d, files, round)[i]) {
      assert Slot(Exchange, round, d.participants[i]) in d.submissions;
    }
  }

  lemma DuplicateMeans(d: Dialogue, files: Files, round: nat, id: ClaimId, target: ClaimId)
    requires d.participants != [] && Responses(d, files) && FullAt(d, Exchange, round)
    ensures DuplicateIn(Reviews(d, files, round), id, target) <==> AllCallDuplicate(d, files, round, id, target)
  {
    ReviewsDistinct(d, files, round);
    DuplicateToEveryone(Reviews(d, files, round), id, target);
    DuplicateIsSaid(d, files, round, id, target);
  }

  lemma NonmaterialMeans(d: Dialogue, files: Files, round: nat, id: ClaimId)
    requires d.participants != [] && Responses(d, files) && FullAt(d, Exchange, round)
    ensures NonmaterialIn(Reviews(d, files, round), id) <==> AllCallNonmaterial(d, files, round, id)
    ensures HasEvidence(AssessmentsOf(Reviews(d, files, round), id)) <==> SomeEvidence(d, files, round, id)
    ensures PlainIn(Reviews(d, files, round), id) <==> AllDismiss(d, files, round, id)
  {
    ReviewsDistinct(d, files, round);
    NonmaterialToEveryone(Reviews(d, files, round), id);
    EvidenceOfSomeone(Reviews(d, files, round), id);
    NonmaterialIsSaid(d, files, round, id);
    EvidenceIsSaid(d, files, round, id);
    forall target ensures DuplicateIn(Reviews(d, files, round), id, target) <==> AllCallDuplicate(d, files, round, id, target) {
      DuplicateMeans(d, files, round, id, target);
    }
  }

  /** Another active claim is, to everyone, a duplicate of this one. */
  ghost predicate IsKept(d: Dialogue, files: Files, id: ClaimId) {
    exists other :: other in Ids(d.ledger.active) && AllCallDuplicate(d, files, d.round, other, id)
  }

  /** To everyone it is a duplicate of an active claim that is, to everyone, a duplicate itself. */
  ghost predicate IsInLine(d: Dialogue, files: Files, id: ClaimId) {
    exists target, further ::
      AllCallDuplicate(d, files, d.round, id, target) && target in Ids(d.ledger.active) && AllCallDuplicate(d, files, d.round, target, further)
  }

  lemma GroundsAre(d: Dialogue, files: Files, id: ClaimId)
    requires d.participants != [] && Responses(d, files) && d.round > 0 && FullAt(d, Exchange, d.round) && id in Ids(d.ledger.active)
    requires d.round > 1 ==> FullAt(d, Exchange, d.round - 1)
    requires WaitsExactly(ReviewHistory(d, files), d.round, d.ledger)
    ensures TakenUp(d.ledger, Reviews(d, files, d.round), d.round, id) <==> HasGrounds(d, files, d.round, id)
  {
    var h, before := ReviewHistory(d, files), d.round - 1;
    assert h[d.round] == Reviews(d, files, d.round);
    TakenUpBy(d.ledger, h, d.round, id);
    forall target ensures DuplicateIn(h[d.round], id, target) <==> AllCallDuplicate(d, files, d.round, id, target) {
      DuplicateMeans(d, files, d.round, id, target);
    }
    NonmaterialMeans(d, files, d.round, id);
    if before > 0 {
      assert before in h && h[before] == Reviews(d, files, before);
      NonmaterialMeans(d, files, before, id);
    }
  }

  lemma SparedAre(d: Dialogue, files: Files, id: ClaimId)
    requires d.participants != [] && Responses(d, files) && FullAt(d, Exchange, d.round)
    ensures IsTarget(d.ledger.active, Reviews(d, files, d.round), id) <==> IsKept(d, files, id)
    ensures IsInChain(d.ledger.active, Reviews(d, files, d.round), id) <==> IsInLine(d, files, id)
  {
    forall a, b ensures DuplicateIn(Reviews(d, files, d.round), a, b) <==> AllCallDuplicate(d, files, d.round, a, b) {
      DuplicateMeans(d, files, d.round, a, b);
    }
  }

  /** A challenge that passes retires a claim if and only if there are grounds for it, and it is not kept as
      what another one duplicates, nor in line behind another duplicate, nor needed for two origins. */
  lemma ChallengeRetires(d: Dialogue, files: Files, id: ClaimId)
    requires Sound(d, files) && d.phase == Collecting(Challenge) && BarrierReached(d) && id in Ids(d.ledger.active)
    requires forall p :: p in d.participants ==> !RaisesIssue(d, files, p)
    ensures
      var after := Advanced(d, files).dialogue.ledger.active;
      id !in Ids(after) <==>
        HasGrounds(d, files, d.round, id) && !IsKept(d, files, id) && !IsInLine(d, files, id) && TwoOrigins(Without(after, {id}))
  {
    BarrierIsFull(d, files);
    IssueIsRaised(d, files);
    CurrentReviews(d, files);
    CurrentAssessed(d, files);
    PassRetiresExactly(d.ledger, Reviews(d, files, d.round), d.round, id);
    RoundBefore(d);
    GroundsAre(d, files, id);
    SparedAre(d, files, id);
    ChallengeLedger(d, files);
    assert Advanced(d, files) == Next(d, files);
  }

  lemma RoundBefore(d: Dialogue)
    requires Policy(d) && Progress(d) && d.phase == Collecting(Challenge)
    ensures d.round > 0 && FullAt(d, Exchange, d.round) && (d.round > 1 ==> FullAt(d, Exchange, d.round - 1))
  {
  }

  lemma ChallengeLedger(d: Dialogue, files: Files)
    requires CanAdvance(d, files) && d.phase == Collecting(Challenge) && !MaterialIssue(d, files)
    ensures Next(d, files).dialogue.ledger == Retirement(d.ledger, Reviews(d, files, d.round), d.round, true)
  {
  }

  /** No other step retires a claim, and only the proposals bring claims in. */
  lemma OnlyChallengesRetire(d: Dialogue, files: Files)
    requires Sound(d, files) && d.phase.Collecting? && BarrierReached(d) && !d.phase.kind.Proposal?
    requires d.phase.kind.Challenge? ==> exists p :: p in d.participants && RaisesIssue(d, files, p)
    ensures
      var next := Advanced(d, files).dialogue.ledger;
      next.active == d.ledger.active && next.parked == d.ledger.parked && next.retired == d.ledger.retired && next.raw == d.ledger.raw
  {
    BarrierIsFull(d, files);
    IssueIsRaised(d, files);
    OtherLedgers(d, files);
    assert Advanced(d, files) == Next(d, files);
  }

  lemma OtherLedgers(d: Dialogue, files: Files)
    requires CanAdvance(d, files) && !d.phase.kind.Proposal? && (d.phase.kind.Challenge? ==> MaterialIssue(d, files))
    ensures
      var next := Next(d, files).dialogue.ledger;
      next.active == d.ledger.active && next.parked == d.ledger.parked && next.retired == d.ledger.retired && next.raw == d.ledger.raw
  {
  }

  /** Whatever retired did so on everyone's word: as a duplicate of the same claim, or as nonmaterial, with
      evidence or again after the round before. */
  lemma RetiredOnEveryonesWord(d: Dialogue, files: Files, r: Retired)
    requires Sound(d, files) && r in d.ledger.retired
    ensures
      match r.duplicateOf
      case Some(target) => AllCallDuplicate(d, files, r.round, r.claim.id, target)
      case None =>
        && AllCallNonmaterial(d, files, r.round, r.claim.id)
        && (SomeEvidence(d, files, r.round, r.claim.id) || (r.round > 1 && AllCallNonmaterial(d, files, r.round - 1, r.claim.id)))
  {
    var h, id := ReviewHistory(d, files), r.claim.id;
    assert Grounded(h, r.round, id, r.duplicateOf);
    assert r.round in h && h[r.round] == Reviews(d, files, r.round);
    match r.duplicateOf {
      case Some(target) => DuplicateMeans(d, files, r.round, id, target);
      case None =>
        NonmaterialMeans(d, files, r.round, id);
        if !HasEvidence(AssessmentsOf(h[r.round], id)) {
          var before := r.round - 1;
          assert before in h && h[before] == Reviews(d, files, before);
          NonmaterialMeans(d, files, before, id);
        }
    }
  }

  // ----- What the final record holds

  /** The final record is the dialogue's last word: its claims, the synthesis, the revision if one was due,
      the challenges of the last round, and the checks of each by each peer. */
  ghost predicate Tells(d: Dialogue, files: Files, f: Final)
    requires d.participants != []
  {
    var initiator, peers := d.participants[0], set p | p in d.participants && p != d.participants[0];
    var revised := exists payload :: Says(d, files, Revision, d.round, initiator, payload);
    && |f.claims| == |d.ledger.active| && (forall i :: 0 <= i < |f.claims| ==> f.claims[i] == d.ledger.active[i].id)
    && f.parked == d.ledger.parked && f.retired == d.ledger.retired
    && Says(d, files, Synthesis, d.round, initiator, f.synthesis)
    && (if revised then f.revision.Some? && Says(d, files, Revision, d.round, initiator, f.revision.value) else f.revision.None?)
    && f.challenges.Keys == Elements(d.participants) && (forall p :: p in f.challenges ==> Says(d, files, Challenge, d.round, p, f.challenges[p]))
    && f.checks.Keys == peers && (forall p :: p in f.checks ==> Says(d, files, Check, d.round, p, f.checks[p]))
    && f.revisionChecks.Keys == (if revised then peers else {})
    && (forall p :: p in f.revisionChecks ==> Says(d, files, RevisionCheck, d.round, p, f.revisionChecks[p]))
  }

  lemma BodiesAreSaid(d: Dialogue, files: Files, kind: Kind, p: Participant)
    requires d.participants != [] && Responses(d, files)
    ensures p in Bodies(d, files, kind, d.round) <==> exists payload :: Says(d, files, kind, d.round, p, payload)
    ensures p in Bodies(d, files, kind, d.round) ==> Says(d, files, kind, d.round, p, Bodies(d, files, kind, d.round)[p])
  {
    var s := Slot(kind, SlotRound(kind, d.round), p);
    if s in d.submissions {
      SaysIsBody(d, files, kind, p);
      assert s.participant in Bodies(d, files, kind, d.round);
    }
    if payload :| Says(d, files, kind, d.round, p, payload) {
      SaidIsBody(d, files, kind, d.round, p, payload);
    }
    if p in Bodies(d, files, kind, d.round) {
      assert s in d.submissions;
    }
  }

  lemma LateBodies(d: Dialogue, files: Files, kind: Kind)
    requires d.participants != [] && FilesPresent(d, files) && !PerRound(kind)
    ensures Bodies(d, files, kind, 0) == Bodies(d, files, kind, d.round)
  {
  }

  /** Whose responses of a kind there are. */
  lemma FullIsSaid(d: Dialogue, files: Files, kind: Kind, p: Participant)
    requires Policy(d) && Responses(d, files) && FullAt(d, kind, SlotRound(kind, d.round))
    ensures p in Bodies(d, files, kind, d.round) <==> Responsible(d.participants, kind, p)
  {
    var s := Slot(kind, SlotRound(kind, d.round), p);
    ResponsibleIsRequired(d.participants, kind, p);
    if s in d.submissions {
      assert Belongs(d, s);
      SaysIsBody(d, files, kind, p);
    }
    BodiesAreSaid(d, files, kind, p);
    if p in Bodies(d, files, kind, d.round) {
      SaidIsBody(d, files, kind, d.round, p, Bodies(d, files, kind, d.round)[p]);
    }
  }

  /** A complete dialogue's final record tells it. */
  lemma FinalTells(d: Dialogue, files: Files)
    requires Sound(d, files) && d.phase.Complete?
    ensures Slot(Synthesis, 0, d.participants[0]) in d.submissions
    ensures Tells(d, files, FinalRecord(d, files))
  {
    CompletionNeedsTheFullRecord(d, files);
    assert FullAt(d, Challenge, d.round) && FullAt(d, Check, 0);
    FullTells(d, files, FinalRecord(d, files));
  }

  lemma FullTells(d: Dialogue, files: Files, f: Final)
    requires Policy(d) && Responses(d, files) && RevisionDone(d, files) && Slot(Synthesis, 0, d.participants[0]) in d.submissions
    requires FullAt(d, Challenge, d.round) && FullAt(d, Check, 0) && f == FinalRecord(d, files)
    ensures Tells(d, files, f)
  {
    SynthesisTold(d, files);
    ListsTold(d, files, f, set p | p in d.participants && p != d.participants[0]);
  }

  lemma SynthesisTold(d: Dialogue, files: Files)
    requires d.participants != [] && Responses(d, files) && Slot(Synthesis, 0, d.participants[0]) in d.submissions
    ensures
      var f, initiator := FinalRecord(d, files), d.participants[0];
      && Says(d, files, Synthesis, d.round, initiator, f.synthesis)
      && (if exists payload :: Says(d, files, Revision, d.round, initiator, payload)
          then f.revision.Some? && Says(d, files, Revision, d.round, initiator, f.revision.value) else f.revision.None?)
  {
    SaysIsBody(d, files, Synthesis, d.participants[0]);
    if Slot(Revision, 0, d.participants[0]) in d.submissions {
      SaysIsBody(d, files, Revision, d.participants[0]);
    }
    if payload :| Says(d, files, Revision, d.round, d.participants[0], payload) {
      SaidIsBody(d, files, Revision, d.round, d.participants[0], payload);
    }
  }

  /** The list of a kind's bodies holds what each participant said. */
  lemma ListTold(d: Dialogue, files: Files, kind: Kind, list: map<Participant, Payload>)
    requires d.participants != [] && Responses(d, files) && list == Bodies(d, files, kind, d.round)
    ensures forall p :: p in list ==> Says(d, files, kind, d.round, p, list[p])
  {
    forall p | p in list ensures Says(d, files, kind, d.round, p, list[p]) {
      BodiesAreSaid(d, files, kind, p);
    }
  }

  lemma FullListTold(d: Dialogue, files: Files, kind: Kind, list: map<Participant, Payload>, who: set<Participant>)
    requires Policy(d) && Responses(d, files) && FullAt(d, kind, SlotRound(kind, d.round)) && list == Bodies(d, files, kind, d.round)
    requires forall p :: p in who <==> Responsible(d.participants, kind, p)
    ensures list.Keys == who
  {
    forall p ensures p in list <==> p in who {
      FullIsSaid(d, files, kind, p);
    }
  }

  lemma ListsTold(d: Dialogue, files: Files, f: Final, peers: set<Participant>)
    requires Policy(d) && Responses(d, files) && RevisionDone(d, files)
    requires FullAt(d, Challenge, d.round) && FullAt(d, Check, 0)
    requires f.challenges == Bodies(d, files, Challenge, d.round) && f.checks == Bodies(d, files, Check, 0)
    requires f.revisionChecks == Bodies(d, files, RevisionCheck, 0)
    requires peers == set p | p in d.participants && p != d.participants[0]
    ensures f.challenges.Keys == Elements(d.participants) && (forall p :: p in f.challenges ==> Says(d, files, Challenge, d.round, p, f.challenges[p]))
    ensures f.checks.Keys == peers && (forall p :: p in f.checks ==> Says(d, files, Check, d.round, p, f.checks[p]))
    ensures f.revisionChecks.Keys == (if exists payload :: Says(d, files, Revision, d.round, d.participants[0], payload) then peers else {})
    ensures forall p :: p in f.revisionChecks ==> Says(d, files, RevisionCheck, d.round, p, f.revisionChecks[p])
  {
    LateBodies(d, files, Check);
    LateBodies(d, files, RevisionCheck);
    ListTold(d, files, Challenge, f.challenges);
    ListTold(d, files, Check, f.checks);
    ListTold(d, files, RevisionCheck, f.revisionChecks);
    FullListTold(d, files, Challenge, f.challenges, Elements(d.participants));
    FullListTold(d, files, Check, f.checks, peers);
    RevisionTold(d, files);
  }

  lemma RevisionTold(d: Dialogue, files: Files)
    requires Policy(d) && Responses(d, files) && RevisionDone(d, files)
    ensures
      forall p :: p in Bodies(d, files, RevisionCheck, d.round) <==>
        && p in d.participants && p != d.participants[0]
        && exists payload :: Says(d, files, Revision, d.round, d.participants[0], payload)
  {
    var initiator := d.participants[0];
    BodiesAreSaid(d, files, Revision, initiator);
    if |d.participants| == 3 && MaterialCorrection(d.submissions, files) {
      FullIsSaid(d, files, Revision, initiator);
      forall p ensures p in Bodies(d, files, RevisionCheck, d.round) <==> p in d.participants && p != initiator {
        FullIsSaid(d, files, RevisionCheck, p);
      }
    } else {
      if payload :| Says(d, files, Revision, d.round, initiator, payload) {
        SaidIsBody(d, files, Revision, d.round, initiator, payload);
      }
      forall p ensures p !in Bodies(d, files, RevisionCheck, d.round) {
      }
    }
  }

  // ----- What an extension does

  /** Exactly when an extension is applied, repeated or refused, and what it makes of the dialogue. Only an
      exchange or a dialogue that waits for its synthesis is extended, within its maximum of rounds. */
  ghost predicate ExtendsRightly(
    d: Dialogue, p: Participant, additional: int, id: ExtensionId, transition: TransitionId, v: ExtensionVerdict)
  {
    && d.participants != []
    && var mayAsk := additional >= 1 && p == d.participants[0];
    && var mayAdd := d.phase in {Collecting(Exchange), Collecting(Synthesis)} && d.authorized + additional <= d.maximum;
    && (v.Repeated? <==> mayAsk && id in d.extensions && d.extensions[id].participant == p && d.extensions[id].additional == additional)
    && (v.RefusedBeforeCommit? <==> mayAsk && id !in d.extensions && !mayAdd)
    && (v.Extended? <==> mayAsk && id !in d.extensions && mayAdd)
    && (v.Repeated? ==> v.extension == d.extensions[id])
    && (v.Extended? ==>
          && v.extension == Extension(p, additional, d.authorized + additional, transition)
          && v.opening.dialogue.authorized == d.authorized + additional
          && v.opening.dialogue.extensions == d.extensions[id := v.extension]
          && (if d.phase == Collecting(Exchange)
              then v.opening.dialogue == d.(authorized := d.authorized + additional, extensions := d.extensions[id := v.extension])
              else v.opening.dialogue.phase == Collecting(Exchange) && v.opening.dialogue.round == d.round + 1
                   && v.opening.dialogue.submissions == d.submissions && v.opening.dialogue.ledger == d.ledger))
  }

  lemma ExtendedRightly(d: Dialogue, p: Participant, additional: int, id: ExtensionId, transition: TransitionId)
    requires d.participants != []
    ensures ExtendsRightly(d, p, additional, id, transition, Extend(d, p, additional, id, transition))
  {
  }
}
