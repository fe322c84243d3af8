/** What may be started and which answer a submission gets, said over the policy, the phase and the recorded
    responses alone. */
module PhaseDecisions {
  import opened CouncilTypes
  import opened ClaimLedger
  import opened RetirementResults
  import opened PhaseMachine
  import opened PhaseInvariants
  import opened PhaseResults

  // ----- What may be started

  /** Two or three different participants, one to a hundred rounds, and no fewer active claims than
      participants and no more than twenty-four. */
  ghost predicate MayStart(participants: seq<Participant>, minimum: nat, rounds: nat, maximum: nat, ceiling: nat) {
    && |participants| in {2, 3}
    && (forall i, j :: 0 <= i < |participants| && 0 <= j < |participants| && participants[i] == participants[j] ==> i == j)
    && minimum != 0 && minimum <= rounds && rounds <= maximum && maximum <= 100
    && ceiling >= |participants| && ceiling <= 24
  }

  lemma MayStartIsAllowed(participants: seq<Participant>, minimum: nat, rounds: nat, maximum: nat, ceiling: nat)
    ensures PolicyAllowed(participants, minimum, rounds, maximum, ceiling) <==> MayStart(participants, minimum, rounds, maximum, ceiling)
  {
  }

  /** A dialogue as it is started: under the given policy, collecting proposals, with nothing recorded. */
  predicate StartsWith(
    d: Dialogue, participants: seq<Participant>, minimum: nat, rounds: nat, maximum: nat, stop: bool, ceiling: nat)
  {
    && d.participants == participants && d.minimum == minimum && d.authorized == rounds && d.maximum == maximum
    && (d.stopOnConvergence <==> stop) && d.ceiling == ceiling
    && d.phase == Collecting(Proposal) && d.round == 0 && |d.submissions| == 0 && |d.extensions| == 0
    && d.ledger.raw == [] && d.ledger.active == [] && d.ledger.parked == [] && d.ledger.retired == []
  }

  // ----- Responses and their form

  ghost predicate IsRecorded(d: Dialogue, path: Path) {
    exists s :: s in d.submissions && d.submissions[s] == path
  }

  /** The recorded response of a participant, for a kind and a round. */
  ghost predicate Says(d: Dialogue, files: Files, kind: Kind, round: nat, p: Participant, payload: Payload) {
    IsRecorded(d, Path(kind, round, p)) && Path(kind, round, p) in files && files[Path(kind, round, p)] == payload
  }

  /** Each kind has its form; a proposal makes one to eight claims under names of their own. */
  predicate Formed(kind: Kind, payload: Payload) {
    && (kind.Proposal? <==> payload.ProposalBody?) && (kind.Exchange? <==> payload.ExchangeBody?)
    && (kind.Challenge? <==> payload.ChallengeBody?) && (kind.Synthesis? || kind.Revision? <==> payload.SynthesisBody?)
    && (kind.Check? || kind.RevisionCheck? <==> payload.CheckBody?)
    && (payload.ProposalBody? ==>
          && payload.claims != [] && |payload.claims| <= 8
          && forall i, j :: 0 <= i < |payload.claims| && 0 <= j < |payload.claims| && payload.claims[i].local == payload.claims[j].local ==> i == j)
  }

  lemma FormIsForm(kind: Kind, payload: Payload)
    ensures WellFormed(kind, payload) <==> Formed(kind, payload)
  {
  }

  /** Everyone proposes, exchanges and challenges; the initiator synthesizes and revises; its peers check. */
  predicate Responsible(participants: seq<Participant>, kind: Kind, p: Participant)
    requires participants != []
  {
    match kind
    case Synthesis => p == participants[0]
    case Revision => p == participants[0]
    case Check => p in participants && p != participants[0]
    case RevisionCheck => p in participants && p != participants[0]
    case _ => p in participants
  }

  lemma ResponsibleIsRequired(participants: seq<Participant>, kind: Kind, p: Participant)
    requires participants != [] && NoRepeats(participants)
    ensures p in RequiredFor(participants, kind) <==> Responsible(participants, kind, p)
  {
    if p in participants && p != participants[0] {
      var i :| 0 <= i < |participants| && participants[i] == p;
      assert participants[1..][i - 1] == p;
    }
  }

  /** A review has one assessment of each active claim and no other; a duplicate is nonmaterial and of another
      active claim. */
  ghost predicate Reviewing(active: seq<Claim>, review: seq<Assessment>) {
    && (forall c :: c in active ==> exists i: nat :: i < |review| && review[i].claim == c.id && forall j: nat :: j < |review| && review[j].claim == c.id ==> j == i)
    && forall a :: a in review ==>
         && a.claim in Ids(active)
         && (a.duplicateOf.Some? ==> a.position == Nonmaterial && a.duplicateOf.value in Ids(active) - {a.claim})
  }

  lemma ReviewingIsCovering(active: seq<Claim>, review: seq<Assessment>)
    ensures ReviewCovers(active, review) <==> Reviewing(active, review)
  {
    if ReviewCovers(active, review) {
      forall c | c in active
        ensures exists i: nat :: i < |review| && review[i].claim == c.id && forall j: nat :: j < |review| && review[j].claim == c.id ==> j == i
      {
        assert c.id in Ids(active);
        assert c.id in (set a | a in review :: a.claim);
        var i: nat :| i < |review| && review[i].claim == c.id;
        assert forall j: nat :: j < |review| && review[j].claim == c.id ==> j == i;
      }
      forall a | a in review ensures a.claim in Ids(active) {
        assert a.claim in (set a | a in review :: a.claim);
      }
    }
    if Reviewing(active, review) {
      forall i, j | 0 <= i < j < |review| ensures review[i].claim != review[j].claim {
        assert review[i] in review;
        var c :| c in active && c.id == review[i].claim;
      }
      forall id ensures id in (set a | a in review :: a.claim) <==> id in Ids(active) {
        if id in Ids(active) {
          var c :| c in active && c.id == id;
          var i: nat :| i < |review| && review[i].claim == c.id;
          assert review[i] in review;
        }
      }
    }
  }

  /** What a response says about the claims is in order. */
  ghost predicate Respects(active: seq<Claim>, p: Participant, payload: Payload) {
    && Lawful(active, p, payload)
    && (payload.ExchangeBody? ==> active != [] && Reviewing(active, payload.assessments))
  }

  lemma RespectingIsFitting(active: seq<Claim>, p: Participant, kind: Kind, payload: Payload)
    ensures FitsLedger(active, p, kind, payload) <==> Respects(active, p, payload)
  {
    if payload.ExchangeBody? {
      ReviewingIsCovering(active, payload.assessments);
    }
  }

  // ----- The answer to a submission

  ghost predicate Deciding(n: nat) { true }

  /** It is the participant's turn to answer with this kind. */
  predicate ItsTurn(d: Dialogue, p: Participant, kind: Kind)
    requires d.participants != []
  {
    d.phase == Collecting(kind) && Responsible(d.participants, kind, p)
  }

  /** Whoever else has to propose has done so. */
  ghost predicate OthersProposed(d: Dialogue, p: Participant) {
    forall q :: q in d.participants && q != p ==> IsRecorded(d, Path(Proposal, 0, q))
  }

  /** A response for a round that is to be judged on what it says. */
  ghost predicate InTime(d: Dialogue, p: Participant, kind: Kind, round: nat)
    requires d.participants != []
  {
    !IsRecorded(d, Path(kind, round, p)) && ItsTurn(d, p, kind) && round == d.round
  }

  /** Exactly when each answer is given: a name, until a proof says `Deciding`. A response that is recorded
      is a duplicate where it is the same and conflicts otherwise; one that is not is stale behind its round
      or the dialogue's end, and else has to be expected, for this round, and in order. */
  ghost predicate Rightly(
    d: Dialogue, files: Files, p: Participant, kind: Kind, round: nat, payload: Payload, deliverable: bool, v: Verdict)
  {
    forall n: nat {:trigger Deciding(n)} :: Deciding(n) ==>
      && d.participants != []
      && var path, known := Path(kind, round, p), Formed(kind, payload) && p in d.participants;
      && (v == Duplicate <==> known && Says(d, files, kind, round, p, payload))
      && (v == Refused(Conflicting) <==> known && IsRecorded(d, path) && !Says(d, files, kind, round, p, payload))
      && (v == Stale <==> known && !IsRecorded(d, path) && (d.phase.Terminal() || round < d.round))
      && (v == Refused(Unexpected) <==>
            known && !IsRecorded(d, path) && !d.phase.Terminal() && round >= d.round && !ItsTurn(d, p, kind))
      && (v == Refused(WrongRound) <==> known && !IsRecorded(d, path) && ItsTurn(d, p, kind) && round > d.round)
      && (v == Refused(NotAMember) <==> Formed(kind, payload) && p !in d.participants)
      && (v == Refused(Malformed) <==>
            !Formed(kind, payload) || (known && InTime(d, p, kind, round) && !Respects(d.ledger.active, p, payload)))
      && (v == Refused(Undeliverable) <==>
            && known && InTime(d, p, kind, round) && Respects(d.ledger.active, p, payload)
            && kind.Proposal? && OthersProposed(d, p) && !deliverable)
      && (v == Accepted(path) <==>
            && known && InTime(d, p, kind, round) && Respects(d.ledger.active, p, payload)
            && (kind.Proposal? && OthersProposed(d, p) ==> deliverable))
  }

  lemma RecordedIsSlot(d: Dialogue, files: Files, kind: Kind, round: nat, p: Participant)
    requires d.participants != [] && Responses(d, files)
    ensures
      var s := Slot(kind, SlotRound(kind, round), p);
      IsRecorded(d, Path(kind, round, p)) <==> s in d.submissions && d.submissions[s].round == round
  {
    var s := Slot(kind, SlotRound(kind, round), p);
    if IsRecorded(d, Path(kind, round, p)) {
      var t :| t in d.submissions && d.submissions[t] == Path(kind, round, p);
      assert SlotOf(d.submissions[t]) == t;
    }
    if s in d.submissions {
      assert SlotOf(d.submissions[s]) == s;
    }
  }

  /** In a phase, the round of the artifacts is the dialogue's. */
  lemma RoundOfArtifacts(d: Dialogue)
    requires Policy(d) && d.phase.Collecting? && Progress(d)
    ensures ArtifactRound(d) == d.round
  {
  }

  lemma OthersAreTarget(d: Dialogue, files: Files, p: Participant)
    requires Policy(d) && Responses(d, files) && d.phase == Collecting(Proposal) && p in d.participants
    ensures Target(d, Proposal, 0) + {p} == Elements(d.required) <==> OthersProposed(d, p)
  {
    forall q ensures q in Target(d, Proposal, 0) <==> IsRecorded(d, Path(Proposal, 0, q)) {
      RecordedIsSlot(d, files, Proposal, 0, q);
      if q in Target(d, Proposal, 0) {
        var s :| s in d.submissions && s.kind == Proposal && s.round == 0 && s.participant == q;
        assert SlotOf(d.submissions[s]) == s;
      }
      if Slot(Proposal, 0, q) in d.submissions {
        assert Slot(Proposal, 0, q).participant in Target(d, Proposal, 0);
      }
    }
    forall s | s in d.submissions && s.kind == Proposal ensures s.participant in d.participants {
      assert Belongs(d, s);
    }
    if OthersProposed(d, p) {
      forall q | q in Elements(d.required) ensures q in Target(d, Proposal, 0) + {p} {
      }
    }
    if Target(d, Proposal, 0) + {p} == Elements(d.required) {
      forall q | q in d.participants && q != p ensures IsRecorded(d, Path(Proposal, 0, q)) {
        assert q in Elements(d.required);
      }
    }
  }

  /** A response that is expected for this round has no record under another one. */
  lemma NoOtherRecord(d: Dialogue, files: Files, p: Participant, kind: Kind)
    requires Policy(d) && Responses(d, files)
    requires Slot(kind, SlotRound(kind, d.round), p) in d.submissions
    ensures d.submissions[Slot(kind, SlotRound(kind, d.round), p)].round == d.round
  {
    var s := Slot(kind, SlotRound(kind, d.round), p);
    assert SlotOf(d.submissions[s]) == s;
  }

  lemma UnknownIsRefused(
    d: Dialogue, files: Files, p: Participant, kind: Kind, round: nat, payload: Payload, deliverable: bool)
    requires d.participants != [] && FilesPresent(d, files) && (WellFormed(kind, payload) <==> Formed(kind, payload))
    requires !Formed(kind, payload) || p !in d.participants
    ensures Rightly(d, files, p, kind, round, payload, deliverable, Admit(d, files, p, kind, round, payload, deliverable))
  {
  }

  lemma RecordedIsAnswered(
    d: Dialogue, files: Files, p: Participant, kind: Kind, round: nat, payload: Payload, deliverable: bool)
    requires d.participants != [] && FilesPresent(d, files) && WellFormed(kind, payload) && Formed(kind, payload) && p in d.participants
    requires IsRecorded(d, Path(kind, round, p))
    requires
      var s := Slot(kind, SlotRound(kind, round), p);
      s in d.submissions && d.submissions[s] == Path(kind, round, p)
    ensures Rightly(d, files, p, kind, round, payload, deliverable, Admit(d, files, p, kind, round, payload, deliverable))
  {
  }

  lemma NewIsJudged(
    d: Dialogue, files: Files, p: Participant, kind: Kind, round: nat, payload: Payload, deliverable: bool)
    requires d.participants != [] && FilesPresent(d, files) && WellFormed(kind, payload) && Formed(kind, payload) && p in d.participants
    requires !IsRecorded(d, Path(kind, round, p))
    requires
      var s := Slot(kind, SlotRound(kind, round), p);
      s in d.submissions ==> d.submissions[s].round != round && round != d.round
    requires Expects(d, p, kind) <==> ItsTurn(d, p, kind)
    requires d.phase.Collecting? ==> ArtifactRound(d) == d.round
    requires FitsLedger(d.ledger.active, p, kind, payload) <==> Respects(d.ledger.active, p, payload)
    requires d.phase == Collecting(Proposal) ==> (Target(d, Proposal, 0) + {p} == Elements(d.required) <==> OthersProposed(d, p))
    ensures Rightly(d, files, p, kind, round, payload, deliverable, Admit(d, files, p, kind, round, payload, deliverable))
  {
  }

  /** The broker's answer is the right one. */
  lemma AnswersRightly(
    d: Dialogue, files: Files, p: Participant, kind: Kind, round: nat, payload: Payload, deliverable: bool)
    requires Sound(d, files)
    ensures Rightly(d, files, p, kind, round, payload, deliverable, Admit(d, files, p, kind, round, payload, deliverable))
  {
    FormIsForm(kind, payload);
    RecordedIsSlot(d, files, kind, round, p);
    if !Formed(kind, payload) || p !in d.participants {
      UnknownIsRefused(d, files, p, kind, round, payload, deliverable);
    } else if IsRecorded(d, Path(kind, round, p)) {
      SlotHoldsPath(d, files, kind, round, p);
      RecordedIsAnswered(d, files, p, kind, round, payload, deliverable);
    } else {
      JudgingFacts(d, files, p, kind, round);
      RespectingIsFitting(d.ledger.active, p, kind, payload);
      NewIsJudged(d, files, p, kind, round, payload, deliverable);
    }
  }

  lemma SlotHoldsPath(d: Dialogue, files: Files, kind: Kind, round: nat, p: Participant)
    requires d.participants != [] && Responses(d, files) && IsRecorded(d, Path(kind, round, p))
    ensures
      var s := Slot(kind, SlotRound(kind, round), p);
      s in d.submissions && d.submissions[s] == Path(kind, round, p)
  {
    RecordedIsSlot(d, files, kind, round, p);
    var s := Slot(kind, SlotRound(kind, round), p);
    assert SlotOf(d.submissions[s]) == s;
  }

  lemma JudgingFacts(d: Dialogue, files: Files, p: Participant, kind: Kind, round: nat)
    requires Sound(d, files) && p in d.participants && !IsRecorded(d, Path(kind, round, p))
    ensures
      var s := Slot(kind, SlotRound(kind, round), p);
      s in d.submissions ==> d.submissions[s].round != round && round != d.round
    ensures Expects(d, p, kind) <==> ItsTurn(d, p, kind)
    ensures d.phase.Collecting? ==> ArtifactRound(d) == d.round
    ensures d.phase == Collecting(Proposal) ==> (Target(d, Proposal, 0) + {p} == Elements(d.required) <==> OthersProposed(d, p))
  {
    RecordedIsSlot(d, files, kind, round, p);
    ResponsibleIsRequired(d.participants, kind, p);
    if Slot(kind, SlotRound(kind, round), p) in d.submissions && round == d.round {
      NoOtherRecord(d, files, p, kind);
    }
    if d.phase.Collecting? {
      RoundOfArtifacts(d);
      if d.phase.kind.Proposal? {
        OthersAreTarget(d, files, p);
      }
    }
  }
}
