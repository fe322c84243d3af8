/** No stage is a dead end: whoever is waited for has an answer that is accepted, and answers lead every
    dialogue to its completion. */
module PhaseProgress {
  import opened CouncilTypes
  import opened ClaimLedger
  import opened PhaseMachine
  import opened PhaseInvariants
  import opened PhaseResults

  /** Who the current phase waits for. */
  function Awaited(d: Dialogue): set<Participant>
    requires d.phase.Collecting?
  {
    Elements(d.required) - Target(d, d.phase.kind, ArtifactRound(d))
  }

  /** Nobody is waited for exactly when the phase is over. */
  lemma AwaitedUntilBarrier(d: Dialogue, files: Files)
    requires Sound(d, files) && d.phase.Collecting?
    ensures Awaited(d) == {} <==> BarrierReached(d)
  {
    var kind, round := d.phase.kind, ArtifactRound(d);
    forall p | p in Target(d, kind, round) ensures p in Elements(d.required) {
      var s :| s in d.submissions && s.kind == kind && s.round == SlotRound(kind, round) && s.participant == p;
      assert Belongs(d, s);
    }
    if Awaited(d) == {} {
      forall p | p in Elements(d.required) ensures p in Target(d, kind, round) {
        assert p !in Awaited(d);
      }
    }
  }

  // ----- An answer for everyone

  function Accepting(active: seq<Claim>): (review: seq<Assessment>)
    ensures |review| == |active|
    ensures forall i :: 0 <= i < |active| ==> review[i] == Assessment(active[i].id, Accept, [], None)
  {
    seq(|active|, i requires 0 <= i < |active| => Assessment(active[i].id, Accept, [], None))
  }

  function Opposing(active: seq<Claim>, p: Participant): (id: ClaimId)
    requires exists c :: c in active && c.origin != p
    ensures exists c :: c in active && c.id == id && c.origin != p
  {
    if active[0].origin != p then active[0].id else Opposing(active[1..], p)
  }

  predicate Answerable(d: Dialogue, p: Participant)
    requires d.phase.Collecting?
  {
    d.phase.kind.Exchange? ==> exists c :: c in d.ledger.active && c.origin != p
  }

  /** The shortest answer: one claim, agreement with every claim, no issue and no correction. */
  function Answer(d: Dialogue, p: Participant): Payload
    requires d.phase.Collecting? && Answerable(d, p)
  {
    match d.phase.kind
    case Proposal => ProposalBody("", [LocalClaim("", "")])
    case Exchange => ExchangeBody("", false, false, [], Accepting(d.ledger.active), Opposing(d.ledger.active, p))
    case Challenge => ChallengeBody("", false, [])
    case Synthesis => SynthesisBody("")
    case Check => CheckBody("", true, [], true, [])
    case Revision => SynthesisBody("")
    case RevisionCheck => CheckBody("", true, [], true, [])
  }

  lemma AcceptingCovers(l: Ledger)
    requires LedgerInv(l)
    ensures ReviewCovers(l.active, Accepting(l.active))
  {
    var review := Accepting(l.active);
    forall id ensures id in (set a | a in review :: a.claim) <==> id in Ids(l.active) {
      if id in Ids(l.active) {
        var i :| 0 <= i < |l.active| && l.active[i].id == id;
        assert review[i] in review;
      }
    }
  }

  lemma AnswerFits(d: Dialogue, files: Files, p: Participant)
    requires Stable(d, files) && d.phase.Collecting?
    ensures Answerable(d, p) && WellFormed(d.phase.kind, Answer(d, p)) && FitsLedger(d.ledger.active, p, d.phase.kind, Answer(d, p))
  {
    if d.phase.kind.Exchange? {
      OpponentClaimExists(d.ledger, p);
      AcceptingCovers(d.ledger);
    }
  }

  /** Whoever is waited for has an answer that is accepted. */
  lemma AnswerIsAdmitted(d: Dialogue, files: Files, p: Participant)
    requires Stable(d, files) && d.phase.Collecting? && p in Awaited(d)
    ensures Answerable(d, p)
    ensures Admit(d, files, p, d.phase.kind, ArtifactRound(d), Answer(d, p), true) == Accepted(Path(d.phase.kind, ArtifactRound(d), p))
  {
    var kind, round := d.phase.kind, ArtifactRound(d);
    AnswerFits(d, files, p);
    assert p in RequiredFor(d.participants, kind);
    assert p in d.participants;
    forall s | s in d.submissions && s.kind == kind && s.round == SlotRound(kind, round) ensures s.participant in Target(d, kind, round) {
    }
  }

  // ----- Answers lead to completion

  datatype Response = Response(participant: Participant, kind: Kind, round: nat, payload: Payload)

  ghost predicate Takes(d: Dialogue, files: Files, r: Response) {
    Stable(d, files) && Admit(d, files, r.participant, r.kind, r.round, r.payload, true).Accepted?
  }

  /** The dialogue and its files once the response is taken. */
  ghost function Taken(d: Dialogue, files: Files, r: Response): (Dialogue, Files) {
    (Submitted(d, files, r.participant, r.kind, r.round, r.payload, true).dialogue, files[Path(r.kind, r.round, r.participant) := r.payload])
  }

  /** The responses are accepted one after the other, and the last one completes the dialogue. */
  ghost predicate Completing(d: Dialogue, files: Files, responses: seq<Response>)
    decreases |responses|
  {
    if responses == [] then d.phase.Complete? else
      Takes(d, files, responses[0]) &&
      var next := Taken(d, files, responses[0]);
      Completing(next.0, next.1, responses[1..])
  }

  /** An accepted response leaves the dialogue open or completes it, and one fewer is possible. */
  lemma TakingGoesOn(d: Dialogue, files: Files, r: Response)
    requires Takes(d, files, r)
    ensures
      var (d', files') := Taken(d, files, r);
      && Stable(d', files') && (d'.phase.Collecting? || d'.phase.Complete?)
      && d'.participants == d.participants && d'.maximum == d.maximum
      && 0 <= Left(d') < Left(d)
  {
    var path, files' := Path(r.kind, r.round, r.participant), files[Path(r.kind, r.round, r.participant) := r.payload];
    SubmittedIsStable(d, files, r.participant, r.kind, r.round, r.payload, true);
    SubmissionLowers(d, files, r.participant, r.kind, r.round, r.payload, true);
    AdvanceOpensLater(Recorded(d, path), files');
    AdvanceKeepsResponses(Recorded(d, path), files');
  }

  lemma SomeResponse(d: Dialogue, files: Files) returns (r: Response)
    requires Stable(d, files) && d.phase.Collecting?
    ensures Takes(d, files, r)
  {
    AwaitedUntilBarrier(d, files);
    var p :| p in Awaited(d);
    AnswerIsAdmitted(d, files, p);
    r := Response(p, d.phase.kind, ArtifactRound(d), Answer(d, p));
  }

  /** One response before a completing sequence makes another one. */
  lemma OneMore(d: Dialogue, files: Files, r: Response, next: (Dialogue, Files), rest: seq<Response>, all: seq<Response>)
    requires Takes(d, files, r) && next == Taken(d, files, r) && Completing(next.0, next.1, rest) && all == [r] + rest
    ensures Completing(d, files, all)
  {
    assert all[1..] == rest;
  }

  ghost function Left(d: Dialogue): int {
    MostSubmissions(d) - |d.submissions|
  }

  /** Wherever a dialogue waits, finitely many accepted responses complete it. */
  lemma {:induction false} CompletionIsReachable(d: Dialogue, files: Files) returns (responses: seq<Response>)
    requires Stable(d, files) && !d.phase.Cancelled?
    ensures Completing(d, files, responses) && |responses| <= Left(d)
    decreases Left(d)
  {
    if d.phase.Complete? {
      RoomInBounds(d, files);
      responses := [];
    } else {
      var r := SomeResponse(d, files);
      TakingGoesOn(d, files, r);
      var next := Taken(d, files, r);
      var rest := CompletionIsReachable(next.0, next.1);
      responses := [r] + rest;
      OneMore(d, files, r, next, rest, responses);
    }
  }
}
