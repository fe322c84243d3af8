/** What the phase machine promises over whole runs. */
module PhaseResults {
  import opened CouncilTypes
  import opened ClaimLedger
  import opened PhaseMachine
  import opened PhaseInvariants

  // ----- Runs are bounded

  function Row(kind: Kind, round: nat, participants: seq<Participant>): (row: seq<Slot>)
    ensures |row| == |participants|
    ensures forall i :: 0 <= i < |row| ==> row[i] == Slot(kind, round, participants[i])
  {
    seq(|participants|, i requires 0 <= i < |participants| => Slot(kind, round, participants[i]))
  }

  function RoundRows(participants: seq<Participant>, rounds: nat): seq<Slot> {
    if rounds == 0 then [] else
      RoundRows(participants, rounds - 1) + Row(Exchange, rounds, participants) + Row(Challenge, rounds, participants)
  }

  /** Every response that could ever be recorded. */
  function AllSlots(participants: seq<Participant>, rounds: nat): seq<Slot>
    requires participants != []
  {
    Row(Proposal, 0, participants) + RoundRows(participants, rounds)
      + Row(Synthesis, 0, participants[..1]) + Row(Check, 0, participants[1..])
      + Row(Revision, 0, participants[..1]) + Row(RevisionCheck, 0, participants[1..])
  }

  lemma {:induction false} RoundRowsCount(participants: seq<Participant>, rounds: nat)
    ensures |RoundRows(participants, rounds)| == 2 * |participants| * rounds
  {
    if rounds > 0 {
      RoundRowsCount(participants, rounds - 1);
    }
  }

  lemma {:induction false} RoundRowsHold(participants: seq<Participant>, rounds: nat, s: Slot)
    requires s.kind.Exchange? || s.kind.Challenge?
    requires 1 <= s.round <= rounds && s.participant in participants
    ensures s in RoundRows(participants, rounds)
  {
    if s.round < rounds {
      RoundRowsHold(participants, rounds - 1, s);
    } else {
      var i :| 0 <= i < |participants| && participants[i] == s.participant;
      assert Row(s.kind, rounds, participants)[i] == s;
    }
  }

  lemma RowHolds(participants: seq<Participant>, s: Slot)
    requires s.participant in participants
    ensures s in Row(s.kind, s.round, participants)
  {
    var i :| 0 <= i < |participants| && participants[i] == s.participant;
    assert Row(s.kind, s.round, participants)[i] == s;
  }

  lemma InOneOfSix<T>(a: seq<T>, b: seq<T>, c: seq<T>, d: seq<T>, e: seq<T>, f: seq<T>, x: T)
    ensures x in a + b + c + d + e + f <==> x in a || x in b || x in c || x in d || x in e || x in f
  {
  }

  lemma SlotInUniverse(participants: seq<Participant>, rounds: nat, s: Slot)
    requires participants != [] && s.participant in RequiredFor(participants, s.kind)
    requires if s.kind.Exchange? || s.kind.Challenge? then 1 <= s.round <= rounds else s.round == 0
    ensures s in AllSlots(participants, rounds)
  {
    if s.kind.Exchange? || s.kind.Challenge? {
      RoundRowsHold(participants, rounds, s);
    } else {
      RowHolds(RequiredFor(participants, s.kind), s);
    }
    InOneOfSix(
      Row(Proposal, 0, participants), RoundRows(participants, rounds), Row(Synthesis, 0, participants[..1]),
      Row(Check, 0, participants[1..]), Row(Revision, 0, participants[..1]), Row(RevisionCheck, 0, participants[1..]), s);
  }

  lemma RecordedInUniverse(d: Dialogue, files: Files, s: Slot)
    requires Sound(d, files) && s in d.submissions
    ensures s in AllSlots(d.participants, d.maximum)
  {
    assert Belongs(d, s);
    SlotInUniverse(d.participants, d.maximum, s);
  }

  lemma {:induction false} AtMostListed<T>(xs: set<T>, list: seq<T>)
    requires forall x :: x in xs ==> x in list
    ensures |xs| <= |list|
  {
    if list == [] {
      assert xs == {};
    } else {
      var last := list[|list| - 1];
      AtMostListed(xs - {last}, list[..|list| - 1]);
      assert |xs| <= |xs - {last}| + 1;
    }
  }

  /** Each accepted submission records a new response and none is ever withdrawn, so the
      responses recorded so far bound the accepted submissions of any run. */
  lemma SubmissionsAreBounded(d: Dialogue, files: Files)
    requires Sound(d, files)
    ensures
      var n := |d.participants|;
      |d.submissions| <= n + 2 * n * d.maximum + 1 + (n - 1) + 1 + (n - 1)
  {
    var slots := AllSlots(d.participants, d.maximum);
    forall s | s in d.submissions.Keys
      ensures s in slots
    {
      RecordedInUniverse(d, files, s);
    }
    AtMostListed(d.submissions.Keys, slots);
    RoundRowsCount(d.participants, d.maximum);
  }

  // ----- Claims retire on everyone's word

  /** The participant called the claim nonmaterial in the exchange of this round. */
  ghost predicate CalledNonmaterial(d: Dialogue, files: Files, round: nat, p: Participant, id: ClaimId)
    requires FilesPresent(d, files)
  {
    && Slot(Exchange, round, p) in d.submissions
    && exists a :: a in ReviewOf(Body(d, files, Slot(Exchange, round, p))) && a.claim == id && a.position == Nonmaterial
  }

  lemma NonmaterialToAll(d: Dialogue, files: Files, round: nat, p: Participant, id: ClaimId)
    requires d.participants != [] && Responses(d, files) && p in d.participants
    requires NonmaterialAt(ReviewHistory(d, files), round, id)
    ensures CalledNonmaterial(d, files, round, p, id)
  {
    var reviews := Reviews(d, files, round);
    assert ReviewHistory(d, files)[round] == reviews;
    var i: nat :| i < |d.participants| && d.participants[i] == p;
    assert Slot(Exchange, round, p) in d.submissions;
    assert reviews[i] == ReviewOf(Body(d, files, Slot(Exchange, round, p)));
    forall k | 0 <= k < |reviews| ensures ReviewDistinct(reviews[k]) {
      assert Slot(Exchange, round, d.participants[k]) in d.submissions;
    }
    EveryoneAssessed(reviews, id, i);
  }

  /** A claim that retired as nonmaterial was called so by every participant in the round it retired in,
      and with evidence, or again by everyone after the round before. */
  lemma RetiredByEveryone(d: Dialogue, files: Files, r: Retired, p: Participant)
    requires Sound(d, files) && r in d.ledger.retired && r.duplicateOf.None? && p in d.participants
    ensures CalledNonmaterial(d, files, r.round, p, r.claim.id)
    ensures
      || (r.round > 0 && CalledNonmaterial(d, files, r.round - 1, p, r.claim.id))
      || (r.round in ReviewHistory(d, files) && HasEvidence(AssessmentsOf(ReviewHistory(d, files)[r.round], r.claim.id)))
  {
    var h, id := ReviewHistory(d, files), r.claim.id;
    assert Grounds(h, r.round, id);
    NonmaterialToAll(d, files, r.round, p, id);
    if !HasEvidence(AssessmentsOf(h[r.round], id)) {
      NonmaterialToAll(d, files, r.round - 1, p, id);
    }
  }

  // ----- Completion needs the full record

  /** Everything the documented protocol asks of a completed dialogue. */
  ghost predicate FullRecord(d: Dialogue, files: Files) {
    && 2 <= |d.participants| && FilesPresent(d, files)
    && (forall p :: p in d.participants ==> Slot(Proposal, 0, p) in d.submissions)
    && d.minimum <= d.round <= d.authorized
    && (forall r, p :: 1 <= r <= d.round && p in d.participants ==> Slot(Exchange, r, p) in d.submissions)
    && (forall p :: p in d.participants ==> Slot(Challenge, d.round, p) in d.submissions)
    && Slot(Synthesis, 0, d.participants[0]) in d.submissions
    && (forall p :: p in d.participants[1..] ==> Slot(Check, 0, p) in d.submissions)
    && (RevisionDue(d, files) <==> Slot(Revision, 0, d.participants[0]) in d.submissions)
    && (RevisionDue(d, files) ==> forall p :: p in d.participants[1..] ==> Slot(RevisionCheck, 0, p) in d.submissions)
  }

  lemma CompletionNeedsTheRounds(d: Dialogue)
    requires Policy(d) && d.phase.Complete? && Progress(d)
    ensures forall r, p :: 1 <= r <= d.round && p in d.participants ==> Slot(Exchange, r, p) in d.submissions
    ensures forall p :: p in d.participants ==> Slot(Proposal, 0, p) in d.submissions
    ensures forall p :: p in d.participants ==> Slot(Challenge, d.round, p) in d.submissions
    ensures d.minimum <= d.round
  {
    forall r, p | 1 <= r <= d.round && p in d.participants
      ensures Slot(Exchange, r, p) in d.submissions
    {
      assert FullAt(d, Exchange, r);
    }
    assert FullAt(d, Proposal, 0) && FullAt(d, Challenge, d.round);
  }

  lemma CompletionNeedsTheReviews(d: Dialogue, files: Files)
    requires Policy(d) && d.phase.Complete? && Progress(d) && FilesPresent(d, files) && RevisionDone(d, files)
    ensures Slot(Synthesis, 0, d.participants[0]) in d.submissions
    ensures forall p :: p in d.participants[1..] ==> Slot(Check, 0, p) in d.submissions
    ensures RevisionDue(d, files) <==> Slot(Revision, 0, d.participants[0]) in d.submissions
    ensures RevisionDue(d, files) ==> forall p :: p in d.participants[1..] ==> Slot(RevisionCheck, 0, p) in d.submissions
  {
    assert d.participants[0] in RequiredFor(d.participants, Synthesis);
    assert d.participants[0] in RequiredFor(d.participants, Revision);
    assert FullAt(d, Synthesis, 0) && FullAt(d, Check, 0);
  }

  lemma CompletionNeedsTheFullRecord(d: Dialogue, files: Files)
    requires Sound(d, files) && d.phase.Complete?
    ensures FullRecord(d, files)
  {
    CompletionNeedsTheRounds(d);
    CompletionNeedsTheReviews(d, files);
  }

  /** A material challenge below the authorized limit forces another exchange round. */
  lemma MaterialChallengeReopens(d: Dialogue, files: Files)
    requires Sound(d, files) && d.phase == Collecting(Challenge) && BarrierReached(d)
    requires d.round < d.authorized
    ensures
      var next := Advanced(d, files).dialogue;
      if MaterialIssue(d, files)
      then next.phase == Collecting(Exchange) && next.round == d.round + 1 && next.ledger == d.ledger
      else next.phase == Collecting(Synthesis) && next.round == d.round
  {
  }

  // ----- What a step may change

  /** What no step takes back: recorded responses, rounds, authorizations, extensions, an end. */
  ghost predicate Grown(d: Dialogue, d': Dialogue) {
    && d'.participants == d.participants && d'.minimum == d.minimum && d'.maximum == d.maximum
    && d'.ceiling == d.ceiling && d'.stopOnConvergence == d.stopOnConvergence
    && (forall s :: s in d.submissions ==> s in d'.submissions && d'.submissions[s] == d.submissions[s])
    && d.round <= d'.round && d.authorized <= d'.authorized
    && (forall id :: id in d.extensions ==> id in d'.extensions && d'.extensions[id] == d.extensions[id])
    && (d.phase.Terminal() ==> d' == d)
  }

  lemma GrownIsTransitive(a: Dialogue, b: Dialogue, c: Dialogue)
    requires Grown(a, b) && Grown(b, c)
    ensures Grown(a, c)
  {
  }

  /** The order of the stages: rounds first, then the phases within a round. */
  ghost predicate Later(d: Dialogue, round: nat, kind: Kind)
    requires d.phase.Collecting?
  {
    d.round < round || (d.round == round && Order(d.phase.kind) < Order(kind))
  }

  ghost predicate OpensNext(d: Dialogue, o: Opening)
    requires d.participants != [] && d.phase.Collecting?
  {
    var d' := o.dialogue;
    && d'.phase.Collecting? && !d'.phase.kind.Proposal? && Later(d, d'.round, d'.phase.kind)
    && d' == Opened(d.(ledger := d'.ledger), d'.phase.kind, d'.round).dialogue
    && o.messages == Requests(RequiredFor(d.participants, d'.phase.kind), d'.phase.kind, d'.round)
    && o.final.None?
  }

  ghost predicate CompletesNow(d: Dialogue, o: Opening) {
    && o.dialogue == d.(phase := Complete, required := [])
    && o.final.Some?
    && |o.messages| == |d.participants|
    && forall i :: 0 <= i < |o.messages| ==>
         o.messages[i] == Outgoing(d.participants[i], CompletionNotice(o.final.value), d.round)
  }

  lemma NextOpens(d: Dialogue, l: Ledger, kind: Kind, round: nat)
    requires d.participants != [] && d.phase.Collecting? && !kind.Proposal? && Later(d, round, kind)
    ensures OpensNext(d, Opened(d.(ledger := l), kind, round))
  {
  }

  lemma NextAfterExchange(d: Dialogue, files: Files)
    requires CanAdvance(d, files) && (d.phase.kind.Exchange? || d.phase.kind.Challenge?)
    ensures OpensNext(d, Next(d, files))
  {
    var next := Next(d, files).dialogue;
    NextOpens(d, next.ledger, next.phase.kind, next.round);
    assert d.(ledger := d.ledger) == d;
  }

  lemma NextIsLater(d: Dialogue, files: Files)
    requires CanAdvance(d, files) && (d.phase.kind.Proposal? ==> d.round == 0)
    ensures OpensNext(d, Next(d, files)) || CompletesNow(d, Next(d, files))
  {
    assert d.(ledger := d.ledger) == d;
    if d.phase.kind.Exchange? || d.phase.kind.Challenge? {
      NextAfterExchange(d, files);
    } else if d.phase.kind.Proposal? {
      NextOpens(d, BuiltLedger(Orders(d, files), d.ceiling), Exchange, 1);
    } else if d.phase.kind.Synthesis? {
      NextOpens(d, d.ledger, Check, d.round);
    } else if d.phase.kind.Revision? {
      NextOpens(d, d.ledger, RevisionCheck, d.round);
    } else if d.phase.kind.Check? {
      NextOpens(d, d.ledger, Revision, d.round);
    }
  }

  /** An advance either waits, opens a later phase and asks exactly its required submitters, or
      completes and tells everyone; the phase it leaves has all its answers. */
  lemma AdvanceOpensLater(d: Dialogue, files: Files)
    requires Sound(d, files) && d.phase.Collecting?
    ensures
      var o := Advanced(d, files);
      if BarrierReached(d) then
        && FullAt(d, d.phase.kind, SlotRound(d.phase.kind, ArtifactRound(d)))
        && (OpensNext(d, o) || CompletesNow(d, o))
      else o == Opening(d, [], None)
  {
    if BarrierReached(d) {
      BarrierIsFull(d, files);
      NextIsLater(d, files);
    }
  }

  // ----- Runs end

  function MostSubmissions(d: Dialogue): int {
    var n := |d.participants|;
    n + 2 * n * d.maximum + 1 + (n - 1) + 1 + (n - 1)
  }

  /** Every accepted submission and every new extension lowers this pair: the room for extensions,
      then the responses still possible. */
  ghost predicate Lower(d: Dialogue, d': Dialogue) {
    var room, room' := d.maximum - d.authorized, d'.maximum - d'.authorized;
    var left, left' := MostSubmissions(d) - |d.submissions|, MostSubmissions(d') - |d'.submissions|;
    && 0 <= room' <= room && 0 <= left' && (room' == room ==> left' < left)
  }

  lemma OneMoreResponse(d: Dialogue, path: Path)
    requires SlotOf(path) !in d.submissions
    ensures |Recorded(d, path).submissions| == |d.submissions| + 1
  {
    assert Recorded(d, path).submissions.Keys == d.submissions.Keys + {SlotOf(path)};
  }

  lemma RoomInBounds(d: Dialogue, files: Files)
    requires Sound(d, files)
    ensures 0 <= d.maximum - d.authorized && 0 <= MostSubmissions(d) - |d.submissions|
  {
    SubmissionsAreBounded(d, files);
  }

  lemma SubmissionLowers(
    d: Dialogue, files: Files, p: Participant, kind: Kind, round: nat, payload: Payload, deliverable: bool)
    requires Stable(d, files) && Admit(d, files, p, kind, round, payload, deliverable).Accepted?
    ensures
      var path := Path(kind, round, p);
      && Sound(Recorded(d, path), files[path := payload])
      && Recorded(d, path).phase.Collecting?
      && Lower(d, Advanced(Recorded(d, path), files[path := payload]).dialogue)
  {
    var path := Path(kind, round, p);
    var d1, files1 := Recorded(d, path), files[path := payload];
    assert SlotOf(path) !in d.submissions && d1.phase.Collecting? by {
      AdmittedMayRecord(d, files, p, kind, round, payload, deliverable);
    }
    SubmittedIsStable(d, files, p, kind, round, payload, deliverable);
    AdvanceLowers(d, files, path, files1);
  }

  lemma AdvanceLowers(d: Dialogue, files: Files, path: Path, files1: Files)
    requires Sound(d, files) && SlotOf(path) !in d.submissions && d.phase.Collecting?
    requires Sound(Recorded(d, path), files1) && Stable(Advanced(Recorded(d, path), files1).dialogue, files1)
    ensures Lower(d, Advanced(Recorded(d, path), files1).dialogue)
  {
    AdvanceKeepsResponses(Recorded(d, path), files1);
    OneMoreResponse(d, path);
    RoomInBounds(d, files);
    RoomInBounds(Advanced(Recorded(d, path), files1).dialogue, files1);
  }

  lemma AdvanceKeepsResponses(d: Dialogue, files: Files)
    requires Sound(d, files) && d.phase.Collecting?
    ensures
      var d' := Advanced(d, files).dialogue;
      && d'.submissions == d.submissions && d'.participants == d.participants
      && d'.authorized == d.authorized && d'.maximum == d.maximum
  {
    AdvanceOpensLater(d, files);
  }

  lemma ExtensionLowers(
    d: Dialogue, files: Files, p: Participant, additional: int, id: ExtensionId, transition: TransitionId)
    requires Stable(d, files) && Extend(d, p, additional, id, transition).Extended?
    ensures Lower(d, Extend(d, p, additional, id, transition).opening.dialogue)
  {
    SubmissionsAreBounded(d, files);
  }
}
