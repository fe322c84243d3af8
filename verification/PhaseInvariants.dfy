/** What every step of the phase machine keeps, and what follows over whole runs. */
module PhaseInvariants {
  import opened CouncilTypes
  import opened FairActivation
  import opened ClaimLedger
  import opened RetirementResults
  import opened PhaseMachine

  lemma StartIsSound(
    participants: seq<Participant>, minimum: nat, rounds: nat, maximum: nat, stop: bool, ceiling: nat)
    requires PolicyAllowed(participants, minimum, rounds, maximum, ceiling)
    ensures Sound(Started(participants, minimum, rounds, maximum, stop, ceiling).dialogue, map[])
  {
  }

  // ----- Recording one response

  /** The history of completed rounds only grows when a response is recorded. */
  lemma HistoryGrows(d: Dialogue, files: Files, path: Path, payload: Payload)
    requires d.participants != [] && FilesPresent(d, files)
    requires forall s :: s in d.submissions ==> SlotOf(d.submissions[s]) == s
    requires SlotOf(path) !in d.submissions
    ensures FilesPresent(Recorded(d, path), files[path := payload])
    ensures
      var h, h' := ReviewHistory(d, files), ReviewHistory(Recorded(d, path), files[path := payload]);
      forall r :: r in h ==> r in h' && h'[r] == h[r]
  {
    var d', files' := Recorded(d, path), files[path := payload];
    forall s | s in d.submissions
      ensures d'.submissions[s] == d.submissions[s] && files'[d'.submissions[s]] == files[d.submissions[s]]
    {
    }
    assert FilesPresent(d', files');
    forall r | r in ReviewHistory(d, files)
      ensures r in ReviewHistory(d', files') && ReviewHistory(d', files')[r] == ReviewHistory(d, files)[r]
    {
      assert FullAt(d', Exchange, r);
      assert Reviews(d', files', r) == Reviews(d, files, r);
    }
  }

  predicate MayRecord(d: Dialogue, path: Path, payload: Payload)
    requires d.participants != []
  {
    && Expects(d, path.participant, path.kind)
    && path.round == ArtifactRound(d)
    && WellFormed(path.kind, payload) && FitsLedger(d.ledger.active, path.participant, path.kind, payload)
    && SlotOf(path) !in d.submissions
  }

  lemma AdmittedMayRecord(
    d: Dialogue, files: Files, p: Participant, kind: Kind, round: nat, payload: Payload, deliverable: bool)
    requires Sound(d, files)
    requires Admit(d, files, p, kind, round, payload, deliverable).Accepted?
    ensures
      var path := Admit(d, files, p, kind, round, payload, deliverable).path;
      path == Path(kind, round, p) && MayRecord(d, path, payload)
  {
  }

  lemma RecordedResponses(d: Dialogue, files: Files, path: Path, payload: Payload)
    requires Policy(d) && Responses(d, files) && MayRecord(d, path, payload)
    requires !d.phase.Cancelled? ==> Progress(d)
    ensures Policy(Recorded(d, path)) && Responses(Recorded(d, path), files[path := payload])
  {
    var d', files' := Recorded(d, path), files[path := payload];
    forall s | s in d'.submissions
      ensures d'.submissions[s] in files' && SlotOf(d'.submissions[s]) == s && d'.submissions[s].round <= d.round
      ensures Belongs(d', s) && WellFormed(s.kind, files'[d'.submissions[s]])
      ensures ReviewDistinct(ReviewOf(files'[d'.submissions[s]]))
    {
      if s == SlotOf(path) {
        assert Belongs(d, s);
      } else {
        assert d'.submissions[s] == d.submissions[s];
        assert Belongs(d, s);
      }
    }
  }

  lemma RecordedProgress(d: Dialogue, path: Path, payload: Payload)
    requires Policy(d) && Progress(d) && MayRecord(d, path, payload)
    ensures Policy(Recorded(d, path)) && Progress(Recorded(d, path))
  {
    var d' := Recorded(d, path);
    forall kind, round | FullAt(d, kind, round)
      ensures FullAt(d', kind, round)
    {
    }
  }

  lemma RecordedReviews(d: Dialogue, files: Files, path: Path, payload: Payload)
    requires Policy(d) && Responses(d, files) && MayRecord(d, path, payload) && ReviewsCurrent(d, files)
    requires FilesPresent(Recorded(d, path), files[path := payload])
    ensures ReviewsCurrent(Recorded(d, path), files[path := payload])
  {
    var d', files' := Recorded(d, path), files[path := payload];
    forall s | s in d'.submissions && s.kind.Exchange? && s.round == d.round &&
               (d.phase == Collecting(Exchange) || d.phase == Collecting(Challenge))
      ensures ReviewCovers(d.ledger.active, ReviewOf(Body(d', files', s)))
    {
      if s != SlotOf(path) {
        assert Body(d', files', s) == Body(d, files, s);
      }
    }
  }

  lemma CorrectionStays(d: Dialogue, files: Files, path: Path, payload: Payload)
    requires d.participants != [] && Responses(d, files) && SlotOf(path) !in d.submissions
    requires FilesPresent(Recorded(d, path), files[path := payload])
    requires RevisionDue(d, files)
    ensures RevisionDue(Recorded(d, path), files[path := payload])
  {
    var s :| s in d.submissions && s.kind == Check && d.submissions[s] in files && Corrects(files[d.submissions[s]]);
    assert Recorded(d, path).submissions[s] == d.submissions[s] != path;
  }

  /** The rounds that a pass has gone over are complete. */
  lemma PassedAreFull(d: Dialogue, files: Files)
    requires Policy(d) && FilesPresent(d, files) && Progress(d) && d.round > 0 && !d.phase.Cancelled?
    ensures forall r :: 1 <= r <= PassedRound(d) ==> r in ReviewHistory(d, files)
    ensures 0 !in ReviewHistory(d, files)
  {
    forall r | 1 <= r <= PassedRound(d) ensures r in ReviewHistory(d, files) {
      if r < d.round {
        assert FullAt(d, Exchange, r);
      }
    }
  }

  /** What waits is a matter of the rounds that were passed. */
  lemma WaitsLast(h: History, h': History, round: nat, l: Ledger)
    requires forall r :: 1 <= r <= round ==> r in h && r in h' && h'[r] == h[r]
    requires 0 !in h && 0 !in h' && WaitsExactly(h, round, l)
    ensures WaitsExactly(h', round, l)
  {
    if round > 0 {
      forall id | id in Ids(l.active) ensures WaitsRight(h', round, id, Lookup(l.pending, id)) {
        assert WaitsRight(h, round, id, Lookup(l.pending, id));
        assert PlainAt(h', round, id) <==> PlainAt(h, round, id);
        assert round > 1 ==> (PlainAt(h', round - 1, id) <==> PlainAt(h, round - 1, id));
      }
    }
  }

  /** A ledger that is just in the history of another record is sound there. */
  lemma LedgerLasts(d: Dialogue, files: Files, d': Dialogue, files': Files)
    requires d.participants != [] && FilesPresent(d, files) && FilesPresent(d', files') && d' == d.(submissions := d'.submissions)
    requires d.round > 0 && LedgerSound(d, files) && Backed(ReviewHistory(d', files'), d.ledger.pending)
    requires RetiredWithGrounds(ReviewHistory(d', files'), d.ledger.retired)
    requires WaitsExactly(ReviewHistory(d', files'), PassedRound(d), d.ledger)
    ensures LedgerSound(d', files')
  {
  }

  lemma RecordedLedger(d: Dialogue, files: Files, path: Path, payload: Payload)
    requires Policy(d) && Responses(d, files) && LedgerSound(d, files) && Progress(d) && d.phase.Collecting?
    requires SlotOf(path) !in d.submissions && FilesPresent(Recorded(d, path), files[path := payload])
    ensures LedgerSound(Recorded(d, path), files[path := payload])
  {
    var d', files' := Recorded(d, path), files[path := payload];
    if d.round > 0 {
      var h, h' := ReviewHistory(d, files), ReviewHistory(d', files');
      HistoryGrows(d, files, path, payload);
      PassedAreFull(d, files);
      GroundsLast(h, h', d.ledger);
      WaitsLast(h, h', PassedRound(d), d.ledger);
      LedgerLasts(d, files, d', files');
    }
  }

  lemma FittingIsLawful(l: Ledger, p: Participant, kind: Kind, payload: Payload)
    requires FitsLedger(l.active, p, kind, payload) && forall c :: c in l.active ==> c in l.raw
    ensures Lawful(l.raw, p, payload)
  {
    assert Ids(l.active) <= Ids(l.raw);
    if payload.ExchangeBody? {
      forall a | a in payload.assessments ensures a.claim in Ids(l.raw) {
        assert a.claim in (set a | a in payload.assessments :: a.claim);
      }
    }
  }

  lemma RecordedLaws(d: Dialogue, files: Files, path: Path, payload: Payload)
    requires d.participants != [] && Responses(d, files) && LedgerSound(d, files) && LawsKept(d, files) && MayRecord(d, path, payload)
    requires FilesPresent(Recorded(d, path), files[path := payload])
    ensures LawsKept(Recorded(d, path), files[path := payload])
  {
    FittingIsLawful(d.ledger, path.participant, path.kind, payload);
    forall s | s in d.submissions ensures d.submissions[s] != path {
      assert SlotOf(d.submissions[s]) == s;
    }
  }

  /** Recording an admitted response keeps the invariant, before any advance. */
  lemma RecordedIsSound(d: Dialogue, files: Files, path: Path, payload: Payload)
    requires Sound(d, files) && MayRecord(d, path, payload)
    ensures Sound(Recorded(d, path), files[path := payload])
  {
    RecordedResponses(d, files, path, payload);
    RecordedLedger(d, files, path, payload);
    RecordedLaws(d, files, path, payload);
    RecordedProgress(d, path, payload);
    RecordedReviews(d, files, path, payload);
    if d.phase == Collecting(Revision) || d.phase == Collecting(RevisionCheck) {
      CorrectionStays(d, files, path, payload);
    }
  }

  // ----- Opening the next phase

  /** Everything `Sound` says apart from the ledger, which some advances change. */
  ghost predicate Framed(d: Dialogue, files: Files) {
    && Policy(d) && Responses(d, files) && d.phase.Collecting? && Progress(d)
    && (d.phase == Collecting(Revision) || d.phase == Collecting(RevisionCheck) ==> RevisionDue(d, files))
  }

  lemma SameHistory(d: Dialogue, d': Dialogue, files: Files)
    requires d.participants != [] && d'.participants == d.participants && d'.submissions == d.submissions
    requires FilesPresent(d, files)
    requires d.round <= d'.round
    requires forall r :: d.round < r <= d'.round ==> BlankAt(d, Exchange, r)
    ensures ReviewHistory(d', files) == ReviewHistory(d, files)
  {
    forall r | 1 <= r <= d'.round && FullAt(d', Exchange, r)
      ensures r <= d.round
    {
      assert d.round < r ==> BlankAt(d, Exchange, r);
      assert Slot(Exchange, r, d.participants[0]) in d.submissions;
    }
    forall r | 1 <= r <= d.round && FullAt(d, Exchange, r)
      ensures FullAt(d', Exchange, r) && Reviews(d', files, r) == Reviews(d, files, r)
    {
    }
  }

  lemma NothingAhead(d: Dialogue, files: Files)
    requires d.participants != [] && Responses(d, files)
    ensures BlankAt(d, Exchange, d.round + 1) && BlankAt(d, Challenge, d.round + 1)
  {
    assert forall s :: s in d.submissions ==> Belongs(d, s);
  }

  /** Before the synthesis is recorded there are only responses of single rounds. */
  lemma NothingLate(d: Dialogue, files: Files)
    requires Policy(d) && Responses(d, files) && d.phase.Collecting? && Progress(d)
    requires Order(d.phase.kind) <= 2 || (d.phase.kind.Synthesis? && BlankAt(d, Synthesis, 0))
    ensures forall s :: s in d.submissions ==> PerRound(s.kind)
  {
    forall s | s in d.submissions ensures PerRound(s.kind) {
      assert Belongs(d, s);
    }
  }

  /** A barrier passed from `d` lets a phase open that is later in the stage order. */
  ghost predicate MayOpen(d: Dialogue, kind: Kind, round: nat)
    requires d.phase.Collecting?
  {
    match kind
    case Proposal => false
    case Exchange => round == d.round + 1 <= d.authorized
                     && (Order(d.phase.kind) <= 2 || (d.phase.kind.Synthesis? && BlankAt(d, Synthesis, 0)))
    case Challenge => round == d.round && d.phase.kind.Exchange? && d.minimum <= d.round
    case Synthesis => round == d.round && d.phase.kind.Challenge?
    case Check => round == d.round && d.phase.kind.Synthesis?
    case Revision => round == d.round && d.phase.kind.Check?
    case RevisionCheck => round == d.round && d.phase.kind.Revision?
  }

  lemma OpenedIsFramed(d: Dialogue, files: Files, kind: Kind, round: nat)
    requires Framed(d, files) && MayOpen(d, kind, round)
    requires (kind.Exchange? && d.phase.kind.Synthesis?) || FullAt(d, d.phase.kind, SlotRound(d.phase.kind, ArtifactRound(d)))
    requires kind.Revision? ==> RevisionDue(d, files)
    ensures Framed(Opened(d, kind, round).dialogue, files)
  {
    var d' := Opened(d, kind, round).dialogue;
    NothingAhead(d, files);
    if round != d.round {
      NothingLate(d, files);
    }
    OpenedResponses(d, files, kind, round);
    OpenedProgress(d, kind, round);
  }

  lemma OpenedProgress(d: Dialogue, kind: Kind, round: nat)
    requires Policy(d) && d.phase.Collecting? && Progress(d) && MayOpen(d, kind, round)
    requires (kind.Exchange? && d.phase.kind.Synthesis?) || FullAt(d, d.phase.kind, SlotRound(d.phase.kind, ArtifactRound(d)))
    requires BlankAt(d, Exchange, d.round + 1) && BlankAt(d, Challenge, d.round + 1)
    ensures Policy(Opened(d, kind, round).dialogue) && Progress(Opened(d, kind, round).dialogue)
  {
    var d' := Opened(d, kind, round).dialogue;
    forall r | 1 <= r < d.round
      ensures FullAt(d', Exchange, r)
    {
      assert FullAt(d, Exchange, r);
    }
    match d.phase.kind
    case Proposal =>
    case Exchange => assert FullAt(d', Exchange, d.round);
    case Challenge => assert FullAt(d', Exchange, d.round);
    case Synthesis =>
    case Check =>
    case Revision =>
    case RevisionCheck =>
  }

  lemma OpenedResponses(d: Dialogue, files: Files, kind: Kind, round: nat)
    requires d.participants != [] && Responses(d, files) && d.round <= round
    requires round == d.round || forall s :: s in d.submissions ==> PerRound(s.kind)
    ensures Responses(Opened(d, kind, round).dialogue, files)
  {
    var d' := Opened(d, kind, round).dialogue;
    forall s | s in d'.submissions
      ensures Belongs(d', s)
    {
      assert Belongs(d, s);
    }
  }

  // ----- Advancing

  lemma ProposalClaims(d: Dialogue, files: Files)
    requires Policy(d) && Responses(d, files) && FullAt(d, Proposal, 0)
    ensures LedgerInv(BuiltLedger(Orders(d, files), d.ceiling))
    ensures BuiltLedger(Orders(d, files), d.ceiling).pending == map[]
    ensures BuiltLedger(Orders(d, files), d.ceiling).retired == []
    ensures |BuiltLedger(Orders(d, files), d.ceiling).active| <= d.ceiling
    ensures Distinct(Orders(d, files))
  {
    var orders: seq<seq<Claim>> := Orders(d, files);
    forall i | 0 <= i < |orders|
      ensures orders[i] != []
      ensures forall k :: 0 <= k < |orders[i]| ==>
        orders[i][k].origin == d.participants[i] && orders[i][k].id.participant == d.participants[i]
      ensures forall k, m :: 0 <= k < m < |orders[i]| ==> orders[i][k].id != orders[i][m].id
    {
      var s := Slot(Proposal, 0, d.participants[i]);
      assert s in d.submissions && WellFormed(Proposal, Body(d, files, s));
    }
    BuiltLedgerIsSound(orders, d.ceiling);
    ActivatedCount(orders, d.ceiling);
  }

  lemma CurrentReviews(d: Dialogue, files: Files)
    requires d.participants != [] && FilesPresent(d, files) && ReviewsCurrent(d, files)
    requires d.phase == Collecting(Exchange) || d.phase == Collecting(Challenge)
    requires FullAt(d, Exchange, d.round)
    ensures TargetsActive(d.ledger.active, Reviews(d, files, d.round))
  {
    var reviews: seq<seq<Assessment>> := Reviews(d, files, d.round);
    forall i, a | 0 <= i < |reviews| && a in reviews[i] && a.duplicateOf.Some?
      ensures a.duplicateOf.value in Ids(d.ledger.active)
    {
      var s := Slot(Exchange, d.round, d.participants[i]);
      assert s in d.submissions && ReviewCovers(d.ledger.active, ReviewOf(Body(d, files, s)));
    }
  }

  /** Everyone's review of the current round assesses every active claim. */
  lemma CurrentAssessed(d: Dialogue, files: Files)
    requires d.participants != [] && Responses(d, files) && ReviewsCurrent(d, files)
    requires d.phase == Collecting(Exchange) || d.phase == Collecting(Challenge)
    requires FullAt(d, Exchange, d.round)
    ensures AllAssessed(d.ledger.active, Reviews(d, files, d.round))
  {
    var reviews: seq<seq<Assessment>> := Reviews(d, files, d.round);
    forall id, i | id in Ids(d.ledger.active) && 0 <= i < |reviews|
      ensures Assesses(reviews[i], id)
    {
      var s := Slot(Exchange, d.round, d.participants[i]);
      assert s in d.submissions && ReviewCovers(d.ledger.active, ReviewOf(Body(d, files, s)));
      assert id in (set a | a in reviews[i] :: a.claim);
    }
    forall id | id in Ids(d.ledger.active) ensures |AssessmentsOf(reviews, id)| == |reviews| {
      EveryoneOnce(reviews, id);
    }
  }

  /** A pass over the current round's reviews keeps the ledger sound, with its grounds, and leaves what has
      to wait. */
  lemma PassIsSound(d: Dialogue, files: Files, commit: bool)
    requires d.participants != [] && Responses(d, files) && ReviewsCurrent(d, files) && LedgerSound(d, files)
    requires d.phase == Collecting(if commit then Challenge else Exchange)
    requires d.round > 0 && FullAt(d, Exchange, d.round)
    ensures Justified(d, Retirement(d.ledger, Reviews(d, files, d.round), d.round, commit), files, d.round)
  {
    var h, reviews, passed := ReviewHistory(d, files), Reviews(d, files, d.round), if commit then d.round else d.round - 1;
    assert d.round in h && h[d.round] == reviews;
    CurrentReviews(d, files);
    CurrentAssessed(d, files);
    assert PassedRound(d) == passed;
    PassJustifies(d.ledger, h, reviews, passed, d.round, commit, d.ceiling);
  }

  /** A ledger that the completed rounds of `d` justify, behind the pass of a round. */
  ghost predicate Justified(d: Dialogue, l: Ledger, files: Files, passed: nat)
    requires d.participants != [] && FilesPresent(d, files)
  {
    Justifies(ReviewHistory(d, files), passed, l, d.ceiling)
  }

  lemma OpenedLedger(d: Dialogue, l: Ledger, files: Files, kind: Kind, round: nat, passed: nat)
    requires d.participants != [] && Responses(d, files)
    requires d.round <= round <= d.round + 1 && 0 < round && passed == (if kind.Exchange? then round - 1 else round)
    requires Justified(d, l, files, passed)
    ensures LedgerSound(Opened(d.(ledger := l), kind, round).dialogue, files)
  {
    var d' := Opened(d.(ledger := l), kind, round).dialogue;
    NothingAhead(d, files);
    SameHistory(d, d', files);
    assert PassedRound(d') == passed;
  }

  lemma OpenedLaws(d: Dialogue, l: Ledger, files: Files, kind: Kind, round: nat)
    requires d.participants != [] && FilesPresent(d, files) && LawsKept(d.(ledger := l), files)
    ensures FilesPresent(Opened(d.(ledger := l), kind, round).dialogue, files) && LawsKept(Opened(d.(ledger := l), kind, round).dialogue, files)
  {
  }

  lemma OtherLedger(d: Dialogue, l: Ledger, files: Files)
    requires Framed(d, files)
    ensures Framed(d.(ledger := l), files)
  {
    var d' := d.(ledger := l);
    assert forall s :: s in d.submissions ==> Belongs(d, s);
    forall r | 1 <= r < d.round
      ensures FullAt(d', Exchange, r)
    {
      assert FullAt(d, Exchange, r);
    }
  }

  lemma OpenedReviews(d: Dialogue, l: Ledger, files: Files, kind: Kind, round: nat)
    requires d.participants != [] && Responses(d, files)
    requires kind.Exchange? ==> round == d.round + 1
    requires kind.Challenge? ==> round == d.round && d.phase == Collecting(Exchange)
                                 && l.active == d.ledger.active && ReviewsCurrent(d, files)
    ensures ReviewsCurrent(Opened(d.(ledger := l), kind, round).dialogue, files)
  {
    NothingAhead(d, files);
    var d' := Opened(d.(ledger := l), kind, round).dialogue;
    if kind.Challenge? {
      forall s | s in d'.submissions && s.kind.Exchange? && s.round == d'.round
        ensures ReviewCovers(l.active, ReviewOf(Body(d', files, s)))
      {
        assert Body(d', files, s) == Body(d, files, s);
      }
    }
  }

  /** A phase that has just opened has no answers yet. */
  lemma OpenedWaits(d: Dialogue, l: Ledger, files: Files, kind: Kind, round: nat)
    requires Framed(d, files) && MayOpen(d, kind, round)
    ensures !BarrierReached(Opened(d.(ledger := l), kind, round).dialogue)
  {
    NothingAhead(d, files);
    var d' := Opened(d.(ledger := l), kind, round).dialogue;
    assert d'.required[0] in Elements(d'.required);
    assert BlankAt(d, kind, SlotRound(kind, round));
    assert Target(d', kind, round) == {};
  }

  /** Opening a later phase, with a ledger that is justified, ends in a waiting state. */
  lemma OpenedIsStable(d: Dialogue, l: Ledger, files: Files, kind: Kind, round: nat)
    requires Framed(d, files) && MayOpen(d, kind, round)
    requires (kind.Exchange? && d.phase.kind.Synthesis?) || FullAt(d, d.phase.kind, SlotRound(d.phase.kind, ArtifactRound(d)))
    requires kind.Revision? ==> RevisionDue(d, files)
    requires 0 < round && Justified(d, l, files, if kind.Exchange? then round - 1 else round)
    requires LawsKept(d.(ledger := l), files)
    requires kind.Challenge? ==> l.active == d.ledger.active && ReviewsCurrent(d, files)
    ensures Stable(Opened(d.(ledger := l), kind, round).dialogue, files)
  {
    OpenedIsFramed(d, files, kind, round);
    OtherLedger(Opened(d, kind, round).dialogue, l, files);
    OpenedLedger(d, l, files, kind, round, if kind.Exchange? then round - 1 else round);
    OpenedLaws(d, l, files, kind, round);
    OpenedReviews(d, l, files, kind, round);
    OpenedWaits(d, l, files, kind, round);
    assert Opened(d, kind, round).dialogue.(ledger := l) == Opened(d.(ledger := l), kind, round).dialogue;
  }

  lemma NoHistoryYet(d: Dialogue, files: Files)
    requires d.participants != [] && FilesPresent(d, files) && d.round == 0
    ensures ReviewHistory(d, files) == map[]
  {
  }

  lemma OnlyProposals(d: Dialogue, files: Files, l: Ledger)
    requires Policy(d) && Responses(d, files) && d.phase == Collecting(Proposal) && Progress(d)
    ensures LawsKept(d.(ledger := l), files)
  {
    NothingLate(d, files);
    forall s | s in d.submissions ensures s.kind.Proposal? {
      assert Belongs(d, s);
    }
  }

  lemma AdvanceFromProposals(d: Dialogue, files: Files)
    requires Sound(d, files) && d.phase == Collecting(Proposal) && BarrierReached(d)
    ensures Stable(Advanced(d, files).dialogue, files)
  {
    BarrierIsFull(d, files);
    var l := BuiltLedger(Orders(d, files), d.ceiling);
    ProposalsReady(d, files, l, 0);
    OpenedIsStable(d, l, files, Exchange, 1);
    assert Advanced(d, files) == Opened(d.(ledger := l), Exchange, 1);
  }

  lemma ProposalsReady(d: Dialogue, files: Files, l: Ledger, passed: nat)
    requires passed == d.round && Policy(d) && Responses(d, files) && FullAt(d, Proposal, 0) && d.phase == Collecting(Proposal) && Progress(d)
    requires l == BuiltLedger(Orders(d, files), d.ceiling)
    ensures Justified(d, l, files, passed) && LawsKept(d.(ledger := l), files)
  {
    ProposalClaims(d, files);
    NoHistoryYet(d, files);
    OnlyProposals(d, files, l);
    NewIsJustified(l, passed, d.ceiling);
  }

  lemma NewIsJustified(l: Ledger, passed: nat, ceiling: nat)
    requires LedgerInv(l) && l.pending == map[] && l.retired == [] && |l.active| <= ceiling && passed == 0
    ensures Justifies(map[], passed, l, ceiling)
  {
  }

  lemma OpenAfterExchange(d: Dialogue, files: Files, kind: Kind, round: nat)
    requires Sound(d, files) && d.phase == Collecting(Exchange) && FullAt(d, Exchange, d.round)
    requires (kind.Challenge? && round == d.round && d.minimum <= d.round)
          || (kind.Exchange? && round == d.round + 1 <= d.authorized)
    ensures
      var judged := d.(ledger := Retirement(d.ledger, Reviews(d, files, d.round), d.round, false));
      Stable(Opened(judged, kind, round).dialogue, files)
  {
    PassIsSound(d, files, false);
    OpenedIsStable(d, Retirement(d.ledger, Reviews(d, files, d.round), d.round, false), files, kind, round);
  }

  lemma AdvanceToChallenge(d: Dialogue, files: Files)
    requires Sound(d, files) && d.phase == Collecting(Exchange) && BarrierReached(d)
    requires FullAt(d, Exchange, d.round) && ChallengeIsDue(d, files)
    ensures Stable(Advanced(d, files).dialogue, files)
  {
    OpenAfterExchange(d, files, Challenge, d.round);
  }

  lemma NextRoundOpens(d: Dialogue, files: Files, round: nat, judged: Dialogue)
    requires CanAdvance(d, files) && d.phase == Collecting(Exchange) && FullAt(d, Exchange, d.round)
    requires !ChallengeIsDue(d, files) && round == d.round + 1
    requires judged == d.(ledger := Retirement(d.ledger, Reviews(d, files, d.round), d.round, false))
    ensures Next(d, files) == Opened(judged, Exchange, round)
  {
  }

  lemma AdvanceToNextRound(d: Dialogue, files: Files)
    requires Sound(d, files) && d.phase == Collecting(Exchange) && BarrierReached(d)
    requires FullAt(d, Exchange, d.round) && !ChallengeIsDue(d, files)
    ensures Stable(Advanced(d, files).dialogue, files)
  {
    BarrierIsFull(d, files);
    var round := d.round + 1;
    OpenAfterExchange(d, files, Exchange, round);
    NextRoundOpens(d, files, round, d.(ledger := Retirement(d.ledger, Reviews(d, files, d.round), d.round, false)));
    assert Advanced(d, files) == Next(d, files);
  }

  lemma AdvanceUncommitted(d: Dialogue, files: Files)
    requires Sound(d, files) && d.phase == Collecting(Challenge) && BarrierReached(d)
    requires MaterialIssue(d, files)
    ensures Stable(Advanced(d, files).dialogue, files)
  {
    BarrierIsFull(d, files);
    SoundIsJustified(d, files);
    var further := d.round < d.authorized;
    var kind, round := if further then Exchange else Synthesis, if further then d.round + 1 else d.round;
    UncommittedOpens(d, files, kind, round);
    OpenSame(d, files, kind, round);
    assert Advanced(d, files) == Next(d, files);
  }

  lemma UncommittedOpens(d: Dialogue, files: Files, kind: Kind, round: nat)
    requires CanAdvance(d, files) && d.phase == Collecting(Challenge) && MaterialIssue(d, files) && d.round <= d.authorized
    requires if d.round < d.authorized then kind.Exchange? && round == d.round + 1 else kind.Synthesis? && round == d.round
    ensures Next(d, files) == Opened(d, kind, round) && MayOpen(d, kind, round)
  {
  }

  lemma SoundIsJustified(d: Dialogue, files: Files)
    requires Sound(d, files) && d.phase.Collecting? && d.round > 0
    ensures Framed(d, files) && LawsKept(d, files) && Justified(d, d.ledger, files, PassedRound(d))
  {
  }

  /** Opening a later phase with the same ledger. */
  lemma OpenSame(d: Dialogue, files: Files, kind: Kind, round: nat)
    requires Framed(d, files) && LawsKept(d, files) && d.round > 0 && Justified(d, d.ledger, files, d.round)
    requires MayOpen(d, kind, round) && !kind.Challenge? && round == (if kind.Exchange? then d.round + 1 else d.round)
    requires (kind.Exchange? && d.phase.kind.Synthesis?) || FullAt(d, d.phase.kind, SlotRound(d.phase.kind, ArtifactRound(d)))
    requires kind.Revision? ==> RevisionDue(d, files)
    ensures Stable(Opened(d, kind, round).dialogue, files)
  {
    assert d.(ledger := d.ledger) == d;
    OpenedIsStable(d, d.ledger, files, kind, round);
  }

  lemma AdvanceCommitted(d: Dialogue, files: Files)
    requires Sound(d, files) && d.phase == Collecting(Challenge) && BarrierReached(d)
    requires !MaterialIssue(d, files)
    ensures Stable(Advanced(d, files).dialogue, files)
  {
    BarrierIsFull(d, files);
    PassIsSound(d, files, true);
    OpenedIsStable(d, Advanced(d, files).dialogue.ledger, files, Synthesis, d.round);
  }

  lemma OpenLater(d: Dialogue, files: Files, kind: Kind)
    requires Sound(d, files) && d.phase.Collecting? && Order(d.phase.kind) >= 3 && MayOpen(d, kind, d.round)
    requires FullAt(d, d.phase.kind, 0)
    requires kind.Revision? ==> RevisionDue(d, files)
    ensures Stable(Opened(d, kind, d.round).dialogue, files)
  {
    SoundIsJustified(d, files);
    OpenSame(d, files, kind, d.round);
  }

  lemma AdvanceLater(d: Dialogue, files: Files)
    requires Sound(d, files) && d.phase.Collecting? && Order(d.phase.kind) >= 3 && BarrierReached(d)
    ensures Stable(Advanced(d, files).dialogue, files)
  {
    BarrierIsFull(d, files);
    match d.phase.kind
    case Synthesis => OpenLater(d, files, Check);
    case Check =>
      if RevisionDue(d, files) { OpenLater(d, files, Revision); } else { CompletedIsSound(d, files); }
    case Revision => OpenLater(d, files, RevisionCheck);
    case RevisionCheck => CompletedIsSound(d, files);
  }

  /** The last checks are in, and a revision was made if one was due. */
  ghost predicate ReadyToComplete(d: Dialogue, files: Files)
    requires d.participants != [] && FilesPresent(d, files)
  {
    || (d.phase == Collecting(Check) && FullAt(d, Check, 0) && !RevisionDue(d, files))
    || (d.phase == Collecting(RevisionCheck) && FullAt(d, RevisionCheck, 0) && RevisionDue(d, files))
  }

  lemma CompletedProgress(d: Dialogue, files: Files)
    requires Framed(d, files) && ReadyToComplete(d, files)
    requires Slot(Synthesis, 0, d.participants[0]) in d.submissions
    ensures Policy(Completed(d, files).dialogue) && Progress(Completed(d, files).dialogue)
    ensures RevisionDone(Completed(d, files).dialogue, files)
  {
    var d' := Completed(d, files).dialogue;
    forall r | 1 <= r < d.round
      ensures FullAt(d', Exchange, r)
    {
      assert FullAt(d, Exchange, r);
    }
  }

  /** The ledger stays sound where the responses, the round and the passes are the same. */
  lemma SameLedger(d: Dialogue, d': Dialogue, files: Files)
    requires d.participants != [] && FilesPresent(d, files) && LedgerSound(d, files)
    requires d'.participants == d.participants && d'.submissions == d.submissions && d'.round == d.round
    requires d'.ledger == d.ledger && d'.ceiling == d.ceiling
    requires d'.phase.Cancelled? || (!d.phase.Cancelled? && (d.round > 0 ==> PassedRound(d') == PassedRound(d)))
    ensures FilesPresent(d', files) && LedgerSound(d', files)
  {
    SameHistory(d, d', files);
  }

  lemma CompletedIsSound(d: Dialogue, files: Files)
    requires Framed(d, files) && LedgerSound(d, files) && LawsKept(d, files) && ReadyToComplete(d, files)
    requires Slot(Synthesis, 0, d.participants[0]) in d.submissions
    ensures Sound(Completed(d, files).dialogue, files)
  {
    CompletedProgress(d, files);
    CompletedResponses(d, files);
    SameLedger(d, Completed(d, files).dialogue, files);
    CompletedLaws(d, files);
  }

  lemma CompletedLaws(d: Dialogue, files: Files)
    requires d.participants != [] && FilesPresent(d, files) && LawsKept(d, files)
    requires Slot(Synthesis, 0, d.participants[0]) in d.submissions
    ensures FilesPresent(Completed(d, files).dialogue, files) && LawsKept(Completed(d, files).dialogue, files)
  {
  }

  lemma CompletedResponses(d: Dialogue, files: Files)
    requires d.participants != [] && Responses(d, files)
    requires Slot(Synthesis, 0, d.participants[0]) in d.submissions
    ensures Responses(Completed(d, files).dialogue, files)
  {
    var d' := Completed(d, files).dialogue;
    forall s | s in d'.submissions
      ensures Belongs(d', s)
    {
      assert Belongs(d, s);
    }
  }

  /** Every advance keeps the invariant, and ends in a phase that waits for somebody or in completion. */
  lemma AdvancedIsStable(d: Dialogue, files: Files)
    requires Sound(d, files) && d.phase.Collecting?
    ensures Stable(Advanced(d, files).dialogue, files)
  {
    if BarrierReached(d) {
      match d.phase.kind
      case Proposal => AdvanceFromProposals(d, files);
      case Exchange =>
        BarrierIsFull(d, files);
        if ChallengeIsDue(d, files) { AdvanceToChallenge(d, files); } else { AdvanceToNextRound(d, files); }
      case Challenge => if MaterialIssue(d, files) { AdvanceUncommitted(d, files); } else { AdvanceCommitted(d, files); }
      case Synthesis => AdvanceLater(d, files);
      case Check => AdvanceLater(d, files);
      case Revision => AdvanceLater(d, files);
      case RevisionCheck => AdvanceLater(d, files);
    }
  }

  // ----- Extending and cancelling

  lemma SynthesisMissing(d: Dialogue, files: Files)
    requires Stable(d, files) && d.phase == Collecting(Synthesis)
    ensures BlankAt(d, Synthesis, 0)
  {
    forall s | s in d.submissions && s.kind.Synthesis?
      ensures s.participant == d.participants[0] && s == Slot(Synthesis, 0, d.participants[0])
    {
      assert Belongs(d, s);
    }
    assert Elements(d.required) == {d.participants[0]};
    assert Target(d, Synthesis, d.round) <= {d.participants[0]};
  }

  /** An extension keeps the invariant, whether it only adds rounds or reopens the exchange. */
  lemma ExtendedIsStable(
    d: Dialogue, files: Files, p: Participant, additional: int, id: ExtensionId, transition: TransitionId)
    requires Stable(d, files) && Extend(d, p, additional, id, transition).Extended?
    ensures Stable(Extend(d, p, additional, id, transition).opening.dialogue, files)
  {
    var extension := Extend(d, p, additional, id, transition).extension;
    LengthenedIsStable(d, files, extension.authorized, d.extensions[id := extension]);
  }

  lemma LengthenedIsStable(d: Dialogue, files: Files, authorized: nat, extensions: map<ExtensionId, Extension>)
    requires Stable(d, files) && d.authorized < authorized <= d.maximum
    requires d.phase == Collecting(Exchange) || d.phase == Collecting(Synthesis)
    ensures Stable(Lengthened(d, authorized, extensions).dialogue, files)
  {
    var next := Lengthened(d, authorized, extensions).dialogue;
    if d.phase == Collecting(Synthesis) {
      assert next == Opened(d.(authorized := authorized, extensions := extensions), Exchange, d.round + 1).dialogue;
      Reopened(d, files, authorized, extensions);
    } else {
      assert next == d.(authorized := authorized, extensions := extensions);
      MoreRounds(d, files, authorized, extensions);
    }
  }

  lemma MoreRoundsFramed(d: Dialogue, files: Files, authorized: nat, extensions: map<ExtensionId, Extension>)
    requires Framed(d, files) && d.authorized <= authorized <= d.maximum
    ensures Framed(d.(authorized := authorized, extensions := extensions), files)
  {
    var d' := d.(authorized := authorized, extensions := extensions);
    assert forall s :: s in d.submissions ==> Belongs(d, s);
    forall r | 1 <= r < d.round
      ensures FullAt(d', Exchange, r)
    {
      assert FullAt(d, Exchange, r);
    }
  }

  lemma MoreRounds(d: Dialogue, files: Files, authorized: nat, extensions: map<ExtensionId, Extension>)
    requires Stable(d, files) && d.authorized <= authorized <= d.maximum && d.phase == Collecting(Exchange)
    ensures Stable(d.(authorized := authorized, extensions := extensions), files)
  {
    var d' := d.(authorized := authorized, extensions := extensions);
    MoreRoundsFramed(d, files, authorized, extensions);
    SameLedger(d, d', files);
    assert ReviewsCurrent(d', files) by {
      assert forall s :: s in d.submissions ==> Body(d', files, s) == Body(d, files, s);
    }
    assert Target(d', Exchange, d.round) == Target(d, Exchange, d.round);
  }

  lemma ReopeningIsReady(d: Dialogue, d': Dialogue, files: Files, round: nat)
    requires Stable(d, files) && d.phase == Collecting(Synthesis) && round == d.round + 1
    requires d.authorized < d'.authorized <= d.maximum && d' == d.(authorized := d'.authorized, extensions := d'.extensions)
    ensures Framed(d', files) && MayOpen(d', Exchange, round) && Justified(d', d'.ledger, files, d.round)
  {
    MoreRoundsFramed(d, files, d'.authorized, d'.extensions);
    SynthesisMissing(d, files);
    SameHistory(d, d', files);
    assert BlankAt(d', Synthesis, 0);
  }

  lemma Reopened(d: Dialogue, files: Files, authorized: nat, extensions: map<ExtensionId, Extension>)
    requires Stable(d, files) && d.authorized < authorized <= d.maximum && d.phase == Collecting(Synthesis)
    ensures Stable(Opened(d.(authorized := authorized, extensions := extensions), Exchange, d.round + 1).dialogue, files)
  {
    var d', round := d.(authorized := authorized, extensions := extensions), d.round + 1;
    ReopeningIsReady(d, d', files, round);
    OpenedIsStable(d', d'.ledger, files, Exchange, round);
  }

  lemma CancelledIsStable(d: Dialogue, files: Files, p: Participant)
    requires Stable(d, files) && !d.phase.Terminal()
    ensures Stable(CancelledBy(d, p).dialogue, files)
  {
    var d' := CancelledBy(d, p).dialogue;
    SameLedger(d, d', files);
    assert forall s :: s in d.submissions ==> Belongs(d, s);
  }

  /** The whole effect of an admitted submission keeps the invariant. */
  lemma SubmittedIsStable(
    d: Dialogue, files: Files, p: Participant, kind: Kind, round: nat, payload: Payload, deliverable: bool)
    requires Stable(d, files) && Admit(d, files, p, kind, round, payload, deliverable).Accepted?
    ensures
      var d', files' := Recorded(d, Path(kind, round, p)), files[Path(kind, round, p) := payload];
      Sound(d', files') && Stable(Advanced(d', files').dialogue, files')
  {
    AdmittedMayRecord(d, files, p, kind, round, payload, deliverable);
    RecordedIsSound(d, files, Path(kind, round, p), payload);
    AdvancedIsStable(Recorded(d, Path(kind, round, p)), files[Path(kind, round, p) := payload]);
  }

  /** What a submission makes of the dialogue. */
  ghost function Submitted(
    d: Dialogue, files: Files, p: Participant, kind: Kind, round: nat, payload: Payload, deliverable: bool): Opening
  {
    if Stable(d, files) && Admit(d, files, p, kind, round, payload, deliverable).Accepted? then
      SubmittedIsStable(d, files, p, kind, round, payload, deliverable);
      Advanced(Recorded(d, Path(kind, round, p)), files[Path(kind, round, p) := payload])
    else Opening(d, [], None)
  }
}
