/** The phase machine of one dialogue: what `submit`, `extend` and `cancel` make of the manifest,
    apart from the durable bookkeeping around it. */
module PhaseMachine {
  import opened CouncilTypes
  import opened ClaimLedger

  type TransitionId = nat
  type ExtensionId = string

  /** A round extension that was applied, under the client's identity for it. */
  datatype Extension = Extension(
    participant: Participant, additional: nat, authorized: nat, transition: TransitionId)

  datatype Dialogue = Dialogue(
    participants: seq<Participant>,
    phase: Phase,
    round: nat,
    minimum: nat,
    authorized: nat,
    maximum: nat,
    stopOnConvergence: bool,
    ceiling: nat,
    required: seq<Participant>,
    submissions: map<Slot, Path>,
    ledger: Ledger,
    extensions: map<ExtensionId, Extension>)

  type Files = map<Path, Payload>

  /** The canonical final record. */
  datatype Final = Final(
    claims: seq<ClaimId>,
    parked: seq<Claim>,
    retired: seq<Retired>,
    challenges: map<Participant, Payload>,
    synthesis: Payload,
    revision: Option<Payload>,
    checks: map<Participant, Payload>,
    revisionChecks: map<Participant, Payload>)

  datatype MessageKind = Request(kind: Kind) | CompletionNotice(final: Final) | CancellationNotice

  datatype Outgoing = Outgoing(recipient: Participant, kind: MessageKind, round: nat)

  datatype Opening = Opening(dialogue: Dialogue, messages: seq<Outgoing>, final: Option<Final>)

  // ----- Starting

  predicate PolicyAllowed(participants: seq<Participant>, minimum: nat, rounds: nat, maximum: nat, ceiling: nat) {
    && 2 <= |participants| <= MAX_COUNCIL_PARTICIPANTS && NoRepeats(participants)
    && 1 <= minimum <= rounds <= maximum <= MAX_COUNCIL_ROUNDS
    && |participants| <= ceiling <= MAX_ACTIVE_CLAIM_CEILING
  }

  function Started(
    participants: seq<Participant>, minimum: nat, rounds: nat, maximum: nat, stop: bool, ceiling: nat): Opening
    requires PolicyAllowed(participants, minimum, rounds, maximum, ceiling)
  {
    var d := Dialogue(participants, Collecting(Proposal), 0, minimum, rounds, maximum, stop, ceiling,
                      participants, map[], EMPTY_LEDGER, map[]);
    Opening(d, Requests(participants[1..], Proposal, 0), None)
  }

  function Requests(recipients: seq<Participant>, kind: Kind, round: nat): (messages: seq<Outgoing>)
    ensures |messages| == |recipients|
    ensures forall k :: 0 <= k < |messages| ==> messages[k] == Outgoing(recipients[k], Request(kind), round)
  {
    seq(|recipients|, k requires 0 <= k < |recipients| => Outgoing(recipients[k], Request(kind), round))
  }

  // ----- Reading the record

  function RequiredFor(participants: seq<Participant>, kind: Kind): seq<Participant>
    requires participants != []
  {
    match kind
    case Proposal => participants
    case Exchange => participants
    case Challenge => participants
    case Synthesis => participants[..1]
    case Check => participants[1..]
    case Revision => participants[..1]
    case RevisionCheck => participants[1..]
  }

  function SlotOf(path: Path): Slot {
    Slot(path.kind, SlotRound(path.kind, path.round), path.participant)
  }

  function ArtifactRound(d: Dialogue): nat {
    if d.phase == Collecting(Proposal) then 0 else d.round
  }

  /** Who has answered in a round. */
  function Target(d: Dialogue, kind: Kind, round: nat): set<Participant> {
    set s | s in d.submissions && s.kind == kind && s.round == SlotRound(kind, round) :: s.participant
  }

  predicate FilesPresent(d: Dialogue, files: Files) {
    forall s :: s in d.submissions ==> d.submissions[s] in files
  }

  function Body(d: Dialogue, files: Files, s: Slot): Payload
    requires FilesPresent(d, files) && s in d.submissions
  {
    files[d.submissions[s]]
  }

  predicate FullAt(d: Dialogue, kind: Kind, round: nat)
    requires d.participants != []
  {
    forall p :: p in RequiredFor(d.participants, kind) ==> Slot(kind, round, p) in d.submissions
  }

  function ReviewOf(payload: Payload): seq<Assessment> {
    if payload.ExchangeBody? then payload.assessments else []
  }

  function Reviews(d: Dialogue, files: Files, round: nat): (reviews: seq<seq<Assessment>>)
    requires d.participants != [] && FilesPresent(d, files) && FullAt(d, Exchange, round)
    ensures |reviews| == |d.participants|
  {
    seq(|d.participants|, i requires 0 <= i < |d.participants| =>
      ReviewOf(Body(d, files, Slot(Exchange, round, d.participants[i]))))
  }

  function Bodies(d: Dialogue, files: Files, kind: Kind, round: nat): map<Participant, Payload>
    requires FilesPresent(d, files)
  {
    map s | s in d.submissions && s.kind == kind && s.round == SlotRound(kind, round) :: s.participant := Body(d, files, s)
  }

  // ----- Admitting a submission

  predicate WellFormed(kind: Kind, payload: Payload) {
    match kind
    case Proposal =>
      && payload.ProposalBody? && 1 <= |payload.claims| <= MAX_MATERIAL_CLAIMS_PER_PARTICIPANT
      && forall i, j :: 0 <= i < j < |payload.claims| ==> payload.claims[i].local != payload.claims[j].local
    case Exchange => payload.ExchangeBody?
    case Challenge => payload.ChallengeBody?
    case Synthesis => payload.SynthesisBody?
    case Check => payload.CheckBody?
    case Revision => payload.SynthesisBody?
    case RevisionCheck => payload.CheckBody?
  }

  /** A review assesses every active claim exactly once, and names only other active claims as
      duplicates, of nonmaterial claims. */
  predicate ReviewCovers(active: seq<Claim>, review: seq<Assessment>) {
    && ReviewDistinct(review)
    && (set a | a in review :: a.claim) == Ids(active)
    && forall a :: a in review && a.duplicateOf.Some? ==>
         a.duplicateOf.value in Ids(active) && a.duplicateOf.value != a.claim && a.position == Nonmaterial
  }

  predicate FitsLedger(active: seq<Claim>, p: Participant, kind: Kind, payload: Payload) {
    match payload
    case ProposalBody(_, _) => true
    case SynthesisBody(_) => true
    case ExchangeBody(_, candidate, delta, disagreements, review, strongest) =>
      && active != []
      && ReviewCovers(active, review)
      && NoRepeats(disagreements)
      && (forall id :: id in disagreements ==>
           exists a :: a in review && a.claim == id && (a.position == Reject || a.position == Uncertain))
      && (exists c :: c in active && c.id == strongest && c.origin != p)
      && (candidate ==> !delta && disagreements == [])
    case ChallengeBody(_, issue, reopen) =>
      && NoRepeats(reopen) && Elements(reopen) <= Ids(active) && (issue <==> reopen != [])
    case CheckBody(_, _, _, resolved, unresolved) =>
      && NoRepeats(unresolved) && Elements(unresolved) <= Ids(active) && (resolved ==> unresolved == [])
  }

  datatype Refusal = Malformed | NotAMember | Conflicting | Unexpected | WrongRound | Undeliverable

  datatype Verdict = Duplicate | Stale | Refused(why: Refusal) | Accepted(path: Path)

  predicate Expects(d: Dialogue, p: Participant, kind: Kind)
    requires d.participants != []
  {
    d.phase == Collecting(kind) && p in RequiredFor(d.participants, kind)
  }

  /** The broker's decision on a submission. Whether the exchange requests built from the last
      proposal fit their envelope is a parameter. */
  function Admit(
    d: Dialogue, files: Files, p: Participant, kind: Kind, round: nat, payload: Payload, deliverable: bool): Verdict
    requires d.participants != [] && FilesPresent(d, files)
  {
    var slot := Slot(kind, SlotRound(kind, round), p);
    if !WellFormed(kind, payload) then Refused(Malformed)
    else if p !in d.participants then Refused(NotAMember)
    else if slot in d.submissions && d.submissions[slot].round == round then
      if Body(d, files, slot) == payload then Duplicate else Refused(Conflicting)
    else if !Expects(d, p, kind) then
      if d.phase.Terminal() || round < d.round then Stale else Refused(Unexpected)
    else if round < ArtifactRound(d) then Stale
    else if round > ArtifactRound(d) then Refused(WrongRound)
    else if !FitsLedger(d.ledger.active, p, kind, payload) then Refused(Malformed)
    else if slot in d.submissions then
      if Body(d, files, slot) == payload then Duplicate else Refused(Conflicting)
    else if kind.Proposal? && Target(d, Proposal, 0) + {p} == Elements(d.required) && !deliverable then
      Refused(Undeliverable)
    else Accepted(Path(kind, round, p))
  }

  // ----- Advancing after a submission

  function Opened(d: Dialogue, kind: Kind, round: nat): Opening
    requires d.participants != []
  {
    var required := RequiredFor(d.participants, kind);
    Opening(d.(phase := Collecting(kind), round := round, required := required), Requests(required, kind, round), None)
  }

  function Orders(d: Dialogue, files: Files): (orders: seq<seq<Claim>>)
    requires d.participants != [] && FilesPresent(d, files) && FullAt(d, Proposal, 0)
    ensures |orders| == |d.participants|
  {
    seq(|d.participants|, i requires 0 <= i < |d.participants| =>
      var body := Body(d, files, Slot(Proposal, 0, d.participants[i]));
      if body.ProposalBody? then OwnClaims(d.participants[i], body.claims) else [])
  }

  /** Every participant offers to converge, and all positions agree on every active claim. */
  predicate Converged(d: Dialogue, files: Files)
    requires d.participants != [] && FilesPresent(d, files) && FullAt(d, Exchange, d.round)
  {
    var reviews := Reviews(d, files, d.round);
    && d.minimum <= d.round
    && (forall p :: p in d.participants ==>
         var body := Body(d, files, Slot(Exchange, d.round, p));
         body.ExchangeBody? && body.candidate && !body.materialDelta && body.disagreements == [])
    && (forall i, a :: 0 <= i < |reviews| && a in reviews[i] ==> a.claim in Ids(d.ledger.active))
    && (forall id :: id in Ids(d.ledger.active) ==>
         && AssessmentsOf(reviews, id) != []
         && forall a :: a in AssessmentsOf(reviews, id) ==>
              a.position == AssessmentsOf(reviews, id)[0].position && a.position != Uncertain)
  }

  /** After a full exchange round: convergence was earned, or the authorized rounds are used up. */
  predicate ChallengeIsDue(d: Dialogue, files: Files)
    requires d.participants != [] && FilesPresent(d, files) && FullAt(d, Exchange, d.round)
  {
    (d.stopOnConvergence && Converged(d, files)) || d.authorized <= d.round
  }

  predicate MaterialIssue(d: Dialogue, files: Files)
    requires FilesPresent(d, files)
  {
    exists s :: s in d.submissions && s.kind == Challenge && s.round == d.round &&
                Body(d, files, s).ChallengeBody? && Body(d, files, s).materialIssue
  }

  predicate Corrects(payload: Payload) {
    payload.CheckBody? && (!payload.accurate || payload.corrections != [])
  }

  /** Some representation check found the synthesis inaccurate or asked for a correction. */
  predicate MaterialCorrection(submissions: map<Slot, Path>, files: Files) {
    exists s :: s in submissions && s.kind == Check && submissions[s] in files && Corrects(files[submissions[s]])
  }

  function FinalRecord(d: Dialogue, files: Files): Final
    requires d.participants != [] && FilesPresent(d, files) && Slot(Synthesis, 0, d.participants[0]) in d.submissions
  {
    var initiator := d.participants[0];
    Final(
      seq(|d.ledger.active|, i requires 0 <= i < |d.ledger.active| => d.ledger.active[i].id),
      d.ledger.parked, d.ledger.retired,
      Bodies(d, files, Challenge, d.round),
      Body(d, files, Slot(Synthesis, 0, initiator)),
      if Slot(Revision, 0, initiator) in d.submissions then Some(Body(d, files, Slot(Revision, 0, initiator))) else None,
      Bodies(d, files, Check, 0),
      Bodies(d, files, RevisionCheck, 0))
  }

  function Completed(d: Dialogue, files: Files): Opening
    requires d.participants != [] && FilesPresent(d, files) && Slot(Synthesis, 0, d.participants[0]) in d.submissions
  {
    var final := FinalRecord(d, files);
    Opening(
      d.(phase := Complete, required := []),
      seq(|d.participants|, i requires 0 <= i < |d.participants| =>
        Outgoing(d.participants[i], CompletionNotice(final), d.round)),
      Some(final))
  }

  predicate BarrierReached(d: Dialogue)
    requires d.phase.Collecting?
  {
    Target(d, d.phase.kind, ArtifactRound(d)) == Elements(d.required)
  }

  /** The records that the next step of an advance reads are there. */
  predicate CanAdvance(d: Dialogue, files: Files) {
    && d.participants != [] && FilesPresent(d, files) && d.phase.Collecting?
    && (d.phase.kind.Proposal? ==> FullAt(d, Proposal, 0))
    && (d.phase.kind.Exchange? || d.phase.kind.Challenge? ==> FullAt(d, Exchange, d.round))
    && (Order(d.phase.kind) >= 3 ==> Slot(Synthesis, 0, d.participants[0]) in d.submissions)
  }

  /** What opens after a full phase. */
  function Next(d: Dialogue, files: Files): Opening
    requires CanAdvance(d, files)
  {
    match d.phase.kind
    case Proposal =>
      Opened(d.(ledger := BuiltLedger(Orders(d, files), d.ceiling)), Exchange, 1)
    case Exchange =>
      var judged := d.(ledger := Retirement(d.ledger, Reviews(d, files, d.round), d.round, false));
      if ChallengeIsDue(d, files) then Opened(judged, Challenge, d.round) else Opened(judged, Exchange, d.round + 1)
    case Challenge =>
      if MaterialIssue(d, files) && d.round < d.authorized then Opened(d, Exchange, d.round + 1)
      else if MaterialIssue(d, files) then Opened(d, Synthesis, d.round)
      else Opened(d.(ledger := Retirement(d.ledger, Reviews(d, files, d.round), d.round, true)), Synthesis, d.round)
    case Synthesis => Opened(d, Check, d.round)
    case Check =>
      if |d.participants| == 3 && MaterialCorrection(d.submissions, files) then Opened(d, Revision, d.round)
      else Completed(d, files)
    case Revision => Opened(d, RevisionCheck, d.round)
    case RevisionCheck => Completed(d, files)
  }

  /** The effect of a recorded response: nothing more until the last required one is in. */
  function Advanced(d: Dialogue, files: Files): Opening
    requires Sound(d, files) && d.phase.Collecting?
  {
    if !BarrierReached(d) then Opening(d, [], None) else
      BarrierIsFull(d, files);
      Next(d, files)
  }

  // ----- Extending and cancelling

  datatype ExtensionVerdict =
    | Repeated(extension: Extension)
    | RefusedOutright
    | RefusedBeforeCommit
    | Extended(opening: Opening, extension: Extension)

  /** The broker's decision on a round extension under the client's identity for it. Only a
      refusal of an identity it never committed is a refusal before commit. */
  function Extend(
    d: Dialogue, p: Participant, additional: int, id: ExtensionId, transition: TransitionId): ExtensionVerdict
    requires d.participants != []
  {
    if additional < 1 || p != d.participants[0] then RefusedOutright
    else if id in d.extensions then
      var known := d.extensions[id];
      if known.participant == p && known.additional == additional then Repeated(known) else RefusedOutright
    else if d.phase != Collecting(Exchange) && d.phase != Collecting(Synthesis) then RefusedBeforeCommit
    else if d.authorized + additional > d.maximum then RefusedBeforeCommit
    else
      var extension := Extension(p, additional, d.authorized + additional, transition);
      Extended(Lengthened(d, extension.authorized, d.extensions[id := extension]), extension)
  }

  /** More rounds; at the synthesis gate they reopen the exchange. */
  function Lengthened(d: Dialogue, authorized: nat, extensions: map<ExtensionId, Extension>): Opening
    requires d.participants != []
  {
    var more := d.(authorized := authorized, extensions := extensions);
    if d.phase == Collecting(Synthesis) then Opened(more, Exchange, d.round + 1) else Opening(more, [], None)
  }

  function CancelledBy(d: Dialogue, p: Participant): Opening
    requires !d.phase.Terminal()
  {
    Opening(d.(phase := Cancelled), Notices(d.participants, p, d.round), None)
  }

  function Notices(participants: seq<Participant>, p: Participant, round: nat): seq<Outgoing> {
    if participants == [] then [] else
      var last := participants[|participants| - 1];
      Notices(participants[..|participants| - 1], p, round)
        + if last == p then [] else [Outgoing(last, CancellationNotice, round)]
  }

  function Recorded(d: Dialogue, path: Path): Dialogue {
    d.(submissions := d.submissions[SlotOf(path) := path])
  }

  // ----- The invariant of the phase machine

  predicate Policy(d: Dialogue) {
    && PolicyAllowed(d.participants, d.minimum, d.authorized, d.maximum, d.ceiling)
    && d.round <= d.authorized
    && (d.phase.Collecting? ==> d.required == RequiredFor(d.participants, d.phase.kind))
  }

  /** A response that may be recorded: the right participant in a round that was opened. */
  predicate Belongs(d: Dialogue, s: Slot)
    requires d.participants != []
  {
    && s.participant in RequiredFor(d.participants, s.kind)
    && (s.kind.Proposal? ==> s.round == 0)
    && (s.kind.Exchange? || s.kind.Challenge? ==> 1 <= s.round <= d.round)
    && (!PerRound(s.kind) ==> s.round == 0)
  }

  ghost predicate Responses(d: Dialogue, files: Files)
    requires d.participants != []
  {
    && FilesPresent(d, files)
    && forall s :: s in d.submissions ==>
         && SlotOf(d.submissions[s]) == s && d.submissions[s].round <= d.round
         && Belongs(d, s) && (!PerRound(s.kind) ==> d.submissions[s].round == d.round)
         && WellFormed(s.kind, files[d.submissions[s]])
         && ReviewDistinct(ReviewOf(files[d.submissions[s]]))
  }

  /** What a recorded response says about the dialogue's claims: duplicates are nonmaterial and of other
      claims, disagreements are with what the review does not accept, the strongest opposing claim is an
      opponent's, an offer to converge leaves nothing open, and an issue reopens some claim. */
  ghost predicate Lawful(raw: seq<Claim>, p: Participant, payload: Payload) {
    match payload
    case ProposalBody(_, _) => true
    case SynthesisBody(_) => true
    case ExchangeBody(_, candidate, delta, disagreements, review, strongest) =>
      && (forall a :: a in review ==> a.claim in Ids(raw))
      && (forall a :: a in review && a.duplicateOf.Some? ==>
            a.position == Nonmaterial && a.duplicateOf.value in Ids(raw) && a.duplicateOf.value != a.claim)
      && NoRepeats(disagreements)
      && (forall id :: id in disagreements ==> exists a :: a in review && a.claim == id && a.position in {Reject, Uncertain})
      && (exists c :: c in raw && c.id == strongest && c.origin != p)
      && (candidate ==> !delta && disagreements == [])
    case ChallengeBody(_, issue, reopen) =>
      NoRepeats(reopen) && Elements(reopen) <= Ids(raw) && (issue <==> reopen != [])
    case CheckBody(_, _, _, resolved, unresolved) =>
      NoRepeats(unresolved) && Elements(unresolved) <= Ids(raw) && (resolved ==> unresolved == [])
  }

  ghost predicate LawsKept(d: Dialogue, files: Files)
    requires FilesPresent(d, files)
  {
    forall s :: s in d.submissions ==> Lawful(d.ledger.raw, s.participant, files[d.submissions[s]])
  }

  function Order(kind: Kind): nat {
    match kind
    case Proposal => 0
    case Exchange => 1
    case Challenge => 2
    case Synthesis => 3
    case Check => 4
    case Revision => 5
    case RevisionCheck => 6
  }

  ghost predicate BlankAt(d: Dialogue, kind: Kind, round: nat) {
    forall p :: Slot(kind, round, p) !in d.submissions
  }

  /** The rounds before the current one were completed and nothing of a later stage is recorded. */
  ghost predicate Progress(d: Dialogue)
    requires Policy(d)
  {
    var n := if d.phase.Collecting? then Order(d.phase.kind) else 7;
    && (n == 0 <==> d.round == 0)
    && (n >= 1 ==> FullAt(d, Proposal, 0))
    && (forall r :: 1 <= r < d.round ==> FullAt(d, Exchange, r))
    && (n >= 2 ==> FullAt(d, Exchange, d.round) && d.minimum <= d.round)
    && (n <= 1 ==> BlankAt(d, Challenge, d.round))
    && (n >= 3 ==> FullAt(d, Challenge, d.round))
    && (if n >= 4 then FullAt(d, Synthesis, 0) else n == 3 || BlankAt(d, Synthesis, 0))
    && (if n >= 5 then FullAt(d, Check, 0) else n == 4 || BlankAt(d, Check, 0))
    && (n == 6 ==> FullAt(d, Revision, 0))
    && (n <= 4 ==> BlankAt(d, Revision, 0))
    && (n <= 5 ==> BlankAt(d, RevisionCheck, 0))
  }

  /** The part of `Progress` that only completion has: the revision, if one was due. */
  ghost predicate RevisionDone(d: Dialogue, files: Files)
    requires d.participants != [] && FilesPresent(d, files)
  {
    if |d.participants| == 3 && MaterialCorrection(d.submissions, files)
    then FullAt(d, Revision, 0) && FullAt(d, RevisionCheck, 0)
    else BlankAt(d, Revision, 0) && BlankAt(d, RevisionCheck, 0)
  }

  ghost predicate RevisionDue(d: Dialogue, files: Files)
    requires FilesPresent(d, files)
  {
    |d.participants| == 3 && MaterialCorrection(d.submissions, files)
  }

  /** The reviews of the completed exchange rounds. */
  ghost function ReviewHistory(d: Dialogue, files: Files): History
    requires d.participants != [] && FilesPresent(d, files)
  {
    map r: nat | 1 <= r <= d.round && FullAt(d, Exchange, r) :: Reviews(d, files, r)
  }

  ghost predicate LedgerSound(d: Dialogue, files: Files)
    requires d.participants != [] && FilesPresent(d, files)
  {
    if d.round == 0 then d.ledger == EMPTY_LEDGER else
      && LedgerInv(d.ledger)
      && Backed(ReviewHistory(d, files), d.ledger.pending)
      && RetiredWithGrounds(ReviewHistory(d, files), d.ledger.retired)
      && |d.ledger.active| <= d.ceiling
      && (!d.phase.Cancelled? ==> WaitsExactly(ReviewHistory(d, files), PassedRound(d), d.ledger))
  }

  /** The last round whose reviews a pass has gone over. */
  ghost function PassedRound(d: Dialogue): nat
    requires d.round > 0
  {
    if d.phase == Collecting(Exchange) then d.round - 1 else d.round
  }

  /** Until the ledger can shrink, the current round's reviews cover it exactly. */
  ghost predicate ReviewsCurrent(d: Dialogue, files: Files)
    requires FilesPresent(d, files)
  {
    d.phase == Collecting(Exchange) || d.phase == Collecting(Challenge) ==>
      forall s :: s in d.submissions && s.kind.Exchange? && s.round == d.round ==>
        ReviewCovers(d.ledger.active, ReviewOf(Body(d, files, s)))
  }

  ghost predicate Sound(d: Dialogue, files: Files) {
    && Policy(d)
    && Responses(d, files)
    && LawsKept(d, files)
    && LedgerSound(d, files)
    && (!d.phase.Cancelled? ==> Progress(d))
    && (d.phase == Collecting(Revision) || d.phase == Collecting(RevisionCheck) ==> RevisionDue(d, files))
    && (d.phase.Complete? ==> RevisionDone(d, files))
    && ReviewsCurrent(d, files)
  }

  /** `Sound`, and the current phase still waits for somebody: every committed manifest is this. */
  ghost predicate Stable(d: Dialogue, files: Files) {
    Sound(d, files) && (d.phase.Collecting? ==> !BarrierReached(d))
  }

  lemma BarrierIsFull(d: Dialogue, files: Files)
    requires Sound(d, files) && d.phase.Collecting? && BarrierReached(d)
    ensures FullAt(d, d.phase.kind, SlotRound(d.phase.kind, ArtifactRound(d)))
    ensures CanAdvance(d, files)
  {
    forall p | p in RequiredFor(d.participants, d.phase.kind)
      ensures Slot(d.phase.kind, SlotRound(d.phase.kind, ArtifactRound(d)), p) in d.submissions
    {
      assert p in Elements(d.required);
      assert p in Target(d, d.phase.kind, ArtifactRound(d));
    }
  }
}
