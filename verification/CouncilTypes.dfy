/** The values that pass between the dialogue's participants and that the broker stores. */
module CouncilTypes {

  datatype Option<+T> = None | Some(value: T)

  /** A participant's validated name; names are only ever compared. */
  type Participant = string

  const MAX_COUNCIL_PARTICIPANTS := 3
  const MAX_COUNCIL_ROUNDS := 100
  const MAX_MATERIAL_CLAIMS_PER_PARTICIPANT := 8
  const MAX_ACTIVE_CLAIM_CEILING := 24
  const CLAIM_SECONDS := 120

  /** The seven kinds of submission. */
  datatype Kind =
    | Proposal
    | Exchange
    | Challenge
    | Synthesis
    | Check
    | Revision
    | RevisionCheck

  /** What a phase collects, or how the dialogue ended. */
  datatype Phase =
    | Collecting(kind: Kind)
    | Complete
    | Cancelled
  {
    predicate Terminal() { Complete? || Cancelled? }
  }

  /** A claim's canonical identity: the keyed digest of the originator and its local name,
      taken as an injective function of the two. */
  datatype ClaimId = ClaimId(participant: Participant, local: string)

  datatype Claim = Claim(id: ClaimId, origin: Participant, text: string)

  datatype Position = Accept | Reject | Uncertain | Nonmaterial

  datatype Assessment = Assessment(
    claim: ClaimId,
    position: Position,
    evidence: seq<string>,
    duplicateOf: Option<ClaimId>)

  /** A claim as its author submits it. */
  datatype LocalClaim = LocalClaim(local: string, text: string)

  datatype Payload =
    | ProposalBody(text: string, claims: seq<LocalClaim>)
    | ExchangeBody(
        text: string,
        candidate: bool,
        materialDelta: bool,
        disagreements: seq<ClaimId>,
        assessments: seq<Assessment>,
        strongest: ClaimId)
    | ChallengeBody(text: string, materialIssue: bool, reopen: seq<ClaimId>)
    | SynthesisBody(text: string)
    | CheckBody(text: string, accurate: bool, corrections: seq<string>, resolved: bool, unresolved: seq<ClaimId>)

  /** The key under which the manifest records a response. Proposals, exchanges and challenges
      are recorded per round; the other kinds once per participant, under round 0. */
  datatype Slot = Slot(kind: Kind, round: nat, participant: Participant)

  /** The file name of a submission: kind, artifact round and participant. */
  datatype Path = Path(kind: Kind, round: nat, participant: Participant)

  predicate PerRound(kind: Kind) {
    kind.Proposal? || kind.Exchange? || kind.Challenge?
  }

  function SlotRound(kind: Kind, round: nat): nat {
    if PerRound(kind) then round else 0
  }

  function Elements<T>(s: seq<T>): set<T> {
    set x | x in s
  }

  predicate NoRepeats<T(==)>(s: seq<T>) {
    forall i, j :: 0 <= i < j < |s| ==> s[i] != s[j]
  }
}
