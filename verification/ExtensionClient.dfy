/** The round extension protocol from client to broker: requests and replies that may be lost, calls
    that are given up and retried, a broker that stops at any write, and requests handled in the
    order they were sent. */
module ExtensionClient {
  import opened AuditLog
  import opened CouncilTypes
  import opened PhaseMachine
  import opened PhaseResults
  import opened BrokerDisk
  import opened PhaseInvariants
  import opened PhaseProgress
  import opened BrokerFacts
  import opened BrokerDecisions
  import opened Broker
  import opened BrokerRuns

  type CallId = nat

  /** What the client keeps of an extension whose result it does not know. */
  datatype PendingExtension = PendingExtension(id: ExtensionId, rounds: nat)

  /** A request for an extension, named after the call that sent it. */
  datatype ExtensionRequest = ExtensionRequest(call: CallId, participant: Participant, rounds: nat, id: ExtensionId)

  datatype Reply = Applied(authorized: nat) | RejectedBeforeCommit | RejectedOtherwise

  datatype Letter = Letter(request: ExtensionRequest, reply: Reply)

  datatype Begun = InvalidRounds | Ambiguous | Sent(call: CallId)

  datatype Received = Confirmed(authorized: nat) | Rejected(dropped: bool) | Unknown

  /** The extension applied under an identity, and the call that got it applied. */
  datatype Applying = Applying(extension: Extension, call: CallId)

  // ----- The rounds that extensions added

  ghost function Total(extensions: map<ExtensionId, Extension>): nat {
    if extensions == map[] then 0 else
      var id :| id in extensions;
      extensions[id].additional + Total(extensions - {id})
  }

  lemma {:induction false} TotalByAny(extensions: map<ExtensionId, Extension>, id: ExtensionId)
    requires id in extensions
    ensures Total(extensions) == extensions[id].additional + Total(extensions - {id})
    decreases |extensions|
  {
    var first :| first in extensions && Total(extensions) == extensions[first].additional + Total(extensions - {first});
    if first != id {
      TotalByAny(extensions - {first}, id);
      TotalByAny(extensions - {id}, first);
      assert extensions - {first} - {id} == extensions - {id} - {first};
    }
  }

  lemma TotalGrows(extensions: map<ExtensionId, Extension>, id: ExtensionId, extension: Extension)
    requires id !in extensions
    ensures Total(extensions[id := extension]) == Total(extensions) + extension.additional
  {
    TotalByAny(extensions[id := extension], id);
    assert extensions[id := extension] - {id} == extensions;
  }

  /** What came on top adds exactly its rounds. */
  lemma {:induction false} TotalOnTop(a: map<ExtensionId, Extension>, b: map<ExtensionId, Extension>)
    requires forall id :: id in a ==> id in b && b[id] == a[id]
    ensures Total(b) == Total(a) + Total(b - a.Keys)
    decreases |b|
  {
    if forall id :: id in b ==> id in a {
      assert a == b && b - a.Keys == map[];
    } else {
      var id :| id in b && id !in a;
      TotalByAny(b, id);
      TotalByAny(b - a.Keys, id);
      TotalOnTop(a, b - {id});
      assert b - {id} - a.Keys == b - a.Keys - {id};
    }
  }

  // ----- What holds between client and broker

  /** One extension as the client means it, through all its calls. */
  datatype Logical = Logical(participant: Participant, rounds: nat)

  /** The client's record, the requests and replies on their way, and what became of each logical
      extension: who applied it, whether the client learned so, and the call on whose rejection it was
      dropped. */
  datatype Dealings = Dealings(
    pending: map<Participant, PendingExtension>,
    line: seq<ExtensionRequest>,
    replies: map<CallId, Letter>,
    issued: map<ExtensionId, Logical>,
    latest: map<ExtensionId, CallId>,
    applied: map<ExtensionId, Applying>,
    acknowledged: set<ExtensionId>,
    dropped: map<ExtensionId, CallId>,
    supply: CallId)

  const NO_DEALINGS := Dealings(map[], [], map[], map[], map[], map[], {}, map[], 0)

  /** A request is one of the calls of its logical extension. */
  ghost predicate Proper(x: Dealings, r: ExtensionRequest) {
    && r.id in x.issued && x.issued[r.id] == Logical(r.participant, r.rounds)
    && r.id in x.latest && r.call <= x.latest[r.id] < x.supply
  }

  /** Requests wait in the order they were sent; what was handled was sent before them. */
  ghost predicate InOrder(x: Dealings) {
    && (forall k :: 0 <= k < |x.line| ==> Proper(x, x.line[k]))
    && (forall j, k :: 0 <= j < k < |x.line| ==> x.line[j].call < x.line[k].call)
    && (forall c, k :: c in x.replies && 0 <= k < |x.line| ==> c < x.line[k].call)
    && (forall id, k :: id in x.applied && 0 <= k < |x.line| ==> x.applied[id].call < x.line[k].call)
  }

  /** No logical extension is forgotten: it is pending, or the client knows its end. */
  ghost predicate Remembered(x: Dealings) {
    && (forall p :: p in x.pending ==>
          var id := x.pending[p].id;
          && id in x.issued && x.issued[id] == Logical(p, x.pending[p].rounds)
          && id !in x.acknowledged && id !in x.dropped)
    && (forall id :: id in x.issued ==>
          || id in x.acknowledged || id in x.dropped
          || (x.issued[id].participant in x.pending && x.pending[x.issued[id].participant].id == id))
    && x.issued.Keys == x.latest.Keys && x.dropped.Keys <= x.issued.Keys
    && (forall id :: id in x.latest ==> x.latest[id] < x.supply)
  }

  /** An applied extension is a logical one, applied by one of its calls for its rounds. */
  ghost predicate AppliedRight(x: Dealings) {
    && (forall id :: id in x.applied ==>
          && id in x.issued && id in x.latest && x.applied[id].call <= x.latest[id]
          && x.applied[id].extension.participant == x.issued[id].participant
          && x.applied[id].extension.additional == x.issued[id].rounds)
    && (forall id :: id in x.acknowledged ==> id in x.applied)
  }

  /** A reply tells what the broker did: the rounds it applied, or that no call up to this one was
      applied. */
  ghost predicate RepliesTrue(x: Dealings) {
    forall c :: c in x.replies ==>
      var l := x.replies[c];
      && l.request.call == c && Proper(x, l.request)
      && (l.reply.Applied? ==> l.request.id in x.applied && x.applied[l.request.id].extension.authorized == l.reply.authorized)
      && (l.reply.RejectedBeforeCommit? && l.request.id in x.applied ==> c < x.applied[l.request.id].call)
  }

  /** Whatever comes of a dropped extension comes of calls later than the rejected one. */
  ghost predicate DroppedBefore(x: Dealings) {
    forall id :: id in x.dropped ==>
      && x.dropped[id] < x.supply && (id in x.applied ==> x.dropped[id] < x.applied[id].call)
      && forall k :: 0 <= k < |x.line| ==> x.dropped[id] < x.line[k].call
  }

  /** The broker's manifest holds the applied extensions, and its authorized rounds are the rounds the
      dialogue started with and those of each applied extension, once. */
  ghost predicate Accounted(applied: map<ExtensionId, Applying>, d: Disk, floor: nat) {
    if d.manifest.None? then !d.tombstone ==> applied == map[] else
      var dialogue := d.manifest.value.dialogue;
      && dialogue.extensions == (map id | id in applied :: applied[id].extension)
      && dialogue.authorized == floor + Total(dialogue.extensions)
  }

  /** What a moment of a run shows: the dealings, the dialogue, the rounds it started with, and whether
      it is gone for good. */
  datatype Instant = Instant(dealings: Dealings, dialogue: Option<Dialogue>, start: nat, ended: bool)

  /** The applied extensions are the dialogue's, and its authorized rounds are those it started with
      and those of each applied extension, once. */
  ghost predicate Right(i: Instant) {
    && Fair(i.dealings) && (i.ended ==> i.dialogue.None?)
    && (i.dialogue.Some? ==>
          && i.dialogue.value.extensions == (map id | id in i.dealings.applied :: i.dealings.applied[id].extension)
          && i.dialogue.value.authorized == i.start + Total(i.dialogue.value.extensions))
  }

  /** A later moment of the same run: nothing is taken back, and a dialogue keeps the rounds it started
      with until it is gone. */
  ghost predicate GoesOn(a: Instant, b: Instant) {
    && Continues(a.dealings, b.dealings)
    && (a.dialogue.Some? ==> b.ended || (b.dialogue.Some? && b.start == a.start))
    && (a.ended ==> b.ended)
  }

  predicate Leaf(x: Dealings, n: int) { true }

  ghost predicate Fair(x: Dealings) {
    forall n {:trigger Leaf(x, n)} :: Leaf(x, n) ==>
      InOrder(x) && Remembered(x) && AppliedRight(x) && RepliesTrue(x) && DroppedBefore(x)
  }

  lemma Sealed(x: Dealings)
    requires InOrder(x) && Remembered(x) && AppliedRight(x) && RepliesTrue(x) && DroppedBefore(x)
    ensures Fair(x)
  {
  }

  /** What no step takes back. */
  ghost predicate Continues(x: Dealings, y: Dealings) {
    && (forall id :: id in x.issued ==> id in y.issued && y.issued[id] == x.issued[id])
    && (forall id :: id in x.applied ==> id in y.applied && y.applied[id] == x.applied[id])
    && x.acknowledged <= y.acknowledged
    && (forall id :: id in x.dropped ==> id in y.dropped && y.dropped[id] == x.dropped[id] && LatestStays(x, y, id))
  }

  /** A dropped extension is called no more. */
  ghost predicate LatestStays(x: Dealings, y: Dealings, id: ExtensionId) {
    id in x.latest ==> id in y.latest && y.latest[id] == x.latest[id]
  }

  // ----- The steps

  ghost predicate Sends(x: Dealings, y: Dealings, r: ExtensionRequest) {
    && r.call == x.supply
    && (if r.participant in x.pending then
          x.pending[r.participant] == PendingExtension(r.id, r.rounds) && y.pending == x.pending && y.issued == x.issued
        else && r.id !in x.issued && y.pending == x.pending[r.participant := PendingExtension(r.id, r.rounds)]
             && y.issued == x.issued[r.id := Logical(r.participant, r.rounds)])
    && y == x.(pending := y.pending, issued := y.issued, line := x.line + [r], latest := x.latest[r.id := r.call], supply := r.call + 1)
  }

  /** Whatever happened so far, happened to calls below the supply. */
  ghost predicate BelowSupply(x: Dealings) {
    && (forall c :: c in x.replies ==> c < x.supply)
    && (forall id :: id in x.applied ==> x.applied[id].call < x.supply)
  }

  lemma AllBelowSupply(x: Dealings)
    requires Remembered(x) && AppliedRight(x) && RepliesTrue(x)
    ensures BelowSupply(x)
  {
  }

  lemma SentInOrder(x: Dealings, y: Dealings, r: ExtensionRequest)
    requires InOrder(x) && BelowSupply(x) && Remembered(x) && Sends(x, y, r)
    ensures InOrder(y)
  {
    assert forall k :: 0 <= k < |x.line| ==> Proper(x, x.line[k]);
  }

  lemma SentRemembered(x: Dealings, y: Dealings, r: ExtensionRequest)
    requires Remembered(x) && x.acknowledged <= x.issued.Keys && Sends(x, y, r)
    ensures Remembered(y)
  {
  }

  lemma SentApplied(x: Dealings, y: Dealings, r: ExtensionRequest)
    requires Remembered(x) && AppliedRight(x) && Sends(x, y, r)
    ensures AppliedRight(y)
  {
  }

  lemma SentReplies(x: Dealings, y: Dealings, r: ExtensionRequest)
    requires Remembered(x) && RepliesTrue(x) && Sends(x, y, r)
    ensures RepliesTrue(y)
  {
  }

  lemma SentDropped(x: Dealings, y: Dealings, r: ExtensionRequest)
    requires Remembered(x) && DroppedBefore(x) && Sends(x, y, r)
    ensures DroppedBefore(y) && Continues(x, y)
  {
  }

  lemma RequestSent(x: Dealings, y: Dealings, r: ExtensionRequest)
    requires Fair(x) && Sends(x, y, r)
    ensures Fair(y) && Continues(x, y)
  {
    assert Leaf(x, 0);
    AllBelowSupply(x);
    SentInOrder(x, y, r);
    SentRemembered(x, y, r);
    SentApplied(x, y, r);
    SentReplies(x, y, r);
    SentDropped(x, y, r);
    Sealed(y);
  }

  lemma LostInOrder(x: Dealings, y: Dealings, k: nat)
    requires InOrder(x) && k < |x.line| && y == x.(line := x.line[..k] + x.line[k + 1..])
    ensures InOrder(y)
  {
  }

  lemma RequestLost(x: Dealings, y: Dealings, k: nat)
    requires Fair(x) && k < |x.line| && y == x.(line := x.line[..k] + x.line[k + 1..])
    ensures Fair(y) && Continues(x, y)
  {
    assert Leaf(x, 0);
    LostInOrder(x, y, k);
    Sealed(y);
  }

  ghost function AppliedAfter(applied: map<ExtensionId, Applying>, r: ExtensionRequest, extension: Option<Extension>): map<ExtensionId, Applying> {
    if extension.Some? then applied[r.id := Applying(extension.value, r.call)] else applied
  }

  ghost predicate Handles(x: Dealings, y: Dealings, reply: Option<Reply>, applied: Option<Extension>) {
    && x.line != []
    && var r := x.line[0];
    && y == x.(line := x.line[1..], replies := y.replies, applied := y.applied)
    && y.replies == (if reply.Some? then x.replies[r.call := Letter(r, reply.value)] else x.replies)
    && y.applied == AppliedAfter(x.applied, r, applied)
    && (applied.Some? ==> r.id !in x.applied && applied.value.participant == r.participant && applied.value.additional == r.rounds)
    && (reply.Some? && reply.value.Applied? ==> r.id in y.applied && y.applied[r.id].extension.authorized == reply.value.authorized)
    && (reply.Some? && reply.value.RejectedBeforeCommit? ==> r.id !in y.applied)
  }

  lemma HandledInOrder(x: Dealings, y: Dealings, reply: Option<Reply>, applied: Option<Extension>)
    requires InOrder(x) && Handles(x, y, reply, applied)
    ensures InOrder(y)
  {
  }

  lemma HandledReplies(x: Dealings, y: Dealings, reply: Option<Reply>, applied: Option<Extension>)
    requires InOrder(x) && RepliesTrue(x) && Handles(x, y, reply, applied)
    ensures RepliesTrue(y)
  {
    assert Proper(x, x.line[0]);
  }

  lemma HandledApplied(x: Dealings, y: Dealings, reply: Option<Reply>, applied: Option<Extension>)
    requires AppliedRight(x) && Handles(x, y, reply, applied) && Proper(x, x.line[0])
    ensures AppliedRight(y)
  {
  }

  lemma HandledDropped(x: Dealings, y: Dealings, reply: Option<Reply>, applied: Option<Extension>)
    requires DroppedBefore(x) && Handles(x, y, reply, applied)
    ensures DroppedBefore(y) && Continues(x, y)
  {
  }

  lemma RequestHandled(x: Dealings, y: Dealings, reply: Option<Reply>, applied: Option<Extension>)
    requires Fair(x) && Handles(x, y, reply, applied)
    ensures Fair(y) && Continues(x, y)
  {
    assert Leaf(x, 0);
    HandledInOrder(x, y, reply, applied);
    HandledReplies(x, y, reply, applied);
    HandledApplied(x, y, reply, applied);
    HandledDropped(x, y, reply, applied);
    StillRemembered(x, y);
    Sealed(y);
  }

  lemma StillRemembered(x: Dealings, y: Dealings)
    requires Remembered(x) && y.pending == x.pending && y.issued == x.issued && y.latest == x.latest
    requires y.acknowledged == x.acknowledged && y.dropped == x.dropped && y.supply == x.supply
    ensures Remembered(y)
  {
  }

  /** A reply went, and nothing changed in the order of things. */
  ghost predicate OneReplyLess(x: Dealings, y: Dealings, c: CallId) {
    && y.line == x.line && y.issued == x.issued && y.latest == x.latest && y.applied == x.applied && y.supply == x.supply
    && y.replies == x.replies - {c}
  }

  lemma StillInOrder(x: Dealings, y: Dealings, c: CallId)
    requires InOrder(x) && OneReplyLess(x, y, c)
    ensures InOrder(y)
  {
  }

  lemma StillTrue(x: Dealings, y: Dealings, c: CallId)
    requires RepliesTrue(x) && OneReplyLess(x, y, c)
    ensures RepliesTrue(y)
  {
  }

  lemma ReplyGone(x: Dealings, y: Dealings, c: CallId)
    requires Fair(x) && c in x.replies && y == x.(replies := x.replies - {c})
    ensures Fair(y) && Continues(x, y)
  {
    assert Leaf(x, 0);
    StillInOrder(x, y, c);
    StillTrue(x, y, c);
    StillRemembered(x, y);
    Sealed(y);
  }

  /** A call learns of its success: the extension is acknowledged and no longer pending. */
  ghost predicate Learns(x: Dealings, y: Dealings, r: ExtensionRequest) {
    && r.call in x.replies && x.replies[r.call].request == r && x.replies[r.call].reply.Applied?
    && y == x.(replies := x.replies - {r.call}, pending := Cleared(x.pending, r), acknowledged := x.acknowledged + {r.id})
  }

  /** A call learns that it was rejected before the commit: the extension is dropped where pending. */
  ghost predicate Drops(x: Dealings, y: Dealings, r: ExtensionRequest) {
    && r.call in x.replies && x.replies[r.call].request == r && x.replies[r.call].reply.RejectedBeforeCommit?
    && IsPending(x.pending, r)
    && y == x.(replies := x.replies - {r.call}, pending := Cleared(x.pending, r), dropped := x.dropped[r.id := r.call])
  }

  predicate IsPending(pending: map<Participant, PendingExtension>, r: ExtensionRequest) {
    r.participant in pending && pending[r.participant].id == r.id
  }

  function Cleared(pending: map<Participant, PendingExtension>, r: ExtensionRequest): map<Participant, PendingExtension> {
    if IsPending(pending, r) then pending - {r.participant} else pending
  }

  lemma LearnedRemembered(x: Dealings, y: Dealings, r: ExtensionRequest)
    requires Remembered(x) && Proper(x, r) && Learns(x, y, r)
    ensures Remembered(y)
  {
  }

  lemma LearnedApplied(x: Dealings, y: Dealings, r: ExtensionRequest)
    requires AppliedRight(x) && r.id in x.applied && Learns(x, y, r)
    ensures AppliedRight(y)
  {
  }

  lemma SuccessLearned(x: Dealings, y: Dealings, r: ExtensionRequest)
    requires Fair(x) && Learns(x, y, r)
    ensures Fair(y) && Continues(x, y)
  {
    ReplyKnown(x, r.call);
    assert Leaf(x, 0);
    StillInOrder(x, y, r.call);
    StillTrue(x, y, r.call);
    assert Proper(x, r);
    LearnedRemembered(x, y, r);
    LearnedApplied(x, y, r);
    Sealed(y);
  }

  lemma DroppedRemembered(x: Dealings, y: Dealings, r: ExtensionRequest)
    requires Remembered(x) && Drops(x, y, r)
    ensures Remembered(y) && Continues(x, y)
  {
  }

  lemma DroppedBehind(x: Dealings, y: Dealings, r: ExtensionRequest)
    requires DroppedBefore(x) && InOrder(x) && r.call < x.supply && Drops(x, y, r)
    requires r.id in x.applied ==> r.call < x.applied[r.id].call
    ensures DroppedBefore(y)
  {
  }

  lemma ExtensionDropped(x: Dealings, y: Dealings, r: ExtensionRequest)
    requires Fair(x) && Drops(x, y, r)
    ensures Fair(y) && Continues(x, y)
    ensures r.id in x.applied ==> r.call < x.applied[r.id].call
  {
    ReplyKnown(x, r.call);
    assert Leaf(x, 0);
    assert Proper(x, r);
    StillInOrder(x, y, r.call);
    StillTrue(x, y, r.call);
    DroppedRemembered(x, y, r);
    DroppedBehind(x, y, r);
    Sealed(y);
  }

  lemma ReplyKnown(x: Dealings, c: CallId)
    requires Fair(x) && c in x.replies
    ensures
      var l := x.replies[c];
      && l.request.call == c && l.request.id in x.latest
      && (l.reply.Applied? ==>
            && l.request.id in x.applied && x.applied[l.request.id].extension.authorized == l.reply.authorized
            && x.applied[l.request.id].extension.additional == l.request.rounds)
      && (l.reply.RejectedBeforeCommit? && l.request.id in x.applied ==> c < x.applied[l.request.id].call)
  {
    assert Leaf(x, 0);
  }

  // ----- The broker's side

  /** What handling a request does to the applied extensions and the authorized rounds. */
  lemma ExtendingApplies(d: Dialogue, r: ExtensionRequest, transition: TransitionId)
    requires d.participants != []
    ensures
      var verdict := Extend(d, r.participant, r.rounds, r.id, transition);
      var d' := DialogueAfter(d, verdict);
      && (verdict.Extended? ==>
            && r.id !in d.extensions && d'.extensions == d.extensions[r.id := verdict.extension] && d' != d
            && d'.authorized == d.authorized + r.rounds == verdict.extension.authorized
            && verdict.extension.participant == r.participant && verdict.extension.additional == r.rounds)
      && (!verdict.Extended? ==> d' == d)
      && (verdict.Repeated? ==> r.id in d.extensions && d.extensions[r.id] == verdict.extension)
      && (verdict.RefusedBeforeCommit? ==> r.id !in d.extensions)
  {
  }

  /** One request leaves the dialogue as it was, or raises the authorized rounds by its own, under an
      identity that was not applied before. */
  ghost predicate MayExtend(d: Dialogue, d': Dialogue, r: ExtensionRequest) {
    || d' == d
    || (&& r.id !in d.extensions && r.id in d'.extensions && d'.extensions == d.extensions[r.id := d'.extensions[r.id]]
        && d'.extensions[r.id].additional == r.rounds && d'.authorized == d.authorized + r.rounds)
  }

  /** Exactly what the reply is: a success where the extension is applied, now or before with the same rounds; a
      rejection before the commit where it is not and may not be added; and another rejection for a wrong
      participant, no rounds, or other rounds under an applied identity. */
  ghost predicate RepliesRightly(d: Dialogue, r: ExtensionRequest, reply: Reply) {
    && d.participants != []
    && var mayAsk, known := r.rounds >= 1 && r.participant == d.participants[0], r.id in d.extensions;
    && var same := known && d.extensions[r.id].participant == r.participant && d.extensions[r.id].additional == r.rounds;
    && var mayAdd := d.phase in {Collecting(Exchange), Collecting(Synthesis)} && d.authorized + r.rounds <= d.maximum;
    && (reply.Applied? <==> mayAsk && (same || (!known && mayAdd)))
    && (reply.RejectedBeforeCommit? <==> mayAsk && !known && !mayAdd)
    && (reply.Applied? ==> reply.authorized == if known then d.extensions[r.id].authorized else d.authorized + r.rounds)
  }

  /** What comes of a request, and what its reply says. */
  ghost predicate Requested(d: Dialogue, d': Dialogue, r: ExtensionRequest, reply: Option<Reply>, extension: Option<Extension>) {
    && (if extension.Some? then
          && r.id !in d.extensions && extension.value.participant == r.participant && extension.value.additional == r.rounds
          && d'.extensions == d.extensions[r.id := extension.value] && d'.authorized == d.authorized + r.rounds
        else d' == d)
    && (reply.Some? && reply.value.Applied? ==>
          if extension.Some? then extension.value.authorized == reply.value.authorized
          else r.id in d.extensions && d.extensions[r.id].authorized == reply.value.authorized)
    && (reply.Some? && reply.value.RejectedBeforeCommit? ==> extension.None? && r.id !in d.extensions)
    && (reply.Some? && Refuses(d, r) ==> reply == Some(RejectedBeforeCommit))
    && (reply.Some? && Accepts(d, r) ==> extension.Some?)
    && (reply.Some? ==> RepliesRightly(d, r, reply.value))
  }

  lemma RequestedSo(
    d: Dialogue, d': Dialogue, r: ExtensionRequest, transition: TransitionId, o: Outcome, verdict: Option<ExtensionVerdict>)
    returns (extension: Option<Extension>)
    requires d.participants != []
    requires
      var decision := Extend(d, r.participant, r.rounds, r.id, transition);
      if o.Done? then verdict == Some(decision) && d' == DialogueAfter(d, decision) else d' == d || d' == DialogueAfter(d, decision)
    ensures Requested(d, d', r, if o.Done? then Some(ReplyTo(verdict)) else None, extension)
  {
    ExtendingApplies(d, r, transition);
    extension := if d' == d then None else Some(Extend(d, r.participant, r.rounds, r.id, transition).extension);
  }

  predicate Accepts(d: Dialogue, r: ExtensionRequest) {
    d.participants != [] && Extend(d, r.participant, r.rounds, r.id, 0).Extended?
  }

  predicate Refuses(d: Dialogue, r: ExtensionRequest) {
    d.participants != [] && Extend(d, r.participant, r.rounds, r.id, 0).RefusedBeforeCommit?
  }

  /** A broker that is up and stops nowhere stays so, and ends what it does. */
  twostate predicate StaysUp(b: CouncilBroker, o: Outcome)
    reads b
  {
    old(b.Up()) && old(b.plan).Never? ==> o.Done? && b.Up() && b.plan.Never?
  }

  lemma ExtensionAccounted(applied: map<ExtensionId, Applying>, before: Disk, after: Disk, floor: nat, r: ExtensionRequest, extension: Extension)
    requires Accounted(applied, before, floor) && before.manifest.Some? && after.manifest.Some? && r.id !in applied
    requires
      var d, d' := before.manifest.value.dialogue, after.manifest.value.dialogue;
      d'.extensions == d.extensions[r.id := extension] && d'.authorized == d.authorized + extension.additional
    ensures Accounted(AppliedAfter(applied, r, Some(extension)), after, floor)
  {
    TotalGrows(before.manifest.value.dialogue.extensions, r.id, extension);
  }

  lemma StillAccounted(applied: map<ExtensionId, Applying>, before: Disk, after: Disk, floor: nat) returns (floor': nat)
    requires Accounted(applied, before, floor)
    requires SameExtensions(before.manifest, after.manifest) && DiskGrown(before, after)
    ensures Accounted(applied, after, floor') && (before.manifest.Some? ==> floor' == floor)
    ensures before.manifest.None? && after.manifest.Some? ==> floor' == after.manifest.value.dialogue.authorized
  {
    floor' := if before.manifest.None? && after.manifest.Some? then after.manifest.value.dialogue.authorized else floor;
  }

  // ----- Client, line and broker

  class ExtensionLine {
    const broker: CouncilBroker
    var pending: map<Participant, PendingExtension>
    var line: seq<ExtensionRequest>
    var replies: map<CallId, Letter>
    var supply: CallId
    /** The identities given out, which a fresh one is none of. */
    var issued: map<ExtensionId, Logical>
    ghost var latest: map<ExtensionId, CallId>
    ghost var applied: map<ExtensionId, Applying>
    ghost var acknowledged: set<ExtensionId>
    ghost var dropped: map<ExtensionId, CallId>
    ghost var floor: nat

    ghost function Now(): Dealings
      reads this
    {
      Dealings(pending, line, replies, issued, latest, applied, acknowledged, dropped, supply)
    }

    ghost function Here(): Instant
      reads this, broker
    {
      Instant(Now(), if broker.disk.manifest.Some? then Some(broker.disk.manifest.value.dialogue) else None, floor,
              broker.disk.manifest.None? && broker.disk.tombstone)
    }

    ghost predicate Valid()
      reads this, broker
    {
      broker.Valid() && Fair(Now()) && Accounted(applied, broker.disk, floor)
    }

    constructor (codec: Codec<Entry>)
      requires Faithful(codec)
      ensures Valid() && fresh(broker) && Here() == Instant(NO_DEALINGS, None, 0, false)
      ensures broker.disk == EMPTY_DISK && broker.overlong.None?
    {
      broker := new CouncilBroker(codec);
      pending, line, replies, supply, issued, latest, applied := map[], [], map[], 0, map[], map[], map[];
      acknowledged, dropped, floor := {}, map[], 0;
    }

    /** The pending extension's request is put on the line, or a new extension becomes pending with it. */
    method Send(p: Participant, rounds: nat, newId: ExtensionId) returns (call: CallId)
      requires Fair(Now()) && newId !in issued && (p in pending ==> pending[p].rounds == rounds)
      modifies this`pending, this`issued, this`latest, this`line, this`supply
      ensures Fair(Now()) && Continues(old(Now()), Now()) && call == old(supply)
      ensures pending == if p in old(pending) then old(pending) else old(pending)[p := PendingExtension(newId, rounds)]
      ensures issued == if p in old(pending) then old(issued) else old(issued)[newId := Logical(p, rounds)]
      ensures line == old(line) + [ExtensionRequest(call, p, rounds, pending[p].id)]
    {
      if p !in pending {
        pending := pending[p := PendingExtension(newId, rounds)];
        issued := issued[newId := Logical(p, rounds)];
      }
      var r := ExtensionRequest(supply, p, rounds, pending[p].id);
      latest := latest[r.id := r.call];
      line := line + [r];
      supply := supply + 1;
      RequestSent(old(Now()), Now(), r);
      return r.call;
    }

    /** A tool call: it sends a request under the identity of the extension that is pending, or under
        a new one. */
    method Call(p: Participant, rounds: int, newId: ExtensionId) returns (begun: Begun)
      requires Valid() && newId !in issued
      modifies this`pending, this`issued, this`latest, this`line, this`supply
      ensures Valid() && Continues(old(Now()), Now())
      ensures begun.InvalidRounds? <==> !(1 <= rounds <= MAX_COUNCIL_ROUNDS)
      ensures begun.Ambiguous? <==> 1 <= rounds <= MAX_COUNCIL_ROUNDS && p in old(pending) && old(pending)[p].rounds != rounds
      ensures !begun.Sent? ==> Now() == old(Now())
      ensures begun.Sent? ==>
        && begun.call == old(supply) && rounds >= 0
        && pending == (if p in old(pending) then old(pending) else old(pending)[p := PendingExtension(newId, rounds)])
        && issued == (if p in old(pending) then old(issued) else old(issued)[newId := Logical(p, rounds)])
        && line == old(line) + [ExtensionRequest(begun.call, p, rounds, pending[p].id)]
    {
      if !(1 <= rounds <= MAX_COUNCIL_ROUNDS) {
        return InvalidRounds;
      }
      if p in pending && pending[p].rounds != rounds {
        return Ambiguous;
      }
      var call := Send(p, rounds, newId);
      return Sent(call);
    }

    /** A request is lost on its way. */
    method LoseRequest(k: nat)
      requires Valid() && k < |line|
      modifies this`line
      ensures Valid() && Continues(old(Now()), Now()) && line == old(line)[..k] + old(line)[k + 1..]
    {
      line := line[..k] + line[k + 1..];
      RequestLost(old(Now()), Now(), k);
    }

    /** A reply is lost on its way, or its call was given up. */
    method LoseReply(c: CallId)
      requires Valid() && c in replies
      modifies this`replies
      ensures Valid() && Continues(old(Now()), Now()) && replies == old(replies) - {c}
    {
      replies := replies - {c};
      ReplyGone(old(Now()), Now(), c);
    }

    /** The broker's part: its decision, and what became of its manifest. */
    method Ask(r: ExtensionRequest) returns (o: Outcome, reply: Option<Reply>, ghost extension: Option<Extension>)
      requires broker.Valid() && Accounted(applied, broker.disk, floor)
      modifies broker
      ensures broker.Valid() && o.Done? == reply.Some? && old(broker.disk.manifest).Some? == broker.disk.manifest.Some?
      ensures old(broker.disk.manifest).Some? ==>
        MayExtend(old(broker.disk.manifest.value.dialogue), broker.disk.manifest.value.dialogue, r)
      ensures DiskGrown(old(broker.disk), broker.disk) && StaysUp(broker, o)
      ensures o.Done? && old(broker.disk.manifest).Some? && Refuses(old(broker.disk.manifest.value.dialogue), r) ==>
        && reply == Some(RejectedBeforeCommit) && extension.None?
        && broker.disk.manifest.value.dialogue == old(broker.disk.manifest.value.dialogue)
      ensures o.Done? && broker.disk.manifest.Some? && Accepts(old(broker.disk.manifest.value.dialogue), r) ==> extension.Some?
      ensures o.Done? && old(broker.disk.manifest).Some? ==> RepliesRightly(old(broker.disk.manifest.value.dialogue), r, reply.value)
      ensures extension.Some? ==>
        && r.id !in applied && extension.value.participant == r.participant && extension.value.additional == r.rounds
      ensures Accounted(AppliedAfter(applied, r, extension), broker.disk, floor)
      ensures reply.Some? && reply.value.Applied? ==>
        if extension.Some? then extension.value.authorized == reply.value.authorized
        else r.id in applied && applied[r.id].extension.authorized == reply.value.authorized
      ensures reply.Some? && reply.value.RejectedBeforeCommit? ==> extension.None? && r.id !in applied
    {
      ghost var before := broker.disk;
      o, reply, extension := Request(r);
      if extension.Some? {
        ExtensionAccounted(applied, before, broker.disk, floor, r, extension.value);
      }
    }

    /** The broker handles a request, or stops in it. */
    method Request(r: ExtensionRequest) returns (o: Outcome, reply: Option<Reply>, ghost extension: Option<Extension>)
      requires broker.Valid()
      modifies broker
      ensures broker.Valid() && o.Done? == reply.Some? && old(broker.disk.manifest).Some? == broker.disk.manifest.Some?
      ensures DiskGrown(old(broker.disk), broker.disk) && StaysUp(broker, o)
      ensures
        if old(broker.disk.manifest).Some?
        then Requested(old(broker.disk.manifest.value.dialogue), broker.disk.manifest.value.dialogue, r, reply, extension)
        else extension.None? && (reply.Some? ==> reply.value.RejectedOtherwise?)
    {
      ghost var before, was, moment := broker.disk, broker.history, Moment(broker.disk, broker.past);
      var verdict;
      ghost var transition;
      o, verdict, transition := broker.ExtendRounds(r.participant, r.rounds, r.id);
      RunGrows(broker.history, broker.supply, was, moment);
      reply := if o.Stopped? then None else Some(ReplyTo(verdict));
      extension := None;
      if before.manifest.Some? {
        ghost var gained := RequestedSo(before.manifest.value.dialogue, broker.disk.manifest.value.dialogue, r, transition, o, verdict);
        extension := gained;
      }
    }

    /** What came of the first request is on its way back, and applied when the broker applied it. */
    method Answer(reply: Option<Reply>, ghost extension: Option<Extension>)
      requires Fair(Now()) && line != []
      requires extension.Some? ==>
        line[0].id !in applied && extension.value.participant == line[0].participant && extension.value.additional == line[0].rounds
      requires reply.Some? && reply.value.Applied? ==>
        if extension.Some? then extension.value.authorized == reply.value.authorized
        else line[0].id in applied && applied[line[0].id].extension.authorized == reply.value.authorized
      requires reply.Some? && reply.value.RejectedBeforeCommit? ==> extension.None? && line[0].id !in applied
      modifies this`line, this`replies, this`applied
      ensures Fair(Now()) && Continues(old(Now()), Now()) && line == old(line)[1..]
      ensures replies == if reply.Some? then old(replies)[old(line)[0].call := Letter(old(line)[0], reply.value)] else old(replies)
      ensures applied == AppliedAfter(old(applied), old(line)[0], extension)
    {
      var r := line[0];
      line := line[1..];
      if reply.Some? {
        replies := replies[r.call := Letter(r, reply.value)];
      }
      applied := AppliedAfter(applied, r, extension);
      RequestHandled(old(Now()), Now(), reply, extension);
    }

    /** The broker handles the request sent first. It answers unless it stops; it may have stopped
        behind its commit. */
    method Handle() returns (o: Outcome)
      requires Valid() && line != []
      modifies this`line, this`replies, this`applied, broker
      ensures Valid() && GoesOn(old(Here()), Here()) && line == old(line)[1..]
      ensures old(broker.disk.manifest).None? ==> broker.disk.manifest.None?
      ensures o.Done? && old(broker.disk.manifest).Some? && Accepts(old(broker.disk.manifest.value.dialogue), old(line)[0]) ==>
        old(line)[0].id in applied && pending == old(pending)
      ensures old(broker.disk.manifest).Some? && broker.disk.manifest.Some? ==>
        MayExtend(old(broker.disk.manifest.value.dialogue), broker.disk.manifest.value.dialogue, old(line)[0])
      ensures StaysUp(broker, o)
      ensures o.Done? && old(broker.disk.manifest).Some? && Refuses(old(broker.disk.manifest.value.dialogue), old(line)[0]) ==>
        && old(line)[0].call in replies && replies[old(line)[0].call] == Letter(old(line)[0], RejectedBeforeCommit)
        && applied == old(applied)
        && broker.disk.manifest.Some? && broker.disk.manifest.value.dialogue == old(broker.disk.manifest.value.dialogue)
      ensures forall id :: id in applied && id !in old(applied) ==> id == old(line)[0].id && applied[id].call == old(line)[0].call
      ensures o.Stopped? ==> replies == old(replies)
      ensures o.Done? ==> old(line)[0].call in replies && replies == old(replies)[old(line)[0].call := replies[old(line)[0].call]]
      ensures o.Done? && old(broker.disk.manifest).Some? ==>
        RepliesRightly(old(broker.disk.manifest.value.dialogue), old(line)[0], replies[old(line)[0].call].reply)
    {
      var reply;
      ghost var extension;
      o, reply, extension := Ask(line[0]);
      Answer(reply, extension);
    }

    /** A call gets its reply. A success ends the extension, and so does a rejection before commit; any
        other rejection leaves it pending. */
    method Receive(c: CallId) returns (received: Received)
      requires Valid() && c in replies
      modifies this`replies, this`pending, this`acknowledged, this`dropped
      ensures Valid() && Continues(old(Now()), Now()) && replies == old(replies) - {c} && line == old(line)
      ensures
        var r := old(replies)[c].request;
        match old(replies)[c].reply
        case Applied(n) =>
          && received == Confirmed(n) && pending == Cleared(old(pending), r) && r.id in acknowledged
          && r.id in applied && applied[r.id].extension.additional == r.rounds && applied[r.id].extension.authorized == n
        case RejectedBeforeCommit =>
          && received == Rejected(IsPending(old(pending), r)) && pending == Cleared(old(pending), r)
          && (r.id in applied ==> c < applied[r.id].call)
          && (received.dropped ==> r.id in dropped && dropped[r.id] == c)
        case RejectedOtherwise => received == Unknown && pending == old(pending)
    {
      var r, reply := replies[c].request, replies[c].reply;
      ReplyKnown(Now(), c);
      replies := replies - {c};
      match reply
      case Applied(n) =>
        pending := Cleared(pending, r);
        acknowledged := acknowledged + {r.id};
        SuccessLearned(old(Now()), Now(), r);
        received := Confirmed(n);
      case RejectedBeforeCommit =>
        received := Rejected(IsPending(pending, r));
        if IsPending(pending, r) {
          dropped := dropped[r.id := c];
          pending := Cleared(pending, r);
          ExtensionDropped(old(Now()), Now(), r);
        } else {
          ReplyGone(old(Now()), Now(), c);
        }
      case RejectedOtherwise =>
        received := Unknown;
        ReplyGone(old(Now()), Now(), c);
    }

    /** Anything else the broker does: other operations, stops and restarts. */
    method Elsewhere(operation: Operation) returns (o: Outcome)
      requires Valid() && !operation.ExtendDialogue?
      modifies this`floor, broker
      ensures Valid() && Now() == old(Now()) && GoesOn(old(Here()), Here())
      ensures old(broker.disk.manifest).None? && broker.disk.manifest.Some? ==>
        operation.StartDialogue? && floor == operation.rounds
      ensures o.Done? ==> Comes(broker, operation)
      ensures !operation.RestartBroker? && !operation.ResumeBroker? ==> StaysUp(broker, o)
      ensures operation.RestartBroker? && operation.plan.Never? && old(broker.overlong).None? ==> o.Done?
    {
      ghost var before := broker.disk;
      o := Other(operation);
      ghost var next := StillAccounted(applied, before, broker.disk, floor);
      floor := next;
    }

    method Other(operation: Operation) returns (o: Outcome)
      requires broker.Valid() && !operation.ExtendDialogue?
      modifies broker
      ensures broker.Valid() && DiskGrown(old(broker.disk), broker.disk) && SameExtensions(old(broker.disk.manifest), broker.disk.manifest)
      ensures old(broker.disk.manifest).None? && broker.disk.manifest.Some? ==>
        operation.StartDialogue? && broker.disk.manifest.value.dialogue.authorized == operation.rounds
      ensures o.Done? ==> Comes(broker, operation)
      ensures !operation.RestartBroker? && !operation.ResumeBroker? ==> StaysUp(broker, o)
      ensures operation.RestartBroker? && operation.plan.Never? && old(broker.overlong).None? ==> o.Done?
    {
      ghost var was, moment := broker.history, Moment(broker.disk, broker.past);
      var accepted;
      o, accepted := Perform(broker, operation);
      RunGrows(broker.history, broker.supply, was, moment);
    }
  }

  function ReplyTo(verdict: Option<ExtensionVerdict>): Reply {
    if verdict.None? then RejectedOtherwise else
      match verdict.value
      case Extended(_, extension) => Applied(extension.authorized)
      case Repeated(extension) => Applied(extension.authorized)
      case RefusedBeforeCommit => RejectedBeforeCommit
      case RefusedOutright => RejectedOtherwise
  }

  // ----- Whole runs

  datatype Step =
    | CallStep(p: Participant, rounds: int, newId: ExtensionId)
    | LoseRequestStep(k: nat)
    | HandleStep
    | LoseReplyStep(c: CallId)
    | ReceiveStep(c: CallId)
    | BrokerStep(operation: Operation)

  method Take(l: ExtensionLine, step: Step)
    requires l.Valid()
    modifies l, l.broker
    ensures l.Valid() && GoesOn(old(l.Here()), l.Here()) && Does(old(l.Here()), step, l.Here())
  {
    match step
    case HandleStep =>
      if l.line != [] {
        var _ := l.Handle();
      }
    case BrokerStep(operation) =>
      if !operation.ExtendDialogue? {
        var _ := l.Elsewhere(operation);
      }
    case _ => TakeOnLine(l, step);
  }

  /** What happens without the broker: a call, a loss, a reply received. */
  method TakeOnLine(l: ExtensionLine, step: Step)
    requires l.Valid() && !step.HandleStep? && !step.BrokerStep?
    modifies l, l.broker
    ensures l.Valid() && GoesOn(old(l.Here()), l.Here()) && Does(old(l.Here()), step, l.Here())
  {
    match step
    case CallStep(p, rounds, newId) =>
      if newId !in l.issued {
        var _ := l.Call(p, rounds, newId);
      }
    case LoseRequestStep(k) =>
      if k < |l.line| {
        l.LoseRequest(k);
      }
    case LoseReplyStep(c) =>
      if c in l.replies {
        l.LoseReply(c);
      }
    case ReceiveStep(c) =>
      if c in l.replies {
        var _ := l.Receive(c);
      }
    case _ =>
  }

  /** The step is the handling of a request for the extension, and applies it. */
  ghost predicate AppliedBy(x: Dealings, step: Step, y: Dealings, id: ExtensionId) {
    && step.HandleStep? && x.line != [] && x.line[0].id == id && id !in x.applied
    && id in y.applied && y.applied[id].call == x.line[0].call
  }

  /** Whatever is newly applied, the step applied. */
  ghost predicate AppliesOnly(x: Dealings, step: Step, y: Dealings) {
    forall id :: id in y.applied && id !in x.applied ==> AppliedBy(x, step, y, id)
  }

  predicate Recalling(history: seq<Instant>, n: int) { true }

  /** Every moment of a run is right and later than the ones before; a dialogue starts with the rounds
      given to its start. */
  ghost predicate Dealt(history: seq<Instant>, steps: seq<Step>) {
    && |history| == |steps| + 1
    && forall n {:trigger Recalling(history, n)} :: Recalling(history, n) ==>
         && history[0] == Instant(NO_DEALINGS, None, 0, false)
         && (forall k :: 0 <= k < |history| ==> Right(history[k]))
         && (forall k, m :: 0 <= k <= m < |history| ==> GoesOn(history[k], history[m]))
         && (forall k :: 0 < k < |history| ==> Does(history[k - 1], steps[k - 1], history[k]))
  }

  /** Only a step of its kind starts a dialogue or applies an extension. */
  ghost predicate Does(a: Instant, step: Step, b: Instant) {
    && AppliesOnly(a.dealings, step, b.dealings)
    && (a.dialogue.None? && b.dialogue.Some? ==>
          step.BrokerStep? && step.operation.StartDialogue? && b.start == step.operation.rounds)
  }

  lemma DealtGoesOn(history: seq<Instant>, steps: seq<Step>, step: Step, next: Instant)
    requires Dealt(history, steps) && Right(next) && GoesOn(history[|steps|], next) && Does(history[|steps|], step, next)
    ensures Dealt(history + [next], steps + [step])
  {
    assert Recalling(history, 0);
    RightGoesOn(history, next, history + [next]);
    LaterGoesOn(history, next, history + [next]);
    DoingGoesOn(history, steps, step, next, history + [next], steps + [step]);
  }

  lemma RightGoesOn(history: seq<Instant>, next: Instant, more: seq<Instant>)
    requires Right(next) && more == history + [next] && forall k :: 0 <= k < |history| ==> Right(history[k])
    ensures forall k :: 0 <= k < |more| ==> Right(more[k])
  {
  }

  lemma LaterGoesOn(history: seq<Instant>, next: Instant, more: seq<Instant>)
    requires history != [] && more == history + [next] && GoesOn(history[|history| - 1], next)
    requires forall k, m :: 0 <= k <= m < |history| ==> GoesOn(history[k], history[m])
    ensures forall k, m :: 0 <= k <= m < |more| ==> GoesOn(more[k], more[m])
  {
    forall k | 0 <= k < |history| ensures GoesOn(history[k], next) {
      LaterStill(history[k], history[|history| - 1], next);
    }
    NothingHappens(next);
  }

  lemma DoingGoesOn(history: seq<Instant>, steps: seq<Step>, step: Step, next: Instant, more: seq<Instant>, steps': seq<Step>)
    requires |history| == |steps| + 1 && more == history + [next] && steps' == steps + [step] && Does(history[|steps|], step, next)
    requires forall k :: 0 < k < |history| ==> Does(history[k - 1], steps[k - 1], history[k])
    ensures forall k :: 0 < k < |more| ==> Does(more[k - 1], steps'[k - 1], more[k])
  {
    forall k | 0 < k < |more| ensures Does(more[k - 1], steps'[k - 1], more[k]) {
      assert more[k - 1] == history[k - 1];
    }
  }

  lemma LaterStill(a: Instant, b: Instant, c: Instant)
    requires GoesOn(a, b) && GoesOn(b, c)
    ensures GoesOn(a, c)
  {
  }

  lemma NothingHappens(a: Instant)
    ensures GoesOn(a, a)
  {
  }

  method Run(codec: Codec<Entry>, steps: seq<Step>) returns (l: ExtensionLine, ghost history: seq<Instant>)
    requires Faithful(codec)
    ensures fresh(l) && fresh(l.broker) && l.Valid()
    ensures Dealt(history, steps) && history[|steps|] == l.Here()
  {
    l := new ExtensionLine(codec);
    history := [l.Here()];
    for k := 0 to |steps|
      invariant fresh(l) && fresh(l.broker) && l.Valid()
      invariant Dealt(history, steps[..k]) && history[k] == l.Here()
    {
      Take(l, steps[k]);
      DealtGoesOn(history, steps[..k], steps[k], l.Here());
      assert steps[..k + 1] == steps[..k] + [steps[k]];
      history := history + [l.Here()];
    }
    assert steps[..|steps|] == steps;
  }

  /** Between two moments of a run the authorized rounds grow by exactly the rounds of the extensions
      applied in between, each of them once. What is applied is a logical extension with the rounds it
      asked for; one that was acknowledged is applied, one that was dropped on its latest call is not. */
  lemma ExtensionsCountOnce(history: seq<Instant>, steps: seq<Step>, k: nat, n: nat)
    requires Dealt(history, steps) && k <= n < |history| && history[k].dialogue.Some? && history[n].dialogue.Some?
    ensures
      var a, b, x := history[k].dialogue.value, history[n].dialogue.value, history[n].dealings;
      && (forall id :: id in a.extensions ==> id in b.extensions && b.extensions[id] == a.extensions[id])
      && b.authorized - a.authorized == Total(b.extensions - a.extensions.Keys)
      && (forall id :: id in b.extensions ==>
            id in x.issued && x.issued[id] == Logical(b.extensions[id].participant, b.extensions[id].additional))
      && x.acknowledged <= b.extensions.Keys && (forall id :: id in x.dropped && id in x.latest && x.latest[id] == x.dropped[id] ==> id !in b.extensions)
      && (forall id :: id in x.acknowledged && id !in history[k].dealings.applied ==> id in b.extensions - a.extensions.Keys)
  {
    assert Recalling(history, 0);
    var a, b := history[k].dialogue.value, history[n].dialogue.value;
    assert GoesOn(history[k], history[n]) && Right(history[k]) && Right(history[n]);
    assert Leaf(history[n].dealings, 0);
    assert forall id :: id in b.extensions ==> b.extensions[id] == history[n].dealings.applied[id].extension;
    TotalOnTop(a.extensions, b.extensions);
  }

  /** A dialogue has the rounds given to its start and those of its extensions, each once. */
  lemma {:induction false} AuthorizedFromStart(history: seq<Instant>, steps: seq<Step>, n: nat) returns (k: nat)
    requires Dealt(history, steps) && n < |history| && history[n].dialogue.Some?
    ensures k < n && steps[k].BrokerStep? && steps[k].operation.StartDialogue?
    ensures history[n].dialogue.value.authorized == steps[k].operation.rounds + Total(history[n].dialogue.value.extensions)
    decreases n
  {
    assert Recalling(history, 0);
    assert Right(history[n]);
    assert GoesOn(history[n - 1], history[n]) && Does(history[n - 1], steps[n - 1], history[n]);
    if history[n - 1].dialogue.Some? {
      k := AuthorizedFromStart(history, steps, n - 1);
      assert Right(history[n - 1]);
    } else {
      k := n - 1;
    }
  }

  /** An applied extension was applied at one moment, by the call it is said to be applied by. */
  lemma {:induction false} ApplyingMoment(history: seq<Instant>, steps: seq<Step>, n: nat, id: ExtensionId) returns (m: nat)
    requires Dealt(history, steps) && n < |history| && id in history[n].dealings.applied
    ensures m < n && AppliedBy(history[m].dealings, steps[m], history[m + 1].dealings, id)
    ensures history[m].dealings.line[0].call == history[n].dealings.applied[id].call
    decreases n
  {
    assert Recalling(history, 0);
    var k := n - 1;
    assert GoesOn(history[k], history[n]);
    if id in history[k].dealings.applied {
      m := ApplyingMoment(history, steps, k, id);
    } else {
      m := k;
      assert Does(history[n - 1], steps[n - 1], history[n]);
    }
  }

  /** A later call than the rejected one gets the extension applied at the step. */
  ghost predicate AppliedLater(history: seq<Instant>, steps: seq<Step>, m: nat, id: ExtensionId, rejected: CallId)
    requires m < |steps| && |history| == |steps| + 1
  {
    AppliedBy(history[m].dealings, steps[m], history[m + 1].dealings, id) && rejected < history[m].dealings.line[0].call
  }

  /** What a client dropped is applied, before or after that, exactly if a call later than the rejected one
      got it applied. */
  lemma DroppedIsAppliedLater(history: seq<Instant>, steps: seq<Step>, k: nat, n: nat, id: ExtensionId)
    requires Dealt(history, steps) && k <= n < |history| && id in history[k].dealings.dropped
    ensures id in history[n].dealings.applied <==>
      exists m: nat :: m < n && AppliedLater(history, steps, m, id, history[k].dealings.dropped[id])
  {
    assert Recalling(history, 0);
    assert GoesOn(history[k], history[n]) && Right(history[n]);
    assert Leaf(history[n].dealings, 0);
    if id in history[n].dealings.applied {
      var m := ApplyingMoment(history, steps, n, id);
      assert AppliedLater(history, steps, m, id, history[k].dealings.dropped[id]);
    }
    if m: nat :| m < n && AppliedLater(history, steps, m, id, history[k].dealings.dropped[id]) {
      assert GoesOn(history[m + 1], history[n]);
    }
  }

  /** So an extension dropped on the rejection of its latest call was never applied before, and is not for
      the rest of the run. */
  lemma DroppedForGood(history: seq<Instant>, steps: seq<Step>, k: nat, n: nat, id: ExtensionId)
    requires Dealt(history, steps) && k < |history| && n < |history| && id in history[k].dealings.dropped
    requires id in history[k].dealings.latest && history[k].dealings.latest[id] == history[k].dealings.dropped[id]
    ensures id !in history[n].dealings.applied
  {
    assert Recalling(history, 0);
    assert Right(history[k]) && Right(history[n]);
    if n <= k {
      assert GoesOn(history[n], history[k]);
    } else {
      assert GoesOn(history[k], history[n]);
    }
    assert Leaf(history[k].dealings, 0) && Leaf(history[n].dealings, 0);
  }

  // ----- Dropped, and applied

  /** The dialogue of two on the line, whose broker is up and stops nowhere. */
  ghost predicate Talking(l: ExtensionLine, p: Participant, q: Participant)
    reads l, l.broker
  {
    && l.Valid() && l.broker.Up() && l.broker.plan.Never? && l.broker.disk.manifest.Some?
    && Room(l.broker.disk.manifest.value.dialogue, p, q)
  }

  /** One round more may be authorized, and nothing was extended yet. */
  predicate Room(d: Dialogue, p: Participant, q: Participant) {
    d.participants == [p, q] && d.authorized == 1 && d.maximum == 2 && d.extensions == map[]
  }

  /** A new line, and a dialogue of two that has just started. */
  method NewTalk(codec: Codec<Entry>, p: Participant, q: Participant) returns (l: ExtensionLine)
    requires Faithful(codec) && p != q
    ensures fresh(l) && fresh(l.broker) && Talking(l, p, q) && l.Now() == NO_DEALINGS
    ensures l.broker.disk.manifest.value.dialogue.phase == Collecting(Proposal)
  {
    l := new ExtensionLine(codec);
    var o := l.Elsewhere(RestartBroker(Never, 0));
    o := l.Elsewhere(StartDialogue([p, q], 1, 1, 2, false, 2));
  }

  lemma ProposalsGoOn(d: Dialogue, files: Files, p: Participant, q: Participant, r: Response)
    requires Takes(d, files, r) && d.phase == Collecting(Proposal) && Room(d, p, q)
    ensures
      var d' := Taken(d, files, r).0;
      Room(d', p, q) && (d'.phase == Collecting(Proposal) || d'.phase == Collecting(Exchange)) && 0 <= Left(d') < Left(d)
  {
    var path := Path(r.kind, r.round, r.participant);
    TakingGoesOn(d, files, r);
    SubmittedIsStable(d, files, r.participant, r.kind, r.round, r.payload, true);
    AdvanceKeepsResponses(Recorded(d, path), files[path := r.payload]);
    SubmissionFinal(Recorded(d, path), files[path := r.payload]);
  }

  /** One proposal more is submitted. */
  method Propose(l: ExtensionLine, p: Participant, q: Participant)
    requires Talking(l, p, q) && l.broker.disk.manifest.value.dialogue.phase == Collecting(Proposal)
    modifies l`floor, l.broker
    ensures Talking(l, p, q) && l.Now() == old(l.Now())
    ensures
      var d, before := l.broker.disk.manifest.value.dialogue, old(l.broker.disk.manifest.value.dialogue);
      (d.phase == Collecting(Proposal) || d.phase == Collecting(Exchange)) && 0 <= Left(d) < Left(before)
  {
    ghost var files := l.broker.disk.files;
    var d := l.broker.disk.manifest.value.dialogue;
    DialogueFacts(l.broker.disk, l.broker.past, l.broker.supply);
    AwaitedUntilBarrier(d, files);
    var who :| who in Awaited(d);
    AnswerIsAdmitted(d, files, who);
    ProposalsGoOn(d, files, p, q, Response(who, Proposal, 0, Answer(d, who)));
    var o := l.Elsewhere(SubmitResponse(who, Proposal, 0, Answer(d, who), true));
  }

  /** The proposals are submitted, and the first exchange begins. */
  method ProposeAll(l: ExtensionLine, p: Participant, q: Participant)
    requires Talking(l, p, q) && l.broker.disk.manifest.value.dialogue.phase == Collecting(Proposal)
    modifies l`floor, l.broker
    ensures Talking(l, p, q) && l.Now() == old(l.Now()) && l.broker.disk.manifest.value.dialogue.phase == Collecting(Exchange)
  {
    while l.broker.disk.manifest.value.dialogue.phase == Collecting(Proposal)
      invariant Talking(l, p, q) && l.Now() == old(l.Now())
      invariant
        var phase := l.broker.disk.manifest.value.dialogue.phase;
        phase == Collecting(Proposal) || phase == Collecting(Exchange)
      decreases Left(l.broker.disk.manifest.value.dialogue)
    {
      Propose(l, p, q);
    }
  }

  /** With overlapping calls a client drops what is applied: a call during the proposals is rejected, the
      same extension is called again, the proposals end, the second call is handled and applied, and then
      the first call's rejection arrives. */
  method OverlappingCalls(codec: Codec<Entry>, p: Participant, q: Participant, id: ExtensionId, unused: ExtensionId)
    returns (l: ExtensionLine)
    requires Faithful(codec) && p != q && id != unused
    ensures fresh(l) && fresh(l.broker) && l.Valid()
    ensures id in l.dropped && id in l.applied && l.dropped[id] < l.applied[id].call
  {
    l := NewTalk(codec, p, q);
    var first := RejectedCall(l, p, q, id);
    CallAgain(l, p, q, first, id, unused);
    Cross(l, p, q, first, id);
  }

  /** A call was rejected, and its reply is on its way. */
  ghost predicate Rejecting(l: ExtensionLine, p: Participant, call: CallId, id: ExtensionId)
    reads l
  {
    && id !in l.applied && l.pending == map[p := PendingExtension(id, 1)]
    && l.replies == map[call := Letter(ExtensionRequest(call, p, 1, id), RejectedBeforeCommit)]
  }

  /** A call is rejected during the proposals. */
  method RejectedCall(l: ExtensionLine, p: Participant, q: Participant, id: ExtensionId) returns (call: CallId)
    requires Talking(l, p, q) && l.broker.disk.manifest.value.dialogue.phase == Collecting(Proposal) && l.Now() == NO_DEALINGS
    modifies l, l.broker
    ensures Talking(l, p, q) && l.broker.disk.manifest.value.dialogue.phase == Collecting(Proposal)
    ensures l.line == [] && l.issued.Keys == {id} && Rejecting(l, p, call, id)
  {
    var begun := l.Call(p, 1, id);
    call := begun.call;
    assert l.issued == map[id := Logical(p, 1)];
    Reject(l, p, q, call, id);
  }

  method Reject(l: ExtensionLine, p: Participant, q: Participant, call: CallId, id: ExtensionId)
    requires Talking(l, p, q) && l.broker.disk.manifest.value.dialogue.phase == Collecting(Proposal)
    requires l.line == [ExtensionRequest(call, p, 1, id)] && l.replies == map[] && l.pending == map[p := PendingExtension(id, 1)] && l.applied == map[]
    modifies l`line, l`replies, l`applied, l.broker
    ensures Talking(l, p, q) && l.broker.disk.manifest.value.dialogue.phase == Collecting(Proposal)
    ensures l.line == [] && Rejecting(l, p, call, id)
  {
    var o := l.Handle();
  }

  /** The extension is called again, and the proposals end. */
  method CallAgain(l: ExtensionLine, p: Participant, q: Participant, first: CallId, id: ExtensionId, unused: ExtensionId)
    requires Talking(l, p, q) && l.broker.disk.manifest.value.dialogue.phase == Collecting(Proposal)
    requires l.line == [] && unused !in l.issued && Rejecting(l, p, first, id)
    modifies l, l.broker
    ensures Talking(l, p, q) && l.broker.disk.manifest.value.dialogue.phase == Collecting(Exchange)
    ensures Rejecting(l, p, first, id) && |l.line| == 1 && l.line[0] == ExtensionRequest(l.line[0].call, p, 1, id)
  {
    var begun := l.Call(p, 1, unused);
    ProposeAll(l, p, q);
  }

  /** The second call is applied, and then the rejection of the first one arrives. */
  method Cross(l: ExtensionLine, p: Participant, q: Participant, first: CallId, id: ExtensionId)
    requires Talking(l, p, q) && l.broker.disk.manifest.value.dialogue.phase == Collecting(Exchange)
    requires Rejecting(l, p, first, id) && |l.line| == 1 && l.line[0] == ExtensionRequest(l.line[0].call, p, 1, id)
    modifies l, l.broker
    ensures l.Valid() && id in l.dropped && id in l.applied && l.dropped[id] < l.applied[id].call
  {
    OnItsWay(l, first);
    var o := l.Handle();
    var received := l.Receive(first);
  }

  lemma OnItsWay(l: ExtensionLine, c: CallId)
    requires l.Valid() && c in l.replies && l.line != []
    ensures c != l.line[0].call
  {
    assert Leaf(l.Now(), 0);
  }

  /** Only a later call applies an extension that was rejected before the commit, and it may: while
      the proposals are collected every extension is rejected so, and once they are complete one with
      room is applied. */
  lemma LaterCallMayApply(d: Dialogue, files: Files, rounds: nat, id: ExtensionId, transition: TransitionId)
    requires Sound(d, files) && d.phase == Collecting(Proposal) && BarrierReached(d)
    requires id !in d.extensions && 1 <= rounds <= d.maximum - d.authorized
    ensures Extend(d, d.participants[0], rounds, id, transition).RefusedBeforeCommit?
    ensures Extend(Advanced(d, files).dialogue, d.participants[0], rounds, id, transition).Extended?
  {
    BarrierIsFull(d, files);
    AdvanceKeepsResponses(d, files);
  }
}
