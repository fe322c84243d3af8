/** The durable files of one dialogue, the single writes the broker makes to them, and the
    invariant that holds after every one of those writes. */
module BrokerDisk {
  import opened CouncilTypes
  import opened PhaseMachine
  import opened PhaseResults

  /** An outbox record's file name: the recipient's directory and a fresh message id. */
  datatype MessageId = MessageId(recipient: Participant, uuid: nat)

  datatype Status =
    | Staged
    | Pending
    | Claimed(until: nat)
    | Delivered
    | Acknowledged
    | Superseded
    | Aborted
    | Orphaned
  {
    predicate Live() { Pending? || Claimed? || Delivered? }

    /** Live, or still to be activated. */
    predicate Open() { Staged? || Live() }

    predicate Dropped() { Aborted? || Orphaned? }

    /** In circulation now or once. */
    predicate InUse() { !Staged? && !Dropped() }
  }

  datatype Record = Record(
    kind: MessageKind, round: nat, transition: TransitionId, status: Status, queuedAudited: bool)

  // ----- The audit log

  datatype AuditId = OfTransition(transition: TransitionId) | OfAcknowledgement(message: MessageId)

  datatype Event =
    | DialogueStarted
    | SubmissionReceived(participant: Participant, kind: Kind, round: nat)
    | DialogueCompleted(rounds: nat)
    | RoundsExtended(extensionId: ExtensionId, extension: Extension)
    | DialogueCancelled(participant: Participant)
    | AcknowledgementRecovered

  datatype EventName = Start | Submission | Completion | Extending | Cancellation | Recovery

  function NameOf(event: Event): EventName {
    match event
    case DialogueStarted => Start
    case SubmissionReceived(_, _, _) => Submission
    case DialogueCompleted(_) => Completion
    case RoundsExtended(_, _) => Extending
    case DialogueCancelled(_) => Cancellation
    case AcknowledgementRecovered => Recovery
  }

  /** A log entry: an event staged in a manifest, or the first activation of a message. */
  datatype Entry = Durable(id: AuditId, event: Event) | MessageQueued(message: MessageId)

  datatype Key = DurableKey(id: AuditId, name: EventName) | QueuedKey(message: MessageId)

  function KeyOf(entry: Entry): Key {
    match entry
    case Durable(id, event) => DurableKey(id, NameOf(event))
    case MessageQueued(message) => QueuedKey(message)
  }

  predicate Logged(audit: seq<Entry>, key: Key) {
    exists i :: 0 <= i < |audit| && KeyOf(audit[i]) == key
  }

  // ----- The files

  datatype Manifest = Manifest(
    dialogue: Dialogue,
    committed: TransitionId,
    supersedes: set<MessageId>,
    pending: map<AuditId, seq<Event>>)

  datatype Disk = Disk(
    manifest: Option<Manifest>,
    files: Files,
    final: Option<Final>,
    outbox: map<MessageId, Record>,
    audit: seq<Entry>,
    tombstone: bool)

  const EMPTY_DISK := Disk(None, map[], None, map[], [], false)

  /** One durable write: an atomic replacement, an append or a removal of one file. */
  datatype Write =
    | PutManifest(manifest: Manifest)
    | PutFile(path: Path, payload: Payload)
    | PutFinal(final: Final)
    | PutRecord(id: MessageId, record: Record)
    | AppendAudit(entry: Entry)
    | PutTombstone
    | RemoveRecord(id: MessageId)
    | RemoveManifest
    | RemoveFile(path: Path)
    | RemoveFinal
    | RemoveAudit

  function Apply(d: Disk, w: Write): Disk {
    match w
    case PutManifest(m) => d.(manifest := Some(m))
    case PutFile(path, payload) => d.(files := d.files[path := payload])
    case PutFinal(final) => d.(final := Some(final))
    case PutRecord(id, record) => d.(outbox := d.outbox[id := record])
    case AppendAudit(entry) => d.(audit := d.audit + [entry])
    case PutTombstone => d.(tombstone := true)
    case RemoveRecord(id) => d.(outbox := d.outbox - {id})
    case RemoveManifest => d.(manifest := None)
    case RemoveFile(path) => d.(files := d.files - {path})
    case RemoveFinal => d.(final := None)
    case RemoveAudit => d.(audit := [])
  }

  /** What was ever committed: the transitions whose manifest was saved, and the audit intents
      that a saved manifest ever held. */
  datatype Past = Past(committed: set<TransitionId>, saved: map<Key, Event>)

  const NO_PAST := Past({}, map[])

  /** The identities of the pending intents. */
  function IntentKeys(pending: map<AuditId, seq<Event>>): set<Key> {
    set id, e | id in pending && e in pending[id] :: DurableKey(id, NameOf(e))
  }

  ghost function IntentAt(pending: map<AuditId, seq<Event>>, key: Key): (event: Event)
    requires key in IntentKeys(pending)
    ensures key.DurableKey? && key.id in pending && event in pending[key.id] && NameOf(event) == key.name
  {
    var e :| key.id in pending && e in pending[key.id] && NameOf(e) == key.name;
    e
  }

  /** What a durable write adds to the past: only the save of a manifest adds anything, its transition
      and its pending intents. */
  ghost function NextPast(past: Past, w: Write): Past {
    match w
    case PutManifest(m) =>
      Past(past.committed + {m.committed},
           past.saved + map key | key in IntentKeys(m.pending) :: IntentAt(m.pending, key))
    case _ => past
  }

  /** The next past is the one that has the manifest's transition and intents, and nothing else new. */
  lemma PastIsNext(past: Past, m: Manifest, next: Past)
    requires next.committed == past.committed + {m.committed}
    requires forall id, e :: id in m.pending && e in m.pending[id] ==>
      DurableKey(id, NameOf(e)) in next.saved && next.saved[DurableKey(id, NameOf(e))] == e
    requires forall key :: key in next.saved && key !in IntentKeys(m.pending) ==> key in past.saved && next.saved[key] == past.saved[key]
    requires forall key :: key in past.saved ==> key in next.saved
    ensures NextPast(past, PutManifest(m)) == next
  {
    var found := NextPast(past, PutManifest(m));
    forall key ensures key in found.saved <==> key in next.saved {
      if key in IntentKeys(m.pending) {
        var e := IntentAt(m.pending, key);
        assert e in m.pending[key.id];
      }
    }
    forall key | key in found.saved ensures found.saved[key] == next.saved[key] {
      if key in IntentKeys(m.pending) {
        var e := IntentAt(m.pending, key);
        assert e in m.pending[key.id];
      }
    }
    assert found.saved == next.saved;
  }

  // ----- When a message's response is safe

  predicate Answered(d: Dialogue, id: MessageId, kind: Kind, round: nat) {
    Slot(kind, SlotRound(kind, round), id.recipient) in d.submissions
  }

  predicate ResponseIsSafe(d: Dialogue, final: Option<Final>, id: MessageId, record: Record) {
    match record.kind
    case CancellationNotice => true
    case CompletionNotice(f) => d.phase.Complete? && final == Some(f)
    case Request(kind) => Answered(d, id, kind, record.round) || d.phase.Terminal() || record.round < d.round
  }

  // ----- The invariant

  predicate Committed(outbox: map<MessageId, Record>, past: Past, id: MessageId) {
    id in outbox && outbox[id].transition in past.committed
  }

  predicate CommittedRequest(outbox: map<MessageId, Record>, past: Past, id: MessageId) {
    Committed(outbox, past, id) && outbox[id].kind.Request?
  }

  /** A message is claimable only if its transition was committed; a committed one is never
      dropped, and waits for activation only while its transition is the current one. */
  ghost predicate OutboxInv(d: Disk, past: Past, supply: nat) {
    forall id :: id in d.outbox ==>
      var r := d.outbox[id];
      && r.transition < supply && id.uuid < supply
      && (r.status.Staged? || r.status.Dropped() || r.transition in past.committed)
      && (r.status.Dropped() ==> r.transition !in past.committed)
      && (r.status.Staged? && r.transition in past.committed ==>
            d.manifest.Some? && r.transition == d.manifest.value.committed)
  }

  /** Who still owes an answer to a request; the initiator starts its proposal unasked. */
  predicate Owes(d: Dialogue, p: Participant)
    requires d.participants != [] && d.phase.Collecting?
  {
    && p in RequiredFor(d.participants, d.phase.kind)
    && Slot(d.phase.kind, SlotRound(d.phase.kind, ArtifactRound(d)), p) !in d.submissions
    && !(d.phase.kind.Proposal? && p == d.participants[0])
  }

  /** An open request for the current phase and round, which the transition does not supersede. */
  predicate Asks(m: Manifest, outbox: map<MessageId, Record>, past: Past, id: MessageId)
    requires m.dialogue.phase.Collecting?
  {
    && CommittedRequest(outbox, past, id) && id !in m.supersedes
    && outbox[id].kind == Request(m.dialogue.phase.kind) && outbox[id].round == ArtifactRound(m.dialogue)
    && outbox[id].status.Open()
  }

  /** Committed requests went to required participants of stages that were reached; none for a proposal went
      to the initiator. */
  ghost predicate RequestsPlaced(m: Manifest, outbox: map<MessageId, Record>, past: Past)
    requires m.dialogue.participants != []
  {
    forall id :: CommittedRequest(outbox, past, id) ==>
      var kind, round := outbox[id].kind.kind, outbox[id].round;
      && id.recipient in RequiredFor(m.dialogue.participants, kind)
      && (kind.Proposal? ==> id.recipient != m.dialogue.participants[0])
      && (m.dialogue.phase.Collecting? ==> !Later(m.dialogue, round, kind))
  }

  /** Nobody is asked twice for the same answer. */
  ghost predicate RequestsDistinct(outbox: map<MessageId, Record>, past: Past) {
    forall a, b :: CommittedRequest(outbox, past, a) && CommittedRequest(outbox, past, b) &&
                   a.recipient == b.recipient && outbox[a].kind == outbox[b].kind && outbox[a].round == outbox[b].round
      ==> a == b
  }

  /** Everybody who owes an answer is being asked. */
  ghost predicate NobodyForgotten(m: Manifest, outbox: map<MessageId, Record>, past: Past)
    requires m.dialogue.participants != []
  {
    m.dialogue.phase.Collecting? ==>
      forall p :: Owes(m.dialogue, p) ==> exists id :: Asks(m, outbox, past, id) && id.recipient == p
  }

  /** An open request is for the current stage, or answered, or about to be superseded. */
  ghost predicate OpenRequestsMatter(m: Manifest, outbox: map<MessageId, Record>, past: Past) {
    forall id :: CommittedRequest(outbox, past, id) && outbox[id].status.Open() ==>
      || (m.dialogue.phase == Collecting(outbox[id].kind.kind) && outbox[id].round == ArtifactRound(m.dialogue))
      || Answered(m.dialogue, id, outbox[id].kind.kind, outbox[id].round)
      || id in m.supersedes
  }

  /** The superseded messages are older than the transition that supersedes them. */
  ghost predicate SupersedesOlder(m: Manifest, outbox: map<MessageId, Record>) {
    forall id :: id in m.supersedes && id in outbox ==> outbox[id].transition != m.committed
  }

  ghost predicate NoticesTrue(m: Manifest, final: Option<Final>, outbox: map<MessageId, Record>, past: Past) {
    forall id :: Committed(outbox, past, id) ==>
      && (outbox[id].kind.CompletionNotice? ==> m.dialogue.phase.Complete? && final == Some(outbox[id].kind.final))
      && (outbox[id].kind.CancellationNotice? ==> m.dialogue.phase.Cancelled?)
  }

  ghost predicate AcknowledgedSafely(m: Manifest, final: Option<Final>, outbox: map<MessageId, Record>) {
    forall id :: id in outbox && outbox[id].status.Acknowledged? ==>
      ResponseIsSafe(m.dialogue, final, id, outbox[id])
  }

  /** The final record is there on completion, and is the dialogue's. */
  ghost predicate FinalTrue(m: Manifest, files: Files, final: Option<Final>)
    requires Stable(m.dialogue, files)
  {
    m.dialogue.phase.Complete? ==>
      (CompletionNeedsTheFullRecord(m.dialogue, files);
       final == Some(FinalRecord(m.dialogue, files)))
  }

  ghost predicate Intended(pending: map<AuditId, seq<Event>>, key: Key) {
    key.DurableKey? && key.id in pending && exists e :: e in pending[key.id] && NameOf(e) == key.name
  }

  /** No event is logged twice; what is logged was saved in a manifest; what was saved is logged
      or still pending. */
  ghost predicate AuditInv(m: Manifest, audit: seq<Entry>, past: Past, supply: nat) {
    && (forall i, j :: 0 <= i < j < |audit| ==> KeyOf(audit[i]) != KeyOf(audit[j]))
    && (forall e :: e in audit && e.Durable? ==> KeyOf(e) in past.saved && past.saved[KeyOf(e)] == e.event)
    && (forall id, e :: id in m.pending && e in m.pending[id] ==>
          DurableKey(id, NameOf(e)) in past.saved && past.saved[DurableKey(id, NameOf(e))] == e)
    && (forall key :: key in past.saved ==> Logged(audit, key) || Intended(m.pending, key))
    && (forall key :: key in past.saved && key.DurableKey? && key.id.OfTransition? ==> key.id.transition < supply)
    && (forall id :: id in m.pending && id.OfAcknowledgement? ==> m.pending[id] == [AcknowledgementRecovered])
  }

  /** What the event says is so of the dialogue. */
  ghost predicate Happened(d: Dialogue, e: Event) {
    match e
    case DialogueStarted => true
    case SubmissionReceived(p, kind, round) => exists s :: s in d.submissions && d.submissions[s] == Path(kind, round, p)
    case DialogueCompleted(round) => d.phase.Complete? && d.round == round
    case RoundsExtended(id, extension) => id in d.extensions && d.extensions[id] == extension
    case DialogueCancelled(_) => d.phase.Cancelled?
    case AcknowledgementRecovered => true
  }

  /** The saved events tell the dialogue: each of them happened, was saved once, and whatever happened was
      saved. (Who cancelled is in the event alone; that there is one is `ChangesSaved`.) */
  ghost predicate EventsTold(d: Dialogue, saved: map<Key, Event>) {
    && (forall key :: key in saved ==> Happened(d, saved[key]))
    && (forall a, b :: a in saved && b in saved && saved[a] == saved[b] && !saved[a].AcknowledgementRecovered? ==> a == b)
    && (forall e :: Happened(d, e) && !e.AcknowledgementRecovered? && !e.DialogueCancelled? ==> SavedEvent(saved, e))
  }

  ghost predicate SavedEvent(saved: map<Key, Event>, e: Event) {
    exists key :: key in saved && saved[key] == e && key.DurableKey? && key.name == NameOf(e)
  }

  /** The applied extensions and a cancellation were saved as audit intents. */
  ghost predicate ChangesSaved(m: Manifest, past: Past) {
    && (forall id :: id in m.dialogue.extensions ==>
          var extension := m.dialogue.extensions[id];
          var key := DurableKey(OfTransition(extension.transition), Extending);
          key in past.saved && past.saved[key] == RoundsExtended(id, extension))
    && (m.dialogue.phase.Cancelled? ==> DurableKey(OfTransition(m.committed), Cancellation) in past.saved)
    && EventsTold(m.dialogue, past.saved)
  }

  // ----- Who is told of the end

  predicate IsNotice(outbox: map<MessageId, Record>, past: Past, id: MessageId) {
    Committed(outbox, past, id) && !outbox[id].kind.Request?
  }

  ghost predicate IsTold(outbox: map<MessageId, Record>, past: Past, p: Participant) {
    exists id :: IsNotice(outbox, past, id) && id.recipient == p
  }

  /** The committed transition is the cancellation of this participant. */
  predicate IsCancelledBy(m: Manifest, past: Past, p: Participant) {
    var key := DurableKey(OfTransition(m.committed), Cancellation);
    key in past.saved && past.saved[key] == DialogueCancelled(p)
  }

  /** Nobody is told twice. Of a completion everyone is told, of a cancellation everyone but whoever
      cancelled. */
  ghost predicate EndAnnounced(m: Manifest, outbox: map<MessageId, Record>, past: Past) {
    && (forall a, b :: IsNotice(outbox, past, a) && IsNotice(outbox, past, b) && a.recipient == b.recipient ==> a == b)
    && (m.dialogue.phase.Complete? ==> forall p :: p in m.dialogue.participants <==> IsTold(outbox, past, p))
    && (m.dialogue.phase.Cancelled? ==>
          forall who {:trigger IsCancelledBy(m, past, who)} :: IsCancelledBy(m, past, who) ==>
            forall p :: p in m.dialogue.participants && p != who <==> IsTold(outbox, past, p))
  }

  /** Only a cancellation supersedes anything but requests for a synthesis. */
  ghost predicate SupersededRightly(m: Manifest, outbox: map<MessageId, Record>, past: Past) {
    forall id :: Committed(outbox, past, id) && (id in m.supersedes || outbox[id].status.Superseded?) ==>
      m.dialogue.phase.Cancelled? || outbox[id].kind == Request(Synthesis)
  }

  predicate SupersedesDone(m: Manifest, outbox: map<MessageId, Record>) {
    forall id :: id in m.supersedes && id in outbox ==> !outbox[id].status.Live()
  }

  /** A transition's messages wait until those it supersedes are out of circulation. */
  ghost predicate SupersedesFirst(m: Manifest, outbox: map<MessageId, Record>, past: Past) {
    SupersedesDone(m, outbox) || exists id :: Committed(outbox, past, id) && outbox[id].status.Staged?
  }

  /** A marked record's activation is in the log. As long as nothing is being deleted, the log has
      activations only of messages that are or were in circulation. */
  ghost predicate NotesTrue(outbox: map<MessageId, Record>, audit: seq<Entry>, tombstone: bool) {
    && (forall id :: id in outbox && outbox[id].queuedAudited ==> Logged(audit, QueuedKey(id)))
    && (!tombstone ==>
          forall id :: Logged(audit, QueuedKey(id)) ==> id in outbox && outbox[id].status.InUse())
  }

  /** Named where a proof looks inside the invariant, or inside one of its parts. */
  ghost predicate Inside(d: Disk, supply: nat, n: nat) { true }

  ghost predicate Within(n: nat) { true }

  /** The parts of the invariant, each a name until a proof says `Within`. */
  ghost predicate Filed(d: Disk, past: Past, supply: nat) {
    forall n: nat {:trigger Within(n)} :: Within(n) ==> OutboxInv(d, past, supply)
  }

  ghost predicate Settled(m: Manifest, files: Files, final: Option<Final>) {
    forall n: nat {:trigger Within(n)} :: Within(n) ==> Stable(m.dialogue, files) && FinalTrue(m, files, final)
  }

  ghost predicate Asked(m: Manifest, outbox: map<MessageId, Record>, past: Past)
    requires m.dialogue.participants != []
  {
    forall n: nat {:trigger Within(n)} :: Within(n) ==>
      && RequestsPlaced(m, outbox, past)
      && RequestsDistinct(outbox, past)
      && NobodyForgotten(m, outbox, past)
      && OpenRequestsMatter(m, outbox, past)
  }

  ghost predicate Told(m: Manifest, final: Option<Final>, outbox: map<MessageId, Record>, past: Past) {
    forall n: nat {:trigger Within(n)} :: Within(n) ==>
      NoticesTrue(m, final, outbox, past) && AcknowledgedSafely(m, final, outbox)
  }

  ghost predicate Ordered(m: Manifest, outbox: map<MessageId, Record>, past: Past, tombstone: bool) {
    forall n: nat {:trigger Within(n)} :: Within(n) ==>
      SupersedesOlder(m, outbox) && (tombstone || SupersedesFirst(m, outbox, past))
  }

  ghost predicate Announced(m: Manifest, outbox: map<MessageId, Record>, past: Past, tombstone: bool) {
    forall n: nat {:trigger Within(n)} :: Within(n) ==>
      (tombstone || EndAnnounced(m, outbox, past)) && SupersededRightly(m, outbox, past)
  }

  ghost predicate Audited(m: Manifest, audit: seq<Entry>, past: Past, supply: nat) {
    forall n: nat {:trigger Within(n)} :: Within(n) ==> AuditInv(m, audit, past, supply) && ChangesSaved(m, past)
  }

  ghost predicate Noted(outbox: map<MessageId, Record>, audit: seq<Entry>, tombstone: bool) {
    forall n: nat {:trigger Within(n)} :: Within(n) ==> NotesTrue(outbox, audit, tombstone)
  }

  ghost predicate ManifestInv(d: Disk, past: Past, supply: nat)
    requires d.manifest.Some?
  {
    var m := d.manifest.value;
    && m.committed in past.committed
    && m.dialogue.participants != []
    && Settled(m, d.files, d.final)
    && Asked(m, d.outbox, past)
    && Told(m, d.final, d.outbox, past)
    && Ordered(m, d.outbox, past, d.tombstone)
    && Announced(m, d.outbox, past, d.tombstone)
    && Audited(m, d.audit, past, supply)
    && (d.tombstone ==> m.dialogue.phase.Terminal())
  }

  /** Before its manifest is first saved a dialogue has only staged records; after its manifest is
      removed it has a tombstone and no record. */
  ghost predicate AbsentInv(d: Disk, past: Past) {
    || (past == NO_PAST && d.final.None? && d.audit == [] && d.files == map[] && !d.tombstone)
    || (d.tombstone && d.outbox == map[])
  }

  ghost predicate Invariant(d: Disk, past: Past, supply: nat) {
    && Filed(d, past, supply)
    && Noted(d.outbox, d.audit, d.tombstone)
    && (forall t :: t in past.committed ==> t < supply)
    && (if d.manifest.Some? then ManifestInv(d, past, supply) else AbsentInv(d, past))
  }

  /** The invariant as the operations carry it. */
  ghost predicate Inv(d: Disk, past: Past, supply: nat) {
    forall n: nat {:trigger Inside(d, supply, n)} :: Inside(d, supply, n) ==> Invariant(d, past, supply)
  }

  // ----- What no write takes back

  ghost predicate SameBodies(d: Dialogue, files: Files, files': Files) {
    forall s :: s in d.submissions && d.submissions[s] in files ==>
      d.submissions[s] in files' && files'[d.submissions[s]] == files[d.submissions[s]]
  }

  ghost predicate SameMessage(r: Record, r': Record) {
    && r'.kind == r.kind && r'.round == r.round && r'.transition == r.transition
    && (r.status.Acknowledged? || r.status.Superseded? || r.status.Dropped() ==> r'.status == r.status)
    && (!r.status.Staged? ==> !r'.status.Staged?)
    && (r.queuedAudited ==> r'.queuedAudited)
  }

  /** Responses, rounds and log entries stay; acknowledged, superseded and dropped records stay so;
      an end is final; only deletion removes anything, for good. */
  ghost predicate DiskGrown(d: Disk, d': Disk) {
    && (d.tombstone ==> d'.tombstone)
    && (d.manifest.Some? && d'.manifest.None? ==> d'.tombstone)
    && (d.manifest.None? && d.tombstone ==> d'.manifest.None?)
    && (d.manifest.Some? && d'.manifest.Some? ==>
          && Grown(d.manifest.value.dialogue, d'.manifest.value.dialogue)
          && SameBodies(d.manifest.value.dialogue, d.files, d'.files)
          && d.audit <= d'.audit
          && (d.manifest.value.dialogue.phase.Terminal() ==> d'.final == d.final))
    && (d.manifest.Some? && !d'.tombstone ==>
          forall id :: id in d.outbox ==> id in d'.outbox && SameMessage(d.outbox[id], d'.outbox[id]))
  }

  ghost predicate PastGrown(p: Past, p': Past) {
    && p.committed <= p'.committed
    && forall key :: key in p.saved ==> key in p'.saved && p'.saved[key] == p.saved[key]
  }

  lemma DiskGrownIsTransitive(a: Disk, b: Disk, c: Disk)
    requires DiskGrown(a, b) && DiskGrown(b, c)
    ensures DiskGrown(a, c)
  {
    if a.manifest.Some? && !c.tombstone {
      forall id | id in a.outbox
        ensures id in c.outbox && SameMessage(a.outbox[id], c.outbox[id])
      {
        assert id in b.outbox && SameMessage(a.outbox[id], b.outbox[id]);
      }
    }
  }

  /** Once safe, always safe, short of deletion. */
  lemma SafetyIsStable(d: Disk, d': Disk, id: MessageId)
    requires DiskGrown(d, d') && d.manifest.Some? && d'.manifest.Some?
    requires id in d.outbox && id in d'.outbox && SameMessage(d.outbox[id], d'.outbox[id])
    requires ResponseIsSafe(d.manifest.value.dialogue, d.final, id, d.outbox[id])
    ensures ResponseIsSafe(d'.manifest.value.dialogue, d'.final, id, d'.outbox[id])
  {
  }
}
