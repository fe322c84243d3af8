/** What the invariant tells an operation, one fact at a time, and what the operations' decisions
    mean for the commit point. */
module BrokerFacts {
  import opened CouncilTypes
  import opened PhaseMachine
  import opened PhaseResults
  import opened BrokerDisk
  import opened BrokerSteps
  import opened BrokerCommit

  // ----- Identifiers

  lemma MoreSupply(d: Disk, past: Past, supply: nat, supply': nat)
    requires Inv(d, past, supply) && supply <= supply'
    ensures Inv(d, past, supply')
  {
    assert Inside(d, supply, 0) && Within(0);
  }

  lemma UnusedIdentifier(d: Disk, past: Past, supply: nat, unused: nat)
    requires Inv(d, past, supply) && supply <= unused
    ensures forall id :: id in d.outbox ==> id.uuid != unused && d.outbox[id].transition != unused
    ensures unused !in past.committed
    ensures d.manifest.Some? ==> forall name :: DurableKey(OfTransition(unused), name) !in past.saved
  {
    assert Inside(d, supply, 0) && Within(0);
  }

  // ----- The manifest

  lemma DialogueFacts(d: Disk, past: Past, supply: nat)
    requires Inv(d, past, supply) && d.manifest.Some?
    ensures Stable(d.manifest.value.dialogue, d.files) && FinalTrue(d.manifest.value, d.files, d.final)
    ensures d.manifest.value.committed in past.committed
    ensures d.tombstone ==> d.manifest.value.dialogue.phase.Terminal()
  {
    assert Inside(d, supply, 0);
    SettledIsStable(d.manifest.value, d.files, d.final);
  }

  lemma ManifestSettled(d: Disk, past: Past, supply: nat)
    requires Inv(d, past, supply) && d.manifest.Some?
    ensures Settled(d.manifest.value, d.files, d.final)
  {
    assert Inside(d, supply, 0);
  }

  lemma AbsentFacts(d: Disk, past: Past, supply: nat)
    requires Inv(d, past, supply) && d.manifest.None? && !d.tombstone
    ensures past == NO_PAST && d.final.None? && d.audit == [] && d.files == map[]
  {
    assert Inside(d, supply, 0);
  }

  lemma TombstoneFacts(d: Disk, past: Past, supply: nat)
    requires Inv(d, past, supply) && d.manifest.None? && d.tombstone
    ensures d.outbox == map[]
  {
    assert Inside(d, supply, 0);
  }

  // ----- The outbox

  /** Only a committed transition's messages are ever in circulation. */
  lemma InUseIsCommitted(d: Disk, past: Past, supply: nat, id: MessageId)
    requires Inv(d, past, supply) && id in d.outbox
    ensures !d.outbox[id].status.Staged? && !d.outbox[id].status.Dropped() ==> Committed(d.outbox, past, id)
  {
    assert Inside(d, supply, 0) && Within(0);
  }

  /** A staged message is committed exactly when its transition is the manifest's. */
  lemma StagedIsCurrent(d: Disk, past: Past, supply: nat, id: MessageId)
    requires Inv(d, past, supply) && d.manifest.Some?
    requires id in d.outbox && d.outbox[id].status.Staged?
    ensures Committed(d.outbox, past, id) <==> d.outbox[id].transition == d.manifest.value.committed
  {
    assert Inside(d, supply, 0) && Within(0);
  }

  lemma OthersAreSuperseded(d: Disk, past: Past, supply: nat, id: MessageId)
    requires Inv(d, past, supply) && d.manifest.Some? && id in d.outbox
    requires d.outbox[id].transition == d.manifest.value.committed
    ensures id !in d.manifest.value.supersedes
  {
    assert Inside(d, supply, 0) && Within(0);
  }

  /** Whatever is still to be superseded leaves some message of the transition staged. */
  lemma NothingStagedNothingSuperseded(d: Disk, past: Past, supply: nat)
    requires Inv(d, past, supply) && d.manifest.Some? && !d.tombstone
    requires forall id :: id in d.outbox ==> !d.outbox[id].status.Staged?
    ensures SupersedesDone(d.manifest.value, d.outbox)
  {
    assert Inside(d, supply, 0) && Within(0);
  }

  // ----- The audit log

  lemma LoggedStays(audit: seq<Entry>, audit': seq<Entry>, key: Key)
    requires Logged(audit, key) && audit <= audit'
    ensures Logged(audit', key)
  {
    var i :| 0 <= i < |audit| && KeyOf(audit[i]) == key;
    assert audit'[i] == audit[i];
  }

  /** What a saved manifest ever intended is logged once it is not pending. */
  lemma SavedIsLogged(d: Disk, past: Past, supply: nat, key: Key)
    requires Inv(d, past, supply) && d.manifest.Some?
    requires key in past.saved && key.DurableKey? && key.id !in d.manifest.value.pending
    ensures Logged(d.audit, key) && Durable(key.id, past.saved[key]) in d.audit
  {
    assert Inside(d, supply, 0) && Within(0);
    var i :| 0 <= i < |d.audit| && KeyOf(d.audit[i]) == key;
    assert d.audit[i] in d.audit;
  }

  /** Every event of the log was intended by a saved manifest, and is there once. */
  lemma LoggedWasSaved(d: Disk, past: Past, supply: nat, i: nat)
    requires Inv(d, past, supply) && d.manifest.Some? && i < |d.audit|
    ensures d.audit[i].Durable? ==> KeyOf(d.audit[i]) in past.saved && past.saved[KeyOf(d.audit[i])] == d.audit[i].event
    ensures forall j :: 0 <= j < |d.audit| && KeyOf(d.audit[j]) == KeyOf(d.audit[i]) ==> i == j
  {
    assert Inside(d, supply, 0) && Within(0);
    assert d.audit[i] in d.audit;
  }

  /** So a repeated extension finds its event in the log, and so does a repeated cancellation. */
  lemma ChangesAreLogged(d: Disk, past: Past, supply: nat)
    requires Inv(d, past, supply) && d.manifest.Some? && d.manifest.value.pending == map[]
    ensures forall id :: id in d.manifest.value.dialogue.extensions ==>
      var extension := d.manifest.value.dialogue.extensions[id];
      Durable(OfTransition(extension.transition), RoundsExtended(id, extension)) in d.audit
    ensures d.manifest.value.dialogue.phase.Cancelled? ==>
      Logged(d.audit, DurableKey(OfTransition(d.manifest.value.committed), Cancellation))
  {
    assert Inside(d, supply, 0) && Within(0);
    var m := d.manifest.value;
    forall id | id in m.dialogue.extensions
      ensures Durable(OfTransition(m.dialogue.extensions[id].transition), RoundsExtended(id, m.dialogue.extensions[id])) in d.audit
    {
      SavedIsLogged(d, past, supply, DurableKey(OfTransition(m.dialogue.extensions[id].transition), Extending));
    }
  }

  lemma ChangesWereSaved(d: Disk, past: Past, supply: nat)
    requires Inv(d, past, supply) && d.manifest.Some?
    ensures ChangesSaved(d.manifest.value, past)
  {
    assert Inside(d, supply, 0) && Within(0);
  }

  // ----- No request is lost

  ghost predicate AsksFor(d: Disk, id: MessageId, p: Participant)
    requires d.manifest.Some? && d.manifest.value.dialogue.phase.Collecting?
  {
    var dialogue := d.manifest.value.dialogue;
    && id in d.outbox && id.recipient == p
    && d.outbox[id].kind == Request(dialogue.phase.kind) && d.outbox[id].round == ArtifactRound(dialogue)
    && d.outbox[id].status.Live()
  }

  /** Once the committed transition is activated, everybody who owes an answer has exactly one
      live request for it. */
  lemma ExactlyOneRequest(d: Disk, past: Past, supply: nat, p: Participant) returns (id: MessageId)
    requires Inv(d, past, supply) && d.manifest.Some? && d.manifest.value.dialogue.phase.Collecting?
    requires d.manifest.value.dialogue.participants != [] && Owes(d.manifest.value.dialogue, p)
    requires forall x :: Committed(d.outbox, past, x) ==> !d.outbox[x].status.Staged?
    ensures AsksFor(d, id, p)
    ensures forall x :: AsksFor(d, x, p) ==> x == id
  {
    assert Inside(d, supply, 0) && Within(0);
    id :| Asks(d.manifest.value, d.outbox, past, id) && id.recipient == p;
  }

  /** A live request is for the current phase and round, or was answered, or will be superseded. */
  lemma LiveRequestsMatter(d: Disk, past: Past, supply: nat, id: MessageId)
    requires Inv(d, past, supply) && d.manifest.Some? && id in d.outbox
    requires d.outbox[id].kind.Request? && d.outbox[id].status.Live()
    ensures
      var m, kind, round := d.manifest.value, d.outbox[id].kind.kind, d.outbox[id].round;
      || (m.dialogue.phase == Collecting(kind) && round == ArtifactRound(m.dialogue))
      || Answered(m.dialogue, id, kind, round)
      || id in m.supersedes
  {
    InUseIsCommitted(d, past, supply, id);
    assert Inside(d, supply, 0) && Within(0);
  }

  // ----- Marks of activation

  lemma NotesAreTrue(d: Disk, past: Past, supply: nat)
    requires Inv(d, past, supply)
    ensures NotesTrue(d.outbox, d.audit, d.tombstone)
  {
    assert Inside(d, supply, 0) && Within(0);
  }

  ghost predicate Marking(n: nat) { true }

  /** Every record that is or was in circulation is marked: a name, until a proof says `Marking`. */
  ghost predicate Marked(outbox: map<MessageId, Record>) {
    forall n: nat {:trigger Marking(n)} :: Marking(n) ==>
      forall id :: id in outbox && outbox[id].status.InUse() ==> outbox[id].queuedAudited
  }

  function CommittedOf(m: Option<Manifest>): Option<TransitionId> {
    if m.Some? then Some(m.value.committed) else None
  }

  /** Every one is marked but some that the committed transition has made claimable, which nobody has
      received yet. */
  ghost predicate Halfway(outbox: map<MessageId, Record>, committed: Option<TransitionId>) {
    forall n: nat {:trigger Marking(n)} :: Marking(n) ==>
      forall id :: id in outbox && outbox[id].status.InUse() && !outbox[id].queuedAudited ==>
        outbox[id].status.Pending? && committed == Some(outbox[id].transition)
  }

  lemma MarkedIsHalfway(outbox: map<MessageId, Record>, committed: Option<TransitionId>)
    requires Marked(outbox)
    ensures Halfway(outbox, committed)
  {
    assert Marking(0);
  }

  /** Only one record changed, by an activation that may have stopped at any write. */
  lemma ActivationMarks(outbox: map<MessageId, Record>, outbox': map<MessageId, Record>, id: MessageId, committed: TransitionId)
    requires id in outbox && id in outbox' && outbox' == outbox[id := outbox'[id]] && outbox'[id].transition == committed
    ensures outbox'[id].queuedAudited && Marked(outbox) ==> Marked(outbox')
    ensures (outbox'[id].queuedAudited || outbox'[id].status.Pending? || outbox'[id].status.Staged?) && Halfway(outbox, Some(committed)) ==>
      Halfway(outbox', Some(committed))
  {
    if Marked(outbox) {
      assert Marking(0);
    }
    if Halfway(outbox, Some(committed)) {
      assert Marking(0);
    }
  }

  /** A marked record changes, or one that changes is marked. */
  lemma MarkedOneStays(outbox: map<MessageId, Record>, outbox': map<MessageId, Record>, id: MessageId, committed: Option<TransitionId>)
    requires id in outbox && id in outbox' && outbox' == outbox[id := outbox'[id]]
    requires outbox'[id].queuedAudited || !outbox'[id].status.InUse()
          || (outbox'[id].status == outbox[id].status && outbox'[id].transition == outbox[id].transition && outbox'[id].queuedAudited == outbox[id].queuedAudited)
    ensures Marked(outbox) ==> Marked(outbox')
    ensures Halfway(outbox, committed) ==> Halfway(outbox', committed)
  {
    if Marked(outbox) {
      assert Marking(0);
    }
    if Halfway(outbox, committed) {
      assert Marking(0);
    }
  }

  lemma OnlyRecordMarks(d: Disk, d': Disk, id: MessageId)
    requires OnlyRecord(d, d', id) && d.outbox[id].status.InUse()
    ensures Marked(d.outbox) ==> Marked(d'.outbox)
  {
    if Marked(d.outbox) {
      assert Marking(0);
    }
  }

  lemma StagingMarks(outbox: map<MessageId, Record>, outbox': map<MessageId, Record>, transition: TransitionId)
    requires Staging(outbox, outbox', transition)
    ensures Marked(outbox) ==> Marked(outbox')
  {
    if Marked(outbox) {
      assert Marking(0);
    }
  }

  lemma SupersededIsOlder(d: Disk, past: Past, supply: nat)
    requires Inv(d, past, supply) && d.manifest.Some?
    ensures SupersedesOlder(d.manifest.value, d.outbox)
  {
    assert Inside(d, supply, 0) && Within(0);
  }

  /** What a transition supersedes was marked: only its own messages may not be. */
  lemma WithdrawnMarks(m: Manifest, outbox: map<MessageId, Record>, ids: set<MessageId>)
    requires SupersedesOlder(m, outbox) && ids <= m.supersedes
    ensures Marked(outbox) ==> Marked(Withdrawn(outbox, ids))
    ensures Halfway(outbox, Some(m.committed)) ==> Halfway(Withdrawn(outbox, ids), Some(m.committed))
  {
    if Marked(outbox) {
      assert Marking(0);
    }
    if Halfway(outbox, Some(m.committed)) {
      assert Marking(0);
    }
  }

  lemma RecoveredMarks(d: Disk, ids: set<MessageId>, committed: Option<TransitionId>)
    requires d.manifest.Some?
    ensures Marked(d.outbox) ==> Marked(Recovered(d, ids))
    ensures Halfway(d.outbox, committed) ==> Halfway(Recovered(d, ids), committed)
  {
    if Marked(d.outbox) {
      assert Marking(0);
    }
    if Halfway(d.outbox, committed) {
      assert Marking(0);
    }
  }

  lemma RemovalMarks(outbox: map<MessageId, Record>, id: MessageId, committed: Option<TransitionId>)
    ensures Marked(outbox) ==> Marked(outbox - {id})
    ensures Halfway(outbox, committed) ==> Halfway(outbox - {id}, committed)
  {
    if Marked(outbox) {
      assert Marking(0);
    }
    if Halfway(outbox, committed) {
      assert Marking(0);
    }
  }

  /** At rest nothing is halfway any more. */
  lemma RestIsMarked(d: Disk)
    requires AtRest(d) && Halfway(d.outbox, CommittedOf(d.manifest))
    ensures Marked(d.outbox)
  {
    assert Marking(0);
  }

  // ----- Activations in the log

  /** No activation of another message was logged: a name, until a proof says `Marking`. */
  ghost predicate OnlyLogs(audit: seq<Entry>, audit': seq<Entry>, ids: set<MessageId>) {
    forall n: nat {:trigger Marking(n)} :: Marking(n) ==>
      forall id :: Logged(audit', QueuedKey(id)) && id !in ids ==> Logged(audit, QueuedKey(id))
  }

  lemma NothingLogged(audit: seq<Entry>, ids: set<MessageId>)
    ensures OnlyLogs(audit, audit, ids)
  {
  }

  lemma OnlyLogsTwice(a: seq<Entry>, b: seq<Entry>, c: seq<Entry>, ids: set<MessageId>, ids': set<MessageId>)
    requires OnlyLogs(a, b, ids) && OnlyLogs(b, c, ids') && ids' <= ids
    ensures OnlyLogs(a, c, ids)
  {
    assert Marking(0);
  }

  lemma MoreIds(a: seq<Entry>, b: seq<Entry>, ids: set<MessageId>, ids': set<MessageId>)
    requires OnlyLogs(a, b, ids) && ids <= ids'
    ensures OnlyLogs(a, b, ids')
  {
    assert Marking(0);
  }

  lemma DurablesLogged(audit: seq<Entry>, audit': seq<Entry>, pending: map<AuditId, seq<Event>>, selected: set<AuditId>)
    requires LoggedMore(audit, audit', pending, selected)
    ensures OnlyLogs(audit, audit', {})
  {
    forall id | Logged(audit', QueuedKey(id)) ensures Logged(audit, QueuedKey(id)) {
      var i :| 0 <= i < |audit'| && KeyOf(audit'[i]) == QueuedKey(id);
      assert i < |audit| && audit[i] == audit'[i];
    }
  }

  lemma OneLogged(audit: seq<Entry>, audit': seq<Entry>, id: MessageId)
    requires audit' == audit || audit' == audit + [MessageQueued(id)]
    ensures OnlyLogs(audit, audit', {id})
  {
    forall x | Logged(audit', QueuedKey(x)) && x != id ensures Logged(audit, QueuedKey(x)) {
      var i :| 0 <= i < |audit'| && KeyOf(audit'[i]) == QueuedKey(x);
      assert i < |audit| && audit[i] == audit'[i];
    }
  }

  /** The messages that a restart may have to log. */
  function Waiting(outbox: map<MessageId, Record>): set<MessageId> {
    set id | id in outbox && (outbox[id].status.Staged? || outbox[id].status.Pending?)
  }

  // ----- How many events there are to log

  ghost function IntentCount(pending: map<AuditId, seq<Event>>, ids: set<AuditId>): nat
    requires ids <= pending.Keys
  {
    if ids == {} then 0 else
      var id :| id in ids;
      |pending[id]| + IntentCount(pending, ids - {id})
  }

  lemma {:induction false} IntentCountByAny(pending: map<AuditId, seq<Event>>, ids: set<AuditId>, id: AuditId)
    requires ids <= pending.Keys && id in ids
    ensures IntentCount(pending, ids) == |pending[id]| + IntentCount(pending, ids - {id})
    decreases |ids|
  {
    var first :| first in ids && IntentCount(pending, ids) == |pending[first]| + IntentCount(pending, ids - {first});
    if first != id {
      IntentCountByAny(pending, ids - {first}, id);
      IntentCountByAny(pending, ids - {id}, first);
      assert ids - {first} - {id} == ids - {id} - {first};
    }
  }

  lemma AbsentIsMarked(d: Disk, past: Past, supply: nat)
    requires Inv(d, past, supply) && d.manifest.None?
    ensures Marked(d.outbox)
  {
    assert Inside(d, supply, 0) && Within(0);
  }

  // ----- After a restart

  const DELETED := EMPTY_DISK.(tombstone := true)

  /** Activated, and its activation logged, or dropped. */
  predicate AtRestRecord(r: Record) {
    !r.status.Staged? && (r.status.Pending? ==> r.queuedAudited)
  }

  /** Nothing is left of any interrupted operation. */
  predicate AtRest(d: Disk) {
    if d.manifest.Some? then
      && !d.tombstone && d.manifest.value.pending == map[] && SupersedesDone(d.manifest.value, d.outbox)
      && (forall id :: id in d.outbox ==> AtRestRecord(d.outbox[id]))
      && (!d.manifest.value.dialogue.phase.Terminal() ==> d.final.None?)
    else
      && (forall id :: id in d.outbox ==> d.outbox[id].status.Orphaned?)
      && (d.tombstone ==> d == DELETED)
  }

  /** Every message is either its committed transition's, and was activated or superseded, or its
      transition was not committed, and it was dropped. */
  lemma RestSettlesMessages(d: Disk, past: Past, supply: nat, id: MessageId)
    requires Inv(d, past, supply) && AtRest(d) && id in d.outbox
    ensures
      if d.outbox[id].transition in past.committed
      then d.outbox[id].status.Live() || d.outbox[id].status.Acknowledged? || d.outbox[id].status.Superseded?
      else d.outbox[id].status.Dropped()
  {
    InUseIsCommitted(d, past, supply, id);
    CommittedIsKept(d, past, supply, id);
  }

  lemma CommittedIsKept(d: Disk, past: Past, supply: nat, id: MessageId)
    requires Inv(d, past, supply) && id in d.outbox
    ensures d.outbox[id].transition in past.committed ==> !d.outbox[id].status.Dropped()
  {
    assert Inside(d, supply, 0) && Within(0);
  }

  /** Every event that a saved manifest ever intended is logged exactly once, and no other is. */
  lemma RestLogsExactly(d: Disk, past: Past, supply: nat)
    requires Inv(d, past, supply) && AtRest(d) && d.manifest.Some?
    ensures forall key :: key in past.saved && key.DurableKey? ==>
      exists i :: 0 <= i < |d.audit| && d.audit[i] == Durable(key.id, past.saved[key])
    ensures forall i :: 0 <= i < |d.audit| && d.audit[i].Durable? ==> KeyOf(d.audit[i]) in past.saved
    ensures forall i, j :: 0 <= i < j < |d.audit| ==> KeyOf(d.audit[i]) != KeyOf(d.audit[j])
  {
    forall key | key in past.saved && key.DurableKey?
      ensures exists i :: 0 <= i < |d.audit| && d.audit[i] == Durable(key.id, past.saved[key])
    {
      SavedIsLogged(d, past, supply, key);
    }
    forall i | 0 <= i < |d.audit|
      ensures d.audit[i].Durable? ==> KeyOf(d.audit[i]) in past.saved
      ensures forall j :: 0 <= j < |d.audit| && KeyOf(d.audit[j]) == KeyOf(d.audit[i]) ==> i == j
    {
      LoggedWasSaved(d, past, supply, i);
    }
  }

  /** A message that waits to be received has its activation in the log, once. */
  lemma RestLogsPending(d: Disk, past: Past, supply: nat, id: MessageId)
    requires Inv(d, past, supply) && AtRest(d) && d.manifest.Some? && id in d.outbox && d.outbox[id].status.Pending?
    ensures LoggedOnce(d.audit, MessageQueued(id))
  {
    NotesAreTrue(d, past, supply);
    OnceLogged(d, past, supply, id);
  }

  ghost predicate LoggedOnce(audit: seq<Entry>, entry: Entry) {
    exists i :: 0 <= i < |audit| && audit[i] == entry && forall j :: 0 <= j < |audit| && KeyOf(audit[j]) == KeyOf(entry) ==> j == i
  }

  lemma OnceLogged(d: Disk, past: Past, supply: nat, id: MessageId)
    requires Inv(d, past, supply) && d.manifest.Some? && Logged(d.audit, QueuedKey(id))
    ensures LoggedOnce(d.audit, MessageQueued(id))
  {
    var i: nat :| i < |d.audit| && KeyOf(d.audit[i]) == QueuedKey(id);
    LoggedWasSaved(d, past, supply, i);
  }

  /** Where every record in use is marked, the log has exactly the activations of the messages that are
      or were in circulation, each once. */
  lemma MarkedLogsExactly(d: Disk, past: Past, supply: nat, id: MessageId)
    requires Inv(d, past, supply) && d.manifest.Some? && !d.tombstone && Marked(d.outbox)
    ensures id in d.outbox && d.outbox[id].status.InUse() <==> Logged(d.audit, QueuedKey(id))
    ensures Logged(d.audit, QueuedKey(id)) ==> LoggedOnce(d.audit, MessageQueued(id))
  {
    assert Marking(0);
    NotesAreTrue(d, past, supply);
    if Logged(d.audit, QueuedKey(id)) {
      OnceLogged(d, past, supply, id);
    }
  }

  /** A complete dialogue has its final record and a running one has none; what a cancelled one has is a
      matter of its run. */
  lemma RestHasFinal(d: Disk, past: Past, supply: nat)
    requires Inv(d, past, supply) && AtRest(d) && d.manifest.Some?
    ensures
      var dialogue := d.manifest.value.dialogue;
      && (dialogue.phase.Complete? ==>
            && FullRecord(dialogue, d.files) && dialogue.participants != [] && FilesPresent(dialogue, d.files)
            && Slot(Synthesis, 0, dialogue.participants[0]) in dialogue.submissions
            && d.final == Some(FinalRecord(dialogue, d.files)))
      && (!dialogue.phase.Terminal() ==> d.final == None)
  {
    DialogueFacts(d, past, supply);
    if d.manifest.value.dialogue.phase.Complete? {
      CompletionNeedsTheFullRecord(d.manifest.value.dialogue, d.files);
    }
  }

  // ----- Between two moments of one operation

  /** The dialogue, its files and its messages are the same; statuses moved on, the log may have
      grown and intents may have been staged or cleared. */
  ghost predicate Tidied(d: Disk, d': Disk) {
    && d.manifest.Some? && d'.manifest.Some?
    && d'.manifest.value == d.manifest.value.(pending := d'.manifest.value.pending)
    && d'.files == d.files && d'.final == d.final && d'.tombstone == d.tombstone
    && d.audit <= d'.audit
    && d'.outbox.Keys == d.outbox.Keys
    && forall id :: id in d.outbox ==> SameMessage(d.outbox[id], d'.outbox[id])
  }

  lemma TidiedTwice(a: Disk, b: Disk, c: Disk)
    requires Tidied(a, b) && Tidied(b, c)
    ensures Tidied(a, c)
  {
    forall id | id in a.outbox
      ensures SameMessage(a.outbox[id], c.outbox[id])
    {
      assert SameMessage(a.outbox[id], b.outbox[id]);
    }
  }

  /** The outbox once the live ones of the given messages are out of circulation. */
  function Withdrawn(outbox: map<MessageId, Record>, ids: set<MessageId>): map<MessageId, Record> {
    map id | id in outbox ::
      if id in ids && outbox[id].status.Live() then outbox[id].(status := Superseded) else outbox[id]
  }

  lemma WithdrawingOne(outbox: map<MessageId, Record>, ids: set<MessageId>, id: MessageId)
    ensures
      var before, after := Withdrawn(outbox, ids), Withdrawn(outbox, ids + {id});
      if id in outbox && before[id].status.Live()
      then after == before[id := before[id].(status := Superseded)]
      else after == before
  {
  }

  lemma WithdrawnKeepsStaged(outbox: map<MessageId, Record>, ids: set<MessageId>, transition: TransitionId)
    ensures StagedUnder(Withdrawn(outbox, ids), transition) == StagedUnder(outbox, transition)
  {
  }

  /** With nothing left to do there is nothing pending, staged or to be superseded. */
  lemma QuietIsDone(d: Disk, past: Past, supply: nat)
    requires Inv(d, past, supply) && d.manifest.Some?
    ensures Quiet(d.manifest.value, d.outbox, past) ==>
      d.manifest.value.pending.Keys == {} && StagedUnder(d.outbox, d.manifest.value.committed) == {}
  {
    DialogueFacts(d, past, supply);
    if Quiet(d.manifest.value, d.outbox, past) {
      forall id ensures id !in StagedUnder(d.outbox, d.manifest.value.committed) {
        if id in StagedUnder(d.outbox, d.manifest.value.committed) {
          assert Committed(d.outbox, past, id);
        }
      }
    }
  }

  lemma WithdrawnTidies(d: Disk, ids: set<MessageId>)
    requires d.manifest.Some?
    ensures Tidied(d, d.(outbox := Withdrawn(d.outbox, ids)))
    ensures ids == d.manifest.value.supersedes ==> SupersedesDone(d.manifest.value, Withdrawn(d.outbox, ids))
  {
    assert Withdrawn(d.outbox, ids).Keys == d.outbox.Keys;
  }

  lemma WithdrawingNone(outbox: map<MessageId, Record>)
    ensures Withdrawn(outbox, {}) == outbox
  {
  }

  lemma OnlyRecordTidies(a: Disk, b: Disk, c: Disk, id: MessageId)
    requires Tidied(a, b) && OnlyRecord(b, c, id)
    ensures Tidied(a, c)
  {
    assert b.outbox.Keys == c.outbox.Keys;
    forall x | x in b.outbox
      ensures SameMessage(b.outbox[x], c.outbox[x])
    {
    }
    TidiedTwice(a, b, c);
  }

  /** A message staged under a transition that is not the committed one. */
  predicate Uncommitted(r: Record, committed: TransitionId) {
    r.status.Staged? && r.transition != committed
  }

  /** The records outside `todo` are settled: at rest, and aborted if they were uncommitted; a name,
      until a proof says `Marking`. */
  ghost predicate SettledBut(
    first: map<MessageId, Record>, outbox: map<MessageId, Record>, committed: TransitionId, todo: set<MessageId>)
  {
    forall n: nat {:trigger Marking(n)} :: Marking(n) ==>
      && outbox.Keys == first.Keys
      && (forall id :: id in outbox ==> if id in todo then outbox[id] == first[id] || outbox[id].status.Superseded? else AtRestRecord(outbox[id]))
      && (forall id :: id in first && Uncommitted(first[id], committed) ==>
            if id in todo then outbox[id] == first[id] else outbox[id].status.Aborted?)
  }

  lemma WaitingFromFirst(
    first: map<MessageId, Record>, outbox: map<MessageId, Record>, committed: TransitionId, todo: set<MessageId>, id: MessageId)
    requires SettledBut(first, outbox, committed, todo) && id in todo
    ensures {id} * Waiting(outbox) <= Waiting(first)
  {
    assert Marking(0);
  }

  lemma OneMoreSettled(
    first: map<MessageId, Record>, outbox: map<MessageId, Record>, outbox': map<MessageId, Record>, committed: TransitionId,
    todo: set<MessageId>, id: MessageId)
    requires SettledBut(first, outbox, committed, todo) && id in todo && id in outbox && id in outbox' && OthersStay(outbox, outbox', id)
    requires AtRestRecord(outbox'[id]) && (Uncommitted(outbox[id], committed) ==> outbox'[id].status.Aborted?)
    ensures SettledBut(first, outbox', committed, todo - {id})
  {
    assert Marking(0);
  }

  lemma AbortTidies(d: Disk, id: MessageId)
    requires d.manifest.Some? && id in d.outbox && d.outbox[id].status.Staged?
    ensures Tidied(d, Apply(d, PutRecord(id, d.outbox[id].(status := Aborted))))
  {
  }

  lemma NothingTidied(d: Disk)
    requires d.manifest.Some?
    ensures Tidied(d, d)
  {
  }

  /** A received message, other than a completion notice, whose response is safe. */
  predicate MayRecover(d: Disk, id: MessageId)
    requires d.manifest.Some? && id in d.outbox
  {
    && (d.outbox[id].status.Claimed? || d.outbox[id].status.Delivered?)
    && !d.outbox[id].kind.CompletionNotice?
    && ResponseIsSafe(d.manifest.value.dialogue, d.final, id, d.outbox[id])
  }

  predicate NoneRecoverable(d: Disk)
    requires d.manifest.Some?
  {
    forall id :: id in d.outbox ==> !MayRecover(d, id)
  }

  /** The outbox once those of the given messages are acknowledged that may be. */
  function Recovered(d: Disk, ids: set<MessageId>): map<MessageId, Record>
    requires d.manifest.Some?
  {
    map id | id in d.outbox :: if id in ids && MayRecover(d, id) then d.outbox[id].(status := Acknowledged) else d.outbox[id]
  }

  lemma RecoveringOne(d: Disk, id: MessageId)
    requires d.manifest.Some? && id in d.outbox
    ensures
      Recovered(d, {id}) ==
        if MayRecover(d, id) then d.outbox[id := d.outbox[id].(status := Acknowledged)] else d.outbox
  {
  }

  lemma RecoveringNone(d: Disk)
    requires d.manifest.Some?
    ensures Recovered(d, {}) == d.outbox
  {
  }

  lemma RecoveringMore(d: Disk, d': Disk, ids: set<MessageId>, id: MessageId)
    requires Tidied(d, d') && d'.outbox == Recovered(d, ids) && id in d.outbox
    ensures Recovered(d', {id}) == Recovered(d, ids + {id})
  {
  }

  function MessagesFor(outbox: map<MessageId, Record>, p: Participant): set<MessageId> {
    set id | id in outbox && id.recipient == p
  }

  function ClaimableFor(outbox: map<MessageId, Record>, p: Participant, now: nat): set<MessageId> {
    set id | id in outbox && id.recipient == p && Claimable(outbox[id], now)
  }

  /** Delivered messages are delivered again until they are acknowledged. */
  predicate Redeliverable(r: Record) {
    r.status.Pending? || r.status.Delivered?
  }

  function RedeliverableFor(outbox: map<MessageId, Record>, p: Participant): set<MessageId> {
    set id | id in outbox && id.recipient == p && Redeliverable(outbox[id])
  }

  datatype AckVerdict = UnknownMessage | UnknownDialogue | NotAParticipant | AlreadyAcknowledged | AlreadySuperseded
                      | NotReceived | Unanswered | AcknowledgedNow

  /** The decision on an acknowledgement. */
  function Acknowledging(d: Disk, p: Participant, uuid: nat): AckVerdict {
    var id := MessageId(p, uuid);
    if id !in d.outbox then UnknownMessage
    else if d.manifest.None? then UnknownDialogue
    else if p !in d.manifest.value.dialogue.participants then NotAParticipant
    else if d.outbox[id].status.Acknowledged? then AlreadyAcknowledged
    else if d.outbox[id].status.Superseded? then AlreadySuperseded
    else if !d.outbox[id].status.Claimed? && !d.outbox[id].status.Delivered? then NotReceived
    else if !ResponseIsSafe(d.manifest.value.dialogue, d.final, id, d.outbox[id]) then Unanswered
    else AcknowledgedNow
  }

  /** A participant's unacknowledged messages may have been delivered; all else is as it was. */
  ghost predicate Redelivered(outbox: map<MessageId, Record>, outbox': map<MessageId, Record>, p: Participant) {
    && outbox'.Keys == outbox.Keys
    && forall id :: id in outbox ==>
         if id.recipient == p && Redeliverable(outbox[id])
         then Redeliverable(outbox'[id]) && outbox'[id] == outbox[id].(status := outbox'[id].status)
         else outbox'[id] == outbox[id]
  }

  lemma RedeliveredOne(
    outbox: map<MessageId, Record>, before: map<MessageId, Record>, after: map<MessageId, Record>, p: Participant, id: MessageId)
    requires Redelivered(outbox, before, p)
    requires id in outbox && id.recipient == p && Redeliverable(outbox[id])
    requires id in after && after == before[id := after[id]] && Redeliverable(after[id])
    requires after[id] == before[id].(status := after[id].status)
    ensures Redelivered(outbox, after, p)
  {
  }

  /** A participant gets one of its claimable messages, claimed from now on, or there is none; a
      claimable message's transition is committed. */
  ghost predicate HandsOut(
    outbox: map<MessageId, Record>, outbox': map<MessageId, Record>, past: Past, p: Participant, now: nat,
    message: Option<MessageId>)
  {
    match message
    case None => ClaimableFor(outbox, p, now) == {} && outbox' == outbox
    case Some(id) =>
      && id in ClaimableFor(outbox, p, now) && Committed(outbox, past, id)
      && outbox' == outbox[id := outbox[id].(status := Claimed(now + CLAIM_SECONDS))]
  }

  lemma RecoverySavesNoTransition(past: Past, intent: AuditId)
    requires intent.OfAcknowledgement?
    ensures SameTransitions(past, Saving(past, intent, [AcknowledgementRecovered]))
  {
  }

  lemma RecoveryKeeps(d: Disk, past: Past, supply: nat, id: MessageId)
    requires Inv(d, past, supply) && d.manifest.Some?
    ensures
      var intent := OfAcknowledgement(id);
      var w := PutManifest(d.manifest.value.(pending := d.manifest.value.pending[intent := [AcknowledgementRecovered]]));
      var past' := Saving(past, intent, [AcknowledgementRecovered]);
      && Inv(Apply(d, w), past', supply) && DiskGrown(d, Apply(d, w)) && PastGrown(past, past')
      && DurableKey(intent, Recovery) in past'.saved
  {
    var intent := OfAcknowledgement(id);
    assert AcknowledgementRecovered in [AcknowledgementRecovered];
    AuditFacts(d, past, supply);
    RecoveryKeepsAudit(d.manifest.value, d.audit, past, supply, id);
    RecoverySavesNoTransition(past, intent);
    PendingKeeps(d, past, supply, d.manifest.value.pending[intent := [AcknowledgementRecovered]],
                 Saving(past, intent, [AcknowledgementRecovered]));
  }

  // ----- What each save of a manifest adds to the past

  lemma CommitAdds(past: Past, d': Dialogue, transition: TransitionId, supersedes: set<MessageId>, events: seq<Event>)
    requires DistinctNames(events)
    requires forall name :: DurableKey(OfTransition(transition), name) !in past.saved
    ensures NextPast(past, PutManifest(CommittedManifest(d', transition, supersedes, events))) == CommittedPast(past, transition, events)
  {
    var id, m, next := OfTransition(transition), CommittedManifest(d', transition, supersedes, events), CommittedPast(past, transition, events);
    SavingHolds(past.(committed := past.committed + {transition}), id, events);
    forall key | key in next.saved && key !in past.saved
      ensures key in IntentKeys(m.pending)
    {
      var e :| e in events && key == DurableKey(id, NameOf(e));
      assert e in m.pending[id];
    }
    PastIsNext(past, m, next);
  }

  lemma ClearAdds(d: Disk, past: Past, supply: nat, ids: set<AuditId>)
    requires Inv(d, past, supply) && d.manifest.Some?
    ensures NextPast(past, PutManifest(d.manifest.value.(pending := d.manifest.value.pending - ids))) == past
  {
    assert Inside(d, supply, 0) && Within(0);
    PastIsNext(past, d.manifest.value.(pending := d.manifest.value.pending - ids), past);
  }

  lemma RecoveryAdds(d: Disk, past: Past, supply: nat, id: MessageId)
    requires Inv(d, past, supply) && d.manifest.Some?
    ensures
      var intent := OfAcknowledgement(id);
      var m := d.manifest.value;
      NextPast(past, PutManifest(m.(pending := m.pending[intent := [AcknowledgementRecovered]])))
        == Saving(past, intent, [AcknowledgementRecovered])
  {
    var intent, m := OfAcknowledgement(id), d.manifest.value;
    var pending, next := m.pending[intent := [AcknowledgementRecovered]], Saving(past, intent, [AcknowledgementRecovered]);
    PendingSaved(d, past, supply);
    RecoverySaves(past, intent);
    forall key | key in next.saved && key !in IntentKeys(pending)
      ensures key in past.saved && next.saved[key] == past.saved[key]
    {
      assert AcknowledgementRecovered in pending[intent];
    }
    forall x, e | x in pending && e in pending[x]
      ensures DurableKey(x, NameOf(e)) in next.saved && next.saved[DurableKey(x, NameOf(e))] == e
    {
      if x != intent {
        assert e in m.pending[x];
      }
    }
    PastIsNext(past, m.(pending := pending), next);
  }

  lemma PendingSaved(d: Disk, past: Past, supply: nat)
    requires Inv(d, past, supply) && d.manifest.Some?
    ensures d.manifest.value.committed in past.committed
    ensures forall id, e :: id in d.manifest.value.pending && e in d.manifest.value.pending[id] ==>
      DurableKey(id, NameOf(e)) in past.saved && past.saved[DurableKey(id, NameOf(e))] == e
  {
    assert Inside(d, supply, 0) && Within(0);
  }

  lemma RecoverySaves(past: Past, intent: AuditId)
    ensures
      var next := Saving(past, intent, [AcknowledgementRecovered]);
      && next.committed == past.committed
      && DurableKey(intent, Recovery) in next.saved && next.saved[DurableKey(intent, Recovery)] == AcknowledgementRecovered
      && (forall key :: key in past.saved ==> key in next.saved)
      && (forall key :: key in next.saved && key != DurableKey(intent, Recovery) ==>
            key in past.saved && next.saved[key] == past.saved[key])
  {
    assert AcknowledgementRecovered in [AcknowledgementRecovered];
  }

  predicate Claimable(r: Record, now: nat) {
    r.status.Pending? || (r.status.Claimed? && r.status.until <= now)
  }

  function StagedUnder(outbox: map<MessageId, Record>, transition: TransitionId): set<MessageId> {
    set id | id in outbox && outbox[id].status.Staged? && outbox[id].transition == transition
  }

  lemma OneLessStaged(
    outbox: map<MessageId, Record>, outbox': map<MessageId, Record>, transition: TransitionId, id: MessageId)
    requires id in outbox && id in outbox' && outbox' == outbox[id := outbox'[id]] && !outbox'[id].status.Staged?
    ensures StagedUnder(outbox', transition) == StagedUnder(outbox, transition) - {id}
  {
  }

  lemma NoneStaged(d: Disk, past: Past, supply: nat)
    requires Inv(d, past, supply) && d.manifest.Some? && StagedUnder(d.outbox, d.manifest.value.committed) == {}
    ensures forall id :: Committed(d.outbox, past, id) ==> !d.outbox[id].status.Staged?
  {
    forall id | Committed(d.outbox, past, id)
      ensures !d.outbox[id].status.Staged?
    {
      assert id !in StagedUnder(d.outbox, d.manifest.value.committed);
      if d.outbox[id].status.Staged? {
        StagedIsCurrent(d, past, supply, id);
      }
    }
  }

  /** All other records are as they were, or out of circulation. */
  ghost predicate OthersStay(outbox: map<MessageId, Record>, outbox': map<MessageId, Record>, id: MessageId) {
    && outbox'.Keys == outbox.Keys
    && forall x :: x in outbox && x != id ==>
         outbox'[x] == outbox[x] || (outbox[x].status.Live() && outbox'[x] == outbox[x].(status := Superseded))
  }

  lemma WithdrawnStays(outbox: map<MessageId, Record>, outbox': map<MessageId, Record>, supersedes: set<MessageId>, id: MessageId)
    requires exists done :: done <= supersedes && outbox' == Withdrawn(outbox, done)
    ensures OthersStay(outbox, outbox', id)
    ensures id in outbox ==> outbox'[id] == outbox[id] || outbox'[id].status.Superseded?
  {
    var done :| done <= supersedes && outbox' == Withdrawn(outbox, done);
    assert outbox'.Keys == outbox.Keys;
  }

  lemma OthersStayToo(outbox: map<MessageId, Record>, mid: map<MessageId, Record>, after: map<MessageId, Record>, id: MessageId)
    requires OthersStay(outbox, mid, id) && id in mid && id in after && after == mid[id := after[id]]
    ensures OthersStay(outbox, after, id)
  {
  }

  /** Nothing changed but one record's status and the log, which may have grown. */
  ghost predicate OnlyRecord(d: Disk, d': Disk, id: MessageId) {
    && d'.manifest == d.manifest && d'.files == d.files && d'.final == d.final && d'.tombstone == d.tombstone
    && d.audit <= d'.audit
    && id in d.outbox && id in d'.outbox && d'.outbox == d.outbox[id := d'.outbox[id]]
    && SameMessage(d.outbox[id], d'.outbox[id])
  }

  /** The log grew only by pending intents of the given identities. */
  ghost predicate LoggedMore(audit: seq<Entry>, audit': seq<Entry>, pending: map<AuditId, seq<Event>>, ids: set<AuditId>) {
    && audit <= audit'
    && forall i :: |audit| <= i < |audit'| ==>
         && audit'[i].Durable? && audit'[i].id in ids
         && audit'[i].id in pending && audit'[i].event in pending[audit'[i].id]
  }

  predicate AllLogged(audit: seq<Entry>, id: AuditId, events: seq<Event>) {
    forall e :: e in events ==> Logged(audit, DurableKey(id, NameOf(e)))
  }

  lemma LoggingOne(audit: seq<Entry>, audit': seq<Entry>, id: AuditId, events: seq<Event>, event: Event)
    requires audit <= audit' && AllLogged(audit, id, events) && Logged(audit', DurableKey(id, NameOf(event)))
    ensures AllLogged(audit', id, events + [event])
  {
    forall e | e in events
      ensures Logged(audit', DurableKey(id, NameOf(e)))
    {
      LoggedStays(audit, audit', DurableKey(id, NameOf(e)));
    }
  }

  lemma AppendedIsLogged(audit: seq<Entry>, entry: Entry)
    ensures Logged(audit + [entry], KeyOf(entry))
  {
    assert KeyOf((audit + [entry])[|audit|]) == KeyOf(entry);
  }

  lemma AllLoggedStays(audit: seq<Entry>, audit': seq<Entry>, pending: map<AuditId, seq<Event>>, ids: set<AuditId>)
    requires audit <= audit' && forall id :: id in ids && id in pending ==> AllLogged(audit, id, pending[id])
    ensures forall id :: id in ids && id in pending ==> AllLogged(audit', id, pending[id])
  {
    forall id | id in ids && id in pending
      ensures AllLogged(audit', id, pending[id])
    {
      forall e | e in pending[id]
        ensures Logged(audit', DurableKey(id, NameOf(e)))
      {
        LoggedStays(audit, audit', DurableKey(id, NameOf(e)));
      }
    }
  }

  /** Saving the manifest without the intents that are logged. */
  lemma ClearKeeps(d: Disk, past: Past, supply: nat, cleared: set<AuditId>)
    requires Inv(d, past, supply) && d.manifest.Some?
    requires forall id :: id in cleared && id in d.manifest.value.pending ==>
      AllLogged(d.audit, id, d.manifest.value.pending[id])
    ensures
      var w := PutManifest(d.manifest.value.(pending := d.manifest.value.pending - cleared));
      Inv(Apply(d, w), past, supply) && DiskGrown(d, Apply(d, w))
  {
    var m := d.manifest.value;
    assert Audited(m.(pending := m.pending - cleared), d.audit, past, supply) by {
      AuditFacts(d, past, supply);
      ClearKeepsAudit(m, d.audit, past, supply, cleared);
    }
    PendingKeeps(d, past, supply, m.pending - cleared, past);
  }

  lemma AuditFacts(d: Disk, past: Past, supply: nat)
    requires Inv(d, past, supply) && d.manifest.Some?
    ensures Audited(d.manifest.value, d.audit, past, supply)
  {
    assert Inside(d, supply, 0);
  }

  /** Messages were added to the outbox, all of them staged under one transition. */
  ghost predicate Staging(outbox: map<MessageId, Record>, outbox': map<MessageId, Record>, transition: TransitionId) {
    && (forall id :: id in outbox ==> id in outbox' && outbox'[id] == outbox[id])
    && (forall id :: id in outbox' && id !in outbox ==>
          outbox'[id].status.Staged? && outbox'[id].transition == transition)
  }

  lemma StagingKeepsQuiet(
    m: Manifest, outbox: map<MessageId, Record>, outbox': map<MessageId, Record>, past: Past, transition: TransitionId)
    requires Quiet(m, outbox, past) && Staging(outbox, outbox', transition) && transition !in past.committed
    ensures Quiet(m, outbox', past)
    ensures forall id :: Committed(outbox', past, id) <==> Committed(outbox, past, id)
  {
    assert forall id :: Committed(outbox', past, id) ==> Committed(outbox, past, id);
  }

  /** One more message staged. */
  lemma BatchGrows(
    outbox: map<MessageId, Record>, transition: TransitionId, messages: seq<Outgoing>, ids: seq<MessageId>,
    message: Outgoing, id: MessageId)
    requires Batch(outbox, transition, messages, ids) && id !in outbox && id.recipient == message.recipient
    ensures Batch(outbox[id := Record(message.kind, message.round, transition, Staged, false)], transition,
                  messages + [message], ids + [id])
  {
  }

  // ----- What the operations commit

  /** The events of an accepted submission. */
  function SubmissionEvents(p: Participant, kind: Kind, round: nat, completed: bool): (events: seq<Event>)
    ensures DistinctNames(events)
  {
    [SubmissionReceived(p, kind, round)] + if completed then [DialogueCompleted(round)] else []
  }

  function AfterSubmission(d: Dialogue, files: Files, path: Path): Opening
    requires Sound(Recorded(d, path), files) && d.phase.Collecting?
  {
    Advanced(Recorded(d, path), files)
  }

  /** What an advance may come to. */
  ghost predicate Outcomes(d1: Dialogue, o: Opening)
    requires d1.participants != [] && d1.phase.Collecting?
  {
    || o == Opening(d1, [], None)
    || (FullAt(d1, d1.phase.kind, SlotRound(d1.phase.kind, ArtifactRound(d1))) &&
        (OpensNext(d1, o) || CompletesNow(d1, o)))
  }

  lemma CompletionAnnounces(d: Dialogue, o: Opening)
    requires CompletesNow(d, o) && NoRepeats(d.participants)
    ensures AnnouncesTo(o.messages, d.participants, None)
  {
    forall p | p in d.participants ensures exists k: nat :: k < |o.messages| && o.messages[k].recipient == p {
      var k: nat :| k < |d.participants| && d.participants[k] == p;
      assert o.messages[k].recipient == p;
    }
  }

  lemma OutcomesFollow(
    d: Dialogue, path: Path, o: Opening, final: Option<Final>, outbox: map<MessageId, Record>, past: Past)
    requires d.phase.Collecting? && SlotOf(path) !in d.submissions && d.participants != [] && NoRepeats(d.participants)
    requires Outcomes(Recorded(d, path), o)
    requires o.final.Some? ==> final == o.final
    ensures Follows(d, o.dialogue, o.messages, {}, final, outbox, past)
  {
    var d1 := Recorded(d, path);
    if o == Opening(d1, [], None) {
      assert GoesOn(d, o.dialogue, o.messages, {});
    } else {
      assert PhaseAnswered(d, o.dialogue);
      if OpensNext(d1, o) {
        assert OpensPhase(d, o.dialogue, o.messages, {}, outbox, past);
      } else {
        CompletionAnnounces(d1, o);
        assert Completes(d, o.dialogue, o.messages, final);
      }
    }
  }

  /** An accepted submission goes on with the phase, opens a later one, or completes. */
  lemma SubmissionFollows(
    d: Dialogue, files: Files, path: Path, final: Option<Final>, outbox: map<MessageId, Record>, past: Past)
    requires d.phase.Collecting? && SlotOf(path) !in d.submissions
    requires Sound(Recorded(d, path), files) && d.participants != []
    requires AfterSubmission(d, files, path).final.Some? ==> final == AfterSubmission(d, files, path).final
    ensures
      var o := AfterSubmission(d, files, path);
      Follows(d, o.dialogue, o.messages, {}, final, outbox, past)
  {
    AdvanceOpensLater(Recorded(d, path), files);
    OutcomesFollow(d, path, AfterSubmission(d, files, path), final, outbox, past);
  }

  lemma CompletesByNext(d: Dialogue, files: Files)
    requires CanAdvance(d, files) && Next(d, files).dialogue.phase.Complete?
    ensures Slot(Synthesis, 0, d.participants[0]) in d.submissions
    ensures Next(d, files) == Completed(d, files)
  {
  }

  /** Completion changes nothing that the final record reads. */
  lemma CompletedFinal(d: Dialogue, files: Files)
    requires d.participants != [] && FilesPresent(d, files) && Slot(Synthesis, 0, d.participants[0]) in d.submissions
    ensures
      var o := Completed(d, files);
      && FilesPresent(o.dialogue, files) && Slot(Synthesis, 0, d.participants[0]) in o.dialogue.submissions
      && o.dialogue.participants == d.participants && o.final == Some(FinalRecord(o.dialogue, files))
  {
    var o := Completed(d, files);
    assert Bodies(o.dialogue, files, Challenge, d.round) == Bodies(d, files, Challenge, d.round);
    assert Bodies(o.dialogue, files, Check, 0) == Bodies(d, files, Check, 0);
    assert Bodies(o.dialogue, files, RevisionCheck, 0) == Bodies(d, files, RevisionCheck, 0);
  }

  /** The final record written before the commit is the completed dialogue's. */
  lemma SubmissionFinal(d: Dialogue, files: Files)
    requires Sound(d, files) && d.phase.Collecting?
    ensures
      var o := Advanced(d, files);
      && (o.final.Some? <==> o.dialogue.phase.Complete?)
      && (o.dialogue.phase.Complete? ==>
            FilesPresent(o.dialogue, files) && d.participants != [] && o.dialogue.participants == d.participants &&
            Slot(Synthesis, 0, d.participants[0]) in o.dialogue.submissions &&
            o.final == Some(FinalRecord(o.dialogue, files)) && o.dialogue.round == d.round)
      && o.dialogue.extensions == d.extensions && !o.dialogue.phase.Cancelled?
  {
    AdvanceOpensLater(d, files);
    if BarrierReached(d) {
      BarrierIsFull(d, files);
      assert Advanced(d, files) == Next(d, files);
      if Next(d, files).dialogue.phase.Complete? {
        CompletesByNext(d, files);
        CompletedFinal(d, files);
      }
    }
  }

  /** An accepted submission tells of itself and of a completion. */
  lemma SubmissionTells(
    d: Dialogue, files: Files, path: Path, o: Opening, past: Past, transition: TransitionId)
    requires d.phase.Collecting? && SlotOf(path) !in d.submissions && path.round == d.round
    requires forall s :: s in d.submissions ==> SlotOf(d.submissions[s]) == s
    requires o.dialogue.submissions == Recorded(d, path).submissions && o.dialogue.extensions == d.extensions && !o.dialogue.phase.Cancelled?
    requires o.final.Some? <==> o.dialogue.phase.Complete?
    requires o.final.Some? ==> o.dialogue.round == d.round
    requires EventsTold(d, past.saved) && forall name :: DurableKey(OfTransition(transition), name) !in past.saved
    ensures EventsTold(o.dialogue, CommittedPast(past, transition, SubmissionEvents(path.participant, path.kind, path.round, o.final.Some?)).saved)
  {
    var events := SubmissionEvents(path.participant, path.kind, path.round, o.final.Some?);
    var received := SubmissionReceived(path.participant, path.kind, path.round);
    assert o.dialogue.submissions[SlotOf(path)] == path;
    assert events[0] == received && (o.final.Some? ==> events[1] == DialogueCompleted(path.round));
    forall e | Happened(d, e) ensures Happened(o.dialogue, e) {
      if e.SubmissionReceived? {
        var s :| s in d.submissions && d.submissions[s] == Path(e.kind, e.round, e.participant);
        assert o.dialogue.submissions[s] == d.submissions[s];
      }
    }
    forall e | Happened(o.dialogue, e) && !Happened(d, e) && !e.DialogueCancelled? ensures e in events {
      if e.SubmissionReceived? {
        var s :| s in o.dialogue.submissions && o.dialogue.submissions[s] == Path(e.kind, e.round, e.participant);
        assert s == SlotOf(path) || s in d.submissions;
      }
    }
    NewsAreTold(d, o.dialogue, past, transition, events);
  }

  lemma SameChangesSaved(
    m: Manifest, d': Dialogue, past: Past, transition: TransitionId, supersedes: set<MessageId>, events: seq<Event>)
    requires ChangesSaved(m, past) && d'.extensions == m.dialogue.extensions && !d'.phase.Cancelled?
    requires DistinctNames(events) && PastGrown(past, CommittedPast(past, transition, events))
    requires EventsTold(d', CommittedPast(past, transition, events).saved)
    ensures ChangesSaved(CommittedManifest(d', transition, supersedes, events), CommittedPast(past, transition, events))
  {
  }
}
