/** Every kind of durable write keeps the invariant and takes nothing back. */
module BrokerSteps {
  import opened CouncilTypes
  import opened PhaseMachine
  import opened PhaseResults
  import opened BrokerDisk

  // ----- Submission files

  lemma SameHistoryByBodies(d: Dialogue, files: Files, files': Files)
    requires d.participants != [] && FilesPresent(d, files) && FilesPresent(d, files') && SameBodies(d, files, files')
    ensures ReviewHistory(d, files') == ReviewHistory(d, files)
  {
    forall r | 1 <= r <= d.round && FullAt(d, Exchange, r)
      ensures Reviews(d, files', r) == Reviews(d, files, r)
    {
    }
  }

  lemma SameCorrections(d: Dialogue, files: Files, files': Files)
    requires FilesPresent(d, files) && SameBodies(d, files, files')
    ensures MaterialCorrection(d.submissions, files') == MaterialCorrection(d.submissions, files)
  {
    if MaterialCorrection(d.submissions, files) {
      var s :| s in d.submissions && s.kind == Check && d.submissions[s] in files && Corrects(files[d.submissions[s]]);
      assert d.submissions[s] in files' && Corrects(files'[d.submissions[s]]);
    }
  }

  lemma StableByBodies(d: Dialogue, files: Files, files': Files)
    requires Stable(d, files) && SameBodies(d, files, files')
    ensures Stable(d, files')
  {
    SameHistoryByBodies(d, files, files');
    SameCorrections(d, files, files');
    assert ReviewsCurrent(d, files') by {
      assert forall s :: s in d.submissions ==> Body(d, files', s) == Body(d, files, s);
    }
  }

  lemma SameFinal(d: Dialogue, files: Files, files': Files)
    requires d.participants != [] && FilesPresent(d, files) && FilesPresent(d, files') && SameBodies(d, files, files')
    requires Slot(Synthesis, 0, d.participants[0]) in d.submissions
    ensures FinalRecord(d, files') == FinalRecord(d, files)
  {
    assert forall s :: s in d.submissions ==> Body(d, files', s) == Body(d, files, s);
    assert Bodies(d, files', Challenge, d.round) == Bodies(d, files, Challenge, d.round);
    assert Bodies(d, files', Check, 0) == Bodies(d, files, Check, 0);
    assert Bodies(d, files', RevisionCheck, 0) == Bodies(d, files, RevisionCheck, 0);
  }

  /** Writing a submission file that the manifest does not reference. */
  lemma FileKeeps(d: Disk, past: Past, supply: nat, path: Path, payload: Payload)
    requires Inv(d, past, supply) && d.manifest.Some?
    requires SlotOf(path) !in d.manifest.value.dialogue.submissions
    ensures Inv(Apply(d, PutFile(path, payload)), past, supply)
    ensures DiskGrown(d, Apply(d, PutFile(path, payload)))
  {
    assert Inside(d, supply, 0);
    FileSettles(d.manifest.value, d.files, d.final, path, payload);
    FileOutside(d, past, supply, PutFile(path, payload));
  }

  lemma FileSettles(m: Manifest, files: Files, final: Option<Final>, path: Path, payload: Payload)
    requires Settled(m, files, final) && SlotOf(path) !in m.dialogue.submissions
    ensures SameBodies(m.dialogue, files, files[path := payload])
    ensures Settled(m, files[path := payload], final)
  {
    assert Within(0);
    var files' := files[path := payload];
    assert SameBodies(m.dialogue, files, files');
    StableByBodies(m.dialogue, files, files');
    if m.dialogue.phase.Complete? {
      CompletionNeedsTheFullRecord(m.dialogue, files);
      SameFinal(m.dialogue, files, files');
    }
  }

  /** The outbox does not depend on the submission files, the final record and the log. */
  lemma FileOutside(d: Disk, past: Past, supply: nat, w: Write)
    requires Filed(d, past, supply)
    requires w.PutFile? || w.PutFinal? || w.RemoveFinal? || w.AppendAudit? || w.PutTombstone?
    ensures Filed(Apply(d, w), past, supply)
  {
    assert Within(0);
  }

  /** Writing or removing the final record of a dialogue that has not ended. */
  lemma FinalKeeps(d: Disk, past: Past, supply: nat, w: Write)
    requires Inv(d, past, supply) && d.manifest.Some? && !d.manifest.value.dialogue.phase.Terminal()
    requires w.PutFinal? || w.RemoveFinal?
    ensures Inv(Apply(d, w), past, supply)
    ensures DiskGrown(d, Apply(d, w))
  {
    assert Inside(d, supply, 0);
    FinalTold(d.manifest.value, d.files, d.final, Apply(d, w).final, d.outbox, past);
    FileOutside(d, past, supply, w);
  }

  lemma FinalTold(
    m: Manifest, files: Files, final: Option<Final>, final': Option<Final>, outbox: map<MessageId, Record>, past: Past)
    requires Settled(m, files, final) && Told(m, final, outbox, past) && !m.dialogue.phase.Complete?
    ensures Settled(m, files, final') && Told(m, final', outbox, past)
  {
    assert Within(0);
    forall id | id in outbox && outbox[id].status.Acknowledged?
      ensures ResponseIsSafe(m.dialogue, final', id, outbox[id])
    {
      assert ResponseIsSafe(m.dialogue, final, id, outbox[id]);
    }
  }

  // ----- Outbox records

  /** The committed records of two outboxes are the same, and only committed ones are in use. */
  ghost predicate CommittedAlike(outbox: map<MessageId, Record>, outbox': map<MessageId, Record>, past: Past) {
    && (forall id :: Committed(outbox, past, id) ==> id in outbox' && outbox'[id] == outbox[id])
    && (forall id :: Committed(outbox', past, id) ==> id in outbox && outbox'[id] == outbox[id])
    && (forall id :: id in outbox' && !Committed(outbox', past, id) ==>
          outbox'[id].status.Staged? || outbox'[id].status.Dropped())
  }

  lemma SameCommitted(d: Disk, past: Past, supply: nat, d': Disk)
    requires d.manifest.Some? && ManifestInv(d, past, supply) && d' == d.(outbox := d'.outbox)
    requires CommittedAlike(d.outbox, d'.outbox, past)
    ensures ManifestInv(d', past, supply)
  {
    var m := d.manifest.value;
    SameAsked(m, d.outbox, d'.outbox, past);
    SameTold(m, d.final, d.outbox, d'.outbox, past);
    SameOrder(m, d.outbox, d'.outbox, past, d.tombstone);
    SameAnnounced(m, d.outbox, d'.outbox, past, d.tombstone);
  }

  lemma SameAsked(m: Manifest, outbox: map<MessageId, Record>, outbox': map<MessageId, Record>, past: Past)
    requires m.dialogue.participants != [] && CommittedAlike(outbox, outbox', past) && Asked(m, outbox, past)
    ensures Asked(m, outbox', past)
  {
    assert Within(0);
    if m.dialogue.phase.Collecting? {
      forall p | Owes(m.dialogue, p)
        ensures exists id :: Asks(m, outbox', past, id) && id.recipient == p
      {
        var id :| Asks(m, outbox, past, id) && id.recipient == p;
        assert Asks(m, outbox', past, id);
      }
    }
  }

  lemma SameTold(
    m: Manifest, final: Option<Final>, outbox: map<MessageId, Record>, outbox': map<MessageId, Record>, past: Past)
    requires CommittedAlike(outbox, outbox', past) && Told(m, final, outbox, past)
    ensures Told(m, final, outbox', past)
  {
    assert Within(0);
  }

  lemma SameOrder(
    m: Manifest, outbox: map<MessageId, Record>, outbox': map<MessageId, Record>, past: Past, tombstone: bool)
    requires CommittedAlike(outbox, outbox', past) && Ordered(m, outbox, past, tombstone)
    requires m.committed in past.committed
    ensures Ordered(m, outbox', past, tombstone)
  {
    assert Within(0);
    if !tombstone && !SupersedesDone(m, outbox) {
      var id :| Committed(outbox, past, id) && outbox[id].status.Staged?;
      assert Committed(outbox', past, id) && outbox'[id].status.Staged?;
    }
  }

  lemma SameAnnounced(
    m: Manifest, outbox: map<MessageId, Record>, outbox': map<MessageId, Record>, past: Past, tombstone: bool)
    requires CommittedAlike(outbox, outbox', past) && Announced(m, outbox, past, tombstone)
    ensures Announced(m, outbox', past, tombstone)
  {
    assert Within(0);
    SameNotices(m, outbox, outbox', past);
  }

  /** Whoever has the same notices announces the same. */
  lemma SameNotices(m: Manifest, outbox: map<MessageId, Record>, outbox': map<MessageId, Record>, past: Past)
    requires forall id :: IsNotice(outbox, past, id) <==> IsNotice(outbox', past, id)
    ensures EndAnnounced(m, outbox, past) ==> EndAnnounced(m, outbox', past)
  {
    forall p ensures IsTold(outbox, past, p) <==> IsTold(outbox', past, p) {
      if id :| IsNotice(outbox, past, id) && id.recipient == p {
        assert IsNotice(outbox', past, id);
      }
      if id :| IsNotice(outbox', past, id) && id.recipient == p {
        assert IsNotice(outbox, past, id);
      }
    }
  }

  // ----- Marks and activations

  /** A record changes: its mark is true, and it stays or comes into circulation. */
  lemma RecordNoted(outbox: map<MessageId, Record>, audit: seq<Entry>, tombstone: bool, id: MessageId, r: Record)
    requires Noted(outbox, audit, tombstone)
    requires r.queuedAudited ==> Logged(audit, QueuedKey(id)) || (id in outbox && outbox[id].queuedAudited)
    requires id in outbox && outbox[id].status.InUse() ==> r.status.InUse()
    ensures Noted(outbox[id := r], audit, tombstone)
  {
    assert Within(0);
  }

  lemma EntryNoted(outbox: map<MessageId, Record>, audit: seq<Entry>, tombstone: bool, entry: Entry)
    requires Noted(outbox, audit, tombstone)
    requires entry.MessageQueued? ==> entry.message in outbox && outbox[entry.message].status.InUse()
    ensures Noted(outbox, audit + [entry], tombstone)
  {
    assert Within(0);
    forall id | Logged(audit, QueuedKey(id)) ensures Logged(audit + [entry], QueuedKey(id)) {
      var i :| 0 <= i < |audit| && KeyOf(audit[i]) == QueuedKey(id);
      assert (audit + [entry])[i] == audit[i];
    }
    forall id | Logged(audit + [entry], QueuedKey(id)) && entry != MessageQueued(id) ensures Logged(audit, QueuedKey(id)) {
      var i :| 0 <= i < |audit| + 1 && KeyOf((audit + [entry])[i]) == QueuedKey(id);
      assert i < |audit|;
    }
  }

  lemma DeletionNoted(outbox: map<MessageId, Record>, audit: seq<Entry>, tombstone: bool, id: MessageId)
    requires Noted(outbox, audit, tombstone)
    ensures Noted(outbox - {id}, audit, true)
  {
    assert Within(0);
  }

  lemma TombstoneNoted(outbox: map<MessageId, Record>, audit: seq<Entry>, tombstone: bool)
    requires Noted(outbox, audit, tombstone)
    ensures Noted(outbox, audit, true)
  {
    assert Within(0);
  }

  lemma EmptyNoted(audit: seq<Entry>)
    ensures Noted(map[], audit, true)
  {
  }

  lemma RecordGrown(d: Disk, id: MessageId, r: Record)
    requires id in d.outbox ==> SameMessage(d.outbox[id], r)
    ensures DiskGrown(d, Apply(d, PutRecord(id, r)))
  {
  }

  /** Staging a message under a transition that is not committed. */
  lemma StageKeeps(d: Disk, past: Past, supply: nat, id: MessageId, record: Record)
    requires Inv(d, past, supply) && (d.manifest.Some? || (past == NO_PAST && !d.tombstone))
    requires id !in d.outbox && id.uuid < supply && record.transition < supply
    requires record.transition !in past.committed && record.status.Staged? && !record.queuedAudited
    ensures Inv(Apply(d, PutRecord(id, record)), past, supply)
    ensures DiskGrown(d, Apply(d, PutRecord(id, record)))
  {
    assert Inside(d, supply, 0);
    UncommittedFiled(d, past, supply, id, record);
    RecordNoted(d.outbox, d.audit, d.tombstone, id, record);
    RecordGrown(d, id, record);
    if d.manifest.Some? {
      SameCommitted(d, past, supply, Apply(d, PutRecord(id, record)));
    }
  }

  lemma UncommittedFiled(d: Disk, past: Past, supply: nat, id: MessageId, r: Record)
    requires Filed(d, past, supply)
    requires id in d.outbox ==> d.outbox[id].transition == r.transition
    requires id.uuid < supply && r.transition < supply && r.transition !in past.committed
    requires r.status.Staged? || r.status.Dropped()
    ensures Filed(Apply(d, PutRecord(id, r)), past, supply)
    ensures CommittedAlike(d.outbox, Apply(d, PutRecord(id, r)).outbox, past)
  {
    assert Within(0);
  }

  lemma Known(d: Disk, past: Past, supply: nat, id: MessageId)
    requires Filed(d, past, supply) && id in d.outbox
    ensures id.uuid < supply && d.outbox[id].transition < supply
  {
    assert Within(0);
  }

  /** Aborting a staged message whose transition was not committed. */
  lemma AbortKeeps(d: Disk, past: Past, supply: nat, id: MessageId)
    requires Inv(d, past, supply) && d.manifest.Some?
    requires id in d.outbox && d.outbox[id].transition !in past.committed && d.outbox[id].status.Staged?
    ensures Inv(Apply(d, PutRecord(id, d.outbox[id].(status := Aborted))), past, supply)
    ensures DiskGrown(d, Apply(d, PutRecord(id, d.outbox[id].(status := Aborted))))
  {
    assert Inside(d, supply, 0);
    var r := d.outbox[id].(status := Aborted);
    Known(d, past, supply, id);
    UncommittedFiled(d, past, supply, id, r);
    RecordNoted(d.outbox, d.audit, d.tombstone, id, r);
    SameCommitted(d, past, supply, Apply(d, PutRecord(id, r)));
    RecordGrown(d, id, r);
  }

  lemma UncommittedUnused(d: Disk, past: Past, supply: nat, id: MessageId)
    requires Filed(d, past, supply) && id in d.outbox && d.outbox[id].transition !in past.committed
    ensures !d.outbox[id].status.InUse()
  {
    assert Within(0);
  }

  /** Orphaning a message of a dialogue whose manifest was never saved. */
  lemma OrphanKeeps(d: Disk, past: Past, supply: nat, id: MessageId)
    requires Inv(d, past, supply) && d.manifest.None? && id in d.outbox
    ensures Inv(Apply(d, PutRecord(id, d.outbox[id].(status := Orphaned))), past, supply)
    ensures DiskGrown(d, Apply(d, PutRecord(id, d.outbox[id].(status := Orphaned))))
  {
    assert Inside(d, supply, 0);
    Known(d, past, supply, id);
    UncommittedFiled(d, past, supply, id, d.outbox[id].(status := Orphaned));
    UncommittedUnused(d, past, supply, id);
    RecordNoted(d.outbox, d.audit, d.tombstone, id, d.outbox[id].(status := Orphaned));
  }

  /** The status changes of a committed message. */
  predicate Moves(m: Manifest, final: Option<Final>, id: MessageId, r: Record, status: Status) {
    || r.status == status
    || (r.status.Staged? && status.Pending? && r.transition == m.committed)
    || (r.status.Live() && status.Live())
    || (r.status.Live() && status.Superseded? && id in m.supersedes)
    || (r.status.Live() && status.Acknowledged? && ResponseIsSafe(m.dialogue, final, id, r))
  }

  lemma MoveKeepsAsked(
    m: Manifest, final: Option<Final>, outbox: map<MessageId, Record>, past: Past, id: MessageId, r: Record)
    requires m.dialogue.participants != [] && Asked(m, outbox, past)
    requires m.dialogue.phase.Collecting? ==> Policy(m.dialogue) && Progress(m.dialogue)
    requires id in outbox && SameMessage(outbox[id], r) && Moves(m, final, id, outbox[id], r.status)
    ensures Asked(m, outbox[id := r], past)
  {
    assert Within(0);
    assert forall x :: CommittedRequest(outbox[id := r], past, x) ==> CommittedRequest(outbox, past, x);
    MoveForgetsNobody(m, final, outbox, past, id, r);
  }

  lemma MoveForgetsNobody(
    m: Manifest, final: Option<Final>, outbox: map<MessageId, Record>, past: Past, id: MessageId, r: Record)
    requires m.dialogue.participants != [] && NobodyForgotten(m, outbox, past)
    requires m.dialogue.phase.Collecting? ==> Policy(m.dialogue) && Progress(m.dialogue)
    requires id in outbox && SameMessage(outbox[id], r) && Moves(m, final, id, outbox[id], r.status)
    ensures NobodyForgotten(m, outbox[id := r], past)
  {
    if m.dialogue.phase.Collecting? {
      forall p | Owes(m.dialogue, p)
        ensures exists x :: Asks(m, outbox[id := r], past, x) && x.recipient == p
      {
        var x :| Asks(m, outbox, past, x) && x.recipient == p;
        assert Asks(m, outbox[id := r], past, x);
      }
    }
  }

  lemma MoveKeepsTold(
    m: Manifest, final: Option<Final>, outbox: map<MessageId, Record>, past: Past, id: MessageId, r: Record)
    requires id in outbox && SameMessage(outbox[id], r) && Moves(m, final, id, outbox[id], r.status)
    requires Told(m, final, outbox, past)
    ensures Told(m, final, outbox[id := r], past)
  {
    assert Within(0);
    assert forall x :: Committed(outbox[id := r], past, x) ==> Committed(outbox, past, x);
  }

  lemma MoveKeepsOrder(
    m: Manifest, final: Option<Final>, outbox: map<MessageId, Record>, past: Past, id: MessageId, r: Record,
    tombstone: bool)
    requires id in outbox && SameMessage(outbox[id], r) && Moves(m, final, id, outbox[id], r.status)
    requires Ordered(m, outbox, past, tombstone)
    requires outbox[id].status.Staged? && !r.status.Staged? ==> SupersedesDone(m, outbox)
    ensures Ordered(m, outbox[id := r], past, tombstone)
  {
    assert Within(0);
    if !tombstone && !SupersedesDone(m, outbox) {
      var x :| Committed(outbox, past, x) && outbox[x].status.Staged?;
      assert Committed(outbox[id := r], past, x) && outbox[id := r][x].status.Staged?;
    }
  }

  lemma MoveKeepsAnnounced(
    m: Manifest, final: Option<Final>, outbox: map<MessageId, Record>, past: Past, id: MessageId, r: Record, tombstone: bool)
    requires id in outbox && SameMessage(outbox[id], r) && Moves(m, final, id, outbox[id], r.status)
    requires Announced(m, outbox, past, tombstone)
    ensures Announced(m, outbox[id := r], past, tombstone)
  {
    assert Within(0);
    SameNotices(m, outbox, outbox[id := r], past);
    assert forall x :: Committed(outbox[id := r], past, x) ==> Committed(outbox, past, x);
  }

  lemma MoveKeepsFiled(d: Disk, past: Past, supply: nat, id: MessageId, r: Record)
    requires Filed(d, past, supply) && Committed(d.outbox, past, id) && SameMessage(d.outbox[id], r)
    requires d.manifest.Some? && Moves(d.manifest.value, d.final, id, d.outbox[id], r.status)
    ensures Filed(Apply(d, PutRecord(id, r)), past, supply)
  {
    assert Within(0);
  }

  lemma SettledIsStable(m: Manifest, files: Files, final: Option<Final>)
    requires Settled(m, files, final)
    ensures Stable(m.dialogue, files) && FinalTrue(m, files, final)
  {
    assert Within(0);
  }

  /** Activating, claiming, delivering, rearming, superseding or acknowledging a message. */
  lemma MoveKeeps(d: Disk, past: Past, supply: nat, id: MessageId, r: Record)
    requires Inv(d, past, supply) && d.manifest.Some?
    requires Committed(d.outbox, past, id)
    requires SameMessage(d.outbox[id], r) && Moves(d.manifest.value, d.final, id, d.outbox[id], r.status)
    requires d.outbox[id].status.Staged? && !r.status.Staged? ==> SupersedesDone(d.manifest.value, d.outbox)
    requires r.queuedAudited ==> d.outbox[id].queuedAudited || Logged(d.audit, QueuedKey(id))
    ensures Inv(Apply(d, PutRecord(id, r)), past, supply)
    ensures DiskGrown(d, Apply(d, PutRecord(id, r)))
  {
    assert Inside(d, supply, 0);
    var m := d.manifest.value;
    assert m.dialogue.phase.Collecting? ==> Policy(m.dialogue) && Progress(m.dialogue) by {
      SettledIsStable(m, d.files, d.final);
    }
    MoveKeepsAsked(m, d.final, d.outbox, past, id, r);
    MoveKeepsTold(m, d.final, d.outbox, past, id, r);
    MoveKeepsOrder(m, d.final, d.outbox, past, id, r, d.tombstone);
    MoveKeepsAnnounced(m, d.final, d.outbox, past, id, r, d.tombstone);
    MoveKeepsFiled(d, past, supply, id, r);
    RecordNoted(d.outbox, d.audit, d.tombstone, id, r);
    RecordGrown(d, id, r);
  }

  // ----- The audit log

  lemma AppendKeepsAudit(m: Manifest, audit: seq<Entry>, past: Past, supply: nat, entry: Entry)
    requires Audited(m, audit, past, supply) && !Logged(audit, KeyOf(entry))
    requires entry.Durable? ==> entry.id in m.pending && entry.event in m.pending[entry.id]
    ensures Audited(m, audit + [entry], past, supply)
  {
    assert Within(0);
    var audit' := audit + [entry];
    forall key | key in past.saved
      ensures Logged(audit', key) || Intended(m.pending, key)
    {
      if Logged(audit, key) {
        var i :| 0 <= i < |audit| && KeyOf(audit[i]) == key;
        assert KeyOf(audit'[i]) == key;
      }
    }
    forall i, j | 0 <= i < j < |audit'|
      ensures KeyOf(audit'[i]) != KeyOf(audit'[j])
    {
      assert j == |audit| ==> !Logged(audit, KeyOf(entry));
    }
  }

  /** A pending intent, or the activation of a message that is in circulation. */
  predicate MayLog(d: Disk, entry: Entry)
    requires d.manifest.Some?
  {
    match entry
    case Durable(id, event) => id in d.manifest.value.pending && event in d.manifest.value.pending[id]
    case MessageQueued(id) => id in d.outbox && d.outbox[id].status.InUse()
  }

  /** Appending an event that is not logged yet: a pending intent or a message's activation. */
  lemma AppendKeeps(d: Disk, past: Past, supply: nat, entry: Entry)
    requires Inv(d, past, supply) && d.manifest.Some? && !Logged(d.audit, KeyOf(entry))
    requires MayLog(d, entry)
    ensures Inv(Apply(d, AppendAudit(entry)), past, supply)
    ensures DiskGrown(d, Apply(d, AppendAudit(entry)))
  {
    assert Inside(d, supply, 0);
    AppendKeepsAudit(d.manifest.value, d.audit, past, supply, entry);
    EntryNoted(d.outbox, d.audit, d.tombstone, entry);
    FileOutside(d, past, supply, AppendAudit(entry));
  }

  /** The requests do not depend on the pending intents. */
  lemma PendingAsks(m: Manifest, m': Manifest, outbox: map<MessageId, Record>, past: Past, past': Past)
    requires m' == m.(pending := m'.pending) && past'.committed == past.committed
    requires m.dialogue.participants != [] && Asked(m, outbox, past)
    ensures Asked(m', outbox, past')
  {
    assert Within(0);
    assert forall id :: Committed(outbox, past', id) == Committed(outbox, past, id);
    if m.dialogue.phase.Collecting? {
      forall p | Owes(m.dialogue, p)
        ensures exists id :: Asks(m', outbox, past', id) && id.recipient == p
      {
        var id :| Asks(m, outbox, past, id) && id.recipient == p;
        assert Asks(m', outbox, past', id);
      }
    }
  }

  lemma PendingTells(
    d: Disk, m: Manifest, m': Manifest, past: Past, past': Past)
    requires m' == m.(pending := m'.pending) && past'.committed == past.committed
    requires Settled(m, d.files, d.final) && Told(m, d.final, d.outbox, past)
    requires Ordered(m, d.outbox, past, d.tombstone)
    ensures Settled(m', d.files, d.final) && Told(m', d.final, d.outbox, past')
    ensures Ordered(m', d.outbox, past', d.tombstone)
  {
    assert Within(0);
    assert forall id :: Committed(d.outbox, past', id) == Committed(d.outbox, past, id);
  }

  /** The saved transitions of two pasts are the same. */
  ghost predicate SameTransitions(past: Past, past': Past) {
    forall key :: key in past'.saved && key.DurableKey? && key.id.OfTransition? ==>
      key in past.saved && past.saved[key] == past'.saved[key]
  }

  lemma PendingAnnounces(m: Manifest, m': Manifest, outbox: map<MessageId, Record>, past: Past, past': Past, tombstone: bool)
    requires m' == m.(pending := m'.pending) && past'.committed == past.committed && SameTransitions(past, past')
    requires Announced(m, outbox, past, tombstone)
    ensures Announced(m', outbox, past', tombstone)
  {
    assert Within(0);
    assert forall id :: IsNotice(outbox, past', id) == IsNotice(outbox, past, id);
    forall p ensures IsTold(outbox, past, p) <==> IsTold(outbox, past', p) {
      if id :| IsNotice(outbox, past, id) && id.recipient == p {
        assert IsNotice(outbox, past', id);
      }
      if id :| IsNotice(outbox, past', id) && id.recipient == p {
        assert IsNotice(outbox, past, id);
      }
    }
    assert forall who :: IsCancelledBy(m', past', who) ==> IsCancelledBy(m, past, who);
  }

  lemma PendingFiled(d: Disk, past: Past, supply: nat, m': Manifest, past': Past)
    requires Filed(d, past, supply) && d.manifest.Some?
    requires m'.committed == d.manifest.value.committed && past'.committed == past.committed
    ensures Filed(Apply(d, PutManifest(m')), past', supply)
  {
    assert Within(0);
  }

  /** Saving the same manifest with other pending intents. */
  lemma PendingKeeps(d: Disk, past: Past, supply: nat, pending: map<AuditId, seq<Event>>, past': Past)
    requires Inv(d, past, supply) && d.manifest.Some? && past'.committed == past.committed && SameTransitions(past, past')
    requires Audited(d.manifest.value.(pending := pending), d.audit, past', supply)
    ensures Inv(Apply(d, PutManifest(d.manifest.value.(pending := pending))), past', supply)
    ensures DiskGrown(d, Apply(d, PutManifest(d.manifest.value.(pending := pending))))
  {
    assert Inside(d, supply, 0);
    var m, m' := d.manifest.value, d.manifest.value.(pending := pending);
    PendingAsks(m, m', d.outbox, past, past');
    PendingTells(d, m, m', past, past');
    PendingAnnounces(m, m', d.outbox, past, past', d.tombstone);
    PendingFiled(d, past, supply, m', past');
    assert DiskGrown(d, Apply(d, PutManifest(m')));
  }

  /** Clearing audit ids all of whose intents are logged. */
  lemma ClearKeepsAudit(m: Manifest, audit: seq<Entry>, past: Past, supply: nat, cleared: set<AuditId>)
    requires Audited(m, audit, past, supply)
    requires forall id, e :: id in m.pending && id in cleared && e in m.pending[id] ==> Logged(audit, DurableKey(id, NameOf(e)))
    ensures Audited(m.(pending := m.pending - cleared), audit, past, supply)
  {
    assert Within(0);
    var pending' := m.pending - cleared;
    forall key | key in past.saved
      ensures Logged(audit, key) || Intended(pending', key)
    {
      if Intended(m.pending, key) && key.id !in cleared {
        assert pending'[key.id] == m.pending[key.id];
      }
    }
  }

  /** The past after a save that adds intents. */
  ghost function Saving(past: Past, id: AuditId, events: seq<Event>): Past
    requires DistinctNames(events)
  {
    Past(past.committed,
         past.saved + map e | e in events :: DurableKey(id, NameOf(e)) := e)
  }

  predicate DistinctNames(events: seq<Event>) {
    forall i, j :: 0 <= i < j < |events| ==> NameOf(events[i]) != NameOf(events[j])
  }

  /** New intents do not contradict the saved ones. */
  ghost predicate Compatible(past: Past, id: AuditId, events: seq<Event>) {
    forall e :: e in events && DurableKey(id, NameOf(e)) in past.saved ==> past.saved[DurableKey(id, NameOf(e))] == e
  }

  lemma SavingHolds(past: Past, id: AuditId, events: seq<Event>)
    requires DistinctNames(events) && Compatible(past, id, events)
    ensures PastGrown(past, Saving(past, id, events))
    ensures forall e :: e in events ==>
      DurableKey(id, NameOf(e)) in Saving(past, id, events).saved && Saving(past, id, events).saved[DurableKey(id, NameOf(e))] == e
    ensures forall key :: key in Saving(past, id, events).saved ==>
      key in past.saved || exists e :: e in events && key == DurableKey(id, NameOf(e))
  {
    forall e | e in events
      ensures DurableKey(id, NameOf(e)) in Saving(past, id, events).saved
      ensures Saving(past, id, events).saved[DurableKey(id, NameOf(e))] == e
    {
    }
  }

  /** Staging intents under an id that is new to the log, or repeating the one it already has. */
  lemma IntendKeepsAudit(m: Manifest, audit: seq<Entry>, past: Past, supply: nat, id: AuditId, events: seq<Event>)
    requires AuditInv(m, audit, past, supply)
    requires DistinctNames(events) && Compatible(past, id, events)
    requires id in m.pending ==> m.pending[id] == events
    requires id.OfTransition? ==> id.transition < supply
    requires id.OfAcknowledgement? ==> events == [AcknowledgementRecovered]
    ensures AuditInv(m.(pending := m.pending[id := events]), audit, Saving(past, id, events), supply)
  {
    var past', pending' := Saving(past, id, events), m.pending[id := events];
    SavingHolds(past, id, events);
    forall key | key in past'.saved
      ensures Logged(audit, key) || Intended(pending', key)
    {
      if key in past.saved {
        if Intended(m.pending, key) && key.id == id {
          assert pending'[key.id] == m.pending[key.id];
        }
      } else {
        var e :| e in events && key == DurableKey(id, NameOf(e));
        assert e in pending'[id];
      }
    }
  }

  /** A saved intent has one event under each name. */
  lemma SavedName(m: Manifest, audit: seq<Entry>, past: Past, supply: nat, key: Key)
    requires AuditInv(m, audit, past, supply) && key in past.saved && key.DurableKey?
    ensures NameOf(past.saved[key]) == key.name
  {
    if Logged(audit, key) {
      var i :| 0 <= i < |audit| && KeyOf(audit[i]) == key;
      assert audit[i] in audit;
    }
  }

  /** Saving the recovery of an acknowledgement tells nothing new of the dialogue. */
  lemma RecoveryTells(d: Dialogue, past: Past, id: AuditId)
    requires EventsTold(d, past.saved) && Compatible(past, id, [AcknowledgementRecovered])
    ensures EventsTold(d, Saving(past, id, [AcknowledgementRecovered]).saved)
  {
    var saved := Saving(past, id, [AcknowledgementRecovered]).saved;
    SavingHolds(past, id, [AcknowledgementRecovered]);
    assert AcknowledgementRecovered in [AcknowledgementRecovered];
    forall key | key in saved && key !in past.saved ensures saved[key] == AcknowledgementRecovered {
    }
    forall e | Happened(d, e) && !e.AcknowledgementRecovered? && !e.DialogueCancelled? ensures SavedEvent(saved, e) {
      var key :| key in past.saved && past.saved[key] == e && key.DurableKey? && key.name == NameOf(e);
      assert saved[key] == e;
    }
  }

  /** Staging the recovery of an acknowledgement, for the first time or again. */
  lemma RecoveryKeepsAudit(m: Manifest, audit: seq<Entry>, past: Past, supply: nat, message: MessageId)
    requires Audited(m, audit, past, supply)
    ensures
      var id := OfAcknowledgement(message);
      && Audited(m.(pending := m.pending[id := [AcknowledgementRecovered]]), audit,
                 Saving(past, id, [AcknowledgementRecovered]), supply)
      && PastGrown(past, Saving(past, id, [AcknowledgementRecovered]))
  {
    assert Within(0);
    var id, key := OfAcknowledgement(message), DurableKey(OfAcknowledgement(message), Recovery);
    if key in past.saved {
      SavedName(m, audit, past, supply, key);
    }
    IntendKeepsAudit(m, audit, past, supply, id, [AcknowledgementRecovered]);
    SavingHolds(past, id, [AcknowledgementRecovered]);
    RecoveryTells(m.dialogue, past, id);
    assert ChangesSaved(m.(pending := m.pending[id := [AcknowledgementRecovered]]), Saving(past, id, [AcknowledgementRecovered]));
  }

  // ----- Deletion

  /** Writing the tombstone of an ended dialogue. */
  lemma TombstoneKeeps(d: Disk, past: Past, supply: nat)
    requires Inv(d, past, supply) && d.manifest.Some? && d.manifest.value.dialogue.phase.Terminal()
    ensures Inv(Apply(d, PutTombstone), past, supply)
    ensures DiskGrown(d, Apply(d, PutTombstone))
  {
    assert Inside(d, supply, 0);
    FileOutside(d, past, supply, PutTombstone);
    TombstoneNoted(d.outbox, d.audit, d.tombstone);
    TombstoneOrders(d.manifest.value, d.outbox, past, d.tombstone);
    TombstoneAnnounces(d.manifest.value, d.outbox, past, d.tombstone);
  }

  lemma TombstoneOrders(m: Manifest, outbox: map<MessageId, Record>, past: Past, tombstone: bool)
    requires Ordered(m, outbox, past, tombstone)
    ensures Ordered(m, outbox, past, true)
  {
    assert Within(0);
  }

  lemma TombstoneAnnounces(m: Manifest, outbox: map<MessageId, Record>, past: Past, tombstone: bool)
    requires Announced(m, outbox, past, tombstone)
    ensures Announced(m, outbox, past, true)
  {
    assert Within(0);
  }

  lemma RemovalAnnounces(m: Manifest, outbox: map<MessageId, Record>, past: Past, id: MessageId)
    requires Announced(m, outbox, past, true)
    ensures Announced(m, outbox - {id}, past, true)
  {
    assert Within(0);
    assert forall x :: Committed(outbox - {id}, past, x) ==> Committed(outbox, past, x);
  }

  lemma RemovalKeepsManifest(d: Disk, past: Past, supply: nat, id: MessageId)
    requires d.manifest.Some? && ManifestInv(d, past, supply) && d.tombstone
    ensures ManifestInv(Apply(d, RemoveRecord(id)), past, supply)
  {
    RemovalAsked(d.manifest.value, d.outbox, past, id);
    RemovalTold(d.manifest.value, d.final, d.outbox, past, id);
    RemovalAnnounces(d.manifest.value, d.outbox, past, id);
  }

  lemma RemovalAsked(m: Manifest, outbox: map<MessageId, Record>, past: Past, id: MessageId)
    requires m.dialogue.participants != [] && m.dialogue.phase.Terminal() && Asked(m, outbox, past)
    ensures Asked(m, outbox - {id}, past)
  {
    assert Within(0);
    assert forall x :: Committed(outbox - {id}, past, x) ==> Committed(outbox, past, x);
  }

  lemma RemovalTold(m: Manifest, final: Option<Final>, outbox: map<MessageId, Record>, past: Past, id: MessageId)
    requires Told(m, final, outbox, past) && Ordered(m, outbox, past, true)
    ensures Told(m, final, outbox - {id}, past) && Ordered(m, outbox - {id}, past, true)
  {
    assert Within(0);
    assert forall x :: Committed(outbox - {id}, past, x) ==> Committed(outbox, past, x);
  }

  lemma RemovalKeepsFiled(d: Disk, past: Past, supply: nat, id: MessageId)
    requires Filed(d, past, supply)
    ensures Filed(Apply(d, RemoveRecord(id)), past, supply)
  {
    assert Within(0);
  }

  /** Removing an outbox record behind the tombstone. */
  lemma RemovalKeeps(d: Disk, past: Past, supply: nat, id: MessageId)
    requires Inv(d, past, supply) && d.tombstone
    ensures Inv(Apply(d, RemoveRecord(id)), past, supply)
    ensures DiskGrown(d, Apply(d, RemoveRecord(id)))
  {
    assert Inside(d, supply, 0);
    RemovalKeepsFiled(d, past, supply, id);
    DeletionNoted(d.outbox, d.audit, d.tombstone, id);
    if d.manifest.Some? {
      RemovalKeepsManifest(d, past, supply, id);
    }
  }

  lemma EmptyIsFiled(d: Disk, past: Past, supply: nat)
    requires d.outbox == map[]
    ensures Filed(d, past, supply)
  {
  }

  /** Removing the manifest, and then the rest of the directory, once no record is left. */
  lemma DirectoryRemovalKeeps(d: Disk, past: Past, supply: nat, w: Write)
    requires Inv(d, past, supply) && d.tombstone && d.outbox == map[]
    requires w.RemoveManifest? || (d.manifest.None? && (w.RemoveFile? || w.RemoveFinal? || w.RemoveAudit?))
    ensures Inv(Apply(d, w), past, supply)
    ensures DiskGrown(d, Apply(d, w))
  {
    assert Inside(d, supply, 0);
    EmptyIsFiled(Apply(d, w), past, supply);
    EmptyNoted(Apply(d, w).audit);
  }
}
