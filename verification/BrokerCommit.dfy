/** Saving a manifest with a new transition, the commit point: it keeps the invariant. */
module BrokerCommit {
  import opened CouncilTypes
  import opened PhaseMachine
  import opened PhaseInvariants
  import opened PhaseResults
  import opened BrokerDisk
  import opened BrokerSteps

  /** The staged messages of a transition: the n-th file holds the n-th message, and nothing else
      carries the transition. */
  ghost predicate Batch(
    outbox: map<MessageId, Record>, transition: TransitionId, messages: seq<Outgoing>, ids: seq<MessageId>)
  {
    && |ids| == |messages| && NoRepeats(ids)
    && (forall k :: 0 <= k < |ids| ==>
          && ids[k] in outbox && ids[k].recipient == messages[k].recipient
          && outbox[ids[k]] == Record(messages[k].kind, messages[k].round, transition, Staged, false))
    && (forall id :: id in outbox && outbox[id].transition == transition ==> id in ids)
  }

  /** Nothing is left to do for the committed transition. */
  ghost predicate Quiet(m: Manifest, outbox: map<MessageId, Record>, past: Past) {
    && m.pending == map[]
    && (forall id :: Committed(outbox, past, id) ==> !outbox[id].status.Staged?)
    && SupersedesDone(m, outbox)
  }

  ghost predicate PhaseAnswered(d: Dialogue, d': Dialogue)
    requires d.participants != [] && d.phase.Collecting?
  {
    forall p :: p in RequiredFor(d.participants, d.phase.kind) ==>
      Slot(d.phase.kind, SlotRound(d.phase.kind, ArtifactRound(d)), p) in d'.submissions
  }

  /** The same phase goes on, with more answers or more rounds. */
  ghost predicate GoesOn(d: Dialogue, d': Dialogue, messages: seq<Outgoing>, supersedes: set<MessageId>) {
    && d.phase.Collecting? && d'.phase == d.phase && d'.round == d.round
    && messages == [] && supersedes == {}
  }

  /** A later phase opens and asks exactly its required submitters; the phase before it is
      answered, or its open requests are superseded. */
  ghost predicate OpensPhase(
    d: Dialogue, d': Dialogue, messages: seq<Outgoing>, supersedes: set<MessageId>,
    outbox: map<MessageId, Record>, past: Past)
    requires d.participants != []
  {
    && d.phase.Collecting? && d'.phase.Collecting? && Later(d, d'.round, d'.phase.kind)
    && (d'.phase.kind.Proposal? ==> d'.round == 0)
    && messages == Requests(RequiredFor(d.participants, d'.phase.kind), d'.phase.kind, d'.round)
    && (PhaseAnswered(d, d') ||
        forall id | CommittedRequest(outbox, past, id) && outbox[id].kind == Request(d.phase.kind) ::
          outbox[id].status.Live() ==> id in supersedes)
  }

  /** The messages go to these participants but one, once each. */
  ghost predicate AnnouncesTo(messages: seq<Outgoing>, participants: seq<Participant>, but: Option<Participant>) {
    && (forall i, j :: 0 <= i < j < |messages| ==> messages[i].recipient != messages[j].recipient)
    && (forall p :: p in participants && but != Some(p) <==> exists k: nat :: k < |messages| && messages[k].recipient == p)
  }

  ghost predicate Completes(d: Dialogue, d': Dialogue, messages: seq<Outgoing>, final: Option<Final>)
    requires d.participants != []
  {
    && d.phase.Collecting? && d'.phase.Complete? && PhaseAnswered(d, d') && AnnouncesTo(messages, d.participants, None)
    && forall o :: o in messages ==> o.kind.CompletionNotice? && final == Some(o.kind.final)
  }

  ghost predicate Cancels(
    d: Dialogue, d': Dialogue, messages: seq<Outgoing>, supersedes: set<MessageId>,
    outbox: map<MessageId, Record>, past: Past)
  {
    && !d.phase.Terminal() && d'.phase.Cancelled?
    && (forall o :: o in messages ==> o.kind.CancellationNotice?)
    && (forall id :: Committed(outbox, past, id) && outbox[id].status.Live() ==> id in supersedes)
  }

  /** How a committed dialogue may follow the one before it. */
  ghost predicate Follows(
    d: Dialogue, d': Dialogue, messages: seq<Outgoing>, supersedes: set<MessageId>, final: Option<Final>,
    outbox: map<MessageId, Record>, past: Past)
    requires d.participants != []
  {
    && Grown(d, d')
    && (forall id :: id in supersedes ==> Committed(outbox, past, id) && (d'.phase.Cancelled? || outbox[id].kind == Request(Synthesis)))
    && (|| GoesOn(d, d', messages, supersedes)
        || OpensPhase(d, d', messages, supersedes, outbox, past)
        || Completes(d, d', messages, final)
        || Cancels(d, d', messages, supersedes, outbox, past))
  }

  /** Committing the transition adds exactly its batch to the committed messages. */
  lemma NewlyCommitted(
    outbox: map<MessageId, Record>, past: Past, past': Past, transition: TransitionId, messages: seq<Outgoing>,
    ids: seq<MessageId>, id: MessageId)
    requires Batch(outbox, transition, messages, ids)
    requires past'.committed == past.committed + {transition} && transition !in past.committed
    ensures Committed(outbox, past', id) <==> Committed(outbox, past, id) || id in ids
    ensures !(Committed(outbox, past, id) && id in ids)
  {
  }

  lemma CommitPlaces(
    m: Manifest, m': Manifest, outbox: map<MessageId, Record>, past: Past, past': Past,
    messages: seq<Outgoing>, ids: seq<MessageId>, final: Option<Final>)
    requires m.dialogue.participants != [] && m'.dialogue.participants != []
    requires Batch(outbox, m'.committed, messages, ids)
    requires past'.committed == past.committed + {m'.committed} && m'.committed !in past.committed
    requires Follows(m.dialogue, m'.dialogue, messages, m'.supersedes, final, outbox, past)
    requires RequestsPlaced(m, outbox, past)
    ensures RequestsPlaced(m', outbox, past')
  {
    forall id | CommittedRequest(outbox, past', id)
      ensures id.recipient in RequiredFor(m'.dialogue.participants, outbox[id].kind.kind)
      ensures m'.dialogue.phase.Collecting? ==> !Later(m'.dialogue, outbox[id].round, outbox[id].kind.kind)
    {
      NewlyCommitted(outbox, past, past', m'.committed, messages, ids, id);
      if id in ids {
        var k :| 0 <= k < |ids| && ids[k] == id;
      } else {
        assert CommittedRequest(outbox, past, id);
      }
    }
  }

  lemma CommitDistinct(
    m: Manifest, m': Manifest, outbox: map<MessageId, Record>, past: Past, past': Past,
    messages: seq<Outgoing>, ids: seq<MessageId>, final: Option<Final>)
    requires m.dialogue.participants != [] && NoRepeats(m.dialogue.participants)
    requires Batch(outbox, m'.committed, messages, ids)
    requires past'.committed == past.committed + {m'.committed} && m'.committed !in past.committed
    requires Follows(m.dialogue, m'.dialogue, messages, m'.supersedes, final, outbox, past)
    requires RequestsPlaced(m, outbox, past) && RequestsDistinct(outbox, past)
    ensures RequestsDistinct(outbox, past')
  {
    forall a, b | CommittedRequest(outbox, past', a) && CommittedRequest(outbox, past', b) &&
                  a.recipient == b.recipient && outbox[a].kind == outbox[b].kind && outbox[a].round == outbox[b].round
      ensures a == b
    {
      NewlyCommitted(outbox, past, past', m'.committed, messages, ids, a);
      NewlyCommitted(outbox, past, past', m'.committed, messages, ids, b);
      if a in ids && b in ids {
        BatchDistinct(m, m', outbox, past, messages, ids, final, a, b);
      } else if a in ids {
        NewIsLater(m, m', outbox, past, messages, ids, final, a, b);
      } else if b in ids {
        NewIsLater(m, m', outbox, past, messages, ids, final, b, a);
      }
    }
  }

  /** A batch of requests asks each recipient once. */
  lemma BatchDistinct(
    m: Manifest, m': Manifest, outbox: map<MessageId, Record>, past: Past,
    messages: seq<Outgoing>, ids: seq<MessageId>, final: Option<Final>, a: MessageId, b: MessageId)
    requires m.dialogue.participants != [] && NoRepeats(m.dialogue.participants)
    requires Batch(outbox, m'.committed, messages, ids)
    requires Follows(m.dialogue, m'.dialogue, messages, m'.supersedes, final, outbox, past)
    requires a in ids && b in ids && outbox[a].kind.Request? && a.recipient == b.recipient
    ensures a == b
  {
    var j: nat :| j < |ids| && ids[j] == a;
    var k: nat :| k < |ids| && ids[k] == b;
    RequestsAreAsked(m, m', outbox, past, messages, final, j);
  }

  /** A request's transition asks nobody twice. */
  lemma RequestsAreAsked(
    m: Manifest, m': Manifest, outbox: map<MessageId, Record>, past: Past, messages: seq<Outgoing>, final: Option<Final>, j: nat)
    requires m.dialogue.participants != [] && NoRepeats(m.dialogue.participants)
    requires Follows(m.dialogue, m'.dialogue, messages, m'.supersedes, final, outbox, past)
    requires j < |messages| && messages[j].kind.Request?
    ensures forall i, k :: 0 <= i < k < |messages| ==> messages[i].recipient != messages[k].recipient
  {
    assert messages[j] in messages;
    var asked := RequiredFor(m.dialogue.participants, m'.dialogue.phase.kind);
    assert NoRepeats(asked);
    assert forall i :: 0 <= i < |messages| ==> messages[i].recipient == asked[i];
  }

  /** A newly committed request is for another stage than any request committed before. */
  lemma NewIsLater(
    m: Manifest, m': Manifest, outbox: map<MessageId, Record>, past: Past,
    messages: seq<Outgoing>, ids: seq<MessageId>, final: Option<Final>, id: MessageId, older: MessageId)
    requires m.dialogue.participants != []
    requires Batch(outbox, m'.committed, messages, ids) && m'.committed !in past.committed
    requires Follows(m.dialogue, m'.dialogue, messages, m'.supersedes, final, outbox, past)
    requires RequestsPlaced(m, outbox, past)
    requires id in ids && outbox[id].kind.Request? && CommittedRequest(outbox, past, older)
    ensures outbox[id].kind != outbox[older].kind || outbox[id].round != outbox[older].round
  {
    var k :| 0 <= k < |ids| && ids[k] == id;
    assert messages[k] in messages;
  }

  lemma CommitForgetsNobody(
    m: Manifest, m': Manifest, outbox: map<MessageId, Record>, past: Past, past': Past,
    messages: seq<Outgoing>, ids: seq<MessageId>, final: Option<Final>)
    requires m.dialogue.participants != [] && m'.dialogue.participants != []
    requires Batch(outbox, m'.committed, messages, ids)
    requires past'.committed == past.committed + {m'.committed} && m'.committed !in past.committed
    requires Follows(m.dialogue, m'.dialogue, messages, m'.supersedes, final, outbox, past)
    requires Quiet(m, outbox, past) && NobodyForgotten(m, outbox, past)
    ensures NobodyForgotten(m', outbox, past')
  {
    var d, d' := m.dialogue, m'.dialogue;
    if d'.phase.Collecting? {
      forall p | Owes(d', p)
        ensures exists id :: Asks(m', outbox, past', id) && id.recipient == p
      {
        if GoesOn(d, d', messages, m'.supersedes) {
          assert Owes(d, p);
          var id :| Asks(m, outbox, past, id) && id.recipient == p;
          assert Asks(m', outbox, past', id);
        } else {
          var asked := RequiredFor(d.participants, d'.phase.kind);
          var k :| 0 <= k < |asked| && asked[k] == p;
          assert outbox[ids[k]].kind == Request(d'.phase.kind);
          assert Asks(m', outbox, past', ids[k]);
        }
      }
    }
  }

  lemma CommitMatters(
    m: Manifest, m': Manifest, outbox: map<MessageId, Record>, past: Past, past': Past,
    messages: seq<Outgoing>, ids: seq<MessageId>, final: Option<Final>)
    requires m.dialogue.participants != []
    requires Batch(outbox, m'.committed, messages, ids)
    requires past'.committed == past.committed + {m'.committed} && m'.committed !in past.committed
    requires Follows(m.dialogue, m'.dialogue, messages, m'.supersedes, final, outbox, past)
    requires Quiet(m, outbox, past) && OpenRequestsMatter(m, outbox, past) && RequestsPlaced(m, outbox, past)
    ensures OpenRequestsMatter(m', outbox, past')
  {
    forall id | CommittedRequest(outbox, past', id) && outbox[id].status.Open()
      ensures
        || (m'.dialogue.phase == Collecting(outbox[id].kind.kind) && outbox[id].round == ArtifactRound(m'.dialogue))
        || Answered(m'.dialogue, id, outbox[id].kind.kind, outbox[id].round)
        || id in m'.supersedes
    {
      NewlyCommitted(outbox, past, past', m'.committed, messages, ids, id);
      if id in ids {
        var k :| 0 <= k < |ids| && ids[k] == id;
        assert messages[k] in messages;
      } else {
        assert CommittedRequest(outbox, past, id);
      }
    }
  }

  lemma CommitNotices(
    m: Manifest, m': Manifest, outbox: map<MessageId, Record>, past: Past, past': Past,
    messages: seq<Outgoing>, ids: seq<MessageId>, final: Option<Final>)
    requires m.dialogue.participants != []
    requires Batch(outbox, m'.committed, messages, ids)
    requires past'.committed == past.committed + {m'.committed} && m'.committed !in past.committed
    requires Follows(m.dialogue, m'.dialogue, messages, m'.supersedes, final, outbox, past)
    requires NoticesTrue(m, final, outbox, past) && AcknowledgedSafely(m, final, outbox)
    ensures NoticesTrue(m', final, outbox, past') && AcknowledgedSafely(m', final, outbox)
  {
    forall id | Committed(outbox, past', id)
      ensures outbox[id].kind.CompletionNotice? ==>
                m'.dialogue.phase.Complete? && final == Some(outbox[id].kind.final)
      ensures outbox[id].kind.CancellationNotice? ==> m'.dialogue.phase.Cancelled?
    {
      NewlyCommitted(outbox, past, past', m'.committed, messages, ids, id);
      if id in ids {
        var k :| 0 <= k < |ids| && ids[k] == id;
        assert messages[k] in messages;
      }
    }
  }

  /** The manifest after a commit. */
  function CommittedManifest(
    d': Dialogue, transition: TransitionId, supersedes: set<MessageId>, events: seq<Event>): Manifest
  {
    Manifest(d', transition, supersedes, map[OfTransition(transition) := events])
  }

  ghost function CommittedPast(past: Past, transition: TransitionId, events: seq<Event>): Past
    requires DistinctNames(events)
  {
    Saving(past.(committed := past.committed + {transition}), OfTransition(transition), events)
  }

  lemma CommitAudits(
    m: Manifest, d': Dialogue, audit: seq<Entry>, past: Past, supply: nat, transition: TransitionId,
    supersedes: set<MessageId>, events: seq<Event>)
    requires Audited(m, audit, past, supply) && m.pending == map[]
    requires DistinctNames(events) && transition < supply
    requires forall name :: DurableKey(OfTransition(transition), name) !in past.saved
    requires ChangesSaved(CommittedManifest(d', transition, supersedes, events), CommittedPast(past, transition, events))
    ensures Audited(CommittedManifest(d', transition, supersedes, events), audit,
                    CommittedPast(past, transition, events), supply)
  {
    assert Within(0);
    CommitLogs(m, d', audit, past, supply, transition, supersedes, events);
  }

  lemma CommitLogs(
    m: Manifest, d': Dialogue, audit: seq<Entry>, past: Past, supply: nat, transition: TransitionId,
    supersedes: set<MessageId>, events: seq<Event>)
    requires AuditInv(m, audit, past, supply) && m.pending == map[]
    requires DistinctNames(events) && transition < supply
    requires forall name :: DurableKey(OfTransition(transition), name) !in past.saved
    ensures AuditInv(CommittedManifest(d', transition, supersedes, events), audit,
                     CommittedPast(past, transition, events), supply)
  {
    var past0, m0 := past.(committed := past.committed + {transition}), m.(dialogue := d', committed := transition, supersedes := supersedes);
    assert AuditInv(m0, audit, past0, supply);
    IntendKeepsAudit(m0, audit, past0, supply, OfTransition(transition), events);
  }

  /** A commit tells what is new, and nothing else. */
  lemma NewsAreTold(d: Dialogue, d': Dialogue, past: Past, transition: TransitionId, events: seq<Event>)
    requires EventsTold(d, past.saved) && DistinctNames(events)
    requires forall name :: DurableKey(OfTransition(transition), name) !in past.saved
    requires forall e :: e in events ==> !Happened(d, e) && Happened(d', e)
    requires forall e :: Happened(d, e) ==> Happened(d', e)
    requires forall e :: Happened(d', e) && !Happened(d, e) && !e.DialogueCancelled? ==> e in events
    ensures EventsTold(d', CommittedPast(past, transition, events).saved)
  {
    var id, saved := OfTransition(transition), CommittedPast(past, transition, events).saved;
    SavingHolds(past.(committed := past.committed + {transition}), id, events);
    forall key | key in saved ensures key in past.saved || exists e :: e in events && key == DurableKey(id, NameOf(e)) && saved[key] == e {
    }
    forall e | Happened(d', e) && !e.AcknowledgementRecovered? && !e.DialogueCancelled? ensures SavedEvent(saved, e) {
      if Happened(d, e) {
        var key :| key in past.saved && past.saved[key] == e && key.DurableKey? && key.name == NameOf(e);
        assert saved[key] == e;
      } else {
        assert saved[DurableKey(id, NameOf(e))] == e;
      }
    }
  }

  /** The conditions of the commit point. */
  ghost predicate MayCommit(
    d: Disk, past: Past, supply: nat, d': Dialogue, transition: TransitionId, supersedes: set<MessageId>,
    events: seq<Event>, messages: seq<Outgoing>, ids: seq<MessageId>)
    requires d.manifest.Some?
  {
    && d.manifest.value.dialogue.participants != []
    && Quiet(d.manifest.value, d.outbox, past)
    && Batch(d.outbox, transition, messages, ids)
    && transition < supply && transition !in past.committed
    && (forall name :: DurableKey(OfTransition(transition), name) !in past.saved)
    && DistinctNames(events)
    && Stable(d', d.files)
    && Follows(d.manifest.value.dialogue, d', messages, supersedes, d.final, d.outbox, past)
    && FinalTrue(CommittedManifest(d', transition, supersedes, events), d.files, d.final)
    && ChangesSaved(CommittedManifest(d', transition, supersedes, events), CommittedPast(past, transition, events))
    && (supersedes == {} || messages != [])
    && TellsWhoCancelled(d', events, messages)
  }

  ghost predicate Telling(n: nat) { true }

  /** A cancellation's messages go to everyone but whoever the events say cancelled: a name, until a proof
      says `Telling`. */
  ghost predicate TellsWhoCancelled(d': Dialogue, events: seq<Event>, messages: seq<Outgoing>) {
    forall n: nat {:trigger Telling(n)} :: Telling(n) ==>
      d'.phase.Cancelled? ==> exists who :: DialogueCancelled(who) in events && AnnouncesTo(messages, d'.participants, Some(who))
  }

  lemma CommitAsks(
    m: Manifest, m': Manifest, outbox: map<MessageId, Record>, past: Past, past': Past,
    messages: seq<Outgoing>, ids: seq<MessageId>, final: Option<Final>)
    requires m.dialogue.participants != [] && NoRepeats(m.dialogue.participants)
    requires Batch(outbox, m'.committed, messages, ids)
    requires past'.committed == past.committed + {m'.committed} && m'.committed !in past.committed
    requires Follows(m.dialogue, m'.dialogue, messages, m'.supersedes, final, outbox, past)
    requires Quiet(m, outbox, past) && Asked(m, outbox, past)
    ensures m'.dialogue.participants != [] && Asked(m', outbox, past')
  {
    assert Within(0);
    CommitPlaces(m, m', outbox, past, past', messages, ids, final);
    CommitDistinct(m, m', outbox, past, past', messages, ids, final);
    CommitForgetsNobody(m, m', outbox, past, past', messages, ids, final);
    CommitMatters(m, m', outbox, past, past', messages, ids, final);
  }

  lemma CommitTells(
    m: Manifest, m': Manifest, outbox: map<MessageId, Record>, past: Past, past': Past,
    messages: seq<Outgoing>, ids: seq<MessageId>, final: Option<Final>)
    requires m.dialogue.participants != []
    requires Batch(outbox, m'.committed, messages, ids)
    requires past'.committed == past.committed + {m'.committed} && m'.committed !in past.committed
    requires Follows(m.dialogue, m'.dialogue, messages, m'.supersedes, final, outbox, past)
    requires Told(m, final, outbox, past)
    ensures Told(m', final, outbox, past')
  {
    assert Within(0);
    CommitNotices(m, m', outbox, past, past', messages, ids, final);
  }

  /** The notices of the committed end are those of its batch. */
  lemma NoticesAreNew(
    m: Manifest, m': Manifest, outbox: map<MessageId, Record>, past: Past, past': Past,
    messages: seq<Outgoing>, ids: seq<MessageId>, final: Option<Final>, id: MessageId)
    requires m.dialogue.participants != [] && !m.dialogue.phase.Terminal()
    requires Batch(outbox, m'.committed, messages, ids)
    requires past'.committed == past.committed + {m'.committed} && m'.committed !in past.committed
    requires Follows(m.dialogue, m'.dialogue, messages, m'.supersedes, final, outbox, past) && NoticesTrue(m, final, outbox, past)
    ensures IsNotice(outbox, past', id) <==> id in ids && m'.dialogue.phase.Terminal()
  {
    NewlyCommitted(outbox, past, past', m'.committed, messages, ids, id);
    if id in ids {
      var k :| 0 <= k < |ids| && ids[k] == id;
      assert messages[k] in messages;
    }
  }

  lemma BatchTells(
    m': Manifest, outbox: map<MessageId, Record>, past': Past, messages: seq<Outgoing>, ids: seq<MessageId>, but: Option<Participant>)
    requires Batch(outbox, m'.committed, messages, ids) && AnnouncesTo(messages, m'.dialogue.participants, but)
    requires forall id :: IsNotice(outbox, past', id) <==> id in ids
    ensures forall a, b :: IsNotice(outbox, past', a) && IsNotice(outbox, past', b) && a.recipient == b.recipient ==> a == b
    ensures forall p :: p in m'.dialogue.participants && but != Some(p) <==> IsTold(outbox, past', p)
  {
    forall a, b | IsNotice(outbox, past', a) && IsNotice(outbox, past', b) && a.recipient == b.recipient ensures a == b {
      var i :| 0 <= i < |ids| && ids[i] == a;
      var k :| 0 <= k < |ids| && ids[k] == b;
    }
    forall p ensures p in m'.dialogue.participants && but != Some(p) <==> IsTold(outbox, past', p) {
      if p in m'.dialogue.participants && but != Some(p) {
        var k: nat :| k < |messages| && messages[k].recipient == p;
        assert IsNotice(outbox, past', ids[k]) && ids[k].recipient == p;
      }
      if IsTold(outbox, past', p) {
        var id :| IsNotice(outbox, past', id) && id.recipient == p;
        var k :| 0 <= k < |ids| && ids[k] == id;
        assert messages[k].recipient == p;
      }
    }
  }

  /** Who cancelled is the one that the events tell: a name, until a proof says `Telling`. */
  ghost predicate OneCanceller(m': Manifest, past': Past, events: seq<Event>) {
    forall n: nat {:trigger Telling(n)} :: Telling(n) ==>
      forall who, p :: DialogueCancelled(who) in events && IsCancelledBy(m', past', p) ==> p == who
  }

  lemma CancellerIsTold(past: Past, d': Dialogue, transition: TransitionId, supersedes: set<MessageId>, events: seq<Event>)
    requires DistinctNames(events)
    requires forall name :: DurableKey(OfTransition(transition), name) !in past.saved
    ensures OneCanceller(CommittedManifest(d', transition, supersedes, events), CommittedPast(past, transition, events), events)
  {
    SavingHolds(past.(committed := past.committed + {transition}), OfTransition(transition), events);
  }

  /** A batch that is told as it should be announces the end. */
  lemma BatchAnnounces(
    m': Manifest, outbox: map<MessageId, Record>, past': Past, messages: seq<Outgoing>, ids: seq<MessageId>, events: seq<Event>)
    requires Batch(outbox, m'.committed, messages, ids)
    requires forall id :: IsNotice(outbox, past', id) <==> id in ids && m'.dialogue.phase.Terminal()
    requires m'.dialogue.phase.Complete? ==> AnnouncesTo(messages, m'.dialogue.participants, None)
    requires TellsWhoCancelled(m'.dialogue, events, messages) && OneCanceller(m', past', events)
    ensures EndAnnounced(m', outbox, past')
  {
    assert Telling(0);
    if m'.dialogue.phase.Complete? {
      BatchTells(m', outbox, past', messages, ids, None);
    } else if m'.dialogue.phase.Cancelled? {
      var who :| DialogueCancelled(who) in events && AnnouncesTo(messages, m'.dialogue.participants, Some(who));
      BatchTells(m', outbox, past', messages, ids, Some(who));
    }
  }

  lemma CommitAnnounces(
    m: Manifest, m': Manifest, outbox: map<MessageId, Record>, past: Past, past': Past,
    messages: seq<Outgoing>, ids: seq<MessageId>, final: Option<Final>, events: seq<Event>)
    requires m.dialogue.participants != [] && !m.dialogue.phase.Terminal()
    requires Batch(outbox, m'.committed, messages, ids)
    requires past'.committed == past.committed + {m'.committed} && m'.committed !in past.committed
    requires Follows(m.dialogue, m'.dialogue, messages, m'.supersedes, final, outbox, past) && NoticesTrue(m, final, outbox, past)
    requires TellsWhoCancelled(m'.dialogue, events, messages) && OneCanceller(m', past', events)
    ensures EndAnnounced(m', outbox, past')
  {
    forall id ensures IsNotice(outbox, past', id) <==> id in ids && m'.dialogue.phase.Terminal() {
      NoticesAreNew(m, m', outbox, past, past', messages, ids, final, id);
    }
    BatchAnnounces(m', outbox, past', messages, ids, events);
  }

  lemma CommitSupersedes(
    m: Manifest, m': Manifest, outbox: map<MessageId, Record>, past: Past, past': Past,
    messages: seq<Outgoing>, ids: seq<MessageId>, final: Option<Final>)
    requires m.dialogue.participants != [] && !m.dialogue.phase.Terminal()
    requires Batch(outbox, m'.committed, messages, ids)
    requires past'.committed == past.committed + {m'.committed} && m'.committed !in past.committed
    requires Follows(m.dialogue, m'.dialogue, messages, m'.supersedes, final, outbox, past)
    requires SupersededRightly(m, outbox, past)
    ensures SupersededRightly(m', outbox, past')
  {
    forall id | Committed(outbox, past', id) && (id in m'.supersedes || outbox[id].status.Superseded?)
      ensures m'.dialogue.phase.Cancelled? || outbox[id].kind == Request(Synthesis)
    {
      NewlyCommitted(outbox, past, past', m'.committed, messages, ids, id);
      BatchRecords(outbox, m'.committed, messages, ids, id);
    }
  }

  lemma BatchRecords(outbox: map<MessageId, Record>, transition: TransitionId, messages: seq<Outgoing>, ids: seq<MessageId>, id: MessageId)
    requires Batch(outbox, transition, messages, ids)
    ensures id in ids ==> id in outbox && outbox[id].status.Staged?
  {
    if id in ids {
      var k :| 0 <= k < |ids| && ids[k] == id;
    }
  }

  lemma CommitKeepsAnnounced(
    m: Manifest, m': Manifest, outbox: map<MessageId, Record>, past: Past, past': Past,
    messages: seq<Outgoing>, ids: seq<MessageId>, final: Option<Final>, events: seq<Event>, tombstone: bool)
    requires m.dialogue.participants != [] && !m.dialogue.phase.Terminal()
    requires Batch(outbox, m'.committed, messages, ids)
    requires past'.committed == past.committed + {m'.committed} && m'.committed !in past.committed
    requires Follows(m.dialogue, m'.dialogue, messages, m'.supersedes, final, outbox, past)
    requires TellsWhoCancelled(m'.dialogue, events, messages) && OneCanceller(m', past', events)
    requires Told(m, final, outbox, past) && Announced(m, outbox, past, tombstone)
    ensures Announced(m', outbox, past', tombstone)
  {
    assert Within(0);
    CommitAnnounces(m, m', outbox, past, past', messages, ids, final, events);
    CommitSupersedes(m, m', outbox, past, past', messages, ids, final);
  }

  lemma CommitOrders(
    m: Manifest, m': Manifest, outbox: map<MessageId, Record>, past: Past, past': Past,
    messages: seq<Outgoing>, ids: seq<MessageId>, tombstone: bool)
    requires Batch(outbox, m'.committed, messages, ids)
    requires past'.committed == past.committed + {m'.committed} && m'.committed !in past.committed
    requires forall id :: id in m'.supersedes ==> Committed(outbox, past, id)
    requires m'.supersedes == {} || messages != []
    ensures Ordered(m', outbox, past', tombstone)
  {
    if messages != [] {
      assert Committed(outbox, past', ids[0]) && outbox[ids[0]].status.Staged?;
    }
  }

  lemma CommitSettles(
    d: Disk, past: Past, supply: nat, d': Dialogue, transition: TransitionId, supersedes: set<MessageId>,
    events: seq<Event>, messages: seq<Outgoing>, ids: seq<MessageId>)
    requires d.manifest.Some? && MayCommit(d, past, supply, d', transition, supersedes, events, messages, ids)
    ensures Settled(CommittedManifest(d', transition, supersedes, events), d.files, d.final)
  {
  }

  lemma CommitKeepsManifest(
    d: Disk, past: Past, supply: nat, d': Dialogue, transition: TransitionId, supersedes: set<MessageId>,
    events: seq<Event>, messages: seq<Outgoing>, ids: seq<MessageId>)
    requires d.manifest.Some? && ManifestInv(d, past, supply)
    requires MayCommit(d, past, supply, d', transition, supersedes, events, messages, ids)
    ensures ManifestInv(Apply(d, PutManifest(CommittedManifest(d', transition, supersedes, events))),
                        CommittedPast(past, transition, events), supply)
  {
    var m, m' := d.manifest.value, CommittedManifest(d', transition, supersedes, events);
    var past' := CommittedPast(past, transition, events);
    assert NoRepeats(m.dialogue.participants) by {
      SettledIsStable(m, d.files, d.final);
    }
    CommitSettles(d, past, supply, d', transition, supersedes, events, messages, ids);
    CommitAsks(m, m', d.outbox, past, past', messages, ids, d.final);
    CommitTells(m, m', d.outbox, past, past', messages, ids, d.final);
    CommitOrders(m, m', d.outbox, past, past', messages, ids, d.tombstone);
    CommitAudits(m, d', d.audit, past, supply, transition, supersedes, events);
    CancellerIsTold(past, d', transition, supersedes, events);
    CommitKeepsAnnounced(m, m', d.outbox, past, past', messages, ids, d.final, events, d.tombstone);
  }

  lemma CommitKeepsFiled(
    d: Disk, past: Past, supply: nat, m': Manifest, past': Past, messages: seq<Outgoing>, ids: seq<MessageId>)
    requires d.manifest.Some? && Filed(d, past, supply) && Quiet(d.manifest.value, d.outbox, past)
    requires Batch(d.outbox, m'.committed, messages, ids)
    requires past'.committed == past.committed + {m'.committed} && m'.committed !in past.committed
    ensures Filed(Apply(d, PutManifest(m')), past', supply)
  {
    assert Within(0);
    forall id | id in d.outbox
      ensures
        var r := d.outbox[id];
        && (r.status.Staged? || r.status.Dropped() || r.transition in past'.committed)
        && (r.status.Dropped() ==> r.transition !in past'.committed)
        && (r.status.Staged? && r.transition in past'.committed ==> r.transition == m'.committed)
    {
      NewlyCommitted(d.outbox, past, past', m'.committed, messages, ids, id);
      if id in ids {
        var k :| 0 <= k < |ids| && ids[k] == id;
      }
    }
  }

  lemma CommitGrows(d: Disk, m': Manifest)
    requires d.manifest.Some? && Grown(d.manifest.value.dialogue, m'.dialogue)
    requires !d.manifest.value.dialogue.phase.Complete?
    ensures DiskGrown(d, Apply(d, PutManifest(m')))
  {
  }

  /** The commit point: saving the manifest of a transition whose messages are staged, once the
      transition before it has nothing left to do. */
  lemma CommitKeeps(
    d: Disk, past: Past, supply: nat, d': Dialogue, transition: TransitionId, supersedes: set<MessageId>,
    events: seq<Event>, messages: seq<Outgoing>, ids: seq<MessageId>)
    requires Inv(d, past, supply) && d.manifest.Some?
    requires MayCommit(d, past, supply, d', transition, supersedes, events, messages, ids)
    ensures
      var w := PutManifest(CommittedManifest(d', transition, supersedes, events));
      && Inv(Apply(d, w), CommittedPast(past, transition, events), supply) && DiskGrown(d, Apply(d, w))
      && PastGrown(past, CommittedPast(past, transition, events))
  {
    assert Inside(d, supply, 0);
    var m' := CommittedManifest(d', transition, supersedes, events);
    var past' := CommittedPast(past, transition, events);
    SavingHolds(past.(committed := past.committed + {transition}), OfTransition(transition), events);
    CommitKeepsManifest(d, past, supply, d', transition, supersedes, events, messages, ids);
    CommitKeepsFiled(d, past, supply, m', past', messages, ids);
    CommittedInv(d, past, supply, m', past');
    CommitGrows(d, m');
  }

  lemma CommittedInv(d: Disk, past: Past, supply: nat, m': Manifest, past': Past)
    requires Invariant(d, past, supply) && past'.committed == past.committed + {m'.committed} && m'.committed < supply
    requires Filed(Apply(d, PutManifest(m')), past', supply) && ManifestInv(Apply(d, PutManifest(m')), past', supply)
    ensures Inv(Apply(d, PutManifest(m')), past', supply)
  {
  }

  lemma StartAsksOnly(participants: seq<Participant>, transition: TransitionId, outbox: map<MessageId, Record>, ids: seq<MessageId>, id: MessageId)
    requires participants != [] && Batch(outbox, transition, Requests(participants[1..], Proposal, 0), ids)
    requires id in outbox && outbox[id].transition == transition
    ensures outbox[id].kind == Request(Proposal) && outbox[id].round == 0 && id.recipient in participants && outbox[id].status.Staged?
    ensures NoRepeats(participants) ==> id.recipient != participants[0]
  {
    var k :| 0 <= k < |ids| && ids[k] == id;
    assert participants[1..][k] in participants && participants[1..][k] == participants[k + 1];
  }

  lemma StartAsksOnce(
    participants: seq<Participant>, transition: TransitionId, outbox: map<MessageId, Record>, ids: seq<MessageId>, a: MessageId, b: MessageId)
    requires participants != [] && NoRepeats(participants) && Batch(outbox, transition, Requests(participants[1..], Proposal, 0), ids)
    requires a in outbox && outbox[a].transition == transition && b in outbox && outbox[b].transition == transition
    requires a.recipient == b.recipient
    ensures a == b
  {
    var j :| 0 <= j < |ids| && ids[j] == a;
    var k :| 0 <= k < |ids| && ids[k] == b;
    assert participants[1..][j] == participants[1..][k];
  }

  lemma StartAsksPeers(d: Dialogue, m': Manifest, outbox: map<MessageId, Record>, past': Past, ids: seq<MessageId>)
    requires d == m'.dialogue && d.participants != [] && d.phase == Collecting(Proposal) && m'.supersedes == {}
    requires Batch(outbox, m'.committed, Requests(d.participants[1..], Proposal, 0), ids)
    requires past'.committed == {m'.committed}
    ensures NobodyForgotten(m', outbox, past')
  {
    var peers := d.participants[1..];
    forall p | Owes(d, p)
      ensures exists id :: Asks(m', outbox, past', id) && id.recipient == p
    {
      var k :| 0 <= k < |peers| && peers[k] == p;
      assert Asks(m', outbox, past', ids[k]);
    }
  }

  /** The commit point of a start: the first save of a dialogue's manifest. */
  lemma StartKeeps(
    d: Disk, past: Past, supply: nat, participants: seq<Participant>, minimum: nat, rounds: nat, maximum: nat,
    stop: bool, ceiling: nat, transition: TransitionId, ids: seq<MessageId>)
    requires Inv(d, past, supply) && d.manifest.None? && past == NO_PAST && !d.tombstone
    requires PolicyAllowed(participants, minimum, rounds, maximum, ceiling)
    requires Batch(d.outbox, transition, Requests(participants[1..], Proposal, 0), ids)
    requires transition < supply
    ensures
      var w := PutManifest(CommittedManifest(
        Started(participants, minimum, rounds, maximum, stop, ceiling).dialogue, transition, {}, [DialogueStarted]));
      && Inv(Apply(d, w), CommittedPast(past, transition, [DialogueStarted]), supply) && DiskGrown(d, Apply(d, w))
      && PastGrown(past, CommittedPast(past, transition, [DialogueStarted]))
  {
    assert Inside(d, supply, 0);
    var d' := Started(participants, minimum, rounds, maximum, stop, ceiling).dialogue;
    var m', past' := CommittedManifest(d', transition, {}, [DialogueStarted]), CommittedPast(past, transition, [DialogueStarted]);
    StartSettles(participants, minimum, rounds, maximum, stop, ceiling, m');
    StartFiled(d, supply, m', past', participants, ids);
    StartAsks(d', m', d.outbox, past', ids);
    StartAudits(transition, supply, d');
  }

  lemma StartSettles(
    participants: seq<Participant>, minimum: nat, rounds: nat, maximum: nat, stop: bool, ceiling: nat, m': Manifest)
    requires PolicyAllowed(participants, minimum, rounds, maximum, ceiling)
    requires m'.dialogue == Started(participants, minimum, rounds, maximum, stop, ceiling).dialogue
    ensures Settled(m', map[], None)
  {
    StartIsSound(participants, minimum, rounds, maximum, stop, ceiling);
    assert participants[0] in Elements(participants) && Target(m'.dialogue, Proposal, 0) == {};
  }

  lemma StartAsks(d: Dialogue, m': Manifest, outbox: map<MessageId, Record>, past': Past, ids: seq<MessageId>)
    requires d == m'.dialogue && d.participants != [] && NoRepeats(d.participants)
    requires d.phase == Collecting(Proposal) && d.round == 0 && m'.supersedes == {}
    requires Batch(outbox, m'.committed, Requests(d.participants[1..], Proposal, 0), ids)
    requires past'.committed == {m'.committed}
    requires forall id :: id in outbox && !Committed(outbox, past', id) ==>
      outbox[id].status.Staged? || outbox[id].status.Dropped()
    ensures Asked(m', outbox, past') && Told(m', None, outbox, past') && Ordered(m', outbox, past', false)
    ensures Announced(m', outbox, past', false)
  {
    StartAsksPeers(d, m', outbox, past', ids);
    forall id | Committed(outbox, past', id)
      ensures outbox[id].kind == Request(Proposal) && outbox[id].round == 0 && id.recipient in d.participants && outbox[id].status.Staged?
      ensures id.recipient != d.participants[0]
    {
      StartAsksOnly(d.participants, m'.committed, outbox, ids, id);
    }
    forall a, b | Committed(outbox, past', a) && Committed(outbox, past', b) && a.recipient == b.recipient ensures a == b {
      StartAsksOnce(d.participants, m'.committed, outbox, ids, a, b);
    }
    assert forall id :: id in outbox && outbox[id].status.Acknowledged? ==> Committed(outbox, past', id);
  }

  lemma StartTells(d': Dialogue, past: Past, transition: TransitionId)
    requires d'.extensions == map[] && d'.submissions == map[] && d'.phase.Collecting?
    requires past == CommittedPast(NO_PAST, transition, [DialogueStarted])
    ensures EventsTold(d', past.saved)
  {
    SavingHolds(NO_PAST.(committed := {transition}), OfTransition(transition), [DialogueStarted]);
    assert DialogueStarted in [DialogueStarted];
    var key := DurableKey(OfTransition(transition), Start);
    assert key in past.saved && past.saved[key] == DialogueStarted && key.name == NameOf(DialogueStarted);
  }

  lemma StartAudits(transition: TransitionId, supply: nat, d': Dialogue)
    requires transition < supply && d'.extensions == map[] && d'.submissions == map[] && d'.phase.Collecting?
    ensures Audited(CommittedManifest(d', transition, {}, [DialogueStarted]), [],
                    CommittedPast(NO_PAST, transition, [DialogueStarted]), supply)
  {
    IntendKeepsAudit(Manifest(d', transition, {}, map[]), [], Past({transition}, map[]), supply,
                     OfTransition(transition), [DialogueStarted]);
    StartTells(d', CommittedPast(NO_PAST, transition, [DialogueStarted]), transition);
  }

  lemma StartFiled(d: Disk, supply: nat, m': Manifest, past': Past, participants: seq<Participant>, ids: seq<MessageId>)
    requires Filed(d, NO_PAST, supply) && participants != []
    requires Batch(d.outbox, m'.committed, Requests(participants[1..], Proposal, 0), ids)
    requires past'.committed == {m'.committed}
    ensures Filed(Apply(d, PutManifest(m')), past', supply)
    ensures forall id :: id in d.outbox && !Committed(d.outbox, past', id) ==>
      d.outbox[id].status.Staged? || d.outbox[id].status.Dropped()
  {
    assert Within(0);
    forall id | id in d.outbox && d.outbox[id].transition == m'.committed
      ensures d.outbox[id].status.Staged?
    {
      var k :| 0 <= k < |ids| && ids[k] == id;
    }
  }
}
