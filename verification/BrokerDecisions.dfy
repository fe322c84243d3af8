/** Each operation's decision meets the conditions of the commit point. */
module BrokerDecisions {
  import opened CouncilTypes
  import opened PhaseMachine
  import opened PhaseInvariants
  import opened PhaseDecisions
  import opened PhaseResults
  import opened BrokerDisk
  import opened BrokerSteps
  import opened BrokerCommit
  import opened BrokerFacts

  /** A fresh transition is ready: its messages are staged and nothing older is left to do. */
  ghost predicate Ready(
    d: Disk, past: Past, supply: nat, transition: TransitionId, messages: seq<Outgoing>, ids: seq<MessageId>)
    requires d.manifest.Some?
  {
    && Quiet(d.manifest.value, d.outbox, past)
    && Batch(d.outbox, transition, messages, ids)
    && transition < supply && transition !in past.committed
    && forall name :: DurableKey(OfTransition(transition), name) !in past.saved
  }

  lemma CommitSaves(past: Past, transition: TransitionId, events: seq<Event>)
    requires DistinctNames(events)
    requires forall name :: DurableKey(OfTransition(transition), name) !in past.saved
    ensures PastGrown(past, CommittedPast(past, transition, events))
    ensures forall e :: e in events ==>
      var key := DurableKey(OfTransition(transition), NameOf(e));
      key in CommittedPast(past, transition, events).saved && CommittedPast(past, transition, events).saved[key] == e
  {
    SavingHolds(past.(committed := past.committed + {transition}), OfTransition(transition), events);
  }

  // ----- Submitting

  ghost predicate Recording(n: nat) { true }

  /** Recording the response leads to this opening: a name, until a proof says `Recording`. */
  ghost predicate Records(d: Dialogue, files: Files, path: Path, payload: Payload, opening: Opening) {
    forall n: nat {:trigger Recording(n)} :: Recording(n) ==>
      && d.phase.Collecting? && SlotOf(path) !in d.submissions && d.participants != [] && path.round == d.round
      && (forall s :: s in d.submissions ==> SlotOf(d.submissions[s]) == s)
      && Sound(Recorded(d, path), files[path := payload])
      && opening == Advanced(Recorded(d, path), files[path := payload])
      && Stable(opening.dialogue, files[path := payload])
  }

  /** The verdict and the opening are the decision's: a name, until a proof says `Recording`. */
  ghost predicate Responds(
    d: Dialogue, files: Files, p: Participant, kind: Kind, round: nat, payload: Payload, deliverable: bool,
    response: (Verdict, Opening))
  {
    forall n: nat {:trigger Recording(n)} :: Recording(n) ==>
      && d.participants != [] && FilesPresent(d, files)
      && response.0 == Admit(d, files, p, kind, round, payload, deliverable)
      && response.1 == Submitted(d, files, p, kind, round, payload, deliverable)
  }

  /** The decision on a submission, and what the dialogue becomes. */
  function Respond(
    m: Manifest, files: Files, ghost final: Option<Final>, p: Participant, kind: Kind, round: nat, payload: Payload,
    deliverable: bool): (response: (Verdict, Opening))
    requires Settled(m, files, final)
    ensures Responds(m.dialogue, files, p, kind, round, payload, deliverable, response)
    ensures Rightly(m.dialogue, files, p, kind, round, payload, deliverable, response.0)
    ensures !WellFormed(kind, payload) ==> response.0 == Refused(Malformed)
    ensures
      if response.0.Accepted? then
        response.0.path == Path(kind, round, p) && Records(m.dialogue, files, response.0.path, payload, response.1)
      else response.1.dialogue == m.dialogue
  {
    SettledIsStable(m, files, final);
    AnswersRightly(m.dialogue, files, p, kind, round, payload, deliverable);
    var decision := Admit(m.dialogue, files, p, kind, round, payload, deliverable);
    if decision.Accepted? then
      SubmittedIsStable(m.dialogue, files, p, kind, round, payload, deliverable);
      AdmittedMayRecord(m.dialogue, files, p, kind, round, payload, deliverable);
      RoundOfArtifacts(m.dialogue);
      (decision, Advanced(Recorded(m.dialogue, decision.path), files[decision.path := payload]))
    else (decision, Opening(m.dialogue, [], None))
  }

  lemma RecordsNew(d: Dialogue, files: Files, path: Path, payload: Payload, opening: Opening)
    requires Records(d, files, path, payload, opening)
    ensures SlotOf(path) !in d.submissions && d.phase.Collecting?
  {
    assert Recording(0);
  }

  lemma RecordsMayCommit(
    d: Disk, past: Past, supply: nat, files: Files, path: Path, payload: Payload, opening: Opening,
    transition: TransitionId, ids: seq<MessageId>)
    requires Inv(d, past, supply) && d.manifest.Some?
    requires Records(d.manifest.value.dialogue, files, path, payload, opening)
    requires d.files == files[path := payload] && (opening.final.Some? ==> d.final == opening.final)
    requires Ready(d, past, supply, transition, opening.messages, ids)
    ensures
      MayCommit(d, past, supply, opening.dialogue, transition, {},
                SubmissionEvents(path.participant, path.kind, path.round, opening.final.Some?), opening.messages, ids)
  {
    assert Recording(0);
    var m := d.manifest.value;
    SubmissionFollows(m.dialogue, d.files, path, d.final, d.outbox, past);
    SubmissionFinal(Recorded(m.dialogue, path), d.files);
    var events := SubmissionEvents(path.participant, path.kind, path.round, opening.final.Some?);
    ChangesWereSaved(d, past, supply);
    CommitSaves(past, transition, events);
    AdvanceKeepsResponses(Recorded(m.dialogue, path), d.files);
    SubmissionTells(m.dialogue, d.files, path, opening, past, transition);
    SameChangesSaved(m, opening.dialogue, past, transition, {}, events);
  }

  // ----- Extending

  /** What the dialogue becomes by the decision on an extension. */
  function DialogueAfter(d: Dialogue, verdict: ExtensionVerdict): Dialogue {
    if verdict.Extended? then verdict.opening.dialogue else d
  }

  /** The live synthesis requests, which a reopened exchange supersedes. */
  function PlannedSupersedes(outbox: map<MessageId, Record>, p: Participant, kind: Kind): set<MessageId> {
    set id | id in outbox && id.recipient == p && outbox[id].kind == Request(kind) && outbox[id].status.Live()
  }

  function ExtensionSupersedes(d: Dialogue, outbox: map<MessageId, Record>, p: Participant): set<MessageId> {
    if d.phase == Collecting(Synthesis) then PlannedSupersedes(outbox, p, Synthesis) else {}
  }

  lemma PlannedAreCommitted(d: Disk, past: Past, supply: nat, planned: set<MessageId>)
    requires Inv(d, past, supply)
    requires forall id :: id in planned ==> id in d.outbox && d.outbox[id].status.Live()
    ensures forall id :: id in planned ==> Committed(d.outbox, past, id)
  {
    forall id | id in planned
      ensures Committed(d.outbox, past, id)
    {
      InUseIsCommitted(d, past, supply, id);
    }
  }

  /** Only the initiator is ever asked for a synthesis. */
  lemma SynthesisAsksInitiator(d: Disk, past: Past, supply: nat, id: MessageId)
    requires Inv(d, past, supply) && d.manifest.Some? && d.manifest.value.dialogue.participants != []
    requires CommittedRequest(d.outbox, past, id) && d.outbox[id].kind == Request(Synthesis)
    ensures id.recipient == d.manifest.value.dialogue.participants[0]
  {
    assert Inside(d, supply, 0) && Within(0);
  }

  lemma ExtensionFollows(
    d: Disk, past: Past, supply: nat, p: Participant, additional: int, id: ExtensionId, transition: TransitionId)
    requires Inv(d, past, supply) && d.manifest.Some? && d.manifest.value.dialogue.participants != []
    requires Extend(d.manifest.value.dialogue, p, additional, id, transition).Extended?
    ensures
      var dialogue := d.manifest.value.dialogue;
      var opening := Extend(dialogue, p, additional, id, transition).opening;
      var supersedes := ExtensionSupersedes(dialogue, d.outbox, p);
      && Follows(dialogue, opening.dialogue, opening.messages, supersedes, d.final, d.outbox, past)
      && (supersedes == {} || opening.messages != [])
  {
    var dialogue := d.manifest.value.dialogue;
    var opening := Extend(dialogue, p, additional, id, transition).opening;
    var supersedes := ExtensionSupersedes(dialogue, d.outbox, p);
    PlannedAreCommitted(d, past, supply, supersedes);
    if dialogue.phase == Collecting(Synthesis) {
      forall x | CommittedRequest(d.outbox, past, x) && d.outbox[x].kind == Request(Synthesis) && d.outbox[x].status.Live()
        ensures x in supersedes
      {
        SynthesisAsksInitiator(d, past, supply, x);
      }
      assert OpensPhase(dialogue, opening.dialogue, opening.messages, supersedes, d.outbox, past);
    } else {
      assert GoesOn(dialogue, opening.dialogue, opening.messages, supersedes);
    }
  }

  /** An extension leaves no final record to be true of. */
  lemma ExtensionIsUnfinished(
    m: Manifest, files: Files, final: Option<Final>, extended: ExtensionVerdict, p: Participant, additional: int, id: ExtensionId,
    transition: TransitionId, supersedes: set<MessageId>, events: seq<Event>)
    requires m.dialogue.participants != [] && extended == Extend(m.dialogue, p, additional, id, transition) && extended.Extended?
    requires Stable(extended.opening.dialogue, files)
    ensures FinalTrue(CommittedManifest(extended.opening.dialogue, transition, supersedes, events), files, final)
    ensures extended.opening.dialogue.extensions == m.dialogue.extensions[id := extended.extension]
    ensures id !in m.dialogue.extensions && extended.opening.dialogue.submissions == m.dialogue.submissions
    ensures m.dialogue.phase.Collecting? && extended.opening.dialogue.phase.Collecting? && extended.extension.transition == transition
  {
  }

  lemma ReadyMayCommit(
    d: Disk, past: Past, supply: nat, d': Dialogue, transition: TransitionId, supersedes: set<MessageId>, events: seq<Event>,
    messages: seq<Outgoing>, ids: seq<MessageId>)
    requires d.manifest.Some? && d.manifest.value.dialogue.participants != []
    requires Ready(d, past, supply, transition, messages, ids) && DistinctNames(events) && Stable(d', d.files)
    requires Follows(d.manifest.value.dialogue, d', messages, supersedes, d.final, d.outbox, past)
    requires FinalTrue(CommittedManifest(d', transition, supersedes, events), d.files, d.final)
    requires ChangesSaved(CommittedManifest(d', transition, supersedes, events), CommittedPast(past, transition, events))
    requires (supersedes == {} || messages != []) && !d'.phase.Cancelled?
    ensures MayCommit(d, past, supply, d', transition, supersedes, events, messages, ids)
  {
  }

  lemma ExtensionMayCommit(
    d: Disk, past: Past, supply: nat, p: Participant, additional: int, id: ExtensionId, transition: TransitionId,
    supersedes: set<MessageId>, ids: seq<MessageId>)
    requires Inv(d, past, supply) && d.manifest.Some? && d.manifest.value.dialogue.participants != []
    requires Extend(d.manifest.value.dialogue, p, additional, id, transition).Extended?
    requires supersedes == ExtensionSupersedes(d.manifest.value.dialogue, d.outbox, p)
    requires Ready(d, past, supply, transition,
                   Extend(d.manifest.value.dialogue, p, additional, id, transition).opening.messages, ids)
    ensures
      var extended := Extend(d.manifest.value.dialogue, p, additional, id, transition);
      MayCommit(d, past, supply, extended.opening.dialogue, transition, supersedes,
                [RoundsExtended(id, extended.extension)], extended.opening.messages, ids)
  {
    var m := d.manifest.value;
    var extended := Extend(m.dialogue, p, additional, id, transition);
    var events := [RoundsExtended(id, extended.extension)];
    DialogueFacts(d, past, supply);
    ExtendedIsStable(m.dialogue, d.files, p, additional, id, transition);
    ExtensionFollows(d, past, supply, p, additional, id, transition);
    ChangesWereSaved(d, past, supply);
    ExtensionIsUnfinished(m, d.files, d.final, extended, p, additional, id, transition, supersedes, events);
    ExtensionSaved(m, extended, past, id, transition, supersedes);
    ReadyMayCommit(d, past, supply, extended.opening.dialogue, transition, supersedes, events, extended.opening.messages, ids);
  }

  lemma ExtensionSaved(
    m: Manifest, extended: ExtensionVerdict, past: Past, id: ExtensionId, transition: TransitionId,
    supersedes: set<MessageId>)
    requires extended.Extended? && ChangesSaved(m, past) && extended.extension.transition == transition
    requires extended.opening.dialogue.extensions == m.dialogue.extensions[id := extended.extension]
    requires id !in m.dialogue.extensions && extended.opening.dialogue.submissions == m.dialogue.submissions
    requires m.dialogue.phase.Collecting? && extended.opening.dialogue.phase.Collecting?
    requires forall name :: DurableKey(OfTransition(transition), name) !in past.saved
    ensures
      var events := [RoundsExtended(id, extended.extension)];
      ChangesSaved(CommittedManifest(extended.opening.dialogue, transition, supersedes, events),
                   CommittedPast(past, transition, events))
  {
    var events := [RoundsExtended(id, extended.extension)];
    CommitSaves(past, transition, events);
    assert events[0] in events;
    ExtensionTells(m.dialogue, extended.opening.dialogue, past, transition, id, extended.extension);
  }

  lemma ExtensionTells(d: Dialogue, d': Dialogue, past: Past, transition: TransitionId, id: ExtensionId, extension: Extension)
    requires id !in d.extensions && d'.extensions == d.extensions[id := extension] && d'.submissions == d.submissions
    requires d.phase.Collecting? && d'.phase.Collecting? && EventsTold(d, past.saved)
    requires forall name :: DurableKey(OfTransition(transition), name) !in past.saved
    ensures EventsTold(d', CommittedPast(past, transition, [RoundsExtended(id, extension)]).saved)
  {
    var events := [RoundsExtended(id, extension)];
    assert events[0] in events;
    NewsAreTold(d, d', past, transition, events);
  }

  // ----- Cancelling

  function AllLive(outbox: map<MessageId, Record>): set<MessageId> {
    set id | id in outbox && outbox[id].status.Live()
  }

  /** Newly staged messages are not among the planned ones. */
  lemma StagingPlansSame(
    d: Dialogue, outbox: map<MessageId, Record>, outbox': map<MessageId, Record>, transition: TransitionId, p: Participant)
    requires Staging(outbox, outbox', transition)
    ensures ExtensionSupersedes(d, outbox', p) == ExtensionSupersedes(d, outbox, p)
    ensures AllLive(outbox') == AllLive(outbox)
  {
  }

  /** Everybody but the one who cancels is told, once. */
  lemma {:induction false} NoticesReachOthers(participants: seq<Participant>, p: Participant, round: nat)
    ensures forall o :: o in Notices(participants, p, round) <==>
      o.recipient in participants && o.recipient != p && o == Outgoing(o.recipient, CancellationNotice, round)
    ensures NoRepeats(participants) ==> AnnouncesTo(Notices(participants, p, round), participants, Some(p))
  {
    if participants != [] {
      var front, last := participants[..|participants| - 1], participants[|participants| - 1];
      NoticesReachOthers(front, p, round);
      assert participants == front + [last];
      if NoRepeats(participants) {
        NoticeIsNew(Notices(front, p, round), front, p, round, last, Notices(participants, p, round));
      }
    }
  }

  lemma NoticeIsNew(
    messages: seq<Outgoing>, front: seq<Participant>, p: Participant, round: nat, last: Participant, more: seq<Outgoing>)
    requires AnnouncesTo(messages, front, Some(p)) && last !in front
    requires more == messages + if last == p then [] else [Outgoing(last, CancellationNotice, round)]
    ensures AnnouncesTo(more, front + [last], Some(p))
  {
    forall q ensures q in front + [last] && Some(p) != Some(q) <==> exists k: nat :: k < |more| && more[k].recipient == q {
      if k: nat :| k < |messages| && messages[k].recipient == q {
        assert more[k] == messages[k];
      }
      if q == last && last != p {
        assert more[|messages|].recipient == q;
      }
    }
    forall i, j | 0 <= i < j < |more| ensures more[i].recipient != more[j].recipient {
      assert more[i] == messages[i];
      if j == |messages| {
        assert messages[i].recipient in front;
      }
    }
  }

  lemma CancellationFollows(d: Disk, past: Past, supply: nat, p: Participant)
    requires Inv(d, past, supply) && d.manifest.Some? && !d.manifest.value.dialogue.phase.Terminal()
    requires Policy(d.manifest.value.dialogue)
    ensures
      var dialogue := d.manifest.value.dialogue;
      var opening := CancelledBy(dialogue, p);
      && Follows(dialogue, opening.dialogue, opening.messages, AllLive(d.outbox), d.final, d.outbox, past)
      && opening.messages != [] && AnnouncesTo(opening.messages, dialogue.participants, Some(p))
  {
    var dialogue := d.manifest.value.dialogue;
    var opening := CancelledBy(dialogue, p);
    PlannedAreCommitted(d, past, supply, AllLive(d.outbox));
    NoticesReachOthers(dialogue.participants, p, dialogue.round);
    assert Cancels(dialogue, opening.dialogue, opening.messages, AllLive(d.outbox), d.outbox, past);
    var other := if dialogue.participants[0] == p then dialogue.participants[1] else dialogue.participants[0];
    assert Outgoing(other, CancellationNotice, dialogue.round) in opening.messages;
  }

  lemma CancellationMayCommit(
    d: Disk, past: Past, supply: nat, p: Participant, transition: TransitionId, ids: seq<MessageId>)
    requires Inv(d, past, supply) && d.manifest.Some? && !d.manifest.value.dialogue.phase.Terminal()
    requires Ready(d, past, supply, transition, CancelledBy(d.manifest.value.dialogue, p).messages, ids)
    ensures
      var opening := CancelledBy(d.manifest.value.dialogue, p);
      MayCommit(d, past, supply, opening.dialogue, transition, AllLive(d.outbox), [DialogueCancelled(p)],
                opening.messages, ids)
  {
    var m := d.manifest.value;
    var opening := CancelledBy(m.dialogue, p);
    DialogueFacts(d, past, supply);
    CancelledIsStable(m.dialogue, d.files, p);
    CancellationFollows(d, past, supply, p);
    ChangesWereSaved(d, past, supply);
    CancellationSaves(m, p, past, transition, AllLive(d.outbox));
    assert DialogueCancelled(p) in [DialogueCancelled(p)];
  }

  lemma CancellationSaves(m: Manifest, p: Participant, past: Past, transition: TransitionId, supersedes: set<MessageId>)
    requires ChangesSaved(m, past) && !m.dialogue.phase.Terminal()
    requires forall name :: DurableKey(OfTransition(transition), name) !in past.saved
    ensures
      ChangesSaved(CommittedManifest(CancelledBy(m.dialogue, p).dialogue, transition, supersedes, [DialogueCancelled(p)]),
                   CommittedPast(past, transition, [DialogueCancelled(p)]))
  {
    CommitSaves(past, transition, [DialogueCancelled(p)]);
    assert [DialogueCancelled(p)][0] in [DialogueCancelled(p)];
    CancellationTells(m.dialogue, p, past, transition);
  }

  lemma CancellationTells(d: Dialogue, p: Participant, past: Past, transition: TransitionId)
    requires EventsTold(d, past.saved) && !d.phase.Terminal()
    requires forall name :: DurableKey(OfTransition(transition), name) !in past.saved
    ensures EventsTold(CancelledBy(d, p).dialogue, CommittedPast(past, transition, [DialogueCancelled(p)]).saved)
  {
    NewsAreTold(d, CancelledBy(d, p).dialogue, past, transition, [DialogueCancelled(p)]);
  }
}
