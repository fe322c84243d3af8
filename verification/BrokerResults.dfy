/** What runs of the broker come to, said over recorded responses, statuses and times alone: what a repeated
    submission is told, whom the next waits serve, and what the records, the log and the final record say. */
module BrokerResults {
  import opened CouncilTypes
  import opened ClaimLedger
  import opened PhaseMachine
  import opened PhaseInvariants
  import opened PhaseResults
  import opened PhaseDecisions
  import opened PhaseOutcomes
  import opened BrokerDisk
  import opened BrokerCommit
  import opened BrokerFacts
  import opened BrokerDecisions
  import opened BrokerAnswers
  import opened Broker
  import opened BrokerRuns

  // ----- Submitting again

  /** The disk holds this response of the participant. */
  ghost predicate Keeps(d: Disk, kind: Kind, round: nat, p: Participant, payload: Payload) {
    d.manifest.Some? && Says(d.manifest.value.dialogue, d.files, kind, round, p, payload)
  }

  /** What is recorded stays recorded, with its content. */
  lemma RecordedStays(history: seq<Moment>, supply: nat, i: nat, j: nat, kind: Kind, round: nat, p: Participant, payload: Payload)
    requires Trace(history, supply) && i <= j < |history|
    requires Keeps(history[i].disk, kind, round, p, payload) && history[j].disk.manifest.Some?
    ensures Keeps(history[j].disk, kind, round, p, payload)
  {
    assert Tracing(history, 0);
    assert Kept(history[i], history[j]);
    var d := history[i].disk.manifest.value.dialogue;
    var s :| s in d.submissions && d.submissions[s] == Path(kind, round, p);
    assert history[j].disk.manifest.value.dialogue.submissions[s] == Path(kind, round, p);
  }

  /** What is recorded is of a participant and has its form. */
  lemma KeptIsFormed(d: Disk, past: Past, supply: nat, kind: Kind, round: nat, p: Participant, payload: Payload)
    requires Inv(d, past, supply) && Keeps(d, kind, round, p, payload)
    ensures Formed(kind, payload) && p in d.manifest.value.dialogue.participants
  {
    DialogueFacts(d, past, supply);
    var dialogue := d.manifest.value.dialogue;
    var s :| s in dialogue.submissions && dialogue.submissions[s] == Path(kind, round, p);
    assert SlotOf(dialogue.submissions[s]) == s && Belongs(dialogue, s);
    FormIsForm(kind, payload);
  }

  /** The answer to a response where another one, or the same, is recorded. */
  function AnswerAgain(kind: Kind, payload: Payload, again: Payload): Verdict {
    if again == payload then Duplicate else if Formed(kind, again) then Refused(Conflicting) else Refused(Malformed)
  }

  lemma AgainIsRight(
    d: Disk, past: Past, supply: nat, kind: Kind, round: nat, p: Participant, payload: Payload, again: Payload,
    deliverable: bool, v: Verdict)
    requires Inv(d, past, supply) && Keeps(d, kind, round, p, payload)
    requires Rightly(d.manifest.value.dialogue, d.files, p, kind, round, again, deliverable, v)
    ensures v == AnswerAgain(kind, payload, again)
  {
    KeptIsFormed(d, past, supply, kind, round, p, payload);
    assert Deciding(0);
  }

  method PerformAll(b: CouncilBroker, operations: seq<Operation>)
    requires b.Valid()
    modifies b
    ensures b.Ran()
  {
    for i := 0 to |operations|
      invariant b.Ran()
    {
      var o, accepted := Perform(b, operations[i]);
    }
  }

  /** Once a response is recorded, whatever else happens and wherever the process stops and starts again, the
      same response is a duplicate and another one conflicts, and the dialogue stays as it was; as long as the
      dialogue is there. */
  method Resubmit(
    b: CouncilBroker, p: Participant, kind: Kind, round: nat, ghost payload: Payload, operations: seq<Operation>, again: Payload,
    deliverable: bool)
    returns (o: Outcome, verdict: Option<Verdict>, ghost before: Moment)
    requires b.Valid() && Keeps(b.disk, kind, round, p, payload)
    modifies b
    ensures b.Ran() && before in b.history
    ensures o.Done? && b.disk.manifest.Some? ==>
      && verdict == Some(AnswerAgain(kind, payload, again))
      && Tidied(before.disk, b.disk) && Keeps(b.disk, kind, round, p, payload)
      && (Quiet(before.disk.manifest.value, before.disk.outbox, before.past) ==> b.disk == before.disk)
  {
    ghost var i := |b.history| - 1;
    PerformAll(b, operations);
    before := b.history[|b.history| - 1];
    ghost var supply, k := b.supply, |b.history| - 1;
    if b.disk.manifest.Some? {
      RecordedStays(b.history, supply, i, k, kind, round, p, payload);
    }
    ghost var opening;
    o, verdict, opening := b.Submit(p, kind, round, again, deliverable);
    assert b.history[k] == before;
    if o.Done? && before.disk.manifest.Some? {
      AgainIsRight(before.disk, before.past, supply, kind, round, p, payload, again, deliverable, verdict.value);
    }
  }

  lemma AcceptedIsKept(
    d: Disk, past: Past, supply: nat, p: Participant, kind: Kind, round: nat, payload: Payload, deliverable: bool,
    response: (Verdict, Opening), after: Disk)
    requires Inv(d, past, supply) && d.manifest.Some? && response.0.Accepted?
    requires Responds(d.manifest.value.dialogue, d.files, p, kind, round, payload, deliverable, response)
    requires after.manifest.Some? && after.manifest.value.dialogue == response.1.dialogue
    requires after.files == d.files[response.0.path := payload]
    ensures Keeps(after, kind, round, p, payload)
  {
    assert Recording(0);
    DialogueFacts(d, past, supply);
    SubmittedRecords(d.manifest.value.dialogue, d.files, p, kind, round, payload, deliverable);
    assert response.1.dialogue.submissions[SlotOf(response.0.path)] == response.0.path;
  }

  lemma SubmittedRecords(
    d: Dialogue, files: Files, p: Participant, kind: Kind, round: nat, payload: Payload, deliverable: bool)
    requires Stable(d, files) && Admit(d, files, p, kind, round, payload, deliverable).Accepted?
    ensures
      var path := Path(kind, round, p);
      && Admit(d, files, p, kind, round, payload, deliverable).path == path
      && Submitted(d, files, p, kind, round, payload, deliverable).dialogue.submissions == d.submissions[SlotOf(path) := path]
  {
    AdmittedMayRecord(d, files, p, kind, round, payload, deliverable);
    SubmittedIsStable(d, files, p, kind, round, payload, deliverable);
    var path := Path(kind, round, p);
    AdvanceKeepsResponses(Recorded(d, path), files[path := payload]);
  }

  /** A participant that submits, is told that its response is recorded, and submits again, now or later. */
  method SubmitTwice(
    b: CouncilBroker, p: Participant, kind: Kind, round: nat, payload: Payload, deliverable: bool, operations: seq<Operation>,
    again: Payload, deliverableAgain: bool)
    returns (o: Outcome, first: Option<Verdict>, o': Outcome, second: Option<Verdict>)
    requires b.Valid()
    modifies b
    ensures b.Ran()
    ensures o.Done? && first.Some? && (first.value.Accepted? || first.value.Duplicate?) && o'.Done? && b.disk.manifest.Some? ==>
      second == Some(AnswerAgain(kind, payload, again))
  {
    ghost var before, past, supply := b.disk, b.past, b.supply;
    ghost var opening;
    o, first, opening := b.Submit(p, kind, round, payload, deliverable);
    if o.Stopped? || first.None? || !(first.value.Accepted? || first.value.Duplicate?) {
      return o, first, Stopped, None;
    }
    RecordedBySubmit(before, past, supply, p, kind, round, payload, deliverable, first.value, opening, b.disk);
    ghost var moment;
    o', second, moment := Resubmit(b, p, kind, round, payload, operations, again, deliverableAgain);
  }

  lemma RecordedBySubmit(
    d: Disk, past: Past, supply: nat, p: Participant, kind: Kind, round: nat, payload: Payload, deliverable: bool,
    v: Verdict, opening: Option<Opening>, after: Disk)
    requires Inv(d, past, supply) && d.manifest.Some? && after.manifest.Some? && opening.Some? && (v.Accepted? || v.Duplicate?)
    requires Responds(d.manifest.value.dialogue, d.files, p, kind, round, payload, deliverable, (v, opening.value))
    requires Rightly(d.manifest.value.dialogue, d.files, p, kind, round, payload, deliverable, v)
    requires after.manifest.value.dialogue == opening.value.dialogue
    requires if v.Accepted? then after.files == d.files[v.path := payload] else Tidied(d, after)
    ensures Keeps(after, kind, round, p, payload)
  {
    if v.Accepted? {
      AcceptedIsKept(d, past, supply, p, kind, round, payload, deliverable, (v, opening.value), after);
    } else {
      assert Deciding(0);
    }
  }

  // ----- Waiting again and again

  /** What was handed out was available, and is claimed now or was settled since. */
  ghost predicate HandedRightly(first: Disk, outbox: map<MessageId, Record>, p: Participant, now: nat, handed: seq<MessageId>) {
    forall id :: id in handed ==>
      && id in first.outbox && id.recipient == p && Available(first.outbox[id], now)
      && id in outbox && (outbox[id].status.Acknowledged? || outbox[id].status == Claimed(now + 120))
  }

  /** What was not handed out is as it was, or was settled by the broker. */
  ghost predicate OthersAsBefore(first: Disk, outbox: map<MessageId, Record>, p: Participant, handed: seq<MessageId>)
    requires first.manifest.Some?
  {
    forall id :: id in first.outbox && id !in handed ==>
      id in outbox &&
      (|| outbox[id] == first.outbox[id]
       || (id.recipient == p && SettledAlready(first, id) && outbox[id] == first.outbox[id].(status := Acknowledged)))
  }

  ghost predicate Drained(first: Disk, outbox: map<MessageId, Record>, p: Participant, now: nat, handed: seq<MessageId>)
    requires first.manifest.Some?
  {
    HandedRightly(first, outbox, p, now, handed) && OthersAsBefore(first, outbox, p, handed) && NoRepeats(handed)
  }

  /** Everything that was available was handed out, once, or was settled by the broker. */
  ghost predicate ServedAll(first: Disk, outbox: map<MessageId, Record>, p: Participant, now: nat, handed: seq<MessageId>)
    requires first.manifest.Some?
  {
    && (forall id :: id in first.outbox && id.recipient == p && Available(first.outbox[id], now) ==>
          id in handed || (SettledAlready(first, id) && id in outbox && outbox[id].status.Acknowledged?))
    && (forall id :: id in handed ==> id in first.outbox && id.recipient == p && Available(first.outbox[id], now))
    && (forall i, j :: 0 <= i < j < |handed| ==> handed[i] != handed[j])
  }

  ghost function AvailableFor(outbox: map<MessageId, Record>, p: Participant, now: nat): set<MessageId> {
    set id | id in outbox && id.recipient == p && Available(outbox[id], now)
  }

  lemma FewerAreAvailable(before: Disk, outbox: map<MessageId, Record>, p: Participant, now: nat, id: MessageId)
    requires before.manifest.Some? && Serves(before, outbox, p, now, Some(id))
    ensures AvailableFor(outbox, p, now) < AvailableFor(before.outbox, p, now)
  {
    assert id in AvailableFor(before.outbox, p, now) && id !in AvailableFor(outbox, p, now);
    forall x | x in AvailableFor(outbox, p, now) ensures x in AvailableFor(before.outbox, p, now) {
    }
  }

  lemma NewlyHanded(first: Disk, before: Disk, outbox: map<MessageId, Record>, p: Participant, now: nat, handed: seq<MessageId>, id: MessageId)
    requires before.manifest.Some? && Serves(before, outbox, p, now, Some(id)) && first.manifest.Some? && id in first.outbox
    requires id in handed ==> before.outbox[id].status.Acknowledged? || before.outbox[id].status == Claimed(now + 120)
    requires id !in handed ==>
      before.outbox[id] == first.outbox[id] || before.outbox[id] == first.outbox[id].(status := Acknowledged)
    ensures id !in handed && id.recipient == p && Available(first.outbox[id], now) && outbox[id].status == Claimed(now + 120)
  {
  }

  lemma HandedStay(first: Disk, before: Disk, outbox: map<MessageId, Record>, p: Participant, now: nat, handed: seq<MessageId>, id: MessageId)
    requires before.manifest.Some? && HandedRightly(first, before.outbox, p, now, handed) && Serves(before, outbox, p, now, Some(id))
    ensures HandedRightly(first, outbox, p, now, handed)
  {
  }

  lemma HandedMore(first: Disk, before: Disk, outbox: map<MessageId, Record>, p: Participant, now: nat, handed: seq<MessageId>, id: MessageId)
    requires Tidied(first, before) && Drained(first, before.outbox, p, now, handed) && Serves(before, outbox, p, now, Some(id))
    ensures HandedRightly(first, outbox, p, now, handed + [id]) && id !in handed
  {
    NewlyHanded(first, before, outbox, p, now, handed, id);
    HandedStay(first, before, outbox, p, now, handed, id);
  }

  lemma OthersGoOn(first: Disk, before: Disk, outbox: map<MessageId, Record>, p: Participant, handed: seq<MessageId>, now: nat, id: MessageId)
    requires Tidied(first, before) && OthersAsBefore(first, before.outbox, p, handed) && Serves(before, outbox, p, now, Some(id))
    ensures OthersAsBefore(first, outbox, p, handed + [id])
  {
  }

  lemma DrainedMore(first: Disk, before: Disk, outbox: map<MessageId, Record>, p: Participant, now: nat, handed: seq<MessageId>, id: MessageId)
    requires Tidied(first, before) && Drained(first, before.outbox, p, now, handed) && Serves(before, outbox, p, now, Some(id))
    ensures Drained(first, outbox, p, now, handed + [id])
  {
    HandedMore(first, before, outbox, p, now, handed, id);
    OthersGoOn(first, before, outbox, p, handed, now, id);
  }

  lemma DrainedOut(first: Disk, before: Disk, outbox: map<MessageId, Record>, p: Participant, now: nat, handed: seq<MessageId>)
    requires Tidied(first, before) && Drained(first, before.outbox, p, now, handed) && Serves(before, outbox, p, now, None)
    ensures ServedAll(first, outbox, p, now, handed)
  {
  }

  /** A participant that goes on waiting, with a process that stops nowhere, is given every message that nobody
      had and every one whose claim was over, each once, but for those that the broker has settled for it; and
      then it is told that there is none. */
  method DrainWaits(b: CouncilBroker, p: Participant, now: nat) returns (handed: seq<MessageId>)
    requires b.Valid() && b.Up() && b.plan.Never? && b.disk.manifest.Some?
    modifies b
    ensures b.Ran() && b.Up() && Tidied(old(b.disk), b.disk) && ServedAll(old(b.disk), b.disk.outbox, p, now, handed)
  {
    ghost var first := b.disk;
    NothingTidied(b.disk);
    handed := [];
    var answer: Option<MessageId> := Some(MessageId(p, 0));
    while answer.Some?
      invariant b.Ran() && b.Up() && b.plan.Never? && Tidied(first, b.disk)
      invariant if answer.Some? then Drained(first, b.disk.outbox, p, now, handed) else ServedAll(first, b.disk.outbox, p, now, handed)
      decreases answer.Some?, |AvailableFor(b.disk.outbox, p, now)|
    {
      ghost var before := b.disk;
      var o;
      o, answer := b.Wait(p, now);
      TidiedTwice(first, before, b.disk);
      match answer {
        case Some(id) =>
          DrainedMore(first, before, b.disk.outbox, p, now, handed, id);
          FewerAreAvailable(before, b.disk.outbox, p, now, id);
          FewerAvailable(AvailableFor(b.disk.outbox, p, now), AvailableFor(before.outbox, p, now));
          handed := handed + [id];
        case None => DrainedOut(first, before, b.disk.outbox, p, now, handed);
      }
    }
  }

  lemma FewerAvailable(a: set<MessageId>, b: set<MessageId>)
    requires a < b
    ensures |a| < |b|
  {
    assert b == a + (b - a) && b - a != {};
  }

  // ----- What is recorded

  /** Every recorded response is of a responsible participant and a round that was opened, has its form, and
      says nothing about the claims that is out of order. */
  lemma RecordedIsLawful(history: seq<Moment>, supply: nat, i: nat, kind: Kind, round: nat, p: Participant, payload: Payload)
    requires Trace(history, supply) && i < |history| && Keeps(history[i].disk, kind, round, p, payload)
    ensures
      var d := history[i].disk.manifest.value.dialogue;
      && d.participants != [] && Responsible(d.participants, kind, p) && round <= d.round
      && Formed(kind, payload) && Lawful(d.ledger.raw, p, payload)
  {
    assert Tracing(history, 0);
    DialogueFacts(history[i].disk, history[i].past, supply);
    var d := history[i].disk.manifest.value.dialogue;
    var s :| s in d.submissions && d.submissions[s] == Path(kind, round, p);
    assert SlotOf(d.submissions[s]) == s && Belongs(d, s);
    ResponsibleIsRequired(d.participants, kind, p);
    FormIsForm(kind, payload);
  }

  /** At every moment, whatever retired did so on everyone's word, in the exchange of its round: as a duplicate
      of the same claim, or as nonmaterial, with evidence or again after the round before. */
  lemma RetiredOnEveryonesWordAlways(history: seq<Moment>, supply: nat, i: nat, r: Retired)
    requires Trace(history, supply) && i < |history| && history[i].disk.manifest.Some?
    requires r in history[i].disk.manifest.value.dialogue.ledger.retired
    ensures
      var d, files := history[i].disk.manifest.value.dialogue, history[i].disk.files;
      match r.duplicateOf
      case Some(target) => AllCallDuplicate(d, files, r.round, r.claim.id, target)
      case None =>
        && AllCallNonmaterial(d, files, r.round, r.claim.id)
        && (SomeEvidence(d, files, r.round, r.claim.id) || (r.round > 1 && AllCallNonmaterial(d, files, r.round - 1, r.claim.id)))
  {
    assert Tracing(history, 0);
    DialogueFacts(history[i].disk, history[i].past, supply);
    RetiredOnEveryonesWord(history[i].disk.manifest.value.dialogue, history[i].disk.files, r);
  }

  /** At every moment at which the dialogue is complete there is a final record, and it is the dialogue's last
      word. */
  lemma FinalIsTold(history: seq<Moment>, supply: nat, i: nat)
    requires Trace(history, supply) && i < |history| && history[i].disk.manifest.Some?
    requires history[i].disk.manifest.value.dialogue.phase.Complete?
    ensures
      var d := history[i].disk.manifest.value.dialogue;
      d.participants != [] && history[i].disk.final.Some? && Tells(d, history[i].disk.files, history[i].disk.final.value)
  {
    assert Tracing(history, 0);
    DialogueFacts(history[i].disk, history[i].past, supply);
    FinalTells(history[i].disk.manifest.value.dialogue, history[i].disk.files);
  }

  // ----- Who is asked, and who is told of the end

  lemma AsksAndTells(d: Disk, past: Past, supply: nat)
    requires Inv(d, past, supply) && d.manifest.Some?
    ensures d.manifest.value.dialogue.participants != []
    ensures RequestsPlaced(d.manifest.value, d.outbox, past) && NoticesTrue(d.manifest.value, d.final, d.outbox, past)
    ensures SupersededRightly(d.manifest.value, d.outbox, past)
    ensures !d.tombstone ==> EndAnnounced(d.manifest.value, d.outbox, past)
  {
    assert Inside(d, supply, 0) && Within(0);
  }

  /** Whoever is asked for an answer is responsible for it, and its stage was reached; the initiator is never
      asked for its proposal. */
  lemma OnlyTheResponsibleAreAsked(history: seq<Moment>, supply: nat, j: nat, id: MessageId)
    requires Trace(history, supply) && j < |history| && history[j].disk.manifest.Some?
    requires id in history[j].disk.outbox && history[j].disk.outbox[id].status.InUse() && history[j].disk.outbox[id].kind.Request?
    ensures
      var d, r := history[j].disk.manifest.value.dialogue, history[j].disk.outbox[id];
      && d.participants != [] && Responsible(d.participants, r.kind.kind, id.recipient)
      && (r.kind.kind.Proposal? ==> id.recipient != d.participants[0])
      && (d.phase.Collecting? ==> !Later(d, r.round, r.kind.kind))
  {
    assert Tracing(history, 0);
    AsksAndTells(history[j].disk, history[j].past, supply);
    InUseIsCommitted(history[j].disk, history[j].past, supply, id);
    DialogueFacts(history[j].disk, history[j].past, supply);
    ResponsibleIsRequired(history[j].disk.manifest.value.dialogue.participants, history[j].disk.outbox[id].kind.kind, id.recipient);
  }

  /** Only a cancellation takes anything but a request for a synthesis out of circulation. */
  lemma OnlySynthesisIsSuperseded(history: seq<Moment>, supply: nat, j: nat, id: MessageId)
    requires Trace(history, supply) && j < |history| && history[j].disk.manifest.Some?
    requires id in history[j].disk.outbox && history[j].disk.outbox[id].status.Superseded?
    ensures history[j].disk.manifest.value.dialogue.phase.Cancelled? || history[j].disk.outbox[id].kind == Request(Synthesis)
  {
    assert Tracing(history, 0);
    AsksAndTells(history[j].disk, history[j].past, supply);
    InUseIsCommitted(history[j].disk, history[j].past, supply, id);
  }

  /** A message in circulation, now or once, that tells the participant of the end. */
  ghost predicate Announces(d: Disk, id: MessageId, p: Participant) {
    id in d.outbox && id.recipient == p && d.outbox[id].status.InUse() && !d.outbox[id].kind.Request?
  }

  lemma AnnouncesIsNotice(d: Disk, past: Past, supply: nat, id: MessageId, p: Participant)
    requires Inv(d, past, supply) && d.manifest.Some? && AtRest(d)
    ensures Announces(d, id, p) <==> IsNotice(d.outbox, past, id) && id.recipient == p
  {
    if id in d.outbox {
      RestSettlesMessages(d, past, supply, id);
      if d.outbox[id].status.InUse() {
        InUseIsCommitted(d, past, supply, id);
      }
    }
  }

  /** The participant was told of the end once. */
  ghost predicate ToldOfTheEnd(d: Disk, p: Participant) {
    exists id :: Announces(d, id, p) && forall x :: Announces(d, x, p) ==> x == id
  }

  lemma ToldIsAnnounced(d: Disk, past: Past, supply: nat, p: Participant)
    requires Inv(d, past, supply) && d.manifest.Some? && AtRest(d)
    ensures IsTold(d.outbox, past, p) <==> ToldOfTheEnd(d, p)
    ensures ToldOfTheEnd(d, p) <==> exists id :: Announces(d, id, p)
  {
    AsksAndTells(d, past, supply);
    forall id ensures Announces(d, id, p) <==> IsNotice(d.outbox, past, id) && id.recipient == p {
      AnnouncesIsNotice(d, past, supply, id, p);
    }
  }

  /** At rest, everyone has been told once of a completion, with the final record. */
  lemma CompletionIsAnnounced(history: seq<Moment>, supply: nat, j: nat, p: Participant)
    requires Trace(history, supply) && j < |history| && AtRest(history[j].disk) && history[j].disk.manifest.Some?
    requires history[j].disk.manifest.value.dialogue.phase.Complete?
    ensures p in history[j].disk.manifest.value.dialogue.participants <==> ToldOfTheEnd(history[j].disk, p)
    ensures forall id :: Announces(history[j].disk, id, p) ==>
      history[j].disk.outbox[id].kind.CompletionNotice? && history[j].disk.final == Some(history[j].disk.outbox[id].kind.final)
  {
    assert Tracing(history, 0);
    AsksAndTells(history[j].disk, history[j].past, supply);
    ToldIsAnnounced(history[j].disk, history[j].past, supply, p);
    forall id | Announces(history[j].disk, id, p) ensures IsNotice(history[j].disk.outbox, history[j].past, id) {
      AnnouncesIsNotice(history[j].disk, history[j].past, supply, id, p);
    }
  }

  /** And of a cancellation, everyone but the participant that the log says cancelled. */
  lemma CancellationIsAnnounced(history: seq<Moment>, supply: nat, j: nat, who: Participant, p: Participant)
    requires Trace(history, supply) && j < |history| && AtRest(history[j].disk) && history[j].disk.manifest.Some?
    requires history[j].disk.manifest.value.dialogue.phase.Cancelled?
    requires Durable(OfTransition(history[j].disk.manifest.value.committed), DialogueCancelled(who)) in history[j].disk.audit
    ensures p in history[j].disk.manifest.value.dialogue.participants && p != who <==> ToldOfTheEnd(history[j].disk, p)
    ensures forall id :: Announces(history[j].disk, id, p) ==> history[j].disk.outbox[id].kind.CancellationNotice?
  {
    assert Tracing(history, 0);
    var d, past := history[j].disk, history[j].past;
    AsksAndTells(d, past, supply);
    ToldIsAnnounced(d, past, supply, p);
    CancellerIsSaved(d, past, supply, who);
    forall id | Announces(d, id, p) ensures IsNotice(d.outbox, past, id) {
      AnnouncesIsNotice(d, past, supply, id, p);
    }
  }

  lemma CancellerIsSaved(d: Disk, past: Past, supply: nat, who: Participant)
    requires Inv(d, past, supply) && d.manifest.Some?
    requires Durable(OfTransition(d.manifest.value.committed), DialogueCancelled(who)) in d.audit
    ensures IsCancelledBy(d.manifest.value, past, who)
  {
    var i :| 0 <= i < |d.audit| && d.audit[i] == Durable(OfTransition(d.manifest.value.committed), DialogueCancelled(who));
    LoggedWasSaved(d, past, supply, i);
  }

  // ----- What the log tells

  lemma SavedTells(d: Disk, past: Past, supply: nat)
    requires Inv(d, past, supply) && d.manifest.Some?
    ensures EventsTold(d.manifest.value.dialogue, past.saved)
  {
    assert Inside(d, supply, 0) && Within(0);
  }

  /** The log has an entry for the event, and one only. */
  ghost predicate ToldOnce(audit: seq<Entry>, e: Event) {
    exists i :: 0 <= i < |audit| && audit[i].Durable? && audit[i].event == e &&
      forall j :: 0 <= j < |audit| && audit[j].Durable? && audit[j].event == e ==> j == i
  }

  ghost predicate ToldOf(audit: seq<Entry>, e: Event) {
    exists i :: 0 <= i < |audit| && audit[i].Durable? && audit[i].event == e
  }

  lemma ToldHappened(d: Disk, past: Past, supply: nat, e: Event)
    requires Inv(d, past, supply) && d.manifest.Some? && ToldOf(d.audit, e)
    ensures Happened(d.manifest.value.dialogue, e)
  {
    SavedTells(d, past, supply);
    var i :| 0 <= i < |d.audit| && d.audit[i].Durable? && d.audit[i].event == e;
    LoggedWasSaved(d, past, supply, i);
    assert Happened(d.manifest.value.dialogue, past.saved[KeyOf(d.audit[i])]);
  }

  lemma HappenedIsTold(d: Disk, past: Past, supply: nat, e: Event)
    requires Inv(d, past, supply) && d.manifest.Some? && AtRest(d) && Happened(d.manifest.value.dialogue, e)
    requires !e.AcknowledgementRecovered? && !e.DialogueCancelled?
    ensures ToldOnce(d.audit, e)
  {
    SavedTells(d, past, supply);
    assert SavedEvent(past.saved, e);
    var key :| key in past.saved && past.saved[key] == e && key.DurableKey? && key.name == NameOf(e);
    SavedIsLogged(d, past, supply, key);
    var i :| 0 <= i < |d.audit| && d.audit[i] == Durable(key.id, e);
    forall k | 0 <= k < |d.audit| && d.audit[k].Durable? && d.audit[k].event == e ensures k == i {
      LoggedWasSaved(d, past, supply, k);
      assert KeyOf(d.audit[k]) == key;
    }
  }

  /** At rest the log tells the dialogue: its start, each recorded response, each applied extension and its
      completion once, and nothing of the kind that did not happen. */
  lemma LogTellsTheDialogue(history: seq<Moment>, supply: nat, j: nat, e: Event)
    requires Trace(history, supply) && j < |history| && AtRest(history[j].disk) && history[j].disk.manifest.Some?
    requires e.DialogueStarted? || e.SubmissionReceived? || e.RoundsExtended? || e.DialogueCompleted?
    ensures
      var d, audit := history[j].disk.manifest.value.dialogue, history[j].disk.audit;
      if Happened(d, e) then ToldOnce(audit, e) else !ToldOf(audit, e)
  {
    assert Tracing(history, 0);
    if Happened(history[j].disk.manifest.value.dialogue, e) {
      HappenedIsTold(history[j].disk, history[j].past, supply, e);
    } else if ToldOf(history[j].disk.audit, e) {
      ToldHappened(history[j].disk, history[j].past, supply, e);
    }
  }

  /** And of a cancellation it tells exactly when there was one, under the transition that was it. */
  lemma LogTellsTheCancellation(history: seq<Moment>, supply: nat, j: nat)
    requires Trace(history, supply) && j < |history| && AtRest(history[j].disk) && history[j].disk.manifest.Some?
    ensures
      var m := history[j].disk.manifest.value;
      m.dialogue.phase.Cancelled? <==> exists who :: Durable(OfTransition(m.committed), DialogueCancelled(who)) in history[j].disk.audit
  {
    assert Tracing(history, 0);
    var d, past := history[j].disk, history[j].past;
    var m := d.manifest.value;
    if who :| Durable(OfTransition(m.committed), DialogueCancelled(who)) in d.audit {
      assert ToldOf(d.audit, DialogueCancelled(who));
      ToldHappened(d, past, supply, DialogueCancelled(who));
    }
    if m.dialogue.phase.Cancelled? {
      CancellationSaved(d, past, supply);
      var key := DurableKey(OfTransition(m.committed), Cancellation);
      SavedIsLogged(d, past, supply, key);
      assert Durable(OfTransition(m.committed), DialogueCancelled(past.saved[key].participant)) in d.audit;
    }
  }

  lemma CancellationSaved(d: Disk, past: Past, supply: nat)
    requires Inv(d, past, supply) && d.manifest.Some? && d.manifest.value.dialogue.phase.Cancelled?
    ensures
      var key := DurableKey(OfTransition(d.manifest.value.committed), Cancellation);
      key in past.saved && NameOf(past.saved[key]) == Cancellation
  {
    assert Inside(d, supply, 0) && Within(0);
  }
}
