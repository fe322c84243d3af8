/** Runs from a new broker on: any dialogue can be led to its completion, and the runs on which the general
    results need their conditions. */
module BrokerScenarios {
  import opened AuditLog
  import opened CouncilTypes
  import opened PhaseMachine
  import opened PhaseInvariants
  import opened PhaseProgress
  import opened BrokerDisk
  import opened BrokerCommit
  import opened BrokerFacts
  import opened BrokerDecisions
  import opened Broker
  import opened BrokerRuns

  /** The process is up and stops nowhere, and nothing is left of the operations so far. */
  ghost predicate Steady(b: CouncilBroker)
    reads b
  {
    && b.Valid() && b.Up() && b.plan.Never? && b.tear == 0 && b.disk.manifest.Some?
    && Quiet(b.disk.manifest.value, b.disk.outbox, b.past)
  }

  /** A new broker with a dialogue that has just started. */
  method NewDialogue(codec: Codec<Entry>, participants: seq<Participant>, minimum: nat, rounds: nat, maximum: nat, stop: bool, ceiling: nat)
    returns (b: CouncilBroker)
    requires Faithful(codec) && PolicyAllowed(participants, minimum, rounds, maximum, ceiling)
    ensures fresh(b) && Steady(b)
    ensures b.disk.manifest.value.dialogue == Started(participants, minimum, rounds, maximum, stop, ceiling).dialogue
  {
    b := NewProcess(codec);
    var o, started := b.Start(participants, minimum, rounds, maximum, stop, ceiling);
  }

  /** A new broker, and its first process. */
  method NewProcess(codec: Codec<Entry>) returns (b: CouncilBroker)
    requires Faithful(codec)
    ensures fresh(b) && b.Valid() && b.Up() && b.plan.Never? && b.tear == 0 && b.disk == EMPTY_DISK
  {
    b := new CouncilBroker(codec);
    var o := b.Restart(Never, 0);
    assert b.disk.outbox.Keys == {};
  }

  // ----- Every dialogue can be completed

  /** Whose answer, and which. */
  method ChooseAnswer(b: CouncilBroker) returns (r: Response)
    requires Steady(b) && b.disk.manifest.value.dialogue.phase.Collecting?
    ensures Takes(b.disk.manifest.value.dialogue, b.disk.files, r)
  {
    DialogueFacts(b.disk, b.past, b.supply);
    var d := b.disk.manifest.value.dialogue;
    AwaitedUntilBarrier(d, b.disk.files);
    var p :| p in Awaited(d);
    AnswerIsAdmitted(d, b.disk.files, p);
    r := Response(p, d.phase.kind, ArtifactRound(d), Answer(d, p));
  }

  /** An accepted response is recorded. */
  method Give(b: CouncilBroker, r: Response)
    requires Steady(b) && Takes(b.disk.manifest.value.dialogue, b.disk.files, r)
    modifies b
    ensures Steady(b) && b.disk.manifest.value.dialogue == Taken(old(b.disk).manifest.value.dialogue, old(b.disk).files, r).0
  {
    ghost var d, files := b.disk.manifest.value.dialogue, b.disk.files;
    TakesWellFormed(d, files, r);
    var o, verdict;
    ghost var opening;
    o, verdict, opening := b.Submit(r.participant, r.kind, r.round, r.payload, true);
    TakenResponds(d, files, r, (verdict.value, opening.value));
  }

  lemma TakesWellFormed(d: Dialogue, files: Files, r: Response)
    requires Takes(d, files, r)
    ensures WellFormed(r.kind, r.payload)
  {
  }

  /** The broker's decision on a response that is taken. */
  lemma TakenResponds(d: Dialogue, files: Files, r: Response, response: (Verdict, Opening))
    requires Takes(d, files, r) && Responds(d, files, r.participant, r.kind, r.round, r.payload, true, response)
    ensures response.0 == Accepted(Path(r.kind, r.round, r.participant))
    ensures response.1 == Submitted(d, files, r.participant, r.kind, r.round, r.payload, true)
  {
    assert Recording(0);
  }

  /** The response completes the dialogue: a name, until a proof says `Recording`. */
  ghost predicate Last(d: Dialogue, files: Files, r: Response) {
    forall n: nat {:trigger Recording(n)} :: Recording(n) ==>
      Takes(d, files, r) && Submitted(d, files, r.participant, r.kind, r.round, r.payload, true).final.Some?
  }

  lemma LastIsWellFormed(d: Dialogue, files: Files, r: Response)
    requires Last(d, files, r)
    ensures WellFormed(r.kind, r.payload)
  {
    assert Recording(0);
  }

  lemma LastIsTaken(d: Dialogue, files: Files, r: Response)
    requires Last(d, files, r)
    ensures Takes(d, files, r)
  {
    assert Recording(0);
  }

  lemma LastResponds(d: Dialogue, files: Files, r: Response, response: (Verdict, Opening))
    requires Last(d, files, r) && Responds(d, files, r.participant, r.kind, r.round, r.payload, true, response)
    ensures response.0.Accepted? && response.1.final.Some?
  {
    assert Recording(0);
    TakenResponds(d, files, r, response);
  }

  /** Leads a dialogue to where one response more completes it. */
  method LeadToLast(b: CouncilBroker) returns (r: Response)
    requires Steady(b) && b.disk.manifest.value.dialogue.phase.Collecting?
    modifies b
    ensures Steady(b) && b.disk.manifest.value.dialogue.phase.Collecting?
    ensures Last(b.disk.manifest.value.dialogue, b.disk.files, r)
  {
    r := ChooseAnswer(b);
    var last := IsLast(b, r);
    while !last
      invariant Steady(b) && b.disk.manifest.value.dialogue.phase.Collecting?
      invariant Takes(b.disk.manifest.value.dialogue, b.disk.files, r)
      invariant last <==> Last(b.disk.manifest.value.dialogue, b.disk.files, r)
      decreases Left(b.disk.manifest.value.dialogue)
    {
      r, last := GiveAndChoose(b, r);
    }
  }

  method IsLast(b: CouncilBroker, r: Response) returns (last: bool)
    requires Steady(b) && Takes(b.disk.manifest.value.dialogue, b.disk.files, r)
    ensures last <==> Last(b.disk.manifest.value.dialogue, b.disk.files, r)
  {
    var verdict, opening := b.Judge(r.participant, r.kind, r.round, r.payload, true);
    TakenResponds(b.disk.manifest.value.dialogue, b.disk.files, r, (verdict, opening));
    last := opening.final.Some?;
    assert Recording(0);
  }

  method GiveAndChoose(b: CouncilBroker, r: Response) returns (next: Response, last: bool)
    requires Steady(b) && Takes(b.disk.manifest.value.dialogue, b.disk.files, r)
    requires !Last(b.disk.manifest.value.dialogue, b.disk.files, r)
    modifies b
    ensures Steady(b) && b.disk.manifest.value.dialogue.phase.Collecting?
    ensures Takes(b.disk.manifest.value.dialogue, b.disk.files, next)
    ensures last <==> Last(b.disk.manifest.value.dialogue, b.disk.files, next)
    ensures 0 <= Left(b.disk.manifest.value.dialogue) < Left(old(b.disk).manifest.value.dialogue)
  {
    TakingGoesOn(b.disk.manifest.value.dialogue, b.disk.files, r);
    OnlyLastCompletes(b.disk.manifest.value.dialogue, b.disk.files, r);
    Give(b, r);
    next := ChooseAnswer(b);
    last := IsLast(b, next);
  }

  lemma OnlyLastCompletes(d: Dialogue, files: Files, r: Response)
    requires Takes(d, files, r)
    ensures Taken(d, files, r).0.phase.Complete? <==> Last(d, files, r)
  {
    assert Recording(0);
    var path := Path(r.kind, r.round, r.participant);
    SubmittedIsStable(d, files, r.participant, r.kind, r.round, r.payload, true);
    SubmissionFinal(Recorded(d, path), files[path := r.payload]);
  }

  /** Leads a dialogue to its completion. */
  method Complete(b: CouncilBroker)
    requires Steady(b) && b.disk.manifest.value.dialogue.phase.Collecting?
    modifies b
    ensures Steady(b) && b.disk.manifest.value.dialogue.phase.Complete?
  {
    var r := LeadToLast(b);
    LastIsTaken(b.disk.manifest.value.dialogue, b.disk.files, r);
    OnlyLastCompletes(b.disk.manifest.value.dialogue, b.disk.files, r);
    Give(b, r);
  }

  // ----- A final record without a completed dialogue

  /** The last response's final record is written and the save of the manifest fails; the process goes on
      and cancels the dialogue; the final record stays. */
  method CancelledWithFinal(codec: Codec<Entry>, p: Participant, q: Participant) returns (b: CouncilBroker)
    requires Faithful(codec) && p != q
    ensures fresh(b) && b.Valid() && AtRest(b.disk)
    ensures b.disk.manifest.Some? && b.disk.manifest.value.dialogue.phase.Cancelled? && b.disk.final.Some?
  {
    b := NewDialogue(codec, [p, q], 1, 1, 1, false, 2);
    var r := LeadToLast(b);
    FailLast(b, r);
    b.Resume(Never, 0);
    DialogueFacts(b.disk, b.past, b.supply);
    var o, changed := b.Cancel(b.disk.manifest.value.dialogue.participants[0]);
    o := b.Restart(Never, 0);
  }

  /** The submission that completes a dialogue fails behind its second write. */
  method FailLast(b: CouncilBroker, r: Response)
    requires Steady(b) && Last(b.disk.manifest.value.dialogue, b.disk.files, r)
    modifies b
    ensures b.Valid() && b.overlong.None? && b.disk.manifest == old(b.disk).manifest && b.disk.final.Some?
  {
    b.Resume(After(2), 0);
    SubmitLast(b, r);
  }

  method SubmitLast(b: CouncilBroker, r: Response)
    requires b.Valid() && b.Up() && b.plan == After(2) && b.written == 0 && b.tear == 0 && b.disk.manifest.Some?
    requires Quiet(b.disk.manifest.value, b.disk.outbox, b.past) && Last(b.disk.manifest.value.dialogue, b.disk.files, r)
    modifies b
    ensures b.Valid() && b.overlong.None? && b.disk.manifest == old(b.disk).manifest && b.disk.final.Some?
  {
    ghost var d, files := b.disk.manifest.value.dialogue, b.disk.files;
    LastIsWellFormed(d, files, r);
    var o, verdict;
    ghost var opening;
    o, verdict, opening := b.Submit(r.participant, r.kind, r.round, r.payload, true);
    LastResponds(d, files, r, (verdict.value, opening.value));
  }

  // ----- A claimed message that the log does not know

  /** The log entry of the first activation fails and the process goes on: the message is handed out, and
      no restart logs it. */
  method UnloggedActivation(codec: Codec<Entry>, p: Participant, q: Participant) returns (b: CouncilBroker, id: MessageId)
    requires Faithful(codec) && p != q
    ensures fresh(b) && b.Valid() && AtRest(b.disk) && b.disk.manifest.Some?
    ensures id in b.disk.outbox && b.disk.outbox[id].status.InUse() && !Logged(b.disk.audit, QueuedKey(id))
  {
    b := NewProcess(codec);
    b.Resume(At(IsActivationEvent), 0);
    var o, started := b.Start([p, q], 1, 1, 1, false, 2);
    b.Resume(Never, 0);
    id :| id in b.disk.outbox && FirstActivated(b.disk, id);
    HandOut(b, id);
    LeaveUnlogged(b, id);
  }

  /** No restart logs the activation of a message that was handed out. */
  method LeaveUnlogged(b: CouncilBroker, id: MessageId)
    requires b.Valid() && b.overlong.None? && b.disk.manifest.Some? && !b.disk.tombstone
    requires id in b.disk.outbox && b.disk.outbox[id].status.Claimed? && !Logged(b.disk.audit, QueuedKey(id))
    modifies b
    ensures b.Ran() && AtRest(b.disk) && b.disk.manifest.Some?
    ensures id in b.disk.outbox && b.disk.outbox[id].status.InUse() && !Logged(b.disk.audit, QueuedKey(id))
  {
    ghost var was, before, past := b.history, b.disk, b.past;
    InUseIsCommitted(before, past, b.supply, id);
    var o := b.Restart(Never, 0);
    RunGrows(b.history, b.supply, was, Moment(before, past));
    StillUsed(before, b.disk, b.past, b.supply, id);
    StillUnlogged(before, b.disk, id);
  }

  lemma StillUsed(before: Disk, d: Disk, past: Past, supply: nat, id: MessageId)
    requires DiskGrown(before, d) && before.manifest.Some? && !d.tombstone && Inv(d, past, supply)
    requires id in before.outbox && before.outbox[id].status.Claimed? && before.outbox[id].transition in past.committed
    ensures id in d.outbox && d.outbox[id].status.InUse()
  {
    assert SameMessage(before.outbox[id], d.outbox[id]);
    CommittedIsKept(d, past, supply, id);
  }

  lemma StillUnlogged(before: Disk, d: Disk, id: MessageId)
    requires OnlyLogs(before.audit, d.audit, Waiting(before.outbox)) && id !in Waiting(before.outbox)
    requires !Logged(before.audit, QueuedKey(id))
    ensures !Logged(d.audit, QueuedKey(id))
  {
    assert Marking(0);
  }

  /** The only message in circulation is handed out, and the log is as it was. */
  method HandOut(b: CouncilBroker, id: MessageId)
    requires b.Valid() && b.Up() && b.plan.Never? && b.disk.manifest.Some? && FirstActivated(b.disk, id)
    modifies b
    ensures b.Ran() && b.Up() && b.disk == old(b.disk).(outbox := b.disk.outbox)
    ensures id in b.disk.outbox && b.disk.outbox[id].status.Claimed?
  {
    ghost var first := b.disk;
    var o, message := b.Wait(id.recipient, 0);
    assert id in ClaimableFor(Recovered(first, MessagesFor(first.outbox, id.recipient)), id.recipient, 0);
  }
}
