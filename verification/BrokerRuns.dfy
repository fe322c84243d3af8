/** Whole runs: any operations in any order, with the process stopping before any durable write and
    starting again, and what holds at all their moments. */
module BrokerRuns {
  import opened AuditLog
  import opened Bytes
  import opened CouncilTypes
  import opened ClaimLedger
  import opened PhaseMachine
  import opened PhaseInvariants
  import opened PhaseResults
  import opened BrokerDisk
  import opened BrokerFacts
  import opened BrokerDecisions
  import opened Broker

  datatype Operation =
    | StartDialogue(participants: seq<Participant>, minimum: nat, rounds: nat, maximum: nat, stop: bool, ceiling: nat)
    | SubmitResponse(p: Participant, kind: Kind, round: nat, payload: Payload, deliverable: bool)
    | ExtendDialogue(p: Participant, additional: int, id: ExtensionId)
    | CancelDialogue(p: Participant)
    | WaitForMessage(p: Participant, now: nat)
    | AckMessage(p: Participant, uuid: nat)
    | RetryDelivery(p: Participant)
    | ExpireClaim(message: MessageId, now: nat)
    | DeleteDialogue
    | RestartBroker(plan: StopPlan, tear: nat)
    | ResumeBroker(plan: StopPlan, tear: nat)

  /** The applied extensions and the authorized rounds are the same; a new dialogue has none applied. */
  ghost predicate SameExtensions(before: Option<Manifest>, after: Option<Manifest>) {
    after.Some? ==>
      if before.None? then after.value.dialogue.extensions == map[] else
        && after.value.dialogue.extensions == before.value.dialogue.extensions
        && after.value.dialogue.authorized == before.value.dialogue.authorized
  }

  lemma RespondingKeepsExtensions(
    d: Disk, past: Past, supply: nat, p: Participant, kind: Kind, round: nat, payload: Payload, deliverable: bool,
    response: (Verdict, Opening))
    requires Inv(d, past, supply) && d.manifest.Some?
    requires Responds(d.manifest.value.dialogue, d.files, p, kind, round, payload, deliverable, response)
    ensures
      var dialogue := d.manifest.value.dialogue;
      response.1.dialogue.extensions == dialogue.extensions && response.1.dialogue.authorized == dialogue.authorized
  {
    var dialogue := d.manifest.value.dialogue;
    assert Recording(0);
    DialogueFacts(d, past, supply);
    if Admit(dialogue, d.files, p, kind, round, payload, deliverable).Accepted? {
      SubmittedIsStable(dialogue, d.files, p, kind, round, payload, deliverable);
      var path := Path(kind, round, p);
      AdmittedMayRecord(dialogue, d.files, p, kind, round, payload, deliverable);
      SubmissionFinal(Recorded(dialogue, path), d.files[path := payload]);
      AdvanceKeepsResponses(Recorded(dialogue, path), d.files[path := payload]);
    }
  }

  /** An accepted submission records one response more. */
  lemma AcceptedIsRecorded(
    d: Disk, past: Past, supply: nat, p: Participant, kind: Kind, round: nat, payload: Payload, deliverable: bool,
    response: (Verdict, Opening))
    requires Inv(d, past, supply) && d.manifest.Some? && response.0.Accepted?
    requires Responds(d.manifest.value.dialogue, d.files, p, kind, round, payload, deliverable, response)
    ensures |response.1.dialogue.submissions| == |d.manifest.value.dialogue.submissions| + 1
  {
    var dialogue, path := d.manifest.value.dialogue, Path(kind, round, p);
    assert Recording(0);
    DialogueFacts(d, past, supply);
    SubmittedIsStable(dialogue, d.files, p, kind, round, payload, deliverable);
    AdmittedMayRecord(dialogue, d.files, p, kind, round, payload, deliverable);
    SubmissionFinal(Recorded(dialogue, path), d.files[path := payload]);
    AdvanceKeepsResponses(Recorded(dialogue, path), d.files[path := payload]);
  }

  lemma RunGrows(history: seq<Moment>, supply: nat, was: seq<Moment>, before: Moment)
    requires Trace(history, supply) && was <= history && was != [] && was[|was| - 1] == before
    ensures DiskGrown(before.disk, history[|history| - 1].disk)
  {
    assert Tracing(history, 0);
    assert history[|was| - 1] == before;
    assert Kept(history[|was| - 1], history[|history| - 1]);
  }

  /** A dialogue that ended does not change, whatever is left of it. */
  lemma EndedIsFinal(before: Disk, past: Past, history: seq<Moment>, supply: nat, k: nat)
    requires Trace(history, supply) && k < |history| && history[k] == Moment(before, past)
    requires if before.manifest.Some? then before.tombstone || before.manifest.value.dialogue.phase.Terminal() else before.tombstone
    ensures SameExtensions(before.manifest, history[|history| - 1].disk.manifest)
    ensures before.manifest.None? ==> history[|history| - 1].disk.manifest.None?
  {
    assert Tracing(history, 0);
    assert Kept(history[k], history[|history| - 1]);
    if before.manifest.Some? && before.tombstone {
      DialogueFacts(before, past, supply);
    }
  }

  /** The dialogue has one recorded response more. */
  ghost predicate OneMore(before: Option<Manifest>, after: Option<Manifest>) {
    before.Some? && after.Some? && |after.value.dialogue.submissions| == |before.value.dialogue.submissions| + 1
  }

  /** A restart leaves nothing halfway that was not, and ends at rest; every other operation but going on
      behind a failed write keeps what all of them keep. */
  twostate predicate Behaves(b: CouncilBroker, operation: Operation, o: Outcome)
    reads b
  {
    if operation.ResumeBroker? then true
    else if operation.RestartBroker? then
      && b.StaysHalfway() && (o.Stopped? ==> b.down || b.overlong.Some?) && (o.Done? ==> AtRest(b.disk) && !b.down)
    else b.Steps(o) && b.Marks(o)
  }

  /** What comes of an operation that ends. */
  twostate predicate Comes(b: CouncilBroker, operation: Operation)
    reads b
  {
    match operation
    case StartDialogue(participants, minimum, rounds, maximum, stop, ceiling) =>
      old(b.disk).manifest.None? && !old(b.disk).tombstone && PolicyAllowed(participants, minimum, rounds, maximum, ceiling) ==>
        b.disk.manifest.Some? && b.disk.manifest.value.dialogue == Started(participants, minimum, rounds, maximum, stop, ceiling).dialogue
    case SubmitResponse(p, kind, round, payload, deliverable) =>
      old(b.disk).manifest.Some? ==>
        && b.disk.manifest.Some?
        && b.disk.manifest.value.dialogue
             == Submitted(old(b.disk).manifest.value.dialogue, old(b.disk).files, p, kind, round, payload, deliverable).dialogue
    case RestartBroker(plan, tear) =>
      old(b.disk) == EMPTY_DISK && old(b.overlong).None? && plan.Never? ==>
        b.disk == EMPTY_DISK && b.Up() && b.plan.Never?
    case _ => true
  }

  method Perform(b: CouncilBroker, operation: Operation) returns (o: Outcome, accepted: bool)
    requires b.Valid()
    modifies b
    ensures b.Ran() && (accepted ==> OneMore(old(b.disk).manifest, b.disk.manifest))
    ensures Behaves(b, operation, o) && (o.Done? ==> Comes(b, operation))
    ensures operation.RestartBroker? && operation.plan.Never? && old(b.overlong).None? ==> o.Done?
    ensures !operation.ExtendDialogue? ==> SameExtensions(old(b.disk).manifest, b.disk.manifest)
    ensures old(b.disk).manifest.None? && b.disk.manifest.Some? ==>
      operation.StartDialogue? && b.disk.manifest.value.dialogue.authorized == operation.rounds
  {
    o, accepted := Done, false;
    match operation {
      case StartDialogue(participants, minimum, rounds, maximum, stop, ceiling) =>
        var started;
        o, started := b.Start(participants, minimum, rounds, maximum, stop, ceiling);
      case SubmitResponse(p, kind, round, payload, deliverable) =>
        o, accepted := PerformSubmit(b, p, kind, round, payload, deliverable);
      case ExtendDialogue(p, additional, id) =>
        var verdict;
        ghost var transition;
        o, verdict, transition := b.ExtendRounds(p, additional, id);
      case CancelDialogue(p) =>
        var changed;
        o, changed := b.Cancel(p);
      case DeleteDialogue => o := PerformDelete(b);
      case RestartBroker(plan, tear) => o := PerformRestart(b, plan, tear);
      case ResumeBroker(plan, tear) => b.Resume(plan, tear);
      case _ => o := PerformOnMessages(b, operation);
    }
  }

  /** The operations on messages leave the dialogue as it is. */
  method PerformOnMessages(b: CouncilBroker, operation: Operation) returns (o: Outcome)
    requires b.Valid()
    requires operation.WaitForMessage? || operation.AckMessage? || operation.RetryDelivery? || operation.ExpireClaim?
    modifies b
    ensures b.Ran() && b.Steps(o) && b.Marks(o)
    ensures SameExtensions(old(b.disk).manifest, b.disk.manifest) && (old(b.disk).manifest.None? ==> b.disk.manifest.None?)
  {
    match operation
    case WaitForMessage(p, now) =>
      var message;
      o, message := b.Wait(p, now);
    case AckMessage(p, uuid) =>
      var verdict;
      o, verdict := b.Ack(p, uuid);
    case RetryDelivery(p) => o := b.Retry(p);
    case ExpireClaim(message, now) => o := b.RecoverExpired(message, now);
  }

  method PerformSubmit(b: CouncilBroker, p: Participant, kind: Kind, round: nat, payload: Payload, deliverable: bool)
    returns (o: Outcome, accepted: bool)
    requires b.Valid()
    modifies b
    ensures b.Ran() && SameExtensions(old(b.disk).manifest, b.disk.manifest)
    ensures accepted ==> OneMore(old(b.disk).manifest, b.disk.manifest)
    ensures old(b.disk).manifest.None? ==> b.disk.manifest.None?
    ensures b.Steps(o) && b.Marks(o)
    ensures o.Done? && old(b.disk).manifest.Some? ==>
      && b.disk.manifest.Some?
      && b.disk.manifest.value.dialogue
           == Submitted(old(b.disk).manifest.value.dialogue, old(b.disk).files, p, kind, round, payload, deliverable).dialogue
  {
    assert Recording(0);
    ghost var before, past, supply := b.disk, b.past, b.supply;
    var verdict;
    ghost var opening;
    o, verdict, opening := b.Submit(p, kind, round, payload, deliverable);
    if before.manifest.Some? && b.disk.manifest.value.dialogue != before.manifest.value.dialogue {
      RespondingKeepsExtensions(before, past, supply, p, kind, round, payload, deliverable, (verdict.value, opening.value));
    }
    accepted := o.Done? && verdict.Some? && verdict.value.Accepted?;
    if accepted {
      AcceptedIsRecorded(before, past, supply, p, kind, round, payload, deliverable, (verdict.value, opening.value));
    }
  }

  method PerformDelete(b: CouncilBroker) returns (o: Outcome)
    requires b.Valid()
    modifies b
    ensures b.Ran() && SameExtensions(old(b.disk).manifest, b.disk.manifest)
    ensures old(b.disk).manifest.None? ==> b.disk.manifest.None?
    ensures b.Steps(o) && b.Marks(o)
  {
    ghost var before, past, k := b.disk, b.past, |b.history| - 1;
    var verdict;
    o, verdict := b.Delete();
    if verdict.DeletedNow? || verdict.DeletedBefore? {
      EndedIsFinal(before, past, b.history, b.supply, k);
    }
  }

  method PerformRestart(b: CouncilBroker, plan: StopPlan, tear: nat) returns (o: Outcome)
    requires b.Valid()
    modifies b
    ensures b.Ran() && SameExtensions(old(b.disk).manifest, b.disk.manifest)
    ensures old(b.disk).manifest.None? ==> b.disk.manifest.None?
    ensures b.StaysHalfway() && (o.Stopped? ==> b.down || b.overlong.Some?) && (o.Done? ==> AtRest(b.disk) && !b.down)
    ensures plan.Never? && old(b.overlong).None? ==> o.Done? && b.Up() && b.plan == plan
    ensures old(b.disk) == EMPTY_DISK && o.Done? ==> b.disk == EMPTY_DISK
  {
    ghost var before, past, k := b.disk, b.past, |b.history| - 1;
    o := b.Restart(plan, tear);
    assert before == EMPTY_DISK && o.Done? ==> b.disk.outbox.Keys == {};
    if before.tombstone {
      EndedIsFinal(before, past, b.history, b.supply, k);
    }
  }

  /** No more submissions were accepted than some manifest of the run has responses. */
  ghost predicate AllRecorded(history: seq<Moment>, accepted: nat) {
    accepted == 0 || exists j :: 0 <= j < |history| && Holds(history[j].disk.manifest, accepted)
  }

  ghost predicate Holds(m: Option<Manifest>, responses: nat) {
    m.Some? && responses <= |m.value.dialogue.submissions|
  }

  /** The accepted submissions so far, seen from the disk. */
  ghost predicate Tallied(d: Disk, accepted: nat) {
    if d.manifest.Some? then Holds(d.manifest, accepted) else d.tombstone || accepted == 0
  }

  lemma TallyGoesOn(before: Disk, after: Disk, accepted: nat, more: bool, accepted': nat)
    requires Tallied(before, accepted) && DiskGrown(before, after)
    requires more ==> OneMore(before.manifest, after.manifest)
    requires accepted' == accepted + if more then 1 else 0
    ensures Tallied(after, accepted')
  {
    if before.manifest.Some? && after.manifest.Some? && !more {
      MoreSubmissions(before.manifest.value.dialogue.submissions, after.manifest.value.dialogue.submissions);
    }
  }

  lemma MoreSubmissions(a: map<Slot, Path>, b: map<Slot, Path>)
    requires a.Keys <= b.Keys
    ensures |a| <= |b|
  {
    Subset(a.Keys, b.Keys);
  }

  lemma Subset<T>(a: set<T>, b: set<T>)
    requires a <= b
    ensures |a| <= |b|
  {
    assert b == a + (b - a);
  }

  // ----- Marks of activation

  /** No process goes on behind a write that failed: whoever stops is followed by another one. */
  predicate NeverResumed(operations: seq<Operation>) {
    forall k :: 0 <= k < |operations| ==> !operations[k].ResumeBroker?
  }

  /** Everyone in circulation is marked as logged, but for some while the process is down. */
  ghost predicate WellMarked(b: CouncilBroker)
    reads b
  {
    if b.down then Halfway(b.disk.outbox, CommittedOf(b.disk.manifest)) else Marked(b.disk.outbox)
  }

  lemma FittedBefore(c: Codec<Entry>, was: seq<Moment>, history: seq<Moment>)
    requires was <= history && Fitting(c, history)
    ensures Fitting(c, was)
  {
    forall entry | Attempted(was, entry) ensures |c.render(entry)| <= MAX_LINE_BYTES {
      var i :| 0 <= i < |was| && was[i].disk.manifest.Some? && Loggable(was[i].disk, entry);
      assert history[i] == was[i];
      assert Attempted(history, entry);
    }
  }

  lemma FittedIsReadable(b: CouncilBroker)
    requires b.Valid() && Fitting(b.codec, b.history)
    ensures b.overlong.None?
  {
    FittingIsWhole(b.codec, b.log, b.disk.audit, b.overlong, b.history);
  }

  lemma FittedSoFar(b: CouncilBroker, was: seq<Moment>)
    requires b.Valid() && was <= b.history && Fitting(b.codec, b.history)
    ensures Fitting(b.codec, was) && b.overlong.None?
  {
    FittedBefore(b.codec, was, b.history);
    LogIsOpen(b.codec, b.log, b.disk.audit, b.overlong);
    assert Reading(0);
  }

  ghost predicate Tended(b: CouncilBroker)
    reads b
  {
    Fitting(b.codec, b.history) ==> WellMarked(b)
  }

  /** The log has the activation of each message that is or was in circulation, once, and no other. */
  ghost predicate LogsActivations(d: Disk) {
    forall id :: if id in d.outbox && d.outbox[id].status.InUse() then LoggedOnce(d.audit, MessageQueued(id)) else !Logged(d.audit, QueuedKey(id))
  }

  lemma RestLogsActivations(d: Disk, past: Past, supply: nat)
    requires Inv(d, past, supply) && AtRest(d) && d.manifest.Some? && Halfway(d.outbox, CommittedOf(d.manifest))
    ensures LogsActivations(d)
  {
    RestIsMarked(d);
    forall id ensures if id in d.outbox && d.outbox[id].status.InUse() then LoggedOnce(d.audit, MessageQueued(id)) else !Logged(d.audit, QueuedKey(id)) {
      MarkedLogsExactly(d, past, supply, id);
    }
  }

  /** Whatever is done, and wherever it stops, every moment keeps the invariant, and every accepted
      submission is a recorded response of its own. At rest, if no process went on behind a failed write
      and no entry is longer than the log takes, the log has exactly the activations of the messages that
      are or were in circulation. */
  method Run(codec: Codec<Entry>, operations: seq<Operation>) returns (b: CouncilBroker, ghost accepted: nat)
    requires Faithful(codec)
    ensures fresh(b) && b.Valid()
    ensures b.history[0] == Moment(EMPTY_DISK, NO_PAST) && Trace(b.history, b.supply)
    ensures AllRecorded(b.history, accepted)
    ensures b.codec == codec
    ensures NeverResumed(operations) && Fitting(codec, b.history) && AtRest(b.disk) && b.disk.manifest.Some? ==> LogsActivations(b.disk)
  {
    b := new CouncilBroker(codec);
    accepted := 0;
    NoRecordsAreMarked();
    for i := 0 to |operations|
      invariant fresh(b) && b.Valid() && b.history[0] == Moment(EMPTY_DISK, NO_PAST) && b.codec == codec
      invariant Tallied(b.disk, accepted) && AllRecorded(b.history, accepted)
      invariant NeverResumed(operations) ==> Tended(b)
    {
      accepted := PerformCounted(b, operations[i], accepted);
    }
    MarkedOrNot(b.disk.outbox, CommittedOf(b.disk.manifest));
    if NeverResumed(operations) && Fitting(codec, b.history) && AtRest(b.disk) && b.disk.manifest.Some? {
      RestLogsActivations(b.disk, b.past, b.supply);
    }
  }

  /** Every operation but going on behind a failed write keeps the marks. */
  method PerformTended(b: CouncilBroker, operation: Operation) returns (o: Outcome, accepted: bool)
    requires b.Valid()
    modifies b
    ensures b.Ran() && (accepted ==> OneMore(old(b.disk).manifest, b.disk.manifest))
    ensures !operation.ResumeBroker? && old(Tended(b)) ==> Tended(b)
  {
    ghost var before, was := b.disk, b.history;
    o, accepted := Perform(b, operation);
    if !operation.ResumeBroker? && old(Tended(b)) && Fitting(b.codec, b.history) {
      FittedSoFar(b, was);
      MarkedOrNot(before.outbox, CommittedOf(before.manifest));
      MarkedOrNot(b.disk.outbox, CommittedOf(b.disk.manifest));
      if operation.RestartBroker? && o.Done? {
        RestIsMarked(b.disk);
      }
    }
  }

  method PerformCounted(b: CouncilBroker, operation: Operation, ghost accepted: nat) returns (ghost counted: nat)
    requires b.Valid() && Tallied(b.disk, accepted) && AllRecorded(b.history, accepted)
    modifies b
    ensures b.Ran() && Tallied(b.disk, counted) && AllRecorded(b.history, counted)
    ensures !operation.ResumeBroker? && old(Tended(b)) ==> Tended(b)
  {
    ghost var before, was, moment := b.disk, b.history, Moment(b.disk, b.past);
    var o, more := PerformTended(b, operation);
    RunGrows(b.history, b.supply, was, moment);
    counted := accepted + if more then 1 else 0;
    TallyGoesOn(before, b.disk, accepted, more, counted);
    StillRecorded(was, b.history, accepted);
    if more {
      assert Holds(b.history[|b.history| - 1].disk.manifest, counted);
    }
  }

  lemma StillRecorded(was: seq<Moment>, history: seq<Moment>, accepted: nat)
    requires was <= history && AllRecorded(was, accepted)
    ensures AllRecorded(history, accepted)
  {
    if accepted != 0 {
      var j :| 0 <= j < |was| && Holds(was[j].disk.manifest, accepted);
      assert history[j] == was[j];
    }
  }

  // ----- The manifests of a run

  /** Some manifest saved up to this moment had committed the transition. */
  ghost predicate CommittedBy(history: seq<Moment>, j: nat, t: TransitionId)
    requires j < |history|
  {
    exists i :: 0 <= i <= j && history[i].disk.manifest.Some? && history[i].disk.manifest.value.committed == t
  }

  /** Some manifest saved up to this moment held the event as an intent. */
  ghost predicate IntendedBy(history: seq<Moment>, j: nat, id: AuditId, event: Event)
    requires j < |history|
  {
    exists i :: 0 <= i <= j && history[i].disk.manifest.Some? && Intends(history[i].disk.manifest.value, id, event)
  }

  predicate Intends(m: Manifest, id: AuditId, event: Event) {
    id in m.pending && event in m.pending[id]
  }

  /** A transition is in the past exactly when a saved manifest committed it. */
  lemma {:induction false} CommitsAreManifests(history: seq<Moment>, supply: nat, j: nat, t: TransitionId)
    requires Trace(history, supply) && j < |history|
    ensures t in history[j].past.committed <==> CommittedBy(history, j, t)
    decreases j
  {
    assert Tracing(history, 0);
    if t in history[j].past.committed {
      if j > 0 {
        assert Written(history[j - 1], history[j]);
        CommitsAreManifests(history, supply, j - 1, t);
      }
    }
    if CommittedBy(history, j, t) {
      ManifestIsCommitted(history, supply, j, t);
    }
  }

  lemma ManifestIsCommitted(history: seq<Moment>, supply: nat, j: nat, t: TransitionId)
    requires Trace(history, supply) && j < |history| && CommittedBy(history, j, t)
    ensures t in history[j].past.committed
  {
    assert Tracing(history, 0);
    var i :| 0 <= i <= j && history[i].disk.manifest.Some? && history[i].disk.manifest.value.committed == t;
    PendingSaved(history[i].disk, history[i].past, supply);
    assert Kept(history[i], history[j]);
  }

  /** An event is in the past exactly when a saved manifest intended it. */
  lemma {:induction false} IntentsAreManifests(history: seq<Moment>, supply: nat, j: nat, id: AuditId, event: Event)
    requires Trace(history, supply) && j < |history|
    ensures
      var key, saved := DurableKey(id, NameOf(event)), history[j].past.saved;
      key in saved && saved[key] == event <==> IntendedBy(history, j, id, event)
    decreases j
  {
    assert Tracing(history, 0);
    var key, saved := DurableKey(id, NameOf(event)), history[j].past.saved;
    if key in saved && saved[key] == event {
      if j > 0 {
        assert Written(history[j - 1], history[j]);
        IntentsAreManifests(history, supply, j - 1, id, event);
        IntentIsNew(history[j - 1], history[j], id, event);
      }
    }
    if IntendedBy(history, j, id, event) {
      IntentIsSaved(history, supply, j, id, event);
    }
  }

  lemma IntentIsSaved(history: seq<Moment>, supply: nat, j: nat, id: AuditId, event: Event)
    requires Trace(history, supply) && j < |history| && IntendedBy(history, j, id, event)
    ensures
      var key, saved := DurableKey(id, NameOf(event)), history[j].past.saved;
      key in saved && saved[key] == event
  {
    assert Tracing(history, 0);
    var i :| 0 <= i <= j && history[i].disk.manifest.Some? && Intends(history[i].disk.manifest.value, id, event);
    PendingSaved(history[i].disk, history[i].past, supply);
    assert Kept(history[i], history[j]);
  }

  /** What one write adds to the saved events, the manifest it saves intends. */
  lemma IntentIsNew(a: Moment, b: Moment, id: AuditId, event: Event)
    requires Written(a, b)
    requires var key := DurableKey(id, NameOf(event)); key in b.past.saved && b.past.saved[key] == event
    ensures
      var key := DurableKey(id, NameOf(event));
      || (key in a.past.saved && a.past.saved[key] == event)
      || (b.disk.manifest.Some? && Intends(b.disk.manifest.value, id, event))
  {
    var w :| b == Moment(Apply(a.disk, w), NextPast(a.past, w));
    var key := DurableKey(id, NameOf(event));
    if w.PutManifest? && key in IntentKeys(w.manifest.pending) {
      assert IntentAt(w.manifest.pending, key) == event;
    }
  }

  // ----- What holds along every run

  /** A message that is or was in circulation belongs to a transition that a saved manifest committed
      before; and it stays so for the rest of the run, short of deletion. */
  lemma OnlyCommittedMessagesCirculate(history: seq<Moment>, supply: nat, i: nat, j: nat, id: MessageId)
    requires Trace(history, supply) && i <= j < |history| && id in history[i].disk.outbox
    requires var status := history[i].disk.outbox[id].status; !status.Staged? && !status.Dropped()
    ensures CommittedBy(history, i, history[i].disk.outbox[id].transition)
    ensures !history[j].disk.tombstone && history[i].disk.manifest.Some? ==>
      id in history[j].disk.outbox && !history[j].disk.outbox[id].status.Staged? && !history[j].disk.outbox[id].status.Dropped()
  {
    assert Tracing(history, 0);
    assert Kept(history[i], history[j]);
    InUseIsCommitted(history[i].disk, history[i].past, supply, id);
    CommitsAreManifests(history, supply, i, history[i].disk.outbox[id].transition);
    if !history[j].disk.tombstone && history[i].disk.manifest.Some? {
      assert SameMessage(history[i].disk.outbox[id], history[j].disk.outbox[id]);
      CommittedIsKept(history[j].disk, history[j].past, supply, id);
    }
  }

  /** At rest, a message was activated or superseded if a saved manifest committed its transition, and
      dropped otherwise; none is staged. */
  lemma RestSettles(history: seq<Moment>, supply: nat, j: nat, id: MessageId)
    requires Trace(history, supply) && j < |history| && AtRest(history[j].disk) && id in history[j].disk.outbox
    ensures
      var status := history[j].disk.outbox[id].status;
      if CommittedBy(history, j, history[j].disk.outbox[id].transition)
      then status.Live() || status.Acknowledged? || status.Superseded?
      else status.Dropped()
  {
    assert Tracing(history, 0);
    RestSettlesMessages(history[j].disk, history[j].past, supply, id);
    CommitsAreManifests(history, supply, j, history[j].disk.outbox[id].transition);
  }

  /** At rest, everyone who owes an answer has exactly one live request for it. */
  lemma RestAsksEveryone(history: seq<Moment>, supply: nat, j: nat, p: Participant) returns (id: MessageId)
    requires Trace(history, supply) && j < |history| && AtRest(history[j].disk) && history[j].disk.manifest.Some?
    requires
      var d := history[j].disk.manifest.value.dialogue;
      d.phase.Collecting? && d.participants != [] && Owes(d, p)
    ensures AsksFor(history[j].disk, id, p)
    ensures forall x :: AsksFor(history[j].disk, x, p) ==> x == id
  {
    assert Tracing(history, 0);
    id := ExactlyOneRequest(history[j].disk, history[j].past, supply, p);
  }

  /** At every moment, an event of the log was intended by a manifest saved before, and is there once. */
  lemma LogHoldsOnlyIntents(history: seq<Moment>, supply: nat, j: nat, i: nat)
    requires Trace(history, supply) && j < |history| && history[j].disk.manifest.Some? && i < |history[j].disk.audit|
    ensures
      var audit := history[j].disk.audit;
      && (audit[i].Durable? ==> IntendedBy(history, j, audit[i].id, audit[i].event))
      && forall k :: 0 <= k < |audit| && KeyOf(audit[k]) == KeyOf(audit[i]) ==> k == i
  {
    assert Tracing(history, 0);
    LoggedWasSaved(history[j].disk, history[j].past, supply, i);
    var entry := history[j].disk.audit[i];
    if entry.Durable? {
      IntentsAreManifests(history, supply, j, entry.id, entry.event);
    }
  }

  /** At rest, the events in the log are exactly those that some saved manifest intended. */
  lemma RestLogsIntents(history: seq<Moment>, supply: nat, j: nat, id: AuditId, event: Event)
    requires Trace(history, supply) && j < |history| && AtRest(history[j].disk) && history[j].disk.manifest.Some?
    ensures Durable(id, event) in history[j].disk.audit <==> IntendedBy(history, j, id, event)
  {
    assert Tracing(history, 0);
    var d, past := history[j].disk, history[j].past;
    IntentsAreManifests(history, supply, j, id, event);
    if IntendedBy(history, j, id, event) {
      RestLogsExactly(d, past, supply);
      var key := DurableKey(id, NameOf(event));
      var i :| 0 <= i < |d.audit| && d.audit[i] == Durable(key.id, past.saved[key]);
    }
    if Durable(id, event) in d.audit {
      var i :| 0 <= i < |d.audit| && d.audit[i] == Durable(id, event);
      LoggedWasSaved(d, past, supply, i);
    }
  }

  lemma LogShowsIntents(c: Codec<Entry>, log: seq<byte>, history: seq<Moment>, supply: nat, j: nat)
    requires Trace(history, supply) && j < |history| && AtRest(history[j].disk) && history[j].disk.manifest.Some?
    requires LogStands(c, log, history[j].disk.audit, None)
    ensures Repaired(c, log).Some? && ReadLines(c, Repaired(c, log).value).Some?
    ensures
      var read := ReadLines(c, Repaired(c, log).value).value;
      && (forall id, event :: Durable(id, event) in read <==> IntendedBy(history, j, id, event))
      && (forall i, k :: 0 <= i < k < |read| ==> KeyOf(read[i]) != KeyOf(read[k]))
  {
    assert Tracing(history, 0);
    LogIsRead(c, log, history[j].disk.audit);
    RestLogsExactly(history[j].disk, history[j].past, supply);
    forall id, event ensures Durable(id, event) in history[j].disk.audit <==> IntendedBy(history, j, id, event) {
      RestLogsIntents(history, supply, j, id, event);
    }
  }

  /** So whoever reads the log file then, torn as it may be, finds each event that a saved manifest
      intended, once, and no other; provided that no entry is longer than the log takes. */
  lemma LogFileIsExact(b: CouncilBroker)
    requires b.Valid() && Fitting(b.codec, b.history) && AtRest(b.disk) && b.disk.manifest.Some?
    ensures Repaired(b.codec, b.log).Some? && ReadLines(b.codec, Repaired(b.codec, b.log).value).Some?
    ensures
      var read := ReadLines(b.codec, Repaired(b.codec, b.log).value).value;
      && (forall id, event :: Durable(id, event) in read <==> IntendedBy(b.history, |b.history| - 1, id, event))
      && (forall i, k :: 0 <= i < k < |read| ==> KeyOf(read[i]) != KeyOf(read[k]))
  {
    FittedIsReadable(b);
    LogShowsIntents(b.codec, b.log, b.history, b.supply, |b.history| - 1);
  }

  /** The save of a manifest that was not cancelled before. */
  ghost predicate CancelledAt(history: seq<Moment>, i: nat)
    requires 0 < i < |history|
  {
    IsCancelled(history[i].disk) && !IsCancelled(history[i - 1].disk)
  }

  predicate IsCancelled(d: Disk) {
    d.manifest.Some? && d.manifest.value.dialogue.phase.Cancelled?
  }

  /** A cancelled dialogue was cancelled at one moment, and has had since what it had as a final record
      before. */
  lemma {:induction false} CancellationMoment(history: seq<Moment>, supply: nat, j: nat) returns (i: nat)
    requires Trace(history, supply) && j < |history| && IsCancelled(history[j].disk)
    requires history[0] == Moment(EMPTY_DISK, NO_PAST)
    ensures 0 < i <= j && CancelledAt(history, i)
    decreases j
  {
    if IsCancelled(history[j - 1].disk) {
      i := CancellationMoment(history, supply, j - 1);
    } else {
      i := j;
    }
  }

  lemma CancelledKeepsFinal(history: seq<Moment>, supply: nat, i: nat, j: nat)
    requires Trace(history, supply) && 0 < i <= j < |history| && CancelledAt(history, i) && history[j].disk.manifest.Some?
    ensures history[j].disk.final == history[i - 1].disk.final && IsCancelled(history[j].disk)
  {
    assert Tracing(history, 0);
    assert Written(history[i - 1], history[i]) && Kept(history[i], history[j]);
  }

  /** At rest there is a final record exactly if the dialogue is complete, or was cancelled while a final
      record was there, which it still is. */
  lemma RestFinalExactly(history: seq<Moment>, supply: nat, j: nat)
    requires Trace(history, supply) && j < |history| && AtRest(history[j].disk) && history[j].disk.manifest.Some?
    ensures
      history[j].disk.final.Some? <==>
        || history[j].disk.manifest.value.dialogue.phase.Complete?
        || exists i :: 0 < i <= j && CancelledAt(history, i) && history[i - 1].disk.final.Some? && history[i - 1].disk.final == history[j].disk.final
  {
    assert Tracing(history, 0);
    var d := history[j].disk;
    RestHasFinal(d, history[j].past, supply);
    forall i | 0 < i <= j && CancelledAt(history, i) ensures history[i - 1].disk.final == d.final {
      CancelledKeepsFinal(history, supply, i, j);
    }
    if d.manifest.value.dialogue.phase.Cancelled? {
      var i := CancellationMoment(history, supply, j);
    }
  }

  /** At rest, a message that waits to be received has its activation in the log, once. */
  lemma RestLogsWaiting(history: seq<Moment>, supply: nat, j: nat, id: MessageId)
    requires Trace(history, supply) && j < |history| && AtRest(history[j].disk) && history[j].disk.manifest.Some?
    requires id in history[j].disk.outbox && history[j].disk.outbox[id].status.Pending?
    ensures LoggedOnce(history[j].disk.audit, MessageQueued(id))
  {
    assert Tracing(history, 0);
    RestLogsPending(history[j].disk, history[j].past, supply, id);
  }

  /** A dropped message is never handed out. */
  lemma DroppedMessagesStayDropped(history: seq<Moment>, supply: nat, i: nat, j: nat, id: MessageId)
    requires Trace(history, supply) && i <= j < |history| && id in history[i].disk.outbox
    requires history[i].disk.outbox[id].status.Dropped() && history[i].disk.manifest.Some?
    ensures !history[j].disk.tombstone ==>
      id in history[j].disk.outbox && history[j].disk.outbox[id].status == history[i].disk.outbox[id].status
  {
    assert Tracing(history, 0);
    assert Kept(history[i], history[j]);
  }

  /** An acknowledged message's response stays recorded, its round passed or its dialogue ended. */
  lemma AcknowledgementIsForGood(history: seq<Moment>, supply: nat, i: nat, j: nat, id: MessageId)
    requires Trace(history, supply) && i <= j < |history|
    requires history[i].disk.manifest.Some? && !history[j].disk.tombstone
    requires id in history[i].disk.outbox && history[i].disk.outbox[id].status.Acknowledged?
    ensures history[j].disk.manifest.Some? && id in history[j].disk.outbox
    ensures history[j].disk.outbox[id].status.Acknowledged?
    ensures ResponseIsSafe(history[j].disk.manifest.value.dialogue, history[j].disk.final, id, history[j].disk.outbox[id])
  {
    assert Tracing(history, 0);
    assert Kept(history[i], history[j]);
    AcknowledgedIsSafe(history[i].disk, history[i].past, supply, id);
    SafetyIsStable(history[i].disk, history[j].disk, id);
  }

  lemma AcknowledgedIsSafe(d: Disk, past: Past, supply: nat, id: MessageId)
    requires Inv(d, past, supply) && d.manifest.Some? && id in d.outbox && d.outbox[id].status.Acknowledged?
    ensures ResponseIsSafe(d.manifest.value.dialogue, d.final, id, d.outbox[id])
  {
    assert Inside(d, supply, 0) && Within(0);
  }

  /** The rounds stay within their limits, and so do the active claims and the number of recorded responses. */
  lemma RunsAreBounded(history: seq<Moment>, supply: nat, i: nat)
    requires Trace(history, supply) && i < |history| && history[i].disk.manifest.Some?
    ensures
      var d := history[i].disk.manifest.value.dialogue;
      var n := |d.participants|;
      && d.round <= d.authorized <= d.maximum <= MAX_COUNCIL_ROUNDS && 2 <= n <= MAX_COUNCIL_PARTICIPANTS
      && |d.ledger.active| <= d.ceiling <= MAX_ACTIVE_CLAIM_CEILING
      && |d.submissions| <= n + 2 * n * d.maximum + 1 + (n - 1) + 1 + (n - 1)
  {
    assert Tracing(history, 0);
    DialogueFacts(history[i].disk, history[i].past, supply);
    SubmissionsAreBounded(history[i].disk.manifest.value.dialogue, history[i].disk.files);
  }

  /** So is the number of submissions that a run accepts. */
  lemma AcceptedAreBounded(history: seq<Moment>, supply: nat, accepted: nat)
    requires Trace(history, supply) && AllRecorded(history, accepted) && accepted > 0
    ensures
      exists j :: 0 <= j < |history| && history[j].disk.manifest.Some? &&
        var d := history[j].disk.manifest.value.dialogue;
        var n := |d.participants|;
        accepted <= n + 2 * n * d.maximum + 1 + (n - 1) + 1 + (n - 1)
  {
    var j :| 0 <= j < |history| && Holds(history[j].disk.manifest, accepted);
    RunsAreBounded(history, supply, j);
  }

  /** At every moment, a claim that retired as nonmaterial was called so by every participant, in the
      round it retired in, and with evidence or in the round before. */
  lemma RetirementsAreEveryones(history: seq<Moment>, supply: nat, i: nat, r: Retired, p: Participant)
    requires Trace(history, supply) && i < |history| && history[i].disk.manifest.Some?
    requires
      var d := history[i].disk.manifest.value.dialogue;
      r in d.ledger.retired && r.duplicateOf.None? && p in d.participants
    ensures
      var d, files := history[i].disk.manifest.value.dialogue, history[i].disk.files;
      && d.participants != [] && FilesPresent(d, files)
      && CalledNonmaterial(d, files, r.round, p, r.claim.id)
      && (|| (r.round > 0 && CalledNonmaterial(d, files, r.round - 1, p, r.claim.id))
          || (r.round in ReviewHistory(d, files)
              && HasEvidence(AssessmentsOf(ReviewHistory(d, files)[r.round], r.claim.id))))
  {
    assert Tracing(history, 0);
    DialogueFacts(history[i].disk, history[i].past, supply);
    RetiredByEveryone(history[i].disk.manifest.value.dialogue, history[i].disk.files, r, p);
  }

  /** Responses, rounds, authorizations and extensions are never taken back; an end is final; the
      log only grows. */
  lemma RunsOnlyGrow(history: seq<Moment>, supply: nat, i: nat, j: nat)
    requires Trace(history, supply) && i <= j < |history|
    requires history[i].disk.manifest.Some? && history[j].disk.manifest.Some?
    ensures
      var a, b := history[i].disk, history[j].disk;
      && Grown(a.manifest.value.dialogue, b.manifest.value.dialogue)
      && SameBodies(a.manifest.value.dialogue, a.files, b.files)
      && a.audit <= b.audit
  {
    assert Tracing(history, 0);
    assert Kept(history[i], history[j]);
  }

  /** Deletion is atomic: a dialogue that was started is there with all its content, or a tombstone
      is; as long as its manifest is there its submissions, its final record and its log are too. */
  lemma DeletionIsAtomic(history: seq<Moment>, supply: nat, i: nat, j: nat)
    requires Trace(history, supply) && i <= j < |history| && history[i].disk.manifest.Some?
    ensures
      var a, b := history[i].disk, history[j].disk;
      && (b.manifest.Some? || b.tombstone)
      && (!b.tombstone ==> b.manifest.Some? && a.outbox.Keys <= b.outbox.Keys)
      && (b.manifest.Some? ==>
            && SameBodies(a.manifest.value.dialogue, a.files, b.files)
            && FilesPresent(b.manifest.value.dialogue, b.files)
            && a.audit <= b.audit
            && (a.manifest.value.dialogue.phase.Complete? ==> b.final == a.final))
      && (b.manifest.None? ==> b.outbox == map[])
      && (b.tombstone && b.manifest.Some? ==> b.manifest.value.dialogue.phase.Terminal())
  {
    assert Tracing(history, 0);
    assert Kept(history[i], history[j]);
    if history[j].disk.manifest.Some? {
      DialogueFacts(history[j].disk, history[j].past, supply);
    } else {
      TombstoneFacts(history[j].disk, history[j].past, supply);
    }
  }

  /** A tombstoned dialogue never comes back. */
  lemma DeletionIsForGood(history: seq<Moment>, supply: nat, i: nat, j: nat)
    requires Trace(history, supply) && i <= j < |history| && history[i].disk.tombstone
    ensures history[j].disk.tombstone
    ensures history[i].disk.manifest.None? ==> history[j].disk.manifest.None? && history[j].disk.outbox == map[]
  {
    assert Tracing(history, 0);
    assert Kept(history[i], history[j]);
    if history[i].disk.manifest.None? {
      TombstoneFacts(history[j].disk, history[j].past, supply);
    }
  }
}
