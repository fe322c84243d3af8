/** The broker's operations on the durable files of one dialogue. Every durable write passes the
    failpoint, which may stop the process before it; every operation keeps the invariant at each
    such point. */
module Broker {
  import opened AuditLog
  import opened Bytes
  import opened CouncilTypes
  import opened PhaseMachine
  import opened BrokerDisk
  import opened BrokerSteps
  import opened BrokerCommit
  import opened BrokerFacts
  import opened BrokerDecisions
  import opened BrokerAnswers
  import opened PhaseDecisions
  import opened PhaseOutcomes

  /** Whether an operation ran to its end or the process stopped in it. */
  datatype Outcome = Done | Stopped {
    predicate IsFailure() { Stopped? }

    function PropagateFailure(): Outcome
      requires Stopped?
    {
      this
    }
  }

  /** Where a process stops: nowhere, behind so many durable writes, or before one of a kind. */
  datatype StopPlan = Never | After(writes: nat) | At(where: Write -> bool) {
    /** Whether it stops before a write, behind so many others. */
    predicate Stops(w: Write, written: nat) {
      match this
      case Never => false
      case After(writes) => written >= writes
      case At(where) => where(w)
    }
  }

  predicate IsActivationEvent(w: Write) {
    w.AppendAudit? && w.entry.MessageQueued?
  }

  /** The process stops nowhere, or only before the log entry of an activation. */
  ghost predicate Lenient(plan: StopPlan) {
    plan.Never? || (plan.At? && forall w :: plan.where(w) ==> IsActivationEvent(w))
  }

  ghost predicate StopsActivations(plan: StopPlan) {
    plan.At? && forall w :: plan.where(w) <==> IsActivationEvent(w)
  }

  /** What became of an attempt to post a message to its recipient's relay. */
  datatype Relay = NotTried | Failed | Posted

  datatype DeleteVerdict = NoSuchDialogue | StillRunning | DeletedBefore | DeletedNow

  /** What the disk held at one moment, and what had been committed by then. */
  datatype Moment = Moment(disk: Disk, past: Past)

  ghost predicate Kept(a: Moment, b: Moment) {
    DiskGrown(a.disk, b.disk) && PastGrown(a.past, b.past)
  }

  /** One moment follows another by one durable write. */
  ghost predicate Written(a: Moment, b: Moment) {
    exists w :: b == Moment(Apply(a.disk, w), NextPast(a.past, w))
  }

  ghost predicate Tracing(history: seq<Moment>, n: nat) { true }

  /** A run begins with nothing and goes on by single durable writes; every moment of it satisfied the
      invariant, and no later one took anything back. */
  ghost predicate Trace(history: seq<Moment>, supply: nat) {
    forall n: nat {:trigger Tracing(history, n)} :: Tracing(history, n) ==>
      && (history != [] ==> history[0] == Moment(EMPTY_DISK, NO_PAST))
      && (forall i :: 0 < i < |history| ==> Written(history[i - 1], history[i]))
      && (forall i :: 0 <= i < |history| ==> Inv(history[i].disk, history[i].past, supply))
      && (forall i, j :: 0 <= i <= j < |history| ==> Kept(history[i], history[j]))
  }

  lemma KeptGoesOn(a: Moment, b: Moment, c: Moment)
    requires Kept(a, b) && Kept(b, c)
    ensures Kept(a, c)
  {
    DiskGrownIsTransitive(a.disk, b.disk, c.disk);
  }

  lemma InvGoesOn(history: seq<Moment>, supply: nat, next: Moment, more: seq<Moment>)
    requires forall i :: 0 <= i < |history| ==> Inv(history[i].disk, history[i].past, supply)
    requires Inv(next.disk, next.past, supply) && more == history + [next]
    ensures forall i :: 0 <= i < |more| ==> Inv(more[i].disk, more[i].past, supply)
  {
  }

  lemma AllKeptGoesOn(history: seq<Moment>, next: Moment, more: seq<Moment>)
    requires history != [] && more == history + [next] && Kept(history[|history| - 1], next) && Kept(next, next)
    requires forall i, j :: 0 <= i <= j < |history| ==> Kept(history[i], history[j])
    ensures forall i, j :: 0 <= i <= j < |more| ==> Kept(more[i], more[j])
  {
    forall i | 0 <= i < |history|
      ensures Kept(history[i], next)
    {
      KeptGoesOn(history[i], history[|history| - 1], next);
    }
  }

  lemma NothingTaken(m: Moment)
    ensures Kept(m, m)
  {
  }

  lemma AllWrittenGoesOn(history: seq<Moment>, next: Moment, more: seq<Moment>)
    requires history != [] && more == history + [next] && Written(history[|history| - 1], next)
    requires history[0] == Moment(EMPTY_DISK, NO_PAST)
    requires forall i :: 0 < i < |history| ==> Written(history[i - 1], history[i])
    ensures more[0] == Moment(EMPTY_DISK, NO_PAST)
    ensures forall i :: 0 < i < |more| ==> Written(more[i - 1], more[i])
  {
    forall i | 0 < i < |more| ensures Written(more[i - 1], more[i]) {
      assert more[i - 1] == history[i - 1];
    }
  }

  lemma TraceStands(history: seq<Moment>, supply: nat)
    requires history != [] ==> history[0] == Moment(EMPTY_DISK, NO_PAST)
    requires forall i :: 0 < i < |history| ==> Written(history[i - 1], history[i])
    requires forall i :: 0 <= i < |history| ==> Inv(history[i].disk, history[i].past, supply)
    requires forall i, j :: 0 <= i <= j < |history| ==> Kept(history[i], history[j])
    ensures Trace(history, supply)
  {
  }

  lemma TraceGoesOn(history: seq<Moment>, supply: nat, next: Moment, more: seq<Moment>)
    requires Trace(history, supply) && history != [] && more == history + [next]
    requires Kept(history[|history| - 1], next) && Inv(next.disk, next.past, supply)
    requires Written(history[|history| - 1], next)
    ensures Trace(more, supply)
  {
    assert Tracing(history, 0);
    NothingTaken(next);
    InvGoesOn(history, supply, next, more);
    AllKeptGoesOn(history, next, more);
    AllWrittenGoesOn(history, next, more);
    TraceStands(more, supply);
  }

  lemma TraceSupplied(history: seq<Moment>, supply: nat, supply': nat)
    requires Trace(history, supply) && supply <= supply'
    ensures Trace(history, supply')
  {
    assert Tracing(history, 0);
    forall i | 0 <= i < |history|
      ensures Inv(history[i].disk, history[i].past, supply')
    {
      MoreSupply(history[i].disk, history[i].past, supply, supply');
    }
  }

  // ----- The log file

  ghost predicate Reading(n: nat) { true }

  /** The log file shows exactly these entries, however it was torn; unless a stop tore a line behind
      the longest that a repair takes, which no operation gets past. A name, until a proof says
      `Reading`. */
  ghost predicate LogStands(c: Codec<Entry>, log: seq<byte>, audit: seq<Entry>, overlong: Option<Entry>) {
    forall n: nat {:trigger Reading(n)} :: Reading(n) ==>
      && Faithful(c)
      && match overlong
         case None => Shows(c, log, audit)
         case Some(entry) => Repaired(c, log) == None && |c.render(entry)| > MAX_LINE_BYTES
  }

  lemma EmptyLogStands(c: Codec<Entry>)
    requires Faithful(c)
    ensures LogStands(c, [], [], None)
  {
    LinesShow(c, []);
  }

  lemma LogIsOpen(c: Codec<Entry>, log: seq<byte>, audit: seq<Entry>, overlong: Option<Entry>)
    requires LogStands(c, log, audit, overlong)
    ensures Faithful(c) && (overlong.None? <==> Repaired(c, log).Some?)
  {
    assert Reading(0);
  }

  /** What an append leaves of which only a part was written. */
  lemma AppendedStands(
    c: Codec<Entry>, log: seq<byte>, audit: seq<Entry>, entry: Entry, part: seq<byte>, after: seq<byte>)
    requires LogStands(c, log, audit, None) && part <= c.render(entry) + [NEWLINE]
    requires Repaired(c, log).Some? && after == Repaired(c, log).value + part
    ensures
      if MAX_LINE_BYTES < |part| <= |c.render(entry)| then LogStands(c, after, audit, Some(entry))
      else LogStands(c, after, if |part| >= |c.render(entry)| then audit + [entry] else audit, None)
  {
    assert Reading(0);
    if MAX_LINE_BYTES < |part| <= |c.render(entry)| {
      PartInLine(c.render(entry), [NEWLINE], part);
      OverlongTailStays(c, log, audit, entry, part);
    } else {
      TornAppendShows(c, log, audit, entry, part);
    }
  }

  /** Repairs the log file and appends one line, which may be torn behind any number of bytes: the entry
      counts from its last byte on. */
  method AppendLine(c: Codec<Entry>, log: seq<byte>, ghost audit: seq<Entry>, entry: Entry, torn: Option<nat>)
    returns (after: seq<byte>, appended: bool, ghost overlong: Option<Entry>)
    requires LogStands(c, log, audit, None)
    ensures LogStands(c, after, if appended then audit + [entry] else audit, overlong)
    ensures overlong.Some? ==> overlong == Some(entry) && |c.render(entry)| > MAX_LINE_BYTES && torn.Some? && !appended
    ensures torn.None? ==> appended
    ensures torn == Some(0) ==> !appended && overlong.None?
  {
    LogIsOpen(c, log, audit, None);
    var line := c.render(entry) + [NEWLINE];
    var written := if torn.None? || torn.value >= |line| then |line| else torn.value;
    if torn.Some? && written == |line| {
      written := |line| - 1;
    }
    var part := line[..written];
    after := Repaired(c, log).value + part;
    var jammed := MAX_LINE_BYTES < written <= |c.render(entry)|;
    appended, overlong := written >= |c.render(entry)| && !jammed, if jammed then Some(entry) else None;
    AppendedStands(c, log, audit, entry, part, after);
  }

  /** Some moment had the event among its manifest's intents, or the message in its outbox. */
  ghost predicate Attempted(history: seq<Moment>, entry: Entry) {
    exists i :: 0 <= i < |history| && history[i].disk.manifest.Some? && Loggable(history[i].disk, entry)
  }

  predicate Loggable(d: Disk, entry: Entry)
    requires d.manifest.Some?
  {
    match entry
    case Durable(id, event) => id in d.manifest.value.pending && event in d.manifest.value.pending[id]
    case MessageQueued(id) => id in d.outbox
  }

  /** Whatever entry was torn beyond repair, the run had attempted it: a name, until a proof says
      `Reading`. */
  ghost predicate TornFrom(history: seq<Moment>, overlong: Option<Entry>) {
    forall n: nat {:trigger Reading(n)} :: Reading(n) ==> overlong.Some? ==> Attempted(history, overlong.value)
  }

  lemma TornFromNothing(history: seq<Moment>)
    ensures TornFrom(history, None)
  {
  }

  lemma TornFromMore(history: seq<Moment>, overlong: Option<Entry>, more: seq<Moment>)
    requires TornFrom(history, overlong) && history <= more
    ensures TornFrom(more, overlong)
  {
    assert Reading(0);
    if overlong.Some? {
      var i :| 0 <= i < |history| && history[i].disk.manifest.Some? && Loggable(history[i].disk, overlong.value);
      assert more[i] == history[i];
    }
  }

  lemma TornNow(history: seq<Moment>, entry: Entry)
    requires history != [] && history[|history| - 1].disk.manifest.Some? && Loggable(history[|history| - 1].disk, entry)
    ensures TornFrom(history, Some(entry))
  {
  }

  /** The log's limits, as the run needs them: no entry that it may have logged renders beyond the
      longest line. */
  ghost predicate Fitting(c: Codec<Entry>, history: seq<Moment>) {
    forall entry :: Attempted(history, entry) ==> |c.render(entry)| <= MAX_LINE_BYTES
  }

  /** Then the log file was never torn beyond repair. */
  lemma FittingIsWhole(c: Codec<Entry>, log: seq<byte>, audit: seq<Entry>, overlong: Option<Entry>, history: seq<Moment>)
    requires LogStands(c, log, audit, overlong) && TornFrom(history, overlong) && Fitting(c, history)
    ensures overlong == None
  {
    assert Reading(0);
  }

  /** Any reader of the log file finds exactly the entries. */
  lemma LogIsRead(c: Codec<Entry>, log: seq<byte>, audit: seq<Entry>)
    requires LogStands(c, log, audit, None)
    ensures Repaired(c, log).Some? && ReadLines(c, Repaired(c, log).value) == Some(audit)
  {
    assert Reading(0);
    ShownIsRead(c, log, audit);
  }

  /** How far a recovery has come: a name, until a proof says `Reading`. */
  ghost predicate RecoveredSoFar(first: Disk, d: Disk, done: set<MessageId>) {
    forall n: nat {:trigger Reading(n)} :: Reading(n) ==>
      && Tidied(first, d) && d.outbox == Recovered(first, done)
      && d.manifest.value.pending.Keys <= first.manifest.value.pending.Keys
  }

  /** How far a reconciliation of events has come: a name, until a proof says `Reading`. */
  ghost predicate LoggedSoFar(
    first: seq<Entry>, audit: seq<Entry>, pending: map<AuditId, seq<Event>>, ids: set<AuditId>, logged: set<AuditId>)
  {
    forall n: nat {:trigger Reading(n)} :: Reading(n) ==>
      && LoggedMore(first, audit, pending, ids)
      && forall id :: id in logged && id in pending ==> AllLogged(audit, id, pending[id])
  }

  /** How far a restart has come with its records: a name, until a proof says `Reading`. */
  ghost predicate SettledSoFar(first: Disk, d: Disk, todo: set<MessageId>)
    requires d.manifest.Some?
  {
    forall n: nat {:trigger Reading(n)} :: Reading(n) ==>
      && Tidied(first, d) && SettledBut(first.outbox, d.outbox, d.manifest.value.committed, todo)
      && OnlyLogs(first.audit, d.audit, Waiting(first.outbox))
  }

  ghost predicate SettledInPart(first: Disk, d: Disk) {
    forall n: nat {:trigger Reading(n)} :: Reading(n) ==>
      Tidied(first, d) && OnlyLogs(first.audit, d.audit, Waiting(first.outbox))
  }

  lemma NothingSettled(d: Disk)
    requires d.manifest.Some?
    ensures SettledSoFar(d, d, d.outbox.Keys)
  {
    NothingTidied(d);
    NothingLogged(d.audit, Waiting(d.outbox));
  }

  /** How far a delivery has come: a name, until a proof says `Reading`. */
  ghost predicate RedeliveredSoFar(first: Disk, d: Disk, p: Participant) {
    forall n: nat {:trigger Reading(n)} :: Reading(n) ==> Tidied(first, d) && Redelivered(first.outbox, d.outbox, p)
  }

  lemma NothingRedelivered(d: Disk, p: Participant)
    requires d.manifest.Some?
    ensures RedeliveredSoFar(d, d, p)
  {
    NothingTidied(d);
  }

  ghost predicate RecoveredInPart(first: Disk, d: Disk) {
    forall n: nat {:trigger Reading(n)} :: Reading(n) ==> Tidied(first, d)
  }

  lemma NothingRecovered(d: Disk)
    requires d.manifest.Some?
    ensures RecoveredSoFar(d, d, {})
  {
    RecoveringNone(d);
    NothingTidied(d);
  }

  lemma MarkedOrNot(outbox: map<MessageId, Record>, committed: Option<TransitionId>)
    ensures Marked(outbox) ==> Halfway(outbox, committed)
  {
    if Marked(outbox) {
      MarkedIsHalfway(outbox, committed);
    }
  }

  lemma BatchIsStaged(outbox: map<MessageId, Record>, transition: TransitionId, messages: seq<Outgoing>, ids: seq<MessageId>)
    requires Batch(outbox, transition, messages, ids) && messages != []
    ensures StagedUnder(outbox, transition) != {}
  {
    assert ids[0] in StagedUnder(outbox, transition);
  }

  lemma NoRecordsAreMarked()
    ensures Marked(map[]) && forall committed :: Halfway(map[], committed)
  {
  }

  lemma OneIntent(pending: map<AuditId, seq<Event>>, id: AuditId)
    requires id in pending && |pending[id]| == 1
    ensures IntentCount(pending, {id} * pending.Keys) == 1
  {
    assert {id} * pending.Keys == {id};
    IntentCountByAny(pending, {id}, id);
    assert {id} - {id} == {};
  }

  /** Whatever was in circulation is out of it. */
  ghost predicate Withdrew(outbox: map<MessageId, Record>, outbox': map<MessageId, Record>) {
    forall id :: id in outbox && outbox[id].status.Live() ==> id in outbox' && !outbox'[id].status.Live()
  }

  lemma LiveAreWithdrawn(first: Disk, before: Disk, d: Disk, history: seq<Moment>, supply: nat, k: nat)
    requires Tidied(first, before) && d.manifest.Some? && !d.tombstone
    requires d.manifest.value.supersedes == AllLive(before.outbox) && SupersedesDone(d.manifest.value, d.outbox)
    requires Trace(history, supply) && k < |history| && history[k].disk == before && history[|history| - 1].disk == d
    ensures Withdrew(first.outbox, d.outbox)
  {
    assert Tracing(history, 0);
    assert Kept(history[k], history[|history| - 1]);
    forall id | id in first.outbox && first.outbox[id].status.Live()
      ensures id in d.outbox && !d.outbox[id].status.Live()
    {
      assert SameMessage(first.outbox[id], before.outbox[id]) && SameMessage(before.outbox[id], d.outbox[id]);
      if before.outbox[id].status.Live() {
        assert id in AllLive(before.outbox);
      }
    }
  }

  /** The events of a transition are in the log. */
  ghost predicate EventsLogged(audit: seq<Entry>, transition: TransitionId, events: seq<Event>) {
    forall e :: e in events ==> Durable(OfTransition(transition), e) in audit
  }

  lemma CommittedIsLogged(d: Disk, before: Past, past: Past, supply: nat, transition: TransitionId, events: seq<Event>)
    requires Inv(d, past, supply) && d.manifest.Some? && d.manifest.value.pending == map[]
    requires DistinctNames(events) && past == CommittedPast(before, transition, events)
    requires forall name :: DurableKey(OfTransition(transition), name) !in before.saved
    ensures EventsLogged(d.audit, transition, events)
  {
    CommitSaves(before, transition, events);
    forall e | e in events ensures Durable(OfTransition(transition), e) in d.audit {
      SavedIsLogged(d, past, supply, DurableKey(OfTransition(transition), NameOf(e)));
    }
  }

  predicate NoneUsed(outbox: map<MessageId, Record>) {
    forall id :: id in outbox ==> !outbox[id].status.InUse()
  }

  lemma AbsentIsUnused(d: Disk, past: Past, supply: nat)
    requires Inv(d, past, supply) && d.manifest.None?
    ensures NoneUsed(d.outbox)
  {
    if !d.tombstone {
      AbsentFacts(d, past, supply);
      forall id | id in d.outbox ensures !d.outbox[id].status.InUse() {
        InUseIsCommitted(d, past, supply, id);
      }
    } else {
      TombstoneFacts(d, past, supply);
    }
  }

  /** One message is in circulation, to be received, and the log does not say so. */
  predicate FirstActivated(d: Disk, id: MessageId) {
    && id in d.outbox && d.outbox[id].status.Pending? && !Logged(d.audit, QueuedKey(id))
    && forall x :: x in d.outbox && d.outbox[x].status.InUse() ==> x == id
  }

  lemma OnlyFirst(d: Disk, d': Disk)
    requires NoneUsed(d.outbox)
    ensures (exists id :: StoppedActivating(d, d', id)) ==> exists id :: FirstActivated(d', id)
  {
    if id :| StoppedActivating(d, d', id) {
      assert FirstActivated(d', id);
    }
  }

  /** A staged message became claimable, and the log does not say so. */
  predicate StoppedActivating(d: Disk, d': Disk, id: MessageId) {
    && id in d.outbox && d.outbox[id].status.Staged? && !Logged(d'.audit, QueuedKey(id))
    && d'.outbox == d.outbox[id := d.outbox[id].(status := Pending)]
  }

  lemma StoppedSince(a: Disk, b: Disk, c: Disk)
    requires a.outbox == b.outbox
    ensures (exists id :: StoppedActivating(b, c, id)) ==> exists id :: StoppedActivating(a, c, id)
  {
    if id :| StoppedActivating(b, c, id) {
      assert StoppedActivating(a, c, id);
    }
  }

  datatype Health = Healthy | Corrupt

  /** What holds between the files, the log and the run so far. */
  ghost function Checked(
    codec: Codec<Entry>, log: seq<byte>, disk: Disk, past: Past, history: seq<Moment>, supply: nat, overlong: Option<Entry>): Health
  {
    if && Inv(disk, past, supply)
       && LogStands(codec, log, disk.audit, overlong)
       && TornFrom(history, overlong)
       && history != [] && history[|history| - 1] == Moment(disk, past)
       && Trace(history, supply)
    then Healthy else Corrupt
  }

  class CouncilBroker {
    const codec: Codec<Entry>
    var disk: Disk
    /** The bytes of the log file, which the entries of the disk are read from. */
    var log: seq<byte>
    var plan: StopPlan
    /** The durable writes of this process. */
    var written: nat
    /** How much of a line is written when the process stops in an append. */
    var tear: nat
    /** The process has stopped, and nothing is written until it goes on or another one starts. */
    var down: bool
    /** The next unused identifier. */
    var supply: nat
    ghost var past: Past
    ghost var history: seq<Moment>
    /** The entry whose line a stop tore behind the line limit. */
    ghost var overlong: Option<Entry>
    /** The messages whose relay was tried since a retry began. */
    ghost var tried: set<MessageId>

    ghost predicate Valid()
      reads this
    {
      Checked(codec, log, disk, past, history, supply, overlong).Healthy?
    }

    /** The state is valid again and the run went on from the old one. */
    twostate predicate Ran()
      reads this
    {
      Valid() && old(history) <= history && old(supply) <= supply
    }

    ghost predicate Up()
      reads this
    {
      !down && overlong.None?
    }

    /** The process is to stop before the next log entry of an activation, and nowhere else. */
    ghost predicate StopsNext()
      reads this
    {
      Up() && StopsActivations(plan) && tear == 0 && !disk.tombstone
    }

    /** What holds of every operation: it stops only with the process or over an unreadable log, writes
        nothing while the process is down, and ends if the process stops nowhere. */
    twostate predicate Steps(o: Outcome)
      reads this
    {
      && plan == old(plan) && tear == old(tear)
      && (old(down) ==> down && disk == old(disk))
      && (o.Stopped? ==> down || overlong.Some?)
      && (o.Done? ==> down == old(down) && (old(Up()) ==> Up()))
      && (tear == 0 && old(overlong).None? ==> overlong.None?)
      && (old(Up()) && plan.Never? ==> o.Done?)
    }

    /** It logs no activation. */
    twostate predicate LogsNoActivation(o: Outcome)
      reads this
    {
      old(Up()) && Lenient(plan) ==> o.Done?
    }

    /** Whoever is in circulation is marked behind it, if everyone was before; when it stops, but for
        some that nobody has received yet. */
    twostate predicate Marks(o: Outcome)
      reads this
    {
      Marked(old(disk.outbox)) ==>
        if o.Done? then Marked(disk.outbox) else Halfway(disk.outbox, CommittedOf(disk.manifest))
    }

    twostate predicate StaysHalfway()
      reads this
    {
      Halfway(old(disk.outbox), CommittedOf(old(disk.manifest))) ==> Halfway(disk.outbox, CommittedOf(disk.manifest))
    }

    /** So many writes are enough for it to end. */
    twostate predicate Costs(o: Outcome, writes: nat)
      reads this
    {
      old(Up()) && plan.After? && old(written) + writes <= plan.writes ==> o.Done? && written <= old(written) + writes
    }

    /** The process stops before the next write. */
    ghost predicate StopsHere()
      reads this
    {
      plan.After? && written >= plan.writes
    }

    constructor (codec: Codec<Entry>)
      requires Faithful(codec)
      ensures Valid() && disk == EMPTY_DISK && log == [] && overlong == None && past == NO_PAST && history == [Moment(EMPTY_DISK, NO_PAST)]
      ensures this.codec == codec && down
    {
      this.codec := codec;
      disk, log, supply, past, history, overlong := EMPTY_DISK, [], 0, NO_PAST, [Moment(EMPTY_DISK, NO_PAST)], None;
      plan, tear, written, down, tried := Never, 0, 0, true, {};
      TornFromNothing([Moment(EMPTY_DISK, NO_PAST)]);
      EmptyLogStands(codec);
    }

    // ----- One durable write

    /** Makes one durable write, unless the process stops before it. A stop inside an append may tear
        the line, and the entry counts if all of it was written but the newline. Nothing is appended
        behind a line that cannot be repaired. */
    method Persist(w: Write) returns (o: Outcome)
      requires Valid()
      requires Inv(Apply(disk, w), NextPast(past, w), supply) && DiskGrown(disk, Apply(disk, w)) && PastGrown(past, NextPast(past, w))
      requires w.AppendAudit? ==> disk.manifest.Some? && Loggable(disk, w.entry)
      modifies this
      ensures Ran() && supply == old(supply) && Steps(o) && Costs(o, 1)
      ensures o.Done? ==> disk == Apply(old(disk), w)
      ensures o.Stopped? ==> disk == old(disk) || (w.AppendAudit? && old(tear) > 0 && disk == Apply(old(disk), w))
      ensures
        if disk == old(disk) && o.Stopped? then past == old(past) && history == old(history)
        else past == NextPast(old(past), w) && history == old(history) + [Moment(disk, past)]
      ensures o.Stopped? <==> old(down) || plan.Stops(w, old(written)) || (w.AppendAudit? && old(overlong).Some?)
      ensures written == old(written) + (if o.Done? then 1 else 0) && tried == old(tried)
      ensures overlong != old(overlong) ==>
        || (w.RemoveAudit? && overlong == None)
        || (w.AppendAudit? && overlong == Some(w.entry) && |codec.render(w.entry)| > MAX_LINE_BYTES && o.Stopped?)
    {
      LogIsOpen(codec, log, disk.audit, overlong);
      if down || (w.AppendAudit? && Repaired(codec, log).None?) {
        return Stopped;
      }
      down := plan.Stops(w, written);
      if down && !w.AppendAudit? {
        return Stopped;
      }
      Put(w, if down then Some(tear) else None);
      if down {
        return Stopped;
      }
      written := written + 1;
      return Done;
    }

    /** The write reaches the disk, unless it is an append that is torn and does not count. */
    method Put(w: Write, torn: Option<nat>)
      requires Valid() && (w.AppendAudit? ==> overlong.None? && disk.manifest.Some? && Loggable(disk, w.entry)) && (torn.Some? ==> w.AppendAudit?)
      requires Inv(Apply(disk, w), NextPast(past, w), supply) && DiskGrown(disk, Apply(disk, w)) && PastGrown(past, NextPast(past, w))
      modifies this`log, this`overlong, this`disk, this`past, this`history
      ensures Valid() && old(history) <= history
      ensures
        || (torn.Some? && disk == old(disk) && past == old(past) && history == old(history))
        || (torn != Some(0) && disk == Apply(old(disk), w) && past == NextPast(old(past), w) && history == old(history) + [Moment(disk, past)])
      ensures overlong != old(overlong) ==>
        || (w.RemoveAudit? && overlong == None)
        || (w.AppendAudit? && overlong == Some(w.entry) && |codec.render(w.entry)| > MAX_LINE_BYTES && torn.Some? && torn != Some(0))
    {
      var counts := WriteLog(w, torn);
      if counts {
        Enter(w);
      }
    }

    /** The write is there: the run has one moment more. */
    method Enter(w: Write)
      requires Inv(Apply(disk, w), NextPast(past, w), supply) && DiskGrown(disk, Apply(disk, w)) && PastGrown(past, NextPast(past, w))
      requires history != [] && history[|history| - 1] == Moment(disk, past) && Trace(history, supply)
      requires LogStands(codec, log, Apply(disk, w).audit, overlong) && TornFrom(history, overlong)
      modifies this`disk, this`past, this`history
      ensures Valid() && old(history) <= history && disk == Apply(old(disk), w) && past == NextPast(old(past), w)
      ensures history == old(history) + [Moment(disk, past)]
    {
      ghost var next := Moment(Apply(disk, w), NextPast(past, w));
      TraceGoesOn(history, supply, next, history + [next]);
      TornFromMore(history, overlong, history + [next]);
      disk, past, history := Apply(disk, w), next.past, history + [next];
    }

    /** What a write does to the log file; an append that is torn may not count. */
    method WriteLog(w: Write, torn: Option<nat>) returns (counts: bool)
      requires LogStands(codec, log, disk.audit, overlong) && (w.AppendAudit? ==> overlong.None?)
      requires TornFrom(history, overlong) && history != [] && history[|history| - 1].disk == disk
      requires w.AppendAudit? ==> disk.manifest.Some? && Loggable(disk, w.entry)
      modifies this`log, this`overlong
      ensures LogStands(codec, log, if counts then Apply(disk, w).audit else disk.audit, overlong)
      ensures TornFrom(history, overlong)
      ensures !counts ==> w.AppendAudit? && torn.Some?
      ensures w.AppendAudit? && torn == Some(0) ==> !counts
      ensures overlong != old(overlong) ==>
        || (w.RemoveAudit? && overlong == None)
        || (w.AppendAudit? && overlong == Some(w.entry) && |codec.render(w.entry)| > MAX_LINE_BYTES && torn.Some? && torn != Some(0) && !counts)
    {
      counts := true;
      if w.AppendAudit? {
        log, counts, overlong := AppendLine(codec, log, disk.audit, w.entry, torn);
        if overlong.Some? {
          TornNow(history, w.entry);
        } else {
          TornFromNothing(history);
        }
      } else if w.RemoveAudit? {
        LogIsOpen(codec, log, disk.audit, overlong);
        log, overlong := [], None;
        EmptyLogStands(codec);
        TornFromNothing(history);
      }
    }

    method Fresh() returns (id: nat)
      requires Valid()
      modifies this`supply
      ensures Ran() && id == old(supply) && supply == id + 1
    {
      MoreSupply(disk, past, supply, supply + 1);
      TraceSupplied(history, supply, supply + 1);
      id := supply;
      supply := supply + 1;
    }

    // ----- Outbox records

    /** Replaces the record of a committed message. */
    method Move(id: MessageId, r: Record) returns (o: Outcome)
      requires Valid() && disk.manifest.Some? && Committed(disk.outbox, past, id)
      requires SameMessage(disk.outbox[id], r) && Moves(disk.manifest.value, disk.final, id, disk.outbox[id], r.status)
      requires disk.outbox[id].status.Staged? && !r.status.Staged? ==> SupersedesDone(disk.manifest.value, disk.outbox)
      requires r.queuedAudited ==> disk.outbox[id].queuedAudited || Logged(disk.audit, QueuedKey(id))
      modifies this
      ensures Ran() && past == old(past) && Steps(o) && LogsNoActivation(o) && Costs(o, 1) && tried == old(tried)
      ensures disk == if o.Done? then Apply(old(disk), PutRecord(id, r)) else old(disk)
    {
      MoveKeeps(disk, past, supply, id, r);
      o := Persist(PutRecord(id, r));
    }

    /** Logs an event unless the log has it, which the file must be readable for. */
    method LogOnce(entry: Entry) returns (o: Outcome)
      requires Valid() && disk.manifest.Some? && MayLog(disk, entry)
      modifies this
      ensures Ran() && past == old(past) && disk == old(disk).(audit := disk.audit)
      ensures Steps(o) && (entry.Durable? ==> LogsNoActivation(o)) && Costs(o, 1)
      ensures disk.audit == old(disk.audit) || disk.audit == old(disk.audit) + [entry]
      ensures o.Done? ==> Logged(disk.audit, KeyOf(entry))
      ensures entry.MessageQueued? && old(StopsNext()) && !Logged(old(disk.audit), KeyOf(entry)) ==>
        o.Stopped? && disk == old(disk)
    {
      LogIsOpen(codec, log, disk.audit, overlong);
      if Repaired(codec, log).None? {
        return Stopped;
      }
      if Logged(disk.audit, KeyOf(entry)) {
        return Done;
      }
      AppendKeeps(disk, past, supply, entry);
      AppendedIsLogged(disk.audit, entry);
      o := Persist(AppendAudit(entry));
    }

    /** Logs a message's activation unless the log has it, and marks the record. */
    method AuditQueuedOnce(id: MessageId) returns (o: Outcome)
      requires Valid() && disk.manifest.Some? && Committed(disk.outbox, past, id) && disk.outbox[id].status.InUse()
      modifies this
      ensures Ran() && past == old(past) && OnlyRecord(old(disk), disk, id) && Steps(o) && Costs(o, 2)
      ensures disk.outbox[id].status == old(disk.outbox[id].status)
      ensures o.Done? ==> disk.outbox[id].queuedAudited && Logged(disk.audit, QueuedKey(id))
      ensures disk.audit == old(disk.audit) || disk.audit == old(disk.audit) + [MessageQueued(id)]
      ensures StopsAt(id, o)
    {
      if disk.outbox[id].queuedAudited {
        NotesAreTrue(disk, past, supply);
        return Done;
      }
      :- LogOnce(MessageQueued(id));
      o := Move(id, disk.outbox[id].(queuedAudited := true));
    }

    /** A process that stops before the log entries of activations stops here, with nothing changed. */
    twostate predicate StopsAt(id: MessageId, o: Outcome)
      reads this
    {
      old(StopsNext()) && id in old(disk.outbox) && !old(disk.outbox)[id].queuedAudited && !Logged(old(disk.audit), QueuedKey(id)) ==>
        o.Stopped? && disk == old(disk)
    }

    /** Tries the recipient's relay once, if it has one; a failed attempt is recorded too. */
    method AttemptDelivery(id: MessageId) returns (o: Outcome)
      requires Valid() && disk.manifest.Some? && Committed(disk.outbox, past, id) && disk.outbox[id].status.Pending?
      modifies this
      ensures Ran() && past == old(past) && OnlyRecord(old(disk), disk, id) && Steps(o) && Costs(o, 1)
      ensures disk.outbox[id].status.Pending? || disk.outbox[id].status.Delivered?
      ensures disk.outbox[id].queuedAudited == old(disk.outbox[id].queuedAudited) && disk.audit == old(disk.audit)
      ensures tried == old(tried) + {id}
    {
      tried := tried + {id};
      var relay: Relay := *;
      match relay {
        case NotTried => o := Done;
        case Failed => o := Move(id, disk.outbox[id]);
        case Posted => o := Move(id, disk.outbox[id].(status := Delivered));
      }
    }

    /** The writes of an activation: the record, the log entry with the mark, and maybe the delivery. */
    method MakeClaimable(id: MessageId) returns (o: Outcome)
      requires Valid() && disk.manifest.Some? && id in disk.outbox && disk.outbox[id].status.Staged?
      requires disk.outbox[id].transition == disk.manifest.value.committed
      requires SupersedesDone(disk.manifest.value, disk.outbox)
      modifies this
      ensures Ran() && past == old(past) && OnlyRecord(old(disk), disk, id) && Steps(o) && Costs(o, 4)
      ensures o.Done? ==> disk.outbox[id].status.Live() && disk.outbox[id].queuedAudited
      ensures disk.outbox[id].status.Live() || disk.outbox[id] == old(disk.outbox)[id]
      ensures disk.outbox[id].queuedAudited || disk.outbox[id].status.Pending? || disk.outbox[id].status.Staged?
      ensures disk.audit == old(disk.audit) || disk.audit == old(disk.audit) + [MessageQueued(id)]
      ensures old(StopsNext()) ==> o.Stopped? && StoppedActivating(old(disk), disk, id)
    {
      StagedIsCurrent(disk, past, supply, id);
      NotesAreTrue(disk, past, supply);
      :- Move(id, disk.outbox[id].(status := Pending));
      :- AuditQueuedOnce(id);
      o := AttemptDelivery(id);
    }

    /** Makes one staged message of the committed transition claimable. */
    method ActivateRecord(id: MessageId) returns (o: Outcome)
      requires Valid() && disk.manifest.Some? && id in disk.outbox && disk.outbox[id].status.Staged?
      requires disk.outbox[id].transition == disk.manifest.value.committed
      requires SupersedesDone(disk.manifest.value, disk.outbox)
      modifies this
      ensures Ran() && past == old(past) && OnlyRecord(old(disk), disk, id)
      ensures Steps(o) && Marks(o) && StaysHalfway() && Costs(o, 4)
      ensures SupersedesDone(disk.manifest.value, disk.outbox)
      ensures o.Done? ==> disk.outbox[id].status.Live() && disk.outbox[id].queuedAudited
      ensures disk.audit == old(disk.audit) || disk.audit == old(disk.audit) + [MessageQueued(id)]
      ensures old(StopsNext()) ==> o.Stopped? && StoppedActivating(old(disk), disk, id)
    {
      OthersAreSuperseded(disk, past, supply, id);
      MarkedOrNot(disk.outbox, CommittedOf(disk.manifest));
      o := MakeClaimable(id);
      ActivationMarks(old(disk.outbox), disk.outbox, id, disk.manifest.value.committed);
    }

    /** Takes a superseded message out of circulation, if it is still in it. */
    method Withdraw(id: MessageId, ghost done: set<MessageId>, ghost outbox: map<MessageId, Record>) returns (o: Outcome)
      requires Valid() && disk.manifest.Some? && id in disk.manifest.value.supersedes
      requires disk.outbox == Withdrawn(outbox, done)
      modifies this
      ensures Ran() && past == old(past) && disk == old(disk).(outbox := disk.outbox) && Steps(o) && LogsNoActivation(o) && Costs(o, 1)
      ensures disk.outbox == Withdrawn(outbox, if o.Done? then done + {id} else done)
      ensures !(id in old(disk.outbox) && old(disk.outbox)[id].status.Live()) ==> o.Done? && disk == old(disk) && written == old(written)
    {
      WithdrawingOne(outbox, done, id);
      if id in disk.outbox && disk.outbox[id].status.Live() {
        InUseIsCommitted(disk, past, supply, id);
        :- Move(id, disk.outbox[id].(status := Superseded));
      }
      return Done;
    }

    /** Takes the live messages that the committed transition supersedes out of circulation. */
    method ApplySupersedes() returns (o: Outcome)
      requires Valid() && disk.manifest.Some?
      modifies this
      ensures Ran() && past == old(past) && Tidied(old(disk), disk)
      ensures Steps(o) && LogsNoActivation(o) && Marks(o) && StaysHalfway() && Costs(o, |disk.manifest.value.supersedes|)
      ensures disk == old(disk).(outbox := disk.outbox)
      ensures exists done :: done <= disk.manifest.value.supersedes && disk.outbox == Withdrawn(old(disk.outbox), done)
      ensures o.Done? ==> disk.outbox == Withdrawn(old(disk.outbox), disk.manifest.value.supersedes)
      ensures o.Done? ==> SupersedesDone(disk.manifest.value, disk.outbox)
      ensures SupersedesDone(disk.manifest.value, old(disk.outbox)) ==> o.Done? && disk == old(disk) && written == old(written)
    {
      ghost var first, ids := disk, disk.manifest.value.supersedes;
      MarkedOrNot(disk.outbox, CommittedOf(disk.manifest));
      ghost var done;
      o, done := WithdrawAll();
      WithdrawnTidies(first, done);
      SupersededIsOlder(first, old(past), old(supply));
      WithdrawnMarks(first.manifest.value, first.outbox, done);
    }

    /** The loop over the superseded messages. */
    method WithdrawAll() returns (o: Outcome, ghost done: set<MessageId>)
      requires Valid() && disk.manifest.Some?
      modifies this
      ensures Ran() && past == old(past) && disk == old(disk).(outbox := disk.outbox) && done <= disk.manifest.value.supersedes
      ensures Steps(o) && LogsNoActivation(o) && Costs(o, |disk.manifest.value.supersedes|)
      ensures disk.outbox == Withdrawn(old(disk.outbox), done) && (o.Done? ==> done == disk.manifest.value.supersedes)
      ensures SupersedesDone(disk.manifest.value, old(disk.outbox)) ==> o.Done? && disk == old(disk) && written == old(written)
    {
      done := {};
      var todo := disk.manifest.value.supersedes;
      ghost var outbox, size := disk.outbox, |todo|;
      WithdrawingNone(disk.outbox);
      while todo != {}
        invariant Ran() && past == old(past) && disk == old(disk).(outbox := disk.outbox) && Steps(Done) && LogsNoActivation(Done)
        invariant todo + done == disk.manifest.value.supersedes && |todo| <= size
        invariant disk.outbox == Withdrawn(outbox, done) && Costs(Done, size - |todo|)
        invariant SupersedesDone(disk.manifest.value, outbox) ==> disk == old(disk) && written == old(written)
        decreases |todo|
      {
        var id :| id in todo;
        :- Withdraw(id, done, outbox);
        todo, done := todo - {id}, done + {id};
      }
      return Done, done;
    }

    /** Supersedes, then makes every staged message of the committed transition claimable. */
    method ActivateTransition() returns (o: Outcome)
      requires Valid() && disk.manifest.Some?
      modifies this
      ensures Ran() && past == old(past) && Tidied(old(disk), disk) && disk.manifest == old(disk.manifest)
      ensures Steps(o) && Marks(o)
      ensures o.Done? ==> SupersedesDone(disk.manifest.value, disk.outbox)
      ensures o.Done? ==> forall id :: Committed(disk.outbox, past, id) ==> !disk.outbox[id].status.Staged?
      ensures SupersedesDone(disk.manifest.value, old(disk.outbox)) && StagedUnder(old(disk.outbox), disk.manifest.value.committed) == {} ==>
        o.Done? && disk == old(disk) && written == old(written)
      ensures old(StopsNext()) && SupersedesDone(disk.manifest.value, old(disk.outbox)) && StagedUnder(old(disk.outbox), disk.manifest.value.committed) != {} ==>
        o.Stopped? && exists id :: StoppedActivating(old(disk), disk, id)
    {
      o := ApplySupersedes();
      if o.Stopped? {
        return;
      }
      ghost var withdrawn := disk;
      WithdrawnKeepsStaged(old(disk.outbox), disk.manifest.value.supersedes, disk.manifest.value.committed);
      o := ActivateStaged();
      TidiedTwice(old(disk), withdrawn, disk);
      if o.Done? {
        NoneStaged(disk, past, supply);
      }
    }

    /** Makes every staged message of the committed transition claimable, which has nothing left to
        supersede. */
    method ActivateStaged() returns (o: Outcome)
      requires Valid() && disk.manifest.Some? && SupersedesDone(disk.manifest.value, disk.outbox)
      modifies this
      ensures Ran() && past == old(past) && Tidied(old(disk), disk) && disk.manifest == old(disk.manifest)
      ensures Steps(o) && Marks(o) && SupersedesDone(disk.manifest.value, disk.outbox)
      ensures o.Done? ==> StagedUnder(disk.outbox, disk.manifest.value.committed) == {}
      ensures StagedUnder(old(disk.outbox), disk.manifest.value.committed) == {} ==> o.Done? && disk == old(disk) && written == old(written)
      ensures old(StopsNext()) && StagedUnder(old(disk.outbox), disk.manifest.value.committed) != {} ==>
        o.Stopped? && exists id :: StoppedActivating(old(disk), disk, id)
    {
      ghost var first := disk;
      var todo := StagedUnder(disk.outbox, disk.manifest.value.committed);
      NothingTidied(disk);
      while todo != {}
        invariant Ran() && past == old(past) && Tidied(first, disk) && disk.manifest == first.manifest
        invariant SupersedesDone(disk.manifest.value, disk.outbox) && Steps(Done) && Marks(Done)
        invariant todo == StagedUnder(disk.outbox, disk.manifest.value.committed)
        invariant old(StopsNext()) ==> disk == first && written == old(written)
        invariant StagedUnder(first.outbox, disk.manifest.value.committed) == {} ==> disk == first && written == old(written)
        decreases |todo|
      {
        var id :| id in todo;
        :- ActivateNext(id, first);
        todo := todo - {id};
      }
      return Done;
    }

    /** Makes one staged message more claimable. */
    method ActivateNext(id: MessageId, ghost first: Disk) returns (o: Outcome)
      requires Valid() && disk.manifest.Some? && SupersedesDone(disk.manifest.value, disk.outbox) && Tidied(first, disk)
      requires id in StagedUnder(disk.outbox, disk.manifest.value.committed)
      modifies this
      ensures Ran() && past == old(past) && Tidied(first, disk) && disk.manifest == old(disk.manifest)
      ensures Steps(o) && Marks(o) && SupersedesDone(disk.manifest.value, disk.outbox)
      ensures o.Done? ==>
        StagedUnder(disk.outbox, disk.manifest.value.committed) == StagedUnder(old(disk.outbox), disk.manifest.value.committed) - {id}
      ensures old(StopsNext()) ==> o.Stopped? && StoppedActivating(old(disk), disk, id)
    {
      ghost var before := disk;
      o := ActivateRecord(id);
      OnlyRecordTidies(first, before, disk, id);
      if o.Done? {
        OneLessStaged(before.outbox, disk.outbox, disk.manifest.value.committed, id);
      }
    }

    // ----- The audit log

    /** Logs the intents of one identity that the log does not have. */
    method LogIntents(id: AuditId) returns (o: Outcome)
      requires Valid() && disk.manifest.Some? && id in disk.manifest.value.pending
      modifies this
      ensures Ran() && past == old(past) && disk == old(disk).(audit := disk.audit)
      ensures LoggedMore(old(disk.audit), disk.audit, disk.manifest.value.pending, {id})
      ensures o.Done? ==> AllLogged(disk.audit, id, disk.manifest.value.pending[id])
      ensures Steps(o) && LogsNoActivation(o) && Costs(o, |disk.manifest.value.pending[id]|)
    {
      var intents := disk.manifest.value.pending[id];
      for i := 0 to |intents|
        invariant Ran() && past == old(past) && disk == old(disk).(audit := disk.audit)
        invariant LoggedMore(old(disk.audit), disk.audit, disk.manifest.value.pending, {id})
        invariant AllLogged(disk.audit, id, intents[..i]) && Steps(Done) && LogsNoActivation(Done) && Costs(Done, i)
      {
        ghost var before := disk.audit;
        :- LogOnce(Durable(id, intents[i]));
        LoggingOne(before, disk.audit, id, intents[..i], intents[i]);
        assert intents[..i + 1] == intents[..i] + [intents[i]];
      }
      assert intents[..|intents|] == intents;
      return Done;
    }

    /** Logs the pending intents of the given identities. */
    method LogAll(ids: set<AuditId>) returns (o: Outcome)
      requires Valid() && disk.manifest.Some? && ids <= disk.manifest.value.pending.Keys
      modifies this
      ensures Ran() && past == old(past) && disk == old(disk).(audit := disk.audit)
      ensures LoggedMore(old(disk.audit), disk.audit, disk.manifest.value.pending, ids)
      ensures o.Done? ==> forall id :: id in ids ==> AllLogged(disk.audit, id, disk.manifest.value.pending[id])
      ensures Steps(o) && LogsNoActivation(o) && Costs(o, IntentCount(disk.manifest.value.pending, ids))
    {
      ghost var logged;
      o, logged := LogEach(ids);
      assert Reading(0);
    }

    /** The loop over the identities. */
    method LogEach(ids: set<AuditId>) returns (o: Outcome, ghost logged: set<AuditId>)
      requires Valid() && disk.manifest.Some? && ids <= disk.manifest.value.pending.Keys
      modifies this
      ensures Ran() && past == old(past) && disk == old(disk).(audit := disk.audit)
      ensures LoggedSoFar(old(disk.audit), disk.audit, disk.manifest.value.pending, ids, logged) && (o.Done? ==> logged == ids)
      ensures Steps(o) && LogsNoActivation(o) && Costs(o, IntentCount(disk.manifest.value.pending, ids))
    {
      ghost var pending, first := disk.manifest.value.pending, disk.audit;
      logged := {};
      var todo := ids;
      ghost var spent: nat := 0;
      while todo != {}
        invariant Ran() && past == old(past) && disk == old(disk).(audit := disk.audit) && Steps(Done) && LogsNoActivation(Done)
        invariant todo + logged == ids && LoggedSoFar(first, disk.audit, pending, ids, logged)
        invariant Costs(Done, spent) && spent + IntentCount(pending, todo) == IntentCount(pending, ids)
        decreases |todo|
      {
        var id :| id in todo;
        IntentCountByAny(pending, todo, id);
        o := LogNext(id, first, ids, logged);
        if o.Stopped? {
          return;
        }
        todo, logged, spent := todo - {id}, logged + {id}, spent + |pending[id]|;
      }
      return Done, logged;
    }

    /** Logs the intents of one identity more. */
    method LogNext(id: AuditId, ghost first: seq<Entry>, ghost ids: set<AuditId>, ghost logged: set<AuditId>) returns (o: Outcome)
      requires Valid() && disk.manifest.Some? && id in disk.manifest.value.pending && id in ids
      requires LoggedSoFar(first, disk.audit, disk.manifest.value.pending, ids, logged)
      modifies this
      ensures Ran() && past == old(past) && disk == old(disk).(audit := disk.audit)
      ensures LoggedSoFar(first, disk.audit, disk.manifest.value.pending, ids, if o.Done? then logged + {id} else logged)
      ensures Steps(o) && LogsNoActivation(o) && Costs(o, |disk.manifest.value.pending[id]|)
    {
      assert Reading(0);
      o := LogIntents(id);
      AllLoggedStays(old(disk.audit), disk.audit, disk.manifest.value.pending, logged);
    }

    /** Logs the selected pending intents, then saves the manifest without them. */
    method ReconcileAudits(selected: set<AuditId>) returns (o: Outcome)
      requires Valid() && disk.manifest.Some?
      modifies this
      ensures Ran() && past == old(past) && disk == old(disk).(audit := disk.audit, manifest := disk.manifest)
      ensures LoggedMore(old(disk.audit), disk.audit, old(disk.manifest.value.pending), selected)
      ensures
        disk.manifest == if o.Stopped? then old(disk.manifest) else
          Some(old(disk.manifest.value).(pending := old(disk.manifest.value.pending) - selected))
      ensures Steps(o) && LogsNoActivation(o)
      ensures
        var pending := old(disk.manifest.value.pending);
        Costs(o, IntentCount(pending, selected * pending.Keys) + 1)
      ensures selected * old(disk.manifest.value.pending.Keys) == {} ==> o.Done? && disk == old(disk) && written == old(written)
    {
      var pending := disk.manifest.value.pending;
      var ids := selected * pending.Keys;
      assert pending - selected == pending - ids;
      if ids == {} {
        assert pending - ids == pending;
        return Done;
      }
      :- LogAll(ids);
      ClearKeeps(disk, past, supply, ids);
      ClearAdds(disk, past, supply, ids);
      o := Persist(PutManifest(disk.manifest.value.(pending := pending - ids)));
    }

    /** Finishes what the committed transition left to do: its log entries, the messages it
        supersedes, the activation of its own. */
    method ReconcileCommitted() returns (o: Outcome)
      requires Valid() && disk.manifest.Some?
      modifies this
      ensures Ran() && past == old(past) && Tidied(old(disk), disk) && Steps(o) && Marks(o)
      ensures o.Done? ==> Quiet(disk.manifest.value, disk.outbox, past)
      ensures Quiet(old(disk.manifest.value), old(disk.outbox), past) ==> o.Done? && disk == old(disk) && written == old(written)
    {
      NothingTidied(disk);
      MarkedOrNot(disk.outbox, CommittedOf(disk.manifest));
      QuietIsDone(disk, past, supply);
      :- ReconcileAudits(disk.manifest.value.pending.Keys);
      if StagedUnder(disk.outbox, disk.manifest.value.committed) != {} || disk.manifest.value.supersedes != {} {
        ghost var before := disk;
        o := ActivateTransition();
        TidiedTwice(old(disk), before, disk);
      } else {
        NoneStaged(disk, past, supply);
        return Done;
      }
    }

    // ----- Committing a transition

    /** Stages one message under a transition, in a file of its own. */
    method Queue(message: Outgoing, transition: TransitionId) returns (o: Outcome, id: MessageId)
      requires Valid() && transition < supply && transition !in past.committed
      requires disk.manifest.Some? || (past == NO_PAST && !disk.tombstone)
      modifies this
      ensures Ran() && past == old(past)
      ensures id !in old(disk.outbox) && id.recipient == message.recipient
      ensures
        disk == if o.Stopped? then old(disk) else
          Apply(old(disk), PutRecord(id, Record(message.kind, message.round, transition, Staged, false)))
      ensures Steps(o) && LogsNoActivation(o) && (old(StopsHere()) ==> o.Stopped?)
    {
      UnusedIdentifier(disk, past, supply, supply);
      var uuid := Fresh();
      id := MessageId(message.recipient, uuid);
      var record := Record(message.kind, message.round, transition, Staged, false);
      StageKeeps(disk, past, supply, id, record);
      o := Persist(PutRecord(id, record));
    }

    /** Stages one message more. */
    method QueueNext(message: Outgoing, transition: TransitionId, ghost messages: seq<Outgoing>, ghost ids: seq<MessageId>)
      returns (o: Outcome, id: MessageId)
      requires Valid() && transition < supply && transition !in past.committed && Batch(disk.outbox, transition, messages, ids)
      requires disk.manifest.Some? || (past == NO_PAST && !disk.tombstone)
      modifies this
      ensures Ran() && past == old(past) && disk == old(disk).(outbox := disk.outbox)
      ensures Staging(old(disk.outbox), disk.outbox, transition)
      ensures o.Done? ==> Batch(disk.outbox, transition, messages + [message], ids + [id])
      ensures Steps(o) && LogsNoActivation(o) && (old(StopsHere()) ==> o.Stopped?)
    {
      o, id := Queue(message, transition);
      if o.Done? {
        BatchGrows(old(disk.outbox), transition, messages, ids, message, id);
      }
    }

    /** Stages the messages of a transition. */
    method QueueAll(messages: seq<Outgoing>, transition: TransitionId) returns (o: Outcome, ghost ids: seq<MessageId>)
      requires Valid() && transition < supply && transition !in past.committed
      requires disk.manifest.Some? || (past == NO_PAST && !disk.tombstone)
      requires forall id :: id in disk.outbox ==> disk.outbox[id].transition != transition
      modifies this
      ensures Ran() && past == old(past) && disk == old(disk).(outbox := disk.outbox)
      ensures Staging(old(disk.outbox), disk.outbox, transition)
      ensures o.Done? ==> Batch(disk.outbox, transition, messages, ids)
      ensures Steps(o) && LogsNoActivation(o) && (old(StopsHere()) ==> if messages == [] then o.Done? && written == old(written) else o.Stopped?)
    {
      ids := [];
      for i := 0 to |messages|
        invariant Ran() && past == old(past) && disk == old(disk).(outbox := disk.outbox) && transition < supply
        invariant Staging(old(disk.outbox), disk.outbox, transition) && Steps(Done) && LogsNoActivation(Done)
        invariant old(StopsHere()) ==> i == 0 && written == old(written)
        invariant Batch(disk.outbox, transition, messages[..i], ids)
      {
        var id :- QueueNext(messages[i], transition, messages[..i], ids);
        ids := ids + [id];
        assert messages[..i + 1] == messages[..i] + [messages[i]];
      }
      assert messages[..|messages|] == messages;
      return Done, ids;
    }

    /** The commit point. */
    method Commit(
      d': Dialogue, transition: TransitionId, supersedes: set<MessageId>, events: seq<Event>,
      ghost messages: seq<Outgoing>, ghost ids: seq<MessageId>)
      returns (o: Outcome)
      requires Valid() && disk.manifest.Some?
      requires MayCommit(disk, past, supply, d', transition, supersedes, events, messages, ids)
      modifies this
      ensures Ran()
      ensures o.Done? ==>
        && disk == Apply(old(disk), PutManifest(CommittedManifest(d', transition, supersedes, events)))
        && past == CommittedPast(old(past), transition, events)
      ensures o.Stopped? ==> disk == old(disk) && past == old(past)
      ensures Steps(o) && LogsNoActivation(o) && (old(StopsHere()) ==> o.Stopped?)
    {
      CommitKeeps(disk, past, supply, d', transition, supersedes, events, messages, ids);
      CommitAdds(past, d', transition, supersedes, events);
      o := Persist(PutManifest(CommittedManifest(d', transition, supersedes, events)));
    }

    /** What follows the commit point: the transition's log entries, then its messages. */
    method Finish() returns (o: Outcome)
      requires Valid() && disk.manifest.Some?
      requires disk.manifest.value.pending.Keys == {OfTransition(disk.manifest.value.committed)}
      modifies this
      ensures Ran() && past == old(past) && Tidied(old(disk), disk) && Steps(o) && Marks(o)
      ensures o.Done? ==> Quiet(disk.manifest.value, disk.outbox, past)
      ensures old(StopsNext()) && old(disk.manifest.value.supersedes) == {} && StagedUnder(old(disk.outbox), old(disk.manifest.value.committed)) != {} ==>
        o.Stopped? && exists id :: StoppedActivating(old(disk), disk, id)
    {
      NothingTidied(disk);
      MarkedOrNot(disk.outbox, CommittedOf(disk.manifest));
      :- ReconcileAudits({OfTransition(disk.manifest.value.committed)});
      ghost var before := disk;
      o := ActivateTransition();
      TidiedTwice(old(disk), before, disk);
      StoppedSince(old(disk), before, disk);
    }

    /** The commit point and what follows it. */
    method CommitAndFinish(
      d': Dialogue, transition: TransitionId, supersedes: set<MessageId>, events: seq<Event>,
      ghost messages: seq<Outgoing>, ghost ids: seq<MessageId>)
      returns (o: Outcome)
      requires Valid() && disk.manifest.Some?
      requires MayCommit(disk, past, supply, d', transition, supersedes, events, messages, ids)
      modifies this
      ensures Ran() && disk.manifest.Some? && disk.files == old(disk.files) && disk.final == old(disk.final) && disk.tombstone == old(disk.tombstone)
      ensures disk.manifest.value.dialogue == old(disk.manifest.value.dialogue) || disk.manifest.value.dialogue == d'
      ensures o.Done? ==>
        && disk.manifest.value == Manifest(d', transition, supersedes, map[])
        && Quiet(disk.manifest.value, disk.outbox, past) && EventsLogged(disk.audit, transition, events)
      ensures Steps(o) && Marks(o) && (old(StopsHere()) ==> o.Stopped? && disk == old(disk))
    {
      MarkedOrNot(disk.outbox, CommittedOf(disk.manifest));
      ghost var saved := past;
      o := Commit(d', transition, supersedes, events, messages, ids);
      if o.Stopped? {
        return;
      }
      o := Finish();
      if o.Done? {
        CommittedIsLogged(disk, saved, past, supply, transition, events);
      }
    }

    // ----- Starting

    /** Opens the dialogue and asks the peers for their proposals; the initiator starts unasked. */
    method Start(
      participants: seq<Participant>, minimum: nat, rounds: nat, maximum: nat, stop: bool, ceiling: nat)
      returns (o: Outcome, started: bool)
      requires Valid()
      modifies this
      ensures Ran()
      ensures o.Done? ==>
        (started <==> old(disk).manifest.None? && !old(disk).tombstone && MayStart(participants, minimum, rounds, maximum, ceiling))
      ensures o.Done? && !started ==> disk == old(disk)
      ensures o.Done? && started ==>
        && disk.manifest.Some? && Quiet(disk.manifest.value, disk.outbox, past)
        && disk.manifest.value.dialogue == Started(participants, minimum, rounds, maximum, stop, ceiling).dialogue
        && StartsWith(disk.manifest.value.dialogue, participants, minimum, rounds, maximum, stop, ceiling)
      ensures o.Stopped? ==>
        || disk.manifest == old(disk.manifest)
        || (old(disk.manifest).None? && PolicyAllowed(participants, minimum, rounds, maximum, ceiling) && disk.manifest.Some? &&
            disk.manifest.value.dialogue == Started(participants, minimum, rounds, maximum, stop, ceiling).dialogue)
      ensures Steps(o) && Marks(o)
      ensures old(disk.manifest).None? && PolicyAllowed(participants, minimum, rounds, maximum, ceiling) && old(StopsNext()) ==>
        o.Stopped? && disk.manifest.Some? && !disk.tombstone && exists id :: FirstActivated(disk, id)
    {
      started := false;
      MayStartIsAllowed(participants, minimum, rounds, maximum, ceiling);
      MarkedOrNot(disk.outbox, CommittedOf(disk.manifest));
      if disk.manifest.Some? || disk.tombstone || !PolicyAllowed(participants, minimum, rounds, maximum, ceiling) {
        return Done, false;
      }
      o := CommitStart(participants, minimum, rounds, maximum, stop, ceiling);
      if o.Stopped? {
        return;
      }
      ghost var committed := disk;
      o := Finish();
      OnlyFirst(committed, disk);
      started := true;
    }

    /** Stages the first requests and commits the new dialogue. */
    method CommitStart(
      participants: seq<Participant>, minimum: nat, rounds: nat, maximum: nat, stop: bool, ceiling: nat)
      returns (o: Outcome)
      requires Valid() && disk.manifest.None? && !disk.tombstone
      requires PolicyAllowed(participants, minimum, rounds, maximum, ceiling)
      modifies this
      ensures Ran() && Steps(o) && Marks(o) && LogsNoActivation(o) && !disk.tombstone
      ensures o.Stopped? ==> disk.manifest.None?
      ensures o.Done? ==>
        && disk.manifest.Some? && disk.manifest.value.pending.Keys == {OfTransition(disk.manifest.value.committed)}
        && disk.manifest.value.dialogue == Started(participants, minimum, rounds, maximum, stop, ceiling).dialogue
        && StagedUnder(disk.outbox, disk.manifest.value.committed) != {} && disk.manifest.value.supersedes == {}
        && NoneUsed(disk.outbox)
    {
      AbsentFacts(disk, past, supply);
      UnusedIdentifier(disk, past, supply, supply);
      MarkedOrNot(disk.outbox, CommittedOf(disk.manifest));
      var transition := Fresh();
      var opening := Started(participants, minimum, rounds, maximum, stop, ceiling);
      ghost var ids;
      o, ids := QueueAll(opening.messages, transition);
      StagingMarks(old(disk.outbox), disk.outbox, transition);
      MarkedOrNot(disk.outbox, None);
      if o.Stopped? {
        return;
      }
      BatchIsStaged(disk.outbox, transition, opening.messages, ids);
      AbsentIsUnused(disk, past, supply);
      StartKeeps(disk, past, supply, participants, minimum, rounds, maximum, stop, ceiling, transition, ids);
      CommitAdds(past, opening.dialogue, transition, {}, [DialogueStarted]);
      o := Persist(PutManifest(CommittedManifest(opening.dialogue, transition, {}, [DialogueStarted])));
    }

    // ----- Submitting

    /** Takes a fresh transition and stages its messages. */
    method Stage(messages: seq<Outgoing>) returns (o: Outcome, transition: TransitionId, ghost ids: seq<MessageId>)
      requires Valid() && disk.manifest.Some? && Quiet(disk.manifest.value, disk.outbox, past)
      modifies this
      ensures Ran() && past == old(past) && disk == old(disk).(outbox := disk.outbox)
      ensures Staging(old(disk.outbox), disk.outbox, transition) && transition !in past.committed
      ensures o.Done? ==> Ready(disk, past, supply, transition, messages, ids)
      ensures Steps(o) && LogsNoActivation(o) && Marks(o)
      ensures old(StopsHere()) ==> if messages == [] then o.Done? && written == old(written) else o.Stopped?
    {
      UnusedIdentifier(disk, past, supply, supply);
      transition := Fresh();
      o, ids := QueueAll(messages, transition);
      StagingKeepsQuiet(disk.manifest.value, old(disk.outbox), disk.outbox, past, transition);
      StagingMarks(old(disk.outbox), disk.outbox, transition);
      MarkedOrNot(disk.outbox, CommittedOf(disk.manifest));
    }

    /** Writes the files of an accepted submission: the submission, and the final record with the
        last check. */
    method WriteFiles(path: Path, payload: Payload, final: Option<Final>) returns (o: Outcome)
      requires Valid() && disk.manifest.Some? && SlotOf(path) !in disk.manifest.value.dialogue.submissions
      requires final.Some? ==> !disk.manifest.value.dialogue.phase.Terminal()
      modifies this
      ensures Ran() && past == old(past) && disk == old(disk).(files := disk.files, final := disk.final)
      ensures o.Done? ==>
        && disk.files == old(disk.files)[path := payload]
        && disk.final == if final.Some? then final else old(disk.final)
      ensures Steps(o) && (old(Up()) && plan == After(old(written) + 2) && final.Some? ==> o.Done? && StopsHere())
    {
      FileKeeps(disk, past, supply, path, payload);
      :- Persist(PutFile(path, payload));
      if final.Some? {
        FinalKeeps(disk, past, supply, PutFinal(final.value));
        :- Persist(PutFinal(final.value));
      }
      return Done;
    }

    /** Stages and commits what a recorded response leads to; its files are written. */
    method CommitSubmission(path: Path, ghost payload: Payload, opening: Opening, ghost files: Files) returns (o: Outcome)
      requires Valid() && disk.manifest.Some? && Quiet(disk.manifest.value, disk.outbox, past)
      requires Records(disk.manifest.value.dialogue, files, path, payload, opening)
      requires disk.files == files[path := payload] && (opening.final.Some? ==> disk.final == opening.final)
      modifies this
      ensures Ran() && disk.manifest.Some? && disk.files == old(disk.files) && disk.final == old(disk.final) && disk.tombstone == old(disk.tombstone)
      ensures disk.manifest.value.dialogue == old(disk.manifest.value.dialogue) || disk.manifest.value.dialogue == opening.dialogue
      ensures o.Done? ==> disk.manifest.value.dialogue == opening.dialogue && Quiet(disk.manifest.value, disk.outbox, past)
      ensures Steps(o) && Marks(o) && (old(StopsHere()) ==> o.Stopped? && disk.manifest == old(disk.manifest))
    {
      ghost var ids;
      var transition;
      o, transition, ids := Stage(opening.messages);
      if o.Stopped? {
        return;
      }
      RecordsMayCommit(disk, past, supply, files, path, payload, opening, transition, ids);
      o := CommitAndFinish(opening.dialogue, transition, {},
                SubmissionEvents(path.participant, path.kind, path.round, opening.final.Some?), opening.messages, ids);
    }

    /** Records an admitted response and what it leads to. */
    method Accept(path: Path, payload: Payload, opening: Opening) returns (o: Outcome)
      requires Valid() && disk.manifest.Some? && Quiet(disk.manifest.value, disk.outbox, past)
      requires Records(disk.manifest.value.dialogue, disk.files, path, payload, opening)
      modifies this
      ensures Ran() && disk.manifest.Some? && disk.tombstone == old(disk.tombstone)
      ensures disk.manifest.value.dialogue == old(disk.manifest.value.dialogue) || disk.manifest.value.dialogue == opening.dialogue
      ensures o.Done? ==>
        && disk.manifest.value.dialogue == opening.dialogue && Quiet(disk.manifest.value, disk.outbox, past)
        && disk.files == old(disk.files)[path := payload]
        && disk.final == if opening.final.Some? then opening.final else old(disk.final)
      ensures Steps(o) && Marks(o)
      ensures old(Up()) && plan == After(old(written) + 2) && opening.final.Some? ==>
        o.Stopped? && disk.manifest == old(disk.manifest) && disk.final == opening.final && disk.tombstone == old(disk.tombstone)
    {
      ghost var files := disk.files;
      MarkedOrNot(disk.outbox, CommittedOf(disk.manifest));
      RecordsNew(disk.manifest.value.dialogue, disk.files, path, payload, opening);
      :- WriteFiles(path, payload, opening.final);
      o := CommitSubmission(path, payload, opening, files);
    }

    /** The decision on a submission, and what the dialogue becomes. */
    method Judge(p: Participant, kind: Kind, round: nat, payload: Payload, deliverable: bool) returns (verdict: Verdict, opening: Opening)
      requires Valid() && disk.manifest.Some?
      ensures Responds(disk.manifest.value.dialogue, disk.files, p, kind, round, payload, deliverable, (verdict, opening))
      ensures Rightly(disk.manifest.value.dialogue, disk.files, p, kind, round, payload, deliverable, verdict)
      ensures !WellFormed(kind, payload) ==> verdict == Refused(Malformed)
      ensures
        if verdict.Accepted? then
          verdict.path == Path(kind, round, p) && Records(disk.manifest.value.dialogue, disk.files, verdict.path, payload, opening)
        else opening.dialogue == disk.manifest.value.dialogue
    {
      ManifestSettled(disk, past, supply);
      var response := Respond(disk.manifest.value, disk.files, disk.final, p, kind, round, payload, deliverable);
      verdict, opening := response.0, response.1;
    }

    /** Decides on a submission, once nothing is left to do for the committed transition. */
    method Decide(p: Participant, kind: Kind, round: nat, payload: Payload, deliverable: bool)
      returns (o: Outcome, verdict: Verdict, ghost opening: Opening)
      requires Valid() && disk.manifest.Some? && Quiet(disk.manifest.value, disk.outbox, past)
      modifies this
      ensures Ran() && disk.manifest.Some?
      ensures Responds(old(disk.manifest.value.dialogue), old(disk.files), p, kind, round, payload, deliverable, (verdict, opening))
      ensures Rightly(old(disk.manifest.value.dialogue), old(disk.files), p, kind, round, payload, deliverable, verdict)
      ensures o.Done? ==>
        && disk.manifest.value.dialogue == opening.dialogue
        && (if verdict.Accepted? then
              && disk.files == old(disk.files)[verdict.path := payload]
              && disk.final == (if opening.final.Some? then opening.final else old(disk.final))
              && Quiet(disk.manifest.value, disk.outbox, past)
            else disk == old(disk))
      ensures o.Stopped? ==>
        disk.manifest.value.dialogue == old(disk.manifest.value.dialogue) || disk.manifest.value.dialogue == opening.dialogue
      ensures Steps(o) && Marks(o)
      ensures old(Up()) && plan == After(old(written) + 2) && verdict.Accepted? && opening.final.Some? ==>
        o.Stopped? && disk.manifest == old(disk.manifest) && disk.final.Some? && disk.tombstone == old(disk.tombstone)
    {
      MarkedOrNot(disk.outbox, CommittedOf(disk.manifest));
      var next;
      verdict, next := Judge(p, kind, round, payload, deliverable);
      opening := next;
      if verdict.Accepted? {
        o := Accept(verdict.path, payload, next);
      } else {
        o := Done;
      }
    }

    /** Takes a submission. Its answer is the decision; an accepted one is recorded with all its
        consequences, or with none if the process stops before the commit point. */
    method Submit(p: Participant, kind: Kind, round: nat, payload: Payload, deliverable: bool)
      returns (o: Outcome, verdict: Option<Verdict>, ghost opening: Option<Opening>)
      requires Valid()
      modifies this
      ensures Ran()
      ensures old(disk.manifest).None? ==> o.Done? && disk == old(disk) && (verdict.Some? ==> verdict.value.Refused?)
      ensures old(disk.manifest).Some? && o.Done? ==>
        && disk.manifest.Some? && verdict.Some? && opening.Some?
        && Responds(old(disk.manifest.value.dialogue), old(disk.files), p, kind, round, payload, deliverable, (verdict.value, opening.value))
        && disk.manifest.value.dialogue == opening.value.dialogue
        && (if verdict.value.Accepted? then
              && disk.files == old(disk.files)[verdict.value.path := payload]
              && disk.final == (if opening.value.final.Some? then opening.value.final else old(disk.final))
              && Quiet(disk.manifest.value, disk.outbox, past)
            else Tidied(old(disk), disk) && (Quiet(old(disk.manifest.value), old(disk.outbox), old(past)) ==> disk == old(disk)))
      ensures old(disk.manifest).Some? && o.Done? ==>
        verdict.Some? && Rightly(old(disk.manifest.value.dialogue), old(disk.files), p, kind, round, payload, deliverable, verdict.value)
      ensures old(disk.manifest).Some? && o.Stopped? ==>
        && disk.manifest.Some?
        && (|| disk.manifest.value.dialogue == old(disk.manifest.value.dialogue)
            || (opening.Some? && disk.manifest.value.dialogue == opening.value.dialogue && verdict.Some? &&
                Responds(old(disk.manifest.value.dialogue), old(disk.files), p, kind, round, payload, deliverable,
                         (verdict.value, opening.value))))
      ensures Steps(o) && Marks(o)
      ensures
        (&& old(disk.manifest).Some? && Quiet(old(disk.manifest.value), old(disk.outbox), old(past)) && WellFormed(kind, payload)
         && old(Up()) && plan == After(old(written) + 2) && verdict.Some? && verdict.value.Accepted? && opening.Some? && opening.value.final.Some?) ==>
        o.Stopped? && disk.manifest == old(disk.manifest) && disk.final.Some? && disk.tombstone == old(disk.tombstone)
      ensures old(disk.manifest).Some? && WellFormed(kind, payload) && Quiet(old(disk.manifest.value), old(disk.outbox), old(past)) ==>
        && verdict.Some? && opening.Some?
        && Responds(old(disk.manifest.value.dialogue), old(disk.files), p, kind, round, payload, deliverable, (verdict.value, opening.value))
    {
      verdict, opening := None, None;
      MarkedOrNot(disk.outbox, CommittedOf(disk.manifest));
      if disk.manifest.None? {
        return Done, if WellFormed(kind, payload) then None else Some(Refused(Malformed)), opening;
      }
      NothingTidied(disk);
      if !WellFormed(kind, payload) {
        var refused, same := Judge(p, kind, round, payload, deliverable);
        return Done, Some(refused), Some(same);
      }
      :- ReconcileCommitted();
      ghost var answer;
      var decision;
      o, decision, answer := Decide(p, kind, round, payload, deliverable);
      verdict, opening := Some(decision), Some(answer);
    }

    // ----- Extending

    /** Stages and commits an extension. */
    method CommitExtension(p: Participant, additional: int, id: ExtensionId) returns (o: Outcome, extended: ExtensionVerdict)
      requires Valid() && disk.manifest.Some? && Quiet(disk.manifest.value, disk.outbox, past)
      requires disk.manifest.value.dialogue.participants != []
      requires Extend(disk.manifest.value.dialogue, p, additional, id, 0).Extended?
      modifies this
      ensures Ran() && disk.manifest.Some? && disk.files == old(disk.files)
      ensures extended.Extended?
      ensures extended == Extend(old(disk.manifest.value.dialogue), p, additional, id, extended.extension.transition)
      ensures disk.manifest.value.dialogue == old(disk.manifest.value.dialogue)
           || disk.manifest.value.dialogue == extended.opening.dialogue
      ensures o.Done? ==>
        disk.manifest.value.dialogue == extended.opening.dialogue && Quiet(disk.manifest.value, disk.outbox, past)
      ensures Steps(o) && Marks(o)
    {
      var d := disk.manifest.value.dialogue;
      var messages := Extend(d, p, additional, id, 0).opening.messages;
      var supersedes := ExtensionSupersedes(d, disk.outbox, p);
      ghost var ids;
      ghost var outbox := disk.outbox;
      var transition;
      o, transition, ids := Stage(messages);
      extended := Extend(d, p, additional, id, transition);
      if o.Stopped? {
        return;
      }
      StagingPlansSame(d, outbox, disk.outbox, transition, p);
      ExtensionMayCommit(disk, past, supply, p, additional, id, transition, supersedes, ids);
      o := CommitAndFinish(extended.opening.dialogue, transition, supersedes, [RoundsExtended(id, extended.extension)],
                extended.opening.messages, ids);
    }

    /** Answers a repeated extension: its transition has nothing left to do and is logged. */
    method RepeatExtension(id: ExtensionId) returns (o: Outcome)
      requires Valid() && disk.manifest.Some? && Quiet(disk.manifest.value, disk.outbox, past)
      requires id in disk.manifest.value.dialogue.extensions
      modifies this
      ensures Ran() && past == old(past) && Tidied(old(disk), disk) && disk.manifest == old(disk.manifest)
      ensures o.Done? && disk == old(disk)
      ensures
        var known := disk.manifest.value.dialogue.extensions[id];
        Durable(OfTransition(known.transition), RoundsExtended(id, known)) in disk.audit
      ensures Steps(o) && Marks(o)
    {
      NothingTidied(disk);
      MarkedOrNot(disk.outbox, CommittedOf(disk.manifest));
      ChangesAreLogged(disk, past, supply);
      if disk.manifest.value.committed == disk.manifest.value.dialogue.extensions[id].transition {
        o := ApplySupersedes();
      } else {
        o := Done;
      }
    }

    /** Takes a round extension under the client's identity for it. */
    method ExtendRounds(p: Participant, additional: int, id: ExtensionId)
      returns (o: Outcome, verdict: Option<ExtensionVerdict>, ghost transition: TransitionId)
      requires Valid()
      modifies this
      ensures Ran()
      ensures old(disk.manifest).None? ==> o.Done? && disk == old(disk) && (verdict.Some? ==> verdict.value.RefusedOutright?)
      ensures old(disk.manifest).Some? ==> disk.manifest.Some?
      ensures old(disk.manifest).Some? && o.Done? ==>
        var d := old(disk.manifest.value.dialogue);
        && d.participants != [] && verdict == Some(Extend(d, p, additional, id, transition))
        && disk.manifest.value.dialogue == DialogueAfter(d, verdict.value)
        && ExtendsRightly(d, p, additional, id, transition, verdict.value)
        && (verdict.value.Extended? || verdict.value.Repeated? ==> Quiet(disk.manifest.value, disk.outbox, past))
      ensures old(disk.manifest).Some? && o.Stopped? ==>
        var d := old(disk.manifest.value.dialogue);
        && d.participants != []
        && (|| disk.manifest.value.dialogue == d
            || disk.manifest.value.dialogue == DialogueAfter(d, Extend(d, p, additional, id, transition)))
      ensures Steps(o) && Marks(o)
    {
      verdict, transition := None, 0;
      MarkedOrNot(disk.outbox, CommittedOf(disk.manifest));
      if disk.manifest.Some? {
        DialogueFacts(disk, past, supply);
        ExtendedRightly(disk.manifest.value.dialogue, p, additional, id, 0);
      }
      if additional < 1 {
        return Done, Some(RefusedOutright), transition;
      }
      if disk.manifest.None? {
        return Done, None, transition;
      }
      var d := disk.manifest.value.dialogue;
      if p != d.participants[0] {
        return Done, Some(RefusedOutright), transition;
      }
      :- ReconcileCommitted();
      verdict := Some(Extend(d, p, additional, id, 0));
      match verdict.value {
        case Extended(_, _) =>
          var extended;
          o, extended := CommitExtension(p, additional, id);
          verdict, transition := Some(extended), extended.extension.transition;
          ExtendedRightly(d, p, additional, id, transition);
        case Repeated(_) => o := RepeatExtension(id);
        case _ => o := Done;
      }
    }

    // ----- Cancelling

    /** Stages and commits a cancellation. */
    method CommitCancellation(p: Participant) returns (o: Outcome)
      requires Valid() && disk.manifest.Some? && Quiet(disk.manifest.value, disk.outbox, past)
      requires !disk.manifest.value.dialogue.phase.Terminal()
      modifies this
      ensures Ran() && disk.manifest.Some? && disk.files == old(disk.files) && disk.final == old(disk.final) && disk.tombstone == old(disk.tombstone)
      ensures Steps(o) && Marks(o)
      ensures disk.manifest.value.dialogue == old(disk.manifest.value.dialogue)
           || disk.manifest.value.dialogue == CancelledBy(old(disk.manifest.value.dialogue), p).dialogue
      ensures o.Done? ==>
        && disk.manifest.value.dialogue == CancelledBy(old(disk.manifest.value.dialogue), p).dialogue
        && Quiet(disk.manifest.value, disk.outbox, past)
        && disk.manifest.value.supersedes == AllLive(old(disk.outbox))
        && Durable(OfTransition(disk.manifest.value.committed), DialogueCancelled(p)) in disk.audit
    {
      var opening := CancelledBy(disk.manifest.value.dialogue, p);
      var supersedes := AllLive(disk.outbox);
      ghost var ids;
      ghost var outbox := disk.outbox;
      var transition;
      o, transition, ids := Stage(opening.messages);
      if o.Stopped? {
        return;
      }
      StagingPlansSame(disk.manifest.value.dialogue, outbox, disk.outbox, transition, p);
      CancellationMayCommit(disk, past, supply, p, transition, ids);
      assert DialogueCancelled(p) in [DialogueCancelled(p)];
      o := CommitAndFinish(opening.dialogue, transition, supersedes, [DialogueCancelled(p)], opening.messages, ids);
    }

    /** Cancels a dialogue that has not ended; everything that circulated at first is out of it then. */
    method CancelRunning(p: Participant, ghost first: Disk) returns (o: Outcome)
      requires Valid() && disk.manifest.Some? && Quiet(disk.manifest.value, disk.outbox, past)
      requires !disk.manifest.value.dialogue.phase.Terminal() && Tidied(first, disk)
      modifies this
      ensures Ran() && disk.manifest.Some? && disk.final == old(disk.final) && disk.tombstone == old(disk.tombstone)
      ensures Steps(o) && Marks(o)
      ensures disk.manifest.value.dialogue == old(disk.manifest.value.dialogue)
           || disk.manifest.value.dialogue == CancelledBy(old(disk.manifest.value.dialogue), p).dialogue
      ensures o.Done? ==>
        && disk.manifest.value.dialogue == CancelledBy(old(disk.manifest.value.dialogue), p).dialogue
        && Quiet(disk.manifest.value, disk.outbox, past) && Withdrew(first.outbox, disk.outbox)
        && Durable(OfTransition(disk.manifest.value.committed), DialogueCancelled(p)) in disk.audit
    {
      ghost var before, k := disk, |history| - 1;
      DialogueFacts(disk, past, supply);
      o := CommitCancellation(p);
      if o.Done? {
        LiveAreWithdrawn(first, before, disk, history, supply, k);
      }
    }

    /** Cancels the dialogue unless it has ended. */
    method Cancel(p: Participant) returns (o: Outcome, changed: bool)
      requires Valid()
      modifies this
      ensures Ran()
      ensures old(disk.manifest).None? ==> o.Done? && disk == old(disk) && !changed
      ensures old(disk.manifest).Some? ==> disk.manifest.Some?
      ensures old(disk.manifest).Some? && o.Done? ==>
        var d := old(disk.manifest.value.dialogue);
        && (changed <==> p in d.participants && !d.phase.Terminal())
        && disk.manifest.value.dialogue == (if changed then d.(phase := Cancelled) else d)
        && (changed ==>
              && Withdrew(old(disk.outbox), disk.outbox)
              && Durable(OfTransition(disk.manifest.value.committed), DialogueCancelled(p)) in disk.audit)
        && (p in d.participants ==> Quiet(disk.manifest.value, disk.outbox, past))
      ensures old(disk.manifest).Some? && o.Stopped? ==>
        var d := old(disk.manifest.value.dialogue);
        || disk.manifest.value.dialogue == d
        || (!d.phase.Terminal() && disk.manifest.value.dialogue == CancelledBy(d, p).dialogue)
      ensures disk.final == old(disk.final) && disk.tombstone == old(disk.tombstone) && Steps(o) && Marks(o)
    {
      changed := false;
      MarkedOrNot(disk.outbox, CommittedOf(disk.manifest));
      if disk.manifest.None? || p !in disk.manifest.value.dialogue.participants {
        return Done, changed;
      }
      :- ReconcileCommitted();
      if disk.manifest.value.dialogue.phase.Terminal() {
        ChangesAreLogged(disk, past, supply);
        assert disk.manifest.value.dialogue.phase.Cancelled? ==>
          Logged(disk.audit, DurableKey(OfTransition(disk.manifest.value.committed), Cancellation));
        return Done, changed;
      }
      changed := true;
      o := CancelRunning(p, old(disk));
    }

    // ----- Receiving and acknowledging

    /** Saves the intent to acknowledge a message on the recipient's behalf. */
    method StageRecovery(id: MessageId) returns (o: Outcome)
      requires Valid() && disk.manifest.Some?
      modifies this
      ensures Ran() && past.committed == old(past.committed) && Steps(o) && Costs(o, 1)
      ensures o.Stopped? ==> disk == old(disk)
      ensures o.Done? ==>
        var pending := old(disk.manifest.value.pending)[OfAcknowledgement(id) := [AcknowledgementRecovered]];
        && disk == Apply(old(disk), PutManifest(old(disk.manifest.value).(pending := pending)))
        && DurableKey(OfAcknowledgement(id), Recovery) in past.saved
    {
      RecoveryKeeps(disk, past, supply, id);
      var pending := disk.manifest.value.pending[OfAcknowledgement(id) := [AcknowledgementRecovered]];
      RecoveryAdds(disk, past, supply, id);
      o := Persist(PutManifest(disk.manifest.value.(pending := pending)));
    }

    /** Acknowledges a received message whose response is safe, on the recipient's behalf: intent
        first, then the record, then the log. */
    method RecoverAcknowledgement(id: MessageId) returns (o: Outcome, recovered: bool)
      requires Valid() && disk.manifest.Some? && id in disk.outbox
      modifies this
      ensures Ran() && past.committed == old(past.committed) && Tidied(old(disk), disk)
      ensures disk.outbox == old(disk.outbox) || disk.outbox == Recovered(old(disk), {id})
      ensures o.Done? ==>
        && disk.outbox == Recovered(old(disk), {id})
        && disk.manifest.value.pending.Keys <= old(disk.manifest.value.pending.Keys)
        && recovered == MayRecover(old(disk), id)
        && (recovered ==> Logged(disk.audit, DurableKey(OfAcknowledgement(id), Recovery)))
      ensures Steps(o) && Marks(o) && StaysHalfway() && Costs(o, 4)
      ensures OnlyLogs(old(disk.audit), disk.audit, {}) && (!MayRecover(old(disk), id) ==> disk == old(disk))
    {
      recovered := MayRecover(disk, id);
      NothingLogged(disk.audit, {});
      RecoveringOne(disk, id);
      RecoveredMarks(disk, {id}, CommittedOf(disk.manifest));
      MarkedOrNot(disk.outbox, CommittedOf(disk.manifest));
      MarkedOrNot(Recovered(disk, {id}), CommittedOf(disk.manifest));
      NothingTidied(disk);
      if !recovered {
        return Done, recovered;
      }
      :- StageRecovery(id);
      o := CompleteRecovery(id);
    }

    /** Acknowledges a message whose recovery is staged, and logs it. */
    method CompleteRecovery(id: MessageId) returns (o: Outcome)
      requires Valid() && disk.manifest.Some? && id in disk.outbox && MayRecover(disk, id)
      requires OfAcknowledgement(id) in disk.manifest.value.pending && DurableKey(OfAcknowledgement(id), Recovery) in past.saved
      requires disk.manifest.value.pending[OfAcknowledgement(id)] == [AcknowledgementRecovered]
      modifies this
      ensures Ran() && past == old(past) && Tidied(old(disk), disk)
      ensures disk.outbox == old(disk.outbox) || disk.outbox == old(disk.outbox)[id := old(disk.outbox)[id].(status := Acknowledged)]
      ensures o.Done? ==>
        && disk.outbox == old(disk.outbox)[id := old(disk.outbox)[id].(status := Acknowledged)]
        && disk.manifest.value.pending == old(disk.manifest.value.pending) - {OfAcknowledgement(id)}
        && Logged(disk.audit, DurableKey(OfAcknowledgement(id), Recovery))
      ensures Steps(o) && Costs(o, 3) && OnlyLogs(old(disk.audit), disk.audit, {})
    {
      NothingLogged(disk.audit, {});
      NothingTidied(disk);
      InUseIsCommitted(disk, past, supply, id);
      :- Move(id, disk.outbox[id].(status := Acknowledged));
      o := LogRecovery(id);
    }

    /** Logs the staged recovery of an acknowledgement, and clears its intent. */
    method LogRecovery(id: MessageId) returns (o: Outcome)
      requires Valid() && disk.manifest.Some?
      requires OfAcknowledgement(id) in disk.manifest.value.pending && DurableKey(OfAcknowledgement(id), Recovery) in past.saved
      requires disk.manifest.value.pending[OfAcknowledgement(id)] == [AcknowledgementRecovered]
      modifies this
      ensures Ran() && past == old(past) && disk == old(disk).(audit := disk.audit, manifest := disk.manifest) && old(disk.audit) <= disk.audit
      ensures
        disk.manifest == if o.Stopped? then old(disk.manifest) else
          Some(old(disk.manifest.value).(pending := old(disk.manifest.value.pending) - {OfAcknowledgement(id)}))
      ensures o.Done? ==> Logged(disk.audit, DurableKey(OfAcknowledgement(id), Recovery))
      ensures Steps(o) && LogsNoActivation(o) && Costs(o, 2) && OnlyLogs(old(disk.audit), disk.audit, {})
    {
      ghost var before := disk;
      OneIntent(disk.manifest.value.pending, OfAcknowledgement(id));
      o := ReconcileAudits({OfAcknowledgement(id)});
      DurablesLogged(before.audit, disk.audit, before.manifest.value.pending, {OfAcknowledgement(id)});
      if o.Done? {
        SavedIsLogged(disk, past, supply, DurableKey(OfAcknowledgement(id), Recovery));
      }
    }

    /** One more of the messages whose acknowledgements are being recovered. */
    method RecoverNext(id: MessageId, ghost first: Disk, ghost done: set<MessageId>) returns (o: Outcome)
      requires Valid() && RecoveredSoFar(first, disk, done) && id in first.outbox
      modifies this
      ensures Ran() && past.committed == old(past.committed) && Steps(o) && Marks(o)
      ensures if o.Done? then RecoveredSoFar(first, disk, done + {id}) else RecoveredInPart(first, disk)
      ensures old(disk.manifest).Some? && NoneRecoverable(old(disk)) ==> disk == old(disk)
    {
      assert Reading(0);
      ghost var before := disk;
      RecoveringMore(first, before, done, id);
      var recovered;
      o, recovered := RecoverAcknowledgement(id);
      TidiedTwice(first, before, disk);
    }

    /** Recovers every safe acknowledgement of one participant. */
    method RecoverAcknowledgements(p: Participant) returns (o: Outcome)
      requires Valid() && disk.manifest.Some?
      modifies this
      ensures Ran() && past.committed == old(past.committed) && Tidied(old(disk), disk)
      ensures o.Done? ==>
        && disk.outbox == Recovered(old(disk), MessagesFor(old(disk.outbox), p))
        && disk.manifest.value.pending.Keys <= old(disk.manifest.value.pending.Keys)
      ensures Steps(o) && Marks(o)
      ensures NoneRecoverable(old(disk)) ==> disk == old(disk)
    {
      ghost var first, done := disk, {};
      var todo := MessagesFor(disk.outbox, p);
      NothingRecovered(disk);
      while todo != {}
        invariant Ran() && past.committed == old(past.committed) && RecoveredSoFar(first, disk, done)
        invariant todo + done == MessagesFor(first.outbox, p) && Steps(Done) && Marks(Done)
        invariant NoneRecoverable(first) ==> disk == first
        decreases |todo|
      {
        var id :| id in todo;
        o := RecoverNext(id, first, done);
        if o.Stopped? {
          assert Reading(0);
          return;
        }
        todo, done := todo - {id}, done + {id};
      }
      assert Reading(0);
      return Done;
    }

    /** Hands out one of a participant's claimable messages, if there is one. */
    method Claim(p: Participant, now: nat) returns (o: Outcome, message: Option<MessageId>)
      requires Valid() && disk.manifest.Some?
      modifies this
      ensures Ran() && past == old(past) && Tidied(old(disk), disk) && Steps(o) && Marks(o) && disk == old(disk).(outbox := disk.outbox)
      ensures o.Done? ==> HandsOut(old(disk.outbox), disk.outbox, past, p, now, message)
    {
      NothingTidied(disk);
      MarkedOrNot(disk.outbox, CommittedOf(disk.manifest));
      var claimable := ClaimableFor(disk.outbox, p, now);
      if claimable == {} {
        return Done, None;
      }
      var id :| id in claimable;
      InUseIsCommitted(disk, past, supply, id);
      o := Move(id, disk.outbox[id].(status := Claimed(now + CLAIM_SECONDS)));
      OnlyRecordMarks(old(disk), disk, id);
      message := Some(id);
    }

    /** Hands a participant its next message, for a limited time. */
    method Wait(p: Participant, now: nat) returns (o: Outcome, message: Option<MessageId>)
      requires Valid()
      modifies this
      ensures Ran() && past.committed == old(past.committed)
      ensures old(disk.manifest).None? ==> o.Done? && message.None? && disk == old(disk)
      ensures old(disk.manifest).Some? ==> Tidied(old(disk), disk)
      ensures old(disk.manifest).Some? && o.Done? ==>
        && HandsOut(Recovered(old(disk), MessagesFor(old(disk.outbox), p)), disk.outbox, past, p, now, message)
        && Serves(old(disk), disk.outbox, p, now, message)
      ensures Steps(o) && Marks(o)
      ensures old(disk.manifest).Some? && NoneRecoverable(old(disk)) ==> disk == old(disk).(outbox := disk.outbox)
    {
      message := None;
      MarkedOrNot(disk.outbox, CommittedOf(disk.manifest));
      if disk.manifest.None? {
        return Done, message;
      }
      :- RecoverAcknowledgements(p);
      ghost var before := disk;
      o, message := Claim(p, now);
      TidiedTwice(old(disk), before, disk);
      if o.Done? {
        HandingServes(old(disk), disk.outbox, past, p, now, message);
      }
    }

    /** Takes a participant's acknowledgement. */
    method Ack(p: Participant, uuid: nat) returns (o: Outcome, verdict: AckVerdict)
      requires Valid()
      modifies this
      ensures Ran() && past == old(past)
      ensures verdict == Acknowledging(old(disk), p, uuid) && AcksRightly(old(disk), p, uuid, verdict)
      ensures
        var id := MessageId(p, uuid);
        disk == if verdict.AcknowledgedNow? && o.Done?
                then Apply(old(disk), PutRecord(id, old(disk.outbox)[id].(status := Acknowledged)))
                else old(disk)
      ensures Steps(o) && Marks(o)
    {
      MarkedOrNot(disk.outbox, CommittedOf(disk.manifest));
      verdict := Acknowledging(disk, p, uuid);
      AcknowledgingIsRight(disk, past, supply, p, uuid);
      if !verdict.AcknowledgedNow? {
        return Done, verdict;
      }
      var id := MessageId(p, uuid);
      InUseIsCommitted(disk, past, supply, id);
      o := Move(id, disk.outbox[id].(status := Acknowledged));
      OnlyRecordMarks(old(disk), disk, id);
    }

    /** Delivers one message again, or for the first time. */
    method Redeliver(id: MessageId) returns (o: Outcome)
      requires Valid() && disk.manifest.Some? && id in disk.outbox && Redeliverable(disk.outbox[id])
      modifies this
      ensures Ran() && past == old(past) && OnlyRecord(old(disk), disk, id)
      ensures Redeliverable(disk.outbox[id])
      ensures disk.outbox[id] == old(disk.outbox[id]).(status := disk.outbox[id].status)
      ensures old(tried) <= tried && (o.Done? ==> id in tried)
      ensures Steps(o) && (Marked(old(disk.outbox)) ==> Marked(disk.outbox))
    {
      InUseIsCommitted(disk, past, supply, id);
      if disk.outbox[id].status.Delivered? {
        :- Move(id, disk.outbox[id].(status := Pending));
        OnlyRecordMarks(old(disk), disk, id);
      }
      ghost var before := disk;
      o := AttemptDelivery(id);
      OnlyRecordMarks(before, disk, id);
    }

    /** Tries the relay with every undelivered and unacknowledged message of one participant. */
    method RedeliverAll(p: Participant) returns (o: Outcome)
      requires Valid() && disk.manifest.Some?
      modifies this
      ensures Ran() && past == old(past) && Tidied(old(disk), disk) && Redelivered(old(disk.outbox), disk.outbox, p)
      ensures Steps(o) && (Marked(old(disk.outbox)) ==> Marked(disk.outbox))
      ensures o.Done? ==> forall id :: id in old(disk.outbox) && id.recipient == p && Redeliverable(old(disk.outbox)[id]) ==> id in tried
    {
      ghost var first := disk;
      var todo := RedeliverableFor(disk.outbox, p);
      NothingRedelivered(disk, p);
      while todo != {}
        invariant Ran() && past == old(past) && RedeliveredSoFar(first, disk, p) && disk.manifest.Some?
        invariant Steps(Done) && (Marked(first.outbox) ==> Marked(disk.outbox)) && todo <= RedeliverableFor(first.outbox, p)
        invariant RedeliverableFor(first.outbox, p) - todo <= tried
        decreases |todo|
      {
        var id :| id in todo;
        o := RedeliverNext(id, p, first);
        if o.Stopped? {
          assert Reading(0);
          return;
        }
        todo := todo - {id};
      }
      assert Reading(0);
      return Done;
    }

    /** Delivers one more of a participant's messages. */
    method RedeliverNext(id: MessageId, p: Participant, ghost first: Disk) returns (o: Outcome)
      requires Valid() && disk.manifest.Some? && RedeliveredSoFar(first, disk, p) && id in RedeliverableFor(first.outbox, p)
      modifies this
      ensures Ran() && past == old(past) && RedeliveredSoFar(first, disk, p) && disk.manifest.Some?
      ensures old(tried) <= tried && (o.Done? ==> id in tried)
      ensures Steps(o) && (Marked(old(disk.outbox)) ==> Marked(disk.outbox))
    {
      assert Reading(0);
      ghost var before := disk;
      o := Redeliver(id);
      OnlyRecordTidies(first, before, disk, id);
      RedeliveredOne(first.outbox, before.outbox, disk.outbox, p, id);
    }

    /** Recovers a participant's safe acknowledgements and delivers its other messages again. */
    method Retry(p: Participant) returns (o: Outcome)
      requires Valid()
      modifies this
      ensures Ran() && past.committed == old(past.committed)
      ensures if old(disk.manifest).None? then o.Done? && disk == old(disk) else Tidied(old(disk), disk)
      ensures old(disk.manifest).Some? && o.Done? ==>
        && Redelivered(Recovered(old(disk), MessagesFor(old(disk.outbox), p)), disk.outbox, p)
        && Retries(old(disk), disk.outbox, p, tried)
      ensures Steps(o) && Marks(o)
    {
      if disk.manifest.None? {
        return Done;
      }
      :- RecoverAcknowledgements(p);
      ghost var before := disk;
      tried := {};
      o := RedeliverAll(p);
      TidiedTwice(old(disk), before, disk);
      if o.Done? {
        RedeliveringRetries(old(disk), disk.outbox, p, tried);
      }
      MarkedOrNot(disk.outbox, CommittedOf(disk.manifest));
    }

    /** Puts a claimed message whose time is over back to pending, or acknowledges it if its response
        is safe by now. */
    method RecoverExpired(id: MessageId, now: nat) returns (o: Outcome)
      requires Valid()
      modifies this
      ensures Ran() && past.committed == old(past.committed)
      ensures if old(disk.manifest).None? then o.Done? && disk == old(disk) else Tidied(old(disk), disk)
      ensures old(disk.manifest).Some? && o.Done? ==>
        disk.outbox ==
          if id !in old(disk.outbox) || !old(disk.outbox)[id].status.Claimed? || old(disk.outbox)[id].status.until > now
          then old(disk.outbox)
          else if MayRecover(old(disk), id) then Recovered(old(disk), {id})
          else old(disk.outbox)[id := old(disk.outbox)[id].(status := Pending)]
      ensures old(disk.manifest).Some? && o.Done? ==> Expires(old(disk), disk.outbox, id, now)
      ensures Steps(o) && Marks(o)
    {
      if disk.manifest.None? {
        return Done;
      }
      NothingTidied(disk);
      if id !in disk.outbox || !disk.outbox[id].status.Claimed? || disk.outbox[id].status.until > now {
        return Done;
      }
      RecoveringOne(disk, id);
      SettledIs(disk, id);
      o := EndClaim(id);
    }

    /** Ends a claim: the message is acknowledged if it may be, and pending again otherwise. */
    method EndClaim(id: MessageId) returns (o: Outcome)
      requires Valid() && disk.manifest.Some? && id in disk.outbox && disk.outbox[id].status.Claimed?
      modifies this
      ensures Ran() && past.committed == old(past.committed) && Steps(o) && Marks(o) && Tidied(old(disk), disk)
      ensures o.Done? ==>
        disk.outbox == if MayRecover(old(disk), id) then Recovered(old(disk), {id})
                       else old(disk.outbox)[id := old(disk.outbox)[id].(status := Pending)]
    {
      var recovered :- RecoverAcknowledgement(id);
      if recovered {
        return Done;
      }
      ghost var before := disk;
      o := Rearm(id);
      TidiedTwice(old(disk), before, disk);
    }

    /** Puts a claimed message back. */
    method Rearm(id: MessageId) returns (o: Outcome)
      requires Valid() && disk.manifest.Some? && id in disk.outbox && disk.outbox[id].status.Claimed?
      modifies this
      ensures Ran() && past == old(past) && Steps(o) && Marks(o) && Tidied(old(disk), disk)
      ensures disk.outbox == if o.Done? then old(disk.outbox)[id := old(disk.outbox)[id].(status := Pending)] else old(disk.outbox)
    {
      NothingTidied(disk);
      InUseIsCommitted(disk, past, supply, id);
      ghost var before := disk;
      o := Move(id, disk.outbox[id].(status := Pending));
      OnlyRecordMarks(before, disk, id);
      MarkedOrNot(disk.outbox, CommittedOf(disk.manifest));
    }

    // ----- Deletion

    method RemoveRecords() returns (o: Outcome)
      requires Valid() && disk.tombstone
      modifies this
      ensures Ran() && past == old(past) && disk == old(disk).(outbox := disk.outbox)
      ensures o.Done? ==> disk.outbox == map[]
      ensures Steps(o) && Marks(o) && StaysHalfway() && Costs(o, |old(disk.outbox).Keys|)
    {
      var todo := disk.outbox.Keys;
      ghost var size, committed := |todo|, CommittedOf(disk.manifest);
      MarkedOrNot(disk.outbox, committed);
      while todo != {}
        invariant Ran() && past == old(past) && disk == old(disk).(outbox := disk.outbox)
        invariant todo == disk.outbox.Keys && |todo| <= size
        invariant Steps(Done) && Marks(Done) && StaysHalfway() && Costs(Done, size - |todo|)
        decreases |todo|
      {
        var id :| id in todo;
        RemovalKeeps(disk, past, supply, id);
        RemovalMarks(disk.outbox, id, committed);
        MarkedOrNot(disk.outbox, committed);
        :- Persist(RemoveRecord(id));
        todo := todo - {id};
      }
      return Done;
    }

    /** Removes what the dialogue's directory holds beside its manifest, which is gone. */
    method RemoveContent() returns (o: Outcome)
      requires Valid() && disk.tombstone && disk.outbox == map[] && disk.manifest.None?
      modifies this
      ensures Ran() && past == old(past) && disk == old(disk).(files := disk.files, final := disk.final, audit := disk.audit)
      ensures o.Done? ==> disk.files == map[] && disk.final.None? && disk.audit == []
      ensures Steps(o) && Costs(o, |old(disk.files).Keys| + 2)
    {
      o := RemoveFiles();
      if o.Stopped? {
        return;
      }
      DirectoryRemovalKeeps(disk, past, supply, RemoveFinal);
      :- Persist(RemoveFinal);
      DirectoryRemovalKeeps(disk, past, supply, RemoveAudit);
      o := Persist(RemoveAudit);
    }

    method RemoveFiles() returns (o: Outcome)
      requires Valid() && disk.tombstone && disk.outbox == map[] && disk.manifest.None?
      modifies this
      ensures Ran() && past == old(past) && disk == old(disk).(files := disk.files) && (o.Done? ==> disk.files == map[])
      ensures Steps(o) && Costs(o, |old(disk.files).Keys|)
    {
      var todo := disk.files.Keys;
      ghost var size := |todo|;
      while todo != {}
        invariant Ran() && past == old(past) && disk == old(disk).(files := disk.files)
        invariant todo == disk.files.Keys && |todo| <= size && Steps(Done) && Costs(Done, size - |todo|)
        decreases |todo|
      {
        var path :| path in todo;
        DirectoryRemovalKeeps(disk, past, supply, RemoveFile(path));
        :- Persist(RemoveFile(path));
        todo := todo - {path};
      }
      return Done;
    }

    /** Removes a tombstoned dialogue: its outbox records, then its manifest, then the rest. */
    method CompleteDeletion() returns (o: Outcome)
      requires Valid() && disk.tombstone
      modifies this
      ensures Ran() && past == old(past) && disk.tombstone
      ensures o.Done? ==> disk == DELETED
      ensures Steps(o) && Marks(o) && StaysHalfway() && Costs(o, |old(disk.outbox).Keys| + |old(disk.files).Keys| + 3)
    {
      MarkedOrNot(disk.outbox, CommittedOf(disk.manifest));
      o := RemoveRecords();
      if o.Stopped? {
        return;
      }
      NoRecordsAreMarked();
      if disk == DELETED {
        return Done;
      }
      DirectoryRemovalKeeps(disk, past, supply, RemoveManifest);
      :- Persist(RemoveManifest);
      o := RemoveContent();
    }

    /** Deletes an ended dialogue, behind a tombstone. */
    method Delete() returns (o: Outcome, verdict: DeleteVerdict)
      requires Valid()
      modifies this
      ensures Ran() && past == old(past)
      ensures
        verdict ==
          if old(disk.manifest).None? then (if old(disk.tombstone) then DeletedBefore else NoSuchDialogue)
          else if old(disk.manifest.value.dialogue.phase).Terminal() then DeletedNow else StillRunning
      ensures verdict.NoSuchDialogue? || verdict.StillRunning? ==> o.Done? && disk == old(disk)
      ensures o.Done? && (verdict.DeletedBefore? || verdict.DeletedNow?) ==> disk == DELETED
      ensures o.Stopped? ==> disk == old(disk) || disk.tombstone
      ensures Steps(o) && Marks(o)
    {
      MarkedOrNot(disk.outbox, CommittedOf(disk.manifest));
      if disk.manifest.None? {
        if !disk.tombstone {
          return Done, NoSuchDialogue;
        }
        verdict := DeletedBefore;
        o := CompleteDeletion();
        return;
      }
      if !disk.manifest.value.dialogue.phase.Terminal() {
        return Done, StillRunning;
      }
      verdict := DeletedNow;
      TombstoneKeeps(disk, past, supply);
      :- Persist(PutTombstone);
      o := CompleteDeletion();
    }

    // ----- Restart

    /** Settles one staged message: activated if its transition was committed, otherwise aborted. */
    method SettleStaged(id: MessageId) returns (o: Outcome)
      requires Valid() && disk.manifest.Some? && id in disk.outbox && disk.outbox[id].status.Staged?
      modifies this
      ensures Ran() && past == old(past) && Tidied(old(disk), disk) && disk.manifest == old(disk.manifest)
      ensures disk.audit == old(disk.audit) || disk.audit == old(disk.audit) + [MessageQueued(id)]
      ensures Steps(o) && StaysHalfway() && OthersStay(old(disk.outbox), disk.outbox, id) && SettlesAt(o)
      ensures o.Done? ==>
        if disk.outbox[id].transition in past.committed then disk.outbox[id].status.Live() && disk.outbox[id].queuedAudited
        else disk.outbox[id].status.Aborted?
      ensures o.Done? ==>
        AtRestRecord(disk.outbox[id]) && (Uncommitted(old(disk.outbox)[id], disk.manifest.value.committed) ==> disk.outbox[id].status.Aborted?)
    {
      StagedIsCurrent(disk, past, supply, id);
      if disk.outbox[id].transition == disk.manifest.value.committed {
        o := SettleCommitted(id);
      } else {
        o := Abort(id);
      }
    }

    method Abort(id: MessageId) returns (o: Outcome)
      requires Valid() && disk.manifest.Some? && id in disk.outbox && disk.outbox[id].status.Staged?
      requires disk.outbox[id].transition !in past.committed
      modifies this
      ensures Ran() && past == old(past) && Tidied(old(disk), disk) && disk.manifest == old(disk.manifest)
      ensures disk.audit == old(disk.audit) || disk.audit == old(disk.audit) + [MessageQueued(id)]
      ensures Steps(o) && StaysHalfway() && OthersStay(old(disk.outbox), disk.outbox, id) && SettlesAt(o)
      ensures o.Done? ==> disk.outbox[id] == old(disk.outbox)[id].(status := Aborted)
    {
      NothingTidied(disk);
      AbortKeeps(disk, past, supply, id);
      MarkedOneStays(disk.outbox, disk.outbox[id := disk.outbox[id].(status := Aborted)], id, CommittedOf(disk.manifest));
      o := Persist(PutRecord(id, disk.outbox[id].(status := Aborted)));
      AbortTidies(old(disk), id);
    }

    method SettleCommitted(id: MessageId) returns (o: Outcome)
      requires Valid() && disk.manifest.Some? && id in disk.outbox && disk.outbox[id].status.Staged?
      requires disk.outbox[id].transition == disk.manifest.value.committed
      modifies this
      ensures Ran() && past == old(past) && Tidied(old(disk), disk) && disk.manifest == old(disk.manifest)
      ensures disk.audit == old(disk.audit) || disk.audit == old(disk.audit) + [MessageQueued(id)]
      ensures Steps(o) && StaysHalfway() && OthersStay(old(disk.outbox), disk.outbox, id) && SettlesAt(o)
      ensures o.Done? ==> disk.outbox[id].status.Live() && disk.outbox[id].queuedAudited
    {
      o := ApplySupersedes();
      WithdrawnStays(old(disk.outbox), disk.outbox, disk.manifest.value.supersedes, id);
      if o.Stopped? {
        return;
      }
      ghost var before := disk;
      o := ActivateRecord(id);
      OnlyRecordTidies(old(disk), before, disk, id);
      OthersStayToo(old(disk.outbox), before.outbox, disk.outbox, id);
    }

    /** The writes that settling one record takes: four, and those of the messages to supersede unless
        they are out of circulation already. */
    twostate predicate SettlesAt(o: Outcome)
      requires old(disk.manifest).Some? && disk.manifest.Some?
      reads this
    {
      var supersedes := old(disk.manifest).value.supersedes;
      var was, now := SupersedesDone(old(disk.manifest).value, old(disk.outbox)), SupersedesDone(disk.manifest.value, disk.outbox);
      && (was && o.Done? ==> now)
      && (old(Up()) && plan.After? && old(written) + 4 + (if was then 0 else |supersedes|) <= plan.writes ==>
            o.Done? && written <= old(written) + 4 + if was == now then 0 else |supersedes|)
    }

    /** Delivers one pending message, unless the committed transition supersedes it. */
    method SettlePending(id: MessageId) returns (o: Outcome)
      requires Valid() && disk.manifest.Some? && id in disk.outbox && disk.outbox[id].status.Pending?
      modifies this
      ensures Ran() && past == old(past) && Tidied(old(disk), disk) && disk.manifest == old(disk.manifest)
      ensures disk.audit == old(disk.audit) || disk.audit == old(disk.audit) + [MessageQueued(id)]
      ensures Steps(o) && StaysHalfway() && OthersStay(old(disk.outbox), disk.outbox, id) && SettlesAt(o)
      ensures o.Done? ==> AtRestRecord(disk.outbox[id])
    {
      o := ApplySupersedes();
      WithdrawnStays(old(disk.outbox), disk.outbox, disk.manifest.value.supersedes, id);
      if o.Stopped? || !disk.outbox[id].status.Pending? {
        return;
      }
      ghost var withdrawn := disk;
      o := LogAndDeliver(id);
      OnlyRecordTidies(old(disk), withdrawn, disk, id);
      OthersStayToo(old(disk.outbox), withdrawn.outbox, disk.outbox, id);
    }

    method LogAndDeliver(id: MessageId) returns (o: Outcome)
      requires Valid() && disk.manifest.Some? && id in disk.outbox && disk.outbox[id].status.Pending?
      requires SupersedesDone(disk.manifest.value, disk.outbox)
      modifies this
      ensures Ran() && past == old(past) && OnlyRecord(old(disk), disk, id) && Steps(o) && StaysHalfway() && Costs(o, 3)
      ensures o.Done? ==> disk.outbox[id].queuedAudited && disk.outbox[id].status.Live()
      ensures disk.audit == old(disk.audit) || disk.audit == old(disk.audit) + [MessageQueued(id)]
      ensures SupersedesDone(disk.manifest.value, disk.outbox)
    {
      ghost var committed := CommittedOf(disk.manifest);
      InUseIsCommitted(disk, past, supply, id);
      o := AuditQueuedOnce(id);
      MarkedOneStays(old(disk.outbox), disk.outbox, id, committed);
      if o.Stopped? {
        return;
      }
      ghost var audited := disk;
      o := AttemptDelivery(id);
      MarkedOneStays(audited.outbox, disk.outbox, id, committed);
    }

    /** Settles one outbox record of a dialogue that has a manifest. */
    method SettleRecord(id: MessageId) returns (o: Outcome)
      requires Valid() && disk.manifest.Some? && disk.manifest.value.pending == map[] && id in disk.outbox
      modifies this
      ensures Ran() && past.committed == old(past.committed) && Tidied(old(disk), disk)
      ensures Steps(o) && StaysHalfway() && OthersStay(old(disk.outbox), disk.outbox, id) && SettlesAt(o)
      ensures o.Done? ==> disk.manifest == old(disk.manifest)
      ensures o.Done? ==>
        AtRestRecord(disk.outbox[id]) && (Uncommitted(old(disk.outbox)[id], disk.manifest.value.committed) ==> disk.outbox[id].status.Aborted?)
      ensures OnlyLogs(old(disk.audit), disk.audit, {id} * Waiting(old(disk.outbox)))
    {
      NothingTidied(disk);
      match disk.outbox[id].status {
        case Claimed(_) | Delivered => o := SettleReceived(id);
        case Pending => o := SettleWaiting(id);
        case Staged => o := SettleWaiting(id);
        case _ =>
          o := Done;
          NothingLogged(disk.audit, {id} * Waiting(old(disk.outbox)));
      }
    }

    /** Settles one record that was received: it is acknowledged if its response is safe. */
    method SettleReceived(id: MessageId) returns (o: Outcome)
      requires Valid() && disk.manifest.Some? && disk.manifest.value.pending == map[] && id in disk.outbox
      requires disk.outbox[id].status.Claimed? || disk.outbox[id].status.Delivered?
      modifies this
      ensures Ran() && past.committed == old(past.committed) && Tidied(old(disk), disk)
      ensures Steps(o) && StaysHalfway() && OthersStay(old(disk.outbox), disk.outbox, id) && SettlesAt(o)
      ensures o.Done? ==> disk.manifest == old(disk.manifest)
      ensures o.Done? ==>
        AtRestRecord(disk.outbox[id]) && (Uncommitted(old(disk.outbox)[id], disk.manifest.value.committed) ==> disk.outbox[id].status.Aborted?)
      ensures OnlyLogs(old(disk.audit), disk.audit, {id} * Waiting(old(disk.outbox)))
    {
      var recovered;
      o, recovered := RecoverAcknowledgement(id);
      assert o.Done? ==> disk.manifest.value.pending == map[];
      MoreIds(old(disk.audit), disk.audit, {}, {id} * Waiting(old(disk.outbox)));
    }

    /** Settles one record that waits to be activated or received. */
    method SettleWaiting(id: MessageId) returns (o: Outcome)
      requires Valid() && disk.manifest.Some? && id in Waiting(disk.outbox)
      modifies this
      ensures Ran() && past == old(past) && Tidied(old(disk), disk) && disk.manifest == old(disk.manifest)
      ensures Steps(o) && StaysHalfway() && OthersStay(old(disk.outbox), disk.outbox, id) && SettlesAt(o)
      ensures o.Done? ==>
        AtRestRecord(disk.outbox[id]) && (Uncommitted(old(disk.outbox)[id], disk.manifest.value.committed) ==> disk.outbox[id].status.Aborted?)
      ensures OnlyLogs(old(disk.audit), disk.audit, {id} * Waiting(old(disk.outbox)))
    {
      if disk.outbox[id].status.Pending? {
        o := SettlePending(id);
      } else {
        o := SettleStaged(id);
      }
      OneLogged(old(disk.audit), disk.audit, id);
      assert {id} * Waiting(old(disk.outbox)) == {id};
    }

    /** Settles every outbox record. */
    method SettleAll() returns (o: Outcome)
      requires Valid() && disk.manifest.Some? && disk.manifest.value.pending == map[]
      modifies this
      ensures Ran() && past.committed == old(past.committed) && Tidied(old(disk), disk) && Steps(o) && StaysHalfway()
      ensures o.Done? ==> disk.manifest == old(disk.manifest)
      ensures o.Done? ==> SettledBut(old(disk.outbox), disk.outbox, disk.manifest.value.committed, {})
      ensures Costs(o, |old(disk.manifest).value.supersedes| + 4 * |old(disk.outbox).Keys|)
      ensures OnlyLogs(old(disk.audit), disk.audit, Waiting(old(disk.outbox)))
    {
      o := SettleEach();
      assert Reading(0);
    }

    /** The loop over the outbox records. */
    method SettleEach() returns (o: Outcome)
      requires Valid() && disk.manifest.Some? && disk.manifest.value.pending == map[]
      modifies this
      ensures Ran() && past.committed == old(past.committed) && disk.manifest.Some? && Steps(o) && StaysHalfway()
      ensures
        if o.Done? then disk.manifest == old(disk.manifest) && SettledSoFar(old(disk), disk, {})
        else SettledInPart(old(disk), disk)
      ensures Costs(o, |old(disk.manifest).value.supersedes| + 4 * |old(disk.outbox).Keys|)
    {
      ghost var first, spare := disk, |disk.manifest.value.supersedes|;
      var todo := disk.outbox.Keys;
      ghost var size, start := |todo|, written;
      ghost var affordable := Up() && plan.After? && start + spare + 4 * size <= plan.writes;
      NothingSettled(disk);
      while todo != {}
        invariant disk.manifest == first.manifest && todo <= disk.outbox.Keys && |todo| <= size
        invariant Ran() && past.committed == old(past.committed) && SettledSoFar(first, disk, todo) && Steps(Done) && StaysHalfway()
        invariant affordable ==>
          Up() && plan.After? && start + spare + 4 * size <= plan.writes &&
          written + 4 * |todo| <= start + 4 * size + if SupersedesDone(disk.manifest.value, disk.outbox) then spare else 0
        decreases |todo|
      {
        var id :| id in todo;
        :- SettleNext(id, first, todo);
        todo := todo - {id};
      }
      return Done;
    }

    /** One more of the records that are being settled. */
    method SettleNext(id: MessageId, ghost first: Disk, ghost todo: set<MessageId>) returns (o: Outcome)
      requires Valid() && disk.manifest.Some? && disk.manifest.value.pending == map[] && id in disk.outbox && id in todo
      requires SettledSoFar(first, disk, todo)
      modifies this
      ensures Ran() && past.committed == old(past.committed) && Steps(o) && StaysHalfway()
      ensures disk.manifest.Some? && disk.outbox.Keys == old(disk.outbox).Keys && SettlesAt(o)
      ensures if o.Done? then disk.manifest == old(disk.manifest) && SettledSoFar(first, disk, todo - {id}) else SettledInPart(first, disk)
    {
      assert Reading(0);
      ghost var before := disk;
      WaitingFromFirst(first.outbox, disk.outbox, disk.manifest.value.committed, todo, id);
      o := SettleRecord(id);
      TidiedTwice(first, before, disk);
      OnlyLogsTwice(first.audit, before.audit, disk.audit, Waiting(first.outbox), {id} * Waiting(before.outbox));
      if o.Done? {
        OneMoreSettled(first.outbox, before.outbox, disk.outbox, disk.manifest.value.committed, todo, id);
      }
    }

    /** Marks the records of a dialogue whose manifest was never saved. */
    method OrphanAll() returns (o: Outcome)
      requires Valid() && disk.manifest.None?
      modifies this
      ensures Ran() && past == old(past) && disk == old(disk).(outbox := disk.outbox)
      ensures o.Done? ==> forall id :: id in disk.outbox ==> disk.outbox[id].status.Orphaned?
      ensures disk.outbox.Keys == old(disk.outbox).Keys
      ensures Steps(o) && Costs(o, |old(disk.outbox).Keys|)
    {
      var todo := disk.outbox.Keys;
      ghost var size := |todo|;
      while todo != {}
        invariant Ran() && past == old(past) && disk == old(disk).(outbox := disk.outbox)
        invariant todo <= disk.outbox.Keys == old(disk.outbox).Keys && |todo| <= size
        invariant forall id :: id in disk.outbox && id !in todo ==> disk.outbox[id].status.Orphaned?
        invariant Steps(Done) && Costs(Done, size - |todo|)
        decreases |todo|
      {
        var id :| id in todo;
        OrphanKeeps(disk, past, supply, id);
        :- Persist(PutRecord(id, disk.outbox[id].(status := Orphaned)));
        todo := todo - {id};
      }
      return Done;
    }

    /** Logs every pending intent, and discards the final record of a completion that was not
        committed. */
    method SettleDirectory() returns (o: Outcome)
      requires Valid() && disk.manifest.Some?
      modifies this
      ensures Ran() && past == old(past)
      ensures disk == old(disk).(manifest := disk.manifest, audit := disk.audit, final := disk.final)
      ensures disk.manifest.Some? && disk.manifest.value == old(disk.manifest.value).(pending := disk.manifest.value.pending)
      ensures o.Done? ==> disk.manifest.value.pending == map[]
      ensures
        if old(disk.manifest.value.dialogue.phase).Terminal() then disk.final == old(disk.final)
        else disk.final == old(disk.final) || disk.final.None?
      ensures o.Done? && !old(disk.manifest.value.dialogue.phase).Terminal() ==> disk.final.None?
      ensures
        var pending := old(disk.manifest.value.pending);
        Steps(o) && Costs(o, IntentCount(pending, pending.Keys) + 2)
      ensures OnlyLogs(old(disk.audit), disk.audit, {})
    {
      var selected := disk.manifest.value.pending.Keys;
      assert selected * disk.manifest.value.pending.Keys == selected;
      o := ReconcileAudits(selected);
      DurablesLogged(old(disk.audit), disk.audit, old(disk.manifest.value.pending), selected);
      if o.Stopped? {
        return;
      }
      if disk.manifest.value.dialogue.phase.Terminal() {
        return Done;
      }
      FinalKeeps(disk, past, supply, RemoveFinal);
      o := Persist(RemoveFinal);
    }

    /** A new process: deletions, then the dialogue's directory, then its outbox. */
    method Restart(plan: StopPlan, tear: nat) returns (o: Outcome)
      requires Valid()
      modifies this
      ensures Ran() && past.committed == old(past.committed)
      ensures o.Done? ==> AtRest(disk)
      ensures old(disk.manifest).None? && !old(disk.tombstone) ==> disk == old(disk).(outbox := disk.outbox)
      ensures old(disk.manifest).None? && !old(disk.tombstone) && o.Done? ==>
        disk.outbox.Keys == old(disk.outbox).Keys && forall id :: id in disk.outbox ==> disk.outbox[id].status.Orphaned?
      ensures old(disk.manifest).Some? && !old(disk.tombstone) ==>
        && disk.manifest.Some? && disk.manifest.value.dialogue == old(disk.manifest.value.dialogue)
        && disk.manifest.value.committed == old(disk.manifest.value.committed)
        && disk.files == old(disk.files) && disk.outbox.Keys == old(disk.outbox.Keys) && !disk.tombstone
        && (disk.manifest.value.dialogue.phase.Terminal() ==> disk.final == old(disk.final))
        && OnlyLogs(old(disk.audit), disk.audit, Waiting(old(disk.outbox)))
        && (o.Done? ==> forall id :: id in disk.outbox && Uncommitted(old(disk.outbox)[id], disk.manifest.value.committed) ==>
              disk.outbox[id].status.Aborted?)
      ensures StaysHalfway() && (o.Stopped? ==> down || overlong.Some?) && (o.Done? ==> !down)
      ensures this.tear == tear && (o.Done? || tear == 0 ==> old(overlong).None? ==> overlong.None?)
      ensures old(overlong).None? && plan.Never? ==> o.Done? && this.plan == plan
      ensures old(overlong).None? && plan.After? && plan.writes >= RestartCost(old(disk)) ==> o.Done?
    {
      this.plan, this.tear, written, down := plan, tear, 0, false;
      if disk.tombstone {
        o := CompleteDeletion();
        return;
      }
      if disk.manifest.None? {
        o := OrphanAll();
        AbsentIsMarked(disk, past, supply);
        MarkedOrNot(disk.outbox, CommittedOf(disk.manifest));
        return;
      }
      o := SettleDirectory();
      MoreIds(old(disk.audit), disk.audit, {}, Waiting(disk.outbox));
      if o.Stopped? {
        return;
      }
      ghost var settled := disk;
      o := SettleAll();
      assert Marking(0);
      OnlyLogsTwice(old(disk.audit), settled.audit, disk.audit, Waiting(settled.outbox), Waiting(settled.outbox));
      if o.Done? {
        NothingStagedNothingSuperseded(disk, past, supply);
      }
    }

    /** The process goes on after a write that failed without ending it. */
    method Resume(plan: StopPlan, tear: nat)
      requires Valid()
      modifies this`plan, this`tear, this`written, this`down
      ensures Ran() && disk == old(disk) && past == old(past)
      ensures this.plan == plan && this.tear == tear && written == 0 && !down
    {
      this.plan, this.tear, written, down := plan, tear, 0, false;
    }
  }

  /** How many writes are enough for a restart: one for each record or file of a deletion, or for each
      record to orphan; otherwise one for each pending event, one for the manifest and one for the
      final record, one for each superseded message, and four for each record. */
  ghost function RestartCost(d: Disk): nat {
    if d.tombstone then |d.outbox.Keys| + |d.files.Keys| + 3
    else if d.manifest.None? then |d.outbox.Keys|
    else
      var m := d.manifest.value;
      IntentCount(m.pending, m.pending.Keys) + 2 + |m.supersedes| + 4 * |d.outbox.Keys|
  }
}
