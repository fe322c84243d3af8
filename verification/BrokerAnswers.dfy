/** What the operations on messages decide, said over statuses, times and recorded responses alone. */
module BrokerAnswers {
  import opened CouncilTypes
  import opened PhaseMachine
  import opened PhaseResults
  import opened BrokerDisk
  import opened BrokerFacts

  // ----- Which messages are settled

  /** The request was answered, or its round or its dialogue is over. */
  ghost predicate Outlived(d: Dialogue, id: MessageId, kind: Kind, round: nat) {
    || d.phase.Terminal() || round < d.round
    || exists s :: s in d.submissions && s.kind == kind && s.participant == id.recipient && s.round == (if PerRound(kind) then round else 0)
  }

  /** The recipient has received the message: it claimed it or it was delivered. */
  predicate Received(r: Record) {
    r.status.Claimed? || r.status.Delivered?
  }

  /** A received message that the broker may acknowledge by itself: a request that is outlived, or the notice
      of a cancellation; never the notice of a completion. */
  ghost predicate SettledAlready(d: Disk, id: MessageId)
    requires d.manifest.Some? && id in d.outbox
  {
    && Received(d.outbox[id])
    && match d.outbox[id].kind
       case CancellationNotice => true
       case CompletionNotice(_) => false
       case Request(kind) => Outlived(d.manifest.value.dialogue, id, kind, d.outbox[id].round)
  }

  lemma OutlivedIs(d: Dialogue, id: MessageId, kind: Kind, round: nat)
    ensures Outlived(d, id, kind, round) <==> Answered(d, id, kind, round) || d.phase.Terminal() || round < d.round
  {
    if exists s :: s in d.submissions && s.kind == kind && s.participant == id.recipient && s.round == (if PerRound(kind) then round else 0) {
      var s :| s in d.submissions && s.kind == kind && s.participant == id.recipient && s.round == (if PerRound(kind) then round else 0);
      assert s == Slot(kind, SlotRound(kind, round), id.recipient);
    }
  }

  lemma SettledIs(d: Disk, id: MessageId)
    requires d.manifest.Some? && id in d.outbox
    ensures SettledAlready(d, id) <==> MayRecover(d, id)
  {
    if d.outbox[id].kind.Request? {
      OutlivedIs(d.manifest.value.dialogue, id, d.outbox[id].kind.kind, d.outbox[id].round);
    }
  }

  /** A recovery acknowledges exactly the settled ones of the given messages, and leaves all others. */
  lemma RecoveryMeans(d: Disk, ids: set<MessageId>)
    requires d.manifest.Some?
    ensures Recovered(d, ids).Keys == d.outbox.Keys
    ensures forall id :: id in d.outbox ==>
      Recovered(d, ids)[id] == if id in ids && SettledAlready(d, id) then d.outbox[id].(status := Acknowledged) else d.outbox[id]
  {
    forall id | id in d.outbox ensures SettledAlready(d, id) <==> MayRecover(d, id) {
      SettledIs(d, id);
    }
  }

  // ----- Waiting for a message

  /** A message that its recipient may be given: nobody has it, or the claim on it is over. */
  predicate Available(r: Record, now: nat) {
    r.status == Pending || exists until: nat :: until <= now && r.status == Claimed(until)
  }

  /** A wait settles what is settled for the participant and then gives it one available message, claimed for
      two minutes, or none if there is none; nothing else changes. */
  ghost predicate Serves(d: Disk, outbox: map<MessageId, Record>, p: Participant, now: nat, message: Option<MessageId>)
    requires d.manifest.Some?
  {
    && outbox.Keys == d.outbox.Keys
    && (message.Some? ==>
          && message.value in d.outbox && message.value.recipient == p
          && (d.outbox[message.value].status.Pending? || (d.outbox[message.value].status.Claimed? && d.outbox[message.value].status.until <= now))
          && !SettledAlready(d, message.value))
    && (message.None? ==>
          forall id :: id in outbox && id.recipient == p ==>
            !outbox[id].status.Pending? && (outbox[id].status.Claimed? ==> outbox[id].status.until > now))
    && forall id :: id in d.outbox ==>
         outbox[id] ==
           if message == Some(id) then d.outbox[id].(status := Claimed(now + 120))
           else if id.recipient == p && SettledAlready(d, id) then d.outbox[id].(status := Acknowledged)
           else d.outbox[id]
  }

  lemma HandingServes(d: Disk, outbox: map<MessageId, Record>, past: Past, p: Participant, now: nat, message: Option<MessageId>)
    requires d.manifest.Some? && HandsOut(Recovered(d, MessagesFor(d.outbox, p)), outbox, past, p, now, message)
    ensures Serves(d, outbox, p, now, message)
  {
    var recovered := Recovered(d, MessagesFor(d.outbox, p));
    RecoveryMeans(d, MessagesFor(d.outbox, p));
    match message {
      case None =>
        forall id | id in outbox && id.recipient == p
          ensures !outbox[id].status.Pending? && (outbox[id].status.Claimed? ==> outbox[id].status.until > now)
        {
          assert id !in ClaimableFor(recovered, p, now);
        }
      case Some(id) => assert recovered[id] == d.outbox[id];
    }
  }

  // ----- Acknowledging a message

  /** Exactly when each answer to an acknowledgement is given. What was received is acknowledged if it is a
      notice, or a request that is outlived. */
  ghost predicate AcksRightly(d: Disk, p: Participant, uuid: nat, v: AckVerdict) {
    var id := MessageId(p, uuid);
    var known := id in d.outbox && d.manifest.Some? && p in d.manifest.value.dialogue.participants;
    && (v.UnknownMessage? <==> id !in d.outbox)
    && (v.UnknownDialogue? <==> id in d.outbox && d.manifest.None?)
    && (v.NotAParticipant? <==> id in d.outbox && d.manifest.Some? && p !in d.manifest.value.dialogue.participants)
    && (v.AlreadyAcknowledged? <==> known && d.outbox[id].status.Acknowledged?)
    && (v.AlreadySuperseded? <==> known && d.outbox[id].status.Superseded?)
    && (v.NotReceived? <==> known && d.outbox[id].status in {Staged, Pending, Aborted, Orphaned})
    && (v.AcknowledgedNow? <==>
          && known && Received(d.outbox[id])
          && (d.outbox[id].kind.Request? ==> Outlived(d.manifest.value.dialogue, id, d.outbox[id].kind.kind, d.outbox[id].round)))
    && (v.Unanswered? <==>
          && known && Received(d.outbox[id])
          && d.outbox[id].kind.Request? && !Outlived(d.manifest.value.dialogue, id, d.outbox[id].kind.kind, d.outbox[id].round))
  }

  /** A notice of a completion that is in circulation is of the completion there was. */
  lemma NoticeIsTrue(d: Disk, past: Past, supply: nat, id: MessageId)
    requires Inv(d, past, supply) && d.manifest.Some? && Committed(d.outbox, past, id) && d.outbox[id].kind.CompletionNotice?
    ensures d.manifest.value.dialogue.phase.Complete? && d.final == Some(d.outbox[id].kind.final)
  {
    assert Inside(d, supply, 0) && Within(0);
  }

  lemma AcknowledgingIsRight(d: Disk, past: Past, supply: nat, p: Participant, uuid: nat)
    requires Inv(d, past, supply)
    ensures AcksRightly(d, p, uuid, Acknowledging(d, p, uuid))
  {
    var id := MessageId(p, uuid);
    if id in d.outbox && d.manifest.Some? && Received(d.outbox[id]) {
      InUseIsCommitted(d, past, supply, id);
      if d.outbox[id].kind.CompletionNotice? {
        NoticeIsTrue(d, past, supply, id);
      }
      if d.outbox[id].kind.Request? {
        OutlivedIs(d.manifest.value.dialogue, id, d.outbox[id].kind.kind, d.outbox[id].round);
      }
    }
  }

  // ----- Delivering again

  /** A retry settles what is settled for the participant; the relay is tried with whatever else of its messages
      waits or was delivered, which ends waiting or delivered; nothing else changes. */
  ghost predicate Retries(d: Disk, outbox: map<MessageId, Record>, p: Participant, tried: set<MessageId>)
    requires d.manifest.Some?
  {
    && outbox.Keys == d.outbox.Keys
    && forall id :: id in d.outbox ==>
         var r := d.outbox[id];
         if id.recipient == p && SettledAlready(d, id) then outbox[id] == r.(status := Acknowledged)
         else if id.recipient == p && (r.status.Pending? || r.status.Delivered?)
         then id in tried && (outbox[id] == r.(status := Pending) || outbox[id] == r.(status := Delivered))
         else outbox[id] == r
  }

  lemma RedeliveringRetries(d: Disk, outbox: map<MessageId, Record>, p: Participant, tried: set<MessageId>)
    requires d.manifest.Some? && Redelivered(Recovered(d, MessagesFor(d.outbox, p)), outbox, p)
    requires
      var recovered := Recovered(d, MessagesFor(d.outbox, p));
      forall id :: id in recovered && id.recipient == p && Redeliverable(recovered[id]) ==> id in tried
    ensures Retries(d, outbox, p, tried)
  {
    RecoveryMeans(d, MessagesFor(d.outbox, p));
  }

  /** What becomes of a claim whose time is over: it is settled, or the message waits again. */
  ghost predicate Expires(d: Disk, outbox: map<MessageId, Record>, id: MessageId, now: nat)
    requires d.manifest.Some?
  {
    && outbox.Keys == d.outbox.Keys
    && forall x :: x in d.outbox ==>
         outbox[x] ==
           if x != id || !d.outbox[x].status.Claimed? || d.outbox[x].status.until > now then d.outbox[x]
           else d.outbox[x].(status := if SettledAlready(d, x) then Acknowledged else Pending)
  }
}
