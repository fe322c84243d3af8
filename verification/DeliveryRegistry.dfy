/** The OpenCode delivery registry: posts of messages to a session, joined while in flight, with
    states that are cleared, retained, discarded and expire. Between two awaits a call runs alone;
    each method is one such stretch, and they may follow one another in any order. */
module DeliveryRegistry {
  import opened CouncilTypes

  /** The session and participant a state belongs to. */
  type Identity = string
  type MessageId = string
  type StateId = nat
  type CallId = nat
  type TimerId = nat

  const DETACHED_TTL_MS := 300000

  /** The state of an identity; `owner` is the identity it was made for. */
  datatype DeliveryState = DeliveryState(
    owner: Identity,
    delivered: set<MessageId>,
    inFlight: map<MessageId, CallId>,
    clearWhenIdle: bool,
    expiresAt: Option<nat>,
    timer: Option<TimerId>)

  function Fresh(i: Identity): DeliveryState {
    DeliveryState(i, {}, map[], false, None, None)
  }

  datatype Progress = Running | Succeeded | Failed

  /** One post of one message, named after the call that started it. */
  datatype Attempt = Attempt(state: StateId, message: MessageId, progress: Progress)

  /** A call that waits for the post another call, or it itself, started. */
  datatype Call = Call(identity: Identity, attempt: CallId)

  datatype Timer = Timer(identity: Identity, state: StateId, due: nat)

  datatype Answer = AlreadyDelivered | Waits(call: CallId)

  /** The registry and what its calls still hold: the states that are gone from it stay in the pool,
      and `dropped` tells which of them a discard or a disposal took. */
  datatype Book = Book(
    states: map<Identity, StateId>,
    pool: map<StateId, DeliveryState>,
    attempts: map<CallId, Attempt>,
    calls: map<CallId, Call>,
    timers: map<TimerId, Timer>,
    dropped: set<StateId>,
    supply: nat,
    now: nat)

  const NO_BOOK := Book(map[], map[], map[], map[], map[], {}, 0, 0)

  predicate Expired(s: DeliveryState, now: nat) {
    s.clearWhenIdle && s.inFlight == map[] && s.expiresAt.Some? && s.expiresAt.value <= now
  }

  /** A cleared state that has no work in flight and whose time is over. */
  ghost predicate Spent(s: DeliveryState, now: nat) {
    s.clearWhenIdle && (forall m :: m !in s.inFlight) && exists due: nat :: s.expiresAt == Some(due) && due <= now
  }

  lemma SpentIsExpired(s: DeliveryState, now: nat)
    ensures Expired(s, now) <==> Spent(s, now)
  {
    if Spent(s, now) {
      assert s.inFlight == map[];
    }
  }

  /** What stays in flight when a post is taken out. */
  function Without(inFlight: map<MessageId, CallId>, a: CallId): (left: map<MessageId, CallId>)
    ensures forall m :: m in left <==> m in inFlight && inFlight[m] != a
    ensures forall m :: m in left ==> left[m] == inFlight[m]
  {
    map m | m in inFlight && inFlight[m] != a :: inFlight[m]
  }

  /** The state is the one its identity has. */
  predicate Current(b: Book, s: StateId) {
    s in b.pool && b.pool[s].owner in b.states && b.states[b.pool[s].owner] == s
  }

  ghost predicate Known(b: Book) {
    && (forall i :: i in b.states ==> b.states[i] in b.pool && b.states[i] !in b.dropped && b.pool[b.states[i]].owner == i)
    && (forall s :: s in b.pool ==> s < b.supply)
    && (forall s :: s in b.dropped ==> s < b.supply)
    && (forall a :: a in b.attempts ==> a < b.supply && b.attempts[a].state in b.pool)
    && (forall j :: j in b.calls ==>
          && j < b.supply && b.calls[j].attempt in b.attempts
          && b.attempts[b.calls[j].attempt].state in b.pool && b.pool[b.attempts[b.calls[j].attempt].state].owner == b.calls[j].identity)
    && (forall t :: t in b.timers ==> t < b.supply && b.timers[t].state in b.pool && b.pool[b.timers[t].state].owner == b.timers[t].identity)
  }

  /** A post under way is the one in flight for its message, whose state is still the one of its
      identity unless it was dropped on request. */
  ghost predicate Flying(b: Book) {
    forall a {:trigger b.attempts[a].progress.Running?} :: a in b.attempts && b.attempts[a].progress.Running? ==>
      var t := b.attempts[a];
      && t.state in b.pool
      && t.message in b.pool[t.state].inFlight && b.pool[t.state].inFlight[t.message] == a
      && t.message !in b.pool[t.state].delivered
      && (t.state in b.dropped || Current(b, t.state))
  }

  /** What is in flight was started by a call that still waits for it. */
  ghost predicate Waited(b: Book) {
    forall s, m :: s in b.pool && m in b.pool[s].inFlight ==>
      var a := b.pool[s].inFlight[m];
      && a in b.attempts && b.attempts[a].state == s && b.attempts[a].message == m
      && a in b.calls && b.calls[a].attempt == a
  }

  /** What was posted successfully is delivered. */
  ghost predicate Marked(b: Book) {
    forall a :: a in b.attempts && b.attempts[a].progress.Succeeded? ==>
      b.attempts[a].state in b.pool && b.attempts[a].message in b.pool[b.attempts[a].state].delivered
  }

  /** What was posted successfully was posted once. */
  ghost predicate PostedOnce(b: Book) {
    forall a, c :: a in b.attempts && c in b.attempts && b.attempts[a].progress.Succeeded? && b.attempts[c].progress.Succeeded?
                   && b.attempts[a].state == b.attempts[c].state && b.attempts[a].message == b.attempts[c].message
      ==> a == c
  }

  /** A live timer is the only one of its state, and due when the state expires. */
  ghost predicate Timed(b: Book) {
    && (forall t :: t in b.timers ==>
          && b.timers[t].state in b.pool
          && b.pool[b.timers[t].state].timer == Some(t) && b.pool[b.timers[t].state].expiresAt == Some(b.timers[t].due))
    && (forall s :: s in b.pool && b.pool[s].timer.Some? ==>
          var t := b.pool[s].timer.value;
          t < b.supply && (t in b.timers ==> b.timers[t].state == s))
    && (forall s :: s in b.pool && b.pool[s].expiresAt.Some? ==> b.pool[s].expiresAt.value <= b.now + DETACHED_TTL_MS)
  }

  /** Until when the state stays at least, if it is cleared now. */
  function Deadline(b: Book, s: StateId): nat
    requires s in b.pool
  {
    if b.pool[s].expiresAt.Some? then b.pool[s].expiresAt.value else b.now + DETACHED_TTL_MS
  }

  predicate Page(b: Book, n: int) { true }

  /** The invariant, each half opened at a page. */
  ghost predicate Posting(b: Book) {
    forall n {:trigger Page(b, n)} :: Page(b, n) ==> Known(b) && Flying(b) && Waited(b)
  }

  ghost predicate Keeping(b: Book) {
    forall n {:trigger Page(b, n)} :: Page(b, n) ==> Marked(b) && PostedOnce(b) && Timed(b)
  }

  ghost predicate Sound(b: Book) {
    Posting(b) && Keeping(b)
  }

  /** A cleared state without work has a live timer, so it goes when its time is up. */
  predicate AttendedAt(b: Book, s: StateId) {
    Current(b, s) && b.pool[s].clearWhenIdle && b.pool[s].inFlight == map[] ==>
      b.pool[s].timer.Some? && b.pool[s].timer.value in b.timers && b.timers[b.pool[s].timer.value].state == s
  }

  ghost predicate Attended(b: Book) {
    forall s :: s in b.pool ==> AttendedAt(b, s)
  }

  ghost predicate AttendedBut(b: Book, but: StateId) {
    forall s :: s in b.pool && s != but ==> AttendedAt(b, s)
  }

  /** A post keeps its purpose and, once settled, its outcome; what was delivered stays so; a time to live
      only gets longer; and short of a discard or a disposal a state leaves its identity only when it is
      cleared, without work and past its time. No post starts for a message that is delivered. */
  ghost predicate Follows(b: Book, next: Book) {
    && (forall a :: a in b.attempts ==>
          && a in next.attempts && next.attempts[a].state == b.attempts[a].state && next.attempts[a].message == b.attempts[a].message
          && (!b.attempts[a].progress.Running? ==> next.attempts[a] == b.attempts[a]))
    && (forall s :: s in b.pool ==>
          && s in next.pool && next.pool[s].owner == b.pool[s].owner && b.pool[s].delivered <= next.pool[s].delivered
          && Deadline(b, s) <= Deadline(next, s))
    && (forall i :: i in b.states && b.states[i] in b.pool && !(i in next.states && next.states[i] == b.states[i]) ==>
          b.states[i] in next.dropped || Spent(b.pool[b.states[i]], next.now))
    && (forall a :: a in next.attempts && a !in b.attempts && next.attempts[a].state in b.pool ==>
          next.attempts[a].message !in b.pool[next.attempts[a].state].delivered)
    && b.dropped <= next.dropped && b.now <= next.now
  }

  lemma Seal(b: Book)
    requires Known(b) && Flying(b) && Waited(b) && Marked(b) && PostedOnce(b) && Timed(b)
    ensures Sound(b)
  {
  }

  /** The states of some identities are gone, with timers of theirs or spent ones. */
  ghost predicate Left(b: Book, next: Book) {
    && next == b.(states := next.states, timers := next.timers, dropped := next.dropped) && b.dropped <= next.dropped
    && (forall i :: i in next.states ==> i in b.states && next.states[i] == b.states[i])
    && (forall i :: i in b.states && i !in next.states ==>
          b.states[i] in next.dropped || (b.states[i] in b.pool && Spent(b.pool[b.states[i]], b.now)))
    && (forall s :: s in next.dropped && s !in b.dropped ==>
          s in b.pool && forall i :: i in next.states && i in b.states ==> b.states[i] != s)
    && (forall t :: t in next.timers ==> t in b.timers && next.timers[t] == b.timers[t])
    && (forall t :: t in b.timers && t !in next.timers ==>
          var s := b.timers[t].state;
          s in b.pool && (!Current(next, s) || !b.pool[s].clearWhenIdle || b.pool[s].inFlight != map[]))
  }

  lemma StatesLeaveKnown(b: Book, next: Book)
    requires Known(b) && Flying(b) && Waited(b) && Left(b, next)
    ensures Known(next) && Flying(next) && Waited(next)
  {
  }

  lemma StatesLeaveKept(b: Book, next: Book)
    requires Known(b) && Marked(b) && PostedOnce(b) && Timed(b) && Attended(b) && Left(b, next)
    ensures Marked(next) && PostedOnce(next) && Timed(next) && Attended(next)
  {
  }

  lemma StatesLeave(b: Book, next: Book)
    requires Sound(b) && Attended(b) && Left(b, next)
    ensures Sound(next) && Follows(b, next) && Attended(next)
  {
    assert Page(b, 0);
    StatesLeaveKnown(b, next);
    StatesLeaveKept(b, next);
    Seal(next);
  }

  ghost predicate Came(b: Book, next: Book, i: Identity) {
    && i !in b.states
    && next == b.(states := b.states[i := b.supply], pool := b.pool[b.supply := Fresh(i)], supply := b.supply + 1)
  }

  lemma StateComesWaited(b: Book, next: Book, i: Identity)
    requires Known(b) && Waited(b) && Came(b, next, i)
    ensures Waited(next)
  {
  }

  lemma StateComesFlying(b: Book, next: Book, i: Identity)
    requires Known(b) && Flying(b) && Came(b, next, i)
    ensures Flying(next)
  {
  }

  lemma StateComesKnown(b: Book, next: Book, i: Identity)
    requires Known(b) && Flying(b) && Waited(b) && Came(b, next, i)
    ensures Known(next) && Flying(next) && Waited(next)
  {
    StateComesWaited(b, next, i);
    StateComesFlying(b, next, i);
  }

  lemma StateComesKept(b: Book, next: Book, i: Identity)
    requires Known(b) && Flying(b) && Marked(b) && PostedOnce(b) && Timed(b) && Came(b, next, i)
    ensures Marked(next) && PostedOnce(next) && Timed(next)
  {
  }

  lemma StateComes(b: Book, next: Book, i: Identity)
    requires Sound(b) && Came(b, next, i)
    ensures Sound(next) && Follows(b, next)
  {
    assert Page(b, 0);
    StateComesKnown(b, next, i);
    StateComesKept(b, next, i);
    Seal(next);
  }

  ghost predicate Started(b: Book, next: Book, i: Identity, m: MessageId) {
    && i in b.states && b.states[i] in b.pool
    && var s, j := b.states[i], b.supply;
    && m !in b.pool[s].delivered && m !in b.pool[s].inFlight
    && next == b.(attempts := b.attempts[j := Attempt(s, m, Running)], calls := b.calls[j := Call(i, j)],
                  pool := b.pool[s := b.pool[s].(inFlight := b.pool[s].inFlight[m := j])], supply := j + 1)
  }

  lemma PostStartsWaited(b: Book, next: Book, i: Identity, m: MessageId)
    requires Known(b) && Waited(b) && Started(b, next, i, m)
    ensures Waited(next)
  {
  }

  lemma PostStartsFollows(b: Book, next: Book, i: Identity, m: MessageId)
    requires b.supply !in b.attempts && Started(b, next, i, m)
    ensures Follows(b, next)
  {
  }

  lemma PostStartsFlying(b: Book, next: Book, i: Identity, m: MessageId)
    requires Known(b) && Flying(b) && Started(b, next, i, m)
    ensures Flying(next)
  {
  }

  lemma PostStartsKnown(b: Book, next: Book, i: Identity, m: MessageId)
    requires Known(b) && Flying(b) && Waited(b) && Started(b, next, i, m)
    ensures Known(next) && Flying(next) && Waited(next)
  {
    PostStartsFlying(b, next, i, m);
    PostStartsWaited(b, next, i, m);
  }

  lemma PostStartsKept(b: Book, next: Book, i: Identity, m: MessageId)
    requires Known(b) && Flying(b) && Marked(b) && PostedOnce(b) && Timed(b) && Started(b, next, i, m)
    ensures Marked(next) && PostedOnce(next) && Timed(next)
  {
  }

  lemma PostStarts(b: Book, next: Book, i: Identity, m: MessageId)
    requires Sound(b) && Started(b, next, i, m)
    ensures Sound(next) && Follows(b, next)
  {
    assert Page(b, 0);
    PostStartsKnown(b, next, i, m);
    PostStartsKept(b, next, i, m);
    Seal(next);
    PostStartsFollows(b, next, i, m);
  }

  ghost predicate Joined(b: Book, next: Book, i: Identity, a: CallId) {
    && a in b.attempts && b.attempts[a].state in b.pool && b.pool[b.attempts[a].state].owner == i
    && next == b.(calls := b.calls[b.supply := Call(i, a)], supply := b.supply + 1)
  }

  lemma CallJoinsKnown(b: Book, next: Book, i: Identity, a: CallId)
    requires Known(b) && Flying(b) && Waited(b) && Joined(b, next, i, a)
    ensures Known(next) && Flying(next) && Waited(next)
  {
  }

  lemma CallJoinsKept(b: Book, next: Book, i: Identity, a: CallId)
    requires Known(b) && Flying(b) && Marked(b) && PostedOnce(b) && Timed(b) && Joined(b, next, i, a)
    ensures Marked(next) && PostedOnce(next) && Timed(next)
  {
  }

  lemma CallJoins(b: Book, next: Book, i: Identity, a: CallId)
    requires Sound(b) && Joined(b, next, i, a)
    ensures Sound(next) && Follows(b, next)
  {
    assert Page(b, 0);
    CallJoinsKnown(b, next, i, a);
    CallJoinsKept(b, next, i, a);
    Seal(next);
  }

  ghost predicate Settled(b: Book, next: Book, a: CallId, success: bool) {
    && a in b.attempts && b.attempts[a].progress.Running? && b.attempts[a].state in b.pool
    && var t := b.attempts[a];
    && next.attempts == b.attempts[a := t.(progress := if success then Succeeded else Failed)]
    && next.pool == (if success then b.pool[t.state := b.pool[t.state].(delivered := b.pool[t.state].delivered + {t.message})] else b.pool)
    && next == b.(attempts := next.attempts, pool := next.pool)
  }

  lemma PostSettlesWaited(b: Book, next: Book, a: CallId, success: bool)
    requires Known(b) && Waited(b) && Settled(b, next, a, success)
    ensures Known(next) && Waited(next)
  {
  }

  lemma PostSettlesFollows(b: Book, next: Book, a: CallId, success: bool)
    requires Settled(b, next, a, success)
    ensures Follows(b, next)
  {
  }

  lemma PostSettlesKnown(b: Book, next: Book, a: CallId, success: bool)
    requires Known(b) && Flying(b) && Waited(b) && Settled(b, next, a, success)
    ensures Known(next) && Flying(next) && Waited(next)
  {
    PostSettlesWaited(b, next, a, success);
  }

  lemma PostSettlesKept(b: Book, next: Book, a: CallId, success: bool)
    requires Known(b) && Flying(b) && Marked(b) && PostedOnce(b) && Timed(b) && Settled(b, next, a, success)
    ensures Marked(next) && PostedOnce(next) && Timed(next)
  {
  }

  lemma PostSettles(b: Book, next: Book, a: CallId, success: bool)
    requires Sound(b) && Settled(b, next, a, success)
    ensures Sound(next) && Follows(b, next)
  {
    assert Page(b, 0);
    PostSettlesKnown(b, next, a, success);
    PostSettlesKept(b, next, a, success);
    Seal(next);
    PostSettlesFollows(b, next, a, success);
  }

  /** The post is taken out of flight only where it is the one in flight. */
  ghost predicate TakenOut(b: Book, next: Book, j: CallId) {
    && j in b.calls && b.calls[j].attempt in b.attempts && !b.attempts[b.calls[j].attempt].progress.Running?
    && var a := b.calls[j].attempt;
    && var s := b.attempts[a].state;
    && s in b.pool
    && next == b.(calls := b.calls - {j}, pool := b.pool[s := b.pool[s].(inFlight := Without(b.pool[s].inFlight, a))])
  }

  lemma PostLeavesKnown(b: Book, next: Book, j: CallId)
    requires Known(b) && Flying(b) && Waited(b) && TakenOut(b, next, j)
    ensures Known(next) && Flying(next) && Waited(next)
  {
  }

  lemma PostLeavesKept(b: Book, next: Book, j: CallId)
    requires Known(b) && Flying(b) && Marked(b) && PostedOnce(b) && Timed(b) && TakenOut(b, next, j)
    ensures Marked(next) && PostedOnce(next) && Timed(next)
  {
  }

  lemma PostLeavesFollows(b: Book, next: Book, j: CallId)
    requires TakenOut(b, next, j)
    ensures Follows(b, next)
  {
  }

  lemma PostLeaves(b: Book, next: Book, j: CallId)
    requires Sound(b) && TakenOut(b, next, j)
    ensures Sound(next) && Follows(b, next)
  {
    assert Page(b, 0);
    PostLeavesKnown(b, next, j);
    PostLeavesKept(b, next, j);
    Seal(next);
    PostLeavesFollows(b, next, j);
  }

  /** A state's time to live is set or cleared. */
  ghost predicate Retimed(b: Book, next: Book, s: StateId) {
    && s in b.pool && s in next.pool && b.supply <= next.supply
    && next == b.(pool := b.pool[s := next.pool[s]], timers := next.timers, supply := next.supply)
    && next.pool[s] == b.pool[s].(clearWhenIdle := next.pool[s].clearWhenIdle, expiresAt := next.pool[s].expiresAt, timer := next.pool[s].timer)
    && (next.pool[s].timer.Some? ==> next.pool[s].timer.value in next.timers && next.pool[s].timer.value !in b.timers)
    && (forall t :: t in next.timers ==>
          if t in b.timers then next.timers[t] == b.timers[t] && b.timers[t].state != s
          else && b.supply <= t < next.supply && next.timers[t].state == s && next.timers[t].identity == b.pool[s].owner
               && next.pool[s].timer == Some(t) && next.pool[s].expiresAt == Some(next.timers[t].due))
    && (next.pool[s].expiresAt.Some? ==> next.pool[s].expiresAt.value == b.now + DETACHED_TTL_MS)
  }

  lemma StateTimedFollows(b: Book, next: Book, s: StateId)
    requires Timed(b) && Retimed(b, next, s)
    ensures Follows(b, next)
  {
  }

  lemma StateTimedKnown(b: Book, next: Book, s: StateId)
    requires Known(b) && Flying(b) && Waited(b) && Retimed(b, next, s)
    ensures Known(next) && Flying(next) && Waited(next)
  {
  }

  lemma StateTimedKept(b: Book, next: Book, s: StateId)
    requires Known(b) && Flying(b) && Marked(b) && PostedOnce(b) && Timed(b) && Retimed(b, next, s)
    ensures Marked(next) && PostedOnce(next) && Timed(next)
  {
  }

  lemma StateTimed(b: Book, next: Book, s: StateId)
    requires Sound(b) && Retimed(b, next, s)
    ensures Sound(next) && Follows(b, next)
  {
    assert Page(b, 0);
    StateTimedKnown(b, next, s);
    StateTimedKept(b, next, s);
    Seal(next);
    StateTimedFollows(b, next, s);
  }

  ghost predicate Cleared(b: Book, next: Book, s: StateId) {
    s in b.pool && next == b.(pool := b.pool[s := b.pool[s].(clearWhenIdle := true)])
  }

  lemma StateClearedFollows(b: Book, next: Book, s: StateId)
    requires Cleared(b, next, s)
    ensures Follows(b, next)
  {
  }

  lemma StateClearedKnown(b: Book, next: Book, s: StateId)
    requires Known(b) && Flying(b) && Waited(b) && Cleared(b, next, s)
    ensures Known(next) && Flying(next) && Waited(next)
  {
  }

  lemma StateClearedKept(b: Book, next: Book, s: StateId)
    requires Known(b) && Flying(b) && Marked(b) && PostedOnce(b) && Timed(b) && Cleared(b, next, s)
    ensures Marked(next) && PostedOnce(next) && Timed(next)
  {
  }

  lemma StateCleared(b: Book, next: Book, s: StateId)
    requires Sound(b) && Cleared(b, next, s)
    ensures Sound(next) && Follows(b, next)
  {
    assert Page(b, 0);
    StateClearedKnown(b, next, s);
    StateClearedKept(b, next, s);
    Seal(next);
    StateClearedFollows(b, next, s);
  }

  /** Unless the state that changes is idle or has been given another timer, all stay attended. */
  lemma PoolAttended(b: Book, next: Book, s: StateId)
    requires Timed(b) && AttendedBut(b, s) && s in next.pool
    requires next.states == b.states && next.pool == b.pool[s := next.pool[s]]
    requires s in b.pool ==> next.pool[s].owner == b.pool[s].owner
    requires forall t :: t in b.timers ==> if t in next.timers then next.timers[t] == b.timers[t] else b.timers[t].state == s
    ensures AttendedBut(next, s)
    ensures AttendedAt(next, s) ==> Attended(next)
  {
  }

  lemma TimePasses(b: Book, next: Book)
    requires Sound(b) && b.now <= next.now && next == b.(now := next.now)
    ensures Sound(next) && Follows(b, next)
  {
    assert Page(b, 0);
  }

  lemma FollowsOn(b: Book, mid: Book, next: Book)
    requires Follows(b, mid) && Follows(mid, next) && Sound(b)
    requires forall i :: i in mid.states && i in b.states && mid.states[i] == b.states[i] && b.states[i] in b.pool ==>
      (i in next.states && next.states[i] == mid.states[i]) || b.states[i] in next.dropped
    ensures Follows(b, next)
  {
  }

  lemma StateKnown(b: Book, i: Identity)
    requires Sound(b) && i in b.states
    ensures b.states[i] in b.pool && b.pool[b.states[i]].owner == i && b.states[i] !in b.dropped && Current(b, b.states[i])
    ensures forall k :: k in b.states && b.states[k] == b.states[i] ==> k == i
  {
    assert Page(b, 0);
  }

  lemma SupplyFresh(b: Book)
    requires Sound(b)
    ensures b.supply !in b.pool && b.supply !in b.dropped && b.supply !in b.attempts && b.supply !in b.calls && b.supply !in b.timers
  {
    assert Page(b, 0);
  }

  lemma FlightKnown(b: Book, s: StateId, m: MessageId)
    requires Sound(b) && s in b.pool && m in b.pool[s].inFlight
    ensures
      var a := b.pool[s].inFlight[m];
      a in b.attempts && b.attempts[a].state == s && b.attempts[a].message == m && a < b.supply && a in b.calls
  {
    assert Page(b, 0);
  }

  lemma RunningKnown(b: Book, a: CallId)
    requires Sound(b) && a in b.attempts && b.attempts[a].progress.Running?
    ensures
      var s, m := b.attempts[a].state, b.attempts[a].message;
      && s in b.pool && m in b.pool[s].inFlight && b.pool[s].inFlight[m] == a && m !in b.pool[s].delivered
      && (s in b.dropped || Current(b, s))
  {
    assert Page(b, 0);
    assert b.attempts[a].progress.Running?;
  }

  lemma CallKnown(b: Book, j: CallId)
    requires Sound(b) && j in b.calls
    ensures
      var a := b.calls[j].attempt;
      && a in b.attempts && b.attempts[a].state in b.pool && b.pool[b.attempts[a].state].owner == b.calls[j].identity
      && forall m :: m in b.pool[b.attempts[a].state].inFlight && b.pool[b.attempts[a].state].inFlight[m] == a ==> m == b.attempts[a].message
  {
    assert Page(b, 0);
  }

  lemma TimerKnown(b: Book, s: StateId)
    requires Sound(b) && s in b.pool
    ensures forall t :: t in b.timers && b.timers[t].state == s ==>
      b.pool[s].timer == Some(t) && b.pool[s].expiresAt == Some(b.timers[t].due) && b.pool[s].owner == b.timers[t].identity
    ensures b.pool[s].timer.Some? && b.pool[s].timer.value in b.timers ==> b.timers[b.pool[s].timer.value].state == s
  {
    assert Page(b, 0);
  }

  lemma TimedNow(b: Book)
    requires Sound(b)
    ensures Timed(b)
  {
    assert Page(b, 0);
  }

  class Registry {
    var states: map<Identity, StateId>
    var pool: map<StateId, DeliveryState>
    var attempts: map<CallId, Attempt>
    var calls: map<CallId, Call>
    var timers: map<TimerId, Timer>
    var supply: nat
    var now: nat
    ghost var dropped: set<StateId>

    ghost function Whole(): Book
      reads this
    {
      Book(states, pool, attempts, calls, timers, dropped, supply, now)
    }

    ghost predicate Valid()
      reads this
    {
      Sound(Whole()) && Attended(Whole())
    }

    constructor ()
      ensures Valid() && Whole() == NO_BOOK
    {
      states, pool, attempts, calls, timers, supply, now, dropped := map[], map[], map[], map[], map[], 0, 0, {};
    }

    /** Removes the state of an identity, with its timer. */
    method RemoveState(i: Identity, ghost drop: bool)
      requires Valid() && i in states && states[i] in pool
      requires drop || Spent(pool[states[i]], now)
      modifies this`states, this`timers, this`dropped
      ensures Valid() && Follows(old(Whole()), Whole()) && states == old(states) - {i}
      ensures dropped == old(dropped) + if drop then {old(states)[i]} else {}
    {
      StateKnown(Whole(), i);
      TimerKnown(Whole(), states[i]);
      if pool[states[i]].timer.Some? {
        timers := timers - {pool[states[i]].timer.value};
      }
      if drop {
        dropped := dropped + {states[i]};
      }
      states := states - {i};
      StatesLeave(old(Whole()), Whole());
    }

    method NewState(i: Identity) returns (s: StateId)
      requires Valid() && i !in states
      modifies this`states, this`pool, this`supply
      ensures Valid() && Follows(old(Whole()), Whole())
      ensures s !in old(pool) && states == old(states)[i := s] && pool == old(pool)[s := Fresh(i)]
    {
      s := supply;
      SupplyFresh(Whole());
      supply := supply + 1;
      pool := pool[s := Fresh(i)];
      states := states[i := s];
      StateComes(old(Whole()), Whole(), i);
    }

    /** The state of an identity, replaced by a new one once it has expired. */
    method StateOf(i: Identity) returns (s: StateId)
      requires Valid()
      modifies this`states, this`pool, this`timers, this`supply, this`dropped
      ensures Valid() && Follows(old(Whole()), Whole()) && dropped == old(dropped)
      ensures i in states && states[i] == s && s in pool && pool[s].owner == i
      ensures
        if i in old(states) && old(states)[i] in old(pool) && !Spent(old(pool)[old(states)[i]], now)
        then states == old(states) && pool == old(pool) && timers == old(timers)
        else s !in old(pool) && states == old(states)[i := s] && pool == old(pool)[s := Fresh(i)]
    {
      if i in states {
        StateKnown(Whole(), i);
        SpentIsExpired(pool[states[i]], now);
        if !Expired(pool[states[i]], now) {
          return states[i];
        }
        RemoveState(i, false);
      }
      ghost var mid := Whole();
      s := NewState(i);
      FollowsOn(old(Whole()), mid, Whole());
    }

    /** The first stretch of a delivery: up to waiting for the post, which it starts unless the
        message is delivered or in flight. */
    method Deliver(i: Identity, m: MessageId) returns (answer: Answer)
      requires Valid()
      modifies this`states, this`pool, this`timers, this`supply, this`attempts, this`calls, this`dropped
      ensures Valid() && Follows(old(Whole()), Whole()) && i in states && states[i] in pool && dropped == old(dropped)
      ensures answer.AlreadyDelivered? <==> m in pool[states[i]].delivered
      ensures
        match answer
        case AlreadyDelivered => attempts == old(attempts) && calls == old(calls)
        case Waits(j) =>
          && j !in old(calls) && m in pool[states[i]].inFlight && calls == old(calls)[j := Call(i, pool[states[i]].inFlight[m])]
          && attempts == if calls[j].attempt == j then old(attempts)[j := Attempt(states[i], m, Running)] else old(attempts)
    {
      var s := StateOf(i);
      if m in pool[s].delivered {
        return AlreadyDelivered;
      }
      ghost var mid := Whole();
      var j := Await(i, s, m);
      FollowsOn(old(Whole()), mid, Whole());
      return Waits(j);
    }

    /** Joins the post in flight for a message, or starts one. */
    method Await(i: Identity, s: StateId, m: MessageId) returns (j: CallId)
      requires Valid() && i in states && states[i] == s && s in pool && pool[s].owner == i && m !in pool[s].delivered
      modifies this`pool, this`supply, this`attempts, this`calls
      ensures Valid() && Follows(old(Whole()), Whole()) && s in pool
      ensures j !in old(calls) && pool == old(pool)[s := old(pool)[s].(inFlight := pool[s].inFlight)]
      ensures m in pool[s].inFlight && calls == old(calls)[j := Call(i, pool[s].inFlight[m])]
      ensures
        if m in old(pool)[s].inFlight
        then pool[s].inFlight == old(pool)[s].inFlight && attempts == old(attempts) && calls[j].attempt != j
        else pool[s].inFlight == old(pool)[s].inFlight[m := j] && attempts == old(attempts)[j := Attempt(s, m, Running)]
    {
      j := supply;
      SupplyFresh(Whole());
      supply := supply + 1;
      if m in pool[s].inFlight {
        FlightKnown(old(Whole()), s, m);
        calls := calls[j := Call(i, pool[s].inFlight[m])];
        CallJoins(old(Whole()), Whole(), i, pool[s].inFlight[m]);
      } else {
        attempts := attempts[j := Attempt(s, m, Running)];
        pool := pool[s := pool[s].(inFlight := pool[s].inFlight[m := j])];
        calls := calls[j := Call(i, j)];
        PostStarts(old(Whole()), Whole(), i, m);
        TimedNow(old(Whole()));
        assert m in pool[s].inFlight;
        PoolAttended(old(Whole()), Whole(), s);
      }
    }

    /** The post of an attempt ends. */
    method Settle(a: CallId, success: bool)
      requires Valid() && a in attempts && attempts[a].progress.Running?
      modifies this`attempts, this`pool
      ensures Valid() && Follows(old(Whole()), Whole())
      ensures attempts == old(attempts)[a := old(attempts)[a].(progress := if success then Succeeded else Failed)]
      ensures
        var s := old(attempts)[a].state;
        s in old(pool) &&
        pool == if success then old(pool)[s := old(pool)[s].(delivered := old(pool)[s].delivered + {old(attempts)[a].message})]
                else old(pool)
    {
      var s, m := attempts[a].state, attempts[a].message;
      RunningKnown(Whole(), a);
      TimedNow(Whole());
      attempts := attempts[a := attempts[a].(progress := if success then Succeeded else Failed)];
      if success {
        pool := pool[s := pool[s].(delivered := pool[s].delivered + {m})];
      }
      PostSettles(old(Whole()), Whole(), a, success);
      PoolAttended(old(Whole()), Whole(), s);
    }

    /** A waiting call takes its settled post out of flight, unless a newer one has taken its place. */
    method TakeOut(j: CallId) returns (s: StateId)
      requires Valid() && j in calls && calls[j].attempt in attempts && !attempts[calls[j].attempt].progress.Running?
      modifies this`pool, this`calls
      ensures Sound(Whole()) && AttendedBut(Whole(), s) && Follows(old(Whole()), Whole()) && calls == old(calls) - {j}
      ensures
        var a := old(calls)[j].attempt;
        && s == attempts[a].state && s in old(pool) && old(pool)[s].owner == old(calls)[j].identity
        && pool == old(pool)[s := old(pool)[s].(inFlight := Without(old(pool)[s].inFlight, a))]
    {
      CallKnown(Whole(), j);
      TimedNow(Whole());
      var a := calls[j].attempt;
      var m := attempts[a].message;
      s := attempts[a].state;
      calls := calls - {j};
      if m in pool[s].inFlight && pool[s].inFlight[m] == a {
        pool := pool[s := pool[s].(inFlight := pool[s].inFlight - {m})];
      }
      assert pool[s].inFlight == Without(old(pool)[s].inFlight, a);
      PostLeaves(old(Whole()), Whole(), j);
      PoolAttended(old(Whole()), Whole(), s);
    }

    /** A waiting call goes on behind its settled post, and reports whether it had joined. */
    method Resume(j: CallId) returns (duplicate: bool)
      requires Valid() && j in calls && calls[j].attempt in attempts && !attempts[calls[j].attempt].progress.Running?
      modifies this`pool, this`timers, this`supply, this`calls
      ensures Valid() && Follows(old(Whole()), Whole()) && calls == old(calls) - {j} && (duplicate <==> old(calls)[j].attempt != j)
      ensures
        var a := old(calls)[j].attempt;
        var s := attempts[a].state;
        && s in pool && s in old(pool)
        && pool == old(pool)[s := pool[s]] && pool[s].delivered == old(pool)[s].delivered
        && pool[s].inFlight == Without(old(pool)[s].inFlight, a)
    {
      var i := calls[j].identity;
      duplicate := calls[j].attempt != j;
      var s := TakeOut(j);
      if pool[s].clearWhenIdle && pool[s].inFlight == map[] {
        ghost var mid := Whole();
        ExpireDetached(i, s);
        FollowsOn(old(Whole()), mid, Whole());
      } else {
        assert AttendedAt(Whole(), s);
      }
    }

    /** Gives a cleared state its time to live. */
    method ExpireDetached(i: Identity, s: StateId)
      requires Sound(Whole()) && s in pool && pool[s].owner == i && AttendedBut(Whole(), s)
      modifies this`pool, this`timers, this`supply
      ensures Valid() && Follows(old(Whole()), Whole()) && s in pool && states == old(states)
      ensures pool == old(pool)[s := old(pool)[s].(expiresAt := pool[s].expiresAt, timer := pool[s].timer)]
      ensures Current(Whole(), s) && pool[s].clearWhenIdle ==> pool[s].expiresAt == Some(now + DETACHED_TTL_MS)
    {
      if !(i in states && states[i] == s) || !pool[s].clearWhenIdle {
        assert AttendedAt(Whole(), s);
        return;
      }
      TimerKnown(Whole(), s);
      TimedNow(Whole());
      SupplyFresh(Whole());
      if pool[s].timer.Some? {
        timers := timers - {pool[s].timer.value};
      }
      var timer, due := supply, now + DETACHED_TTL_MS;
      supply := supply + 1;
      timers := timers[timer := Timer(i, s, due)];
      pool := pool[s := pool[s].(expiresAt := Some(due), timer := Some(timer))];
      StateTimed(old(Whole()), Whole(), s);
      PoolAttended(old(Whole()), Whole(), s);
    }

    method Clear(i: Identity)
      requires Valid()
      modifies this`pool, this`timers, this`supply
      ensures Valid() && Follows(old(Whole()), Whole())
      ensures i !in states ==> pool == old(pool)
      ensures i in states ==>
        var s := states[i];
        && s in pool && s in old(pool) && pool[s].clearWhenIdle
        && pool == old(pool)[s := old(pool)[s].(clearWhenIdle := true, expiresAt := pool[s].expiresAt, timer := pool[s].timer)]
        && (pool[s].inFlight == map[] ==> pool[s].expiresAt == Some(now + DETACHED_TTL_MS))
    {
      if i !in states {
        return;
      }
      StateKnown(Whole(), i);
      TimedNow(Whole());
      var s := states[i];
      TimerKnown(Whole(), s);
      pool := pool[s := pool[s].(clearWhenIdle := true)];
      ghost var mid := Whole();
      StateCleared(old(Whole()), mid, s);
      PoolAttended(old(Whole()), mid, s);
      if pool[s].inFlight == map[] {
        ExpireDetached(i, s);
        FollowsOn(old(Whole()), mid, Whole());
      }
    }

    /** Keeps the state of an identity for good, and tells whether it is the one it had. */
    method Retain(i: Identity) returns (kept: bool)
      requires Valid()
      modifies this`states, this`pool, this`timers, this`supply, this`dropped
      ensures Valid() && Follows(old(Whole()), Whole()) && dropped == old(dropped)
      ensures i in states && states[i] in pool && !pool[states[i]].clearWhenIdle && pool[states[i]].expiresAt == None
      ensures kept <==> i in old(states) && states[i] == old(states)[i]
    {
      var before := if i in states then Some(states[i]) else None;
      var s := StateOf(i);
      Keep(s);
      kept := before == Some(s);
    }

    method Keep(s: StateId)
      requires Valid() && s in pool
      modifies this`pool, this`timers
      ensures Valid() && Follows(old(Whole()), Whole())
      ensures pool == old(pool)[s := old(pool)[s].(timer := None, expiresAt := None, clearWhenIdle := false)]
      ensures forall t :: t in timers ==> t in old(timers)
    {
      TimerKnown(Whole(), s);
      TimedNow(Whole());
      if pool[s].timer.Some? {
        timers := timers - {pool[s].timer.value};
      }
      pool := pool[s := pool[s].(timer := None, expiresAt := None, clearWhenIdle := false)];
      StateTimed(old(Whole()), Whole(), s);
      assert AttendedBut(old(Whole()), s);
      PoolAttended(old(Whole()), Whole(), s);
    }

    method Discard(i: Identity)
      requires Valid()
      modifies this`states, this`timers, this`dropped
      ensures Valid() && Follows(old(Whole()), Whole())
      ensures states == old(states) - {i} && dropped == old(dropped) + if i in old(states) then {old(states)[i]} else {}
    {
      if i in states {
        StateKnown(Whole(), i);
        RemoveState(i, true);
      }
    }

    /** The next state of a disposal goes. */
    method DropNext(ghost first: Book) returns (i: Identity)
      requires Valid() && states != map[] && Sound(first) && Follows(first, Whole())
      requires forall i :: i in states ==> i in first.states && states[i] == first.states[i]
      modifies this`states, this`timers, this`dropped
      ensures Valid() && Follows(first, Whole())
      ensures i in old(states) && states == old(states) - {i} && dropped == old(dropped) + {old(states)[i]}
    {
      ghost var mid := Whole();
      i :| i in states;
      StateKnown(Whole(), i);
      RemoveState(i, true);
      FollowsOn(first, mid, Whole());
    }

    method Dispose()
      requires Valid()
      modifies this`states, this`timers, this`dropped
      ensures Valid() && Follows(old(Whole()), Whole())
      ensures states == map[] && dropped == old(dropped) + old(states).Values
    {
      ghost var first := Whole();
      while states != map[]
        invariant Valid() && Follows(first, Whole())
        invariant forall i :: i in states ==> i in first.states && states[i] == first.states[i]
        invariant dropped == first.dropped + set i | i in first.states && i !in states :: first.states[i]
        decreases |states|
      {
        var i := DropNext(first);
      }
    }

    /** The timer of a state goes off: a state that is still current, cleared and idle goes. */
    method Fire(t: TimerId)
      requires Valid() && t in timers && timers[t].due <= now && timers[t].state in pool
      modifies this`states, this`timers
      ensures Valid() && Follows(old(Whole()), Whole()) && timers == old(timers) - {t}
      ensures
        var i, s := old(timers)[t].identity, old(timers)[t].state;
        && s in pool
        && states == if i in old(states) && old(states)[i] == s && pool[s].clearWhenIdle && pool[s].inFlight == map[]
                     then old(states) - {i} else old(states)
    {
      var i, s := timers[t].identity, timers[t].state;
      TimerKnown(Whole(), s);
      timers := timers - {t};
      if i in states && states[i] == s && pool[s].clearWhenIdle && pool[s].inFlight == map[] {
        states := states - {i};
      }
      StatesLeave(old(Whole()), Whole());
    }

    /** Time passes. */
    method Pass(ms: nat)
      requires Valid()
      modifies this`now
      ensures Valid() && Follows(old(Whole()), Whole()) && now == old(now) + ms
    {
      now := now + ms;
      TimePasses(old(Whole()), Whole());
    }
  }

  /** What may happen next: a call, the end of a post, a call that goes on, a timer, or time. An event
      that is not possible changes nothing. */
  datatype Event =
    | DeliverEvent(identity: Identity, message: MessageId)
    | SettleEvent(attempt: CallId, success: bool)
    | ResumeEvent(call: CallId)
    | ClearEvent(identity: Identity)
    | RetainEvent(identity: Identity)
    | DiscardEvent(identity: Identity)
    | DisposeEvent
    | FireEvent(timer: TimerId)
    | PassEvent(ms: nat)

  /** The states that a discard or a disposal takes. */
  function Taken(states: map<Identity, StateId>, e: Event): set<StateId> {
    match e
    case DiscardEvent(i) => if i in states then {states[i]} else {}
    case DisposeEvent => states.Values
    case _ => {}
  }

  method Perform(r: Registry, e: Event)
    requires r.Valid()
    modifies r
    ensures r.Valid() && Follows(old(r.Whole()), r.Whole())
    ensures r.dropped == old(r.dropped) + Taken(old(r.states), e)
  {
    ghost var b := r.Whole();
    match e
    case DeliverEvent(i, m) => var _ := r.Deliver(i, m);
    case SettleEvent(a, success) =>
      if a in r.attempts && r.attempts[a].progress.Running? {
        r.Settle(a, success);
      }
    case ResumeEvent(j) =>
      if j in r.calls && r.calls[j].attempt in r.attempts && !r.attempts[r.calls[j].attempt].progress.Running? {
        var _ := r.Resume(j);
      }
    case ClearEvent(i) => r.Clear(i);
    case RetainEvent(i) => var _ := r.Retain(i);
    case DiscardEvent(i) => r.Discard(i);
    case DisposeEvent => r.Dispose();
    case FireEvent(t) =>
      if t in r.timers && r.timers[t].due <= r.now && r.timers[t].state in r.pool {
        r.Fire(t);
      }
    case PassEvent(ms) => r.Pass(ms);
  }

  /** The moments of a run: each is sound and follows the one before, and states are dropped by a
      discard or a disposal, and by nothing else. */
  ghost predicate Lived(history: seq<Book>, events: seq<Event>) {
    && |history| == |events| + 1
    && (forall k :: 0 <= k < |history| ==> Sound(history[k]) && Attended(history[k]))
    && (forall k :: 0 < k < |history| ==> Went(history[k - 1], events[k - 1], history[k]))
  }

  ghost predicate Went(b: Book, e: Event, next: Book) {
    Follows(b, next) && next.dropped == b.dropped + Taken(b.states, e)
  }

  method Run(r: Registry, events: seq<Event>) returns (ghost history: seq<Book>)
    requires r.Valid()
    modifies r
    ensures r.Valid() && Lived(history, events) && history[0] == old(r.Whole()) && history[|events|] == r.Whole()
  {
    history := [r.Whole()];
    for k := 0 to |events|
      invariant r.Valid() && Lived(history, events[..k]) && history[0] == old(r.Whole()) && history[k] == r.Whole()
    {
      Perform(r, events[k]);
      LivedOn(history, events[..k], events[k], r.Whole());
      assert events[..k + 1] == events[..k] + [events[k]];
      history := history + [r.Whole()];
    }
    assert events[..|events|] == events;
  }

  lemma LivedOn(history: seq<Book>, events: seq<Event>, e: Event, next: Book)
    requires Lived(history, events) && Sound(next) && Attended(next) && Went(history[|events|], e, next)
    ensures Lived(history + [next], events + [e])
  {
  }

  ghost predicate TakenBetween(history: seq<Book>, events: seq<Event>, k: nat, l: nat, s: StateId)
    requires l <= |events| && |history| == |events| + 1
  {
    exists j :: k <= j < l && s in Taken(history[j].states, events[j])
  }

  /** What is dropped was taken by a discard or a disposal of the run. */
  lemma {:induction false} DroppedWasTaken(history: seq<Book>, events: seq<Event>, k: nat, l: nat, s: StateId)
    requires Lived(history, events) && k <= l < |history|
    requires s in history[l].dropped && s !in history[k].dropped
    ensures TakenBetween(history, events, k, l, s)
    decreases l
  {
    assert k < l;
    assert Went(history[l - 1], events[l - 1], history[l]);
    if s in history[l - 1].dropped {
      DroppedWasTaken(history, events, k, l - 1, s);
    }
  }

  /** In a run of a new registry, two posts of a message for an identity are under way together only if
      a discard or a disposal took the state of one of them before. */
  lemma OnePostAtATime(history: seq<Book>, events: seq<Event>, n: nat, a: CallId, c: CallId)
    requires Lived(history, events) && history[0] == NO_BOOK && n < |history|
    requires a in history[n].attempts && c in history[n].attempts
    requires history[n].attempts[a].progress.Running? && history[n].attempts[c].progress.Running?
    requires history[n].attempts[a].state in history[n].pool && history[n].attempts[c].state in history[n].pool
    requires
      var b := history[n];
      b.pool[b.attempts[a].state].owner == b.pool[b.attempts[c].state].owner && b.attempts[a].message == b.attempts[c].message
    ensures
      || a == c
      || TakenBetween(history, events, 0, n, history[n].attempts[a].state)
      || TakenBetween(history, events, 0, n, history[n].attempts[c].state)
  {
    var b := history[n];
    RunningKnown(b, a);
    RunningKnown(b, c);
    if b.attempts[a].state in b.dropped {
      DroppedWasTaken(history, events, 0, n, b.attempts[a].state);
    } else if b.attempts[c].state in b.dropped {
      DroppedWasTaken(history, events, 0, n, b.attempts[c].state);
    }
  }

  /** Once a message is delivered for a state, no post of it for that state runs again. */
  lemma {:induction false} DeliveredForGood(history: seq<Book>, events: seq<Event>, k: nat, l: nat, s: StateId, m: MessageId)
    requires Lived(history, events) && k <= l < |history|
    requires s in history[k].pool && m in history[k].pool[s].delivered
    ensures s in history[l].pool && m in history[l].pool[s].delivered
    ensures forall a :: a in history[l].attempts && history[l].attempts[a].state == s && history[l].attempts[a].message == m ==>
      a in history[k].attempts && !history[l].attempts[a].progress.Running? && history[l].attempts[a] == history[k].attempts[a]
    decreases l
  {
    if k == l {
      forall a | a in history[l].attempts && history[l].attempts[a].state == s && history[l].attempts[a].message == m
        ensures !history[l].attempts[a].progress.Running?
      {
        if history[l].attempts[a].progress.Running? {
          RunningKnown(history[l], a);
        }
      }
    } else {
      DeliveredForGood(history, events, k, l - 1, s, m);
      assert Went(history[l - 1], events[l - 1], history[l]);
    }
  }

  /** A state with work in flight at every moment stays with its identity, and does not expire, unless
      a discard or a disposal takes it. */
  lemma {:induction false} BusyStatesStay(history: seq<Book>, events: seq<Event>, k: nat, l: nat, s: StateId)
    requires Lived(history, events) && k <= l < |history|
    requires forall n :: k <= n <= l ==> s in history[n].pool && history[n].pool[s].inFlight != map[]
    requires Current(history[k], s)
    ensures Current(history[l], s) || TakenBetween(history, events, k, l, s)
    decreases l
  {
    if k < l {
      BusyStatesStay(history, events, k, l - 1, s);
      assert Went(history[l - 1], events[l - 1], history[l]);
      if Current(history[l - 1], s) && !Current(history[l], s) {
        StateKnown(history[k], history[k].pool[s].owner);
        DroppedWasTaken(history, events, k, l, s);
      }
    }
  }

  /** A cleared state stays with its identity until its time is over, unless a discard or a disposal takes
      it. */
  lemma {:induction false} ClearedStatesStay(history: seq<Book>, events: seq<Event>, k: nat, l: nat, s: StateId)
    requires Lived(history, events) && k <= l < |history|
    requires Current(history[k], s) && history[l].now < Deadline(history[k], s)
    ensures s in history[l].pool && Deadline(history[k], s) <= Deadline(history[l], s)
    ensures Current(history[l], s) || TakenBetween(history, events, k, l, s)
    decreases l
  {
    if k < l {
      assert Went(history[l - 1], events[l - 1], history[l]);
      ClearedStatesStay(history, events, k, l - 1, s);
      if Current(history[l - 1], s) && !Current(history[l], s) {
        StateKnown(history[k], history[k].pool[s].owner);
        DroppedWasTaken(history, events, k, l, s);
      }
    }
  }

  /** So for as long, a message that was delivered to the identity is not posted again: a post of it that
      runs is of a state that a discard or a disposal took. */
  lemma DeliveredUntilDue(history: seq<Book>, events: seq<Event>, k: nat, l: nat, s: StateId, m: MessageId, a: CallId)
    requires Lived(history, events) && history[0] == NO_BOOK && k <= l < |history|
    requires Current(history[k], s) && m in history[k].pool[s].delivered && history[l].now < Deadline(history[k], s)
    requires a in history[l].attempts && history[l].attempts[a].progress.Running? && history[l].attempts[a].message == m
    requires history[l].attempts[a].state in history[l].pool && history[l].pool[history[l].attempts[a].state].owner == history[k].pool[s].owner
    ensures TakenBetween(history, events, k, l, s) || TakenBetween(history, events, 0, l, history[l].attempts[a].state)
  {
    ClearedStatesStay(history, events, k, l, s);
    DeliveredForGood(history, events, k, l, s, m);
    OwnersStay(history, events, k, l, s);
    RunningKnown(history[l], a);
    var other := history[l].attempts[a].state;
    if other in history[l].dropped {
      DroppedWasTaken(history, events, 0, l, other);
    }
  }

  lemma {:induction false} OwnersStay(history: seq<Book>, events: seq<Event>, k: nat, l: nat, s: StateId)
    requires Lived(history, events) && k <= l < |history| && s in history[k].pool
    ensures s in history[l].pool && history[l].pool[s].owner == history[k].pool[s].owner
    decreases l
  {
    if k < l {
      OwnersStay(history, events, k, l - 1, s);
      assert Went(history[l - 1], events[l - 1], history[l]);
    }
  }

  /** When every call has returned nothing is in flight, and every cleared state is about to go. */
  lemma RestIsQuiet(b: Book, s: StateId)
    requires Sound(b) && Attended(b) && b.calls == map[] && s in b.pool
    ensures b.pool[s].inFlight == map[]
    ensures Current(b, s) && b.pool[s].clearWhenIdle ==>
      exists t :: t in b.timers && b.timers[t].state == s && b.pool[s].expiresAt == Some(b.timers[t].due)
  {
    forall m ensures m !in b.pool[s].inFlight {
      if m in b.pool[s].inFlight {
        FlightKnown(b, s, m);
      }
    }
    TimedNow(b);
    assert b.pool[s].inFlight == map[];
    assert AttendedAt(b, s);
  }
}
