/** Whole preparations: any sequence of claims, creations, writes and promotions, stopped before any
    durable write, and what a reconciliation leaves of them. */
module PreparationRuns {
  import opened CouncilTypes
  import opened PreparationFiles
  import opened Preparation

  /** What a preparation does; an operation on a claim names it by its place in the record. */
  datatype Command =
    | OpenRecord
    | MakeControl(path: FilePath)
    | ClaimOutput(path: FilePath, expected: Option<Expected>)
    | WriteFile(claim: nat, data: seq<bv8>, mode: Mode)
    | CopyOutput(claim: nat, order: seq<FilePath>)
    | PublishIntent

  /** Outputs are claimed beside what was there or in directories of the preparation, and written as
      claimed. */
  predicate Fits(g: Guard, command: Command)
    reads g
  {
    g.disk.pending.None? &&
    match command
    case OpenRecord => true
    case MakeControl(path) => g.disk.record.Some? && path != [] && Ready(g, path)
    case ClaimOutput(path, _) => g.disk.record.Some? && path != [] && Ready(g, path)
    case WriteFile(k, data, mode) =>
      && g.disk.record.Some? && k < |ClaimsOf(g.disk)| && ClaimsOf(g.disk)[k].phase.Reserved?
      && ClaimsOf(g.disk)[k].expected == Some(ExpectedFile(data, mode))
    case CopyOutput(k, order) =>
      && g.disk.record.Some? && k < |ClaimsOf(g.disk)| && ClaimsOf(g.disk)[k].phase.Reserved? && ClaimsOf(g.disk)[k].IsTree()
      && forall i :: 0 <= i < |order| ==> order[i] != [] && order[i] in ClaimsOf(g.disk)[k].expected.value.artifacts
    case PublishIntent => g.disk.record.Some?
  }

  predicate Ready(g: Guard, path: FilePath)
    requires path != []
    reads g
  {
    Parent(path) in g.disk.tree && g.disk.tree[Parent(path)].Directory? ==> ParentReady(g.base, g.disk, path)
  }

  method Obey(g: Guard, command: Command) returns (o: Outcome)
    requires g.Valid() && Fits(g, command)
    modifies g
    ensures g.Ran() && g.base == old(g.base) && (old(g.IsSmooth()) ==> g.IsSmooth())
    ensures !command.PublishIntent? ==> g.disk.admission == old(g.disk).admission
    ensures old(g.disk).record.Some? ==> g.disk.record.Some?
    ensures command.PublishIntent? ==> g.disk.admission == old(g.disk).admission || g.disk.admission == RecoveryRequired(g.transaction)
  {
    match command
    case OpenRecord => o := g.Open();
    case MakeControl(path) => o := g.PrepareDirectory(path);
    case ClaimOutput(path, expected) => o := g.ClaimAbsent(path, expected);
    case WriteFile(k, data, mode) => o := g.WritePreparedFile(k, data, mode);
    case CopyOutput(k, order) => o := g.CopyTree(k, order);
    case PublishIntent => o := g.Admit(RecoveryRequired(g.transaction));
  }

  /** The reconciliations of later processes, each of which may stop at any write. */
  method ReconcileOften(g: Guard, budgets: seq<nat>) returns (o: Outcome, ghost last: Disk)
    requires g.Valid()
    modifies g
    ensures g.Ran() && last in g.history
    ensures !o.Stopped? ==> (o.Refused? <==> Blocked(old(g.disk), g.transaction) || InPieces(last, g.transaction))
    ensures o.Done? ==> g.disk.record.None? && g.disk.pending.None?
    ensures o.Done? ==>
      g.disk.tree == if old(g.disk).record.Some? && old(g.disk).admission in {RecoveryRequired(g.transaction), CommittedBy(g.transaction)}
                     then old(g.disk).tree else old(g.base)
  {
    o, last := Stopped, g.disk;
    ghost var left := g.disk;
    PartsStay(left, g.transaction);
    for i := 0 to |budgets|
      invariant g.Ran() && g.base == old(g.base) && o.Stopped? && last in g.history
      invariant PartDone(left, g.disk, g.transaction)
    {
      last := g.disk;
      BlockedAfter(left, last, g.transaction);
      g.Restart(budgets[i]);
      o := g.Reconcile();
      if !o.Stopped? {
        return;
      }
      PartDoneGoesOn(left, last, g.disk, g.transaction);
    }
  }

  lemma PartsStay(d: Disk, transaction: nat)
    ensures PartDone(d, d, transaction)
  {
  }

  lemma PartDoneGoesOn(a: Disk, b: Disk, c: Disk, transaction: nat)
    requires PartDone(a, b, transaction) && PartDone(b, c, transaction)
    ensures PartDone(a, c, transaction)
  {
    if b != a && c != b {
      LeftBehindGoesOn(ClaimsOf(a), a.tree, b.tree, c.tree);
    }
  }

  lemma LeftBehindGoesOn(claims: seq<OutputClaim>, t: Tree, t': Tree, t'': Tree)
    requires LeftBehind(claims, t, t') && LeftBehind(claims, t', t'')
    ensures LeftBehind(claims, t, t'')
  {
    forall k | 0 <= k < |claims|
      ensures Removable(t'', claims[k]) <==> Removable(t, claims[k]) && !Broken(t'', claims[k])
    {
      if Removable(t, claims[k]) {
        PartsAreRemovable(t, t'', claims[k]);
      }
    }
  }

  /** A preparation that stops anywhere or fails, and the reconciliations of later processes, each of
      which may stop anywhere too. */
  method PrepareAndReconcile(
    tree: Tree, umask: Mode, transaction: nat, commands: seq<Command>, budget: nat, budgets: seq<nat>)
    returns (g: Guard, o: Outcome, ghost left: Disk, ghost last: Disk)
    requires Closed(tree)
    ensures fresh(g) && g.Valid() && g.origin == tree && left in g.history && last in g.history
    ensures !o.Stopped? ==> (o.Refused? <==> Blocked(left, transaction) || InPieces(last, transaction))
    ensures o.Refused? ==> left.pending == Some(Torn) || !AllSteady(ClaimsOf(left), umask) || InPieces(last, transaction)
    ensures o.Done? ==> g.disk.record.None? && g.disk.pending.None?
    ensures o.Done? ==>
      g.disk.tree == if left.record.Some? && left.admission == RecoveryRequired(transaction) then left.tree else tree
  {
    g := new Guard(transaction, umask, tree, Idle);
    assert g.IsSmooth();
    g.Restart(budget);
    for i := 0 to |commands|
      invariant fresh(g) && g.Valid() && g.origin == tree && g.base == tree && g.transaction == transaction && g.umask == umask
      invariant g.IsSmooth() && (g.disk.admission == Idle || g.disk.admission == RecoveryRequired(transaction))
      invariant g.disk.admission == Idle || g.disk.record.Some?
    {
      if !Fits(g, commands[i]) {
        break;
      }
      var done := Obey(g, commands[i]);
      if !done.Done? {
        break;
      }
    }
    left := g.disk;
    if AllSteady(ClaimsOf(left), umask) {
      assert Look(left.tree, ClaimsOf(left), 0);
    }
    o, last := ReconcileOften(g, budgets);
  }

  /** A process that stops while it writes the replacement beside its record leaves a torn one, over
      which every later reconciliation refuses. */
  method StoppedWhileReplacing(g: Guard, path: FilePath, expected: Option<Expected>, budget: nat) returns (o: Outcome)
    requires g.Valid() && g.disk.record.Some? && g.disk.pending.None?
    requires path != [] && path !in g.disk.tree && ParentReady(g.base, g.disk, path) && !IsClaimed(g.disk, path)
    modifies g
    ensures g.Ran() && o.Refused? && g.disk == old(g.disk).(pending := Some(Torn))
  {
    g.Restart(1);
    o := g.ClaimAbsent(path, expected);
    g.Restart(budget);
    o := g.Reconcile();
  }

  // ----- When a reconciliation refuses

  /** The entries that the creation of a planned part goes through before it has its final mode. */
  predicate Creating(e: Entry, i: Item, umask: Mode) {
    match i
    case FileItem(data, mode) => e.File? && e.data <= data && e.mode == mode - umask
    case DirectoryItem(_) => e.Directory? && (e.mode == PRIVATE_DIRECTORY - umask || e.mode == PRIVATE_DIRECTORY)
  }

  /** A process that stops while it creates a part of a claimed tree leaves what can be removed, exactly
      when the part is steady. */
  lemma SteadinessDecides(base: Tree, d: Disk, umask: Mode, k: nat, r: FilePath, inode: nat)
    requires Owned(base, d) && d.record.Some? && k < |ClaimsOf(d)|
    requires
      var c := ClaimsOf(d)[k];
      && c.IsTree() && c.phase.Incomplete? && c.path in d.tree && r != [] && r in c.expected.value.artifacts
      && c.path + r !in d.tree && Parent(c.path + r) in d.tree && d.tree[Parent(c.path + r)].Directory? && Removable(d.tree, c)
    ensures
      var c := ClaimsOf(d)[k];
      var item := c.expected.value.artifacts[r];
      SteadyItem(item, umask) <==>
        forall e :: Creating(e, item, umask) && e.inode == inode ==> Removable(d.tree[c.path + r := e], c)
    ensures
      var c := ClaimsOf(d)[k];
      forall e :: Creating(e, c.expected.value.artifacts[r], umask) ==> Owned(base, d.(tree := d.tree[c.path + r := e]))
  {
    var c := ClaimsOf(d)[k];
    var p, item := c.path + r, c.expected.value.artifacts[r];
    assert p[..|c.path|] == c.path && p[|c.path|..] == r;
    assert Planned(c.expected.value.artifacts, c.path, p);
    ClaimKnown(base, d, k);
    forall e | Creating(e, item, umask) ensures Owned(base, d.(tree := d.tree[p := e])) {
      EntryPut(base, d, d.(tree := d.tree[p := e]), k, p, e);
    }
    if !SteadyItem(item, umask) {
      var e := Unsteady(item, umask, inode);
      assert Creating(e, item, umask) && e.mode != item.mode;
      assert !Removable(d.tree[p := e], c) by {
        assert p in d.tree[p := e] && Under(p, c.path);
      }
    }
  }

  function Unsteady(i: Item, umask: Mode, inode: nat): Entry {
    match i
    case FileItem(_, mode) => File(inode, [], mode - umask)
    case DirectoryItem(mode) => Directory(inode, if PRIVATE_DIRECTORY == mode then PRIVATE_DIRECTORY - umask else PRIVATE_DIRECTORY)
  }

  lemma PartIsMissed(t: Tree, c: OutputClaim, p: FilePath)
    requires c.phase.Complete? && c.IsTree() && c.path in t && Planned(c.expected.value.artifacts, c.path, p) && p !in t
    ensures !Removable(t, c)
  {
    assert c.path + p[|c.path|..] == p;
  }

  /** A cleanup that stops inside a complete tree leaves what no later reconciliation removes. */
  lemma StoppedInCompleteTree(base: Tree, d: Disk, k: nat, p: FilePath)
    requires Owned(base, d) && k < |ClaimsOf(d)| && ClaimsOf(d)[k].phase.Complete? && ClaimsOf(d)[k].IsTree()
    requires p in d.tree && Under(p, ClaimsOf(d)[k].path) && forall q :: q in d.tree ==> !Under(q, p)
    ensures Owned(base, d.(tree := d.tree - {p}))
    ensures !AllRemovable(d.tree - {p}, ClaimsOf(d))
  {
    var c := ClaimsOf(d)[k];
    ClaimKnown(base, d, k);
    ClaimsDistinct(base, d);
    PrefixInside(d.tree, p, c.path);
    CoveredIsNew(base, ClaimsOf(d), k, p);
    EntryRemoved(base, d, d.(tree := d.tree - {p}), p);
    PartIsMissed(d.tree - {p}, c, p);
  }

  // ----- Whole histories

  /** What no claim covers at any moment of a run never changes. */
  lemma {:induction false} UnclaimedStays(origin: Tree, history: seq<Disk>, i: nat, j: nat, p: FilePath)
    requires Recount(origin, history) && i <= j < |history|
    requires forall k :: i <= k <= j ==> !Claimed(history[k], p)
    ensures p in history[j].tree <==> p in history[i].tree
    ensures p in history[j].tree ==> history[j].tree[p] == history[i].tree[p]
    decreases j
  {
    if i < j {
      UnclaimedStays(origin, history, i, j - 1, p);
      assert Recounting(history, 0);
      assert StepRight(history[j - 1], history[j]);
    }
  }

  /** A claim of the older record is there in the newer one, at its place, for the same path and plan,
      with its identity once it had one, and no less far. */
  ghost predicate ClaimsAdvance(a: seq<OutputClaim>, b: seq<OutputClaim>) {
    |a| <= |b| &&
    forall k :: 0 <= k < |a| ==>
      && b[k].path == a[k].path && b[k].parent == a[k].parent && b[k].expected == a[k].expected
      && (a[k].identity.Some? ==> b[k].identity == a[k].identity)
      && (a[k].phase.Incomplete? ==> !b[k].phase.Reserved?) && (a[k].phase.Complete? ==> b[k].phase.Complete?)
  }

  lemma TransitionAdvances(a: Record, b: Record)
    requires Transition(a, b) && forall c :: c in a.claims ==> (c.phase.Reserved? <==> c.identity.None?)
    ensures ClaimsAdvance(a.claims, b.claims)
  {
    if |b.claims| == |a.claims| + 1 {
      forall k | 0 <= k < |a.claims| ensures b.claims[k] == a.claims[k] {
        assert b.claims[k] == b.claims[..|a.claims|][k];
      }
    } else {
      var k :| 0 <= k < |a.claims| && b.claims == a.claims[k := b.claims[k]] && Advances(a.claims[k], b.claims[k]);
      assert a.claims[k] in a.claims;
    }
  }

  lemma AdvancingGoesOn(a: seq<OutputClaim>, b: seq<OutputClaim>, c: seq<OutputClaim>)
    requires ClaimsAdvance(a, b) && ClaimsAdvance(b, c)
    ensures ClaimsAdvance(a, c)
  {
  }

  /** As long as a record is kept, its claims only come and advance. */
  lemma {:induction false} RecordsOnlyAdvance(origin: Tree, history: seq<Disk>, i: nat, j: nat)
    requires Recount(origin, history) && i <= j < |history|
    requires forall k :: i <= k <= j ==> history[k].record.Some?
    ensures ClaimsAdvance(ClaimsOf(history[i]), ClaimsOf(history[j]))
    decreases j
  {
    if i < j {
      RecordsOnlyAdvance(origin, history, i, j - 1);
      assert Recounting(history, 0);
      assert StepRight(history[j - 1], history[j]) && Identified(history[j - 1]);
      if history[j].record != history[j - 1].record {
        TransitionAdvances(history[j - 1].record.value, history[j].record.value);
      }
      AdvancingGoesOn(ClaimsOf(history[i]), ClaimsOf(history[j - 1]), ClaimsOf(history[j]));
    }
  }
}
