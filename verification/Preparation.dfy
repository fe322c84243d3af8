/** The preparation guard and its reconciliation: every creation is claimed ahead in a record that is
    replaced as a whole, the process may stop before any durable write, and what a stopped one left
    is removed, or kept when its intent was published. */
module Preparation {
  import opened CouncilTypes
  import opened PreparationFiles

  /** An operation ends, the process stops in it, or it refuses to go on. */
  datatype Outcome = Done | Stopped | Refused {
    predicate IsFailure() { !Done? }

    function PropagateFailure(): Outcome
      requires !Done?
    {
      this
    }
  }

  ghost predicate Claimed(d: Disk, p: FilePath) {
    exists k :: 0 <= k < |ClaimsOf(d)| && Covers(ClaimsOf(d)[k], p)
  }

  /** One durable write: the record follows or goes, and only claimed paths change. */
  ghost predicate StepRight(a: Disk, b: Disk) {
    && (b.record == a.record || b.record.None? || RecordFollows(a.record, b.record.value))
    && (forall p :: (p in a.tree) != (p in b.tree) ==> Claimed(a, p))
    && (forall p :: p in a.tree && p in b.tree && a.tree[p] != b.tree[p] ==> Claimed(a, p))
  }

  /** Exactly the reserved claims have no identity. */
  predicate Identified(d: Disk) {
    forall c :: c in ClaimsOf(d) ==> (c.phase.Reserved? <==> c.identity.None?)
  }

  lemma OwnedIsIdentified(base: Tree, d: Disk)
    requires Owned(base, d)
    ensures Identified(d)
  {
    forall c | c in ClaimsOf(d) ensures c.phase.Reserved? <==> c.identity.None? {
      var k :| 0 <= k < |ClaimsOf(d)| && ClaimsOf(d)[k] == c;
      ClaimKnown(base, d, k);
    }
  }

  ghost predicate Recounting(history: seq<Disk>, n: int) { true }

  /** Every write of a run was right, and what was there at its beginning stayed. */
  ghost predicate Recount(origin: Tree, history: seq<Disk>) {
    forall n {:trigger Recounting(history, n)} :: Recounting(history, n) ==>
      && (forall k :: 0 < k < |history| ==> StepRight(history[k - 1], history[k]))
      && (forall k :: 0 <= k < |history| ==> Kept(origin, history[k].tree) && Identified(history[k]))
  }

  lemma RecountGoesOn(origin: Tree, history: seq<Disk>, next: Disk)
    requires Recount(origin, history) && history != []
    requires StepRight(history[|history| - 1], next) && Kept(origin, next.tree) && Identified(next)
    ensures Recount(origin, history + [next])
  {
    assert Recounting(history, 0);
  }

  // ----- Modes

  /** A part has its planned mode from its creation on: the mask takes no bit of it away, and a
      directory, which is made private first, is planned private. */
  predicate SteadyItem(i: Item, umask: Mode) {
    if i.FileItem? then i.mode - umask == i.mode else PRIVATE_DIRECTORY - umask == PRIVATE_DIRECTORY == i.mode
  }

  predicate Steady(e: Expected, umask: Mode) {
    e.ExpectedTree? ==> forall r :: r in e.artifacts ==> SteadyItem(e.artifacts[r], umask)
  }

  ghost predicate AllSteady(claims: seq<OutputClaim>, umask: Mode) {
    forall k :: 0 <= k < |claims| && claims[k].expected.Some? ==> Steady(claims[k].expected.value, umask)
  }

  ghost predicate AllRemovable(t: Tree, claims: seq<OutputClaim>) {
    forall k :: 0 <= k < |claims| ==> Removable(t, claims[k])
  }

  predicate Look(t: Tree, claims: seq<OutputClaim>, n: int) { true }

  /** As long as all plans are steady, a cleanup can remove everything. */
  ghost predicate Smooth(t: Tree, claims: seq<OutputClaim>, umask: Mode) {
    forall n {:trigger Look(t, claims, n)} :: Look(t, claims, n) && AllSteady(claims, umask) ==>
      AllRemovable(t, claims)
  }

  lemma PutKeepsSmooth(base: Tree, d: Disk, umask: Mode, k: nat, p: FilePath, e: Entry)
    requires Owned(base, d) && Smooth(d.tree, ClaimsOf(d), umask) && k < |ClaimsOf(d)| && Covers(ClaimsOf(d)[k], p)
    requires
      var c := ClaimsOf(d)[k];
      (c.expected.Some? ==> Steady(c.expected.value, umask)) && Removable(d.tree, c) ==> Removable(d.tree[p := e], c)
    ensures Smooth(d.tree[p := e], ClaimsOf(d), umask)
  {
    ClaimsDistinct(base, d);
    var claims, t' := ClaimsOf(d), d.tree[p := e];
    if AllSteady(claims, umask) {
      assert Look(d.tree, claims, 0);
      forall j | 0 <= j < |claims| ensures Removable(t', claims[j]) {
        if j != k {
          RemovableElsewhere(base, d.tree, t', claims, j, k);
        }
      }
    }
  }

  lemma AddedKeepsSmooth(t: Tree, claims: seq<OutputClaim>, umask: Mode, c: OutputClaim)
    requires Smooth(t, claims, umask) && c.phase.Reserved?
    ensures Smooth(t, claims + [c], umask)
  {
    if AllSteady(claims + [c], umask) {
      forall k | 0 <= k < |claims| ensures (claims + [c])[k] == claims[k] {
      }
      assert AllSteady(claims, umask);
      assert Look(t, claims, 0);
    }
  }

  lemma AdvancedKeepsSmooth(t: Tree, claims: seq<OutputClaim>, umask: Mode, k: nat, c: OutputClaim)
    requires Smooth(t, claims, umask) && k < |claims| && c.expected == claims[k].expected && Removable(t, c)
    ensures Smooth(t, claims[k := c], umask)
  {
    var claims' := claims[k := c];
    if AllSteady(claims', umask) {
      forall j | 0 <= j < |claims| && claims[j].expected.Some? ensures Steady(claims[j].expected.value, umask) {
        assert claims'[j].expected == claims[j].expected;
      }
      assert Look(t, claims, 0);
    }
  }

  lemma NothingBelow(base: Tree, d: Disk, p: FilePath)
    requires Owned(base, d) && p !in d.tree
    ensures forall q :: q in d.tree ==> !Under(q, p)
  {
    ClaimsDistinct(base, d);
    forall q | q in d.tree ensures !Under(q, p) {
      if Under(q, p) {
        PrefixInside(d.tree, q, p);
      }
    }
  }

  lemma OwnedIsRight(origin: Tree, base: Tree, d: Disk)
    requires Owned(base, d) && Kept(origin, base)
    ensures Kept(origin, d.tree) && Identified(d)
  {
    ClaimsDistinct(base, d);
    OwnedIsIdentified(base, d);
  }

  lemma PreservingIsFresh(origin: Tree, base: Tree, d: Disk, next: Disk)
    requires Owned(base, d) && d.pending.None? && Kept(origin, base) && next == d.(record := None)
    ensures Owned(next.tree, next) && Kept(origin, next.tree) && StepRight(d, next) && Identified(next)
  {
    ClaimsDistinct(base, d);
    Fresh(next.tree, next);
  }

  predicate IsClaimed(d: Disk, path: FilePath) {
    exists k :: 0 <= k < |ClaimsOf(d)| && ClaimsOf(d)[k].path == path
  }

  class Guard {
    const transaction: nat
    const umask: Mode
    /** What was there at the beginning, and what counts as such now. */
    ghost const origin: Tree
    var base: Tree
    var disk: Disk
    /** Durable writes left before the process stops. */
    var fuse: nat
    var supply: nat
    ghost var history: seq<Disk>

    ghost predicate Valid()
      reads this
    {
      && Owned(base, disk) && Kept(origin, base)
      && (disk.record.Some? ==> disk.record.value.header == transaction)
      && history != [] && history[|history| - 1] == disk && Recount(origin, history)
    }

    ghost predicate IsSmooth()
      reads this
    {
      Smooth(disk.tree, ClaimsOf(disk), umask)
    }

    /** The run went on. */
    twostate predicate Ran()
      reads this
    {
      Valid() && old(history) <= history
    }

    /** The preparation went on: what was removable with steady plans is so still. */
    twostate predicate Worked()
      reads this
    {
      && Ran() && disk.admission == old(disk).admission && (old(disk).record.Some? ==> disk.record.Some?)
      && (old(IsSmooth()) ==> IsSmooth())
    }

    constructor (transaction: nat, umask: Mode, tree: Tree, admission: Admission)
      requires Closed(tree)
      ensures Valid() && base == tree && origin == tree && disk == Disk(tree, None, None, admission)
      ensures this.transaction == transaction && this.umask == umask
    {
      this.transaction, this.umask, origin, base := transaction, umask, tree, tree;
      disk, fuse, supply := Disk(tree, None, None, admission), 0, 0;
      history := [Disk(tree, None, None, admission)];
      new;
      Fresh(tree, disk);
    }

    method Persist(next: Disk) returns (o: Outcome)
      requires Valid() && Owned(base, next) && StepRight(disk, next)
      requires next.record.Some? ==> next.record.value.header == transaction
      modifies this`disk, this`fuse, this`history
      ensures Ran() && !o.Refused? && (o.Stopped? <==> old(fuse) == 0)
      ensures o.Done? ==> disk == next && fuse == old(fuse) - 1
      ensures o.Stopped? ==> disk == old(disk)
    {
      if fuse == 0 {
        return Stopped;
      }
      fuse := fuse - 1;
      OwnedIsRight(origin, base, next);
      RecountGoesOn(origin, history, next);
      disk := next;
      history := history + [next];
      return Done;
    }

    /** Writes the replacement beside the record and puts it in its place. */
    method Publish(record: Record) returns (o: Outcome)
      requires Valid() && record.header == transaction && RecordFollows(disk.record, record)
      requires Owned(base, disk.(record := Some(record), pending := None))
      requires IsSmooth() ==> Smooth(disk.tree, record.claims, umask)
      modifies this`disk, this`fuse, this`history
      ensures Worked() && !o.Refused? && disk.tree == old(disk).tree
      ensures o.Done? ==> disk == old(disk).(record := Some(record), pending := None)
      ensures o.Stopped? ==> disk.record == old(disk).record
      ensures o.Stopped? <==> old(fuse) < 3
      ensures old(fuse) == 1 ==> disk == old(disk).(pending := Some(Torn))
    {
      ghost var was := disk;
      PendingPut(base, disk, disk.(pending := Some(Torn)));
      :- Persist(disk.(pending := Some(Torn)));
      PendingPut(base, disk, disk.(pending := Some(Whole(record))));
      :- Persist(disk.(pending := Some(Whole(record))));
      assert disk.(record := Some(record), pending := None) == was.(record := Some(record), pending := None);
      o := Persist(disk.(record := Some(record), pending := None));
    }

    // ----- Claiming and binding

    /** A new record, which there must not be yet. */
    method Open() returns (o: Outcome)
      requires Valid() && disk.pending.None?
      modifies this`disk, this`fuse, this`history
      ensures Worked() && disk.tree == old(disk).tree
      ensures o.Refused? <==> old(disk).record.Some?
      ensures o.Done? ==> disk == old(disk).(record := Some(Record(transaction, [])))
    {
      if disk.record.Some? {
        return Refused;
      }
      RecordStarts(base, disk, disk.(record := Some(Record(transaction, [])), pending := None), transaction);
      o := Publish(Record(transaction, []));
    }

    method ClaimAbsent(path: FilePath, expected: Option<Expected>) returns (o: Outcome)
      requires Valid() && disk.record.Some? && disk.pending.None?
      requires path != [] && (Parent(path) in disk.tree && disk.tree[Parent(path)].Directory? ==> ParentReady(base, disk, path))
      modifies this`disk, this`fuse, this`history
      ensures Worked() && disk.tree == old(disk).tree
      ensures o.Refused? ==> disk == old(disk)
      ensures o.Refused? <==>
        || path in old(disk).tree || Parent(path) !in old(disk).tree || !old(disk).tree[Parent(path)].Directory?
        || IsClaimed(old(disk), path)
      ensures !o.Refused? && old(fuse) == 1 ==> o.Stopped? && disk == old(disk).(pending := Some(Torn))
      ensures o.Done? ==>
        && disk.record.Some? && disk.pending.None? && path !in disk.tree && Parent(path) in disk.tree && disk.tree[Parent(path)].Directory?
        && ClaimsOf(disk) == ClaimsOf(old(disk)) + [OutputClaim(path, disk.tree[Parent(path)].inode, expected, Reserved, None)]
    {
      if path in disk.tree || Parent(path) !in disk.tree || !disk.tree[Parent(path)].Directory? {
        return Refused;
      }
      var claims := disk.record.value.claims;
      if IsClaimed(disk, path) {
        return Refused;
      }
      var c := OutputClaim(path, disk.tree[Parent(path)].inode, expected, Reserved, None);
      var record := Record(transaction, claims + [c]);
      ClaimAdded(base, disk, disk.(record := Some(record), pending := None), c);
      if IsSmooth() {
        AddedKeepsSmooth(disk.tree, claims, umask, c);
      }
      o := Publish(record);
    }

    /** Binds a claim to what was created under it. */
    method BindIncomplete(k: nat) returns (o: Outcome)
      requires Valid() && disk.record.Some? && disk.pending.None? && k < |ClaimsOf(disk)|
      modifies this`disk, this`fuse, this`history
      ensures Worked() && disk.tree == old(disk).tree
      ensures
        var c := ClaimsOf(old(disk))[k];
        && (o.Refused? <==> !c.phase.Reserved? || c.path !in disk.tree)
        && (o.Done? ==>
              && c.path in disk.tree && disk.record.Some? && disk.pending.None?
              && ClaimsOf(disk) == ClaimsOf(old(disk))[k := c.(phase := Incomplete, identity := Some(IdentityOf(disk.tree[c.path])))])
    {
      ClaimKnown(base, disk, k);
      var c := disk.record.value.claims[k];
      if !c.phase.Reserved? || c.path !in disk.tree {
        return Refused;
      }
      var next := c.(phase := Incomplete, identity := Some(IdentityOf(disk.tree[c.path])));
      var record := Record(transaction, disk.record.value.claims[k := next]);
      ClaimAdvanced(base, disk, disk.(record := Some(record), pending := None), k, next);
      if IsSmooth() {
        AdvancedKeepsSmooth(disk.tree, ClaimsOf(disk), umask, k, next);
      }
      o := Publish(record);
    }

    /** Declares an output complete, once it is in its planned state. */
    method PromoteComplete(k: nat) returns (o: Outcome)
      requires Valid() && disk.record.Some? && disk.pending.None? && k < |ClaimsOf(disk)|
      modifies this`disk, this`fuse, this`history
      ensures Worked() && disk.tree == old(disk).tree
      ensures
        var c := ClaimsOf(old(disk))[k];
        && (o.Refused? <==> !c.phase.Incomplete? || c.expected.None? || !Matches(disk.tree, c.path, c.expected.value))
        && (o.Done? ==>
              disk.record.Some? && disk.pending.None? && ClaimsOf(disk) == ClaimsOf(old(disk))[k := c.(phase := ClaimPhase.Complete)])
    {
      ClaimKnown(base, disk, k);
      var c := disk.record.value.claims[k];
      if !c.phase.Incomplete? || c.expected.None? || !Matches(disk.tree, c.path, c.expected.value) {
        return Refused;
      }
      var next := c.(phase := ClaimPhase.Complete);
      var record := Record(transaction, disk.record.value.claims[k := next]);
      MatchIsHeld(disk.tree, next);
      ClaimAdvanced(base, disk, disk.(record := Some(record), pending := None), k, next);
      if IsSmooth() {
        AdvancedKeepsSmooth(disk.tree, ClaimsOf(disk), umask, k, next);
      }
      o := Publish(record);
    }

    // ----- Creating and writing

    /** One creation, write or change of mode of what a claim covers. */
    method Put(k: nat, p: FilePath, e: Entry) returns (o: Outcome)
      requires Valid() && k < |ClaimsOf(disk)| && Covers(ClaimsOf(disk)[k], p) && p != []
      requires Parent(p) in disk.tree && disk.tree[Parent(p)].Directory?
      requires p in disk.tree ==> KindOf(disk.tree[p]) == KindOf(e)
      requires Held(disk.tree[p := e], ClaimsOf(disk)[k])
      requires
        var c := ClaimsOf(disk)[k];
        (c.expected.Some? ==> Steady(c.expected.value, umask)) && Removable(disk.tree, c) ==> Removable(disk.tree[p := e], c)
      modifies this`disk, this`fuse, this`history
      ensures Worked() && !o.Refused?
      ensures disk == if o.Done? then old(disk).(tree := old(disk).tree[p := e]) else old(disk)
    {
      EntryPut(base, disk, disk.(tree := disk.tree[p := e]), k, p, e);
      if IsSmooth() {
        PutKeepsSmooth(base, disk, umask, k, p, e);
      }
      assert Claimed(disk, p);
      o := Persist(disk.(tree := disk.tree[p := e]));
    }

    /** Creates a claimed file, binds it, writes it in pieces and promotes it. */
    method WritePreparedFile(k: nat, data: seq<bv8>, mode: Mode) returns (o: Outcome)
      requires Valid() && disk.record.Some? && disk.pending.None? && k < |ClaimsOf(disk)|
      requires ClaimsOf(disk)[k].expected == Some(ExpectedFile(data, mode)) && ClaimsOf(disk)[k].phase.Reserved?
      modifies this`disk, this`fuse, this`history, this`supply
      ensures Worked()
      ensures
        var path := ClaimsOf(old(disk))[k].path;
        && (o.Refused? ==> disk == old(disk))
        && (o.Done? ==>
              && disk.record.Some? && disk.pending.None? && path !in old(disk).tree && path in disk.tree
              && disk.tree == old(disk).tree[path := File(disk.tree[path].inode, data, mode)]
              && ClaimsOf(disk) == ClaimsOf(old(disk))[k := ClaimsOf(old(disk))[k].(
                   phase := ClaimPhase.Complete, identity := Some(IdentityOf(disk.tree[path])))])
    {
      ClaimKnown(base, disk, k);
      ghost var before := disk.tree;
      var path := disk.record.value.claims[k].path;
      if path in disk.tree || Parent(path) !in disk.tree || !disk.tree[Parent(path)].Directory? {
        return Refused;
      }
      var inode;
      o, inode := CreateBound(k, mode - umask);
      if !o.Done? {
        return;
      }
      :- WriteData(k, path, inode, data, mode - umask);
      ClaimKnown(base, disk, k);
      :- Put(k, path, File(inode, data, mode));
      assert disk.tree == before[path := File(inode, data, mode)];
      o := PromoteComplete(k);
    }

    /** Creates a claimed file, empty, and binds it. */
    method CreateBound(k: nat, mode: Mode) returns (o: Outcome, inode: nat)
      requires Valid() && disk.record.Some? && disk.pending.None? && k < |ClaimsOf(disk)|
      requires
        var c := ClaimsOf(disk)[k];
        && c.phase.Reserved? && c.expected.Some? && c.expected.value.ExpectedFile? && c.path != [] && c.path !in disk.tree
        && Parent(c.path) in disk.tree && disk.tree[Parent(c.path)].Directory?
      modifies this`disk, this`fuse, this`history, this`supply
      ensures Worked() && !o.Refused?
      ensures o.Done? ==>
        var c := ClaimsOf(old(disk))[k];
        && disk.record.Some? && disk.pending.None?
        && disk.tree == old(disk).tree[c.path := File(inode, [], mode)]
        && ClaimsOf(disk) == ClaimsOf(old(disk))[k := c.(phase := Incomplete, identity := Some(Identity(inode, FileKind)))]
    {
      var path := disk.record.value.claims[k].path;
      inode := supply;
      supply := supply + 1;
      NothingBelow(base, disk, path);
      o := Put(k, path, File(inode, [], mode));
      if o.Stopped? {
        return;
      }
      o := BindIncomplete(k);
    }

    /** Writes the data of a bound file, piece by piece. */
    method WriteData(k: nat, path: FilePath, inode: nat, data: seq<bv8>, mode: Mode) returns (o: Outcome)
      requires Valid() && k < |ClaimsOf(disk)|
      requires
        var c := ClaimsOf(disk)[k];
        && c.path == path && c.phase.Incomplete? && c.expected.Some? && c.expected.value.ExpectedFile?
      requires path in disk.tree && disk.tree[path] == File(inode, [], mode)
      modifies this`disk, this`fuse, this`history
      ensures Worked() && !o.Refused?
      ensures o.Done? ==> disk == old(disk).(tree := old(disk).tree[path := File(inode, data, mode)])
    {
      ClaimKnown(base, disk, k);
      var n := 0;
      while n < |data|
        invariant n <= |data| && Worked()
        invariant disk == old(disk).(tree := old(disk).tree[path := File(inode, data[..n], mode)])
      {
        var written :| 1 <= written <= |data| - n;
        n := n + written;
        ClaimKnown(base, disk, k);
        :- Put(k, path, File(inode, data[..n], mode));
      }
      assert data[..n] == data;
      return Done;
    }

    /** Makes a claimed directory, private first. */
    method MakeDirectory(k: nat, mode: Mode) returns (o: Outcome)
      requires Valid() && k < |ClaimsOf(disk)|
      requires
        var c := ClaimsOf(disk)[k];
        && c.phase.Reserved? && (c.expected.Some? ==> c.IsTree()) && c.path != []
        && (c.path in disk.tree ==> disk.tree[c.path].Directory?)
        && Parent(c.path) in disk.tree && disk.tree[Parent(c.path)].Directory?
      modifies this`disk, this`fuse, this`history, this`supply
      ensures Worked() && !o.Refused?
      ensures disk == old(disk).(tree := disk.tree)
      ensures o.Done? ==>
        var path := ClaimsOf(disk)[k].path;
        path in disk.tree && disk.tree == old(disk).tree[path := Directory(disk.tree[path].inode, mode)]
    {
      var path := disk.record.value.claims[k].path;
      ghost var before := disk.tree;
      ClaimKnown(base, disk, k);
      if path !in disk.tree {
        var inode := supply;
        supply := supply + 1;
        NothingBelow(base, disk, path);
        :- Put(k, path, Directory(inode, PRIVATE_DIRECTORY - umask));
        ClaimKnown(base, disk, k);
        :- Put(k, path, Directory(inode, PRIVATE_DIRECTORY));
        ClaimKnown(base, disk, k);
      }
      var inode := disk.tree[path].inode;
      :- Put(k, path, Directory(inode, mode));
      assert disk.tree == before[path := Directory(inode, mode)];
      return Done;
    }

    /** A directory of the control tree: one that is there stays, another is claimed, made and bound. */
    method PrepareDirectory(path: FilePath) returns (o: Outcome)
      requires Valid() && disk.record.Some? && disk.pending.None?
      requires path != [] && (Parent(path) in disk.tree && disk.tree[Parent(path)].Directory? ==> ParentReady(base, disk, path))
      modifies this`disk, this`fuse, this`history, this`supply
      ensures Worked()
      ensures o.Refused? ==> disk == old(disk)
      ensures o.Done? ==> disk.record.Some? && disk.pending.None? && path in disk.tree && disk.tree[path].Directory?
      ensures o.Done? && path in old(disk).tree ==> disk == old(disk)
      ensures o.Done? && path !in old(disk).tree ==>
        && disk.tree == old(disk).tree[path := disk.tree[path]] && |ClaimsOf(disk)| == |ClaimsOf(old(disk))| + 1
        && ClaimsOf(disk)[..|ClaimsOf(old(disk))|] == ClaimsOf(old(disk))
        && ClaimsOf(disk)[|ClaimsOf(old(disk))|].path == path && ClaimsOf(disk)[|ClaimsOf(old(disk))|].Plain()
    {
      if path in disk.tree {
        return if disk.tree[path].Directory? then Done else Refused;
      }
      var k := |disk.record.value.claims|;
      :- ClaimAbsent(path, None);
      :- MakeDirectory(k, PRIVATE_DIRECTORY);
      o := BindIncomplete(k);
    }

    // ----- Trees

    /** A part of a bound tree is created or changed. */
    method PutPart(k: nat, r: FilePath, e: Entry) returns (o: Outcome)
      requires Valid() && k < |ClaimsOf(disk)|
      requires
        var c := ClaimsOf(disk)[k];
        && c.IsTree() && c.phase.Incomplete? && c.path in disk.tree && r != [] && r in c.expected.value.artifacts
        && ItemKindIs(e, c.expected.value.artifacts[r])
        && (SteadyItem(c.expected.value.artifacts[r], umask) ==> e.mode == c.expected.value.artifacts[r].mode)
        && Parent(c.path + r) in disk.tree && disk.tree[Parent(c.path + r)].Directory?
      modifies this`disk, this`fuse, this`history
      ensures Worked() && !o.Refused?
      ensures
        var c := ClaimsOf(old(disk))[k];
        disk == if o.Done? then old(disk).(tree := old(disk).tree[c.path + r := e]) else old(disk)
    {
      ClaimKnown(base, disk, k);
      var c := disk.record.value.claims[k];
      var p := c.path + r;
      assert p[..|c.path|] == c.path && p[|c.path|..] == r;
      assert Planned(c.expected.value.artifacts, c.path, p);
      o := Put(k, p, e);
    }

    /** Writes the data of a part, piece by piece. */
    method WritePart(k: nat, r: FilePath, inode: nat, data: seq<bv8>, mode: Mode) returns (o: Outcome)
      requires Valid() && k < |ClaimsOf(disk)|
      requires
        var c := ClaimsOf(disk)[k];
        && c.IsTree() && c.phase.Incomplete? && c.path in disk.tree && r != [] && r in c.expected.value.artifacts
        && c.expected.value.artifacts[r].FileItem?
        && (SteadyItem(c.expected.value.artifacts[r], umask) ==> mode == c.expected.value.artifacts[r].mode)
        && Parent(c.path + r) in disk.tree && disk.tree[Parent(c.path + r)].Directory?
      requires var p := ClaimsOf(disk)[k].path + r; p in disk.tree && disk.tree[p] == File(inode, [], mode)
      modifies this`disk, this`fuse, this`history
      ensures Worked() && !o.Refused? && disk == old(disk).(tree := disk.tree)
      ensures
        var p := ClaimsOf(disk)[k].path + r;
        && disk.tree.Keys == old(disk).tree.Keys
        && (o.Done? ==> disk.tree == old(disk).tree[p := File(inode, data, mode)])
    {
      var p := disk.record.value.claims[k].path + r;
      var n := 0;
      while n < |data|
        invariant n <= |data| && Worked()
        invariant disk == old(disk).(tree := old(disk).tree[p := File(inode, data[..n], mode)])
      {
        var written :| 1 <= written <= |data| - n;
        n := n + written;
        :- PutPart(k, r, File(inode, data[..n], mode));
      }
      assert data[..n] == data;
      return Done;
    }

    /** Makes or copies one part of a tree. */
    method CopyPart(k: nat, r: FilePath) returns (o: Outcome)
      requires Valid() && k < |ClaimsOf(disk)|
      requires
        var c := ClaimsOf(disk)[k];
        c.IsTree() && c.phase.Incomplete? && c.path in disk.tree && r != [] && r in c.expected.value.artifacts
      modifies this`disk, this`fuse, this`history, this`supply
      ensures Worked()
      ensures disk == old(disk).(tree := disk.tree) && ClaimsOf(disk)[k].path in disk.tree
      ensures o.Done? ==>
        var c := ClaimsOf(disk)[k];
        c.path + r in disk.tree && ItemIs(disk.tree[c.path + r], c.expected.value.artifacts[r])
    {
      ClaimKnown(base, disk, k);
      var c := disk.record.value.claims[k];
      var p, item := c.path + r, c.expected.value.artifacts[r];
      if Parent(p) !in disk.tree || !disk.tree[Parent(p)].Directory? {
        return Refused;
      }
      var inode := supply;
      supply := supply + 1;
      match item
      case DirectoryItem(mode) =>
        if p in disk.tree && disk.tree[p].File? {
          return Refused;
        }
        if p !in disk.tree {
          :- PutPart(k, r, Directory(inode, PRIVATE_DIRECTORY - umask));
          :- PutPart(k, r, Directory(inode, PRIVATE_DIRECTORY));
        }
        o := PutPart(k, r, Directory(disk.tree[p].inode, mode));
      case FileItem(data, mode) =>
        if p in disk.tree {
          return Refused;
        }
        :- PutPart(k, r, File(inode, [], mode - umask));
        :- WritePart(k, r, inode, data, mode - umask);
        o := PutPart(k, r, File(inode, data, mode));
    }

    /** Copies a tree into its claimed place, part by part, and promotes it. */
    method CopyTree(k: nat, order: seq<FilePath>) returns (o: Outcome)
      requires Valid() && disk.record.Some? && disk.pending.None? && k < |ClaimsOf(disk)|
      requires
        var c := ClaimsOf(disk)[k];
        && c.IsTree() && c.phase.Reserved?
        && forall i :: 0 <= i < |order| ==> order[i] != [] && order[i] in c.expected.value.artifacts
      modifies this`disk, this`fuse, this`history, this`supply
      ensures Worked()
      ensures o.Done? ==>
        var c := ClaimsOf(old(disk))[k];
        && disk.record.Some? && disk.pending.None? && c.path in disk.tree && Matches(disk.tree, c.path, c.expected.value)
        && ClaimsOf(disk) == ClaimsOf(old(disk))[k := c.(
             phase := ClaimPhase.Complete, identity := Some(IdentityOf(disk.tree[c.path])))]
    {
      ClaimKnown(base, disk, k);
      var c := disk.record.value.claims[k];
      if Parent(c.path) !in disk.tree || !disk.tree[Parent(c.path)].Directory? {
        return Refused;
      }
      :- MakeDirectory(k, c.expected.value.mode);
      :- BindIncomplete(k);
      ghost var bound := disk;
      for i := 0 to |order|
        invariant Worked()
        invariant disk == bound.(tree := disk.tree) && c.path in disk.tree
      {
        :- CopyPart(k, order[i]);
      }
      ClaimKnown(base, disk, k);
      o := PromoteComplete(k);
    }

    // ----- Removing

    /** Removes one entry with nothing below it. */
    method Remove(k: nat, p: FilePath) returns (o: Outcome)
      requires Valid() && k < |ClaimsOf(disk)| && Covers(ClaimsOf(disk)[k], p) && p in disk.tree
      requires forall q :: q in disk.tree ==> !Under(q, p)
      modifies this`disk, this`fuse, this`history
      ensures Ran() && !o.Refused?
      ensures disk == if o.Done? then old(disk).(tree := old(disk).tree - {p}) else old(disk)
    {
      ClaimsDistinct(base, disk);
      CoveredIsNew(base, ClaimsOf(disk), k, p);
      EntryRemoved(base, disk, disk.(tree := disk.tree - {p}), p);
      assert Claimed(disk, p);
      o := Persist(disk.(tree := disk.tree - {p}));
    }

    /** Removes the parts of a tree, the deepest first. */
    method RemoveParts(k: nat) returns (o: Outcome)
      requires Valid() && k < |ClaimsOf(disk)|
      requires forall q :: q in disk.tree && Under(q, ClaimsOf(disk)[k].path) ==> Covers(ClaimsOf(disk)[k], q)
      modifies this`disk, this`fuse, this`history
      ensures Ran() && !o.Refused? && disk == old(disk).(tree := disk.tree)
      ensures OnlyRemoved(old(disk).tree, disk.tree, ClaimsOf(disk)[k])
      ensures o.Done? ==> forall q :: q in disk.tree ==> !Under(q, ClaimsOf(disk)[k].path)
      ensures ClaimsOf(disk)[k].path in old(disk).tree ==> ClaimsOf(disk)[k].path in disk.tree
    {
      var c := disk.record.value.claims[k];
      var left := set q | q in disk.tree && Under(q, c.path);
      while left != {}
        invariant Ran() && disk == old(disk).(tree := disk.tree) && OnlyRemoved(old(disk).tree, disk.tree, c)
        invariant forall q :: q in left <==> q in disk.tree && Under(q, c.path)
        invariant c.path in old(disk).tree ==> c.path in disk.tree
        decreases |left|
      {
        var p := Deepest(left);
        assert forall q :: q in disk.tree ==> !Under(q, p) by {
          forall q | q in disk.tree ensures !Under(q, p) {
            if Under(q, p) {
              UnderIsTransitive(q, p, c.path);
            }
          }
        }
        left := left - {p};
        :- Remove(k, p);
      }
      return Done;
    }

    /** Removes the output of a claim, after looking whether it is what the record says. */
    method RemovePrepared(k: nat) returns (o: Outcome)
      requires Valid() && k < |ClaimsOf(disk)| && ClaimsOf(disk)[k].path in disk.tree
      requires forall j :: k < j < |ClaimsOf(disk)| ==> ClaimsOf(disk)[j].path !in disk.tree
      modifies this`disk, this`fuse, this`history
      ensures Ran() && disk == old(disk).(tree := disk.tree)
      ensures OnlyRemoved(old(disk).tree, disk.tree, ClaimsOf(disk)[k])
      ensures o.Refused? <==> !Removable(old(disk).tree, ClaimsOf(disk)[k])
      ensures o.Refused? ==> disk == old(disk)
      ensures o.Done? ==> ClaimsOf(disk)[k].path !in disk.tree
    {
      var c := disk.record.value.claims[k];
      ClaimKnown(base, disk, k);
      OwnBelow(base, disk, k);
      if c.phase.Reserved? {
        if (disk.tree[c.path].File? && disk.tree[c.path].data != []) || exists q :: q in disk.tree && Under(q, c.path) {
          return Refused;
        }
        o := Remove(k, c.path);
        return;
      }
      if c.identity != Some(IdentityOf(disk.tree[c.path])) {
        return Refused;
      }
      if c.phase.Complete? && c.expected.Some? && !Matches(disk.tree, c.path, c.expected.value) {
        return Refused;
      }
      if disk.tree[c.path].Directory? {
        if c.phase.Incomplete? && !UnfinishedAsPlanned(disk.tree, c) {
          return Refused;
        }
        :- RemoveParts(k);
      } else {
        ClaimsDistinct(base, disk);
        NothingBelowFile(disk.tree, c.path);
      }
      o := Remove(k, c.path);
    }

    // ----- Ending a preparation

    /** Removes all that was claimed, the last claim first, and then the record. */
    method Cleanup() returns (o: Outcome)
      requires Valid() && disk.record.Some? && disk.pending.None?
      modifies this`disk, this`fuse, this`history
      ensures Ran() && disk.admission == old(disk).admission && disk.pending.None?
      ensures !o.Stopped? ==> (o.Refused? <==> !AllRemovable(old(disk).tree, ClaimsOf(old(disk))))
      ensures !o.Done? ==> disk == old(disk).(tree := disk.tree) && LeftBehind(ClaimsOf(disk), old(disk).tree, disk.tree)
      ensures o.Done? ==> disk.tree == base && disk.record.None?
    {
      var claims := disk.record.value.claims;
      var k := |claims|;
      while k > 0
        invariant 0 <= k <= |claims| && Ran() && disk == old(disk).(tree := disk.tree)
        invariant Less(claims, old(disk).tree, disk.tree)
        invariant forall j :: k <= j < |claims| ==> claims[j].path !in disk.tree && Removable(old(disk).tree, claims[j])
        invariant forall j :: 0 <= j < k ==> Removable(disk.tree, claims[j]) == Removable(old(disk).tree, claims[j])
      {
        k := k - 1;
        var c := claims[k];
        if c.path in disk.tree {
          ClaimKnown(base, disk, k);
          if disk.tree[Parent(c.path)].inode != c.parent {
            return Refused;
          }
          ghost var before := disk.tree;
          o := RemovePrepared(k);
          LessGoesOn(claims, old(disk).tree, before, disk.tree, k);
          StillRemovable(base, disk, before, k);
          if !o.Done? {
            CleanupEnds(claims, old(disk).tree, before, disk.tree, k);
            return;
          }
        }
      }
      NothingLeft(base, disk);
      o := Retire();
    }

    /** The record goes; what there is counts as there from now on. */
    method Retire() returns (o: Outcome)
      requires Valid() && disk.pending.None?
      modifies this`disk, this`fuse, this`history
      requires disk.tree == base
      ensures Ran() && !o.Refused?
      ensures disk == if o.Done? then old(disk).(record := None) else old(disk)
    {
      RecordRetired(base, disk, disk.(record := None, pending := None));
      o := Persist(disk.(record := None, pending := None));
    }

    /** Keeps all outputs: only the record goes. */
    method Preserve() returns (o: Outcome)
      requires Valid() && disk.pending.None?
      modifies this`disk, this`fuse, this`history, this`base
      ensures Ran() && !o.Refused?
      ensures disk == if o.Done? then old(disk).(record := None) else old(disk)
      ensures base == if o.Done? then disk.tree else old(base)
    {
      if fuse == 0 {
        return Stopped;
      }
      fuse := fuse - 1;
      var next := disk.(record := None);
      PreservingIsFresh(origin, base, disk, next);
      RecountGoesOn(origin, history, next);
      disk := next;
      base := next.tree;
      history := history + [next];
      return Done;
    }

    /** The admission file changes: the intent is published, or another transaction's. */
    method Admit(admission: Admission) returns (o: Outcome)
      requires Valid()
      modifies this`disk, this`fuse, this`history
      ensures Ran() && !o.Refused? && (old(IsSmooth()) ==> IsSmooth())
      ensures disk == if o.Done? then old(disk).(admission := admission) else old(disk)
    {
      AdmissionPut(base, disk, disk.(admission := admission));
      o := Persist(disk.(admission := admission));
    }

    /** What a later process makes of the record root. */
    method Reconcile() returns (o: Outcome)
      requires Valid()
      modifies this`disk, this`fuse, this`history, this`base
      ensures Ran() && disk.admission == old(disk).admission
      ensures !o.Stopped? ==> (o.Refused? <==> Blocked(old(disk), transaction))
      ensures o.Done? ==>
        && disk.record.None? && disk.pending.None?
        && disk.tree == base == if old(disk).record.Some? && disk.admission in {RecoveryRequired(transaction), CommittedBy(transaction)}
                                then old(disk).tree else old(base)
      ensures !o.Done? ==> base == old(base) && PartDone(old(disk), disk, transaction)
      ensures old(disk).record.Some? && old(disk).pending == Some(Torn) ==> o.Refused? && disk == old(disk)
    {
      if disk.record.None? {
        ClaimsOfNone(base, disk);
        if disk.pending.Some? {
          if disk.admission == RecoveryRequired(transaction) {
            return Refused;
          }
          :- RemovePending();
        }
        return Done;
      }
      if disk.pending.Some? {
        if disk.pending.value.Torn? {
          return Refused;
        }
        PendingFollows(base, disk);
        if !Transition(disk.record.value, disk.pending.value.record) {
          return Refused;
        }
        :- RemovePending();
      }
      if disk.admission.RecoveryRequired? && disk.admission.transaction != transaction {
        return Refused;
      }
      if IntentPublished(disk.admission, transaction) {
        o := Preserve();
      } else {
        o := Cleanup();
      }
    }

    method RemovePending() returns (o: Outcome)
      requires Valid()
      modifies this`disk, this`fuse, this`history
      ensures Ran() && !o.Refused?
      ensures disk == if o.Done? then old(disk).(pending := None) else old(disk)
    {
      PendingPut(base, disk, disk.(pending := None));
      o := Persist(disk.(pending := None));
    }

    /** A failure before the process ends: the outputs go, unless some intent is published. */
    method Abandon() returns (o: Outcome)
      requires Valid() && disk.record.Some? && disk.pending.None?
      modifies this`disk, this`fuse, this`history, this`base
      ensures Ran()
      ensures o.Done? ==> disk.record.None? && disk.tree == if disk.admission.RecoveryRequired? then old(disk).tree else old(base)
    {
      if disk.admission.RecoveryRequired? {
        o := Preserve();
      } else {
        o := Cleanup();
      }
    }

    /** A new process. */
    method Restart(budget: nat)
      requires Valid()
      modifies this`fuse
      ensures Valid() && fuse == budget
    {
      fuse := budget;
    }
  }

  predicate IntentPublished(a: Admission, transaction: nat) {
    a == RecoveryRequired(transaction) || a == CommittedBy(transaction)
  }

  /** What a reconciliation refuses: a torn replacement beside a record, another transaction's intent,
      or outputs that a cleanup may not remove. */
  ghost predicate Blocked(d: Disk, transaction: nat) {
    if d.record.None? then d.pending.Some? && d.admission == RecoveryRequired(transaction)
    else
      || d.pending == Some(Torn)
      || (d.admission.RecoveryRequired? && d.admission.transaction != transaction)
      || (!IntentPublished(d.admission, transaction) && !AllRemovable(d.tree, ClaimsOf(d)))
  }

  // ----- What a reconciliation leaves that did not end

  /** A complete tree that lost a part. */
  predicate Broken(t: Tree, c: OutputClaim) {
    c.phase.Complete? && c.IsTree() && c.path in t && exists r :: r in c.expected.value.artifacts && c.path + r !in t
  }

  /** Entries that claims cover are gone, and nothing else changed. */
  ghost predicate Less(claims: seq<OutputClaim>, t: Tree, t': Tree) {
    && (forall p :: p in t' ==> p in t && t'[p] == t[p])
    && (forall p :: p in t && p !in t' ==> exists k :: 0 <= k < |claims| && Covers(claims[k], p))
  }

  lemma LessGoesOn(claims: seq<OutputClaim>, t: Tree, t': Tree, t'': Tree, k: nat)
    requires Less(claims, t, t') && k < |claims| && OnlyRemoved(t', t'', claims[k])
    ensures Less(claims, t, t'')
  {
  }

  /** What a cleanup leaves can be removed as far as it could be before, except for a complete tree in
      which it stopped. */
  ghost predicate LeftBehind(claims: seq<OutputClaim>, t: Tree, t': Tree) {
    && Less(claims, t, t')
    && forall k :: 0 <= k < |claims| ==> (Removable(t', claims[k]) <==> Removable(t, claims[k]) && !Broken(t', claims[k]))
  }

  lemma BrokenIsStuck(t: Tree, c: OutputClaim)
    requires Broken(t, c)
    ensures !Removable(t, c)
  {
  }

  /** A part of what can be removed can be removed, unless it is a complete tree that lost a part. */
  lemma PartsAreRemovable(t: Tree, t': Tree, c: OutputClaim)
    requires Removable(t, c) && forall p :: p in t' ==> p in t && t'[p] == t[p]
    ensures Removable(t', c) <==> !Broken(t', c)
  {
    if Broken(t', c) {
      BrokenIsStuck(t', c);
    }
  }

  lemma CleanupEnds(claims: seq<OutputClaim>, t: Tree, t': Tree, t'': Tree, k: nat)
    requires k < |claims| && Less(claims, t, t'') && OnlyRemoved(t', t'', claims[k])
    requires t'' == t' || Removable(t', claims[k])
    requires forall j :: k < j < |claims| ==> claims[j].path !in t' && Removable(t, claims[j])
    requires forall j :: 0 <= j <= k ==> Removable(t', claims[j]) == Removable(t, claims[j])
    requires forall j :: 0 <= j < |claims| && j != k ==> Removable(t'', claims[j]) == Removable(t', claims[j])
    ensures LeftBehind(claims, t, t'')
  {
    forall j | 0 <= j < |claims|
      ensures Removable(t'', claims[j]) <==> Removable(t, claims[j]) && !Broken(t'', claims[j])
    {
      if Removable(t'', claims[j]) {
        PartsAreRemovable(t'', t'', claims[j]);
      }
      if j == k && t'' != t' {
        PartsAreRemovable(t', t'', claims[k]);
      }
    }
  }

  /** A reconciliation that stops or refuses changed nothing, or has taken the replacement away and maybe
      begun to clean up. */
  ghost predicate PartDone(a: Disk, b: Disk, transaction: nat) {
    || b == a
    || (&& a.record.Some? && a.pending != Some(Torn) && b == a.(pending := None, tree := b.tree)
        && LeftBehind(ClaimsOf(a), a.tree, b.tree)
        && (b.tree != a.tree ==> !IntentPublished(a.admission, transaction) && !a.admission.RecoveryRequired?))
  }

  /** A cleanup stopped inside a complete tree. */
  ghost predicate InPieces(d: Disk, transaction: nat) {
    && d.record.Some? && !IntentPublished(d.admission, transaction)
    && exists k :: 0 <= k < |ClaimsOf(d)| && Broken(d.tree, ClaimsOf(d)[k])
  }

  /** A reconciliation that did not end leaves the next one what it had itself, a complete tree in which
      it stopped excepted. */
  lemma BlockedAfter(a: Disk, b: Disk, transaction: nat)
    requires PartDone(a, b, transaction)
    ensures Blocked(b, transaction) <==> Blocked(a, transaction) || InPieces(b, transaction)
  {
    if InPieces(b, transaction) {
      var k :| 0 <= k < |ClaimsOf(b)| && Broken(b.tree, ClaimsOf(b)[k]);
      BrokenIsStuck(b.tree, ClaimsOf(b)[k]);
    }
  }

  lemma StillRemovable(base: Tree, d: Disk, before: Tree, k: nat)
    requires Owned(base, d) && k < |ClaimsOf(d)| && OnlyRemoved(before, d.tree, ClaimsOf(d)[k])
    ensures forall j :: 0 <= j < |ClaimsOf(d)| && j != k ==> Removable(d.tree, ClaimsOf(d)[j]) == Removable(before, ClaimsOf(d)[j])
  {
    ClaimsDistinct(base, d);
    forall j | 0 <= j < |ClaimsOf(d)| && j != k
      ensures Removable(d.tree, ClaimsOf(d)[j]) == Removable(before, ClaimsOf(d)[j])
    {
      RemovableElsewhere(base, before, d.tree, ClaimsOf(d), j, k);
    }
  }

  lemma ClaimsOfNone(base: Tree, d: Disk)
    requires Owned(base, d) && d.record.None?
    ensures d.tree == base
  {
    NothingLeft(base, d);
  }

  /** A whole replacement is always the next transition. */
  lemma PendingFollows(base: Tree, d: Disk)
    requires Owned(base, d) && d.record.Some? && d.pending.Some? && d.pending.value.Whole?
    ensures Transition(d.record.value, d.pending.value.record)
  {
    assert Sheet(d, 0);
  }

  lemma AdmissionPut(base: Tree, d: Disk, next: Disk)
    requires Owned(base, d) && next == d.(admission := next.admission)
    ensures Owned(base, next)
  {
    assert Sheet(d, 0);
  }

  /** Every part of an unfinished directory is planned, with its planned kind and mode. */
  predicate UnfinishedAsPlanned(t: Tree, c: OutputClaim) {
    forall q :: q in t && Under(q, c.path) ==>
      && c.IsTree() && q[|c.path|..] in c.expected.value.artifacts
      && ItemKindIs(t[q], c.expected.value.artifacts[q[|c.path|..]]) && t[q].mode == c.expected.value.artifacts[q[|c.path|..]].mode
  }

  lemma NothingBelowFile(t: Tree, p: FilePath)
    requires Closed(t) && p in t && t[p].File?
    ensures forall q :: q in t ==> !Under(q, p)
  {
    forall q | q in t ensures !Under(q, p) {
      if Under(q, p) {
        PrefixInside(t, q, p);
      }
    }
  }

  lemma OwnBelow(base: Tree, d: Disk, k: nat)
    requires Owned(base, d) && k < |ClaimsOf(d)|
    requires forall j :: k < j < |ClaimsOf(d)| ==> ClaimsOf(d)[j].path !in d.tree
    ensures forall q :: q in d.tree && Under(q, ClaimsOf(d)[k].path) ==> ClaimsOf(d)[k].IsTree() && Covers(ClaimsOf(d)[k], q)
  {
    forall q | q in d.tree && Under(q, ClaimsOf(d)[k].path)
      ensures ClaimsOf(d)[k].IsTree() && Covers(ClaimsOf(d)[k], q)
    {
      BelowIsItsOwn(base, d, k, q);
    }
  }

  lemma UnderIsTransitive(p: FilePath, q: FilePath, r: FilePath)
    requires Under(p, q) && Under(q, r)
    ensures Under(p, r)
  {
    assert p[..|r|] == q[..|r|];
  }

  /** Only what a claim covers is gone. */
  ghost predicate OnlyRemoved(t: Tree, t': Tree, c: OutputClaim) {
    forall p :: (p in t' ==> p in t && t'[p] == t[p]) && (p in t && p !in t' ==> Covers(c, p))
  }

  method Deepest(paths: set<FilePath>) returns (p: FilePath)
    requires paths != {}
    ensures p in paths && forall q :: q in paths ==> |q| <= |p|
  {
    p :| p in paths;
    var left := paths - {p};
    while left != {}
      invariant left <= paths && p in paths && forall q :: q in paths - left ==> |q| <= |p|
    {
      var q :| q in left;
      if |q| > |p| {
        p := q;
      }
      left := left - {q};
    }
  }
}
