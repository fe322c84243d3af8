/** The files of a preparation: what exists at each path, the ownership record written ahead of
    every creation, and what the record allows to be there. */
module PreparationFiles {
  import opened CouncilTypes

  type FilePath = seq<string>
  type Mode = set<nat>

  /** Owner read, write and search, as permission bits. */
  const PRIVATE_DIRECTORY: Mode := {6, 7, 8}

  datatype Entry = File(inode: nat, data: seq<bv8>, mode: Mode) | Directory(inode: nat, mode: Mode)

  type Tree = map<FilePath, Entry>

  datatype EntryKind = FileKind | DirectoryKind

  datatype Identity = Identity(inode: nat, kind: EntryKind)

  datatype Item = FileItem(data: seq<bv8>, mode: Mode) | DirectoryItem(mode: Mode)

  /** The planned final state of an output. */
  datatype Expected = ExpectedFile(data: seq<bv8>, mode: Mode) | ExpectedTree(mode: Mode, artifacts: map<FilePath, Item>)

  datatype ClaimPhase = Reserved | Incomplete | Complete

  datatype OutputClaim = OutputClaim(path: FilePath, parent: nat, expected: Option<Expected>, phase: ClaimPhase, identity: Option<Identity>) {
    /** A directory that other outputs are made in. */
    predicate Plain() { expected.None? && phase.Incomplete? }

    predicate IsTree() { expected.Some? && expected.value.ExpectedTree? }
  }

  /** The ownership record; the header stands for its format, transaction and roots. */
  datatype Record = Record(header: nat, claims: seq<OutputClaim>)

  /** A replacement being written beside the record. */
  datatype Pending = Torn | Whole(record: Record)

  /** What the admission file says of transactions. */
  datatype Admission = Idle | RecoveryRequired(transaction: nat) | CommittedBy(transaction: nat)

  datatype Disk = Disk(tree: Tree, record: Option<Record>, pending: Option<Pending>, admission: Admission)

  // ----- Paths

  function Parent(p: FilePath): FilePath
    requires p != []
  {
    p[..|p| - 1]
  }

  predicate Under(p: FilePath, q: FilePath) {
    |q| < |p| && p[..|q|] == q
  }

  function KindOf(e: Entry): EntryKind {
    if e.File? then FileKind else DirectoryKind
  }

  function IdentityOf(e: Entry): Identity {
    Identity(e.inode, KindOf(e))
  }

  function KindPlanned(e: Expected): EntryKind {
    if e.ExpectedFile? then FileKind else DirectoryKind
  }

  /** Everything lies in directories. */
  ghost predicate Closed(t: Tree) {
    && [] in t && t[[]].Directory?
    && forall p :: p in t && p != [] ==> Parent(p) in t && t[Parent(p)].Directory?
  }

  lemma {:induction false} PrefixInside(t: Tree, p: FilePath, q: FilePath)
    requires Closed(t) && p in t && Under(p, q)
    ensures q in t && t[q].Directory?
    decreases |p|
  {
    if |q| + 1 < |p| {
      assert Parent(p)[..|q|] == q;
      PrefixInside(t, Parent(p), q);
    } else {
      assert Parent(p) == q;
    }
  }

  // ----- Matching a planned state

  predicate ItemIs(e: Entry, i: Item) {
    match i
    case FileItem(data, mode) => e.File? && e.data == data && e.mode == mode
    case DirectoryItem(mode) => e.Directory? && e.mode == mode
  }

  predicate ItemKindIs(e: Entry, i: Item) {
    e.File? == i.FileItem?
  }

  predicate Planned(artifacts: map<FilePath, Item>, root: FilePath, p: FilePath) {
    Under(p, root) && p[|root|..] in artifacts
  }

  /** What is at a path is the planned state. */
  predicate Matches(t: Tree, p: FilePath, e: Expected) {
    p in t &&
    match e
    case ExpectedFile(data, mode) => t[p].File? && t[p].data == data && t[p].mode == mode
    case ExpectedTree(mode, artifacts) =>
      && t[p].Directory? && t[p].mode == mode
      && (forall r :: r in artifacts ==> p + r in t && ItemIs(t[p + r], artifacts[r]))
      && (forall q :: q in t && Under(q, p) ==> Planned(artifacts, p, q))
  }

  /** What is at a path below a tree is what is planned there. */
  predicate IsAsPlanned(t: Tree, artifacts: map<FilePath, Item>, p: FilePath, q: FilePath)
    requires Under(q, p)
  {
    if q[|p|..] in artifacts then q in t && ItemIs(t[q], artifacts[q[|p|..]]) else q !in t
  }

  /** A tree in its planned state has everything that is planned below it, as planned, and nothing else. */
  lemma MatchesIsWhole(t: Tree, p: FilePath, mode: Mode, artifacts: map<FilePath, Item>)
    requires [] !in artifacts
    ensures
      Matches(t, p, ExpectedTree(mode, artifacts)) <==>
        p in t && t[p].Directory? && t[p].mode == mode && forall q :: Under(q, p) ==> IsAsPlanned(t, artifacts, p, q)
  {
    if Matches(t, p, ExpectedTree(mode, artifacts)) {
      forall q | Under(q, p) ensures IsAsPlanned(t, artifacts, p, q) {
        assert q == p + q[|p|..];
      }
    }
    if p in t && t[p].Directory? && t[p].mode == mode && forall q :: Under(q, p) ==> IsAsPlanned(t, artifacts, p, q) {
      forall r | r in artifacts ensures p + r in t && ItemIs(t[p + r], artifacts[r]) {
        assert Under(p + r, p) && (p + r)[|p|..] == r;
      }
      forall q | q in t && Under(q, p) ensures Planned(artifacts, p, q) {
        assert IsAsPlanned(t, artifacts, p, q);
      }
    }
  }

  // ----- What the record allows

  predicate Covers(c: OutputClaim, p: FilePath) {
    p == c.path || (c.IsTree() && Planned(c.expected.value.artifacts, c.path, p))
  }

  /** What may exist at and below a claimed path. A tree may lack planned parts. */
  ghost predicate Held(t: Tree, c: OutputClaim) {
    c.path in t ==>
      var e := t[c.path];
      && (if c.expected.Some? then KindOf(e) == KindPlanned(c.expected.value) else e.Directory?)
      && match c.phase
         case Reserved =>
           (e.File? ==> e.data == []) && forall q :: q in t ==> !Under(q, c.path)
         case Incomplete =>
           && c.identity == Some(IdentityOf(e))
           && (c.IsTree() ==> forall q :: q in t && Under(q, c.path) ==>
                 Planned(c.expected.value.artifacts, c.path, q) && ItemKindIs(t[q], c.expected.value.artifacts[q[|c.path|..]]))
         case Complete =>
           && c.identity == Some(IdentityOf(e)) && c.expected.Some? && e.mode == c.expected.value.mode
           && (c.expected.value.ExpectedFile? ==> e.File? && e.data == c.expected.value.data)
           && (c.IsTree() ==> forall q :: q in t && Under(q, c.path) ==>
                 Planned(c.expected.value.artifacts, c.path, q) && ItemIs(t[q], c.expected.value.artifacts[q[|c.path|..]]))
  }

  /** What lets a cleanup remove a claim's output: the parts of an unfinished tree have their planned
      modes, and a complete output is whole. */
  predicate Removable(t: Tree, c: OutputClaim) {
    c.path in t ==>
      && (c.phase.Incomplete? && c.IsTree() ==>
            forall q :: q in t && Under(q, c.path) && q[|c.path|..] in c.expected.value.artifacts ==>
              t[q].mode == c.expected.value.artifacts[q[|c.path|..]].mode)
      && (c.phase.Complete? && c.expected.Some? ==> Matches(t, c.path, c.expected.value))
  }

  /** Claims were added in order, each in a directory that was there or was claimed and bound before. */
  ghost predicate Rooted(base: Tree, claims: seq<OutputClaim>) {
    && (forall k :: 0 <= k < |claims| ==> RootedAt(base, claims, k))
    && (forall j, k :: 0 <= j < k < |claims| ==> claims[j].path != claims[k].path)
  }

  ghost predicate RootedAt(base: Tree, claims: seq<OutputClaim>, k: nat)
    requires k < |claims|
  {
    && claims[k].path != [] && claims[k].path !in base
    && (if Parent(claims[k].path) in base then
          base[Parent(claims[k].path)].Directory? && base[Parent(claims[k].path)].inode == claims[k].parent
        else
          exists j :: 0 <= j < k && claims[j].path == Parent(claims[k].path) && claims[j].Plain()
                      && claims[j].identity == Some(Identity(claims[k].parent, DirectoryKind)))
    && (claims[k].phase.Reserved? <==> claims[k].identity.None?)
    && (claims[k].phase.Complete? ==> claims[k].expected.Some?)
  }

  function ClaimsOf(d: Disk): seq<OutputClaim> {
    if d.record.None? then [] else d.record.value.claims
  }

  ghost predicate Kept(base: Tree, t: Tree) {
    forall p :: p in base ==> p in t && t[p] == base[p]
  }

  ghost predicate Covered(base: Tree, t: Tree, claims: seq<OutputClaim>) {
    forall p :: p in t && p !in base ==> exists k :: 0 <= k < |claims| && Covers(claims[k], p)
  }

  // ----- The order of claims

  /** A claim below another came later, and the other is a plain directory. */
  lemma {:induction false} BelowIsLater(base: Tree, claims: seq<OutputClaim>, i: nat, j: nat)
    requires Closed(base) && Rooted(base, claims) && i < |claims| && j < |claims|
    requires Under(claims[j].path, claims[i].path)
    ensures i < j && claims[i].Plain()
    decreases |claims[j].path|
  {
    assert RootedAt(base, claims, j) && RootedAt(base, claims, i);
    var parent := Parent(claims[j].path);
    assert |claims[i].path| < |parent| ==> Under(parent, claims[i].path) by {
      assert |claims[i].path| < |parent| ==> parent[..|claims[i].path|] == claims[i].path;
    }
    assert |claims[i].path| == |parent| ==> parent == claims[i].path;
    if parent in base {
      if parent != claims[i].path {
        PrefixInside(base, parent, claims[i].path);
      }
      assert false;
    } else {
      var k :| 0 <= k < j && claims[k].path == parent && claims[k].Plain();
      if parent == claims[i].path {
        assert i == k;
      } else {
        BelowIsLater(base, claims, i, k);
      }
    }
  }

  /** What one claim covers is not at another's path, and below it only where that is a plain
      directory claimed before. */
  lemma Apart(base: Tree, claims: seq<OutputClaim>, j: nat, k: nat, p: FilePath)
    requires Closed(base) && Rooted(base, claims) && j < |claims| && k < |claims| && j != k
    requires Covers(claims[k], p)
    ensures p != claims[j].path
    ensures Under(p, claims[j].path) ==> j < k && claims[j].Plain()
  {
    var a, b := claims[j].path, claims[k].path;
    assert a != b;
    if p != b {
      if p == a {
        BelowIsLater(base, claims, k, j);
      } else if Under(p, a) {
        if |a| < |b| {
          assert b[..|a|] == p[..|a|];
          BelowIsLater(base, claims, j, k);
        } else if |b| < |a| {
          assert a[..|b|] == p[..|b|];
          BelowIsLater(base, claims, k, j);
        }
      }
    } else if Under(p, a) {
      BelowIsLater(base, claims, j, k);
    }
  }

  // ----- The record

  /** The one change of a claim that a replacement may make. */
  predicate Advances(before: OutputClaim, after: OutputClaim) {
    && after.path == before.path && after.parent == before.parent && after.expected == before.expected
    && if before.phase.Reserved? then after.phase.Incomplete? && after.identity.Some?
       else before.phase.Incomplete? && after.phase.Complete? && after.identity == before.identity
  }

  /** A record may gain one reserved claim, or one claim may advance. */
  predicate Transition(canonical: Record, next: Record) {
    var was, now := canonical.claims, next.claims;
    && next.header == canonical.header
    && if |now| == |was| + 1 then
         now[..|was|] == was && now[|was|].phase.Reserved? && now[|was|].identity.None?
       else
         |now| == |was| && exists k :: 0 <= k < |was| && now == was[k := now[k]] && now[k] != was[k] && Advances(was[k], now[k])
  }

  predicate RecordFollows(canonical: Option<Record>, next: Record) {
    if canonical.None? then next.claims == [] else Transition(canonical.value, next)
  }

  // ----- The invariant

  predicate Sheet(d: Disk, n: int) { true }

  ghost predicate AllHeld(t: Tree, claims: seq<OutputClaim>) {
    forall k :: 0 <= k < |claims| ==> Held(t, claims[k])
  }

  /** Whatever is there was there before or is covered by a claim, which it does not exceed. */
  ghost predicate Owned(base: Tree, d: Disk) {
    forall n {:trigger Sheet(d, n)} :: Sheet(d, n) ==>
      && Closed(base) && Closed(d.tree) && Kept(base, d.tree)
      && Covered(base, d.tree, ClaimsOf(d)) && Rooted(base, ClaimsOf(d)) && AllHeld(d.tree, ClaimsOf(d))
      && (d.pending.Some? && d.pending.value.Whole? ==> RecordFollows(d.record, d.pending.value.record))
  }

  lemma Fresh(base: Tree, d: Disk)
    requires Closed(base) && d.tree == base && d.record.None? && d.pending.None?
    ensures Owned(base, d)
  {
  }

  lemma CoveredIsNew(base: Tree, claims: seq<OutputClaim>, k: nat, p: FilePath)
    requires Closed(base) && Rooted(base, claims) && k < |claims| && Covers(claims[k], p)
    ensures p !in base && p != []
  {
    assert RootedAt(base, claims, k);
    if p in base && p != claims[k].path {
      PrefixInside(base, p, claims[k].path);
    }
  }

  lemma PutKeepsHeld(base: Tree, t: Tree, claims: seq<OutputClaim>, k: nat, p: FilePath, e: Entry, j: nat)
    requires Closed(base) && Rooted(base, claims) && k < |claims| && j < |claims| && j != k && Covers(claims[k], p)
    requires Held(t, claims[j])
    ensures Held(t[p := e], claims[j])
  {
    Apart(base, claims, j, k, p);
  }

  lemma PutKeepsClosed(t: Tree, p: FilePath, e: Entry)
    requires Closed(t) && p != [] && Parent(p) in t && t[Parent(p)].Directory?
    requires p in t ==> KindOf(t[p]) == KindOf(e)
    ensures Closed(t[p := e])
  {
    forall q | q in t[p := e] && q != [] ensures Parent(q) in t && t[Parent(q)].Directory? {
    }
  }

  /** An entry that a claim covers comes, or changes without becoming another. */
  lemma EntryPut(base: Tree, d: Disk, next: Disk, k: nat, p: FilePath, e: Entry)
    requires Owned(base, d) && k < |ClaimsOf(d)| && Covers(ClaimsOf(d)[k], p) && p != []
    requires Parent(p) in d.tree && d.tree[Parent(p)].Directory?
    requires p in d.tree ==> KindOf(d.tree[p]) == KindOf(e)
    requires next == d.(tree := d.tree[p := e]) && Held(next.tree, ClaimsOf(d)[k])
    ensures Owned(base, next)
  {
    assert Sheet(d, 0);
    var claims := ClaimsOf(d);
    CoveredIsNew(base, claims, k, p);
    PutKeepsClosed(d.tree, p, e);
    forall j | 0 <= j < |claims| && j != k ensures Held(next.tree, claims[j]) {
      PutKeepsHeld(base, d.tree, claims, k, p, e, j);
    }
  }

  lemma RemovalKeepsHeld(t: Tree, c: OutputClaim, p: FilePath)
    requires Held(t, c)
    ensures Held(t - {p}, c)
  {
  }

  lemma RemovalKeepsClosed(t: Tree, p: FilePath)
    requires Closed(t) && p != [] && forall q :: q in t ==> !Under(q, p)
    ensures Closed(t - {p})
  {
    forall q | q in t - {p} && q != [] ensures Parent(q) in t - {p} {
      assert !Under(q, p);
    }
  }

  /** An entry with nothing below it goes. */
  lemma EntryRemoved(base: Tree, d: Disk, next: Disk, p: FilePath)
    requires Owned(base, d) && p in d.tree && p !in base
    requires forall q :: q in d.tree ==> !Under(q, p)
    requires next == d.(tree := d.tree - {p})
    ensures Owned(base, next)
  {
    assert Sheet(d, 0);
    RemovalKeepsClosed(d.tree, p);
    forall k | 0 <= k < |ClaimsOf(d)| ensures Held(next.tree, ClaimsOf(d)[k]) {
      RemovalKeepsHeld(d.tree, ClaimsOf(d)[k], p);
    }
  }

  lemma PendingPut(base: Tree, d: Disk, next: Disk)
    requires Owned(base, d) && next == d.(pending := next.pending)
    requires next.pending.Some? && next.pending.value.Whole? ==> RecordFollows(d.record, next.pending.value.record)
    ensures Owned(base, next)
  {
    assert Sheet(d, 0);
  }

  predicate ParentReady(base: Tree, d: Disk, p: FilePath) {
    p != [] && Parent(p) in d.tree && d.tree[Parent(p)].Directory?
    && (Parent(p) in base || exists j :: 0 <= j < |ClaimsOf(d)| && ClaimsOf(d)[j].path == Parent(p) && ClaimsOf(d)[j].Plain())
  }

  lemma ClaimAdded(base: Tree, d: Disk, next: Disk, c: OutputClaim)
    requires Owned(base, d) && d.record.Some? && c.path !in d.tree && ParentReady(base, d, c.path)
    requires forall k :: 0 <= k < |ClaimsOf(d)| ==> ClaimsOf(d)[k].path != c.path
    requires c.phase.Reserved? && c.identity.None? && c.parent == d.tree[Parent(c.path)].inode
    requires next == d.(record := Some(Record(d.record.value.header, ClaimsOf(d) + [c])), pending := None)
    ensures Owned(base, next) && Transition(d.record.value, next.record.value)
  {
    assert Sheet(d, 0);
    var claims, claims' := ClaimsOf(d), ClaimsOf(next);
    assert claims'[..|claims|] == claims;
    forall k | 0 <= k < |claims'| ensures RootedAt(base, claims', k) {
      if k < |claims| {
        assert RootedAt(base, claims, k);
      } else if Parent(c.path) !in base {
        var j :| 0 <= j < |claims| && claims[j].path == Parent(c.path) && claims[j].Plain();
        assert Held(d.tree, claims[j]) && claims'[j] == claims[j];
      }
    }
    forall p | p in next.tree && p !in base ensures exists k :: 0 <= k < |claims'| && Covers(claims'[k], p) {
      var k :| 0 <= k < |claims| && Covers(claims[k], p);
      assert Covers(claims'[k], p);
    }
  }

  lemma ClaimAdvanced(base: Tree, d: Disk, next: Disk, k: nat, c: OutputClaim)
    requires Owned(base, d) && d.record.Some? && k < |ClaimsOf(d)| && Advances(ClaimsOf(d)[k], c)
    requires Held(d.tree, c) && (c.phase.Complete? ==> c.expected.Some?) && c.identity.Some?
    requires next == d.(record := Some(Record(d.record.value.header, ClaimsOf(d)[k := c])), pending := None)
    ensures Owned(base, next) && Transition(d.record.value, next.record.value)
  {
    assert Sheet(d, 0);
    var claims, claims' := ClaimsOf(d), ClaimsOf(next);
    assert claims'[k] == c && c != claims[k];
    forall i | 0 <= i < |claims'| ensures RootedAt(base, claims', i) {
      assert RootedAt(base, claims, i);
      if Parent(claims[i].path) !in base {
        var j :| 0 <= j < i && claims[j].path == Parent(claims[i].path) && claims[j].Plain()
                 && claims[j].identity == Some(Identity(claims[i].parent, DirectoryKind));
        assert claims'[j] == claims[j];
      }
    }
    forall p | p in next.tree && p !in base ensures exists i :: 0 <= i < |claims'| && Covers(claims'[i], p) {
      var i :| 0 <= i < |claims| && Covers(claims[i], p);
      assert Covers(claims'[i], p);
    }
  }

  lemma RecordStarts(base: Tree, d: Disk, next: Disk, header: nat)
    requires Owned(base, d) && d.record.None?
    requires next == d.(record := Some(Record(header, [])), pending := None)
    ensures Owned(base, next)
  {
    assert Sheet(d, 0);
  }

  /** Without an output of any claim, everything is as it was. */
  lemma NothingLeft(base: Tree, d: Disk)
    requires Owned(base, d) && forall k :: 0 <= k < |ClaimsOf(d)| ==> ClaimsOf(d)[k].path !in d.tree
    ensures d.tree == base
  {
    assert Sheet(d, 0);
    var claims := ClaimsOf(d);
    forall p ensures p in d.tree <==> p in base {
      if p in d.tree && p !in base {
        var k :| 0 <= k < |claims| && Covers(claims[k], p);
        if p != claims[k].path {
          PrefixInside(d.tree, p, claims[k].path);
        }
      }
    }
  }

  lemma RecordRetired(base: Tree, d: Disk, next: Disk)
    requires Owned(base, d) && d.tree == base && next == d.(record := None, pending := None)
    ensures Owned(base, next)
  {
    assert Sheet(d, 0);
  }

  // ----- What a cleanup meets

  lemma ClaimKnown(base: Tree, d: Disk, k: nat)
    requires Owned(base, d) && k < |ClaimsOf(d)|
    ensures
      var c := ClaimsOf(d)[k];
      && c.path != [] && c.path !in base && Held(d.tree, c) && (c.phase.Complete? ==> c.expected.Some?)
      && (c.phase.Reserved? <==> c.identity.None?)
      && (c.path in d.tree ==> Parent(c.path) in d.tree && d.tree[Parent(c.path)].Directory? && d.tree[Parent(c.path)].inode == c.parent)
  {
    assert Sheet(d, 0);
    var claims := ClaimsOf(d);
    assert RootedAt(base, claims, k);
    if claims[k].path in d.tree && Parent(claims[k].path) !in base {
      var j :| 0 <= j < k && claims[j].path == Parent(claims[k].path) && claims[j].Plain()
               && claims[j].identity == Some(Identity(claims[k].parent, DirectoryKind));
      assert Held(d.tree, claims[j]);
    }
  }

  lemma ClaimsDistinct(base: Tree, d: Disk)
    requires Owned(base, d)
    ensures Closed(base) && Closed(d.tree) && Rooted(base, ClaimsOf(d)) && Kept(base, d.tree)
  {
    assert Sheet(d, 0);
  }

  /** Once the later claims' outputs are gone, what lies below a claim is its own. */
  lemma BelowIsItsOwn(base: Tree, d: Disk, k: nat, p: FilePath)
    requires Owned(base, d) && k < |ClaimsOf(d)|
    requires forall j :: k < j < |ClaimsOf(d)| ==> ClaimsOf(d)[j].path !in d.tree
    requires p in d.tree && Under(p, ClaimsOf(d)[k].path)
    ensures ClaimsOf(d)[k].IsTree() && Covers(ClaimsOf(d)[k], p) && p !in base
  {
    assert Sheet(d, 0);
    var claims := ClaimsOf(d);
    assert RootedAt(base, claims, k);
    if p in base {
      PrefixInside(base, p, claims[k].path);
    }
    var j :| 0 <= j < |claims| && Covers(claims[j], p);
    if p != claims[j].path {
      PrefixInside(d.tree, p, claims[j].path);
    }
    if j != k {
      Apart(base, claims, k, j, p);
    }
  }

  // ----- Removability

  lemma RemovableElsewhere(base: Tree, t: Tree, t': Tree, claims: seq<OutputClaim>, j: nat, k: nat)
    requires Closed(base) && Rooted(base, claims) && j < |claims| && k < |claims| && j != k
    requires forall p :: !Covers(claims[k], p) ==> (p in t <==> p in t') && (p in t ==> t[p] == t'[p])
    ensures Removable(t, claims[j]) == Removable(t', claims[j])
  {
    forall p | Covers(claims[k], p)
      ensures p != claims[j].path && (Under(p, claims[j].path) ==> claims[j].Plain())
    {
      Apart(base, claims, j, k, p);
    }
    if claims[j].IsTree() {
      forall r | r in claims[j].expected.value.artifacts
        ensures !Covers(claims[k], claims[j].path + r)
      {
        assert (claims[j].path + r)[..|claims[j].path|] == claims[j].path;
        assert r == [] ==> claims[j].path + r == claims[j].path;
      }
    }
  }

  lemma MatchIsHeld(t: Tree, c: OutputClaim)
    requires c.expected.Some? && c.phase.Complete? && c.path in t && c.identity == Some(IdentityOf(t[c.path]))
    requires Matches(t, c.path, c.expected.value)
    ensures Held(t, c)
  {
    if c.IsTree() {
      forall q | q in t && Under(q, c.path)
        ensures ItemIs(t[q], c.expected.value.artifacts[q[|c.path|..]])
      {
        assert c.path + q[|c.path|..] == q;
      }
    }
  }
}
