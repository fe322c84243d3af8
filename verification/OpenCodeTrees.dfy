/** The tree of a configuration after each patch. */
module OpenCodeTrees {
  import opened CouncilTypes
  import opened Bytes
  import opened JsonGrammar
  import opened JsonParser
  import opened JsonAgreement
  import opened JsonCompleteness
  import opened JsonEdit
  import opened JsonLists
  import opened JsonNodes
  import opened OpenCodePlan

  // ----- The patched document

  function Growth(p: BytePatch): int { |p.replacement| - (p.end - p.start) }

  lemma PatchEdits(p: BytePatch, raw: seq<byte>, raw': seq<byte>, x: nat, y: nat, k: int)
    requires Candidate(p, raw) == Some(raw') && x == p.start && y == p.end && k == Growth(p)
    ensures Edited(raw, raw', x, y, k)
    ensures raw'[x..x + |p.replacement|] == p.replacement
  {
  }

  function NewEntry(x: nat): Node { Text(x, x + 21, MARKER) }

  function NewMember(x: nat): Member { Member(PLUGIN, x, x + 8, Array(x + 9, x + 32, [NewEntry(x + 10)])) }

  lemma EntryThere(raw: seq<byte>, x: nat, room: nat)
    requires x + 21 <= |raw| && raw[x..x + 21] == ENTRY
    ensures Fit(raw, NewEntry(x), room).Proper?
  {
    assert raw[x] == raw[x..x + 21][0] && raw[x + 20] == raw[x..x + 21][20];
    Part(raw, x, x + 21, 1, 20);
    assert ENTRY[1..20] == MARKER;
    PlainIsItself(MARKER);
  }

  lemma MemberThere(raw: seq<byte>, x: nat, room: nat, inner: nat)
    requires x + 32 <= |raw| && raw[x..x + 32] == MEMBER && inner == room - 1
    ensures Keyed(raw, NewMember(x)).Proper? && Fit(raw, NewMember(x).value, room).Proper?
  {
    var t := raw[x..x + 32];
    assert forall i :: 0 <= i < 32 ==> raw[x + i] == t[i];
    MemberKeyThere(raw, x);
    MemberValueThere(raw, x, room, inner);
  }

  lemma MemberKeyThere(raw: seq<byte>, x: nat)
    requires x + 32 <= |raw| && raw[x..x + 32] == MEMBER
    ensures Keyed(raw, NewMember(x)).Proper?
  {
    var t := raw[x..x + 32];
    assert raw[x] == t[0] && raw[x + 7] == t[7] && raw[x + 8] == t[8];
    Part(raw, x, x + 32, 1, 7);
    assert t[1..7] == PLUGIN;
    PlainIsItself(PLUGIN);
    assert Blank(raw, x + 8, x + 8) && Blank(raw, (x + 8) + 1, x + 9);
    assert Separated(raw, x + 8, x + 9, COLON);
  }

  lemma MemberValueThere(raw: seq<byte>, x: nat, room: nat, inner: nat)
    requires x + 32 <= |raw| && raw[x..x + 32] == MEMBER && inner == room - 1
    ensures Fit(raw, NewMember(x).value, room).Proper?
  {
    var t, items := raw[x..x + 32], [NewEntry(x + 10)];
    assert raw[x + 9] == t[9] && raw[x + 31] == t[31];
    Part(raw, x, x + 32, 10, 31);
    assert t[10..31] == ENTRY;
    EntryThere(raw, x + 10, inner);
    AllReadIsListed(raw, ItemSpans(items), x + 10, x + 31);
    ArrayFits(raw, x + 9, x + 10, x + 31, x + 32, items, room, inner);
  }

  // ----- The trees

  /** The plugin list with one entry more. */
  function GrownList(a: Node): Node
    requires a.Array?
  {
    if a.items == [] then Array(a.start, a.end + 21, [NewEntry(a.start + 1)])
    else Array(a.start, a.end + 22, a.items + [NewEntry(a.items[|a.items| - 1].end + 1)])
  }

  function EnsureTree(root: Node, plugin: Option<nat>): Node
    requires root.Object?
    requires plugin.Some? ==> plugin.value < |root.members| && root.members[plugin.value].value.Array?
  {
    match plugin
    case None =>
      if root.members == [] then Object(root.start, root.end + 32, [NewMember(root.start + 1)])
      else
        var last := root.members[|root.members| - 1].value.end;
        Object(root.start, root.end + 33, root.members + [NewMember(last + 1)])
    case Some(m) =>
      var a := root.members[m].value;
      var k := if a.items == [] then 21 else 22;
      Object(root.start, root.end + k, PatchedMembers(root.members, m, k, GrownList(a)))
  }

  /** The plugin list with one entry less. */
  function ShrunkList(a: Node, i: nat): Node
    requires a.Array? && i < |a.items|
  {
    var k := Growth(RemovePatch(a.items, i));
    Array(a.start, Shift(a.end, k), KeptItems(a.items, i, k))
  }

  function RemoveTree(root: Node, m: nat, i: nat): Node
    requires root.Object? && m < |root.members|
    requires root.members[m].value.Array? && i < |root.members[m].value.items|
  {
    var a := root.members[m].value;
    var k := Growth(RemovePatch(a.items, i));
    Object(root.start, Shift(root.end, k), PatchedMembers(root.members, m, k, ShrunkList(a, i)))
  }

  // ----- Ensuring

  const ROOM := MAX_JSON_DEPTH

  lemma FindUnseen(members: seq<Member>, key: seq<byte>)
    requires Find(members, key).None?
    ensures !Seen(members, key)
  {
  }

  lemma EnsureMember(raw: seq<byte>, raw': seq<byte>, root: Node)
    requires root.Object? && Fit(raw, root, ROOM).Proper? && Find(root.members, PLUGIN).None?
    requires Candidate(EnsurePatch(root, None), raw) == Some(raw')
    ensures Fit(raw', EnsureTree(root, None), ROOM).Proper?
  {
    FindUnseen(root.members, PLUGIN);
    if root.members == [] {
      var x := root.start + 1;
      PatchEdits(EnsurePatch(root, None), raw, raw', x, x, 32);
      MemberThere(raw', x, ROOM - 1, ROOM - 2);
      MemberAppended(raw, raw', root, ROOM, ROOM - 1, x, 32, NewMember(x), root.end + 32);
      assert root.members + [NewMember(x)] == [NewMember(x)];
    } else {
      var x := root.members[|root.members| - 1].value.end;
      PatchEdits(EnsurePatch(root, None), raw, raw', x, x, 33);
      AfterComma(raw', x, 33, MEMBER);
      MemberThere(raw', x + 1, ROOM - 1, ROOM - 2);
      MemberAppended(raw, raw', root, ROOM, ROOM - 1, x, 33, NewMember(x + 1), root.end + 33);
    }
  }

  lemma AfterComma(raw: seq<byte>, x: nat, k: nat, text: seq<byte>)
    requires x + k <= |raw| && raw[x..x + k] == [COMMA] + text
    ensures raw[x] == COMMA && raw[x + 1..x + k] == text
  {
    assert raw[x] == raw[x..x + k][0];
    Part(raw, x, x + k, 1, k);
    assert ([COMMA] + text)[1..k] == text;
  }

  /** The entry in an empty list. */
  lemma FirstEntry(raw: seq<byte>, raw': seq<byte>, a: Node, room: nat, inner: nat, x: nat)
    requires a.Array? && a.items == [] && Fit(raw, a, room).Proper? && inner == room - 1 && x == a.start + 1
    requires Edited(raw, raw', x, x, 21) && raw'[x..x + 21] == ENTRY
    ensures Fit(raw', GrownList(a), room).Proper? && a.start < x < a.end
  {
    EntryThere(raw', x, inner);
    ArrayPlace(raw, a, room, inner, x);
    ArrayAppended(raw, raw', a, room, inner, x, 21, NewEntry(x), a.end + 21);
    assert a.items + [NewEntry(x)] == [NewEntry(x)];
  }

  /** The entry behind the last one. */
  lemma NextEntry(raw: seq<byte>, raw': seq<byte>, a: Node, room: nat, inner: nat, x: nat)
    requires a.Array? && a.items != [] && Fit(raw, a, room).Proper? && inner == room - 1 && x == a.items[|a.items| - 1].end
    requires Edited(raw, raw', x, x, 22) && raw'[x..x + 22] == [COMMA] + ENTRY
    ensures Fit(raw', GrownList(a), room).Proper? && a.start < x < a.end
  {
    AfterComma(raw', x, 22, ENTRY);
    EntryThere(raw', x + 1, inner);
    ArrayPlace(raw, a, room, inner, x);
    ArrayAppended(raw, raw', a, room, inner, x, 22, NewEntry(x + 1), a.end + 22);
  }

  lemma EnsureEntry(raw: seq<byte>, raw': seq<byte>, root: Node, m: nat)
    requires root.Object? && Fit(raw, root, ROOM).Proper? && m < |root.members| && root.members[m].value.Array?
    requires Candidate(EnsurePatch(root, Some(m)), raw) == Some(raw')
    ensures Fit(raw', EnsureTree(root, Some(m)), ROOM).Proper?
  {
    var a := root.members[m].value;
    var room, inner := ROOM - 1, ROOM - 2;
    MemberFits(raw, root, m, room);
    if a.items == [] {
      var x := a.start + 1;
      PatchEdits(EnsurePatch(root, Some(m)), raw, raw', x, x, 21);
      FirstEntry(raw, raw', a, room, inner, x);
      MemberPatched(raw, raw', root, ROOM, room, m, x, x, 21, GrownList(a), root.end + 20, root.end + 21);
    } else {
      var x := a.items[|a.items| - 1].end;
      PatchEdits(EnsurePatch(root, Some(m)), raw, raw', x, x, 22);
      NextEntry(raw, raw', a, room, inner, x);
      MemberPatched(raw, raw', root, ROOM, room, m, x, x, 22, GrownList(a), root.end + 21, root.end + 22);
    }
  }

  lemma ArrayPlace(raw: seq<byte>, a: Node, room: int, inner: int, x: nat)
    requires a.Array? && Fit(raw, a, room).Proper? && inner == room - 1
    requires if a.items == [] then x == a.start + 1 else x == a.items[|a.items| - 1].end
    ensures a.start < x < a.end
  {
    ItemFacts(raw, a, room, inner);
    AppendPlace(raw, ItemSpans(a.items), a.start + 1, a.end - 1, x);
  }

  // ----- Removing

  lemma RemoveFromList(
    raw: seq<byte>, raw': seq<byte>, a: Node, i: nat, room: nat, inner: int, p: BytePatch, k: int, end': nat)
    requires a.Array? && i < |a.items| && Fit(raw, a, room).Proper? && inner == room - 1
    requires p == RemovePatch(a.items, i) && Covers(ItemSpans(a.items), i, p.start, p.end)
    requires Edited(raw, raw', p.start, p.end, k) && k == p.start - p.end && end' == a.end + k && 0 < end'
    ensures Fit(raw', ShrunkList(a, i), room).Proper?
    ensures ShrunkList(a, i).start == a.start && ShrunkList(a, i).end == end'
  {
    ArrayDeleted(raw, raw', a, room, inner, i, p.start, p.end, k, end' - 1, end');
  }

  lemma RemoveEntry(raw: seq<byte>, raw': seq<byte>, root: Node, m: nat, i: nat)
    requires root.Object? && Fit(raw, root, ROOM).Proper? && m < |root.members| && root.members[m].value.Array?
    requires i < |root.members[m].value.items|
    requires Candidate(RemovePatch(root.members[m].value.items, i), raw) == Some(raw')
    ensures Fit(raw', RemoveTree(root, m, i), ROOM).Proper?
  {
    var a := root.members[m].value;
    var room, inner := ROOM - 1, ROOM - 2;
    var p := RemovePatch(a.items, i);
    var k := Growth(p);
    MemberFits(raw, root, m, room);
    RemovePlace(raw, root, m, i, room, inner);
    PatchEdits(p, raw, raw', p.start, p.end, k);
    RemoveFromList(raw, raw', a, i, room, inner, p, k, a.end + k);
    MemberPatched(raw, raw', root, ROOM, room, m, p.start, p.end, k, ShrunkList(a, i), root.end + k - 1, root.end + k);
  }

  lemma MemberFits(raw: seq<byte>, root: Node, m: nat, room: int)
    requires root.Object? && Fit(raw, root, ROOM).Proper? && m < |root.members| && room == ROOM - 1
    ensures Fit(raw, root.members[m].value, room).Proper?
  {
    MemberFacts(raw, root, ROOM, room);
  }

  lemma RemovePlace(raw: seq<byte>, root: Node, m: nat, i: nat, room: int, inner: int)
    requires root.Object? && Fit(raw, root, ROOM).Proper? && m < |root.members| && root.members[m].value.Array?
    requires i < |root.members[m].value.items| && room == ROOM - 1 && inner == room - 1
    ensures
      var a := root.members[m].value;
      var p := RemovePatch(a.items, i);
      && Covers(ItemSpans(a.items), i, p.start, p.end)
      && a.start < p.start <= p.end < a.end < root.end <= |raw|
      && p.end - p.start < a.end
  {
    var a := root.members[m].value;
    var p := RemovePatch(a.items, i);
    MemberFacts(raw, root, ROOM, room);
    SpansInOrder(raw, MemberSpans(root.members), root.start + 1, root.end - 1, m);
    ItemFacts(raw, a, room, inner);
    DeletePlace(raw, ItemSpans(a.items), a.start + 1, a.end - 1, i, p.start, p.end);
  }

  // ----- Counting

  lemma EnsureCount(root: Node, plugin: Option<nat>)
    requires root.Object?
    requires plugin.Some? ==> plugin.value < |root.members| && root.members[plugin.value].value.Array?
    ensures Count(EnsureTree(root, plugin)) == Count(root) + if plugin.None? then 2 else 1
  {
    match plugin {
      case None => EnsureMemberCount(root);
      case Some(m) =>
        var a := root.members[m].value;
        GrownCount(a);
        PatchedCount(root.members, m, if a.items == [] then 21 else 22, GrownList(a));
    }
  }

  lemma EnsureMemberTree(root: Node) returns (x: nat)
    requires root.Object?
    ensures EnsureTree(root, None).Object? && EnsureTree(root, None).members == root.members + [NewMember(x)]
  {
    if root.members == [] {
      x := root.start + 1;
      var added := [NewMember(x)];
      assert root.members + added == added;
    } else {
      x := root.members[|root.members| - 1].value.end + 1;
    }
  }

  lemma EnsureMemberCount(root: Node)
    requires root.Object?
    ensures Count(EnsureTree(root, None)) == Count(root) + 2
  {
    var x := EnsureMemberTree(root);
    var m := NewMember(x);
    NewMemberCount(x);
    MembersCountGrows(root.members, m);
  }

  lemma GrownCount(a: Node)
    requires a.Array?
    ensures Count(GrownList(a)) == Count(a) + 1
  {
    var x := if a.items == [] then a.start + 1 else a.items[|a.items| - 1].end + 1;
    ItemsCountGrows(a.items, NewEntry(x));
    assert GrownList(a).items == a.items + [NewEntry(x)];
  }

  lemma NewMemberCount(x: nat)
    ensures Count(NewMember(x).value) == 2
  {
    var items := [NewEntry(x + 10)];
    assert items[..0] == [];
    assert ItemsCount(items[..0]) == 0;
    assert ItemsCount(items) == Count(items[0]);
  }

  lemma RemoveCount(root: Node, m: nat, i: nat)
    requires root.Object? && m < |root.members|
    requires root.members[m].value.Array? && i < |root.members[m].value.items|
    ensures Count(RemoveTree(root, m, i)) == Count(root) - Count(root.members[m].value.items[i])
  {
    var a := root.members[m].value;
    var k := Growth(RemovePatch(a.items, i));
    KeptCount(a.items, i, k);
    PatchedCount(root.members, m, k, ShrunkList(a, i));
  }
}
