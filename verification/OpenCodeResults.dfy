/** The planned edits are exact: they add or remove one entry, change nothing else by a byte, pass
    every check within the parser's limits, and undo one another. */
module OpenCodeResults {
  import opened CouncilTypes
  import opened Bytes
  import opened JsonGrammar
  import opened JsonParser
  import opened JsonAgreement
  import opened JsonCompleteness
  import opened JsonEdit
  import opened JsonLists
  import opened JsonNodes
  import opened OpenCodePlan
  import opened OpenCodeTrees
  import opened OpenCodeChecks

  // ----- Planning

  datatype Ownership = Unrecorded | Owned | Mismatched

  datatype Plan = Refuse | Unchanged | Edit(patch: BytePatch)

  /** The decision on an operation. */
  function PlanFor(operation: Operation, raw: seq<byte>, ownership: Ownership): Plan {
    match Parse(raw)
    case Err(_) => Refuse
    case Ok(root, _, _) =>
      match ShapeOf(root)
      case BadShape => Refuse
      case Shape(plugin, exact, aliases) =>
        if aliases != {} || |exact| > 1 then Refuse
        else if exact == {} then
          if operation.Ensure? then Edit(EnsurePatch(root, plugin))
          else if ownership.Unrecorded? then Unchanged
          else Refuse
        else if ownership.Mismatched? then Refuse
        else if operation.Ensure? || ownership.Unrecorded? then Unchanged
        else
          var i := TheOnly(exact);
          var items := Entries(root, plugin);
          if i < |items| then Edit(RemovePatch(items, i)) else Refuse
  }

  function TheOnly(s: set<nat>): (x: nat)
    requires |s| == 1
    ensures s == {x}
  {
    SingletonHasOne(s);
    var x :| x in s;
    x
  }

  lemma SingletonHasOne(s: set<nat>)
    requires |s| == 1
    ensures forall x, y :: x in s && y in s ==> x == y
    ensures exists x :: x in s
    ensures forall x :: x in s ==> s == {x}
  {
    var x :| x in s;
    forall y | y in s
      ensures y == x
    {
      assert |s - {x}| == 0;
    }
  }

  // ----- Adding the entry

  function Added(plugin: Option<nat>): nat { if plugin.None? then 2 else 1 }

  /** A document whose configuration has no plugin entry. */
  ghost predicate LacksPlugin(raw: seq<byte>, root: Node, plugin: Option<nat>) {
    |raw| <= MAX_CONFIG_BYTES && Document(raw, root) && ShapeOf(root) == Shape(plugin, {}, {})
  }

  lemma ShapeFinds(root: Node)
    requires ShapeOf(root).Shape?
    ensures Find(root.members, PLUGIN) == ShapeOf(root).plugin && Find(root.members, PLUGINS).None?
  {
  }

  lemma EnsureFits(raw: seq<byte>, raw': seq<byte>, root: Node, plugin: Option<nat>)
    requires LacksPlugin(raw, root, plugin) && Candidate(EnsurePatch(root, plugin), raw) == Some(raw')
    ensures Fit(raw', EnsureTree(root, plugin), ROOM).Proper?
  {
    DocumentFits(raw, root);
    ShapeFinds(root);
    match plugin {
      case None => EnsureMember(raw, raw', root);
      case Some(m) => EnsureEntry(raw, raw', root, m);
    }
  }

  lemma EnsureLength(root: Node, plugin: Option<nat>)
    requires root.Object? && (plugin.Some? ==> plugin.value < |root.members| && root.members[plugin.value].value.Array?)
    ensures EnsurePatch(root, plugin).start == EnsurePatch(root, plugin).end
    ensures EnsureTree(root, plugin).end == root.end + |EnsurePatch(root, plugin).replacement|
  {
  }

  /** Where the new bytes go, and what they are. */
  lemma EnsurePlace(raw: seq<byte>, root: Node, plugin: Option<nat>) returns (x: nat, k: nat)
    requires LacksPlugin(raw, root, plugin)
    ensures EnsurePatch(root, plugin).start == EnsurePatch(root, plugin).end == x < |raw|
    ensures k == |EnsurePatch(root, plugin).replacement| && EnsureTree(root, plugin).end == root.end + k
    ensures root.start < x < root.end <= |raw| && AsciiAround(raw, x) && Utf8(EnsurePatch(root, plugin).replacement)
    ensures plugin.Some? ==> root.members[plugin.value].value.start < x < root.members[plugin.value].value.end
  {
    DocumentFits(raw, root);
    EntryIsUtf8();
    EnsureLength(root, plugin);
    x, k := EnsurePatch(root, plugin).start, |EnsurePatch(root, plugin).replacement|;
    match plugin {
      case None => MemberPlace(raw, root, x);
      case Some(m) =>
        ValuePlace(raw, root, m, ROOM - 1);
        EntryPlace(raw, root.members[m].value, ROOM - 1, ROOM - 2, x);
    }
  }

  lemma MemberPlace(raw: seq<byte>, root: Node, x: nat)
    requires root.Object? && Fit(raw, root, ROOM).Proper?
    requires if root.members == [] then x == root.start + 1 else x == root.members[|root.members| - 1].value.end
    ensures root.start < x < root.end <= |raw| && AsciiAround(raw, x)
  {
    var spans := MemberSpans(root.members);
    MemberFacts(raw, root, ROOM, ROOM - 1);
    AppendPlace(raw, spans, root.start + 1, root.end - 1, x);
    if root.members != [] {
      EndIsAscii(raw, spans, root.start + 1, root.end - 1, |spans| - 1);
    }
  }

  lemma ValuePlace(raw: seq<byte>, root: Node, m: nat, room: int)
    requires root.Object? && Fit(raw, root, ROOM).Proper? && m < |root.members| && room == ROOM - 1
    ensures root.start < root.members[m].value.start < root.members[m].value.end < root.end <= |raw|
    ensures Fit(raw, root.members[m].value, room).Proper?
  {
    MemberFacts(raw, root, ROOM, room);
    SpansInOrder(raw, MemberSpans(root.members), root.start + 1, root.end - 1, m);
  }

  lemma EntryPlace(raw: seq<byte>, a: Node, room: int, inner: int, x: nat)
    requires a.Array? && Fit(raw, a, room).Proper? && inner == room - 1
    requires if a.items == [] then x == a.start + 1 else x == a.items[|a.items| - 1].end
    ensures a.start < x < a.end && AsciiAround(raw, x)
  {
    ItemFacts(raw, a, room, inner);
    ArrayPlace(raw, a, room, inner, x);
    if a.items != [] {
      EndIsAscii(raw, ItemSpans(a.items), a.start + 1, a.end - 1, |a.items| - 1);
    }
  }

  /** Adding the entry gives the expected document, if it is not too large. */
  lemma EnsureParses(raw: seq<byte>, raw': seq<byte>, root: Node, plugin: Option<nat>)
    requires LacksPlugin(raw, root, plugin) && Candidate(EnsurePatch(root, plugin), raw) == Some(raw')
    ensures Parse(raw').Ok? <==>
      |raw| + |EnsurePatch(root, plugin).replacement| <= MAX_CONFIG_BYTES && Count(root) + Added(plugin) <= MAX_JSON_NODES
    ensures Parse(raw').Ok? ==> Parse(raw').value == EnsureTree(root, plugin)
  {
    var tree, patch := EnsureTree(root, plugin), EnsurePatch(root, plugin);
    DocumentFits(raw, root);
    var x, k := EnsurePlace(raw, root, plugin);
    PatchEdits(patch, raw, raw', x, x, k);
    EnsureFits(raw, raw', root, plugin);
    PatchUtf8(patch, raw, raw');
    BlankBefore(raw, raw', x, x, k, 0, root.start);
    BlankBehind(raw, raw', x, x, k, root.end, |raw|);
    EnsureCount(root, plugin);
    ParseIsTree(raw', tree);
  }

  lemma EnsureShape(root: Node, plugin: Option<nat>)
    requires ShapeOf(root) == Shape(plugin, {}, {})
    ensures
      var tree, entries := EnsureTree(root, plugin), Entries(root, plugin);
      ShapeOf(tree) == Shape(Some(if plugin.None? then |root.members| else plugin.value), {|entries|}, {})
  {
    ShapeFinds(root);
    match plugin {
      case None => EnsureMemberShape(root);
      case Some(m) => EnsureEntryShape(root, m);
    }
  }

  lemma EnsureMemberShape(root: Node)
    requires ShapeOf(root) == Shape(None, {}, {})
    ensures ShapeOf(EnsureTree(root, None)) == Shape(Some(|root.members|), {0}, {})
  {
    ShapeFinds(root);
    var x := EnsureMemberTree(root);
    FindAppended(root.members, NewMember(x), PLUGIN);
    FindAppended(root.members, NewMember(x), PLUGINS);
    var items := [NewEntry(x + 10)];
    assert [] + items == items;
    GrownKinds([], x + 10, Exact);
    GrownKinds([], x + 10, Alias);
    GrownKinds([], x + 10, Unsupported);
  }

  lemma EnsureEntryShape(root: Node, m: nat)
    requires ShapeOf(root) == Shape(Some(m), {}, {})
    ensures ShapeOf(EnsureTree(root, Some(m))) == Shape(Some(m), {|root.members[m].value.items|}, {})
  {
    var a := root.members[m].value;
    var k := if a.items == [] then 21 else 22;
    var patched := PatchedMembers(root.members, m, k, GrownList(a));
    ShapeFinds(root);
    forall j | 0 <= j < |root.members|
      ensures j < |patched| && root.members[j].key == patched[j].key
    {
      PatchedAt(root.members, m, k, GrownList(a), j);
    }
    FindSame(root.members, patched, PLUGIN);
    FindSame(root.members, patched, PLUGINS);
    PatchedAt(root.members, m, k, GrownList(a), m);
    var x := GrownItems(a);
    GrownKinds(a.items, x, Exact);
    GrownKinds(a.items, x, Alias);
    GrownKinds(a.items, x, Unsupported);
  }

  lemma GrownItems(a: Node) returns (x: nat)
    requires a.Array?
    ensures GrownList(a).items == a.items + [NewEntry(x)]
  {
    if a.items == [] {
      x := a.start + 1;
      var added := [NewEntry(x)];
      assert a.items + added == added;
    } else {
      x := a.items[|a.items| - 1].end + 1;
    }
  }

  lemma EnsureTops(raw: seq<byte>, raw': seq<byte>, root: Node, plugin: Option<nat>)
    requires LacksPlugin(raw, root, plugin) && Candidate(EnsurePatch(root, plugin), raw) == Some(raw')
    ensures Tops(raw', EnsureTree(root, plugin).members) == Tops(raw, root.members)
  {
    DocumentFits(raw, root);
    ShapeFinds(root);
    var x, k := EnsurePlace(raw, root, plugin);
    PatchEdits(EnsurePatch(root, plugin), raw, raw', x, x, k);
    match plugin {
      case None =>
        var y := EnsureMemberTree(root);
        AppendedTops(raw, raw', root, x, k, NewMember(y));
      case Some(m) =>
        PatchedTops(raw, raw', root, m, x, x, k, GrownList(root.members[m].value));
    }
  }

  /** The new list's entries are the old ones and the plugin's, byte for byte. */
  lemma EnsureItems(raw: seq<byte>, raw': seq<byte>, root: Node, plugin: Option<nat>, after: seq<Node>)
    requires LacksPlugin(raw, root, plugin) && Candidate(EnsurePatch(root, plugin), raw) == Some(raw')
    requires ShapeOf(EnsureTree(root, plugin)).Shape?
    requires after == Entries(EnsureTree(root, plugin), ShapeOf(EnsureTree(root, plugin)).plugin)
    ensures ItemBytes(raw', after) == ItemBytes(raw, Entries(root, plugin)) + [ENTRY]
  {
    DocumentFits(raw, root);
    EnsureShape(root, plugin);
    var x, k := EnsurePlace(raw, root, plugin);
    PatchEdits(EnsurePatch(root, plugin), raw, raw', x, x, k);
    match plugin {
      case None => NewMemberBytes(raw', root, x, k);
      case Some(m) =>
        MemberFits(raw, root, m, ROOM - 1);
        PatchedAt(root.members, m, k, GrownList(root.members[m].value), m);
        GrownBytes(raw, raw', root.members[m].value, x, k);
    }
  }

  lemma NewMemberBytes(raw': seq<byte>, root: Node, x: nat, k: nat)
    requires root.Object? && k == |EnsurePatch(root, None).replacement| && x == EnsurePatch(root, None).start
    requires x + k <= |raw'| && raw'[x..x + k] == EnsurePatch(root, None).replacement
    ensures
      var member := EnsureTree(root, None).members[|root.members|];
      member.value.Array? && ItemBytes(raw', member.value.items) == [ENTRY]
  {
    var y := if root.members == [] then x else x + 1;
    if root.members != [] {
      AfterComma(raw', x, k, MEMBER);
    }
    assert raw'[y..y + 32] == MEMBER;
    Part(raw', y, y + 32, 10, 31);
    assert MEMBER[10..31] == ENTRY;
    assert EnsureTree(root, None).members[|root.members|] == NewMember(y);
  }

  lemma GrownBytes(raw: seq<byte>, raw': seq<byte>, a: Node, x: nat, k: nat)
    requires a.Array? && Fit(raw, a, ROOM - 1).Proper? && Edited(raw, raw', x, x, k)
    requires if a.items == [] then x == a.start + 1 && k == 21 && raw'[x..x + k] == ENTRY else
      x == a.items[|a.items| - 1].end && k == 22 && raw'[x..x + k] == [COMMA] + ENTRY
    ensures ItemBytes(raw', GrownList(a).items) == ItemBytes(raw, a.items) + [ENTRY]
  {
    var grown := GrownList(a).items;
    var y := if a.items == [] then x else x + 1;
    if a.items != [] {
      AfterComma(raw', x, k, ENTRY);
    }
    assert raw'[y..y + 21] == ENTRY && grown[|a.items|] == NewEntry(y);
    forall j | 0 <= j < |a.items|
      ensures ItemBytes(raw', grown)[j] == ItemBytes(raw, a.items)[j]
    {
      ItemsUpTo(raw, a, j);
      ItemsBytesBefore(raw, raw', a, ROOM - 1, x, x, k, j);
      assert grown[j] == a.items[j];
    }
  }

  lemma ItemsUpTo(raw: seq<byte>, a: Node, j: nat)
    requires a.Array? && Fit(raw, a, ROOM - 1).Proper? && j < |a.items|
    ensures a.items[j].end <= a.items[|a.items| - 1].end
  {
    ItemFacts(raw, a, ROOM - 1, ROOM - 2);
    SpansBefore(raw, ItemSpans(a.items), a.start + 1, a.end - 1, j, |a.items| - 1);
  }

  /** No old entry has the plugin's bytes. */
  lemma NoEntryBefore(raw: seq<byte>, root: Node, plugin: Option<nat>)
    requires LacksPlugin(raw, root, plugin)
    ensures ENTRY !in ItemBytes(raw, Entries(root, plugin))
  {
    DocumentFits(raw, root);
    var items, bytes := Entries(root, plugin), ItemBytes(raw, Entries(root, plugin));
    if plugin.Some? {
      forall j | 0 <= j < |items|
        ensures bytes[j] != ENTRY
      {
        MemberFits(raw, root, plugin.value, ROOM - 1);
        ItemFacts(raw, root.members[plugin.value].value, ROOM - 1, ROOM - 2);
        assert j !in IndicesOf(items, Exact);
        EntryBytesAreExact(raw, items[j], ROOM - 2);
      }
    }
  }

  lemma EntryText()
    ensures |ENTRY| >= 2 && ENTRY[0] == QUOTE && Decoded(ENTRY[1..|ENTRY| - 1]) == MARKER
  {
    assert ENTRY[1..|ENTRY| - 1] == MARKER;
    PlainIsItself(MARKER);
  }

  lemma TextOfBytes(raw: seq<byte>, n: Node, room: int, t: seq<byte>)
    requires Fit(raw, n, room).Proper? && t == Slice(raw, n.start, n.end) && |t| >= 2 && t[0] == QUOTE
    ensures n.Text? && n.text == Decoded(t[1..|t| - 1])
  {
    FitEnds(raw, n, room);
    StartOf(raw, n.start, n, room);
    TextBytes(raw, n, room);
  }

  lemma EntryBytesAreExact(raw: seq<byte>, n: Node, room: int)
    requires Fit(raw, n, room).Proper?
    ensures Slice(raw, n.start, n.end) == ENTRY ==> KindOf(n) == Exact
  {
    var t := Slice(raw, n.start, n.end);
    EntryText();
    if t == ENTRY {
      TextOfBytes(raw, n, room, t);
    }
  }

  /** With these facts every check on an addition passes. */
  lemma EnsurePasses(
    raw: seq<byte>, raw': seq<byte>, patch: BytePatch, root: Node, tree: Node, plugin: Option<nat>, plugin': Option<nat>, exact: set<nat>)
    requires Parse(raw).Ok? && Parse(raw).value == root && ShapeOf(root) == Shape(plugin, {}, {})
    requires Candidate(patch, raw) == Some(raw') && Parse(raw').Ok? && Parse(raw').value == tree
    requires ShapeOf(tree) == Shape(plugin', exact, {}) && |exact| == 1
    requires Tops(raw, root.members) == Tops(raw', tree.members)
    requires Others(ItemBytes(raw', Entries(tree, plugin')), ENTRY) == ItemBytes(raw, Entries(root, plugin))
    ensures CandidateResult(Ensure, raw, patch) == Passed(raw')
  {
  }

  /** The planned addition adds exactly one entry and changes nothing else; it passes every check, or
      the result is too large to be parsed. */
  lemma EnsureIsExact(raw: seq<byte>, root: Node, plugin: Option<nat>)
    requires LacksPlugin(raw, root, plugin)
    ensures
      var patch := EnsurePatch(root, plugin);
      && Candidate(patch, raw).Some?
      && var raw' := Candidate(patch, raw).value;
         if |raw| + |patch.replacement| <= MAX_CONFIG_BYTES && Count(root) + Added(plugin) <= MAX_JSON_NODES then
           && Parse(raw').Ok? && Parse(raw').value == EnsureTree(root, plugin)
           && CandidateResult(Ensure, raw, patch) == Passed(raw')
         else CandidateResult(Ensure, raw, patch).Unparsed?
  {
    ParserAgrees(raw, root);
    var x, k := EnsurePlace(raw, root, plugin);
    var patch, tree := EnsurePatch(root, plugin), EnsureTree(root, plugin);
    var raw' := Candidate(patch, raw).value;
    EnsureParses(raw, raw', root, plugin);
    if Parse(raw').Ok? {
      EnsureIsPassed(raw, raw', root, plugin, patch, tree);
    }
  }

  lemma EnsureIsPassed(raw: seq<byte>, raw': seq<byte>, root: Node, plugin: Option<nat>, patch: BytePatch, tree: Node)
    requires LacksPlugin(raw, root, plugin) && patch == EnsurePatch(root, plugin) && tree == EnsureTree(root, plugin)
    requires Parse(raw).Ok? && Parse(raw).value == root
    requires Candidate(patch, raw) == Some(raw') && Parse(raw').Ok? && Parse(raw').value == tree
    ensures CandidateResult(Ensure, raw, patch) == Passed(raw')
  {
    var plugin', exact := EnsureFacts(raw, raw', root, plugin, tree);
    EnsurePasses(raw, raw', patch, root, tree, plugin, plugin', exact);
  }

  lemma EnsureFacts(raw: seq<byte>, raw': seq<byte>, root: Node, plugin: Option<nat>, tree: Node)
    returns (plugin': Option<nat>, exact: set<nat>)
    requires LacksPlugin(raw, root, plugin) && tree == EnsureTree(root, plugin)
    requires Candidate(EnsurePatch(root, plugin), raw) == Some(raw')
    ensures ShapeOf(tree) == Shape(plugin', exact, {}) && |exact| == 1
    ensures Tops(raw, root.members) == Tops(raw', tree.members)
    ensures Others(ItemBytes(raw', Entries(tree, plugin')), ENTRY) == ItemBytes(raw, Entries(root, plugin))
  {
    EnsureShape(root, plugin);
    EnsureTops(raw, raw', root, plugin);
    plugin', exact := ShapeOf(tree).plugin, {|Entries(root, plugin)|};
    EnsureItems(raw, raw', root, plugin, Entries(tree, plugin'));
    NoEntryBefore(raw, root, plugin);
    OthersAppended(ItemBytes(raw, Entries(root, plugin)), ENTRY);
  }

  // ----- Removing the entry

  /** A document whose configuration has exactly one plugin entry. */
  ghost predicate HasPlugin(raw: seq<byte>, root: Node, m: nat, i: nat) {
    && |raw| <= MAX_CONFIG_BYTES && Document(raw, root) && ShapeOf(root) == Shape(Some(m), {i}, {})
    && m < |root.members| && root.members[m].value.Array? && i < |root.members[m].value.items|
  }

  function Removal(root: Node, m: nat, i: nat): BytePatch
    requires root.Object? && m < |root.members| && root.members[m].value.Array? && i < |root.members[m].value.items|
  {
    RemovePatch(root.members[m].value.items, i)
  }

  lemma RemovalPlace(raw: seq<byte>, root: Node, m: nat, i: nat)
    requires HasPlugin(raw, root, m, i)
    ensures
      var p, a := Removal(root, m, i), root.members[m].value;
      && a.start < p.start <= p.end < a.end < root.end <= |raw| && root.start < p.start
      && Covers(ItemSpans(a.items), i, p.start, p.end)
      && AsciiAround(raw, p.start) && AsciiAround(raw, p.end)
  {
    DocumentFits(raw, root);
    ValuePlace(raw, root, m, ROOM - 1);
    RemovePlace(raw, root, m, i, ROOM - 1, ROOM - 2);
    RemovalAscii(raw, root.members[m].value, i, ROOM - 1, ROOM - 2);
  }

  lemma RemovalAscii(raw: seq<byte>, a: Node, i: nat, room: int, inner: int)
    requires a.Array? && Fit(raw, a, room).Proper? && inner == room - 1 && i < |a.items|
    ensures AsciiAround(raw, RemovePatch(a.items, i).start) && AsciiAround(raw, RemovePatch(a.items, i).end)
  {
    ItemFacts(raw, a, room, inner);
    var spans := ItemSpans(a.items);
    StartIsAscii(raw, a.items[i], inner);
    EndIsAscii(raw, spans, a.start + 1, a.end - 1, i);
    if i + 1 < |a.items| {
      StartIsAscii(raw, a.items[i + 1], inner);
    }
    if i > 0 {
      EndIsAscii(raw, spans, a.start + 1, a.end - 1, i - 1);
    }
  }

  lemma RemovalParses(raw: seq<byte>, raw': seq<byte>, root: Node, m: nat, i: nat)
    requires HasPlugin(raw, root, m, i) && Candidate(Removal(root, m, i), raw) == Some(raw')
    ensures Parse(raw').Ok? && Parse(raw').value == RemoveTree(root, m, i)
  {
    var p := Removal(root, m, i);
    var k := Growth(p);
    DocumentFits(raw, root);
    RemovalPlace(raw, root, m, i);
    PatchEdits(p, raw, raw', p.start, p.end, k);
    RemoveEntry(raw, raw', root, m, i);
    EntryIsUtf8();
    PatchUtf8(p, raw, raw');
    BlankBefore(raw, raw', p.start, p.end, k, 0, root.start);
    BlankBehind(raw, raw', p.start, p.end, k, root.end, |raw|);
    RemoveCount(root, m, i);
    ParseIsTree(raw', RemoveTree(root, m, i));
  }

  lemma RemovalShape(root: Node, m: nat, i: nat)
    requires ShapeOf(root) == Shape(Some(m), {i}, {})
    requires m < |root.members| && root.members[m].value.Array? && i < |root.members[m].value.items|
    ensures ShapeOf(RemoveTree(root, m, i)) == Shape(Some(m), {}, {})
  {
    var a := root.members[m].value;
    var k := Growth(RemovePatch(a.items, i));
    var patched := PatchedMembers(root.members, m, k, ShrunkList(a, i));
    ShapeFinds(root);
    forall j | 0 <= j < |root.members|
      ensures j < |patched| && root.members[j].key == patched[j].key
    {
      PatchedAt(root.members, m, k, ShrunkList(a, i), j);
    }
    FindSame(root.members, patched, PLUGIN);
    FindSame(root.members, patched, PLUGINS);
    PatchedAt(root.members, m, k, ShrunkList(a, i), m);
    KeptKinds(a.items, i, k, Exact);
    KeptKinds(a.items, i, k, Alias);
    KeptKinds(a.items, i, k, Unsupported);
  }

  lemma RemovalTops(raw: seq<byte>, raw': seq<byte>, root: Node, m: nat, i: nat)
    requires HasPlugin(raw, root, m, i) && Candidate(Removal(root, m, i), raw) == Some(raw')
    ensures Tops(raw', RemoveTree(root, m, i).members) == Tops(raw, root.members)
  {
    var p := Removal(root, m, i);
    DocumentFits(raw, root);
    RemovalPlace(raw, root, m, i);
    PatchEdits(p, raw, raw', p.start, p.end, Growth(p));
    PatchedTops(raw, raw', root, m, p.start, p.end, Growth(p), ShrunkList(root.members[m].value, i));
  }

  lemma AllButOne<T>(before: seq<T>, after: seq<T>, i: nat)
    requires i < |before| == |after| + 1
    requires forall j :: 0 <= j < |after| ==> after[j] == before[if j < i then j else j + 1]
    ensures after == before[..i] + before[i + 1..]
  {
  }

  /** The remaining entries are the other old ones, byte for byte. */
  lemma RemovalItems(raw: seq<byte>, raw': seq<byte>, root: Node, m: nat, i: nat)
    requires HasPlugin(raw, root, m, i) && Candidate(Removal(root, m, i), raw) == Some(raw')
    ensures
      var a := root.members[m].value;
      var before := ItemBytes(raw, a.items);
      ItemBytes(raw', ShrunkList(a, i).items) == before[..i] + before[i + 1..]
  {
    var p, a := Removal(root, m, i), root.members[m].value;
    var k := Growth(p);
    DocumentFits(raw, root);
    RemovalPlace(raw, root, m, i);
    MemberFits(raw, root, m, ROOM - 1);
    PatchEdits(p, raw, raw', p.start, p.end, k);
    ShrunkBytes(raw, raw', a, i, p.start, p.end, k);
  }

  lemma ShrunkBytes(raw: seq<byte>, raw': seq<byte>, a: Node, i: nat, x: nat, y: nat, k: int)
    requires a.Array? && Fit(raw, a, ROOM - 1).Proper? && i < |a.items| && k == Growth(RemovePatch(a.items, i))
    requires Covers(ItemSpans(a.items), i, x, y) && Edited(raw, raw', x, y, k)
    ensures
      var before := ItemBytes(raw, a.items);
      ItemBytes(raw', ShrunkList(a, i).items) == before[..i] + before[i + 1..]
  {
    var before, kept := ItemBytes(raw, a.items), KeptItems(a.items, i, k);
    forall j | 0 <= j < |kept|
      ensures ItemBytes(raw', kept)[j] == before[if j < i then j else j + 1]
    {
      KeptBytes(raw, raw', a, i, x, y, k, j);
    }
    AllButOne(before, ItemBytes(raw', kept), i);
  }

  lemma KeptBytes(raw: seq<byte>, raw': seq<byte>, a: Node, i: nat, x: nat, y: nat, k: int, j: nat)
    requires a.Array? && Fit(raw, a, ROOM - 1).Proper? && i < |a.items| && j < |a.items| - 1
    requires Covers(ItemSpans(a.items), i, x, y) && Edited(raw, raw', x, y, k)
    ensures
      var n, original := KeptItems(a.items, i, k)[j], a.items[if j < i then j else j + 1];
      Slice(raw', n.start, n.end) == Slice(raw, original.start, original.end)
  {
    if j < i {
      OtherPlace(raw, a, ROOM - 1, ROOM - 2, i, x, y, j);
      ItemsBytesBefore(raw, raw', a, ROOM - 1, x, y, k, j);
    } else {
      OtherPlace(raw, a, ROOM - 1, ROOM - 2, i, x, y, j + 1);
      ItemsBytesBehind(raw, raw', a, ROOM - 1, x, y, k, j + 1);
      assert KeptItems(a.items, i, k)[j] == Moved(a.items[j + 1], k);
    }
  }

  /** The removed entry's bytes are nowhere before it. */
  lemma RemovedIsFirst(raw: seq<byte>, root: Node, m: nat, i: nat)
    requires HasPlugin(raw, root, m, i)
    ensures
      var bytes := ItemBytes(raw, root.members[m].value.items);
      forall j :: 0 <= j < i ==> bytes[j] != bytes[i]
  {
    var a := root.members[m].value;
    DocumentFits(raw, root);
    MemberFits(raw, root, m, ROOM - 1);
    ItemFacts(raw, a, ROOM - 1, ROOM - 2);
    assert i in IndicesOf(a.items, Exact);
    forall j | 0 <= j < i
      ensures Slice(raw, a.items[j].start, a.items[j].end) != Slice(raw, a.items[i].start, a.items[i].end)
    {
      assert j !in IndicesOf(a.items, Exact);
      if Slice(raw, a.items[j].start, a.items[j].end) == Slice(raw, a.items[i].start, a.items[i].end) {
        SameBytesSameKind(raw, a.items[j], a.items[i], ROOM - 2);
      }
    }
  }

  /** The planned removal removes exactly one entry and changes nothing else; it always passes every
      check. */
  lemma RemovalIsExact(raw: seq<byte>, root: Node, m: nat, i: nat)
    requires HasPlugin(raw, root, m, i)
    ensures
      var patch := Removal(root, m, i);
      && Candidate(patch, raw).Some?
      && Parse(Candidate(patch, raw).value).Ok?
      && Parse(Candidate(patch, raw).value).value == RemoveTree(root, m, i)
      && CandidateResult(Remove, raw, patch) == Passed(Candidate(patch, raw).value)
  {
    var patch, a := Removal(root, m, i), root.members[m].value;
    ParserAgrees(raw, root);
    RemovalPlace(raw, root, m, i);
    var raw' := Candidate(patch, raw).value;
    RemovalParses(raw, raw', root, m, i);
    RemovalShape(root, m, i);
    RemovalTops(raw, raw', root, m, i);
    RemovalItems(raw, raw', root, m, i);
    RemovedIsFirst(raw, root, m, i);
    RemovalPasses(raw, raw', root, m, i);
  }

  lemma RemovalPasses(raw: seq<byte>, raw': seq<byte>, root: Node, m: nat, i: nat)
    requires HasPlugin(raw, root, m, i) && Parse(raw).Ok? && Parse(raw).value == root
    requires Candidate(Removal(root, m, i), raw) == Some(raw')
    requires Parse(raw').Ok? && Parse(raw').value == RemoveTree(root, m, i)
    requires ShapeOf(RemoveTree(root, m, i)) == Shape(Some(m), {}, {})
    requires Tops(raw', RemoveTree(root, m, i).members) == Tops(raw, root.members)
    requires
      var before := ItemBytes(raw, root.members[m].value.items);
      && ItemBytes(raw', ShrunkList(root.members[m].value, i).items) == before[..i] + before[i + 1..]
      && forall j :: 0 <= j < i ==> before[j] != before[i]
    ensures CandidateResult(Remove, raw, Removal(root, m, i)) == Passed(raw')
  {
    var a := root.members[m].value;
    var before := ItemBytes(raw, a.items);
    WithoutFirstAt(before, i);
    var k := Growth(Removal(root, m, i));
    PatchedAt(root.members, m, k, ShrunkList(a, i), m);
    assert Entries(RemoveTree(root, m, i), Some(m)) == ShrunkList(a, i).items;
    assert i in {i};
  }

  // ----- Every plan

  /** Whatever is planned passes every check, or its result is too large to be parsed; no check on
      what changed can fail. */
  lemma PlansAreSafe(operation: Operation, raw: seq<byte>, ownership: Ownership)
    requires PlanFor(operation, raw, ownership).Edit?
    ensures
      var patch := PlanFor(operation, raw, ownership).patch;
      && Candidate(patch, raw).Some?
      && (CandidateResult(operation, raw, patch) == Passed(Candidate(patch, raw).value)
          || (operation.Ensure? && CandidateResult(operation, raw, patch).Unparsed?))
  {
    var root := Parse(raw).value;
    ParserAgrees(raw, root);
    var shape := ShapeOf(root);
    if shape.exact == {} {
      EnsureIsExact(raw, root, shape.plugin);
    } else {
      SingletonOfBound(shape.exact);
      RemovalIsExact(raw, root, shape.plugin.value, TheOnly(shape.exact));
    }
  }

  lemma SingletonOfBound(s: set<nat>)
    requires s != {} && !(|s| > 1)
    ensures |s| == 1
  {
  }

  // ----- Round trips

  /** Removing the new entry is the inverse of adding it. */
  lemma RemovalInverts(root: Node, m: nat)
    requires root.Object? && m < |root.members| && root.members[m].value.Array?
    ensures
      var tree, i := EnsureTree(root, Some(m)), |root.members[m].value.items|;
      var p := EnsurePatch(root, Some(m));
      && m < |tree.members| && tree.members[m].value == GrownList(root.members[m].value)
      && i < |GrownList(root.members[m].value).items|
      && Removal(tree, m, i) == BytePatch(p.start, p.start + |p.replacement|, [])
  {
    var a := root.members[m].value;
    PatchedAt(root.members, m, if a.items == [] then 21 else 22, GrownList(a), m);
    assert a.items != [] ==> GrownList(a).items[|a.items| - 1] == a.items[|a.items| - 1];
  }

  /** Adding the entry to a list and removing it again restores the exact bytes. */
  lemma EnsureThenRemove(raw: seq<byte>, root: Node, m: nat)
    requires LacksPlugin(raw, root, Some(m))
    ensures
      var raw' := Candidate(EnsurePatch(root, Some(m)), raw);
      var tree, i := EnsureTree(root, Some(m)), |root.members[m].value.items|;
      && raw'.Some?
      && m < |tree.members| && tree.members[m].value.Array? && i < |tree.members[m].value.items|
      && Candidate(Removal(tree, m, i), raw'.value) == Some(raw)
  {
    var x, k := EnsurePlace(raw, root, Some(m));
    RemovalInverts(root, m);
    InverseRestores(EnsurePatch(root, Some(m)), raw);
    assert raw[x..x] == [];
  }

  /** What adding a whole list and removing its entry leaves. */
  function EmptyListAdded(raw: seq<byte>, p: BytePatch, comma: seq<byte>): seq<byte>
    requires p.start <= p.end <= |raw|
  {
    raw[..p.start] + comma + MEMBER[..10] + [CLOSE_BRACKET] + raw[p.end..]
  }

  lemma ListLeft(raw: seq<byte>, raw': seq<byte>, x: nat, comma: seq<byte>)
    requires x <= |raw| && raw' == raw[..x] + (comma + MEMBER) + raw[x..]
    ensures
      var y := x + |comma|;
      Candidate(BytePatch(y + 10, y + 31, []), raw') == Some(EmptyListAdded(raw, BytePatch(x, x, []), comma))
  {
    var y := x + |comma|;
    var head, tail := raw[..x] + comma + MEMBER[..10], [CLOSE_BRACKET] + raw[x..];
    assert MEMBER == MEMBER[..10] + ENTRY + [CLOSE_BRACKET];
    assert raw' == head + ENTRY + tail;
    CutMiddle(head, ENTRY, tail);
    assert head + tail == raw[..x] + comma + MEMBER[..10] + [CLOSE_BRACKET] + raw[x..];
  }

  lemma CutMiddle(head: seq<byte>, middle: seq<byte>, tail: seq<byte>)
    ensures
      var whole, n := head + middle + tail, |head|;
      whole[..n] == head && whole[n + |middle|..] == tail &&
      Candidate(BytePatch(n, n + |middle|, []), whole) == Some(head + tail)
  {
    var whole, n := head + middle + tail, |head|;
    assert whole[..n] == head;
    assert whole[n + |middle|..] == tail;
    assert head + [] + tail == head + tail;
  }

  lemma NewListRemoval(root: Node, x: nat)
    requires root.Object? && x == EnsurePatch(root, None).start
    ensures
      var tree, m := EnsureTree(root, None), |root.members|;
      var y := if root.members == [] then x else x + 1;
      && m < |tree.members| && tree.members[m] == NewMember(y)
      && Removal(tree, m, 0) == BytePatch(y + 10, y + 31, [])
  {
  }

  /** Without a list, an empty one is left behind. */
  lemma EnsureThenRemoveLeavesList(raw: seq<byte>, root: Node)
    requires LacksPlugin(raw, root, None)
    ensures
      var p := EnsurePatch(root, None);
      var raw' := Candidate(p, raw);
      var tree, m := EnsureTree(root, None), |root.members|;
      && raw'.Some?
      && m < |tree.members| && tree.members[m].value.Array? && 0 < |tree.members[m].value.items|
      && p.start <= p.end <= |raw|
      && Candidate(Removal(tree, m, 0), raw'.value) ==
         Some(EmptyListAdded(raw, p, if root.members == [] then [] else [COMMA]))
  {
    var x, k := EnsurePlace(raw, root, None);
    NewListRemoved(raw, root, x);
  }

  lemma NewListRemoved(raw: seq<byte>, root: Node, x: nat)
    requires root.Object? && x == EnsurePatch(root, None).start <= |raw|
    ensures
      var p := EnsurePatch(root, None);
      var raw' := Candidate(p, raw);
      var tree, m := EnsureTree(root, None), |root.members|;
      && raw'.Some?
      && m < |tree.members| && tree.members[m].value.Array? && 0 < |tree.members[m].value.items|
      && p.start <= p.end <= |raw|
      && Candidate(Removal(tree, m, 0), raw'.value) ==
         Some(EmptyListAdded(raw, p, if root.members == [] then [] else [COMMA]))
  {
    var comma := if root.members == [] then [] else [COMMA];
    NewListPatch(root, x, comma);
    NewListRemoval(root, x);
    var p := EnsurePatch(root, None);
    EmptyListLeft(raw, p, Candidate(p, raw).value, x, comma);
  }

  lemma NewListPatch(root: Node, x: nat, comma: seq<byte>)
    requires root.Object? && x == EnsurePatch(root, None).start && comma == if root.members == [] then [] else [COMMA]
    ensures EnsurePatch(root, None) == BytePatch(x, x, comma + MEMBER)
  {
    assert [] + MEMBER == MEMBER;
  }

  lemma EmptyListLeft(raw: seq<byte>, p: BytePatch, raw': seq<byte>, x: nat, comma: seq<byte>)
    requires p == BytePatch(x, x, comma + MEMBER) && x <= |raw| && Candidate(p, raw) == Some(raw')
    ensures
      var y := x + |comma|;
      Candidate(BytePatch(y + 10, y + 31, []), raw') == Some(EmptyListAdded(raw, p, comma))
  {
    ListLeft(raw, raw', x, comma);
  }
}
