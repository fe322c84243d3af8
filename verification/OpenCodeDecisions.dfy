/** What the registration plan decides, said over the entries of the document alone: which entries are the
    plugin, which name it otherwise, when an edit is planned, and what the checks on a result establish. */
module OpenCodeDecisions {
  import opened CouncilTypes
  import opened Bytes
  import opened JsonGrammar
  import opened JsonParser
  import opened JsonCompleteness
  import opened OpenCodePlan
  import opened OpenCodeTrees
  import opened OpenCodeChecks
  import opened OpenCodeResults

  // ----- Which file a path names

  /** The components between the slashes. */
  lemma {:induction false} SplitJoins(path: seq<byte>)
    ensures Joined(Split(path)) == path
    ensures forall part :: part in Split(path) ==> SLASH !in part
  {
    if path != [] {
      SplitJoins(path[1..]);
      JoinedMore(path[0], Split(path[1..]));
      assert [path[0]] + path[1..] == path;
    }
  }

  /** One byte more, in front. */
  lemma JoinedMore(b: byte, rest: seq<seq<byte>>)
    requires rest != [] && forall part :: part in rest ==> SLASH !in part
    ensures
      var parts := if b == SLASH then [[]] + rest else [[b] + rest[0]] + rest[1..];
      Joined(parts) == [b] + Joined(rest) && forall part :: part in parts ==> SLASH !in part
  {
    if b == SLASH {
      assert ([[]] + rest)[1..] == rest;
    } else {
      var first := [b] + rest[0];
      var parts := [first] + rest[1..];
      assert parts[1..] == rest[1..];
      if |rest| > 1 {
        assert first + [SLASH] + Joined(rest[1..]) == [b] + (rest[0] + [SLASH] + Joined(rest[1..]));
      }
    }
  }

  ghost function Joined(parts: seq<seq<byte>>): seq<byte>
    requires parts != []
  {
    if |parts| == 1 then parts[0] else parts[0] + [SLASH] + Joined(parts[1..])
  }

  /** The last component that counts, read from the right: empty components and single dots do not count, and
      each double dot cancels one that does, on its left. */
  function NameFromRight(parts: seq<seq<byte>>, cancelled: nat): Option<seq<byte>> {
    if parts == [] then None
    else
      var before, part := parts[..|parts| - 1], parts[|parts| - 1];
      if part == [] || part == [DOT] then NameFromRight(before, cancelled)
      else if part == [DOT, DOT] then NameFromRight(before, cancelled + 1)
      else if cancelled > 0 then NameFromRight(before, cancelled - 1)
      else Some(part)
  }

  /** Double dots come first, and only there. */
  predicate Ups(parts: seq<seq<byte>>, ups: nat) {
    && ups <= |parts|
    && (forall i :: 0 <= i < ups ==> parts[i] == [DOT, DOT])
    && (forall i :: ups <= i < |parts| ==> parts[i] != [DOT, DOT] && parts[i] != [] && parts[i] != [DOT])
  }

  /** One component more, behind the normalized ones. */
  function Step(before: seq<seq<byte>>, absolute: bool, part: seq<byte>): seq<seq<byte>> {
    if part == [] || part == [DOT] then before
    else if part != [DOT, DOT] || (!absolute && before == []) || (before != [] && before[|before| - 1] == [DOT, DOT]) then before + [part]
    else if before != [] then before[..|before| - 1]
    else before
  }

  lemma NormalizedSteps(parts: seq<seq<byte>>, absolute: bool)
    requires parts != []
    ensures Normalized(parts, absolute) == Step(Normalized(parts[..|parts| - 1], absolute), absolute, parts[|parts| - 1])
  {
  }

  /** What the reading from the right finds in normalized components. */
  function NameBehind(names: seq<seq<byte>>, ups: nat, cancelled: nat): Option<seq<byte>> {
    if cancelled < |names| - ups then Some(names[|names| - 1 - cancelled]) else None
  }

  lemma UpNames(before: seq<seq<byte>>, absolute: bool, ups: nat, cancelled: nat, more: nat) returns (ups': nat)
    requires Ups(before, ups) && more == cancelled + 1
    ensures
      var names := Step(before, absolute, [DOT, DOT]);
      Ups(names, ups') && NameBehind(names, ups', cancelled) == NameBehind(before, ups, more)
  {
    ups' := if |before| > ups || (before == [] && absolute) then ups else ups + 1;
  }

  /** Normalizing leaves, behind its double dots, exactly the components that reading from the right finds. */
  lemma {:induction false} NormalizedNames(parts: seq<seq<byte>>, absolute: bool, cancelled: nat) returns (ups: nat)
    ensures Ups(Normalized(parts, absolute), ups)
    ensures NameFromRight(parts, cancelled) == NameBehind(Normalized(parts, absolute), ups, cancelled)
    decreases |parts|
  {
    if parts == [] {
      ups := 0;
    } else {
      var before, part := parts[..|parts| - 1], parts[|parts| - 1];
      var next := if part == [DOT, DOT] then cancelled + 1 else if part == [] || part == [DOT] || cancelled == 0 then cancelled else cancelled - 1;
      ups := NormalizedNames(before, absolute, next);
      NormalizedSteps(parts, absolute);
      if part == [DOT, DOT] {
        ups := UpNames(Normalized(before, absolute), absolute, ups, cancelled, next);
      }
    }
  }

  /** The text names the plugin's file, in whatever directory. */
  predicate NamesPlugin(text: seq<byte>) {
    (0 as byte) !in text && NameFromRight(Split(text), 0) == Some(FILE_NAME)
  }

  /** The plugin's own path is one way to name its file; every other way is an alias. */
  lemma IdentityIs(text: seq<byte>)
    ensures Identity(text) == Exact <==> text == MARKER
    ensures Identity(text) == Alias <==> text != MARKER && NamesPlugin(text)
    ensures Identity(text) != Unsupported
  {
    if text == [] {
      assert Split(text) == [[]];
      assert Split(text)[..0] == [];
    } else {
      var ups := NormalizedNames(Split(text), text[0] == SLASH, 0);
      assert FILE_NAME != [DOT, DOT] && FILE_NAME[0] != DOT;
    }
  }

  // ----- The entries of a document

  /** An entry is a string, or a pair of a string and an object. */
  predicate IsEntry(item: Node) {
    || item.Text?
    || (item.Array? && |item.items| == 2 && item.items[0].Text? && item.items[1].Object?)
  }

  /** The plugin's entry is the string of its own path. */
  predicate IsPlugin(item: Node) {
    item.Text? && item.text == MARKER
  }

  /** Another entry that names the plugin: another path to its file, or its path or another one with options. */
  predicate IsAlias(item: Node) {
    || (item.Text? && item.text != MARKER && NamesPlugin(item.text))
    || (item.Array? && |item.items| == 2 && item.items[0].Text? && item.items[1].Object? && NamesPlugin(item.items[0].text))
  }

  lemma MarkerNames()
    ensures NamesPlugin(MARKER)
  {
    SplitMarker();
    var parts := Split(MARKER);
    assert parts == [[DOT], FILE_NAME];
    assert FILE_NAME != [] && FILE_NAME != [DOT] && FILE_NAME != [DOT, DOT] by { assert FILE_NAME[0] == 0x63; }
    assert NameFromRight(parts, 0) == Some(FILE_NAME);
  }

  lemma SplitMarker()
    ensures Split(MARKER) == [[DOT], FILE_NAME]
  {
    assert SLASH !in FILE_NAME;
    SplitBeside(MARKER, FILE_NAME);
  }

  lemma SplitBeside(path: seq<byte>, name: seq<byte>)
    requires SLASH !in name && path == [DOT, SLASH] + name
    ensures Split(path) == [[DOT], name]
  {
    SplitWhole(name);
    assert path[1..] == [SLASH] + name && path[1..][1..] == name;
    assert path[1] == SLASH;
    assert Split(path[1..]) == [[], name];
    assert [DOT] + [] == [DOT] && path[0] == DOT;
    assert [[], name][1..] == [name];
  }

  lemma {:induction false} SplitWhole(path: seq<byte>)
    requires SLASH !in path
    ensures Split(path) == [path]
  {
    if path != [] {
      SplitWhole(path[1..]);
      assert [path[0]] + path[1..] == path;
    }
  }

  lemma KindIs(item: Node)
    ensures KindOf(item) == Unsupported <==> !IsEntry(item)
    ensures KindOf(item) == Exact <==> IsPlugin(item)
    ensures KindOf(item) == Alias <==> IsAlias(item)
  {
    MarkerNames();
    match item {
      case Text(_, _, text) => IdentityIs(text);
      case Array(_, _, items) =>
        if |items| == 2 && items[0].Text? && items[1].Object? {
          IdentityIs(items[0].text);
        }
      case _ =>
    }
  }

  /** The document is a configuration with these entries: an object without a member `plugins`, whose member
      `plugin`, if it has one, is the list of them. */
  ghost predicate Holds(raw: seq<byte>, items: seq<Node>) {
    exists root :: |raw| <= MAX_CONFIG_BYTES && Document(raw, root) && Lists(root, items)
  }

  ghost predicate Lists(root: Node, items: seq<Node>) {
    && root.Object? && (forall m :: m in root.members ==> m.key != PLUGINS)
    && (if exists m :: m in root.members && m.key == PLUGIN
        then exists m :: m in root.members && m.key == PLUGIN && m.value.Array? && m.value.items == items
        else items == [])
    && forall item :: item in items ==> IsEntry(item)
  }

  lemma FindIs(members: seq<Member>, key: seq<byte>)
    ensures Find(members, key).Some? <==> exists m :: m in members && m.key == key
  {
    if Find(members, key).Some? {
      assert members[Find(members, key).value] in members;
    }
  }

  lemma NoneUnsupported(items: seq<Node>)
    ensures IndicesOf(items, Unsupported) == {} <==> forall item :: item in items ==> IsEntry(item)
  {
    if IndicesOf(items, Unsupported) == {} {
      forall item | item in items ensures IsEntry(item) {
        var i: nat :| i < |items| && items[i] == item;
        KindIs(item);
        assert i !in IndicesOf(items, Unsupported);
      }
    } else {
      var i :| i in IndicesOf(items, Unsupported);
      KindIs(items[i]);
      assert items[i] in items;
    }
  }

  /** A document whose keys are distinct has its entries, if it has a good shape. */
  lemma ShapeIs(root: Node, items: seq<Node>)
    requires Distinct(root)
    ensures Lists(root, items) <==> ShapeOf(root).Shape? && items == Entries(root, ShapeOf(root).plugin)
  {
    if root.Object? {
      FindIs(root.members, PLUGINS);
      FindIs(root.members, PLUGIN);
      match Find(root.members, PLUGIN) {
        case None =>
        case Some(m) =>
          OnlyMember(root, m);
          if root.members[m].value.Array? {
            NoneUnsupported(root.members[m].value.items);
          }
      }
    }
  }

  lemma OnlyMember(root: Node, m: nat)
    requires root.Object? && Distinct(root) && m < |root.members|
    ensures forall x :: x in root.members && x.key == root.members[m].key ==> x == root.members[m]
  {
    forall x | x in root.members && x.key == root.members[m].key ensures x == root.members[m] {
      var i: nat :| i < |root.members| && root.members[i] == x;
    }
  }

  lemma ShapeKinds(root: Node)
    requires ShapeOf(root).Shape?
    ensures
      var shape := ShapeOf(root);
      shape.exact == IndicesOf(Entries(root, shape.plugin), Exact) && shape.aliases == IndicesOf(Entries(root, shape.plugin), Alias)
  {
  }

  // ----- What is planned

  ghost predicate HasAlias(items: seq<Node>) {
    exists item :: item in items && IsAlias(item)
  }

  ghost predicate HasPlugin(items: seq<Node>) {
    exists item :: item in items && IsPlugin(item)
  }

  /** The plugin's entry is there, and once. */
  ghost predicate HasOnePlugin(items: seq<Node>) {
    exists i: nat :: i < |items| && IsPlugin(items[i]) && forall j: nat :: j < |items| && IsPlugin(items[j]) ==> j == i
  }

  lemma KindAt(items: seq<Node>, i: nat)
    requires i < |items|
    ensures i in IndicesOf(items, Alias) <==> IsAlias(items[i])
    ensures i in IndicesOf(items, Exact) <==> IsPlugin(items[i])
  {
    KindIs(items[i]);
  }

  lemma AliasesAre(items: seq<Node>)
    ensures IndicesOf(items, Alias) == {} <==> !HasAlias(items)
  {
    if item :| item in items && IsAlias(item) {
      var i: nat :| i < |items| && items[i] == item;
      KindAt(items, i);
    }
    if i :| i in IndicesOf(items, Alias) {
      KindAt(items, i);
    }
  }

  lemma PluginsAre(items: seq<Node>)
    ensures IndicesOf(items, Exact) == {} <==> !HasPlugin(items)
    ensures |IndicesOf(items, Exact)| == 1 <==> HasOnePlugin(items)
  {
    var exact := IndicesOf(items, Exact);
    forall i: nat | i < |items| ensures i in exact <==> IsPlugin(items[i]) {
      KindAt(items, i);
    }
    if item :| item in items && IsPlugin(item) {
      var i: nat :| i < |items| && items[i] == item;
      assert i in exact;
    }
    if |exact| == 1 {
      var i := TheOnly(exact);
      OnlyIndex(items, exact, i);
    }
    if i: nat :| i < |items| && IsPlugin(items[i]) && forall j: nat :: j < |items| && IsPlugin(items[j]) ==> j == i {
      assert exact == {i};
    }
  }

  lemma OnlyIndex(items: seq<Node>, exact: set<nat>, i: nat)
    requires exact == {i} && i < |items| && forall j: nat :: j < |items| ==> (j in exact <==> IsPlugin(items[j]))
    ensures HasOnePlugin(items)
  {
    assert i in exact && IsPlugin(items[i]);
    forall j: nat | j < |items| && IsPlugin(items[j]) ensures j == i {
      assert j in exact;
    }
  }

  /** Exactly when each plan is made for a configuration. An addition is planned where nothing names the plugin,
      a removal where its own entry is alone and recorded as owned. */
  predicate PlansRightly(operation: Operation, ownership: Ownership, none: bool, one: bool, aliased: bool, plan: Plan) {
    && (plan.Edit? <==> !aliased && if operation.Ensure? then none else one && ownership.Owned?)
    && (plan.Unchanged? <==>
          !aliased && if operation.Ensure? then one && !ownership.Mismatched? else (none || one) && ownership.Unrecorded?)
    && (plan.Refuse? <==>
          || aliased || (!none && !one) || (one && ownership.Mismatched?)
          || (operation.Remove? && none && !ownership.Unrecorded?))
  }

  lemma PlanIs(operation: Operation, raw: seq<byte>, ownership: Ownership, items: seq<Node>)
    requires Holds(raw, items)
    ensures
      PlansRightly(operation, ownership, !HasPlugin(items), HasOnePlugin(items), HasAlias(items), PlanFor(operation, raw, ownership))
  {
    var root :| |raw| <= MAX_CONFIG_BYTES && Document(raw, root) && Lists(root, items);
    ParserAgrees(raw, root);
    ShapeIs(root, items);
    ShapeKinds(root);
    AliasesAre(items);
    PluginsAre(items);
    PlanOfShape(operation, raw, ownership, root, items);
  }

  lemma PlanOfShape(operation: Operation, raw: seq<byte>, ownership: Ownership, root: Node, items: seq<Node>)
    requires Parse(raw).Ok? && Parse(raw).value == root && ShapeOf(root).Shape? && items == Entries(root, ShapeOf(root).plugin)
    requires ShapeOf(root).exact == IndicesOf(items, Exact)
    ensures
      var shape := ShapeOf(root);
      PlansRightly(operation, ownership, shape.exact == {}, |shape.exact| == 1, shape.aliases != {}, PlanFor(operation, raw, ownership))
  {
    var shape := ShapeOf(root);
    if shape.exact != {} && |shape.exact| <= 1 {
      SingletonOfBound(shape.exact);
      var i := TheOnly(shape.exact);
      assert i in shape.exact;
    }
  }

  /** And what is no configuration is refused. */
  lemma OtherwiseRefused(operation: Operation, raw: seq<byte>, ownership: Ownership)
    requires forall items :: !Holds(raw, items)
    ensures PlanFor(operation, raw, ownership).Refuse?
  {
    if Parse(raw).Ok? && ShapeOf(Parse(raw).value).Shape? {
      var root := Parse(raw).value;
      ParserAgrees(raw, root);
      ShapeIs(root, Entries(root, ShapeOf(root).plugin));
      assert Holds(raw, Entries(root, ShapeOf(root).plugin));
    }
  }

  /** No removal is planned unless the entry is recorded as owned. */
  lemma OnlyOwnedIsRemoved(raw: seq<byte>, ownership: Ownership)
    requires PlanFor(Remove, raw, ownership).Edit?
    ensures ownership.Owned? && exists items :: Holds(raw, items) && HasOnePlugin(items)
  {
    if items :| Holds(raw, items) {
      PlanIs(Remove, raw, ownership, items);
    } else {
      OtherwiseRefused(Remove, raw, ownership);
    }
  }

  // ----- What the checks on a result establish

  /** The positions of the members other than the plugin list, in order. */
  ghost predicate Picks(members: seq<Member>, picked: seq<nat>) {
    && (forall i, j :: 0 <= i < j < |picked| ==> picked[i] < picked[j])
    && (forall i: nat :: i in picked <==> i < |members| && members[i].key != PLUGIN)
  }

  ghost predicate SameBytes(raw: seq<byte>, m: Member, raw': seq<byte>, m': Member) {
    && m.key == m'.key && Slice(raw, m.keyStart, m.keyEnd) == Slice(raw', m'.keyStart, m'.keyEnd)
    && Slice(raw, m.value.start, m.value.end) == Slice(raw', m'.value.start, m'.value.end)
  }

  /** Both have the same other members, in the same order and to the byte. */
  ghost predicate SameOthers(raw: seq<byte>, members: seq<Member>, raw': seq<byte>, members': seq<Member>) {
    exists picked, picked' ::
      && Picks(members, picked) && Picks(members', picked') && |picked| == |picked'|
      && forall k :: 0 <= k < |picked| ==> picked[k] < |members| && picked'[k] < |members'| && SameBytes(raw, members[picked[k]], raw', members'[picked'[k]])
  }

  /** It tells the member at the position. */
  predicate Prints(raw: seq<byte>, members: seq<Member>, i: nat, f: Fingerprint) {
    i < |members| && var m := members[i];
    f == Fingerprint(m.key, Slice(raw, m.keyStart, m.keyEnd), Slice(raw, m.value.start, m.value.end))
  }

  lemma {:induction false} TopsArePicked(raw: seq<byte>, members: seq<Member>) returns (picked: seq<nat>)
    ensures Picks(members, picked) && |Tops(raw, members)| == |picked|
    ensures forall k :: 0 <= k < |picked| ==> Prints(raw, members, picked[k], Tops(raw, members)[k])
  {
    if members == [] {
      picked := [];
    } else {
      var last := |members| - 1;
      var before := TopsArePicked(raw, members[..last]);
      if members[last].key == PLUGIN {
        picked := before;
      } else {
        picked := before + [last];
      }
      PicksMore(members, before, picked, last);
    }
  }

  lemma PicksMore(members: seq<Member>, before: seq<nat>, picked: seq<nat>, last: nat)
    requires |members| == last + 1 && Picks(members[..last], before)
    requires picked == if members[last].key == PLUGIN then before else before + [last]
    ensures Picks(members, picked)
  {
    forall i: nat ensures i in picked <==> i < |members| && members[i].key != PLUGIN {
      assert i in before <==> i < last && members[..last][i].key != PLUGIN;
    }
    forall i, j | 0 <= i < j < |picked| ensures picked[i] < picked[j] {
      assert i < |before| && before[i] in before;
    }
  }

  lemma TopsAreOthers(raw: seq<byte>, members: seq<Member>, raw': seq<byte>, members': seq<Member>)
    requires Tops(raw, members) == Tops(raw', members')
    ensures SameOthers(raw, members, raw', members')
  {
    var picked := TopsArePicked(raw, members);
    var picked' := TopsArePicked(raw', members');
    forall k | 0 <= k < |picked|
      ensures picked[k] < |members| && picked'[k] < |members'| && SameBytes(raw, members[picked[k]], raw', members'[picked'[k]])
    {
      assert Tops(raw, members)[k] == Tops(raw', members')[k];
    }
  }

  /** At most one of them is x. */
  predicate OnceAtMost<T(==)>(s: seq<T>, x: T) {
    forall i, j :: 0 <= i < |s| && 0 <= j < |s| && s[i] == x && s[j] == x ==> i == j
  }

  /** The one is the other with x put in somewhere. */
  ghost predicate PutIn<T>(s: seq<T>, x: T, s': seq<T>) {
    exists j :: 0 <= j <= |s| && s' == s[..j] + [x] + s[j..]
  }

  lemma LastIsPutIn<T>(before: seq<T>, x: T, s: seq<T>)
    requires s == before + [x]
    ensures PutIn(before, x, s)
  {
    assert s == before[..|before|] + [x] + before[|before|..];
  }

  lemma PutInMore<T>(s: seq<T>, x: T, s': seq<T>, y: T)
    requires PutIn(s, x, s')
    ensures PutIn(s + [y], x, s' + [y])
  {
    var j :| 0 <= j <= |s| && s' == s[..j] + [x] + s[j..];
    var more := s + [y];
    assert more[..j] == s[..j] && more[j..] == s[j..] + [y];
    assert s' + [y] == more[..j] + [x] + more[j..];
  }

  lemma {:induction false} OthersPutIn<T>(s: seq<T>, x: T)
    requires OnceAtMost(s, x)
    ensures s == Others(s, x) || PutIn(Others(s, x), x, s)
  {
    if s != [] {
      var last := |s| - 1;
      var before := s[..last];
      assert s == before + [s[last]];
      if s[last] == x {
        forall i | 0 <= i < |before| ensures before[i] != x {
          assert before[i] == s[i];
        }
        OthersWithout(before, x);
        LastIsPutIn(before, x, s);
        assert before + [] == before;
      } else {
        OthersPutIn(before, x);
        if before != Others(before, x) {
          PutInMore(Others(before, x), x, before, s[last]);
        }
      }
    }
  }

  lemma {:induction false} WithoutFirstIs<T>(s: seq<T>, x: T) returns (j: nat)
    requires x in s
    ensures j < |s| && s[j] == x && WithoutFirst(s, x) == s[..j] + s[j + 1..]
  {
    if s[0] == x {
      j := 0;
    } else {
      var k := WithoutFirstIs(s[1..], x);
      j := k + 1;
      assert s[..j] == [s[0]] + s[1..][..k] && s[1..][k + 1..] == s[j + 1..];
    }
  }

  /** Entries of equal bytes are alike, and one with the bytes of the plugin's entry is it. */
  lemma BytesTell(raw: seq<byte>, root: Node, plugin: Option<nat>, i: nat, j: nat)
    requires Document(raw, root) && ShapeOf(root).Shape? && plugin == ShapeOf(root).plugin
    requires i < |Entries(root, plugin)| && j < |Entries(root, plugin)|
    ensures
      var items := Entries(root, plugin);
      var bytes := ItemBytes(raw, items);
      && (bytes[i] == ENTRY ==> IsPlugin(items[i]))
      && (bytes[i] == bytes[j] && IsPlugin(items[j]) ==> IsPlugin(items[i]))
  {
    var items := Entries(root, plugin);
    DocumentFits(raw, root);
    MemberFits(raw, root, plugin.value, ROOM - 1);
    ItemFacts(raw, root.members[plugin.value].value, ROOM - 1, ROOM - 2);
    KindIs(items[i]);
    KindIs(items[j]);
    EntryBytesAreExact(raw, items[i], ROOM - 2);
    if ItemBytes(raw, items)[i] == ItemBytes(raw, items)[j] && IsPlugin(items[j]) {
      SameBytesSameKind(raw, items[i], items[j], ROOM - 2);
    }
  }

  lemma OnePluginOnce(raw: seq<byte>, root: Node, plugin: Option<nat>)
    requires Document(raw, root) && ShapeOf(root).Shape? && plugin == ShapeOf(root).plugin && HasOnePlugin(Entries(root, plugin))
    ensures OnceAtMost(ItemBytes(raw, Entries(root, plugin)), ENTRY)
  {
    var bytes := ItemBytes(raw, Entries(root, plugin));
    forall i, j | 0 <= i < |bytes| && 0 <= j < |bytes| && bytes[i] == ENTRY && bytes[j] == ENTRY ensures i == j {
      BytesTell(raw, root, plugin, i, i);
      BytesTell(raw, root, plugin, j, j);
    }
  }

  /** The entries before and after: an addition leaves one entry of the plugin and all others in order, a
      removal takes one such entry, leaves all others in order, and leaves none. */
  ghost predicate EntriesFollow(operation: Operation, raw: seq<byte>, raw': seq<byte>, items: seq<Node>, items': seq<Node>) {
    var bytes, bytes' := ItemBytes(raw, items), ItemBytes(raw', items');
    && !HasAlias(items')
    && if operation.Ensure? then HasOnePlugin(items') && (bytes' == bytes || PutIn(bytes, ENTRY, bytes'))
       else !HasPlugin(items') && TakenOut(items, bytes, bytes')
  }

  ghost predicate TakenOut(items: seq<Node>, bytes: seq<seq<byte>>, bytes': seq<seq<byte>>) {
    exists j :: 0 <= j < |items| && j < |bytes| && IsPlugin(items[j]) && bytes' == bytes[..j] + bytes[j + 1..]
  }

  ghost predicate IsConfiguration(raw: seq<byte>, root: Node, items: seq<Node>) {
    |raw| <= MAX_CONFIG_BYTES && Document(raw, root) && Lists(root, items)
  }

  lemma RemovalTakesOne(raw: seq<byte>, root: Node, items: seq<Node>, i: nat, after: seq<seq<byte>>)
    requires Document(raw, root) && ShapeOf(root).Shape? && items == Entries(root, ShapeOf(root).plugin)
    requires i < |items| && IsPlugin(items[i]) && WithoutFirst(ItemBytes(raw, items), ItemBytes(raw, items)[i]) == after
    ensures TakenOut(items, ItemBytes(raw, items), after)
  {
    var bytes := ItemBytes(raw, items);
    var j := WithoutFirstIs(bytes, bytes[i]);
    BytesTell(raw, root, ShapeOf(root).plugin, j, i);
  }

  predicate TookOne(exact: set<nat>, before: seq<seq<byte>>, after: seq<seq<byte>>) {
    exists i :: i in exact && i < |before| && WithoutFirst(before, before[i]) == after
  }

  /** What the checks compared. */
  predicate Compared(operation: Operation, raw: seq<byte>, raw': seq<byte>, root: Node, root': Node) {
    && ShapeOf(root).Shape? && ShapeOf(root').Shape? && ShapeOf(root').aliases == {}
    && Tops(raw, root.members) == Tops(raw', root'.members)
    && var before, after := ItemBytes(raw, Entries(root, ShapeOf(root).plugin)), ItemBytes(raw', Entries(root', ShapeOf(root').plugin));
    if operation.Ensure? then |ShapeOf(root').exact| == 1 && Others(after, ENTRY) == before
    else ShapeOf(root').exact == {} && TookOne(ShapeOf(root).exact, before, after)
  }

  lemma PassedChecks(operation: Operation, raw: seq<byte>, patch: BytePatch, raw': seq<byte>) returns (root: Node, root': Node)
    requires CandidateResult(operation, raw, patch) == Passed(raw')
    ensures Candidate(patch, raw) == Some(raw')
    ensures Parse(raw).Ok? && Parse(raw).value == root && Parse(raw').Ok? && Parse(raw').value == root'
    ensures Compared(operation, raw, raw', root, root')
  {
    root, root' := Parse(raw).value, Parse(raw').value;
  }

  lemma EntriesAre(raw: seq<byte>, root: Node)
    requires Parse(raw).Ok? && Parse(raw).value == root && ShapeOf(root).Shape?
    ensures
      var items := Entries(root, ShapeOf(root).plugin);
      && IsConfiguration(raw, root, items)
      && (ShapeOf(root).aliases == {} <==> !HasAlias(items))
      && (ShapeOf(root).exact == {} <==> !HasPlugin(items))
      && (|ShapeOf(root).exact| == 1 <==> HasOnePlugin(items))
      && (forall i :: i in ShapeOf(root).exact ==> i < |items| && IsPlugin(items[i]))
  {
    var items := Entries(root, ShapeOf(root).plugin);
    ParserAgrees(raw, root);
    ShapeIs(root, items);
    ShapeKinds(root);
    AliasesAre(items);
    PluginsAre(items);
    forall i | i in ShapeOf(root).exact ensures i < |items| && IsPlugin(items[i]) {
      KindAt(items, i);
    }
  }

  lemma EnsureFollows(raw: seq<byte>, raw': seq<byte>, root: Node, root': Node)
    requires Parse(raw').Ok? && Parse(raw').value == root' && Compared(Ensure, raw, raw', root, root')
    ensures EntriesFollow(Ensure, raw, raw', Entries(root, ShapeOf(root).plugin), Entries(root', ShapeOf(root').plugin))
  {
    EntriesAre(raw', root');
    OnePluginOnce(raw', root', ShapeOf(root').plugin);
    OthersPutIn(ItemBytes(raw', Entries(root', ShapeOf(root').plugin)), ENTRY);
  }

  lemma TookIndex(exact: set<nat>, before: seq<seq<byte>>, after: seq<seq<byte>>) returns (i: nat)
    requires TookOne(exact, before, after)
    ensures i in exact && i < |before| && WithoutFirst(before, before[i]) == after
  {
    i :| i in exact && i < |before| && WithoutFirst(before, before[i]) == after;
  }

  lemma RemovalFollows(raw: seq<byte>, raw': seq<byte>, root: Node, root': Node)
    requires Parse(raw).Ok? && Parse(raw).value == root && Parse(raw').Ok? && Parse(raw').value == root'
    requires Compared(Remove, raw, raw', root, root')
    ensures EntriesFollow(Remove, raw, raw', Entries(root, ShapeOf(root).plugin), Entries(root', ShapeOf(root').plugin))
  {
    var items, items' := Entries(root, ShapeOf(root).plugin), Entries(root', ShapeOf(root').plugin);
    EntriesAre(raw, root);
    EntriesAre(raw', root');
    var i := TookIndex(ShapeOf(root).exact, ItemBytes(raw, items), ItemBytes(raw', items'));
    RemovalTakesOne(raw, root, items, i, ItemBytes(raw', items'));
  }

  lemma OthersStay(operation: Operation, raw: seq<byte>, raw': seq<byte>, root: Node, root': Node)
    requires Parse(raw).Ok? && Parse(raw).value == root && Parse(raw').Ok? && Parse(raw').value == root'
    requires Compared(operation, raw, raw', root, root')
    ensures IsConfiguration(raw, root, Entries(root, ShapeOf(root).plugin))
    ensures IsConfiguration(raw', root', Entries(root', ShapeOf(root').plugin))
    ensures SameOthers(raw, root.members, raw', root'.members)
  {
    EntriesAre(raw, root);
    EntriesAre(raw', root');
    TopsAreOthers(raw, root.members, raw', root'.members);
  }

  /** What a result is that passes the checks on an addition, whatever the patch: the patched bytes, with the
      same other members, the same entries in order, and the plugin's own, once. */
  lemma PassedAddition(raw: seq<byte>, patch: BytePatch, raw': seq<byte>)
    returns (root: Node, root': Node, items: seq<Node>, items': seq<Node>)
    requires CandidateResult(Ensure, raw, patch) == Passed(raw')
    ensures patch.start <= patch.end <= |raw| && raw' == raw[..patch.start] + patch.replacement + raw[patch.end..]
    ensures IsConfiguration(raw, root, items) && IsConfiguration(raw', root', items')
    ensures SameOthers(raw, root.members, raw', root'.members) && EntriesFollow(Ensure, raw, raw', items, items')
  {
    root, root' := PassedChecks(Ensure, raw, patch, raw');
    OthersStay(Ensure, raw, raw', root, root');
    EnsureFollows(raw, raw', root, root');
    items, items' := Entries(root, ShapeOf(root).plugin), Entries(root', ShapeOf(root').plugin);
  }

  /** And on a removal: the patched bytes, with the same other members, and the same entries in order but for
      one that was the plugin's; none is left that is. */
  lemma PassedRemoval(raw: seq<byte>, patch: BytePatch, raw': seq<byte>)
    returns (root: Node, root': Node, items: seq<Node>, items': seq<Node>)
    requires CandidateResult(Remove, raw, patch) == Passed(raw')
    ensures patch.start <= patch.end <= |raw| && raw' == raw[..patch.start] + patch.replacement + raw[patch.end..]
    ensures IsConfiguration(raw, root, items) && IsConfiguration(raw', root', items')
    ensures SameOthers(raw, root.members, raw', root'.members) && EntriesFollow(Remove, raw, raw', items, items')
  {
    root, root' := PassedChecks(Remove, raw, patch, raw');
    OthersStay(Remove, raw, raw', root, root');
    RemovalFollows(raw, raw', root, root');
    items, items' := Entries(root, ShapeOf(root).plugin), Entries(root', ShapeOf(root').plugin);
  }
}
