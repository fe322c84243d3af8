/** What a patched document looks like to the checks: its tree is the expected one, its other members
    and entries are the same to the byte. */
module OpenCodeChecks {
  import opened CouncilTypes
  import opened Bytes
  import opened JsonGrammar
  import opened JsonParser
  import opened JsonAgreement
  import opened JsonCompleteness
  import opened JsonEdit
  import opened JsonLists
  import opened JsonNodes
  import opened OpenCodePlan
  import opened OpenCodeTrees

  // ----- The parse of a patched document

  lemma SameParse(raw: seq<byte>, a: Node, b: Node)
    requires Fit(raw, a, ROOM).Proper? && Blank(raw, 0, a.start) && Delimited(raw, a.end)
    requires Fit(raw, b, ROOM).Proper? && Blank(raw, 0, b.start) && Delimited(raw, b.end)
    ensures a == b
  {
    var s := MAX_JSON_NODES - Count(a) - Count(b);
    ValueIsComplete(raw, 0, 0, s, ROOM, a, s + Count(a));
    ValueIsComplete(raw, 0, 0, s, ROOM, b, s + Count(b));
  }

  lemma BlankIsDelimited(raw: seq<byte>, p: nat)
    requires Blank(raw, p, |raw|)
    ensures Delimited(raw, p)
  {
    assert p < |raw| ==> IsSpace(raw[p]);
  }

  lemma DocumentFits(raw: seq<byte>, n: Node)
    requires Document(raw, n)
    ensures Fit(raw, n, ROOM).Proper? && Blank(raw, 0, n.start) && Blank(raw, n.end, |raw|) && Utf8(raw)
  {
  }

  /** A document in everything but its size parses to its tree, or is too large. */
  lemma ParseIsTree(raw: seq<byte>, n: Node)
    requires Utf8(raw) && Fit(raw, n, ROOM).Proper? && Blank(raw, 0, n.start) && Blank(raw, n.end, |raw|)
    ensures Parse(raw).Ok? <==> |raw| <= MAX_CONFIG_BYTES && Count(n) <= MAX_JSON_NODES
    ensures Parse(raw).Ok? ==> Parse(raw).value == n
  {
    FitDenotes(raw, n, ROOM);
    ParserAgrees(raw, n);
    if Parse(raw).Ok? {
      var other := Parse(raw).value;
      ParserAgrees(raw, other);
      DocumentFits(raw, other);
      BlankIsDelimited(raw, n.end);
      BlankIsDelimited(raw, other.end);
      SameParse(raw, n, other);
    }
  }

  // ----- Encoding

  predicate AsciiAround(raw: seq<byte>, p: int) {
    0 <= p <= |raw| && (p == |raw| || p == 0 || Ascii(raw[p]) || Ascii(raw[p - 1]))
  }

  lemma PatchUtf8(p: BytePatch, raw: seq<byte>, raw': seq<byte>)
    requires Candidate(p, raw) == Some(raw') && Utf8(raw) && Utf8(p.replacement)
    requires AsciiAround(raw, p.start) && AsciiAround(raw, p.end)
    ensures Utf8(raw')
  {
    Utf8Cut(raw, p.start);
    Utf8Cut(raw, p.end);
    Utf8Join(raw[..p.start], p.replacement);
    Utf8Join(raw[..p.start] + p.replacement, raw[p.end..]);
  }

  lemma StartIsAscii(raw: seq<byte>, n: Node, room: int)
    requires Fit(raw, n, room).Proper?
    ensures AsciiAround(raw, n.start)
  {
    FitDenotes(raw, n, room);
    StartOf(raw, n.start, n, room);
    if n.Scalar? {
      assert raw[n.start] == raw[n.start..n.end][0];
      if n.literal.Number? {
        var a, b, c := NumberHasParts(raw, n.start, n.end);
        NumberStarts(raw, n.start, a, b);
      }
    }
  }

  lemma EndIsAscii(raw: seq<byte>, spans: seq<Span>, a: nat, b: nat, i: nat)
    requires Listed(raw, spans, a, b) && InOrder(spans) && i < |spans|
    requires b < |raw| && (raw[b] == CLOSE_BRACKET || raw[b] == CLOSE_BRACE)
    ensures AsciiAround(raw, spans[i].end)
  {
    SpansInOrder(raw, spans, a, b, i);
    var r := BehindSpan(raw, spans, a, b, i);
    assert spans[i].end < r ==> IsSpace(raw[spans[i].end]);
  }

  lemma EntryIsUtf8()
    ensures Utf8(ENTRY) && Utf8([COMMA] + ENTRY) && Utf8(MEMBER) && Utf8([COMMA] + MEMBER) && Utf8([])
  {
    AsciiIsUtf8(ENTRY);
    AsciiIsUtf8([COMMA] + ENTRY);
    AsciiIsUtf8(MEMBER);
    AsciiIsUtf8([COMMA] + MEMBER);
  }

  // ----- The unchanged bytes

  lemma SliceBefore(raw: seq<byte>, raw': seq<byte>, x: int, y: int, k: int, start: nat, end: nat)
    requires Edited(raw, raw', x, y, k) && start <= end <= x
    ensures Slice(raw', start, end) == Slice(raw, start, end)
  {
    SamePart(raw, raw', 0, x, 0, start, end);
    SameSlice(raw, raw', start, end, 0);
  }

  lemma SliceBehind(raw: seq<byte>, raw': seq<byte>, x: int, y: int, k: int, start: nat, end: nat)
    requires Edited(raw, raw', x, y, k) && y <= start <= end <= |raw|
    ensures Slice(raw', Shift(start, k), Shift(end, k)) == Slice(raw, start, end)
  {
    SamePart(raw, raw', y, |raw|, k, start, end);
    SameSlice(raw, raw', start, end, k);
  }

  /** Members with the same keys and, apart from the plugin list, the same bytes. */
  ghost predicate Alike(raw: seq<byte>, raw': seq<byte>, m: Member, m': Member) {
    && m'.key == m.key
    && (m.key != PLUGIN ==>
          && Slice(raw', m'.keyStart, m'.keyEnd) == Slice(raw, m.keyStart, m.keyEnd)
          && Slice(raw', m'.value.start, m'.value.end) == Slice(raw, m.value.start, m.value.end))
  }

  lemma {:induction false} TopsAlike(raw: seq<byte>, raw': seq<byte>, members: seq<Member>, members': seq<Member>)
    requires |members'| == |members| && forall j :: 0 <= j < |members| ==> Alike(raw, raw', members[j], members'[j])
    ensures Tops(raw', members') == Tops(raw, members)
    decreases |members|
  {
    if members != [] {
      TopsAlike(raw, raw', members[..|members| - 1], members'[..|members| - 1]);
    }
  }

  lemma TopsAppended(raw: seq<byte>, members: seq<Member>, m: Member)
    requires m.key == PLUGIN
    ensures Tops(raw, members + [m]) == Tops(raw, members)
  {
    assert (members + [m])[..|members|] == members;
  }

  lemma MembersAlikeBefore(
    raw: seq<byte>, raw': seq<byte>, root: Node, x: nat, y: nat, k: int, j: nat, inner: int)
    requires root.Object? && Fit(raw, root, ROOM).Proper? && inner == ROOM - 1 && j < |root.members|
    requires Edited(raw, raw', x, y, k) && root.members[j].value.end <= x
    ensures Alike(raw, raw', root.members[j], root.members[j])
  {
    MemberFacts(raw, root, ROOM, inner);
    var m := root.members[j];
    SliceBefore(raw, raw', x, y, k, m.keyStart, m.keyEnd);
    SliceBefore(raw, raw', x, y, k, m.value.start, m.value.end);
  }

  lemma MembersAlikeBehind(
    raw: seq<byte>, raw': seq<byte>, root: Node, x: nat, y: nat, k: int, j: nat, inner: int)
    requires root.Object? && Fit(raw, root, ROOM).Proper? && inner == ROOM - 1 && j < |root.members|
    requires Edited(raw, raw', x, y, k) && y <= root.members[j].keyStart
    ensures Alike(raw, raw', root.members[j], MovedMember(root.members[j], k))
  {
    MemberFacts(raw, root, ROOM, inner);
    var m := root.members[j];
    SliceBehind(raw, raw', x, y, k, m.keyStart, m.keyEnd);
    SliceBehind(raw, raw', x, y, k, m.value.start, m.value.end);
    assert MovedMember(m, k).value.end == Shift(m.value.end, k) && MovedMember(m, k).value.start == Shift(m.value.start, k);
  }

  /** An edit inside the plugin list leaves the other members alike. */
  lemma PatchedTops(
    raw: seq<byte>, raw': seq<byte>, root: Node, m: nat, x: nat, y: nat, k: int, value: Node)
    requires root.Object? && Fit(raw, root, ROOM).Proper? && m < |root.members| && root.members[m].key == PLUGIN
    requires Edited(raw, raw', x, y, k)
    requires root.members[m].value.start <= x <= y <= root.members[m].value.end
    ensures Tops(raw', PatchedMembers(root.members, m, k, value)) == Tops(raw, root.members)
  {
    var patched := PatchedMembers(root.members, m, k, value);
    forall j | 0 <= j < |root.members|
      ensures j < |patched| && Alike(raw, raw', root.members[j], patched[j])
    {
      PatchedAt(root.members, m, k, value, j);
      MembersInOrder(raw, root, ROOM, ROOM - 1, m, j);
      if j < m {
        MembersAlikeBefore(raw, raw', root, x, y, k, j, ROOM - 1);
      } else if j > m {
        MembersAlikeBehind(raw, raw', root, x, y, k, j, ROOM - 1);
      }
    }
    TopsAlike(raw, raw', root.members, patched);
  }

  /** So does a new plugin list behind them. */
  lemma AppendedTops(raw: seq<byte>, raw': seq<byte>, root: Node, x: nat, k: int, m: Member)
    requires root.Object? && Fit(raw, root, ROOM).Proper? && m.key == PLUGIN && Edited(raw, raw', x, x, k)
    requires root.members != [] ==> x == root.members[|root.members| - 1].value.end
    ensures Tops(raw', root.members + [m]) == Tops(raw, root.members)
  {
    forall j | 0 <= j < |root.members|
      ensures Alike(raw, raw', root.members[j], root.members[j])
    {
      MembersInOrder(raw, root, ROOM, ROOM - 1, |root.members| - 1, j);
      LastEndsLater(raw, root, j);
      MembersAlikeBefore(raw, raw', root, x, x, k, j, ROOM - 1);
    }
    TopsAlike(raw, raw', root.members, root.members);
    TopsAppended(raw', root.members, m);
  }

  lemma LastEndsLater(raw: seq<byte>, root: Node, j: nat)
    requires root.Object? && Fit(raw, root, ROOM).Proper? && j < |root.members|
    ensures root.members[j].value.end <= root.members[|root.members| - 1].value.end
  {
    MemberFacts(raw, root, ROOM, ROOM - 1);
    SpansBefore(raw, MemberSpans(root.members), root.start + 1, root.end - 1, j, |root.members| - 1);
  }

  // ----- The shape afterwards

  lemma {:induction false} FindSame(a: seq<Member>, b: seq<Member>, key: seq<byte>)
    requires |a| == |b| && forall j :: 0 <= j < |a| ==> a[j].key == b[j].key
    ensures Find(a, key) == Find(b, key)
  {
    if a != [] {
      FindSame(a[1..], b[1..], key);
    }
  }

  lemma {:induction false} FindAppended(members: seq<Member>, m: Member, key: seq<byte>)
    requires Find(members, key).None?
    ensures Find(members + [m], key) == if m.key == key then Some(|members|) else None
  {
    if members != [] {
      assert Find(members[1..], key).None?;
      FindAppended(members[1..], m, key);
      assert (members + [m])[1..] == members[1..] + [m];
    }
  }

  lemma MovedKind(item: Node, k: int)
    ensures KindOf(Moved(item, k)) == KindOf(item)
  {
    if item.Array? {
      var moved := Moved(item, k);
      assert |moved.items| == |item.items|;
      assert forall i :: 0 <= i < |item.items| ==> moved.items[i] == Moved(item.items[i], k);
    }
  }

  lemma EntryIsExact(x: nat)
    ensures KindOf(NewEntry(x)) == Exact
  {
  }

  lemma GrownKinds(items: seq<Node>, x: nat, kind: OpenCodePlan.Kind)
    ensures IndicesOf(items + [NewEntry(x)], kind) == IndicesOf(items, kind) + if kind == Exact then {|items|} else {}
  {
    var more := items + [NewEntry(x)];
    EntryIsExact(x);
    assert forall i :: 0 <= i < |items| ==> more[i] == items[i];
  }

  lemma KeptKinds(items: seq<Node>, i: nat, k: int, kind: OpenCodePlan.Kind)
    requires i < |items| && IndicesOf(items, kind) <= {i}
    ensures IndicesOf(KeptItems(items, i, k), kind) == {}
  {
    var kept := KeptItems(items, i, k);
    forall j | 0 <= j < |kept|
      ensures KindOf(kept[j]) != kind
    {
      var original := if j < i then j else j + 1;
      assert original !in IndicesOf(items, kind);
      if j >= i {
        assert kept[j] == Moved(items[original], k);
        MovedKind(items[original], k);
      }
    }
  }

  // ----- The entries' bytes

  lemma ItemsBytesBefore(raw: seq<byte>, raw': seq<byte>, a: Node, room: int, x: nat, y: nat, k: int, j: nat)
    requires a.Array? && Fit(raw, a, room).Proper? && j < |a.items| && Edited(raw, raw', x, y, k) && a.items[j].end <= x
    ensures Slice(raw', a.items[j].start, a.items[j].end) == Slice(raw, a.items[j].start, a.items[j].end)
  {
    ItemFacts(raw, a, room, room - 1);
    SliceBefore(raw, raw', x, y, k, a.items[j].start, a.items[j].end);
  }

  lemma ItemsBytesBehind(raw: seq<byte>, raw': seq<byte>, a: Node, room: int, x: nat, y: nat, k: int, j: nat)
    requires a.Array? && Fit(raw, a, room).Proper? && j < |a.items| && Edited(raw, raw', x, y, k) && y <= a.items[j].start
    ensures
      var moved := Moved(a.items[j], k);
      Slice(raw', moved.start, moved.end) == Slice(raw, a.items[j].start, a.items[j].end)
  {
    ItemFacts(raw, a, room, room - 1);
    SliceBehind(raw, raw', x, y, k, a.items[j].start, a.items[j].end);
    assert Moved(a.items[j], k).start == Shift(a.items[j].start, k) && Moved(a.items[j], k).end == Shift(a.items[j].end, k);
  }

  /** Equal bytes are equal entries. */
  lemma SameBytesSameKind(raw: seq<byte>, a: Node, b: Node, room: int)
    requires Fit(raw, a, room).Proper? && Fit(raw, b, room).Proper? && b.Text?
    requires Slice(raw, a.start, a.end) == Slice(raw, b.start, b.end)
    ensures KindOf(a) == KindOf(b)
  {
    SameBytesBothText(raw, a, b, room);
    TextBytes(raw, a, room);
    TextBytes(raw, b, room);
  }

  lemma SameBytesBothText(raw: seq<byte>, a: Node, b: Node, room: int)
    requires Fit(raw, a, room).Proper? && Fit(raw, b, room).Proper? && b.Text?
    requires Slice(raw, a.start, a.end) == Slice(raw, b.start, b.end)
    ensures a.Text?
  {
    FitEnds(raw, a, room);
    FitEnds(raw, b, room);
    StartOf(raw, a.start, a, room);
    StartOf(raw, b.start, b, room);
    assert raw[a.start] == raw[a.start..a.end][0] && raw[b.start] == raw[b.start..b.end][0];
  }

  lemma FitEnds(raw: seq<byte>, n: Node, room: int)
    requires Fit(raw, n, room).Proper?
    ensures n.start < n.end <= |raw|
  {
    FitDenotes(raw, n, room);
  }

  /** A string's text is a function of its bytes. */
  lemma TextBytes(raw: seq<byte>, n: Node, room: int)
    requires Fit(raw, n, room).Proper? && n.Text?
    ensures
      var t := Slice(raw, n.start, n.end);
      |t| >= 2 && n.text == Decoded(t[1..|t| - 1])
  {
    FitDenotes(raw, n, room);
    Part(raw, n.start, n.end, 1, n.end - n.start - 1);
  }

  lemma {:induction false} OthersWithout<T>(s: seq<T>, x: T)
    requires x !in s
    ensures Others(s, x) == s
  {
    if s != [] {
      OthersWithout(s[..|s| - 1], x);
      assert s == s[..|s| - 1] + [s[|s| - 1]];
    }
  }

  lemma OthersAppended<T>(s: seq<T>, x: T)
    requires x !in s
    ensures Others(s + [x], x) == s
  {
    OthersWithout(s, x);
    assert (s + [x])[..|s|] == s;
  }

  lemma {:induction false} WithoutFirstAt<T>(s: seq<T>, i: nat)
    requires i < |s| && forall j :: 0 <= j < i ==> s[j] != s[i]
    ensures WithoutFirst(s, s[i]) == s[..i] + s[i + 1..]
  {
    if i > 0 {
      assert s[1..][i - 1] == s[i];
      assert forall j :: 0 <= j < i - 1 ==> s[1..][j] == s[j + 1];
      WithoutFirstAt(s[1..], i - 1);
      assert s[..i] == [s[0]] + s[1..][..i - 1] && s[1..][i..] == s[i + 1..];
    } else {
      assert s[..0] + s[1..] == s[1..];
    }
  }
}
