/** What an edit of one element makes of the tree around it. */
module JsonNodes {
  import opened Bytes
  import opened JsonGrammar
  import opened JsonParser
  import opened JsonAgreement
  import opened JsonCompleteness
  import opened JsonEdit
  import opened JsonLists

  /** What ends before the edit stays. */
  lemma BeforeFits(raw: seq<byte>, raw': seq<byte>, x: int, y: int, k: int, n: Node, room: int)
    requires Edited(raw, raw', x, y, k) && Fit(raw, n, room).Proper? && n.end <= x
    ensures Fit(raw', n, room).Proper?
  {
    FitDenotes(raw, n, room);
    SamePart(raw, raw', 0, x, 0, n.start, n.end);
    MovedDenotes(raw, raw', n, 0);
    NotMoved(n);
  }

  /** What begins behind it moves. */
  lemma BehindFits(raw: seq<byte>, raw': seq<byte>, x: int, y: int, k: int, n: Node, room: int)
    requires Edited(raw, raw', x, y, k) && Fit(raw, n, room).Proper? && y <= n.start
    ensures Fit(raw', Moved(n, k), room).Proper?
    ensures Moved(n, k).start == n.start + k && Moved(n, k).end == n.end + k
  {
    FitDenotes(raw, n, room);
    SamePart(raw, raw', y, |raw|, k, n.start, n.end);
    MovedDenotes(raw, raw', n, k);
    MovedWithin(n, k, room);
    MovedDistinct(n, k);
  }

  /** The brackets around an edit stay around it. */
  lemma BracketsStay(
    raw: seq<byte>, raw': seq<byte>, x: int, y: int, k: int, start: nat, end: nat, end': nat, open: byte, close: byte)
    requires Edited(raw, raw', x, y, k) && Bracketed(raw, start, end, open, close)
    requires start < x && y < end && end' == end + k
    ensures Bracketed(raw', start, end', open, close)
  {
    assert raw'[start + 0] == raw[start];
    assert raw'[(end - 1) + k] == raw[end - 1];
  }

  lemma AllReadIsListed(raw: seq<byte>, spans: seq<Span>, a: int, b: int)
    requires Listed(raw, spans, a, b)
    ensures AllRead(raw, spans, a, b)
  {
  }

  // ----- Arrays

  lemma ArrayAppended(
    raw: seq<byte>, raw': seq<byte>, a: Node, room: nat, inner: int, x: nat, k: nat, item: Node, end': nat)
    requires a.Array? && Fit(raw, a, room).Proper? && inner == room - 1 && Edited(raw, raw', x, x, k)
    requires Fit(raw', item, inner).Proper? && item.start < item.end == x + k && end' == a.end + k
    requires if a.items == [] then x == a.start + 1 && item.start == x else
      x == a.items[|a.items| - 1].end && item.start == x + 1 && raw'[x] == COMMA
    ensures Fit(raw', Array(a.start, end', a.items + [item]), room).Proper?
  {
    var spans, first, last := ItemSpans(a.items), a.start + 1, a.end - 1;
    ItemFacts(raw, a, room, inner);
    AppendPlace(raw, spans, first, last, x);
    forall i | 0 <= i < |a.items|
      ensures Fit(raw', a.items[i], inner).Proper?
    {
      SpansBefore(raw, spans, first, last, i, |spans| - 1);
      BeforeFits(raw, raw', x, x, k, a.items[i], inner);
    }
    BracketsStay(raw, raw', x, x, k, a.start, a.end, end', OPEN_BRACKET, CLOSE_BRACKET);
    SpanAppended(raw, raw', spans, first, last, x, k, Span(item.start, item.end));
    SpansGrow(a.items, item);
    AllReadIsListed(raw', ItemSpans(a.items + [item]), first, last + k);
    ArrayFits(raw', a.start, first, last + k, end', a.items + [item], room, inner);
  }

  lemma AppendPlace(raw: seq<byte>, spans: seq<Span>, first: nat, last: nat, x: nat)
    requires Listed(raw, spans, first, last) && InOrder(spans)
    requires if spans == [] then x == first else x == spans[|spans| - 1].end
    ensures first <= x <= last
  {
    if spans != [] {
      SpansInOrder(raw, spans, first, last, |spans| - 1);
    }
  }

  function KeptItems(items: seq<Node>, i: nat, k: int): seq<Node>
    requires i < |items|
  {
    items[..i] + MovedItems(items[i + 1..], k)
  }

  lemma KeptSpans(items: seq<Node>, i: nat, k: int)
    requires i < |items|
    ensures ItemSpans(KeptItems(items, i, k)) == Kept(ItemSpans(items), i, k)
  {
    var kept, spans := KeptItems(items, i, k), Kept(ItemSpans(items), i, k);
    forall j | 0 <= j < |kept|
      ensures ItemSpans(kept)[j] == spans[j]
    {
      assert kept[j] == if j < i then items[j] else Moved(items[j + 1], k);
      KeptAt(ItemSpans(items), i, k, j);
    }
  }

  lemma DeletePlace(raw: seq<byte>, spans: seq<Span>, first: nat, last: nat, i: nat, x: nat, y: nat)
    requires Listed(raw, spans, first, last) && InOrder(spans) && i < |spans| && Covers(spans, i, x, y)
    ensures first <= x <= y <= last
  {
    SpansInOrder(raw, spans, first, last, i);
    if i > 0 {
      SpansInOrder(raw, spans, first, last, i - 1);
    }
    if i + 1 < |spans| {
      SpansInOrder(raw, spans, first, last, i + 1);
    }
  }

  /** The other items lie before or behind the deleted bytes. */
  lemma OtherPlace(raw: seq<byte>, a: Node, room: nat, inner: int, i: nat, x: nat, y: nat, j: nat)
    requires a.Array? && Fit(raw, a, room).Proper? && inner == room - 1 && i < |a.items| && j < |a.items|
    requires Covers(ItemSpans(a.items), i, x, y)
    ensures j < i ==> a.items[j].end <= x
    ensures i < j ==> y <= a.items[j].start
    ensures Fit(raw, a.items[j], inner).Proper?
  {
    var spans := ItemSpans(a.items);
    ItemFacts(raw, a, room, inner);
    if j < i {
      SpansBefore(raw, spans, a.start + 1, a.end - 1, j, i - 1);
      SpansBefore(raw, spans, a.start + 1, a.end - 1, i - 1, i);
    } else if i < j {
      SpansBefore(raw, spans, a.start + 1, a.end - 1, i + 1, j);
    }
  }

  lemma KeptFits(
    raw: seq<byte>, raw': seq<byte>, a: Node, room: nat, inner: int, i: nat, x: nat, y: nat, k: int, j: nat, n: Node)
    requires a.Array? && Fit(raw, a, room).Proper? && inner == room - 1 && i < |a.items| && j < |a.items| - 1
    requires Covers(ItemSpans(a.items), i, x, y) && Edited(raw, raw', x, y, k) && n == KeptItems(a.items, i, k)[j]
    ensures Fit(raw', n, inner).Proper?
  {
    if j < i {
      OtherPlace(raw, a, room, inner, i, x, y, j);
      assert n == a.items[j];
      BeforeFits(raw, raw', x, y, k, n, inner);
    } else {
      var item := a.items[j + 1];
      OtherPlace(raw, a, room, inner, i, x, y, j + 1);
      assert n == Moved(item, k);
      BehindFits(raw, raw', x, y, k, item, inner);
    }
  }

  lemma ArrayDeleted(
    raw: seq<byte>, raw': seq<byte>, a: Node, room: nat, inner: int, i: nat, x: nat, y: nat, k: int, last': nat, end': nat)
    requires a.Array? && Fit(raw, a, room).Proper? && inner == room - 1 && i < |a.items|
    requires Covers(ItemSpans(a.items), i, x, y) && Edited(raw, raw', x, y, k) && k == x - y
    requires end' == a.end + k && end' == last' + 1
    ensures Fit(raw', Array(a.start, end', KeptItems(a.items, i, k)), room).Proper?
  {
    var kept := KeptItems(a.items, i, k);
    forall j | 0 <= j < |kept|
      ensures Fit(raw', kept[j], inner).Proper?
    {
      KeptFits(raw, raw', a, room, inner, i, x, y, k, j, kept[j]);
    }
    DeletedFrame(raw, raw', a, room, inner, i, x, y, k, last', end');
    ArrayFits(raw', a.start, a.start + 1, last', end', kept, room, inner);
  }

  lemma DeletedFrame(
    raw: seq<byte>, raw': seq<byte>, a: Node, room: nat, inner: int, i: nat, x: nat, y: nat, k: int, last': nat, end': nat)
    requires a.Array? && Fit(raw, a, room).Proper? && inner == room - 1 && i < |a.items|
    requires Covers(ItemSpans(a.items), i, x, y) && Edited(raw, raw', x, y, k) && k == x - y
    requires end' == a.end + k && end' == last' + 1
    ensures Bracketed(raw', a.start, end', OPEN_BRACKET, CLOSE_BRACKET)
    ensures AllRead(raw', ItemSpans(KeptItems(a.items, i, k)), a.start + 1, last')
  {
    var spans, kept, first, last := ItemSpans(a.items), ItemSpans(KeptItems(a.items, i, k)), a.start + 1, a.end - 1;
    ItemFacts(raw, a, room, inner);
    KeptSpans(a.items, i, k);
    SpansCut(raw, raw', spans, kept, a.start, first, last, a.end, last', end', i, x, y, k);
  }

  lemma SpansCut(
    raw: seq<byte>, raw': seq<byte>, spans: seq<Span>, kept: seq<Span>, start: nat, first: nat, last: nat, end: nat,
    last': nat, end': nat, i: nat, x: nat, y: nat, k: int)
    requires Bracketed(raw, start, end, OPEN_BRACKET, CLOSE_BRACKET) && first == start + 1 && last == end - 1
    requires Listed(raw, spans, first, last) && InOrder(spans) && i < |spans| && kept == Kept(spans, i, k)
    requires Covers(spans, i, x, y) && Edited(raw, raw', x, y, k) && k == x - y
    requires end' == end + k && end' == last' + 1
    ensures Bracketed(raw', start, end', OPEN_BRACKET, CLOSE_BRACKET) && AllRead(raw', kept, first, last')
  {
    DeletePlace(raw, spans, first, last, i, x, y);
    BracketsStay(raw, raw', x, y, k, start, end, end', OPEN_BRACKET, CLOSE_BRACKET);
    SpanDeleted(raw, raw', spans, first, last, i, x, y, k);
    AllReadIsListed(raw', kept, first, last');
  }

  // ----- Objects

  lemma KeyStays(raw: seq<byte>, raw': seq<byte>, x: int, y: int, k: int, m: Member, m': Member)
    requires Edited(raw, raw', x, y, k) && KeyAt(raw, m) && m.value.start <= x
    requires m' == m.(value := m'.value) && m'.value.start == m.value.start
    ensures Keyed(raw', m').Proper?
  {
    SamePart(raw, raw', 0, x, 0, m.keyStart, m.keyEnd);
    SamePart(raw, raw', 0, x, 0, m.keyEnd, m.value.start);
    StringMoves(raw, raw', m.keyStart, m.keyEnd, m.key, 0);
    SeparatedMoves(raw, raw', m.keyEnd, m.value.start, COLON, 0);
  }

  lemma KeyBehind(raw: seq<byte>, raw': seq<byte>, x: int, y: int, k: int, m: Member)
    requires Edited(raw, raw', x, y, k) && KeyAt(raw, m) && y <= m.keyStart && m.keyStart <= m.value.start <= |raw|
    ensures Keyed(raw', MovedMember(m, k)).Proper?
  {
    SamePart(raw, raw', y, |raw|, k, m.keyStart, m.value.start);
    KeyMoves(raw, raw', m, k);
  }

  lemma ObjectKeys(raw: seq<byte>, o: Node, room: int)
    requires o.Object? && Fit(raw, o, room).Proper?
    ensures forall i :: 0 <= i < |o.members| ==> KeyAt(raw, o.members[i])
  {
    FitDenotes(raw, o, room);
    ObjectParts(raw, o);
  }

  lemma ObjectKey(raw: seq<byte>, o: Node, room: int, j: nat)
    requires o.Object? && Fit(raw, o, room).Proper? && j < |o.members|
    ensures KeyAt(raw, o.members[j])
  {
    ObjectKeys(raw, o, room);
  }

  lemma MemberAppended(
    raw: seq<byte>, raw': seq<byte>, o: Node, room: nat, inner: int, x: nat, k: nat, m: Member, end': nat)
    requires o.Object? && Fit(raw, o, room).Proper? && inner == room - 1 && Edited(raw, raw', x, x, k)
    requires Keyed(raw', m).Proper? && Fit(raw', m.value, inner).Proper? && !Seen(o.members, m.key)
    requires m.keyStart < m.value.end == x + k && end' == o.end + k
    requires if o.members == [] then x == o.start + 1 && m.keyStart == x else
      x == o.members[|o.members| - 1].value.end && m.keyStart == x + 1 && raw'[x] == COMMA
    ensures Fit(raw', Object(o.start, end', o.members + [m]), room).Proper?
  {
    var spans, first, last := MemberSpans(o.members), o.start + 1, o.end - 1;
    MemberFacts(raw, o, room, inner);
    ObjectKeys(raw, o, room);
    AppendPlace(raw, spans, first, last, x);
    forall i | 0 <= i < |o.members|
      ensures Keyed(raw', o.members[i]).Proper? && Fit(raw', o.members[i].value, inner).Proper?
    {
      SpansBefore(raw, spans, first, last, i, |spans| - 1);
      KeyStays(raw, raw', x, x, k, o.members[i], o.members[i]);
      BeforeFits(raw, raw', x, x, k, o.members[i].value, inner);
    }
    OneMoreMemberFits(raw', o.members, m, inner);
    BracketsStay(raw, raw', x, x, k, o.start, o.end, end', OPEN_BRACE, CLOSE_BRACE);
    SpanAppended(raw, raw', spans, first, last, x, k, Span(m.keyStart, m.value.end));
    MemberSpansGrow(o.members, m);
    AllReadIsListed(raw', MemberSpans(o.members + [m]), first, last + k);
    ObjectFits(raw', o.start, first, last + k, end', o.members + [m], room, inner);
  }

  function PatchedMembers(members: seq<Member>, m: nat, k: int, value: Node): seq<Member>
    requires m < |members|
  {
    members[..m] + [members[m].(value := value)] + MovedMembers(members[m + 1..], k)
  }

  lemma PatchedAt(members: seq<Member>, m: nat, k: int, value: Node, j: nat)
    requires m < |members| && j < |members|
    ensures |PatchedMembers(members, m, k, value)| == |members|
    ensures PatchedMembers(members, m, k, value)[j] ==
      if j < m then members[j] else if j == m then members[m].(value := value) else MovedMember(members[j], k)
    ensures PatchedMembers(members, m, k, value)[j].key == members[j].key
  {
  }

  lemma PatchedSpans(members: seq<Member>, m: nat, k: int, value: Node)
    requires m < |members| && value.end == Shift(members[m].value.end, k)
    ensures MemberSpans(PatchedMembers(members, m, k, value)) == Stretched(MemberSpans(members), m, k)
  {
    var patched, spans := PatchedMembers(members, m, k, value), Stretched(MemberSpans(members), m, k);
    forall j | 0 <= j < |members|
      ensures MemberSpans(patched)[j] == spans[j]
    {
      PatchedAt(members, m, k, value, j);
      StretchedAt(MemberSpans(members), m, k, j);
    }
  }

  lemma MemberBefore(
    raw: seq<byte>, raw': seq<byte>, o: Node, room: nat, inner: int, x: nat, y: nat, k: int, j: nat, member: Member)
    requires o.Object? && Fit(raw, o, room).Proper? && inner == room - 1 && j < |o.members| && member == o.members[j]
    requires Edited(raw, raw', x, y, k) && member.value.end <= x
    ensures Keyed(raw', member).Proper? && Fit(raw', member.value, inner).Proper?
  {
    MemberFacts(raw, o, room, inner);
    ObjectKey(raw, o, room, j);
    KeyStays(raw, raw', x, y, k, member, member);
    BeforeFits(raw, raw', x, y, k, member.value, inner);
  }

  lemma MemberBehind(
    raw: seq<byte>, raw': seq<byte>, o: Node, room: nat, inner: int, x: nat, y: nat, k: int, j: nat, member: Member)
    requires o.Object? && Fit(raw, o, room).Proper? && inner == room - 1 && j < |o.members| && member == o.members[j]
    requires Edited(raw, raw', x, y, k) && y <= member.keyStart
    ensures Keyed(raw', MovedMember(member, k)).Proper? && Fit(raw', Moved(member.value, k), inner).Proper?
  {
    MemberFacts(raw, o, room, inner);
    ObjectKey(raw, o, room, j);
    KeyBehind(raw, raw', x, y, k, member);
    BehindFits(raw, raw', x, y, k, member.value, inner);
  }

  lemma MembersInOrder(raw: seq<byte>, o: Node, room: nat, inner: int, m: nat, j: nat)
    requires o.Object? && Fit(raw, o, room).Proper? && inner == room - 1 && m < |o.members| && j < |o.members|
    ensures j < m ==> o.members[j].value.end < o.members[m].keyStart
    ensures m < j ==> o.members[m].value.end < o.members[j].keyStart
    ensures o.members[m].keyStart < o.members[m].value.start
  {
    MemberFacts(raw, o, room, inner);
    if j < m {
      SpansBefore(raw, MemberSpans(o.members), o.start + 1, o.end - 1, j, m);
    } else {
      SpansBefore(raw, MemberSpans(o.members), o.start + 1, o.end - 1, m, j);
    }
  }

  lemma PatchedMemberFits(
    raw: seq<byte>, raw': seq<byte>, o: Node, room: nat, inner: int, m: nat, x: nat, y: nat, k: int, value: Node, j: nat,
    patched: Member)
    requires o.Object? && Fit(raw, o, room).Proper? && inner == room - 1 && m < |o.members| && j < |o.members|
    requires Edited(raw, raw', x, y, k) && Fit(raw', value, inner).Proper?
    requires o.members[m].value.start <= x <= y <= o.members[m].value.end && value.start == o.members[m].value.start
    requires j < |PatchedMembers(o.members, m, k, value)| && patched == PatchedMembers(o.members, m, k, value)[j]
    ensures Keyed(raw', patched).Proper? && Fit(raw', patched.value, inner).Proper? && patched.key == o.members[j].key
  {
    MembersInOrder(raw, o, room, inner, m, j);
    PatchedAt(o.members, m, k, value, j);
    if j < m {
      MemberBefore(raw, raw', o, room, inner, x, y, k, j, patched);
    } else if j == m {
      ObjectKey(raw, o, room, j);
      KeyStays(raw, raw', x, y, k, o.members[m], patched);
    } else {
      MemberBehind(raw, raw', o, room, inner, x, y, k, j, o.members[j]);
    }
  }

  lemma PatchedFrame(
    raw: seq<byte>, raw': seq<byte>, o: Node, room: nat, inner: int, m: nat, x: nat, y: nat, k: int, value: Node,
    last': nat, end': nat)
    requires o.Object? && Fit(raw, o, room).Proper? && inner == room - 1 && m < |o.members|
    requires Edited(raw, raw', x, y, k) && o.members[m].value.start < x <= y < o.members[m].value.end
    requires value.end == o.members[m].value.end + k && end' == o.end + k && end' == last' + 1
    ensures Bracketed(raw', o.start, end', OPEN_BRACE, CLOSE_BRACE)
    ensures AllRead(raw', MemberSpans(PatchedMembers(o.members, m, k, value)), o.start + 1, last')
  {
    var spans, first, last := MemberSpans(o.members), o.start + 1, o.end - 1;
    MemberFacts(raw, o, room, inner);
    SpansInOrder(raw, spans, first, last, m);
    BracketsStay(raw, raw', x, y, k, o.start, o.end, end', OPEN_BRACE, CLOSE_BRACE);
    SpanStretched(raw, raw', spans, first, last, m, x, y, k);
    PatchedSpans(o.members, m, k, value);
    AllReadIsListed(raw', MemberSpans(PatchedMembers(o.members, m, k, value)), first, last');
  }

  lemma MemberPatched(
    raw: seq<byte>, raw': seq<byte>, o: Node, room: nat, inner: int, m: nat, x: nat, y: nat, k: int, value: Node,
    last': nat, end': nat)
    requires o.Object? && Fit(raw, o, room).Proper? && inner == room - 1 && m < |o.members|
    requires Edited(raw, raw', x, y, k) && Fit(raw', value, inner).Proper?
    requires o.members[m].value.start < x <= y < o.members[m].value.end
    requires value.start == o.members[m].value.start && value.end == o.members[m].value.end + k
    requires end' == o.end + k && end' == last' + 1
    ensures Fit(raw', Object(o.start, end', PatchedMembers(o.members, m, k, value)), room).Proper?
  {
    var patched := PatchedMembers(o.members, m, k, value);
    MembersDiffer(raw, o, room);
    forall j | 0 <= j < |patched|
      ensures Keyed(raw', patched[j]).Proper? && Fit(raw', patched[j].value, inner).Proper?
      ensures patched[j].key == o.members[j].key
    {
      PatchedMemberFits(raw, raw', o, room, inner, m, x, y, k, value, j, patched[j]);
    }
    PatchedFrame(raw, raw', o, room, inner, m, x, y, k, value, last', end');
    ObjectFits(raw', o.start, o.start + 1, last', end', patched, room, inner);
  }

  lemma MembersDiffer(raw: seq<byte>, o: Node, room: int)
    requires o.Object? && Fit(raw, o, room).Proper?
    ensures KeysDiffer(o.members)
  {
    FitDenotes(raw, o, room);
  }

  // ----- Counting

  lemma {:induction false} KeptCount(items: seq<Node>, i: nat, k: int)
    requires i < |items|
    ensures ItemsCount(KeptItems(items, i, k)) == ItemsCount(items) - Count(items[i])
    decreases |items|
  {
    var kept, last := KeptItems(items, i, k), |items| - 1;
    if i == last {
      assert kept == items[..last];
    } else {
      var rest, item := items[..last], items[last];
      KeptCount(rest, i, k);
      MovedCount(item, k);
      KeptLast(items, rest, item, i, k);
      CountsOneMore(rest, item, items);
      CountsOneMore(KeptItems(rest, i, k), Moved(item, k), kept);
    }
  }

  lemma KeptLast(items: seq<Node>, rest: seq<Node>, item: Node, i: nat, k: int)
    requires i < |rest| && items == rest + [item]
    ensures KeptItems(items, i, k) == KeptItems(rest, i, k) + [Moved(item, k)]
  {
  }

  lemma CountsOneMore(items: seq<Node>, item: Node, more: seq<Node>)
    requires more == items + [item]
    ensures ItemsCount(more) == ItemsCount(items) + Count(item)
  {
    assert more[..|items|] == items;
  }

  lemma {:induction false} PatchedCount(members: seq<Member>, m: nat, k: int, value: Node)
    requires m < |members|
    ensures MembersCount(PatchedMembers(members, m, k, value)) == MembersCount(members) - Count(members[m].value) + Count(value)
    decreases |members|
  {
    var patched, last := PatchedMembers(members, m, k, value), |members| - 1;
    if m == last {
      assert patched[..last] == members[..last];
    } else {
      PatchedCount(members[..last], m, k, value);
      MovedCount(members[last].value, k);
      PatchedAt(members, m, k, value, last);
      assert patched[..last] == PatchedMembers(members[..last], m, k, value);
    }
  }
}
