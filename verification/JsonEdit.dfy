/** Edits of a document are local: what lies before an edit keeps its tree, what lies behind it keeps
    its tree shifted. */
module JsonEdit {
  import opened Bytes
  import opened JsonGrammar
  import opened JsonAgreement
  import opened JsonCompleteness

  // ----- Shifted trees

  function Shift(p: nat, k: int): nat {
    if p + k >= 0 then p + k else 0
  }

  function Moved(n: Node, k: int): Node {
    match n
    case Scalar(start, end, literal) => Scalar(Shift(start, k), Shift(end, k), literal)
    case Text(start, end, text) => Text(Shift(start, k), Shift(end, k), text)
    case Array(start, end, items) =>
      Array(Shift(start, k), Shift(end, k), seq(|items|, i requires 0 <= i < |items| => Moved(items[i], k)))
    case Object(start, end, members) =>
      Object(Shift(start, k), Shift(end, k), seq(|members|, i requires 0 <= i < |members| => MovedMember(members[i], k)))
  }

  function MovedMember(m: Member, k: int): Member {
    Member(m.key, Shift(m.keyStart, k), Shift(m.keyEnd, k), Moved(m.value, k))
  }

  function MovedItems(items: seq<Node>, k: int): (moved: seq<Node>)
    ensures |moved| == |items| && forall i :: 0 <= i < |items| ==> moved[i] == Moved(items[i], k)
  {
    seq(|items|, i requires 0 <= i < |items| => Moved(items[i], k))
  }

  function MovedMembers(members: seq<Member>, k: int): (moved: seq<Member>)
    ensures |moved| == |members| && forall i :: 0 <= i < |members| ==> moved[i] == MovedMember(members[i], k)
  {
    seq(|members|, i requires 0 <= i < |members| => MovedMember(members[i], k))
  }

  function MovedSpans(spans: seq<Span>, k: int): (moved: seq<Span>)
    ensures |moved| == |spans|
    ensures forall i :: 0 <= i < |spans| ==> moved[i] == Span(Shift(spans[i].start, k), Shift(spans[i].end, k))
  {
    seq(|spans|, i requires 0 <= i < |spans| => Span(Shift(spans[i].start, k), Shift(spans[i].end, k)))
  }

  lemma {:induction false} NotMoved(n: Node)
    ensures Moved(n, 0) == n
    decreases n
  {
    match n {
      case Array(start, end, items) =>
        forall i | 0 <= i < |items|
          ensures Moved(items[i], 0) == items[i]
        {
          NotMoved(items[i]);
        }
        assert Moved(n, 0).items == items;
      case Object(start, end, members) =>
        forall i | 0 <= i < |members|
          ensures MovedMember(members[i], 0) == members[i]
        {
          NotMoved(members[i].value);
        }
        assert Moved(n, 0).members == members;
      case _ =>
    }
  }

  /** Shifting changes no key. */
  lemma {:induction false} MovedDistinct(n: Node, k: int)
    ensures Distinct(Moved(n, k)) == Distinct(n)
    decreases n
  {
    match n {
      case Array(_, _, items) =>
        forall i | 0 <= i < |items|
          ensures Distinct(Moved(n, k).items[i]) == Distinct(items[i])
        {
          MovedDistinct(items[i], k);
        }
      case Object(_, _, members) =>
        forall i | 0 <= i < |members|
          ensures Distinct(Moved(n, k).members[i].value) == Distinct(members[i].value)
          ensures Moved(n, k).members[i].key == members[i].key
        {
          MovedDistinct(members[i].value, k);
        }
      case _ =>
    }
  }

  /** Nor the depth. */
  lemma {:induction false} MovedWithin(n: Node, k: int, room: int)
    ensures Within(Moved(n, k), room) == Within(n, room)
    decreases n
  {
    match n {
      case Array(_, _, items) =>
        forall i | 0 <= i < |items|
          ensures Within(Moved(n, k).items[i], room - 1) == Within(items[i], room - 1)
        {
          MovedWithin(items[i], k, room - 1);
        }
      case Object(_, _, members) =>
        forall i | 0 <= i < |members|
          ensures Within(Moved(n, k).members[i].value, room - 1) == Within(members[i].value, room - 1)
        {
          MovedWithin(members[i].value, k, room - 1);
        }
      case _ =>
    }
  }

  /** Nor the number of values. */
  lemma {:induction false} MovedCount(n: Node, k: int)
    ensures Count(Moved(n, k)) == Count(n)
    decreases n, 1
  {
    match n {
      case Array(_, _, items) =>
        MovedItemsCount(n, items, k);
        assert Moved(n, k).items == MovedItems(items, k);
      case Object(_, _, members) =>
        MovedMembersCount(n, members, k);
        assert Moved(n, k).members == MovedMembers(members, k);
      case _ =>
    }
  }

  lemma {:induction false} MovedItemsCount(n: Node, items: seq<Node>, k: int)
    requires n.Array? && forall i :: 0 <= i < |items| ==> items[i] in n.items
    ensures ItemsCount(MovedItems(items, k)) == ItemsCount(items)
    decreases n, 0, |items|
  {
    if items != [] {
      var front := items[..|items| - 1];
      MovedItemsCount(n, front, k);
      MovedCount(items[|items| - 1], k);
      assert MovedItems(items, k)[..|items| - 1] == MovedItems(front, k);
    }
  }

  lemma {:induction false} MovedMembersCount(n: Node, members: seq<Member>, k: int)
    requires n.Object? && forall i :: 0 <= i < |members| ==> members[i] in n.members
    ensures MembersCount(MovedMembers(members, k)) == MembersCount(members)
    decreases n, 0, |members|
  {
    if members != [] {
      var front := members[..|members| - 1];
      MovedMembersCount(n, front, k);
      MovedCount(members[|members| - 1].value, k);
      assert MovedMembers(members, k)[..|members| - 1] == MovedMembers(front, k);
    }
  }

  // ----- The same bytes elsewhere

  /** The bytes between `a` and `b` stand in the other document, `k` further on. */
  predicate Same(raw: seq<byte>, raw': seq<byte>, a: int, b: int, k: int) {
    && 0 <= a <= b <= |raw| && 0 <= a + k && b + k <= |raw'|
    && forall i {:trigger raw[i]} :: a <= i < b ==> raw'[i + k] == raw[i]
  }

  lemma SameSlice(raw: seq<byte>, raw': seq<byte>, a: int, b: int, k: int)
    requires Same(raw, raw', a, b, k)
    ensures raw'[a + k..b + k] == raw[a..b]
  {
    forall i | 0 <= i < b - a
      ensures raw'[a + k..b + k][i] == raw[a..b][i]
    {
      assert raw[a..b][i] == raw[a + i];
      assert raw'[(a + i) + k] == raw[a + i];
    }
  }

  lemma SamePart(raw: seq<byte>, raw': seq<byte>, a: int, b: int, k: int, c: int, d: int)
    requires Same(raw, raw', a, b, k) && a <= c <= d <= b
    ensures Same(raw, raw', c, d, k)
  {
  }

  lemma BlankMoves(raw: seq<byte>, raw': seq<byte>, a: int, b: int, k: int)
    requires Blank(raw, a, b) && Same(raw, raw', a, b, k)
    ensures Blank(raw', a + k, b + k)
  {
    forall i | a + k <= i < b + k
      ensures IsSpace(raw'[i])
    {
      assert raw'[(i - k) + k] == raw[i - k];
    }
  }

  lemma SeparatedMoves(raw: seq<byte>, raw': seq<byte>, a: int, b: int, separator: byte, k: int)
    requires Separated(raw, a, b, separator) && Same(raw, raw', a, b, k)
    ensures Separated(raw', a + k, b + k, separator)
  {
    var c :| Blank(raw, a, c) && c < b <= |raw| && raw[c] == separator && Blank(raw, c + 1, b);
    BlankMoves(raw, raw', a, c, k);
    BlankMoves(raw, raw', c + 1, b, k);
    assert raw'[c + k] == raw[c];
    assert Blank(raw', a + k, c + k) && Blank(raw', (c + k) + 1, b + k);
  }

  lemma StringMoves(raw: seq<byte>, raw': seq<byte>, start: nat, end: nat, text: seq<byte>, k: int)
    requires StringAt(raw, start, end, text) && Same(raw, raw', start, end, k)
    ensures StringAt(raw', start + k, end + k, text)
  {
    SamePart(raw, raw', start, end, k, start + 1, end - 1);
    SameSlice(raw, raw', start + 1, end - 1, k);
    assert raw'[start + k] == raw[start] && raw'[(end - 1) + k] == raw[end - 1];
    assert raw'[start + k + 1..end + k - 1] == raw'[start + 1 + k..end - 1 + k];
  }

  lemma ListedMoves(raw: seq<byte>, raw': seq<byte>, spans: seq<Span>, a: nat, b: nat, k: int)
    requires Listed(raw, spans, a, b) && Same(raw, raw', a, b, k)
    requires forall i :: 0 <= i < |spans| ==> spans[i].start < spans[i].end
    ensures Listed(raw', MovedSpans(spans, k), a + k, b + k)
  {
    var moved := MovedSpans(spans, k);
    if spans == [] {
      BlankMoves(raw, raw', a, b, k);
    } else {
      forall i | 0 <= i < |spans|
        ensures a <= spans[i].start && spans[i].end <= b
        ensures moved[i] == Span(spans[i].start + k, spans[i].end + k)
      {
        SpansInOrder(raw, spans, a, b, i);
      }
      BlankMoves(raw, raw', a, spans[0].start, k);
      BlankMoves(raw, raw', spans[|spans| - 1].end, b, k);
      forall i | 0 < i < |spans|
        ensures Separated(raw', moved[i - 1].end, moved[i].start, COMMA)
      {
        SpansInOrder(raw, spans, a, b, i);
        SamePart(raw, raw', a, b, k, spans[i - 1].end, spans[i].start);
        SeparatedMoves(raw, raw', spans[i - 1].end, spans[i].start, COMMA, k);
      }
    }
  }

  lemma SpansOfMoved(items: seq<Node>, k: int)
    ensures ItemSpans(MovedItems(items, k)) == MovedSpans(ItemSpans(items), k)
  {
  }

  lemma SpansOfMovedMembers(members: seq<Member>, k: int)
    ensures MemberSpans(MovedMembers(members, k)) == MovedSpans(MemberSpans(members), k)
  {
    assert forall i :: 0 <= i < |members| ==> MovedMember(members[i], k).value.end == Shift(members[i].value.end, k);
  }

  /** The same bytes elsewhere denote the same tree, shifted. */
  lemma {:induction false} MovedDenotes(raw: seq<byte>, raw': seq<byte>, n: Node, k: int)
    requires Denotes(raw, n) && Same(raw, raw', n.start, n.end, k)
    ensures Denotes(raw', Moved(n, k)) && Moved(n, k).start == n.start + k && Moved(n, k).end == n.end + k
    decreases n, 1
  {
    match n {
      case Scalar(start, end, literal) => SameSlice(raw, raw', start, end, k);
      case Text(start, end, text) => StringMoves(raw, raw', start, end, text, k);
      case Array(_, _, _) => MovedArray(raw, raw', n, k);
      case Object(_, _, _) => MovedObject(raw, raw', n, k);
    }
  }

  lemma BracketsMove(raw: seq<byte>, raw': seq<byte>, start: nat, end: nat, open: byte, close: byte, k: int)
    requires Bracketed(raw, start, end, open, close) && Same(raw, raw', start, end, k)
    ensures Bracketed(raw', start + k, end + k, open, close)
  {
    assert raw'[start + k] == raw[start] && raw'[(end - 1) + k] == raw[end - 1];
  }

  /** A whole list between its brackets. */
  lemma ListMoves(
    raw: seq<byte>, raw': seq<byte>, spans: seq<Span>, moved: seq<Span>, from: nat, to: nat, start: nat, end: nat,
    open: byte, close: byte, k: int)
    requires Bracketed(raw, from, to, open, close) && Same(raw, raw', from, to, k)
    requires Listed(raw, spans, from + 1, to - 1) && moved == MovedSpans(spans, k) && start == from + k && end == to + k
    requires forall i :: 0 <= i < |spans| ==> spans[i].start < spans[i].end
    ensures Bracketed(raw', start, end, open, close) && Listed(raw', moved, start + 1, end - 1)
  {
    BracketsMove(raw, raw', from, to, open, close, k);
    SamePart(raw, raw', from, to, k, from + 1, to - 1);
    ListedMoves(raw, raw', spans, from + 1, to - 1, k);
  }

  /** What the grammar says of an array's items. */
  lemma ArrayParts(raw: seq<byte>, n: Node)
    requires n.Array? && Denotes(raw, n)
    ensures Bracketed(raw, n.start, n.end, OPEN_BRACKET, CLOSE_BRACKET)
    ensures Listed(raw, ItemSpans(n.items), n.start + 1, n.end - 1)
    ensures forall i :: 0 <= i < |n.items| ==> n.items[i].start < n.items[i].end && Denotes(raw, n.items[i])
  {
    assert forall i :: 0 <= i < |n.items| ==> Denotes(raw, n.items[i]);
  }

  lemma {:induction false} MovedItem(raw: seq<byte>, raw': seq<byte>, n: Node, k: int, i: nat)
    requires n.Array? && Denotes(raw, n) && Same(raw, raw', n.start, n.end, k) && i < |n.items|
    ensures Denotes(raw', Moved(n.items[i], k))
    decreases n, 0, 0
  {
    ArrayParts(raw, n);
    SpansInOrder(raw, ItemSpans(n.items), n.start + 1, n.end - 1, i);
    SamePart(raw, raw', n.start, n.end, k, n.items[i].start, n.items[i].end);
    MovedDenotes(raw, raw', n.items[i], k);
  }

  lemma {:induction false} MovedArray(raw: seq<byte>, raw': seq<byte>, n: Node, k: int)
    requires n.Array? && Denotes(raw, n) && Same(raw, raw', n.start, n.end, k)
    ensures Denotes(raw', Moved(n, k)) && Moved(n, k).start == n.start + k && Moved(n, k).end == n.end + k
    decreases n, 0, 1
  {
    var moved := MovedItems(n.items, k);
    forall i | 0 <= i < |n.items|
      ensures Denotes(raw', moved[i])
    {
      MovedItem(raw, raw', n, k, i);
    }
    MovedArrayAt(raw, raw', n, k, moved);
  }

  lemma MovedArrayAt(raw: seq<byte>, raw': seq<byte>, n: Node, k: int, moved: seq<Node>)
    requires n.Array? && Denotes(raw, n) && Same(raw, raw', n.start, n.end, k) && moved == MovedItems(n.items, k)
    requires forall i :: 0 <= i < |moved| ==> Denotes(raw', moved[i])
    ensures Denotes(raw', Moved(n, k)) && Moved(n, k).start == n.start + k && Moved(n, k).end == n.end + k
  {
    ArrayParts(raw, n);
    var start, end := n.start + k, n.end + k;
    SpansOfMoved(n.items, k);
    ListMoves(raw, raw', ItemSpans(n.items), ItemSpans(moved), n.start, n.end, start, end, OPEN_BRACKET, CLOSE_BRACKET, k);
    ItemsDenote(raw', start, end, moved);
    MovedIsArray(n, k, start, end, moved);
  }

  lemma MovedIsArray(n: Node, k: int, start: nat, end: nat, moved: seq<Node>)
    requires n.Array? && start == n.start + k && end == n.end + k && moved == MovedItems(n.items, k)
    ensures Moved(n, k) == Array(start, end, moved)
  {
  }

  lemma ItemsDenote(raw: seq<byte>, start: nat, end: nat, items: seq<Node>)
    requires Bracketed(raw, start, end, OPEN_BRACKET, CLOSE_BRACKET)
    requires forall i :: 0 <= i < |items| ==> Denotes(raw, items[i])
    requires Listed(raw, ItemSpans(items), start + 1, end - 1)
    ensures Denotes(raw, Array(start, end, items))
  {
  }

  lemma KeyMoves(raw: seq<byte>, raw': seq<byte>, m: Member, k: int)
    requires KeyAt(raw, m) && Same(raw, raw', m.keyStart, m.value.start, k)
    ensures KeyAt(raw', MovedMember(m, k))
    ensures Moved(m.value, k).start == m.value.start + k
  {
    SamePart(raw, raw', m.keyStart, m.value.start, k, m.keyStart, m.keyEnd);
    SamePart(raw, raw', m.keyStart, m.value.start, k, m.keyEnd, m.value.start);
    StringMoves(raw, raw', m.keyStart, m.keyEnd, m.key, k);
    SeparatedMoves(raw, raw', m.keyEnd, m.value.start, COLON, k);
  }

  /** What the grammar says of an object's members. */
  lemma ObjectParts(raw: seq<byte>, n: Node)
    requires n.Object? && Denotes(raw, n)
    ensures Bracketed(raw, n.start, n.end, OPEN_BRACE, CLOSE_BRACE)
    ensures Listed(raw, MemberSpans(n.members), n.start + 1, n.end - 1)
    ensures forall i :: 0 <= i < |n.members| ==> KeyAt(raw, n.members[i]) && Denotes(raw, n.members[i].value)
    ensures forall i :: 0 <= i < |n.members| ==>
      n.members[i].keyStart < n.members[i].keyEnd < n.members[i].value.start < n.members[i].value.end
  {
    forall i | 0 <= i < |n.members|
      ensures KeyAt(raw, n.members[i]) && Denotes(raw, n.members[i].value)
    {
    }
  }

  lemma {:induction false} MovedMemberDenotes(raw: seq<byte>, raw': seq<byte>, n: Node, k: int, i: nat)
    requires n.Object? && Denotes(raw, n) && Same(raw, raw', n.start, n.end, k) && i < |n.members|
    ensures KeyAt(raw', MovedMember(n.members[i], k)) && Denotes(raw', Moved(n.members[i].value, k))
    decreases n, 0, 0
  {
    var m := n.members[i];
    MemberParts(raw, raw', n, k, i);
    KeyMoves(raw, raw', m, k);
    MovedDenotes(raw, raw', m.value, k);
  }

  /** The key and the value of a member are among the bytes that stay the same. */
  lemma MemberParts(raw: seq<byte>, raw': seq<byte>, n: Node, k: int, i: nat)
    requires n.Object? && Denotes(raw, n) && Same(raw, raw', n.start, n.end, k) && i < |n.members|
    ensures
      var m := n.members[i];
      && KeyAt(raw, m) && Denotes(raw, m.value)
      && Same(raw, raw', m.keyStart, m.value.start, k) && Same(raw, raw', m.value.start, m.value.end, k)
  {
    ObjectParts(raw, n);
    var m := n.members[i];
    var spans := MemberSpans(n.members);
    SpansInOrder(raw, spans, n.start + 1, n.end - 1, i);
    assert spans[i] == Span(m.keyStart, m.value.end);
    SamePart(raw, raw', n.start, n.end, k, m.keyStart, m.value.start);
    SamePart(raw, raw', n.start, n.end, k, m.value.start, m.value.end);
  }

  lemma {:induction false} MovedObject(raw: seq<byte>, raw': seq<byte>, n: Node, k: int)
    requires n.Object? && Denotes(raw, n) && Same(raw, raw', n.start, n.end, k)
    ensures Denotes(raw', Moved(n, k)) && Moved(n, k).start == n.start + k && Moved(n, k).end == n.end + k
    decreases n, 0, 1
  {
    var moved := MovedMembers(n.members, k);
    forall i | 0 <= i < |n.members|
      ensures KeyAt(raw', moved[i]) && Denotes(raw', moved[i].value)
    {
      MovedMemberDenotes(raw, raw', n, k, i);
    }
    MovedObjectAt(raw, raw', n, k, moved);
  }

  lemma MovedObjectFrame(raw: seq<byte>, raw': seq<byte>, n: Node, k: int, start: nat, end: nat)
    requires n.Object? && Denotes(raw, n) && Same(raw, raw', n.start, n.end, k) && start == n.start + k && end == n.end + k
    ensures Bracketed(raw', start, end, OPEN_BRACE, CLOSE_BRACE)
    ensures Listed(raw', MemberSpans(MovedMembers(n.members, k)), start + 1, end - 1)
    ensures Moved(n, k) == Object(start, end, MovedMembers(n.members, k))
  {
    ObjectParts(raw, n);
    SpansOfMovedMembers(n.members, k);
    var moved := MovedMembers(n.members, k);
    ListMoves(raw, raw', MemberSpans(n.members), MemberSpans(moved), n.start, n.end, start, end, OPEN_BRACE, CLOSE_BRACE, k);
    MovedIsObject(n, k, start, end, moved);
  }

  lemma MovedIsObject(n: Node, k: int, start: nat, end: nat, moved: seq<Member>)
    requires n.Object? && start == n.start + k && end == n.end + k && moved == MovedMembers(n.members, k)
    ensures Moved(n, k) == Object(start, end, moved)
  {
  }

  lemma MovedObjectAt(raw: seq<byte>, raw': seq<byte>, n: Node, k: int, moved: seq<Member>)
    requires n.Object? && Denotes(raw, n) && Same(raw, raw', n.start, n.end, k) && moved == MovedMembers(n.members, k)
    requires forall i :: 0 <= i < |moved| ==> KeyAt(raw', moved[i]) && Denotes(raw', moved[i].value)
    ensures Denotes(raw', Moved(n, k)) && Moved(n, k).start == n.start + k && Moved(n, k).end == n.end + k
  {
    var start, end := n.start + k, n.end + k;
    MovedObjectFrame(raw, raw', n, k, start, end);
    MembersDenote(raw', start, end, moved);
  }
}
