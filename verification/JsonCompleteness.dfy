/** What is in the grammar the parser accepts, with the tree of the grammar. */
module JsonCompleteness {
  import opened Bytes
  import opened JsonGrammar
  import opened JsonParser
  import opened JsonAgreement

  lemma FitDenotes(raw: seq<byte>, n: Node, room: int)
    requires Fit(raw, n, room).Proper?
    ensures Denotes(raw, n) && Within(n, room) && Distinct(n)
  {
    assert Fitting(n, 0);
  }

  lemma ScalarIsComplete(raw: seq<byte>, start: nat, end: nat, literal: Literal, nodes: int)
    requires start < end <= |raw| && IsLiteral(raw[start..end], literal) && Delimited(raw, end)
    ensures ScalarFrom(raw, start, nodes) == Ok(Scalar(start, end, literal), end, nodes)
    ensures !IsSpace(raw[start]) && raw[start] != OPEN_BRACE && raw[start] != OPEN_BRACKET && raw[start] != QUOTE
  {
    assert raw[start] == raw[start..end][0];
    if literal.Number? {
      NumberEndsAt(raw, start, end);
      OtherStart(raw, start, TRUE);
      OtherStart(raw, start, FALSE);
      OtherStart(raw, start, NULL);
    } else if literal.False? {
      OtherStart(raw, start, TRUE);
    } else if literal.Null? {
      OtherStart(raw, start, TRUE);
      OtherStart(raw, start, FALSE);
    }
  }

  lemma OtherStart(raw: seq<byte>, p: nat, token: seq<byte>)
    requires p < |raw| && token != [] && raw[p] != token[0]
    ensures !StartsWith(raw, p, token)
  {
    if p + |token| <= |raw| {
      assert raw[p..p + |token|][0] == raw[p];
    }
  }

  lemma TextIsComplete(raw: seq<byte>, start: nat, end: nat, text: seq<byte>, nodes: int)
    requires StringAt(raw, start, end, text)
    ensures StringFrom(raw, start, nodes) == Ok(Text(start, end, text), end, nodes)
  {
    BodyEndsAt(raw, start + 1, end);
  }

  /** What stands behind one span of a list: the next comma, or the closing bracket. */
  lemma BehindSpan(raw: seq<byte>, spans: seq<Span>, a: nat, b: nat, k: nat) returns (r: nat)
    requires Listed(raw, spans, a, b) && k < |spans|
    requires b < |raw| && (raw[b] == CLOSE_BRACKET || raw[b] == CLOSE_BRACE)
    requires spans[k].end <= |raw|
    ensures r == Space(raw, spans[k].end) && r < |raw| && Delimited(raw, spans[k].end)
    ensures if k + 1 == |spans| then r == b else raw[r] == COMMA && Blank(raw, r + 1, spans[k + 1].start)
  {
    var e := spans[k].end;
    if k + 1 == |spans| {
      r := b;
    } else {
      assert Separated(raw, spans[k + 1 - 1].end, spans[k + 1].start, COMMA);
      r :| Blank(raw, e, r) && r < spans[k + 1].start <= |raw| && raw[r] == COMMA && Blank(raw, r + 1, spans[k + 1].start);
    }
    SpaceEndsAt(raw, e, r);
    assert e < r ==> IsSpace(raw[e]);
  }

  /** The spans of a list lie in order between its ends. */
  lemma {:induction false} SpansInOrder(raw: seq<byte>, spans: seq<Span>, a: int, b: int, k: nat)
    requires Listed(raw, spans, a, b) && k < |spans|
    requires forall i :: 0 <= i < |spans| ==> spans[i].start < spans[i].end
    ensures a <= spans[k].start && spans[k].end <= b
    ensures k > 0 ==> spans[k - 1].end < spans[k].start
  {
    SpansFrom(raw, spans, a, b, k);
    SpansUpTo(raw, spans, a, b, k);
    if k > 0 {
      assert Separated(raw, spans[k - 1].end, spans[k].start, COMMA);
    }
  }

  lemma {:induction false} SpansFrom(raw: seq<byte>, spans: seq<Span>, a: int, b: int, k: nat)
    requires Listed(raw, spans, a, b) && k < |spans|
    requires forall i :: 0 <= i < |spans| ==> spans[i].start < spans[i].end
    ensures a <= spans[k].start
  {
    if k > 0 {
      SpansFrom(raw, spans, a, b, k - 1);
      assert Separated(raw, spans[k - 1].end, spans[k].start, COMMA);
    }
  }

  lemma {:induction false} SpansUpTo(raw: seq<byte>, spans: seq<Span>, a: int, b: int, k: nat)
    requires Listed(raw, spans, a, b) && k < |spans|
    requires forall i :: 0 <= i < |spans| ==> spans[i].start < spans[i].end
    ensures spans[k].end <= b
    decreases |spans| - k
  {
    if k + 1 < |spans| {
      SpansUpTo(raw, spans, a, b, k + 1);
      assert Separated(raw, spans[k + 1 - 1].end, spans[k + 1].start, COMMA);
    }
  }

  lemma PrefixGrows<T>(s: seq<T>, k: nat)
    requires k < |s|
    ensures s[..k] + [s[k]] == s[..k + 1]
  {
  }

  lemma {:induction false} ItemsCountPrefix(items: seq<Node>, k: nat)
    requires k <= |items|
    ensures ItemsCount(items[..k]) <= ItemsCount(items)
    decreases |items|
  {
    if k < |items| {
      ItemsCountPrefix(items[..|items| - 1], k);
      assert items[..|items| - 1][..k] == items[..k];
    } else {
      assert items[..k] == items;
    }
  }

  lemma {:induction false} MembersCountPrefix(members: seq<Member>, k: nat)
    requires k <= |members|
    ensures MembersCount(members[..k]) <= MembersCount(members)
    decreases |members|
  {
    if k < |members| {
      MembersCountPrefix(members[..|members| - 1], k);
      assert members[..|members| - 1][..k] == members[..k];
    } else {
      assert members[..k] == members;
    }
  }

  /** The parser reads exactly this value here. */
  lemma {:induction false} ValueIsComplete(
    raw: seq<byte>, p: nat, depth: nat, nodes: int, room: int, n: Node, total: int)
    requires room == MAX_JSON_DEPTH - depth && Fit(raw, n, room).Proper?
    requires Blank(raw, p, n.start) && Delimited(raw, n.end) && nodes + Count(n) == total <= MAX_JSON_NODES
    ensures n.end <= |raw| && p <= |raw| && Value(raw, p, depth, nodes) == Ok(n, n.end, total)
    decreases n, 1
  {
    StartOf(raw, p, n, room);
    ValueDispatch(raw, p, depth, nodes, nodes + 1, n.start, Value(raw, p, depth, nodes));
    if n.Array? {
      ArrayIsComplete(raw, depth, nodes + 1, room, n, total);
    } else if n.Object? {
      ObjectIsComplete(raw, depth, nodes + 1, room, n, total);
    } else {
      LeafIsComplete(raw, nodes + 1, room, n);
    }
  }

  lemma ValueDispatch(raw: seq<byte>, p: nat, depth: nat, nodes: int, next: int, q: nat, s: Step<Node>)
    requires p <= |raw| && s == Value(raw, p, depth, nodes) && depth <= MAX_JSON_DEPTH
    requires next == nodes + 1 && next <= MAX_JSON_NODES && q == Space(raw, p) && q < |raw|
    ensures
      s == if raw[q] == OPEN_BRACE then ObjectFrom(raw, q, depth, next)
           else if raw[q] == OPEN_BRACKET then ArrayFrom(raw, q, depth, next)
           else if raw[q] == QUOTE then StringFrom(raw, q, next)
           else ScalarFrom(raw, q, next)
  {
  }

  /** The first byte tells the kind of the value. */
  lemma StartOf(raw: seq<byte>, p: nat, n: Node, room: int)
    requires Fit(raw, n, room).Proper? && Blank(raw, p, n.start)
    ensures p <= n.start < n.end <= |raw| && Space(raw, p) == n.start && 0 <= room
    ensures n.Object? <==> raw[n.start] == OPEN_BRACE
    ensures n.Array? <==> raw[n.start] == OPEN_BRACKET
    ensures n.Text? <==> raw[n.start] == QUOTE
  {
    FitDenotes(raw, n, room);
    if n.Scalar? {
      assert raw[n.start] == raw[n.start..n.end][0];
      if n.literal.Number? {
        var a, b, c := NumberHasParts(raw, n.start, n.end);
        NumberStarts(raw, n.start, a, b);
      }
    }
    SpaceEndsAt(raw, p, n.start);
  }

  lemma LeafIsComplete(raw: seq<byte>, nodes: int, room: int, n: Node)
    requires (n.Scalar? || n.Text?) && Fit(raw, n, room).Proper? && Delimited(raw, n.end)
    ensures n.start < n.end <= |raw|
    ensures (if n.Text? then StringFrom(raw, n.start, nodes) else ScalarFrom(raw, n.start, nodes)) == Ok(n, n.end, nodes)
  {
    FitDenotes(raw, n, room);
    if n.Text? {
      TextIsComplete(raw, n.start, n.end, n.text, nodes);
    } else {
      ScalarIsComplete(raw, n.start, n.end, n.literal, nodes);
    }
  }

  lemma {:induction false} ArrayIsComplete(raw: seq<byte>, depth: nat, nodes: int, room: int, n: Node, total: int)
    requires n.Array? && room == MAX_JSON_DEPTH - depth && Fit(raw, n, room).Proper?
    requires nodes + ItemsCount(n.items) == total <= MAX_JSON_NODES
    ensures n.start < |raw| && ArrayFrom(raw, n.start, depth, nodes) == Ok(n, n.end, total)
    decreases n, 0
  {
    if n.items == [] {
      FitDenotes(raw, n, room);
      SpaceEndsAt(raw, n.start + 1, n.end - 1);
    } else {
      var first := n.items[0].start;
      FirstItem(raw, n, room);
      assert n.items[..0] == [];
      ItemsAreComplete(raw, first, depth, depth + 1, nodes, room, room - 1, n, 0, [], total);
    }
  }

  /** The first item stands behind the bracket. */
  lemma FirstSpan(raw: seq<byte>, n: Node, room: int, inner: int, behind: nat, item: Node)
    requires n.Array? && n.items != [] && Fit(raw, n, room).Proper?
    requires inner == room - 1 && behind == n.start + 1 && item == n.items[0]
    ensures Fit(raw, item, inner).Proper? && Blank(raw, behind, item.start)
  {
    ItemFacts(raw, n, room, inner);
    assert ItemSpans(n.items)[0] == Span(item.start, item.end);
  }

  /** The first item begins behind the bracket and is no closing bracket. */
  lemma FirstItem(raw: seq<byte>, n: Node, room: int)
    requires n.Array? && n.items != [] && Fit(raw, n, room).Proper?
    ensures
      var first := n.items[0].start;
      n.start < first < |raw| && Space(raw, n.start + 1) == first && raw[first] != CLOSE_BRACKET && Blank(raw, first, first)
  {
    var inner, behind, item := room - 1, n.start + 1, n.items[0];
    FirstSpan(raw, n, room, inner, behind, item);
    FirstStarts(raw, behind, item, inner);
  }

  lemma FirstStarts(raw: seq<byte>, behind: nat, item: Node, inner: int)
    requires Fit(raw, item, inner).Proper? && Blank(raw, behind, item.start)
    ensures behind <= item.start < |raw| && Space(raw, behind) == item.start && raw[item.start] != CLOSE_BRACKET
  {
    StartOf(raw, behind, item, inner);
    NotClosing(raw, item, inner);
  }

  lemma NotClosing(raw: seq<byte>, n: Node, room: int)
    requires Fit(raw, n, room).Proper?
    ensures n.start < |raw| && raw[n.start] != CLOSE_BRACKET
  {
    FitDenotes(raw, n, room);
    if n.Scalar? {
      assert raw[n.start] == raw[n.start..n.end][0];
      if n.literal.Number? {
        var a, b, c := NumberHasParts(raw, n.start, n.end);
        NumberStarts(raw, n.start, a, b);
      }
    }
  }

  lemma ItemFacts(raw: seq<byte>, n: Node, room: int, inner: int)
    requires n.Array? && Fit(raw, n, room).Proper? && inner == room - 1
    ensures Bracketed(raw, n.start, n.end, OPEN_BRACKET, CLOSE_BRACKET)
    ensures Listed(raw, ItemSpans(n.items), n.start + 1, n.end - 1)
    ensures AllFit(raw, n.items, inner)
    ensures forall i :: 0 <= i < |n.items| ==> n.items[i].start < n.items[i].end <= |raw|
  {
    FitDenotes(raw, n, room);
    assert forall i :: 0 <= i < |n.items| ==>
      Denotes(raw, n.items[i]) && Within(n.items[i], inner) && Distinct(n.items[i]);
  }

  /** What stands behind an item. */
  lemma BehindItem(raw: seq<byte>, n: Node, room: int, inner: int, k: nat) returns (r: nat, next: nat)
    requires n.Array? && k < |n.items| && Fit(raw, n, room).Proper? && inner == room - 1
    ensures Fit(raw, n.items[k], inner).Proper? && n.items[k].end <= |raw| && Delimited(raw, n.items[k].end)
    ensures r == Space(raw, n.items[k].end) && n.start < r < |raw| && next == r + 1
    ensures
      if k + 1 == |n.items| then raw[r] == CLOSE_BRACKET && next == n.end
      else raw[r] == COMMA && Blank(raw, next, n.items[k + 1].start)
  {
    ItemFacts(raw, n, room, inner);
    r := BehindSpan(raw, ItemSpans(n.items), n.start + 1, n.end - 1, k);
    next := r + 1;
    SpansInOrder(raw, ItemSpans(n.items), n.start + 1, n.end - 1, k);
  }

  /** A known item, and what stands behind it, give the rest of the array. */
  lemma ItemKnown(
    raw: seq<byte>, start: nat, p: nat, depth: nat, deeper: nat, nodes: int, done: seq<Node>, v: Step<Node>, r: nat,
    next: nat, more: seq<Node>, s: Step<Node>)
    requires start < p <= |raw| && s == Items(raw, start, p, depth, nodes, done) && deeper == depth + 1
    requires v == Value(raw, p, deeper, nodes) && v.Ok? && v.position <= |raw|
    requires r == Space(raw, v.position) && start < r < |raw| && next == r + 1 && more == done + [v.value]
    ensures raw[r] == CLOSE_BRACKET ==> s == Ok(Array(start, next, more), next, v.nodes)
    ensures raw[r] == COMMA ==> s == Items(raw, start, next, depth, v.nodes, more)
  {
    ItemStep(raw, start, p, depth, deeper, nodes, done, v, s);
    var r0, next0, t := ItemsTurn(raw, start, depth, more, v.position, v.nodes, s);
  }

  lemma {:induction false} ItemsAreComplete(
    raw: seq<byte>, p: nat, depth: nat, deeper: nat, nodes: int, room: int, inner: int, n: Node, k: nat,
    done: seq<Node>, total: int)
    requires n.Array? && Fit(raw, n, room).Proper?
    requires room == MAX_JSON_DEPTH - depth && inner == room - 1 && deeper == depth + 1
    requires k < |n.items| && n.start < p && Blank(raw, p, n.items[k].start) && done == n.items[..k]
    requires total == nodes + ItemsCount(n.items) - ItemsCount(done) && total <= MAX_JSON_NODES
    ensures Items(raw, n.start, p, depth, nodes, done) == Ok(n, n.end, total)
    decreases n, 0, |n.items| - k
  {
    var item, more := n.items[k], n.items[..k + 1];
    PrefixGrows(n.items, k);
    ItemsCountGrows(done, item);
    ItemsCountPrefix(n.items, k + 1);
    var r, next := BehindItem(raw, n, room, inner, k);
    var counted := nodes + Count(item);
    ValueIsComplete(raw, p, deeper, nodes, inner, item, counted);
    var s := Items(raw, n.start, p, depth, nodes, done);
    ItemKnown(raw, n.start, p, depth, deeper, nodes, done, Value(raw, p, deeper, nodes), r, next, more, s);
    if k + 1 < |n.items| {
      ItemsAreComplete(raw, next, depth, deeper, counted, room, inner, n, k + 1, more, total);
    } else {
      assert more == n.items;
    }
  }

  lemma {:induction false} ObjectIsComplete(raw: seq<byte>, depth: nat, nodes: int, room: int, n: Node, total: int)
    requires n.Object? && room == MAX_JSON_DEPTH - depth && Fit(raw, n, room).Proper?
    requires nodes + MembersCount(n.members) == total <= MAX_JSON_NODES
    ensures n.start < |raw| && ObjectFrom(raw, n.start, depth, nodes) == Ok(n, n.end, total)
    decreases n, 0
  {
    if n.members == [] {
      FitDenotes(raw, n, room);
      SpaceEndsAt(raw, n.start + 1, n.end - 1);
    } else {
      var first := n.members[0].keyStart;
      FirstMember(raw, n, room);
      assert n.members[..0] == [];
      MembersAreComplete(raw, first, depth, depth + 1, nodes, room, room - 1, n, 0, [], total);
    }
  }

  lemma FirstMember(raw: seq<byte>, n: Node, room: int)
    requires n.Object? && n.members != [] && Fit(raw, n, room).Proper?
    ensures
      var first := n.members[0].keyStart;
      n.start < first < |raw| && Space(raw, n.start + 1) == first && raw[first] == QUOTE && Blank(raw, first, first)
  {
    FitDenotes(raw, n, room);
    assert KeyAt(raw, n.members[0]);
    SpaceEndsAt(raw, n.start + 1, n.members[0].keyStart);
  }

  lemma MemberFacts(raw: seq<byte>, n: Node, room: int, inner: int)
    requires n.Object? && Fit(raw, n, room).Proper? && inner == room - 1
    ensures Bracketed(raw, n.start, n.end, OPEN_BRACE, CLOSE_BRACE) && KeysDiffer(n.members)
    ensures Listed(raw, MemberSpans(n.members), n.start + 1, n.end - 1)
    ensures AllMembersFit(raw, n.members, inner)
    ensures forall i :: 0 <= i < |n.members| ==>
      n.members[i].keyStart < n.members[i].keyEnd < n.members[i].value.start < n.members[i].value.end <= |raw|
  {
    FitDenotes(raw, n, room);
    forall i | 0 <= i < |n.members|
      ensures KeyAt(raw, n.members[i]) && Denotes(raw, n.members[i].value)
      ensures Within(n.members[i].value, inner) && Distinct(n.members[i].value)
    {
    }
  }

  lemma BehindMember(raw: seq<byte>, n: Node, room: int, inner: int, k: nat) returns (r: nat, next: nat)
    requires n.Object? && k < |n.members| && Fit(raw, n, room).Proper? && inner == room - 1
    ensures
      var value := n.members[k].value;
      && Fit(raw, value, inner).Proper? && value.end <= |raw| && Delimited(raw, value.end)
      && r == Space(raw, value.end) && n.start < r < |raw| && next == r + 1
    ensures
      if k + 1 == |n.members| then raw[r] == CLOSE_BRACE && next == n.end
      else raw[r] == COMMA && Blank(raw, next, n.members[k + 1].keyStart)
  {
    MemberFacts(raw, n, room, inner);
    r := BehindSpan(raw, MemberSpans(n.members), n.start + 1, n.end - 1, k);
    next := r + 1;
    SpansInOrder(raw, MemberSpans(n.members), n.start + 1, n.end - 1, k);
  }

  lemma KeyIsComplete(raw: seq<byte>, p: nat, n: Node, room: int, k: nat, done: seq<Member>) returns (position: nat)
    requires n.Object? && k < |n.members| && Fit(raw, n, room).Proper? && done == n.members[..k]
    requires Blank(raw, p, n.members[k].keyStart)
    ensures p < position <= |raw| && Blank(raw, position, n.members[k].value.start)
    ensures
      var m := n.members[k];
      Key(raw, p, done) == Ok(KeySpan(m.key, m.keyStart, m.keyEnd), position, 0)
  {
    var m := n.members[k];
    MemberKey(raw, n, room, k);
    SpaceEndsAt(raw, p, m.keyStart);
    BodyEndsAt(raw, m.keyStart + 1, m.keyEnd);
    var c :| Blank(raw, m.keyEnd, c) && c < m.value.start <= |raw| && raw[c] == COLON && Blank(raw, c + 1, m.value.start);
    SpaceEndsAt(raw, m.keyEnd, c);
    assert forall i :: 0 <= i < k ==> done[i].key == n.members[i].key;
    position := c + 1;
  }

  /** A known member, and what stands behind it, give the rest of the object. */
  lemma MemberKnown(
    raw: seq<byte>, start: nat, p: nat, depth: nat, nodes: int, done: seq<Member>, v: Step<Member>, r: nat, next: nat,
    more: seq<Member>, s: Step<Node>)
    requires start < p <= |raw| && s == Members(raw, start, p, depth, nodes, done)
    requires v == MemberFrom(raw, p, depth, nodes, done) && v.Ok? && v.position <= |raw|
    requires r == Space(raw, v.position) && start < r < |raw| && next == r + 1 && more == done + [v.value]
    ensures raw[r] == CLOSE_BRACE ==> s == Ok(Object(start, next, more), next, v.nodes)
    ensures raw[r] == COMMA ==> s == Members(raw, start, next, depth, v.nodes, more)
  {
    MembersStep(raw, start, p, depth, nodes, done, v, s);
    var r0, next0, t := MembersTurn(raw, start, depth, more, v.position, v.nodes, s);
  }

  lemma MemberKey(raw: seq<byte>, n: Node, room: int, k: nat)
    requires n.Object? && k < |n.members| && Fit(raw, n, room).Proper?
    ensures KeyAt(raw, n.members[k]) && KeysDiffer(n.members)
  {
    FitDenotes(raw, n, room);
  }

  lemma {:induction false} MembersAreComplete(
    raw: seq<byte>, p: nat, depth: nat, deeper: nat, nodes: int, room: int, inner: int, n: Node, k: nat,
    done: seq<Member>, total: int)
    requires n.Object? && Fit(raw, n, room).Proper?
    requires room == MAX_JSON_DEPTH - depth && inner == room - 1 && deeper == depth + 1
    requires k < |n.members| && n.start < p && Blank(raw, p, n.members[k].keyStart) && done == n.members[..k]
    requires total == nodes + MembersCount(n.members) - MembersCount(done) && total <= MAX_JSON_NODES
    ensures Members(raw, n.start, p, depth, nodes, done) == Ok(n, n.end, total)
    decreases n, 0, |n.members| - k
  {
    var m, more := n.members[k], n.members[..k + 1];
    PrefixGrows(n.members, k);
    MembersCountGrows(done, m);
    MembersCountPrefix(n.members, k + 1);
    var r, next := BehindMember(raw, n, room, inner, k);
    var position := KeyIsComplete(raw, p, n, room, k, done);
    var counted := nodes + Count(m.value);
    ValueIsComplete(raw, position, deeper, nodes, inner, m.value, counted);
    var v := MemberFrom(raw, p, depth, nodes, done);
    assert v == Ok(m, m.value.end, counted);
    var s := Members(raw, n.start, p, depth, nodes, done);
    MemberKnown(raw, n.start, p, depth, nodes, done, v, r, next, more, s);
    if k + 1 < |n.members| {
      MembersAreComplete(raw, next, depth, deeper, counted, room, inner, n, k + 1, more, total);
    } else {
      assert more == n.members;
    }
  }

  // ----- The agreement

  /** The parser accepts exactly the documents of the grammar that keep its limits, and its tree is
      the grammar's. */
  lemma ParserAgrees(raw: seq<byte>, n: Node)
    ensures Parse(raw).Ok? && Parse(raw).value == n <==> |raw| <= MAX_CONFIG_BYTES && Document(raw, n)
  {
    if Parse(raw).Ok? && Parse(raw).value == n {
      var s := Value(raw, 0, 0, 0);
      ValueIsSound(raw, 0, 0, 0, MAX_JSON_DEPTH, s);
      FitDenotes(raw, n, MAX_JSON_DEPTH);
    }
    if |raw| <= MAX_CONFIG_BYTES && Document(raw, n) {
      assert Delimited(raw, n.end) by {
        assert n.end < |raw| ==> IsSpace(raw[n.end]);
      }
      ValueIsComplete(raw, 0, 0, 0, MAX_JSON_DEPTH, n, Count(n));
      SpaceEndsAt(raw, n.end, |raw|);
    }
  }

  /** So a document has one tree. */
  lemma TreeIsUnique(raw: seq<byte>, a: Node, b: Node)
    requires |raw| <= MAX_CONFIG_BYTES && Document(raw, a) && Document(raw, b)
    ensures a == b
  {
    ParserAgrees(raw, a);
    ParserAgrees(raw, b);
  }
}
