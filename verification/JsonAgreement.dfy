/** The parser and the grammar agree: it accepts exactly the documents within its limits, and gives
    exactly their tree. */
module JsonAgreement {
  import opened Bytes
  import opened JsonGrammar
  import opened JsonParser

  // ----- What the parser accepts is in the grammar

  ghost predicate Fitting(n: Node, k: nat) { true }

  datatype Standing = Proper | Improper

  /** Whether this is a part of a document at some depth: opened where a proof says `Fitting` of it. */
  ghost function Fit(raw: seq<byte>, n: Node, depth: int): Standing {
    if forall k: nat {:trigger Fitting(n, k)} :: Fitting(n, k) ==> Denotes(raw, n) && Within(n, depth) && Distinct(n)
    then Proper else Improper
  }

  ghost function Keyed(raw: seq<byte>, m: Member): Standing {
    if forall k: nat {:trigger Fitting(m.value, k)} :: Fitting(m.value, k) ==> KeyAt(raw, m) then Proper else Improper
  }

  ghost predicate AllFit(raw: seq<byte>, items: seq<Node>, depth: int) {
    forall i :: 0 <= i < |items| ==> Fit(raw, items[i], depth).Proper?
  }

  ghost predicate AllMembersFit(raw: seq<byte>, members: seq<Member>, depth: int) {
    forall i :: 0 <= i < |members| ==> Keyed(raw, members[i]).Proper? && Fit(raw, members[i].value, depth).Proper?
  }

  ghost predicate Spanning(spans: seq<Span>, k: nat) { true }

  /** The spans read so far, when the parser is about to read the next one: a name, until a proof
      says `Spanning` of them. */
  ghost predicate SoFar(raw: seq<byte>, spans: seq<Span>, a: int, p: nat) {
    forall k: nat {:trigger Spanning(spans, k)} :: Spanning(spans, k) ==>
      if spans == [] then Blank(raw, a, p) else
        && Chained(raw, spans, a)
        && spans[|spans| - 1].end < p <= |raw| && raw[p - 1] == COMMA && Blank(raw, spans[|spans| - 1].end, p - 1)
  }

  /** They are all the spans there are. */
  ghost predicate AllRead(raw: seq<byte>, spans: seq<Span>, a: int, b: int) {
    forall k: nat {:trigger Spanning(spans, k)} :: Spanning(spans, k) ==> Listed(raw, spans, a, b)
  }

  lemma BlankJoins(raw: seq<byte>, a: int, b: int, c: int)
    requires Blank(raw, a, b) && Blank(raw, b, c)
    ensures Blank(raw, a, c)
  {
  }

  lemma ChainGrows(raw: seq<byte>, spans: seq<Span>, a: int, p: nat, next: Span)
    requires SoFar(raw, spans, a, p) && Blank(raw, p, next.start)
    ensures Chained(raw, spans + [next], a)
  {
    assert Spanning(spans, 0);
    var more := spans + [next];
    if spans == [] {
      BlankJoins(raw, a, p, next.start);
    } else {
      assert Separated(raw, spans[|spans| - 1].end, next.start, COMMA);
      forall i | 0 < i < |more|
        ensures Separated(raw, more[i - 1].end, more[i].start, COMMA)
      {
        assert i < |spans| ==> more[i - 1] == spans[i - 1] && more[i] == spans[i];
      }
    }
  }

  /** One more span read: the list goes on behind a comma, or ends at a bracket. */
  lemma SpanRead(raw: seq<byte>, spans: seq<Span>, a: int, p: nat, span: Span, r: nat, next: nat)
    requires SoFar(raw, spans, a, p) && Blank(raw, p, span.start) && Blank(raw, span.end, r) && r < |raw| && next == r + 1
    ensures raw[r] == COMMA ==> SoFar(raw, spans + [span], a, next)
    ensures AllRead(raw, spans + [span], a, r)
  {
    ChainGrows(raw, spans, a, p, span);
  }

  lemma ArrayFits(
    raw: seq<byte>, start: nat, first: nat, last: nat, end: nat, items: seq<Node>, room: nat, inner: int)
    requires Bracketed(raw, start, end, OPEN_BRACKET, CLOSE_BRACKET) && first == start + 1 && end == last + 1
    requires AllFit(raw, items, inner) && inner == room - 1
    requires AllRead(raw, ItemSpans(items), first, last)
    ensures Fit(raw, Array(start, end, items), room).Proper?
  {
    assert Spanning(ItemSpans(items), 0);
    assert forall i :: 0 <= i < |items| ==> Fitting(items[i], 0);
  }

  lemma MembersDenote(raw: seq<byte>, start: nat, end: nat, members: seq<Member>)
    requires Bracketed(raw, start, end, OPEN_BRACE, CLOSE_BRACE)
    requires forall i :: 0 <= i < |members| ==> KeyAt(raw, members[i]) && Denotes(raw, members[i].value)
    requires Listed(raw, MemberSpans(members), start + 1, end - 1)
    ensures Denotes(raw, Object(start, end, members))
  {
  }

  lemma ObjectFits(
    raw: seq<byte>, start: nat, first: nat, last: nat, end: nat, members: seq<Member>, room: nat, inner: int)
    requires Bracketed(raw, start, end, OPEN_BRACE, CLOSE_BRACE) && first == start + 1 && end == last + 1
    requires AllMembersFit(raw, members, inner) && inner == room - 1 && KeysDiffer(members)
    requires AllRead(raw, MemberSpans(members), first, last)
    ensures Fit(raw, Object(start, end, members), room).Proper?
  {
    forall i | 0 <= i < |members|
      ensures KeyAt(raw, members[i]) && Denotes(raw, members[i].value)
      ensures JsonGrammar.Within(members[i].value, inner) && Distinct(members[i].value)
    {
      assert Fitting(members[i].value, 0);
    }
    assert Spanning(MemberSpans(members), 0);
    MembersDenote(raw, start, end, members);
    var n := Object(start, end, members);
    assert JsonGrammar.Within(n, room) && Distinct(n);
  }

  lemma ItemsCountGrows(items: seq<Node>, item: Node)
    ensures ItemsCount(items + [item]) == ItemsCount(items) + Count(item)
  {
    assert (items + [item])[..|items|] == items;
  }

  lemma MembersCountGrows(members: seq<Member>, member: Member)
    ensures MembersCount(members + [member]) == MembersCount(members) + Count(member.value)
  {
    assert (members + [member])[..|members|] == members;
  }

  lemma SpansGrow(items: seq<Node>, item: Node)
    ensures ItemSpans(items + [item]) == ItemSpans(items) + [Span(item.start, item.end)]
  {
  }

  lemma MemberSpansGrow(members: seq<Member>, m: Member)
    ensures MemberSpans(members + [m]) == MemberSpans(members) + [Span(m.keyStart, m.value.end)]
  {
  }

  /** What one successful step means. */
  ghost predicate Read(raw: seq<byte>, p: nat, room: int, nodes: int, s: Step<Node>) {
    && s.Ok? && Fit(raw, s.value, room).Proper? && Blank(raw, p, s.value.start)
    && s.value.end == s.position && s.nodes == nodes + Count(s.value) && s.nodes <= MAX_JSON_NODES
  }

  lemma TextDenotes(raw: seq<byte>, p: nat, q: nat, body: seq<byte>)
    requires p + 2 <= q <= |raw| && raw[p] == QUOTE && raw[q - 1] == QUOTE
    requires body == raw[p + 1..q - 1] && IsBody(body)
    ensures Denotes(raw, Text(p, q, Decoded(body)))
  {
  }

  lemma BodyRead(raw: seq<byte>, p: nat, next: nat, q: nat)
    requires p < |raw| && raw[p] == QUOTE && next == p + 1 && StringEnd(raw, next).Ok? && q == StringEnd(raw, next).position
    ensures p + 2 <= q <= |raw| && Denotes(raw, Text(p, q, Decoded(raw[p + 1..q - 1])))
  {
    StringEndIsBody(raw, next);
    TextDenotes(raw, p, q, raw[next..q - 1]);
  }

  lemma StringIsSound(raw: seq<byte>, p: nat, nodes: int)
    requires p < |raw| && raw[p] == QUOTE && StringFrom(raw, p, nodes).Ok?
    ensures
      var n := StringFrom(raw, p, nodes).value;
      Denotes(raw, n) && n.start == p && n.end == StringFrom(raw, p, nodes).position && n.Text?
  {
    var next := p + 1;
    var q := StringEnd(raw, next).position;
    BodyRead(raw, p, next, q);
    assert StringFrom(raw, p, nodes) == Ok(Text(p, q, Decoded(raw[p + 1..q - 1])), q, nodes);
  }

  lemma ScalarIsSound(raw: seq<byte>, p: nat, nodes: int)
    requires p < |raw| && ScalarFrom(raw, p, nodes).Ok?
    ensures
      var n := ScalarFrom(raw, p, nodes).value;
      Denotes(raw, n) && n.start == p && n.end == ScalarFrom(raw, p, nodes).position && n.Scalar?
  {
    if StartsWith(raw, p, TRUE) || StartsWith(raw, p, FALSE) || StartsWith(raw, p, NULL) {
    } else {
      NumberIsNumber(raw, p);
    }
  }

  /** What reading the rest of an array or an object means. */
  ghost predicate ReadRest(raw: seq<byte>, start: nat, room: int, counted: int, s: Step<Node>) {
    && s.Ok? && s.value.start == start && Fit(raw, s.value, room).Proper?
    && s.value.end == s.position && s.nodes == counted + Count(s.value) && s.nodes <= MAX_JSON_NODES
  }

  lemma {:induction false} ValueIsSound(raw: seq<byte>, p: nat, depth: nat, nodes: int, room: int, s: Step<Node>)
    requires p <= |raw| && s == Value(raw, p, depth, nodes) && s.Ok? && room == MAX_JSON_DEPTH - depth
    ensures Read(raw, p, room, nodes, s)
    decreases |raw| - p, 1
  {
    var q := Space(raw, p);
    if raw[q] == OPEN_BRACE {
      ObjectIsSound(raw, q, depth, nodes + 1, room, s);
    } else if raw[q] == OPEN_BRACKET {
      ArrayIsSound(raw, q, depth, nodes + 1, room, s);
    } else if raw[q] == QUOTE {
      StringIsSound(raw, q, nodes + 1);
    } else {
      ScalarIsSound(raw, q, nodes + 1);
    }
  }

  lemma {:induction false} ArrayIsSound(raw: seq<byte>, start: nat, depth: nat, nodes: int, room: nat, s: Step<Node>)
    requires start < |raw| && raw[start] == OPEN_BRACKET && s == ArrayFrom(raw, start, depth, nodes) && s.Ok?
    requires room == MAX_JSON_DEPTH - depth && nodes <= MAX_JSON_NODES
    ensures ReadRest(raw, start, room, nodes - 1, s)
    decreases |raw| - start, 0
  {
    var p := Space(raw, start + 1);
    if At(raw, p, CLOSE_BRACKET) {
      ItemsEnd(raw, start, start + 1, p, p + 1, [], room, room - 1, nodes - 1, nodes);
    } else {
      ItemsAreSound(raw, start, start + 1, p, depth, nodes, room, room - 1, nodes - 1, [], s);
    }
  }

  /** An item was read. */
  lemma ItemStep(
    raw: seq<byte>, start: nat, p: nat, depth: nat, deeper: nat, nodes: int, items: seq<Node>, v: Step<Node>, s: Step<Node>)
    requires start < p <= |raw| && s == Items(raw, start, p, depth, nodes, items)
    requires deeper == depth + 1 && v == Value(raw, p, deeper, nodes)
    ensures s.Ok? ==> v.Ok?
    ensures v.Ok? ==> start < v.position <= |raw| && s == AfterItem(raw, start, depth, items + [v.value], v.position, v.nodes)
  {
  }

  /** Behind it, the array ends or goes on. */
  lemma ItemsTurn(raw: seq<byte>, start: nat, depth: nat, items: seq<Node>, q: nat, nodes: int, s: Step<Node>)
    returns (r: nat, next: nat, t: Step<Node>)
    requires start < q <= |raw| && s == AfterItem(raw, start, depth, items, q, nodes)
    ensures r == Space(raw, q) && start < r && next == r + 1
    ensures r < |raw| ==> t == Items(raw, start, next, depth, nodes, items)
    ensures r < |raw| && raw[r] == CLOSE_BRACKET ==> s == Ok(Array(start, next, items), next, nodes)
    ensures r < |raw| && raw[r] == COMMA ==> s == t
    ensures s.Ok? ==> r < |raw| && (raw[r] == CLOSE_BRACKET || raw[r] == COMMA)
  {
    r := Space(raw, q);
    next := r + 1;
    t := if r < |raw| then Items(raw, start, next, depth, nodes, items) else s;
  }

  /** One successful round of the loop. */
  lemma ItemsRound(raw: seq<byte>, start: nat, p: nat, depth: nat, nodes: int, items: seq<Node>, s: Step<Node>)
    returns (deeper: nat, v: Step<Node>, r: nat, next: nat)
    requires start < p <= |raw| && s == Items(raw, start, p, depth, nodes, items) && s.Ok?
    ensures deeper == depth + 1 && v == Value(raw, p, deeper, nodes) && v.Ok? && p < v.position <= |raw|
    ensures r == Space(raw, v.position) && start < r < |raw| && next == r + 1
    ensures
      if raw[r] == CLOSE_BRACKET then s == Ok(Array(start, next, items + [v.value]), next, v.nodes)
      else raw[r] == COMMA && s == Items(raw, start, next, depth, v.nodes, items + [v.value])
  {
    deeper := depth + 1;
    v := Value(raw, p, deeper, nodes);
    ItemStep(raw, start, p, depth, deeper, nodes, items, v, s);
    var t;
    r, next, t := ItemsTurn(raw, start, depth, items + [v.value], v.position, v.nodes, s);
  }

  lemma ItemsEnd(
    raw: seq<byte>, start: nat, first: nat, last: nat, end: nat, items: seq<Node>, room: nat, inner: int,
    counted: int, nodes: int)
    requires AllFit(raw, items, inner) && inner == room - 1
    requires Bracketed(raw, start, end, OPEN_BRACKET, CLOSE_BRACKET) && first == start + 1 && end == last + 1
    requires AllRead(raw, ItemSpans(items), first, last)
    requires nodes == counted + 1 + ItemsCount(items) && nodes <= MAX_JSON_NODES
    ensures ReadRest(raw, start, room, counted, Ok(Array(start, end, items), end, nodes))
  {
    ArrayFits(raw, start, first, last, end, items, room, inner);
  }

  lemma OneMoreFits(raw: seq<byte>, items: seq<Node>, item: Node, depth: int)
    requires AllFit(raw, items, depth) && Fit(raw, item, depth).Proper?
    ensures AllFit(raw, items + [item], depth)
  {
  }

  lemma {:induction false} ItemsAreSound(
    raw: seq<byte>, start: nat, first: nat, p: nat, depth: nat, nodes: int, room: nat, inner: int, counted: int,
    items: seq<Node>, s: Step<Node>)
    requires start < p <= |raw| && first == start + 1 && raw[start] == OPEN_BRACKET
    requires s == Items(raw, start, p, depth, nodes, items) && s.Ok?
    requires room == MAX_JSON_DEPTH - depth && inner == room - 1
    requires counted + 1 + ItemsCount(items) == nodes <= MAX_JSON_NODES
    requires AllFit(raw, items, inner) && SoFar(raw, ItemSpans(items), first, p)
    ensures ReadRest(raw, start, room, counted, s)
    decreases |raw| - p, 2
  {
    var deeper, v, r, next := ItemsRound(raw, start, p, depth, nodes, items, s);
    ValueIsSound(raw, p, deeper, nodes, inner, v);
    var more := items + [v.value];
    OneMoreFits(raw, items, v.value, inner);
    ItemsCountGrows(items, v.value);
    SpansGrow(items, v.value);
    SpanRead(raw, ItemSpans(items), first, p, Span(v.value.start, v.value.end), r, next);
    if raw[r] == COMMA {
      ItemsAreSound(raw, start, first, next, depth, v.nodes, room, inner, counted, more, s);
    } else {
      ItemsEnd(raw, start, first, r, next, more, room, inner, counted, v.nodes);
    }
  }

  lemma {:induction false} ObjectIsSound(raw: seq<byte>, start: nat, depth: nat, nodes: int, room: nat, s: Step<Node>)
    requires start < |raw| && raw[start] == OPEN_BRACE && s == ObjectFrom(raw, start, depth, nodes) && s.Ok?
    requires room == MAX_JSON_DEPTH - depth && nodes <= MAX_JSON_NODES
    ensures ReadRest(raw, start, room, nodes - 1, s)
    decreases |raw| - start, 0
  {
    var p := Space(raw, start + 1);
    if At(raw, p, CLOSE_BRACE) {
      MembersEnd(raw, start, start + 1, p, p + 1, [], room, room - 1, nodes - 1, nodes);
    } else {
      MembersAreSound(raw, start, start + 1, p, depth, nodes, room, room - 1, nodes - 1, [], s);
    }
  }

  lemma KeyIsSound(raw: seq<byte>, p: nat, members: seq<Member>, k: Step<KeySpan>, m: Member)
    requires p <= |raw| && k == Key(raw, p, members) && k.Ok?
    requires m == Member(k.value.text, k.value.start, k.value.end, m.value) && Blank(raw, k.position, m.value.start)
    ensures Blank(raw, p, m.keyStart) && Keyed(raw, m).Proper? && !Seen(members, m.key)
  {
    StringEndIsBody(raw, Space(raw, p) + 1);
    var colon := k.position - 1;
    assert Blank(raw, m.keyEnd, colon) && raw[colon] == COLON;
    assert Separated(raw, m.keyEnd, m.value.start, COLON);
  }

  lemma MemberStep(raw: seq<byte>, p: nat, depth: nat, nodes: int, members: seq<Member>, v: Step<Member>)
    returns (deeper: nat, k: Step<KeySpan>, w: Step<Node>)
    requires p <= |raw| && v == MemberFrom(raw, p, depth, nodes, members) && v.Ok?
    ensures k == Key(raw, p, members) && k.Ok? && p < k.position <= |raw|
    ensures deeper == depth + 1 && w == Value(raw, k.position, deeper, nodes) && w.Ok?
    ensures v == Ok(Member(k.value.text, k.value.start, k.value.end, w.value), w.position, w.nodes)
  {
    deeper := depth + 1;
    k := Key(raw, p, members);
    w := Value(raw, k.position, deeper, nodes);
  }

  /** A member was read. */
  lemma MembersStep(
    raw: seq<byte>, start: nat, p: nat, depth: nat, nodes: int, members: seq<Member>, v: Step<Member>, s: Step<Node>)
    requires start < p <= |raw| && s == Members(raw, start, p, depth, nodes, members)
    requires v == MemberFrom(raw, p, depth, nodes, members)
    ensures s.Ok? ==> v.Ok?
    ensures v.Ok? ==> start < v.position <= |raw| && s == AfterMember(raw, start, depth, members + [v.value], v.position, v.nodes)
  {
  }

  /** Behind it, the object ends or goes on. */
  lemma MembersTurn(
    raw: seq<byte>, start: nat, depth: nat, members: seq<Member>, q: nat, nodes: int, s: Step<Node>)
    returns (r: nat, next: nat, t: Step<Node>)
    requires start < q <= |raw| && s == AfterMember(raw, start, depth, members, q, nodes)
    ensures r == Space(raw, q) && start < r && next == r + 1
    ensures r < |raw| ==> t == Members(raw, start, next, depth, nodes, members)
    ensures r < |raw| && raw[r] == CLOSE_BRACE ==> s == Ok(Object(start, next, members), next, nodes)
    ensures r < |raw| && raw[r] == COMMA ==> s == t
    ensures s.Ok? ==> r < |raw| && (raw[r] == CLOSE_BRACE || raw[r] == COMMA)
  {
    r := Space(raw, q);
    next := r + 1;
    t := if r < |raw| then Members(raw, start, next, depth, nodes, members) else s;
  }

  /** One successful round of the loop. */
  lemma MembersRound(raw: seq<byte>, start: nat, p: nat, depth: nat, nodes: int, members: seq<Member>, s: Step<Node>)
    returns (deeper: nat, k: Step<KeySpan>, w: Step<Node>, m: Member, r: nat, next: nat)
    requires start < p <= |raw| && s == Members(raw, start, p, depth, nodes, members) && s.Ok?
    ensures k == Key(raw, p, members) && k.Ok? && p < k.position <= |raw|
    ensures deeper == depth + 1 && w == Value(raw, k.position, deeper, nodes) && w.Ok? && p < w.position <= |raw|
    ensures m == Member(k.value.text, k.value.start, k.value.end, w.value)
    ensures r == Space(raw, w.position) && start < r < |raw| && next == r + 1
    ensures
      if raw[r] == CLOSE_BRACE then s == Ok(Object(start, next, members + [m]), next, w.nodes)
      else raw[r] == COMMA && s == Members(raw, start, next, depth, w.nodes, members + [m])
  {
    var v := MemberFrom(raw, p, depth, nodes, members);
    MembersStep(raw, start, p, depth, nodes, members, v, s);
    m := v.value;
    var t;
    r, next, t := MembersTurn(raw, start, depth, members + [m], v.position, v.nodes, s);
    deeper, k, w := MemberStep(raw, p, depth, nodes, members, v);
  }

  lemma MembersEnd(
    raw: seq<byte>, start: nat, first: nat, last: nat, end: nat, members: seq<Member>, room: nat, inner: int,
    counted: int, nodes: int)
    requires AllMembersFit(raw, members, inner) && inner == room - 1 && KeysDiffer(members)
    requires Bracketed(raw, start, end, OPEN_BRACE, CLOSE_BRACE) && first == start + 1 && end == last + 1
    requires AllRead(raw, MemberSpans(members), first, last)
    requires nodes == counted + 1 + MembersCount(members) && nodes <= MAX_JSON_NODES
    ensures ReadRest(raw, start, room, counted, Ok(Object(start, end, members), end, nodes))
  {
    ObjectFits(raw, start, first, last, end, members, room, inner);
  }

  lemma OneMoreMemberFits(raw: seq<byte>, members: seq<Member>, m: Member, depth: int)
    requires AllMembersFit(raw, members, depth) && Keyed(raw, m).Proper? && Fit(raw, m.value, depth).Proper?
    requires KeysDiffer(members) && !Seen(members, m.key)
    ensures AllMembersFit(raw, members + [m], depth) && KeysDiffer(members + [m])
  {
  }

  lemma {:induction false} MembersAreSound(
    raw: seq<byte>, start: nat, first: nat, p: nat, depth: nat, nodes: int, room: nat, inner: int, counted: int,
    members: seq<Member>, s: Step<Node>)
    requires start < p <= |raw| && first == start + 1 && raw[start] == OPEN_BRACE
    requires s == Members(raw, start, p, depth, nodes, members) && s.Ok?
    requires room == MAX_JSON_DEPTH - depth && inner == room - 1
    requires counted + 1 + MembersCount(members) == nodes <= MAX_JSON_NODES
    requires AllMembersFit(raw, members, inner) && KeysDiffer(members) && SoFar(raw, MemberSpans(members), first, p)
    ensures ReadRest(raw, start, room, counted, s)
    decreases |raw| - p, 2
  {
    var deeper, k, w, m, r, next := MembersRound(raw, start, p, depth, nodes, members, s);
    var more := members + [m];
    ValueIsSound(raw, k.position, deeper, nodes, inner, w);
    KeyIsSound(raw, p, members, k, m);
    OneMoreMemberFits(raw, members, m, inner);
    MembersCountGrows(members, m);
    MemberSpansGrow(members, m);
    SpanRead(raw, MemberSpans(members), first, p, Span(m.keyStart, m.value.end), r, next);
    if raw[r] == COMMA {
      MembersAreSound(raw, start, first, next, depth, w.nodes, room, inner, counted, more, s);
    } else {
      MembersEnd(raw, start, first, r, next, more, room, inner, counted, w.nodes);
    }
  }
}
