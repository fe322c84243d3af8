/** The recursive parser, as functions of the document and the position, and its agreement with the
    grammar: it accepts exactly the documents, and gives exactly their tree. */
module JsonParser {
  import opened Bytes
  import opened JsonGrammar

  const MAX_CONFIG_BYTES := 1048576

  datatype Error = TooLong | InvalidUtf8 | StrictJsonRequired | DuplicateKey | DepthExceeded | NodeLimitExceeded

  /** What one step of the parser comes to: a value, the position behind it and the values so far. */
  datatype Step<+T> = Ok(value: T, position: nat, nodes: int) | Err(error: Error)

  // ----- Tokens

  function Space(raw: seq<byte>, p: nat): (q: nat)
    requires p <= |raw|
    ensures p <= q && Blank(raw, p, q) && (q == |raw| || !IsSpace(raw[q]))
    decreases |raw| - p
  {
    if p < |raw| && IsSpace(raw[p]) then Space(raw, p + 1) else p
  }

  lemma SpaceEndsAt(raw: seq<byte>, p: nat, q: nat)
    requires Blank(raw, p, q) && (q == |raw| || !IsSpace(raw[q]))
    ensures Space(raw, p) == q
  {
    var r := Space(raw, p);
    assert r == |raw| || !IsSpace(raw[r]);
    assert q == |raw| || !IsSpace(raw[q]);
  }

  function Digits(raw: seq<byte>, p: nat): (q: nat)
    requires p <= |raw|
    ensures p <= q <= |raw| && (forall i :: p <= i < q ==> IsDigit(raw[i])) && (q == |raw| || !IsDigit(raw[q]))
    decreases |raw| - p
  {
    if p < |raw| && IsDigit(raw[p]) then Digits(raw, p + 1) else p
  }

  predicate At(raw: seq<byte>, p: nat, b: byte) {
    p < |raw| && raw[p] == b
  }

  predicate DigitAt(raw: seq<byte>, p: nat) {
    p < |raw| && IsDigit(raw[p])
  }

  function SignEnd(raw: seq<byte>, p: nat): (q: nat)
    requires p <= |raw|
    ensures p <= q <= |raw|
  {
    if At(raw, p, 0x2D) then p + 1 else p
  }

  function IntegerEnd(raw: seq<byte>, p: nat): (q: nat)
    requires p <= |raw|
    ensures p <= q <= |raw|
  {
    if At(raw, p, 0x30) then p + 1 else Digits(raw, p)
  }

  function FractionEnd(raw: seq<byte>, p: nat): (q: nat)
    requires p <= |raw|
    ensures p <= q <= |raw|
  {
    if At(raw, p, 0x2E) && DigitAt(raw, p + 1) then Digits(raw, p + 1) else p
  }

  function ExponentEnd(raw: seq<byte>, p: nat): (q: nat)
    requires p <= |raw|
    ensures p <= q <= |raw|
  {
    if At(raw, p, 0x65) || At(raw, p, 0x45) then
      var d := if At(raw, p + 1, 0x2B) || At(raw, p + 1, 0x2D) then p + 2 else p + 1;
      if DigitAt(raw, d) then Digits(raw, d) else p
    else p
  }

  /** The longest number that begins here; its end, or nothing. */
  function NumberEnd(raw: seq<byte>, p: nat): (q: nat)
    requires p <= |raw|
    ensures p <= q <= |raw|
  {
    var a := SignEnd(raw, p);
    var b := IntegerEnd(raw, a);
    if a == b then p else ExponentEnd(raw, FractionEnd(raw, b))
  }

  lemma Part<T>(s: seq<T>, p: nat, q: nat, i: nat, j: nat)
    requires i <= j && p + j <= q <= |s|
    ensures s[p..q][i..j] == s[p + i..p + j]
  {
    forall k | 0 <= k < j - i
      ensures s[p..q][i..j][k] == s[p + i..p + j][k]
    {
      assert s[p..q][i..j][k] == s[p..q][i + k];
    }
  }

  /** A number's parts, within the whole text or within its own bytes. */
  lemma PartsOfPart(raw: seq<byte>, t: seq<byte>, p: nat, d: nat, i: nat, j: nat, k: nat, a: nat, b: nat, c: nat)
    requires p <= d <= |raw| && t == raw[p..d] && i <= j <= k <= |t| && a == p + i && b == p + j && c == p + k
    ensures NumberParts(raw, p, a, b, c, d) <==> NumberParts(t, 0, i, j, k, |t|)
  {
    Part(raw, p, d, 0, i);
    Part(raw, p, d, i, j);
    Part(raw, p, d, j, k);
    Part(raw, p, d, k, |t|);
    assert t[0..i] == raw[p..a] && t[i..j] == raw[a..b] && t[j..k] == raw[b..c] && t[k..|t|] == raw[c..d];
  }

  lemma NumberHasParts(raw: seq<byte>, p: nat, d: nat) returns (a: nat, b: nat, c: nat)
    requires p <= d <= |raw| && IsNumber(raw[p..d])
    ensures NumberParts(raw, p, a, b, c, d)
  {
    var t := raw[p..d];
    var i, j, k :| NumberParts(t, 0, i, j, k, |t|);
    a, b, c := p + i, p + j, p + k;
    PartsOfPart(raw, t, p, d, i, j, k, a, b, c);
  }

  lemma FractionIsFraction(raw: seq<byte>, p: nat)
    requires p <= |raw|
    ensures IsFraction(raw[p..FractionEnd(raw, p)])
  {
    var q := FractionEnd(raw, p);
    if p < q {
      assert raw[p..q][1..] == raw[p + 1..q];
    }
  }

  lemma ExponentIsExponent(raw: seq<byte>, p: nat)
    requires p <= |raw|
    ensures IsExponent(raw[p..ExponentEnd(raw, p)])
  {
    var q := ExponentEnd(raw, p);
    if p < q {
      assert raw[p..q][1..] == raw[p + 1..q] && raw[p..q][2..] == raw[p + 2..q];
    }
  }

  lemma PartsAreNumber(raw: seq<byte>, p: nat, a: nat, b: nat, c: nat, d: nat)
    requires NumberParts(raw, p, a, b, c, d)
    ensures IsNumber(raw[p..d])
  {
    var t, i, j, k := raw[p..d], a - p, b - p, c - p;
    PartsOfPart(raw, t, p, d, i, j, k, a, b, c);
    assert NumberParts(t, 0, i, j, k, |t|);
  }

  lemma NumberIsNumber(raw: seq<byte>, p: nat)
    requires p <= |raw| && NumberEnd(raw, p) > p
    ensures IsNumber(raw[p..NumberEnd(raw, p)])
  {
    var a := SignEnd(raw, p);
    var b := IntegerEnd(raw, a);
    var c := FractionEnd(raw, b);
    FractionIsFraction(raw, b);
    ExponentIsExponent(raw, c);
    PartsAreNumber(raw, p, a, b, c, ExponentEnd(raw, c));
  }

  /** No number goes on here. */
  predicate Delimited(raw: seq<byte>, p: nat) {
    p >= |raw| || !(IsDigit(raw[p]) || raw[p] == 0x2E || raw[p] == 0x65 || raw[p] == 0x45)
  }

  lemma DigitsEndAt(raw: seq<byte>, p: nat, q: nat)
    requires p <= q <= |raw| && AllDigits(raw[p..q]) && (q == |raw| || !IsDigit(raw[q]))
    ensures Digits(raw, p) == q
  {
    assert forall i :: p <= i < q ==> raw[i] == raw[p..q][i - p];
  }

  lemma FractionEndsAt(raw: seq<byte>, b: nat, c: nat)
    requires b <= c <= |raw| && IsFraction(raw[b..c])
    requires c == |raw| || (!IsDigit(raw[c]) && raw[c] != 0x2E)
    ensures FractionEnd(raw, b) == c
  {
    if b < c {
      assert raw[b..c][1..] == raw[b + 1..c];
      assert raw[b] == raw[b..c][0] && raw[b + 1] == raw[b + 1..c][0];
      DigitsEndAt(raw, b + 1, c);
    }
  }

  lemma ExponentEndsAt(raw: seq<byte>, c: nat, d: nat)
    requires c <= d <= |raw| && IsExponent(raw[c..d]) && Delimited(raw, d)
    ensures ExponentEnd(raw, c) == d
  {
    if c < d {
      assert raw[c] == raw[c..d][0] && raw[c + 1] == raw[c..d][1];
      assert raw[c..d][1..] == raw[c + 1..d];
      if AllDigits(raw[c + 1..d]) {
        assert raw[c + 1] == raw[c + 1..d][0];
        DigitsEndAt(raw, c + 1, d);
      } else {
        assert raw[c..d][2..] == raw[c + 2..d];
        assert raw[c + 2] == raw[c + 2..d][0];
        DigitsEndAt(raw, c + 2, d);
      }
    }
  }

  lemma IntegerEndsAt(raw: seq<byte>, a: nat, b: nat)
    requires a < b <= |raw| && IsInteger(raw[a..b])
    requires raw[a] != 0x30 ==> b == |raw| || !IsDigit(raw[b])
    ensures IntegerEnd(raw, a) == b
  {
    assert raw[a] == raw[a..b][0];
    if raw[a] != 0x30 {
      DigitsEndAt(raw, a, b);
    }
  }

  lemma NumberStarts(raw: seq<byte>, p: nat, a: nat, b: nat)
    requires p <= a <= b <= |raw| && IsSign(raw[p..a]) && IsInteger(raw[a..b])
    ensures a < b && SignEnd(raw, p) == a && (IsDigit(raw[p]) || raw[p] == 0x2D)
  {
    assert a < b && raw[a] == raw[a..b][0];
    if p < a {
      assert raw[p] == raw[p..a][0];
    }
  }

  /** A delimited number is the longest one that begins where it does. */
  lemma NumberEndsAt(raw: seq<byte>, p: nat, d: nat)
    requires p <= d <= |raw| && IsNumber(raw[p..d]) && Delimited(raw, d)
    ensures NumberEnd(raw, p) == d && p < d && (IsDigit(raw[p]) || raw[p] == 0x2D)
  {
    var a, b, c := NumberHasParts(raw, p, d);
    NumberStarts(raw, p, a, b);
    assert b < c ==> raw[b] == raw[b..c][0];
    assert c < d ==> raw[c] == raw[c..d][0];
    IntegerEndsAt(raw, a, b);
    FractionEndsAt(raw, b, c);
    ExponentEndsAt(raw, c, d);
  }

  /** The end of the string whose body begins here. */
  function StringEnd(raw: seq<byte>, p: nat): (q: Step<()>)
    requires p <= |raw|
    ensures q.Ok? ==> p < q.position <= |raw|
    decreases |raw| - p
  {
    if p == |raw| || raw[p] < 0x20 then Err(StrictJsonRequired)
    else if raw[p] == BACKSLASH then
      if p + 1 == |raw| then Err(StrictJsonRequired)
      else if raw[p + 1] == 0x75 then
        if p + 6 <= |raw| && IsUnit(raw[p + 2..p + 6]) then StringEnd(raw, p + 6)
        else Err(StrictJsonRequired)
      else if IsEscape(raw[p + 1]) then StringEnd(raw, p + 2)
      else Err(StrictJsonRequired)
    else if raw[p] == QUOTE then Ok((), p + 1, 0)
    else StringEnd(raw, p + 1)
  }

  lemma {:induction false} StringEndIsBody(raw: seq<byte>, p: nat)
    requires p <= |raw| && StringEnd(raw, p).Ok?
    ensures var q := StringEnd(raw, p).position; raw[q - 1] == QUOTE && IsBody(raw[p..q - 1])
    decreases |raw| - p
  {
    var q := StringEnd(raw, p).position;
    if raw[p] == BACKSLASH {
      var width := if raw[p + 1] == 0x75 then 6 else 2;
      StringEndIsBody(raw, p + width);
      assert width == 6 ==> raw[p..q - 1][2..6] == raw[p + 2..p + 6];
      assert raw[p..q - 1][width..] == raw[p + width..q - 1];
    } else if raw[p] != QUOTE {
      StringEndIsBody(raw, p + 1);
      assert raw[p..q - 1][1..] == raw[p + 1..q - 1];
    }
  }

  lemma {:induction false} BodyEndsAt(raw: seq<byte>, p: nat, q: nat)
    requires p < q <= |raw| && IsBody(raw[p..q - 1]) && raw[q - 1] == QUOTE
    ensures StringEnd(raw, p) == Ok((), q, 0)
    decreases q - p
  {
    var t := raw[p..q - 1];
    if t != [] {
      assert raw[p] == t[0];
      var width := if t[0] != BACKSLASH then 1 else if t[1] == 0x75 then 6 else 2;
      assert forall i :: 0 <= i < width ==> raw[p + i] == t[i];
      assert width == 6 ==> raw[p + 2..p + 6] == t[2..6];
      assert t[width..] == raw[p + width..q - 1];
      BodyEndsAt(raw, p + width, q);
    }
  }

  // ----- Values

  function StringFrom(raw: seq<byte>, p: nat, nodes: int): (s: Step<Node>)
    requires p < |raw|
    ensures s.Ok? ==> p < s.position <= |raw|
  {
    match StringEnd(raw, p + 1)
    case Err(error) => Err(error)
    case Ok(_, q, _) => Ok(Text(p, q, Decoded(raw[p + 1..q - 1])), q, nodes)
  }

  predicate StartsWith(raw: seq<byte>, p: nat, token: seq<byte>) {
    p + |token| <= |raw| && raw[p..p + |token|] == token
  }

  function ScalarFrom(raw: seq<byte>, p: nat, nodes: int): (s: Step<Node>)
    requires p < |raw|
    ensures s.Ok? ==> p < s.position <= |raw|
  {
    if StartsWith(raw, p, TRUE) then Ok(Scalar(p, p + 4, True), p + 4, nodes)
    else if StartsWith(raw, p, FALSE) then Ok(Scalar(p, p + 5, False), p + 5, nodes)
    else if StartsWith(raw, p, NULL) then Ok(Scalar(p, p + 4, Null), p + 4, nodes)
    else if NumberEnd(raw, p) > p then Ok(Scalar(p, NumberEnd(raw, p), Number), NumberEnd(raw, p), nodes)
    else Err(StrictJsonRequired)
  }

  function Value(raw: seq<byte>, p: nat, depth: nat, nodes: int): (s: Step<Node>)
    requires p <= |raw|
    ensures s.Ok? ==> p < s.position <= |raw|
    decreases |raw| - p, 1
  {
    if depth > MAX_JSON_DEPTH then Err(DepthExceeded)
    else if nodes + 1 > MAX_JSON_NODES then Err(NodeLimitExceeded)
    else
      var q := Space(raw, p);
      if q == |raw| then Err(StrictJsonRequired)
      else if raw[q] == OPEN_BRACE then ObjectFrom(raw, q, depth, nodes + 1)
      else if raw[q] == OPEN_BRACKET then ArrayFrom(raw, q, depth, nodes + 1)
      else if raw[q] == QUOTE then StringFrom(raw, q, nodes + 1)
      else ScalarFrom(raw, q, nodes + 1)
  }

  function ArrayFrom(raw: seq<byte>, start: nat, depth: nat, nodes: int): (s: Step<Node>)
    requires start < |raw|
    ensures s.Ok? ==> start < s.position <= |raw|
    decreases |raw| - start, 0
  {
    var p := Space(raw, start + 1);
    if At(raw, p, CLOSE_BRACKET) then Ok(Array(start, p + 1, []), p + 1, nodes)
    else Items(raw, start, p, depth, nodes, [])
  }

  /** The rest of an array from an item on. */
  function Items(raw: seq<byte>, start: nat, p: nat, depth: nat, nodes: int, items: seq<Node>): (s: Step<Node>)
    requires start < p <= |raw|
    ensures s.Ok? ==> p < s.position <= |raw|
    decreases |raw| - p, 2
  {
    match Value(raw, p, depth + 1, nodes)
    case Err(error) => Err(error)
    case Ok(item, q, counted) => AfterItem(raw, start, depth, items + [item], q, counted)
  }

  /** The rest of an array behind an item. */
  function AfterItem(raw: seq<byte>, start: nat, depth: nat, items: seq<Node>, q: nat, nodes: int): (s: Step<Node>)
    requires start < q <= |raw|
    ensures s.Ok? ==> q < s.position <= |raw|
    decreases |raw| - q, 3
  {
    var r := Space(raw, q);
    if r == |raw| then Err(StrictJsonRequired)
    else if raw[r] == CLOSE_BRACKET then Ok(Array(start, r + 1, items), r + 1, nodes)
    else if raw[r] != COMMA then Err(StrictJsonRequired)
    else Items(raw, start, r + 1, depth, nodes, items)
  }

  function ObjectFrom(raw: seq<byte>, start: nat, depth: nat, nodes: int): (s: Step<Node>)
    requires start < |raw|
    ensures s.Ok? ==> start < s.position <= |raw|
    decreases |raw| - start, 0
  {
    var p := Space(raw, start + 1);
    if At(raw, p, CLOSE_BRACE) then Ok(Object(start, p + 1, []), p + 1, nodes)
    else Members(raw, start, p, depth, nodes, [])
  }

  predicate Seen(members: seq<Member>, key: seq<byte>) {
    exists i :: 0 <= i < |members| && members[i].key == key
  }

  datatype KeySpan = KeySpan(text: seq<byte>, start: nat, end: nat)

  /** A member's key and colon: the key's text and span, and the position behind the colon. */
  function Key(raw: seq<byte>, p: nat, members: seq<Member>): (s: Step<KeySpan>)
    requires p <= |raw|
    ensures s.Ok? ==> p < s.position <= |raw|
  {
    var start := Space(raw, p);
    if !At(raw, start, QUOTE) then Err(StrictJsonRequired)
    else
      match StringEnd(raw, start + 1)
      case Err(error) => Err(error)
      case Ok(_, end, _) =>
        var key := Decoded(raw[start + 1..end - 1]);
        var colon := Space(raw, end);
        if Seen(members, key) then Err(DuplicateKey)
        else if !At(raw, colon, COLON) then Err(StrictJsonRequired)
        else Ok(KeySpan(key, start, end), colon + 1, 0)
  }

  /** A whole member. */
  function MemberFrom(raw: seq<byte>, p: nat, depth: nat, nodes: int, members: seq<Member>): (s: Step<Member>)
    requires p <= |raw|
    ensures s.Ok? ==> p < s.position <= |raw|
    decreases |raw| - p, 2
  {
    match Key(raw, p, members)
    case Err(error) => Err(error)
    case Ok(key, colon, _) =>
      match Value(raw, colon, depth + 1, nodes)
      case Err(error) => Err(error)
      case Ok(value, q, counted) => Ok(Member(key.text, key.start, key.end, value), q, counted)
  }

  /** The rest of an object from a member on. */
  function Members(raw: seq<byte>, start: nat, p: nat, depth: nat, nodes: int, members: seq<Member>): (s: Step<Node>)
    requires start < p <= |raw|
    ensures s.Ok? ==> p < s.position <= |raw|
    decreases |raw| - p, 3
  {
    match MemberFrom(raw, p, depth, nodes, members)
    case Err(error) => Err(error)
    case Ok(member, q, counted) => AfterMember(raw, start, depth, members + [member], q, counted)
  }

  /** The rest of an object behind a member. */
  function AfterMember(raw: seq<byte>, start: nat, depth: nat, members: seq<Member>, q: nat, nodes: int): (s: Step<Node>)
    requires start < q <= |raw|
    ensures s.Ok? ==> q < s.position <= |raw|
    decreases |raw| - q, 4
  {
    var r := Space(raw, q);
    if r == |raw| then Err(StrictJsonRequired)
    else if raw[r] == CLOSE_BRACE then Ok(Object(start, r + 1, members), r + 1, nodes)
    else if raw[r] != COMMA then Err(StrictJsonRequired)
    else Members(raw, start, r + 1, depth, nodes, members)
  }

  /** The parse of a whole document. */
  function Parse(raw: seq<byte>): Step<Node> {
    if |raw| > MAX_CONFIG_BYTES then Err(TooLong)
    else if !Utf8(raw) then Err(InvalidUtf8)
    else
      match Value(raw, 0, 0, 0)
      case Err(error) => Err(error)
      case Ok(n, q, nodes) => if Space(raw, q) == |raw| then Ok(n, |raw|, nodes) else Err(StrictJsonRequired)
  }
}
