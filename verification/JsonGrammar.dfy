/** JSON documents by their grammar (RFC 8259, sections 2 to 7), and trees that record where in the
    document each of their parts stands. */
module JsonGrammar {
  import opened Bytes

  const MAX_JSON_DEPTH := 64
  const MAX_JSON_NODES := 100000

  const QUOTE: byte := 0x22
  const BACKSLASH: byte := 0x5C
  const COMMA: byte := 0x2C
  const COLON: byte := 0x3A
  const OPEN_BRACKET: byte := 0x5B
  const CLOSE_BRACKET: byte := 0x5D
  const OPEN_BRACE: byte := 0x7B
  const CLOSE_BRACE: byte := 0x7D

  const TRUE: seq<byte> := [0x74, 0x72, 0x75, 0x65]
  const FALSE: seq<byte> := [0x66, 0x61, 0x6C, 0x73, 0x65]
  const NULL: seq<byte> := [0x6E, 0x75, 0x6C, 0x6C]

  // ----- Trees

  datatype Literal = True | False | Null | Number

  datatype Node =
    | Scalar(start: nat, end: nat, literal: Literal)
    | Text(start: nat, end: nat, text: seq<byte>)
    | Array(start: nat, end: nat, items: seq<Node>)
    | Object(start: nat, end: nat, members: seq<Member>)

  datatype Member = Member(key: seq<byte>, keyStart: nat, keyEnd: nat, value: Node)

  function ItemsCount(items: seq<Node>): nat {
    if items == [] then 0 else ItemsCount(items[..|items| - 1]) + Count(items[|items| - 1])
  }

  function MembersCount(members: seq<Member>): nat {
    if members == [] then 0 else MembersCount(members[..|members| - 1]) + Count(members[|members| - 1].value)
  }

  /** The number of values in a tree. */
  function Count(n: Node): (count: nat)
    ensures count > 0
  {
    match n
    case Array(_, _, items) => 1 + ItemsCount(items)
    case Object(_, _, members) => 1 + MembersCount(members)
    case _ => 1
  }

  /** No path in the tree is longer than the given depth. */
  predicate Within(n: Node, depth: int) {
    match n
    case Array(_, _, items) => 0 <= depth && forall i :: 0 <= i < |items| ==> Within(items[i], depth - 1)
    case Object(_, _, members) => 0 <= depth && forall i :: 0 <= i < |members| ==> Within(members[i].value, depth - 1)
    case _ => 0 <= depth
  }

  predicate KeysDiffer(members: seq<Member>) {
    forall i, j :: 0 <= i < j < |members| ==> members[i].key != members[j].key
  }

  /** No object has a key twice. */
  predicate Distinct(n: Node) {
    match n
    case Array(_, _, items) => forall i :: 0 <= i < |items| ==> Distinct(items[i])
    case Object(_, _, members) => KeysDiffer(members) && forall i :: 0 <= i < |members| ==> Distinct(members[i].value)
    case _ => true
  }

  // ----- Tokens

  predicate IsSpace(b: byte) { b == 0x20 || b == 0x09 || b == 0x0D || b == 0x0A }

  predicate IsDigit(b: byte) { 0x30 <= b <= 0x39 }

  predicate IsHex(b: byte) { IsDigit(b) || 0x41 <= b <= 0x46 || 0x61 <= b <= 0x66 }

  /** The one-letter escapes: quote, both slashes, b, f, n, r and t. */
  predicate IsEscape(b: byte) {
    b == QUOTE || b == BACKSLASH || b == 0x2F || b == 0x62 || b == 0x66 || b == 0x6E || b == 0x72 || b == 0x74
  }

  predicate AllDigits(t: seq<byte>) {
    forall i :: 0 <= i < |t| ==> IsDigit(t[i])
  }

  predicate IsSign(t: seq<byte>) { t == [] || t == [0x2D] }

  predicate IsInteger(t: seq<byte>) {
    t == [0x30] || (t != [] && AllDigits(t) && t[0] != 0x30)
  }

  predicate IsFraction(t: seq<byte>) {
    t == [] || (|t| >= 2 && t[0] == 0x2E && AllDigits(t[1..]))
  }

  predicate IsExponent(t: seq<byte>) {
    || t == []
    || (|t| >= 2 && (t[0] == 0x65 || t[0] == 0x45) &&
        (AllDigits(t[1..]) || (|t| >= 3 && (t[1] == 0x2B || t[1] == 0x2D) && AllDigits(t[2..]))))
  }

  predicate NumberParts(raw: seq<byte>, p: nat, a: nat, b: nat, c: nat, d: nat) {
    && p <= a <= b <= c <= d <= |raw|
    && IsSign(raw[p..a]) && IsInteger(raw[a..b]) && IsFraction(raw[b..c]) && IsExponent(raw[c..d])
  }

  ghost predicate IsNumber(t: seq<byte>) {
    exists a, b, c :: NumberParts(t, 0, a, b, c, |t|)
  }

  ghost predicate IsLiteral(t: seq<byte>, literal: Literal) {
    match literal
    case True => t == TRUE
    case False => t == FALSE
    case Null => t == NULL
    case Number => IsNumber(t)
  }

  predicate IsUnit(t: seq<byte>) {
    |t| == 4 && forall i :: 0 <= i < 4 ==> IsHex(t[i])
  }

  /** What stands between the quotes of a string. */
  predicate IsBody(t: seq<byte>) {
    || t == []
    || (t[0] >= 0x20 && t[0] != QUOTE && t[0] != BACKSLASH && IsBody(t[1..]))
    || (|t| >= 2 && t[0] == BACKSLASH && IsEscape(t[1]) && IsBody(t[2..]))
    || (|t| >= 6 && t[0] == BACKSLASH && t[1] == 0x75 && IsUnit(t[2..6]) && IsBody(t[6..]))
  }

  // ----- The text a string stands for

  function HexValue(b: byte): nat {
    if IsDigit(b) then b as nat - 0x30 else if b >= 0x61 then b as nat - 0x57
    else if b >= 0x41 then b as nat - 0x37 else 0
  }

  function Unit(t: seq<byte>): nat
    requires |t| == 4
  {
    HexValue(t[0]) * 4096 + HexValue(t[1]) * 256 + HexValue(t[2]) * 16 + HexValue(t[3])
  }

  function Low(code: nat): byte { (0x80 + code % 0x40) as byte }

  /** The bytes of a code point; surrogates without a partner get three. */
  function Encoded(code: nat): seq<byte> {
    if code < 0x80 then [code as byte]
    else if code < 0x800 then [(0xC0 + code / 0x40) as byte, Low(code)]
    else if code < 0x1_0000 then [(0xE0 + code / 0x1000) as byte, Low(code / 0x40), Low(code)]
    else if code < 0x20_0000 then [(0xF0 + code / 0x4_0000) as byte, Low(code / 0x1000), Low(code / 0x40), Low(code)]
    else []
  }

  function Unescaped(b: byte): byte {
    if b == 0x62 then 0x08 else if b == 0x66 then 0x0C else if b == 0x6E then 0x0A
    else if b == 0x72 then 0x0D else if b == 0x74 then 0x09 else b
  }

  predicate Paired(t: seq<byte>) {
    && |t| >= 12 && t[6] == BACKSLASH && t[7] == 0x75
    && 0xD800 <= Unit(t[2..6]) < 0xDC00 && 0xDC00 <= Unit(t[8..12]) < 0xE000
  }

  /** The text of a string body; equal texts are equal however they are escaped. */
  function Decoded(t: seq<byte>): seq<byte> {
    if t == [] then []
    else if t[0] != BACKSLASH then [t[0]] + Decoded(t[1..])
    else if |t| >= 2 && t[1] != 0x75 then [Unescaped(t[1])] + Decoded(t[2..])
    else if Paired(t) then
      Encoded(0x1_0000 + (Unit(t[2..6]) - 0xD800) * 0x400 + (Unit(t[8..12]) - 0xDC00)) + Decoded(t[12..])
    else if |t| >= 6 then Encoded(Unit(t[2..6])) + Decoded(t[6..])
    else []
  }

  /** A text without anything to escape. */
  predicate Plain(t: seq<byte>) {
    forall i :: 0 <= i < |t| ==> 0x20 <= t[i] < 0x80 && t[i] != QUOTE && t[i] != BACKSLASH
  }

  lemma {:induction false} PlainIsItself(t: seq<byte>)
    requires Plain(t)
    ensures IsBody(t) && Decoded(t) == t
  {
    if t != [] {
      PlainIsItself(t[1..]);
      assert [t[0]] + t[1..] == t;
    }
  }

  // ----- Documents

  /** Only white space stands here. */
  predicate Blank(raw: seq<byte>, a: int, b: int) {
    0 <= a <= b <= |raw| && forall i :: a <= i < b ==> IsSpace(raw[i])
  }

  /** One separator with white space around it. */
  ghost predicate Separated(raw: seq<byte>, a: int, b: int, separator: byte) {
    exists c :: Blank(raw, a, c) && c < b <= |raw| && raw[c] == separator && Blank(raw, c + 1, b)
  }

  predicate StringAt(raw: seq<byte>, start: nat, end: nat, text: seq<byte>) {
    && start + 2 <= end <= |raw| && raw[start] == QUOTE && raw[end - 1] == QUOTE
    && IsBody(raw[start + 1..end - 1]) && text == Decoded(raw[start + 1..end - 1])
  }

  datatype Span = Span(start: nat, end: nat)

  function ItemSpans(items: seq<Node>): (spans: seq<Span>)
    ensures |spans| == |items|
    ensures forall i :: 0 <= i < |items| ==> spans[i] == Span(items[i].start, items[i].end)
  {
    seq(|items|, i requires 0 <= i < |items| => Span(items[i].start, items[i].end))
  }

  function MemberSpans(members: seq<Member>): (spans: seq<Span>)
    ensures |spans| == |members|
    ensures forall i :: 0 <= i < |members| ==> spans[i] == Span(members[i].keyStart, members[i].value.end)
  {
    seq(|members|, i requires 0 <= i < |members| => Span(members[i].keyStart, members[i].value.end))
  }

  /** The spans follow one another with commas between. */
  ghost predicate Chained(raw: seq<byte>, spans: seq<Span>, a: int) {
    && (spans != [] ==> Blank(raw, a, spans[0].start))
    && forall i :: 0 < i < |spans| ==> Separated(raw, spans[i - 1].end, spans[i].start, COMMA)
  }

  /** They are all there is between `a` and `b`. */
  ghost predicate Listed(raw: seq<byte>, spans: seq<Span>, a: int, b: int) {
    if spans == [] then Blank(raw, a, b) else Chained(raw, spans, a) && Blank(raw, spans[|spans| - 1].end, b)
  }

  ghost predicate KeyAt(raw: seq<byte>, m: Member) {
    StringAt(raw, m.keyStart, m.keyEnd, m.key) && Separated(raw, m.keyEnd, m.value.start, COLON)
  }

  ghost predicate Bracketed(raw: seq<byte>, start: nat, end: nat, open: byte, close: byte) {
    start + 2 <= end <= |raw| && raw[start] == open && raw[end - 1] == close
  }

  /** The tree is what the grammar makes of the document between its start and its end. */
  ghost predicate Denotes(raw: seq<byte>, n: Node) {
    && n.start < n.end <= |raw|
    && match n
       case Scalar(start, end, literal) => IsLiteral(raw[start..end], literal)
       case Text(start, end, text) => StringAt(raw, start, end, text)
       case Array(start, end, items) =>
         && Bracketed(raw, start, end, OPEN_BRACKET, CLOSE_BRACKET)
         && (forall i :: 0 <= i < |items| ==> Denotes(raw, items[i]))
         && Listed(raw, ItemSpans(items), start + 1, end - 1)
       case Object(start, end, members) =>
         && Bracketed(raw, start, end, OPEN_BRACE, CLOSE_BRACE)
         && (forall i :: 0 <= i < |members| ==> KeyAt(raw, members[i]) && Denotes(raw, members[i].value))
         && Listed(raw, MemberSpans(members), start + 1, end - 1)
  }

  /** A document: one value with white space around it, within the parser's limits. */
  ghost predicate Document(raw: seq<byte>, n: Node) {
    && Utf8(raw)
    && Denotes(raw, n) && Blank(raw, 0, n.start) && Blank(raw, n.end, |raw|)
    && Distinct(n) && Within(n, MAX_JSON_DEPTH) && Count(n) <= MAX_JSON_NODES
  }
}
