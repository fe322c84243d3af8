/** Inserting, removing and rewriting one element of an array or an object by an edit of its bytes. */
module JsonLists {
  import opened Bytes
  import opened JsonGrammar
  import opened JsonAgreement
  import opened JsonCompleteness
  import opened JsonEdit

  /** The bytes between `x` and `y` were replaced; what follows moved by `k`. */
  ghost predicate Edited(raw: seq<byte>, raw': seq<byte>, x: int, y: int, k: int) {
    && 0 <= x <= y <= |raw| && x <= y + k
    && |raw'| == |raw| + k
    && Same(raw, raw', 0, x, 0) && Same(raw, raw', y, |raw|, k)
  }

  ghost predicate InOrder(spans: seq<Span>) {
    forall i :: 0 <= i < |spans| ==> spans[i].start < spans[i].end
  }

  lemma BlankBefore(raw: seq<byte>, raw': seq<byte>, x: int, y: int, k: int, a: int, b: int)
    requires Edited(raw, raw', x, y, k) && Blank(raw, a, b) && b <= x
    ensures Blank(raw', a, b)
  {
    SamePart(raw, raw', 0, x, 0, a, b);
    BlankMoves(raw, raw', a, b, 0);
  }

  lemma BlankBehind(raw: seq<byte>, raw': seq<byte>, x: int, y: int, k: int, a: int, b: int)
    requires Edited(raw, raw', x, y, k) && Blank(raw, a, b) && y <= a
    ensures Blank(raw', a + k, b + k)
  {
    SamePart(raw, raw', y, |raw|, k, a, b);
    BlankMoves(raw, raw', a, b, k);
  }

  lemma SeparatedBefore(raw: seq<byte>, raw': seq<byte>, x: int, y: int, k: int, a: int, b: int, separator: byte)
    requires Edited(raw, raw', x, y, k) && Separated(raw, a, b, separator) && b <= x
    ensures Separated(raw', a, b, separator)
  {
    SamePart(raw, raw', 0, x, 0, a, b);
    SeparatedMoves(raw, raw', a, b, separator, 0);
  }

  lemma SeparatedBehind(raw: seq<byte>, raw': seq<byte>, x: int, y: int, k: int, a: int, b: int, separator: byte)
    requires Edited(raw, raw', x, y, k) && Separated(raw, a, b, separator) && y <= a
    ensures Separated(raw', a + k, b + k, separator)
  {
    SamePart(raw, raw', y, |raw|, k, a, b);
    SeparatedMoves(raw, raw', a, b, separator, k);
  }

  // ----- Lists of spans

  /** One span more at the end of the list. */
  lemma SpanAppended(
    raw: seq<byte>, raw': seq<byte>, spans: seq<Span>, a: nat, b: nat, x: nat, k: nat, span: Span)
    requires Listed(raw, spans, a, b) && InOrder(spans) && Edited(raw, raw', x, x, k)
    requires span.start < span.end == x + k
    requires if spans == [] then x == a && span.start == x else
      x == spans[|spans| - 1].end && span.start == x + 1 && raw'[x] == COMMA
    ensures Listed(raw', spans + [span], a, b + k)
  {
    var more := spans + [span];
    BlankBehind(raw, raw', x, x, k, x, b);
    if spans != [] {
      SpansInOrder(raw, spans, a, b, 0);
      BlankUpTo(raw, raw', x, x, k, spans, a, b);
      forall i | 0 < i < |more|
        ensures Separated(raw', more[i - 1].end, more[i].start, COMMA)
      {
        if i < |spans| {
          SpansBefore(raw, spans, a, b, i, |spans| - 1);
          SeparatedBefore(raw, raw', x, x, k, spans[i - 1].end, spans[i].start, COMMA);
        } else {
          assert Blank(raw', x, x) && Blank(raw', x + 1, span.start);
        }
      }
    }
  }

  /** The first gap of a list lies before its last end. */
  lemma BlankUpTo(raw: seq<byte>, raw': seq<byte>, x: int, y: int, k: int, spans: seq<Span>, a: nat, b: nat)
    requires spans != [] && Listed(raw, spans, a, b) && InOrder(spans) && Edited(raw, raw', x, y, k)
    requires spans[0].start <= x || x == spans[|spans| - 1].end
    ensures Blank(raw', a, spans[0].start)
  {
    SpansBefore(raw, spans, a, b, 0, |spans| - 1);
    BlankBefore(raw, raw', x, y, k, a, spans[0].start);
  }

  lemma {:induction false} SpansBefore(raw: seq<byte>, spans: seq<Span>, a: nat, b: nat, i: nat, j: nat)
    requires Listed(raw, spans, a, b) && InOrder(spans) && i <= j < |spans|
    ensures spans[i].start <= spans[j].start && spans[i].end <= spans[j].end
    ensures i < j ==> spans[i].end < spans[j].start
    decreases j - i
  {
    if i < j {
      SpansBefore(raw, spans, a, b, i, j - 1);
      SpansInOrder(raw, spans, a, b, j);
    }
  }

  /** The bytes that go with one span of a list: up to the next one, or from the one before. */
  ghost predicate Covers(spans: seq<Span>, i: nat, x: int, y: int)
    requires i < |spans|
  {
    if |spans| == 1 then x == spans[0].start && y == spans[0].end
    else if i + 1 < |spans| then x == spans[i].start && y == spans[i + 1].start
    else x == spans[i - 1].end && y == spans[i].end
  }

  function Kept(spans: seq<Span>, i: nat, k: int): seq<Span>
    requires i < |spans|
  {
    spans[..i] + MovedSpans(spans[i + 1..], k)
  }

  lemma KeptAt(spans: seq<Span>, i: nat, k: int, j: nat)
    requires i < |spans| && j < |spans| - 1
    ensures Kept(spans, i, k)[j] ==
      if j < i then spans[j] else Span(Shift(spans[j + 1].start, k), Shift(spans[j + 1].end, k))
  {
  }

  /** One span less. */
  lemma SpanDeleted(
    raw: seq<byte>, raw': seq<byte>, spans: seq<Span>, a: nat, b: nat, i: nat, x: nat, y: nat, k: int)
    requires Listed(raw, spans, a, b) && InOrder(spans) && i < |spans|
    requires Covers(spans, i, x, y) && Edited(raw, raw', x, y, k) && k == x - y
    ensures Listed(raw', Kept(spans, i, k), a, b + k)
  {
    if |spans| == 1 {
      BlankBefore(raw, raw', x, y, k, a, x);
      BlankBehind(raw, raw', x, y, k, y, b);
      BlankJoins(raw', a, x, b + k);
    } else {
      var kept := Kept(spans, i, k);
      DeletedStart(raw, raw', spans, a, b, i, x, y, k);
      DeletedEnd(raw, raw', spans, a, b, i, x, y, k);
      forall j | 0 < j < |kept|
        ensures Separated(raw', kept[j - 1].end, kept[j].start, COMMA)
      {
        if j <= i {
          DeletedGapBefore(raw, raw', spans, a, b, i, x, y, k, j, kept[j - 1].end, kept[j].start);
        } else {
          DeletedGapBehind(raw, raw', spans, a, b, i, x, y, k, j, kept[j - 1].end, kept[j].start);
        }
      }
    }
  }

  lemma DeletedStart(
    raw: seq<byte>, raw': seq<byte>, spans: seq<Span>, a: nat, b: nat, i: nat, x: nat, y: nat, k: int)
    requires Listed(raw, spans, a, b) && InOrder(spans) && i < |spans| && |spans| > 1
    requires Covers(spans, i, x, y) && Edited(raw, raw', x, y, k) && k == x - y
    ensures Blank(raw', a, Kept(spans, i, k)[0].start)
  {
    KeptAt(spans, i, k, 0);
    SpansBefore(raw, spans, a, b, 0, if i == 0 then 0 else i - 1);
    SpansBefore(raw, spans, a, b, 0, i);
    BlankBefore(raw, raw', x, y, k, a, spans[0].start);
  }

  lemma DeletedEnd(
    raw: seq<byte>, raw': seq<byte>, spans: seq<Span>, a: nat, b: nat, i: nat, x: nat, y: nat, k: int)
    requires Listed(raw, spans, a, b) && InOrder(spans) && i < |spans| && |spans| > 1
    requires Covers(spans, i, x, y) && Edited(raw, raw', x, y, k) && k == x - y
    ensures Blank(raw', Kept(spans, i, k)[|spans| - 2].end, b + k)
  {
    var last := |spans| - 1;
    KeptAt(spans, i, k, last - 1);
    if i < last {
      SpansBefore(raw, spans, a, b, i + 1, last);
      BlankBehind(raw, raw', x, y, k, spans[last].end, b);
    } else {
      BlankBehind(raw, raw', x, y, k, y, b);
    }
  }

  lemma DeletedGapBefore(
    raw: seq<byte>, raw': seq<byte>, spans: seq<Span>, a: nat, b: nat, i: nat, x: nat, y: nat, k: int, j: nat,
    e: int, f: int)
    requires Listed(raw, spans, a, b) && InOrder(spans) && i < |spans| && |spans| > 1
    requires Covers(spans, i, x, y) && Edited(raw, raw', x, y, k) && k == x - y && 0 < j < |spans| - 1
    requires e == Kept(spans, i, k)[j - 1].end && f == Kept(spans, i, k)[j].start
    requires j <= i
    ensures Separated(raw', e, f, COMMA)
  {
    KeptAt(spans, i, k, j - 1);
    KeptAt(spans, i, k, j);
    SpansBefore(raw, spans, a, b, j, i);
    if j < i {
      SpansBefore(raw, spans, a, b, j, i - 1);
    }
    GapBefore(raw, raw', x, y, k, spans, a, b, j, e, f);
  }

  lemma DeletedGapBehind(
    raw: seq<byte>, raw': seq<byte>, spans: seq<Span>, a: nat, b: nat, i: nat, x: nat, y: nat, k: int, j: nat,
    e: int, f: int)
    requires Listed(raw, spans, a, b) && InOrder(spans) && i < |spans| && |spans| > 1
    requires Covers(spans, i, x, y) && Edited(raw, raw', x, y, k) && k == x - y && 0 < j < |spans| - 1
    requires e == Kept(spans, i, k)[j - 1].end && f == Kept(spans, i, k)[j].start
    requires i < j
    ensures Separated(raw', e, f, COMMA)
  {
    KeptAt(spans, i, k, j - 1);
    KeptAt(spans, i, k, j);
    SpansBefore(raw, spans, a, b, i + 1, j);
    SpansInOrder(raw, spans, a, b, j + 1);
    GapBehind(raw, raw', x, y, k, spans, a, b, j + 1, e, f);
  }

  lemma GapBefore(
    raw: seq<byte>, raw': seq<byte>, x: nat, y: nat, k: int, spans: seq<Span>, a: nat, b: nat, j: nat, e: int, f: int)
    requires Listed(raw, spans, a, b) && Edited(raw, raw', x, y, k) && 0 < j < |spans|
    requires e == spans[j - 1].end && f == spans[j].start && f <= x
    ensures Separated(raw', e, f, COMMA)
  {
    SeparatedBefore(raw, raw', x, y, k, e, f, COMMA);
  }

  lemma GapBehind(
    raw: seq<byte>, raw': seq<byte>, x: nat, y: nat, k: int, spans: seq<Span>, a: nat, b: nat, j: nat, e: int, f: int)
    requires Listed(raw, spans, a, b) && Edited(raw, raw', x, y, k) && 0 < j < |spans|
    requires e == spans[j - 1].end + k && f == spans[j].start + k && y <= spans[j - 1].end
    ensures Separated(raw', e, f, COMMA)
  {
    SeparatedBehind(raw, raw', x, y, k, spans[j - 1].end, spans[j].start, COMMA);
  }

  function Stretched(spans: seq<Span>, m: nat, k: int): seq<Span>
    requires m < |spans|
  {
    spans[..m] + [Span(spans[m].start, Shift(spans[m].end, k))] + MovedSpans(spans[m + 1..], k)
  }

  lemma StretchedAt(spans: seq<Span>, m: nat, k: int, j: nat)
    requires m < |spans| && j < |spans|
    ensures |Stretched(spans, m, k)| == |spans|
    ensures Stretched(spans, m, k)[j] ==
      if j < m then spans[j]
      else if j == m then Span(spans[m].start, Shift(spans[m].end, k))
      else Span(Shift(spans[j].start, k), Shift(spans[j].end, k))
  {
  }

  /** An edit inside one span of the list. */
  lemma SpanStretched(
    raw: seq<byte>, raw': seq<byte>, spans: seq<Span>, a: nat, b: nat, m: nat, x: nat, y: nat, k: int)
    requires Listed(raw, spans, a, b) && InOrder(spans) && m < |spans|
    requires spans[m].start <= x <= y <= spans[m].end && Edited(raw, raw', x, y, k)
    ensures Listed(raw', Stretched(spans, m, k), a, b + k)
  {
    var changed := Stretched(spans, m, k);
    var last := |spans| - 1;
    StretchedAt(spans, m, k, 0);
    StretchedAt(spans, m, k, last);
    SpansBefore(raw, spans, a, b, 0, m);
    SpansBefore(raw, spans, a, b, m, last);
    BlankBefore(raw, raw', x, y, k, a, spans[0].start);
    BlankBehind(raw, raw', x, y, k, spans[last].end, b);
    forall j | 0 < j < |changed|
      ensures Separated(raw', changed[j - 1].end, changed[j].start, COMMA)
    {
      if j <= m {
        StretchedGapBefore(raw, raw', spans, a, b, m, x, y, k, j, changed[j - 1].end, changed[j].start);
      } else {
        StretchedGapBehind(raw, raw', spans, a, b, m, x, y, k, j, changed[j - 1].end, changed[j].start);
      }
    }
  }

  lemma StretchedGapBefore(
    raw: seq<byte>, raw': seq<byte>, spans: seq<Span>, a: nat, b: nat, m: nat, x: nat, y: nat, k: int, j: nat,
    e: int, f: int)
    requires Listed(raw, spans, a, b) && InOrder(spans) && m < |spans| && 0 < j < |spans|
    requires spans[m].start <= x <= y <= spans[m].end && Edited(raw, raw', x, y, k)
    requires |Stretched(spans, m, k)| == |spans|
    requires e == Stretched(spans, m, k)[j - 1].end && f == Stretched(spans, m, k)[j].start
    requires j <= m
    ensures Separated(raw', e, f, COMMA)
  {
    StretchedAt(spans, m, k, j - 1);
    StretchedAt(spans, m, k, j);
    SpansBefore(raw, spans, a, b, j, m);
    GapBefore(raw, raw', x, y, k, spans, a, b, j, e, f);
  }

  lemma StretchedGapBehind(
    raw: seq<byte>, raw': seq<byte>, spans: seq<Span>, a: nat, b: nat, m: nat, x: nat, y: nat, k: int, j: nat,
    e: int, f: int)
    requires Listed(raw, spans, a, b) && InOrder(spans) && m < |spans| && 0 < j < |spans|
    requires spans[m].start <= x <= y <= spans[m].end && Edited(raw, raw', x, y, k)
    requires |Stretched(spans, m, k)| == |spans|
    requires e == Stretched(spans, m, k)[j - 1].end && f == Stretched(spans, m, k)[j].start
    requires m < j
    ensures Separated(raw', e, f, COMMA)
  {
    StretchedAt(spans, m, k, j - 1);
    StretchedAt(spans, m, k, j);
    SpansBefore(raw, spans, a, b, m, j - 1);
    SpansInOrder(raw, spans, a, b, j);
    GapBehind(raw, raw', x, y, k, spans, a, b, j, e, f);
  }
}
