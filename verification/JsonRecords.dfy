/** The log's lines as documents of RFC 8259: an object's text is never a document before its last
    byte, so a torn line is told from a whole one. */
module JsonRecords {
  import opened Bytes
  import opened AuditLog
  import opened JsonGrammar
  import opened JsonAgreement
  import opened JsonCompleteness
  import opened JsonEdit

  ghost predicate IsDocument(raw: seq<byte>) {
    exists n :: Document(raw, n)
  }

  /** An object from the first byte to the last. */
  ghost predicate IsObject(raw: seq<byte>, n: Node) {
    Document(raw, n) && n.Object? && n.start == 0 && n.end == |raw|
  }

  /** The text of an object, on one line. */
  ghost predicate IsRecord(raw: seq<byte>) {
    NEWLINE !in raw && exists n :: IsObject(raw, n)
  }

  /** Two objects that begin at the same byte are the same. */
  lemma ObjectsAgree(raw: seq<byte>, a: Node, b: Node)
    requires a.Object? && b.Object? && a.start == b.start
    requires Fit(raw, a, MAX_JSON_DEPTH).Proper? && Count(a) <= MAX_JSON_NODES
    requires Fit(raw, b, MAX_JSON_DEPTH).Proper? && Count(b) <= MAX_JSON_NODES
    ensures a == b
  {
    ObjectIsComplete(raw, 0, 1, MAX_JSON_DEPTH, a, Count(a));
    ObjectIsComplete(raw, 0, 1, MAX_JSON_DEPTH, b, Count(b));
  }

  /** A document that begins with a brace is an object from there on. */
  lemma ObjectStarts(raw: seq<byte>, n: Node)
    requires Document(raw, n) && raw != [] && raw[0] == OPEN_BRACE
    ensures n.Object? && n.start == 0
  {
    StartOf(raw, 0, n, MAX_JSON_DEPTH);
  }

  /** An object's text ends at its last byte and not before. */
  lemma PrefixIsNoDocument(raw: seq<byte>, n: Node, k: nat)
    requires IsObject(raw, n) && k < |raw|
    ensures !IsDocument(raw[..k])
  {
    var part := raw[..k];
    if IsDocument(part) {
      var m :| Document(part, m);
      ObjectStarts(part, m);
      MovedDenotes(part, raw, m, 0);
      NotMoved(m);
      ObjectsAgree(raw, n, m);
      assert false;
    }
  }

  /** Whoever renders each record as the text of an object, decodes it again, and decodes nothing that
      is no document, can tell a torn line from a whole one. */
  lemma ObjectLinesAreFaithful<R(!new)>(c: Codec<R>)
    requires forall r: R :: IsRecord(c.render(r)) && c.parse(c.render(r)) == Parsed.Object(r)
    requires forall raw :: !IsDocument(raw) ==> c.parse(raw) == Invalid
    ensures Faithful(c)
  {
    forall r: R, k | 0 <= k < |c.render(r)|
      ensures c.parse(c.render(r)[..k]) == Invalid
    {
      assert IsRecord(c.render(r));
      var n :| IsObject(c.render(r), n);
      PrefixIsNoDocument(c.render(r), n, k);
    }
    forall r: R ensures c.render(r) != [] && NEWLINE !in c.render(r) {
      assert IsRecord(c.render(r));
    }
  }

  // ----- Texts that are their own records

  function Braces(): (raw: seq<byte>)
    ensures IsRecord(raw)
  {
    var raw := [OPEN_BRACE, CLOSE_BRACE];
    BracesAreObject(raw);
    raw
  }

  lemma BracesAreObject(raw: seq<byte>)
    requires raw == [OPEN_BRACE, CLOSE_BRACE]
    ensures IsRecord(raw)
  {
    assert Utf8(raw[1..][1..]) && Character(raw[1..][..1]) && Utf8(raw[1..]) && Character(raw[..1]);
    assert MemberSpans([]) == [];
    assert IsObject(raw, Node.Object(0, 2, []));
  }

  type RecordText = raw: seq<byte> | IsRecord(raw) ghost witness Braces()

  ghost function Decoded(raw: seq<byte>): Parsed<RecordText> {
    if !IsDocument(raw) then Invalid
    else if IsRecord(raw) then Parsed<RecordText>.Object(raw)
    else NotAnObject
  }

  ghost function TextCodec(): Codec<RecordText> {
    Codec<RecordText>.Codec((text: RecordText) => text, raw => Decoded(raw))
  }

  /** So there are faithful codecs, for all one-line objects at once. */
  lemma TextCodecIsFaithful()
    ensures Faithful(TextCodec())
  {
    var c := TextCodec();
    forall r: RecordText ensures IsRecord(c.render(r)) && c.parse(c.render(r)) == Parsed.Object(r) {
      var n :| IsObject(r, n);
    }
    ObjectLinesAreFaithful(c);
  }
}
