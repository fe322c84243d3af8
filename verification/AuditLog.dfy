/** The append-only log file: one rendered object a line, and an append that may be torn anywhere.
    A torn last line is repaired before the next append and before every read. */
module AuditLog {
  import opened CouncilTypes
  import opened Bytes

  const NEWLINE: byte := 10
  const MAX_LINE_BYTES := 1048576

  /** What decoding a line may come to. */
  datatype Parsed<R> = Invalid | NotAnObject | Object(record: R)

  datatype Codec<!R> = Codec(render: R -> seq<byte>, parse: seq<byte> -> Parsed<R>)

  /** Rendering stays on one line, decoding undoes it, and no proper prefix of an object's
      rendering is itself a document. */
  ghost predicate Faithful<R(!new)>(c: Codec<R>) {
    forall r: R ::
      && c.render(r) != [] && NEWLINE !in c.render(r)
      && c.parse(c.render(r)) == Object(r)
      && forall k :: 0 <= k < |c.render(r)| ==> c.parse(c.render(r)[..k]) == Invalid
  }

  // ----- The last line

  /** Where the last line begins: behind the last newline. */
  function LastLine(bytes: seq<byte>): (start: nat)
    ensures start <= |bytes|
    ensures start > 0 ==> bytes[start - 1] == NEWLINE
    ensures NEWLINE !in bytes[start..]
  {
    if bytes == [] then 0
    else if bytes[|bytes| - 1] == NEWLINE then |bytes|
    else
      assert bytes == bytes[..|bytes| - 1] + [bytes[|bytes| - 1]];
      LastLine(bytes[..|bytes| - 1])
  }

  lemma NoLaterLine(bytes: seq<byte>, start: nat, other: nat)
    requires start <= |bytes| && NEWLINE !in bytes[start..]
    requires other <= |bytes| && (other > 0 ==> bytes[other - 1] == NEWLINE)
    ensures other <= start
  {
    forall i | start <= i < |bytes| ensures bytes[i] != NEWLINE {
      assert bytes[start..][i - start] == bytes[i];
    }
  }

  lemma LastLineIsUnique(bytes: seq<byte>, start: nat)
    requires start <= |bytes| && (start > 0 ==> bytes[start - 1] == NEWLINE) && NEWLINE !in bytes[start..]
    ensures LastLine(bytes) == start
  {
    NoLaterLine(bytes, start, LastLine(bytes));
    NoLaterLine(bytes, LastLine(bytes), start);
  }

  /** The file with its last line completed or removed; nothing if that is refused. */
  function Repaired<R>(c: Codec<R>, bytes: seq<byte>): Option<seq<byte>> {
    var start := LastLine(bytes);
    var tail := bytes[start..];
    if tail == [] then Some(bytes)
    else if |tail| > MAX_LINE_BYTES then None
    else match c.parse(tail)
      case Invalid => Some(bytes[..start])
      case NotAnObject => None
      case Object(_) => Some(bytes + [NEWLINE])
  }

  /** Repair changes nothing before the last line, leaves only complete lines, and is done after
      one pass. */
  lemma RepairIsLocal<R>(c: Codec<R>, bytes: seq<byte>)
    requires Repaired(c, bytes).Some?
    ensures
      var repaired := Repaired(c, bytes).value;
      && bytes[..LastLine(bytes)] <= repaired
      && (repaired == [] || repaired[|repaired| - 1] == NEWLINE)
      && Repaired(c, repaired) == Some(repaired)
  {
    var repaired := Repaired(c, bytes).value;
    assert repaired[|repaired|..] == [];
    LastLineIsUnique(repaired, |repaired|);
  }

  // ----- Whole files

  function Lines<R>(c: Codec<R>, records: seq<R>): seq<byte> {
    if records == [] then []
    else Lines(c, records[..|records| - 1]) + c.render(records[|records| - 1]) + [NEWLINE]
  }

  lemma LinesEnd<R>(c: Codec<R>, records: seq<R>)
    ensures Lines(c, records) != [] ==> Lines(c, records)[|Lines(c, records)| - 1] == NEWLINE
  {
  }

  lemma LinesAppend<R>(c: Codec<R>, records: seq<R>, r: R)
    ensures Lines(c, records + [r]) == Lines(c, records) + c.render(r) + [NEWLINE]
  {
    assert (records + [r])[..|records|] == records;
  }

  /** What a torn append of `r` leaves counts as the record if only its newline is missing. */
  function Surviving<R(==)>(c: Codec<R>, records: seq<R>, torn: Option<R>, tail: seq<byte>): seq<R> {
    if torn.Some? && tail == c.render(torn.value) then records + [torn.value] else records
  }

  /** A torn tail is a part of the line that was being appended, and fits the line limit. */
  ghost predicate Torn<R>(c: Codec<R>, torn: Option<R>, tail: seq<byte>) {
    match torn
    case None => tail == []
    case Some(r) => tail <= c.render(r) && |tail| <= MAX_LINE_BYTES
  }

  lemma TornLastLine<R(!new)>(c: Codec<R>, records: seq<R>, torn: Option<R>, tail: seq<byte>)
    requires Faithful(c) && if torn.Some? then tail <= c.render(torn.value) else tail == []
    ensures LastLine(Lines(c, records) + tail) == |Lines(c, records)|
  {
    var bytes, start := Lines(c, records) + tail, |Lines(c, records)|;
    LinesEnd(c, records);
    assert bytes[start..] == tail;
    if torn.Some? {
      assert forall i :: 0 <= i < |tail| ==> tail[i] == c.render(torn.value)[i];
    }
    LastLineIsUnique(bytes, start);
  }

  /** A proper part of a line is no document, so it is told from a complete one. */
  lemma TornParses<R(!new)>(c: Codec<R>, torn: R, tail: seq<byte>)
    requires Faithful(c) && tail <= c.render(torn)
    ensures c.parse(tail) == if tail == c.render(torn) then Object(torn) else Invalid
  {
    assert tail == c.render(torn)[..|tail|];
  }

  /** Repair keeps every complete record and either completes or removes the torn one. */
  lemma RepairKeepsRecords<R(!new)>(c: Codec<R>, records: seq<R>, torn: Option<R>, tail: seq<byte>)
    requires Faithful(c) && Torn(c, torn, tail)
    ensures Repaired(c, Lines(c, records) + tail) == Some(Lines(c, Surviving(c, records, torn, tail)))
  {
    var bytes, start := Lines(c, records) + tail, |Lines(c, records)|;
    TornLastLine(c, records, torn, tail);
    assert bytes[start..] == tail && bytes[..start] == Lines(c, records);
    if tail != [] {
      TornParses(c, torn.value, tail);
      LinesAppend(c, records, torn.value);
    } else {
      assert bytes == Lines(c, records);
      assert torn.Some? ==> c.render(torn.value) != [];
    }
  }

  // ----- Reading

  /** The records of a file of complete lines, decoded line by line; nothing if one is not an object. */
  function ReadLines<R>(c: Codec<R>, bytes: seq<byte>): Option<seq<R>>
    decreases |bytes|
  {
    if bytes == [] then Some([])
    else
      var front := bytes[..|bytes| - 1];
      var start := LastLine(front);
      match c.parse(front[start..])
      case Object(r) =>
        (match ReadLines(c, bytes[..start])
         case Some(records) => Some(records + [r])
         case None => None)
      case _ => None
  }

  /** One complete line more is one record more. */
  lemma LastLineRead<R(!new)>(c: Codec<R>, bytes: seq<byte>, front: seq<byte>, rest: seq<byte>, line: seq<byte>, r: R, records: seq<R>)
    requires bytes == front + [NEWLINE] && front == rest + line && NEWLINE !in line
    requires rest != [] ==> rest[|rest| - 1] == NEWLINE
    requires c.parse(line) == Object(r) && ReadLines(c, rest) == Some(records)
    ensures ReadLines(c, bytes) == Some(records + [r])
  {
    assert bytes[..|bytes| - 1] == front;
    assert front[|rest|..] == line && front[..|rest|] == rest;
    LastLineIsUnique(front, |rest|);
    assert bytes[..|rest|] == rest;
  }

  lemma OneMoreRead<R(!new)>(c: Codec<R>, records: seq<R>, r: R)
    requires Faithful(c) && ReadLines(c, Lines(c, records)) == Some(records)
    ensures ReadLines(c, Lines(c, records + [r])) == Some(records + [r])
  {
    var rest, line := Lines(c, records), c.render(r);
    LinesEnd(c, records);
    LinesAppend(c, records, r);
    LastLineRead(c, rest + line + [NEWLINE], rest + line, rest, line, r, records);
  }

  /** Reading a written file gives back exactly its records. */
  lemma {:induction false} ReadingUndoesWriting<R(!new)>(c: Codec<R>, records: seq<R>)
    requires Faithful(c)
    ensures ReadLines(c, Lines(c, records)) == Some(records)
    decreases |records|
  {
    if records != [] {
      var before, last := LastApart(records);
      ReadingUndoesWriting(c, before);
      OneMoreRead(c, before, last);
    }
  }

  lemma LastApart<R>(records: seq<R>) returns (before: seq<R>, last: R)
    requires records != []
    ensures records == before + [last]
  {
    before, last := records[..|records| - 1], records[|records| - 1];
  }

  // ----- What a file shows

  /** The records a file has, a torn last line included: repaired, it is exactly their lines. */
  predicate Shows<R>(c: Codec<R>, bytes: seq<byte>, records: seq<R>) {
    Repaired(c, bytes) == Some(Lines(c, records))
  }

  lemma LinesShow<R>(c: Codec<R>, records: seq<R>)
    ensures Shows(c, Lines(c, records), records)
  {
    var bytes := Lines(c, records);
    LinesEnd(c, records);
    assert bytes[|bytes|..] == [];
    LastLineIsUnique(bytes, |bytes|);
  }

  /** A file has one sequence of records: what a reader finds behind the repair. */
  lemma ShownIsRead<R(!new)>(c: Codec<R>, bytes: seq<byte>, records: seq<R>)
    requires Faithful(c) && Shows(c, bytes, records)
    ensures ReadLines(c, Repaired(c, bytes).value) == Some(records)
  {
    ReadingUndoesWriting(c, records);
  }

  lemma WholeLineShows<R>(c: Codec<R>, records: seq<R>, r: R, line: seq<byte>)
    requires line == c.render(r) + [NEWLINE]
    ensures Shows(c, Lines(c, records) + line, records + [r])
  {
    LinesAppend(c, records, r);
    LinesShow(c, records + [r]);
    assert Lines(c, records) + line == Lines(c, records) + c.render(r) + [NEWLINE];
  }

  lemma PartInLine(line: seq<byte>, end: seq<byte>, part: seq<byte>)
    requires part <= line + end
    ensures if |part| <= |line| then part == line[..|part|] else |end| == 1 ==> part == line + end
  {
    assert part == (line + end)[..|part|];
  }

  /** An append behind a repair that stops at any byte leaves the old records, or those and the new
      one: that one from its last byte on, with its newline or without. */
  lemma TornAppendShows<R(!new)>(c: Codec<R>, bytes: seq<byte>, records: seq<R>, r: R, part: seq<byte>)
    requires Faithful(c) && Shows(c, bytes, records)
    requires part <= c.render(r) + [NEWLINE] && (|part| > |c.render(r)| || |part| <= MAX_LINE_BYTES)
    ensures Shows(c, Repaired(c, bytes).value + part, if |part| >= |c.render(r)| then records + [r] else records)
  {
    PartInLine(c.render(r), [NEWLINE], part);
    if |part| > |c.render(r)| {
      WholeLineShows(c, records, r, part);
    } else {
      RepairKeepsRecords(c, records, Some(r), part);
    }
  }

  /** A torn part beyond the line limit is refused by every later repair: nothing reads or appends to
      the file any more. */
  lemma OverlongTailStays<R(!new)>(c: Codec<R>, bytes: seq<byte>, records: seq<R>, r: R, part: seq<byte>)
    requires Faithful(c) && Shows(c, bytes, records) && part <= c.render(r) && |part| > MAX_LINE_BYTES
    ensures Repaired(c, Repaired(c, bytes).value + part) == None
  {
    TornLastLine(c, records, Some(r), part);
    assert (Lines(c, records) + part)[|Lines(c, records)|..] == part;
  }

  // ----- The file

  class LogFile<R(!new,==)> {
    const codec: Codec<R>
    var bytes: seq<byte>
    ghost var records: seq<R>
    ghost var torn: Option<R>

    ghost function Tail(): seq<byte>
      reads this
      requires |Lines(codec, records)| <= |bytes|
    {
      bytes[|Lines(codec, records)|..]
    }

    /** The records that are there, a torn one that lacks only its newline included. */
    ghost function Content(): seq<R>
      reads this
      requires |Lines(codec, records)| <= |bytes|
    {
      Surviving(codec, records, torn, Tail())
    }

    ghost predicate Valid()
      reads this
    {
      && Faithful(codec)
      && Lines(codec, records) <= bytes
      && Torn(codec, torn, Tail())
    }

    constructor (codec: Codec<R>)
      requires Faithful(codec)
      ensures Valid() && this.codec == codec && records == [] && bytes == []
    {
      this.codec := codec;
      bytes, records, torn := [], [], None;
    }

    /** Finds the last newline in a part of the file; -1 if there is none. */
    static method FindLast(part: seq<byte>) returns (marker: int)
      ensures -1 <= marker < |part|
      ensures marker >= 0 ==> part[marker] == NEWLINE
      ensures forall i :: marker < i < |part| ==> part[i] != NEWLINE
    {
      marker := |part| - 1;
      while marker >= 0 && part[marker] != NEWLINE
        invariant -1 <= marker < |part|
        invariant forall i :: marker < i < |part| ==> part[i] != NEWLINE
      {
        marker := marker - 1;
      }
    }

    /** Looks for the last line only within the longest line that may be. */
    static method FindTail(bytes: seq<byte>) returns (start: Option<nat>)
      requires bytes != [] && bytes[|bytes| - 1] != NEWLINE
      ensures start == if |bytes| - LastLine(bytes) > MAX_LINE_BYTES then None else Some(LastLine(bytes))
    {
      var scanned := if |bytes| < MAX_LINE_BYTES + 1 then |bytes| else MAX_LINE_BYTES + 1;
      var suffix := bytes[|bytes| - scanned..];
      var marker := FindLast(suffix);
      if marker < 0 {
        assert forall i :: |bytes| - scanned <= i < |bytes| ==> bytes[i] == suffix[i - (|bytes| - scanned)];
        if |bytes| > MAX_LINE_BYTES {
          return None;
        }
        return Some(0);
      }
      var found := |bytes| - scanned + marker + 1;
      forall i | 0 <= i < |bytes[found..]|
        ensures bytes[found..][i] != NEWLINE
      {
        assert bytes[found..][i] == suffix[marker + 1 + i];
      }
      LastLineIsUnique(bytes, found);
      return Some(found);
    }

    /** Repairs any content of a file, or refuses it. */
    static method RepairBytes(c: Codec<R>, bytes: seq<byte>) returns (repaired: Option<seq<byte>>)
      ensures repaired == Repaired(c, bytes)
    {
      if bytes == [] || bytes[|bytes| - 1] == NEWLINE {
        return Some(bytes);
      }
      var start := FindTail(bytes);
      if start.None? {
        return None;
      }
      match c.parse(bytes[start.value..]) {
        case Invalid => return Some(bytes[..start.value]);
        case NotAnObject => return None;
        case Object(_) => return Some(bytes + [NEWLINE]);
      }
    }

    lemma ContentIsShown()
      requires Valid()
      ensures Shows(codec, bytes, Content())
    {
      RepairKeepsRecords(codec, records, torn, Tail());
      assert bytes == Lines(codec, records) + Tail();
    }

    /** Completes or removes a torn last line. */
    method Repair()
      requires Valid()
      modifies this
      ensures Valid() && Content() == old(Content()) && records == Content() && bytes == Lines(codec, records) && torn == None
    {
      ContentIsShown();
      var repaired := RepairBytes(codec, bytes);
      records, torn := Content(), None;
      bytes := repaired.value;
    }

    /** Appends a record behind a repair; `written` bytes of its line reach the file. Stopped anywhere,
        the file has the old records, or those and the new one. */
    method Append(r: R, written: nat) returns (complete: bool)
      requires Valid() && (|codec.render(r)| <= MAX_LINE_BYTES || written <= MAX_LINE_BYTES || written > |codec.render(r)|)
      modifies this
      ensures Valid() && complete == (written > |codec.render(r)|)
      ensures Content() == if written >= |codec.render(r)| then old(Content()) + [r] else old(Content())
      ensures complete ==> records == Content() && bytes == Lines(codec, records)
    {
      Repair();
      var line := codec.render(r) + [NEWLINE];
      complete := written >= |line|;
      bytes := bytes + line[..if complete then |line| else written];
      if complete {
        LinesAppend(codec, records, r);
        records := records + [r];
      } else {
        assert line[..written] == codec.render(r)[..written];
        assert bytes[|Lines(codec, records)|..] == line[..written];
        torn := Some(r);
      }
    }

    /** Reads all records, after repair. */
    method Read() returns (read: seq<R>)
      requires Valid()
      modifies this
      ensures Valid() && read == Content() == old(Content()) && records == read && bytes == Lines(codec, records)
    {
      Repair();
      ReadingUndoesWriting(codec, records);
      read := ReadLines(codec, bytes).value;
    }
  }
}
