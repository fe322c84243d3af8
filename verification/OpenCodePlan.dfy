/** The OpenCode registration edits: adding the plugin to a configuration document, removing it, and
    the checks the planned result has to pass. */
module OpenCodePlan {
  import opened CouncilTypes
  import opened Bytes
  import opened JsonGrammar
  import opened JsonParser

  const PLUGIN: seq<byte> := [0x70, 0x6C, 0x75, 0x67, 0x69, 0x6E]
  const PLUGINS: seq<byte> := PLUGIN + [0x73]
  const FILE_NAME: seq<byte> :=
    [0x63, 0x6F, 0x75, 0x6E, 0x63, 0x69, 0x6C, 0x2D, 0x70, 0x6C, 0x75, 0x67, 0x69, 0x6E, 0x2E, 0x74, 0x73]
  const SLASH: byte := 0x2F
  const DOT: byte := 0x2E
  /** The plugin's own path: the file beside the document. */
  const MARKER: seq<byte> := [DOT, SLASH] + FILE_NAME
  const ENTRY: seq<byte> := [QUOTE] + MARKER + [QUOTE]
  const MEMBER: seq<byte> := [QUOTE] + PLUGIN + [QUOTE, COLON, OPEN_BRACKET] + ENTRY + [CLOSE_BRACKET]

  // ----- Patches

  datatype BytePatch = BytePatch(start: nat, end: nat, replacement: seq<byte>)

  function Candidate(p: BytePatch, source: seq<byte>): Option<seq<byte>> {
    if p.start <= p.end <= |source| then Some(source[..p.start] + p.replacement + source[p.end..]) else None
  }

  function Inverse(p: BytePatch, source: seq<byte>): BytePatch
    requires p.start <= p.end <= |source|
  {
    BytePatch(p.start, p.start + |p.replacement|, source[p.start..p.end])
  }

  /** The inverse patch restores the exact bytes. */
  lemma InverseRestores(p: BytePatch, source: seq<byte>)
    requires p.start <= p.end <= |source|
    ensures Candidate(p, source).Some? && Candidate(Inverse(p, source), Candidate(p, source).value) == Some(source)
  {
    var candidate := Candidate(p, source).value;
    var q := Inverse(p, source);
    assert candidate[..q.start] == source[..p.start];
    assert candidate[q.end..] == source[p.end..];
    assert source[..p.start] + source[p.start..p.end] + source[p.end..] == source;
  }

  // ----- Which entries are the plugin

  datatype Kind = Exact | Alias | Unrelated | Unsupported

  function Split(path: seq<byte>): (parts: seq<seq<byte>>)
    ensures parts != []
  {
    if path == [] then [[]]
    else
      var rest := Split(path[1..]);
      if path[0] == SLASH then [[]] + rest else [[path[0]] + rest[0]] + rest[1..]
  }

  /** The components of a normalized path: empty ones and single dots go, double dots cancel. */
  function Normalized(parts: seq<seq<byte>>, absolute: bool): seq<seq<byte>> {
    if parts == [] then []
    else
      var before, part := Normalized(parts[..|parts| - 1], absolute), parts[|parts| - 1];
      if part == [] || part == [DOT] then before
      else if part != [DOT, DOT] || (!absolute && before == []) || (before != [] && before[|before| - 1] == [DOT, DOT])
      then before + [part]
      else if before != [] then before[..|before| - 1]
      else before
  }

  function Identity(text: seq<byte>): Kind {
    if text == MARKER then Exact
    else if (0 as byte) in text || text == [] then Unrelated
    else
      var parts := Normalized(Split(text), text[0] == SLASH);
      if parts != [] && parts[|parts| - 1] == FILE_NAME then Alias else Unrelated
  }

  /** A string names a plugin; a pair of a string and an object names one with options. */
  function KindOf(item: Node): Kind {
    match item
    case Text(_, _, text) => Identity(text)
    case Array(_, _, items) =>
      if |items| == 2 && items[0].Text? && items[1].Object? then
        if Identity(items[0].text) == Unrelated then Unrelated else Alias
      else Unsupported
    case _ => Unsupported
  }

  function IndicesOf(items: seq<Node>, kind: Kind): set<nat> {
    set i | 0 <= i < |items| && KindOf(items[i]) == kind
  }

  // ----- The shape of a configuration

  function Find(members: seq<Member>, key: seq<byte>): (found: Option<nat>)
    ensures found.Some? ==> found.value < |members| && members[found.value].key == key
    ensures found.None? ==> forall i :: 0 <= i < |members| ==> members[i].key != key
  {
    if members == [] then None
    else if members[0].key == key then Some(0)
    else
      match Find(members[1..], key)
      case None => None
      case Some(i) =>
        assert members[1..][i] == members[i + 1];
        Some(i + 1)
  }

  datatype Shape = BadShape | Shape(plugin: Option<nat>, exact: set<nat>, aliases: set<nat>)

  function ShapeOf(root: Node): (shape: Shape)
    ensures shape.Shape? ==> root.Object?
    ensures shape.Shape? && shape.plugin.Some? ==>
      && shape.plugin.value < |root.members| && root.members[shape.plugin.value].value.Array?
      && root.members[shape.plugin.value].key == PLUGIN
  {
    if !root.Object? || Find(root.members, PLUGINS).Some? then BadShape
    else
      match Find(root.members, PLUGIN)
      case None => Shape(None, {}, {})
      case Some(m) =>
        var value := root.members[m].value;
        if !value.Array? || IndicesOf(value.items, Unsupported) != {} then BadShape
        else Shape(Some(m), IndicesOf(value.items, Exact), IndicesOf(value.items, Alias))
  }

  function Entries(root: Node, plugin: Option<nat>): seq<Node>
    requires root.Object? && (plugin.Some? ==> plugin.value < |root.members|)
  {
    match plugin
    case None => []
    case Some(m) => if root.members[m].value.Array? then root.members[m].value.items else []
  }

  // ----- The patches

  function EnsurePatch(root: Node, plugin: Option<nat>): BytePatch
    requires root.Object? && (plugin.Some? ==> plugin.value < |root.members|)
  {
    match plugin
    case None =>
      if root.members == [] then BytePatch(root.start + 1, root.start + 1, MEMBER)
      else
        var last := root.members[|root.members| - 1].value.end;
        BytePatch(last, last, [COMMA] + MEMBER)
    case Some(m) =>
      var items := Entries(root, plugin);
      if items == [] then
        var first := root.members[m].value.start + 1;
        BytePatch(first, first, ENTRY)
      else
        var last := items[|items| - 1].end;
        BytePatch(last, last, [COMMA] + ENTRY)
  }

  function RemovePatch(items: seq<Node>, i: nat): BytePatch
    requires i < |items|
  {
    if |items| == 1 then BytePatch(items[i].start, items[i].end, [])
    else if i < |items| - 1 then BytePatch(items[i].start, items[i + 1].start, [])
    else BytePatch(items[i - 1].end, items[i].end, [])
  }

  // ----- The checks on the result

  datatype Fingerprint = Fingerprint(key: seq<byte>, keyBytes: seq<byte>, valueBytes: seq<byte>)

  function Slice(raw: seq<byte>, start: nat, end: nat): seq<byte> {
    if start <= end <= |raw| then raw[start..end] else []
  }

  /** The exact bytes of the members that are not the plugin list. */
  function Tops(raw: seq<byte>, members: seq<Member>): seq<Fingerprint> {
    if members == [] then []
    else
      var before, m := Tops(raw, members[..|members| - 1]), members[|members| - 1];
      if m.key == PLUGIN then before
      else before + [Fingerprint(m.key, Slice(raw, m.keyStart, m.keyEnd), Slice(raw, m.value.start, m.value.end))]
  }

  function ItemBytes(raw: seq<byte>, items: seq<Node>): (bytes: seq<seq<byte>>)
    ensures |bytes| == |items|
    ensures forall i :: 0 <= i < |items| ==> bytes[i] == Slice(raw, items[i].start, items[i].end)
  {
    seq(|items|, i requires 0 <= i < |items| => Slice(raw, items[i].start, items[i].end))
  }

  function Others<T(==)>(s: seq<T>, x: T): seq<T> {
    if s == [] then []
    else Others(s[..|s| - 1], x) + if s[|s| - 1] == x then [] else [s[|s| - 1]]
  }

  function WithoutFirst<T(==)>(s: seq<T>, x: T): seq<T> {
    if s == [] then []
    else if s[0] == x then s[1..]
    else [s[0]] + WithoutFirst(s[1..], x)
  }

  datatype Operation = Ensure | Remove

  datatype Checked =
    | Passed(candidate: seq<byte>)
    | Unparsed(error: Error)
    | Misshapen
    | OutOfBounds
    | TopChanged
    | EntryWrong
    | EntriesChanged

  /** The runtime checks on a planned result: it parses, has the expected entry, and nothing else
      changed by a byte. */
  function CandidateResult(operation: Operation, raw: seq<byte>, patch: BytePatch): Checked {
    match Parse(raw)
    case Err(error) => Unparsed(error)
    case Ok(root, _, _) =>
      match ShapeOf(root)
      case BadShape => Misshapen
      case Shape(plugin, exact, _) =>
        match Candidate(patch, raw)
        case None => OutOfBounds
        case Some(raw') =>
          match Parse(raw')
          case Err(error) => Unparsed(error)
          case Ok(root', _, _) =>
            match ShapeOf(root')
            case BadShape => Misshapen
            case Shape(plugin', exact', aliases') =>
              var before, after := ItemBytes(raw, Entries(root, plugin)), ItemBytes(raw', Entries(root', plugin'));
              if Tops(raw, root.members) != Tops(raw', root'.members) || aliases' != {} then TopChanged
              else if operation.Ensure? then
                if |exact'| != 1 then EntryWrong
                else if Others(after, ENTRY) != before then EntriesChanged
                else Passed(raw')
              else if exact' != {} || exact == {} then EntryWrong
              else if !(exists i :: i in exact && i < |before| && WithoutFirst(before, before[i]) == after) then EntriesChanged
              else Passed(raw')
  }
}
