/** The parser as it runs: a position and a count that advance over the document. */
module JsonReader {
  import opened Bytes
  import opened JsonGrammar
  import opened JsonParser

  datatype Result<+T> = Success(value: T) | Failure(error: Error) {
    predicate IsFailure() { Failure? }

    function PropagateFailure<U>(): Result<U>
      requires Failure?
    {
      Failure(error)
    }

    function Extract(): T
      requires Success?
    {
      value
    }
  }

  /** The reader has come to what the step says. */
  predicate Reaches<T(==)>(r: Result<T>, s: Step<T>, position: nat, nodes: nat) {
    match s
    case Err(error) => r == Failure(error)
    case Ok(value, q, counted) => r == Success(value) && position == q && nodes == counted
  }

  /** An item was read, or the array fails with it. */
  lemma ItemRead(
    raw: seq<byte>, start: nat, p: nat, depth: nat, deeper: nat, nodes: int, items: seq<Node>, v: Step<Node>, goal: Step<Node>)
    requires start < p <= |raw| && goal == Items(raw, start, p, depth, nodes, items)
    requires deeper == depth + 1 && v == Value(raw, p, deeper, nodes)
    ensures v.Err? ==> goal == Err(v.error)
    ensures v.Ok? ==> start < v.position <= |raw| && goal == AfterItem(raw, start, depth, items + [v.value], v.position, v.nodes)
  {
  }

  /** Behind it the array ends or fails, or goes on. */
  lemma ItemEnded(raw: seq<byte>, start: nat, depth: nat, items: seq<Node>, q: nat, nodes: int, r: nat, goal: Step<Node>)
    requires start < q <= |raw| && goal == AfterItem(raw, start, depth, items, q, nodes) && r == Space(raw, q)
    ensures r == |raw| ==> goal == Err(StrictJsonRequired)
    ensures r < |raw| && raw[r] == CLOSE_BRACKET ==> goal == Ok(Array(start, r + 1, items), r + 1, nodes)
    ensures r < |raw| && raw[r] != CLOSE_BRACKET && raw[r] != COMMA ==> goal == Err(StrictJsonRequired)
  {
  }

  lemma ItemsGoOn(
    raw: seq<byte>, start: nat, depth: nat, items: seq<Node>, q: nat, nodes: int, r: nat, next: nat, goal: Step<Node>)
    requires start < q <= |raw| && goal == AfterItem(raw, start, depth, items, q, nodes)
    requires r == Space(raw, q) && r < |raw| && raw[r] == COMMA && next == r + 1
    ensures goal == Items(raw, start, next, depth, nodes, items)
  {
  }

  /** A member was read, or the object fails with it. */
  lemma MemberRead(
    raw: seq<byte>, start: nat, p: nat, depth: nat, nodes: int, members: seq<Member>, v: Step<Member>, goal: Step<Node>)
    requires start < p <= |raw| && goal == Members(raw, start, p, depth, nodes, members)
    requires v == MemberFrom(raw, p, depth, nodes, members)
    ensures v.Err? ==> goal == Err(v.error)
    ensures v.Ok? ==> start < v.position <= |raw| && goal == AfterMember(raw, start, depth, members + [v.value], v.position, v.nodes)
  {
  }

  /** Behind it the object ends or fails, or goes on. */
  lemma MemberEnded(raw: seq<byte>, start: nat, depth: nat, members: seq<Member>, q: nat, nodes: int, r: nat, goal: Step<Node>)
    requires start < q <= |raw| && goal == AfterMember(raw, start, depth, members, q, nodes) && r == Space(raw, q)
    ensures r == |raw| ==> goal == Err(StrictJsonRequired)
    ensures r < |raw| && raw[r] == CLOSE_BRACE ==> goal == Ok(Object(start, r + 1, members), r + 1, nodes)
    ensures r < |raw| && raw[r] != CLOSE_BRACE && raw[r] != COMMA ==> goal == Err(StrictJsonRequired)
  {
  }

  lemma MembersGoOn(raw: seq<byte>, start: nat, depth: nat, members: seq<Member>, q: nat, nodes: int, r: nat, next: nat, goal: Step<Node>)
    requires start < q <= |raw| && goal == AfterMember(raw, start, depth, members, q, nodes)
    requires r == Space(raw, q) && r < |raw| && raw[r] == COMMA && next == r + 1
    ensures goal == Members(raw, start, next, depth, nodes, members)
  {
  }

  /** The member list and the set of its keys grow together. */
  method AddMember(members: seq<Member>, seen: set<seq<byte>>, m: Member)
    returns (members': seq<Member>, seen': set<seq<byte>>)
    requires forall key :: key in seen <==> Seen(members, key)
    ensures members' == members + [m] && forall key :: key in seen' <==> Seen(members', key)
  {
    members', seen' := members + [m], seen + {m.key};
    forall key
      ensures key in seen' <==> Seen(members', key)
    {
      if Seen(members, key) {
        var i :| 0 <= i < |members| && members[i].key == key;
        assert members'[i].key == key;
      }
      if key == m.key {
        assert members'[|members|].key == key;
      }
    }
  }

  class Reader {
    const raw: seq<byte>
    var position: nat
    var nodes: nat

    predicate Valid()
      reads this
    {
      position <= |raw|
    }

    constructor (raw: seq<byte>)
      ensures Valid() && this.raw == raw && position == 0 && nodes == 0
    {
      this.raw := raw;
      position, nodes := 0, 0;
    }

    method SkipSpace()
      requires Valid()
      modifies this
      ensures Valid() && position == Space(raw, old(position)) && nodes == old(nodes)
    {
      while position < |raw| && IsSpace(raw[position])
        invariant Valid() && nodes == old(nodes) && Space(raw, position) == Space(raw, old(position))
        decreases |raw| - position
      {
        position := position + 1;
      }
    }

    /** Reads a string from its opening quote on. */
    method ReadString() returns (r: Result<Node>)
      requires Valid() && position < |raw|
      modifies this
      ensures Valid() && Reaches(r, StringFrom(raw, old(position), old(nodes)), position, nodes)
    {
      var start := position;
      position := position + 1;
      var escaped := false;
      while position < |raw|
        invariant Valid() && start < position && nodes == old(nodes)
        invariant escaped ==> start + 1 < position && raw[position - 1] == BACKSLASH
        invariant StringEnd(raw, start + 1) == StringEnd(raw, if escaped then position - 1 else position)
        decreases |raw| - position
      {
        var value := raw[position];
        if value < 0x20 {
          return Failure(StrictJsonRequired);
        }
        if escaped {
          if value == 0x75 {
            if position + 5 > |raw| || !IsUnit(raw[position + 1..position + 5]) {
              return Failure(StrictJsonRequired);
            }
            position := position + 5;
          } else if IsEscape(value) {
            position := position + 1;
          } else {
            return Failure(StrictJsonRequired);
          }
          escaped := false;
        } else if value == BACKSLASH {
          escaped := true;
          position := position + 1;
        } else if value == QUOTE {
          position := position + 1;
          return Success(Text(start, position, Decoded(raw[start + 1..position - 1])));
        } else {
          position := position + 1;
        }
      }
      return Failure(StrictJsonRequired);
    }

    /** Reads a literal or a number. */
    method ReadScalar() returns (r: Result<Node>)
      requires Valid() && position < |raw|
      modifies this
      ensures Valid() && Reaches(r, ScalarFrom(raw, old(position), old(nodes)), position, nodes)
    {
      var start := position;
      if StartsWith(raw, start, TRUE) {
        position := start + 4;
        return Success(Scalar(start, position, True));
      } else if StartsWith(raw, start, FALSE) {
        position := start + 5;
        return Success(Scalar(start, position, False));
      } else if StartsWith(raw, start, NULL) {
        position := start + 4;
        return Success(Scalar(start, position, Null));
      }
      position := NumberEnd(raw, start);
      if position > start {
        return Success(Scalar(start, position, Number));
      }
      return Failure(StrictJsonRequired);
    }

    method ReadValue(depth: nat) returns (r: Result<Node>)
      requires Valid()
      modifies this
      ensures Valid() && Reaches(r, Value(raw, old(position), depth, old(nodes)), position, nodes)
      decreases |raw| - position, 1
    {
      if depth > MAX_JSON_DEPTH {
        return Failure(DepthExceeded);
      }
      nodes := nodes + 1;
      if nodes > MAX_JSON_NODES {
        return Failure(NodeLimitExceeded);
      }
      SkipSpace();
      if position == |raw| {
        return Failure(StrictJsonRequired);
      }
      if raw[position] == OPEN_BRACE {
        r := ReadObject(depth);
      } else if raw[position] == OPEN_BRACKET {
        r := ReadArray(depth);
      } else if raw[position] == QUOTE {
        r := ReadString();
      } else {
        r := ReadScalar();
      }
    }

    method ReadArray(depth: nat) returns (r: Result<Node>)
      requires Valid() && position < |raw|
      modifies this
      ensures Valid() && Reaches(r, ArrayFrom(raw, old(position), depth, old(nodes)), position, nodes)
      decreases |raw| - position, 0
    {
      var start := position;
      position := position + 1;
      SkipSpace();
      if position < |raw| && raw[position] == CLOSE_BRACKET {
        position := position + 1;
        return Success(Array(start, position, []));
      }
      r := ReadItems(start, depth, Items(raw, start, position, depth, nodes, []));
    }

    method ReadItem(ghost start: nat, depth: nat, ghost items: seq<Node>, ghost goal: Step<Node>) returns (r: Result<Node>)
      requires Valid() && start < position && goal == Items(raw, start, position, depth, nodes, items)
      modifies this
      ensures Valid()
      ensures
        match r
        case Failure(error) => goal == Err(error)
        case Success(item) =>
          old(position) < position && goal == AfterItem(raw, start, depth, items + [item], position, nodes)
      decreases |raw| - position, 2
    {
      var deeper := depth + 1;
      ghost var step := Value(raw, position, deeper, nodes);
      ItemRead(raw, start, position, depth, deeper, nodes, items, step, goal);
      r := ReadValue(deeper);
    }

    /** Behind an item the array ends or fails, unless it goes on behind a comma. */
    method EndItem(start: nat, ghost depth: nat, items: seq<Node>, ghost goal: Step<Node>) returns (r: Result<Node>, more: bool)
      requires Valid() && start < position && goal == AfterItem(raw, start, depth, items, position, nodes)
      modifies this
      ensures Valid() && nodes == old(nodes) && old(position) <= position
      ensures
        if more then old(position) < position && goal == Items(raw, start, position, depth, nodes, items)
        else Reaches(r, goal, position, nodes)
    {
      ghost var behind := position;
      SkipSpace();
      ghost var end := position;
      ItemEnded(raw, start, depth, items, behind, nodes, end, goal);
      r, more := Failure(StrictJsonRequired), false;
      if position < |raw| && raw[position] == CLOSE_BRACKET {
        position := position + 1;
        r := Success(Array(start, position, items));
      } else if position < |raw| && raw[position] == COMMA {
        position := position + 1;
        ItemsGoOn(raw, start, depth, items, behind, nodes, end, position, goal);
        more := true;
      }
    }

    /** Reads the items of an array up to its closing bracket. */
    method ReadItems(start: nat, depth: nat, ghost goal: Step<Node>) returns (r: Result<Node>)
      requires Valid() && start < position && goal == Items(raw, start, position, depth, nodes, [])
      modifies this
      ensures Valid() && Reaches(r, goal, position, nodes)
      decreases |raw| - position, 3
    {
      var items: seq<Node> := [];
      while true
        invariant Valid() && start < position && old(position) <= position
        invariant goal == Items(raw, start, position, depth, nodes, items)
        decreases |raw| - position
      {
        var item :- ReadItem(start, depth, items, goal);
        items := items + [item];
        var more;
        r, more := EndItem(start, depth, items, goal);
        if !more {
          return;
        }
      }
    }

    /** Reads a key and its colon. */
    method ReadKey(members: seq<Member>, seen: set<seq<byte>>) returns (r: Result<KeySpan>)
      requires Valid() && forall key :: key in seen <==> Seen(members, key)
      modifies this
      ensures Valid() && (r.Success? ==> nodes == old(nodes))
      ensures
        match Key(raw, old(position), members)
        case Err(error) => r == Failure(error)
        case Ok(key, q, _) => r == Success(key) && position == q
    {
      SkipSpace();
      if position == |raw| || raw[position] != QUOTE {
        return Failure(StrictJsonRequired);
      }
      var key :- ReadString();
      if key.text in seen {
        return Failure(DuplicateKey);
      }
      SkipSpace();
      if position == |raw| || raw[position] != COLON {
        return Failure(StrictJsonRequired);
      }
      position := position + 1;
      return Success(KeySpan(key.text, key.start, key.end));
    }

    method ReadObject(depth: nat) returns (r: Result<Node>)
      requires Valid() && position < |raw|
      modifies this
      ensures Valid() && Reaches(r, ObjectFrom(raw, old(position), depth, old(nodes)), position, nodes)
      decreases |raw| - position, 0
    {
      var start := position;
      position := position + 1;
      SkipSpace();
      if position < |raw| && raw[position] == CLOSE_BRACE {
        position := position + 1;
        return Success(Object(start, position, []));
      }
      r := ReadMembers(start, depth, Members(raw, start, position, depth, nodes, []));
    }

    /** Reads the members of an object up to its closing brace. */
    method ReadMembers(start: nat, depth: nat, ghost goal: Step<Node>) returns (r: Result<Node>)
      requires Valid() && start < position && goal == Members(raw, start, position, depth, nodes, [])
      modifies this
      ensures Valid() && Reaches(r, goal, position, nodes)
      decreases |raw| - position, 3
    {
      var members: seq<Member> := [];
      var seen: set<seq<byte>> := {};
      while true
        invariant Valid() && start < position && old(position) <= position
        invariant goal == Members(raw, start, position, depth, nodes, members)
        invariant forall key :: key in seen <==> Seen(members, key)
        decreases |raw| - position
      {
        ghost var step := MemberFrom(raw, position, depth, nodes, members);
        MemberRead(raw, start, position, depth, nodes, members, step, goal);
        var member :- ReadMember(depth, members, seen);
        members, seen := AddMember(members, seen, member);
        SkipSpace();
        ghost var end := position;
        MemberEnded(raw, start, depth, members, step.position, nodes, end, goal);
        if position == |raw| {
          return Failure(StrictJsonRequired);
        }
        if raw[position] == CLOSE_BRACE {
          position := position + 1;
          return Success(Object(start, position, members));
        }
        if raw[position] != COMMA {
          return Failure(StrictJsonRequired);
        }
        position := position + 1;
        MembersGoOn(raw, start, depth, members, step.position, nodes, end, position, goal);
      }
    }

    method ReadMember(depth: nat, members: seq<Member>, seen: set<seq<byte>>) returns (r: Result<Member>)
      requires Valid() && forall key :: key in seen <==> Seen(members, key)
      modifies this
      ensures Valid() && Reaches(r, MemberFrom(raw, old(position), depth, old(nodes), members), position, nodes)
      decreases |raw| - position, 2
    {
      var key :- ReadKey(members, seen);
      var value :- ReadValue(depth + 1);
      return Success(Member(key.text, key.start, key.end, value));
    }

    /** Reads the whole document. */
    method ReadDocument() returns (r: Result<Node>)
      requires position == 0 && nodes == 0
      modifies this
      ensures
        match Parse(raw)
        case Err(error) => r == Failure(error)
        case Ok(n, _, _) => r == Success(n)
    {
      if |raw| > MAX_CONFIG_BYTES {
        return Failure(TooLong);
      }
      if !Utf8(raw) {
        return Failure(InvalidUtf8);
      }
      var n :- ReadValue(0);
      SkipSpace();
      if position != |raw| {
        return Failure(StrictJsonRequired);
      }
      return Success(n);
    }
  }
}
