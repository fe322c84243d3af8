/** Bytes, and the well-formed UTF-8 sequences of RFC 3629, section 4. */
module Bytes {

  newtype byte = x: int | 0 <= x < 256

  predicate Ascii(b: byte) { b < 0x80 }

  predicate Continues(b: byte) { 0x80 <= b < 0xC0 }

  /** One encoded character. */
  predicate Character(s: seq<byte>) {
    match |s|
    case 1 => Ascii(s[0])
    case 2 => 0xC2 <= s[0] < 0xE0 && Continues(s[1])
    case 3 =>
      && Continues(s[1]) && Continues(s[2])
      && (|| (s[0] == 0xE0 && 0xA0 <= s[1])
          || (0xE1 <= s[0] < 0xF0 && s[0] != 0xED)
          || (s[0] == 0xED && s[1] < 0xA0))
    case 4 =>
      && Continues(s[1]) && Continues(s[2]) && Continues(s[3])
      && (|| (s[0] == 0xF0 && 0x90 <= s[1])
          || 0xF1 <= s[0] < 0xF4
          || (s[0] == 0xF4 && s[1] < 0x90))
    case _ => false
  }

  /** The length of the character that a text begins with. */
  function Width(s: seq<byte>): nat
    requires s != []
  {
    if s[0] < 0x80 then 1 else if s[0] < 0xE0 then 2 else if s[0] < 0xF0 then 3 else 4
  }

  predicate Utf8(s: seq<byte>) {
    s == [] || (Width(s) <= |s| && Character(s[..Width(s)]) && Utf8(s[Width(s)..]))
  }

  lemma {:induction false} Utf8Join(a: seq<byte>, b: seq<byte>)
    requires Utf8(a) && Utf8(b)
    ensures Utf8(a + b)
    decreases |a|
  {
    if a == [] {
      assert a + b == b;
    } else {
      var n := Width(a);
      Utf8Join(a[n..], b);
      assert (a + b)[0] == a[0];
      assert (a + b)[..n] == a[..n];
      assert (a + b)[n..] == a[n..] + b;
    }
  }

  /** The bytes of a longer character are not ASCII. */
  lemma CharacterEndsBefore(s: seq<byte>, k: nat)
    requires s != [] && Width(s) <= |s| && Character(s[..Width(s)])
    requires 0 < k < |s| && (Ascii(s[k]) || Ascii(s[k - 1]))
    ensures Width(s) <= k
  {
    assert forall i :: 0 <= i < Width(s) ==> s[..Width(s)][i] == s[i];
  }

  lemma CutBehindFirst(s: seq<byte>, n: nat, k: nat)
    requires s != [] && n == Width(s) <= k <= |s| && Character(s[..n])
    requires Utf8(s[n..][..k - n]) && Utf8(s[n..][k - n..])
    ensures Utf8(s[..k]) && Utf8(s[k..])
  {
    assert s[..k][..n] == s[..n] && s[..k][n..] == s[n..][..k - n];
    assert s[k..] == s[n..][k - n..];
  }

  /** A text may be cut before and behind every ASCII byte. */
  lemma {:induction false} Utf8Cut(s: seq<byte>, k: nat)
    requires Utf8(s) && k <= |s|
    requires k == 0 || k == |s| || Ascii(s[k]) || Ascii(s[k - 1])
    ensures Utf8(s[..k]) && Utf8(s[k..])
    decreases |s|
  {
    if k == 0 {
      assert s[..0] == [] && s[0..] == s;
    } else if k == |s| {
      assert s[..k] == s && s[k..] == [];
    } else {
      var n := Width(s);
      CharacterEndsBefore(s, k);
      var rest, cut := s[n..], k - n;
      if cut > 0 {
        assert rest[cut] == s[k] && rest[cut - 1] == s[k - 1];
      }
      Utf8Cut(rest, cut);
      CutBehindFirst(s, n, k);
    }
  }

  lemma {:induction false} AsciiIsUtf8(s: seq<byte>)
    requires forall i :: 0 <= i < |s| ==> Ascii(s[i])
    ensures Utf8(s)
  {
    if s != [] {
      AsciiIsUtf8(s[1..]);
    }
  }
}
