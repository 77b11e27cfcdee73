/** Well-formed UTF-8, as Rust's std::str::from_utf8 accepts it (Unicode Standard, table 3-7). */
module Utf8 {
  import opened Bytes

  predicate Within(s: Bytes, i: nat, lo: Byte, hi: Byte) {
    i < |s| && lo <= s[i] <= hi
  }

  predicate Continues(s: Bytes, i: nat) {
    Within(s, i, 0x80, 0xBF)
  }

  /** Length of the character that s starts with; 0 when s starts with none. */
  function CharLength(s: Bytes): (n: nat)
    ensures n <= |s|
  {
    if s == [] then 0
    else
      var b := s[0];
      if b <= 0x7F then 1
      else if 0xC2 <= b <= 0xDF && Continues(s, 1) then 2
      else if b == 0xE0 && Within(s, 1, 0xA0, 0xBF) && Continues(s, 2) then 3
      else if (0xE1 <= b <= 0xEC || 0xEE <= b <= 0xEF) && Continues(s, 1) && Continues(s, 2) then 3
      else if b == 0xED && Within(s, 1, 0x80, 0x9F) && Continues(s, 2) then 3
      else if b == 0xF0 && Within(s, 1, 0x90, 0xBF) && Continues(s, 2) && Continues(s, 3) then 4
      else if 0xF1 <= b <= 0xF3 && Continues(s, 1) && Continues(s, 2) && Continues(s, 3) then 4
      else if b == 0xF4 && Within(s, 1, 0x80, 0x8F) && Continues(s, 2) && Continues(s, 3) then 4
      else 0
  }

  predicate IsUtf8(s: Bytes)
    decreases |s|
  {
    s == [] || (CharLength(s) > 0 && IsUtf8(s[CharLength(s)..]))
  }

  /** Bytes past the first character do not matter to it. */
  lemma CharLengthPrefix(s: Bytes, rest: Bytes)
    requires CharLength(s) > 0
    ensures CharLength(s + rest) == CharLength(s)
    ensures (s + rest)[CharLength(s)..] == s[CharLength(s)..] + rest
  {
  }

  lemma {:induction false} Utf8Append(a: Bytes, b: Bytes)
    requires IsUtf8(a) && IsUtf8(b)
    ensures IsUtf8(a + b)
    decreases |a|
  {
    if a == [] {
      assert a + b == b;
    } else {
      CharLengthPrefix(a, b);
      Utf8Append(a[CharLength(a)..], b);
    }
  }

  /** A character does not reach across an ASCII byte. */
  lemma CharBeforeAscii(a: Bytes, c: Byte, b: Bytes)
    requires a != [] && c < 0x80 && CharLength(a + [c] + b) > 0
    ensures CharLength(a) == CharLength(a + [c] + b)
    ensures (a + [c] + b)[CharLength(a)..] == a[CharLength(a)..] + [c] + b
  {
    var s := a + [c] + b;
    assert s[|a|] == c;
    assert forall i :: 0 <= i < |a| ==> s[i] == a[i];
    assert CharLength(s) <= |a|;
  }

  /** Well-formed text may be cut at any ASCII byte. */
  lemma {:induction false} Utf8CutAtAscii(a: Bytes, c: Byte, b: Bytes)
    requires c < 0x80 && IsUtf8(a + [c] + b)
    ensures IsUtf8(a) && IsUtf8(b)
    decreases |a|
  {
    if a == [] {
      assert (a + [c] + b)[0] == c;
      assert (a + [c] + b)[1..] == b;
    } else {
      CharBeforeAscii(a, c, b);
      Utf8CutAtAscii(a[CharLength(a)..], c, b);
    }
  }

  // ---- Characters ----

  /** The code points that a character can have. */
  predicate IsScalar(c: nat) {
    c < 0xD800 || 0xE000 <= c < 0x11_0000
  }

  /** The byte that carries the lowest six bits of n. */
  function Tail(n: nat): Byte {
    0x80 + n % 0x40
  }

  function Encode(c: nat): Bytes
    requires IsScalar(c)
  {
    if c < 0x80 then [c]
    else if c < 0x800 then [0xC0 + c / 0x40, Tail(c)]
    else if c < 0x1_0000 then [0xE0 + c / 0x1000, Tail(c / 0x40), Tail(c)]
    else [0xF0 + c / 0x4_0000, Tail(c / 0x1000), Tail(c / 0x40), Tail(c)]
  }

  lemma EncodedIsChar(c: nat, rest: Bytes)
    requires IsScalar(c)
    ensures CharLength(Encode(c) + rest) == |Encode(c)|
  {
    var s, e := Encode(c) + rest, Encode(c);
    assert forall i :: 0 <= i < |e| ==> s[i] == e[i];
    assert c / 0x40 / 0x40 == c / 0x1000 && c / 0x1000 / 0x40 == c / 0x4_0000;
  }

  lemma TwoBytes(w: nat, x: nat)
    requires 2 <= w < 0x20 && x < 0x40
    ensures IsScalar(w * 0x40 + x) && Encode(w * 0x40 + x) == [0xC0 + w, 0x80 + x]
  {
  }

  lemma ThreeBytes(w: nat, x: nat, y: nat)
    requires w < 0x10 && x < 0x40 && y < 0x40 && (w == 0 ==> 0x20 <= x) && (w == 0xD ==> x < 0x20)
    ensures var c := w * 0x1000 + x * 0x40 + y; IsScalar(c) && Encode(c) == [0xE0 + w, 0x80 + x, 0x80 + y]
  {
    var c := w * 0x1000 + x * 0x40 + y;
    assert c / 0x40 == w * 0x40 + x;
  }

  lemma FourBytes(w: nat, x: nat, y: nat, z: nat)
    requires w < 5 && x < 0x40 && y < 0x40 && z < 0x40 && (w == 0 ==> 0x10 <= x) && (w == 4 ==> x < 0x10)
    ensures var c := w * 0x4_0000 + x * 0x1000 + y * 0x40 + z;
      IsScalar(c) && Encode(c) == [0xF0 + w, 0x80 + x, 0x80 + y, 0x80 + z]
  {
    var c := w * 0x4_0000 + x * 0x1000 + y * 0x40 + z;
    assert c / 0x40 == w * 0x1000 + x * 0x40 + y;
    assert c / 0x1000 == w * 0x40 + x;
  }

  lemma CharIsEncoded(s: Bytes) returns (c: nat)
    requires CharLength(s) > 0
    ensures IsScalar(c) && Encode(c) == s[..CharLength(s)]
  {
    var n := CharLength(s);
    var w: int := s[0];
    if n == 1 {
      c := w;
    } else {
      var x: int := s[1] - 0x80;
      if n == 2 {
        TwoBytes(w - 0xC0, x);
        c := (w - 0xC0) * 0x40 + x;
      } else {
        var y: int := s[2] - 0x80;
        if n == 3 {
          ThreeBytes(w - 0xE0, x, y);
          c := (w - 0xE0) * 0x1000 + x * 0x40 + y;
        } else {
          var z: int := s[3] - 0x80;
          FourBytes(w - 0xF0, x, y, z);
          c := (w - 0xF0) * 0x4_0000 + x * 0x1000 + y * 0x40 + z;
        }
      }
    }
  }

  predicate AllScalar(cs: seq<nat>) {
    forall i :: 0 <= i < |cs| ==> IsScalar(cs[i])
  }

  function EncodeAll(cs: seq<nat>): Bytes
    requires AllScalar(cs)
  {
    if cs == [] then [] else Encode(cs[0]) + EncodeAll(cs[1..])
  }

  lemma {:induction false} EncodedIsUtf8(cs: seq<nat>)
    requires AllScalar(cs)
    ensures IsUtf8(EncodeAll(cs))
  {
    if cs != [] {
      EncodedIsChar(cs[0], EncodeAll(cs[1..]));
      EncodedIsUtf8(cs[1..]);
      assert EncodeAll(cs)[|Encode(cs[0])|..] == EncodeAll(cs[1..]);
    }
  }

  /** Well-formed text is the encoding of characters, and nothing else is. */
  lemma {:induction false} Utf8IsEncoded(s: Bytes) returns (cs: seq<nat>)
    requires IsUtf8(s)
    ensures AllScalar(cs) && EncodeAll(cs) == s
    decreases |s|
  {
    cs := [];
    if s != [] {
      var c := CharIsEncoded(s);
      var rest := Utf8IsEncoded(s[CharLength(s)..]);
      cs := [c] + rest;
      assert cs[1..] == rest && s == s[..CharLength(s)] + s[CharLength(s)..];
    }
  }
}
