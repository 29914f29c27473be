/** UTF-8 text as bytes (section 3 of RFC 3629), and the byte scans the client
    handler runs over it. */
module Utf8 {
  import opened Wrappers
  import opened ByteStrings

  function EncodeChar(c: char): (r: Bytes)
    ensures 1 <= |r| <= 4
    ensures IsCharStart(r[0])
    ensures forall i :: 0 < i < |r| ==> !IsCharStart(r[i])
  {
    var v := c as int;
    if v < 0x80 then [v]
    else if v < 0x800 then [192 + v / 64, 128 + v % 64]
    else if v < 0x10000 then [224 + v / 4096, 128 + v / 64 % 64, 128 + v % 64]
    else [240 + v / 262144, 128 + v / 4096 % 64, 128 + v / 64 % 64, 128 + v % 64]
  }

  function Encode(s: string): Bytes {
    if s == [] then [] else EncodeChar(s[0]) + Encode(s[1..])
  }

  /** `b & 0xC0 != 0x80`: the top two bits are not 10. */
  predicate IsCharStart(b: byte) {
    b / 64 != 2
  }

  /** Number of code points that start in `b`. */
  function CodePoints(b: Bytes): nat {
    if b == [] then 0 else (if IsCharStart(b[0]) then 1 else 0) + CodePoints(b[1..])
  }

  lemma {:induction false} EncodeConcat(a: string, b: string)
    ensures Encode(a + b) == Encode(a) + Encode(b)
  {
    if a == [] {
      assert a + b == b;
    } else {
      EncodeConcat(a[1..], b);
      assert (a + b)[1..] == a[1..] + b;
      Assoc(EncodeChar(a[0]), Encode(a[1..]), Encode(b));
    }
  }

  lemma {:induction false} CodePointsConcat(a: Bytes, b: Bytes)
    ensures CodePoints(a + b) == CodePoints(a) + CodePoints(b)
  {
    if a == [] {
      assert a + b == b;
    } else {
      CodePointsConcat(a[1..], b);
      assert (a + b)[1..] == a[1..] + b;
    }
  }

  lemma {:induction false} NoStarts(b: Bytes)
    requires forall i :: 0 <= i < |b| ==> !IsCharStart(b[i])
    ensures CodePoints(b) == 0
  {
    if b == [] {
    } else {
      NoStarts(b[1..]);
    }
  }

  /** Counting code-point starts counts the characters. */
  lemma {:induction false} CodePointsOfEncoded(s: string)
    ensures CodePoints(Encode(s)) == |s|
  {
    if s == [] {
    } else {
      var e := EncodeChar(s[0]);
      NoStarts(e[1..]);
      CodePointsConcat(e, Encode(s[1..]));
      CodePointsOfEncoded(s[1..]);
    }
  }

  /** The code point held by the bytes of one character. */
  function CodePoint(p: Bytes): int
    requires 1 <= |p| <= 4
  {
    var x: seq<int> := p;
    if |x| == 1 then x[0]
    else if |x| == 2 then 64 * (x[0] - 192) + (x[1] - 128)
    else if |x| == 3 then 4096 * (x[0] - 224) + 64 * (x[1] - 128) + (x[2] - 128)
    else 262144 * (x[0] - 240) + 4096 * (x[1] - 128) + 64 * (x[2] - 128) + (x[3] - 128)
  }

  lemma CodePointOfEncoded(c: char)
    ensures CodePoint(EncodeChar(c)) == c as int
  {
    var v := c as int;
    var q1, q2 := v / 64, v / 4096;
    assert q2 == q1 / 64 && v / 262144 == q2 / 64;
    assert v == 64 * q1 + v % 64 && q1 == 64 * q2 + q1 % 64 && q2 == 64 * (q2 / 64) + q2 % 64;
  }

  lemma SameLength(a: char, b: char)
    requires EncodeChar(a)[0] == EncodeChar(b)[0]
    ensures |EncodeChar(a)| == |EncodeChar(b)|
  {
  }

  /** The first character of encoded text is determined by its bytes. */
  lemma EncodeCharPrefixFree(a: char, x: Bytes, b: char, y: Bytes)
    requires EncodeChar(a) + x == EncodeChar(b) + y
    ensures a == b && x == y
  {
    var p, q := EncodeChar(a), EncodeChar(b);
    assert (p + x)[0] == p[0] && (q + y)[0] == q[0];
    SameLength(a, b);
    assert p == (p + x)[..|p|] && q == (q + y)[..|q|];
    assert x == (p + x)[|p|..] && y == (q + y)[|q|..];
    CodePointOfEncoded(a);
    CodePointOfEncoded(b);
  }

  /** Valid bytes hold one text only. */
  lemma {:induction false} EncodeInjective(s: string, t: string)
    requires Encode(s) == Encode(t)
    ensures s == t
  {
    CodePointsOfEncoded(s);
    CodePointsOfEncoded(t);
    if s == [] {
    } else {
      EncodeCharPrefixFree(s[0], Encode(s[1..]), t[0], Encode(t[1..]));
      EncodeInjective(s[1..], t[1..]);
    }
  }

  lemma SplitEncoded(s: string, k: nat)
    requires k <= |s|
    ensures Encode(s) == Encode(s[..k]) + Encode(s[k..])
    ensures k < |s| ==> |Encode(s[..k])| < |Encode(s)| && IsCharStart(Encode(s)[|Encode(s[..k])|])
    ensures CodePoints(Encode(s)[..|Encode(s[..k])|]) == k
    ensures CodePoints(Encode(s)[|Encode(s[..k])|..]) == |s| - k
  {
    EncodeConcat(s[..k], s[k..]);
    assert s[..k] + s[k..] == s;
    var i := |Encode(s[..k])|;
    assert Encode(s)[..i] == Encode(s[..k]);
    assert Encode(s)[i..] == Encode(s[k..]);
    CodePointsOfEncoded(s[..k]);
    CodePointsOfEncoded(s[k..]);
    if k < |s| {
      assert Encode(s)[i] == Encode(s[k..])[0] == EncodeChar(s[k])[0];
    }
  }

  /** Every code-point start of encoded text is the offset of some character. */
  lemma {:induction false} StartIsOffset(s: string, i: nat) returns (k: nat)
    requires i < |Encode(s)| && IsCharStart(Encode(s)[i])
    ensures k < |s| && i == |Encode(s[..k])|
  {
    var e := EncodeChar(s[0]);
    if i == 0 {
      k := 0;
    } else {
      assert i >= |e|;
      assert Encode(s)[i] == Encode(s[1..])[i - |e|];
      var k' := StartIsOffset(s[1..], i - |e|);
      k := k' + 1;
      assert s[..k][1..] == s[1..][..k'];
    }
  }

  /** Byte offset of the code point at a character position, scanning forward. */
  method BytePos(b: Bytes, pos: nat) returns (r: Option<nat>)
    ensures r.Some? ==> r.value < |b| && IsCharStart(b[r.value]) && CodePoints(b[..r.value]) == pos
    ensures r.None? ==> CodePoints(b) <= pos
  {
    var charPos := -1;
    var i := 0;
    while i < |b|
      invariant 0 <= i <= |b|
      invariant charPos == CodePoints(b[..i]) - 1 < pos
    {
      CodePointsConcat(b[..i], [b[i]]);
      assert b[..i + 1] == b[..i] + [b[i]];
      if IsCharStart(b[i]) {
        charPos := charPos + 1;
        if charPos == pos {
          return Some(i);
        }
      }
      i := i + 1;
    }
    assert b[..|b|] == b;
    return None;
  }

  /** Removes the last `n` code points, scanning backward; text with fewer is
      left alone. */
  method DropLast(b: Bytes, n: nat) returns (r: Bytes)
    requires n > 0
    ensures CodePoints(b) < n ==> r == b
    ensures n <= CodePoints(b) ==> |r| < |b| && r == b[..|r|] && IsCharStart(b[|r|]) && CodePoints(b[|r|..]) == n
  {
    var removed := 0;
    var i := |b|;
    while i > 0
      invariant 0 <= i <= |b|
      invariant removed == CodePoints(b[i..]) < n
    {
      i := i - 1;
      assert b[i..] == [b[i]] + b[i + 1..];
      if IsCharStart(b[i]) {
        removed := removed + 1;
        if removed == n {
          CodePointsConcat(b[..i], b[i..]);
          assert b == b[..i] + b[i..];
          return b[..i];
        }
      }
    }
    assert b[0..] == b;
    return b;
  }

  /** The offset a forward scan must return on valid text. */
  function Offset(s: string, k: nat): Option<nat> {
    if k < |s| then Some(|Encode(s[..k])|) else None
  }

  /** On valid text any offset that meets `BytePos`'s contract is the offset of
      code point `pos`, and there is one exactly when `pos` is in range. */
  lemma BytePosExact(s: string, pos: nat, r: Option<nat>)
    requires var b := Encode(s);
             && (r.Some? ==> r.value < |b| && IsCharStart(b[r.value]) && CodePoints(b[..r.value]) == pos)
             && (r.None? ==> CodePoints(b) <= pos)
    ensures r == Offset(s, pos)
  {
    CodePointsOfEncoded(s);
    if r.Some? {
      var k := StartIsOffset(s, r.value);
      SplitEncoded(s, k);
    }
  }

  /** On valid text the backward scan removes exactly the last `n` characters. */
  lemma DropLastExact(s: string, n: nat, r: Bytes)
    requires 0 < n <= |s|
    requires var b := Encode(s);
             |r| < |b| && r == b[..|r|] && IsCharStart(b[|r|]) && CodePoints(b[|r|..]) == n
    ensures r == Encode(s[..|s| - n])
  {
    var k := StartIsOffset(s, |r|);
    SplitEncoded(s, k);
  }
}
