/**
 The UTF-8 validator of src/core/data_stream.cpp, proved against the definition of UTF-8 as
 the image of sequences of Unicode scalar values (RFC 3629, sections 3 and 4).
 */
module Utf8 {
  import opened Bytes

  type Scalar = x: int | 0 <= x <= 0x10FFFF && !(0xD800 <= x <= 0xDFFF)

  /** The encoding of one scalar value (section 3 of RFC 3629). */
  function Encode(x: Scalar): (c: Chunk)
    ensures 1 <= |c| <= 4
  {
    if x <= 0x7F then [x]
    else if x <= 0x7FF then [0xC0 + x / 64, 0x80 + x % 64]
    else if x <= 0xFFFF then [0xE0 + x / 64 / 64, 0x80 + x / 64 % 64, 0x80 + x % 64]
    else [0xF0 + x / 64 / 64 / 64, 0x80 + x / 64 / 64 % 64, 0x80 + x / 64 % 64, 0x80 + x % 64]
  }

  function EncodeAll(xs: seq<Scalar>): Chunk {
    if xs == [] then [] else Encode(xs[0]) + EncodeAll(xs[1..])
  }

  /** UTF-8 text: the encoding of some sequence of scalar values. */
  ghost predicate IsText(s: Chunk) {
    exists xs: seq<Scalar> :: EncodeAll(xs) == s
  }

  /** The test `(byte & 0xc0) == 0x80`: the top two bits are 10. */
  predicate IsContinuation(b: Byte) {
    b / 64 == 2
  }

  /** The length announced by a first byte, 0 when no character starts with it. */
  function CharLength(first: Byte): (n: nat)
    ensures n <= 4
  {
    if first <= 0x7F then 1
    else if 0xC2 <= first <= 0xDF then 2
    else if 0xE0 <= first <= 0xEF then 3
    else if 0xF0 <= first <= 0xF4 then 4
    else 0
  }

  /** The productions UTF8-1 to UTF8-4 of section 4 of RFC 3629, as one predicate. */
  predicate IsChar(c: Chunk) {
    && |c| > 0
    && |c| == CharLength(c[0])
    && (forall i :: 1 <= i < |c| ==> IsContinuation(c[i]))
    && (c[0] == 0xE0 ==> 0xA0 <= c[1])
    && (c[0] == 0xED ==> c[1] <= 0x9F)
    && (c[0] == 0xF0 ==> 0x90 <= c[1])
    && (c[0] == 0xF4 ==> c[1] <= 0x8F)
  }

  /** The rule UTF8-octets of section 4 of RFC 3629. */
  predicate WellFormed(s: Chunk)
    decreases |s|
  {
    s == [] ||
    var n := CharLength(s[0]);
    0 < n <= |s| && IsChar(s[..n]) && WellFormed(s[n..])
  }

  // ----- The grammar is exactly the encodings -----

  lemma EncodeIsChar(x: Scalar)
    ensures IsChar(Encode(x))
  {
  }

  /** Appends the six payload bits of a continuation byte. */
  function Shift6(high: int, b: Byte): (x: int)
    requires IsContinuation(b)
    ensures x / 64 == high && x % 64 == b - 0x80
  {
    high * 64 + (b - 0x80)
  }

  function DecodeChar(c: Chunk): (x: Scalar)
    requires IsChar(c)
    ensures Encode(x) == c
  {
    var first: int := c[0];
    if |c| == 1 then first
    else if |c| == 2 then Shift6(first - 0xC0, c[1])
    else if |c| == 3 then Shift6(Shift6(first - 0xE0, c[1]), c[2])
    else Shift6(Shift6(Shift6(first - 0xF0, c[1]), c[2]), c[3])
  }

  function DecodeAll(s: Chunk): (xs: seq<Scalar>)
    requires WellFormed(s)
    ensures EncodeAll(xs) == s
    decreases |s|
  {
    if s == [] then []
    else
      var n := CharLength(s[0]);
      assert s == s[..n] + s[n..];
      [DecodeChar(s[..n])] + DecodeAll(s[n..])
  }

  lemma {:induction false} EncodeAllWellFormed(xs: seq<Scalar>)
    ensures WellFormed(EncodeAll(xs))
    ensures DecodeAll(EncodeAll(xs)) == xs
  {
    if xs != [] {
      EncodeAllWellFormed(xs[1..]);
      var c, rest := Encode(xs[0]), EncodeAll(xs[1..]);
      EncodeIsChar(xs[0]);
      assert (c + rest)[..|c|] == c && (c + rest)[|c|..] == rest;
      EncodeInjective(DecodeChar(c), xs[0]);
    }
  }

  lemma EncodeInjective(x: Scalar, y: Scalar)
    requires Encode(x) == Encode(y)
    ensures x == y
  {
  }

  /** The grammar of section 4 derives exactly the encodings of section 3. */
  lemma GrammarIsEncoding(s: Chunk)
    ensures WellFormed(s) <==> IsText(s)
  {
    if WellFormed(s) {
      assert EncodeAll(DecodeAll(s)) == s;
    }
    if IsText(s) {
      var xs: seq<Scalar> :| EncodeAll(xs) == s;
      EncodeAllWellFormed(xs);
    }
  }

  // ----- Cutting and joining text -----

  lemma {:induction false} JoinText(a: Chunk, b: Chunk)
    requires WellFormed(a)
    ensures WellFormed(a + b) <==> WellFormed(b)
    decreases |a|
  {
    if a == [] {
      assert a + b == b;
    } else {
      var n := CharLength(a[0]);
      assert (a + b)[..n] == a[..n] && (a + b)[n..] == a[n..] + b;
      JoinText(a[n..], b);
    }
  }

  /** A cut of text leaves two texts exactly when no continuation byte follows it. */
  lemma {:induction false} CutText(s: Chunk, k: nat)
    requires WellFormed(s) && k <= |s|
    ensures WellFormed(s[..k]) && WellFormed(s[k..]) <==> (k < |s| ==> !IsContinuation(s[k]))
    decreases |s|
  {
    if k < |s| && IsContinuation(s[k]) {
      if WellFormed(s[k..]) {
        TextStartsCharacter(s[k..]);
      }
    } else if k == 0 {
      assert s[k..] == s;
    } else {
      var n := CharLength(s[0]);
      assert forall i :: 1 <= i < n ==> s[..n][i] == s[i] && IsContinuation(s[i]);
      assert k >= n;
      CutText(s[n..], k - n);
      assert s[n..][..k - n] == s[..k][n..] && s[..k][..n] == s[..n];
      assert s[n..][k - n..] == s[k..];
    }
  }

  lemma TextStartsCharacter(s: Chunk)
    requires WellFormed(s) && s != []
    ensures !IsContinuation(s[0])
  {
    assert s[..CharLength(s[0])][0] == s[0];
  }

  /** In text, no four consecutive bytes are all continuation bytes. */
  lemma {:induction false} BoundaryWithinFour(s: Chunk, k: nat)
    requires WellFormed(s) && k + 4 <= |s|
    ensures exists j :: k <= j < k + 4 && !IsContinuation(s[j])
    decreases |s|
  {
    var n := CharLength(s[0]);
    if k == 0 {
      TextStartsCharacter(s);
    } else if k >= n {
      BoundaryWithinFour(s[n..], k - n);
      var j :| k - n <= j < k - n + 4 && !IsContinuation(s[n..][j]);
      assert !IsContinuation(s[j + n]);
    } else {
      TextStartsCharacter(s[n..]);
      assert !IsContinuation(s[n]);
    }
  }

  // ----- The validator -----

  /** IsValidUtf8: one pass, no decoding. It accepts exactly UTF-8 text. */
  method IsValidUtf8(text: Chunk) returns (valid: bool)
    ensures valid <==> IsText(text)
  {
    GrammarIsEncoding(text);
    var offset := 0;
    while offset < |text|
      invariant 0 <= offset <= |text|
      invariant WellFormed(text) <==> WellFormed(text[offset..])
    {
      var first := text[offset];
      ghost var rest := text[offset..];
      if first <= 0x7F {
        offset := offset + 1;
        assert rest[1..] == text[offset..] && IsChar(rest[..1]);
        continue;
      }

      var length := 0;
      var secondMin, secondMax := 0x80, 0xBF;
      if 0xC2 <= first <= 0xDF {
        length := 2;
      } else if 0xE0 <= first <= 0xEF {
        length := 3;
        if first == 0xE0 { secondMin := 0xA0; }
        if first == 0xED { secondMax := 0x9F; }
      } else if 0xF0 <= first <= 0xF4 {
        length := 4;
        if first == 0xF0 { secondMin := 0x90; }
        if first == 0xF4 { secondMax := 0x8F; }
      } else {
        return false;
      }

      if length > |text| - offset { return false; }
      var second := text[offset + 1];
      assert second == rest[..length][1];
      if second < secondMin || second > secondMax { return false; }
      for index := 2 to length
        invariant forall i :: 2 <= i < index ==> IsContinuation(rest[..length][i])
      {
        assert text[offset + index] == rest[..length][index];
        if !IsContinuation(text[offset + index]) { return false; }
      }
      offset := offset + length;
      assert rest[length..] == text[offset..];
    }
    return true;
  }
}
