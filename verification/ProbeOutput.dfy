/** A probe's output is kept to 4096 bytes without cutting a character
    (`truncate_output` in `health.rs`); UTF-8 as section 4 of RFC 3629 has it. */
module ProbeOutput {
  import opened ByteStrings

  const MAX_OUTPUT_LEN: nat := 4096

  // ---- UTF-8 ---------------------------------------------------------------

  predicate IsTail(b: Byte) { 0x80 <= b <= 0xBF }

  predicate Tails(s: Bytes, n: nat)
  {
    n <= |s| && forall i :: 1 <= i < n ==> IsTail(s[i])
  }

  /** The length of the well-formed character at the front, 0 if there is none. */
  function CharLen(s: Bytes): (n: nat)
    ensures n <= 4 && n <= |s|
    ensures n > 0 ==> !IsTail(s[0]) && Tails(s, n)
  {
    if s == [] then 0
    else if s[0] <= 0x7F then 1
    else if 0xC2 <= s[0] <= 0xDF && Tails(s, 2) then 2
    else if 0xE0 <= s[0] <= 0xEF && Tails(s, 3)
            && (s[0] == 0xE0 ==> s[1] >= 0xA0) && (s[0] == 0xED ==> s[1] <= 0x9F) then 3
    else if 0xF0 <= s[0] <= 0xF4 && Tails(s, 4)
            && (s[0] == 0xF0 ==> s[1] >= 0x90) && (s[0] == 0xF4 ==> s[1] <= 0x8F) then 4
    else 0
  }

  predicate WellFormed(s: Bytes)
    decreases |s|
  {
    s == [] || (CharLen(s) > 0 && WellFormed(s[CharLen(s)..]))
  }

  /** `i` is where a character starts or the text ends, counting characters. */
  predicate Boundary(s: Bytes, i: nat)
    requires WellFormed(s)
    decreases |s|
  {
    i == 0 || (s != [] && CharLen(s) <= i && Boundary(s[CharLen(s)..], i - CharLen(s)))
  }

  // ---- Characters as numbers -------------------------------------------------

  /** A Unicode scalar value: no surrogate. */
  type Scalar = c: nat | c <= 0x10_FFFF && !(0xD800 <= c <= 0xDFFF)

  /** The encoding table of section 3 of RFC 3629. */
  function Encoded(c: Scalar): Bytes
  {
    if c < 0x80 then [c]
    else if c < 0x800 then [0xC0 + c / 64, 0x80 + c % 64]
    else if c < 0x1_0000 then [0xE0 + c / 4096, 0x80 + c / 64 % 64, 0x80 + c % 64]
    else [0xF0 + c / 0x4_0000, 0x80 + c / 4096 % 64, 0x80 + c / 64 % 64, 0x80 + c % 64]
  }

  function Utf8(text: seq<Scalar>): Bytes
  {
    if text == [] then [] else Encoded(text[0]) + Utf8(text[1..])
  }

  /** The six bits of a byte that is not the first of its character. */
  function Six(b: Byte): (n: nat)
    requires IsTail(b)
    ensures n < 64
  {
    b as int - 0x80
  }

  lemma CharIsRead(c: Scalar, rest: Bytes)
    ensures CharLen(Encoded(c) + rest) == |Encoded(c)|
  {
  }

  lemma CharIsWritten(s: Bytes) returns (c: Scalar)
    requires CharLen(s) > 0
    ensures Encoded(c) == s[..CharLen(s)]
  {
    var n := CharLen(s);
    if n == 1 {
      c := s[0];
    } else if n == 2 {
      c := TwoBytes(s[0], s[1]);
    } else if n == 3 {
      c := ThreeBytes(s[0], s[1], s[2]);
    } else {
      c := FourBytes(s[0], s[1], s[2], s[3]);
    }
  }

  lemma TwoBytes(lead: Byte, x: Byte) returns (c: Scalar)
    requires 0xC2 <= lead <= 0xDF && IsTail(x)
    ensures Encoded(c) == [lead, x]
  {
    var n := (lead as int - 0xC0) * 64 + Six(x);
    assert n / 64 == lead as int - 0xC0;
    c := n;
  }

  lemma ThreeBytes(lead: Byte, x: Byte, y: Byte) returns (c: Scalar)
    requires 0xE0 <= lead <= 0xEF && IsTail(x) && IsTail(y)
    requires (lead == 0xE0 ==> x >= 0xA0) && (lead == 0xED ==> x <= 0x9F)
    ensures Encoded(c) == [lead, x, y]
  {
    var high := (lead as int - 0xE0) * 64 + Six(x);
    var n := high * 64 + Six(y);
    assert n / 64 == high && high / 64 == lead as int - 0xE0;
    assert n / 4096 == high / 64;
    c := n;
  }

  lemma FourBytes(lead: Byte, x: Byte, y: Byte, z: Byte) returns (c: Scalar)
    requires 0xF0 <= lead <= 0xF4 && IsTail(x) && IsTail(y) && IsTail(z)
    requires (lead == 0xF0 ==> x >= 0x90) && (lead == 0xF4 ==> x <= 0x8F)
    ensures Encoded(c) == [lead, x, y, z]
  {
    var high := (lead as int - 0xF0) * 64 + Six(x);
    var middle := high * 64 + Six(y);
    var n := middle * 64 + Six(z);
    assert n / 64 == middle && middle / 64 == high && high / 64 == lead as int - 0xF0;
    assert n / 4096 == high && n / 0x4_0000 == high / 64;
    c := n;
  }

  /** Well-formed bytes are exactly the encodings of texts. */
  lemma WellFormedExactly(s: Bytes)
    ensures WellFormed(s) <==> exists text: seq<Scalar> :: Utf8(text) == s
  {
    if WellFormed(s) {
      var text := TextOf(s);
    }
    if text: seq<Scalar> :| Utf8(text) == s {
      TextIsWellFormed(text);
    }
  }

  lemma {:induction false} TextIsWellFormed(text: seq<Scalar>)
    ensures WellFormed(Utf8(text))
    decreases |text|
  {
    if text != [] {
      TextIsWellFormed(text[1..]);
      var rest := Utf8(text[1..]);
      CharIsRead(text[0], rest);
      assert (Encoded(text[0]) + rest)[|Encoded(text[0])|..] == rest;
    }
  }

  lemma {:induction false} TextOf(s: Bytes) returns (text: seq<Scalar>)
    requires WellFormed(s)
    ensures Utf8(text) == s
    decreases |s|
  {
    text := [];
    if s != [] {
      var c := CharIsWritten(s);
      var rest := TextOf(s[CharLen(s)..]);
      text := [c] + rest;
      assert text[1..] == rest;
      assert s == s[..CharLen(s)] + s[CharLen(s)..];
    }
  }

  // ---- The code ------------------------------------------------------------

  /** `str::is_char_boundary`: it looks at one byte. */
  predicate IsCharBoundary(s: Bytes, i: nat)
  {
    i == 0 || i == |s| || (i < |s| && !IsTail(s[i]))
  }

  /** `truncate_output`: the longest prefix of whole characters that fits, at
      most three bytes short of the limit if anything is cut. */
  method TruncateOutput(output: Bytes) returns (r: Bytes)
    requires WellFormed(output)
    ensures r <= output && |r| <= 4096 && WellFormed(r) && Boundary(output, |r|)
    ensures forall i: nat :: Boundary(output, i) && i <= 4096 ==> i <= |r|
    ensures |output| <= 4096 ==> r == output
    ensures |output| > 4096 ==> |r| >= 4093
  {
    if |output| <= MAX_OUTPUT_LEN {
      BoundaryAtEnd(output);
      BoundariesAreInside(output);
      return output;
    }
    var cut := MAX_OUTPUT_LEN;
    while cut > 0 && !IsCharBoundary(output, cut)
      invariant 0 <= cut <= MAX_OUTPUT_LEN
      invariant forall i: nat :: cut < i <= MAX_OUTPUT_LEN ==> !IsCharBoundary(output, i)
    {
      cut := cut - 1;
    }
    OneByteTells(output);
    OneInFour(output, MAX_OUTPUT_LEN - 3);
    PrefixIsWellFormed(output, cut);
    r := output[..cut];
  }

  // ---- Why -----------------------------------------------------------------

  lemma {:induction false} BoundaryAtEnd(s: Bytes)
    requires WellFormed(s)
    ensures Boundary(s, |s|)
    decreases |s|
  {
    if s != [] {
      BoundaryAtEnd(s[CharLen(s)..]);
    }
  }

  lemma BoundariesAreInside(s: Bytes)
    requires WellFormed(s)
    ensures forall i: nat :: Boundary(s, i) ==> i <= |s|
  {
    forall i: nat | Boundary(s, i) ensures i <= |s| {
      BoundaryIsInside(s, i);
    }
  }

  lemma {:induction false} BoundaryIsInside(s: Bytes, i: nat)
    requires WellFormed(s) && Boundary(s, i)
    ensures i <= |s|
    decreases |s|
  {
    if i > 0 {
      BoundaryIsInside(s[CharLen(s)..], i - CharLen(s));
    }
  }

  /** In well-formed text one byte tells where characters start. */
  lemma {:induction false} ByteTells(s: Bytes, i: nat)
    requires WellFormed(s) && i <= |s|
    ensures Boundary(s, i) <==> IsCharBoundary(s, i)
    decreases |s|
  {
    if i > 0 {
      var n := CharLen(s);
      if i >= n {
        ByteTells(s[n..], i - n);
        if i == n && i < |s| {
          assert CharLen(s[n..]) > 0;
        }
      }
    }
  }

  lemma OneByteTells(s: Bytes)
    requires WellFormed(s)
    ensures forall i: nat :: i <= |s| ==> (Boundary(s, i) <==> IsCharBoundary(s, i))
  {
    forall i: nat | i <= |s| ensures Boundary(s, i) <==> IsCharBoundary(s, i) {
      ByteTells(s, i);
    }
  }

  /** Of four positions in a row one is a boundary. */
  lemma {:induction false} OneInFour(s: Bytes, i: nat)
    requires WellFormed(s) && i + 3 < |s|
    ensures exists j :: i <= j <= i + 3 && Boundary(s, j)
    decreases |s|
  {
    var n := CharLen(s);
    if i == 0 {
      assert Boundary(s, 0);
    } else if i < n {
      assert Boundary(s[n..], 0);
      assert Boundary(s, n);
    } else {
      OneInFour(s[n..], i - n);
      var j :| i - n <= j <= i - n + 3 && Boundary(s[n..], j);
      assert Boundary(s, j + n);
    }
  }

  lemma {:induction false} PrefixIsWellFormed(s: Bytes, i: nat)
    requires WellFormed(s) && i <= |s| && Boundary(s, i)
    ensures WellFormed(s[..i])
    decreases |s|
  {
    if i > 0 {
      var n := CharLen(s);
      PrefixIsWellFormed(s[n..], i - n);
      assert CharLen(s[..i]) == n;
      assert s[..i][n..] == s[n..][..i - n];
    }
  }
}
