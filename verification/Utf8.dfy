/** UTF-8 byte sequences as section 3 of RFC 3629 defines them, and Rust's notion of a `char` boundary. */
module Utf8 {
  type byte = x: int | 0 <= x < 256

  predicate IsContinuation(b: byte) {
    0x80 <= b < 0xC0
  }

  /** How many octets a character starting with `lead` has, or 0 if none starts with it. */
  function CharLength(lead: byte): (n: nat)
    ensures n <= 4
  {
    if lead < 0x80 then 1
    else if 0xC2 <= lead < 0xE0 then 2
    else if 0xE0 <= lead < 0xF0 then 3
    else if 0xF0 <= lead < 0xF5 then 4
    else 0
  }

  /** One well-formed character: no overlong form, no surrogate, nothing above U+10FFFF. */
  predicate IsChar(s: seq<byte>) {
    && s != [] && |s| == CharLength(s[0])
    && (forall i :: 1 <= i < |s| ==> IsContinuation(s[i]))
    && (s[0] == 0xE0 ==> 0xA0 <= s[1])
    && (s[0] == 0xED ==> s[1] < 0xA0)
    && (s[0] == 0xF0 ==> 0x90 <= s[1])
    && (s[0] == 0xF4 ==> s[1] < 0x90)
  }

  /** A Unicode scalar value: a code point that is not a surrogate. */
  predicate IsScalar(c: int) {
    0 <= c < 0xD800 || 0xE000 <= c < 0x11_0000
  }

  /** A continuation octet for the lowest six bits of `c`. */
  function Tail(c: nat): (b: byte)
    ensures IsContinuation(b)
  {
    0x80 + c % 64
  }

  /** `high` with the six bits of a continuation octet behind it. */
  function Appended(high: int, b: byte): int {
    var low: int := b;
    64 * high + (low - 0x80)
  }

  lemma SixBits(c: nat)
    ensures Appended(c / 64, Tail(c)) == c
  {
  }

  lemma SixBitsBack(high: nat, b: byte)
    requires IsContinuation(b)
    ensures Appended(high, b) / 64 == high && Tail(Appended(high, b)) == b
  {
  }

  /** The octets of a character, six bits to a continuation octet. */
  function Encoded(c: int): seq<byte>
    requires IsScalar(c)
  {
    if c < 0x80 then [c]
    else if c < 0x800 then [0xC0 + c / 64, Tail(c)]
    else if c < 0x1_0000 then [0xE0 + c / 64 / 64, Tail(c / 64), Tail(c)]
    else [0xF0 + c / 64 / 64 / 64, Tail(c / 64 / 64), Tail(c / 64), Tail(c)]
  }

  function Decoded(s: seq<byte>): int
    requires IsChar(s)
  {
    var lead: int := s[0];
    match |s|
    case 1 => lead
    case 2 => Appended(lead - 0xC0, s[1])
    case 3 => Appended(Appended(lead - 0xE0, s[1]), s[2])
    case _ => Appended(Appended(Appended(lead - 0xF0, s[1]), s[2]), s[3])
  }

  /** Every scalar value encodes to a well-formed character that stands for it. */
  lemma EncodedIsChar(c: int)
    requires IsScalar(c)
    ensures IsChar(Encoded(c)) && Decoded(Encoded(c)) == c
  {
    SixBits(c);
    SixBits(c / 64);
    SixBits(c / 64 / 64);
  }

  /** Every well-formed character is the encoding of a scalar value. */
  lemma CharIsEncoded(s: seq<byte>)
    requires IsChar(s)
    ensures IsScalar(Decoded(s)) && Encoded(Decoded(s)) == s
  {
    var lead: int := s[0];
    if |s| == 2 {
      SixBitsBack(lead - 0xC0, s[1]);
    } else if |s| == 3 {
      SixBitsBack(lead - 0xE0, s[1]);
      SixBitsBack(Appended(lead - 0xE0, s[1]), s[2]);
    } else if |s| == 4 {
      SixBitsBack(lead - 0xF0, s[1]);
      SixBitsBack(Appended(lead - 0xF0, s[1]), s[2]);
      SixBitsBack(Appended(Appended(lead - 0xF0, s[1]), s[2]), s[3]);
    }
  }

  predicate Valid(s: seq<byte>)
    decreases |s|
  {
    s == [] ||
    (var n := CharLength(s[0]);
     1 <= n <= |s| && IsChar(s[..n]) && Valid(s[n..]))
  }

  lemma CharThenValid(s: seq<byte>, n: nat)
    requires n <= |s| && IsChar(s[..n]) && Valid(s[n..])
    ensures Valid(s)
  {
  }

  predicate AllScalars(text: seq<int>) {
    forall i :: 0 <= i < |text| ==> IsScalar(text[i])
  }

  function EncodedText(text: seq<int>): seq<byte>
    requires AllScalars(text)
  {
    if text == [] then [] else Encoded(text[0]) + EncodedText(text[1..])
  }

  /** Valid octets are exactly the encodings of texts. */
  lemma {:induction false} TextIsValid(text: seq<int>)
    requires AllScalars(text)
    ensures Valid(EncodedText(text))
  {
    if text != [] {
      TextIsValid(text[1..]);
      EncodedIsChar(text[0]);
      var first, rest := Encoded(text[0]), EncodedText(text[1..]);
      assert (first + rest)[..|first|] == first && (first + rest)[|first|..] == rest;
      CharThenValid(first + rest, |first|);
    }
  }

  lemma OneMoreChar(c: int, text: seq<int>)
    requires IsScalar(c) && AllScalars(text)
    ensures AllScalars([c] + text) && EncodedText([c] + text) == Encoded(c) + EncodedText(text)
  {
    assert ([c] + text)[1..] == text;
  }

  lemma {:induction false} ValidIsText(s: seq<byte>) returns (text: seq<int>)
    requires Valid(s)
    ensures AllScalars(text) && EncodedText(text) == s
    decreases |s|
  {
    text := [];
    if s != [] {
      var n := CharLength(s[0]);
      var rest := ValidIsText(s[n..]);
      CharIsEncoded(s[..n]);
      text := [Decoded(s[..n])] + rest;
      OneMoreChar(Decoded(s[..n]), rest);
      assert s[..n] + s[n..] == s;
    }
  }

  /** `str::is_char_boundary`: decided by the one octet at `i`. */
  predicate IsCharBoundary(s: seq<byte>, i: nat)
    requires i <= |s|
  {
    i == 0 || i == |s| || !IsContinuation(s[i])
  }

  lemma Slices(s: seq<byte>, n: nat, i: nat)
    requires n <= i <= |s|
    ensures s[n..][i - n..] == s[i..]
    ensures s[..i][..n] == s[..n] && s[..i][n..] == s[n..][..i - n]
  {
  }

  /** The octet test is right: between two characters exactly when both sides are valid text. */
  lemma {:induction false} BoundarySplits(s: seq<byte>, i: nat)
    requires Valid(s) && i <= |s|
    ensures IsCharBoundary(s, i) <==> Valid(s[..i]) && Valid(s[i..])
    decreases |s|
  {
    if i == 0 {
      assert s[i..] == s;
    } else if i == |s| {
      assert s[..i] == s && s[i..] == [];
    } else if i < CharLength(s[0]) {
      assert s[..CharLength(s[0])][i] == s[i];
    } else {
      var n := CharLength(s[0]);
      BoundarySplits(s[n..], i - n);
      Slices(s, n, i);
      if i == n {
        assert s[n..][..0] == [];
        assert s[n] == s[n..][0];
      }
    }
  }

  /** Valid text has a boundary at most three octets before any position. */
  lemma {:induction false} BoundaryNearby(s: seq<byte>, i: nat) returns (j: nat)
    requires Valid(s) && i <= |s|
    ensures j <= i <= j + 3 && IsCharBoundary(s, j)
    decreases |s|
  {
    if s == [] || i < CharLength(s[0]) {
      j := 0;
    } else {
      var n := CharLength(s[0]);
      var k := BoundaryNearby(s[n..], i - n);
      j := n + k;
      if k == 0 && s[n..] != [] {
        assert s[n..][0] == s[n];
      }
    }
  }

  lemma {:induction false} NoBoundaryInsideFirstChar(s: seq<byte>, i: nat)
    requires Valid(s) && s != [] && 0 < i < CharLength(s[0])
    ensures !IsCharBoundary(s, i)
  {
  }

  /** A boundary of the text behind a boundary is a boundary of the whole, and the other way round. */
  lemma BoundaryShift(s: seq<byte>, k: nat, i: nat)
    requires Valid(s) && k <= i <= |s| && IsCharBoundary(s, k)
    ensures IsCharBoundary(s[k..], i - k) <==> IsCharBoundary(s, i)
  {
  }
}
