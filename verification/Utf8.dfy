/** Well-formed UTF-8 (table 3-7 of the Unicode standard), as `String::from_utf8` accepts it. */
module Utf8 {
  import opened Base

  predicate IsContinuation(b: byte) {
    0x80 <= b <= 0xBF
  }

  /** Length of the well-formed sequence at the front of `s`; 0 when there is none. */
  function CharLength(s: seq<byte>): (n: nat)
    ensures n <= |s| && n <= 4
  {
    if s == [] then 0
    else if s[0] <= 0x7F then 1
    else if 0xC2 <= s[0] <= 0xDF then
      if |s| >= 2 && IsContinuation(s[1]) then 2 else 0
    else if 0xE0 <= s[0] <= 0xEF then
      if && |s| >= 3 && IsContinuation(s[1]) && IsContinuation(s[2])
         && (s[0] == 0xE0 ==> s[1] >= 0xA0)
         && (s[0] == 0xED ==> s[1] <= 0x9F)
      then 3 else 0
    else if 0xF0 <= s[0] <= 0xF4 then
      if && |s| >= 4 && IsContinuation(s[1]) && IsContinuation(s[2]) && IsContinuation(s[3])
         && (s[0] == 0xF0 ==> s[1] >= 0x90)
         && (s[0] == 0xF4 ==> s[1] <= 0x8F)
      then 4 else 0
    else 0
  }

  type scalar = c: nat | c < 0xD800 || 0xE000 <= c < 0x11_0000

  /** The last six bits of `n` as a continuation byte. */
  function Low(n: nat): byte {
    0x80 + n % 0x40
  }

  /** A Unicode scalar value in one to four bytes. */
  function Encode(c: scalar): (s: seq<byte>) {
    if c < 0x80 then [c]
    else if c < 0x800 then [0xC0 + c / 0x40, Low(c)]
    else if c < 0x1_0000 then [0xE0 + c / 0x40 / 0x40, Low(c / 0x40), Low(c)]
    else [0xF0 + c / 0x40 / 0x40 / 0x40, Low(c / 0x40 / 0x40), Low(c / 0x40), Low(c)]
  }

  /** Six more bits. */
  function More(n: nat, b: byte): nat
    requires IsContinuation(b)
  {
    0x40 * n + (b as int - 0x80)
  }

  lemma MoreSplits(n: nat, b: byte)
    requires IsContinuation(b)
    ensures More(n, b) / 0x40 == n && Low(More(n, b)) == b && 0x40 * n <= More(n, b) < 0x40 * n + 0x40
    ensures b >= 0x90 ==> More(n, b) >= 0x40 * n + 0x10
    ensures b >= 0xA0 ==> More(n, b) >= 0x40 * n + 0x20
    ensures b <= 0x9F ==> More(n, b) < 0x40 * n + 0x20
    ensures b <= 0x8F ==> More(n, b) < 0x40 * n + 0x10
  {
  }

  lemma LowJoins(n: nat)
    ensures IsContinuation(Low(n)) && More(n / 0x40, Low(n)) == n
  {
  }

  /** What is accepted at the front is the encoding of a scalar value. */
  lemma AcceptedIsEncoded(s: seq<byte>) returns (c: scalar)
    requires CharLength(s) > 0
    ensures s[..CharLength(s)] == Encode(c)
  {
    hide More, Low;
    var n := CharLength(s);
    if n == 1 {
      c := s[0];
    } else if n == 2 {
      MoreSplits(s[0] - 0xC0, s[1]);
      c := More(s[0] - 0xC0, s[1]);
    } else if n == 3 {
      var m := More(s[0] - 0xE0, s[1]);
      MoreSplits(s[0] - 0xE0, s[1]);
      MoreSplits(m, s[2]);
      c := More(m, s[2]);
    } else {
      var m := More(s[0] - 0xF0, s[1]);
      MoreSplits(s[0] - 0xF0, s[1]);
      MoreSplits(m, s[2]);
      MoreSplits(More(m, s[2]), s[3]);
      c := More(More(m, s[2]), s[3]);
    }
  }

  /** A sequence of bytes begins with a character exactly if it begins with the encoding of a scalar value. */
  lemma CharsAreScalars(s: seq<byte>, n: nat)
    requires n <= |s|
    ensures n > 0 && CharLength(s) == n <==> exists c: scalar :: Encode(c) == s[..n]
  {
    if n > 0 && CharLength(s) == n {
      var c := AcceptedIsEncoded(s);
    }
    forall c: scalar | Encode(c) == s[..n] ensures n > 0 && CharLength(s) == n {
      EncodedIsAccepted(c, s[n..]);
      assert s == s[..n] + s[n..];
    }
  }

  /** Every scalar value's encoding is accepted, whatever follows it. */
  lemma EncodedIsAccepted(c: scalar, rest: seq<byte>)
    ensures CharLength(Encode(c) + rest) == |Encode(c)|
  {
    hide Low;
    LowJoins(c);
    LowJoins(c / 0x40);
    LowJoins(c / 0x40 / 0x40);
  }

  predicate Valid(s: seq<byte>)
    decreases |s|
  {
    s == [] || (CharLength(s) > 0 && Valid(s[CharLength(s)..]))
  }

  /** `str::is_char_boundary`. */
  predicate IsCharBoundary(s: seq<byte>, i: nat) {
    i == 0 || i == |s| || (i < |s| && !IsContinuation(s[i]))
  }

  lemma {:induction false} AsciiIsValid(s: seq<byte>)
    requires forall i :: 0 <= i < |s| ==> s[i] <= 0x7F
    ensures Valid(s)
  {
    if s != [] {
      AsciiIsValid(s[1..]);
    }
  }

  lemma CharLengthInFront(s: seq<byte>, t: seq<byte>)
    requires CharLength(s) > 0
    ensures CharLength(s + t) == CharLength(s)
  {
  }

  lemma {:induction false} ConcatIsValid(s: seq<byte>, t: seq<byte>)
    requires Valid(s) && Valid(t)
    ensures Valid(s + t)
    decreases |s|
  {
    hide CharLength;
    if s == [] {
      assert s + t == t;
    } else {
      var n := CharLength(s);
      CharLengthInFront(s, t);
      assert (s + t)[n..] == s[n..] + t;
      ConcatIsValid(s[n..], t);
    }
  }
}
