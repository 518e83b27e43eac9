/** Recognising percent-decoding debris: two-digit hexadecimal tokens that spell a UTF-8 sequence. */
module Utf8Fragments {

  predicate IsHexDigit(c: char) {
    '0' <= c <= '9' || 'a' <= c <= 'f' || 'A' <= c <= 'F'
  }

  function DigitValue(c: char): nat
    requires IsHexDigit(c)
  {
    if c <= '9' then c as int - '0' as int
    else if c <= 'F' then c as int - 'A' as int + 10
    else c as int - 'a' as int + 10
  }

  /** A token of exactly two hexadecimal digits, in either case. */
  predicate IsByteToken(t: string) {
    |t| == 2 && IsHexDigit(t[0]) && IsHexDigit(t[1])
  }

  function ByteOf(t: string): nat
    requires IsByteToken(t)
  {
    16 * DigitValue(t[0]) + DigitValue(t[1])
  }

  predicate IsContinuation(t: string) {
    IsByteToken(t) && 0x80 <= ByteOf(t) <= 0xBF
  }

  function ContinuationCount(first: nat): nat {
    if first <= 0xDF then 1 else if first <= 0xEF then 2 else 3
  }

  /** The sequence rule at one position: a lead byte with all its continuation bytes after it. */
  predicate StartsFragment(tokens: seq<string>, i: nat)
    requires i < |tokens|
  {
    IsByteToken(tokens[i]) && 0xC2 <= ByteOf(tokens[i]) <= 0xF4
    && var n := ContinuationCount(ByteOf(tokens[i]));
       i + 1 + n <= |tokens| && forall k :: i < k <= i + n ==> IsContinuation(tokens[k])
  }

  predicate HasFragment(tokens: seq<string>) {
    exists i :: 0 <= i < |tokens| && StartsFragment(tokens, i)
  }

  method Utf8ByteFragment(tokens: seq<string>) returns (found: bool)
    ensures found <==> HasFragment(tokens)
  {
    var i := 0;
    while i < |tokens|
      invariant 0 <= i <= |tokens|
      invariant forall j :: 0 <= j < i ==> !StartsFragment(tokens, j)
    {
      var token := tokens[i];
      if IsByteToken(token) {
        var first := ByteOf(token);
        if 0xC2 <= first <= 0xF4 {
          var continuation := ContinuationCount(first);
          var stop := if i + 1 + continuation <= |tokens| then i + 1 + continuation else |tokens|;
          var following := tokens[i + 1..stop];
          if |following| == continuation && forall k :: 0 <= k < |following| ==> IsContinuation(following[k]) {
            assert forall k :: i < k <= i + continuation ==> tokens[k] == following[k - i - 1];
            assert StartsFragment(tokens, i);
            return true;
          }
        }
      }
      i := i + 1;
    }
    return false;
  }

  // ----- The encoding of section 3 of RFC 3629

  type Scalar = c: int | 0 <= c <= 0x10FFFF && !(0xD800 <= c <= 0xDFFF) witness 0

  function Utf8(c: Scalar): seq<nat> {
    if c < 0x80 then [c]
    else if c < 0x800 then [0xC0 + c / 64, 0x80 + c % 64]
    else if c < 0x10000 then [0xE0 + c / 4096, 0x80 + c / 64 % 64, 0x80 + c % 64]
    else [0xF0 + c / 262144, 0x80 + c / 4096 % 64, 0x80 + c / 64 % 64, 0x80 + c % 64]
  }

  /** The tokens spell the bytes, each digit in whichever case. */
  predicate Spells(tokens: seq<string>, bytes: seq<nat>) {
    |tokens| == |bytes|
    && forall k :: 0 <= k < |tokens| ==> IsByteToken(tokens[k]) && ByteOf(tokens[k]) == bytes[k]
  }

  lemma LeadAndContinuations(c: Scalar)
    requires c >= 0x80
    ensures var u := Utf8(c);
      |u| >= 2 && 0xC2 <= u[0] <= 0xF4 && |u| == 1 + ContinuationCount(u[0])
      && forall k :: 1 <= k < |u| ==> 0x80 <= u[k] <= 0xBF
  {
  }

  /** The encoding of every scalar from U+0080 upward is detected, wherever it stands in the tokens. */
  lemma EveryEncodingIsDetected(before: seq<string>, spelled: seq<string>, after: seq<string>, c: Scalar)
    requires c >= 0x80 && Spells(spelled, Utf8(c))
    ensures HasFragment(before + spelled + after)
  {
    LeadAndContinuations(c);
    var tokens, u := before + spelled + after, Utf8(c);
    hide Utf8, ByteOf;
    assert tokens[|before|] == spelled[0];
    assert forall k :: |before| < k < |before| + |u| ==> tokens[k] == spelled[k - |before|];
    assert StartsFragment(tokens, |before|);
  }

  // ----- Which reported fragments are encodings

  function BytesAt(tokens: seq<string>, i: nat): (u: seq<nat>)
    requires i < |tokens| && StartsFragment(tokens, i)
    ensures i + |u| <= |tokens| && Spells(tokens[i..i + |u|], u) && IsShape(u)
  {
    var n := ContinuationCount(ByteOf(tokens[i]));
    seq(n + 1, k requires 0 <= k <= n && (k > 0 ==> IsContinuation(tokens[i + k])) => ByteOf(tokens[i + k]))
  }

  /** A lead byte followed by the continuation bytes it announces. */
  predicate IsShape(u: seq<nat>) {
    u != [] && 0xC2 <= u[0] <= 0xF4 && |u| == 1 + ContinuationCount(u[0])
    && forall k :: 1 <= k < |u| ==> 0x80 <= u[k] <= 0xBF
  }

  /** The value whose lead and continuation bits the bytes carry. */
  function Joined(u: seq<nat>): nat
    requires IsShape(u)
  {
    if |u| == 2 then Pair(u[0] - 0xC0, u[1])
    else if |u| == 3 then Pair(Pair(u[0] - 0xE0, u[1]), u[2])
    else Pair(Pair(Pair(u[0] - 0xF0, u[1]), u[2]), u[3])
  }

  function Pair(high: nat, low: nat): nat
    requires 0x80 <= low
  {
    high * 64 + (low - 0x80)
  }

  function Smallest(length: nat): nat {
    if length == 2 then 0x80 else if length == 3 then 0x800 else 0x10000
  }

  predicate IsScalar(v: int) {
    0 <= v <= 0x10FFFF && !(0xD800 <= v <= 0xDFFF)
  }

  lemma PairSplits(high: nat, low: nat)
    requires 0x80 <= low <= 0xBF
    ensures Pair(high, low) / 64 == high && Pair(high, low) % 64 == low - 0x80
  {
  }

  lemma DivideTwice(v: nat)
    ensures v / 4096 == v / 64 / 64 && v / 262144 == v / 4096 / 64
  {
  }

  /** The bits of a shape are those of the scalar it joins to. */
  lemma JoinedSplits(u: seq<nat>)
    requires IsShape(u)
    ensures var v := Joined(u);
      u[|u| - 1] == 0x80 + v % 64
      && (|u| == 2 ==> u[0] == 0xC0 + v / 64)
      && (|u| == 3 ==> u[0] == 0xE0 + v / 4096 && u[1] == 0x80 + v / 64 % 64)
      && (|u| == 4 ==> u[0] == 0xF0 + v / 262144 && u[1] == 0x80 + v / 4096 % 64 && u[2] == 0x80 + v / 64 % 64)
  {
    DivideTwice(Joined(u));
    if |u| == 2 {
      PairSplits(u[0] - 0xC0, u[1]);
    } else if |u| == 3 {
      PairSplits(u[0] - 0xE0, u[1]);
      PairSplits(Pair(u[0] - 0xE0, u[1]), u[2]);
    } else {
      PairSplits(u[0] - 0xF0, u[1]);
      PairSplits(Pair(u[0] - 0xF0, u[1]), u[2]);
      PairSplits(Pair(Pair(u[0] - 0xF0, u[1]), u[2]), u[3]);
    }
  }

  /** Joining undoes the encoding. */
  lemma EncodingJoins(c: Scalar)
    requires c >= 0x80
    ensures IsShape(Utf8(c)) && Joined(Utf8(c)) == c && Smallest(|Utf8(c)|) <= c
  {
    LeadAndContinuations(c);
    DivideTwice(c);
  }

  /** Exactly when a shape is a real encoding: what it joins to is a scalar value that needs that
      many bytes. */
  lemma ShapeIsEncodingIff(u: seq<nat>)
    requires IsShape(u)
    ensures (exists c: Scalar :: Utf8(c) == u) <==> Smallest(|u|) <= Joined(u) && IsScalar(Joined(u))
  {
    hide Utf8, Joined, IsShape;
    if Smallest(|u|) <= Joined(u) && IsScalar(Joined(u)) {
      JoinedEncodes(u, Joined(u));
    }
    forall c: Scalar | Utf8(c) == u
      ensures c == Joined(u) && Smallest(|u|) <= c
    {
      ShapeIsNotAscii(u, c);
      EncodingJoins(c);
    }
  }

  lemma ShapeIsNotAscii(u: seq<nat>, c: Scalar)
    requires IsShape(u) && Utf8(c) == u
    ensures c >= 0x80
  {
  }

  lemma JoinedEncodes(u: seq<nat>, c: Scalar)
    requires IsShape(u) && c == Joined(u) && Smallest(|u|) <= c
    ensures Utf8(c) == u
  {
    JoinedSplits(u);
    JoinedRange(u);
    hide Joined;
    assert |u| == 4 ==> u[3] == 0x80 + c % 64;
  }

  lemma JoinedRange(u: seq<nat>)
    requires IsShape(u)
    ensures |u| == 2 ==> Joined(u) < 0x800
    ensures |u| == 3 ==> Joined(u) < 0x10000
  {
  }

  /** A reported position is debris of a real character exactly under that condition, so overlong
      forms, surrogates and values past U+10FFFF are reported although no character encodes to them. */
  lemma FragmentIsCharacterIff(tokens: seq<string>, i: nat)
    requires i < |tokens| && StartsFragment(tokens, i)
    ensures var u := BytesAt(tokens, i);
      (exists c: Scalar :: Spells(tokens[i..i + |u|], Utf8(c)))
      <==> Smallest(|u|) <= Joined(u) && IsScalar(Joined(u))
  {
    var u := BytesAt(tokens, i);
    var part := tokens[i..i + |u|];
    ShapeIsEncodingIff(u);
    hide Utf8, Joined, ByteOf, BytesAt, IsShape, StartsFragment;
    forall c: Scalar | Spells(part, Utf8(c))
      ensures Utf8(c) == u
    {
    }
    if c: Scalar :| Utf8(c) == u {
      assert Spells(part, Utf8(c));
    }
  }

  /** The tokens E0, 80, 80 are reported and spell no character: their value needs one byte only. */
  lemma OverlongExample()
    ensures var tokens := ["E0", "80", "80"];
      && HasFragment(tokens) && StartsFragment(tokens, 0)
      && !exists c: Scalar :: Spells(tokens, Utf8(c))
  {
    var tokens := ["E0", "80", "80"];
    assert ByteOf("E0") == 0xE0 && ByteOf("80") == 0x80;
    assert StartsFragment(tokens, 0);
    FragmentIsCharacterIff(tokens, 0);
    assert BytesAt(tokens, 0) == [0xE0, 0x80, 0x80];
    assert tokens[0..3] == tokens;
  }
}
