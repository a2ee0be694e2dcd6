/** Text as the bytes that encode it: the syntax of section 4 of RFC 3629. */
module Utf8 {
  import Journal

  type byte = Journal.byte

  /** A byte that goes on with a character rather than starting one. */
  predicate Continues(b: byte) {
    0x80 <= b <= 0xBF
  }

  /** How many bytes the character takes that starts with `b`; none starts with it when
      zero. */
  function Width(b: byte): (w: nat)
    ensures w <= 4
  {
    if b <= 0x7F then 1
    else if b < 0xC2 then 0
    else if b <= 0xDF then 2
    else if b <= 0xEF then 3
    else if b <= 0xF4 then 4
    else 0
  }

  /** What may follow the first byte: the shortest form only, no surrogates, nothing past
      the last code point. */
  predicate SecondFits(first: byte, second: byte) {
    && Continues(second)
    && (first == 0xE0 ==> 0xA0 <= second)
    && (first == 0xED ==> second <= 0x9F)
    && (first == 0xF0 ==> 0x90 <= second)
    && (first == 0xF4 ==> second <= 0x8F)
  }

  /** One character begins at the front of `t`. */
  predicate StartsWell(t: seq<byte>) {
    && t != [] && 0 < Width(t[0]) <= |t|
    && (Width(t[0]) > 1 ==> SecondFits(t[0], t[1]))
    && forall i :: 1 <= i < Width(t[0]) ==> Continues(t[i])
  }

  predicate IsText(t: seq<byte>) {
    t == [] || (StartsWell(t) && IsText(t[Width(t[0])..]))
  }

  /** A code point that is a character: no surrogate, none past the last. */
  predicate IsScalar(c: nat) {
    c <= 0x10FFFF && !(0xD800 <= c <= 0xDFFF)
  }

  /** The low six bits of `c` as a byte that goes on with a character. */
  function Low(c: nat): byte {
    (0x80 + c % 64) as byte
  }

  /** The bytes of a character, six bits to each that goes on with it: section 3 of
      RFC 3629. */
  function Encode(c: nat): seq<byte>
    requires c <= 0x10FFFF
  {
    if c <= 0x7F then [c as byte]
    else if c <= 0x7FF then [(0xC0 + c / 64) as byte, Low(c)]
    else if c <= 0xFFFF then [(0xE0 + c / 64 / 64) as byte, Low(c / 64), Low(c)]
    else [(0xF0 + c / 64 / 64 / 64) as byte, Low(c / 64 / 64), Low(c / 64), Low(c)]
  }

  /** Every character is encoded as one that begins well and is all of its width. */
  lemma EncodeStartsWell(c: nat)
    requires IsScalar(c)
    ensures StartsWell(Encode(c)) && |Encode(c)| == Width(Encode(c)[0])
  {
  }

  /** Six bits more. */
  lemma SixMore(c: nat, b: byte) returns (more: nat)
    requires Continues(b)
    ensures more == 64 * c + (b as nat - 0x80) && more / 64 == c && Low(more) == b
  {
    more := 64 * c + (b as nat - 0x80);
  }

  /** And whatever begins well and is all of its width encodes a character. */
  lemma StartsWellEncodes(t: seq<byte>) returns (c: nat)
    requires StartsWell(t) && |t| == Width(t[0])
    ensures IsScalar(c) && Encode(c) == t
  {
    if |t| == 1 {
      c := t[0] as nat;
    } else if |t| == 2 {
      c := SixMore(t[0] as nat - 0xC0, t[1]);
    } else if |t| == 3 {
      c := SixMore(t[0] as nat - 0xE0, t[1]);
      c := SixMore(c, t[2]);
    } else {
      c := SixMore(t[0] as nat - 0xF0, t[1]);
      c := SixMore(c, t[2]);
      c := SixMore(c, t[3]);
    }
  }

  /** A place where text can be cut without splitting a character. */
  predicate Boundary(t: seq<byte>, at: nat) {
    at == 0 || at == |t| || (at < |t| && !Continues(t[at]))
  }

  /** The largest boundary at or below `at`. */
  function Floor(t: seq<byte>, at: nat): (r: nat)
    requires at <= |t|
    ensures r <= at && Boundary(t, r)
    ensures forall k :: r < k <= at ==> !Boundary(t, k)
  {
    if Boundary(t, at) then at else Floor(t, at - 1)
  }

  lemma StartKeeps(t: seq<byte>, w: nat, more: seq<byte>)
    requires StartsWell(t) && Width(t[0]) <= w <= |t|
    ensures StartsWell(t[..w]) && StartsWell(t + more)
  {
  }

  /** Text cut at a boundary is two texts. */
  lemma {:induction false} CutIsText(t: seq<byte>, at: nat)
    requires IsText(t) && at <= |t| && Boundary(t, at)
    ensures IsText(t[..at]) && IsText(t[at..])
  {
    if at == 0 {
      assert t[at..] == t;
    } else {
      var w := Width(t[0]);
      var rest := t[w..];
      assert at >= w;
      if at < |t| {
        assert rest[at - w] == t[at];
      }
      CutIsText(rest, at - w);
      assert t[..at][w..] == rest[..at - w] && t[at..] == rest[at - w..];
      StartKeeps(t, at, []);
    }
  }

  lemma {:induction false} JoinIsText(a: seq<byte>, b: seq<byte>)
    requires IsText(a) && IsText(b)
    ensures IsText(a + b)
  {
    if a == [] {
      assert a + b == b;
    } else {
      var w := Width(a[0]);
      JoinIsText(a[w..], b);
      StartKeeps(a, w, b);
      assert (a + b)[w..] == a[w..] + b;
    }
  }

  /** No character is longer than four bytes, so a cut moves down by three at most. */
  lemma {:induction false} FloorIsNear(t: seq<byte>, at: nat)
    requires IsText(t) && at <= |t|
    ensures at - Floor(t, at) <= 3
  {
    if t != [] {
      var w := Width(t[0]);
      var rest := t[w..];
      if at >= w {
        FloorIsNear(rest, at - w);
        var r := Floor(rest, at - w);
        assert Boundary(t, r + w) by {
          if r == 0 {
            assert rest == [] || StartsWell(rest);
            assert rest != [] ==> t[w] == rest[0];
          } else if r < |rest| {
            assert t[r + w] == rest[r];
          }
        }
      }
    }
  }

  /** One byte to a character. */
  predicate IsAscii(t: seq<byte>) {
    forall i :: 0 <= i < |t| ==> t[i] <= 0x7F
  }

  lemma {:induction false} AsciiIsText(t: seq<byte>)
    requires IsAscii(t)
    ensures IsText(t)
    ensures forall at :: 0 <= at <= |t| ==> Boundary(t, at)
  {
    if t != [] {
      AsciiIsText(t[1..]);
    }
  }
}
