/** UTF-8 as defined in section 3 of RFC 3629, on the characters of a string. */
module Utf8 {
  import Seqs

  type Byte = b: int | 0 <= b < 256

  function Encode(c: char): (bytes: seq<Byte>)
    ensures 1 <= |bytes| <= 4
  {
    var n := c as int;
    if n < 0x80 then [n]
    else if n < 0x800 then [0xC0 + n / 0x40, 0x80 + n % 0x40]
    else if n < 0x10000 then [0xE0 + n / 0x1000, 0x80 + n / 0x40 % 0x40, 0x80 + n % 0x40]
    else [0xF0 + n / 0x40000, 0x80 + n / 0x1000 % 0x40, 0x80 + n / 0x40 % 0x40, 0x80 + n % 0x40]
  }

  predicate IsContinuation(b: Byte) {
    0x80 <= b < 0xC0
  }

  const REPLACEMENT: char := '\U{FFFD}'

  function Tail(b: Byte): int {
    b - 0x80
  }

  /** The first character and how many bytes it takes; anything that is not the
      encoding of a character counts as one replacement character of one byte. */
  function DecodeRune(s: seq<Byte>): (r: (char, nat))
    requires s != []
    ensures 1 <= r.1 <= |s|
  {
    var b0 := s[0];
    if b0 < 0x80 then (b0 as char, 1)
    else if 0xC2 <= b0 < 0xE0 && |s| >= 2 && IsContinuation(s[1]) then
      (((b0 - 0xC0) * 0x40 + Tail(s[1])) as char, 2)
    else if 0xE0 <= b0 < 0xF0 && |s| >= 3 && IsContinuation(s[1]) && IsContinuation(s[2])
            && (b0 == 0xE0 ==> s[1] >= 0xA0) && (b0 == 0xED ==> s[1] < 0xA0) then
      (((b0 - 0xE0) * 0x1000 + Tail(s[1]) * 0x40 + Tail(s[2])) as char, 3)
    else if 0xF0 <= b0 < 0xF5 && |s| >= 4 && IsContinuation(s[1]) && IsContinuation(s[2]) && IsContinuation(s[3])
            && (b0 == 0xF0 ==> s[1] >= 0x90) && (b0 == 0xF4 ==> s[1] < 0x90) then
      (((b0 - 0xF0) * 0x40000 + Tail(s[1]) * 0x1000 + Tail(s[2]) * 0x40 + Tail(s[3])) as char, 4)
    else (REPLACEMENT, 1)
  }

  lemma {:induction false} EncodeShape(c: char)
    ensures !IsContinuation(Encode(c)[0])
    ensures forall i :: 0 < i < |Encode(c)| ==> IsContinuation(Encode(c)[i])
  {
  }

  lemma {:induction false} Digits(n: nat)
    ensures n == n / 0x40 * 0x40 + n % 0x40
    ensures n == n / 0x1000 * 0x1000 + n / 0x40 % 0x40 * 0x40 + n % 0x40
    ensures n == n / 0x40000 * 0x40000 + n / 0x1000 % 0x40 * 0x1000 + n / 0x40 % 0x40 * 0x40 + n % 0x40
  {
    assert n / 0x1000 == n / 0x40 / 0x40;
    assert n / 0x40000 == n / 0x1000 / 0x40;
  }

  /** What a byte holds besides its fixed leading bits. */
  function Bits(b: Byte, leading: int): int {
    b - leading
  }

  /** The table of section 3: how many bytes there are, how the first one and the others begin, and
      that their other bits are those of the character. */
  lemma {:induction false} EncodingTable(c: char)
    ensures var e, n := Encode(c), c as int;
            && (|e| == 1 <==> n < 0x80) && (|e| <= 2 <==> n < 0x800) && (|e| <= 3 <==> n < 0x10000) && |e| <= 4
            && (|e| == 1 ==> e[0] == n)
            && (|e| == 2 ==> 0xC0 <= e[0] < 0xE0 && n == Bits(e[0], 0xC0) * 0x40 + Bits(e[1], 0x80))
            && (|e| == 3 ==>
                  && 0xE0 <= e[0] < 0xF0
                  && n == Bits(e[0], 0xE0) * 0x1000 + Bits(e[1], 0x80) * 0x40 + Bits(e[2], 0x80))
            && (|e| == 4 ==>
                  && 0xF0 <= e[0] < 0xF8
                  && n == Bits(e[0], 0xF0) * 0x40000 + Bits(e[1], 0x80) * 0x1000 + Bits(e[2], 0x80) * 0x40
                          + Bits(e[3], 0x80))
            && (forall i :: 0 < i < |e| ==> 0x80 <= e[i] < 0xC0)
  {
    Digits(c as int);
  }

  /** Decoding undoes encoding, whatever follows. */
  lemma {:induction false} DecodeEncode(c: char, rest: seq<Byte>)
    ensures DecodeRune(Encode(c) + rest) == (c, |Encode(c)|)
  {
    var n := c as int;
    Digits(n);
    var s := Encode(c) + rest;
    EncodeShape(c);
    assert forall i :: 0 <= i < |Encode(c)| ==> s[i] == Encode(c)[i];
  }

  function EncodeAll(s: string): seq<Byte> {
    if s == "" then [] else Encode(s[0]) + EncodeAll(s[1..])
  }

  lemma {:induction false} EncodeAllAppend(s: string, t: string)
    ensures EncodeAll(s + t) == EncodeAll(s) + EncodeAll(t)
  {
    if s == "" {
      assert s + t == t;
    } else {
      EncodeAllAppend(s[1..], t);
      assert (s + t)[1..] == s[1..] + t;
      Seqs.ConcatAssociative(Encode(s[0]), EncodeAll(s[1..]), EncodeAll(t));
    }
  }

  /** Where the k-th character starts. */
  function Offset(s: string, k: nat): nat
    requires k <= |s|
  {
    |EncodeAll(s[..k])|
  }

  lemma {:induction false} OffsetSuffix(s: string, k: nat)
    requires k <= |s|
    ensures Offset(s, k) <= |EncodeAll(s)| && EncodeAll(s)[Offset(s, k)..] == EncodeAll(s[k..])
  {
    EncodeAllAppend(s[..k], s[k..]);
    assert s == s[..k] + s[k..];
  }

  lemma {:induction false} OffsetNext(s: string, k: nat)
    requires k < |s|
    ensures Offset(s, k + 1) == Offset(s, k) + |Encode(s[k])|
    ensures EncodeAll(s[k..]) == Encode(s[k]) + EncodeAll(s[k + 1..])
  {
    var c := [s[k]];
    assert s[..k + 1] == s[..k] + c && c[1..] == "" && s[k..][1..] == s[k + 1..];
    EncodeAllAppend(s[..k], c);
    assert EncodeAll(c) == Encode(s[k]) + EncodeAll("");
  }

  lemma {:induction false} OffsetMonotone(s: string, j: nat, k: nat)
    requires j <= k <= |s|
    ensures Offset(s, j) + (k - j) <= Offset(s, k)
    decreases k
  {
    if j < k {
      OffsetMonotone(s, j, k - 1);
      OffsetNext(s, k - 1);
    }
  }

  /** Every byte that is not a continuation byte starts a character. */
  lemma {:induction false} LeadByteStartsCharacter(s: string, i: nat) returns (k: nat)
    requires i < |EncodeAll(s)|
    ensures k < |s| && Offset(s, k) <= i < Offset(s, k + 1)
    ensures i == Offset(s, k) <==> !IsContinuation(EncodeAll(s)[i])
  {
    EncodeShape(s[0]);
    OffsetNext(s, 0);
    assert s[..0] == "";
    if i < |Encode(s[0])| {
      k := 0;
    } else {
      var k' := LeadByteStartsCharacter(s[1..], i - |Encode(s[0])|);
      k := k' + 1;
      OffsetCons(s, k');
      OffsetCons(s, k' + 1);
    }
  }

  lemma {:induction false} OffsetCons(s: string, k: nat)
    requires s != "" && k <= |s| - 1
    ensures Offset(s, k + 1) == |Encode(s[0])| + Offset(s[1..], k)
  {
    assert s[..k + 1][1..] == s[1..][..k];
  }

  lemma {:induction false} CancelLeft<T>(a: seq<T>, x: seq<T>, y: seq<T>)
    requires a + x == a + y
    ensures x == y
  {
    assert x == (a + x)[|a|..] && y == (a + y)[|a|..];
  }

  lemma {:induction false} EncodingPrefixDecodes(p: string, s: string, rest: seq<Byte>)
    requires EncodeAll(s) == EncodeAll(p) + rest
    ensures p <= s
  {
    if p != "" {
      var c, more := p[0], EncodeAll(p[1..]) + rest;
      assert EncodeAll(s) == Encode(c) + more;
      DecodeEncode(c, more);
      DecodeEncode(s[0], EncodeAll(s[1..]));
      CancelLeft(Encode(c), EncodeAll(s[1..]), more);
      EncodingPrefixDecodes(p[1..], s[1..], rest);
      assert p == [c] + p[1..] && s == [c] + s[1..];
    }
  }

  /** One encoding is a prefix of another exactly when the characters are. */
  lemma {:induction false} PrefixOfEncoding(p: string, s: string)
    ensures EncodeAll(p) <= EncodeAll(s) <==> p <= s
  {
    if EncodeAll(p) <= EncodeAll(s) {
      EncodingPrefixDecodes(p, s, EncodeAll(s)[|EncodeAll(p)|..]);
    }
    if p <= s {
      EncodeAllAppend(p, s[|p|..]);
      assert s == p + s[|p|..];
    }
  }

  method RuneCount(bytes: seq<Byte>, ghost s: string) returns (n: nat)
    requires bytes == EncodeAll(s)
    ensures n == |s|
  {
    n := 0;
    var i := 0;
    assert s[..0] == "";
    while i < |bytes|
      invariant n <= |s| && i == Offset(s, n) <= |bytes|
      decreases |bytes| - i
    {
      OffsetOfAll(s, n);
      NextCharacter(s, n);
      var size := DecodeRune(bytes[i..]).1;
      i := i + size;
      n := n + 1;
    }
    OffsetOfAll(s, n);
  }

  /** Decoding at the start of a character leads to the start of the next one. */
  lemma {:induction false} NextCharacter(s: string, k: nat)
    requires k < |s|
    ensures Offset(s, k) < Offset(s, k + 1) <= |EncodeAll(s)|
    ensures DecodeRune(EncodeAll(s)[Offset(s, k)..]) == (s[k], Offset(s, k + 1) - Offset(s, k))
    ensures EncodeAll(s)[Offset(s, k + 1)..] == EncodeAll(s[k + 1..])
  {
    OffsetNext(s, k);
    OffsetSuffix(s, k);
    OffsetSuffix(s, k + 1);
    DecodeEncode(s[k], EncodeAll(s[k + 1..]));
  }

  /** Only all characters together take all bytes. */
  lemma {:induction false} OffsetOfAll(s: string, k: nat)
    requires k <= |s|
    ensures k == |s| <==> Offset(s, k) == |EncodeAll(s)|
  {
    OffsetMonotone(s, k, |s|);
    assert s[..|s|] == s;
  }
}
