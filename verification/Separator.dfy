/** The leading white space that a token's text has before its value. */
module Separator {
  import opened Tokens
  import opened Utf8
  import opened Search
  import opened ByteSearch

  function FirstLine(s: string): string {
    if s == "" || s[0] == '\n' then "" else [s[0]] + FirstLine(s[1..])
  }

  /** The byte offset of the value in the first line of the token. */
  function ValueOffset(tk: TokenData): nat {
    var firstLine := FirstLine(tk.origin);
    if firstLine == "" then 0
    else
      var idx := Index(EncodeAll(firstLine), EncodeAll(tk.value));
      if idx >= 0 then idx else 0
  }

  predicate IsBlank(n: int) {
    n == 0x20 || n == 0x09
  }

  predicate BlankBytes(bytes: seq<Byte>) {
    forall i :: 0 <= i < |bytes| ==> IsBlank(bytes[i])
  }

  predicate Blank(s: string) {
    forall i :: 0 <= i < |s| ==> IsBlank(s[i] as int)
  }

  /** White space is spaces and tabs. */
  lemma {:induction false} BlankExact(s: string)
    ensures Blank(s) <==> forall i :: 0 <= i < |s| ==> s[i] == ' ' || s[i] == '\t'
  {
    forall i | 0 <= i < |s| ensures IsBlank(s[i] as int) <==> s[i] == ' ' || s[i] == '\t' {
      assert ' ' as int == 0x20 && '\t' as int == 0x09;
    }
  }

  /** How many characters precede the offset, if they are all white space. */
  function Leading(s: string, offset: int): nat {
    if 0 < offset <= |s| && Blank(s[..offset]) then offset else 0
  }

  /** White space takes one byte a character. */
  lemma {:induction false} BlankPrefix(s: string, n: nat)
    ensures n <= |s| && Blank(s[..n]) <==> n <= |EncodeAll(s)| && BlankBytes(EncodeAll(s)[..n])
    ensures n <= |s| && Blank(s[..n]) ==> Offset(s, n) == n && EncodeAll(s)[..n] == EncodeAll(s[..n])
    decreases n
  {
    if n > 0 && s != "" {
      var c, t := s[0], s[1..];
      BlankPrefix(t, n - 1);
      EncodeShape(c);
      FirstByteBlank(c);
      var bytes := EncodeAll(s);
      assert bytes == Encode(c) + EncodeAll(t);
      if IsBlank(c as int) {
        assert n <= |bytes| ==> bytes[..n] == [c as int] + EncodeAll(t)[..n - 1];
        assert n <= |s| ==> s[..n] == [c] + t[..n - 1];
        if n <= |bytes| {
          BlankCons(c as int, EncodeAll(t), n - 1);
        }
      } else {
        assert n <= |bytes| ==> bytes[..n][0] == Encode(c)[0];
        assert n <= |s| ==> s[..n][0] == c;
      }
    }
  }

  lemma {:induction false} BlankCons(b: Byte, bytes: seq<Byte>, n: nat)
    requires IsBlank(b) && n <= |bytes|
    ensures BlankBytes([b] + bytes[..n]) <==> BlankBytes(bytes[..n])
  {
    assert forall i :: 0 <= i < n ==> ([b] + bytes[..n])[i + 1] == bytes[..n][i];
  }

  lemma {:induction false} FirstByteBlank(c: char)
    ensures IsBlank(Encode(c)[0]) <==> IsBlank(c as int)
    ensures IsBlank(c as int) ==> Encode(c) == [c as int]
  {
  }

  method AllBlank(bytes: seq<Byte>) returns (blank: bool)
    ensures blank <==> BlankBytes(bytes)
  {
    for i := 0 to |bytes|
      invariant BlankBytes(bytes[..i])
    {
      if !IsBlank(bytes[i]) {
        assert bytes[i] == bytes[..][i];
        return false;
      }
    }
    assert bytes[..|bytes|] == bytes;
    return true;
  }

  /** Works on bytes, answers in characters. */
  method LeadingWhitespaceRunes(s: string, maxBytes: int) returns (n: nat)
    ensures n == Leading(s, maxBytes)
  {
    var bytes := EncodeAll(s);
    if maxBytes > 0 {
      BlankPrefix(s, maxBytes);
    }
    if maxBytes <= 0 || maxBytes > |bytes| {
      return 0;
    }
    var prefix := bytes[..maxBytes];
    var blank := AllBlank(prefix);
    if !blank {
      return 0;
    }
    n := RuneCount(prefix, s[..maxBytes]);
  }

  lemma {:induction false} FirstLineIsPrefix(s: string)
    ensures FirstLine(s) <= s && '\n' !in FirstLine(s)
    ensures |FirstLine(s)| < |s| ==> s[|FirstLine(s)|] == '\n'
  {
    if s != "" && s[0] != '\n' {
      FirstLineIsPrefix(s[1..]);
      assert s == [s[0]] + s[1..];
    }
  }

  /** The separator of a token: what precedes the first occurrence of its value in its first
      line, if that is white space. */
  function Width(tk: TokenData): (n: nat)
    ensures n <= |TrimSuffix(tk.origin, '\n')|
  {
    FirstLineIsPrefix(tk.origin);
    var firstLine := FirstLine(tk.origin);
    var k := FirstMatch(firstLine, tk.value, 0);
    if k > 0 && Blank(firstLine[..k]) then k else 0
  }

  /** The white space before the byte offset of the value is the separator. */
  lemma {:induction false} LeadingIsWidth(tk: TokenData)
    ensures Leading(TrimSuffix(tk.origin, '\n'), ValueOffset(tk)) == Width(tk)
  {
    var n := Leading(TrimSuffix(tk.origin, '\n'), ValueOffset(tk));
    if n > 0 {
      WidthIsBlankBeforeValue(tk, n);
    }
    if Width(tk) > 0 {
      WidthIsBlankBeforeValue(tk, Width(tk));
    }
  }

  /** There are n characters of white space before the byte offset of the value exactly when it
      first occurs n characters into the first line and only white space precedes it there. */
  lemma {:induction false} WidthIsBlankBeforeValue(tk: TokenData, n: nat)
    requires n > 0
    ensures var firstLine := FirstLine(tk.origin);
            Leading(TrimSuffix(tk.origin, '\n'), ValueOffset(tk)) == n <==>
            FirstMatch(firstLine, tk.value, 0) == n && Blank(firstLine[..n])
  {
    var firstLine, text := FirstLine(tk.origin), TrimSuffix(tk.origin, '\n');
    FirstLineIsPrefix(tk.origin);
    FirstMatchIsFirst(firstLine, tk.value, 0);
    BlankInFirstLine(text, firstLine, n);
    if tk.value != "" && firstLine != "" {
      assert firstLine[..0] == "" && EncodeAll(firstLine)[0..] == EncodeAll(firstLine);
      IndexIsFirstMatch(firstLine, tk.value, 0);
      BlankPrefix(firstLine, n);
      var k := FirstMatch(firstLine, tk.value, 0);
      if k != -1 && n <= |firstLine| {
        OffsetOrder(firstLine, k, n);
        OffsetOrder(firstLine, n, k);
      }
    }
  }

  lemma {:induction false} BlankInFirstLine(text: string, firstLine: string, n: nat)
    requires firstLine <= text && (|firstLine| < |text| ==> text[|firstLine|] == '\n')
    ensures n <= |text| && Blank(text[..n]) <==> n <= |firstLine| && Blank(firstLine[..n])
  {
    if n <= |firstLine| {
      assert text[..n] == firstLine[..n];
    } else if n <= |text| {
      assert text[..n][|firstLine|] == '\n';
    }
  }
}
