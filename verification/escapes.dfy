/** What the two ways of quoting a string are for: the hash form is as short as JSON allows, and the form of
    encoding/json is safe inside HTML and JavaScript. */
module Escapes {
  import opened Json
  import opened Canonical
  import Decoded

  // ----- The shortest literal -----

  lemma AsciiTail(s: string, n: nat)
    requires ValidUtf8(s) && n <= |s| && forall k | 0 <= k < n :: s[k] < '\U{80}'
    ensures ValidUtf8(s[n..])
    decreases n
  {
    hide RuneSize;
    if n > 0 {
      assert RuneSize(s) == 1;
      AsciiTail(s[1..], n - 1);
      assert s[1..][n - 1..] == s[n..];
    } else {
      assert s[0..] == s;
    }
  }

  lemma HexAscii(c: char)
    ensures HexValue(c).Some? ==> c < '\U{80}'
  {
  }

  lemma Hex4Ascii(s: string)
    requires Hex4(s).Some?
    ensures forall k | 0 <= k < 4 :: s[k] < '\U{80}'
  {
    hide HexValue;
    forall k | 0 <= k < 4 ensures s[k] < '\U{80}' { HexAscii(s[k]); }
  }

  lemma EscapeSize(c: char)
    requires c < '\U{80}'
    ensures |EscapeAscii(ArgsHash, c)| <= 6
    ensures SimpleEscape(c).Some? ==> |EscapeAscii(ArgsHash, SimpleEscape(c).value)| <= 2
    ensures c >= ' ' && c != '\"' && c != '\\' ==> EscapeAscii(ArgsHash, c) == [c]
  {
  }

  lemma RuneHead(t: string, u: string)
    requires t != "" && RuneSize(t) == |t|
    ensures Escape(ArgsHash, t + u) == EscapeHead(ArgsHash, t) + Escape(ArgsHash, u)
    ensures t[0] >= '\U{80}' ==> EscapeHead(ArgsHash, t) == t
  {
    var s := t + u;
    assert RuneSize(s) == |t| && s[..|t|] == t && s[|t|..] == u;
    assert t[..|t|] == t;
  }

  lemma EncodeRuneOne(r: nat)
    requires r < 0x110000 && !(0xD800 <= r < 0xE000)
    ensures EncodeRune(r) != "" && RuneSize(EncodeRune(r)) == |EncodeRune(r)|
  {
    hide EncodeRune, RuneSize;
    if r < 0x800 {
      EncodeShort(r);
    } else if r < 0x10000 {
      EncodeThree(r);
    } else {
      EncodeFour(r);
    }
  }

  lemma EncodeShort(r: nat)
    requires r < 0x800
    ensures EncodeRune(r) != "" && RuneSize(EncodeRune(r)) == |EncodeRune(r)|
  {
    hide RuneSize;
    Decoded.ShortRune(if r < 0x80 then 0 else r / 64, if r < 0x80 then r else r % 64);
  }

  lemma EncodeThree(r: nat)
    requires 0x800 <= r < 0x10000 && !(0xD800 <= r < 0xE000)
    ensures EncodeRune(r) != "" && RuneSize(EncodeRune(r)) == |EncodeRune(r)|
  {
    hide RuneSize;
    var a, b, c := r / 4096, r / 64 % 64, r % 64;
    assert r == 4096 * a + 64 * b + c;
    Decoded.ThreeByteRune(a, b, c);
  }

  lemma EncodeFour(r: nat)
    requires 0x10000 <= r < 0x110000
    ensures EncodeRune(r) != "" && RuneSize(EncodeRune(r)) == |EncodeRune(r)|
  {
    hide RuneSize;
    FourParts(r);
    Decoded.FourByteRune(r / 262144, r / 4096 % 64, r / 64 % 64, r % 64);
  }

  lemma FourParts(r: nat)
    requires 0x10000 <= r < 0x110000
    ensures var a, b := r / 262144, r / 4096 % 64;
            a < 5 && (a == 0 ==> b >= 16) && (a == 4 ==> b < 16)
  {
    assert r / 4096 == 64 * (r / 262144) + r / 4096 % 64;
  }

  /** What one piece of a literal decodes to, printed again, is no longer than the piece. */
  lemma PieceShortest(s: string)
    requires ValidUtf8(s) && s != "" && s[0] != '\"' && StringPiece(s).Some?
    ensures var (t, n) := StringPiece(s).value;
            t != "" && RuneSize(t) == |t| && |EscapeHead(ArgsHash, t)| <= n && ValidUtf8(s[n..])
  {
    hide RuneSize, UnescapeUnicode, SimpleEscape, EscapeAscii, EscapeHead;
    if s[0] != '\\' {
      RuneItself(s);
    } else if s[1] == 'u' {
      UnicodeShortest(s);
    } else {
      SimpleShortest(s);
    }
  }

  lemma RuneItself(s: string)
    requires ValidUtf8(s) && s != "" && s[0] != '\"' && s[0] != '\\' && s[0] >= ' '
    ensures var t := s[..RuneSize(s)];
            RuneSize(s) > 0 && RuneSize(t) == |t| && |EscapeHead(ArgsHash, t)| <= |t| && ValidUtf8(s[RuneSize(s)..])
  {
    var t := s[..RuneSize(s)];
    assert t + s[RuneSize(s)..] == s;
    assert RuneSize(t) == |t|;
    RuneHead(t, "");
    if s[0] < '\U{80}' { EscapeSize(s[0]); }
  }

  lemma SimpleShortest(s: string)
    requires ValidUtf8(s) && |s| >= 2 && s[0] == '\\' && SimpleEscape(s[1]).Some?
    ensures var t := [SimpleEscape(s[1]).value];
            RuneSize(t) == 1 && |EscapeHead(ArgsHash, t)| <= 2 && ValidUtf8(s[2..])
  {
    hide EscapeAscii, RuneSize;
    assert s[1] < '\U{80}' && SimpleEscape(s[1]).value < '\U{80}';
    assert RuneSize([SimpleEscape(s[1]).value]) == 1;
    EscapeSize(s[1]);
    AsciiTail(s, 2);
  }

  lemma UnicodeShortest(s: string)
    requires ValidUtf8(s) && |s| >= 2 && s[0] == '\\' && s[1] == 'u' && UnescapeUnicode(s[2..]).Some?
    ensures var (t, n) := UnescapeUnicode(s[2..]).value;
            t != "" && RuneSize(t) == |t| && |EscapeHead(ArgsHash, t)| <= n + 2 && ValidUtf8(s[n + 2..])
  {
    hide EscapeAscii, RuneSize, Hex4, EncodeRune, EscapeHead;
    var u := s[2..];
    var (t, n) := UnescapeUnicode(u).value;
    Hex4Ascii(u);
    if n == 10 { Hex4Ascii(u[6..]); }
    assert forall k | 2 <= k < n + 2 :: s[k] == u[k - 2];
    AsciiTail(s, n + 2);
    UnicodeRune(u);
  }

  lemma ReplacementRune()
    ensures RuneSize(REPLACEMENT) == |REPLACEMENT| == 3
  {
  }

  lemma UnicodeRune(u: string)
    requires UnescapeUnicode(u).Some?
    ensures var (t, n) := UnescapeUnicode(u).value;
            t != "" && RuneSize(t) == |t| && |EscapeHead(ArgsHash, t)| <= 6
  {
    hide EscapeAscii, RuneSize, Hex4, EncodeRune;
    var r := Hex4(u).value;
    var (t, n) := UnescapeUnicode(u).value;
    if !(0xD800 <= r < 0xE000) {
      EncodeRuneOne(r);
    } else if n == 10 {
      EncodeRuneOne(0x10000 + (r - 0xD800) * 1024 + (Hex4(u[6..]).value - 0xDC00));
    } else {
      ReplacementRune();
    }
    RuneHead(t, "");
    if t[0] < '\U{80}' { EscapeSize(t[0]); }
  }

  /** No string literal in UTF-8 is shorter than the one written for the hash: the section 3.2.2.2 of RFC 8785. */
  lemma {:induction false} Shortest(s: string)
    requires ValidUtf8(s) && ParseString(s).Some?
    ensures var (text, rest) := ParseString(s).value;
            |Escape(ArgsHash, text)| + 1 + |rest| <= |s|
    decreases |s|
  {
    hide StringPiece, EscapeHead, RuneSize, ValidUtf8;
    if s[0] != '\"' {
      var (t, n) := StringPiece(s).value;
      PieceShortest(s);
      Shortest(s[n..]);
      RuneHead(t, ParseString(s[n..]).value.0);
    }
  }

  // ----- Safe inside HTML -----

  lemma AsciiSafe(c: char)
    requires c < '\U{80}'
    ensures forall x | x in EscapeAscii(GoMarshal, c) :: x < '\U{80}' && x != '<' && x != '>' && x != '&'
  {
  }

  lemma HeadSafe(s: string, rest: string)
    requires s != ""
    ensures var e := EscapeHead(GoMarshal, s);
            '<' !in e && '>' !in e && '&' !in e
            && forall k | 0 <= k < |e| :: !(LINE_SEPARATOR <= (e + rest)[k..]) && !(PARAGRAPH_SEPARATOR <= (e + rest)[k..])
  {
    hide EscapeAscii;
    if s[0] < '\U{80}' {
      AsciiSafe(s[0]);
      var e := EscapeAscii(GoMarshal, s[0]);
      forall k | 0 <= k < |e| ensures (e + rest)[k..][0] == e[k] && e[k] in e {}
    } else if RuneSize(s) != 0 {
      RuneSafe(s[..RuneSize(s)], rest);
    }
  }

  lemma RuneSafe(t: string, rest: string)
    requires t != "" && RuneSize(t) == |t| && t[0] >= '\U{80}'
    ensures '<' !in t && '>' !in t && '&' !in t
    ensures t != LINE_SEPARATOR && t != PARAGRAPH_SEPARATOR ==>
              forall k | 0 <= k < |t| :: !(LINE_SEPARATOR <= (t + rest)[k..]) && !(PARAGRAPH_SEPARATOR <= (t + rest)[k..])
  {
    assert forall k | 0 <= k < |t| :: (t + rest)[k..][0] == t[k] >= '\U{80}';
    if t[0] == '\U{E2}' && |t| == 3 {
      assert t == [t[0], t[1], t[2]] && (t + rest)[0..] == t + rest;
    }
  }

  /** A quoted string holds none of the characters that end a script or open a tag, and neither U+2028 nor
      U+2029, which end a line in JavaScript. */
  lemma {:induction false} ScriptSafe(s: string)
    ensures var e := Escape(GoMarshal, s);
            '<' !in e && '>' !in e && '&' !in e
            && forall k | 0 <= k < |e| :: !("\U{E2}\U{80}\U{A8}" <= e[k..]) && !("\U{E2}\U{80}\U{A9}" <= e[k..])
    decreases |s|
  {
    hide EscapeHead, HeadSize;
    if s != "" {
      var e, rest := EscapeHead(GoMarshal, s), Escape(GoMarshal, s[HeadSize(s)..]);
      HeadSafe(s, rest);
      ScriptSafe(s[HeadSize(s)..]);
      forall k | |e| <= k < |e + rest| ensures (e + rest)[k..] == rest[k - |e|..] {}
    }
  }
}
