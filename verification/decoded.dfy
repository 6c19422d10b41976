/** What the decoder returns and what the printer writes are always well-formed. */
module Decoded {
  import opened Json
  import opened Canonical
  import opened Braces
  import RoundTrip

  // ----- Decoded strings are UTF-8 -----

  lemma RuneSizeFront(a: string, b: string)
    requires a != "" && RuneSize(a) > 0
    ensures RuneSize(a + b) == RuneSize(a)
  {
  }

  lemma {:induction false} Utf8Concat(a: string, b: string)
    requires ValidUtf8(a) && ValidUtf8(b)
    ensures ValidUtf8(a + b)
    decreases |a|
  {
    hide RuneSize;
    if a == "" {
      assert a + b == b;
    } else {
      var n := RuneSize(a);
      RuneSizeFront(a, b);
      assert (a + b)[n..] == a[n..] + b;
      Utf8Concat(a[n..], b);
    }
  }

  lemma OneRune(t: string)
    requires t != "" && RuneSize(t) == |t|
    ensures ValidUtf8(t)
  {
    assert t[|t|..] == "";
  }

  lemma EncodeRuneValid(r: nat)
    requires r < 0x110000 && !(0xD800 <= r < 0xE000)
    ensures ValidUtf8(EncodeRune(r))
  {
    hide ValidUtf8, RuneSize;
    var t := EncodeRune(r);
    if r < 0x80 {
      ShortRune(0, r);
    } else if r < 0x800 {
      ShortRune(r / 64, r % 64);
    } else if r < 0x10000 {
      assert r / 64 % 64 == r / 64 - 64 * (r / 4096);
      ThreeByteRune(r / 4096, r / 64 % 64, r % 64);
    } else {
      FourByteRune(r / 262144, r / 4096 % 64, r / 64 % 64, r % 64);
    }
    OneRune(t);
  }

  lemma ShortRune(a: nat, b: nat)
    ensures a == 0 && b < 128 ==> RuneSize([b as char]) == 1
    ensures 2 <= a < 32 && b < 64 ==> RuneSize([(0xC0 + a) as char, (0x80 + b) as char]) == 2
  {
  }

  lemma ThreeByteRune(a: nat, b: nat, c: nat)
    requires a < 16 && b < 64 && c < 64 && (a == 0 ==> b >= 32) && (a == 13 ==> b < 32)
    ensures RuneSize([(0xE0 + a) as char, (0x80 + b) as char, (0x80 + c) as char]) == 3
  {
  }

  lemma FourByteRune(a: nat, b: nat, c: nat, d: nat)
    requires a < 5 && b < 64 && c < 64 && d < 64 && (a == 0 ==> b >= 16) && (a == 4 ==> b < 16)
    ensures RuneSize([(0xF0 + a) as char, (0x80 + b) as char, (0x80 + c) as char, (0x80 + d) as char]) == 4
  {
  }

  lemma ReplacementValid()
    ensures ValidUtf8(REPLACEMENT)
  {
    assert RuneSize(REPLACEMENT) == 3;
    OneRune(REPLACEMENT);
  }

  lemma PieceValid(s: string)
    requires s != "" && s[0] != '\"' && StringPiece(s).Some?
    ensures ValidUtf8(StringPiece(s).value.0)
  {
    hide ValidUtf8, EncodeRune, Hex4, HexValue;
    ReplacementValid();
    if s[0] == '\\' {
      if s[1] == 'u' {
        UnicodeValid(s[2..]);
      } else {
        AsciiValid(SimpleEscape(s[1]).value);
      }
    } else if RuneSize(s) != 0 {
      PlainValid(s);
    }
  }

  lemma AsciiValid(c: char)
    requires c < '\U{80}'
    ensures ValidUtf8([c])
  {
    OneRune([c]);
  }

  lemma PlainValid(s: string)
    requires s != "" && RuneSize(s) != 0
    ensures ValidUtf8(s[..RuneSize(s)])
  {
    var t := s[..RuneSize(s)];
    assert forall k | 0 <= k < |t| :: t[k] == s[k];
    assert RuneSize(t) == |t|;
    OneRune(t);
  }

  lemma UnicodeValid(u: string)
    requires UnescapeUnicode(u).Some?
    ensures ValidUtf8(UnescapeUnicode(u).value.0)
  {
    hide ValidUtf8, EncodeRune, Hex4, HexValue;
    ReplacementValid();
    var r := Hex4(u).value;
    if !(0xD800 <= r < 0xE000) {
      EncodeRuneValid(r);
    } else if UnescapeUnicode(u).value.1 == 10 {
      EncodeRuneValid(0x10000 + (r - 0xD800) * 1024 + (Hex4(u[6..]).value - 0xDC00));
    }
  }

  lemma {:induction false} StringValid(s: string)
    requires ParseString(s).Some?
    ensures ValidUtf8(ParseString(s).value.0)
    decreases |s|
  {
    hide StringPiece;
    if s[0] != '\"' {
      var (t, n) := StringPiece(s).value;
      PieceValid(s);
      StringValid(s[n..]);
      Utf8Concat(t, ParseString(s[n..]).value.0);
    }
  }

  // ----- Decoded documents are clean -----

  lemma NumberClean(s: string, rest: string)
    requires s != "" && NumStart(s[0]).Some? && ScanNumber(NumStart(s[0]).value, s[1..]) == Some(rest)
    ensures |rest| <= |s| && ValidNumber(s[..|s| - |rest|])
  {
    hide ScanNumber, NumStart;
    var c := NumberRead(NumStart(s[0]).value, s[1..]);
    assert s[1..] == c + rest;
    var t := s[..|s| - |rest|];
    assert t[0] == s[0] && t[1..] == c;
  }

  lemma {:induction false} ValueClean(s: string)
    requires ParseValue(s).Some?
    ensures Clean(ParseValue(s).value.0)
    decreases |s|, 1
  {
    hide ParseString, ParseItems, ParseFields, ScanNumber, NumStart, ValidUtf8, ValidNumber;
    if "null" <= s || "true" <= s || "false" <= s {
    } else if s[0] == '\"' {
      StringValid(s[1..]);
    } else if s[0] == '[' {
      if ParseItems(SkipSpace(s[1..])).Some? { ItemsClean(SkipSpace(s[1..])); }
    } else if s[0] == '{' {
      if ParseFields(map[], SkipSpace(s[1..])).Some? { FieldsClean(map[], SkipSpace(s[1..])); }
    } else {
      NumberClean(s, ParseValue(s).value.1);
    }
  }

  lemma {:induction false} ItemsClean(s: string)
    requires ParseItems(s).Some?
    ensures forall v | v in ParseItems(s).value.0 :: Clean(v)
    decreases |s|, 2
  {
    hide ParseValue, SkipSpace, Clean;
    ValueClean(s);
    var t := SkipSpace(ParseValue(s).value.1);
    if t[0] == ',' { ItemsClean(SkipSpace(t[1..])); }
  }

  lemma {:induction false} FieldsClean(acc: map<string, Value>, s: string)
    requires ParseFields(acc, s).Some? && Clean(Obj(acc))
    ensures Clean(Obj(ParseFields(acc, s).value.0))
    decreases |s|, 2
  {
    hide ParseValue, ParseString, SkipSpace, ValidUtf8;
    var (k, afterKey) := ParseString(s[1..]).value;
    StringValid(s[1..]);
    var valueText := SkipSpace(SkipSpace(afterKey)[1..]);
    ValueClean(valueText);
    var (v, rest) := ParseValue(valueText).value;
    var t := SkipSpace(rest);
    if t[0] == ',' { FieldsClean(acc[k := v], SkipSpace(t[1..])); }
  }

  lemma CleanRemove(m: map<string, Value>, ks: set<string>)
    requires Clean(Obj(m))
    ensures Clean(Obj(m - ks))
  {
  }

  // ----- Printed documents are single lines -----

  predicate Printable(s: string) {
    forall c | c in s :: c >= ' '
  }

  lemma PrintableConcat(a: string, b: string)
    ensures Printable(a + b) <==> Printable(a) && Printable(b)
  {
    assert forall c :: c in a + b <==> c in a || c in b;
  }

  lemma HeadPrintable(style: Style, s: string)
    requires s != ""
    ensures Printable(EscapeHead(style, s))
  {
    if s[0] < '\U{80}' {
      AsciiPrintable(style, s[0]);
    } else if RuneSize(s) != 0 {
      assert forall k | 0 <= k < RuneSize(s) :: s[k] >= '\U{80}';
    }
  }

  lemma AsciiPrintable(style: Style, c: char)
    requires c < '\U{80}'
    ensures Printable(EscapeAscii(style, c))
  {
  }

  lemma {:induction false} EscapePrintable(style: Style, s: string)
    ensures Printable(Escape(style, s))
    decreases |s|
  {
    hide EscapeHead, HeadSize;
    if s != "" {
      HeadPrintable(style, s);
      EscapePrintable(style, s[HeadSize(s)..]);
      PrintableConcat(EscapeHead(style, s), Escape(style, s[HeadSize(s)..]));
    }
  }

  lemma QuotePrintable(style: Style, s: string)
    ensures Printable(Quote(style, s))
  {
    hide Escape;
    EscapePrintable(style, s);
    PrintableConcat("\"", Escape(style, s));
    PrintableConcat("\"" + Escape(style, s), "\"");
  }

  lemma {:induction false} NumberPrintable(q: NumState, t: string)
    requires ScanNumber(q, t) == Some("")
    ensures Printable(t)
    decreases |t|
  {
    if t != "" && NumStep(q, t[0]).Some? {
      NumberPrintable(NumStep(q, t[0]).value, t[1..]);
      assert t == [t[0]] + t[1..];
    }
  }

  lemma DigitPrintable(t: string)
    requires t != "" && NumStart(t[0]).Some? && Printable(t[1..])
    ensures Printable(t)
  {
    assert t == [t[0]] + t[1..];
  }

  lemma WordsPrintable()
    ensures Printable("null") && Printable("true") && Printable("false")
    ensures Printable("") && Printable(",") && Printable(":")
  {
  }

  lemma {:induction false} PrintPrintable(style: Style, v: Value)
    requires Clean(v)
    ensures Printable(Print(style, v))
    decreases v, 1, 0
  {
    hide Escape, PrintItems, PrintFields, ScanNumber, Printable;
    match v {
      case Null => WordsPrintable();
      case Bool(b) => WordsPrintable();
      case Num(t) =>
        NumberPrintable(NumStart(t[0]).value, t[1..]);
        DigitPrintable(t);
      case Str(s) => QuotePrintable(style, s);
      case Arr(xs) =>
        ItemsPrintable(style, xs);
        Enclosed("[", PrintItems(style, xs), "]");
      case Obj(m) =>
        var ks := SortedKeys(m.Keys);
        assert forall k | k in ks :: k in KeySet(ks);
        FieldsPrintable(style, v, ks);
        Enclosed("{", PrintFields(style, v, ks), "}");
    }
  }

  lemma Enclosed(open: string, s: string, close: string)
    requires Printable(s) && (open + close == "[]" || open + close == "{}") && |open| == 1
    ensures Printable(open + s + close)
  {
    assert forall c :: c in open + s + close <==> c in open || c in s || c in close;
    assert open == [(open + close)[0]] && close == [(open + close)[1]];
  }

  lemma {:induction false} ItemsPrintable(style: Style, xs: seq<Value>)
    requires forall x | x in xs :: Clean(x)
    ensures Printable(PrintItems(style, xs))
    decreases xs, 0, |xs|
  {
    hide Print, Clean, Printable;
    if xs == [] {
      WordsPrintable();
    } else {
      PrintPrintable(style, xs[0]);
      var p := Print(style, xs[0]);
      if |xs| == 1 {
        assert PrintItems(style, xs) == p;
      } else {
        ItemsPrintable(style, xs[1..]);
        WordsPrintable();
        PrintableConcat(",", PrintItems(style, xs[1..]));
        PrintableConcat(p, "," + PrintItems(style, xs[1..]));
      }
    }
  }

  lemma {:induction false} FieldsPrintable(style: Style, v: Value, ks: seq<string>)
    requires v.Obj? && Clean(v) && forall k | k in ks :: k in v.fields
    ensures Printable(PrintFields(style, v, ks))
    decreases v, 0, |ks|
  {
    hide Print, Quote, Printable;
    if ks == [] {
      WordsPrintable();
    } else {
      var k, x := ks[0], v.fields[ks[0]];
      QuotePrintable(style, k);
      PrintPrintable(style, x);
      WordsPrintable();
      PrintableConcat(Quote(style, k), ":");
      PrintableConcat(Quote(style, k) + ":", Print(style, x));
      if |ks| > 1 {
        FieldsPrintable(style, v, ks[1..]);
        PrintableConcat(",", PrintFields(style, v, ks[1..]));
        PrintableConcat(PrintField(style, k, x), "," + PrintFields(style, v, ks[1..]));
      } else {
        assert PrintFields(style, v, ks) == PrintField(style, k, x);
      }
    }
  }
}
