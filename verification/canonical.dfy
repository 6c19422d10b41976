/** The two canonical JSON printers of the audit package: argshash.go's canonicalEncode (RFC 8785
    section 3.2 over RFC 8259 escapes) and hmac.go's canonicalMarshal, which quotes strings the
    way encoding/json does.  Both print objects with their keys in byte order. */
module Canonical {
  import opened Json

  datatype Style = ArgsHash | GoMarshal

  // ----- Key order -----

  /** Byte-wise lexicographic order, as sort.Strings uses it. */
  predicate Leq(a: string, b: string) {
    a == "" || (b != "" && (a[0] < b[0] || (a[0] == b[0] && Leq(a[1..], b[1..]))))
  }

  lemma {:induction false} LeqTotal(a: string, b: string)
    ensures Leq(a, b) || Leq(b, a)
    ensures Leq(a, b) && Leq(b, a) ==> a == b
  {
    if a != "" && b != "" && a[0] == b[0] {
      LeqTotal(a[1..], b[1..]);
      assert a == [a[0]] + a[1..] && b == [b[0]] + b[1..];
    }
  }

  lemma {:induction false} LeqTransitive(a: string, b: string, c: string)
    requires Leq(a, b) && Leq(b, c)
    ensures Leq(a, c)
  {
    if a != "" && a[0] == b[0] == c[0] {
      LeqTransitive(a[1..], b[1..], c[1..]);
    }
  }

  /** Strictly increasing: sorted and without repetition. */
  ghost predicate Increasing(ks: seq<string>) {
    forall i, j | 0 <= i < j < |ks| :: Leq(ks[i], ks[j]) && ks[i] != ks[j]
  }

  ghost function KeySet(ks: seq<string>): set<string> {
    set k | k in ks
  }

  /** The place of k in a sorted list. */
  function Insert(k: string, ks: seq<string>): (r: seq<string>)
  {
    if ks == [] || Leq(k, ks[0]) then [k] + ks else [ks[0]] + Insert(k, ks[1..])
  }

  lemma {:induction false} InsertIncreasing(k: string, ks: seq<string>)
    requires Increasing(ks) && k !in ks
    ensures Increasing(Insert(k, ks))
    ensures KeySet(Insert(k, ks)) == KeySet(ks) + {k}
    decreases |ks|
  {
    hide Leq, KeySet;
    if ks == [] {
      FirstIncreasing(k, ks);
    } else if Leq(k, ks[0]) {
      forall j | 0 <= j < |ks| ensures Leq(k, ks[j]) {
        if j > 0 { LeqTransitive(k, ks[0], ks[j]); }
      }
      FirstIncreasing(k, ks);
    } else {
      LeqTotal(k, ks[0]);
      InsertIncreasing(k, ks[1..]);
      MemberOrNew(k, ks[1..]);
      FirstIncreasing(ks[0], Insert(k, ks[1..]));
      FirstIncreasing(ks[0], ks[1..]);
      assert ks == [ks[0]] + ks[1..];
    }
  }

  lemma MemberOrNew(k: string, ks: seq<string>)
    ensures KeySet(Insert(k, ks)) == KeySet(ks) + {k} ==> forall x | x in Insert(k, ks) :: x == k || x in ks
  {
    forall x | x in Insert(k, ks) && KeySet(Insert(k, ks)) == KeySet(ks) + {k} ensures x == k || x in ks {
      assert x in KeySet(Insert(k, ks));
    }
  }

  lemma FirstIncreasing(k: string, ks: seq<string>)
    ensures KeySet([k] + ks) == KeySet(ks) + {k}
    ensures Increasing(ks) && (forall x | x in ks :: Leq(k, x) && k != x) ==> Increasing([k] + ks)
  {
    hide Leq;
  }

  lemma KeySetEmpty(ks: seq<string>)
    ensures ks == [] <==> KeySet(ks) == {}
  {
    if ks != [] { assert ks[0] in KeySet(ks); }
  }

  /** Two strictly increasing lists of the same keys are the same list. */
  lemma {:induction false} IncreasingUnique(a: seq<string>, b: seq<string>)
    requires Increasing(a) && Increasing(b) && KeySet(a) == KeySet(b)
    ensures a == b
  {
    KeySetEmpty(a);
    KeySetEmpty(b);
    if a != [] && b != [] {
      assert a[0] in KeySet(b) && b[0] in KeySet(a);
      assert a[0] == b[0] by {
        LeqTotal(a[0], b[0]);
        var i :| 0 <= i < |b| && b[i] == a[0];
        var j :| 0 <= j < |a| && a[j] == b[0];
      }
      assert KeySet(a[1..]) == KeySet(a) - {a[0]} by { assert a == [a[0]] + a[1..]; }
      assert KeySet(b[1..]) == KeySet(b) - {b[0]} by { assert b == [b[0]] + b[1..]; }
      IncreasingUnique(a[1..], b[1..]);
      assert a == [a[0]] + a[1..] && b == [b[0]] + b[1..];
    }
  }

  /** The keys of an object in byte order. */
  ghost function SortedKeys(ks: set<string>): (r: seq<string>)
    ensures Increasing(r) && KeySet(r) == ks
  {
    if ks == {} then []
    else
      var k :| k in ks;
      var t := SortedKeys(ks - {k});
      InsertIncreasing(k, t);
      Insert(k, t)
  }

  // ----- Strings -----

  function HexDigit(n: nat): char
    requires n < 16
  {
    "0123456789abcdef"[n]
  }

  /** How one ASCII byte is written inside a string literal. */
  function EscapeAscii(style: Style, c: char): string
    requires c < '\U{80}'
  {
    if c == '\"' then "\\\""
    else if c == '\\' then "\\\\"
    else if c == '\U{8}' then "\\b"
    else if c == '\U{C}' then "\\f"
    else if c == '\n' then "\\n"
    else if c == '\r' then "\\r"
    else if c == '\t' then "\\t"
    else if c < ' ' || (style.GoMarshal? && (c == '<' || c == '>' || c == '&')) then
      "\\u00" + [HexDigit(c as nat / 16), HexDigit(c as nat % 16)]
    else [c]
  }

  const LINE_SEPARATOR := "\U{E2}\U{80}\U{A8}"
  const PARAGRAPH_SEPARATOR := "\U{E2}\U{80}\U{A9}"

  /** How the first rune of s is written; bytes that are not UTF-8 are written as U+FFFD. */
  function EscapeHead(style: Style, s: string): string
    requires s != ""
  {
    if s[0] < '\U{80}' then EscapeAscii(style, s[0])
    else if RuneSize(s) == 0 then "\\ufffd"
    else
      var rune := s[..RuneSize(s)];
      if style.GoMarshal? && rune == LINE_SEPARATOR then "\\u2028"
      else if style.GoMarshal? && rune == PARAGRAPH_SEPARATOR then "\\u2029"
      else rune
  }

  function HeadSize(s: string): (n: nat)
    requires s != ""
    ensures 1 <= n <= |s|
  {
    if RuneSize(s) == 0 then 1 else RuneSize(s)
  }

  function Escape(style: Style, s: string): string {
    if s == "" then "" else EscapeHead(style, s) + Escape(style, s[HeadSize(s)..])
  }

  function Quote(style: Style, s: string): string {
    "\"" + Escape(style, s) + "\""
  }

  // ----- Documents -----

  ghost function Print(style: Style, v: Value): string
    decreases v, 1, 0
  {
    match v
    case Null => "null"
    case Bool(b) => if b then "true" else "false"
    case Num(text) => text
    case Str(s) => Quote(style, s)
    case Arr(xs) => "[" + PrintItems(style, xs) + "]"
    case Obj(m) => "{" + PrintFields(style, v, SortedKeys(m.Keys)) + "}"
  }

  ghost function PrintItems(style: Style, xs: seq<Value>): string
    decreases xs, 0, |xs|
  {
    if xs == [] then ""
    else Print(style, xs[0]) + (if |xs| == 1 then "" else "," + PrintItems(style, xs[1..]))
  }

  ghost function PrintField(style: Style, k: string, v: Value): string
    decreases v, 2, 0
  {
    Quote(style, k) + ":" + Print(style, v)
  }

  /** The members of object v with the keys ks, in that order. */
  ghost function PrintFields(style: Style, v: Value, ks: seq<string>): string
    requires v.Obj? && forall k | k in ks :: k in v.fields
    decreases v, 0, |ks|
  {
    if ks == [] then ""
    else PrintField(style, ks[0], v.fields[ks[0]])
         + (if |ks| == 1 then "" else "," + PrintFields(style, v, ks[1..]))
  }

  /** What the decoder can produce: numbers with JSON syntax and strings that are UTF-8. */
  predicate ValidNumber(t: string) {
    t != "" && NumStart(t[0]).Some? && ScanNumber(NumStart(t[0]).value, t[1..]) == Some("")
  }

  ghost predicate Clean(v: Value) {
    match v
    case Null => true
    case Bool(_) => true
    case Num(text) => ValidNumber(text)
    case Str(s) => ValidUtf8(s)
    case Arr(xs) => forall x | x in xs :: Clean(x)
    case Obj(m) => forall k | k in m :: ValidUtf8(k) && Clean(m[k])
  }
}
