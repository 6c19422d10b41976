/** JSON texts as Go's encoding/json reads them (RFC 8259).  A Go string or byte slice is
    modelled as a Dafny string with one character per byte. */
module Json {

  datatype Option<+T> = None | Some(value: T)

  /** A decoded document.  Numbers keep their text, as json.Decoder.UseNumber does. */
  datatype Value =
    | Null
    | Bool(b: bool)
    | Num(text: string)
    | Str(s: string)
    | Arr(items: seq<Value>)
    | Obj(fields: map<string, Value>)

  // ----- UTF-8 -----

  predicate Between(c: char, lo: char, hi: char) {
    lo <= c <= hi
  }

  /** Length of the UTF-8 sequence at the head of s, and 0 where utf8.DecodeRuneInString reports
      an encoding error. */
  function RuneSize(s: string): (n: nat)
    requires s != ""
    ensures n <= 4 && n <= |s|
    ensures n == 1 <==> s[0] < '\U{80}'
    ensures forall k | 1 <= k < n :: '\U{80}' <= s[k] <= '\U{BF}'
  {
    var c := s[0];
    if c < '\U{80}' then 1
    else if Between(c, '\U{C2}', '\U{DF}') then
      if |s| >= 2 && Continues(s[1]) then 2 else 0
    else if Between(c, '\U{E0}', '\U{EF}') then
      var lo := if c == '\U{E0}' then '\U{A0}' else '\U{80}';
      var hi := if c == '\U{ED}' then '\U{9F}' else '\U{BF}';
      if |s| >= 3 && Between(s[1], lo, hi) && Continues(s[2]) then 3 else 0
    else if Between(c, '\U{F0}', '\U{F4}') then
      var lo := if c == '\U{F0}' then '\U{90}' else '\U{80}';
      var hi := if c == '\U{F4}' then '\U{8F}' else '\U{BF}';
      if |s| >= 4 && Between(s[1], lo, hi) && Continues(s[2]) && Continues(s[3]) then 4 else 0
    else 0
  }

  predicate Continues(c: char) {
    Between(c, '\U{80}', '\U{BF}')
  }

  predicate ValidUtf8(s: string) {
    s == "" || (RuneSize(s) > 0 && ValidUtf8(s[RuneSize(s)..]))
  }

  const REPLACEMENT := "\U{EF}\U{BF}\U{BD}"

  function EncodeRune(r: nat): string
    requires r < 0x110000
  {
    if r < 0x80 then [r as char]
    else if r < 0x800 then [(0xC0 + r / 64) as char, (0x80 + r % 64) as char]
    else if r < 0x10000 then
      [(0xE0 + r / 4096) as char, (0x80 + r / 64 % 64) as char, (0x80 + r % 64) as char]
    else
      [(0xF0 + r / 262144) as char, (0x80 + r / 4096 % 64) as char, (0x80 + r / 64 % 64) as char, (0x80 + r % 64) as char]
  }

  // ----- Lexical pieces -----

  predicate IsSpace(c: char) {
    c == ' ' || c == '\t' || c == '\n' || c == '\r'
  }

  function SkipSpace(s: string): (r: string)
    ensures |r| <= |s|
  {
    if s != "" && IsSpace(s[0]) then SkipSpace(s[1..]) else s
  }

  /** The states of the number scanner after its first byte. */
  datatype NumState = Neg | Zero | Whole | Dot | Frac | Exp | ExpSign | ExpDigits

  predicate IsDigit(c: char) {
    '0' <= c <= '9'
  }

  function NumStart(c: char): Option<NumState> {
    if c == '-' then Some(Neg) else if c == '0' then Some(Zero) else if IsDigit(c) then Some(Whole) else None
  }

  function NumStep(q: NumState, c: char): Option<NumState> {
    match q
    case Neg => if c == '0' then Some(Zero) else if IsDigit(c) then Some(Whole) else None
    case Zero => if c == '.' then Some(Dot) else if c == 'e' || c == 'E' then Some(Exp) else None
    case Whole => if IsDigit(c) then Some(Whole) 
      else if c == '.' then Some(Dot) else if c == 'e' || c == 'E' then Some(Exp) else None
    case Dot => if IsDigit(c) then Some(Frac) else None
    case Frac => if IsDigit(c) then Some(Frac) else if c == 'e' || c == 'E' then Some(Exp) else None
    case Exp => if c == '+' || c == '-' then Some(ExpSign) else if IsDigit(c) then Some(ExpDigits) else None
    case ExpSign => if IsDigit(c) then Some(ExpDigits) else None
    case ExpDigits => if IsDigit(c) then Some(ExpDigits) else None
  }

  predicate NumDone(q: NumState) {
    q.Zero? || q.Whole? || q.Frac? || q.ExpDigits?
  }

  /** Longest number from state q: what follows it, if the scanner stops in a final state. */
  function ScanNumber(q: NumState, s: string): (r: Option<string>)
    ensures r.Some? ==> |r.value| <= |s|
    decreases |s|
  {
    if s != "" && NumStep(q, s[0]).Some? then ScanNumber(NumStep(q, s[0]).value, s[1..])
    else if NumDone(q) then Some(s)
    else None
  }

  function HexValue(c: char): Option<nat> {
    if IsDigit(c) then Some(c as nat - '0' as nat)
    else if 'a' <= c <= 'f' then Some(10 + c as nat - 'a' as nat)
    else if 'A' <= c <= 'F' then Some(10 + c as nat - 'A' as nat)
    else None
  }

  /** The four hexadecimal digits of a \u escape at the head of s (the bytes after "\u"). */
  function Hex4(s: string): (r: Option<nat>)
    ensures r.Some? ==> r.value < 0x10000 && |s| >= 4
  {
    if |s| < 4 then None
    else
      var a, b, c, d := HexValue(s[0]), HexValue(s[1]), HexValue(s[2]), HexValue(s[3]);
      if a.Some? && b.Some? && c.Some? && d.Some? && a.value < 16 && b.value < 16 && c.value < 16 && d.value < 16
      then Some(4096 * a.value + 256 * b.value + 16 * c.value + d.value)
      else None
  }

  /** One \u escape (s starts just after "\u"): the bytes it stands for and how many bytes of s it
      uses.  A high surrogate joins a following low surrogate; a lone surrogate becomes U+FFFD. */
  function UnescapeUnicode(s: string): (r: Option<(string, nat)>)
    ensures r.Some? ==> 4 <= r.value.1 <= |s|
  {
    match Hex4(s)
    case None => None
    case Some(u) =>
      if !(0xD800 <= u < 0xE000) then Some((EncodeRune(u), 4))
      else if u < 0xDC00 && |s| >= 10 && s[4] == '\\' && s[5] == 'u' && Hex4(s[6..]).Some?
              && 0xDC00 <= Hex4(s[6..]).value < 0xE000 then
        Some((EncodeRune(0x10000 + (u - 0xD800) * 1024 + (Hex4(s[6..]).value - 0xDC00)), 10))
      else Some((REPLACEMENT, 4))
  }

  function SimpleEscape(c: char): Option<char> {
    match c
    case '\"' => Some('\"')
    case '\\' => Some('\\')
    case '/' => Some('/')
    case 'b' => Some('\U{8}')
    case 'f' => Some('\U{C}')
    case 'n' => Some('\n')
    case 'r' => Some('\r')
    case 't' => Some('\t')
    case _ => None
  }

  /** The first piece of a string body: the bytes it decodes to and the bytes it takes up. */
  function StringPiece(s: string): (r: Option<(string, nat)>)
    requires s != "" && s[0] != '\"'
    ensures r.Some? ==> 1 <= r.value.1 <= |s|
  {
    var c := s[0];
    if c < ' ' then None
    else if c == '\\' then
      if |s| < 2 then None
      else if s[1] == 'u' then
        match UnescapeUnicode(s[2..])
        case Some((t, n)) => Some((t, n + 2))
        case None => None
      else
        match SimpleEscape(s[1])
        case Some(d) => Some(([d], 2))
        case None => None
    else if RuneSize(s) == 0 then Some((REPLACEMENT, 1))
    else Some((s[..RuneSize(s)], RuneSize(s)))
  }

  /** A string literal from just after its opening quote: its contents and the text after it. */
  function ParseString(s: string): (r: Option<(string, string)>)
    ensures r.Some? ==> |r.value.1| < |s|
  {
    if s == "" then None
    else if s[0] == '\"' then Some(("", s[1..]))
    else
      match StringPiece(s)
      case None => None
      case Some((t, n)) =>
        match ParseString(s[n..])
        case None => None
        case Some((u, rest)) => Some((t + u, rest))
  }

  // ----- Documents -----

  /** One value at the head of s (no leading white space) and the text after it. */
  function ParseValue(s: string): (r: Option<(Value, string)>)
    ensures r.Some? ==> |r.value.1| < |s|
    decreases |s|, 0
  {
    if s == "" then None
    else if "null" <= s then Some((Null, s[4..]))
    else if "true" <= s then Some((Bool(true), s[4..]))
    else if "false" <= s then Some((Bool(false), s[5..]))
    else if s[0] == '\"' then
      match ParseString(s[1..])
      case Some((t, rest)) => Some((Str(t), rest))
      case None => None
    else if s[0] == '[' then
      var t := SkipSpace(s[1..]);
      if t != "" && t[0] == ']' then Some((Arr([]), t[1..]))
      else
        match ParseItems(t)
        case Some((xs, rest)) => Some((Arr(xs), rest))
        case None => None
    else if s[0] == '{' then
      var t := SkipSpace(s[1..]);
      if t != "" && t[0] == '}' then Some((Obj(map[]), t[1..]))
      else
        match ParseFields(map[], t)
        case Some((m, rest)) => Some((Obj(m), rest))
        case None => None
    else
      match NumStart(s[0])
      case None => None
      case Some(q) =>
        match ScanNumber(q, s[1..])
        case Some(rest) => Some((Num(s[..|s| - |rest|]), rest))
        case None => None
  }

  /** The items of an array from the first one to the closing bracket. */
  function ParseItems(s: string): (r: Option<(seq<Value>, string)>)
    ensures r.Some? ==> |r.value.1| < |s|
    decreases |s|, 1
  {
    match ParseValue(s)
    case None => None
    case Some((v, rest)) =>
      var t := SkipSpace(rest);
      if t == "" then None
      else if t[0] == ']' then Some(([v], t[1..]))
      else if t[0] == ',' then
        match ParseItems(SkipSpace(t[1..]))
        case Some((vs, end)) => Some(([v] + vs, end))
        case None => None
      else None
  }

  /** The members of an object from the first key to the closing brace, added to acc in textual
      order: a repeated key keeps its last value. */
  function ParseFields(acc: map<string, Value>, s: string): (r: Option<(map<string, Value>, string)>)
    ensures r.Some? ==> |r.value.1| < |s|
    decreases |s|, 1
  {
    if s == "" || s[0] != '\"' then None
    else
      match ParseString(s[1..])
      case None => None
      case Some((k, afterKey)) =>
        var colon := SkipSpace(afterKey);
        if colon == "" || colon[0] != ':' then None
        else
          match ParseValue(SkipSpace(colon[1..]))
          case None => None
          case Some((v, rest)) =>
            var t := SkipSpace(rest);
            if t == "" then None
            else if t[0] == '}' then Some((acc[k := v], t[1..]))
            else if t[0] == ',' then ParseFields(acc[k := v], SkipSpace(t[1..]))
            else None
  }

  /** json.Decoder.Decode: the first value of s; whatever follows it is not looked at. */
  function DecodeFirst(s: string): Option<Value> {
    match ParseValue(SkipSpace(s))
    case Some((v, _)) => Some(v)
    case None => None
  }

  /** json.Unmarshal: s is one value with nothing but white space around it. */
  function DecodeWhole(s: string): Option<Value> {
    match ParseValue(SkipSpace(s))
    case Some((v, rest)) => if SkipSpace(rest) == "" then Some(v) else None
    case None => None
  }
}
