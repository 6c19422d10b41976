/** pkg/agent/memory.go: the format of MEMORY.md, its parser, and the cached reading of it. */
module Memory {
  import opened Json
  import opened GoStrings
  import Compression

  // ----- More of the strings package -----

  /** strings.Split for a non-empty separator. */
  function SplitOn(s: string, sep: string): seq<string>
    requires sep != ""
    decreases |s|
  {
    var i := Index(s, sep);
    if i < 0 then [s] else [s[..i]] + SplitOn(s[i + |sep|..], sep)
  }

  function TokenEnd(s: string): (n: nat)
    ensures n <= |s|
  {
    if s == "" || LeadingSpace(s) > 0 then 0 else 1 + TokenEnd(s[1..])
  }

  /** strings.Fields. */
  function Fields(s: string): seq<string>
    decreases |s|
  {
    var t := TrimLeft(s);
    if t == "" || TokenEnd(t) == 0 then [] else [t[..TokenEnd(t)]] + Fields(t[TokenEnd(t)..])
  }

  function StripNul(s: string): string {
    if s == "" then "" else (if s[0] == '\0' then "" else [s[0]]) + StripNul(s[1..])
  }

  predicate Visible(c: char) {
    '!' <= c <= '~'
  }

  lemma {:induction false} VisibleNoSpace(s: string, from: nat)
    requires s != "" && Visible(s[0])
    ensures LeadingSpace(s, from) == 0
    decreases |SPACES| - from
  {
    if from < |SPACES| {
      VisibleNoSpace(s, from + 1);
    }
  }

  /** A text with no trailing space has none behind a newline either. */
  lemma {:induction false} NoSpaceBehind(a: string, s: string, from: nat)
    requires s != "" && TrailingSpace(s, from) == 0
    ensures TrailingSpace(a + "\n" + s, from) == 0
    decreases |SPACES| - from
  {
    if from < |SPACES| {
      var sp, t := SPACES[from], a + "\n" + s;
      NotSuffix(a, s, sp);
      NoSpaceBehind(a, s, from + 1);
    }
  }

  lemma NotSuffix(a: string, s: string, sp: string)
    requires s != "" && sp != "" && !HasSuffix(s, sp) && (|sp| > 1 ==> '\n' !in sp)
    ensures !HasSuffix(a + "\n" + s, sp)
  {
    var t := a + "\n" + s;
    if |sp| <= |s| {
      assert t[|t| - |sp|..] == s[|s| - |sp|..];
    } else if |sp| <= |t| {
      assert t[|t| - |sp|..][|sp| - |s| - 1] == '\n';
    }
  }

  /** An occurrence, character by character. */
  lemma OccursChar(s: string, sub: string, k: int, x: nat)
    ensures Occurs(s, sub, k) && x < |sub| ==> 0 <= k && k + x < |s| && s[k + x] == sub[x]
  {
    if Occurs(s, sub, k) && x < |sub| { assert s[k..k + |sub|][x] == s[k + x]; }
  }

  lemma {:induction false} LeadingOfPrefix(r: string, t: string, from: nat)
    requires r <= t && LeadingSpace(t, from) == 0
    ensures LeadingSpace(r, from) == 0
    decreases |SPACES| - from
  {
    if from < |SPACES| {
      LeadingOfPrefix(r, t, from + 1);
    }
  }

  lemma TrimmedTrim(s: string)
    ensures Trimmed(TrimSpace(s))
  {
    TrimLeftBack(s);
    TrimRightFront(TrimLeft(s));
    LeadingOfPrefix(TrimSpace(s), TrimLeft(s), 0);
  }

  lemma NewlineLeads(s: string)
    ensures LeadingSpace("\n" + s) == 1 && TrailingSpace(s + "\n") == 1
    ensures TrimLeft("\n" + s) == TrimLeft(s) && TrimRight(s + "\n") == TrimRight(s)
  {
    var a, b := "\n" + s, s + "\n";
    assert a[0] == '\n' && SPACES[0][0] == ' ' && SPACES[1][0] == '\t';
    assert !(SPACES[0] <= a) && !(SPACES[1] <= a) && SPACES[2] <= a;
    assert LeadingSpace(a, 2) == 1 && LeadingSpace(a, 1) == 1;
    assert b[|b| - 1..] == "\n";
    assert !HasSuffix(b, SPACES[0]) && !HasSuffix(b, SPACES[1]) && HasSuffix(b, SPACES[2]);
    assert TrailingSpace(b, 2) == 1 && TrailingSpace(b, 1) == 1;
    assert a[1..] == s && b[..|b| - 1] == s;
  }

  // ----- Entries -----

  /** A long-term entry; the zero time is None. */
  datatype Entry = Entry(timestamp: Option<string>, category: string, content: string)

  /** time.Parse of the entry layout, as the text of the time in that layout. */
  type Clock = string -> Option<string>

  const CATEGORIES := {"key_decision", "reference", "lesson_learned"}

  const LEGACY := "legacy"

  const SEPARATOR := "<!-- next -->"

  const MAX_RUNES := 4096

  /** What AppendLongTerm accepts. */
  predicate Acceptable(content: string, category: string) {
    var trimmed := TrimSpace(StripNul(content));
    category in CATEGORIES && trimmed != "" && Compression.RuneCount(trimmed) <= MAX_RUNES && Index(trimmed, "<!--") < 0
  }

  /** In plain words: one of three categories, and a text that is not blank once its NUL bytes and the space
      around it are gone, of at most 4096 runes, in which no comment begins. */
  lemma AcceptableExactly(content: string, category: string)
    ensures Acceptable(content, category) <==>
              (category == "key_decision" || category == "reference" || category == "lesson_learned")
              && TrimSpace(StripNul(content)) != "" && Compression.RuneCount(TrimSpace(StripNul(content))) <= 4096
              && forall k :: !Occurs(TrimSpace(StripNul(content)), "<!--", k)
  {
    hide TrimSpace, StripNul, Occurs;
    var trimmed := TrimSpace(StripNul(content));
    assert Index(trimmed, "<!--") >= 0 ==> Occurs(trimmed, "<!--", Index(trimmed, "<!--"));
  }

  lemma {:induction false} StripNulConcat(a: string, b: string)
    ensures StripNul(a + b) == StripNul(a) + StripNul(b)
    decreases |a|
  {
    if a == "" {
      assert "" + b == b;
    } else {
      assert (a + b)[0] == a[0] && (a + b)[1..] == a[1..] + b;
      StripNulConcat(a[1..], b);
    }
  }

  lemma {:induction false} NothingToStrip(s: string)
    requires '\0' !in s
    ensures StripNul(s) == s
    decreases |s|
  {
    if s != "" {
      assert s == [s[0]] + s[1..];
      NothingToStrip(s[1..]);
    }
  }

  /** Only the NUL bytes go, wherever they stand, and the rest keeps its order. */
  lemma StripNulKeeps(a: string, b: string)
    ensures StripNul(a + "\0" + b) == StripNul(a + b) == StripNul(a) + StripNul(b)
    ensures '\0' !in a ==> StripNul(a) == a
  {
    hide StripNul;
    OneNul();
    StripNulConcat(a, b);
    StripNulConcat(a, "\0");
    StripNulConcat(a + "\0", b);
    if '\0' !in a { NothingToStrip(a); }
  }

  lemma OneNul()
    ensures StripNul("\0") == ""
  {
  }

  function Header(ts: string, category: string): string {
    "<!-- ts=" + ts + " cat=" + category + " -->"
  }

  function Body(e: Entry): string {
    Header(if e.timestamp.Some? then e.timestamp.value else "", e.category) + "\n" + e.content
  }

  function Appended(file: string, e: Entry): string {
    (if file == "" then "" else file + SEPARATOR + "\n\n") + Body(e) + "\n"
  }

  // ----- The parser -----

  /** The last readable time and the last category of the header fields. */
  function ScanFields(clock: Clock, fields: seq<string>): (Option<string>, string) {
    if fields == [] then (None, "")
    else
      var n := |fields| - 1;
      var (ts, cat) := ScanFields(clock, fields[..n]);
      var f := fields[n];
      (if "ts=" <= f && clock(f[3..]).Some? then clock(f[3..]) else ts, if "cat=" <= f then f[4..] else cat)
  }

  /** parseEntryBlock. */
  function EntryOf(clock: Clock, block: string): Option<Entry> {
    var end := Index(block, "-->");
    if !("<!--" <= block) || end < 0 then None
    else if end < 4 then None
    else
      var (ts, cat) := ScanFields(clock, Fields(TrimSpace(block[4..end])));
      if ts.None? && cat == "" then None else Some(Entry(ts, cat, TrimSpace(block[end + 3..])))
  }

  /** On a block like "<!-->" the source slices block[4:2] and panics; callers must not pass one. */
  predicate Sliceable(block: string) {
    "<!--" <= block && Index(block, "-->") >= 0 ==> Index(block, "-->") >= 4
  }

  /** Those are exactly the blocks in which the end of the comment overlaps its beginning. */
  lemma SliceableExactly(block: string)
    ensures Sliceable(block) <==> !("<!-->" <= block) && !("<!--->" <= block)
  {
    hide Index;
    var r := Index(block, "-->");
    if "<!-->" <= block {
      assert block[2..5] == "-->";
      assert Occurs(block, "-->", 2);
    } else if "<!--->" <= block {
      assert block[3..6] == "-->";
      assert Occurs(block, "-->", 3);
    } else if "<!--" <= block && 0 <= r < 4 {
      OccursChar(block, "-->", r, 0);
      OccursChar(block, "-->", r, 1);
      OccursChar(block, "-->", r, 2);
      CommentStart(block, r);
    }
  }

  /** Where an arrow may stand early in a block that opens a comment. */
  lemma CommentStart(block: string, r: nat)
    requires "<!--" <= block && r < 4 && r + 3 <= |block|
    ensures block[r] == '-' && block[r + 1] == '-' && block[r + 2] == '>' ==> "<!-->" <= block || "<!--->" <= block
  {
    if r == 2 && block[4] == '>' {
      assert block[..5] == "<!-->";
    } else if r == 3 && block[4] == '-' && block[5] == '>' {
      assert block[..6] == "<!--->";
    }
  }

  method ParseEntryBlock(clock: Clock, block: string) returns (r: Option<Entry>)
    requires Sliceable(block)
    ensures r == EntryOf(clock, block)
  {
    hide Fields, TrimSpace, Index;
    if !("<!--" <= block) {
      return None;
    }
    var headerEnd := Index(block, "-->");
    if headerEnd < 0 {
      return None;
    }
    var fields := Fields(TrimSpace(block[4..headerEnd]));
    var ts: Option<string> := None;
    var category := "";
    assert fields[..0] == [];
    for i := 0 to |fields|
      invariant (ts, category) == ScanFields(clock, fields[..i])
    {
      assert fields[..i + 1][..i] == fields[..i];
      var field := fields[i];
      if "ts=" <= field {
        var parsed := clock(field[3..]);
        if parsed.Some? {
          ts := parsed;
        }
      }
      if "cat=" <= field {
        category := field[4..];
      }
    }
    assert fields[..|fields|] == fields;
    if ts.None? && category == "" {
      return None;
    }
    r := Some(Entry(ts, category, TrimSpace(block[headerEnd + 3..])));
  }

  /** The entries of the blocks, and whether no block so far had a header. */
  function ReadBlocks(clock: Clock, blocks: seq<string>, mtime: string): (seq<Entry>, bool) {
    if blocks == [] then ([], true)
    else
      var n := |blocks| - 1;
      var (es, legacy) := ReadBlocks(clock, blocks[..n], mtime);
      var block := TrimSpace(blocks[n]);
      if block == "" then (es, legacy)
      else if EntryOf(clock, block).Some? then (es + [EntryOf(clock, block).value], false)
      else if legacy then (es + [Entry(Some(mtime), LEGACY, block)], true)
      else (es, false)
  }

  /** parseLongTermEntries. */
  function Parse(clock: Clock, content: string, mtime: string): seq<Entry> {
    var trimmed := TrimSpace(content);
    if trimmed == "" then [] else ReadBlocks(clock, SplitOn(trimmed, SEPARATOR), mtime).0
  }

  predicate Readable(content: string) {
    forall b | b in SplitOn(TrimSpace(content), SEPARATOR) :: Sliceable(TrimSpace(b))
  }

  method ParseLongTermEntries(clock: Clock, content: string, mtime: string) returns (entries: seq<Entry>)
    requires Readable(content)
    ensures entries == Parse(clock, content, mtime)
  {
    hide TrimSpace, SplitOn, EntryOf, Sliceable;
    var trimmed := TrimSpace(content);
    if trimmed == "" {
      return [];
    }
    var blocks := SplitOn(trimmed, SEPARATOR);
    entries := [];
    var isLegacy := true;
    assert blocks[..0] == [];
    for i := 0 to |blocks|
      invariant (entries, isLegacy) == ReadBlocks(clock, blocks[..i], mtime)
    {
      assert blocks[..i + 1][..i] == blocks[..i];
      var block := TrimSpace(blocks[i]);
      if block == "" {
        continue;
      }
      assert blocks[i] in blocks;
      var entry := ParseEntryBlock(clock, block);
      if entry.Some? {
        isLegacy := false;
        entries := entries + [entry.value];
      } else if isLegacy {
        entries := entries + [Entry(Some(mtime), LEGACY, block)];
      }
    }
    assert blocks[..|blocks|] == blocks;
  }

  /** Which blocks give entries: those that are not blank and have a header, or stand before every block
      with one; a block without a header is a legacy entry with the file's mtime and all its text. */
  lemma {:induction false} BlocksPicked(clock: Clock, blocks: seq<string>, mtime: string) returns (picked: seq<nat>)
    ensures var (es, legacy) := ReadBlocks(clock, blocks, mtime);
            |picked| == |es|
            && (legacy <==> forall j | 0 <= j < |blocks| :: EntryOf(clock, TrimSpace(blocks[j])).None?)
            && (forall k | 0 <= k < |picked| ::
                  picked[k] < |blocks|
                  && es[k] == match EntryOf(clock, TrimSpace(blocks[picked[k]]))
                              case Some(e) => e
                              case None => Entry(Some(mtime), "legacy", TrimSpace(blocks[picked[k]])))
            && (forall j, k | 0 <= j < k < |picked| :: picked[j] < picked[k])
            && forall i: nat | i < |blocks| ::
                 i in picked <==> Speaks(clock, blocks, i)
    decreases |blocks|
  {
    hide TrimSpace, EntryOf;
    BlankHasNoHeader(clock);
    picked := [];
    if blocks != [] {
      var n := |blocks| - 1;
      picked := BlocksPicked(clock, blocks[..n], mtime);
      assert forall i | 0 <= i < n :: blocks[..n][i] == blocks[i];
      forall i: nat | i < n ensures Speaks(clock, blocks[..n], i) <==> Speaks(clock, blocks, i) {
      }
      assert forall i: nat | i < n :: i in picked <==> Speaks(clock, blocks, i);
      if Speaks(clock, blocks, n) {
        ghost var before := picked;
        picked := picked + [n];
        assert forall i: nat | i < n :: i in picked <==> i in before;
        assert picked[|before|] == n;
      }
    }
  }

  predicate Speaks(clock: Clock, blocks: seq<string>, i: nat)
    requires i < |blocks|
  {
    TrimSpace(blocks[i]) != ""
    && (EntryOf(clock, TrimSpace(blocks[i])).Some? || forall j | 0 <= j < i :: EntryOf(clock, TrimSpace(blocks[j])).None?)
  }

  lemma BlankHasNoHeader(clock: Clock)
    ensures EntryOf(clock, "") == None
  {
  }

  /** A block with a header is read by its fields: the time is the last one that is a time, the category the
      last one given; one of them is enough, and what is behind the header is the text. */
  lemma HeaderReads(clock: Clock, block: string)
    requires "<!--" <= block && Index(block, "-->") >= 4
    ensures var end := Index(block, "-->");
            var fields := Fields(TrimSpace(block[4..end]));
            match EntryOf(clock, block)
            case Some(e) =>
              e.content == TrimSpace(block[end + 3..]) && LastTime(clock, fields, e.timestamp) && LastCategory(fields, e.category)
              && (e.timestamp.Some? || e.category != "")
            case None => LastTime(clock, fields, None) && LastCategory(fields, "")
  {
    hide TrimSpace, Index, Fields, LastTime, LastCategory;
    LastFields(clock, Fields(TrimSpace(block[4..Index(block, "-->")])));
  }

  predicate Timed(clock: Clock, field: string) {
    "ts=" <= field && clock(field[3..]).Some?
  }

  /** ts is the time of the last field that has one. */
  predicate LastTime(clock: Clock, fields: seq<string>, ts: Option<string>) {
    match ts
    case None => forall k | 0 <= k < |fields| :: !Timed(clock, fields[k])
    case Some(_) =>
      exists k :: 0 <= k < |fields| && Timed(clock, fields[k]) && ts == clock(fields[k][3..])
                  && forall j | k < j < |fields| :: !Timed(clock, fields[j])
  }

  /** category is that of the last field that gives one, or empty. */
  predicate LastCategory(fields: seq<string>, category: string) {
    (category == "" && forall k | 0 <= k < |fields| :: !("cat=" <= fields[k]))
    || exists k :: 0 <= k < |fields| && fields[k] == "cat=" + category && forall j | k < j < |fields| :: !("cat=" <= fields[j])
  }

  lemma LastTimeSnoc(clock: Clock, fields: seq<string>, f: string, ts: Option<string>)
    requires LastTime(clock, fields, ts)
    ensures LastTime(clock, fields + [f], if Timed(clock, f) then clock(f[3..]) else ts)
  {
    var all := fields + [f];
    assert all[|fields|] == f && forall k | 0 <= k < |fields| :: all[k] == fields[k];
  }

  lemma LastCategorySnoc(fields: seq<string>, f: string, category: string)
    requires LastCategory(fields, category)
    ensures LastCategory(fields + [f], if "cat=" <= f then f[4..] else category)
  {
    var all := fields + [f];
    assert all[|fields|] == f && forall k | 0 <= k < |fields| :: all[k] == fields[k];
    if "cat=" <= f { assert f == "cat=" + f[4..]; }
  }

  lemma {:induction false} LastFields(clock: Clock, fields: seq<string>)
    ensures LastTime(clock, fields, ScanFields(clock, fields).0) && LastCategory(fields, ScanFields(clock, fields).1)
    decreases |fields|
  {
    hide LastTime, LastCategory;
    if fields == [] {
      NoFields(clock);
    } else {
      var n := |fields| - 1;
      var (ts, category) := ScanFields(clock, fields[..n]);
      LastFields(clock, fields[..n]);
      LastTimeSnoc(clock, fields[..n], fields[n], ts);
      LastCategorySnoc(fields[..n], fields[n], category);
      assert fields == fields[..n] + [fields[n]];
    }
  }

  lemma NoFields(clock: Clock)
    ensures LastTime(clock, [], None) && LastCategory([], "")
  {
  }

  /** A file written by hand, without separators and not starting with a comment, is one legacy entry. */
  lemma HandWritten(clock: Clock, content: string, mtime: string)
    requires TrimSpace(content) != "" && !("<!--" <= TrimSpace(content))
    requires forall k :: !Occurs(TrimSpace(content), "<!-- next -->", k)
    ensures Parse(clock, content, mtime) == [Entry(Some(mtime), "legacy", TrimSpace(content))]
  {
    hide Parse, SplitOn, ReadBlocks, EntryOf, TrimSpace, Occurs, Trimmed;
    TrimmedTrim(content);
    TrimmedFixed(TrimSpace(content));
    OnePiece(TrimSpace(content));
    OneLegacyBlock(clock, TrimSpace(content), mtime);
    ParseOnePiece(clock, content, mtime);
  }

  lemma ParseOnePiece(clock: Clock, content: string, mtime: string)
    requires TrimSpace(content) != "" && SplitOn(TrimSpace(content), SEPARATOR) == [TrimSpace(content)]
    ensures Parse(clock, content, mtime) == ReadBlocks(clock, [TrimSpace(content)], mtime).0
  {
    hide SplitOn, ReadBlocks, TrimSpace;
  }

  lemma TrimmedFixed(t: string)
    requires Trimmed(t)
    ensures TrimSpace(t) == t
  {
    hide LeadingSpace, TrailingSpace;
  }

  lemma OnePiece(t: string)
    requires forall k :: !Occurs(t, SEPARATOR, k)
    ensures SplitOn(t, SEPARATOR) == [t]
  {
    hide Index, Occurs;
    assert Index(t, SEPARATOR) < 0;
  }

  lemma OneLegacyBlock(clock: Clock, t: string, mtime: string)
    requires TrimSpace(t) == t && t != "" && !("<!--" <= t)
    ensures ReadBlocks(clock, [t], mtime) == ([Entry(Some(mtime), "legacy", t)], true)
  {
    hide TrimSpace, Index, ScanFields, Fields;
    assert EntryOf(clock, t) == None;
    assert [t][..0] == [] && ReadBlocks(clock, [t][..0], mtime) == ([], true);
    var e := Entry(Some(mtime), LEGACY, t);
    assert ReadBlocks(clock, [t], mtime) == ([] + [e], true);
    assert [] + [e] == [e];
  }

  // ----- The store -----

  function Reversed(es: seq<Entry>): seq<Entry> {
    seq(|es|, i requires 0 <= i < |es| => es[|es| - 1 - i])
  }

  /** Positions before i and behind j are reversed, the others as they were. */
  predicate HalfReversed(es: seq<Entry>, r: seq<Entry>, i: nat, j: int) {
    && j == |es| - 1 - i && |r| == |es| && i <= j + 1
    && (forall k | 0 <= k < i :: r[k] == es[|es| - 1 - k])
    && (forall k | j < k < |es| :: r[k] == es[|es| - 1 - k])
    && (forall k | i <= k <= j :: r[k] == es[k])
  }

  /** The in-place reversal of the parsed entries. */
  method Reverse(es: seq<Entry>) returns (r: seq<Entry>)
    ensures r == Reversed(es)
  {
    r := es;
    var i, j := 0, |es| - 1;
    while i < j
      invariant 0 <= i && HalfReversed(es, r, i, j)
    {
      r := r[i := r[j]][j := r[i]];
      i, j := i + 1, j - 1;
    }
  }

  class Store {
    const clock: Clock
    var file: Option<string>
    var mtime: nat
    var cache: seq<Entry>
    var cacheMtime: Option<nat>

    constructor (clock: Clock)
      ensures this.clock == clock && file == None && cacheMtime == None && cache == [] && mtime == 0
    {
      this.clock := clock;
      file, mtime, cache, cacheMtime := None, 0, [], None;
    }

    /** AppendLongTerm; ts is the time of the entry and now the mtime the write gives the file. */
    method AppendLongTerm(content: string, category: string, ts: string, now: nat) returns (ok: bool)
      modifies this`file, this`mtime
      ensures ok <==> Acceptable(content, category)
      ensures !ok ==> file == old(file) && mtime == old(mtime)
      ensures ok ==> mtime == now
                     && file == Some(Appended(if old(file).Some? then old(file).value else "",
                                              Entry(Some(ts), category, TrimSpace(StripNul(content)))))
    {
      hide TrimSpace, StripNul, Index;
      if category !in CATEGORIES {
        return false;
      }
      var trimmed := TrimSpace(StripNul(content));
      if trimmed == "" {
        return false;
      }
      if Compression.RuneCount(trimmed) > MAX_RUNES {
        return false;
      }
      if Index(trimmed, "<!--") >= 0 {
        return false;
      }
      var text := if file.Some? then file.value else "";
      var needsSeparator := file.Some? && |file.value| > 0;
      if needsSeparator {
        text := text + (SEPARATOR + "\n\n");
      }
      text := text + (Header(ts, category) + "\n" + trimmed + "\n");
      assert text == Appended(if file.Some? then file.value else "", Entry(Some(ts), category, trimmed)) by {
        var e, f := Entry(Some(ts), category, trimmed), if file.Some? then file.value else "";
        assert f + (SEPARATOR + "\n\n") == f + SEPARATOR + "\n\n";
        assert Header(ts, category) + "\n" + trimmed + "\n" == Body(e) + "\n";
        assert text == (if f == "" then "" else f + SEPARATOR + "\n\n") + (Body(e) + "\n");
      }
      file, mtime := Some(text), now;
      ok := true;
    }

    /** What ReadLongTermEntries is to return, newest first; stamp is the file's mtime as a time. */
    function Fresh(stamp: nat -> string): seq<Entry>
      reads this
    {
      if file.None? then [] else Reversed(Parse(clock, file.value, stamp(mtime)))
    }

    /** The cache holds what the file held when its mtime was cacheMtime. */
    predicate CacheValid(stamp: nat -> string)
      reads this
    {
      cacheMtime.Some? ==> cacheMtime.value <= mtime && (cacheMtime.value == mtime ==> cache == Fresh(stamp))
    }

    method ReadLongTermEntries(stamp: nat -> string) returns (entries: seq<Entry>)
      requires file.Some? ==> Readable(file.value)
      modifies this`cache, this`cacheMtime
      ensures file.None? ==> entries == [] && cache == old(cache) && cacheMtime == old(cacheMtime)
      ensures file.Some? && old(cacheMtime).Some? && mtime <= old(cacheMtime).value ==>
                entries == old(cache) && cache == old(cache) && cacheMtime == old(cacheMtime)
      ensures file.Some? && !(old(cacheMtime).Some? && mtime <= old(cacheMtime).value) ==>
                entries == Fresh(stamp) && cache == entries && cacheMtime == Some(mtime)
      ensures old(CacheValid(stamp)) && file.Some? ==> entries == Fresh(stamp) && CacheValid(stamp)
    {
      hide Parse, Readable;
      if file.None? {
        return [];
      }
      if cacheMtime.Some? && !(mtime > cacheMtime.value) {
        return cache;
      }
      var parsed := ParseLongTermEntries(clock, file.value, stamp(mtime));
      entries := Reverse(parsed);
      cache, cacheMtime := entries, Some(mtime);
    }
  }

  // ----- The budget -----

  const MIN_ENTRIES := 10


  function Sum(sizes: seq<nat>): nat {
    if sizes == [] then 0 else Sum(sizes[..|sizes| - 1]) + sizes[|sizes| - 1]
  }

  /** buildBudgetedMemoryText takes a newest part of the entries: at least the ten newest, within the
      budget if it is longer, and as long as that allows. */
  method BuildBudgeted(sizes: seq<nat>, budget: int) returns (n: nat)
    ensures n <= |sizes| && (n == |sizes| || n >= MIN_ENTRIES)
    ensures n > MIN_ENTRIES ==> Sum(sizes[..n]) <= budget
    ensures n < |sizes| ==> Sum(sizes[..n + 1]) > budget
  {
    n := 0;
    var runeCount := 0;
    assert sizes[..0] == [];
    while n < |sizes|
      invariant n <= |sizes| && runeCount == Sum(sizes[..n])
      invariant n > MIN_ENTRIES ==> runeCount <= budget
    {
      assert sizes[..n + 1][..n] == sizes[..n];
      if n < MIN_ENTRIES {
        runeCount := runeCount + sizes[n];
      } else if runeCount + sizes[n] <= budget {
        runeCount := runeCount + sizes[n];
      } else {
        break;
      }
      n := n + 1;
    }
  }
}
