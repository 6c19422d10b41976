/** MEMORY.md, written and read back: the format of AppendLongTerm against the parser. */
module MemoryFormat {
  import opened Json
  import opened GoStrings
  import opened Memory

  // ----- Appending and parsing -----

  /** An entry that AppendLongTerm can write: an accepted text, trimmed, with a time that reads back. */
  predicate Writable(clock: Clock, e: Entry) {
    && e.timestamp.Some? && clock(e.timestamp.value) == Some(e.timestamp.value)
    && e.timestamp.value != "" && (forall c | c in e.timestamp.value :: Visible(c) && c != '<' && c != '>')
    && e.category in CATEGORIES
    && e.content != "" && Trimmed(e.content) && Index(e.content, "<!--") < 0
  }

  predicate AllWritable(clock: Clock, es: seq<Entry>) {
    forall e | e in es :: Writable(clock, e)
  }

  /** The file after appending these entries to an empty one. */
  function FileOf(es: seq<Entry>): string {
    if es == [] then "" else Appended(FileOf(es[..|es| - 1]), es[|es| - 1])
  }

  lemma AcceptedIsWritable(clock: Clock, content: string, category: string, ts: string)
    requires Acceptable(content, category) && TimeReads(clock, ts)
    ensures Writable(clock, Entry(Some(ts), category, TrimSpace(StripNul(content))))
  {
    hide TrimSpace, Trimmed, Index;
    TrimmedTrim(StripNul(content));
  }

  lemma CategoriesPlain(category: string)
    requires category in CATEGORIES
    ensures category != "" && forall c | c in category :: Visible(c) && c != '<' && c != '>'
  {
  }

  // The header, read back.

  lemma HeaderEnd(ts: string, category: string, rest: string)
    requires forall c | c in ts :: c != '<' && c != '>'
    requires forall c | c in category :: c != '<' && c != '>'
    ensures Index(Header(ts, category) + rest, "-->") == |Header(ts, category)| - 3
  {
    hide Index;
    var h := Header(ts, category);
    var s := h + rest;
    assert s[|h| - 3..|h|] == "-->";
    assert Occurs(s, "-->", |h| - 3);
    forall k | 0 <= k < |h| - 3 ensures !Occurs(s, "-->", k) {
      HeaderInside(ts, category, k + 2);
      OccursChar(s, "-->", k, 2);
      assert s[k + 2] == h[k + 2];
    }
  }

  /** No bracket inside a header but its first and last character. */
  lemma HeaderInside(ts: string, category: string, k: nat)
    requires forall c | c in ts :: c != '<' && c != '>'
    requires forall c | c in category :: c != '<' && c != '>'
    requires 0 < k < |Header(ts, category)| - 1
    ensures Header(ts, category)[k] != '<' && Header(ts, category)[k] != '>'
  {
    var a, b := 8 + |ts|, 8 + |ts| + 5 + |category|;
    var h := Header(ts, category);
    if k < 8 {
      assert h[k] == "<!-- ts="[k];
    } else if k < a {
      assert h[k] == ts[k - 8] && ts[k - 8] in ts;
    } else if k < a + 5 {
      assert h[k] == " cat="[k - a];
    } else if k < b {
      assert h[k] == category[k - a - 5] && category[k - a - 5] in category;
    } else {
      assert h[k] == " -->"[k - b];
    }
  }

  lemma {:induction false} TokenOf(p: string, rest: string)
    requires (forall c | c in p :: Visible(c)) && (rest != "" ==> rest[0] == ' ')
    ensures TokenEnd(p + rest) == |p|
    decreases |p|
  {
    if p == "" {
      assert p + rest == rest;
      if rest != "" { assert SPACES[0] <= rest; }
    } else {
      assert p[0] in p && forall c | c in p[1..] :: c in p;
      assert (p + rest)[0] == p[0] && (p + rest)[1..] == p[1..] + rest;
      VisibleNoSpace(p + rest, 0);
      TokenOf(p[1..], rest);
    }
  }

  lemma VisibleTrim(s: string)
    requires s != "" && Visible(s[0])
    ensures TrimLeft(s) == s
  {
    VisibleNoSpace(s, 0);
  }

  lemma SpaceTrim(s: string)
    ensures TrimLeft(" " + s) == TrimLeft(s) && TrimRight(s + " ") == TrimRight(s)
  {
    var a, b := " " + s, s + " ";
    assert SPACES[0] <= a && a[1..] == s;
    assert b[|b| - 1..] == " " && b[..|b| - 1] == s;
    assert HasSuffix(b, SPACES[0]);
  }

  lemma {:induction false} VisibleEnd(s: string, from: nat)
    requires s != "" && Visible(s[|s| - 1])
    ensures TrailingSpace(s, from) == 0
    decreases |SPACES| - from
  {
    if from < |SPACES| {
      VisibleEnd(s, from + 1);
    }
  }

  function HeaderText(ts: string, category: string): string {
    ("ts=" + ts) + (" " + ("cat=" + category))
  }

  lemma HeaderFields(ts: string, category: string)
    requires forall c | c in ts :: Visible(c)
    requires category != "" && forall c | c in category :: Visible(c)
    ensures Fields(HeaderText(ts, category)) == ["ts=" + ts, "cat=" + category]
  {
    hide LeadingSpace, TrimLeft, TokenEnd;
    var a, b := "ts=" + ts, "cat=" + category;
    var s := HeaderText(ts, category);
    VisibleTrim(s);
    TokenOf(a, " " + b);
    assert s[..|a|] == a && s[|a|..] == " " + b;
    SpaceTrim(b);
    VisibleTrim(b);
    TokenOf(b, "");
    assert b + "" == b && b[..|b|] == b && b[|b|..] == "";
    assert Fields(" " + b) == [b] + Fields("");
  }

  lemma HeaderScan(clock: Clock, ts: string, category: string)
    requires clock(ts) == Some(ts)
    ensures ScanFields(clock, ["ts=" + ts, "cat=" + category]) == (Some(ts), category)
  {
    var a, b := "ts=" + ts, "cat=" + category;
    assert [a, b][..1] == [a];
    var one := [a];
    assert one[..0] == [];
    assert a[3..] == ts && b[4..] == category;
    assert !("cat=" <= a) by { assert a[0] == 't'; }
    assert !("ts=" <= b) by { assert b[0] == 'c'; }
    assert ScanFields(clock, [a]) == (Some(ts), "");
  }

  lemma HeaderMiddle(ts: string, category: string)
    ensures Header(ts, category)[4..|Header(ts, category)| - 3] == " " + HeaderText(ts, category) + " "
  {
    assert Header(ts, category) == "<!--" + (" " + HeaderText(ts, category) + " ") + "-->";
  }

  /** A written block reads back as its entry. */
  lemma BlockReads(clock: Clock, e: Entry)
    requires Writable(clock, e)
    ensures EntryOf(clock, Body(e)) == Some(e) && Sliceable(Body(e))
  {
    hide Fields, TrimSpace, Index, ScanFields, Trimmed;
    var ts, cat := e.timestamp.value, e.category;
    CategoriesPlain(cat);
    var h, rest := Header(ts, cat), "\n" + e.content;
    var body := Body(e);
    assert body == h + rest;
    HeaderEnd(ts, cat, rest);
    var end := |h| - 3;
    HeaderMiddle(ts, cat);
    assert body[4..end] == h[4..end];
    TrimHeader(ts, cat);
    HeaderFields(ts, cat);
    HeaderScan(clock, ts, cat);
    assert body[end + 3..] == "\n" + e.content;
    TrimContent(e.content);
    assert body[..4] == "<!--";
  }

  lemma TrimHeader(ts: string, category: string)
    requires (forall c | c in ts :: Visible(c)) && category != "" && forall c | c in category :: Visible(c)
    ensures TrimSpace(" " + HeaderText(ts, category) + " ") == HeaderText(ts, category)
  {
    hide LeadingSpace, TrailingSpace, TrimLeft, TrimRight;
    var s := HeaderText(ts, category);
    assert " " + s + " " == " " + (s + " ");
    SpaceTrim(s + " ");
    VisibleTrim(s + " ");
    SpaceTrim(s);
    assert s[|s| - 1] == category[|category| - 1];
    VisibleEnd(s, 0);
    TrimRightNone(s);
  }

  lemma TrimRightNone(s: string)
    requires TrailingSpace(s) == 0
    ensures TrimRight(s) == s
  {
  }

  lemma TrimLeftNone(s: string)
    requires LeadingSpace(s) == 0
    ensures TrimLeft(s) == s
  {
  }

  lemma TrimContent(s: string)
    requires Trimmed(s)
    ensures TrimSpace("\n" + s) == s
  {
    hide LeadingSpace, TrailingSpace, TrimLeft, TrimRight;
    NewlineLeads(s);
    TrimLeftNone(s);
    TrimRightNone(s);
  }

  // The file, split into its blocks.

  /** A block with the newlines the format puts around it. */
  lemma TrimBlock(clock: Clock, e: Entry)
    requires Writable(clock, e)
    ensures TrimSpace(Body(e)) == Body(e)
    ensures TrimSpace(Body(e) + "\n") == Body(e)
    ensures TrimSpace("\n\n" + Body(e)) == Body(e)
    ensures TrimSpace("\n\n" + (Body(e) + "\n")) == Body(e)
  {
    hide LeadingSpace, TrailingSpace, TrimLeft, TrimRight, Index, Trimmed;
    var b := Body(e);
    BodyEnds(clock, e);
    TrimRightNone(b);
    VisibleTrim(b);
    VisibleTrim(b + "\n");
    NewlineLeads(b);
    NewlineLeads("\n" + b);
    NewlineLeads(b + "\n");
    NewlineLeads("\n" + (b + "\n"));
    assert "\n\n" + b == "\n" + ("\n" + b) && "\n\n" + (b + "\n") == "\n" + ("\n" + (b + "\n"));
  }

  lemma BodyEnds(clock: Clock, e: Entry)
    requires Writable(clock, e)
    ensures Body(e) != "" && Visible(Body(e)[0]) && TrailingSpace(Body(e)) == 0
  {
    hide Index;
    NoSpaceBehind(Header(e.timestamp.value, e.category), e.content, 0);
  }

  /** The separator does not occur in a block or across its end. */
  lemma NoSeparator(clock: Clock, e: Entry, rest: string, k: nat)
    requires Writable(clock, e) && k <= |Body(e)|
    ensures !Occurs(Body(e) + "\n" + rest, SEPARATOR, k)
  {
    hide Trimmed, Index, Occurs, MarkerAt;
    var ts, cat := e.timestamp.value, e.category;
    var h := Header(ts, cat);
    CategoriesPlain(cat);
    forall x | 0 < x < |h| - 1 ensures h[x] != '<' { HeaderInside(ts, cat, x); }
    forall j: nat ensures !MarkerAt(e.content, j) { ContentMarker(e.content, j); }
    PlainNoSeparator(h, e.content, rest, k);
  }

  lemma PlainNoSeparator(h: string, c: string, rest: string, k: nat)
    requires |h| > 5 && h[5] == 't' && forall x | 0 < x < |h| :: h[x] != '<'
    requires forall j: nat :: !MarkerAt(c, j)
    requires k <= |h| + 1 + |c|
    ensures !Occurs(h + "\n" + c + "\n" + rest, SEPARATOR, k)
  {
    hide Occurs;
    var s := h + "\n" + c + "\n" + rest;
    SeparatorStart(s, k);
    if k < |h| {
      assert s[k] == h[k] && s[5] == h[5];
    } else if k == |h| {
      assert s[k] == '\n';
    } else {
      var j := k - |h| - 1;
      assert !MarkerAt(c, j);
      assert forall x | 0 <= x < |c| :: s[|h| + 1 + x] == c[x];
      assert s[|h| + 1 + |c|] == '\n';
    }
  }

  lemma SeparatorStart(s: string, k: nat)
    ensures Occurs(s, SEPARATOR, k) ==>
              k + 6 <= |s| && s[k] == '<' && s[k + 1] == '!' && s[k + 2] == '-' && s[k + 3] == '-' && s[k + 5] == 'n'
  {
    OccursChar(s, SEPARATOR, k, 0);
    OccursChar(s, SEPARATOR, k, 1);
    OccursChar(s, SEPARATOR, k, 2);
    OccursChar(s, SEPARATOR, k, 3);
    OccursChar(s, SEPARATOR, k, 5);
  }

  predicate MarkerAt(c: string, j: nat) {
    j + 4 <= |c| && c[j] == '<' && c[j + 1] == '!' && c[j + 2] == '-' && c[j + 3] == '-'
  }

  lemma MarkerOccurs(c: string, j: nat)
    ensures MarkerAt(c, j) ==> Occurs(c, "<!--", j)
  {
    if MarkerAt(c, j) { assert c[j..j + 4] == "<!--"; }
  }

  lemma ContentMarker(c: string, j: nat)
    requires Index(c, "<!--") < 0
    ensures !MarkerAt(c, j)
  {
    MarkerOccurs(c, j);
  }

  /** The pieces between the separators, of a file that starts with lead and holds es. */
  function Pieces(lead: string, es: seq<Entry>): seq<string>
    requires es != []
    decreases |es|
  {
    if |es| == 1 then [lead + Body(es[0])]
    else [lead + (Body(es[0]) + "\n")] + Pieces("\n\n", es[1..])
  }

  /** The file without its last newline. */
  function Joined(es: seq<Entry>): string
    requires es != []
  {
    if |es| == 1 then Body(es[0]) else Body(es[0]) + "\n" + SEPARATOR + "\n\n" + Joined(es[1..])
  }

  lemma {:induction false} SplitPieces(clock: Clock, lead: string, es: seq<Entry>)
    requires es != [] && AllWritable(clock, es) && (lead == "" || lead == "\n\n")
    ensures SplitOn(lead + Joined(es), SEPARATOR) == Pieces(lead, es)
    decreases |es|
  {
    hide Body, Writable, Index, SplitOn;
    assert es[0] in es && forall e | e in es[1..] :: e in es;
    if |es| == 1 {
      NoSplit(clock, lead, es[0]);
    } else {
      var rest := "\n\n" + Joined(es[1..]);
      SplitPieces(clock, "\n\n", es[1..]);
      OneSplit(clock, lead, es[0], rest);
      JoinedCons(lead, Body(es[0]), Joined(es[1..]));
    }
  }

  lemma JoinedCons(lead: string, b: string, j: string)
    ensures lead + (b + "\n" + SEPARATOR + "\n\n" + j) == lead + (b + "\n") + SEPARATOR + ("\n\n" + j)
  {
  }

  lemma LeadNoSeparator(clock: Clock, lead: string, e: Entry, rest: string, k: nat)
    requires Writable(clock, e) && (lead == "" || lead == "\n\n") && k <= |lead| + |Body(e)|
    ensures !Occurs(lead + (Body(e) + "\n" + rest), SEPARATOR, k)
  {
    hide Writable, Body;
    var s, t := lead + (Body(e) + "\n" + rest), Body(e) + "\n" + rest;
    if k < |lead| {
      SeparatorStart(s, k);
      assert s[k] == lead[k];
    } else {
      NoSeparator(clock, e, rest, k - |lead|);
    }
  }

  lemma OneSplit(clock: Clock, lead: string, e: Entry, rest: string)
    requires Writable(clock, e) && (lead == "" || lead == "\n\n")
    ensures SplitOn(lead + (Body(e) + "\n") + SEPARATOR + rest, SEPARATOR)
            == [lead + (Body(e) + "\n")] + SplitOn(rest, SEPARATOR)
  {
    hide Writable, Body, Index;
    var head := lead + (Body(e) + "\n");
    var s := head + SEPARATOR + rest;
    assert s == lead + (Body(e) + "\n" + (SEPARATOR + rest));
    assert s[|head|..|head| + |SEPARATOR|] == SEPARATOR;
    assert Occurs(s, SEPARATOR, |head|);
    forall k | 0 <= k < |head| ensures !Occurs(s, SEPARATOR, k) {
      LeadNoSeparator(clock, lead, e, SEPARATOR + rest, k);
    }
    assert Index(s, SEPARATOR) == |head|;
    assert s[..|head|] == head && s[|head| + |SEPARATOR|..] == rest;
  }

  lemma NoSplit(clock: Clock, lead: string, e: Entry)
    requires Writable(clock, e) && (lead == "" || lead == "\n\n")
    ensures SplitOn(lead + Body(e), SEPARATOR) == [lead + Body(e)]
  {
    hide Writable, Body, Index;
    var s := lead + Body(e);
    var t := lead + (Body(e) + "\n" + "");
    assert t == s + "\n";
    forall k | 0 <= k <= |s| ensures !Occurs(s, SEPARATOR, k) {
      LeadNoSeparator(clock, lead, e, "", k);
    }
    assert Index(s, SEPARATOR) < 0;
  }

  lemma {:induction false} FileJoined(es: seq<Entry>)
    requires es != []
    ensures FileOf(es) == Joined(es) + "\n" && FileOf(es) != ""
    decreases |es|
  {
    hide Body;
    var n := |es| - 1;
    if n == 0 {
      assert es[..0] == [];
      assert "" + Body(es[0]) == Body(es[0]);
    } else {
      FileJoined(es[..n]);
      JoinedSnoc(es[..n], es[n]);
      assert es == es[..n] + [es[n]];
    }
  }

  lemma {:induction false} JoinedSnoc(es: seq<Entry>, e: Entry)
    requires es != []
    ensures Joined(es + [e]) == Joined(es) + "\n" + SEPARATOR + "\n\n" + Body(e)
    decreases |es|
  {
    hide Body;
    assert (es + [e])[0] == es[0] && (es + [e])[1..] == es[1..] + [e];
    if |es| == 1 {
      assert es[1..] + [e] == [e];
    } else {
      JoinedSnoc(es[1..], e);
      var a, j := Body(es[0]) + "\n" + SEPARATOR + "\n\n", Joined(es[1..]);
      assert a + (j + "\n" + SEPARATOR + "\n\n" + Body(e)) == a + j + "\n" + SEPARATOR + "\n\n" + Body(e);
    }
  }

  lemma {:induction false} JoinedEnds(clock: Clock, es: seq<Entry>)
    requires es != [] && AllWritable(clock, es)
    ensures Joined(es) != "" && Visible(Joined(es)[0])
    ensures TrailingSpace(Joined(es)) == 0
    decreases |es|
  {
    hide Writable, TrailingSpace, Body;
    assert es[0] in es && forall e | e in es[1..] :: e in es;
    BodyEnds(clock, es[0]);
    if |es| > 1 {
      JoinedEnds(clock, es[1..]);
      var a, j := Body(es[0]) + "\n" + SEPARATOR + "\n", Joined(es[1..]);
      NoSpaceBehind(a, j, 0);
      assert a + "\n" + j == Joined(es);
    }
  }

  lemma TrimFile(clock: Clock, es: seq<Entry>)
    requires es != [] && AllWritable(clock, es)
    ensures TrimSpace(FileOf(es)) == Joined(es)
  {
    hide AllWritable, LeadingSpace, TrailingSpace, TrimLeft, TrimRight, Joined, FileOf;
    FileJoined(es);
    JoinedEnds(clock, es);
    VisibleTrim(Joined(es) + "\n");
    NewlineLeads(Joined(es));
    TrimRightNone(Joined(es));
  }

  lemma {:induction false} ReadPieces(clock: Clock, lead: string, es: seq<Entry>, before: seq<string>, mtime: string)
    requires es != [] && AllWritable(clock, es) && (lead == "" || lead == "\n\n")
    ensures ReadBlocks(clock, before + Pieces(lead, es), mtime) == (ReadBlocks(clock, before, mtime).0 + es, false)
    decreases |es|
  {
    hide TrimSpace, EntryOf, Body, Writable, ReadBlocks;
    assert es[0] in es && forall e | e in es[1..] :: e in es;
    if |es| == 1 {
      ReadOne(clock, before, lead + Body(es[0]), lead, es[0], mtime);
      assert es == [es[0]];
    } else {
      var p := lead + (Body(es[0]) + "\n");
      ReadOne(clock, before, p, lead, es[0], mtime);
      ReadPieces(clock, "\n\n", es[1..], before + [p], mtime);
      assert before + [p] + Pieces("\n\n", es[1..]) == before + Pieces(lead, es);
      assert es == [es[0]] + es[1..];
      var r := ReadBlocks(clock, before, mtime).0;
      assert r + [es[0]] + es[1..] == r + ([es[0]] + es[1..]);
    }
  }

  lemma ReadOne(clock: Clock, before: seq<string>, piece: string, lead: string, e: Entry, mtime: string)
    requires Writable(clock, e) && (lead == "" || lead == "\n\n")
    requires piece == lead + Body(e) || piece == lead + (Body(e) + "\n")
    ensures ReadBlocks(clock, before + [piece], mtime) == (ReadBlocks(clock, before, mtime).0 + [e], false)
  {
    hide TrimSpace, EntryOf, Writable, Body;
    TrimBlock(clock, e);
    BlockReads(clock, e);
    BodyEnds(clock, e);
    assert "" + Body(e) == Body(e) && "" + (Body(e) + "\n") == Body(e) + "\n";
    assert TrimSpace(piece) == Body(e);
    assert (before + [piece])[..|before|] == before;
  }

  /** Main result: what was appended to an empty file is what is read: the same times, categories and
      trimmed texts, in order. */
  lemma AppendThenParse(clock: Clock, es: seq<Entry>, mtime: string)
    requires AllWritable(clock, es)
    ensures Parse(clock, FileOf(es), mtime) == es
  {
    hide TrimSpace, SplitOn, ReadBlocks, AllWritable, Joined, Pieces, FileOf;
    if es == [] {
      EmptyFile();
    } else {
      TrimFile(clock, es);
      JoinedEnds(clock, es);
      SplitPieces(clock, "", es);
      ReadPieces(clock, "", es, [], mtime);
      ReadNothing(clock, mtime);
      assert "" + Joined(es) == Joined(es) && [] + Pieces("", es) == Pieces("", es) && [] + es == es;
    }
  }

  lemma EmptyFile()
    ensures FileOf([]) == "" && TrimSpace("") == ""
  {
  }

  lemma ReadNothing(clock: Clock, mtime: string)
    ensures ReadBlocks(clock, [], mtime) == ([], true)
  {
  }

  /** A written file never makes the parser slice out of range. */
  lemma {:induction false} PiecesSliceable(clock: Clock, lead: string, es: seq<Entry>)
    requires es != [] && AllWritable(clock, es) && (lead == "" || lead == "\n\n")
    ensures forall b | b in Pieces(lead, es) :: Sliceable(TrimSpace(b))
    decreases |es|
  {
    hide TrimSpace, Sliceable, Body, Writable;
    assert es[0] in es && forall e | e in es[1..] :: e in es;
    TrimBlock(clock, es[0]);
    BlockReads(clock, es[0]);
    assert "" + Body(es[0]) == Body(es[0]) && "" + (Body(es[0]) + "\n") == Body(es[0]) + "\n";
    if |es| > 1 { PiecesSliceable(clock, "\n\n", es[1..]); }
  }

  lemma WrittenReadable(clock: Clock, es: seq<Entry>)
    requires AllWritable(clock, es)
    ensures Readable(FileOf(es))
  {
    hide TrimSpace, SplitOn, AllWritable, Joined, Pieces, FileOf, Sliceable;
    if es == [] {
      EmptyFile();
      EmptyReadable();
    } else {
      TrimFile(clock, es);
      SplitPieces(clock, "", es);
      PiecesSliceable(clock, "", es);
      assert "" + Joined(es) == Joined(es);
    }
  }

  lemma EmptyReadable()
    ensures forall b | b in SplitOn("", SEPARATOR) :: Sliceable(TrimSpace(b))
  {
    assert TrimSpace("") == "";
    assert forall k :: !Occurs("", SEPARATOR, k);
  }

  // ----- The store as a whole -----

  /** now is the mtime the write gives the file. */
  datatype Event = Append(content: string, category: string, ts: string, now: nat) | Read

  predicate Accepted(e: Event) {
    e.Append? && Acceptable(e.content, e.category)
  }

  function EntryFrom(e: Event): Entry
    requires e.Append?
  {
    Entry(Some(e.ts), e.category, TrimSpace(StripNul(e.content)))
  }

  /** The entries of the appends that are accepted, in order. */
  function AcceptedOf(events: seq<Event>): seq<Entry> {
    if events == [] then []
    else
      var n := |events| - 1;
      AcceptedOf(events[..n]) + if Accepted(events[n]) then [EntryFrom(events[n])] else []
  }

  predicate TimeReads(clock: Clock, ts: string) {
    clock(ts) == Some(ts) && ts != "" && forall c | c in ts :: Visible(c) && c != '<' && c != '>'
  }

  /** Every accepted write gives the file a later mtime, and a time that reads back. */
  predicate Advancing(clock: Clock, start: nat, events: seq<Event>) {
    && (forall i | 0 <= i < |events| && Accepted(events[i]) :: events[i].now > start && TimeReads(clock, events[i].ts))
    && forall i, j | 0 <= i < j < |events| && Accepted(events[i]) && Accepted(events[j]) :: events[i].now < events[j].now
  }

  /** Each read so far returned the entries accepted before it, newest first. */
  predicate ReadsBack(events: seq<Event>, reads': seq<seq<Entry>>) {
    |reads'| <= |events|
    && forall k | 0 <= k < |reads'| && events[k].Read? :: reads'[k] == Reversed(AcceptedOf(events[..k]))
  }

  lemma NothingRead(events: seq<Event>)
    ensures ReadsBack(events, [])
  {
  }

  lemma OneMoreRead(events: seq<Event>, reads': seq<seq<Entry>>, entries: seq<Entry>)
    requires ReadsBack(events, reads') && |reads'| < |events|
    requires events[|reads'|].Read? ==> entries == Reversed(AcceptedOf(events[..|reads'|]))
    ensures ReadsBack(events, reads' + [entries])
  {
  }

  /** Any run of appends and reads on an empty store: every read, cached or not, returns exactly the entries
      accepted before it, newest first. */
  method AppendsAndReads(store: Store, events: seq<Event>, stamp: nat -> string) returns (reads': seq<seq<Entry>>)
    requires store.file == None && store.cacheMtime == None && Advancing(store.clock, store.mtime, events)
    modifies store
    ensures |reads'| == |events| && ReadsBack(events, reads')
    ensures AcceptedOf(events) != [] ==> store.file == Some(FileOf(AcceptedOf(events)))
  {
    hide TrimSpace, StripNul, Acceptable, Writable, Parse, FileOf, Readable, Appended, Reversed, TimeReads, ReadsBack;
    ghost var accepted: seq<Entry> := [];
    reads' := [];
    NothingRead(events);
    EmptyFile();
    NothingReversed();
    assert events[..0] == [];
    for i := 0 to |events|
      invariant accepted == AcceptedOf(events[..i]) && AllWritable(store.clock, accepted)
      invariant forall j | i <= j < |events| && Accepted(events[j]) :: events[j].now > store.mtime
      invariant store.file == if accepted == [] then None else Some(FileOf(accepted))
      invariant store.CacheValid(stamp) && (store.cacheMtime.Some? ==> store.file.Some?)
      invariant |reads'| == i && ReadsBack(events, reads')
    {
      assert events[..i + 1][..i] == events[..i];
      match events[i] {
        case Append(content, category, ts, now) =>
          var ok := store.AppendLongTerm(content, category, ts, now);
          if ok {
            AcceptedIsWritable(store.clock, content, category, ts);
            FileSnoc(accepted, EntryFrom(events[i]));
            accepted := accepted + [EntryFrom(events[i])];
          }
          OneMoreRead(events, reads', []);
          reads' := reads' + [[]];
        case Read =>
          WrittenReadable(store.clock, accepted);
          AppendThenParse(store.clock, accepted, stamp(store.mtime));
          var entries := store.ReadLongTermEntries(stamp);
          OneMoreRead(events, reads', entries);
          reads' := reads' + [entries];
      }
    }
    assert events[..|events|] == events;
  }

  lemma FileSnoc(es: seq<Entry>, e: Entry)
    ensures FileOf(es + [e]) == Appended(FileOf(es), e) && FileOf([]) == ""
  {
    hide Appended;
    assert (es + [e])[..|es|] == es;
  }

  lemma NothingReversed()
    ensures Reversed([]) == []
  {
  }
}
