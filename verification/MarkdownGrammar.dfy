/**
 What a text renders to, read off its characters: a grammar of blocks that does not mention how the preview finds
 them, and the proof that the preview renders a text to a list of blocks exactly when the grammar reads it as that.
 */
module MarkdownGrammar {
  import opened Sequences
  import opened JsText
  import opened Markdown
  import opened MarkdownTheorems

  // ------------------------------------------------------- the forms of a line

  /** What is captured behind white space: nothing a dot does not match, and not itself indented. */
  predicate Captured(text: string) {
    && text != "" && (IsSpace(text[0]) ==> |text| == 1)
    && forall i :: 0 <= i < |text| ==> text[i] !in ['\n', '\r', '\U{2028}', '\U{2029}']
  }

  predicate Gap(gap: string) {
    gap != "" && Blank(gap)
  }

  predicate Marker(marker: string, ordered: bool) {
    if ordered then
      && |marker| >= 2 && marker[|marker| - 1] in ['.', ')']
      && forall i :: 0 <= i < |marker| - 1 ==> '0' <= marker[i] <= '9'
    else
      |marker| == 1 && marker[0] in ['-', '*', '+']
  }

  /** The line is an indented marker, white space and `rest`. */
  ghost predicate HasMarker(line: string, ordered: bool, rest: string) {
    exists indent: string, marker: string ::
      Blank(indent) && Marker(marker, ordered) && line == indent + marker + rest
  }

  /** Behind white space stands `text`. */
  ghost predicate Spaced(rest: string, text: string) {
    exists gap: string :: Gap(gap) && rest == gap + text
  }

  /** A list item of that text. */
  ghost predicate Item(line: string, ordered: bool, text: string) {
    Captured(text) && exists rest: string :: HasMarker(line, ordered, rest) && Spaced(rest, text)
  }

  ghost predicate HasText(rest: string) {
    exists text: string :: Spaced(rest, text) && text != "" && !IsSpace(text[0])
  }

  /** A line that opens a list. */
  ghost predicate OpensList(line: string, ordered: bool) {
    exists rest: string :: HasMarker(line, ordered, rest) && HasText(rest)
  }

  predicate Fenced(line: string) {
    |line| >= 3 && line[0] == line[1] == line[2] == '`'
  }

  ghost predicate Hashed(line: string, level: nat, rest: string) {
    && 1 <= level <= 6 && level <= |line| && line[level..] == rest
    && (forall i :: 0 <= i < level ==> line[i] == '#')
  }

  /** A heading of that level and text. */
  ghost predicate Headed(line: string, level: nat, text: string) {
    Captured(text) && exists rest: string :: Hashed(line, level, rest) && Spaced(rest, text)
  }

  ghost predicate OpensHeading(line: string) {
    exists level: nat, rest: string :: Hashed(line, level, rest) && HasText(rest)
  }

  /** Three or more of one of these characters, and then only white space. */
  ghost predicate Ruled(line: string) {
    exists n: nat :: 3 <= n <= |line| && RuleOf(line, n)
  }

  predicate RuleOf(line: string, n: nat)
    requires 0 < n <= |line|
  {
    line[0] in ['-', '*', '_'] && (forall i :: 0 <= i < n ==> line[i] == line[0]) && Blank(line[n..])
  }

  /** A quote line: without its mark, and one white space behind it, it is `text`. */
  ghost predicate QuoteOf(line: string, text: string) {
    exists indent: string, gap: string :: QuoteParts(line, indent, gap, text)
  }

  predicate QuoteParts(line: string, indent: string, gap: string, text: string) {
    && Blank(indent) && Blank(gap) && |gap| <= 1 && line == indent + ">" + gap + text
    && (gap == "" && text != "" ==> !IsSpace(text[0]))
  }

  /** A line that ends a paragraph. */
  ghost predicate OpensBlock(line: string) {
    || Fenced(line) || OpensHeading(line) || Ruled(line)
    || OpensList(line, false) || OpensList(line, true) || exists text: string :: QuoteOf(line, text)
  }

  // ------------------------------------------------------------------ the blocks

  ghost predicate ReadsHeading(line: string, level: nat, text: string) {
    Headed(TrimEnd(line), level, text)
  }

  ghost predicate ReadsList(lines: seq<string>, i: nat, e: nat, ordered: bool, items: seq<string>)
    requires i < e <= |lines|
  {
    && OpensList(TrimEnd(lines[i]), ordered) && |items| == e - i
    && (forall k :: 0 <= k < |items| ==> Item(lines[i + k], ordered, items[k]))
    && (e < |lines| ==> forall text: string :: !Item(lines[e], ordered, text))
  }

  /** Everything between the fences, the second of which may be missing. */
  ghost predicate ReadsCode(lines: seq<string>, i: nat, e: nat, text: string)
    requires i < e <= |lines|
  {
    && Fenced(lines[i])
    && exists s :: i < s <= e && CodeTo(lines, i, s, e, text)
  }

  predicate CodeTo(lines: seq<string>, i: nat, s: nat, e: nat, text: string)
    requires i < s <= e <= |lines|
  {
    && text == Join(lines[i + 1..s], "\n") && (forall k :: i < k < s ==> !Fenced(lines[k]))
    && if s < |lines| then Fenced(lines[s]) && e == s + 1 else e == s
  }

  ghost predicate ReadsQuote(lines: seq<string>, i: nat, e: nat, blocks: seq<Block>)
    requires i < e <= |lines|
  {
    && (e < |lines| ==> forall text: string :: !QuoteOf(lines[e], text))
    && exists quoted: seq<string> ::
         && |quoted| == e - i && (forall k :: 0 <= k < |quoted| ==> QuoteOf(lines[i + k], quoted[k]))
         && Render(Join(quoted, "\n")) == Rendered(blocks)
  }

  ghost predicate OpensParagraph(line: string) {
    && !Fenced(line) && (forall level: nat, text: string :: !Headed(line, level, text)) && !Ruled(Trim(line))
    && !OpensList(line, false) && !OpensList(line, true) && forall text: string :: !QuoteOf(line, text)
  }

  ghost predicate ReadsParagraph(lines: seq<string>, i: nat, e: nat, text: string)
    requires i < e <= |lines|
  {
    && OpensParagraph(TrimEnd(lines[i]))
    && text == Join(Map(lines[i..e], Trim), " ")
    && (forall k :: i < k < e ==> !Blank(lines[k]) && !OpensBlock(TrimEnd(lines[k])))
    && (e < |lines| ==> Blank(lines[e]) || OpensBlock(TrimEnd(lines[e])))
  }

  /** Lines `i` to `e` are this block. */
  ghost predicate Reads(lines: seq<string>, i: nat, e: nat, b: Block)
    requires i < e <= |lines|
  {
    match b
    case Heading(level, text) => e == i + 1 && ReadsHeading(lines[i], level, text)
    case Rule => e == i + 1 && Ruled(Trim(TrimEnd(lines[i])))
    case ListBlock(ordered, items) => ReadsList(lines, i, e, ordered, items)
    case Code(text) => ReadsCode(lines, i, e, text)
    case Quote(blocks) => ReadsQuote(lines, i, e, blocks)
    case Paragraph(text) => ReadsParagraph(lines, i, e, text)
  }

  /** The lines from `i` on are these blocks, with blank lines between them. */
  ghost predicate ReadFrom(lines: seq<string>, i: nat, blocks: seq<Block>)
    requires i <= |lines|
    decreases |lines| - i
  {
    if i == |lines| then blocks == []
    else if Blank(lines[i]) then ReadFrom(lines, i + 1, blocks)
    else
      blocks != [] && exists e :: i < e <= |lines| && Reads(lines, i, e, blocks[0]) && ReadFrom(lines, e, blocks[1..])
  }

  // ---------------------------------------------- the forms are what is looked for

  lemma BlankPrefix(s: string, a: string, b: string)
    requires s == a + b && Blank(a) && (b != "" ==> !IsSpace(b[0]))
    ensures Run(s, IsSpace) == |a|
  {
    RunAt(s, IsSpace, |a|);
  }

  lemma SplitIndent(line: string)
    ensures Blank(line[..Run(line, IsSpace)]) && line == line[..Run(line, IsSpace)] + Indented(line)
  {
  }

  lemma HasMarkerIff(line: string, ordered: bool, rest: string)
    ensures HasMarker(line, ordered, rest) <==> AfterMarker(line, ordered) == Some(rest)
  {
    hide AfterMarker;
    hide Marker;
    if indent: string, marker: string :| Blank(indent) && Marker(marker, ordered) && line == indent + marker + rest {
      MarkerReads(line, ordered, indent, marker, rest);
    }
    if AfterMarker(line, ordered) == Some(rest) {
      MarkerCut(line, ordered);
    }
  }

  lemma BulletCut(line: string)
    requires AfterBullet(line).Some?
    ensures HasMarker(line, false, AfterBullet(line).value)
  {
    SplitIndent(line);
    var s := Indented(line);
    assert s == s[..1] + s[1..];
    assert Marker(s[..1], false);
    assert line == line[..Run(line, IsSpace)] + s[..1] + s[1..];
  }

  lemma NumberCut(line: string)
    requires AfterNumber(line).Some?
    ensures HasMarker(line, true, AfterNumber(line).value)
  {
    hide Indented;
    SplitIndent(line);
    var s := Indented(line);
    var n := Run(s, IsDigit) + 1;
    assert s == s[..n] + s[n..];
    assert Marker(s[..n], true);
    assert line == line[..Run(line, IsSpace)] + s[..n] + s[n..];
  }

  lemma MarkerCut(line: string, ordered: bool)
    requires AfterMarker(line, ordered).Some?
    ensures HasMarker(line, ordered, AfterMarker(line, ordered).value)
  {
    hide HasMarker;
    hide AfterBullet;
    hide AfterNumber;
    if ordered {
      NumberCut(line);
    } else {
      BulletCut(line);
    }
  }

  lemma MarkerReads(line: string, ordered: bool, indent: string, marker: string, rest: string)
    requires Blank(indent) && Marker(marker, ordered) && line == indent + marker + rest
    ensures AfterMarker(line, ordered) == Some(rest)
  {
    assert line == indent + (marker + rest);
    BlankPrefix(line, indent, marker + rest);
    var s := Indented(line);
    assert s == marker + rest;
    if ordered {
      RunAt(s, IsDigit, |marker| - 1);
      assert s[|marker|..] == rest;
    } else {
      assert s[1..] == rest;
    }
  }

  lemma SpacedIff(rest: string, text: string)
    requires Captured(text)
    ensures Spaced(rest, text) <==> CapturedText(rest) == Some(text)
  {
    if gap: string :| Gap(gap) && rest == gap + text {
      if IsSpace(text[0]) {
        RunAt(rest, IsSpace, |rest|);
      } else {
        BlankPrefix(rest, gap, text);
      }
      assert rest[|gap|..] == text;
      assert OneLine(text);
    }
    if CapturedText(rest) == Some(text) {
      var gap := rest[..|rest| - |text|];
      assert Gap(gap) && rest == gap + text;
    }
  }

  lemma CapturedIs(rest: string)
    requires CapturedText(rest).Some?
    ensures Captured(CapturedText(rest).value)
  {
  }

  lemma HasTextIff(rest: string)
    ensures HasText(rest) <==> BeginsText(rest)
  {
    if text: string :| Spaced(rest, text) && text != "" && !IsSpace(text[0]) {
      var gap: string :| Gap(gap) && rest == gap + text;
      BlankPrefix(rest, gap, text);
    }
    if BeginsText(rest) {
      var n := Run(rest, IsSpace);
      assert Gap(rest[..n]) && rest == rest[..n] + rest[n..];
      assert Spaced(rest, rest[n..]);
    }
  }

  lemma ItemIff(line: string, ordered: bool, text: string)
    ensures Item(line, ordered, text) <==> ItemText(line, ordered) == Some(text)
  {
    hide AfterMarker;
    hide CapturedText;
    hide HasMarker;
    hide Spaced;
    hide Captured;
    if rest: string :| Captured(text) && HasMarker(line, ordered, rest) && Spaced(rest, text) {
      HasMarkerIff(line, ordered, rest);
      SpacedIff(rest, text);
    }
    if ItemText(line, ordered) == Some(text) {
      var rest := AfterMarker(line, ordered).value;
      HasMarkerIff(line, ordered, rest);
      CapturedIs(rest);
      SpacedIff(rest, text);
    }
  }

  lemma OpensListIff(line: string, ordered: bool)
    ensures OpensList(line, ordered) <==> IsListItem(line, ordered)
  {
    hide AfterMarker;
    hide BeginsText;
    hide HasMarker;
    hide HasText;
    if rest: string :| HasMarker(line, ordered, rest) && HasText(rest) {
      HasMarkerIff(line, ordered, rest);
      HasTextIff(rest);
    }
    if IsListItem(line, ordered) {
      var rest := AfterMarker(line, ordered).value;
      HasMarkerIff(line, ordered, rest);
      HasTextIff(rest);
    }
  }

  lemma FencedIff(line: string)
    ensures Fenced(line) <==> IsFence(line)
  {
    assert FENCE[0] == FENCE[1] == FENCE[2] == '`';
    if Fenced(line) {
      assert line[..3] == FENCE;
    }
    if IsFence(line) {
      assert line[0] == FENCE[0] && line[1] == FENCE[1] && line[2] == FENCE[2];
    }
  }

  lemma HashedIff(line: string, level: nat, rest: string)
    requires rest == "" || rest[0] != '#'
    ensures Hashed(line, level, rest) <==> 1 <= level <= 6 && Hashes(line) == level && line[level..] == rest
  {
    if Hashed(line, level, rest) {
      assert level < |line| ==> line[level] == rest[0];
      RunAt(line, c => c == '#', level);
    }
  }

  lemma NotHash(rest: string)
    requires BeginsText(rest) || CapturedText(rest).Some? || HasText(rest)
    ensures rest != "" && rest[0] != '#'
  {
    HasTextIff(rest);
  }

  lemma SpacedStart(rest: string, text: string)
    requires Spaced(rest, text)
    ensures rest != "" && rest[0] != '#'
  {
    var gap: string :| Gap(gap) && rest == gap + text;
    assert rest[0] == gap[0];
  }

  lemma HashesWithin(line: string)
    ensures Hashes(line) <= |line|
  {
  }

  lemma HeadedIff(line: string, level: nat, text: string)
    ensures Headed(line, level, text) <==> HeadingText(line) == Some(text) && Hashes(line) == level
  {
    hide Hashes;
    hide Hashed;
    hide CapturedText;
    hide Spaced;
    hide Captured;
    if rest: string :| Captured(text) && Hashed(line, level, rest) && Spaced(rest, text) {
      SpacedStart(rest, text);
      HashedIff(line, level, rest);
      SpacedIff(rest, text);
    }
    HashesWithin(line);
    if HeadingText(line) == Some(text) && Hashes(line) == level {
      var rest := line[level..];
      NotHash(rest);
      HashedIff(line, level, rest);
      CapturedIs(rest);
      SpacedIff(rest, text);
    }
  }

  lemma OpensHeadingIff(line: string)
    ensures OpensHeading(line) <==> IsHeading(line)
  {
    hide Hashes;
    hide Hashed;
    hide HasText;
    hide BeginsText;
    if level: nat, rest: string :| Hashed(line, level, rest) && HasText(rest) {
      NotHash(rest);
      HashedIff(line, level, rest);
      HasTextIff(rest);
    }
    HashesWithin(line);
    if IsHeading(line) {
      var rest := line[Hashes(line)..];
      NotHash(rest);
      HashedIff(line, Hashes(line), rest);
      HasTextIff(rest);
    }
  }

  lemma RuledIff(line: string)
    ensures Ruled(line) <==> IsRule(line)
  {
    if n: nat :| 3 <= n <= |line| && RuleOf(line, n) {
      if n < |line| {
        assert line[n] == line[n..][0];
      }
      RunAt(line, c => c == line[0], n);
    }
    if IsRule(line) {
      assert RuleOf(line, Run(line, c => c == line[0]));
    }
  }

  /** Without one white space at its start. */
  function Ungapped(r: string): string {
    if r != "" && IsSpace(r[0]) then r[1..] else r
  }

  lemma UngappedReads(gap: string, text: string)
    requires Blank(gap) && |gap| <= 1 && (gap == "" && text != "" ==> !IsSpace(text[0]))
    ensures Ungapped(gap + text) == text
  {
    var r := gap + text;
    if gap == "" {
      assert r == text;
    } else {
      assert r[0] == gap[0] && r[1..] == text;
    }
  }

  lemma MarkCut(line: string, indent: string, r: string)
    requires Blank(indent) && line == indent + ">" + r
    ensures IsQuote(line) && Unquoted(line) == Ungapped(r)
  {
    var s := ">" + r;
    assert line == indent + s;
    BlankPrefix(line, indent, s);
    assert Indented(line) == s && s[1..] == r;
  }

  lemma QuoteReads(line: string, indent: string, gap: string, text: string)
    requires QuoteParts(line, indent, gap, text)
    ensures IsQuote(line) && Unquoted(line) == text
  {
    hide IsQuote;
    hide Unquoted;
    hide Ungapped;
    assert line == indent + ">" + (gap + text);
    MarkCut(line, indent, gap + text);
    UngappedReads(gap, text);
  }

  lemma QuoteCut(line: string)
    requires IsQuote(line)
    ensures QuoteOf(line, Unquoted(line))
  {
    hide IsQuote;
    hide Unquoted;
    hide Run;
    hide Indented;
    hide Ungapped;
    hide Blank;
    SplitIndent(line);
    QuoteMark(line);
    var indent, r := line[..Run(line, IsSpace)], Indented(line)[1..];
    MarkCut(line, indent, r);
    var gap := GapOf(r);
    assert line == indent + ">" + (gap + Ungapped(r));
    assert line == indent + ">" + gap + Ungapped(r);
    assert QuoteParts(line, indent, gap, Ungapped(r));
  }

  lemma GapOf(r: string) returns (gap: string)
    ensures Blank(gap) && |gap| <= 1 && r == gap + Ungapped(r)
    ensures gap == "" && Ungapped(r) != "" ==> !IsSpace(Ungapped(r)[0])
  {
    gap := if r != "" && IsSpace(r[0]) then [r[0]] else "";
  }

  lemma QuoteMark(line: string)
    requires IsQuote(line)
    ensures var s := Indented(line); s != "" && s == ">" + s[1..]
  {
  }

  lemma QuoteOfIff(line: string, text: string)
    ensures QuoteOf(line, text) <==> IsQuote(line) && Unquoted(line) == text
  {
    hide IsQuote;
    hide Unquoted;
    hide QuoteParts;
    if indent: string, gap: string :| QuoteParts(line, indent, gap, text) {
      QuoteReads(line, indent, gap, text);
    }
    if IsQuote(line) && Unquoted(line) == text {
      QuoteCut(line);
    }
  }

  lemma QuoteOfSome(line: string)
    ensures (exists text: string :: QuoteOf(line, text)) <==> IsQuote(line)
  {
    hide IsQuote;
    hide QuoteOf;
    if IsQuote(line) {
      QuoteOfIff(line, Unquoted(line));
    }
    forall text: string ensures QuoteOf(line, text) ==> IsQuote(line) {
      QuoteOfIff(line, text);
    }
  }

  lemma OpensBlockIff(line: string)
    ensures OpensBlock(line) <==> IsBlockStart(line)
  {
    hide Fenced;
    hide IsFence;
    hide OpensHeading;
    hide IsHeading;
    hide Ruled;
    hide IsRule;
    hide OpensList;
    hide IsListItem;
    hide QuoteOf;
    hide IsQuote;
    FencedIff(line);
    OpensHeadingIff(line);
    RuledIff(line);
    OpensListIff(line, false);
    OpensListIff(line, true);
    QuoteOfSome(line);
  }

  lemma OpensParagraphIff(line: string)
    ensures OpensParagraph(line) <==> KindOf(line) == ParagraphKind
  {
    hide Fenced;
    hide IsFence;
    hide Headed;
    hide HeadingText;
    hide Ruled;
    hide IsRule;
    hide OpensList;
    hide IsListItem;
    hide QuoteOf;
    hide IsQuote;
    hide Trim;
    FencedIff(line);
    RuledIff(Trim(line));
    OpensListIff(line, false);
    OpensListIff(line, true);
    QuoteOfSome(line);
    if HeadingText(line).Some? {
      HeadedIff(line, Hashes(line), HeadingText(line).value);
    }
    forall level: nat, text: string ensures Headed(line, level, text) ==> HeadingText(line).Some? {
      HeadedIff(line, level, text);
    }
  }

  // ----------------------------------------------------------- one block, both ways

  lemma RunEndIs(lines: seq<string>, i: nat, e: nat, p: string -> bool)
    requires i <= e <= |lines| && (forall k :: i <= k < e ==> p(lines[k])) && (e < |lines| ==> !p(lines[e]))
    ensures RunEnd(lines, i, p) == e
  {
  }

  lemma StartIsIndented(line: string)
    ensures TrimStart(line) == Indented(line)
  {
    var t := TrimStart(line);
    RunAt(line, IsSpace, |line| - |t|);
  }

  /** A rule is no bullet: its second character is no white space. */
  lemma RuleIsNoBullet(line: string)
    requires IsListItem(line, false)
    ensures !IsRule(Trim(line))
  {
    hide Indented;
    StartIsIndented(line);
    var s, t := Indented(line), Trim(line);
    assert |t| >= 2 ==> t[1] == s[1] == s[1..][0];
  }

  lemma KindOfForm(line: string)
    ensures HeadingText(line).Some? ==> KindOf(line) == HeadingKind
    ensures IsRule(Trim(line)) ==> KindOf(line) == RuleKind
    ensures IsListItem(line, false) ==> KindOf(line) == ListKind(false)
    ensures IsListItem(line, true) ==> KindOf(line) == ListKind(true)
  {
    hide IsFence;
    hide Hashes;
    hide CapturedText;
    hide BeginsText;
    hide IsRule;
    hide IsQuote;
    hide AfterBullet;
    hide AfterNumber;
    hide Lead;
    hide Trim;
    LeadOf(line);
    if IsListItem(line, false) {
      RuleIsNoBullet(line);
    }
  }

  lemma HeadingBlock(lines: seq<string>, i: nat, level: nat, text: string)
    requires i < |lines|
    ensures ReadsHeading(lines[i], level, text) <==>
            var s := Span(KindOf(TrimEnd(lines[i])), i, i + 1);
            s.kind == HeadingKind && PlainBlock(lines, s) == Heading(level, text)
  {
    hide Headed;
    hide HeadingText;
    hide Hashes;
    hide TrimEnd;
    hide KindOf;
    var line := TrimEnd(lines[i]);
    HeadedIff(line, level, text);
    KindOfForm(line);
    HeadingKindIff(line);
  }

  lemma HeadingKindIff(line: string)
    ensures KindOf(line) == HeadingKind ==> HeadingText(line).Some?
    ensures KindOf(line) == RuleKind ==> IsRule(Trim(line))
    ensures KindOf(line) == ListKind(false) ==> IsListItem(line, false)
    ensures KindOf(line) == ListKind(true) ==> IsListItem(line, true)
  {
    hide IsFence;
    hide HeadingText;
    hide IsRule;
    hide IsListItem;
    hide IsQuote;
    hide Trim;
  }

  lemma RuleBlock(line: string)
    ensures Ruled(Trim(line)) <==> KindOf(line) == RuleKind
  {
    hide KindOf;
    hide Ruled;
    hide IsRule;
    hide Trim;
    RuledIff(Trim(line));
    KindOfForm(line);
    HeadingKindIff(line);
  }

  lemma ListKindIff(line: string, ordered: bool)
    ensures OpensList(line, ordered) <==> KindOf(line) == ListKind(ordered)
  {
    hide KindOf;
    hide OpensList;
    hide IsListItem;
    OpensListIff(line, ordered);
    KindOfForm(line);
    HeadingKindIff(line);
    match ordered
    case true =>
    case false =>
  }

  lemma ListBlockIff(lines: seq<string>, i: nat, e: nat, ordered: bool, items: seq<string>)
    requires i < e <= |lines|
    ensures ReadsList(lines, i, e, ordered, items) <==>
            && KindOf(TrimEnd(lines[i])) == ListKind(ordered)
            && e == RunEnd(lines, i, line => ItemText(line, ordered).Some?)
            && items == Map(lines[i..e], line => TextOr(ItemText(line, ordered)))
  {
    hide KindOf;
    hide OpensList;
    hide TrimEnd;
    hide ItemText;
    hide Item;
    ListKindIff(TrimEnd(lines[i]), ordered);
    forall k, text | 0 <= k < |lines|
      ensures Item(lines[k], ordered, text) <==> ItemText(lines[k], ordered) == Some(text)
    {
      ItemIff(lines[k], ordered, text);
    }
    if ReadsList(lines, i, e, ordered, items) {
      forall k | i <= k < e ensures ItemText(lines[k], ordered) == Some(items[k - i]) {
        assert Item(lines[i + (k - i)], ordered, items[k - i]);
      }
      assert e < |lines| ==> !Item(lines[e], ordered, TextOr(ItemText(lines[e], ordered)));
      RunEndIs(lines, i, e, line => ItemText(line, ordered).Some?);
      forall k | 0 <= k < e - i ensures items[k] == TextOr(ItemText(lines[i..e][k], ordered)) {
        assert lines[i..e][k] == lines[i + k];
      }
    }
    var r := Map(lines[i..e], line => TextOr(ItemText(line, ordered)));
    if e == RunEnd(lines, i, line => ItemText(line, ordered).Some?) && items == r {
      forall k | 0 <= k < e - i ensures Item(lines[i + k], ordered, items[k]) {
        assert lines[i..e][k] == lines[i + k] && ItemText(lines[i + k], ordered).Some?;
      }
      forall text: string | e < |lines| ensures !Item(lines[e], ordered, text) {
        assert ItemText(lines[e], ordered) != Some(text);
      }
      assert OpensList(TrimEnd(lines[i]), ordered) ==> ReadsList(lines, i, e, ordered, items);
    }
  }

  lemma CodeBlockIff(lines: seq<string>, i: nat, e: nat, text: string)
    requires i < e <= |lines| && !Blank(lines[i])
    ensures ReadsCode(lines, i, e, text) <==>
            var s := RunEnd(lines, i + 1, line => !IsFence(line));
            && KindOf(TrimEnd(lines[i])) == FenceKind
            && e == (if s < |lines| then s + 1 else s) && text == Join(lines[i + 1..s], "\n")
  {
    hide KindOf;
    hide Fenced;
    hide IsFence;
    hide Join;
    KindLine(lines[i]);
    forall k | 0 <= k < |lines| ensures Fenced(lines[k]) <==> IsFence(lines[k]) {
      FencedIff(lines[k]);
    }
    var r := RunEnd(lines, i + 1, line => !IsFence(line));
    if ReadsCode(lines, i, e, text) {
      var s :| i < s <= e && CodeTo(lines, i, s, e, text);
      RunEndIs(lines, i + 1, s, line => !IsFence(line));
    }
    if IsFence(lines[i]) && e == (if r < |lines| then r + 1 else r) && text == Join(lines[i + 1..r], "\n") {
      assert CodeTo(lines, i, r, e, text);
    }
  }

  lemma QuoteBlockIff(text: string, i: nat, e: nat, blocks: seq<Block>)
    requires i < e <= |Lines(text)|
    ensures ReadsQuote(Lines(text), i, e, blocks) <==>
            && IsQuote(Lines(text)[i]) && e == RunEnd(Lines(text), i, IsQuote)
            && Render(QuotedText(text, i)) == Rendered(blocks)
  {
    hide IsQuote;
    hide Unquoted;
    hide QuoteOf;
    hide Lines;
    hide Render;
    hide Join;
    var lines := Lines(text);
    forall k, rest | 0 <= k < |lines|
      ensures QuoteOf(lines[k], rest) <==> IsQuote(lines[k]) && Unquoted(lines[k]) == rest
    {
      QuoteOfIff(lines[k], rest);
    }
    if ReadsQuote(lines, i, e, blocks) {
      var quoted: seq<string> :|
        && |quoted| == e - i && (forall k :: 0 <= k < |quoted| ==> QuoteOf(lines[i + k], quoted[k]))
        && Render(Join(quoted, "\n")) == Rendered(blocks);
      forall k | i <= k < e ensures IsQuote(lines[k]) && Unquoted(lines[k]) == quoted[k - i] {
        assert QuoteOf(lines[i + (k - i)], quoted[k - i]);
      }
      assert e < |lines| ==> !QuoteOf(lines[e], UnquotedOr(lines[e]));
      RunEndIs(lines, i, e, IsQuote);
      assert quoted == Map(lines[i..e], UnquotedOr);
    }
    if IsQuote(lines[i]) && e == RunEnd(lines, i, IsQuote) && Render(QuotedText(text, i)) == Rendered(blocks) {
      var quoted := Map(lines[i..e], UnquotedOr);
      assert Render(Join(quoted, "\n")) == Rendered(blocks);
      forall k | 0 <= k < |quoted| ensures QuoteOf(lines[i + k], quoted[k]) {
      }
    }
  }

  lemma ParagraphBlockIff(lines: seq<string>, i: nat, e: nat, text: string)
    requires i < e <= |lines|
    ensures ReadsParagraph(lines, i, e, text) <==>
            && KindOf(TrimEnd(lines[i])) == ParagraphKind && e == RunEnd(lines, i + 1, ContinuesParagraph)
            && text == Join(Map(lines[i..e], Trim), " ")
  {
    hide KindOf;
    hide OpensParagraph;
    hide OpensBlock;
    hide IsBlockStart;
    hide Join;
    hide Trim;
    hide TrimEnd;
    hide Blank;
    OpensParagraphIff(TrimEnd(lines[i]));
    forall k | 0 <= k < |lines| ensures OpensBlock(TrimEnd(lines[k])) <==> IsBlockStart(TrimEnd(lines[k])) {
      OpensBlockIff(TrimEnd(lines[k]));
    }
    if ReadsParagraph(lines, i, e, text) {
      RunEndIs(lines, i + 1, e, ContinuesParagraph);
    }
  }

  /** The span that opens at line `i` ends at `e`, is no quote, and renders to `b`. */
  ghost predicate PlainSpan(lines: seq<string>, i: nat, e: nat, b: Block)
    requires i < e <= |lines|
  {
    var s := Span(KindOf(TrimEnd(lines[i])), i, e);
    SpanOf(lines, s) && s.kind != QuoteKind && PlainBlock(lines, s) == b
  }

  lemma HeadingReadIff(lines: seq<string>, i: nat, e: nat, level: nat, text: string)
    requires i < e <= |lines| && !Blank(lines[i])
    ensures e == i + 1 && ReadsHeading(lines[i], level, text) <==> PlainSpan(lines, i, e, Heading(level, text))
  {
    hide KindOf;
    hide Blank;
    hide TrimEnd;
    hide Trim;
    hide IsQuote;
    hide Join;
    hide ReadsHeading;
    hide HeadingText;
    hide Hashes;
    HeadingBlock(lines, i, level, text);
  }

  lemma RuleReadIff(lines: seq<string>, i: nat, e: nat)
    requires i < e <= |lines| && !Blank(lines[i])
    ensures e == i + 1 && Ruled(Trim(TrimEnd(lines[i]))) <==> PlainSpan(lines, i, e, Rule)
  {
    hide KindOf;
    hide Blank;
    hide TrimEnd;
    hide Trim;
    hide IsQuote;
    hide Join;
    hide Ruled;
    hide HeadingText;
    hide Hashes;
    RuleBlock(TrimEnd(lines[i]));
  }

  lemma ListReadIff(lines: seq<string>, i: nat, e: nat, ordered: bool, items: seq<string>)
    requires i < e <= |lines| && !Blank(lines[i])
    ensures ReadsList(lines, i, e, ordered, items) <==> PlainSpan(lines, i, e, ListBlock(ordered, items))
  {
    hide KindOf;
    hide Blank;
    hide TrimEnd;
    hide Trim;
    hide IsQuote;
    hide Join;
    hide ReadsList;
    hide HeadingText;
    hide Hashes;
    hide ItemText;
    ListBlockIff(lines, i, e, ordered, items);
  }

  lemma CodeReadIff(lines: seq<string>, i: nat, e: nat, text: string)
    requires i < e <= |lines| && !Blank(lines[i])
    ensures ReadsCode(lines, i, e, text) <==> PlainSpan(lines, i, e, Code(text))
  {
    hide KindOf;
    hide Blank;
    hide TrimEnd;
    hide Trim;
    hide IsQuote;
    hide Join;
    hide ReadsCode;
    hide HeadingText;
    hide Hashes;
    hide IsFence;
    CodeBlockIff(lines, i, e, text);
  }

  lemma ParagraphReadIff(lines: seq<string>, i: nat, e: nat, text: string)
    requires i < e <= |lines| && !Blank(lines[i])
    ensures ReadsParagraph(lines, i, e, text) <==> PlainSpan(lines, i, e, Paragraph(text))
  {
    hide KindOf;
    hide Blank;
    hide TrimEnd;
    hide Trim;
    hide IsQuote;
    hide Join;
    hide ReadsParagraph;
    hide HeadingText;
    hide Hashes;
    ParagraphBlockIff(lines, i, e, text);
  }

  lemma PlainReadIff(lines: seq<string>, i: nat, e: nat, b: Block)
    requires i < e <= |lines| && !Blank(lines[i]) && !b.Quote?
    ensures Reads(lines, i, e, b) <==> PlainSpan(lines, i, e, b)
  {
    hide PlainSpan;
    hide Blank;
    hide Ruled;
    hide ReadsHeading;
    hide ReadsList;
    hide ReadsCode;
    hide ReadsParagraph;
    match b
    case Heading(level, t) => HeadingReadIff(lines, i, e, level, t);
    case Rule => RuleReadIff(lines, i, e);
    case ListBlock(ordered, items) => ListReadIff(lines, i, e, ordered, items);
    case Code(t) => CodeReadIff(lines, i, e, t);
    case Paragraph(t) => ParagraphReadIff(lines, i, e, t);
  }

  /** Lines are a block exactly when they are the span that opens there and it renders to that block. */
  lemma BlockReadIff(text: string, i: nat, e: nat, b: Block)
    requires i < e <= |Lines(text)| && !Blank(Lines(text)[i])
    ensures var s := Span(KindOf(TrimEnd(Lines(text)[i])), i, e);
            Reads(Lines(text), i, e, b) <==> SpanOf(Lines(text), s) && RenderSpan(text, s) == Rendered([b])
  {
    hide KindOf;
    hide Lines;
    hide Blank;
    hide TrimEnd;
    hide IsQuote;
    hide ReadsQuote;
    hide PlainBlock;
    hide QuotedText;
    hide Render;
    QuoteKindIff(Lines(text)[i]);
    if b.Quote? {
      QuoteBlockIff(text, i, e, b.blocks);
      NoQuoteIsPlain(Lines(text), Span(KindOf(TrimEnd(Lines(text)[i])), i, e));
    } else {
      PlainReadIff(Lines(text), i, e, b);
    }
  }

  lemma NoQuoteIsPlain(lines: seq<string>, s: Span)
    requires s.start < s.end <= |lines|
    ensures !PlainBlock(lines, s).Quote?
  {
  }

  // ------------------------------------------------------------- the whole text

  /** The spans of a text render to these blocks, one each. */
  ghost predicate OneEach(text: string, spans: seq<Span>, blocks: seq<Block>)
    requires SpansOf(Lines(text), spans)
  {
    && |spans| == |blocks|
    && forall k :: 0 <= k < |spans| ==> RenderSpan(text, spans[k]) == Rendered([blocks[k]])
  }

  lemma {:induction false} SpansRenderIff(text: string, spans: seq<Span>, blocks: seq<Block>)
    requires SpansOf(Lines(text), spans)
    ensures RenderSpans(text, spans) == Rendered(blocks) <==> OneEach(text, spans, blocks)
    decreases |spans|
  {
    hide Lines;
    hide SpanOf;
    hide RenderSpan;
    if spans == [] {
    } else {
      var n := |spans| - 1;
      if |blocks| == n + 1 {
        SpansRenderIff(text, spans[..n], blocks[..n]);
        assert blocks == blocks[..n] + [blocks[n]];
      }
      if RenderSpans(text, spans) == Rendered(blocks) {
        var first := RenderSpans(text, spans[..n]).blocks;
        SpansRenderIff(text, spans[..n], first);
        SpanIsOne(text, spans[n]);
      }
    }
  }

  lemma SpanIsOne(text: string, s: Span)
    requires SpanOf(Lines(text), s) && RenderSpan(text, s).Rendered?
    ensures |RenderSpan(text, s).blocks| == 1
  {
    hide Lines;
    hide SpanOf;
    hide PlainBlock;
    hide Render;
    hide QuotedText;
  }

  lemma NextSpan(text: string, s: Span, rest: seq<Span>, blocks: seq<Block>)
    requires SpanOf(Lines(text), s) && SpansOf(Lines(text), rest) && blocks != []
    ensures SpansOf(Lines(text), [s] + rest)
    ensures OneEach(text, [s] + rest, blocks) <==>
            RenderSpan(text, s) == Rendered([blocks[0]]) && OneEach(text, rest, blocks[1..])
  {
    hide Lines;
    hide SpanOf;
    hide RenderSpan;
    var spans := [s] + rest;
    assert forall k :: 0 <= k < |rest| ==> spans[k + 1] == rest[k];
    assert forall k :: 0 <= k < |blocks| - 1 ==> blocks[1..][k] == blocks[k + 1];
    if OneEach(text, spans, blocks) {
      forall k | 0 <= k < |rest| ensures RenderSpan(text, rest[k]) == Rendered([blocks[1..][k]]) {
        assert RenderSpan(text, spans[k + 1]) == Rendered([blocks[k + 1]]);
      }
    }
  }

  /** Reading blocks from a line on is laying out spans from there that render to them. */
  lemma {:induction false} ReadFromIff(text: string, i: nat, blocks: seq<Block>)
    requires i <= |Lines(text)|
    ensures var spans := Layout(Lines(text), i);
            ReadFrom(Lines(text), i, blocks) <==>
            spans.Some? && SpansOf(Lines(text), spans.value) && OneEach(text, spans.value, blocks)
    decreases |Lines(text)| - i
  {
    hide Lines;
    hide SpanOf;
    hide SpanEnd;
    hide KindOf;
    hide Blank;
    hide Reads;
    hide RenderSpan;
    hide OneEach;
    var lines := Lines(text);
    if i == |lines| {
      assert OneEach(text, [], blocks) <==> blocks == [] by { NoSpans(text, blocks); }
    } else if Blank(lines[i]) {
      ReadFromIff(text, i + 1, blocks);
    } else if blocks == [] {
      NoBlocks(text, i);
    } else {
      var kind, e := KindOf(TrimEnd(lines[i])), SpanEnd(lines, i);
      LayoutSpans(lines, i);
      forall k | i < k <= |lines|
        ensures Reads(lines, i, k, blocks[0]) <==>
                k == e && SpanOf(lines, Span(kind, i, k)) && RenderSpan(text, Span(kind, i, k)) == Rendered([blocks[0]])
      {
        BlockReadIff(text, i, k, blocks[0]);
        EndOfSpan(lines, i, k);
      }
      if e > i {
        ReadFromIff(text, e, blocks[1..]);
        LayoutSpans(lines, e);
        SpanHere(lines, i);
        if Layout(lines, e).Some? {
          NextSpan(text, Span(kind, i, e), Layout(lines, e).value, blocks);
        }
      }
    }
  }

  lemma NoSpans(text: string, blocks: seq<Block>)
    ensures OneEach(text, [], blocks) <==> blocks == []
  {
    hide Lines;
    hide RenderSpan;
  }

  lemma NoBlocks(text: string, i: nat)
    requires i < |Lines(text)| && !Blank(Lines(text)[i])
    ensures var spans := Layout(Lines(text), i);
            !(spans.Some? && SpansOf(Lines(text), spans.value) && OneEach(text, spans.value, []))
  {
    hide Lines;
    hide SpanEnd;
    hide KindOf;
    hide Blank;
    hide RenderSpan;
    hide SpanOf;
  }

  lemma EndOfSpan(lines: seq<string>, i: nat, e: nat)
    requires i < e <= |lines|
    ensures SpanOf(lines, Span(KindOf(TrimEnd(lines[i])), i, e)) ==> e == SpanEnd(lines, i)
  {
    hide SpanEnd;
    hide KindOf;
  }

  lemma SpanHere(lines: seq<string>, i: nat)
    requires i < |lines| && SpanEnd(lines, i) > i
    ensures SpanOf(lines, Span(KindOf(TrimEnd(lines[i])), i, SpanEnd(lines, i)))
  {
    hide SpanEnd;
    hide KindOf;
    hide IsQuote;
    QuoteKindIff(lines[i]);
  }

  /** The preview renders a text to a list of blocks exactly when the grammar reads its lines as that list. */
  lemma RendersIff(text: string, blocks: seq<Block>)
    ensures Render(text) == Rendered(blocks) <==> ReadFrom(Lines(text), 0, blocks)
  {
    hide Lines;
    hide SpanOf;
    hide Layout;
    hide ReadFrom;
    hide OneEach;
    LayoutSpans(Lines(text), 0);
    ReadFromIff(text, 0, blocks);
    if Layout(Lines(text), 0).Some? {
      SpansRenderIff(text, Layout(Lines(text), 0).value, blocks);
    }
  }

  // ------------------------------------------------------------------- the lines

  lemma {:induction false} JoinSplit(s: string)
    ensures Join(Split(s, IsNewline), "\n") == s
  {
    if s == "" {
    } else {
      JoinSplit(s[1..]);
      var rest := Split(s[1..], IsNewline);
      if IsNewline(s[0]) {
        assert Join([""] + rest, "\n") == "" + "\n" + Join(rest, "\n");
      } else if |rest| > 1 {
        var all := [[s[0]] + rest[0]] + rest[1..];
        assert all[1..] == rest[1..];
        assert Join(all, "\n") == [s[0]] + Join(rest, "\n");
      }
    }
  }

  lemma {:induction false} UnixAppend(a: string, b: string)
    requires a == "" || a[|a| - 1] != '\r'
    ensures UnixLines(a + b) == UnixLines(a) + UnixLines(b)
  {
    hide UnixLines;
    if a == "" {
      assert a + b == b;
      UnixNone();
    } else {
      var s, n := a + b, if a[0] == '\r' && a[1] == '\n' then 2 else 1;
      UnixAppend(a[n..], b);
      assert s[n..] == a[n..] + b;
      assert s[0] == a[0] && (|a| > 1 ==> s[1] == a[1]);
      UnixHead(s, n);
      UnixHead(a, n);
    }
  }

  lemma UnixNone()
    ensures UnixLines("") == ""
  {
  }

  lemma UnixHead(s: string, n: nat)
    requires 1 <= n <= |s| && (s[0] == '\r' ==> |s| > 1) && n == if s[0] == '\r' && s[1] == '\n' then 2 else 1
    ensures UnixLines(s) == [if s[0] == '\r' then '\n' else s[0]] + UnixLines(s[n..])
  {
  }

  /** The lines are the text without white space at its ends, cut at its line feeds. */
  lemma LinesJoined(text: string)
    requires forall i :: 0 <= i < |text| ==> text[i] != '\r'
    ensures Join(Lines(text), "\n") == Trim(text)
    ensures forall line :: line in Lines(text) ==> '\n' !in line
  {
    UnixKept(text);
    JoinSplit(Trim(text));
    forall line | line in Lines(text) ensures '\n' !in line {
      var i :| 0 <= i < |Lines(text)| && Lines(text)[i] == line;
      forall k | 0 <= k < |line| ensures line[k] != '\n' {
        assert !IsNewline(Lines(text)[i][k]);
      }
    }
  }

  lemma SameLines(s: string, t: string)
    requires Lines(s) == Lines(t)
    ensures Render(s) == Render(t)
  {
    hide Lines;
    hide Render;
    hide ReadFrom;
    if Render(s).Rendered? {
      RendersIff(s, Render(s).blocks);
      RendersIff(t, Render(s).blocks);
    } else if Render(t).Rendered? {
      RendersIff(s, Render(t).blocks);
      RendersIff(t, Render(t).blocks);
    }
  }

  lemma UnixReturn(b: string)
    ensures UnixLines("\r\n" + b) == UnixLines("\n" + b)
    ensures b == "" || b[0] != '\n' ==> UnixLines("\r" + b) == UnixLines("\n" + b)
  {
    assert ("\r\n" + b)[2..] == b && ("\r" + b)[1..] == b && ("\n" + b)[1..] == b;
    if b != "" {
      assert ("\r" + b)[1] == b[0];
    }
  }

  /** A carriage return, with or without a line feed behind it, is a line feed. */
  lemma ReturnsAreFeeds(a: string, b: string)
    requires a == "" || a[|a| - 1] != '\r'
    ensures Render(a + ("\r\n" + b)) == Render(a + ("\n" + b))
    ensures b == "" || b[0] != '\n' ==> Render(a + ("\r" + b)) == Render(a + ("\n" + b))
  {
    hide Render;
    hide Trim;
    UnixAppend(a, "\r\n" + b);
    UnixAppend(a, "\r" + b);
    UnixAppend(a, "\n" + b);
    UnixReturn(b);
    SameLines(a + ("\r\n" + b), a + ("\n" + b));
    if b == "" || b[0] != '\n' {
      SameLines(a + ("\r" + b), a + ("\n" + b));
    }
  }

  // ------------------------------------------------------------- texts of one line

  /** A text of one line that neither starts nor ends with white space. */
  predicate Word(s: string) {
    && s != "" && !IsSpace(s[0]) && !IsSpace(s[|s| - 1])
    && forall i :: 0 <= i < |s| ==> s[i] !in ['\n', '\r', '\U{2028}', '\U{2029}']
  }

  lemma OneBlock(text: string, b: Block)
    requires Word(text) && Reads([text], 0, 1, b)
    ensures Render(text) == Rendered([b])
  {
    hide Reads;
    OneLineText(text);
    assert ReadFrom([text], 1, [b][1..]);
    assert !Blank(text);
    assert Reads([text], 0, 1, [b][0]) && ReadFrom([text], 1, [b][1..]);
    RendersIff(text, [b]);
  }

  lemma WordIsCaptured(rest: string)
    requires Word(rest)
    ensures Captured(rest) && Spaced(" " + rest, rest) && HasText(" " + rest)
  {
    assert Gap(" ");
  }

  lemma WordEnds(front: string, rest: string)
    requires Word(rest) && front != "" && !IsSpace(front[0])
    requires forall i :: 0 <= i < |front| ==> front[i] !in ['\n', '\r', '\U{2028}', '\U{2029}']
    ensures Word(front + rest) && TrimEnd(front + rest) == front + rest && Trim(front + rest) == front + rest
  {
    var s := front + rest;
    assert s[|s| - 1] == rest[|rest| - 1];
    TrimWord(s);
    TrimEndWord(s);
  }

  lemma MarkerItem(marker: string, ordered: bool, rest: string)
    requires Marker(marker, ordered) && Word(rest)
    ensures var line := marker + (" " + rest); OpensList(line, ordered) && Item(line, ordered, rest)
  {
    hide Captured;
    hide HasText;
    hide Spaced;
    hide Marker;
    hide Word;
    var line := marker + (" " + rest);
    WordIsCaptured(rest);
    assert "" + marker + (" " + rest) == line;
    assert HasMarker(line, ordered, " " + rest);
  }

  lemma MarkerStarts(marker: string, ordered: bool)
    requires Marker(marker, ordered)
    ensures marker != "" && !IsSpace(marker[0])
    ensures forall i :: 0 <= i < |marker| ==> marker[i] !in ['\n', '\r', '\U{2028}', '\U{2029}']
  {
  }

  /** One line with a marker is a list of that kind with one item. */
  lemma ItemRenders(marker: string, ordered: bool, rest: string)
    requires Marker(marker, ordered) && Word(rest)
    ensures Render(marker + (" " + rest)) == Rendered([ListBlock(ordered, [rest])])
  {
    hide Word;
    hide Marker;
    hide Item;
    hide OpensList;
    hide Render;
    hide TrimEnd;
    hide Trim;
    var line := marker + (" " + rest);
    MarkerStarts(marker, ordered);
    MarkerItem(marker, ordered, rest);
    WordEnds(marker + " ", rest);
    assert marker + " " + rest == line;
    assert ReadsList([line], 0, 1, ordered, [rest]);
    OneBlock(line, ListBlock(ordered, [rest]));
  }

  /** A bullet makes an unordered list, a number an ordered one. */
  lemma BulletAndNumber(rest: string)
    requires Word(rest)
    ensures Render("- " + rest) == Rendered([ListBlock(false, [rest])])
    ensures Render("1. " + rest) == Rendered([ListBlock(true, [rest])])
  {
    hide Render;
    ItemRenders("-", false, rest);
    ItemRenders("1.", true, rest);
    assert "-" + (" " + rest) == "- " + rest && "1." + (" " + rest) == "1. " + rest;
  }

  lemma HashesHead(hashes: string, rest: string)
    requires 1 <= |hashes| <= 6 && (forall i :: 0 <= i < |hashes| ==> hashes[i] == '#') && Word(rest)
    ensures Headed(hashes + (" " + rest), |hashes|, rest)
  {
    hide Captured;
    hide HasText;
    hide Spaced;
    hide Word;
    var line := hashes + (" " + rest);
    WordIsCaptured(rest);
    assert line[|hashes|..] == " " + rest;
    assert Hashed(line, |hashes|, " " + rest);
  }

  lemma HashesLine(hashes: string, rest: string)
    requires hashes != "" && (forall i :: 0 <= i < |hashes| ==> hashes[i] == '#') && Word(rest)
    ensures var line := hashes + (" " + rest); Word(line) && TrimEnd(line) == line
  {
    hide Word;
    hide TrimEnd;
    hide Trim;
    assert hashes[0] == '#';
    WordEnds(hashes + " ", rest);
    assert hashes + " " + rest == hashes + (" " + rest);
  }

  /** So many leading hashes make a heading of that level. */
  lemma HeadingRenders(hashes: string, rest: string)
    requires 1 <= |hashes| <= 6 && (forall i :: 0 <= i < |hashes| ==> hashes[i] == '#') && Word(rest)
    ensures Render(hashes + (" " + rest)) == Rendered([Heading(|hashes|, rest)])
  {
    hide Word;
    hide Headed;
    hide Render;
    hide TrimEnd;
    hide Trim;
    var line := hashes + (" " + rest);
    HashesHead(hashes, rest);
    HashesLine(hashes, rest);
    OneBlock(line, Heading(|hashes|, rest));
  }
}
