/**
 The block structure of the Markdown preview. Text inside a block is kept as written: inline markup is not part of
 this model. A list that consumes no line makes the preview's loop repeat itself for ever; that is Diverges here.
 */
module Markdown {
  import opened Sequences
  import opened JsText

  datatype Block =
    | Heading(level: nat, text: string)
    | Rule
    | ListBlock(ordered: bool, items: seq<string>)
    | Code(text: string)
    | Quote(blocks: seq<Block>)
    | Paragraph(text: string)

  datatype Outcome = Rendered(blocks: seq<Block>) | Diverges

  const FENCE := "```"

  // -------------------------------------------------------- reading one line

  /** How many leading characters satisfy `p`. */
  function Run(s: string, p: char -> bool): (n: nat)
    ensures n <= |s|
    ensures forall i :: 0 <= i < n ==> p(s[i])
    ensures n < |s| ==> !p(s[n])
  {
    if s != "" && p(s[0]) then 1 + Run(s[1..], p) else 0
  }

  /** What a dot in a regular expression does not match. */
  predicate IsLineTerminator(c: char) {
    c in ['\n', '\r', '\U{2028}', '\U{2029}']
  }

  predicate OneLine(s: string) {
    forall i :: 0 <= i < |s| ==> !IsLineTerminator(s[i])
  }

  /** White space and then something else: \s+\S. */
  predicate BeginsText(s: string) {
    1 <= Run(s, IsSpace) < |s|
  }

  /** What \s+(.+)$ captures; the white space gives one character back if there is nothing else. */
  function CapturedText(s: string): Option<string> {
    var n := Run(s, IsSpace);
    var from := if n < |s| then n else |s| - 1;
    if from >= 1 && OneLine(s[from..]) then Some(s[from..]) else None
  }

  function Indented(line: string): string {
    line[Run(line, IsSpace)..]
  }

  function AfterBullet(line: string): Option<string> {
    var s := Indented(line);
    if s != "" && s[0] in ['-', '*', '+'] then Some(s[1..]) else None
  }

  function AfterNumber(line: string): Option<string> {
    var s := Indented(line);
    var n := Run(s, IsDigit);
    if 1 <= n < |s| && s[n] in ['.', ')'] then Some(s[n + 1..]) else None
  }

  function AfterMarker(line: string, ordered: bool): Option<string> {
    if ordered then AfterNumber(line) else AfterBullet(line)
  }

  predicate IsListItem(line: string, ordered: bool) {
    var rest := AfterMarker(line, ordered);
    rest.Some? && BeginsText(rest.value)
  }

  /** The text of a list item as the list renderer reads it. */
  function ItemText(line: string, ordered: bool): Option<string> {
    var rest := AfterMarker(line, ordered);
    if rest.None? then None else CapturedText(rest.value)
  }

  predicate IsFence(line: string) {
    StartsWith(line, FENCE)
  }

  function Hashes(line: string): nat {
    Run(line, c => c == '#')
  }

  predicate IsHeading(line: string) {
    1 <= Hashes(line) <= 6 && BeginsText(line[Hashes(line)..])
  }

  function HeadingText(line: string): Option<string> {
    if 1 <= Hashes(line) <= 6 then CapturedText(line[Hashes(line)..]) else None
  }

  predicate IsRule(line: string) {
    && line != "" && line[0] in ['-', '*', '_']
    && Run(line, c => c == line[0]) >= 3
    && Blank(line[Run(line, c => c == line[0])..])
  }

  predicate IsQuote(line: string) {
    var s := Indented(line);
    s != "" && s[0] == '>'
  }

  function Unquoted(line: string): string
    requires IsQuote(line)
  {
    var s := Indented(line)[1..];
    if s != "" && IsSpace(s[0]) then s[1..] else s
  }

  predicate IsBlockStart(line: string) {
    || IsFence(line) || IsHeading(line) || IsRule(line)
    || IsListItem(line, false) || IsListItem(line, true) || IsQuote(line)
  }

  datatype Kind = FenceKind | HeadingKind | RuleKind | ListKind(ordered: bool) | QuoteKind | ParagraphKind

  /** The block a line opens; `line` has no white space at its end. */
  function KindOf(line: string): Kind {
    if IsFence(line) then FenceKind
    else if HeadingText(line).Some? then HeadingKind
    else if IsRule(Trim(line)) then RuleKind
    else if IsListItem(line, false) then ListKind(false)
    else if IsListItem(line, true) then ListKind(true)
    else if IsQuote(line) then QuoteKind
    else ParagraphKind
  }

  // ------------------------------------------------------------- spans of lines

  /** The first line from `i` on that fails `p`, or the end. */
  function RunEnd(lines: seq<string>, i: nat, p: string -> bool): (e: nat)
    requires i <= |lines|
    ensures i <= e <= |lines|
    ensures forall k :: i <= k < e ==> p(lines[k])
    ensures e < |lines| ==> !p(lines[e])
    decreases |lines| - i
  {
    if i < |lines| && p(lines[i]) then RunEnd(lines, i + 1, p) else i
  }

  predicate ContinuesParagraph(line: string) {
    !Blank(line) && !IsBlockStart(TrimEnd(line))
  }

  /** Where the block that opens at line `i` ends; for a list this can be line `i` itself. */
  function SpanEnd(lines: seq<string>, i: nat): (e: nat)
    requires i < |lines|
    ensures i <= e <= |lines|
  {
    match KindOf(TrimEnd(lines[i]))
    case FenceKind =>
      var e := RunEnd(lines, i + 1, line => !IsFence(line));
      if e < |lines| then e + 1 else e
    case HeadingKind => i + 1
    case RuleKind => i + 1
    case ListKind(ordered) => RunEnd(lines, i, line => ItemText(line, ordered).Some?)
    case QuoteKind => RunEnd(lines, i, IsQuote)
    case ParagraphKind => RunEnd(lines, i + 1, ContinuesParagraph)
  }

  datatype Span = Span(kind: Kind, start: nat, end: nat)

  /** The blocks from line `i` on; None if a list makes no progress. */
  function Layout(lines: seq<string>, i: nat): Option<seq<Span>>
    requires i <= |lines|
    decreases |lines| - i
  {
    if i == |lines| then Some([])
    else if Blank(lines[i]) then Layout(lines, i + 1)
    else
      var e := SpanEnd(lines, i);
      if e == i then None
      else
        var rest := Layout(lines, e);
        if rest.None? then None else Some([Span(KindOf(TrimEnd(lines[i])), i, e)] + rest.value)
  }

  // ------------------------------------------------------------------- rendering

  /** Carriage returns, alone or before a line feed, become line feeds. */
  function UnixLines(s: string): (r: string)
    ensures |r| <= |s|
    ensures forall i :: 0 <= i < |r| ==> r[i] != '\r'
    ensures forall i :: 0 <= i < |r| ==> r[i] == '\n' || r[i] in s
  {
    if s == "" then ""
    else if s[0] != '\r' then [s[0]] + UnixLines(s[1..])
    else if |s| >= 2 && s[1] == '\n' then "\n" + UnixLines(s[2..])
    else "\n" + UnixLines(s[1..])
  }

  predicate IsNewline(c: char) {
    c == '\n'
  }

  function Lines(text: string): (r: seq<string>)
    ensures |r| >= 1
  {
    Split(Trim(UnixLines(text)), IsNewline)
  }

  function JoinedLength(lines: seq<string>): nat {
    if lines == [] then 0 else |lines[0]| + 1 + JoinedLength(lines[1..])
  }

  lemma {:induction false} JoinLength(lines: seq<string>)
    requires lines != []
    ensures |Join(lines, "\n")| + 1 == JoinedLength(lines)
  {
    if |lines| > 1 {
      JoinLength(lines[1..]);
    } else {
      assert JoinedLength(lines[1..]) == 0;
    }
  }

  lemma {:induction false} SplitLength(s: string, cut: char -> bool)
    ensures JoinedLength(Split(s, cut)) == |s| + 1
  {
    if s == "" {
    } else {
      SplitLength(s[1..], cut);
      var rest := Split(s[1..], cut);
      if cut(s[0]) {
        assert ([""] + rest)[1..] == rest;
      } else {
        assert ([[s[0]] + rest[0]] + rest[1..])[1..] == rest[1..];
      }
    }
  }

  lemma {:induction false} SliceLength(lines: seq<string>, i: nat, e: nat)
    requires i <= e <= |lines|
    ensures JoinedLength(lines[i..e]) <= JoinedLength(lines)
    decreases |lines|
  {
    if lines == [] {
    } else if i > 0 {
      SliceLength(lines[1..], i - 1, e - 1);
      assert lines[1..][i - 1..e - 1] == lines[i..e];
    } else if e > 0 {
      SliceLength(lines[1..], 0, e - 1);
      assert lines[0..e][1..] == lines[1..][0..e - 1];
    }
  }

  lemma {:induction false} UnquotedLength(lines: seq<string>)
    requires forall line :: line in lines ==> IsQuote(line)
    ensures JoinedLength(Map(lines, UnquotedOr)) <= JoinedLength(lines)
    ensures lines != [] ==> JoinedLength(Map(lines, UnquotedOr)) < JoinedLength(lines)
  {
    if lines == [] {
    } else {
      assert IsQuote(lines[0]);
      UnquotedLength(lines[1..]);
      assert Map(lines, UnquotedOr)[1..] == Map(lines[1..], UnquotedOr);
    }
  }

  function UnquotedOr(line: string): string {
    if IsQuote(line) then Unquoted(line) else line
  }

  /** The lines of the quote that starts at line `k`, without their marks: shorter than the text they stand in. */
  function QuotedText(text: string, k: nat): (r: string)
    requires k < |Lines(text)| && IsQuote(Lines(text)[k])
    ensures |r| < |text|
  {
    var lines := Lines(text);
    var quoted := lines[k..RunEnd(lines, k, IsQuote)];
    QuotedLength(text, k);
    Join(Map(quoted, UnquotedOr), "\n")
  }

  lemma LinesLength(text: string)
    ensures JoinedLength(Lines(text)) <= |text| + 1
  {
    SplitLength(Trim(UnixLines(text)), IsNewline);
  }

  lemma RunLength(lines: seq<string>, k: nat)
    requires k < |lines| && IsQuote(lines[k])
    ensures |Join(Map(lines[k..RunEnd(lines, k, IsQuote)], UnquotedOr), "\n")| + 1 < JoinedLength(lines)
  {
    hide IsQuote;
    hide UnquotedOr;
    hide Join;
    hide JoinedLength;
    var e := RunEnd(lines, k, IsQuote);
    var quoted := lines[k..e];
    assert e > k;
    forall line | line in quoted ensures IsQuote(line) {
      var i :| 0 <= i < |quoted| && quoted[i] == line;
      assert lines[k + i] == line;
    }
    UnquotedLength(quoted);
    JoinLength(Map(quoted, UnquotedOr));
    SliceLength(lines, k, e);
  }

  lemma QuotedLength(text: string, k: nat)
    requires k < |Lines(text)| && IsQuote(Lines(text)[k])
    ensures |Join(Map(Lines(text)[k..RunEnd(Lines(text), k, IsQuote)], UnquotedOr), "\n")| < |text|
  {
    hide Lines;
    hide IsQuote;
    hide Join;
    hide RunEnd;
    LinesLength(text);
    RunLength(Lines(text), k);
  }

  function TextOr(text: Option<string>): string {
    if text.Some? then text.value else ""
  }

  /** A span other than a quote, rendered. */
  function PlainBlock(lines: seq<string>, s: Span): Block
    requires s.start < s.end <= |lines|
  {
    var first := TrimEnd(lines[s.start]);
    match s.kind
    case HeadingKind => Heading(Hashes(first), TextOr(HeadingText(first)))
    case RuleKind => Rule
    case ListKind(ordered) =>
      ListBlock(ordered, Map(lines[s.start..s.end], line => TextOr(ItemText(line, ordered))))
    case FenceKind =>
      Code(Join(lines[s.start + 1..RunEnd(lines, s.start + 1, line => !IsFence(line))], "\n"))
    case _ => Paragraph(Join(Map(lines[s.start..s.end], Trim), " "))
  }

  predicate SpanOf(lines: seq<string>, s: Span) {
    && s.start < s.end <= |lines|
    && s.kind == KindOf(TrimEnd(lines[s.start])) && s.end == SpanEnd(lines, s.start)
    && (s.kind == QuoteKind ==> IsQuote(lines[s.start]))
  }

  predicate SpansOf(lines: seq<string>, spans: seq<Span>) {
    forall i :: 0 <= i < |spans| ==> SpanOf(lines, spans[i])
  }

  /** A text is rendered span by span; a quote renders its text the same way. */
  function Render(text: string): Outcome
    decreases |text|, 1, 0
  {
    var spans := Layout(Lines(text), 0);
    LayoutSpans(Lines(text), 0);
    if spans.None? then Diverges else RenderSpans(text, spans.value)
  }

  function RenderSpans(text: string, spans: seq<Span>): Outcome
    requires SpansOf(Lines(text), spans)
    decreases |text|, 0, |spans|
  {
    hide Lines;
    hide SpanOf;
    if spans == [] then Rendered([])
    else
      var n := |spans| - 1;
      var init := RenderSpans(text, spans[..n]);
      var last := RenderSpan(text, spans[n]);
      if init.Diverges? || last.Diverges? then Diverges else Rendered(init.blocks + last.blocks)
  }

  function RenderSpan(text: string, s: Span): Outcome
    requires SpanOf(Lines(text), s)
    decreases |text|, 0, 0
  {
    if s.kind != QuoteKind then Rendered([PlainBlock(Lines(text), s)])
    else
      var inner := Render(QuotedText(text, s.start));
      if inner.Diverges? then Diverges else Rendered([Quote(inner.blocks)])
  }

  // --------------------------------------------------- what opens at a line

  /** The first character that is not white space. */
  function Lead(line: string): Option<char> {
    var s := Indented(line);
    if s == "" then None else Some(s[0])
  }

  lemma {:induction false} RunAt(s: string, p: char -> bool, n: nat)
    requires n <= |s| && (forall i :: 0 <= i < n ==> p(s[i])) && (n < |s| ==> !p(s[n]))
    ensures Run(s, p) == n
  {
  }

  lemma LeadKept(line: string)
    ensures Lead(TrimEnd(line)) == Lead(line)
    ensures Blank(line) <==> Lead(line).None?
    ensures Trim(line) != "" ==> Lead(line) == Some(Trim(line)[0])
  {
    var t, n := TrimEnd(line), Run(line, IsSpace);
    if n < |line| {
      assert |t| > n;
      RunAt(t, IsSpace, n);
    } else {
      assert t == "";
    }
    var u := TrimStart(line);
    if u != "" {
      RunAt(line, IsSpace, |line| - |u|);
      assert u[0] == line[n];
    }
  }

  lemma LeadOfPrefix(line: string)
    ensures IsFence(line) ==> Lead(line) == Some('`')
    ensures Hashes(line) >= 1 ==> Lead(line) == Some('#')
  {
    if IsFence(line) {
      assert line[0] == FENCE[0];
      RunAt(line, IsSpace, 0);
    }
    if Hashes(line) >= 1 {
      assert line[0] == '#';
      RunAt(line, IsSpace, 0);
    }
  }

  lemma LeadOfRule(line: string)
    ensures IsRule(Trim(line)) ==> Lead(line).Some? && Lead(line).value in ['-', '*', '_']
  {
    hide Lead;
    LeadKept(line);
  }

  lemma LeadOfMarker(line: string)
    ensures AfterBullet(line).Some? ==> Lead(line).Some? && Lead(line).value in ['-', '*', '+']
    ensures AfterNumber(line).Some? ==> Lead(line).Some? && IsDigit(Lead(line).value)
    ensures IsQuote(line) <==> Lead(line) == Some('>')
  {
    hide Indented;
    if AfterNumber(line).Some? {
      var s := Indented(line);
      assert 0 < Run(s, IsDigit);
    }
  }

  lemma LeadOf(line: string)
    ensures IsFence(line) ==> Lead(line) == Some('`')
    ensures Hashes(line) >= 1 ==> Lead(line) == Some('#')
    ensures AfterBullet(line).Some? ==> Lead(line).Some? && Lead(line).value in ['-', '*', '+']
    ensures AfterNumber(line).Some? ==> Lead(line).Some? && IsDigit(Lead(line).value)
    ensures IsQuote(line) <==> Lead(line) == Some('>')
    ensures IsRule(Trim(line)) ==> Lead(line).Some? && Lead(line).value in ['-', '*', '_']
  {
    hide IsFence;
    hide Hashes;
    hide AfterBullet;
    hide AfterNumber;
    hide IsQuote;
    hide IsRule;
    hide Lead;
    hide Trim;
    LeadOfPrefix(line);
    LeadOfMarker(line);
    LeadOfRule(line);
  }

  lemma FenceKept(line: string)
    ensures IsFence(TrimEnd(line)) <==> IsFence(line)
  {
    var t := TrimEnd(line);
    if IsFence(line) {
      assert line[2] == '`';
      assert |t| > 2;
    }
  }

  lemma QuoteKindIff(line: string)
    ensures KindOf(TrimEnd(line)) == QuoteKind <==> IsQuote(line)
  {
    hide IsFence;
    hide IsRule;
    hide IsQuote;
    hide Hashes;
    hide Lead;
    hide Trim;
    hide AfterBullet;
    hide AfterNumber;
    LeadKept(line);
    LeadOf(line);
    LeadOf(TrimEnd(line));
  }

  lemma LayoutSpans(lines: seq<string>, i: nat)
    requires i <= |lines|
    ensures Layout(lines, i).Some? ==> SpansOf(lines, Layout(lines, i).value)
    decreases |lines| - i
  {
    hide KindOf;
    hide Blank;
    hide IsQuote;
    if i == |lines| {
    } else {
      if Blank(lines[i]) {
        LayoutSpans(lines, i + 1);
      } else if SpanEnd(lines, i) > i {
        LayoutSpans(lines, SpanEnd(lines, i));
        QuoteKindIff(lines[i]);
      }
    }
  }

  // -------------------------------------------------------------------- the loops

  method RenderList(lines: seq<string>, start: nat, ordered: bool) returns (items: seq<string>, next: nat)
    requires start <= |lines|
    ensures next == RunEnd(lines, start, line => ItemText(line, ordered).Some?)
    ensures items == Map(lines[start..next], line => TextOr(ItemText(line, ordered)))
  {
    hide ItemText;
    items, next := [], start;
    ghost var read := (line: string) => TextOr(ItemText(line, ordered));
    while next < |lines|
      invariant start <= next <= |lines|
      invariant items == Map(lines[start..next], read)
      invariant RunEnd(lines, start, line => ItemText(line, ordered).Some?) ==
                RunEnd(lines, next, line => ItemText(line, ordered).Some?)
    {
      var text := ItemText(lines[next], ordered);
      if text.None? {
        break;
      }
      MapSlice(lines, start, next, read);
      items := items + [text.value];
      next := next + 1;
    }
  }

  lemma MapSlice<T, U>(s: seq<T>, i: nat, k: nat, f: T -> U)
    requires i <= k < |s|
    ensures Map(s[i..k + 1], f) == Map(s[i..k], f) + [f(s[k])]
  {
    assert s[i..k + 1] == s[i..k] + [s[k]];
    MapAppend(s[i..k], [s[k]], f);
  }

  method RenderCodeBlock(lines: seq<string>, start: nat) returns (code: string, next: nat)
    requires start < |lines|
    ensures var e := RunEnd(lines, start + 1, line => !IsFence(line));
            code == Join(lines[start + 1..e], "\n") && next == if e < |lines| then e + 1 else e
  {
    hide IsFence;
    var codeLines: seq<string> := [];
    var index := start + 1;
    while index < |lines| && !IsFence(lines[index])
      invariant start + 1 <= index <= |lines|
      invariant codeLines == lines[start + 1..index]
      invariant RunEnd(lines, start + 1, line => !IsFence(line)) == RunEnd(lines, index, line => !IsFence(line))
    {
      codeLines := codeLines + [lines[index]];
      index := index + 1;
    }
    code := Join(codeLines, "\n");
    next := if index < |lines| then index + 1 else index;
  }

  method RenderBlockquote(text: string, start: nat) returns (quote: Outcome, next: nat)
    requires start < |Lines(text)| && IsQuote(Lines(text)[start])
    ensures next == RunEnd(Lines(text), start, IsQuote)
    ensures quote == Render(QuotedText(text, start))
    decreases |text|, 0, 0
  {
    hide IsQuote;
    hide UnquotedOr;
    hide Lines;
    hide Join;
    var lines := Lines(text);
    var quoteLines: seq<string> := [];
    next := start;
    while next < |lines| && IsQuote(lines[next])
      invariant start <= next <= |lines|
      invariant quoteLines == Map(lines[start..next], UnquotedOr)
      invariant RunEnd(lines, start, IsQuote) == RunEnd(lines, next, IsQuote)
    {
      MapSlice(lines, start, next, UnquotedOr);
      quoteLines := quoteLines + [UnquotedOr(lines[next])];
      next := next + 1;
    }
    QuotedLength(text, start);
    assert Join(quoteLines, "\n") == QuotedText(text, start);
    quote := RenderSafeMarkdown(Join(quoteLines, "\n"));
  }

  method RenderParagraph(lines: seq<string>, start: nat) returns (text: string, next: nat)
    requires start < |lines| && !Blank(lines[start])
    ensures next == RunEnd(lines, start + 1, ContinuesParagraph)
    ensures text == Join(Map(lines[start..next], Trim), " ")
  {
    hide IsBlockStart;
    hide Trim;
    hide TrimEnd;
    hide Blank;
    var paragraphLines: seq<string> := [];
    next := start;
    while next < |lines|
      invariant start <= next <= |lines|
      invariant paragraphLines == Map(lines[start..next], Trim)
      invariant next > start ==>
                  RunEnd(lines, start + 1, ContinuesParagraph) == RunEnd(lines, next, ContinuesParagraph)
    {
      if Blank(lines[next]) {
        break;
      }
      if |paragraphLines| > 0 && IsBlockStart(TrimEnd(lines[next])) {
        break;
      }
      MapSlice(lines, start, next, Trim);
      paragraphLines := paragraphLines + [Trim(lines[next])];
      next := next + 1;
    }
    text := Join(paragraphLines, " ");
  }

  /** The block at line `index`, and the line behind it. */
  method RenderBlock(text: string, index: nat) returns (block: Outcome, next: nat)
    requires index < |Lines(text)| && !Blank(Lines(text)[index])
    ensures next == SpanEnd(Lines(text), index)
    ensures next > index ==>
              var s := Span(KindOf(TrimEnd(Lines(text)[index])), index, next);
              SpanOf(Lines(text), s) && block == RenderSpan(text, s)
    decreases |text|, 0, 1
  {
    hide Blank;
    hide Lines;
    hide IsFence;
    hide HeadingText;
    hide IsRule;
    hide IsListItem;
    hide IsQuote;
    hide Trim;
    hide TrimEnd;
    hide ItemText;
    hide Join;
    var lines := Lines(text);
    var line := TrimEnd(lines[index]);
    QuoteKindIff(lines[index]);
    if IsFence(line) {
      var code;
      code, next := RenderCodeBlock(lines, index);
      block := Rendered([Code(code)]);
    } else if HeadingText(line).Some? {
      block, next := Rendered([Heading(Hashes(line), HeadingText(line).value)]), index + 1;
    } else if IsRule(Trim(line)) {
      block, next := Rendered([Rule]), index + 1;
    } else if IsListItem(line, false) {
      var items;
      items, next := RenderList(lines, index, false);
      block := Rendered([ListBlock(false, items)]);
    } else if IsListItem(line, true) {
      var items;
      items, next := RenderList(lines, index, true);
      block := Rendered([ListBlock(true, items)]);
    } else if IsQuote(line) {
      block, next := RenderBlockquote(text, index);
      if block.Rendered? {
        block := Rendered([Quote(block.blocks)]);
      }
    } else {
      var paragraph;
      paragraph, next := RenderParagraph(lines, index);
      block := Rendered([Paragraph(paragraph)]);
    }
  }

  function Prefixed(spans: seq<Span>, rest: Option<seq<Span>>): Option<seq<Span>> {
    if rest.None? then None else Some(spans + rest.value)
  }

  lemma PrefixedStep(spans: seq<Span>, s: Span, rest: Option<seq<Span>>)
    ensures Prefixed([], rest) == rest
    ensures Prefixed(spans, Prefixed([s], rest)) == Prefixed(spans + [s], rest)
  {
    if rest.Some? {
      assert [] + rest.value == rest.value;
      assert spans + ([s] + rest.value) == spans + [s] + rest.value;
    }
  }

  lemma SpansAppend(text: string, spans: seq<Span>, s: Span)
    requires SpansOf(Lines(text), spans) && SpanOf(Lines(text), s)
    ensures SpansOf(Lines(text), spans + [s])
    ensures RenderSpans(text, spans + [s]) ==
            var init, last := RenderSpans(text, spans), RenderSpan(text, s);
            if init.Diverges? || last.Diverges? then Diverges else Rendered(init.blocks + last.blocks)
  {
    hide Lines;
    hide SpanOf;
    assert (spans + [s])[..|spans|] == spans;
  }

  lemma {:induction false} StaysDiverged(text: string, spans: seq<Span>, rest: Option<seq<Span>>)
    requires SpansOf(Lines(text), spans) && (rest.Some? ==> SpansOf(Lines(text), rest.value))
    requires RenderSpans(text, spans).Diverges?
    ensures var all := Prefixed(spans, rest);
            all.Some? ==> SpansOf(Lines(text), all.value) && RenderSpans(text, all.value).Diverges?
    decreases if rest.Some? then |rest.value| else 0
  {
    hide Lines;
    hide SpanOf;
    if rest.Some? {
      if rest.value == [] {
        assert spans + rest.value == spans;
      } else {
        var n := |rest.value| - 1;
        StaysDiverged(text, spans, Some(rest.value[..n]));
        SpansAppend(text, spans + rest.value[..n], rest.value[n]);
        assert spans + rest.value == spans + rest.value[..n] + [rest.value[n]];
      }
    }
  }

  /** The main loop; a block that consumes no line would be rendered again and again. */
  method RenderSafeMarkdown(text: string) returns (outcome: Outcome)
    ensures outcome == Render(text)
    decreases |text|, 1, 0
  {
    hide Lines;
    hide SpanOf;
    hide SpanEnd;
    hide KindOf;
    hide RenderSpan;
    var lines := Lines(text);
    LayoutSpans(lines, 0);
    ghost var spans: seq<Span> := [];
    PrefixedStep([], Span(RuleKind, 0, 0), Layout(lines, 0));
    var blocks: seq<Block> := [];
    var index := 0;
    while index < |lines|
      invariant index <= |lines|
      invariant SpansOf(lines, spans)
      invariant Layout(lines, 0) == Prefixed(spans, Layout(lines, index))
      invariant RenderSpans(text, spans) == Rendered(blocks)
      decreases |lines| - index
    {
      if Blank(lines[index]) {
        index := index + 1;
        continue;
      }
      var block, next := RenderBlock(text, index);
      if next == index {
        return Diverges;
      }
      ghost var span := Span(KindOf(TrimEnd(lines[index])), index, next);
      LayoutSpans(lines, next);
      SpansAppend(text, spans, span);
      PrefixedStep(spans, span, Layout(lines, next));
      if block.Diverges? {
        StaysDiverged(text, spans + [span], Layout(lines, next));
        return Diverges;
      }
      spans, blocks, index := spans + [span], blocks + block.blocks, next;
    }
    assert spans + [] == spans;
    outcome := Rendered(blocks);
  }
}
