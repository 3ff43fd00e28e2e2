/** The preview's blocks partition the lines, and exactly which texts it can never finish. */
module MarkdownTheorems {
  import opened Sequences
  import opened JsText
  import opened Markdown

  // ------------------------------------------------------------ the partition

  predicate Holds(s: Span, i: nat) {
    s.start <= i < s.end
  }

  ghost predicate Covered(spans: seq<Span>, i: nat) {
    exists j :: 0 <= j < |spans| && Holds(spans[j], i)
  }

  /** The spans stand in order between `from` and the last line, one behind the other, none of them empty. */
  ghost predicate InOrder(spans: seq<Span>, from: nat, end: nat) {
    && (forall j :: 0 <= j < |spans| ==> from <= spans[j].start < spans[j].end <= end)
    && (forall j, k :: 0 <= j < k < |spans| ==> spans[j].end <= spans[k].start)
  }

  lemma {:induction false} LayoutInOrder(lines: seq<string>, i: nat)
    requires i <= |lines| && Layout(lines, i).Some?
    ensures InOrder(Layout(lines, i).value, i, |lines|)
    decreases |lines| - i
  {
    hide SpanEnd;
    hide KindOf;
    hide Blank;
    if i == |lines| {
    } else {
      if Blank(lines[i]) {
        LayoutInOrder(lines, i + 1);
      } else {
        LayoutInOrder(lines, SpanEnd(lines, i));
      }
    }
  }

  lemma {:induction false} LayoutCovers(lines: seq<string>, i: nat, k: nat)
    requires i <= k < |lines| && Layout(lines, i).Some? && !Blank(lines[k])
    ensures Covered(Layout(lines, i).value, k)
    decreases |lines| - i
  {
    hide SpanEnd;
    hide KindOf;
    hide Blank;
    var spans := Layout(lines, i).value;
    if Blank(lines[i]) {
      LayoutCovers(lines, i + 1, k);
    } else {
      var e := SpanEnd(lines, i);
      if k < e {
        assert Holds(spans[0], k);
      } else {
        LayoutCovers(lines, e, k);
        var rest := Layout(lines, e).value;
        var j :| 0 <= j < |rest| && Holds(rest[j], k);
        assert spans[j + 1] == rest[j];
      }
    }
  }

  lemma InOrderOnce(spans: seq<Span>, from: nat, end: nat, i: nat)
    requires InOrder(spans, from, end) && Covered(spans, i)
    ensures exists j :: 0 <= j < |spans| && Holds(spans[j], i)
                        && forall k :: 0 <= k < |spans| && Holds(spans[k], i) ==> k == j
  {
    forall a, b | 0 <= a < b < |spans| ensures !(Holds(spans[a], i) && Holds(spans[b], i)) {
      assert spans[a].end <= spans[b].start;
    }
    var j :| 0 <= j < |spans| && Holds(spans[j], i);
  }

  /** Blocks take disjoint ranges of lines, in order; every line that is not blank lies in exactly one of them. */
  lemma BlocksPartitionLines(lines: seq<string>)
    requires Layout(lines, 0).Some?
    ensures var spans := Layout(lines, 0).value;
            && InOrder(spans, 0, |lines|)
            && (forall s :: s in spans ==> SpanOf(lines, s))
            && forall i :: 0 <= i < |lines| && !Blank(lines[i]) ==>
                 exists j :: 0 <= j < |spans| && Holds(spans[j], i)
                             && forall k :: 0 <= k < |spans| && Holds(spans[k], i) ==> k == j
  {
    hide Blank;
    hide InOrder;
    hide Covered;
    hide SpanOf;
    var spans := Layout(lines, 0).value;
    LayoutInOrder(lines, 0);
    LayoutSpans(lines, 0);
    forall i | 0 <= i < |lines| && !Blank(lines[i])
      ensures exists j :: 0 <= j < |spans| && Holds(spans[j], i)
                          && forall k :: 0 <= k < |spans| && Holds(spans[k], i) ==> k == j
    {
      LayoutCovers(lines, 0, i);
      InOrderOnce(spans, 0, |lines|, i);
    }
  }

  // ------------------------------------------------- what a line can be, again

  /** The line opens a list, but the list renderer does not read it as an item. */
  predicate Stuck(line: string) {
    var kind := KindOf(TrimEnd(line));
    kind.ListKind? && ItemText(line, kind.ordered).None?
  }

  /** Between an opening fence and its closing one (or the end); fences alternate. */
  predicate InCode(lines: seq<string>, k: nat)
    requires k <= |lines|
  {
    k > 0 && if IsFence(lines[k - 1]) then !InCode(lines, k - 1) else InCode(lines, k - 1)
  }

  lemma ItemLead(line: string, ordered: bool)
    requires ItemText(line, ordered).Some? || IsListItem(line, ordered)
    ensures Lead(line).Some?
    ensures if ordered then IsDigit(Lead(line).value) else Lead(line).value in ['-', '*', '+']
  {
    hide Lead;
    hide AfterBullet;
    hide AfterNumber;
    LeadOfMarker(line);
  }

  lemma StuckLine(line: string)
    requires Stuck(line)
    ensures !Blank(line) && !IsFence(line) && !IsQuote(line) && IsBlockStart(TrimEnd(line))
    ensures forall ordered :: ItemText(line, ordered).None?
  {
    hide IsFence;
    hide IsListItem;
    hide HeadingText;
    hide IsRule;
    hide Lead;
    hide Trim;
    hide TrimEnd;
    hide Blank;
    hide ItemText;
    hide IsQuote;
    LeadKept(line);
    FenceKept(line);
    QuoteKindIff(line);
    var kind := KindOf(TrimEnd(line));
    ItemLead(TrimEnd(line), kind.ordered);
    forall ordered ensures ItemText(line, ordered).None? {
      if ItemText(line, ordered).Some? {
        ItemLead(line, ordered);
      }
    }
  }

  lemma ItemLine(line: string, ordered: bool)
    requires ItemText(line, ordered).Some?
    ensures !IsFence(line) && !IsQuote(line)
  {
    hide IsFence;
    hide IsQuote;
    hide Lead;
    hide ItemText;
    ItemLead(line, ordered);
    LeadOfPrefix(line);
    LeadOfMarker(line);
  }

  lemma QuoteLine(line: string)
    requires IsQuote(line)
    ensures !IsFence(line)
  {
    hide Lead;
    LeadOfPrefix(line);
    LeadOfMarker(line);
  }

  lemma ParagraphLine(line: string)
    requires ContinuesParagraph(line)
    ensures !IsFence(line) && !IsQuote(line)
  {
    hide IsFence;
    hide IsHeading;
    hide IsRule;
    hide IsListItem;
    hide IsQuote;
    hide Lead;
    LeadKept(line);
    FenceKept(line);
    LeadOfMarker(line);
    LeadOfMarker(TrimEnd(line));
  }

  lemma KindLine(line: string)
    requires !Blank(line)
    ensures KindOf(TrimEnd(line)) == FenceKind <==> IsFence(line)
    ensures KindOf(TrimEnd(line)) == QuoteKind <==> IsQuote(line)
  {
    hide KindOf;
    hide IsFence;
    hide IsQuote;
    hide TrimEnd;
    FenceKept(line);
    QuoteKindIff(line);
    FenceOpensCode(TrimEnd(line));
  }

  lemma FenceOpensCode(line: string)
    ensures KindOf(line) == FenceKind <==> IsFence(line)
  {
    hide IsFence;
    hide HeadingText;
    hide IsRule;
    hide IsListItem;
    hide IsQuote;
    hide Trim;
  }

  // ----------------------------------------------------- the end of one block

  /** Lines from `i` to `e` without a fence leave the code state as it is. */
  lemma {:induction false} NoFence(lines: seq<string>, i: nat, e: nat)
    requires i <= e <= |lines| && forall k :: i <= k < e ==> !IsFence(lines[k])
    ensures forall k :: i <= k <= e ==> InCode(lines, k) == InCode(lines, i)
    decreases e - i
  {
    hide IsFence;
    if i == e {
    } else {
      NoFence(lines, i, e - 1);
    }
  }

  /** A line that matters to the list or the quote renderer: stuck, or a quote line. */
  predicate Marked(line: string) {
    Stuck(line) || IsQuote(line)
  }

  /** Behind a block that is not stuck, the scan is outside code, and no open line it took was marked unless a quote. */
  lemma BlockEnd(lines: seq<string>, i: nat)
    requires i < |lines| && !Blank(lines[i]) && !InCode(lines, i)
    ensures var e := SpanEnd(lines, i);
            && (e == i <==> Stuck(lines[i]))
            && (e > i ==> e == |lines| || !InCode(lines, e))
            && (e > i && !IsQuote(lines[i]) ==>
                  forall k :: i <= k < e && !InCode(lines, k) ==> !Marked(lines[k]))
            && (e > i && !IsQuote(lines[i]) ==> !IsQuote(lines[e - 1]) || InCode(lines, e - 1))
  {
    hide IsFence;
    hide IsQuote;
    hide ItemText;
    hide KindOf;
    hide Blank;
    hide ContinuesParagraph;
    hide InCode;
    KindLine(lines[i]);
    match KindOf(TrimEnd(lines[i]))
    case FenceKind => CodeEnd(lines, i);
    case QuoteKind => QuoteEnd(lines, i);
    case ListKind(ordered) => ListEnd(lines, i, ordered);
    case ParagraphKind => ParagraphEnd(lines, i);
    case _ => SingleEnd(lines, i);
  }

  lemma CodeStep(lines: seq<string>, k: nat)
    requires k < |lines|
    ensures InCode(lines, k + 1) == if IsFence(lines[k]) then !InCode(lines, k) else InCode(lines, k)
  {
  }

  lemma CodeEnd(lines: seq<string>, i: nat)
    requires i < |lines| && IsFence(lines[i]) && !InCode(lines, i)
    ensures var s := RunEnd(lines, i + 1, line => !IsFence(line));
            var e := if s < |lines| then s + 1 else s;
            && (e == |lines| || !InCode(lines, e))
            && !Marked(lines[i]) && (forall k :: i < k < e ==> InCode(lines, k))
  {
    hide IsFence;
    hide IsQuote;
    hide KindOf;
    hide InCode;
    hide ItemText;
    var s := RunEnd(lines, i + 1, line => !IsFence(line));
    CodeStep(lines, i);
    NoFence(lines, i + 1, s);
    if s < |lines| {
      CodeStep(lines, s);
    }
    NotMarkedFence(lines[i]);
  }

  lemma NotMarkedFence(line: string)
    requires IsFence(line)
    ensures !Marked(line)
  {
    hide IsFence;
    hide IsQuote;
    hide Stuck;
    if Stuck(line) { StuckLine(line); }
    if IsQuote(line) { QuoteLine(line); }
  }

  lemma QuoteEnd(lines: seq<string>, i: nat)
    requires i < |lines| && IsQuote(lines[i]) && !InCode(lines, i)
    ensures var e := RunEnd(lines, i, IsQuote);
            && e > i && !Stuck(lines[i]) && (e < |lines| ==> !InCode(lines, e) && !IsQuote(lines[e]))
            && (forall k :: i <= k < e ==> IsQuote(lines[k]) && !Stuck(lines[k]))
  {
    hide IsFence;
    hide IsQuote;
    hide Stuck;
    hide InCode;
    var e := RunEnd(lines, i, IsQuote);
    forall k | i <= k < e ensures !IsFence(lines[k]) && !Stuck(lines[k]) {
      QuoteLine(lines[k]);
      if Stuck(lines[k]) { StuckLine(lines[k]); }
    }
    NoFence(lines, i, e);
  }

  lemma NotMarkedItem(line: string, ordered: bool)
    requires ItemText(line, ordered).Some?
    ensures !Marked(line) && !IsFence(line)
  {
    hide IsFence;
    hide IsQuote;
    hide Stuck;
    hide ItemText;
    ItemLine(line, ordered);
    if Stuck(line) { StuckLine(line); }
  }

  lemma ListEnd(lines: seq<string>, i: nat, ordered: bool)
    requires i < |lines| && KindOf(TrimEnd(lines[i])) == ListKind(ordered) && !InCode(lines, i)
    ensures var e := RunEnd(lines, i, line => ItemText(line, ordered).Some?);
            && (e == i <==> Stuck(lines[i]))
            && (e == |lines| || !InCode(lines, e))
            && (forall k :: i <= k < e ==> !Marked(lines[k]))
  {
    hide IsFence;
    hide IsQuote;
    hide ItemText;
    hide KindOf;
    hide InCode;
    hide Marked;
    var e := RunEnd(lines, i, line => ItemText(line, ordered).Some?);
    forall k | i <= k < e ensures !IsFence(lines[k]) && !Marked(lines[k]) {
      NotMarkedItem(lines[k], ordered);
    }
    NoFence(lines, i, e);
  }

  lemma NotMarkedParagraph(line: string)
    requires ContinuesParagraph(line)
    ensures !Marked(line) && !IsFence(line)
  {
    hide IsFence;
    hide IsQuote;
    hide Stuck;
    hide IsBlockStart;
    ParagraphLine(line);
    if Stuck(line) { StuckLine(line); }
  }

  lemma NotMarkedPlain(line: string)
    requires !Blank(line) && KindOf(TrimEnd(line)) in {HeadingKind, RuleKind, ParagraphKind}
    ensures !Marked(line) && !IsFence(line)
  {
    hide IsFence;
    hide IsQuote;
    hide KindOf;
    hide ItemText;
    KindLine(line);
  }

  lemma ParagraphEnd(lines: seq<string>, i: nat)
    requires i < |lines| && !Blank(lines[i]) && KindOf(TrimEnd(lines[i])) == ParagraphKind && !InCode(lines, i)
    ensures var e := RunEnd(lines, i + 1, ContinuesParagraph);
            && (e == |lines| || !InCode(lines, e))
            && (forall k :: i <= k < e ==> !Marked(lines[k]))
  {
    hide IsFence;
    hide KindOf;
    hide InCode;
    hide Marked;
    hide ContinuesParagraph;
    var e := RunEnd(lines, i + 1, ContinuesParagraph);
    forall k | i <= k < e ensures !IsFence(lines[k]) && !Marked(lines[k]) {
      if k == i {
        NotMarkedPlain(lines[k]);
      } else {
        NotMarkedParagraph(lines[k]);
      }
    }
    NoFence(lines, i, e);
  }

  lemma SingleEnd(lines: seq<string>, i: nat)
    requires i < |lines| && !Blank(lines[i]) && !InCode(lines, i)
    requires KindOf(TrimEnd(lines[i])) in {HeadingKind, RuleKind}
    ensures !InCode(lines, i + 1) && !Marked(lines[i])
  {
    hide IsFence;
    hide KindOf;
    hide Marked;
    NotMarkedPlain(lines[i]);
    CodeStep(lines, i);
  }

  lemma BlankLine(line: string)
    requires Blank(line)
    ensures !IsFence(line) && !Marked(line)
  {
    hide Lead;
    hide Stuck;
    LeadKept(line);
    LeadOfPrefix(line);
    LeadOfMarker(line);
    if Stuck(line) { StuckLine(line); }
  }

  // --------------------------------------------------- exactly when it diverges

  /** A stuck line outside code, from line `i` on. */
  ghost predicate StuckFrom(lines: seq<string>, i: nat) {
    exists k :: i <= k < |lines| && !InCode(lines, k) && Stuck(lines[k])
  }

  /** A quote opens here: outside code, and the line before is no quote line. */
  predicate OpensQuote(lines: seq<string>, k: nat)
    requires k < |lines|
  {
    !InCode(lines, k) && IsQuote(lines[k]) && (k == 0 || !IsQuote(lines[k - 1]) || InCode(lines, k - 1))
  }

  lemma {:induction false} LayoutStuckIff(lines: seq<string>, i: nat)
    requires i <= |lines| && (i == |lines| || !InCode(lines, i))
    ensures Layout(lines, i).None? <==> StuckFrom(lines, i)
    decreases |lines| - i
  {
    hide SpanEnd;
    hide KindOf;
    hide Blank;
    hide InCode;
    hide Stuck;
    hide IsQuote;
    if i == |lines| {
    } else {
      if Blank(lines[i]) {
        BlankLine(lines[i]);
        CodeStep(lines, i);
        LayoutStuckIff(lines, i + 1);
      } else {
        BlockEnd(lines, i);
        var e := SpanEnd(lines, i);
        if e > i {
          LayoutStuckIff(lines, e);
          if IsQuote(lines[i]) {
            KindLine(lines[i]);
            QuoteSpan(lines, i);
          }
        }
      }
    }
  }

  lemma QuoteSpan(lines: seq<string>, i: nat)
    requires i < |lines| && IsQuote(lines[i]) && !InCode(lines, i)
    ensures var e := SpanEnd(lines, i);
            && e > i && e == RunEnd(lines, i, IsQuote) && (e < |lines| ==> !InCode(lines, e) && !IsQuote(lines[e]))
            && (forall k :: i <= k < e ==> IsQuote(lines[k]) && !Stuck(lines[k]) && !InCode(lines, k))
  {
    hide IsFence;
    hide IsQuote;
    hide KindOf;
    hide InCode;
    hide Stuck;
    QuoteKindIff(lines[i]);
    QuoteEnd(lines, i);
    var e := RunEnd(lines, i, IsQuote);
    forall k | i <= k < e ensures !IsFence(lines[k]) {
      QuoteLine(lines[k]);
    }
    NoFence(lines, i, e);
  }

  ghost predicate HasQuoteAt(spans: seq<Span>, k: nat) {
    exists s :: s in spans && s.kind == QuoteKind && s.start == k
  }

  lemma QuoteAt(spans: seq<Span>, k: nat) returns (s: Span)
    requires HasQuoteAt(spans, k)
    ensures s in spans && s.kind == QuoteKind && s.start == k
  {
    s :| s in spans && s.kind == QuoteKind && s.start == k;
  }

  /** The quote spans are the quotes that open outside code. */
  lemma {:induction false} QuoteSpansIff(lines: seq<string>, i: nat, k: nat)
    requires i <= |lines| && (i == |lines| || !InCode(lines, i)) && Layout(lines, i).Some?
    requires i < |lines| && IsQuote(lines[i]) ==> OpensQuote(lines, i)
    requires k < |lines|
    ensures HasQuoteAt(Layout(lines, i).value, k) <==> i <= k && OpensQuote(lines, k)
    decreases |lines| - i
  {
    hide SpanEnd;
    hide KindOf;
    hide Blank;
    hide InCode;
    hide Stuck;
    hide IsQuote;
    if i == |lines| {
    } else {
      if Blank(lines[i]) {
        BlankLine(lines[i]);
        CodeStep(lines, i);
        QuoteSpansIff(lines, i + 1, k);
      } else {
        BlockEnd(lines, i);
        KindLine(lines[i]);
        var e := SpanEnd(lines, i);
        if IsQuote(lines[i]) {
          QuoteSpan(lines, i);
        }
        QuoteSpansIff(lines, e, k);
        var first := Span(KindOf(TrimEnd(lines[i])), i, e);
        assert Layout(lines, i).value == [first] + Layout(lines, e).value;
        assert forall s :: s in Layout(lines, i).value <==> s == first || s in Layout(lines, e).value;
      }
    }
  }

  /**
   A text hangs the preview if it has, outside code, a line that opens a list without being an item, or a quote
   whose text hangs it.
   */
  ghost predicate Hangs(text: string)
    decreases |text|
  {
    var lines := Lines(text);
    || StuckFrom(lines, 0)
    || exists k :: 0 <= k < |lines| && OpensQuote(lines, k) && Hangs(QuotedText(text, k))
  }

  ghost predicate SomeQuoteDiverges(text: string, spans: seq<Span>)
    requires SpansOf(Lines(text), spans)
  {
    exists s :: s in spans && s.kind == QuoteKind && Render(QuotedText(text, s.start)).Diverges?
  }

  lemma {:induction false} RenderSpansIff(text: string, spans: seq<Span>)
    requires SpansOf(Lines(text), spans)
    ensures RenderSpans(text, spans).Diverges? <==> SomeQuoteDiverges(text, spans)
    decreases |spans|
  {
    hide Lines;
    hide SpanOf;
    hide QuotedText;
    hide PlainBlock;
    if spans == [] {
    } else {
      var n := |spans| - 1;
      RenderSpansIff(text, spans[..n]);
      assert spans == spans[..n] + [spans[n]];
    }
  }

  /** The preview hangs exactly on the texts described by Hangs. */
  lemma {:induction false} DivergesIff(text: string)
    ensures Render(text).Diverges? <==> Hangs(text)
    decreases |text|
  {
    hide Lines;
    hide InCode;
    hide Stuck;
    hide IsQuote;
    hide SpanEnd;
    hide KindOf;
    hide Layout;
    hide RenderSpans;
    var lines := Lines(text);
    FirstLineOpen(lines);
    LayoutStuckIff(lines, 0);
    LayoutSpans(lines, 0);
    if Layout(lines, 0).Some? {
      var spans := Layout(lines, 0).value;
      RenderSpansIff(text, spans);
      if SomeQuoteDiverges(text, spans) {
        var s :| s in spans && s.kind == QuoteKind && Render(QuotedText(text, s.start)).Diverges?;
        assert SpanOf(lines, s);
        assert HasQuoteAt(spans, s.start);
        QuoteSpansIff(lines, 0, s.start);
        DivergesIff(QuotedText(text, s.start));
      }
      if k :| 0 <= k < |lines| && OpensQuote(lines, k) && Hangs(QuotedText(text, k)) {
        QuoteSpansIff(lines, 0, k);
        var s := QuoteAt(spans, k);
        DivergesIff(QuotedText(text, k));
      }
    }
  }

  lemma FirstLineOpen(lines: seq<string>)
    ensures !InCode(lines, 0)
  {
  }

  // ------------------------------------------------------ where it cannot hang

  /** A text without the separators U+2028 and U+2029. */
  ghost predicate NoSeparators(s: string) {
    forall i :: 0 <= i < |s| ==> s[i] != '\U{2028}' && s[i] != '\U{2029}'
  }

  lemma RunKept(line: string, t: string, p: char -> bool)
    requires t <= line && Run(t, p) < |t|
    ensures Run(line, p) == Run(t, p)
  {
    RunAt(line, p, Run(t, p));
  }

  lemma IndentKept(line: string, t: string)
    requires t <= line && Indented(t) != ""
    ensures Indented(t) <= Indented(line)
  {
    RunKept(line, t, IsSpace);
    var n := Run(t, IsSpace);
    assert line[n..][..|t| - n] == t[n..];
  }

  lemma BulletKept(line: string, t: string)
    requires t <= line && AfterBullet(t).Some?
    ensures AfterBullet(line).Some? && AfterBullet(t).value <= AfterBullet(line).value
  {
    hide Indented;
    IndentKept(line, t);
  }

  lemma NumberKept(line: string, t: string)
    requires t <= line && AfterNumber(t).Some?
    ensures AfterNumber(line).Some? && AfterNumber(t).value <= AfterNumber(line).value
  {
    hide Indented;
    IndentKept(line, t);
    RunKept(Indented(line), Indented(t), IsDigit);
  }

  /** The rest behind a list marker only loses white space at its end when the line is trimmed. */
  lemma MarkerKept(line: string, ordered: bool)
    requires AfterMarker(TrimEnd(line), ordered).Some?
    ensures AfterMarker(line, ordered).Some?
    ensures AfterMarker(TrimEnd(line), ordered).value <= AfterMarker(line, ordered).value
  {
    hide AfterBullet;
    hide AfterNumber;
    if ordered {
      NumberKept(line, TrimEnd(line));
    } else {
      BulletKept(line, TrimEnd(line));
    }
  }

  /** A line is stuck exactly when it opens a list and its text, untrimmed, holds a character no dot matches. */
  lemma StuckIff(line: string)
    ensures Stuck(line) <==>
            var kind := KindOf(TrimEnd(line));
            kind.ListKind? && AfterMarker(line, kind.ordered).Some?
            && !OneLine(Indented(AfterMarker(line, kind.ordered).value))
  {
    hide IsFence;
    hide HeadingText;
    hide IsRule;
    hide IsQuote;
    hide Trim;
    hide TrimEnd;
    hide AfterMarker;
    hide OneLine;
    var kind := KindOf(TrimEnd(line));
    if kind.ListKind? {
      MarkerKept(line, kind.ordered);
      var rest := AfterMarker(line, kind.ordered).value;
      RunKept(rest, AfterMarker(TrimEnd(line), kind.ordered).value, IsSpace);
    }
  }

  lemma {:induction false} SplitCharacters(s: string, cut: char -> bool, i: nat, k: nat)
    requires i < |Split(s, cut)| && k < |Split(s, cut)[i]|
    ensures Split(s, cut)[i][k] in s
  {
    if s == "" {
    } else {
      var rest := Split(s[1..], cut);
      if cut(s[0]) {
        assert i > 0;
        SplitCharacters(s[1..], cut, i - 1, k);
      } else if i > 0 {
        SplitCharacters(s[1..], cut, i, k);
      } else if k > 0 {
        SplitCharacters(s[1..], cut, 0, k - 1);
      }
    }
  }

  lemma LineCharacters(text: string, i: nat, k: nat)
    requires i < |Lines(text)| && k < |Lines(text)[i]|
    ensures var c := Lines(text)[i][k]; c in text && c != '\n' && c != '\r'
  {
    hide UnixLines;
    hide TrimStart;
    hide TrimEnd;
    hide Split;
    var unix := UnixLines(text);
    var trimmed := Trim(unix);
    SplitCharacters(trimmed, IsNewline, i, k);
    var c := Lines(text)[i][k];
    assert c in trimmed;
    assert c in TrimStart(unix);
    assert c in unix;
    assert !IsNewline(Split(trimmed, IsNewline)[i][k]);
  }

  lemma PlainLine(text: string, i: nat)
    requires i < |Lines(text)| && NoSeparators(text)
    ensures OneLine(Lines(text)[i])
  {
    hide Lines;
    forall k | 0 <= k < |Lines(text)[i]| ensures !IsLineTerminator(Lines(text)[i][k]) {
      LineCharacters(text, i, k);
    }
  }

  lemma {:induction false} JoinPlain(parts: seq<string>)
    requires forall i :: 0 <= i < |parts| ==> NoSeparators(parts[i])
    ensures NoSeparators(Join(parts, "\n"))
  {
    if |parts| <= 1 {
    } else {
      JoinPlain(parts[1..]);
    }
  }

  lemma QuotePlain(text: string, k: nat)
    requires k < |Lines(text)| && IsQuote(Lines(text)[k]) && NoSeparators(text)
    ensures NoSeparators(QuotedText(text, k))
  {
    hide Lines;
    hide IsQuote;
    hide Join;
    hide RunEnd;
    hide UnquotedOr;
    var lines := Lines(text);
    var e := RunEnd(lines, k, IsQuote);
    var parts := Map(lines[k..e], UnquotedOr);
    forall i | 0 <= i < |parts| ensures NoSeparators(parts[i]) {
      PlainLine(text, k + i);
      UnquotedPlain(lines[k + i]);
    }
    JoinPlain(parts);
  }

  lemma UnquotedPlain(line: string)
    requires OneLine(line)
    ensures NoSeparators(UnquotedOr(line))
  {
    if IsQuote(line) {
      var n := Run(line, IsSpace);
      var r := Unquoted(line);
      assert r == line[|line| - |r|..];
    }
  }

  lemma IndentedPlain(line: string, n: nat)
    requires n <= |line| && OneLine(line)
    ensures OneLine(Indented(line[n..]))
  {
    hide Run;
    var rest := line[n..];
    assert Indented(rest) == line[n + Run(rest, IsSpace)..];
  }

  lemma PlainNotStuck(line: string)
    requires OneLine(line)
    ensures !Stuck(line)
  {
    hide KindOf;
    hide TrimEnd;
    hide Stuck;
    hide AfterMarker;
    hide OneLine;
    hide Indented;
    var kind := KindOf(TrimEnd(line));
    if kind.ListKind? && AfterMarker(line, kind.ordered).Some? {
      MarkerIsSuffix(line, kind.ordered);
      var n :| 0 <= n <= |line| && AfterMarker(line, kind.ordered).value == line[n..];
      IndentedPlain(line, n);
    }
    StuckIff(line);
  }

  lemma MarkerIsSuffix(line: string, ordered: bool)
    requires AfterMarker(line, ordered).Some?
    ensures exists n :: 0 <= n <= |line| && AfterMarker(line, ordered).value == line[n..]
  {
    var n := Run(line, IsSpace);
    if ordered {
      assert AfterMarker(line, ordered).value == line[n + Run(Indented(line), IsDigit) + 1..];
    } else {
      assert AfterMarker(line, ordered).value == line[n + 1..];
    }
  }

  /** Without U+2028 and U+2029 every text is rendered, however it is nested. */
  lemma {:induction false} PlainTextRenders(text: string)
    requires NoSeparators(text)
    ensures Render(text).Rendered?
    decreases |text|
  {
    hide Lines;
    hide InCode;
    hide Stuck;
    hide IsQuote;
    hide NoSeparators;
    hide QuotedText;
    DivergesIff(text);
    forall k | 0 <= k < |Lines(text)| ensures !Stuck(Lines(text)[k]) {
      PlainLine(text, k);
      PlainNotStuck(Lines(text)[k]);
    }
    forall k | 0 <= k < |Lines(text)| && OpensQuote(Lines(text), k) ensures !Hangs(QuotedText(text, k)) {
      QuotePlain(text, k);
      PlainTextRenders(QuotedText(text, k));
      DivergesIff(QuotedText(text, k));
    }
  }

  /** A one-item list hangs the preview exactly when a line or paragraph separator stands in its text. */
  lemma ListItemHangsIff(rest: string)
    requires rest != "" && !IsSpace(rest[0]) && !IsSpace(rest[|rest| - 1])
    requires forall i :: 0 <= i < |rest| ==> rest[i] != '\n' && rest[i] != '\r'
    ensures Render("- " + rest).Diverges? <==> !NoSeparators(rest)
  {
    var text := "- " + rest;
    hide Render;
    hide Lines;
    hide KindOf;
    hide AfterMarker;
    hide TrimEnd;
    hide IsQuote;
    hide Stuck;
    OneLineText(text);
    FirstLineOpen(Lines(text));
    DashItem(rest);
    StuckIff(text);
    DivergesIff(text);
    assert StuckFrom(Lines(text), 0) <==> Stuck(text);
    assert OneLine(rest) <==> NoSeparators(rest);
  }

  lemma OneLineText(text: string)
    requires text != "" && !IsSpace(text[0]) && !IsSpace(text[|text| - 1])
    requires forall i :: 0 <= i < |text| ==> text[i] != '\n' && text[i] != '\r'
    ensures Lines(text) == [text]
  {
    UnixKept(text);
    TrimWord(text);
    SplitWhole(text, IsNewline);
  }

  lemma {:induction false} UnixKept(s: string)
    requires forall i :: 0 <= i < |s| ==> s[i] != '\r'
    ensures UnixLines(s) == s
  {
    if s == "" {
    } else {
      UnixKept(s[1..]);
    }
  }

  lemma DashMarker(rest: string)
    requires rest != "" && !IsSpace(rest[0])
    ensures AfterBullet("- " + rest) == Some(" " + rest) && !IsQuote("- " + rest)
    ensures BeginsText(" " + rest) && Indented(" " + rest) == rest
  {
    var line, spaced := "- " + rest, " " + rest;
    assert line[0] == '-' && line[1..] == spaced && spaced[1..] == rest;
    RunAt(line, IsSpace, 0);
    RunAt(spaced, IsSpace, 1);
    assert Indented(line) == line;
  }

  lemma DashItem(rest: string)
    requires rest != "" && !IsSpace(rest[0]) && !IsSpace(rest[|rest| - 1])
    ensures var line := "- " + rest;
            && KindOf(TrimEnd(line)) == ListKind(false) && !IsQuote(line)
            && AfterMarker(line, false) == Some(" " + rest)
            && Indented(" " + rest) == rest
  {
    hide Trim;
    hide TrimEnd;
    hide IsFence;
    hide HeadingText;
    hide IsRule;
    hide IsQuote;
    hide AfterBullet;
    hide BeginsText;
    hide Indented;
    var line := "- " + rest;
    assert line[0] == '-' && line[1] == ' ' && line[|line| - 1] == rest[|rest| - 1];
    TrimWord(line);
    TrimEndWord(line);
    DashMarker(rest);
    DashOnly(line);
  }

  lemma DashOnly(line: string)
    requires |line| >= 2 && line[0] == '-' && line[1] == ' '
    ensures !IsFence(line) && HeadingText(line).None? && !IsRule(line)
  {
    RunAt(line, c => c == '#', 0);
    RunAt(line, c => c == line[0], 1);
    assert FENCE[0] != line[0];
  }

  lemma TrimEndWord(s: string)
    requires s != "" && !IsSpace(s[|s| - 1])
    ensures TrimEnd(s) == s
  {
  }
}
