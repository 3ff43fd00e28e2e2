/** What the eligibility scan records, under which section, and what later lines can change about it. */
module EligibilityTheorems {
  import opened Sequences
  import opened Eligibility

  // --------------------------------------------------------- what is recorded

  /** The assertion comes from a clause of its own numbered line, which is scanned under its own section. */
  ghost predicate Witnessed(lines: seq<string>, p: Patterns, a: Assertion) {
    && a.OfClause?
    && 1 <= a.line <= |lines|
    && a.section == SectionAfter(lines, a.line - 1, p)
    && IsScanned(lines[a.line - 1], a.section.kind, p)
    && a.excerpt in p.clauses(lines[a.line - 1])
    && Finding(a.kind, a.condition) in Findings(a.excerpt, a.section.kind, p)
  }

  lemma {:induction false} ClausesIff(clauses: seq<string>, section: Section, index: nat, p: Patterns, a: Assertion)
    ensures a in ClausesAssertions(clauses, section, index, p) <==>
            && a.OfClause? && a.line == index + 1 && a.section == section
            && a.excerpt in clauses && Finding(a.kind, a.condition) in Findings(a.excerpt, section.kind, p)
  {
    hide Findings;
    if clauses == [] {
    } else {
      var n := |clauses| - 1;
      ClausesIff(clauses[..n], section, index, p, a);
      ClauseIff(clauses[n], section, index, p, a);
      assert clauses == clauses[..n] + [clauses[n]];
    }
  }

  lemma ClauseIff(clause: string, section: Section, index: nat, p: Patterns, a: Assertion)
    ensures a in ClauseAssertions(clause, section, index, p) <==>
            && a.OfClause? && a.line == index + 1 && a.section == section
            && a.excerpt == clause && Finding(a.kind, a.condition) in Findings(clause, section.kind, p)
  {
    hide Findings;
    var findings := Findings(clause, section.kind, p);
    var r := ClauseAssertions(clause, section, index, p);
    if a in r {
      var i :| 0 <= i < |r| && r[i] == a;
      assert a == Assert(clause, section, index, findings[i]);
      assert findings[i] in findings;
    }
    if a.OfClause? && Finding(a.kind, a.condition) in findings {
      var i :| 0 <= i < |findings| && findings[i] == Finding(a.kind, a.condition);
      assert r[i] == Assert(clause, section, index, findings[i]);
    }
  }

  lemma LineIff(line: string, section: Section, index: nat, p: Patterns, a: Assertion)
    ensures a in LineAssertions(line, section, index, p) <==>
            && a.OfClause? && a.line == index + 1 && a.section == section && IsScanned(line, section.kind, p)
            && a.excerpt in p.clauses(line) && Finding(a.kind, a.condition) in Findings(a.excerpt, section.kind, p)
  {
    hide IsScanned;
    hide Findings;
    hide ClausesAssertions;
    hide Firsts;
    ClausesIff(p.clauses(line), section, index, p, a);
    FirstsKeep(ClausesAssertions(p.clauses(line), section, index, p));
  }

  lemma {:induction false} LinesIff(lines: seq<string>, n: nat, p: Patterns, a: Assertion)
    requires n <= |lines|
    ensures a in LinesAssertions(lines, n, p) <==> Witnessed(lines, p, a) && a.line <= n
  {
    hide IsScanned;
    hide Findings;
    hide LineAssertions;
    hide SectionAfter;
    if n == 0 {
    } else {
      LinesIff(lines, n - 1, p, a);
      LineIff(lines[n - 1], SectionAfter(lines, n - 1, p), n - 1, p, a);
    }
  }

  /** Within the size bounds, an assertion is recorded exactly when the location or some scanned clause makes it. */
  lemma RecordedIff(posting: Posting, p: Patterns, a: Assertion)
    requires WithinBounds(posting)
    ensures a in Assertions(posting, p) <==>
            a in LocationAssertions(posting.location, p) || Witnessed(posting.lines, p, a)
  {
    hide Witnessed;
    LinesIff(posting.lines, |posting.lines|, p, a);
    WitnessedInside(posting.lines, p, a);
  }

  lemma WitnessedInside(lines: seq<string>, p: Patterns, a: Assertion)
    ensures Witnessed(lines, p, a) ==> a.OfClause? && a.line <= |lines|
  {
  }

  lemma {:induction false} LinesDistinct(lines: seq<string>, n: nat, p: Patterns)
    requires n <= |lines|
    ensures Distinct(LinesAssertions(lines, n, p))
    ensures Before(LinesAssertions(lines, n, p), n)
  {
    hide LineAssertions;
    hide SectionAfter;
    if n == 0 {
    } else {
      LinesDistinct(lines, n - 1, p);
      var section := SectionAfter(lines, n - 1, p);
      LineAssertionsHere(lines[n - 1], section, n - 1, p);
      DistinctConcat(LinesAssertions(lines, n - 1, p), LineAssertions(lines[n - 1], section, n - 1, p));
    }
  }

  lemma DistinctConcat<T>(a: seq<T>, b: seq<T>)
    requires Distinct(a) && Distinct(b) && forall x :: x in a && x in b ==> false
    ensures Distinct(a + b)
  {
    var r := a + b;
    forall i, j | 0 <= i < j < |r| ensures r[i] != r[j] {
      if i < |a| && j >= |a| {
        assert r[i] in a && r[j] in b;
      }
    }
  }

  /** No assertion is recorded twice. */
  lemma RecordedOnce(posting: Posting, p: Patterns)
    ensures Distinct(Assertions(posting, p))
  {
    hide WithinBounds;
    hide LinesAssertions;
    hide LocationKind;
    hide Witnessed;
    if WithinBounds(posting) {
      var here, rest := LocationAssertions(posting.location, p), LinesAssertions(posting.lines, |posting.lines|, p);
      LinesDistinct(posting.lines, |posting.lines|, p);
      forall a | a in rest ensures a.OfClause? {
        LinesIff(posting.lines, |posting.lines|, p, a);
        WitnessedInside(posting.lines, p, a);
      }
      DistinctConcat(here, rest);
    }
  }

  // ------------------------------------------------------------------ sections

  /** The nearest heading before line `n` is line `h`. */
  ghost predicate LastHeading(lines: seq<string>, n: nat, p: Patterns, h: nat) {
    h < n <= |lines| && LineKindOf(lines[h], p).Heads? && forall k :: h < k < n ==> !LineKindOf(lines[k], p).Heads?
  }

  /** The nearest heading before line `n`, if there is one. */
  ghost predicate HeadingAbove(lines: seq<string>, n: nat, p: Patterns, h: Option<nat>)
    requires n <= |lines|
  {
    if h.Some? then LastHeading(lines, n, p, h.value)
    else forall k :: 0 <= k < n ==> !LineKindOf(lines[k], p).Heads?
  }

  /**
   The section in force is the one the nearest heading above opened, however the scan got there, and the summary
   while there is none.
   */
  lemma {:induction false} SectionIsLastHeading(lines: seq<string>, n: nat, p: Patterns, h: Option<nat>)
    requires n <= |lines| && HeadingAbove(lines, n, p, h)
    ensures SectionAfter(lines, n, p) ==
            if h.Some? then Section(LineKindOf(lines[h.value], p).kind, h.value + 1) else FIRST_SECTION
    decreases n
  {
    hide LineKindOf;
    if n == 0 {
    } else if h != Some(n - 1) {
      SectionIsLastHeading(lines, n - 1, p, h);
    }
  }

  // ------------------------------------------------------------ appended lines

  lemma {:induction false} PrefixAssertions(lines: seq<string>, more: seq<string>, n: nat, p: Patterns)
    requires n <= |lines|
    ensures SectionAfter(lines + more, n, p) == SectionAfter(lines, n, p)
    ensures LinesAssertions(lines + more, n, p) == LinesAssertions(lines, n, p)
  {
    hide LineAssertions;
    hide LineKindOf;
    if n == 0 {
    } else {
      PrefixAssertions(lines, more, n - 1, p);
    }
  }

  lemma {:induction false} MoreLines(lines: seq<string>, n: nat, m: nat, p: Patterns)
    requires n <= m <= |lines|
    ensures LinesAssertions(lines, n, p) <= LinesAssertions(lines, m, p)
    decreases m - n
  {
    hide LineAssertions;
    hide SectionAfter;
    if n == m {
    } else {
      MoreLines(lines, n, m - 1, p);
    }
  }

  /** The same source, with lines behind it. */
  ghost predicate Extends(longer: Posting, posting: Posting) {
    longer.location == posting.location && posting.lines <= longer.lines
  }

  /** As long as the source stays within bounds, later lines only add assertions behind the earlier ones. */
  lemma AppendingKeepsAssertions(posting: Posting, longer: Posting, p: Patterns)
    requires WithinBounds(posting) && WithinBounds(longer) && Extends(longer, posting)
    ensures Assertions(posting, p) <= Assertions(longer, p)
  {
    hide LinesAssertions;
    hide LocationAssertions;
    var n := |posting.lines|;
    assert longer.lines == posting.lines + longer.lines[n..];
    PrefixAssertions(posting.lines, longer.lines[n..], n, p);
    MoreLines(longer.lines, n, |longer.lines|, p);
  }
}
