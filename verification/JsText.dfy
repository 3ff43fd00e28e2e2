/** The JavaScript string operations the modelled code relies on. */
module JsText {

  /** White space as String.prototype.trim and the regular-expression class \s understand it. */
  predicate IsSpace(c: char) {
    || c in ['\t', '\n', '\U{000B}', '\U{000C}', '\r', ' ', '\U{00A0}', '\U{1680}']
    || '\U{2000}' <= c <= '\U{200A}'
    || c in ['\U{2028}', '\U{2029}', '\U{202F}', '\U{205F}', '\U{3000}', '\U{FEFF}']
  }

  /** White space by code points: the controls 9 to 13, the space separators, the two line separators and 65279. */
  lemma SpacesAre(c: char)
    ensures IsSpace(c) <==>
            || 9 <= c as int <= 13 || 8192 <= c as int <= 8202
            || c as int in [32, 160, 5760, 8232, 8233, 8239, 8287, 12288, 65279]
  {
  }

  /** The regular-expression class \d. */
  predicate IsDigit(c: char) {
    '0' <= c <= '9'
  }

  predicate NonEmpty(s: string) {
    s != ""
  }

  function TrimStart(s: string): (r: string)
    ensures |r| <= |s|
    ensures r == s[|s| - |r|..]
    ensures forall i :: 0 <= i < |s| - |r| ==> IsSpace(s[i])
    ensures r != "" ==> !IsSpace(r[0])
  {
    if s != "" && IsSpace(s[0]) then TrimStart(s[1..]) else s
  }

  function TrimEnd(s: string): (r: string)
    ensures |r| <= |s|
    ensures r == s[..|r|]
    ensures forall i :: |r| <= i < |s| ==> IsSpace(s[i])
    ensures r != "" ==> !IsSpace(r[|r| - 1])
  {
    if s != "" && IsSpace(s[|s| - 1]) then TrimEnd(s[..|s| - 1]) else s
  }

  function Trim(s: string): string {
    TrimEnd(TrimStart(s))
  }

  predicate Blank(s: string) {
    forall i :: 0 <= i < |s| ==> IsSpace(s[i])
  }

  predicate StartsWith(s: string, prefix: string) {
    prefix <= s
  }

  lemma TrimBlank(s: string)
    ensures Trim(s) == "" <==> Blank(s)
  {
    var t := TrimStart(s);
    if t != "" {
      assert t[0] == s[|s| - |t|];
      assert !Blank(s);
      assert TrimEnd(t) != "";
    }
  }

  /** Trimming removes nothing from a text that neither starts nor ends with white space. */
  lemma TrimIdempotent(s: string)
    ensures Trim(Trim(s)) == Trim(s)
    ensures Trim(s) != "" ==> !IsSpace(Trim(s)[0]) && !IsSpace(Trim(s)[|Trim(s)| - 1])
  {
    var t := TrimStart(s);
    var u := TrimEnd(t);
    if u != "" {
      assert u[0] == t[0];
      assert TrimStart(u) == u;
      assert TrimEnd(u) == u;
    }
  }

  lemma TrimWord(s: string)
    requires s != "" && !IsSpace(s[0]) && !IsSpace(s[|s| - 1])
    ensures Trim(s) == s
  {
    assert TrimStart(s) == s;
    assert TrimEnd(s) == s;
  }

  /** String.prototype.split by the characters that satisfy `cut`: always at least one part. */
  function Split(s: string, cut: char -> bool): (r: seq<string>)
    ensures |r| >= 1
    ensures forall i, k :: 0 <= i < |r| && 0 <= k < |r[i]| ==> !cut(r[i][k])
  {
    if s == "" then [""]
    else
      var rest := Split(s[1..], cut);
      if cut(s[0]) then [""] + rest
      else [[s[0]] + rest[0]] + rest[1..]
  }

  function Join(parts: seq<string>, separator: string): string {
    if parts == [] then ""
    else if |parts| == 1 then parts[0]
    else parts[0] + separator + Join(parts[1..], separator)
  }

  lemma {:induction false} SplitWhole(s: string, cut: char -> bool)
    requires forall k :: 0 <= k < |s| ==> !cut(s[k])
    ensures Split(s, cut) == [s]
  {
    if s == "" {
    } else {
      SplitWhole(s[1..], cut);
      assert [s[0]] + s[1..] == s;
    }
  }

  lemma {:induction false} SplitAt(a: string, c: char, b: string, cut: char -> bool)
    requires forall k :: 0 <= k < |a| ==> !cut(a[k])
    requires cut(c)
    ensures Split(a + [c] + b, cut) == [a] + Split(b, cut)
  {
    var s := a + [c] + b;
    if a == "" {
      assert s[1..] == b;
    } else {
      assert s[1..] == a[1..] + [c] + b;
      SplitAt(a[1..], c, b, cut);
      assert [a[0]] + a[1..] == a;
    }
  }

  /** Splitting a joined list at its one-character separator recovers the list. */
  lemma {:induction false} SplitJoin(parts: seq<string>, c: char, cut: char -> bool)
    requires parts != [] && cut(c)
    requires forall i, k :: 0 <= i < |parts| && 0 <= k < |parts[i]| ==> !cut(parts[i][k])
    ensures Split(Join(parts, [c]), cut) == parts
  {
    if |parts| == 1 {
      SplitWhole(parts[0], cut);
    } else {
      var rest := parts[1..];
      SplitJoin(rest, c, cut) by {
        forall i, k | 0 <= i < |rest| && 0 <= k < |rest[i]| ensures !cut(rest[i][k]) {
          assert rest[i] == parts[i + 1];
        }
      }
      SplitAt(parts[0], c, Join(rest, [c]), cut);
      assert Join(parts, [c]) == parts[0] + [c] + Join(rest, [c]);
      assert [parts[0]] + rest == parts;
    }
  }
}
