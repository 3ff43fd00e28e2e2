/** Text helpers shared by the resume renderer and the Markdown preview: HTML escaping and path joining. */
module ResumeText {
  import opened Sequences
  import opened JsText

  // ------------------------------------------------------------------ escaping

  /** String.prototype.replaceAll of one character by a fixed text. */
  function ReplaceAll(s: string, c: char, text: string): string {
    if s == "" then "" else (if s[0] == c then text else [s[0]]) + ReplaceAll(s[1..], c, text)
  }

  /** Five replacements, one over the result of the other; the ampersand has to go first. */
  function EscapeHtml(s: string): string {
    ReplaceAll(ReplaceAll(ReplaceAll(ReplaceAll(ReplaceAll(
      s, '&', "&amp;"), '<', "&lt;"), '>', "&gt;"), '"', "&quot;"), '\'', "&#39;")
  }

  function Entity(c: char): string {
    if c == '&' then "&amp;"
    else if c == '<' then "&lt;"
    else if c == '>' then "&gt;"
    else if c == '"' then "&quot;"
    else if c == '\'' then "&#39;"
    else [c]
  }

  /** Each character on its own. */
  function Escaped(s: string): string {
    if s == "" then "" else Entity(s[0]) + Escaped(s[1..])
  }

  lemma {:induction false} ReplaceAppend(a: string, b: string, c: char, text: string)
    ensures ReplaceAll(a + b, c, text) == ReplaceAll(a, c, text) + ReplaceAll(b, c, text)
  {
    if a == "" {
      assert a + b == b;
    } else {
      assert (a + b)[1..] == a[1..] + b;
      ReplaceAppend(a[1..], b, c, text);
    }
  }

  lemma {:induction false} ReplaceAbsent(s: string, c: char, text: string)
    requires forall i :: 0 <= i < |s| ==> s[i] != c
    ensures ReplaceAll(s, c, text) == s
  {
    if s == "" {
    } else {
      ReplaceAbsent(s[1..], c, text);
    }
  }

  lemma ReplaceOne(c: char, text: string)
    ensures ReplaceAll([c], c, text) == text
  {
    assert [c][1..] == "";
    assert text + "" == text;
  }

  lemma EscapeAppend(a: string, b: string)
    ensures EscapeHtml(a + b) == EscapeHtml(a) + EscapeHtml(b)
  {
    hide ReplaceAll;
    ReplaceAppend(a, b, '&', "&amp;");
    var a1, b1 := ReplaceAll(a, '&', "&amp;"), ReplaceAll(b, '&', "&amp;");
    ReplaceAppend(a1, b1, '<', "&lt;");
    var a2, b2 := ReplaceAll(a1, '<', "&lt;"), ReplaceAll(b1, '<', "&lt;");
    ReplaceAppend(a2, b2, '>', "&gt;");
    var a3, b3 := ReplaceAll(a2, '>', "&gt;"), ReplaceAll(b2, '>', "&gt;");
    ReplaceAppend(a3, b3, '"', "&quot;");
    ReplaceAppend(ReplaceAll(a3, '"', "&quot;"), ReplaceAll(b3, '"', "&quot;"), '\'', "&#39;");
  }

  lemma AfterAmpersand(s: string)
    requires forall i :: 0 <= i < |s| ==> s[i] !in {'<', '>', '"', '\''}
    ensures ReplaceAll(ReplaceAll(ReplaceAll(ReplaceAll(
              s, '<', "&lt;"), '>', "&gt;"), '"', "&quot;"), '\'', "&#39;") == s
  {
    hide ReplaceAll;
    ReplaceAbsent(s, '<', "&lt;");
    ReplaceAbsent(s, '>', "&gt;");
    ReplaceAbsent(s, '"', "&quot;");
    ReplaceAbsent(s, '\'', "&#39;");
  }

  lemma EscapeOne(c: char)
    ensures EscapeHtml([c]) == Entity(c)
  {
    hide ReplaceAll;
    if c == '&' {
      ReplaceOne(c, "&amp;");
      AfterAmpersand("&amp;");
    } else {
      ReplaceAbsent([c], '&', "&amp;");
      if c == '<' {
        ReplaceOne(c, "&lt;");
        ReplaceAbsent("&lt;", '>', "&gt;");
        ReplaceAbsent("&lt;", '"', "&quot;");
        ReplaceAbsent("&lt;", '\'', "&#39;");
      } else {
        ReplaceAbsent([c], '<', "&lt;");
        if c == '>' {
          ReplaceOne(c, "&gt;");
          ReplaceAbsent("&gt;", '"', "&quot;");
          ReplaceAbsent("&gt;", '\'', "&#39;");
        } else {
          ReplaceAbsent([c], '>', "&gt;");
          if c == '"' {
            ReplaceOne(c, "&quot;");
            ReplaceAbsent("&quot;", '\'', "&#39;");
          } else {
            ReplaceAbsent([c], '"', "&quot;");
            if c == '\'' {
              ReplaceOne(c, "&#39;");
            } else {
              ReplaceAbsent([c], '\'', "&#39;");
            }
          }
        }
      }
    }
  }

  /** In this order the five passes amount to one pass, character by character. */
  lemma {:induction false} EscapeIsCharwise(s: string)
    ensures EscapeHtml(s) == Escaped(s)
  {
    hide EscapeHtml;
    if s == "" {
      EscapeEmpty();
    } else {
      EscapeIsCharwise(s[1..]);
      EscapeAppend([s[0]], s[1..]);
      EscapeOne(s[0]);
      assert [s[0]] + s[1..] == s;
    }
  }

  lemma EscapeEmpty()
    ensures EscapeHtml("") == ""
  {
  }

  /** The character an escaped text starts with, and what follows it. */
  function Unescaped(s: string): string {
    if s == "" then ""
    else if "&amp;" <= s then "&" + Unescaped(s[5..])
    else if "&lt;" <= s then "<" + Unescaped(s[4..])
    else if "&gt;" <= s then ">" + Unescaped(s[4..])
    else if "&quot;" <= s then "\"" + Unescaped(s[6..])
    else if "&#39;" <= s then "'" + Unescaped(s[5..])
    else [s[0]] + Unescaped(s[1..])
  }

  lemma UnescapeOne(c: char, rest: string)
    ensures Unescaped(Entity(c) + rest) == [c] + Unescaped(rest)
  {
    var s := Entity(c) + rest;
    assert s[|Entity(c)|..] == rest;
    assert s[0] == Entity(c)[0];
    if c in {'&', '<', '>', '"', '\''} {
      assert Entity(c) <= s;
      assert s[1] == Entity(c)[1];
    } else {
      assert s[0] != '&';
    }
  }

  /** Escaping loses nothing, so different texts stay different. */
  lemma {:induction false} UnescapeEscape(s: string)
    ensures Unescaped(EscapeHtml(s)) == s
  {
    hide EscapeHtml;
    hide Unescaped;
    hide Entity;
    EscapeIsCharwise(s);
    if s == "" {
      UnescapeEmpty();
    } else {
      UnescapeEscape(s[1..]);
      EscapeIsCharwise(s[1..]);
      UnescapeOne(s[0], Escaped(s[1..]));
      assert [s[0]] + s[1..] == s;
    }
  }

  lemma UnescapeEmpty()
    ensures Unescaped("") == ""
  {
  }

  /** No markup character survives escaping. */
  lemma {:induction false} EscapedIsInert(s: string, i: nat)
    requires i < |EscapeHtml(s)|
    ensures EscapeHtml(s)[i] !in {'<', '>', '"', '\''}
  {
    hide EscapeHtml;
    EscapeIsCharwise(s);
    if s == "" {
    } else {
      EscapeIsCharwise(s[1..]);
      if i >= |Entity(s[0])| {
        EscapedIsInert(s[1..], i - |Entity(s[0])|);
      }
    }
  }

  // --------------------------------------------------------------------- paths

  predicate IsSlash(c: char) {
    c == '/'
  }

  /** The segments of all parts, without empty ones. */
  function Segments(parts: seq<string>): (r: seq<string>)
    ensures forall i :: 0 <= i < |r| ==> r[i] != ""
    ensures forall i, k :: 0 <= i < |r| && 0 <= k < |r[i]| ==> !IsSlash(r[i][k])
  {
    if parts == [] then []
    else
      var first := Filter(Split(parts[0], IsSlash), NonEmpty);
      assert forall i :: 0 <= i < |first| ==> first[i] in first;
      first + Segments(parts[1..])
  }

  function JoinPath(parts: seq<string>): string {
    Join(Segments(parts), "/")
  }

  lemma {:induction false} SegmentsAppend(a: seq<string>, b: seq<string>)
    ensures Segments(a + b) == Segments(a) + Segments(b)
  {
    if a == [] {
      assert a + b == b;
    } else {
      assert (a + b)[1..] == a[1..] + b;
      SegmentsAppend(a[1..], b);
    }
  }

  lemma SegmentsOfPath(parts: seq<string>)
    ensures Segments([JoinPath(parts)]) == Segments(parts)
  {
    var s := Segments(parts);
    var path := JoinPath(parts);
    assert [path][1..] == [];
    if s == [] {
      SplitWhole("", IsSlash);
      assert Split(path, IsSlash) == [""];
      FilterNone([""], NonEmpty);
    } else {
      SplitJoin(s, '/', IsSlash);
      FilterAll(s, NonEmpty);
    }
  }

  /** Joining joined paths is joining their parts: how parts are grouped does not matter, nor does joining again. */
  lemma JoinPathRegroups(a: seq<string>, b: seq<string>)
    ensures JoinPath([JoinPath(a), JoinPath(b)]) == JoinPath(a + b)
    ensures JoinPath([JoinPath(a)]) == JoinPath(a)
  {
    hide Segments;
    SegmentsAppend(a, b);
    SegmentsAppend([JoinPath(a)], [JoinPath(b)]);
    SegmentsOfPath(a);
    SegmentsOfPath(b);
    assert [JoinPath(a)] + [JoinPath(b)] == [JoinPath(a), JoinPath(b)];
  }

  /** A joined path neither starts nor ends with a slash, and holds no empty segment. */
  lemma JoinedPathIsClean(parts: seq<string>)
    ensures var path := JoinPath(parts);
            path == "" || (path[0] != '/' && path[|path| - 1] != '/')
    ensures forall s :: s in Split(JoinPath(parts), IsSlash) && s == "" ==> Split(JoinPath(parts), IsSlash) == [""]
  {
    var s := Segments(parts);
    if s == [] {
      SplitWhole("", IsSlash);
    } else {
      SplitJoin(s, '/', IsSlash);
      JoinEnds(s);
    }
  }

  lemma {:induction false} JoinEnds(s: seq<string>)
    requires s != [] && (forall i :: 0 <= i < |s| ==> s[i] != "")
    requires forall i, k :: 0 <= i < |s| && 0 <= k < |s[i]| ==> !IsSlash(s[i][k])
    ensures var path := Join(s, "/");
            path != "" && path[0] == s[0][0] && path[|path| - 1] == s[|s| - 1][|s[|s| - 1]| - 1]
  {
    if |s| <= 1 {
    } else {
      JoinEnds(s[1..]);
      var path := Join(s, "/");
      var rest := Join(s[1..], "/");
      assert path == s[0] + "/" + rest;
      assert path[|path| - 1] == rest[|rest| - 1];
    }
  }
}
