/** The five chained replacements that escape HTML. */
module HtmlEscape {
  /** A global replacement of one character. */
  function Replace(s: string, c: char, entity: string): string {
    if s == "" then "" else (if s[0] == c then entity else [s[0]]) + Replace(s[1..], c, entity)
  }

  function EscapeHtml(s: string): string {
    Replace(Replace(Replace(Replace(Replace(s,
      '&', "&amp;"), '<', "&lt;"), '>', "&gt;"), '"', "&quot;"), '\'', "&#39;")
  }

  /** What each character becomes. */
  function Entity(c: char): string {
    match c
    case '&' => "&amp;"
    case '<' => "&lt;"
    case '>' => "&gt;"
    case '"' => "&quot;"
    case '\'' => "&#39;"
    case _ => [c]
  }

  function MapEntities(s: string): string {
    if s == "" then "" else Entity(s[0]) + MapEntities(s[1..])
  }

  /** A reader that turns each of the five entities back into its character and keeps everything else. */
  function Unescape(s: string): string
    decreases |s|
  {
    if s == "" then ""
    else if "&amp;" <= s then ['&'] + Unescape(s[5..])
    else if "&lt;" <= s then ['<'] + Unescape(s[4..])
    else if "&gt;" <= s then ['>'] + Unescape(s[4..])
    else if "&quot;" <= s then ['"'] + Unescape(s[6..])
    else if "&#39;" <= s then ['\''] + Unescape(s[5..])
    else [s[0]] + Unescape(s[1..])
  }

  lemma {:induction false} ReplaceConcat(a: string, b: string, c: char, entity: string)
    ensures Replace(a + b, c, entity) == Replace(a, c, entity) + Replace(b, c, entity)
  {
    if a == "" {
      assert a + b == b;
    } else {
      assert (a + b)[1..] == a[1..] + b;
      ReplaceConcat(a[1..], b, c, entity);
    }
  }

  lemma {:induction false} ReplaceAbsent(s: string, c: char, entity: string)
    requires c !in s
    ensures Replace(s, c, entity) == s
  {
    if s != "" {
      ReplaceAbsent(s[1..], c, entity);
    }
  }

  lemma EscapeConcat(a: string, b: string)
    ensures EscapeHtml(a + b) == EscapeHtml(a) + EscapeHtml(b)
  {
    var a1, b1 := Replace(a, '&', "&amp;"), Replace(b, '&', "&amp;");
    var a2, b2 := Replace(a1, '<', "&lt;"), Replace(b1, '<', "&lt;");
    var a3, b3 := Replace(a2, '>', "&gt;"), Replace(b2, '>', "&gt;");
    var a4, b4 := Replace(a3, '"', "&quot;"), Replace(b3, '"', "&quot;");
    ReplaceConcat(a, b, '&', "&amp;");
    ReplaceConcat(a1, b1, '<', "&lt;");
    ReplaceConcat(a2, b2, '>', "&gt;");
    ReplaceConcat(a3, b3, '"', "&quot;");
    ReplaceConcat(a4, b4, '\'', "&#39;");
  }

  lemma ReplaceOne(c: char, d: char, entity: string)
    ensures Replace([d], c, entity) == if d == c then entity else [d]
  {
    assert [d][1..] == "";
    assert entity + "" == entity;
  }

  /** The stages after the one for `&`. */
  function LaterStages(s: string): string {
    Replace(Replace(Replace(Replace(s, '<', "&lt;"), '>', "&gt;"), '"', "&quot;"), '\'', "&#39;")
  }

  /** An entity, or any text without the four markup characters, passes the later stages untouched. */
  lemma LaterStagesSkip(s: string)
    requires '<' !in s && '>' !in s && '"' !in s && '\'' !in s
    ensures LaterStages(s) == s
  {
    ReplaceAbsent(s, '<', "&lt;");
    ReplaceAbsent(s, '>', "&gt;");
    ReplaceAbsent(s, '"', "&quot;");
    ReplaceAbsent(s, '\'', "&#39;");
  }

  /** Three stages leave a text alone that holds none of their characters. */
  lemma SkipThree(s: string, c2: char, e2: string, c3: char, e3: string, c4: char, e4: string)
    requires c2 !in s && c3 !in s && c4 !in s
    ensures Replace(Replace(Replace(s, c2, e2), c3, e3), c4, e4) == s
  {
    ReplaceAbsent(s, c2, e2);
    ReplaceAbsent(s, c3, e3);
    ReplaceAbsent(s, c4, e4);
  }

  /**
   A character passes the stages before its own, becomes its entity there, and the entity passes the rest. The
   stages are `c1` to `c4`; the character's own is stage `n`.
  */
  lemma CaughtAtItsStage(c: char, e: string, n: nat, c1: char, e1: string, c2: char, e2: string, c3: char, e3: string, c4: char, e4: string)
    requires 1 <= n <= 4 && c1 != c2 && c1 != c3 && c1 != c4 && c2 != c3 && c2 != c4 && c3 != c4
    requires (c, e) == if n == 1 then (c1, e1) else if n == 2 then (c2, e2) else if n == 3 then (c3, e3) else (c4, e4)
    requires c1 !in e && c2 !in e && c3 !in e && c4 !in e
    ensures Replace(Replace(Replace(Replace([c], c1, e1), c2, e2), c3, e3), c4, e4) == e
  {
    ReplaceOne(c1, c, e1);
    if n == 1 {
      SkipThree(e, c2, e2, c3, e3, c4, e4);
    } else {
      ReplaceOne(c2, c, e2);
      ReplaceOne(c3, c, e3);
      ReplaceOne(c4, c, e4);
      ReplaceAbsent(e, c3, e3);
      ReplaceAbsent(e, c4, e4);
    }
  }

  lemma MarkupIsCaught(c: char, n: nat)
    requires (c, n) == ('<', 1) || (c, n) == ('>', 2) || (c, n) == ('"', 3) || (c, n) == ('\'', 4)
    ensures LaterStages([c]) == Entity(c)
  {
    CaughtAtItsStage(c, Entity(c), n, '<', "&lt;", '>', "&gt;", '"', "&quot;", '\'', "&#39;");
  }

  lemma EscapeOne(c: char)
    ensures EscapeHtml([c]) == Entity(c)
  {
    ReplaceOne('&', c, "&amp;");
    match c
    case '<' => MarkupIsCaught(c, 1);
    case '>' => MarkupIsCaught(c, 2);
    case '"' => MarkupIsCaught(c, 3);
    case '\'' => MarkupIsCaught(c, 4);
    case _ => LaterStagesSkip(Entity(c));
  }

  /** The chain equals a single pass with one entity per character. */
  lemma {:induction false} ChainIsSinglePass(s: string)
    ensures EscapeHtml(s) == MapEntities(s)
  {
    if s != "" {
      assert s == [s[0]] + s[1..];
      EscapeConcat([s[0]], s[1..]);
      EscapeOne(s[0]);
      ChainIsSinglePass(s[1..]);
    }
  }

  lemma {:induction false} SinglePassIsSafe(s: string)
    ensures '<' !in MapEntities(s) && '>' !in MapEntities(s) && '"' !in MapEntities(s) && '\'' !in MapEntities(s)
  {
    if s != "" {
      SinglePassIsSafe(s[1..]);
    }
  }

  lemma UnescapeEntity(c: char, rest: string)
    ensures Unescape(Entity(c) + rest) == [c] + Unescape(rest)
  {
    var s := Entity(c) + rest;
    assert s[|Entity(c)|..] == rest;
    if |Entity(c)| > 1 {
      assert Entity(c) <= s;
      assert s[1] == Entity(c)[1];
      if c != '&' { assert s[1] != 'a'; }
      if c == '>' || c == '"' || c == '\'' { assert s[1] != 'l'; }
    } else {
      assert s[0] == c != '&';
    }
  }

  lemma {:induction false} UnescapeSinglePass(s: string)
    ensures Unescape(MapEntities(s)) == s
  {
    if s != "" {
      UnescapeEntity(s[0], MapEntities(s[1..]));
      UnescapeSinglePass(s[1..]);
    }
  }

  /** For every text: no markup character survives, and unescaping gives the text back. */
  lemma EscapeIsSafeAndReversible(s: string)
    ensures '<' !in EscapeHtml(s) && '>' !in EscapeHtml(s) && '"' !in EscapeHtml(s) && '\'' !in EscapeHtml(s)
    ensures Unescape(EscapeHtml(s)) == s
  {
    ChainIsSinglePass(s);
    SinglePassIsSafe(s);
    UnescapeSinglePass(s);
  }

  /** Any replacement run before the one for `&` has its entity escaped again. */
  lemma AmpersandMustComeFirst(c: char)
    requires |Entity(c)| > 1 && c != '&'
    ensures Replace(Replace([c], c, Entity(c)), '&', "&amp;") == "&amp;" + Entity(c)[1..]
    ensures Unescape(Replace(Replace([c], c, Entity(c)), '&', "&amp;")) != [c]
  {
    ReplaceOne(c, c, Entity(c));
    assert Entity(c) == ['&'] + Entity(c)[1..];
    ReplaceConcat(['&'], Entity(c)[1..], '&', "&amp;");
    ReplaceOne('&', '&', "&amp;");
    ReplaceAbsent(Entity(c)[1..], '&', "&amp;");
    UnescapeEntity('&', Entity(c)[1..]);
  }
}
