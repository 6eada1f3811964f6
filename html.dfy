/**
 * `escapeHtml`: five global replacements, `&` first, so that the text can be
 * placed inside HTML markup and attribute values.
 */
module Html {
  import opened JsValues

  /** `s.replace(/c/g, repl)` for a one-character pattern. */
  function ReplaceChar(s: string, c: char, repl: string): string
  {
    if s == [] then [] else (if s[0] == c then repl else [s[0]]) + ReplaceChar(s[1..], c, repl)
  }

  /** The five replacements applied to a string, in the order written. */
  function EscapeText(s: string): string
  {
    var amp := ReplaceChar(s, '&', "&amp;");
    var lt := ReplaceChar(amp, '<', "&lt;");
    var gt := ReplaceChar(lt, '>', "&gt;");
    var quot := ReplaceChar(gt, '"', "&quot;");
    ReplaceChar(quot, '\'', "&#039;")
  }

  /** `escapeHtml(v)`: `String(v ?? "")`, escaped. */
  function EscapeHtml(v: Json): string
  {
    EscapeText(NullishString(v))
  }

  /** The text one character becomes. */
  function Entity(c: char): string
  {
    if c == '&' then "&amp;"
    else if c == '<' then "&lt;"
    else if c == '>' then "&gt;"
    else if c == '"' then "&quot;"
    else if c == '\'' then "&#039;"
    else [c]
  }

  /** Escaping character by character. */
  function EscapeEach(s: string): string
  {
    if s == [] then [] else Entity(s[0]) + EscapeEach(s[1..])
  }

  predicate StartsWith(t: string, e: string)
  {
    |e| <= |t| && forall i :: 0 <= i < |e| ==> t[i] == e[i]
  }

  /** Reading the five entities back; any other text is kept. */
  function Unescape(t: string): string
  {
    if t == [] then []
    else if t[0] != '&' then [t[0]] + Unescape(t[1..])
    else if StartsWith(t, "&amp;") then "&" + Unescape(t[5..])
    else if StartsWith(t, "&lt;") then "<" + Unescape(t[4..])
    else if StartsWith(t, "&gt;") then ">" + Unescape(t[4..])
    else if StartsWith(t, "&quot;") then "\"" + Unescape(t[6..])
    else if StartsWith(t, "&#039;") then "'" + Unescape(t[6..])
    else "&" + Unescape(t[1..])
  }

  /** Characters that must not survive escaping. */
  predicate Special(c: char)
  {
    c == '<' || c == '>' || c == '"' || c == '\''
  }

  lemma {:induction false} ReplaceAppend(a: string, b: string, c: char, repl: string)
    ensures ReplaceChar(a + b, c, repl) == ReplaceChar(a, c, repl) + ReplaceChar(b, c, repl)
  {
    if a == [] {
      assert a + b == b;
    } else {
      ReplaceAppend(a[1..], b, c, repl);
      assert (a + b)[1..] == a[1..] + b;
    }
  }

  lemma {:induction false} ReplaceAbsent(s: string, c: char, repl: string)
    requires c !in s
    ensures ReplaceChar(s, c, repl) == s
  {
    if s != [] {
      assert s[0] in s;
      assert forall x :: x in s[1..] ==> x in s;
      ReplaceAbsent(s[1..], c, repl);
    }
  }

  lemma ReplaceOne(c: char, d: char, repl: string)
    ensures ReplaceChar([c], d, repl) == if c == d then repl else [c]
  {
    assert [c][1..] == [];
  }

  /** The five replacements of one character give its entity. */
  lemma EscapeTextChar(c: char)
    ensures EscapeText([c]) == Entity(c)
  {
    ReplaceOne(c, '&', "&amp;");
    if c == '&' {
      AmpStays();
    } else {
      ReplaceOne(c, '<', "&lt;");
      if c == '<' {
        LtStays();
      } else {
        ReplaceOne(c, '>', "&gt;");
        if c == '>' {
          GtStays();
        } else {
          ReplaceOne(c, '"', "&quot;");
          if c == '"' {
            QuotStays();
          } else {
            ReplaceOne(c, '\'', "&#039;");
          }
        }
      }
    }
  }

  /** An entity holds none of the characters replaced after it. */
  lemma AmpStays()
    ensures ReplaceChar("&amp;", '<', "&lt;") == "&amp;"
    ensures ReplaceChar("&amp;", '>', "&gt;") == "&amp;"
    ensures ReplaceChar("&amp;", '"', "&quot;") == "&amp;"
    ensures ReplaceChar("&amp;", '\'', "&#039;") == "&amp;"
  {
  }

  lemma LtStays()
    ensures ReplaceChar("&lt;", '>', "&gt;") == "&lt;"
    ensures ReplaceChar("&lt;", '"', "&quot;") == "&lt;"
    ensures ReplaceChar("&lt;", '\'', "&#039;") == "&lt;"
  {
  }

  lemma GtStays()
    ensures ReplaceChar("&gt;", '"', "&quot;") == "&gt;"
    ensures ReplaceChar("&gt;", '\'', "&#039;") == "&gt;"
  {
  }

  lemma QuotStays()
    ensures ReplaceChar("&quot;", '\'', "&#039;") == "&quot;"
  {
  }

  lemma EscapeTextAppend(a: string, b: string)
    ensures EscapeText(a + b) == EscapeText(a) + EscapeText(b)
  {
    var amp, ampA, ampB := ReplaceChar(a + b, '&', "&amp;"), ReplaceChar(a, '&', "&amp;"), ReplaceChar(b, '&', "&amp;");
    ReplaceAppend(a, b, '&', "&amp;");
    var lt, ltA, ltB := ReplaceChar(amp, '<', "&lt;"), ReplaceChar(ampA, '<', "&lt;"), ReplaceChar(ampB, '<', "&lt;");
    ReplaceAppend(ampA, ampB, '<', "&lt;");
    var gt, gtA, gtB := ReplaceChar(lt, '>', "&gt;"), ReplaceChar(ltA, '>', "&gt;"), ReplaceChar(ltB, '>', "&gt;");
    ReplaceAppend(ltA, ltB, '>', "&gt;");
    var quotA, quotB := ReplaceChar(gtA, '"', "&quot;"), ReplaceChar(gtB, '"', "&quot;");
    ReplaceAppend(gtA, gtB, '"', "&quot;");
    ReplaceAppend(quotA, quotB, '\'', "&#039;");
  }

  /** The chained replacements escape each character independently. */
  lemma {:induction false} EscapeTextIsEach(s: string)
    ensures EscapeText(s) == EscapeEach(s)
  {
    if s == [] {
      assert EscapeText(s) == [];
    } else {
      EscapeTextIsEach(s[1..]);
      assert [s[0]] + s[1..] == s;
      EscapeTextAppend([s[0]], s[1..]);
      EscapeTextChar(s[0]);
    }
  }

  /** No escaped text holds `<`, `>`, `"` or `'`. */
  lemma {:induction false} EscapeEachSafe(s: string)
    ensures forall k :: 0 <= k < |EscapeEach(s)| ==> !Special(EscapeEach(s)[k])
  {
    if s != [] {
      EscapeEachSafe(s[1..]);
      var e, rest := Entity(s[0]), EscapeEach(s[1..]);
      assert forall k :: 0 <= k < |e| ==> !Special(e[k]);
      assert forall k :: |e| <= k < |e + rest| ==> (e + rest)[k] == rest[k - |e|];
    }
  }

  /** Unescaping after an entity continues with the text behind it. */
  lemma UnescapeEntity(c: char, rest: string)
    ensures Unescape(Entity(c) + rest) == [c] + Unescape(rest)
  {
    if c == '&' || c == '<' || c == '>' {
      UnescapeShort(c, rest);
    } else if c == '"' || c == '\'' {
      UnescapeLong(c, rest);
    } else {
      UnescapePlain(c, rest);
    }
  }

  /** `&amp;`, `&lt;` and `&gt;` at the front are read back as their character. */
  lemma UnescapeShort(c: char, rest: string)
    requires c == '&' || c == '<' || c == '>'
    ensures Unescape(Entity(c) + rest) == [c] + Unescape(rest)
  {
    var e := Entity(c);
    var t := e + rest;
    assert StartsWith(t, e);
    assert t[1] == e[1];
    assert t[|e|..] == rest;
  }

  /** `&quot;` and `&#039;` at the front are read back as their character. */
  lemma UnescapeLong(c: char, rest: string)
    requires c == '"' || c == '\''
    ensures Unescape(Entity(c) + rest) == [c] + Unescape(rest)
  {
    var e := Entity(c);
    var t := e + rest;
    assert StartsWith(t, e);
    assert t[1] == e[1];
    assert t[|e|..] == rest;
  }

  /** Any other character is kept as it is. */
  lemma UnescapePlain(c: char, rest: string)
    requires c != '&'
    ensures Unescape([c] + rest) == [c] + Unescape(rest)
  {
    assert ([c] + rest)[1..] == rest;
  }

  /** Escaping loses nothing: the text can be read back. */
  lemma {:induction false} UnescapeEscapeEach(s: string)
    ensures Unescape(EscapeEach(s)) == s
  {
    if s != [] {
      UnescapeEscapeEach(s[1..]);
      UnescapeEntity(s[0], EscapeEach(s[1..]));
      assert [s[0]] + s[1..] == s;
    }
  }

  /** `escapeHtml` leaves no markup character and loses nothing. */
  lemma EscapeHtmlSafe(v: Json)
    ensures forall k :: 0 <= k < |EscapeHtml(v)| ==> !Special(EscapeHtml(v)[k])
    ensures Unescape(EscapeHtml(v)) == NullishString(v)
  {
    EscapeTextIsEach(NullishString(v));
    EscapeEachSafe(NullishString(v));
    UnescapeEscapeEach(NullishString(v));
  }
}
