/**
 * `slugifyId`: trim, lower-case, turn every whitespace run into one `_`, then drop
 * every character outside `[a-z0-9_]`.
 */
module Slug {
  import opened Text

  predicate IsSlugChar(c: char)
  {
    ('a' <= c <= 'z') || ('0' <= c <= '9') || c == '_'
  }

  /** Only `[a-z0-9_]` (the empty string included). */
  predicate IsSlug(s: string)
  {
    forall k :: 0 <= k < |s| ==> IsSlugChar(s[k])
  }

  /** `toLowerCase` of one character, as far as it can matter to a slug: the ASCII
      capitals, and the two other characters whose lower-case form holds an ASCII
      letter (U+0130 becomes `i` and a combining dot, the Kelvin sign becomes `k`).
      Every other character is kept as it is; its lower-case form holds no slug
      character either, so the final filter removes it all the same. */
  function LowerChar(c: char): string
  {
    if 'A' <= c <= 'Z' then [(c as int + 32) as char]
    else if c == '\U{130}' then "i\U{307}"
    else if c == '\U{212A}' then "k"
    else [c]
  }

  function ToLower(s: string): string
  {
    if s == [] then [] else LowerChar(s[0]) + ToLower(s[1..])
  }

  /** `replace(/\s+/g, "_")`. */
  function CollapseSpaces(s: string): string
    decreases |s|
  {
    if s == [] then []
    else if IsSpace(s[0]) then "_" + CollapseSpaces(TrimStart(s[1..]))
    else [s[0]] + CollapseSpaces(s[1..])
  }

  /** `replace(/[^a-z0-9_]/g, "")`. */
  function KeepSlugChars(s: string): (r: string)
    ensures IsSlug(r)
  {
    if s == [] then []
    else if IsSlugChar(s[0]) then [s[0]] + KeepSlugChars(s[1..])
    else KeepSlugChars(s[1..])
  }

  /** `slugifyId(raw)` for a string `raw`. */
  function Slugify(raw: string): (r: string)
    ensures IsSlug(r)
  {
    KeepSlugChars(CollapseSpaces(ToLower(Trim(raw))))
  }

  lemma {:induction false} LowerOfSlug(s: string)
    requires IsSlug(s)
    ensures ToLower(s) == s
  {
    if s != [] {
      LowerOfSlug(s[1..]);
    }
  }

  lemma {:induction false} CollapseOfSlug(s: string)
    requires IsSlug(s)
    ensures CollapseSpaces(s) == s
  {
    if s != [] {
      CollapseOfSlug(s[1..]);
    }
  }

  lemma {:induction false} KeepOfSlug(s: string)
    requires IsSlug(s)
    ensures KeepSlugChars(s) == s
  {
    if s != [] {
      KeepOfSlug(s[1..]);
    }
  }

  /** A slug is its own slug. */
  lemma SlugifyOfSlug(s: string)
    requires IsSlug(s)
    ensures Slugify(s) == s
  {
    TrimmedTrim(s);
    LowerOfSlug(s);
    CollapseOfSlug(s);
    KeepOfSlug(s);
  }

  /** `slugifyId` is idempotent. */
  lemma SlugifyIdempotent(raw: string)
    ensures Slugify(Slugify(raw)) == Slugify(raw)
  {
    SlugifyOfSlug(Slugify(raw));
  }

  lemma {:induction false} LowerAppend(a: string, b: string)
    ensures ToLower(a + b) == ToLower(a) + ToLower(b)
  {
    if a != [] {
      LowerAppend(a[1..], b);
      assert (a + b)[1..] == a[1..] + b;
    } else {
      assert a + b == b;
    }
  }

  lemma {:induction false} KeepAppend(a: string, b: string)
    ensures KeepSlugChars(a + b) == KeepSlugChars(a) + KeepSlugChars(b)
  {
    if a != [] {
      KeepAppend(a[1..], b);
      assert (a + b)[1..] == a[1..] + b;
    } else {
      assert a + b == b;
    }
  }

  /** Lower-casing never produces whitespace where there was none. */
  lemma {:induction false} LowerKeepsNoSpace(a: string)
    requires forall k :: 0 <= k < |a| ==> !IsSpace(a[k])
    ensures forall k :: 0 <= k < |ToLower(a)| ==> !IsSpace(ToLower(a)[k])
  {
    if a != [] {
      LowerKeepsNoSpace(a[1..]);
    }
  }

  /** On text without whitespace, collapsing changes nothing. */
  lemma {:induction false} CollapseNoSpace(a: string)
    requires forall k :: 0 <= k < |a| ==> !IsSpace(a[k])
    ensures CollapseSpaces(a) == a
  {
    if a != [] {
      CollapseNoSpace(a[1..]);
    }
  }

  /** In front of a whitespace run, collapsing writes one `_`. */
  lemma {:induction false} CollapseWord(a: string, w: string, b: string)
    requires forall k :: 0 <= k < |a| ==> !IsSpace(a[k])
    requires w != [] && AllSpace(w)
    requires b == [] || !IsSpace(b[0])
    ensures CollapseSpaces(a + w + b) == a + "_" + CollapseSpaces(b)
  {
    if a == [] {
      assert a + w + b == w + b;
      CollapseRun(w, b);
    } else {
      CollapseWord(a[1..], w, b);
      CollapseStep(a[0], a[1..] + w + b);
      assert a + w + b == [a[0]] + (a[1..] + w + b);
    }
  }

  lemma CollapseStep(c: char, t: string)
    requires !IsSpace(c)
    ensures CollapseSpaces([c] + t) == [c] + CollapseSpaces(t)
  {
    assert ([c] + t)[1..] == t;
  }

  lemma CollapseRun(w: string, b: string)
    requires w != [] && AllSpace(w)
    requires b == [] || !IsSpace(b[0])
    ensures CollapseSpaces(w + b) == "_" + CollapseSpaces(b)
  {
    var t := w + b;
    assert IsSpace(t[0]);
    assert t[1..] == w[1..] + b;
    SkipSpaces(w[1..], b);
  }

  lemma {:induction false} SkipSpaces(w: string, b: string)
    requires AllSpace(w)
    requires b == [] || !IsSpace(b[0])
    ensures TrimStart(w + b) == b
  {
    if w == [] {
      assert w + b == b;
    } else {
      var t := w + b;
      assert t[0] == w[0] && IsSpace(t[0]);
      assert t[1..] == w[1..] + b;
      assert TrimStart(t) == TrimStart(t[1..]);
      SkipSpaces(w[1..], b);
    }
  }

  /** Two words separated by a whitespace run become one slug joined by a single
      `_` (each word lower-cased and stripped of non-slug characters). */
  lemma SlugifyTwoWords(a: string, w: string, b: string)
    requires a != [] && b != []
    requires forall k :: 0 <= k < |a| ==> !IsSpace(a[k])
    requires forall k :: 0 <= k < |b| ==> !IsSpace(b[k])
    requires w != [] && AllSpace(w)
    ensures Slugify(a + w + b) == KeepSlugChars(ToLower(a)) + "_" + KeepSlugChars(ToLower(b))
  {
    SlugifyTwoWordsCollapsed(a, w, b);
    KeepTwoWords(ToLower(a), ToLower(b));
  }

  lemma SlugifyTwoWordsCollapsed(a: string, w: string, b: string)
    requires a != [] && b != []
    requires forall k :: 0 <= k < |a| ==> !IsSpace(a[k])
    requires forall k :: 0 <= k < |b| ==> !IsSpace(b[k])
    requires w != [] && AllSpace(w)
    ensures Slugify(a + w + b) == KeepSlugChars(ToLower(a) + "_" + ToLower(b))
  {
    SlugifyTwoWordsLowered(a, w, b);
    CollapseTwoWords(a, w, b);
  }

  lemma SlugifyTwoWordsLowered(a: string, w: string, b: string)
    requires a != [] && b != []
    requires !IsSpace(a[0]) && !IsSpace(b[|b| - 1])
    requires AllSpace(w)
    ensures Slugify(a + w + b) == KeepSlugChars(CollapseSpaces(ToLower(a) + w + ToLower(b)))
  {
    TrimTwoWords(a, w, b);
    LowerTwoWords(a, w, b);
  }

  lemma TrimTwoWords(a: string, w: string, b: string)
    requires a != [] && b != [] && !IsSpace(a[0]) && !IsSpace(b[|b| - 1])
    ensures Trim(a + w + b) == a + w + b
  {
    var s := a + w + b;
    assert s[0] == a[0] && s[|s| - 1] == b[|b| - 1];
    TrimmedTrim(s);
  }

  lemma LowerTwoWords(a: string, w: string, b: string)
    requires AllSpace(w)
    ensures ToLower(a + w + b) == ToLower(a) + w + ToLower(b)
  {
    LowerAppend(a + w, b);
    LowerAppend(a, w);
    LowerOfSpaces(w);
  }

  lemma CollapseTwoWords(a: string, w: string, b: string)
    requires b != []
    requires forall k :: 0 <= k < |a| ==> !IsSpace(a[k])
    requires forall k :: 0 <= k < |b| ==> !IsSpace(b[k])
    requires w != [] && AllSpace(w)
    ensures CollapseSpaces(ToLower(a) + w + ToLower(b)) == ToLower(a) + "_" + ToLower(b)
  {
    LowerKeepsNoSpace(a);
    LowerKeepsNoSpace(b);
    LowerNonEmpty(b);
    CollapseWord(ToLower(a), w, ToLower(b));
    CollapseNoSpace(ToLower(b));
  }

  lemma KeepTwoWords(a: string, b: string)
    ensures KeepSlugChars(a + "_" + b) == KeepSlugChars(a) + "_" + KeepSlugChars(b)
  {
    KeepAppend(a + "_", b);
    KeepAppend(a, "_");
    KeepOfSlug("_");
  }

  lemma {:induction false} LowerNonEmpty(b: string)
    requires b != []
    ensures ToLower(b) != []
  {
  }

  lemma {:induction false} LowerOfSpaces(w: string)
    requires AllSpace(w)
    ensures ToLower(w) == w
  {
    if w != [] {
      LowerOfSpaces(w[1..]);
    }
  }

  /** `slugifyId("Has Space!")` is `"has_space"`: the two words are lower-cased and
      filtered apart, and the space between them becomes `_`. */
  lemma SlugifyExample(raw: string)
    requires raw == "Has Space!"
    ensures Slugify(raw) == "has_space"
  {
    assert "Has" + " " + "Space!" == raw;
    SlugifyTwoWords("Has", " ", "Space!");
    ExampleWords();
  }

  /** The two words of the example, lower-cased, filtered and joined by `_`. */
  lemma ExampleWords()
    ensures KeepSlugChars(ToLower("Has")) + "_" + KeepSlugChars(ToLower("Space!")) == "has_space"
  {
    ExampleLower();
    ExampleKeep();
  }

  /** Text without a character that `toLowerCase` changes is its own lower case. */
  lemma {:induction false} LowerOfPlain(s: string)
    requires forall k :: 0 <= k < |s| ==> LowerChar(s[k]) == [s[k]]
    ensures ToLower(s) == s
  {
    if s != [] {
      LowerOfPlain(s[1..]);
    }
  }

  /** The two words of the example, lower-cased. */
  lemma ExampleLower()
    ensures ToLower("Has") == "has" && ToLower("Space!") == "space!"
  {
    assert ToLower("Has") == "h" + ToLower("as");
    LowerOfPlain("as");
    assert ToLower("Space!") == "s" + ToLower("pace!");
    LowerOfPlain("pace!");
  }

  /** The two lower-cased words of the example, filtered. */
  lemma ExampleKeep()
    ensures KeepSlugChars("has") == "has" && KeepSlugChars("space!") == "space"
  {
    assert "space!" == "space" + "!";
    KeepAppend("space", "!");
    KeepOfSlug("space");
    KeepOfSlug("has");
  }
}
