/**
 * The string operations of Python that the chatbot's normalisers are built
 * from: `str.isspace`, `str.lower`, `str.strip`, `str.split()`,
 * `" ".join(...)`, `re.sub(r'\s+', ' ', ...)`, `in` on strings and the `\w`
 * class of `re`. Characters are modelled exactly up to U+00FF (Latin-1,
 * which covers Portuguese) and, for whitespace, over all of Unicode.
 */
module Text {

  /** `c.isspace()`: Unicode whitespace as Python defines it. */
  predicate IsSpace(c: char) {
    if c <= ' ' then ('\U{0009}' <= c <= '\U{000D}') || '\U{001C}' <= c
    else if c < '\U{0085}' then false
    else SpaceAbove(c)
  }

  predicate SpaceAbove(c: char) {
    || c == '\U{0085}' || c == '\U{00A0}' || c == '\U{1680}'
    || ('\U{2000}' <= c <= '\U{200A}')
    || c == '\U{2028}' || c == '\U{2029}' || c == '\U{202F}'
    || c == '\U{205F}' || c == '\U{3000}'
  }

  predicate IsAsciiDigit(c: char) { '0' <= c <= '9' }

  /** Membership in `re`'s `\w` for text: letters, digits and underscore (Latin-1). */
  predicate IsWordChar(c: char) {
    || ('a' <= c <= 'z') || ('A' <= c <= 'Z') || IsAsciiDigit(c) || c == '_'
    || c == '\U{00AA}' || c == '\U{00B2}' || c == '\U{00B3}' || c == '\U{00B5}'
    || c == '\U{00B9}' || c == '\U{00BA}' || ('\U{00BC}' <= c <= '\U{00BE}')
    || ('\U{00C0}' <= c <= '\U{00FF}' && c != '\U{00D7}' && c != '\U{00F7}')
  }

  /** Upper-case letters that `str.lower` maps one-to-one (Latin-1). */
  predicate IsUpper(c: char) {
    ('A' <= c <= 'Z') || ('\U{00C0}' <= c <= '\U{00DE}' && c != '\U{00D7}')
  }

  /** `c.islower()` (Latin-1). */
  predicate IsLower(c: char) {
    || ('a' <= c <= 'z') || c == '\U{00AA}' || c == '\U{00B5}' || c == '\U{00BA}'
    || ('\U{00DF}' <= c <= '\U{00FF}' && c != '\U{00F7}')
  }

  function LowerChar(c: char): (r: char)
    ensures IsUpper(c) ==> IsLower(r)
    ensures !IsUpper(c) ==> r == c
    ensures IsSpace(r) == IsSpace(c)
  {
    if IsUpper(c) then (c as int + 32) as char else c
  }

  /** `s.lower()`. */
  function Lower(s: string): (r: string)
    ensures |r| == |s|
    ensures forall i | 0 <= i < |s| :: r[i] == LowerChar(s[i])
  {
    seq(|s|, i requires 0 <= i < |s| => LowerChar(s[i]))
  }

  lemma LowerIdempotent(s: string)
    ensures Lower(Lower(s)) == Lower(s)
  {
    assert forall i | 0 <= i < |s| :: LowerChar(LowerChar(s[i])) == LowerChar(s[i]);
  }

  lemma LowerConcat(a: string, b: string)
    ensures Lower(a + b) == Lower(a) + Lower(b)
  {
  }

  /** `c.upper()` for a lower-case character; the sharp s becomes two letters. */
  function UpperOf(c: char): (r: string)
    requires IsLower(c)
    ensures |r| >= 1 && forall k | 0 <= k < |r| :: !IsSpace(r[k]) && r[k] != '.'
    ensures IsLower(r[0]) ==> r == [c]
  {
    if 'a' <= c <= 'z' || ('\U{00E0}' <= c <= '\U{00FE}' && c != '\U{00F7}') then [(c as int - 32) as char]
    else if c == '\U{00DF}' then "SS"
    else if c == '\U{00FF}' then ['\U{0178}']
    else if c == '\U{00B5}' then ['\U{039C}']
    else [c]
  }

  /** `prefix` is a prefix of `s` (`s.startswith(prefix)`). */
  predicate StartsWith(s: string, prefix: string) {
    |prefix| <= |s| && s[..|prefix|] == prefix
  }

  /** `s.endswith(suffix)`. */
  predicate EndsWith(s: string, suffix: string) {
    |suffix| <= |s| && s[|s| - |suffix|..] == suffix
  }

  /** Ending in "." and in ".." spelled out character by character. */
  lemma EndsWithDots(s: string)
    ensures EndsWith(s, ".") <==> s != [] && s[|s| - 1] == '.'
    ensures EndsWith(s, "..") <==> |s| >= 2 && s[|s| - 2] == '.' && s[|s| - 1] == '.'
  {
    if s != [] {
      assert s[|s| - 1..] == [s[|s| - 1]];
    }
    if |s| >= 2 {
      assert s[|s| - 2..] == [s[|s| - 2], s[|s| - 1]];
    }
  }

  /** `sub in s`. */
  predicate Contains(s: string, sub: string)
    decreases |s|
  {
    StartsWith(s, sub) || (s != [] && Contains(s[1..], sub))
  }

  /** sub occurs in s starting at position k. */
  predicate OccursAt(s: string, sub: string, k: int) {
    0 <= k <= |s| - |sub| && s[k..k + |sub|] == sub
  }

  /** Dropping the first character moves every occurrence one place to the left. */
  lemma OccursShift(s: string, sub: string, k: int)
    requires s != [] && k >= 1
    ensures OccursAt(s, sub, k) <==> OccursAt(s[1..], sub, k - 1)
  {
    if 0 <= k <= |s| - |sub| {
      var x, y := s[k..k + |sub|], s[1..][k - 1..k - 1 + |sub|];
      forall i | 0 <= i < |sub|
        ensures x[i] == y[i]
      {
        assert x[i] == s[k + i];
        assert y[i] == s[1..][k - 1 + i];
      }
      assert x == y;
    }
  }

  /** `sub in s` holds exactly when sub occurs at some position of s. */
  lemma {:induction false} ContainsAt(s: string, sub: string)
    ensures Contains(s, sub) <==> exists k :: OccursAt(s, sub, k)
  {
    if s == [] {
      if Contains(s, sub) {
        assert OccursAt(s, sub, 0);
      }
    } else {
      ContainsAt(s[1..], sub);
      if Contains(s, sub) {
        if StartsWith(s, sub) {
          assert OccursAt(s, sub, 0);
        } else {
          var k :| OccursAt(s[1..], sub, k);
          OccursShift(s, sub, k + 1);
        }
      } else {
        forall k | OccursAt(s, sub, k)
          ensures false
        {
          if k > 0 {
            OccursShift(s, sub, k);
          }
        }
      }
    }
  }

  /** The text with no whitespace at the front (`s.lstrip()`). */
  function LStrip(s: string): (r: string)
    ensures |r| <= |s| && r == s[|s| - |r|..]
    ensures r == [] || !IsSpace(r[0])
    ensures forall i | 0 <= i < |s| - |r| :: IsSpace(s[i])
    ensures s != [] && IsSpace(s[0]) ==> |r| < |s|
  {
    if s != [] && IsSpace(s[0]) then LStrip(s[1..]) else s
  }

  /** The text with no whitespace at the end (`s.rstrip()`). */
  function RStrip(s: string): (r: string)
    ensures |r| <= |s| && r == s[..|r|]
    ensures r == [] || !IsSpace(r[|r| - 1])
    ensures forall i | |r| <= i < |s| :: IsSpace(s[i])
  {
    if s != [] && IsSpace(s[|s| - 1]) then RStrip(s[..|s| - 1]) else s
  }

  /** `s.strip()`: the middle of s, between its leading and trailing whitespace. */
  function Strip(s: string): (r: string)
    ensures |r| <= |s|
    ensures r == [] || (!IsSpace(r[0]) && !IsSpace(r[|r| - 1]))
  {
    RStrip(LStrip(s))
  }

  /** Whether s holds nothing but whitespace (`not s.strip()`). */
  predicate IsBlank(s: string) {
    forall i | 0 <= i < |s| :: IsSpace(s[i])
  }

  lemma {:induction false} StripEmptyIffBlank(s: string)
    ensures Strip(s) == [] <==> IsBlank(s)
  {
    var l := LStrip(s);
    if l == [] {
      assert forall i | 0 <= i < |s| :: IsSpace(s[i]);
    } else {
      assert !IsSpace(l[0]) && l[0] == s[|s| - |l|];
    }
  }

  /** Adding whitespace around a text does not change what strip returns. */
  lemma {:induction false} StripIgnoresPadding(pre: string, s: string, post: string)
    requires IsBlank(pre) && IsBlank(post)
    ensures Strip(pre + s + post) == Strip(s)
  {
    calc {
      Strip(pre + s + post);
      { assert pre + s + post == pre + (s + post); }
      RStrip(LStrip(pre + (s + post)));
      { LStripPadding(pre, s + post); }
      RStrip(LStrip(s + post));
      { LStripAppend(s, post); }
      RStrip(LStrip(s));
    }
  }

  lemma {:induction false} LStripPadding(pre: string, s: string)
    requires IsBlank(pre)
    ensures LStrip(pre + s) == LStrip(s)
    decreases |pre|
  {
    if pre != [] {
      var t := pre + s;
      assert t[0] == pre[0] && IsSpace(t[0]);
      assert t[1..] == pre[1..] + s;
      assert LStrip(t) == LStrip(t[1..]);
      LStripPadding(pre[1..], s);
    } else {
      assert pre + s == s;
    }
  }

  lemma {:induction false} RStripPadding(s: string, post: string)
    requires IsBlank(post)
    ensures RStrip(s + post) == RStrip(s)
    decreases |post|
  {
    if post != [] {
      var p := post[..|post| - 1];
      assert (s + post)[..|s + post| - 1] == s + p;
      RStripPadding(s, p);
    } else {
      assert s + post == s;
    }
  }

  /** Left-stripping s + post and then right-stripping the blank tail is left-stripping s. */
  lemma {:induction false} LStripAppend(s: string, post: string)
    requires IsBlank(post)
    ensures RStrip(LStrip(s + post)) == RStrip(LStrip(s))
    decreases |s|
  {
    if s == [] {
      assert s + post == post;
      assert LStrip(post) == post[|post| - |LStrip(post)|..];
      var l := LStrip(post);
      assert IsBlank(l);
      assert l == [] + l;
      RStripPadding([], l);
    } else if IsSpace(s[0]) {
      assert (s + post)[1..] == s[1..] + post;
      LStripAppend(s[1..], post);
    } else {
      assert LStrip(s + post) == s + post;
      RStripPadding(s, post);
    }
  }

  /** A word of `str.split()`: non-empty and free of whitespace. */
  predicate IsWord(w: string) {
    w != [] && forall k | 0 <= k < |w| :: !IsSpace(w[k])
  }

  predicate NoSpace(w: string) {
    forall k | 0 <= k < |w| :: !IsSpace(w[k])
  }

  /**
   * `str.split()` with no separator, scanning left to right with the word
   * read so far in `cur`.
   */
  function WordsFrom(s: string, cur: string): (r: seq<string>)
    requires NoSpace(cur)
    ensures forall j | 0 <= j < |r| :: IsWord(r[j])
    decreases |s|
  {
    if s == [] then (if cur == [] then [] else [cur])
    else if IsSpace(s[0]) then (if cur == [] then [] else [cur]) + WordsFrom(s[1..], [])
    else WordsFrom(s[1..], cur + [s[0]])
  }

  /** `s.split()`: the maximal whitespace-free runs of s, in order. */
  function Words(s: string): seq<string> {
    WordsFrom(s, [])
  }

  /** `" ".join(ws)`. */
  function Join(ws: seq<string>): string {
    if |ws| == 0 then []
    else if |ws| == 1 then ws[0]
    else ws[0] + " " + Join(ws[1..])
  }

  /**
   * The shape every normaliser promises: all whitespace is a plain space
   * that is neither at an end nor next to other whitespace.
   */
  predicate Normalized(s: string) {
    && (forall i | 0 <= i < |s| && IsSpace(s[i]) :: s[i] == ' ' && 0 < i < |s| - 1)
    && (forall i | 0 <= i < |s| - 1 :: NotDoubled(s, i))
  }

  /** The characters at i and i + 1 are not both whitespace. */
  predicate NotDoubled(s: string, i: int)
    requires 0 <= i < |s| - 1
  {
    !(IsSpace(s[i]) && IsSpace(s[i + 1]))
  }

  lemma NormalizedEnds(s: string)
    requires Normalized(s) && s != []
    ensures !IsSpace(s[0]) && !IsSpace(s[|s| - 1])
  {
  }

  /** Appending a non-space character keeps a non-empty text normalised. */
  lemma NormalizedAppend(s: string, c: char)
    requires Normalized(s) && s != [] && !IsSpace(c)
    ensures Normalized(s + [c])
  {
    var u := s + [c];
    NormalizedEnds(s);
    forall i | 0 <= i < |u| && IsSpace(u[i])
      ensures u[i] == ' ' && 0 < i < |u| - 1
    {
      assert u[i] == s[i];
    }
    forall i | 0 <= i < |u| - 1
      ensures NotDoubled(u, i)
    {
      if i < |s| - 1 {
        assert NotDoubled(s, i);
        assert u[i] == s[i] && u[i + 1] == s[i + 1];
      } else {
        assert u[i + 1] == c;
      }
    }
  }

  /** No two whitespace characters are adjacent in a normalised text. */
  lemma NormalizedNoDoubleSpace(s: string, i: int)
    requires Normalized(s) && 0 <= i < |s| - 1
    ensures !(IsSpace(s[i]) && IsSpace(s[i + 1]))
  {
    assert NotDoubled(s, i);
  }

  /** Joining words with single spaces gives a normalised text. */
  lemma {:induction false} JoinNormalized(ws: seq<string>)
    requires forall j | 0 <= j < |ws| :: IsWord(ws[j])
    ensures Normalized(Join(ws))
    ensures |ws| > 0 ==> Join(ws) != [] && !IsSpace(Join(ws)[0]) && !IsSpace(Join(ws)[|Join(ws)| - 1])
    ensures |ws| == 0 ==> Join(ws) == []
  {
    if |ws| <= 1 {
    } else {
      var rest := Join(ws[1..]);
      JoinNormalized(ws[1..]);
      var w := ws[0];
      var j := w + " " + rest;
      assert j == Join(ws);
      assert IsWord(w);
      forall i | 0 <= i < |j| && IsSpace(j[i])
        ensures j[i] == ' ' && 0 < i < |j| - 1
      {
        if i > |w| {
          assert j[i] == rest[i - |w| - 1];
        }
      }
      forall i | 0 <= i < |j| - 1
        ensures NotDoubled(j, i)
      {
        if i < |w| {
          assert j[i] == w[i];
        } else if i == |w| {
          assert j[i + 1] == rest[0];
        } else {
          assert NotDoubled(rest, i - |w| - 1);
          assert j[i] == rest[i - |w| - 1] && j[i + 1] == rest[i - |w|];
        }
      }
    }
  }

  lemma {:induction false} WordsFromGlue(w: string, t: string, cur: string)
    requires NoSpace(w) && NoSpace(cur)
    ensures WordsFrom(w + t, cur) == WordsFrom(t, cur + w)
    decreases |w|
  {
    if w == [] {
      assert w + t == t && cur + w == cur;
    } else {
      assert (w + t)[0] == w[0] && (w + t)[1..] == w[1..] + t;
      assert cur + [w[0]] + w[1..] == cur + w;
      WordsFromGlue(w[1..], t, cur + [w[0]]);
    }
  }

  /** Splitting text that was joined from words gives the words back. */
  lemma {:induction false} WordsOfJoin(ws: seq<string>)
    requires forall j | 0 <= j < |ws| :: IsWord(ws[j])
    ensures Words(Join(ws)) == ws
  {
    if |ws| == 0 {
    } else if |ws| == 1 {
      WordsFromGlue(ws[0], [], []);
      assert ws[0] + [] == ws[0];
      assert [] + ws[0] == ws[0];
    } else {
      var rest := Join(ws[1..]);
      assert Join(ws) == ws[0] + (" " + rest);
      WordsFromGlue(ws[0], " " + rest, []);
      assert [] + ws[0] == ws[0];
      assert (" " + rest)[1..] == rest;
      WordsOfJoin(ws[1..]);
      assert ws == [ws[0]] + ws[1..];
    }
  }

  /** `re.sub(r'\s+', ' ', s)`: every maximal whitespace run becomes one space. */
  function CollapseSpaces(s: string): (r: string)
    decreases |s|
  {
    if s == [] then []
    else if IsSpace(s[0]) then " " + CollapseSpaces(LStrip(s))
    else [s[0]] + CollapseSpaces(s[1..])
  }

  /** Every whitespace character is a plain space followed by non-whitespace or the end. */
  predicate SingleSpaces(s: string) {
    && (forall i | 0 <= i < |s| && IsSpace(s[i]) :: s[i] == ' ')
    && (forall i | 0 <= i < |s| - 1 :: NotDoubled(s, i))
  }

  lemma SingleSpacesCons(c: char, t: string)
    requires SingleSpaces(t)
    requires IsSpace(c) ==> c == ' ' && (t == [] || !IsSpace(t[0]))
    ensures SingleSpaces([c] + t)
  {
    var u := [c] + t;
    forall i | 0 <= i < |u| && IsSpace(u[i])
      ensures u[i] == ' '
    {
      if i > 0 {
        assert u[i] == t[i - 1];
      }
    }
    forall i | 0 <= i < |u| - 1
      ensures NotDoubled(u, i)
    {
      if i > 0 {
        assert NotDoubled(t, i - 1);
        assert u[i] == t[i - 1] && u[i + 1] == t[i];
      } else {
        assert u[1] == t[0];
      }
    }
  }

  lemma {:induction false} CollapseShape(s: string)
    ensures SingleSpaces(CollapseSpaces(s))
    ensures CollapseSpaces(s) == [] <==> s == []
    ensures s != [] ==> (IsSpace(CollapseSpaces(s)[0]) <==> IsSpace(s[0]))
    decreases |s|
  {
    if s == [] {
    } else if IsSpace(s[0]) {
      var l := LStrip(s);
      CollapseShape(l);
      SingleSpacesCons(' ', CollapseSpaces(l));
    } else {
      CollapseShape(s[1..]);
      SingleSpacesCons(s[0], CollapseSpaces(s[1..]));
    }
  }

  lemma BlankConcat(a: string, b: string)
    ensures IsBlank(a + b) <==> IsBlank(a) && IsBlank(b)
  {
    if IsBlank(a + b) {
      forall i | 0 <= i < |b|
        ensures IsSpace(b[i])
      {
        assert b[i] == (a + b)[|a| + i];
      }
      forall i | 0 <= i < |a|
        ensures IsSpace(a[i])
      {
        assert a[i] == (a + b)[i];
      }
    }
    if IsBlank(a) && IsBlank(b) {
      forall i | 0 <= i < |a + b|
        ensures IsSpace((a + b)[i])
      {
        if i < |a| {
          assert (a + b)[i] == a[i];
        } else {
          assert (a + b)[i] == b[i - |a|];
        }
      }
    }
  }

  /** Leading whitespace does not change whether a text is blank. */
  lemma LStripBlank(s: string)
    ensures IsBlank(LStrip(s)) <==> IsBlank(s)
  {
    var l := LStrip(s);
    var k := |s| - |l|;
    var pre := s[..k];
    assert s == pre + l;
    forall i | 0 <= i < k
      ensures IsSpace(pre[i])
    {
      assert pre[i] == s[i];
    }
    BlankConcat(pre, l);
  }

  /** Collapsing leaves only whitespace exactly when there was only whitespace. */
  lemma {:induction false} CollapseBlank(s: string)
    ensures IsBlank(CollapseSpaces(s)) <==> IsBlank(s)
    decreases |s|
  {
    if s != [] {
      if IsSpace(s[0]) {
        var l := LStrip(s);
        CollapseBlank(l);
        LStripBlank(s);
        assert CollapseSpaces(s) == " " + CollapseSpaces(l);
        BlankConcat(" ", CollapseSpaces(l));
      } else {
        NotBlankAtStart(s);
        NotBlankAtStart(CollapseSpaces(s));
      }
    }
  }

  lemma NotBlankAtStart(s: string)
    requires s != [] && !IsSpace(s[0])
    ensures !IsBlank(s)
  {
  }

  /** Leading whitespace never changes the words when no word is open. */
  lemma {:induction false} WordsFromSkipsSpaces(s: string)
    ensures WordsFrom(s, []) == WordsFrom(LStrip(s), [])
    decreases |s|
  {
    if s != [] && IsSpace(s[0]) {
      WordsFromSkipsSpaces(s[1..]);
    }
  }

  /** Collapsing whitespace runs does not change the words. */
  lemma {:induction false} WordsFromCollapse(s: string, cur: string)
    requires NoSpace(cur)
    ensures WordsFrom(CollapseSpaces(s), cur) == WordsFrom(s, cur)
    decreases |s|
  {
    if s == [] {
    } else if IsSpace(s[0]) {
      var l := LStrip(s);
      WordsFromCollapse(l, []);
      var c := CollapseSpaces(l);
      assert (" " + c)[0] == ' ' && (" " + c)[1..] == c;
      WordsFromSkipsSpaces(s[1..]);
      assert LStrip(s[1..]) == l;
    } else {
      WordsFromCollapse(s[1..], cur + [s[0]]);
      var c := CollapseSpaces(s[1..]);
      assert ([s[0]] + c)[0] == s[0] && ([s[0]] + c)[1..] == c;
    }
  }

  lemma {:induction false} WordsFromTrailingSpace(x: string, c: char, cur: string)
    requires IsSpace(c) && NoSpace(cur)
    ensures WordsFrom(x + [c], cur) == WordsFrom(x, cur)
    decreases |x|
  {
    if x == [] {
      assert [] + [c] == [c];
      assert [c][1..] == [];
    } else {
      assert (x + [c])[0] == x[0] && (x + [c])[1..] == x[1..] + [c];
      if IsSpace(x[0]) {
        WordsFromTrailingSpace(x[1..], c, []);
      } else {
        WordsFromTrailingSpace(x[1..], c, cur + [x[0]]);
      }
    }
  }

  lemma {:induction false} WordsRStrip(s: string)
    ensures Words(RStrip(s)) == Words(s)
    decreases |s|
  {
    if s != [] && IsSpace(s[|s| - 1]) {
      var p := s[..|s| - 1];
      assert s == p + [s[|s| - 1]];
      WordsFromTrailingSpace(p, s[|s| - 1], []);
      WordsRStrip(p);
    }
  }

  /** Stripping does not change the words. */
  lemma WordsStrip(s: string)
    ensures Words(Strip(s)) == Words(s)
  {
    WordsRStrip(LStrip(s));
    WordsFromSkipsSpaces(s);
  }

  /** Stripping a text whose whitespace is single spaces gives a normalised text. */
  /** A slice of a text with single spaces that neither starts nor ends with whitespace is normalised. */
  lemma SliceNormalized(s: string, a: int, b: int)
    requires SingleSpaces(s) && 0 <= a <= b <= |s|
    requires a < b ==> !IsSpace(s[a]) && !IsSpace(s[b - 1])
    ensures Normalized(s[a..b])
  {
    var t := s[a..b];
    forall i | 0 <= i < |t| && IsSpace(t[i])
      ensures t[i] == ' ' && 0 < i < |t| - 1
    {
      assert t[i] == s[a + i];
    }
    forall i | 0 <= i < |t| - 1
      ensures NotDoubled(t, i)
    {
      assert NotDoubled(s, a + i);
      assert t[i] == s[a + i] && t[i + 1] == s[a + i + 1];
    }
  }

  /** The stripped text is the slice of s between its leading and trailing whitespace. */
  lemma StripSlice(s: string) returns (a: nat)
    ensures a + |Strip(s)| <= |s| && Strip(s) == s[a..a + |Strip(s)|]
  {
    var l := LStrip(s);
    a := |s| - |l|;
    var r := RStrip(l);
    assert l == s[a..];
    assert r == l[..|r|];
    assert r == s[a..a + |r|];
  }

  lemma StripSingleSpaces(s: string)
    requires SingleSpaces(s)
    ensures Normalized(Strip(s))
  {
    var a, b := StripBounds(s);
    SliceNormalized(s, a, b);
  }

  /** Where the stripped text sits in s: its ends are not whitespace. */
  lemma StripBounds(s: string) returns (a: nat, b: nat)
    ensures a <= b <= |s| && Strip(s) == s[a..b]
    ensures a < b ==> !IsSpace(s[a]) && !IsSpace(s[b - 1])
  {
    a := StripSlice(s);
    var r := Strip(s);
    b := a + |r|;
    if r != [] {
      assert s[a] == r[0] && s[b - 1] == r[|r| - 1];
    }
  }

  lemma SingleSpacesTail(s: string)
    requires SingleSpaces(s) && s != []
    ensures SingleSpaces(s[1..])
  {
    var t := s[1..];
    forall i | 0 <= i < |t| && IsSpace(t[i])
      ensures t[i] == ' '
    {
      assert t[i] == s[i + 1];
    }
    forall i | 0 <= i < |t| - 1
      ensures NotDoubled(t, i)
    {
      assert NotDoubled(s, i + 1);
      assert t[i] == s[i + 1] && t[i + 1] == s[i + 2];
    }
  }

  /** A text whose whitespace is already single spaces is left alone by collapsing. */
  lemma {:induction false} CollapseSingleSpaces(s: string)
    requires SingleSpaces(s)
    ensures CollapseSpaces(s) == s
    decreases |s|
  {
    if s != [] {
      var t := s[1..];
      SingleSpacesTail(s);
      CollapseSingleSpaces(t);
      if IsSpace(s[0]) {
        if t != [] {
          assert NotDoubled(s, 0);
        }
        assert LStrip(s) == LStrip(t);
        assert s == " " + t;
      } else {
        assert s == [s[0]] + t;
      }
    }
  }

  /** `re.sub(r'\s+', ' ', s).strip()`. */
  function CleanWhitespace(s: string): string {
    Strip(CollapseSpaces(s))
  }

  /**
   * The whitespace clean-up keeps exactly the words of its input and leaves
   * them separated by single spaces, with nothing at either end.
   */
  lemma CleanWhitespaceSpec(s: string)
    ensures Normalized(CleanWhitespace(s))
    ensures Words(CleanWhitespace(s)) == Words(s)
  {
    CollapseShape(s);
    StripSingleSpaces(CollapseSpaces(s));
    WordsStrip(CollapseSpaces(s));
    WordsFromCollapse(s, []);
  }

  /** `" ".join(s.split())` keeps the words and normalises the spacing. */
  lemma JoinWordsSpec(s: string)
    ensures Normalized(Join(Words(s)))
    ensures Words(Join(Words(s))) == Words(s)
  {
    JoinNormalized(Words(s));
    WordsOfJoin(Words(s));
  }

  /** The whitespace clean-up leaves nothing exactly when there was only whitespace. */
  lemma CleanWhitespaceBlank(text: string)
    ensures CleanWhitespace(text) == [] <==> IsBlank(text)
  {
    CollapseBlank(text);
    StripEmptyIffBlank(CollapseSpaces(text));
  }

  /** Every character of s has property P. */
  predicate Each(s: string, P: char -> bool) {
    forall i | 0 <= i < |s| :: P(s[i])
  }

  lemma EachConcat(a: string, b: string, P: char -> bool)
    ensures Each(a + b, P) <==> Each(a, P) && Each(b, P)
  {
    if Each(a + b, P) {
      forall i | 0 <= i < |a|
        ensures P(a[i])
      {
        assert a[i] == (a + b)[i];
      }
      forall i | 0 <= i < |b|
        ensures P(b[i])
      {
        assert b[i] == (a + b)[|a| + i];
      }
    }
    if Each(a, P) && Each(b, P) {
      forall i | 0 <= i < |a + b|
        ensures P((a + b)[i])
      {
        if i < |a| {
          assert (a + b)[i] == a[i];
        } else {
          assert (a + b)[i] == b[i - |a|];
        }
      }
    }
  }

  /** Collapsing whitespace writes only plain spaces, so it keeps any property a space has. */
  lemma {:induction false} EachCollapse(s: string, P: char -> bool)
    requires P(' ') && Each(s, P)
    ensures Each(CollapseSpaces(s), P)
    decreases |s|
  {
    if s != [] {
      if IsSpace(s[0]) {
        var l := LStrip(s);
        assert Each(l, P) by {
          forall i | 0 <= i < |l|
            ensures P(l[i])
          {
            assert l[i] == s[|s| - |l| + i];
          }
        }
        EachCollapse(l, P);
        EachConcat(" ", CollapseSpaces(l), P);
      } else {
        assert Each(s[1..], P) by {
          forall i | 0 <= i < |s| - 1
            ensures P(s[1..][i])
          {
            assert s[1..][i] == s[i + 1];
          }
        }
        EachCollapse(s[1..], P);
        EachConcat([s[0]], CollapseSpaces(s[1..]), P);
      }
    }
  }

  /** Every slice of a text whose characters all have property P has it too. */
  lemma EachSlice(s: string, a: int, b: int, P: char -> bool)
    requires Each(s, P) && 0 <= a <= b <= |s|
    ensures Each(s[a..b], P)
  {
    forall i | 0 <= i < b - a
      ensures P(s[a..b][i])
    {
      assert s[a..b][i] == s[a + i];
    }
  }

  /** Cleaning whitespace keeps any property that plain spaces have. */
  lemma EachCleanWhitespace(s: string, P: char -> bool)
    requires P(' ') && Each(s, P)
    ensures Each(CleanWhitespace(s), P)
  {
    EachCollapse(s, P);
    var c := CollapseSpaces(s);
    var a := StripSlice(c);
    EachSlice(c, a, a + |Strip(c)|, P);
  }

  /** A normalised text is blank only when it is empty. */
  lemma NormalizedBlank(s: string)
    requires Normalized(s)
    ensures IsBlank(s) <==> s == []
  {
    if s != [] {
      NormalizedEnds(s);
    }
  }

  /** Stripping a normalised text changes nothing. */
  lemma NormalizedStrip(s: string)
    requires Normalized(s)
    ensures Strip(s) == s
  {
    if s != [] {
      NormalizedEnds(s);
    }
  }

  lemma {:induction false} LStripLower(s: string)
    ensures LStrip(Lower(s)) == Lower(LStrip(s))
    decreases |s|
  {
    if s != [] {
      var t := Lower(s);
      assert t[0] == LowerChar(s[0]);
      if IsSpace(s[0]) {
        assert t[1..] == Lower(s[1..]);
        LStripLower(s[1..]);
        LStripSkips(s);
        LStripSkips(t);
      } else {
        LStripKeeps(s);
        LStripKeeps(t);
      }
    }
  }

  lemma LStripSkips(s: string)
    requires s != [] && IsSpace(s[0])
    ensures LStrip(s) == LStrip(s[1..])
  {
  }

  lemma LStripKeeps(s: string)
    requires s != [] && !IsSpace(s[0])
    ensures LStrip(s) == s
  {
  }

  lemma {:induction false} RStripLower(s: string)
    ensures RStrip(Lower(s)) == Lower(RStrip(s))
    decreases |s|
  {
    if s != [] {
      var t := Lower(s);
      assert t[|s| - 1] == LowerChar(s[|s| - 1]);
      if IsSpace(s[|s| - 1]) {
        assert t[..|s| - 1] == Lower(s[..|s| - 1]);
        RStripLower(s[..|s| - 1]);
        RStripSkips(s);
        RStripSkips(t);
      } else {
        RStripKeeps(s);
        RStripKeeps(t);
      }
    }
  }

  lemma RStripSkips(s: string)
    requires s != [] && IsSpace(s[|s| - 1])
    ensures RStrip(s) == RStrip(s[..|s| - 1])
  {
  }

  lemma RStripKeeps(s: string)
    requires s != [] && !IsSpace(s[|s| - 1])
    ensures RStrip(s) == s
  {
  }

  /** Lower-casing never turns whitespace into text or back, so it commutes with strip. */
  lemma StripLower(s: string)
    ensures Strip(Lower(s)) == Lower(Strip(s))
  {
    LStripLower(s);
    RStripLower(LStrip(s));
  }

  /** Cutting a normalised text anywhere leaves single spaces, so stripping the cut renormalises it. */
  lemma NormalizedPrefix(s: string, k: int)
    requires Normalized(s) && 0 <= k <= |s|
    ensures SingleSpaces(s[..k])
    ensures Normalized(Strip(s[..k]))
  {
    var t := s[..k];
    forall i | 0 <= i < |t| && IsSpace(t[i])
      ensures t[i] == ' '
    {
      assert t[i] == s[i];
    }
    forall i | 0 <= i < |t| - 1
      ensures NotDoubled(t, i)
    {
      assert NotDoubled(s, i);
      assert t[i] == s[i] && t[i + 1] == s[i + 1];
    }
    StripSingleSpaces(t);
  }

  /** Cleaning the whitespace of a normalised text changes nothing. */
  lemma CleanWhitespaceNormalized(s: string)
    requires Normalized(s)
    ensures CleanWhitespace(s) == s
  {
    CollapseSingleSpaces(s);
    NormalizedStrip(s);
  }

  /** The decimal digits of n, most significant first (`str(n)`). */
  function DecimalString(n: nat): (r: string)
    ensures r != [] && forall i | 0 <= i < |r| :: IsAsciiDigit(r[i])
    decreases n
  {
    var d := ['0' + (n % 10) as char];
    if n < 10 then d else DecimalString(n / 10) + d
  }

  /** The value of a string of decimal digits. */
  function DecimalValue(s: string): nat
    requires forall i | 0 <= i < |s| :: IsAsciiDigit(s[i])
  {
    if s == [] then 0
    else
      assert IsAsciiDigit(s[|s| - 1]);
      10 * DecimalValue(s[..|s| - 1]) + (s[|s| - 1] - '0') as nat
  }

  /** Reading back the digits of n gives n. */
  lemma {:induction false} DecimalRoundTrip(n: nat)
    ensures DecimalValue(DecimalString(n)) == n
    decreases n
  {
    var r := DecimalString(n);
    if n >= 10 {
      DecimalRoundTrip(n / 10);
      assert r[..|r| - 1] == DecimalString(n / 10);
    }
  }

  /** The length of the run of decimal digits starting at position i (what a greedy `\d+` takes). */
  function DigitRun(s: string, i: nat): (n: nat)
    requires i <= |s|
    ensures i + n <= |s|
    ensures forall j | i <= j < i + n :: IsAsciiDigit(s[j])
    ensures i + n == |s| || !IsAsciiDigit(s[i + n])
    decreases |s| - i
  {
    if i < |s| && IsAsciiDigit(s[i]) then 1 + DigitRun(s, i + 1) else 0
  }

  /** The digits s[i..i + n] end the run there, so the run is exactly n long. */
  lemma {:induction false} DigitRunIs(s: string, i: nat, n: nat)
    requires i + n <= |s|
    requires forall j | i <= j < i + n :: IsAsciiDigit(s[j])
    requires i + n == |s| || !IsAsciiDigit(s[i + n])
    ensures DigitRun(s, i) == n
    decreases n
  {
    if n > 0 {
      DigitRunIs(s, i + 1, n - 1);
    }
  }

  /** A digit string w written at i and not followed by a digit is the run there. */
  lemma DigitRunOf(s: string, i: nat, w: string)
    requires i + |w| <= |s| && s[i..i + |w|] == w
    requires forall j | 0 <= j < |w| :: IsAsciiDigit(w[j])
    requires i + |w| == |s| || !IsAsciiDigit(s[i + |w|])
    ensures DigitRun(s, i) == |w|
  {
    forall j | i <= j < i + |w|
      ensures IsAsciiDigit(s[j])
    {
      assert s[j] == s[i..i + |w|][j - i];
    }
    DigitRunIs(s, i, |w|);
  }

  /** A single word splits into itself. */
  lemma WordsOfWord(w: string)
    requires IsWord(w)
    ensures Join([w]) == w && Words(w) == [w]
  {
    assert Join([w]) == w;
    WordsOfJoin([w]);
  }
}
