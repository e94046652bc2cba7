/**
 * The dismissal detector: decides whether a transcribed utterance is a
 * goodbye ("tchau", "bye", "é isso aí", ...) so that the chatbot goes back
 * to sleep after answering it. Patterns are kept as their source text in
 * a Portuguese and an English list; whether a compiled pattern matches a
 * text (`re.search` with `re.IGNORECASE`) is the abstract `search` relation.
 */
module Dismissal {
  import opened Common
  import opened Text

  /** The Brazilian Portuguese goodbye patterns, in order. */
  const PortuguesePatterns: seq<string> := [
    @"\btchau\b",
    @"\bat[eé]\s+logo\b",
    @"\bat[eé]\s+mais\b",
    @"\badeus\b",
    @"\bpode\s+ir\b",
    @"\bpode\s+desligar\b",
    @"\bvaleu\b",
    @"\bfalou\b",
    @"\bat[eé]\s+depois\b",
    @"\bat[eé]\s+breve\b",
    @"\bat[eé]\s+(a\s+)?pr[oó]xima\b",
    @"\bvai\s+embora\b",
    @"\bpode\s+parar\b",
    @"\bpode\s+dormir\b",
    @"\bvai\s+dormir\b",
    @"\bvou\s+desligar\b",
    @"\best[aá]\s+bom\b",
    @"\b[eé]\s+isso\s+(a[ií])?$"
  ]

  /** The English goodbye patterns, in order. */
  const EnglishPatterns: seq<string> := [
    @"\bgoodbye\b",
    @"\bbye\b",
    @"\bsee\s+you\b",
    @"\bthat\'?s\s+all\b",
    @"\bthanks?\s+bye\b",
    @"\bfarewell\b",
    @"\blater\b",
    @"\bcatch\s+you\s+later\b",
    @"\bgotta\s+go\b",
    @"\bhave\s+to\s+go\b",
    @"\btake\s+care\b",
    @"\bgood\s+night\b",
    @"\bsleep\s+now\b",
    @"\bshut\s+down\b",
    @"\bturn\s+off\b",
    @"\bstop\s+listening\b"
  ]

  /** The text the patterns are searched in: stripped, then lower-cased. */
  function Prepare(text: string): (t: string)
    ensures |t| <= |text|
  {
    Lower(Strip(text))
  }

  /** The prepared text starts and ends with a character that is not whitespace. */
  lemma PrepareTrimmed(text: string)
    ensures var t := Prepare(text); t == [] || (!IsSpace(t[0]) && !IsSpace(t[|t| - 1]))
  {
    var s := Strip(text);
    if s != [] {
      var t := Lower(s);
      assert t[0] == LowerChar(s[0]);
      assert t[|t| - 1] == LowerChar(s[|s| - 1]);
    }
  }

  /** Some pattern of the list matches the prepared text; empty text never dismisses. */
  predicate Dismisses(patterns: seq<string>, search: (string, string) -> bool, text: string) {
    text != [] && exists j | 0 <= j < |patterns| :: search(patterns[j], Prepare(text))
  }

  /** The patterns of the list that match the prepared text, in list order; none for empty text. */
  function Matched(patterns: seq<string>, search: (string, string) -> bool, text: string): seq<string> {
    if text == [] then [] else Filter(patterns, p => search(p, Prepare(text)))
  }

  /** The utterance is a dismissal exactly when some pattern is reported as matched. */
  lemma DismissesIffMatched(patterns: seq<string>, search: (string, string) -> bool, text: string)
    ensures Dismisses(patterns, search, text) <==> Matched(patterns, search, text) != []
  {
    if text != [] {
      var p := (q: string) => search(q, Prepare(text));
      if Dismisses(patterns, search, text) {
        var j :| 0 <= j < |patterns| && search(patterns[j], Prepare(text));
        FilterMembers(patterns, p, patterns[j]);
      } else if Matched(patterns, search, text) != [] {
        var m := Matched(patterns, search, text)[0];
        FilterMembers(patterns, p, m);
      }
    }
  }

  /**
   * Matched patterns come back in list order, the Portuguese ones before
   * the English ones.
   */
  lemma MatchedPortugueseFirst(pt: seq<string>, en: seq<string>, search: (string, string) -> bool, text: string)
    ensures Matched(pt + en, search, text) == Matched(pt, search, text) + Matched(en, search, text)
  {
    if text != [] {
      FilterConcat(pt, en, p => search(p, Prepare(text)));
    }
  }

  /** Case and the whitespace around the utterance do not change the text handed to the matcher. */
  lemma PrepareIgnoresCaseAndPadding(pre: string, text: string, post: string)
    requires IsBlank(pre) && IsBlank(post)
    ensures Prepare(pre + text + post) == Prepare(text)
    ensures Prepare(Lower(text)) == Prepare(text)
  {
    StripIgnoresPadding(pre, text, post);
    StripLower(text);
    LowerIdempotent(Strip(text));
  }

  /**
   * Upper-casing letters or padding with whitespace never turns a
   * dismissal into a non-dismissal or back (for a non-empty utterance).
   */
  lemma DismissalIgnoresCaseAndPadding(patterns: seq<string>, search: (string, string) -> bool,
                                       pre: string, text: string, post: string)
    requires IsBlank(pre) && IsBlank(post) && text != []
    ensures Dismisses(patterns, search, pre + text + post) == Dismisses(patterns, search, text)
    ensures Dismisses(patterns, search, Lower(text)) == Dismisses(patterns, search, text)
  {
    PrepareIgnoresCaseAndPadding(pre, text, post);
  }

  class DismissalDetector {
    /** `re.search(pattern, text, re.IGNORECASE)` finds a match. */
    const search: (string, string) -> bool
    var portuguesePatterns: seq<string>
    var englishPatterns: seq<string>
    /** The compiled patterns, identified with their source text. */
    var compiledPatterns: seq<string>

    /** The compiled list is always the Portuguese list followed by the English list. */
    predicate Valid()
      reads this
    {
      compiledPatterns == portuguesePatterns + englishPatterns
    }

    constructor (search: (string, string) -> bool)
      ensures Valid() && this.search == search
      ensures portuguesePatterns == PortuguesePatterns && englishPatterns == EnglishPatterns
    {
      this.search := search;
      portuguesePatterns := PortuguesePatterns;
      englishPatterns := EnglishPatterns;
      compiledPatterns := PortuguesePatterns + EnglishPatterns;
    }

    /** `is_dismissal`: tries the compiled patterns in order and stops at the first match. */
    method IsDismissal(text: string) returns (b: bool)
      requires Valid()
      ensures b == Dismisses(compiledPatterns, search, text)
    {
      if text == [] {
        return false;
      }
      var t := Prepare(text);
      var i := 0;
      while i < |compiledPatterns|
        invariant 0 <= i <= |compiledPatterns|
        invariant forall j | 0 <= j < i :: !search(compiledPatterns[j], t)
      {
        if search(compiledPatterns[i], t) {
          return true;
        }
        i := i + 1;
      }
      return false;
    }

    /** `get_matched_patterns`: the source text of every matching pattern, in order. */
    method GetMatchedPatterns(text: string) returns (matched: seq<string>)
      requires Valid()
      ensures matched == Matched(compiledPatterns, search, text)
      ensures matched == Matched(portuguesePatterns, search, text) + Matched(englishPatterns, search, text)
    {
      MatchedPortugueseFirst(portuguesePatterns, englishPatterns, search, text);
      if text == [] {
        return [];
      }
      var t := Prepare(text);
      var p := (q: string) => search(q, Prepare(text));
      var all := portuguesePatterns + englishPatterns;
      matched := [];
      var i := 0;
      while i < |compiledPatterns|
        invariant 0 <= i <= |compiledPatterns|
        invariant matched == Filter(compiledPatterns[..i], p)
      {
        var q := compiledPatterns[i];
        assert all[i] == q && p(q) == search(q, t);
        FilterConcat(compiledPatterns[..i], [q], p);
        assert compiledPatterns[..i + 1] == compiledPatterns[..i] + [q];
        assert Filter([q], p) == if p(q) then [q] else [];
        if search(q, t) {
          matched := matched + [all[i]];
        }
        i := i + 1;
      }
      assert compiledPatterns[..i] == compiledPatterns;
    }

    /** `add_custom_pattern`: "pt" extends the Portuguese list, any other language the English one. */
    method AddCustomPattern(pattern: string, language: string := "pt")
      requires Valid()
      modifies this`portuguesePatterns, this`englishPatterns, this`compiledPatterns
      ensures Valid()
      ensures language == "pt" ==>
        portuguesePatterns == old(portuguesePatterns) + [pattern] && englishPatterns == old(englishPatterns)
      ensures language != "pt" ==>
        englishPatterns == old(englishPatterns) + [pattern] && portuguesePatterns == old(portuguesePatterns)
    {
      if language == "pt" {
        portuguesePatterns := portuguesePatterns + [pattern];
      } else {
        englishPatterns := englishPatterns + [pattern];
      }
      compiledPatterns := portuguesePatterns + englishPatterns;
    }
  }

  /**
   * Where `\bw\b`, for a word w, matches t: w occurs at k and is not glued
   * to a word character on either side.
   */
  predicate WordAt(t: string, w: string, k: int) {
    && OccursAt(t, w, k)
    && (k == 0 || !IsWordChar(t[k - 1]))
    && (k + |w| == |t| || !IsWordChar(t[k + |w|]))
  }

  /** `re.search(r"\bw\b", t)` for a pattern that is a literal word between word boundaries. */
  predicate SearchWord(w: string, t: string) {
    exists k | 0 <= k <= |t| - |w| :: WordAt(t, w, k)
  }

  /**
   * With the default lists, an utterance whose prepared text starts with
   * the word of a `\bw\b` pattern (followed by nothing or by a character
   * that is not a word character) is a dismissal, provided the matcher
   * searches that pattern as the word it spells.
   */
  lemma LeadingWordDismisses(search: (string, string) -> bool, text: string, j: int, w: string)
    requires text != [] && 0 <= j < |PortuguesePatterns + EnglishPatterns|
    requires search((PortuguesePatterns + EnglishPatterns)[j], Prepare(text)) == SearchWord(w, Prepare(text))
    requires |w| <= |Prepare(text)| && Prepare(text)[..|w|] == w
    requires |w| == |Prepare(text)| || !IsWordChar(Prepare(text)[|w|])
    ensures Dismisses(PortuguesePatterns + EnglishPatterns, search, text)
  {
    assert WordAt(Prepare(text), w, 0);
  }

  /** The prepared text of an utterance with no surrounding whitespace is its lower-cased text. */
  lemma PrepareUnpadded(text: string)
    requires text != [] && !IsSpace(text[0]) && !IsSpace(text[|text| - 1])
    ensures Prepare(text) == Lower(text)
  {
    LStripKeeps(text);
    RStripKeeps(text);
  }

  /**
   * An unpadded utterance whose lower-cased text starts with the word
   * "tchau", standing alone, is a dismissal when the matcher searches
   * `\btchau\b` as a word.
   */
  lemma LeadingTchau(search: (string, string) -> bool, text: string)
    requires forall t :: search(@"\btchau\b", t) == SearchWord("tchau", t)
    requires text != [] && !IsSpace(text[0]) && !IsSpace(text[|text| - 1])
    requires |text| >= 5 && Lower(text)[..5] == "tchau" && (|text| == 5 || !IsWordChar(text[5]))
    ensures Dismisses(PortuguesePatterns + EnglishPatterns, search, text)
  {
    PrepareUnpadded(text);
    assert (PortuguesePatterns + EnglishPatterns)[0] == @"\btchau\b";
    LeadingWordDismisses(search, text, 0, "tchau");
  }

  /**
   * The "tchau" lines of the detector's example table: "tchau", "Tchau,
   * obrigado!" and "tchau ou não?" are all dismissals when the matcher
   * searches `\btchau\b` as a word.
   */
  lemma TchauExamples(search: (string, string) -> bool, text: string)
    requires forall t :: search(@"\btchau\b", t) == SearchWord("tchau", t)
    requires text == "tchau" || text == "Tchau, obrigado!" || text == "tchau ou não?"
    ensures Dismisses(PortuguesePatterns + EnglishPatterns, search, text)
  {
    var l := Lower(text);
    assert l[0] == 't' && l[1] == 'c' && l[2] == 'h' && l[3] == 'a' && l[4] == 'u';
    assert l[..5] == "tchau";
    LeadingTchau(search, text);
  }
}
