/**
 * The text-to-speech front end: the clean-up that turns a reply into text
 * Piper can read aloud, the blank-text guard of `synthesize`, and the list
 * of temporary WAV files it leaves behind. Markdown and URL removal (a
 * chain of regular expressions) is the abstract `stripMarkup`; the Piper
 * process and the file system are inputs.
 */
module PiperTts {
  import opened Common
  import opened Text

  /** The characters the special-character filter keeps: `\w`, `\s` and `.,!?;:()"'-`. */
  predicate AllowedChar(c: char) {
    || IsWordChar(c) || IsSpace(c)
    || c == '.' || c == ',' || c == '!' || c == '?' || c == ';' || c == ':'
    || c == '(' || c == ')' || c == '"' || c == '\'' || c == '-'
  }

  /** The contractions expanded before synthesis, in the order they are applied. */
  const Contractions: seq<(string, string)> := [
    ("don't", "do not"),
    ("won't", "will not"),
    ("can't", "cannot"),
    ("I'm", "I am"),
    ("you're", "you are"),
    ("it's", "it is"),
    ("that's", "that is"),
    ("there's", "there is"),
    ("here's", "here is"),
    ("what's", "what is"),
    ("where's", "where is"),
    ("we're", "we are"),
    ("they're", "they are"),
    ("I've", "I have"),
    ("you've", "you have"),
    ("we've", "we have"),
    ("they've", "they have"),
    ("I'll", "I will"),
    ("you'll", "you will"),
    ("we'll", "we will"),
    ("they'll", "they will")
  ]

  /** A contraction begins and ends with a letter, so `\b` around it means "not inside a word". */
  predicate Bounded(pat: string) {
    pat != [] && IsWordChar(pat[0]) && IsWordChar(pat[|pat| - 1])
  }

  /** Every contraction is bounded by letters and every expansion is letters and spaces. */
  predicate WellFormedTable(table: seq<(string, string)>) {
    forall i | 0 <= i < |table| :: Bounded(table[i].0) && Each(table[i].1, AllowedChar)
  }

  lemma ContractionsWellFormed()
    ensures WellFormedTable(Contractions)
  {
    forall i | 0 <= i < |Contractions|
      ensures Bounded(Contractions[i].0) && Each(Contractions[i].1, AllowedChar)
    {
      var e := Contractions[i].1;
      assert forall k | 0 <= k < |e| :: ('a' <= e[k] <= 'z') || ('A' <= e[k] <= 'Z') || e[k] == ' ';
    }
  }

  /**
   * `re.search(r'\b' + re.escape(pat) + r'\b', ..., re.IGNORECASE)` finds
   * `pat` at position k: the characters agree up to case and no word
   * character touches the match on either side.
   */
  predicate MatchAt(text: string, pat: string, k: int) {
    && 0 <= k && k + |pat| <= |text|
    && (forall m | 0 <= m < |pat| :: LowerChar(text[k + m]) == LowerChar(pat[m]))
    && (k == 0 || !IsWordChar(text[k - 1]))
    && (k + |pat| == |text| || !IsWordChar(text[k + |pat|]))
  }

  /**
   * `re.sub` of one contraction from position i on: scanning left to
   * right, each match is replaced and scanning resumes after it.
   */
  function ReplaceFrom(text: string, pat: string, rep: string, i: nat): string
    requires pat != []
    decreases |text| - i
  {
    if i >= |text| then []
    else if MatchAt(text, pat, i) then rep + ReplaceFrom(text, pat, rep, i + |pat|)
    else [text[i]] + ReplaceFrom(text, pat, rep, i + 1)
  }

  /** Text with no match from position i on is copied unchanged. */
  lemma {:induction false} ReplaceNoMatch(text: string, pat: string, rep: string, i: nat)
    requires pat != [] && i <= |text|
    requires forall j | i <= j < |text| :: !MatchAt(text, pat, j)
    ensures ReplaceFrom(text, pat, rep, i) == text[i..]
    decreases |text| - i
  {
    if i < |text| {
      ReplaceNoMatch(text, pat, rep, i + 1);
      assert text[i..] == [text[i]] + text[i + 1..];
    }
  }

  /**
   * The text up to the first match is copied, the match is replaced by the
   * expansion, and the scan goes on after it.
   */
  lemma {:induction false} ReplaceFirstMatch(text: string, pat: string, rep: string, i: nat, k: nat)
    requires pat != [] && i <= k && MatchAt(text, pat, k)
    requires forall j | i <= j < k :: !MatchAt(text, pat, j)
    ensures ReplaceFrom(text, pat, rep, i) == text[i..k] + rep + ReplaceFrom(text, pat, rep, k + |pat|)
    decreases k - i
  {
    if i < k {
      ReplaceFirstMatch(text, pat, rep, i + 1, k);
      ReplaceCopies(text, pat, rep, i);
      PrependCopied(text, i, k, rep, ReplaceFrom(text, pat, rep, k + |pat|));
    } else {
      ReplaceMatch(text, pat, rep, k);
      assert text[i..k] == [];
    }
  }

  lemma PrependCopied(text: string, i: nat, k: nat, mid: string, tail: string)
    requires i < k <= |text|
    ensures [text[i]] + (text[i + 1..k] + mid + tail) == text[i..k] + mid + tail
  {
    assert text[i..k] == [text[i]] + text[i + 1..k];
  }

  /** Where there is no match, one character is copied. */
  lemma ReplaceCopies(text: string, pat: string, rep: string, i: nat)
    requires pat != [] && i < |text| && !MatchAt(text, pat, i)
    ensures ReplaceFrom(text, pat, rep, i) == [text[i]] + ReplaceFrom(text, pat, rep, i + 1)
  {
  }

  /** Where there is a match, it is replaced. */
  lemma ReplaceMatch(text: string, pat: string, rep: string, k: nat)
    requires pat != [] && MatchAt(text, pat, k)
    ensures ReplaceFrom(text, pat, rep, k) == rep + ReplaceFrom(text, pat, rep, k + |pat|)
  {
  }

  /** A contraction written in any case, standing alone, is replaced by its expansion. */
  lemma ReplaceWholeWord(w: string, pat: string, rep: string)
    requires pat != [] && Lower(w) == Lower(pat)
    ensures ReplaceFrom(w, pat, rep, 0) == rep
  {
    assert MatchAt(w, pat, 0) by {
      forall m | 0 <= m < |pat|
        ensures LowerChar(w[m]) == LowerChar(pat[m])
      {
        assert Lower(w)[m] == Lower(pat)[m];
      }
    }
  }

  /** A property held by every character of the text and of the expansion holds after replacing. */
  lemma {:induction false} ReplaceEach(text: string, pat: string, rep: string, i: nat, P: char -> bool)
    requires pat != [] && Each(text, P) && Each(rep, P)
    ensures Each(ReplaceFrom(text, pat, rep, i), P)
    decreases |text| - i
  {
    if i < |text| {
      if MatchAt(text, pat, i) {
        ReplaceEach(text, pat, rep, i + |pat|, P);
        EachConcat(rep, ReplaceFrom(text, pat, rep, i + |pat|), P);
      } else {
        ReplaceEach(text, pat, rep, i + 1, P);
        EachConcat([text[i]], ReplaceFrom(text, pat, rep, i + 1), P);
      }
    }
  }

  /** The contraction loop: each entry of the table is substituted in turn over the whole text. */
  function ExpandAll(text: string, table: seq<(string, string)>): string
    requires WellFormedTable(table)
    decreases |table|
  {
    if table == [] then text
    else ExpandAll(ReplaceFrom(text, table[0].0, table[0].1, 0), table[1..])
  }

  /** Expanding contractions never brings in a character the filter would have removed. */
  lemma {:induction false} ExpandAllowed(text: string, table: seq<(string, string)>)
    requires WellFormedTable(table) && Each(text, AllowedChar)
    ensures Each(ExpandAll(text, table), AllowedChar)
    decreases |table|
  {
    if table != [] {
      ReplaceEach(text, table[0].0, table[0].1, 0, AllowedChar);
      ExpandAllowed(ReplaceFrom(text, table[0].0, table[0].1, 0), table[1..]);
    }
  }

  /** The text after markdown removal, the character filter and the contractions. */
  function Prepared(text: string, stripMarkup: string -> string): (r: string)
    ensures Each(r, AllowedChar)
  {
    ContractionsWellFormed();
    var filtered := Filter(stripMarkup(text), AllowedChar);
    ExpandAllowed(filtered, Contractions);
    ExpandAll(filtered, Contractions)
  }

  predicate EndsSentence(s: string) {
    s != [] && (s[|s| - 1] == '.' || s[|s| - 1] == '!' || s[|s| - 1] == '?')
  }

  /** A period is added to a non-empty text that does not already end a sentence. */
  function Terminated(w: string): (r: string)
    requires Normalized(w) && Each(w, AllowedChar)
    ensures Normalized(r) && Each(r, AllowedChar)
    ensures r == [] <==> w == []
    ensures r == [] || EndsSentence(r)
    ensures r == w || r == w + "."
    ensures r == w + "." <==> w != [] && !EndsSentence(w)
    ensures w == [] || EndsSentence(w) ==> r == w
  {
    if w != [] && !EndsSentence(w) then
      NormalizedAppend(w, '.');
      EachConcat(w, ".", AllowedChar);
      w + "."
    else w
  }

  /**
   * `_clean_text_for_tts`: the prepared text with its whitespace collapsed
   * and stripped, and a period added unless it already ends a sentence.
   */
  function CleanTextForTts(text: string, stripMarkup: string -> string): (r: string)
    ensures Normalized(r)
    ensures r == [] || EndsSentence(r)
    ensures Each(r, AllowedChar)
    ensures r == [] <==> IsBlank(Prepared(text, stripMarkup))
    ensures var w := CleanWhitespace(Prepared(text, stripMarkup));
      Words(w) == Words(Prepared(text, stripMarkup)) && (r == w || r == w + ".")
  {
    var p := Prepared(text, stripMarkup);
    CleanWhitespaceSpec(p);
    CleanWhitespaceBlank(p);
    EachCleanWhitespace(p, AllowedChar);
    Terminated(CleanWhitespace(p))
  }

  /** `f"{temp_dir}/tts_response_{timestamp}.wav"` for a timestamp in milliseconds. */
  function DefaultOutputFile(tempDir: string, millis: nat): string {
    tempDir + "/tts_response_" + DecimalString(millis) + ".wav"
  }

  /** The number of files `cleanup_temp_files` deletes: each existing file once, in list order. */
  function Deletions(files: seq<string>, fileExists: string -> bool, removed: set<string>): (n: nat)
    ensures n <= |files|
  {
    if files == [] then 0
    else if fileExists(files[0]) && files[0] !in removed then 1 + Deletions(files[1..], fileExists, removed + {files[0]})
    else Deletions(files[1..], fileExists, removed)
  }

  /** The distinct listed paths that exist. */
  function Existing(files: seq<string>, fileExists: string -> bool): (r: set<string>)
    ensures forall f :: f in r <==> f in files && fileExists(f)
  {
    if files == [] then {}
    else (if fileExists(files[0]) then {files[0]} else {}) + Existing(files[1..], fileExists)
  }

  /**
   * The count of deletions is the number of distinct listed paths that
   * exist and were not already removed: each existing file is deleted once,
   * however often it is listed.
   */
  lemma {:induction false} DeletionsCountsDistinct(files: seq<string>, fileExists: string -> bool, removed: set<string>)
    ensures Deletions(files, fileExists, removed) == |Existing(files, fileExists) - removed|
    decreases |files|
  {
    if files != [] {
      var x := files[0];
      var rest := Existing(files[1..], fileExists);
      if fileExists(x) && x !in removed {
        DeletionsCountsDistinct(files[1..], fileExists, removed + {x});
        var smaller := rest - (removed + {x});
        assert x !in smaller;
        assert Existing(files, fileExists) - removed == smaller + {x};
      } else {
        DeletionsCountsDistinct(files[1..], fileExists, removed);
        assert Existing(files, fileExists) - removed == rest - removed;
      }
    }
  }

  /** The cleaned text has nothing to strip. */
  lemma CleanedIsStripped(text: string, stripMarkup: string -> string)
    ensures Strip(CleanTextForTts(text, stripMarkup)) == CleanTextForTts(text, stripMarkup)
  {
    NormalizedStrip(CleanTextForTts(text, stripMarkup));
  }

  class PiperTts {
    const tempDir: string
    /** The WAV files synthesised so far and not yet cleaned up. */
    var tempFiles: seq<string>
    /** Every text handed to the Piper process, oldest first. */
    var piperInputs: seq<string>

    constructor (tempDir: string)
      ensures this.tempDir == tempDir && tempFiles == [] && piperInputs == []
    {
      this.tempDir := tempDir;
      tempFiles := [];
      piperInputs := [];
    }

    /**
     * `synthesize`: text that cleans to nothing is refused before Piper
     * runs. Otherwise Piper reads the cleaned text; `piperOk` says it
     * exited with 0 and wrote the file, which is then recorded for cleanup.
     */
    method Synthesize(text: string, outputFile: Option<string>, stripMarkup: string -> string,
                      millis: nat, piperOk: bool) returns (r: Option<string>)
      modifies this`tempFiles, this`piperInputs
      ensures var clean := CleanTextForTts(text, stripMarkup);
        var path := outputFile.GetOr(DefaultOutputFile(tempDir, millis));
        && (clean == [] ==> r == None && tempFiles == old(tempFiles) && piperInputs == old(piperInputs))
        && (clean != [] ==> piperInputs == old(piperInputs) + [clean])
        && (clean != [] && piperOk ==> r == Some(path) && tempFiles == old(tempFiles) + [path])
        && (clean != [] && !piperOk ==> r == None && tempFiles == old(tempFiles))
    {
      var cleanText := CleanTextForTts(text, stripMarkup);
      CleanedIsStripped(text, stripMarkup);
      if Strip(cleanText) == [] {
        return None;
      }
      var path := if outputFile.None? then DefaultOutputFile(tempDir, millis) else outputFile.value;
      r := RunPiper(cleanText, path, piperOk);
    }

    /** Piper reads `input`; when it succeeds, the file it wrote is recorded for cleanup. */
    method RunPiper(input: string, path: string, piperOk: bool) returns (r: Option<string>)
      modifies this`tempFiles, this`piperInputs
      ensures piperInputs == old(piperInputs) + [input]
      ensures piperOk ==> r == Some(path) && tempFiles == old(tempFiles) + [path]
      ensures !piperOk ==> r == None && tempFiles == old(tempFiles)
    {
      piperInputs := piperInputs + [input];
      if piperOk {
        tempFiles := tempFiles + [path];
        return Some(path);
      }
      return None;
    }

    /** `cleanup_temp_files`: deletes the files that still exist and always empties the list. */
    method CleanupTempFiles(fileExists: string -> bool) returns (cleaned: nat)
      modifies this`tempFiles
      ensures tempFiles == []
      ensures cleaned == Deletions(old(tempFiles), fileExists, {})
      ensures cleaned == |Existing(old(tempFiles), fileExists)|
      ensures cleaned <= |old(tempFiles)|
    {
      DeletionsCountsDistinct(tempFiles, fileExists, {});
      assert Existing(tempFiles, fileExists) - {} == Existing(tempFiles, fileExists);
      var removed: set<string> := {};
      cleaned := 0;
      var i := 0;
      while i < |tempFiles|
        invariant 0 <= i <= |tempFiles|
        invariant cleaned + Deletions(tempFiles[i..], fileExists, removed) == Deletions(tempFiles, fileExists, {})
      {
        var f := tempFiles[i];
        assert tempFiles[i..][1..] == tempFiles[i + 1..];
        if fileExists(f) && f !in removed {
          removed := removed + {f};
          cleaned := cleaned + 1;
        }
        i := i + 1;
      }
      tempFiles := [];
    }
  }
}
