/**
 * The launcher's choices: the Ollama model the command line selects,
 * rewritten to its Portuguese Modelfile variant in "pt-br" mode, and the
 * wake-listener mode named on the command line.
 */
module RunChatbot {
  import opened Common
  import opened Text

  /** The position of the first c in s (where `s.split(c, 1)` cuts). */
  function IndexOf(s: string, c: char): (r: Option<nat>)
    ensures r.None? <==> c !in s
    ensures r.Some? ==> r.value < |s| && s[r.value] == c && c !in s[..r.value]
  {
    if s == [] then None
    else if s[0] == c then Some(0)
    else
      match IndexOf(s[1..], c)
      case None => None
      case Some(k) =>
        assert s[..k + 1] == [s[0]] + s[1..][..k];
        Some(k + 1)
  }

  /** When c first occurs at k, that is the position found. */
  lemma IndexOfIs(s: string, c: char, k: nat)
    requires k < |s| && s[k] == c && c !in s[..k]
    ensures IndexOf(s, c) == Some(k)
  {
    assert s[k] in s;
  }

  /** What `.` can match: anything up to the first line break. */
  function RestOfLine(s: string): (r: string)
    ensures '\n' !in r && StartsWith(s, r)
    ensures '\n' !in s ==> r == s
  {
    match IndexOf(s, '\n')
    case None => s
    case Some(k) => s[..k]
  }

  /**
   * `re.match(r'(\d+(?:\.\d+)?b)(.*)', v)`: the length of group 1, a size
   * tag such as "1b" or "1.5b" at the very start of v. The digit runs are
   * greedy, and neither '.' nor 'b' is a digit, so no shorter run can match
   * where the longest one does not.
   */
  function SizeTagLength(v: string): (r: Option<nat>)
    ensures r.Some? ==> 2 <= r.value <= |v| && IsAsciiDigit(v[0]) && v[r.value - 1] == 'b'
  {
    var a := DigitRun(v, 0);
    if a == 0 || a == |v| then None
    else if v[a] == 'b' then Some(a + 1)
    else if v[a] == '.' && DigitRun(v, a + 1) > 0 && a + 1 + DigitRun(v, a + 1) < |v|
            && v[a + 1 + DigitRun(v, a + 1)] == 'b' then
      Some(a + 2 + DigitRun(v, a + 1))
    else None
  }

  /**
   * The "-ptbr" variant of a model name: with no ':' the suffix is simply
   * appended; otherwise the part before the first ':' is kept, a leading
   * size tag of the version is dropped together with what follows it on
   * the line kept, and an unrecognised version is dropped entirely.
   */
  function PtbrName(name: string): (r: string)
    ensures EndsWith(r, "-ptbr")
    ensures ':' !in name ==> r == name + "-ptbr"
    ensures ':' in name ==> var k := IndexOf(name, ':').value;
      StartsWith(r, name[..k]) && ':' !in name[..k] && |r| <= |name| + 4
  {
    match IndexOf(name, ':')
    case None => name + "-ptbr"
    case Some(k) =>
      var base := name[..k];
      var version := name[k + 1..];
      match SizeTagLength(version)
      case Some(n) => base + RestOfLine(version[n..]) + "-ptbr"
      case None => base + "-ptbr"
  }

  /** A size tag: digits, optionally a '.' and more digits, then 'b'. */
  predicate IsSizeTag(tag: string, whole: string, frac: string) {
    && whole != [] && (forall i | 0 <= i < |whole| :: IsAsciiDigit(whole[i]))
    && (forall i | 0 <= i < |frac| :: IsAsciiDigit(frac[i]))
    && tag == whole + (if frac == [] then "" else "." + frac) + "b"
  }

  /** A size tag at the start of the version is found whole. */
  lemma SizeTagFound(tag: string, whole: string, frac: string, rest: string)
    requires IsSizeTag(tag, whole, frac)
    ensures SizeTagLength(tag + rest) == Some(|tag|)
  {
    if frac != [] {
      FractionTagFound(whole, frac, "." + frac + "b" + rest);
      assert tag + rest == whole + ("." + frac + "b" + rest);
    } else {
      WholeTagFound(whole, "b" + rest);
      assert tag + rest == whole + ("b" + rest);
    }
  }

  /** Whole digits followed by 'b'. */
  lemma WholeTagFound(whole: string, after: string)
    requires whole != [] && (forall i | 0 <= i < |whole| :: IsAsciiDigit(whole[i]))
    requires after != [] && after[0] == 'b'
    ensures SizeTagLength(whole + after) == Some(|whole| + 1)
  {
    var v := whole + after;
    assert v[0..|whole|] == whole && v[|whole|] == 'b';
    DigitRunOf(v, 0, whole);
    SizeTagWhole(v, |whole|);
  }

  /** Whole digits, '.', fraction digits and 'b'. */
  lemma FractionTagFound(whole: string, frac: string, after: string)
    requires whole != [] && (forall i | 0 <= i < |whole| :: IsAsciiDigit(whole[i]))
    requires frac != [] && (forall i | 0 <= i < |frac| :: IsAsciiDigit(frac[i]))
    requires |after| > |frac| + 1 && after[0] == '.' && after[1..|frac| + 1] == frac && after[|frac| + 1] == 'b'
    ensures SizeTagLength(whole + after) == Some(|whole| + |frac| + 2)
  {
    var v := whole + after;
    var a := |whole|;
    assert v[0..a] == whole && v[a] == '.';
    DigitRunOf(v, 0, whole);
    assert v[a + 1..a + 1 + |frac|] == after[1..|frac| + 1];
    assert v[a + 1 + |frac|] == 'b';
    DigitRunOf(v, a + 1, frac);
    SizeTagWithFraction(v, a, |frac|);
  }

  /** Digits then 'b' at the start of v are a size tag of that length. */
  lemma SizeTagWhole(v: string, a: nat)
    requires 0 < a < |v| && DigitRun(v, 0) == a && v[a] == 'b'
    ensures SizeTagLength(v) == Some(a + 1)
  {
  }

  /** Digits, '.', digits and 'b' at the start of v are a size tag of that length. */
  lemma SizeTagWithFraction(v: string, a: nat, f: nat)
    requires 0 < a && 0 < f && a + 1 + f < |v|
    requires DigitRun(v, 0) == a && v[a] == '.' && DigitRun(v, a + 1) == f && v[a + 1 + f] == 'b'
    ensures SizeTagLength(v) == Some(a + 2 + f)
  {
  }

  /**
   * Rewriting "base:tag-suffix" keeps the base and the suffix and drops the
   * size tag; this covers every example in the launcher's documentation.
   */
  lemma PtbrDropsSizeTag(base: string, tag: string, whole: string, frac: string, suffix: string)
    requires ':' !in base && '\n' !in suffix
    requires IsSizeTag(tag, whole, frac)
    ensures PtbrName(base + ":" + tag + suffix) == base + suffix + "-ptbr"
  {
    var name := base + ":" + tag + suffix;
    var version := tag + suffix;
    var k := |base|;
    assert name[..k] == base;
    IndexOfIs(name, ':', k);
    assert name[k + 1..] == version;
    SizeTagFound(tag, whole, frac, suffix);
    PtbrNameTagged(name, k, |tag|);
    assert version[|tag|..] == suffix;
  }

  /** The rewrite of a name whose first ':' is at k and whose version starts with a size tag of length n. */
  lemma PtbrNameTagged(name: string, k: nat, n: nat)
    requires IndexOf(name, ':') == Some(k)
    requires SizeTagLength(name[k + 1..]) == Some(n)
    ensures PtbrName(name) == name[..k] + RestOfLine(name[k + 1..][n..]) + "-ptbr"
  {
  }

  /**
   * A version that does not start with a size tag (no digits, or digits
   * not followed by 'b' or by '.', digits and 'b') is dropped entirely.
   */
  lemma PtbrDropsOtherVersion(base: string, version: string)
    requires ':' !in base && SizeTagLength(version).None?
    ensures PtbrName(base + ":" + version) == base + "-ptbr"
  {
    var name := base + ":" + version;
    assert name[..|base|] == base;
    IndexOfIs(name, ':', |base|);
    assert name[|base| + 1..] == version;
  }

  /** The pieces of "qwen2.5:1.5b". */
  lemma QwenPieces(name: string)
    requires name == "qwen2.5:1.5b"
    ensures name == "qwen2.5" + ":" + "1.5b" + "" && ':' !in "qwen2.5"
    ensures IsSizeTag("1.5b", "1", "5") && "qwen2.5" + "" + "-ptbr" == "qwen2.5-ptbr"
  {
  }

  /** The examples the launcher documents. */
  lemma QwenExample(name: string)
    requires name == "qwen2.5:1.5b"
    ensures PtbrName(name) == "qwen2.5-ptbr"
  {
    QwenPieces(name);
    PtbrDropsSizeTag("qwen2.5", "1.5b", "1", "5", "");
  }

  /** The pieces of "gemma3:1b-it-qat". */
  lemma GemmaQatPieces(name: string)
    requires name == "gemma3:1b-it-qat"
    ensures name == "gemma3" + ":" + "1b" + "-it-qat" && '\n' !in "-it-qat" && ':' !in "gemma3"
    ensures IsSizeTag("1b", "1", "") && "gemma3" + "-it-qat" + "-ptbr" == "gemma3-it-qat-ptbr"
  {
  }

  lemma GemmaQatExample(name: string)
    requires name == "gemma3:1b-it-qat"
    ensures PtbrName(name) == "gemma3-it-qat-ptbr"
  {
    GemmaQatPieces(name);
    PtbrDropsSizeTag("gemma3", "1b", "1", "", "-it-qat");
  }

  /** The pieces of "gemma3:1b". */
  lemma GemmaPieces(name: string)
    requires name == "gemma3:1b"
    ensures name == "gemma3" + ":" + "1b" + "" && ':' !in "gemma3"
    ensures IsSizeTag("1b", "1", "") && "gemma3" + "" + "-ptbr" == "gemma3-ptbr"
  {
  }

  lemma GemmaExample(name: string)
    requires name == "gemma3:1b"
    ensures PtbrName(name) == "gemma3-ptbr"
  {
    GemmaPieces(name);
    PtbrDropsSizeTag("gemma3", "1b", "1", "", "");
  }

  lemma MistralExample(name: string)
    requires name == "mistral"
    ensures PtbrName(name) == "mistral-ptbr"
  {
    assert ':' !in name;
    assert name + "-ptbr" == "mistral-ptbr";
  }

  /**
   * The model written into the configuration: untouched without a model
   * name, the name itself in native mode, its "-ptbr" variant in "pt-br" mode.
   */
  function SelectModel(configured: string, modelName: Option<string>, languageMode: string): (r: string)
    ensures !Given(modelName) ==> r == configured
    ensures Given(modelName) && languageMode != "pt-br" ==> r == modelName.value
    ensures Given(modelName) && languageMode == "pt-br" ==> EndsWith(r, "-ptbr") && r == PtbrName(modelName.value)
  {
    if !Given(modelName) then configured
    else if languageMode == "pt-br" then PtbrName(modelName.value)
    else modelName.value
  }

  /** The wake-listener modes. */
  datatype WakeListenerMode = Serial | Keyboard | Disabled

  /** `mode_map[args.wake_mode]`; any other key would raise `KeyError`. */
  function ModeMap(wakeMode: string): (r: Option<WakeListenerMode>)
    ensures r.Some? <==> wakeMode == "serial" || wakeMode == "keyboard" || wakeMode == "disabled"
  {
    if wakeMode == "serial" then Some(Serial)
    else if wakeMode == "keyboard" then Some(Keyboard)
    else if wakeMode == "disabled" then Some(Disabled)
    else None
  }

  /** The map is one-to-one and every mode is reachable from the command line. */
  lemma ModeMapBijective(a: string, b: string, m: WakeListenerMode)
    ensures ModeMap(a).Some? && ModeMap(a) == ModeMap(b) ==> a == b
    ensures exists s :: ModeMap(s) == Some(m)
  {
    match m
    case Serial => assert ModeMap("serial") == Some(m);
    case Keyboard => assert ModeMap("keyboard") == Some(m);
    case Disabled => assert ModeMap("disabled") == Some(m);
  }
}
