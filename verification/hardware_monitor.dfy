/**
 * The deterministic parts of the hardware monitor used by the benchmarks:
 * classifying the machine string into a platform, reading the model names
 * out of the text `ollama ps` prints, and deciding whether a memory delta
 * can be reported. Figures are integers (hundredths of a megabyte); the
 * process table, the subprocess and the clock are parameters.
 */
module HardwareMonitor {
  import opened Common
  import opened Text

  /** The `name` and `arch` entries of the platform dictionary. */
  datatype Platform = Platform(name: string, arch: string)

  /** The lowercased machine string names an ARM processor. */
  predicate IsArm(m: string) {
    Contains(m, "arm") || Contains(m, "aarch64")
  }

  /** The lowercased machine string names a 64-bit x86 processor. */
  predicate IsX86(m: string) {
    Contains(m, "x86_64") || Contains(m, "amd64")
  }

  /**
   * `_detect_platform` on the value of `platform.machine()`: ARM is checked
   * first, then x86; anything else is reported under its own lowercased name.
   */
  function DetectPlatform(machine: string): (p: Platform)
    ensures var m := Lower(machine);
      && (p.name == "Raspberry Pi 5" <==> IsArm(m))
      && (p.name == "Desktop" <==> !IsArm(m) && IsX86(m))
      && (p.name == "Unknown" <==> !IsArm(m) && !IsX86(m))
      && (p.name == "Raspberry Pi 5" ==> p.arch == "ARM64")
      && (p.name == "Desktop" ==> p.arch == "x86_64")
      && (p.name == "Unknown" ==> p.arch == m)
  {
    var m := Lower(machine);
    if IsArm(m) then Platform("Raspberry Pi 5", "ARM64")
    else if IsX86(m) then Platform("Desktop", "x86_64")
    else Platform("Unknown", m)
  }

  /** The classification does not depend on letter case. */
  lemma DetectPlatformIgnoresCase(machine: string)
    ensures DetectPlatform(Lower(machine)) == DetectPlatform(machine)
  {
    LowerIdempotent(machine);
  }

  /**
   * An unknown platform reports an architecture that would itself be
   * classified as unknown, and that holds no upper-case letter.
   */
  lemma UnknownArchIsUnrecognised(machine: string)
    ensures var p := DetectPlatform(machine);
      p.name == "Unknown" ==>
        && DetectPlatform(p.arch) == p
        && forall i | 0 <= i < |p.arch| :: !IsUpper(p.arch[i])
  {
    LowerIdempotent(machine);
  }

  /** A 64-bit Raspberry Pi OS reports "aarch64". */
  lemma PiExample(machine: string)
    requires machine == "aarch64"
    ensures DetectPlatform(machine) == Platform("Raspberry Pi 5", "ARM64")
  {
    assert Lower(machine) == machine;
    assert StartsWith(machine, "aarch64");
  }

  /** Windows reports "AMD64", which is recognised once lowercased. */
  lemma WindowsExample(machine: string)
    requires machine == "AMD64"
    ensures DetectPlatform(machine) == Platform("Desktop", "x86_64")
  {
    var m := Lower(machine);
    assert m == "amd64";
    ContainsAt(m, "arm");
    ContainsAt(m, "aarch64");
    ContainsAt(m, "x86_64");
    forall k | 0 <= k <= 2
      ensures !OccursAt(m, "arm", k)
    {
      assert m[k..k + 3][1] == m[k + 1] != 'r';
    }
    assert StartsWith(m, "amd64");
  }

  /** `s.split(c)`: the pieces between the occurrences of c; there is always at least one. */
  function SplitOn(s: string, c: char): (r: seq<string>)
    ensures |r| >= 1
    ensures forall j | 0 <= j < |r| :: c !in r[j]
    decreases |s|
  {
    if s == [] then [[]]
    else
      var rest := SplitOn(s[1..], c);
      if s[0] == c then [[]] + rest
      else [[s[0]] + rest[0]] + rest[1..]
  }

  /** `c.join(ws)`, the inverse of `SplitOn`. */
  function JoinOn(ws: seq<string>, c: char): string {
    if |ws| == 0 then []
    else if |ws| == 1 then ws[0]
    else ws[0] + [c] + JoinOn(ws[1..], c)
  }

  /** Joining the pieces of a split gives the text back. */
  lemma {:induction false} JoinSplit(s: string, c: char)
    ensures JoinOn(SplitOn(s, c), c) == s
    decreases |s|
  {
    if s != [] {
      var rest := SplitOn(s[1..], c);
      JoinSplit(s[1..], c);
      if s[0] == c {
        assert JoinOn([[]] + rest, c) == [] + [c] + JoinOn(rest, c);
      } else if |rest| == 1 {
        assert JoinOn(rest, c) == rest[0];
      } else {
        var ws := [[s[0]] + rest[0]] + rest[1..];
        assert ws[1..] == rest[1..];
        assert JoinOn(rest, c) == rest[0] + [c] + JoinOn(rest[1..], c);
      }
    }
  }

  /** A piece without c followed by more text opens the first piece of the split. */
  lemma {:induction false} SplitOnPrefix(w: string, t: string, c: char)
    requires c !in w
    ensures SplitOn(w + t, c) == [w + SplitOn(t, c)[0]] + SplitOn(t, c)[1..]
    decreases |w|
  {
    if w == [] {
      assert w + t == t;
      assert w + SplitOn(t, c)[0] == SplitOn(t, c)[0];
      assert SplitOn(t, c) == [SplitOn(t, c)[0]] + SplitOn(t, c)[1..];
    } else {
      assert (w + t)[0] == w[0] && (w + t)[1..] == w[1..] + t;
      assert w[0] in w;
      SplitOnPrefix(w[1..], t, c);
      assert [w[0]] + (w[1..] + SplitOn(t, c)[0]) == w + SplitOn(t, c)[0];
    }
  }

  /** Splitting pieces that were joined, none of which holds c, gives the pieces back. */
  lemma {:induction false} SplitJoin(ws: seq<string>, c: char)
    requires |ws| >= 1
    requires forall j | 0 <= j < |ws| :: c !in ws[j]
    ensures SplitOn(JoinOn(ws, c), c) == ws
    decreases |ws|
  {
    if |ws| == 1 {
      SplitOnPrefix(ws[0], [], c);
      assert ws[0] + [] == ws[0];
    } else {
      var t := JoinOn(ws[1..], c);
      SplitJoin(ws[1..], c);
      assert ([c] + t)[0] == c && ([c] + t)[1..] == t;
      assert SplitOn([c] + t, c) == [[]] + ws[1..];
      assert ws[0] + [c] + t == ws[0] + ([c] + t);
      SplitOnPrefix(ws[0], [c] + t, c);
      assert ws[0] + [] == ws[0];
    }
  }

  /** `s.split()` is empty exactly when s is blank. */
  lemma {:induction false} WordsFromEmpty(s: string, cur: string)
    requires NoSpace(cur)
    ensures WordsFrom(s, cur) == [] <==> cur == [] && IsBlank(s)
    decreases |s|
  {
    if s != [] {
      if IsSpace(s[0]) {
        WordsFromEmpty(s[1..], []);
        assert IsBlank(s) <==> IsBlank(s[1..]) by {
          if IsBlank(s[1..]) {
            forall i | 0 <= i < |s|
              ensures IsSpace(s[i])
            {
              if i > 0 {
                assert s[i] == s[1..][i - 1];
              }
            }
          }
        }
      } else {
        var next := cur + [s[0]];
        assert NoSpace(next) by {
          forall k | 0 <= k < |next|
            ensures !IsSpace(next[k])
          {
            if k < |cur| {
              assert next[k] == cur[k];
            }
          }
        }
        WordsFromEmpty(s[1..], next);
      }
    }
  }

  /** The first whitespace-separated field of a line, `line.split()[0]`. */
  function FirstField(line: string): (f: string)
    ensures !IsBlank(line) ==> IsWord(f)
  {
    WordsFromEmpty(line, []);
    var parts := Words(line);
    if parts == [] then [] else parts[0]
  }

  /** `if line.strip():` */
  predicate NonBlank(line: string) {
    Strip(line) != []
  }

  /**
   * The loop over the lines after the header: a line that is not blank
   * contributes its first field, in order.
   */
  function ParseModelLines(lines: seq<string>): (r: seq<string>)
    ensures |r| <= |lines|
    ensures forall j | 0 <= j < |r| :: IsWord(r[j])
    decreases |lines|
  {
    if lines == [] then []
    else
      var line := lines[0];
      var first :=
        if Strip(line) != [] then
          var parts := Words(line);
          if parts != [] then [parts[0]] else []
        else [];
      WordsFromEmpty(line, []);
      StripEmptyIffBlank(line);
      first + ParseModelLines(lines[1..])
  }

  /**
   * The parse keeps the first field of every non-blank line and of nothing
   * else, in the order of the lines.
   */
  lemma {:induction false} ParseModelLinesSpec(lines: seq<string>)
    ensures var r := ParseModelLines(lines);
      var kept := Filter(lines, NonBlank);
      |r| == |kept| && forall j | 0 <= j < |r| :: r[j] == FirstField(kept[j])
    decreases |lines|
  {
    if lines != [] {
      var r, kept := ParseModelLines(lines), Filter(lines, NonBlank);
      var rest, keptRest := ParseModelLines(lines[1..]), Filter(lines[1..], NonBlank);
      ParseModelLinesSpec(lines[1..]);
      ParseModelLinesHead(lines);
      if NonBlank(lines[0]) {
        assert r == [FirstField(lines[0])] + rest && kept == [lines[0]] + keptRest;
        forall j | 0 < j < |r|
          ensures r[j] == FirstField(kept[j])
        {
          assert r[j] == rest[j - 1] && kept[j] == keptRest[j - 1];
        }
      } else {
        assert r == rest && kept == keptRest;
      }
    }
  }

  /** One step of the loop: the first line contributes its first field when it is not blank. */
  lemma ParseModelLinesHead(lines: seq<string>)
    requires lines != []
    ensures ParseModelLines(lines) ==
      (if NonBlank(lines[0]) then [FirstField(lines[0])] else []) + ParseModelLines(lines[1..])
  {
    WordsFromEmpty(lines[0], []);
    StripEmptyIffBlank(lines[0]);
  }

  /** How the `ollama ps` subprocess ended. */
  datatype PsOutcome = Exited(returnCode: int, stdout: string) | TimedOut | NotInstalled

  /**
   * `get_ollama_running_models`: nothing unless the command exited with 0;
   * otherwise the header line of the stripped output is skipped and the
   * rest is parsed, giving at most one name per remaining line.
   */
  function RunningModels(o: PsOutcome): (r: seq<string>)
    ensures !(o.Exited? && o.returnCode == 0) ==> r == []
    ensures o.Exited? && o.returnCode == 0 ==> |r| <= |SplitOn(Strip(o.stdout), '\n')| - 1
    ensures forall j | 0 <= j < |r| :: IsWord(r[j])
  {
    match o
    case Exited(code, out) =>
      if code != 0 then []
      else ParseModelLines(SplitOn(Strip(out), '\n')[1..])
    case TimedOut => []
    case NotInstalled => []
  }

  /** A text that neither starts nor ends with whitespace is its own strip. */
  lemma StripTrimmed(s: string)
    requires s != [] && !IsSpace(s[0]) && !IsSpace(s[|s| - 1])
    ensures Strip(s) == s
  {
    assert LStrip(s) == s;
  }

  /** A word is its own only field. */
  lemma WordParsed(w: string)
    requires IsWord(w)
    ensures Strip(w) != [] && Words(w) == [w]
  {
    WordsOfWord(w);
    StripEmptyIffBlank(w);
    assert !IsSpace(w[0]);
  }

  /** Every element of ns is a word, stated one element at a time. */
  predicate AllWords(ns: seq<string>) {
    ns == [] || (IsWord(ns[0]) && AllWords(ns[1..]))
  }

  /** The element-by-element statement gives the statement about every index. */
  lemma {:induction false} AllWordsEach(ns: seq<string>)
    requires AllWords(ns)
    ensures forall j | 0 <= j < |ns| :: IsWord(ns[j])
    decreases |ns|
  {
    if ns != [] {
      AllWordsEach(ns[1..]);
    }
  }

  /** Parsing lines that are single words gives the words back. */
  lemma {:induction false} ParseWords(names: seq<string>)
    requires AllWords(names)
    ensures ParseModelLines(names) == names
    decreases |names|
  {
    if names != [] {
      WordParsed(names[0]);
      ParseWords(names[1..]);
    }
  }

  /** The last character of a join is that of its last piece. */
  lemma {:induction false} JoinOnLast(ws: seq<string>, c: char)
    requires |ws| >= 1 && ws[|ws| - 1] != []
    ensures var s := JoinOn(ws, c); s != [] && s[|s| - 1] == ws[|ws| - 1][|ws[|ws| - 1]| - 1]
    decreases |ws|
  {
    if |ws| > 1 {
      JoinOnLast(ws[1..], c);
    }
  }

  /** A line break is whitespace, so no word holds one. */
  lemma WordsHaveNoBreak(header: string, names: seq<string>)
    requires '\n' !in header
    requires forall j | 0 <= j < |names| :: IsWord(names[j])
    ensures forall j | 0 <= j < |[header] + names| :: '\n' !in ([header] + names)[j]
  {
    var ws := [header] + names;
    assert IsSpace('\n');
    forall j | 0 <= j < |ws|
      ensures '\n' !in ws[j]
    {
      if j > 0 {
        assert ws[j] == names[j - 1];
      }
    }
  }

  /** The first character of a join is that of its first piece. */
  lemma JoinOnFirst(ws: seq<string>, c: char)
    requires |ws| >= 1 && ws[0] != []
    ensures var s := JoinOn(ws, c); s != [] && s[0] == ws[0][0]
  {
    if |ws| > 1 {
      assert JoinOn(ws, c) == ws[0] + ([c] + JoinOn(ws[1..], c));
    }
  }

  /** Stripping a text that neither starts nor ends with whitespace, followed by blanks, gives the text. */
  lemma StripTrail(s: string, trail: string)
    requires s != [] && !IsSpace(s[0]) && !IsSpace(s[|s| - 1])
    requires IsBlank(trail)
    ensures Strip(s + trail) == s
  {
    StripTrimmed(s);
    assert [] + s + trail == s + trail;
    StripIgnoresPadding([], s, trail);
  }

  /**
   * Lines joined by line breaks, the first starting and the last ending
   * with something other than whitespace, survive strip whatever blank
   * text follows them.
   */
  lemma ListingStripped(ws: seq<string>, trail: string)
    requires |ws| >= 1 && ws[0] != [] && ws[|ws| - 1] != []
    requires !IsSpace(ws[0][0]) && !IsSpace(ws[|ws| - 1][|ws[|ws| - 1]| - 1])
    requires IsBlank(trail)
    ensures Strip(JoinOn(ws, '\n') + trail) == JoinOn(ws, '\n')
  {
    JoinOnFirst(ws, '\n');
    JoinOnLast(ws, '\n');
    StripTrail(JoinOn(ws, '\n'), trail);
  }

  /** The lines after the header of the listing are the names. */
  lemma ListingLines(header: string, names: seq<string>)
    requires '\n' !in header
    requires forall j | 0 <= j < |names| :: IsWord(names[j])
    ensures SplitOn(JoinOn([header] + names, '\n'), '\n')[1..] == names
  {
    var ws := [header] + names;
    WordsHaveNoBreak(header, names);
    SplitJoin(ws, '\n');
    assert ws[1..] == names;
  }

  /**
   * The names listed under a header, one per line and followed by any
   * trailing whitespace, are exactly what is read back.
   */
  lemma ListingParsed(header: string, names: seq<string>, trail: string)
    requires header != [] && !IsSpace(header[0]) && !IsSpace(header[|header| - 1]) && '\n' !in header
    requires AllWords(names)
    requires IsBlank(trail)
    ensures RunningModels(Exited(0, JoinOn([header] + names, '\n') + trail)) == names
  {
    ListingBody(header, names, trail);
    ParseWords(names);
  }

  /** After strip and split, the lines below the header are the names. */
  lemma ListingBody(header: string, names: seq<string>, trail: string)
    requires header != [] && !IsSpace(header[0]) && !IsSpace(header[|header| - 1]) && '\n' !in header
    requires AllWords(names)
    requires IsBlank(trail)
    ensures SplitOn(Strip(JoinOn([header] + names, '\n') + trail), '\n')[1..] == names
  {
    AllWordsEach(names);
    ListingEnds(header, names);
    ListingStripped([header] + names, trail);
    ListingLines(header, names);
  }

  /** The listing's last line is the last name, or the header when there are none. */
  lemma ListingEnds(header: string, names: seq<string>)
    requires header != [] && !IsSpace(header[|header| - 1])
    requires forall j | 0 <= j < |names| :: IsWord(names[j])
    ensures var last := ([header] + names)[|names|]; last != [] && !IsSpace(last[|last| - 1])
  {
    if names != [] {
      assert ([header] + names)[|names|] == names[|names| - 1];
    }
  }

  /** The memory figures of a process, in hundredths of a megabyte. */
  datatype MemoryFigures = MemoryFigures(rss: int, vms: int)

  /** The dictionary `get_baseline_memory` returns. */
  datatype MemoryReading = MemoryReading(rss: int, vms: int, available: bool)

  /**
   * `get_baseline_memory`, given what reading the Ollama server process
   * gave: `None` when no server process was found or it could not be read.
   */
  function BaselineMemory(figures: Option<MemoryFigures>): (r: MemoryReading)
    ensures r.available <==> figures.Some?
    ensures figures.Some? ==> r.rss == figures.value.rss && r.vms == figures.value.vms
    ensures figures.None? ==> r.rss == 0 && r.vms == 0
  {
    match figures
    case Some(f) => MemoryReading(f.rss, f.vms, true)
    case None => MemoryReading(0, 0, false)
  }

  /** The dictionary `measure_memory_delta` returns; absent entries are 0. */
  datatype MemoryDelta = MemoryDelta(currentRss: int, currentVms: int, deltaRss: int, deltaVms: int,
                                     baselineRss: int, available: bool)

  /**
   * `measure_memory_delta`: the delta is available only when both the new
   * reading and the baseline are, and then the baseline plus the delta is
   * the current figure.
   */
  function MeasureMemoryDelta(figures: Option<MemoryFigures>, baseline: MemoryReading): (d: MemoryDelta)
    ensures d.available <==> figures.Some? && baseline.available
    ensures d.available ==> && d.currentRss == figures.value.rss && d.currentVms == figures.value.vms
                            && d.baselineRss == baseline.rss
                            && d.baselineRss + d.deltaRss == d.currentRss
                            && baseline.vms + d.deltaVms == d.currentVms
    ensures !d.available ==> && d.currentRss == 0 && d.currentVms == 0
                             && d.deltaRss == 0 && d.deltaVms == 0 && d.baselineRss == 0
  {
    var current := BaselineMemory(figures);
    if !current.available || !baseline.available then MemoryDelta(0, 0, 0, 0, 0, false)
    else MemoryDelta(current.rss, current.vms, current.rss - baseline.rss, current.vms - baseline.vms,
                     baseline.rss, true)
  }

  /**
   * A baseline taken from one reading and a delta measured at a later one:
   * the delta is available exactly when both readings were, and then it is
   * the growth from the first reading to the second.
   */
  lemma BaselineFeedsDelta(before: Option<MemoryFigures>, after: Option<MemoryFigures>)
    ensures var d := MeasureMemoryDelta(after, BaselineMemory(before));
      && (d.available <==> before.Some? && after.Some?)
      && (d.available ==> && d.baselineRss == before.value.rss
                          && d.deltaRss == after.value.rss - before.value.rss
                          && d.deltaVms == after.value.vms - before.value.vms)
  {
  }

  /** Measuring against a baseline taken from the same figures shows no growth. */
  lemma NoGrowthAgainstItself(figures: Option<MemoryFigures>)
    ensures var d := MeasureMemoryDelta(figures, BaselineMemory(figures));
      d.available == figures.Some? && d.deltaRss == 0 && d.deltaVms == 0
  {
  }
}
