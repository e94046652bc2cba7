/**
 * Automatic choice of the microphone and the speaker: the name-based
 * scores, the lookup of a user or configuration preference, the ALSA name
 * read out of a device name, and the choice of the best device. The
 * PyAudio enumeration is an input (the list of devices it produced).
 */
module AudioDeviceDetector {
  import opened Common
  import opened Text

  /** One enumerated device, with the score and ALSA name detection fills in. */
  datatype DeviceInfo = DeviceInfo(
    index: int,
    name: string,
    maxInputChannels: int,
    maxOutputChannels: int,
    alsaName: Option<string>,
    score: int)

  /** The score a matched user preference is given. */
  const UserPreferenceScore := 1000
  /** The score a matched configuration preference is given. */
  const ConfigPreferenceScore := 900

  /** `_is_pulseaudio_device`: the lower-cased name mentions "pulse". */
  predicate IsPulse(d: DeviceInfo) {
    Contains(Lower(d.name), "pulse")
  }

  /** A built-in microphone of the board. */
  predicate IsBuiltinInput(name: string) {
    Contains(name, "bcm2835") || Contains(name, "builtin") || Contains(name, "internal")
  }

  /** A USB device that calls itself a microphone or an audio device. */
  predicate IsDedicatedAudio(name: string) {
    Contains(name, "audio") || Contains(name, "microphone") || Contains(name, "mic")
  }

  /**
   * `_score_input_device`: PulseAudio devices come last, USB microphones
   * first, then the built-in microphone, then anything else.
   */
  function ScoreInput(d: DeviceInfo): (r: int)
    ensures r == 50 <==> IsPulse(d)
    ensures r >= 700 <==> !IsPulse(d) && Contains(Lower(d.name), "usb")
    ensures r == 800 <==> !IsPulse(d) && Contains(Lower(d.name), "usb") && IsDedicatedAudio(Lower(d.name))
    ensures r == 500 <==> !IsPulse(d) && !Contains(Lower(d.name), "usb") && IsBuiltinInput(Lower(d.name))
    ensures r == 50 || r == 100 || r == 500 || r == 700 || r == 800
  {
    var n := Lower(d.name);
    if IsPulse(d) then 50
    else if Contains(n, "usb") then (if IsDedicatedAudio(n) then 800 else 700)
    else if IsBuiltinInput(n) then 500
    else 100
  }

  /** A HiFiBerry DAC. */
  predicate IsHifiberry(name: string) {
    Contains(name, "hifiberry") || Contains(name, "sndrpihifiberry")
  }

  /** The 3.5 mm jack of the board. */
  predicate IsHeadphoneJack(name: string) {
    Contains(name, "headphones") || Contains(name, "bcm2835")
  }

  /** HDMI audio. */
  predicate IsHdmi(name: string) {
    Contains(name, "hdmi") || Contains(name, "vc4-hdmi")
  }

  /**
   * `_score_output_device`: PulseAudio last; then HiFiBerry, USB, the
   * headphone jack and HDMI, in that order, above anything else.
   */
  function ScoreOutput(d: DeviceInfo): (r: int)
    ensures r == 50 <==> IsPulse(d)
    ensures r == 850 <==> !IsPulse(d) && IsHifiberry(Lower(d.name))
    ensures r == 700 <==> !IsPulse(d) && !IsHifiberry(Lower(d.name)) && Contains(Lower(d.name), "usb")
    ensures r == 600 <==> !IsPulse(d) && !IsHifiberry(Lower(d.name)) && !Contains(Lower(d.name), "usb")
                          && IsHeadphoneJack(Lower(d.name))
    ensures r == 500 <==> !IsPulse(d) && !IsHifiberry(Lower(d.name)) && !Contains(Lower(d.name), "usb")
                          && !IsHeadphoneJack(Lower(d.name)) && IsHdmi(Lower(d.name))
    ensures r == 100 <==> !IsPulse(d) && !IsHifiberry(Lower(d.name)) && !Contains(Lower(d.name), "usb")
                          && !IsHeadphoneJack(Lower(d.name)) && !IsHdmi(Lower(d.name))
    ensures r == 50 || r == 100 || r == 500 || r == 600 || r == 700 || r == 850
  {
    var n := Lower(d.name);
    if IsPulse(d) then 50
    else if IsHifiberry(n) then 850
    else if Contains(n, "usb") then 700
    else if IsHeadphoneJack(n) then 600
    else if IsHdmi(n) then 500
    else 100
  }

  function Score(d: DeviceInfo, isInput: bool): int {
    if isInput then ScoreInput(d) else ScoreOutput(d)
  }

  /** A PulseAudio device ranks below every other device, for input and for output. */
  lemma PulseRanksLast(p: DeviceInfo, d: DeviceInfo, isInput: bool)
    requires IsPulse(p) && !IsPulse(d)
    ensures Score(p, isInput) < Score(d, isInput)
  {
  }

  // ---------------------------------------------------------------------
  // Preferences
  // ---------------------------------------------------------------------

  /** A string `int()` accepts once stripped: an optional sign, then at least one decimal digit. */
  predicate IntLiteral(t: string) {
    && t != []
    && (forall i | 1 <= i < |t| :: IsAsciiDigit(t[i]))
    && (IsAsciiDigit(t[0]) || ((t[0] == '+' || t[0] == '-') && |t| >= 2))
  }

  /** `int(s)` for a string: surrounding whitespace is ignored, anything else is a `ValueError`. */
  function ParseInt(s: string): (r: Option<int>)
    ensures r.Some? <==> IntLiteral(Strip(s))
  {
    var t := Strip(s);
    if !IntLiteral(t) then None
    else if t[0] == '-' then Some(0 - DecimalValue(t[1..]) as int)
    else if t[0] == '+' then Some(DecimalValue(t[1..]))
    else Some(DecimalValue(t))
  }

  /** `str(n)`. */
  function IntString(n: int): string {
    if n < 0 then "-" + DecimalString(-n) else DecimalString(n)
  }

  /** A text with no whitespace at either end is its own strip. */
  lemma StripUnpadded(t: string)
    requires t != [] && !IsSpace(t[0]) && !IsSpace(t[|t| - 1])
    ensures Strip(t) == t
  {
    assert LStrip(t) == t;
  }

  lemma DigitNotSpace(c: char)
    requires IsAsciiDigit(c)
    ensures !IsSpace(c)
  {
  }

  /** A device index written out as a preference is read back as that index. */
  lemma ParseIntString(n: int)
    ensures ParseInt(IntString(n)) == Some(n)
  {
    var m: nat := if n < 0 then -n else n;
    var d := DecimalString(m);
    DecimalRoundTrip(m);
    DigitNotSpace(d[|d| - 1]);
    var t := IntString(n);
    if n < 0 {
      assert t == "-" + d && t[1..] == d;
      assert t[|t| - 1] == d[|d| - 1];
      StripUnpadded(t);
      assert IntLiteral(t);
    } else {
      assert t == d;
      DigitNotSpace(d[0]);
      StripUnpadded(t);
      assert IntLiteral(t);
    }
  }

  /** The preference reads as an integer equal to the device's index. */
  function IndexMatch(preference: string): DeviceInfo -> bool {
    (d: DeviceInfo) => ParseInt(preference) == Some(d.index)
  }

  /** The lower-cased name contains the lower-cased preference. */
  function NameMatch(preference: string): DeviceInfo -> bool {
    (d: DeviceInfo) => Contains(Lower(d.name), Lower(preference))
  }

  /**
   * `_find_device_by_preference`: a preference that reads as an integer
   * picks the first device with that index; failing that, the first device
   * whose name contains the preference, ignoring case.
   */
  function FindDeviceByPreference(devices: seq<DeviceInfo>, preference: string): (r: Option<DeviceInfo>)
    ensures (exists j | 0 <= j < |devices| :: IndexMatch(preference)(devices[j])) ==>
      exists i :: FirstAt(devices, IndexMatch(preference), i) && r == Some(devices[i])
    ensures (forall j | 0 <= j < |devices| :: !IndexMatch(preference)(devices[j])) ==>
      && (r.None? <==> forall j | 0 <= j < |devices| :: !NameMatch(preference)(devices[j]))
      && (r.Some? ==> exists i :: FirstAt(devices, NameMatch(preference), i) && r == Some(devices[i]))
  {
    var byIndex := FindFirst(devices, IndexMatch(preference));
    if byIndex.Some? then byIndex
    else FindFirst(devices, NameMatch(preference))
  }

  // ---------------------------------------------------------------------
  // ALSA names
  // ---------------------------------------------------------------------

  /**
   * `hw:(\d+),(\d+)` matches at position k. A greedy `\d+` can only give
   * back digits, and a digit is never the ',' that must follow, so the
   * first group is the whole digit run after "hw:".
   */
  predicate HwAt(s: string, k: nat) {
    && k + 3 <= |s| && s[k..k + 3] == "hw:"
    && var a := DigitRun(s, k + 3);
    && a > 0 && k + 3 + a < |s| && s[k + 3 + a] == ','
    && DigitRun(s, k + 4 + a) > 0
  }

  /** `re.search`: the leftmost position, from k on, where the pattern matches. */
  function HwSearch(s: string, k: nat): (r: Option<nat>)
    ensures r.Some? ==> k <= r.value && HwAt(s, r.value)
    ensures r.Some? ==> forall j | k <= j < r.value :: !HwAt(s, j)
    ensures r.None? ==> forall j | k <= j :: !HwAt(s, j)
    decreases |s| - k
  {
    if k >= |s| then None
    else if HwAt(s, k) then Some(k)
    else HwSearch(s, k + 1)
  }

  /** The search from `from` stops at the first match k. */
  lemma {:induction false} HwSearchFinds(s: string, from: nat, k: nat)
    requires from <= k && HwAt(s, k)
    requires forall j | from <= j < k :: !HwAt(s, j)
    ensures HwSearch(s, from) == Some(k)
    decreases k - from
  {
    if from < k {
      HwSearchFinds(s, from + 1, k);
    }
  }

  /** The card number, group 1 of the match at k. */
  function CardAt(s: string, k: nat): string
    requires HwAt(s, k)
  {
    s[k + 3..k + 3 + DigitRun(s, k + 3)]
  }

  /** The device number, group 2 of the match at k. */
  function DevAt(s: string, k: nat): string
    requires HwAt(s, k)
  {
    var b := k + 4 + DigitRun(s, k + 3);
    s[b..b + DigitRun(s, b)]
  }

  /** Input goes through ALSA's plug layer; output talks to the hardware directly. */
  function AlsaPrefix(isInput: bool): string {
    if isInput then "plughw" else "hw"
  }

  /**
   * `_extract_alsa_name`: no name for PulseAudio devices or for names
   * without `hw:<card>,<dev>`; otherwise the stable name for the first
   * such occurrence.
   */
  function ExtractAlsaName(d: DeviceInfo, isInput: bool): (r: Option<string>)
    ensures IsPulse(d) ==> r == None
    ensures !IsPulse(d) ==> (r.None? <==> forall k: nat :: !HwAt(d.name, k))
    ensures r.Some? ==> exists k: nat :: (HwAt(d.name, k)
        && (forall j: nat | j < k :: !HwAt(d.name, j))
        && r.value == AlsaPrefix(isInput) + ":CARD=" + CardAt(d.name, k) + ",DEV=" + DevAt(d.name, k))
  {
    if IsPulse(d) then None
    else
      match HwSearch(d.name, 0)
      case None => None
      case Some(k) => Some(AlsaPrefix(isInput) + ":CARD=" + CardAt(d.name, k) + ",DEV=" + DevAt(d.name, k))
  }

  /** Group 1 and group 2 of a match at k are the digit runs written there. */
  lemma HwAtOf(s: string, k: nat, card: string, dev: string)
    requires k + 4 + |card| + |dev| <= |s|
    requires s[k..k + 3] == "hw:" && s[k + 3 + |card|] == ','
    requires s[k + 3..k + 3 + |card|] == card && s[k + 4 + |card|..k + 4 + |card| + |dev|] == dev
    requires card != [] && (forall i | 0 <= i < |card| :: IsAsciiDigit(card[i]))
    requires dev != [] && (forall i | 0 <= i < |dev| :: IsAsciiDigit(dev[i]))
    requires k + 4 + |card| + |dev| == |s| || !IsAsciiDigit(s[k + 4 + |card| + |dev|])
    ensures HwAt(s, k) && CardAt(s, k) == card && DevAt(s, k) == dev
  {
    DigitRunOf(s, k + 3, card);
    DigitRunOf(s, k + 4 + |card|, dev);
  }

  /** No match can start where there is no 'h'. */
  lemma NoHwWithoutH(s: string, j: nat)
    requires j < |s| && s[j] != 'h'
    ensures !HwAt(s, j)
  {
    if j + 3 <= |s| {
      assert s[j..j + 3][0] == s[j];
    }
  }

  /**
   * A name whose first "hw:" is followed by card digits, a comma and
   * device digits yields exactly those numbers, e.g.
   * "USB PnP Sound Device: Audio (hw:3,0)" gives "plughw:CARD=3,DEV=0" for input.
   */
  lemma ExtractAlsaNameOf(d: DeviceInfo, pre: string, card: string, dev: string, post: string, isInput: bool)
    requires d.name == pre + "hw:" + card + "," + dev + post
    requires !IsPulse(d) && (forall i | 0 <= i < |pre| :: pre[i] != 'h')
    requires card != [] && (forall i | 0 <= i < |card| :: IsAsciiDigit(card[i]))
    requires dev != [] && (forall i | 0 <= i < |dev| :: IsAsciiDigit(dev[i]))
    requires post == [] || !IsAsciiDigit(post[0])
    ensures ExtractAlsaName(d, isInput) == Some(AlsaPrefix(isInput) + ":CARD=" + card + ",DEV=" + dev)
  {
    var s := d.name;
    var k := |pre|;
    var e := k + 4 + |card| + |dev|;
    assert s[..k] == pre;
    assert s[k..k + 3] == "hw:";
    assert s[k + 3..k + 3 + |card|] == card;
    assert s[k + 3 + |card|] == ',';
    assert s[k + 4 + |card|..e] == dev;
    assert s[e..] == post;
    if e < |s| {
      assert s[e] == post[0];
    }
    HwAtOf(s, k, card, dev);
    forall j | 0 <= j < k
      ensures !HwAt(s, j)
    {
      assert s[j] == s[..k][j];
      NoHwWithoutH(s, j);
    }
    HwSearchFinds(s, 0, k);
  }

  // ---------------------------------------------------------------------
  // Choosing a device
  // ---------------------------------------------------------------------

  /** The device can record (input) or play (output). */
  predicate HasChannels(d: DeviceInfo, isInput: bool) {
    if isInput then d.maxInputChannels > 0 else d.maxOutputChannels > 0
  }

  /** `[d for d in self.devices if d.max_input_channels > 0]`, or the same for output. */
  function Capable(devices: seq<DeviceInfo>, isInput: bool): (r: seq<DeviceInfo>)
    ensures forall j | 0 <= j < |r| :: HasChannels(r[j], isInput)
    ensures r == [] <==> forall j | 0 <= j < |devices| :: !HasChannels(devices[j], isInput)
  {
    var r := Filter(devices, (d: DeviceInfo) => HasChannels(d, isInput));
    if r == [] then
      forall j | 0 <= j < |devices|
        ensures !HasChannels(devices[j], isInput)
      {
        FilterMembers(devices, (d: DeviceInfo) => HasChannels(d, isInput), devices[j]);
      }
      r
    else
      assert r[0] in r;
      FilterMembers(devices, (d: DeviceInfo) => HasChannels(d, isInput), r[0]);
      r
  }

  /** The device with the score and ALSA name detection writes into it. */
  function Rated(d: DeviceInfo, score: int, isInput: bool): DeviceInfo {
    d.(score := score, alsaName := ExtractAlsaName(d, isInput))
  }

  /** The preference is given and names one of the devices. */
  predicate Matched(devices: seq<DeviceInfo>, p: Option<string>) {
    Given(p) && FindDeviceByPreference(devices, p.value).Some?
  }

  /** The score of each device, in list order. */
  function Scores(ds: seq<DeviceInfo>, isInput: bool): (r: seq<int>)
    ensures |r| == |ds|
  {
    seq(|ds|, i requires 0 <= i < |ds| => Score(ds[i], isInput))
  }

  /** Among the first n values, the one at j is a maximum and every value before it is smaller. */
  predicate FirstMax(xs: seq<int>, j: int, n: int) {
    && 0 <= j < n <= |xs|
    && (forall i | 0 <= i < n :: xs[i] <= xs[j])
    && (forall i | 0 <= i < j :: xs[i] < xs[j])
  }

  /** The device at position j is the first with the highest score. */
  predicate Best(ds: seq<DeviceInfo>, isInput: bool, j: int) {
    var xs := Scores(ds, isInput);
    && FirstMax(xs, j, |ds|)
    && (forall i | 0 <= i < |ds| :: Score(ds[i], isInput) == xs[i])
  }

  /**
   * Scores every device and keeps the first with the highest score: the
   * head of `sort(key=score, reverse=True)`, a stable sort.
   */
  method BestIndex(ds: seq<DeviceInfo>, isInput: bool) returns (best: nat)
    requires ds != []
    ensures Best(ds, isInput, best)
  {
    ghost var xs := Scores(ds, isInput);
    var bestScore := Score(ds[0], isInput);
    best := 0;
    var i := 1;
    while i < |ds|
      invariant 1 <= i <= |ds|
      invariant FirstMax(xs, best, i) && bestScore == xs[best]
    {
      var score := Score(ds[i], isInput);
      assert score == xs[i];
      if score > bestScore {
        best, bestScore := i, score;
      }
      i := i + 1;
    }
  }

  /** The device a preference finds is one of the list, so it shares what all of them have. */
  lemma FoundIsCandidate(candidates: seq<DeviceInfo>, preference: string, isInput: bool)
    requires forall j | 0 <= j < |candidates| :: HasChannels(candidates[j], isInput)
    ensures FindDeviceByPreference(candidates, preference).Some? ==>
      HasChannels(FindDeviceByPreference(candidates, preference).value, isInput)
  {
    var byIndex := FindFirst(candidates, IndexMatch(preference));
    var byName := FindFirst(candidates, NameMatch(preference));
    if byIndex.Some? {
      var i :| FirstAt(candidates, IndexMatch(preference), i) && candidates[i] == byIndex.value;
    } else if byName.Some? {
      var i :| FirstAt(candidates, NameMatch(preference), i) && candidates[i] == byName.value;
    }
  }

  /** A given preference that names a candidate picks it, rated with `score`. */
  method Preferred(candidates: seq<DeviceInfo>, preference: Option<string>, score: int, isInput: bool)
    returns (r: Option<DeviceInfo>)
    requires forall j | 0 <= j < |candidates| :: HasChannels(candidates[j], isInput)
    ensures r.Some? <==> Matched(candidates, preference)
    ensures r.Some? ==>
      && r == Some(Rated(FindDeviceByPreference(candidates, preference.value).value, score, isInput))
      && HasChannels(r.value, isInput)
  {
    if !Given(preference) {
      return None;
    }
    var device := FindDeviceByPreference(candidates, preference.value);
    if device.None? {
      return None;
    }
    FoundIsCandidate(candidates, preference.value, isInput);
    return Some(Rated(device.value, score, isInput));
  }

  /**
   * `detect_input_device` (`isInput`) and `detect_output_device`: among
   * the devices that have channels in that direction, a matched user
   * preference wins, then a matched configuration preference, and
   * otherwise the first device with the highest score, which is what
   * element 0 of a stable sort by descending score is.
   */
  method DetectDevice(devices: seq<DeviceInfo>, userPreference: Option<string>,
                      configPreference: Option<string>, isInput: bool) returns (r: Option<DeviceInfo>)
    ensures r.None? <==> forall j | 0 <= j < |devices| :: !HasChannels(devices[j], isInput)
    ensures r.Some? ==> HasChannels(r.value, isInput)
    ensures var cs := Capable(devices, isInput);
      Matched(cs, userPreference) ==>
        r == Some(Rated(FindDeviceByPreference(cs, userPreference.value).value, UserPreferenceScore, isInput))
    ensures var cs := Capable(devices, isInput);
      !Matched(cs, userPreference) && Matched(cs, configPreference) ==>
        r == Some(Rated(FindDeviceByPreference(cs, configPreference.value).value, ConfigPreferenceScore, isInput))
    ensures var cs := Capable(devices, isInput);
      cs != [] && !Matched(cs, userPreference) && !Matched(cs, configPreference) ==>
        exists j :: Best(cs, isInput, j) && r == Some(Rated(cs[j], Score(cs[j], isInput), isInput))
  {
    var candidates := Capable(devices, isInput);
    if candidates == [] {
      return None;
    }
    r := Preferred(candidates, userPreference, UserPreferenceScore, isInput);
    if r.Some? {
      return;
    }
    r := Preferred(candidates, configPreference, ConfigPreferenceScore, isInput);
    if r.Some? {
      return;
    }
    var best := BestIndex(candidates, isInput);
    return Some(Rated(candidates[best], Score(candidates[best], isInput), isInput));
  }
}
