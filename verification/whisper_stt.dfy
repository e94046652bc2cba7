/**
 * The speech-to-text front end: the clean-up applied to a whisper.cpp
 * transcription, the pause/resume flags, the per-chunk voice-activity step
 * of the recording loop with its minimum-length gate, and the lookup of a
 * USB microphone among the audio devices. The microphone stream, the RMS
 * computation, the WAV file and the whisper-cli process are outside the
 * model: a chunk arrives with its RMS level and the clock reading.
 */
module WhisperStt {
  import opened Common
  import opened Text

  /** The text without its trailing run of `c`. */
  function DropTrailing(s: string, c: char): (r: string)
    ensures |r| <= |s| && r == s[..|r|]
    ensures r == [] || r[|r| - 1] != c
    ensures forall i | |r| <= i < |s| :: s[i] == c
    decreases |s|
  {
    if s != [] && s[|s| - 1] == c then DropTrailing(s[..|s| - 1], c) else s
  }

  /**
   * `re.sub(r'\.+$', '.', s)` on a text with no trailing newline: a final
   * run of periods becomes a single period.
   */
  function CollapseTrailingDots(s: string): (r: string)
    ensures !EndsWith(s, ".") ==> r == s
    ensures EndsWith(s, ".") ==>
      && r != [] && r[|r| - 1] == '.'
      && (|r| < 2 || r[|r| - 2] != '.')
      && |r| <= |s| && r[..|r| - 1] == s[..|r| - 1]
      && (forall i | |r| - 1 <= i < |s| :: s[i] == '.')
  {
    if EndsWith(s, ".") then DropTrailing(s, '.') + "." else s
  }

  /** A lower-case first character is upper-cased; the rest of the text is kept. */
  function Capitalize(s: string): (r: string)
    ensures s == [] || !IsLower(s[0]) ==> r == s
    ensures s != [] && IsLower(s[0]) ==> r == UpperOf(s[0]) + s[1..]
  {
    if s != [] && IsLower(s[0]) then UpperOf(s[0]) + s[1..] else s
  }

  /** `_clean_transcription`. */
  function CleanTranscription(text: string): (r: string)
    ensures Normalized(r)
    ensures r == [] <==> IsBlank(text)
    ensures EndsWith(r, ".") <==> EndsWith(CleanWhitespace(text), ".")
    ensures EndsWith(r, ".") ==> !EndsWith(r, "..")
    ensures var t := CleanWhitespace(text);
      t != [] ==>
        && r != []
        && (IsLower(t[0]) ==> StartsWith(r, UpperOf(t[0])))
        && (!IsLower(t[0]) ==> r[0] == t[0])
  {
    var t := CleanWhitespace(text);
    CleanWhitespaceSpec(text);
    CleanWhitespaceBlank(text);
    var d := CollapseTrailingDots(t);
    DotsShape(t);
    var c := Capitalize(d);
    CapitalizeShape(d);
    NormalizedStrip(c);
    Strip(c)
  }

  /** What collapsing the trailing periods keeps of a normalised text. */
  lemma DotsShape(t: string)
    requires Normalized(t)
    ensures var d := CollapseTrailingDots(t);
      && Normalized(d)
      && (d == [] <==> t == [])
      && (t != [] ==> d[0] == t[0])
      && (EndsWith(d, ".") <==> EndsWith(t, "."))
      && (EndsWith(d, ".") ==> !EndsWith(d, ".."))
  {
    DotsNormalized(t);
    var d := CollapseTrailingDots(t);
    if EndsWith(t, ".") {
      if |d| > 1 {
        assert d[..|d| - 1][0] == t[..|d| - 1][0];
      }
      if |d| >= 2 {
        assert d[|d| - 2..] != "..";
      }
    }
  }

  /** What upper-casing the first character keeps of a normalised text. */
  lemma CapitalizeShape(d: string)
    requires Normalized(d)
    ensures var c := Capitalize(d);
      && Normalized(c)
      && (c == [] <==> d == [])
      && (EndsWith(c, ".") <==> EndsWith(d, "."))
      && (EndsWith(d, ".") && !EndsWith(d, "..") ==> !EndsWith(c, ".."))
      && (d != [] && IsLower(d[0]) ==> StartsWith(c, UpperOf(d[0])))
      && (d != [] && !IsLower(d[0]) ==> c == d)
  {
    UpperNormalized(d);
    if d != [] && IsLower(d[0]) {
      var u := UpperOf(d[0]);
      var c := u + d[1..];
      assert c[..|u|] == u;
      CapitalizeTail(d);
    }
  }

  /**
   * Capitalising twice is capitalising once: the new first character is
   * no longer lower-case, unless upper-casing left it as it was.
   */
  lemma CapitalizeIdempotent(s: string)
    ensures Capitalize(Capitalize(s)) == Capitalize(s)
    ensures Capitalize(s) == [] <==> s == []
    ensures |Capitalize(s)| >= |s|
    ensures s != [] ==> Capitalize(s)[|Capitalize(s)| - |s| + 1..] == s[1..]
  {
    if s != [] && IsLower(s[0]) {
      var u := UpperOf(s[0]);
      var c := u + s[1..];
      assert c[0] == u[0];
      assert c[|c| - |s| + 1..] == s[1..];
      if IsLower(c[0]) {
        assert c == [s[0]] + s[1..] == s;
      }
    }
  }

  /** The j-th character from the end is a period before and after upper-casing alike. */
  lemma CapitalizeDotAt(d: string, j: int)
    requires d != [] && IsLower(d[0]) && j >= 1
    ensures var c := Capitalize(d);
      (j <= |c| && c[|c| - j] == '.') <==> (j <= |d| && d[|d| - j] == '.')
  {
    var u := UpperOf(d[0]);
    var c := u + d[1..];
    if j < |d| {
      assert c[|c| - j] == d[1..][|d| - 1 - j];
    } else if j <= |c| {
      assert c[|c| - j] == u[|c| - j];
    }
  }

  /**
   * Upper-casing a lower-case first character never adds or removes a
   * period among the last two characters.
   */
  lemma CapitalizeTail(d: string)
    requires d != [] && IsLower(d[0])
    ensures var c := Capitalize(d);
      (EndsWith(c, ".") <==> EndsWith(d, ".")) && (EndsWith(c, "..") <==> EndsWith(d, ".."))
  {
    CapitalizeDotAt(d, 1);
    CapitalizeDotAt(d, 2);
    EndsWithDots(Capitalize(d));
    EndsWithDots(d);
  }

  /** Collapsing the trailing periods of a normalised text keeps it normalised. */
  lemma DotsNormalized(t: string)
    requires Normalized(t)
    ensures Normalized(CollapseTrailingDots(t))
  {
    if EndsWith(t, ".") {
      var p := DropTrailing(t, '.');
      NormalizedPrefix(t, |p|);
      var r := p + ".";
      forall i | 0 <= i < |r| && IsSpace(r[i])
        ensures r[i] == ' ' && 0 < i < |r| - 1
      {
        assert r[i] == p[i] == t[i];
      }
      forall i | 0 <= i < |r| - 1
        ensures NotDoubled(r, i)
      {
        if i < |p| - 1 {
          assert NotDoubled(p, i);
          assert r[i] == p[i] && r[i + 1] == p[i + 1];
        }
      }
    }
  }

  /** Upper-casing the first character of a normalised text keeps it normalised. */
  lemma UpperNormalized(d: string)
    requires Normalized(d)
    ensures Normalized(Capitalize(d))
  {
    if d != [] && IsLower(d[0]) {
      var u := UpperOf(d[0]);
      var r := u + d[1..];
      var k := |u| - 1;
      forall i | 0 <= i < |r| && IsSpace(r[i])
        ensures r[i] == ' ' && 0 < i < |r| - 1
      {
        assert i > k;
        assert r[i] == d[i - k];
      }
      forall i | 0 <= i < |r| - 1
        ensures NotDoubled(r, i)
      {
        if i > k {
          assert NotDoubled(d, i - k);
          assert r[i] == d[i - k] && r[i + 1] == d[i - k + 1];
        } else {
          assert !IsSpace(r[i]);
        }
      }
    }
  }

  /** Cleaning a cleaned transcription gives it back unchanged. */
  lemma CleanTranscriptionIdempotent(text: string)
    ensures CleanTranscription(CleanTranscription(text)) == CleanTranscription(text)
  {
    var r := CleanTranscription(text);
    CleanWhitespaceNormalized(r);
    DotsFixed(r);
    if r != [] && IsLower(r[0]) {
      StartOfCleaned(text);
    }
    CapitalizeFixed(r);
    NormalizedStrip(r);
  }

  /** A text ending in at most one period has no run of periods to collapse. */
  lemma DotsFixed(r: string)
    requires EndsWith(r, ".") ==> !EndsWith(r, "..")
    ensures CollapseTrailingDots(r) == r
  {
    EndsWithDots(r);
    if EndsWith(r, ".") {
      var p := r[..|r| - 1];
      assert r == p + ['.'];
      assert p == [] || p[|p| - 1] != '.';
      assert DropTrailing(p, '.') == p;
      assert DropTrailing(r, '.') == DropTrailing(p, '.');
    }
  }

  /** A text whose first character upper-cases to itself is left alone. */
  lemma CapitalizeFixed(r: string)
    requires r != [] && IsLower(r[0]) ==> UpperOf(r[0]) == [r[0]]
    ensures Capitalize(r) == r
  {
    if r != [] && IsLower(r[0]) {
      assert [r[0]] + r[1..] == r;
    }
  }

  /** The first character of a cleaned transcription is one that upper-casing cannot change further. */
  lemma StartOfCleaned(text: string)
    requires var r := CleanTranscription(text); r != [] && IsLower(r[0])
    ensures var r := CleanTranscription(text); UpperOf(r[0]) == [r[0]]
  {
    var t := CleanWhitespace(text);
    CleanWhitespaceSpec(text);
    var r := CleanTranscription(text);
    if t != [] && IsLower(t[0]) {
      var u := UpperOf(t[0]);
      assert r[0] == u[0];
    }
  }

  /** Frames read from the microphone, one chunk at a time. */
  type Chunk = seq<bv8>

  /**
   * `_process_recorded_audio`'s gate: the buffer is transcribed only when it
   * is not empty and `frames * chunk / rate` seconds is at least the minimum.
   */
  predicate LongEnough(frames: nat, chunkSize: nat, sampleRate: nat, minAudioLength: real)
    requires sampleRate > 0
  {
    frames > 0 && (frames * chunkSize) as real / sampleRate as real >= minAudioLength
  }

  /**
   * With the shipped configuration (chunks of 1024 frames at 16 kHz, at
   * least half a second), a recording needs at least eight chunks.
   */
  lemma DefaultGateNeedsEightChunks(frames: nat)
    ensures LongEnough(frames, 1024, 16000, 0.5) <==> frames >= 8
  {
    if frames >= 8 {
      assert (frames * 1024) as real >= 8192.0;
    } else if frames > 0 {
      assert (frames * 1024) as real <= 7168.0;
    }
  }

  class Recorder {
    /** RMS level above which a chunk is speech (30 by default). */
    const silenceThreshold: real
    /** Seconds of silence that end a recording (1.5 by default). */
    const silenceDurationLimit: real
    /** Shortest recording worth transcribing, in seconds (0.5 by default). */
    const minAudioLength: real
    const chunkSize: nat
    const sampleRate: nat
    var isRunning: bool
    var isRecording: bool
    var isPaused: bool
    var frames: seq<Chunk>
    var lastAudioTime: real
    /** The buffers handed to whisper-cli, oldest first. */
    var transcribed: seq<seq<Chunk>>

    /** A recording is in progress exactly when the buffer holds audio. */
    predicate Valid()
      reads this
    {
      sampleRate > 0 && (isRecording <==> frames != [])
    }

    constructor (silenceThreshold: real := 30.0, silenceDurationLimit: real := 1.5, minAudioLength: real := 0.5,
                 chunkSize: nat := 1024, sampleRate: nat := 16000)
      requires sampleRate > 0
      ensures Valid()
      ensures this.silenceThreshold == silenceThreshold && this.silenceDurationLimit == silenceDurationLimit
      ensures this.minAudioLength == minAudioLength && this.chunkSize == chunkSize && this.sampleRate == sampleRate
      ensures !isRunning && !isRecording && !isPaused && frames == [] && lastAudioTime == 0.0 && transcribed == []
    {
      this.silenceThreshold := silenceThreshold;
      this.silenceDurationLimit := silenceDurationLimit;
      this.minAudioLength := minAudioLength;
      this.chunkSize := chunkSize;
      this.sampleRate := sampleRate;
      isRunning := false;
      isRecording := false;
      isPaused := false;
      frames := [];
      lastAudioTime := 0.0;
      transcribed := [];
    }

    /** `start`: `streamOpened` says whether PyAudio and the input stream could be opened. */
    method Start(streamOpened: bool) returns (ok: bool)
      modifies this`isRunning, this`isPaused
      ensures ok == streamOpened
      ensures streamOpened ==> isRunning && !isPaused
      ensures !streamOpened ==> isRunning == old(isRunning) && isPaused == old(isPaused)
    {
      if streamOpened {
        isRunning := true;
        isPaused := false;
      }
      return streamOpened;
    }

    /** `stop`: the recording loop ends; the buffer is left as it is. */
    method Stop()
      modifies this`isRunning
      ensures !isRunning
    {
      isRunning := false;
    }

    /** `pause_recording`: sets the flag; nothing else changes. */
    method PauseRecording()
      modifies this`isPaused
      ensures isPaused
    {
      if !isPaused {
        isPaused := true;
      }
    }

    /**
     * `resume_recording`: from a paused recorder, clears the flag and
     * discards any partial recording; an unpaused recorder is left alone.
     */
    method ResumeRecording()
      requires Valid()
      modifies this`isPaused, this`frames, this`isRecording
      ensures Valid()
      ensures !isPaused
      ensures old(isPaused) ==> frames == [] && !isRecording
      ensures !old(isPaused) ==> frames == old(frames) && isRecording == old(isRecording)
    {
      if isPaused {
        isPaused := false;
        frames := [];
        isRecording := false;
      }
    }

    /** `_process_recorded_audio`: a buffer that passes the length gate goes to whisper-cli. */
    method ProcessRecordedAudio()
      requires Valid()
      modifies this`transcribed
      ensures LongEnough(|frames|, chunkSize, sampleRate, minAudioLength) ==>
        transcribed == old(transcribed) + [frames]
      ensures !LongEnough(|frames|, chunkSize, sampleRate, minAudioLength) ==>
        transcribed == old(transcribed)
    {
      if frames == [] {
        return;
      }
      var duration := (|frames| * chunkSize) as real / sampleRate as real;
      if duration < minAudioLength {
        return;
      }
      transcribed := transcribed + [frames];
    }

    /**
     * One pass of `_recording_loop` for a chunk with RMS level `rms` read at
     * time `now`. Speech starts or extends a recording; silence extends it
     * until the silence limit, then the buffer is processed and cleared.
     * A stopped or paused recorder reads nothing.
     */
    method VadStep(chunk: Chunk, rms: real, now: real)
      requires Valid()
      modifies this`isRecording, this`frames, this`lastAudioTime, this`transcribed
      ensures Valid()
      ensures !isRunning || isPaused ==>
        isRecording == old(isRecording) && frames == old(frames) &&
        lastAudioTime == old(lastAudioTime) && transcribed == old(transcribed)
      ensures isRunning && !isPaused && rms > silenceThreshold ==>
        && isRecording
        && frames == (if old(isRecording) then old(frames) else []) + [chunk]
        && lastAudioTime == now && transcribed == old(transcribed)
      ensures isRunning && !isPaused && rms <= silenceThreshold && !old(isRecording) ==>
        frames == [] && !isRecording && lastAudioTime == old(lastAudioTime) && transcribed == old(transcribed)
      ensures isRunning && !isPaused && rms <= silenceThreshold && old(isRecording) &&
              now - old(lastAudioTime) < silenceDurationLimit ==>
        isRecording && frames == old(frames) + [chunk] &&
        lastAudioTime == old(lastAudioTime) && transcribed == old(transcribed)
      ensures isRunning && !isPaused && rms <= silenceThreshold && old(isRecording) &&
              now - old(lastAudioTime) >= silenceDurationLimit ==>
        && !isRecording && frames == [] && lastAudioTime == old(lastAudioTime)
        && transcribed == old(transcribed) +
             (if LongEnough(|old(frames)|, chunkSize, sampleRate, minAudioLength) then [old(frames)] else [])
    {
      if !isRunning || isPaused {
        return;
      }
      if rms > silenceThreshold {
        if !isRecording {
          isRecording := true;
          frames := [];
        }
        frames := frames + [chunk];
        lastAudioTime := now;
      } else if isRecording {
        var silenceDuration := now - lastAudioTime;
        if silenceDuration < silenceDurationLimit {
          frames := frames + [chunk];
        } else {
          ProcessRecordedAudio();
          isRecording := false;
          frames := [];
        }
      }
    }
  }

  /** What PyAudio reports about one device. */
  datatype PaDevice = PaDevice(name: string, maxInputChannels: int)

  /**
   * `_find_device_index_by_name`: only a configured name mentioning "USB"
   * can match, and then the first input-capable device whose name mentions
   * "USB" is chosen. Without an open PyAudio instance there is no match.
   */
  method FindDeviceIndexByName(deviceName: string, devices: seq<PaDevice>, audioOpen: bool)
    returns (r: Option<nat>)
    ensures r.Some? ==>
      && audioOpen && Contains(deviceName, "USB")
      && r.value < |devices|
      && devices[r.value].maxInputChannels > 0 && Contains(devices[r.value].name, "USB")
      && forall j | 0 <= j < r.value :: !(devices[j].maxInputChannels > 0 && Contains(devices[j].name, "USB"))
    ensures r.None? ==>
      || !audioOpen || !Contains(deviceName, "USB")
      || forall j | 0 <= j < |devices| :: !(devices[j].maxInputChannels > 0 && Contains(devices[j].name, "USB"))
  {
    if !audioOpen {
      return None;
    }
    var i := 0;
    while i < |devices|
      invariant 0 <= i <= |devices|
      invariant Contains(deviceName, "USB") ==>
        forall j | 0 <= j < i :: !(devices[j].maxInputChannels > 0 && Contains(devices[j].name, "USB"))
    {
      var info := devices[i];
      if info.maxInputChannels > 0 {
        if Contains(deviceName, "USB") && Contains(info.name, "USB") {
          return Some(i);
        }
      }
      i := i + 1;
    }
    return None;
  }
}
