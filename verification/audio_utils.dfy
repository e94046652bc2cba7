/**
 * Audio helpers: the playback state of the `AudioPlayer`, the chatbot-wide
 * `StateManager` with its per-state callbacks, and the `SilenceDetector`.
 * The mixer, the playback threads and the monitoring thread are outside the
 * model: whether a file exists and when playback ends are inputs, and one
 * pass of the monitoring loop is one method call with the clock reading.
 */
module AudioUtils {
  import opened Common

  datatype AudioState = Idle | Playing | Paused

  class AudioPlayer {
    var state: AudioState
    var currentFile: Option<string>
    var isPlaying: bool
    var isLooping: bool

    /** The player is idle exactly when nothing is playing. */
    predicate Valid()
      reads this
    {
      state == Idle <==> !isPlaying
    }

    constructor ()
      ensures Valid()
      ensures state == Idle && currentFile == None && !isPlaying && !isLooping
    {
      state := Idle;
      currentFile := None;
      isPlaying := false;
      isLooping := false;
    }

    /** `stop`: ends any playback or loop; does nothing when neither is running. */
    method Stop()
      requires Valid()
      modifies this`state, this`isPlaying, this`isLooping
      ensures Valid()
      ensures old(isPlaying) || old(isLooping) ==> state == Idle && !isPlaying && !isLooping
      ensures !old(isPlaying) && !old(isLooping) ==>
        state == old(state) && isPlaying == old(isPlaying) && isLooping == old(isLooping)
      ensures state == Idle && !isPlaying && !isLooping
      ensures !IsBusy(false)
    {
      if isPlaying || isLooping {
        isLooping := false;
        state := Idle;
        isPlaying := false;
      }
    }

    /** `stop_loop`: ends a looping playback; does nothing otherwise. */
    method StopLoop()
      requires Valid()
      modifies this`state, this`isPlaying, this`isLooping
      ensures Valid()
      ensures old(isLooping) ==> state == Idle && !isPlaying && !isLooping
      ensures !old(isLooping) ==>
        state == old(state) && isPlaying == old(isPlaying) && isLooping == old(isLooping)
    {
      if isLooping {
        isLooping := false;
        state := Idle;
        isPlaying := false;
      }
    }

    /**
     * `play`: a missing file is refused with no change of state. Otherwise
     * the current playback is stopped and the file starts playing; in
     * blocking mode the call returns only after playback ended, idle again,
     * with `playbackOk` telling whether the mixer played it.
     */
    method Play(audioFile: string, fileExists: bool, blocking: bool, playbackOk: bool) returns (ok: bool)
      requires Valid()
      modifies this`state, this`isPlaying, this`isLooping, this`currentFile
      ensures Valid()
      ensures !fileExists ==>
        !ok && state == old(state) && isPlaying == old(isPlaying) &&
        isLooping == old(isLooping) && currentFile == old(currentFile)
      ensures fileExists ==> currentFile == Some(audioFile) && !isLooping
      ensures fileExists && !blocking ==> ok && state == Playing && isPlaying
      ensures fileExists && blocking ==> ok == playbackOk && state == Idle && !isPlaying
    {
      if !fileExists {
        return false;
      }
      Stop();
      currentFile := Some(audioFile);
      state := Playing;
      isPlaying := true;
      if blocking {
        state := Idle;
        isPlaying := false;
        return playbackOk;
      }
      return true;
    }

    /** `play_loop`: like a non-blocking `play`, marked as looping. */
    method PlayLoop(audioFile: string, fileExists: bool) returns (ok: bool)
      requires Valid()
      modifies this`state, this`isPlaying, this`isLooping, this`currentFile
      ensures Valid()
      ensures ok == fileExists
      ensures !fileExists ==>
        state == old(state) && isPlaying == old(isPlaying) &&
        isLooping == old(isLooping) && currentFile == old(currentFile)
      ensures fileExists ==> currentFile == Some(audioFile) && state == Playing && isPlaying && isLooping
    {
      if !fileExists {
        return false;
      }
      Stop();
      currentFile := Some(audioFile);
      state := Playing;
      isPlaying := true;
      isLooping := true;
      return true;
    }

    /** The playback thread finished (its `finally` block): idle again. */
    method PlaybackEnded()
      modifies this`state, this`isPlaying
      ensures Valid()
      ensures state == Idle && !isPlaying
    {
      state := Idle;
      isPlaying := false;
    }

    /** `pause`: only a playing player becomes paused. */
    method Pause()
      requires Valid()
      modifies this`state
      ensures Valid()
      ensures old(state) == Playing ==> state == Paused
      ensures old(state) != Playing ==> state == old(state)
    {
      if state == Playing {
        state := Paused;
      }
    }

    /** `resume`: only a paused player plays again. */
    method Resume()
      requires Valid()
      modifies this`state
      ensures Valid()
      ensures old(state) == Paused ==> state == Playing
      ensures old(state) != Paused ==> state == old(state)
    {
      if state == Paused {
        state := Playing;
      }
    }

    /**
     * `is_busy`: our own playback always counts as busy; without it, the
     * player is busy exactly when the mixer still reports sound.
     */
    function IsBusy(mixerBusy: bool): (b: bool)
      reads this
      ensures isPlaying ==> b
      ensures !isPlaying ==> (b <==> mixerBusy)
    {
      isPlaying || mixerBusy
    }
  }

  /** Callables are compared by identity; an identity stands for each one. */
  type Callback = nat

  /** The `{}` default for a missing `data` argument is the empty map. */
  type StateData = map<string, string>

  /** One call `callback(old_state, new_state, data)`. */
  datatype Invocation = Invocation(callback: Callback, oldState: string, newState: string, data: StateData)

  /** The calls `set_state` makes: every callback of the new state, in registration order. */
  function Notifications(callbacks: seq<Callback>, oldState: string, newState: string, data: StateData): (r: seq<Invocation>)
    ensures |r| == |callbacks|
    ensures forall i | 0 <= i < |r| :: r[i] == Invocation(callbacks[i], oldState, newState, data)
  {
    seq(|callbacks|, i requires 0 <= i < |callbacks| => Invocation(callbacks[i], oldState, newState, data))
  }

  /**
   * A callback registered last is called last, after the calls the earlier
   * registrations already make, which are unchanged.
   */
  lemma RegisteredLastIsCalledLast(callbacks: seq<Callback>, x: Callback, oldState: string, newState: string, data: StateData)
    ensures Notifications(callbacks + [x], oldState, newState, data)
         == Notifications(callbacks, oldState, newState, data) + [Invocation(x, oldState, newState, data)]
  {
  }

  /** A callback is called by `set_state` exactly when it is registered for the new state. */
  lemma CalledIffRegistered(callbacks: seq<Callback>, x: Callback, oldState: string, newState: string, data: StateData)
    ensures (exists i | 0 <= i < |callbacks| :: Notifications(callbacks, oldState, newState, data)[i].callback == x)
        <==> x in callbacks
  {
    if x in callbacks {
      var i :| 0 <= i < |callbacks| && callbacks[i] == x;
      assert Notifications(callbacks, oldState, newState, data)[i].callback == x;
    }
  }

  /** `list.remove(x)`, with the `ValueError` of an absent element turned into no change. */
  function RemoveFirst(s: seq<Callback>, x: Callback): (r: seq<Callback>)
    ensures x !in s ==> r == s
    ensures x in s ==> |r| == |s| - 1
    ensures multiset(r) == multiset(s) - multiset{x}
  {
    if s == [] then []
    else if s[0] == x then
      assert s == [s[0]] + s[1..];
      s[1..]
    else
      assert s == [s[0]] + s[1..];
      [s[0]] + RemoveFirst(s[1..], x)
  }

  /** Only the first occurrence goes: what precedes it and what follows it are kept. */
  lemma {:induction false} RemoveFirstAt(s: seq<Callback>, x: Callback, k: int)
    requires 0 <= k < |s| && s[k] == x && x !in s[..k]
    ensures RemoveFirst(s, x) == s[..k] + s[k + 1..]
  {
    if k > 0 {
      assert s[0] != x by {
        assert s[..k][0] == s[0];
      }
      assert s[1..][..k - 1] == s[1..k];
      assert x !in s[1..][..k - 1];
      RemoveFirstAt(s[1..], x, k - 1);
      assert s[..k] == [s[0]] + s[1..][..k - 1];
      assert s[k + 1..] == s[1..][k..];
    }
  }

  /** Registering a new callback and unregistering it again leaves the list as it was. */
  lemma RegisterUnregister(s: seq<Callback>, x: Callback)
    requires x !in s
    ensures RemoveFirst(s + [x], x) == s
  {
    assert (s + [x])[..|s|] == s;
    assert (s + [x])[|s| + 1..] == [];
    RemoveFirstAt(s + [x], x, |s|);
  }

  class StateManager {
    var currentState: string
    var stateCallbacks: map<string, seq<Callback>>
    /** Every callback call made so far, oldest first. */
    var invoked: seq<Invocation>

    constructor ()
      ensures currentState == "idle" && stateCallbacks == map[] && invoked == []
    {
      currentState := "idle";
      stateCallbacks := map[];
      invoked := [];
    }

    function CallbacksFor(state: string): seq<Callback>
      reads this
    {
      if state in stateCallbacks then stateCallbacks[state] else []
    }

    /**
     * `set_state`: the new state becomes current, then each of its callbacks
     * is called in order with the old state, the new one and the data (`{}`
     * when none). A callback that raises is reported and the loop goes on,
     * so every one of them is called.
     */
    method SetState(newState: string, data: Option<StateData>)
      modifies this`currentState, this`invoked
      ensures currentState == newState && GetState() == newState
      ensures forall state :: IsState(state) <==> state == newState
      ensures invoked == old(invoked) + Notifications(CallbacksFor(newState), old(currentState), newState, data.GetOr(map[]))
    {
      var oldState := currentState;
      currentState := newState;
      var d := data.GetOr(map[]);
      var cbs := CallbacksFor(newState);
      var i := 0;
      while i < |cbs|
        invariant 0 <= i <= |cbs|
        invariant currentState == newState
        invariant invoked == old(invoked) + Notifications(cbs[..i], oldState, newState, d)
      {
        invoked := invoked + [Invocation(cbs[i], oldState, newState, d)];
        assert cbs[..i + 1] == cbs[..i] + [cbs[i]];
        i := i + 1;
      }
      assert cbs[..i] == cbs;
    }

    /** `get_state`: the state the last `set_state` put in place ("idle" before any). */
    function GetState(): (s: string)
      reads this
      ensures s == currentState
    {
      currentState
    }

    /** `is_state`: defined through `get_state`. */
    function IsState(state: string): (b: bool)
      reads this
      ensures b <==> GetState() == state
    {
      currentState == state
    }

    /** `register_callback`: appended after the callbacks already registered for that state. */
    method RegisterCallback(state: string, callback: Callback)
      modifies this`stateCallbacks
      ensures stateCallbacks == old(stateCallbacks)[state := old(CallbacksFor(state)) + [callback]]
    {
      if state !in stateCallbacks {
        stateCallbacks := stateCallbacks[state := []];
      }
      stateCallbacks := stateCallbacks[state := stateCallbacks[state] + [callback]];
    }

    /** `unregister_callback`: removes the first registration; absent ones are ignored. */
    method UnregisterCallback(state: string, callback: Callback)
      modifies this`stateCallbacks
      ensures state !in old(stateCallbacks) ==> stateCallbacks == old(stateCallbacks)
      ensures state in old(stateCallbacks) ==>
        stateCallbacks == old(stateCallbacks)[state := RemoveFirst(old(stateCallbacks)[state], callback)]
    {
      if state in stateCallbacks {
        stateCallbacks := stateCallbacks[state := RemoveFirst(stateCallbacks[state], callback)];
      }
    }
  }

  class SilenceDetector {
    /** Seconds of silence that count as the end of speech (2.0 by default). */
    const threshold: real
    /** Clock reading of the last activity; 0 means none since the last trigger. */
    var lastActivityTime: real
    var isMonitoring: bool
    var callbacks: seq<Callback>
    /** Every callback call made so far, with the silence duration it was given. */
    var fired: seq<(Callback, real)>

    constructor (threshold: real := 2.0)
      ensures this.threshold == threshold
      ensures lastActivityTime == 0.0 && !isMonitoring && callbacks == [] && fired == []
    {
      this.threshold := threshold;
      lastActivityTime := 0.0;
      isMonitoring := false;
      callbacks := [];
      fired := [];
    }

    method StartMonitoring()
      modifies this`isMonitoring
      ensures isMonitoring
    {
      if !isMonitoring {
        isMonitoring := true;
      }
    }

    method StopMonitoring()
      modifies this`isMonitoring
      ensures !isMonitoring
    {
      if isMonitoring {
        isMonitoring := false;
      }
    }

    method UpdateActivity(now: real)
      modifies this`lastActivityTime
      ensures lastActivityTime == now
    {
      lastActivityTime := now;
    }

    /** `get_silence_duration`: zero until some activity was seen. */
    function SilenceDuration(now: real): (d: real)
      reads this
      ensures lastActivityTime == 0.0 ==> d == 0.0
      ensures lastActivityTime != 0.0 ==> d + lastActivityTime == now
    {
      if lastActivityTime == 0.0 then 0.0 else now - lastActivityTime
    }

    method RegisterCallback(callback: Callback)
      modifies this`callbacks
      ensures callbacks == old(callbacks) + [callback]
    {
      callbacks := callbacks + [callback];
    }

    /**
     * One pass of `_monitor_silence` at time `now`: once the silence since
     * the last activity reaches the threshold, every callback is called in
     * order with that duration and the activity time is reset to 0, so the
     * same silence does not fire again.
     */
    method MonitorStep(now: real)
      modifies this`lastActivityTime, this`fired
      ensures var d := now - old(lastActivityTime);
        if isMonitoring && old(lastActivityTime) > 0.0 && d >= threshold then
          fired == old(fired) + Fired(callbacks, d) && lastActivityTime == 0.0
        else
          fired == old(fired) && lastActivityTime == old(lastActivityTime)
    {
      if !isMonitoring {
        return;
      }
      if lastActivityTime > 0.0 {
        var silenceDuration := SilenceDuration(now);
        if silenceDuration >= threshold {
          var i := 0;
          while i < |callbacks|
            invariant 0 <= i <= |callbacks|
            invariant fired == old(fired) + Fired(callbacks[..i], silenceDuration)
          {
            fired := fired + [(callbacks[i], silenceDuration)];
            assert callbacks[..i + 1] == callbacks[..i] + [callbacks[i]];
            i := i + 1;
          }
          assert callbacks[..i] == callbacks;
          lastActivityTime := 0.0;
        }
      }
    }
  }

  /**
   * The silence a detector reports grows with the clock, at the clock's
   * pace once some activity was seen, starting from zero at the moment of
   * that activity.
   */
  lemma SilenceGrowsWithTime(sd: SilenceDetector, now1: real, now2: real)
    requires now1 <= now2
    ensures sd.SilenceDuration(now1) <= sd.SilenceDuration(now2)
    ensures sd.lastActivityTime != 0.0 ==> sd.SilenceDuration(now2) - sd.SilenceDuration(now1) == now2 - now1
    ensures sd.lastActivityTime != 0.0 ==> sd.SilenceDuration(sd.lastActivityTime) == 0.0
  {
  }

  /** The calls one trigger makes: each callback once, in order, with the duration. */
  function Fired(callbacks: seq<Callback>, duration: real): (r: seq<(Callback, real)>)
    ensures |r| == |callbacks|
    ensures forall i | 0 <= i < |r| :: r[i] == (callbacks[i], duration)
  {
    seq(|callbacks|, i requires 0 <= i < |callbacks| => (callbacks[i], duration))
  }
}
