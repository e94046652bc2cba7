/**
 * The timeout manager: two independent timer slots, one for the
 * conversation timeout (silence after the assistant spoke) and one for the
 * idle timeout (time spent in light sleep). Each slot holds at most one
 * timer. Starting a slot cancels whatever it held; resetting or stopping it
 * cancels and forgets the timer. Time is a logical clock advanced by `Tick`,
 * which fires every armed timer whose deadline has come.
 */
module Timeouts {

  /**
   * The handle a slot keeps: no timer, a live timer due at `deadline`, or a
   * timer whose thread has already run (the handle is kept but is no longer
   * alive).
   */
  datatype Slot = Empty | Armed(deadline: int) | Expired

  /** Which of the two timers fired. */
  datatype TimerName = Conversation | Idle

  /** `timer is not None and timer.is_alive()`. */
  predicate IsLive(s: Slot) {
    s.Armed?
  }

  /** The effect of the clock reaching `t` on one slot: the slot after, and whether it fired. */
  function Step(s: Slot, t: int): (Slot, bool) {
    if s.Armed? && s.deadline <= t then (Expired, true) else (s, false)
  }

  /** A slot fires at most once: once it has fired it is no longer live and fires no more. */
  lemma StepFiresOnce(s: Slot, t: int, u: int)
    ensures var (s1, f1) := Step(s, t);
      (f1 ==> !IsLive(s1) && !Step(s1, u).1)
  {
  }

  /** The operations a caller can apply to one timer slot, and the passing of time. */
  datatype TimerOp = Start | Reset | Stop | Wait(dt: nat)

  /**
   * One operation on a slot whose timeout is `duration`, at clock value
   * `now`: the slot after it, the clock after it, and whether the slot fired.
   */
  function Apply(s: Slot, now: int, duration: nat, op: TimerOp): (Slot, int, bool) {
    match op
    case Start => (Armed(now + duration), now, false)
    case Reset => (Empty, now, false)
    case Stop => (Empty, now, false)
    case Wait(dt) => (Step(s, now + dt).0, now + dt, Step(s, now + dt).1)
  }

  /**
   * The times at which a slot's callback runs when `ops` are applied from
   * clock value `now`, with `duration` the slot's timeout.
   */
  function Run(s: Slot, now: int, duration: nat, ops: seq<TimerOp>): seq<int>
    decreases |ops|
  {
    if ops == [] then []
    else
      var (s', now', fired) := Apply(s, now, duration, ops[0]);
      (if fired then [now'] else []) + Run(s', now', duration, ops[1..])
  }

  /** The number of `Start` operations in a trace. */
  function Starts(ops: seq<TimerOp>): nat {
    if ops == [] then 0 else (if ops[0].Start? then 1 else 0) + Starts(ops[1..])
  }

  /**
   * At most one live timer per slot: over any trace, the callback runs at
   * most once per start (plus once for a timer already armed at the outset).
   */
  lemma {:induction false} FiresAtMostOncePerStart(s: Slot, now: int, duration: nat, ops: seq<TimerOp>)
    ensures |Run(s, now, duration, ops)| <= Starts(ops) + (if IsLive(s) then 1 else 0)
    decreases |ops|
  {
    if ops != [] {
      match ops[0]
      case Start => FiresAtMostOncePerStart(Armed(now + duration), now, duration, ops[1..]);
      case Reset => FiresAtMostOncePerStart(Empty, now, duration, ops[1..]);
      case Stop => FiresAtMostOncePerStart(Empty, now, duration, ops[1..]);
      case Wait(dt) =>
        var (s', fired) := Step(s, now + dt);
        FiresAtMostOncePerStart(s', now + dt, duration, ops[1..]);
    }
  }

  /** A slot that is not live never fires until it is started again. */
  lemma {:induction false} DeadSlotNeverFires(s: Slot, now: int, duration: nat, ops: seq<TimerOp>)
    requires !IsLive(s) && Starts(ops) == 0
    ensures Run(s, now, duration, ops) == []
    decreases |ops|
  {
    if ops != [] {
      match ops[0]
      case Start =>
      case Reset => DeadSlotNeverFires(Empty, now, duration, ops[1..]);
      case Stop => DeadSlotNeverFires(Empty, now, duration, ops[1..]);
      case Wait(dt) => DeadSlotNeverFires(s, now + dt, duration, ops[1..]);
    }
  }

  /** A trace made only of the passing of time. */
  predicate AllWaits(ops: seq<TimerOp>) {
    forall i | 0 <= i < |ops| :: ops[i].Wait?
  }

  /** The total time a trace of waits lets pass. */
  function TotalWait(ops: seq<TimerOp>): nat
    requires AllWaits(ops)
  {
    if ops == [] then 0 else ops[0].dt + TotalWait(ops[1..])
  }

  /** A trace of waits starts nothing. */
  lemma {:induction false} WaitsStartNothing(ops: seq<TimerOp>)
    requires AllWaits(ops)
    ensures Starts(ops) == 0
  {
    if ops != [] {
      WaitsStartNothing(ops[1..]);
    }
  }

  /**
   * Waits that end before an armed timer's deadline fire nothing and leave
   * the timer armed; whatever follows then runs on the same timer.
   */
  lemma {:induction false} WaitsBeforeDeadline(deadline: int, now: int, duration: nat,
                                               waits: seq<TimerOp>, rest: seq<TimerOp>)
    requires AllWaits(waits) && now + TotalWait(waits) < deadline
    ensures Run(Armed(deadline), now, duration, waits + rest)
         == Run(Armed(deadline), now + TotalWait(waits), duration, rest)
    decreases |waits|
  {
    if waits == [] {
      assert waits + rest == rest;
    } else {
      var dt := waits[0].dt;
      assert (waits + rest)[0] == Wait(dt);
      assert (waits + rest)[1..] == waits[1..] + rest;
      assert Step(Armed(deadline), now + dt) == (Armed(deadline), false);
      WaitsBeforeDeadline(deadline, now + dt, duration, waits[1..], rest);
    }
  }

  /**
   * Waits that reach an armed timer's deadline fire it exactly once, no
   * earlier than the deadline and no later than the end of the waits.
   */
  lemma {:induction false} WaitsReachDeadline(deadline: int, now: int, duration: nat, waits: seq<TimerOp>)
    requires AllWaits(waits) && waits != [] && now + TotalWait(waits) >= deadline
    ensures var r := Run(Armed(deadline), now, duration, waits);
      |r| == 1 && deadline <= r[0] <= now + TotalWait(waits)
    decreases |waits|
  {
    var dt := waits[0].dt;
    if now + dt >= deadline {
      WaitsStartNothing(waits[1..]);
      DeadSlotNeverFires(Expired, now + dt, duration, waits[1..]);
    } else {
      WaitsReachDeadline(deadline, now + dt, duration, waits[1..]);
    }
  }

  /**
   * A timer reset or stopped before its duration elapses never invokes its
   * callback, however the time before the cancellation is split up and
   * whatever happens afterwards short of a new start.
   */
  lemma CancelledTimerNeverFires(now: int, duration: nat, waits: seq<TimerOp>, cancel: TimerOp, later: seq<TimerOp>)
    requires AllWaits(waits) && TotalWait(waits) < duration
    requires (cancel == Reset || cancel == Stop) && Starts(later) == 0
    ensures Run(Empty, now, duration, [Start] + waits + [cancel] + later) == []
  {
    var ops := [Start] + waits + [cancel] + later;
    assert ops[1..] == waits + ([cancel] + later);
    WaitsBeforeDeadline(now + duration, now, duration, waits, [cancel] + later);
    var t := now + TotalWait(waits);
    assert ([cancel] + later)[1..] == later;
    DeadSlotNeverFires(Empty, t, duration, later);
  }

  /**
   * A timer left armed for its full duration invokes its callback exactly
   * once, however the time is split up: at the first moment the clock
   * reaches or passes the deadline, so never before it.
   */
  lemma FullDurationFires(now: int, duration: nat, waits: seq<TimerOp>)
    requires AllWaits(waits) && waits != [] && TotalWait(waits) >= duration
    ensures var r := Run(Empty, now, duration, [Start] + waits);
      |r| == 1 && now + duration <= r[0] <= now + TotalWait(waits)
  {
    assert ([Start] + waits)[1..] == waits;
    WaitsReachDeadline(now + duration, now, duration, waits);
  }

  /** Restarting a live timer replaces it: only the second deadline counts. */
  lemma RestartPostponesDeadline(now: int, duration: nat, early: nat)
    requires 0 < early < duration
    ensures Run(Empty, now, duration, [Start, Wait(early), Start, Wait(duration - 1)]) == []
    ensures Run(Empty, now, duration, [Start, Wait(early), Start, Wait(duration)]) == [now + early + duration]
  {
    var a := [Start, Wait(early), Start, Wait(duration - 1)];
    assert a[1..] == [Wait(early), Start, Wait(duration - 1)];
    assert a[1..][1..] == [Start, Wait(duration - 1)];
    assert a[1..][1..][1..] == [Wait(duration - 1)];
    assert a[1..][1..][1..][1..] == [];
    var d2 := now + early + duration;
    assert Step(Armed(now + duration), now + early) == (Armed(now + duration), false);
    assert Step(Armed(d2), now + early + duration - 1) == (Armed(d2), false);
    calc {
      Run(Empty, now, duration, a);
      Run(Armed(now + duration), now, duration, a[1..]);
      Run(Armed(now + duration), now + early, duration, a[1..][1..]);
      Run(Armed(d2), now + early, duration, a[1..][1..][1..]);
      Run(Armed(d2), now + early + duration - 1, duration, []);
    }
    var b := [Start, Wait(early), Start, Wait(duration)];
    assert b[1..] == [Wait(early), Start, Wait(duration)];
    assert b[1..][1..] == [Start, Wait(duration)];
    assert b[1..][1..][1..] == [Wait(duration)];
    assert b[1..][1..][1..][1..] == [];
    assert Step(Armed(d2), d2) == (Expired, true);
    calc {
      Run(Empty, now, duration, b);
      Run(Armed(now + duration), now, duration, b[1..]);
      Run(Armed(now + duration), now + early, duration, b[1..][1..]);
      Run(Armed(d2), now + early, duration, b[1..][1..][1..]);
      [d2] + Run(Expired, d2, duration, []);
    }
  }

  /** The two timers and the callbacks registered for them. */
  class TimeoutManager {
    /** Seconds of silence before the conversation times out (30 by default). */
    const conversationTimeout: nat
    /** Seconds in light sleep before the idle timeout (300 by default). */
    const idleTimeout: nat
    /** The logical clock. */
    var now: int
    var conversation: Slot
    var idle: Slot
    var hasConversationCallback: bool
    var hasIdleCallback: bool
    /** The callbacks invoked so far, in order. */
    var dispatched: seq<TimerName>

    /** No live timer is overdue: every armed deadline lies at or after the clock. */
    predicate Valid()
      reads this
    {
      (conversation.Armed? ==> conversation.deadline >= now)
      && (idle.Armed? ==> idle.deadline >= now)
    }

    constructor (conversationTimeout: nat := 30, idleTimeout: nat := 300)
      ensures Valid()
      ensures this.conversationTimeout == conversationTimeout && this.idleTimeout == idleTimeout
      ensures now == 0 && conversation == Empty && idle == Empty
      ensures !hasConversationCallback && !hasIdleCallback && dispatched == []
    {
      this.conversationTimeout := conversationTimeout;
      this.idleTimeout := idleTimeout;
      now := 0;
      conversation := Empty;
      idle := Empty;
      hasConversationCallback := false;
      hasIdleCallback := false;
      dispatched := [];
    }

    method RegisterConversationCallback()
      modifies this`hasConversationCallback
      ensures hasConversationCallback
    {
      hasConversationCallback := true;
    }

    method RegisterIdleCallback()
      modifies this`hasIdleCallback
      ensures hasIdleCallback
    {
      hasIdleCallback := true;
    }

    /** Cancels any conversation timer and arms a new one a full timeout from now. */
    method StartConversationTimer()
      requires Valid()
      modifies this`conversation
      ensures Valid()
      ensures conversation == Armed(now + conversationTimeout)
      ensures IsConversationTimerActive()
    {
      conversation := Armed(now + conversationTimeout);
    }

    /** Cancels the conversation timer, if any, and forgets it. */
    method StopConversationTimer()
      requires Valid()
      modifies this`conversation
      ensures Valid()
      ensures conversation == Empty && !IsConversationTimerActive()
    {
      if conversation != Empty {
        conversation := Empty;
      }
    }

    /** The user is active: same effect as stopping the conversation timer. */
    method ResetConversationTimer()
      requires Valid()
      modifies this`conversation
      ensures Valid()
      ensures conversation == Empty && !IsConversationTimerActive()
    {
      StopConversationTimer();
    }

    /** Cancels any idle timer and arms a new one a full timeout from now. */
    method StartIdleTimer()
      requires Valid()
      modifies this`idle
      ensures Valid()
      ensures idle == Armed(now + idleTimeout)
      ensures IsIdleTimerActive()
    {
      idle := Armed(now + idleTimeout);
    }

    /** Cancels the idle timer, if any, and forgets it. */
    method StopIdleTimer()
      requires Valid()
      modifies this`idle
      ensures Valid()
      ensures idle == Empty && !IsIdleTimerActive()
    {
      if idle != Empty {
        idle := Empty;
      }
    }

    /** The wake word was heard: same effect as stopping the idle timer. */
    method ResetIdleTimer()
      requires Valid()
      modifies this`idle
      ensures Valid()
      ensures idle == Empty && !IsIdleTimerActive()
    {
      StopIdleTimer();
    }

    method StopAllTimers()
      requires Valid()
      modifies this`conversation, this`idle
      ensures Valid()
      ensures conversation == Empty && idle == Empty
      ensures !IsConversationTimerActive() && !IsIdleTimerActive()
    {
      StopConversationTimer();
      StopIdleTimer();
    }

    /** `is_conversation_timer_active`: a timer is held and has not run yet, so its deadline is still ahead. */
    function IsConversationTimerActive(): (b: bool)
      reads this
      ensures b <==> conversation.Armed?
      ensures b && Valid() ==> conversation.deadline >= now
    {
      IsLive(conversation)
    }

    /** `is_idle_timer_active`: a timer is held and has not run yet, so its deadline is still ahead. */
    function IsIdleTimerActive(): (b: bool)
      reads this
      ensures b <==> idle.Armed?
      ensures b && Valid() ==> idle.deadline >= now
    {
      IsLive(idle)
    }

    /**
     * One operation of `Run` carried out on the conversation slot by the
     * manager's own calls: the slot, the clock and whether it fired move
     * exactly as `Apply` says, and the idle slot only takes part in a wait.
     */
    method ApplyToConversation(op: TimerOp) returns (fired: bool)
      requires Valid()
      modifies this`now, this`conversation, this`idle, this`dispatched
      ensures Valid()
      ensures (conversation, now, fired) == Apply(old(conversation), old(now), conversationTimeout, op)
      ensures !op.Wait? ==> idle == old(idle) && dispatched == old(dispatched)
      ensures op.Wait? ==>
        && idle == Step(old(idle), now).0
        && dispatched == old(dispatched)
             + (if fired && hasConversationCallback then [Conversation] else [])
             + (if Step(old(idle), now).1 && hasIdleCallback then [Idle] else [])
    {
      match op
      case Start =>
        StartConversationTimer();
        fired := false;
      case Reset =>
        ResetConversationTimer();
        fired := false;
      case Stop =>
        StopConversationTimer();
        fired := false;
      case Wait(dt) =>
        fired := Step(conversation, now + dt).1;
        Tick(dt);
    }

    /**
     * One operation of `Run` carried out on the idle slot by the manager's
     * own calls, as `ApplyToConversation` does for the conversation slot.
     */
    method ApplyToIdle(op: TimerOp) returns (fired: bool)
      requires Valid()
      modifies this`now, this`conversation, this`idle, this`dispatched
      ensures Valid()
      ensures (idle, now, fired) == Apply(old(idle), old(now), idleTimeout, op)
      ensures !op.Wait? ==> conversation == old(conversation) && dispatched == old(dispatched)
      ensures op.Wait? ==>
        && conversation == Step(old(conversation), now).0
        && dispatched == old(dispatched)
             + (if Step(old(conversation), now).1 && hasConversationCallback then [Conversation] else [])
             + (if fired && hasIdleCallback then [Idle] else [])
    {
      match op
      case Start =>
        StartIdleTimer();
        fired := false;
      case Reset =>
        ResetIdleTimer();
        fired := false;
      case Stop =>
        StopIdleTimer();
        fired := false;
      case Wait(dt) =>
        fired := Step(idle, now + dt).1;
        Tick(dt);
    }

    /**
     * The clock advances by `dt`. Each timer whose deadline has come runs
     * its thread: the registered callback, if any, is invoked (an exception
     * it raises is caught, so the manager carries on), and the handle stays
     * in its slot, no longer alive.
     */
    method Tick(dt: nat)
      requires Valid()
      modifies this`now, this`conversation, this`idle, this`dispatched
      ensures Valid()
      ensures now == old(now) + dt
      ensures (conversation, idle) == (Step(old(conversation), now).0, Step(old(idle), now).0)
      ensures dispatched == old(dispatched)
        + (if Step(old(conversation), now).1 && hasConversationCallback then [Conversation] else [])
        + (if Step(old(idle), now).1 && hasIdleCallback then [Idle] else [])
    {
      now := now + dt;
      var (c, cFired) := Step(conversation, now);
      conversation := c;
      if cFired && hasConversationCallback {
        dispatched := dispatched + [Conversation];
      }
      var (i, iFired) := Step(idle, now);
      idle := i;
      if iFired && hasIdleCallback {
        dispatched := dispatched + [Idle];
      }
    }
  }
}
